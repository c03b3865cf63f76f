/**
 * What one call of `HandleNextUpdatesAsync` does to the dispatcher's state,
 * stated without its loop: which updates of a batch are handled, what the
 * processed-id collection, the processed-messages counter and the log of
 * outgoing requests become, and where an exception leaves them. The
 * methods in module HostedService are proved against these functions.
 */
module Dispatch {
  import opened Updates

  /** The step of an update's handling that throws. */
  datatype Step =
    | Forwarding  // the Fluentd URL lookup or `HttpClient.SendAsync` throws
    | Replying    // `SendTextMessageAsync` throws

  /** Which handled update, if any, raises an exception during a batch. */
  datatype Fault = NoFault | Throws(at: nat, step: Step)

  /** The processed ids, the counter's value and the requests sent so far. */
  datatype State = State(processed: seq<int>, count: nat, effects: seq<Effect>)

  /** The state after a batch, and whether the batch ended in an exception. */
  datatype Outcome = Outcome(after: State, threw: bool)

  /** Some update of `b` passes the type and sender tests and has id `x`. */
  predicate SeenIn(b: seq<Update>, x: int)
  {
    exists k :: 0 <= k < |b| && IsUserText(b[k]) && b[k].id == x
  }

  /**
   * `b[j]` is handled when `b` is handled against the processed ids `p`:
   * it passes the filter against `p`, and no earlier update of the batch
   * that passes the type and sender tests has the same id.
   */
  predicate FirstFresh(p: seq<int>, b: seq<Update>, j: nat)
    requires j < |b|
  {
    Accepts(p, b[j]) && !SeenIn(b[..j], b[j].id)
  }

  /**
   * The updates of `b` that are handled, in batch order (the lazily
   * filtered `updatesToProcess`). Lemma `HandledPassFilter` shows that each
   * is an update of the batch passing the filter against the ids marked
   * before the batch.
   */
  function Kept(p: seq<int>, b: seq<Update>): (h: seq<Update>)
    ensures |h| <= |b|
    decreases |b|
  {
    if b == [] then []
    else
      var n := |b| - 1;
      Kept(p, b[..n]) + (if FirstFresh(p, b, n) then [b[n]] else [])
  }

  /** For each handled update, its forward followed by its echo reply. */
  function EffectsOf(h: seq<Update>): seq<Effect>
    decreases |h|
  {
    if h == [] then []
    else
      var n := |h| - 1;
      EffectsOf(h[..n]) + [ForwardOf(h[n]), EchoOf(h[n])]
  }

  /** The message ids carried by the forward requests among `es`, in order. */
  function ForwardIds(es: seq<Effect>): seq<int>
    decreases |es|
  {
    if es == [] then []
    else
      var n := |es| - 1;
      ForwardIds(es[..n]) + (if es[n].Forward? then [es[n].payload.messageId] else [])
  }

  /** The state after every update of `h` was handled completely. */
  function After(s: State, h: seq<Update>): State
  {
    State(s.processed + Ids(h), s.count + |h|, s.effects + EffectsOf(h))
  }

  /**
   * One call of `HandleNextUpdatesAsync` on batch `b` from state `s`. With no
   * exception every kept update is handled. When handling kept update
   * `b[k]` throws, the updates kept before it are handled completely, `b[k]`
   * is marked and counted, its forward is sent only when the reply is what
   * throws, and nothing after it is looked at.
   */
  function HandleBatch(s: State, b: seq<Update>, f: Fault): (r: Outcome)
    ensures s.processed <= r.after.processed && s.effects <= r.after.effects
    ensures r.after.count - s.count == |r.after.processed| - |s.processed|
  {
    if f.Throws? && f.at < |b| && FirstFresh(s.processed, b, f.at) then
      var k := f.at;
      var t := After(s, Kept(s.processed, b[..k]));
      var sent := if f.step == Replying then [ForwardOf(b[k])] else [];
      Outcome(State(t.processed + [b[k].id], t.count + 1, t.effects + sent), true)
    else
      Outcome(After(s, Kept(s.processed, b)), false)
  }

  /**
   * The invariant of the dispatcher's state: no id is recorded twice, no
   * message is forwarded twice, and every forwarded message is marked.
   */
  predicate Inv(s: State)
  {
    && Distinct(s.processed)
    && Distinct(ForwardIds(s.effects))
    && forall x :: x in ForwardIds(s.effects) ==> x in s.processed
  }

  /**
   * `r` is a later state than `s`: ids were only added, requests only
   * appended, the counter grew by the number of ids added, and every
   * message forwarded since `s` is marked in `r` and was not marked in `s`.
   */
  predicate Extends(s: State, r: State)
  {
    && s.processed <= r.processed
    && s.effects <= r.effects
    && r.count - s.count == |r.processed| - |s.processed|
    && forall x :: x in ForwardIds(r.effects[|s.effects|..]) ==> x !in s.processed && x in r.processed
  }

  /** One iteration of the polling loop: a failed fetch changes nothing. */
  datatype Poll = Poll(fetched: Option<seq<Update>>, fault: Fault)

  /** The `try`/`catch` around one call: an exception is dropped with the state it left. */
  function Cycle(s: State, c: Poll): (r: State)
    ensures c.fetched.None? ==> r == s
    ensures s.processed <= r.processed && s.effects <= r.effects
    ensures r.count - s.count == |r.processed| - |s.processed|
  {
    match c.fetched
    case None => s
    case Some(b) => HandleBatch(s, b, c.fault).after
  }

  /** The state after the polling loop has run the cycles `cs` in order. */
  function Polls(s: State, cs: seq<Poll>): (r: State)
    ensures s.processed <= r.processed && s.effects <= r.effects
    ensures r.count - s.count == |r.processed| - |s.processed|
    decreases |cs|
  {
    if cs == [] then s else Cycle(Polls(s, cs[..|cs| - 1]), cs[|cs| - 1])
  }

  // ----- Which updates are handled -----

  lemma SeenInSnoc(b: seq<Update>, x: int)
    requires b != []
    ensures SeenIn(b, x) <==> SeenIn(b[..|b| - 1], x) || (IsUserText(b[|b| - 1]) && b[|b| - 1].id == x)
  {
  }

  /** An id is marked by handling `b` exactly when it is new and some user text update of `b` has it. */
  lemma {:induction false} KeptIds(p: seq<int>, b: seq<Update>)
    ensures forall x :: x in Ids(Kept(p, b)) <==> x !in p && SeenIn(b, x)
    decreases |b|
  {
    if b != [] {
      var n := |b| - 1;
      var tail := if FirstFresh(p, b, n) then [b[n]] else [];
      KeptIds(p, b[..n]);
      IdsAppend(Kept(p, b[..n]), tail);
      assert Ids(Kept(p, b)) == Ids(Kept(p, b[..n])) + Ids(tail);
      assert Ids(tail) == if FirstFresh(p, b, n) then [b[n].id] else [];
      forall x
        ensures x in Ids(Kept(p, b)) <==> x !in p && SeenIn(b, x)
      {
        SeenInSnoc(b, x);
      }
    }
  }

  /** The handled updates carry distinct ids, none of them already marked. */
  lemma {:induction false} KeptFresh(p: seq<int>, b: seq<Update>)
    ensures Distinct(Ids(Kept(p, b)))
    ensures forall x :: x in Ids(Kept(p, b)) ==> x !in p
    decreases |b|
  {
    KeptIds(p, b);
    if b != [] {
      var n := |b| - 1;
      var tail := if FirstFresh(p, b, n) then [b[n]] else [];
      KeptFresh(p, b[..n]);
      KeptIds(p, b[..n]);
      IdsAppend(Kept(p, b[..n]), tail);
      DistinctAppend(Ids(Kept(p, b[..n])), Ids(tail));
    }
  }

  /**
   * Every handled update is an update of the batch that passes the filter
   * against the ids marked before the batch: non-message updates, non-text
   * messages, messages from bots and already marked ids are never handled.
   */
  lemma {:induction false} HandledPassFilter(p: seq<int>, b: seq<Update>)
    ensures forall u :: u in Kept(p, b) ==> Accepts(p, u) && u in b
    decreases |b|
  {
    if b != [] {
      var n := |b| - 1;
      HandledPassFilter(p, b[..n]);
      assert forall u :: u in b[..n] ==> u in b;
    }
  }

  /**
   * The lazy filter: whether `b[j]` is handled is decided against the ids
   * marked by the updates handled before it in the same batch.
   */
  lemma FirstFreshIffAccepts(p: seq<int>, b: seq<Update>, j: nat)
    requires j < |b|
    ensures FirstFresh(p, b, j) <==> Accepts(p + Ids(Kept(p, b[..j])), b[j])
  {
    KeptIds(p, b[..j]);
  }

  lemma {:induction false} KeptAppend(p: seq<int>, b1: seq<Update>, b2: seq<Update>)
    ensures Kept(p, b1 + b2) == Kept(p, b1) + Kept(p + Ids(Kept(p, b1)), b2)
    decreases |b2|
  {
    var q := p + Ids(Kept(p, b1));
    if b2 == [] {
      assert b1 + b2 == b1;
    } else {
      var n := |b2| - 1;
      var b := b1 + b2;
      var m := |b| - 1;
      assert b[..m] == b1 + b2[..n];
      assert b[m] == b2[n];
      KeptAppend(p, b1, b2[..n]);
      FirstFreshIffAccepts(p, b, m);
      FirstFreshIffAccepts(q, b2, n);
      IdsAppend(Kept(p, b1), Kept(q, b2[..n]));
      assert p + Ids(Kept(p, b[..m])) == q + Ids(Kept(q, b2[..n]));
      assert FirstFresh(p, b, m) <==> FirstFresh(q, b2, n);
      var tail := if FirstFresh(q, b2, n) then [b2[n]] else [];
      assert Kept(p, b) == Kept(p, b1) + Kept(q, b2[..n]) + tail;
      assert Kept(q, b2) == Kept(q, b2[..n]) + tail;
    }
  }

  /**
   * Handling a batch is handling its updates one at a time: `u` is handled
   * exactly when it passes the filter against the ids marked so far, and
   * the rest of the batch then sees its id marked. An update that fails the
   * filter changes nothing.
   */
  lemma HandledOneAtATime(p: seq<int>, b1: seq<Update>, u: Update, b2: seq<Update>)
    ensures var q := p + Ids(Kept(p, b1));
      Kept(p, b1 + [u] + b2) ==
        if Accepts(q, u) then Kept(p, b1) + [u] + Kept(q + [u.id], b2)
        else Kept(p, b1) + Kept(q, b2)
  {
    var q := p + Ids(Kept(p, b1));
    KeptSnoc(p, b1, u);
    KeptAppend(p, b1 + [u], b2);
    if !Accepts(q, u) {
      assert q + [] == q && Kept(p, b1) + [] == Kept(p, b1);
    }
  }

  /** Appending one update to a batch handles it against the ids marked so far. */
  lemma KeptSnoc(p: seq<int>, b: seq<Update>, u: Update)
    ensures var q := p + Ids(Kept(p, b));
      && Kept(p, b + [u]) == Kept(p, b) + (if Accepts(q, u) then [u] else [])
      && p + Ids(Kept(p, b + [u])) == q + (if Accepts(q, u) then [u.id] else [])
  {
    var q := p + Ids(Kept(p, b));
    KeptAppend(p, b, [u]);
    KeptSingle(q, u);
    IdsAppend(Kept(p, b), Kept(q, [u]));
  }

  lemma KeptSingle(q: seq<int>, u: Update)
    ensures Kept(q, [u]) == if Accepts(q, u) then [u] else []
  {
  }

  lemma {:induction false} KeptNone(q: seq<int>, b: seq<Update>)
    requires forall j :: 0 <= j < |b| ==> !Accepts(q, b[j])
    ensures Kept(q, b) == []
    decreases |b|
  {
    if b != [] {
      KeptNone(q, b[..|b| - 1]);
    }
  }

  /** Handling the same batch a second time handles nothing. */
  lemma RerunHandlesNothing(p: seq<int>, b: seq<Update>)
    ensures Kept(p + Ids(Kept(p, b)), b) == []
  {
    KeptIds(p, b);
    forall j | 0 <= j < |b|
      ensures !Accepts(p + Ids(Kept(p, b)), b[j])
    {
      if IsUserText(b[j]) && b[j].id !in p {
        assert SeenIn(b, b[j].id);
      }
    }
    KeptNone(p + Ids(Kept(p, b)), b);
  }

  /** Two copies of a fresh update in one batch: only the first is handled. */
  lemma DuplicateInOneBatch(p: seq<int>, u: Update)
    requires Accepts(p, u)
    ensures Kept(p, [u, u]) == [u]
  {
    assert [u, u][..1] == [u];
    assert [u][..0] == [];
    assert Kept(p, [u]) == [u];
    assert SeenIn([u], u.id) by {
      assert [u][0] == u;
    }
    assert !FirstFresh(p, [u, u], 1);
  }

  // ----- The requests sent -----

  /** Handling one more update completely marks it, counts it, and sends its forward and then its reply. */
  lemma AfterSnoc(s: State, h: seq<Update>, u: Update)
    ensures var t := After(s, h);
      After(s, h + [u]) == State(t.processed + [u.id], t.count + 1, t.effects + [ForwardOf(u), EchoOf(u)])
  {
  }

  /** Each handled update yields exactly its forward immediately followed by its reply. */
  lemma {:induction false} EffectsPairUp(h: seq<Update>)
    ensures |EffectsOf(h)| == 2 * |h|
    ensures forall j :: 0 <= j < |h| ==>
      EffectsOf(h)[2 * j] == ForwardOf(h[j]) && EffectsOf(h)[2 * j + 1] == EchoOf(h[j])
    decreases |h|
  {
    if h != [] {
      var n := |h| - 1;
      EffectsPairUp(h[..n]);
      forall j | 0 <= j < |h|
        ensures EffectsOf(h)[2 * j] == ForwardOf(h[j]) && EffectsOf(h)[2 * j + 1] == EchoOf(h[j])
      {
        if j < n {
          assert h[..n][j] == h[j];
        }
      }
    }
  }

  lemma {:induction false} ForwardIdsAppend(a: seq<Effect>, c: seq<Effect>)
    ensures ForwardIds(a + c) == ForwardIds(a) + ForwardIds(c)
    decreases |c|
  {
    if c == [] {
      assert a + c == a;
    } else {
      var n := |c| - 1;
      assert (a + c)[..|a + c| - 1] == a + c[..n];
      ForwardIdsAppend(a, c[..n]);
    }
  }

  /** The forwards of a run of handled updates carry exactly their ids, in order. */
  lemma {:induction false} ForwardIdsOfEffects(h: seq<Update>)
    ensures ForwardIds(EffectsOf(h)) == Ids(h)
    decreases |h|
  {
    if h != [] {
      var n := |h| - 1;
      var pair := [ForwardOf(h[n]), EchoOf(h[n])];
      ForwardIdsOfEffects(h[..n]);
      ForwardIdsAppend(EffectsOf(h[..n]), pair);
      assert pair[..1] == [ForwardOf(h[n])];
      assert [ForwardOf(h[n])][..0] == [];
      assert ForwardIds([ForwardOf(h[n])]) == [h[n].id];
      assert ForwardIds(pair) == [h[n].id];
      assert EffectsOf(h) == EffectsOf(h[..n]) + pair;
      IdsAppend(h[..n], [h[n]]);
      assert h[..n] + [h[n]] == h;
    }
  }

  /**
   * One iteration of the handling loop: update `b[i]` is handled exactly
   * when it passes the filter against the ids marked so far, and is then
   * marked, counted, forwarded and echoed.
   */
  lemma HandleStep(s: State, b: seq<Update>, i: nat)
    requires i < |b|
    ensures var t := After(s, Kept(s.processed, b[..i]));
      && (FirstFresh(s.processed, b, i) <==> Accepts(t.processed, b[i]))
      && After(s, Kept(s.processed, b[..i + 1])) ==
           if Accepts(t.processed, b[i])
           then State(t.processed + [b[i].id], t.count + 1, t.effects + [ForwardOf(b[i]), EchoOf(b[i])])
           else t
  {
    var p := s.processed;
    var h := Kept(p, b[..i]);
    FirstFreshIffAccepts(p, b, i);
    KeptSnoc(p, b[..i], b[i]);
    AfterSnoc(s, h, b[i]);
    assert b[..i + 1] == b[..i] + [b[i]];
    if !Accepts(p + Ids(h), b[i]) {
      assert h + [] == h;
    }
  }

  // ----- The state invariant -----

  lemma KeptThrough(p: seq<int>, b: seq<Update>, k: nat)
    requires k < |b| && FirstFresh(p, b, k)
    ensures Kept(p, b[..k + 1]) == Kept(p, b[..k]) + [b[k]]
    ensures Ids(Kept(p, b[..k + 1])) == Ids(Kept(p, b[..k])) + [b[k].id]
  {
    assert b[..k + 1][..k] == b[..k] && b[..k + 1][k] == b[k];
    IdsAppend(Kept(p, b[..k]), [b[k]]);
  }

  lemma NewForwardsMarked(s: State, added: seq<int>, sent: seq<Effect>)
    requires Inv(s)
    requires Distinct(added) && forall x :: x in added ==> x !in s.processed
    requires ForwardIds(sent) <= added
    ensures Inv(State(s.processed + added, s.count + |added|, s.effects + sent))
    ensures Extends(s, State(s.processed + added, s.count + |added|, s.effects + sent))
  {
    var r := State(s.processed + added, s.count + |added|, s.effects + sent);
    DistinctAppend(s.processed, added);
    ForwardIdsAppend(s.effects, sent);
    assert r.effects[|s.effects|..] == sent;
    forall x | x in ForwardIds(sent)
      ensures x in added
    {
      var i :| 0 <= i < |ForwardIds(sent)| && ForwardIds(sent)[i] == x;
      assert added[i] == x;
    }
    DistinctAppend(ForwardIds(s.effects), ForwardIds(sent));
  }

  /** A batch, whatever it throws, keeps the invariant and only extends the state. */
  lemma HandleBatchKeepsInv(s: State, b: seq<Update>, f: Fault)
    requires Inv(s)
    ensures Inv(HandleBatch(s, b, f).after) && Extends(s, HandleBatch(s, b, f).after)
  {
    var p := s.processed;
    if f.Throws? && f.at < |b| && FirstFresh(p, b, f.at) {
      ThrowKeepsInv(s, b, f.at, f.step);
    } else {
      var h := Kept(p, b);
      KeptFresh(p, b);
      ForwardIdsOfEffects(h);
      NewForwardsMarked(s, Ids(h), EffectsOf(h));
    }
  }

  lemma ThrowKeepsInv(s: State, b: seq<Update>, k: nat, step: Step)
    requires Inv(s)
    requires k < |b| && FirstFresh(s.processed, b, k)
    ensures Inv(HandleBatch(s, b, Throws(k, step)).after)
    ensures Extends(s, HandleBatch(s, b, Throws(k, step)).after)
  {
    var p := s.processed;
    var pre := Kept(p, b[..k]);
    var forward := if step == Replying then [ForwardOf(b[k])] else [];
    var added := Ids(pre) + [b[k].id];
    var sent := EffectsOf(pre) + forward;
    ThrowState(s, b, k, step);
    assert Distinct(added) && forall x :: x in added ==> x !in p by {
      KeptThrough(p, b, k);
      KeptFresh(p, b[..k + 1]);
    }
    assert ForwardIds(sent) <= added by {
      ForwardIdsAppend(EffectsOf(pre), forward);
      ForwardIdsOfEffects(pre);
      assert [ForwardOf(b[k])][..0] == [];
    }
    NewForwardsMarked(s, added, sent);
  }

  lemma ThrowState(s: State, b: seq<Update>, k: nat, step: Step)
    requires k < |b| && FirstFresh(s.processed, b, k)
    ensures var pre := Kept(s.processed, b[..k]);
      var added := Ids(pre) + [b[k].id];
      var sent := EffectsOf(pre) + if step == Replying then [ForwardOf(b[k])] else [];
      HandleBatch(s, b, Throws(k, step)) == Outcome(State(s.processed + added, s.count + |added|, s.effects + sent), true)
  {
  }

  // ----- Exceptions -----

  /**
   * When handling the kept update `b[k]` throws: the batch ends in an
   * exception, exactly the ids of the updates up to and including `b[k]`
   * are newly marked (so later updates of the batch stay eligible), the
   * updates kept before `b[k]` have sent their forward and reply, and
   * `b[k]` has sent nothing more than its forward, and that only when its
   * reply is what throws.
   */
  lemma ThrowMarksOnlyUpTo(s: State, b: seq<Update>, k: nat, step: Step)
    requires k < |b| && FirstFresh(s.processed, b, k)
    ensures var r := HandleBatch(s, b, Throws(k, step));
      && r.threw
      && (forall x :: x in r.after.processed <==> x in s.processed || SeenIn(b[..k + 1], x))
      && (forall j :: k < j < |b| ==>
            (Accepts(r.after.processed, b[j]) <==> Accepts(s.processed, b[j]) && !SeenIn(b[..k + 1], b[j].id)))
      && (step == Forwarding ==> r.after.effects == s.effects + EffectsOf(Kept(s.processed, b[..k])))
      && (step == Replying ==> r.after.effects == s.effects + EffectsOf(Kept(s.processed, b[..k])) + [ForwardOf(b[k])])
  {
    var p := s.processed;
    KeptThrough(p, b, k);
    KeptIds(p, b[..k + 1]);
    ThrowState(s, b, k, step);
  }

  /** A batch that does not throw marks exactly the ids of its new user text updates. */
  lemma CompleteRunMarksAll(s: State, b: seq<Update>)
    ensures var r := HandleBatch(s, b, NoFault);
      && !r.threw
      && (forall x :: x in r.after.processed <==> x in s.processed || SeenIn(b, x))
      && r.after.effects == s.effects + EffectsOf(Kept(s.processed, b))
  {
    KeptIds(s.processed, b);
  }

  /** After a batch completes, polling the same batch again changes nothing, whatever it throws. */
  lemma RerunIsNoOp(s: State, b: seq<Update>, f: Fault)
    ensures var s' := HandleBatch(s, b, NoFault).after;
      HandleBatch(s', b, f) == Outcome(s', false)
  {
    var s' := HandleBatch(s, b, NoFault).after;
    RerunHandlesNothing(s.processed, b);
    assert s'.processed == s.processed + Ids(Kept(s.processed, b));
    if f.Throws? && f.at < |b| {
      FirstFreshIffAccepts(s'.processed, b, f.at);
      KeptNone(s'.processed, b[..f.at]) by {
        KeptIds(s.processed, b);
        forall j | 0 <= j < f.at
          ensures !Accepts(s'.processed, b[..f.at][j])
        {
          assert b[..f.at][j] == b[j];
          if IsUserText(b[j]) && b[j].id !in s.processed {
            assert SeenIn(b, b[j].id);
          }
        }
      }
      assert Ids([]) == [];
      KeptIds(s.processed, b);
      if IsUserText(b[f.at]) && b[f.at].id !in s.processed {
        assert SeenIn(b, b[f.at].id);
      }
    }
    assert Ids([]) == [] && EffectsOf([]) == [];
    assert s'.processed + [] == s'.processed && s'.effects + [] == s'.effects;
  }

  // ----- The polling loop -----

  lemma ExtendsTrans(s: State, t: State, r: State)
    requires Extends(s, t) && Extends(t, r)
    ensures Extends(s, r)
  {
    assert r.effects[|s.effects|..] == t.effects[|s.effects|..] + r.effects[|t.effects|..];
    ForwardIdsAppend(t.effects[|s.effects|..], r.effects[|t.effects|..]);
    forall x | x in s.processed
      ensures x in t.processed
    {
      var i :| 0 <= i < |s.processed| && s.processed[i] == x;
      assert t.processed[i] == x;
    }
    forall x | x in t.processed
      ensures x in r.processed
    {
      var i :| 0 <= i < |t.processed| && t.processed[i] == x;
      assert r.processed[i] == x;
    }
  }

  /**
   * However many cycles run and whatever they throw, the invariant holds:
   * no id is marked twice, no message is forwarded twice, and a message
   * marked before the cycles is never forwarded by them.
   */
  lemma {:induction false} PollsKeepInv(s: State, cs: seq<Poll>)
    requires Inv(s)
    ensures Inv(Polls(s, cs)) && Extends(s, Polls(s, cs))
    decreases |cs|
  {
    if cs == [] {
      assert s.effects[|s.effects|..] == [];
    } else {
      var n := |cs| - 1;
      var t := Polls(s, cs[..n]);
      PollsKeepInv(s, cs[..n]);
      match cs[n].fetched
      case None =>
        assert t.effects[|t.effects|..] == [];
        ExtendsTrans(s, t, t);
      case Some(b) =>
        HandleBatchKeepsInv(t, b, cs[n].fault);
        ExtendsTrans(s, t, HandleBatch(t, b, cs[n].fault).after);
    }
  }
}
