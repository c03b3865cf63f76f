/**
 * The objects whose fields the bot updates in place: the static
 * processed-messages counter and the hosted service that owns the
 * processed-id collection and runs the polling loop. The service's methods
 * are proved against the functions of module Dispatch.
 */
module HostedService {
  import opened Updates
  import opened Dispatch

  /** `BotMeter`: the "processed-messages" counter, as a plain number. */
  class BotMeter {
    var processedMessages: nat

    constructor ()
      ensures processedMessages == 0
    {
      processedMessages := 0;
    }

    method IncrementProcessedMessagesCounter()
      modifies this
      ensures processedMessages == old(processedMessages) + 1
    {
      processedMessages := processedMessages + 1;
    }
  }

  /**
   * `TelegramBotHostedService`: the processed-id collection, the counter it
   * bumps, and the requests it has sent to the logging sink and to the chats.
   */
  class TelegramBotHostedService {
    var processedMessageIds: seq<int>
    var sent: seq<Effect>
    const meter: BotMeter

    /** The service's state as a value of module Dispatch. */
    function Snapshot(): State
      reads this, meter
    {
      State(processedMessageIds, meter.processedMessages, sent)
    }

    ghost predicate Valid()
      reads this, meter
    {
      Inv(Snapshot())
    }

    constructor (meter: BotMeter)
      ensures Valid() && this.meter == meter
      ensures processedMessageIds == [] && sent == []
    {
      this.meter := meter;
      processedMessageIds := [];
      sent := [];
    }

    /**
     * `HandleNextUpdatesAsync` after the fetch: the filter is evaluated per
     * update against the ids marked so far, and each update it passes is
     * marked, counted, forwarded and echoed before the next is looked at.
     * `fault` names the update and step that throw, if any; `threw` reports
     * that the batch ended in that exception.
     */
    method HandleNextUpdates(updates: seq<Update>, fault: Fault) returns (threw: bool)
      requires Valid()
      modifies this, meter
      ensures Valid()
      ensures Outcome(Snapshot(), threw) == HandleBatch(old(Snapshot()), updates, fault)
      ensures Extends(old(Snapshot()), Snapshot())
    {
      ghost var s0 := Snapshot();
      ghost var p := s0.processed;
      var i := 0;
      while i < |updates|
        invariant 0 <= i <= |updates|
        invariant Snapshot() == After(s0, Kept(p, updates[..i]))
        invariant fault.Throws? && fault.at < i ==> !FirstFresh(p, updates, fault.at)
      {
        threw := HandleAt(s0, updates, i, fault);
        if threw {
          HandleBatchKeepsInv(s0, updates, fault);
          return;
        }
        i := i + 1;
      }
      assert updates[..|updates|] == updates;
      threw := false;
      HandleBatchKeepsInv(s0, updates, fault);
    }

    /**
     * One iteration of the `foreach` over the lazily filtered batch: the
     * filter is evaluated on `updates[i]` against the ids marked so far, and
     * the update is handled when it passes. Either the batch ends here in
     * the exception `fault` names, with the state `HandleBatch` gives, or the
     * state is that of the batch handled through `updates[i]`.
     */
    method HandleAt(ghost s0: State, updates: seq<Update>, i: nat, fault: Fault) returns (threw: bool)
      requires i < |updates|
      requires Snapshot() == After(s0, Kept(s0.processed, updates[..i]))
      requires fault.Throws? && fault.at < i ==> !FirstFresh(s0.processed, updates, fault.at)
      modifies this, meter
      ensures threw ==> Outcome(Snapshot(), true) == HandleBatch(s0, updates, fault)
      ensures !threw ==> Snapshot() == After(s0, Kept(s0.processed, updates[..i + 1]))
      ensures !threw && fault.Throws? && fault.at <= i ==> !FirstFresh(s0.processed, updates, fault.at)
    {
      var update := updates[i];
      HandleStep(s0, updates, i);
      assert Accepts(processedMessageIds, update) <==> FirstFresh(s0.processed, updates, i);
      threw := false;
      if Accepts(processedMessageIds, update) {
        var failing := if fault.Throws? && fault.at == i then Some(fault.step) else None;
        threw := HandleUpdate(update, failing);
        if threw {
          ThrowState(s0, updates, i, fault.step);
        }
      }
    }

    /**
     * The body of the `foreach` for an update that passed the filter: mark
     * its id, bump the counter, forward it to the logging sink, echo it to
     * its chat. `failing` names the step that throws, if one does; the steps
     * after it do not happen.
     */
    method HandleUpdate(update: Update, failing: Option<Step>) returns (threw: bool)
      modifies this, meter
      ensures threw == failing.Some?
      ensures processedMessageIds == old(processedMessageIds) + [update.id]
      ensures meter.processedMessages == old(meter.processedMessages) + 1
      ensures sent == old(sent) + match failing
        case None => [ForwardOf(update), EchoOf(update)]
        case Some(Forwarding) => []
        case Some(Replying) => [ForwardOf(update)]
    {
      processedMessageIds := processedMessageIds + [update.id];
      meter.IncrementProcessedMessagesCounter();
      if failing == Some(Forwarding) {
        return true;
      }
      sent := sent + [ForwardOf(update)];
      if failing == Some(Replying) {
        return true;
      }
      sent := sent + [EchoOf(update)];
      threw := false;
    }

    /**
     * One iteration of the polling loop: fetch, then handle the batch; an
     * exception from the fetch or from the batch is caught and dropped.
     * `fetched` is `None` when `GetUpdatesAsync` throws.
     */
    method PollOnce(fetched: Option<seq<Update>>, fault: Fault)
      requires Valid()
      modifies this, meter
      ensures Valid()
      ensures Snapshot() == Cycle(old(Snapshot()), Poll(fetched, fault))
      ensures Extends(old(Snapshot()), Snapshot())
    {
      if fetched.Some? {
        var threw := HandleNextUpdates(fetched.value, fault);
      } else {
        assert sent[|sent|..] == [];
      }
    }

    /** The `while (true)` polling loop, run for the cycles `polls`. */
    method Listen(polls: seq<Poll>)
      requires Valid()
      modifies this, meter
      ensures Valid()
      ensures Snapshot() == Polls(old(Snapshot()), polls)
      ensures Extends(old(Snapshot()), Snapshot())
    {
      ghost var s0 := Snapshot();
      for i := 0 to |polls|
        invariant Valid()
        invariant Snapshot() == Polls(s0, polls[..i])
      {
        PollOnce(polls[i].fetched, polls[i].fault);
        assert polls[..i + 1][..i] == polls[..i];
      }
      assert polls[..|polls|] == polls;
      PollsKeepInv(s0, polls);
    }
  }
}
