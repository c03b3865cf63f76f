/**
 * The values the bot's dispatcher works on: the updates a Telegram poll
 * returns, the filter that decides which of them are handled, and the two
 * outgoing requests (the forward to the Fluentd logging sink and the echo
 * reply) that handling one update produces.
 */
module Updates {

  datatype Option<T> = None | Some(value: T)

  /** `Update.Type`: only message updates are of interest. */
  datatype UpdateType = MessageUpdate | OtherUpdate

  /** `Message.Type`: only text messages are of interest. */
  datatype MessageType = TextMessage | OtherMessage

  /**
   * One update of a `GetUpdatesAsync` batch, flattened: the update's id and
   * type, and the fields of its message that the dispatcher reads (message
   * type, whether the sender is a bot, the chat id and the text).
   */
  datatype Update = Update(
    id: int,
    kind: UpdateType,
    messageType: MessageType,
    fromIsBot: bool,
    chatId: int,
    text: string)

  /** The anonymous object `{ MessageId, ChatId, MessageText }` sent to Fluentd. */
  datatype Payload = Payload(messageId: int, chatId: int, messageText: string)

  /**
   * An outgoing request, in the order the dispatcher issues them:
   * a POST of the payload to the logging sink, or a text message to a chat.
   */
  datatype Effect = Forward(payload: Payload) | Reply(chatId: int, text: string)

  const EchoPrefix: string := "You said:\n"

  /** The part of the filter that looks at the update alone. */
  predicate IsUserText(u: Update)
  {
    u.kind == MessageUpdate && u.messageType == TextMessage && !u.fromIsBot
  }

  /**
   * The whole `Where` predicate, evaluated against the processed ids at
   * that moment: a message update, of text type, not from a bot, whose id
   * is at no position of the processed collection.
   */
  predicate Accepts(processed: seq<int>, u: Update)
  {
    IsUserText(u) && u.id !in processed
  }

  /**
   * Marking more ids only narrows the filter: an update passes against the
   * extended collection exactly when it passed before and its id is not
   * among the ids added.
   */
  lemma AcceptsAfterMarking(p: seq<int>, q: seq<int>, u: Update)
    ensures Accepts(p + q, u) <==> Accepts(p, u) && u.id !in q
  {
  }

  /** The forward request built for an update. */
  function ForwardOf(u: Update): (e: Effect)
    ensures e.Forward? && e.payload.messageId == u.id
    ensures e.payload.chatId == u.chatId && e.payload.messageText == u.text
  {
    Forward(Payload(u.id, u.chatId, u.text))
  }

  /** The echo reply for an update: addressed to its chat, restating its text. */
  function EchoOf(u: Update): (e: Effect)
    ensures e.Reply? && e.chatId == u.chatId
    ensures |e.text| == |EchoPrefix| + |u.text|
    ensures e.text[..|EchoPrefix|] == EchoPrefix && e.text[|EchoPrefix|..] == u.text
  {
    Reply(u.chatId, EchoPrefix + u.text)
  }

  /** The ids of a sequence of updates, in order. */
  function Ids(h: seq<Update>): seq<int>
  {
    seq(|h|, i requires 0 <= i < |h| => h[i].id)
  }

  lemma IdsAppend(a: seq<Update>, c: seq<Update>)
    ensures Ids(a + c) == Ids(a) + Ids(c)
  {
  }

  /** No value occurs twice. */
  predicate Distinct(s: seq<int>)
  {
    forall i, j :: 0 <= i < j < |s| ==> s[i] != s[j]
  }

  lemma DistinctAppend(a: seq<int>, c: seq<int>)
    requires Distinct(a) && Distinct(c)
    requires forall x :: x in c ==> x !in a
    ensures Distinct(a + c)
  {
    forall i, j | 0 <= i < j < |a| + |c|
      ensures (a + c)[i] != (a + c)[j]
    {
      if j >= |a| && i < |a| {
        assert (a + c)[j] in c;
      }
    }
  }
}
