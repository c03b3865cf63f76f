# Telebot update dispatcher, modelled in Dafny

Telebot is a Telegram echo bot hosted in ASP.NET. A hosted service polls
Telegram for updates in an endless loop. From each batch it keeps the text
messages sent by non-bot users whose update id it has not handled before.
For each kept update, in batch order, it does four things:

1. it adds the update id to an in-memory collection of processed ids;
2. it bumps the "processed-messages" counter;
3. it posts `{MessageId, ChatId, MessageText}` to a Fluentd logging endpoint;
4. it replies to the originating chat with `"You said:\n"` followed by the text.

An exception anywhere in a batch is caught at the polling loop, which polls again.

The model has three modules:

- `Updates` (Updates.dfy): the data model. It holds updates, the filter
  predicates, and the two outgoing requests (`Forward`, `Reply`) built for
  an update.
- `Dispatch` (Dispatch.dfy): one batch stated as a value, with no loop.
  `Kept` gives the updates handled, in order. `HandleBatch` gives the state
  after the batch, with or without an exception. `Polls` folds the polling
  loop over a sequence of cycles. The lemmas cover filtering, the lazy
  per-element dedup, at-most-once handling, the pairing and order of
  requests, the counter, and exceptions.
- `HostedService` (HostedService.dfy): the objects that change in place.
  `BotMeter` holds the counter. `TelegramBotHostedService` holds the
  processed-id collection (`seq<int>`) and the log of requests sent. Its
  methods run the `foreach` and the polling loop and are proved against the
  `Dispatch` functions.

Exceptions are an input. `Fault = Throws(k, Forwarding | Replying)` names the
batch index of the handled update whose forward or reply throws. A fetch
that throws is `fetched == None`.

Three points where the code's behaviour is easy to misread. The model follows the code:

- Duplicate ids within one batch are handled once. `updates.Where(...)` is
  lazy, so the membership test for an element runs inside the `foreach`
  after the earlier elements' ids were added (`DuplicateInOneBatch`,
  `FirstFreshIffAccepts`).
- A throwing forward does not leave the reply and the rest of the batch in
  place. The Fluentd URL lookup or `SendAsync` can throw, and that exception
  leaves `HandleNextUpdatesAsync`. It skips the update's reply and every
  later update of the batch. Those later updates stay unmarked and can be
  handled in a later cycle (`ThrowMarksOnlyUpTo`). An HTTP status that is not
  a success does not throw and changes nothing.
- The forward body is `json=` followed by the raw JSON. It is not URL-encoded.

## Model

| member | source | states |
|---|---|---|
| `Updates.ForwardOf` | dotnet_telegram_bot/Telebot.ConsoleApp/Program.cs:125-127 | the forward request carries the update id, the chat id and the message text |
| `Updates.EchoOf` | dotnet_telegram_bot/Telebot.ConsoleApp/Program.cs:131-135 | the echo goes to the update's chat; its text is `"You said:\n"` followed by exactly the message text |
| `Dispatch.HandleBatch` | dotnet_telegram_bot/Telebot.ConsoleApp/Program.cs:108-137 | a batch only appends ids and requests, and the counter grows by exactly the number of ids added |
| `Updates.AcceptsAfterMarking` | dotnet_telegram_bot/Telebot.ConsoleApp/Program.cs:115-119 | marking ids only narrows the `Where` predicate: an update passes against the extended collection exactly when it passed before and its id is not among the newly marked ids |
| `Dispatch.Kept` | dotnet_telegram_bot/Telebot.ConsoleApp/Program.cs:111-117 | the lazily filtered `updatesToProcess`: it handles no more updates than the batch holds; which ones it handles is stated by `HandledPassFilter`, `KeptIds` and `FirstFreshIffAccepts` |
| `Dispatch.HandledPassFilter` | dotnet_telegram_bot/Telebot.ConsoleApp/Program.cs:111-115 | every handled update is from the batch and passes the filter against the ids marked before the batch: non-message updates, non-text messages, bot messages and already marked ids are never handled |
| `Dispatch.KeptIds` | dotnet_telegram_bot/Telebot.ConsoleApp/Program.cs:111-119 | a batch newly marks exactly the ids that were unmarked and belong to some non-bot text message update of the batch |
| `Dispatch.FirstFreshIffAccepts` | dotnet_telegram_bot/Telebot.ConsoleApp/Program.cs:111-119 | the lazy filter: an update is handled if and only if it passes the filter against the ids marked by the updates handled before it in the same batch |
| `Dispatch.HandledOneAtATime` | dotnet_telegram_bot/Telebot.ConsoleApp/Program.cs:111-119 | an update that fails the filter at its turn changes nothing; one that passes is handled and its id is marked for the rest of the batch |
| `Dispatch.KeptAppend` | dotnet_telegram_bot/Telebot.ConsoleApp/Program.cs:111-119 | handling two batches one after the other handles the same updates as handling their concatenation |
| `Dispatch.KeptFresh` | dotnet_telegram_bot/Telebot.ConsoleApp/Program.cs:115-119 | the ids a batch marks are distinct and none was already marked |
| `Dispatch.DuplicateInOneBatch` | dotnet_telegram_bot/Telebot.ConsoleApp/Program.cs:111-119 | two copies of a fresh update in one batch: only the first is handled |
| `Dispatch.RerunHandlesNothing` | dotnet_telegram_bot/Telebot.ConsoleApp/Program.cs:115-119 | after a batch, no update of that batch passes the filter again |
| `Dispatch.RerunIsNoOp` | dotnet_telegram_bot/Telebot.ConsoleApp/Program.cs:108-137 | polling the same batch again after it completed sends nothing, marks nothing, counts nothing and cannot throw |
| `Dispatch.EffectsPairUp` | dotnet_telegram_bot/Telebot.ConsoleApp/Program.cs:117-136 | handled updates yield requests in batch order, each update's forward immediately followed by its reply, never interleaved |
| `Dispatch.ForwardIdsOfEffects` | dotnet_telegram_bot/Telebot.ConsoleApp/Program.cs:125-128 | the forwards of the handled updates carry exactly their ids, in order |
| `Dispatch.HandleStep` | dotnet_telegram_bot/Telebot.ConsoleApp/Program.cs:117-136 | one `foreach` iteration: an update passing the filter is marked, counted, forwarded and echoed; otherwise nothing changes |
| `Dispatch.CompleteRunMarksAll` | dotnet_telegram_bot/Telebot.ConsoleApp/Program.cs:111-136 | a batch with no exception marks exactly its new user text ids and sends, in order, the request pairs of the handled updates |
| `Dispatch.ThrowMarksOnlyUpTo` | dotnet_telegram_bot/Telebot.ConsoleApp/Program.cs:117-136 | when handling update k throws, ids up to and including k are marked, later updates stay eligible, and the request log is exact: a failing forward leaves only the earlier updates' request pairs (no forward, no reply for k), a failing reply leaves those pairs followed by k's forward alone |
| `Dispatch.ThrowKeepsInv` | dotnet_telegram_bot/Telebot.ConsoleApp/Program.cs:117-136 | a batch cut short by an exception keeps ids and forwards duplicate-free and every forwarded id marked |
| `Dispatch.HandleBatchKeepsInv` | dotnet_telegram_bot/Telebot.ConsoleApp/Program.cs:108-137 | any batch, whatever it throws, keeps ids and forwards duplicate-free and only extends the state |
| `Dispatch.Cycle` | dotnet_telegram_bot/Telebot.ConsoleApp/Program.cs:77-84 | one `try`/`catch` round: a failed fetch leaves the state as it was; otherwise ids and requests are only appended and the counter grows by the ids added |
| `Dispatch.Polls` | dotnet_telegram_bot/Telebot.ConsoleApp/Program.cs:75-85 | the `while (true)` loop over a list of cycles only appends ids and requests, and the counter grows by exactly the ids added |
| `Dispatch.PollsKeepInv` | dotnet_telegram_bot/Telebot.ConsoleApp/Program.cs:75-85 | over any number of cycles: no id marked twice, no message forwarded twice, no message forwarded whose id was marked before, ids never removed, and the counter equal to the ids added |
| `HostedService.BotMeter.constructor` | dotnet_telegram_bot/Telebot.ConsoleApp/Program.cs:38-40 | the counter starts at zero |
| `HostedService.BotMeter.IncrementProcessedMessagesCounter` | dotnet_telegram_bot/Telebot.ConsoleApp/Program.cs:42-45 | the counter grows by one |
| `HostedService.TelegramBotHostedService.constructor` | dotnet_telegram_bot/Telebot.ConsoleApp/Program.cs:52-58 | the processed-id collection starts empty and nothing has been sent |
| `HostedService.TelegramBotHostedService.HandleAt` | dotnet_telegram_bot/Telebot.ConsoleApp/Program.cs:111-136 | one `foreach` iteration: the filter is evaluated against the ids marked so far; the batch either ends in the exception with exactly the state of `HandleBatch`, or reaches the state of the batch handled through this update |
| `HostedService.TelegramBotHostedService.HandleUpdate` | dotnet_telegram_bot/Telebot.ConsoleApp/Program.cs:119-135 | the id is marked and counted before the forward, and the forward comes before the reply; a throwing step stops the steps after it |
| `HostedService.TelegramBotHostedService.HandleNextUpdates` | dotnet_telegram_bot/Telebot.ConsoleApp/Program.cs:108-137 | the loop reaches exactly the state and exception outcome of `HandleBatch`, and keeps the duplicate-free invariant |
| `HostedService.TelegramBotHostedService.PollOnce` | dotnet_telegram_bot/Telebot.ConsoleApp/Program.cs:77-84 | a failed fetch changes nothing; a batch's exception is swallowed after its partial effects |
| `HostedService.TelegramBotHostedService.Listen` | dotnet_telegram_bot/Telebot.ConsoleApp/Program.cs:75-85 | the polling loop reaches `Polls` of its cycles and keeps the invariant |

## Left out

- The ASP.NET host, its routes and the Prometheus/OpenTelemetry exporter are framework wiring. The meter is modelled only as a `nat` counter that starts at zero. `Counter<int>` aggregation and overflow are not modelled.
- `GetUpdatesAsync`, `SendAsync` and `SendTextMessageAsync` are network calls. A batch is an input. Sent requests are appended to a log. A call that throws counts as not sent, whether or not it reached the other side.
- The HTTP response and its `ReasonPhrase` are network I/O and are only logged.
- `JsonSerializer.Serialize` is a library call. The forward is kept as the record `{MessageId, ChatId, MessageText}`, so the body text `json=<JSON>` and its content-type header are not modelled.
- The environment variable `Telebot_Fluentd_Url` is read once per handled update. It is modelled only as one of the points where the `Forwarding` step can throw.
- Null `Message` and `From` on a message update (the `!` operators) are not modelled. The model assumes both are present, as they are for message updates. A `NullReferenceException` from the filter is therefore not modelled.
- `StartAsync` is startup plumbing and is not modelled: its delay, `int.Parse`, the token lookup, `GetMeAsync` and `ContinueWith`. Neither are `StopAsync`, `Dispose` and cancellation.
- Logging calls have no effect on the state.
- `ConcurrentBag` is modelled as a sequence, with no thread-safety. The loop is the only user of the bag, and async suspension points do not change the order of steps.
- `Listen`: the `while (true)` loop never ends. The model runs it for a given finite list of cycles.
