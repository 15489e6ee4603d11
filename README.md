# Skytecs.TelegramSDK message queue, modelled in Dafny

This project models the part of Skytecs.TelegramSDK that takes Telegram
updates posted to the bot's webhook and hands them to the application's
callback, one chat at a time and in `UpdateId` order. It also models the two
helpers on `Message` that callbacks use to read and answer a message.

- `common.dfy` (module `Common`): C# null references as `Option`.
  Exceptions as `Result`/`Outcome` carrying the .NET exception kind. C#'s
  `int` with its unchecked wrap-around (`Wrap32`).
- `telegram.dfy` (module `Telegram`): the update model of
  `TelegramMiddleware.cs` (`Update`, `Message`, `Chat`, `CallbackQuery`,
  `MessageEntity` and the entity types) and `SendMessageRequest`.
  - `Message.HasCommand` reads bot-command entities, with
    `Enumerable.Any`'s first-decider semantics and the exceptions
    `Substring` raises.
  - `Message.CreateReply` builds the reply request.
- `message_queue.dfy` (module `Queueing`): the nested `MessageQueue` class,
  a class over a `SortedList<int, Update>` modelled as a map keyed by
  `UpdateId`, plus the busy flag.
  - `Push`, `Pull` and `HandleMessage` are methods proved against pure
    specifications: `DrainOrder` is the order successive pulls produce, and
    `HandleStep` is one `HandleMessage` call on values.
  - The application's `ITelegramCallback` is a `Handler` object that
    records every call it receives.
- `queue_manager.dfy` (module `Manager`): `MessageQueueManager`.
  - Routing an update to its chat's key (`ChatKey`).
  - The registry's `GetOrAdd`.
  - `OnUpdate`.
  - One pass of the background loop in `ExecuteAsync` (`Tick`): visits every
    known chat once, in an order the model leaves open. Each visit makes one
    `HandleMessage` call whose exception is caught.

Two behaviours of the code differ from what a reader of the queue might
assume. The model follows the code in both:

- **Duplicate `UpdateId`.** One might expect a second update with the same
  id to replace the first. `SortedList.Add` (`MessageQueueManager.cs:88`)
  throws instead, and the buffer is left unchanged.
  `Queueing.MessageQueue.Push` and `Manager.MessageQueueManager.OnUpdate`
  return `Fail(DuplicateKey)`.
- **Handler failure.** One might expect the busy flag to be released
  whatever the handler does. `HandleMessage` (`MessageQueueManager.cs:125-131`)
  has no `finally`, so an exception from the handler leaves `_isBusy` set.
  Every later call on that chat's queue then returns at once, and the chat is
  never served again (`Queueing.BusyQueueIsWedged`,
  `Queueing.FailureWedgesQueue`).

Message text and command names are .NET strings, sequences of UTF-16 code
units (`Telegram.Utf16`). Telegram counts entity offsets and lengths in the
same units, and `String.Substring` slices by them, so a character outside
the Basic Multilingual Plane (an emoji) occupies two positions, as in the
program (`Telegram.CommandAfterEmoji`).

## Model

| member | source | states |
|---|---|---|
| Common.Wrap32 | Skytecs.TelegramSDK/TelegramMiddleware.cs:132 | `Offset + 1` and `Length - 1` are unchecked 32-bit sums: unchanged inside the `int` range, otherwise congruent modulo 2^32 |
| Telegram.NewMessage | Skytecs.TelegramSDK/TelegramMiddleware.cs:89-92 | a new message has an empty entity list, no text and no chat |
| Telegram.ToLowerInvariant | Skytecs.TelegramSDK/TelegramMiddleware.cs:132 | lowering keeps the number of code units. A unit changes exactly when it is a capital letter, and it becomes its small letter, so no capital is left |
| Telegram.ToLowerInvariantIdempotent | Skytecs.TelegramSDK/TelegramMiddleware.cs:132 | lowering an already lowered string changes nothing |
| Telegram.CommandMatch | Skytecs.TelegramSDK/TelegramMiddleware.cs:132 | the `Any` predicate for one entity. A non-command entity is false without reading the text. A command with no text throws `NullReferenceException`. Otherwise it succeeds exactly when the slice after the '/' lies inside the text, and then compares that slice lowered with the lowered name; if not, it throws `ArgumentOutOfRangeException` |
| Telegram.AnyCommand | Skytecs.TelegramSDK/TelegramMiddleware.cs:132 | `Any` over the entities can only throw `ArgumentOutOfRange` or `NullReference`, and only when some entity is a bot command |
| Telegram.HasCommand | Skytecs.TelegramSDK/TelegramMiddleware.cs:125-133 | throws `ArgumentNullException` exactly when the name is null or white space; a message without entities answers false for every usable name |
| Telegram.AnyCommandIsFirstDecision | Skytecs.TelegramSDK/TelegramMiddleware.cs:132 | `Any` is false exactly when every entity's test is false; otherwise its result is the verdict (true or the exception) of the first entity whose test is not false |
| Telegram.HasCommandIffNamedEntity | Skytecs.TelegramSDK/TelegramMiddleware.cs:125-133 | on a message whose commands are all readable, `HasCommand(name)` is true if and only if some bot-command entity spells `name` after its '/', ignoring case |
| Telegram.FirstCommandNaming | Skytecs.TelegramSDK/TelegramMiddleware.cs:132 | if some entity names the command, there is a first one, and every entity before it tests false |
| Telegram.UnreadableCommandThrows | Skytecs.TelegramSDK/TelegramMiddleware.cs:132 | a bot command reached before any match and not readable makes `HasCommand` throw instead of answering false: `NullReferenceException` without text, `ArgumentOutOfRangeException` when the slice leaves the text |
| Telegram.CommandEntities | Skytecs.TelegramSDK/TelegramMiddleware.cs:132 | the filter keeps only bot-command entities taken from the list. Every bot-command entity of the list is kept, as many times as the list holds it |
| Telegram.CommandEntitiesAppend | Skytecs.TelegramSDK/TelegramMiddleware.cs:132 | filtering two lists joined together gives the filtered lists joined in the same order, so the kept commands keep their original order |
| Telegram.AnyCommandOnlyReadsCommands | Skytecs.TelegramSDK/TelegramMiddleware.cs:132 | `Any` over the bot-command entities alone gives the same result as over all entities |
| Telegram.OtherEntitiesNeverMatter | Skytecs.TelegramSDK/TelegramMiddleware.cs:125-133 | removing every non-command entity, whatever its offset and length, never changes `HasCommand`'s answer or exception |
| Telegram.LowerCharPreservesWhiteSpace | Skytecs.TelegramSDK/TelegramMiddleware.cs:127 | two code units with the same lowered form are both white space or neither |
| Telegram.HasCommandIgnoresCase | Skytecs.TelegramSDK/TelegramMiddleware.cs:127-132 | two names equal after lowering get the same result from every message, including the `ArgumentNullException` check |
| Telegram.HasCommandOfLoweredName | Skytecs.TelegramSDK/TelegramMiddleware.cs:127-132 | asking for the lowered name gives the same result as asking for the name |
| Telegram.NewMessageHasNoCommand | Skytecs.TelegramSDK/TelegramMiddleware.cs:89-92 | a new message answers false to every usable command name |
| Telegram.CommandAfterEmoji | Skytecs.TelegramSDK/TelegramMiddleware.cs:132 | in a text where an emoji (two code units) precedes "/start", the entity at offset 3 with length 6 names the command "Start", because offsets count UTF-16 code units as `Substring` does |
| Telegram.CreateReply | Skytecs.TelegramSDK/TelegramMiddleware.cs:115-123 | throws `NullReferenceException` exactly when the message has no chat. Otherwise the request goes to the message's chat, replies to its id, carries the given text, and leaves parse mode, preview, notification and keyboard unset |
| Queueing.LeastKeyExists | Skytecs.TelegramSDK/MessageQueueManager.cs:98-100 | a non-empty buffer has a least key, the one `SortedList` keeps at index 0 |
| Queueing.LeastKey | Skytecs.TelegramSDK/MessageQueueManager.cs:100 | `Keys[0]` is a buffered key no greater than any other |
| Queueing.DrainOrderLength | Skytecs.TelegramSDK/MessageQueueManager.cs:92-112 | successive pulls hand out as many updates as are buffered |
| Queueing.DrainOrderEntries | Skytecs.TelegramSDK/MessageQueueManager.cs:92-112 | every update handed out is the one buffered under its `UpdateId` |
| Queueing.DrainOrderComplete | Skytecs.TelegramSDK/MessageQueueManager.cs:92-112 | every buffered update is handed out |
| Queueing.DrainOrderAscending | Skytecs.TelegramSDK/MessageQueueManager.cs:92-112 | updates are handed out in strictly increasing `UpdateId` order, so none twice |
| Queueing.PullFollowsDrainOrder | Skytecs.TelegramSDK/MessageQueueManager.cs:100-106 | removing the least entry yields the first update of the drain order and leaves the rest of that order unchanged |
| Queueing.HandleStep | Skytecs.TelegramSDK/MessageQueueManager.cs:114-133 | a busy or empty queue is left as it is with no delivery. Otherwise the first update of the drain order is delivered and the rest of the order remains. The buffer shrinks by one, and the flag stays set exactly when the handler threw |
| Queueing.BusyQueueIsWedged | Skytecs.TelegramSDK/MessageQueueManager.cs:116-119 | any number of calls on a busy queue change nothing and deliver nothing |
| Queueing.FailureWedgesQueue | Skytecs.TelegramSDK/MessageQueueManager.cs:125-131 | after a handler exception, that update is the last one the chat ever receives, and the flag stays set |
| Queueing.RunDrainsInOrder | Skytecs.TelegramSDK/MessageQueueManager.cs:114-133 | while the handler returns normally, one call per buffered update delivers the whole buffer in `UpdateId` order and leaves the queue empty and idle |
| Queueing.Handler.OnUpdate | Skytecs.TelegramSDK/MessageQueueManager.cs:127-129 | the callback is recorded with the update, the calling queue's busy flag and whether the update was still buffered; its outcome is the application's reaction to the update |
| Queueing.MessageQueue.constructor | Skytecs.TelegramSDK/MessageQueueManager.cs:74-82 | a new queue is idle with an empty buffer |
| Queueing.MessageQueue.Push | Skytecs.TelegramSDK/MessageQueueManager.cs:84-90 | succeeds exactly when the `UpdateId` is new, and then adds exactly that entry. Otherwise it throws `ArgumentException` (duplicate key) and leaves the buffer unchanged. The busy flag never changes |
| Queueing.MessageQueue.Pull | Skytecs.TelegramSDK/MessageQueueManager.cs:92-112 | returns null on an empty buffer. Otherwise it removes and returns the entry with the least `UpdateId`, and nothing else changes |
| Queueing.MessageQueue.HandleMessage | Skytecs.TelegramSDK/MessageQueueManager.cs:114-133 | the new state and the outcome are those of `HandleStep`. The handler receives exactly the update `HandleStep` delivers, while the flag reads busy and after the update has left the buffer |
| Queueing.PullOrderScenario | Skytecs.TelegramSDK/MessageQueueManager.cs:84-112 | pushing ids 5, 2, 8 into a new queue and pulling four times yields 2, 5, 8 and then null |
| Manager.ChatKey | Skytecs.TelegramSDK/MessageQueueManager.cs:28-42 | routing succeeds exactly when the routed message (message, else edited message, else the callback's message) has a chat, and then gives that chat's id. Any missing link throws `NullReferenceException` |
| Manager.ChatKeyPrefersMessages | Skytecs.TelegramSDK/MessageQueueManager.cs:28-42 | the callback query is read only when there is neither a message nor an edited message, and the edited message only when there is no message |
| Manager.ReplyGoesToRoutedChat | Skytecs.TelegramSDK/TelegramMiddleware.cs:115-123 | a reply built from the routed message is addressed to the chat whose queue received the update |
| Manager.MessageQueueManager.constructor | Skytecs.TelegramSDK/MessageQueueManager.cs:16-24 | the registry starts empty |
| Manager.MessageQueueManager.GetOrAdd | Skytecs.TelegramSDK/MessageQueueManager.cs:33-34 | returns the queue already bound to the key, or binds and returns a new idle empty one. No other binding changes, and distinct chats keep distinct queues |
| Manager.MessageQueueManager.OnUpdate | Skytecs.TelegramSDK/MessageQueueManager.cs:26-47 | a routing failure throws before the registry is touched. Otherwise the chat's queue is found or created, and the push succeeds exactly when the id is new to that chat. Only that chat's state changes, and no binding is lost |
| Manager.MessageQueueManager.Dispatch | Skytecs.TelegramSDK/MessageQueueManager.cs:55-65 | a missing key is skipped. Otherwise only that chat's queue takes one `HandleStep`, and the handler receives exactly its delivery |
| Manager.MessageQueueManager.Visit | Skytecs.TelegramSDK/MessageQueueManager.cs:53-65 | one loop iteration keeps the pass's progress invariant with one more chat handled |
| Manager.MessageQueueManager.Tick | Skytecs.TelegramSDK/MessageQueueManager.cs:53-66 | every chat known at the start is visited exactly once and takes exactly one `HandleStep`. The handler receives exactly those deliveries, in visiting order. The chats reported as failed are exactly those whose handler threw, and the pass goes on after each failure |

## Left out

- Concurrency: `lock (_sync)`, `Pull`'s unlocked pre-check and the
  atomicity of `ConcurrentDictionary` are not modelled. Operations run one
  after another.
  - Webhook requests can call `OnUpdate` while a pass of the loop is running.
    The pass iterates `_sessions.Keys` (`MessageQueueManager.cs:53`), which
    `ConcurrentDictionary` returns as a snapshot, so a chat created during a
    pass is not visited in that pass. `Tick` takes its key set at the start in
    the same way.
  - The loop awaits each `HandleMessage` in turn, so within the loop the
    handler runs to completion inside the call.
- `ExecuteAsync`'s `while` over cancellation and `Task.Delay(100)` are not
  modelled. `Tick` is one pass of its body; timing and cancellation are I/O.
- Logging of caught exceptions (`_logger.LogError`) is not modelled. `Tick`
  returns the set of failed chats instead.
- Resolving the callback from the per-queue service scope
  (`GetService<ITelegramCallback>`) is replaced by a `Handler` parameter. A
  scope without a registered callback makes the call throw
  `NullReferenceException` with the flag set, which the model treats like a
  throwing callback.
- The constructors' `ArgumentNullException` checks on the service provider,
  the logger and the scope are not modelled, since the model has no service
  objects.
- Queueing.Handler.OnUpdate: the callback's outcome is a fixed function of
  the update. A callback with its own changing state is not modelled, and the
  asynchronous `Task` is treated as completing within the call.
- Manager.MessageQueueManager.Tick: the order in which the dictionary
  enumerates its keys is left open (any order is allowed). The key set is
  taken when the pass starts.
- Telegram.ToLowerInvariant: lowers the ASCII letters only. Invariant-culture
  lowering of other letters is not modelled, so command names with non-ASCII
  capitals compare as written.
- `TelegramMiddleware.Map` (HTTP body reading, JSON deserialisation, the
  "True" response), `BackgroundServiceAccessor`, `Telegram.cs`'s HTTP client
  and the DI registration in `TelegramExtensions.cs` are not part of this
  model. They are I/O and framework wiring.
- A JSON payload that sets `entities` to null (making `HasCommand` throw on
  `Entities.Any`) is not modelled: entities are always a list.
- Keyboard markup contents and the `From` user's fields are carried but not
  inspected; nothing in the modelled code reads them.
