# Chat course backend: broker, message log, users and REST status logic

A Dafny model of the in-memory core of a Go chat backend:

- **Message log** (`MessageLog`, lab02 `message.MessageStore`). This is an append-only log of chat messages. It can be listed whole, or filtered by sender with log order kept.
- **Users** (`Users`, lab02 `user`). `Validate` checks the name, then the ID, then the email. The email check is the regular expression `^[^@]+@[^@]+\.[^@]+$`, stated directly as a string predicate. `UserManager` is a map from user ID to user, guarded by a cancellation flag.
- **Chat broker** (`ChatCore`, lab02 `chatcore.Broker`). The broker is modelled as a sequential state machine. Its state is a registry from subscriber ID to channel handle, an inbound FIFO of capacity 100, a `cancelled` flag, a `stopped` flag, what the broker pushed into each channel, and how often it closed each channel. The run loop is split into a delivering step, a shutdown step, and a drain of the whole queue.
- **Request models** (`Models`, lab03 `models`). These are the create and update request checks, with their fixed messages and order, and the message constructor.
- **REST status logic** (`Api` and `Strconv`, lab03 `api/handlers.go`). This covers the status description table, the 100–599 check and the `https://http.cat/<code>` link of `GetHTTPStatus`. It also covers how `CreateMessage`, `UpdateMessage` and `DeleteMessage` turn parse, validation and storage outcomes into statuses. `Strconv` models Go's `strconv.Atoi` and `%d` on 64-bit integers.

Errors are `Option<string>`: `None` is Go's `nil`, and `Some(text)` carries the source's exact error text.

## Model

| member | source | states |
|---|---|---|
| `MessageLog.MessageStore.constructor` | labs/lab02/backend/message/message.go:19-23 | a new store is empty |
| `MessageLog.MessageStore.AddMessage` | labs/lab02/backend/message/message.go:25-30 | the log grows by exactly `msg` at the back; earlier entries unchanged; never fails |
| `MessageLog.MessageStore.GetMessages` | labs/lab02/backend/message/message.go:32-49 | empty user: the whole log in order; otherwise exactly the sender filter of the log, every element from that sender; reads only, never fails |
| `MessageLog.FromSender` | labs/lab02/backend/message/message.go:42-47 | the sender filter of a log is no longer than the log and holds only entries of the log |
| `MessageLog.FromSenderSnoc` | labs/lab02/backend/message/message.go:43-47 | filtering a log extended by one message extends the filtered result by that message exactly when it is from the user (the loop's step) |
| `MessageLog.FromSenderOnlyFromUser` | labs/lab02/backend/message/message.go:44 | every filtered message has the requested sender |
| `MessageLog.FromSenderComplete` | labs/lab02/backend/message/message.go:43-47 | every message from the user appears in the result as often as in the log; no other message appears |
| `MessageLog.FromSenderKeepsOrder` | labs/lab02/backend/message/message.go:43-48 | the filtered result is a subsequence of the log (insertion order kept) |
| `Users.EmailCheckSound` | labs/lab02/backend/user/user.go:28-31 | a string with exactly one '@', a non-empty part before it and an inner '.' after it matches `^[^@]+@[^@]+\.[^@]+$` |
| `Users.EmailCheckComplete` | labs/lab02/backend/user/user.go:28-31 | every string matching the regular expression has exactly one '@', first at a positive index, and an inner '.' after it |
| `Users.EmailCheckMatchesPattern` | labs/lab02/backend/user/user.go:28-31 | the direct email check and the regular expression accept the same strings |
| `Users.IsValidEmail` | labs/lab02/backend/user/user.go:28-31 | an accepted email's first '@' sits at a positive index with at least three characters after it (a host, a '.' and a suffix), and no '@' comes before it |
| `Users.Validate` | labs/lab02/backend/user/user.go:16-27 | "name cannot be empty" first, then "id cannot be empty", then "invalid email"; nil exactly when the name and ID are non-empty and the email matches the pattern |
| `Users.UserManager.constructor` | labs/lab02/backend/user/user.go:40-45 | empty registry, never cancelled |
| `Users.UserManager.WithContext` | labs/lab02/backend/user/user.go:47-52 | empty registry bound to a possibly cancelled context |
| `Users.UserManager.Cancel` | labs/lab02/backend/user/user.go:35 | the context becomes cancelled; the map is unchanged |
| `Users.UserManager.AddUser` | labs/lab02/backend/user/user.go:54-66 | cancelled: "context canceled", checked before validation, map unchanged; invalid: the validation error, map unchanged; valid: `users[u.ID] = u`, no other key touched; keeps every stored user valid and under its own ID |
| `Users.UserManager.RemoveUser` | labs/lab02/backend/user/user.go:68-73 | always nil; removes only that ID; no-op when absent |
| `Users.UserManager.GetUser` | labs/lab02/backend/user/user.go:75-83 | the stored user when present, else the empty user and "not found"; a found user is valid and has the asked ID; reads only |
| `ChatCore.RoutedToSubscriber` | labs/lab02/backend/chatcore/chatcore.go:47-55 | with one channel per ID, a registered subscriber receives a message exactly when it is a broadcast or addressed to it |
| `ChatCore.Routed` | labs/lab02/backend/chatcore/chatcore.go:47-55 | what one message puts on a channel: only copies of that message, at most one for a unicast, and nothing on a channel no ID is registered with |
| `ChatCore.RoutedAll` | labs/lab02/backend/chatcore/chatcore.go:45-55 | what a queue puts on a channel: only messages taken from the queue, and nothing on a channel no ID is registered with |
| `ChatCore.RoutedAllSnoc` | labs/lab02/backend/chatcore/chatcore.go:35-58 | routing a queue extended at the back extends each channel's deliveries by that message's routing |
| `ChatCore.RoutedAllToSubscriber` | labs/lab02/backend/chatcore/chatcore.go:45-55 | per-subscriber FIFO: draining a queue gives each registered subscriber exactly the subsequence of the queue addressed to it, in queue order |
| `ChatCore.IdsOnStep` | labs/lab02/backend/chatcore/chatcore.go:48-50 | serving one more ID adds one to the count for its channel and nothing elsewhere |
| `ChatCore.PushedOneMore` | labs/lab02/backend/chatcore/chatcore.go:48-50 | one turn of the broadcast loop adds one copy of the message to the current ID's channel and leaves every other channel's deliveries as they were |
| `ChatCore.DeliveredPrefix` | labs/lab02/backend/chatcore/chatcore.go:34-58 | after one more delivering iteration, every channel holds what routing one more message of the queue gives, in queue order |
| `ChatCore.CloseInOrder` | labs/lab02/backend/chatcore/chatcore.go:40-42 | when the shutdown loop as written does not panic, the closed set afterwards is exactly the earlier closed channels plus the channels of the visited keys, none of which was closed before |
| `ChatCore.CloseInOrderPanics` | labs/lab02/backend/chatcore/chatcore.go:40-42 | the shutdown loop as written panics exactly when a key's channel is already closed or two keys share a channel |
| `ChatCore.ChannelsOfCons` | labs/lab02/backend/chatcore/chatcore.go:40-42 | the channels of a key list are the first key's channel plus the channels of the rest |
| `ChatCore.ChannelsOfAllKeys` | labs/lab02/backend/chatcore/chatcore.go:40 | ranging over every key of the registry reaches exactly the registered channels |
| `ChatCore.CloseInOrderAgreesWithShutdown` | labs/lab02/backend/chatcore/chatcore.go:40-42 | with one channel per ID and every key visited once, in any order, the loop as written does not panic and closes exactly the registered channels, as the corrected shutdown step does |
| `ChatCore.SharedChannelPanics` | labs/lab02/backend/chatcore/chatcore.go:40-42 | two IDs registered with the same channel make the shutdown loop as written close it twice, in either iteration order |
| `ChatCore.Broker.constructor` | labs/lab02/backend/chatcore/chatcore.go:25-32 | empty registry, empty queue of capacity 100, not stopped, nothing sent or closed |
| `ChatCore.Broker.Cancel` | labs/lab02/backend/chatcore/chatcore.go:18 | the context becomes cancelled; nothing else changes |
| `ChatCore.Broker.RegisterUser` | labs/lab02/backend/chatcore/chatcore.go:80-91 | cancelled: "broker context canceled", registry unchanged; otherwise `users[userID] = ch` (last registration wins), nothing else changes |
| `ChatCore.Broker.UnregisterUser` | labs/lab02/backend/chatcore/chatcore.go:93-97 | removes only that ID, no-op when absent, allowed even after stop |
| `ChatCore.Broker.SendMessage` | labs/lab02/backend/chatcore/chatcore.go:61-78 | fails exactly when cancelled or stopped, with "broker context canceled" or "broker is stopped" (the latter only when stopped, the choice when both hold left to `select`); a full queue would block; on success `msg` joins the back of the queue; the queue stays within 100 |
| `ChatCore.Broker.PushToAll` | labs/lab02/backend/chatcore/chatcore.go:47-51 | the broadcast loop, enabled only before shutdown: each channel gains one copy of the message per ID registered with it; registry, queue, flags and closes unchanged |
| `ChatCore.Broker.DeliverStep` | labs/lab02/backend/chatcore/chatcore.go:45-56 | removes the queue head and appends it to each channel as routed: every registered ID for a broadcast, the registered recipient for a unicast; registry, flags and closes unchanged |
| `ChatCore.Broker.ShutdownStep` | labs/lab02/backend/chatcore/chatcore.go:37-44 | sets `stopped` and closes every currently registered channel exactly once; queue and deliveries untouched; afterwards no step delivers |
| `ChatCore.Broker.RunUntilIdle` | labs/lab02/backend/chatcore/chatcore.go:34-59 | with a live context, the loop drains the queue in FIFO order: each channel gains exactly the routing of the old queue |
| `ChatCore.GreetAliceAndBob` | labs/lab02/backend/chatcore/chatcore.go:45-56 | after registering two subscribers, a broadcast reaches both and a unicast only its recipient |
| `ChatCore.AliceBobScenario` | labs/lab02/backend/chatcore/chatcore.go:34-97 | after `bob` unregisters, a broadcast reaches only `alice`; shutdown closes `alice`'s channel once and `bob`'s not at all |
| `Models.NewMessage` | labs/lab03/backend/models/message.go:36-43 | the message carries the given ID, username and content |
| `Models.ValidateCreateRequest` | labs/lab03/backend/models/message.go:45-53 | "username is required" first, then "content is required"; nil exactly when both fields are non-empty |
| `Models.ValidateUpdateRequest` | labs/lab03/backend/models/message.go:55-60 | nil exactly when the content is non-empty, otherwise "content is required" |
| `Strconv.SignedDigits` | labs/lab03/backend/api/handlers.go:73 | the digit part of `Atoi`: a result exists only for a non-empty run of digits, and it lies within 64 bits |
| `Strconv.Atoi` | labs/lab03/backend/api/handlers.go:73 | a parsed value fits in 64 bits; accepted text is a digit, or a '+' or '-' followed by at least one character, and every character after the first is a digit |
| `Strconv.Digits` | labs/lab03/backend/api/handlers.go:136 | the decimal digits of `n` read back as `n`, with no leading zero |
| `Strconv.Itoa` | labs/lab03/backend/api/handlers.go:136 | `%d`: a non-negative number prints as digits that read back as the number; a negative one as '-' followed by the digits of its magnitude |
| `Strconv.ItoaRoundTrip` | labs/lab03/backend/api/handlers.go:128-136 | parsing the decimal text of any 64-bit integer gives it back |
| `Strconv.LeadingZero` | labs/lab03/backend/api/handlers.go:73 | a leading '0' does not change the value of a digit run |
| `Strconv.AtoiUnsigned` | labs/lab03/backend/api/handlers.go:73 | an unsigned digit run parses to its value, or is an error when that exceeds the 64-bit maximum |
| `Strconv.AtoiSigned` | labs/lab03/backend/api/handlers.go:73 | a '+' before a digit run keeps its value and a '-' negates it; a result outside 64 bits is an error |
| `Strconv.AtoiOfDigits` | labs/lab03/backend/api/handlers.go:73 | a digit run parses to its value, with '+' to the same result, and with '-' to its negation when that fits in 64 bits |
| `Strconv.AtoiIgnoresPlusAndZeros` | labs/lab03/backend/api/handlers.go:73 | a '+' sign and a leading zero are accepted and do not change the value, so `+7`, `07` and `+07` all name 7 |
| `Api.StatusDescription` | labs/lab03/backend/api/handlers.go:184-203 | 200, 201, 204, 400, 401, 404 and 500 map to their fixed texts; every other code maps to "Unknown Status"; so the result is one of eight strings |
| `Api.GetHTTPStatus` | labs/lab03/backend/api/handlers.go:126-144 | success exactly when the parameter parses to a code in 100..599; otherwise 400 "Invalid HTTP status code"; on success status 200 with the code, its description and `https://http.cat/` followed by the code |
| `Api.StatusInRangeAccepted` | labs/lab03/backend/api/handlers.go:128-137 | every code in 100..599 written in decimal is accepted and echoed |
| `Api.StatusOutOfRangeRejected` | labs/lab03/backend/api/handlers.go:128-131 | every other 64-bit code written in decimal is rejected with 400 |
| `Api.ImageURLNamesCode` | labs/lab03/backend/api/handlers.go:134-137 | the image URL is the `http.cat` prefix followed by text that parses back to the code |
| `Api.CreateMessage` | labs/lab03/backend/api/handlers.go:47-69 | undecodable body: 400 "Invalid request body"; invalid request: 400 with the validator's text; neither calls storage; storage is called with the request's fields exactly when they are non-empty; storage error: 500; success: 201 with the stored message |
| `Api.StorageErrorStatus` | labs/lab03/backend/api/handlers.go:91-97 | `ErrMessageNotFound` maps to 404 and every other storage error to 500 |
| `Api.UpdateMessage` | labs/lab03/backend/api/handlers.go:71-104 | non-integer ID: 400 "Invalid message ID"; bad body: 400 "Invalid request body"; empty content: 400 "content is required"; none of these calls storage; not found: 404 "Message not found"; other error: 500 "Failed to update message"; success: 200 with the message |
| `Api.DeleteMessage` | labs/lab03/backend/api/handlers.go:106-124 | non-integer ID: 400 "Invalid message ID" without calling storage; not found: 404 "Message not found"; other error: 500 "Failed to delete message"; success: 204 with no body |
| `Api.UpdateChecksIdFirst` | labs/lab03/backend/api/handlers.go:73-77 | a non-integer ID gives the same answer whatever the body and the storage would say |

## Left out

- Goroutines, mutexes and channel blocking are left out. Each operation and each run-loop iteration is one atomic step. The run loop's choice between cancellation and an available message becomes two steps with enabling conditions: `DeliverStep` may run while not stopped, even after cancellation, and `ShutdownStep` runs once cancelled.
- `ChatCore.Broker.SendMessage`: a send on a full queue returns `Blocked` and changes nothing. Waiting until space frees up or the context is cancelled is not modelled.
- A blocking send to a slow subscriber channel is left out. So is a panic from sending to a channel its owner closed, and the behaviour of a nil channel. Channels are opaque handles, and the broker's record of what it pushed into each one stands for the channel's contents.
- `context.Context` is reduced to a `cancelled` flag. `Cancel` sets it. So do `Users.UserManager.WithContext(true)` and `ChatCore.Broker.constructor(true)`, which stand for a context that is already cancelled. `NewUserManager` uses `context.Background()`, which is never nil and never cancelled, so its constructor starts with the flag clear. `NewUserManagerWithContext(nil)` (labs/lab02/backend/user/user.go:47-52) is the case the nil guard in `AddUser` (labs/lab02/backend/user/user.go:55) exists for. A nil context never reports cancellation, so it is modelled as `WithContext(false)`.
- `ChatCore.Broker.ShutdownStep` closes each distinct registered channel once, so it never panics. Shutdown also panics when it closes a channel that its owner already closed (labs/lab02/backend/chatcore/chatcore.go:41), and this step does not model that. Only the `closed` argument of `ChatCore.CloseInOrder` expresses it.
- The Go `regexp` engine is left out. The email language is stated directly as `MatchesEmailPattern`. A Go string is modelled as a sequence of characters, so UTF-8 decoding is not modelled.
- `time.Now()` in `NewMessage` is a parameter `now` and is left unconstrained. `HealthCheck` is left out (wall clock and storage count).
- `storage.MemoryStorage` is not part of this model. Each handler's one storage call is reduced to its outcome: success, `ErrMessageNotFound`, or another error. The `GetMessages` handler, which only lists storage, is left out.
- HTTP plumbing is left out: `SetupRoutes`, mux routing, `corsMiddleware`, `writeJSON`/`writeError` and JSON decoding. A request body is `None` when it does not decode.
- `Models.NewMessage` does not say anything about the timestamp, because it comes from the wall clock.

## Findings

| source | as written | input that shows it | evidently intended | confidence | as-written member | corrected member |
|---|---|---|---|---|---|---|
| labs/lab02/backend/chatcore/chatcore.go:40-42 | shutdown closes `users[k]` once per registered ID, so a channel registered under two IDs is closed twice, and Go panics on closing a closed channel | `RegisterUser("alice", ch)`, `RegisterUser("bob", ch)`, then cancel | every registered channel closed exactly once, as the broker's shutdown contract says | medium, not executed | `ChatCore.CloseInOrder`, `ChatCore.CloseInOrderPanics`, `ChatCore.SharedChannelPanics` | `ChatCore.Broker.ShutdownStep` |

`ChatCore.CloseInOrder` models the loop as written, over any iteration order of the map's keys. `ChatCore.CloseInOrderPanics` characterises when it panics. `ChatCore.Broker.ShutdownStep` closes each distinct registered channel once, and the rest of the model uses it.
