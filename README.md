# Real-time chat: a Dafny model

This project models the core of a one-to-one chat service. The server side is a
socket.io layer and a Redis helper. The browser side is a socket wrapper and
the chat page.

- **Redis helper.** It keeps user-to-socket presence in Redis. When Redis is
  unreachable or a call throws, it falls back to an in-process map. It
  implements a fixed-window rate limiter: `INCR`, then `EXPIRE 60` on the
  first hit, then allow while the count is at most 30. It fails open.
- **Socket service.** It binds a connection to a user on `authenticate`. On
  `send_message` it rate-limits, stores the message as `sent`, broadcasts it to
  the room, marks it `delivered` when the receiver has a socket, and publishes it
  on Redis. On disconnect it marks the user offline and clears their presence.
- **History endpoints.** They page a room's messages newest first (page 1,
  limit 50 by default, `totalPages = ceil(total / limit)`). They normalise the
  populated sender and receiver references, filter a two-user conversation,
  and bulk-mark a room's received messages as read.
- **Client socket wrapper.** It reconnects on demand, gates every emit on its
  connected flag, and keeps a single `new_message` handler.
- **Chat page.** It holds the user list and the selection. It derives room ids
  from the sorted pair of user ids. It pages the history in, shows an
  optimistic placeholder per sent message, and reconciles incoming
  `new_message` events.
- **User list.** It provides the initials and the "last seen" helpers.

## How state is modelled

The server's and the client's mutable objects are classes:
- `Redis.RedisService`
- `SocketServer.SocketService`
- `SocketServer.Socket`
- `SocketClient.ClientSocketService`
- `ChatPage.ChatState`

Each method's `ensures` gives the new state as a pure function of the old one:
- `Redis.Bind`, `Redis.Unbind` and `Redis.RateStep` for the Redis helper;
- `SocketServer.Dispatch` for the message handler;
- `ChatPage.Apply` and `ChatPage.Reconcile` for the chat page.

The lemmas are stated about those functions.

Two resources are shared, each modelled once:
- The Redis keyspace is two maps, one for strings (`SET`/`GET`/`DEL`) and one for counters (`INCR`/`EXPIRE`). `Redis.KeysNeverCollide` shows the two groups of keys are disjoint.
- `Events.EventLog` is one ordered log of everything emitted and published, shared by the Redis helper and the socket service.

External effects become parameters:
- **Failures:** the failure of any awaited database or Redis call is a boolean parameter: `SocketServer.Faults` for the message handler, and `fails` for the query and count of each history route.
- **Clocks:** `Date.now()` is a `now` parameter, in seconds for Redis and in milliseconds elsewhere.
- **Ids:** a new ObjectId is a `newId` parameter.
- **ObjectId casts:** a field, query or update typed ObjectId accepts a string of 24 hexadecimal digits and stores or matches it in lower case (`Models.CanonicalId`). A save, query or update whose id does not cast throws.
- **Client callbacks:** to the client, a callback is only a handle.

The Redis helper's `isConnected` flag changes only through `SetConnected`, which stands for the client's `connect` and `error` events.

## Model

| member | source | states |
|---|---|---|
| Models.CanonicalId | src/models/message.js:4-13 | the id an ObjectId field stores for a cast string: same length, each hexadecimal digit in lower case, and still hexadecimal |
| Models.CanonicalIdIdempotent | src/models/message.js:4-13 | casting a stored id again gives the same id |
| Redis.PresenceKeyInjective | src/services/redis.service.js:37 | two users share a presence key exactly when they are the same user |
| Redis.RateKeyInjective | src/services/redis.service.js:82 | two users share a rate-limit key exactly when they are the same user |
| Redis.KeysNeverCollide | src/services/redis.service.js:82-83 | no presence key is ever a rate-limit key, so the two Redis uses cannot interfere |
| Redis.Lookup | src/services/redis.service.js:47-58 | a presence read finds the user exactly when the table it reads has an entry: in Redis under `user:<id>:socket`, in the fallback map under the id itself; it returns that entry |
| Redis.Bind | src/services/redis.service.js:34-45 | the chosen table (Redis or the fallback map) now maps the user to the socket; every other user and the other table are unchanged, as `Lookup` reads them |
| Redis.Unbind | src/services/redis.service.js:64-75 | the user has no entry in the chosen table; every other user and the other table are unchanged |
| Redis.UnbindIfCurrent | src/websocket/socket.service.js:124 | corrected removal: the entry is removed only when it still names the closing socket; otherwise nothing changes |
| Redis.DisconnectedSetThenGet | src/services/redis.service.js:36-52 | while Redis is down, a bind is read back by the next lookup, whether or not either call throws |
| Redis.LastWriterWins | src/services/redis.service.js:34-45 | a second bind of the same user replaces the first, and other users keep their entries |
| Redis.FallbackBindIsInvisibleToStore | src/services/redis.service.js:41-50 | a bind that fell back to the local map after a throw is not seen by a lookup through Redis, which still returns the older socket |
| Redis.StaleDisconnectClearsNewerBinding | src/websocket/socket.service.js:116-125 | as written, an older socket's disconnect deletes the newer socket's binding |
| Redis.UnbindIfCurrentKeepsNewerBinding | src/websocket/socket.service.js:124 | with the corrected removal, the older socket's disconnect keeps the newer binding, and the newer socket's own disconnect clears it |
| Redis.Incr | src/services/redis.service.js:83 | the counter is live with one more than its current count; a live counter keeps its expiry; other keys are unchanged |
| Redis.Expire | src/services/redis.service.js:85 | sets the expiry of an existing counter and keeps its count; a missing key is not created, and every other key is unchanged |
| Redis.RateStep | src/services/redis.service.js:77-92 | fails open when Redis is down or `INCR` throws; otherwise counts one more call and allows it exactly when fewer than 30 were counted; expiry is set to now+60 on the first call of a window, kept after it; a failing `EXPIRE` still allows the call and leaves the new counter with no expiry; other keys are unchanged |
| Redis.Run | src/services/redis.service.js:77-92 | one verdict per call in a sequence of calls |
| Redis.RunInOpenWindow | src/services/redis.service.js:83-87 | while a window that has counted `c >= 1` calls stays live for every later call, call `i` is allowed exactly when `c + i + 1 <= 30` |
| Redis.WindowAllowsThirty | src/services/redis.service.js:82-87 | from an empty window, of the calls made within 60 seconds of the first, exactly the first 30 are allowed |
| Redis.FailedExpireNeverResets | src/services/redis.service.js:83-87 | when the `EXPIRE` of a window's first call throws, the counter never expires: that call is allowed and, however far apart the later calls are, only the first 29 of them are |
| Redis.RedisService.constructor | src/services/redis.service.js:5-7 | starts disconnected with empty tables |
| Redis.RedisService.SetConnected | src/services/redis.service.js:17-25 | the client's `connect` event sets the flag and its `error` event clears it; nothing else changes |
| Redis.RedisService.SetUserSocket | src/services/redis.service.js:34-45 | the tables become those given by `Bind`, through Redis only when connected and the call does not throw |
| Redis.RedisService.GetUserSocket | src/services/redis.service.js:47-58 | returns the `Lookup` in Redis when connected and the call does not throw, else in the fallback map; changes nothing |
| Redis.RedisService.RemoveUserSocket | src/services/redis.service.js:64-75 | the tables become those given by `Unbind` for the same choice of table |
| Redis.RedisService.CheckRateLimit | src/services/redis.service.js:77-92 | the verdict and the new counters are those given by `RateStep` |
| Redis.RedisService.PublishMessage | src/services/redis.service.js:94-102 | appends one publish event when connected and the call does not throw, and nothing otherwise |
| SocketServer.Socket.constructor | src/websocket/socket.service.js:18-19 | a new connection has its id and no bound user |
| SocketServer.Saves | src/websocket/socket.service.js:71-78 | a save that succeeds stores both users as well-formed ObjectIds: it needs the sender and the receiver to cast to ObjectIds, a non-empty room and text, a new id and no throw |
| SocketServer.NewDoc | src/websocket/socket.service.js:71-77 | the first save holds the new id, status `sent`, the timestamp now, the room and the text, and user ids that stay well-formed ObjectIds when given as such |
| SocketServer.Dispatch | src/websocket/socket.service.js:59-114 | a rate-limited call emits only the rate-limit error to the sender; a failed save (a sender or receiver that is not an ObjectId, an empty room or text, a duplicate id, or a throw) emits only the send error and stores nothing; a saved message is stored under the new id with lower-cased user ids, `delivered` when the receiver has a socket and the status save succeeds, `sent` otherwise |
| SocketServer.FanOut | src/websocket/socket.service.js:80-108 | after the first save the broadcast of the saved document always comes first, and the store holds the document, `delivered` exactly when the receiver has a socket and the status save succeeds |
| SocketServer.DispatchGuarantees | src/websocket/socket.service.js:84-112 | room events occur only for a saved message; the first is `new_message` carrying the stored document, the temp id and the room; a status update comes second and exactly when delivered; a failed status save is followed only by the send error to the sender; a publish comes last, carries the broadcast payload, and happens exactly when nothing failed and Redis is connected; a send that raised no error emits exactly these events and nothing to the sender |
| SocketServer.MarkOffline | src/websocket/socket.service.js:119-123 | the user, if known, becomes offline with `lastSeen` now and no socket; every other user is unchanged |
| SocketServer.MarkOnline | src/websocket/socket.service.js:47-50 | the user, if known, becomes online with the socket; every other user is unchanged |
| SocketServer.SocketService.constructor | src/websocket/socket.service.js:6-16 | wires the service to the Redis helper and the stored users and messages |
| SocketServer.SocketService.HandleAuthentication | src/websocket/socket.service.js:44-57 | presence is always bound under the id as given; when the id casts to an ObjectId and the user update does not throw, the connection is bound to the id and the user with the lower-cased id becomes online; otherwise both stay as they were |
| SocketServer.SocketService.HandleMessage | src/websocket/socket.service.js:59-114 | the counters step as `RateStep` decides; the events appended to the log and the new message store are those of `Dispatch`; earlier events are kept |
| SocketServer.SocketService.SaveAndFanOut | src/websocket/socket.service.js:70-113 | everything after an allowed rate check is as `Dispatch` gives for an allowed call |
| SocketServer.SocketService.Deliver | src/websocket/socket.service.js:80-108 | after the first save, the events appended to the log and the new message store are those the dispatch gives for the saved document; earlier events are kept |
| SocketServer.SocketService.HandleDisconnect | src/websocket/socket.service.js:116-130 | an unbound connection, or one whose user update throws (an id that does not cast to an ObjectId among them), changes nothing; otherwise the user with the lower-cased id is marked offline and presence under the id as given is cleared by `Unbind` |
| SocketServer.SocketService.EmitToUser | src/websocket/socket.service.js:133-138 | emits one event to the user's socket exactly when the lookup finds one |
| SocketClient.ClientSocketService.constructor | chat-frontend/src/services/socketService.js:4-7 | starts with no socket and not connected |
| SocketClient.ClientSocketService.Connect | chat-frontend/src/services/socketService.js:9-35 | closes any existing socket and creates a fresh, not yet connected one with no handler; nothing is emitted |
| SocketClient.ClientSocketService.OnTransportEvent | chat-frontend/src/services/socketService.js:16-34 | the connected flag becomes true on `connect` and false on `disconnect`, `error` and `connect_error` |
| SocketClient.ClientSocketService.Authenticate | chat-frontend/src/services/socketService.js:37-43 | reconnects when not connected, tearing down the old socket if there is one and taking the next handle; then always emits `authenticate` on the current socket; when connected, nothing else changes |
| SocketClient.ClientSocketService.JoinRoom | chat-frontend/src/services/socketService.js:45-52 | when connected, emits `join_room` and changes nothing else; otherwise tears down the old socket if there is one, creates a fresh one with the next handle, and emits nothing |
| SocketClient.ClientSocketService.LeaveRoom | chat-frontend/src/services/socketService.js:54-57 | emits `leave_room` when connected and nothing otherwise |
| SocketClient.ClientSocketService.SendMessage | chat-frontend/src/services/socketService.js:59-65 | emits `send_message` when connected; otherwise the message is dropped |
| SocketClient.ClientSocketService.OnNewMessage | chat-frontend/src/services/socketService.js:67-73 | the current socket then has exactly this one `new_message` handler; nothing happens without a socket |
| SocketClient.ClientSocketService.Disconnect | chat-frontend/src/services/socketService.js:75-81 | closes the socket, if any, and leaves none and not connected |
| UserList.Split | chat-frontend/src/components/UserList.js:48 | `split(' ')` yields at least one piece and no piece contains a space |
| UserList.Join | chat-frontend/src/components/UserList.js:48 | a single piece joins to itself; otherwise the result starts with the first piece and then the separator |
| UserList.FirstChars | chat-frontend/src/components/UserList.js:49-50 | at most one character per word; with no empty word, each word gives its first character, in order |
| UserList.JoinSplit | chat-frontend/src/components/UserList.js:48 | joining the pieces with the separator gives back the string |
| UserList.UpperString | chat-frontend/src/components/UserList.js:51 | upper-cases each ASCII letter in place and keeps the length |
| UserList.FirstCharsOfSplit | chat-frontend/src/components/UserList.js:47-50 | the first characters of the pieces are exactly the characters that start a word, each an empty string for an empty piece |
| UserList.GetInitials | chat-frontend/src/components/UserList.js:46-52 | the initials are the upper-cased characters that start a word (not a space, and first or after a space), in order |
| UserList.InitialsLength | chat-frontend/src/components/UserList.js:47-50 | there is one initial per non-empty word |
| UserList.SingleWordInitial | chat-frontend/src/components/UserList.js:46-52 | a non-empty name without spaces has exactly one initial, its upper-cased first character |
| UserList.SplitWithoutSeparator | chat-frontend/src/components/UserList.js:48 | a string without the separator splits into itself alone |
| UserList.TruncDiv | chat-frontend/src/components/UserList.js:58 | whole days, rounded toward zero for both signs. This is the rounding moment applies to a fractional day count |
| UserList.RenderLastSeen | chat-frontend/src/components/UserList.js:54-64 | an online user shows "Online"; one with a last-seen time shows the time when less than one whole day ago and the date otherwise; one without shows "Offline" |
| MessageRoutes.CeilDiv | src/routes/message.routes.js:38 | the fewest pages of `limit` that hold `total` messages: zero exactly for no messages, at least `total / limit`, and one page fewer would not suffice |
| MessageRoutes.Skip | src/routes/message.routes.js:13 | the skip is non-negative exactly when the page is at least 1 or the limit is 0 |
| MessageRoutes.SkipLimit | src/routes/message.routes.js:13-14 | the results from position `skip` on, at most `limit` of them, where a limit of 0 means all of them |
| MessageRoutes.PageOf | src/routes/message.routes.js:13-14 | a page is empty for a negative skip, holds at most `limit` results, and its element `i` is the result at position skip + i |
| MessageRoutes.PagesUpToIsPrefix | src/routes/message.routes.js:11-19 | pages 1 to k taken in order are the first `k * limit` results |
| MessageRoutes.PagesCoverRoom | src/routes/message.routes.js:11-38 | pages 1 to `totalPages` taken in order are exactly the room's messages, newest first |
| MessageRoutes.PageOfIndex | src/routes/message.routes.js:13-14 | the message at position `i` is at position `i % limit` of page `i / limit + 1` |
| MessageRoutes.Normalise | src/routes/message.routes.js:22-34 | succeeds exactly when both references resolved to a user (a populated reference to a deleted user throws); the result has the referenced ids and their usernames and keeps every other field |
| MessageRoutes.NormaliseAll | src/routes/message.routes.js:22-34 | succeeds exactly when every message normalises, keeping the order |
| MessageRoutes.NormalisedIdsAreStoredIds | src/routes/message.routes.js:15-32 | after populating from existing users, the returned ids are the stored ids and the usernames are those users' names |
| MessageRoutes.PopulateAll | src/routes/message.routes.js:15-16 | each message keeps its document, and each reference resolves to the user and their name exactly when that user exists |
| MessageRoutes.InRoom | src/routes/message.routes.js:11 | keeps exactly the messages of the room, and no more messages than the collection has |
| MessageRoutes.InRoomAppend | src/routes/message.routes.js:11 | the filter keeps the collection's order and multiplicity: filtering a concatenation filters each part |
| MessageRoutes.InConversationParties | src/routes/message.routes.js:53-57 | the filter matches exactly the messages whose sender and receiver are the two users, whichever way round |
| MessageRoutes.RoomHistory | src/routes/message.routes.js:6-45 | a throwing query or count, or a negative skip, fails with the fetch error; otherwise the route succeeds exactly when every message of the requested page of the room normalises, and then returns those messages in order; it echoes the page, reports `ceil(total / limit)` pages for a positive limit, returns at most `limit` messages, and only messages of the room |
| MessageRoutes.RoomHistoryServesEveryMessage | src/routes/message.routes.js:6-40 | with a positive limit, while every sender and receiver exists, the room's message `i` (newest first) is served at position `i % limit` of page `i / limit + 1`, with its id and text |
| MessageRoutes.Conversation | src/routes/message.routes.js:53-58 | keeps exactly the messages sent between the two users, in either direction |
| MessageRoutes.ConversationAppend | src/routes/message.routes.js:53-58 | the conversation filter keeps the collection's order and multiplicity |
| MessageRoutes.ConversationSymmetric | src/routes/message.routes.js:53-58 | swapping the two users selects the same messages in the same order |
| MessageRoutes.ConversationHistory | src/routes/message.routes.js:48-80 | fails with the conversation error exactly when the query or count throws, the skip is negative, or a path id does not cast to an ObjectId; otherwise returns the requested page of the conversation between the lower-cased ids, populated, in order, with at most `limit` messages, and `ceil(total / limit)` pages for a positive limit |
| MessageRoutes.ConversationHistorySymmetric | src/routes/message.routes.js:53-70 | the answer does not depend on the order of the two users in the path |
| MessageRoutes.MarkOne | src/routes/message.routes.js:89-96 | only the status of a message can change, and it becomes `read` exactly when the message matches the filter |
| MessageRoutes.MarkRead | src/routes/message.routes.js:88-97 | exactly the messages of the room that the user received and that are `sent` or `delivered` become `read`; every other message is unchanged |
| MessageRoutes.MarkReadIdempotent | src/routes/message.routes.js:88-97 | marking twice is the same as marking once |
| MessageRoutes.MarkReadNeverLowers | src/routes/message.routes.js:92 | no status moves backward, `pending` messages are untouched, and a message changes exactly when it matches the filter |
| MessageRoutes.MarkRoomRead | src/routes/message.routes.js:83-103 | when the update does not throw and the user id casts to an ObjectId, updates the stored messages in place to `MarkRead` of their old contents for the lower-cased id and reports success; otherwise changes nothing and reports failure |
| ChatPage.LessTotal | chat-frontend/src/pages/Chat.js:74 | string order is total: two different ids are always ordered one way or the other |
| ChatPage.LessAsymmetric | chat-frontend/src/pages/Chat.js:74 | no two ids are ordered both ways |
| ChatPage.Less | chat-frontend/src/pages/Chat.js:74 | the order of `sort()`: irreflexive, and a proper prefix comes first |
| ChatPage.RoomId | chat-frontend/src/pages/Chat.js:74 | the room id is the two ids joined by `-`, one way round |
| ChatPage.RoomIdSymmetric | chat-frontend/src/pages/Chat.js:74 | both participants derive the same room id, which joins the two ids with the smaller first |
| ChatPage.OthersThan | chat-frontend/src/pages/Chat.js:59 | the shown list holds every other user and never oneself, and nothing that was not fetched |
| ChatPage.OthersThanAppend | chat-frontend/src/pages/Chat.js:59 | the filter keeps the fetched order |
| ChatPage.TempKeyInjective | chat-frontend/src/pages/Chat.js:151 | different temp ids give different placeholder ids |
| ChatPage.Placeholder | chat-frontend/src/pages/Chat.js:150-158 | the optimistic message shows `sending`, has the text, sender and receiver given, a key of `temp_` followed by the temp id, and the room the receiver computes too |
| ChatPage.AnyStandsFor | chat-frontend/src/pages/Chat.js:87-90 | holds exactly when some shown message has the incoming id, or is the looked-for placeholder with the same text |
| ChatPage.ReplaceWhere | chat-frontend/src/pages/Chat.js:94-96 | keeps the length and replaces exactly the elements with the placeholder id |
| ChatPage.ReconcileOn | chat-frontend/src/pages/Chat.js:85-100 | when nothing stands for the incoming message it is appended; otherwise the length is kept and exactly the elements keyed by the placeholder key become the message |
| ChatPage.Reconcile | chat-frontend/src/pages/Chat.js:85-100 | as written, with the key `temp_` plus the incoming id: no match appends the message; a match keeps the length and replaces exactly the elements with that key |
| ChatPage.ReconcileAppendsOnlyNew | chat-frontend/src/pages/Chat.js:86-99 | a message shown in no form is appended; a message already shown under its id never adds an element, and the copy shown stays as it was, so a redelivery does not update it |
| ChatPage.EchoKeepsPlaceholder | chat-frontend/src/pages/Chat.js:87-96 | as written, the echo of one's own message neither matches nor replaces the placeholder, so the list shows the placeholder and the echo |
| ChatPage.ReconcileByToken | chat-frontend/src/pages/Chat.js:85-100 | corrected reconciliation keyed by `temp_` plus the echoed temp id: no match appends the stored message; a match keeps the length and replaces exactly the placeholder with that key |
| ChatPage.EchoReplacesPlaceholder | chat-frontend/src/pages/Chat.js:94-96 | with the echoed `tempId`, the echo takes the placeholder's place and the message is shown once, as stored |
| ChatPage.ReconcileByTokenNeverDuplicates | chat-frontend/src/pages/Chat.js:92-96 | with the corrected key, redelivery of a shown message still never adds an element |
| ChatPage.Reverse | chat-frontend/src/pages/Chat.js:122 | the page reversed, so oldest first: element `i` is the page's element `n - 1 - i` |
| ChatPage.Request | chat-frontend/src/pages/Chat.js:115-119 | a page is requested exactly when a user is selected and more remain, and it is the cursor's page |
| ChatPage.Apply | chat-frontend/src/pages/Chat.js:119-125 | a failed request changes nothing; an answer keeps the shown messages as a prefix, appends the page oldest first, advances the page, and leaves more to load exactly when the requested page is below `totalPages` |
| ChatPage.LoadPages | chat-frontend/src/pages/Chat.js:114-125 | successive loads keep what was shown as a prefix, advance the page by at most one per answer, and change nothing once no more remain |
| ChatPage.LoadPagesStopsAtLastPage | chat-frontend/src/pages/Chat.js:114-125 | against a server reporting `total` pages, successive loads advance the cursor one page each and stop after page `total`; more remain exactly while the cursor is at most `total` |
| ChatPage.FreshLoadsEveryPage | chat-frontend/src/pages/Chat.js:114-125 | from a fresh selection, a history of `total >= 1` pages is loaded in `total` requests, after which nothing more is requested |
| ChatPage.RoomHistoryLoadsCompletely | chat-frontend/src/pages/Chat.js:114-125 | against the room route's own answers for the client's page size of 50, a fresh selection on a non-empty room loads `ceil(total / 50)` pages and then requests no more |
| ChatPage.SelectAsWritten | chat-frontend/src/pages/Chat.js:72-80 | as written, the selection resets the cursor but its request follows the old cursor: one exactly when the old cursor had more, for the old cursor's page |
| ChatPage.ReselectionSkipsHistory | chat-frontend/src/pages/Chat.js:72-80 | as written, after a one-page conversation has loaded, selecting another user requests no history for it |
| ChatPage.SelectFixed | chat-frontend/src/pages/Chat.js:76-79 | the corrected selection resets the cursor and requests page 1 |
| ChatPage.SelectFixedLoadsNewestPage | chat-frontend/src/pages/Chat.js:76-79 | the corrected selection requests page 1 of the new room whatever was shown before, and shows it oldest first |
| ChatPage.ChatState.constructor | chat-frontend/src/pages/Chat.js:43-47 | no users and no selection; no messages, page 1, more to load |
| ChatPage.ChatState.ReceiveUsers | chat-frontend/src/pages/Chat.js:56-64 | on success the list becomes the fetched users without oneself; on failure it stays |
| ChatPage.ChatState.SelectUser | chat-frontend/src/pages/Chat.js:72-112 | leaves the old room and joins the new one when connected; otherwise tears down the old socket, if any, and reconnects without joining; resets the cursor; rebinds the message handler; the history request is the one the previous cursor makes |
| ChatPage.ChatState.RequestPage | chat-frontend/src/pages/Chat.js:114-119 | requests the cursor's page only when a user is selected and more remain |
| ChatPage.ChatState.ReceivePage | chat-frontend/src/pages/Chat.js:119-133 | the answered page is appended oldest first, more remain while the requested page is below `totalPages`, and the page advances; a failed request changes nothing |
| ChatPage.ChatState.SendMessage | chat-frontend/src/pages/Chat.js:143-170 | without a selection nothing happens; otherwise a 'sending' placeholder named `temp_` plus the temp id is appended, and `send_message` with the text, room and temp id is emitted when connected |
| ChatPage.ChatState.ReceiveNewMessage | chat-frontend/src/pages/Chat.js:84-100 | the shown messages become the as-written reconciliation with the incoming message |

## Left out

- Redis connection set-up (`init`, `createClient`, `connect`) is not modelled: the outcome of connecting is the `isConnected` flag, set through `SetConnected`.
- `subscribe` is not modelled: it opens a second Redis connection and has no caller in the core.
- `getUserBySocket` is not modelled: it reads keys that nothing writes and has no caller in the core.
- Socket.io's room membership (`join_room`/`leave_room` on the server) is not modelled: a room emit is recorded in the log by room id, with no delivery to individual sockets.
- JSON serialisation, ObjectId generation, `Date` objects and moment's formatting are not modelled. Ids are strings, times are numbers, and a rendered time or date carries the raw number.
- The database's sort by timestamp is not modelled: a query result is a sequence already in newest-first order.
- Messages above the first page are never loaded by the page itself, because no scroll handler in the core calls `loadMessages` again. The paging lemmas describe the cursor as if they were.
- Query strings are taken as already-parsed integers, with a limit of at least 0. Non-numeric, fractional or negative limits are not modelled. `currentPage` echoes the page as a number, not as the string the route actually returns.
- `MessageRoutes.MarkRoomRead`: a failure of `updateMany` partway through a collection is modelled as no change.
- `ChatPage.ChatState.SelectUser`: React's bail-out when the very same user object is selected again is not modelled; every call is a change of selection.
- `ChatPage.ChatState.SelectUser`: the history request is returned rather than sent, and its answer arrives through `ReceivePage`. Answers that arrive out of order, or after another selection, are not modelled.
- `UserList.UpperString` upper-cases ASCII letters only. `toUpperCase` on other characters, and on characters that expand to several, is not modelled.
- `UserList.RenderLastSeen`: the day count is the raw elapsed time over 86,400,000 ms. moment's `diff` in days also corrects for a change of UTC offset between the two instants (a daylight-saving switch), which is not modelled.
- `ChatPage.Less`: strings are sequences of Unicode scalar values, while JavaScript's `sort` compares UTF-16 code units. The two orders disagree only between a character above U+FFFF and one in U+E000..U+FFFF. `ChatPage.RoomId` inherits this.
- `UserList.GetInitials`: `word[0]` is a UTF-16 code unit in JavaScript, so a word starting with a character above U+FFFF yields half a surrogate pair. Here it yields the whole character.
- ObjectId casts accept exactly 24 hexadecimal digits. The 12-character string form that Mongoose also accepts is not modelled.
- The fields of a `send_message` payload are taken as present strings. A missing or non-string field is not modelled.
- Concurrency between async handlers (interleaving across `await`s) is not modelled: each handler runs to completion.
- The user routes, the login page, the auth context and the UI components other than the two list helpers are not modelled.
- The `url` argument of `connect` is not modelled: the socket's endpoint is unobservable here.
- Four behaviours of the code that a reader might not expect, all modelled as written:
  - The presence entry is removed on every disconnect, even when a newer connection replaced it (see Findings).
  - A second `authenticate` on one connection re-binds it instead of being refused.
  - An unauthenticated `send_message` gets no "unauthorized" error. It is rate-limited under the key `ratelimit:undefined`, then fails the schema's required sender and gets the generic send error.
  - When the status save after the broadcast throws, the sender gets "Failed to send message" and nothing is published, although the message is stored and was broadcast.

## Findings

| source | as written | input that shows it | evidently intended | confidence | as-written member | corrected member |
|---|---|---|---|---|---|---|
| src/services/redis.service.js:64-75 | `removeUserSocket` deletes the user's entry whichever socket closes; the socket id that `handleDisconnect` passes (src/websocket/socket.service.js:124) is ignored | user u authenticates on socket A, then on socket B (a second tab); A disconnects: u's entry, which named B, is deleted and u looks unreachable while B is open | delete the entry only when it still names the closing socket | medium, not executed | Redis.StaleDisconnectClearsNewerBinding | Redis.UnbindIfCurrentKeepsNewerBinding |
| chat-frontend/src/pages/Chat.js:87-96 | the placeholder is looked up as `'temp_' + message._id`, but it was named `'temp_' + tempId` with the sender's clock (line 151); the server's `_id` is an ObjectId | send "hi" with tempId "1700000000000": the placeholder is "temp_1700000000000"; the echo has `_id` "65a1f0c2e4b0a1b2c3d4e5f6" and tempId "1700000000000": nothing matches, so both are shown and the placeholder stays 'sending' | look up the placeholder by `'temp_' + message.tempId`, which the server echoes back (src/websocket/socket.service.js:84-88) | high, not executed | ChatPage.EchoKeepsPlaceholder | ChatPage.EchoReplacesPlaceholder |
| chat-frontend/src/pages/Chat.js:72-80 | the selection effect resets `page` and `hasMore` and then calls `loadMessages`, whose closure still holds the previous render's values (line 115) | select user A whose history fits one page (`totalPages` 1, so `hasMore` becomes false); then select user B: no history request is made and B's conversation shows empty | request page 1 of the new room after the reset | medium, not executed | ChatPage.ReselectionSkipsHistory | ChatPage.SelectFixedLoadsNewestPage |
