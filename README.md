# Room session engine of a collaborative code editor, in Dafny

This project models the server core of a real-time collaborative code editor.
Clients join a *room*, edit its shared code, change its language and move
their cursors. The server keeps three pieces of state:

- `roomUsers`: for each room id, a JavaScript `Map` from socket id to the
  member record `{userId, userName, socketId}`.
- The room directory: one `Room` record per room id (owner, code, language,
  lock and read-only flags, timestamps).
- The events the server has emitted, each with its recipient and payload.

Each socket event (`join_room`, `leave_room`, `disconnect`, `code_change`,
`language_change`, `cursor_move`) is one atomic step of the class
`SocketHandler.Server`. `code_change` goes through a per-connection
`debounce`: a call only refills the slot, and a separate fire step runs the
handler. The HTTP routes (create, get, save, list my rooms) work on the same
directory (`RoomRoutes`). The Room schema's fields, required flags and
defaults are in `RoomSchema`.

Modules, one per source concern:

- `Js` (`js.dfy`): optional values, truthiness of strings, and `||`.
- `OrderedMap` (`ordered_map.dfy`): a JavaScript `Map` as an insertion-ordered
  sequence of entries. `set` and `delete` are proved to behave as a map, and
  key order is kept. This is why `users_update` payloads are
  `Map.values()` in order, and why disconnect's emits follow the table's order.
- `RoomSchema` (`room_schema.dfy`): the record, validation and defaults,
  timestamps, and the read-only rule.
- `RoomRoutes` (`room_routes.dfy`): the directory class `RoomStore`, with
  `Create` and `Save` updating it in place, plus the read-only lookups.
- `Debounce` (`debounce.dfy`): the single pending slot.
- `Registry` (`registry.dfy`): the `roomUsers` mutations and the invariant
  that every member is filed under its own socket id.
- `SocketHandler` (`socket_handler.dfy`): event types, handler steps, and the
  `Server` class.
- `Scenarios` (`scenarios.dfy`): short event runs checked against the
  contracts.

## Model

| member | source | states |
|---|---|---|
| `Js.Or` | server/routes/rooms.js:77 | JavaScript `or` on strings: a truthy `a` wins; otherwise the result is `b`. |
| `OrderedMap.Get` | server/socket/socketHandler.js:65 | `get` of a present key returns a value stored under that key. |
| `OrderedMap.Set` | server/socket/socketHandler.js:62-69 | `set(k, v)`: afterwards `k` is present. A present key keeps the key order as it was; a new key is appended at the end. `SetSpec` states the values. |
| `OrderedMap.Delete` | server/socket/socketHandler.js:154 | `delete` keeps exactly the entries with other keys. It is never longer than the input and keeps keys distinct. Order is proved in `DeleteSpec`. |
| `OrderedMap.HasEntry` | server/socket/socketHandler.js:153 | `has(k)` holds exactly when some entry has key `k`. |
| `OrderedMap.EntryIsGet` | server/socket/socketHandler.js:65 | With distinct keys, an entry `(k, v)` is present iff `has(k)` and `get(k) == v`. |
| `OrderedMap.SetSpec` | server/socket/socketHandler.js:65-69 | `set(k, v)`: afterwards `get(k) == v`. Other keys are untouched. An existing key keeps its place (no duplicate); a new key is appended. |
| `OrderedMap.DeleteSpec` | server/socket/socketHandler.js:169 | `delete(k)`: `k` is absent afterwards. Other keys keep their values. The size drops by one exactly when `k` was present. An absent key leaves the map as it was; a present one is cut out and every other entry keeps its place. |
| `OrderedMap.DeleteAbsent` | server/socket/socketHandler.js:169 | Deleting an absent key returns the map unchanged. |
| `OrderedMap.DeleteAt` | server/socket/socketHandler.js:154 | Deleting the key at position `i` gives the entries before `i` followed by those after it, in their order. |
| `OrderedMap.DeleteLength` | server/socket/socketHandler.js:154 | With distinct keys, `delete` removes one entry if the key is present and none otherwise. |
| `RoomSchema.Construct` | server/models/Room.js:3-32 | A new document is valid iff `roomId` is a non-empty string and `createdBy` is present. Absent fields take `''`, `'javascript'`, `false`, `false`. `createdAt == updatedAt ==` the creation time. |
| `RoomSchema.Saved` | server/models/Room.js:31 | A save sets `updatedAt` to the save time and changes nothing else (`createdAt` is kept). |
| `RoomSchema.EditRecord` | server/socket/socketHandler.js:102-104 | `code` is set. `language` is set only when a truthy one is given. `updatedAt` becomes the save time. Id, owner, flags and `createdAt` are unchanged. |
| `RoomSchema.MayEdit` | server/socket/socketHandler.js:96 | The read-only rule shared by the socket edit and the save route (rooms.js:73): a room that is not read-only may be edited by anyone, its owner may always edit it, and a read-only room refuses everyone else. `isLocked` plays no part. |
| `RoomSchema.DefaultsOfNewRoom` | server/models/Room.js:14-29 | A record built without `code`, `language` or flags has `''`, `'javascript'`, not locked, not read-only. |
| `RoomRoutes.RoomStore.Create` | server/routes/rooms.js:10-18 | A taken or empty id fails and leaves the store unchanged. Otherwise the one new record is owned by the requester, with `''`, `'javascript'`, both flags false, and both timestamps at `now`. |
| `RoomRoutes.RoomStore.Save` | server/routes/rooms.js:63-81 | 404 iff the room is missing. 403 iff it is read-only and the requester is not the owner. Both leave the store unchanged. Otherwise only this record changes: the supplied code if truthy, else the stored one, the language replaced only when truthy, `updatedAt = now`. |
| `RoomRoutes.GetRoom` | server/routes/rooms.js:38-55 | 404 iff the room is missing; otherwise the stored record, field for field. |
| `RoomRoutes.OwnedIds` | server/routes/rooms.js:91 | The owner filter selects ids of the store only. |
| `RoomRoutes.SummariesOfAdd` | server/routes/rooms.js:93 | With records keyed by `roomId`, each room adds its own distinct summary to the projection. |
| `RoomRoutes.SortedCons` | server/routes/rooms.js:92 | Putting a most-recently-updated room in front of a sorted list keeps it sorted. |
| `RoomRoutes.InsertByUpdated` | server/routes/rooms.js:92 | Insertion keeps the list ordered by `updatedAt` descending and adds exactly one element. |
| `RoomRoutes.UserRooms` | server/routes/rooms.js:89-93 | The reply is ordered by `updatedAt`, newest first. As a multiset it is exactly the projections of the requester's records: each once, nobody else's. |
| `Debounce.Call` | server/socket/socketHandler.js:16-17 | A call cancels whatever was scheduled and schedules this call's arguments. |
| `Debounce.Fire` | server/socket/socketHandler.js:12-15 | Firing runs the scheduled arguments, if any, and leaves nothing scheduled. |
| `Debounce.Coalesce` | server/socket/socketHandler.js:9-19 | Any non-empty run of calls with no fire leaves exactly one pending run, holding the last call's arguments. |
| `Debounce.FireOnce` | server/socket/socketHandler.js:9-19 | After such a run, the first fire executes the last call; a second fire executes nothing. |
| `Registry.Join` | server/socket/socketHandler.js:61-68 | Afterwards the room is in the table. A known room keeps the room order; a new room is appended. `JoinSpec` states the members. |
| `Registry.Leave` | server/socket/socketHandler.js:168-169 | The room keys and their order are unchanged, even when the room is unknown or its last member leaves. `LeaveSpec` states the members. |
| `Registry.DisconnectEntry` | server/socket/socketHandler.js:153-154 | One step of disconnect's `forEach`: the room key is kept, the socket is absent afterwards, and a map that did not hold it is returned unchanged. |
| `Registry.Disconnect` | server/socket/socketHandler.js:152-155 | The room keys and their order are unchanged, and no inner map holds the socket afterwards. `DisconnectSpec` states what the other members become. |
| `Registry.MembersWellKeyed` | server/socket/socketHandler.js:65-69 | In a valid table, every room's inner map files each member under its own socket id. |
| `Registry.SetMemberWellKeyed` | server/socket/socketHandler.js:65-69 | Setting `{userId, userName, socketId}` under `socketId` keeps the inner map well keyed. |
| `Registry.DeleteMemberWellKeyed` | server/socket/socketHandler.js:169 | Deleting a socket keeps the inner map well keyed. |
| `Registry.SetRoomValid` | server/socket/socketHandler.js:62-64 | Storing an inner map under a room keeps the table valid. Only that room's members change. A new room key is appended. |
| `Registry.JoinSpec` | server/socket/socketHandler.js:62-69 | After join, the room's inner map exists and maps the socket id to the joining user. Re-joining overwrites in place; a new socket is appended. The room's other members and all other rooms are unchanged. |
| `Registry.LeaveSpec` | server/socket/socketHandler.js:168-169 | For an unknown room the table is unchanged. Otherwise the room's inner map becomes `delete` of the old one, so only this socket's entry is gone and the rest keep their order. The room key stays even when emptied. No key is added or removed. |
| `Registry.DisconnectSpec` | server/socket/socketHandler.js:152-155 | The socket is removed from every inner map that held it. Maps without it are unchanged. Room keys and their order are unchanged. |
| `SocketHandler.Handshake` | server/socket/socketHandler.js:23-43 | A missing or empty token is refused. Otherwise the connection is accepted iff the verifier yields an identity, and it carries exactly that identity. |
| `SocketHandler.Announce` | server/socket/socketHandler.js:78-79 | A `users_update` goes to the whole room and lists one record per member, in the inner map's order, each the member's stored `{userId, userName, socketId}`. The same emit is made at lines 157-158 and 170-171. |
| `SocketHandler.CodeChangeStep` | server/socket/socketHandler.js:93-110 | A missing room: no effect. Read-only with a non-owner sender: store unchanged, one `error` to the sender, no `code_update`. Otherwise only that record changes, as `EditRecord` says. The sender's peers get one `code_update` with the stored code and language. |
| `SocketHandler.LanguageStep` | server/socket/socketHandler.js:135-141 | A missing room: no effect. Otherwise `language` and `updatedAt` are set, with no read-only check, and one `language_update` goes to the whole room. No other record changes. |
| `SocketHandler.DisconnectEmits` | server/socket/socketHandler.js:152-160 | The disconnect `forEach` makes at most one emit per room of the table. `DisconnectAnnouncesExactly` states which rooms get one and what each lists. |
| `SocketHandler.MembersOfSnoc` | server/socket/socketHandler.js:152 | Splitting the table at its last room: the rest stays valid, does not contain that room, and reads the same for every other room. |
| `SocketHandler.DisconnectEmitsSnoc` | server/socket/socketHandler.js:152-160 | The `forEach` emits for a table are: the emits for all but its last room, then one for the last room if it held the socket. |
| `SocketHandler.DisconnectEmitsAreSnapshots` | server/socket/socketHandler.js:153-158 | Every disconnect emit goes to a room that held the socket. It lists that room's members after the deletion. |
| `SocketHandler.DisconnectEmitsCover` | server/socket/socketHandler.js:152-158 | Every room that held the socket is announced. |
| `SocketHandler.DisconnectEmitsOncePerRoom` | server/socket/socketHandler.js:152-160 | No room is announced twice. |
| `SocketHandler.DisconnectAnnouncesExactly` | server/socket/socketHandler.js:152-160 | Disconnect announces exactly the rooms that held the socket, each once, each with its inner map from the new table. |
| `SocketHandler.Server.constructor` | server/socket/socketHandler.js:6 | The engine starts with an empty `roomUsers`, no pending edits and nothing emitted. |
| `SocketHandler.Server.JoinRoom` | server/socket/socketHandler.js:49-79 | Unknown room: one `error {Room not found}` to the sender, table unchanged. Otherwise the table becomes `Join`. The joiner gets one `code_update` with the stored code and language. Then the room gets `users_update` listing the new inner map's values. |
| `SocketHandler.Server.LeaveRoom` | server/socket/socketHandler.js:164-172 | The table becomes `Leave`. An unknown room gets no emit. A known room gets one `users_update` of its inner map after the deletion. |
| `SocketHandler.Server.Disconnect` | server/socket/socketHandler.js:148-161 | The loop leaves the table equal to `Disconnect` and appends exactly `DisconnectEmits`. The connection's pending debounced edit is kept. |
| `SocketHandler.Server.CodeChange` | server/socket/socketHandler.js:116-118 | Only this connection's debounce slot changes, to hold the new call. Nothing is written or emitted. |
| `SocketHandler.Server.FireCodeChange` | server/socket/socketHandler.js:89-114 | The connection's slot is emptied. A scheduled call is run against the directory as it is at fire time (`CodeChangeStep`). With nothing scheduled, nothing else changes. |
| `SocketHandler.Server.CursorMove` | server/socket/socketHandler.js:121-128 | Exactly one `cursor_update {userId, userName, cursorPos}` to the sender's peers. No state changes and no check is made. |
| `SocketHandler.Server.LanguageChange` | server/socket/socketHandler.js:131-145 | The directory and emits change as `LanguageStep` says; the table and the debounce slots are unchanged. |

## Behaviour of the code worth knowing

- Debouncing is per connection, not per room. Each connection's `connection`
  callback creates its own debounced function (socketHandler.js:89).
- The peer broadcast of an edit is inside the debounced function, after the
  save (socketHandler.js:104-110). Peers hear of an edit only when the timer
  fires, and only if the save was allowed.
- When the last member leaves, the room's inner map stays in `roomUsers`,
  empty (`Registry.LeaveSpec`, `Registry.DisconnectSpec`).
- Nothing flushes a pending edit on leave. A disconnected connection's
  pending edit still fires later, saves, and reaches the peers
  (`Scenarios.EditThenDisconnect`).
- `code_change`, `language_change` and `cursor_move` never check that the
  sender joined the room. `code_change` and `language_change` check only
  that the room exists in the directory, and `code_change` also applies the
  read-only rule.
- `language_change` has no read-only check.

## Left out

- The routes' `auth` middleware: each route receives the requester's user
  id as a parameter.
- Authentication internals: JWT verification and the user lookup are one
  function parameter of `SocketHandler.Handshake`.
- MongoDB I/O is a map from `roomId` to record. Database ids such as `_id`
  (returned by the field selection of rooms.js:93) are not modelled. Its
  failures are left out:
  the `Failed to join room` error, and the logged failures of code/language
  saves and of the routes (HTTP 500 apart from `Create`).
- socket.io transport: room membership from `socket.join`/`socket.leave`
  and fan-out are not modelled. Recipients are symbolic: one socket, the
  whole room, or the room except the sender.
- Real timers are replaced by the explicit fire step. Each debounced run
  takes the save time as a natural-number parameter, as do the routes.
- UUID generation: `RoomStore.Create` receives the id. A duplicate id is
  modelled as the unique-index failure.
- Async interleaving between `await`s is left out; each handler is one
  atomic step. So are concurrent saves racing on one record.
- `isLocked` is stored with its default, and no path reads it. No modelled
  path sets `isReadOnly` either, so the read-only branches are reachable
  only through records created outside this core.
- `RoomSchema.Saved`: refreshes `updatedAt` on every save. The database
  library skips the refresh when no field was modified; that library code
  is not part of this model.
- `RoomRoutes.GetRoom`: returns `createdBy` as the owner's id. The route's
  `populate` swaps in the owner's name and e-mail from the user collection,
  which is not part of this model.
- `SocketHandler.CodeChangeStep`: `code` and `language_change`'s `language`
  are always-present strings. A client that omits them would store
  `undefined`, and that is not modelled.
- The response message texts, `roomURL`, and logging are left out.
- The client (React pages, autosave timer, echo suppression) is not part of
  this model.
