# Whiteboard room presence and deferred teardown, in Dafny

This project models the real-time core of a collaborative whiteboard server. The server is an
Express + socket.io + Mongoose application. The model covers:

- the `activeUsers` registry (room id -> set of socket ids);
- socket.io's room membership, which decides who receives a broadcast;
- the deletion timers queued when a room empties, and the re-check they make when they fire;
- the room documents, with the HTTP operations `createRoom`, `getRoom`, `deleteRoom` and
  `saveRoomState`;
- the log of every event the server emits, with its payload and its recipients.

The server state is one immutable record (`ServerState.State`). Every socket handler, timer
callback and HTTP request is a pure function from one state to the next. `Lifecycle.Step`
dispatches over all of them, and `Teardown` states the per-room phase machine
(ACTIVE / DRAINING / ABSENT) that the handlers implement.

Modules, by file:

- `wrappers.dfy` (`Wrappers`): `Option` and `Result`.
- `room_model.dfy` (`RoomModel`): the `Room`/`Line`/`Point` documents and the board update.
- `transport.dfy` (`Transport`): socket.io's room membership: join, leave, `socket.rooms`, leave-all.
- `server_state.dfy` (`ServerState`): the state record, the outbound payloads and the invariants.
- `server.dfy` (`Server`): the socket handlers of `server.js` and the timer callback.
- `room_controller.dfy` (`RoomController`): the HTTP room operations.
- `lifecycle.dfy` (`Lifecycle`): all inbound events as one state machine; invariant preservation.
- `teardown.dfy` (`Teardown`): the room phases, allowed transitions, and the teardown properties.
- `scenarios.dfy` (`Scenarios`): concrete runs.

Timers are a FIFO queue. Every timer is armed with the same 5-minute delay, and Node runs
timers of equal delay in the order they were armed, so the next callback to run is always the
oldest pending one (`Server.FireTimer` fires the head). Events may interleave with the firings
in any way.

The model follows the code as written, including where it departs from the evident design
of a grace window that a rejoin cancels:

- A join does not cancel a pending deletion. Only the re-check at fire time rescues a room.
  `Scenarios.StaleTimerDeletesEarly` shows the consequence. An older timer can delete a room
  that emptied again later, while that later emptying's own timer is still pending.
- Several timers can be pending for one room: one per leave or disconnect that finds the room's
  entry empty. That includes an entry that was already empty, such as a repeated `leave-room`
  of a draining room.
- A manual delete neither cancels pending timers nor touches the registry.
- During `disconnecting` the socket is still in its transport rooms. The `active-users`
  update sent to a room it leaves therefore also goes to the disconnecting socket itself.
- The relays use `socket.to(r)`. The audience is computed as socket.io 4 computes it: the sockets
  in `r` minus those in the room named by the sender's id. A socket that sent `leave-room` for
  its own id receives its own strokes (`Scenarios.DrawerOutsideOwnRoomHearsItself`). A socket
  that joined another socket's own-id room is skipped by that socket's relays.
- A room created without a creator is stored with the creator `'anonymous'`. Any request that
  supplies `'anonymous'` can then delete it (`RoomController.AnonymousRoomDeletableByAnyone`).

## Model

| member | source | states |
|---|---|---|
| `RoomModel.ReplaceBoard` | controllers/roomController.js:76-81 | replacing a board keeps the set of documents and every other document; the target keeps its name and creator and gets exactly the new board |
| `Transport.Join` | server.js:47 | `socket.join` adds the socket to that room and changes no other room |
| `Transport.Leave` | server.js:79 | `socket.leave` removes the socket from that room and changes no other room |
| `Transport.RoomsOf` | server.js:112 | `socket.rooms` is exactly the set of rooms the adapter lists the socket in |
| `ServerState.Init` | server.js:40 | the server starts with an empty registry, no transport rooms, no timers and no emitted events |
| `ServerState.InitValid` | server.js:40 | the starting state satisfies every invariant when the stored documents are well formed |
| `Server.Connect` | server.js:42 | a new connection is in the room named by its own id; nothing else changes |
| `Server.JoinRoom` | server.js:45-59 | the registry entry is created if absent and gains the socket; the transport room gains it; `active-users` carries the new registry size to every socket in the room, joiner included; timers and store unchanged (a join cancels nothing) |
| `Server.JoinTwice` | server.js:50-56 | joining twice leaves registry, transport, timers and store as after one join, and announces the same count again |
| `Server.Audience` | server.js:61-75 | `socket.to(r)` reaches exactly the sockets in `r` that are not in the room named by the sender's id; the sender is skipped whenever it is still in that room |
| `Server.AudienceSkipsSender` | server.js:61-75 | while the sender's own-id room holds just the sender, the audience is the room's members minus the sender |
| `Server.AudienceEchoesWithoutOwnRoom` | server.js:61-75 | a sender that has left its own-id room is in the audience of its own relay to a room it is in |
| `Server.Relay` | server.js:61-75 | only the log changes: one event with the payload goes to the relay audience of the room, which excludes the sender while it is in its own-id room |
| `Server.DrawingData` | server.js:61-63 | only the log changes: `receive-drawing` with the stroke goes to the relay audience of the room |
| `Server.SaveState` | server.js:65-67 | only the store changes: the board of an existing document is replaced, name, creator and other documents kept; an unknown id changes nothing |
| `Server.UndoRedo` | server.js:69-71 | only the log changes: `undo-redo-receive` with the client's state goes to the relay audience of the room |
| `Server.ClearBoard` | server.js:73-75 | only the log changes: `clear-board-receive` goes to the relay audience of the room |
| `Server.Drain` | server.js:81-106 | with no registry entry nothing changes; otherwise the socket leaves the entry, and if it is now empty exactly one timer is queued and nothing emitted, else the remaining count goes to the room and no timer is queued |
| `Server.LeaveRoom` | server.js:77-107 | the socket leaves the transport room first; with no registry entry only that membership changes; otherwise the removal rule, with the announcement going to the remaining sockets (never the leaver) |
| `Server.Drained` | server.js:115-141 | lists, without duplicates and in iteration order, exactly the rooms the removal rule leaves empty (or leaves with other sockets) |
| `Server.DrainAllFrame` | server.js:115-143 | running the removal rule over the socket's rooms changes neither transport nor store, nor the set of registry entries |
| `Server.DrainAllRegistry` | server.js:115-118 | each iterated room's entry loses the socket and every other entry is unchanged |
| `Server.DrainAllTimers` | server.js:122-138 | the timers queued are exactly the emptied rooms, once each, in iteration order |
| `Server.DrainAllLog` | server.js:139-141 | the events emitted are one `active-users` per room left non-empty, in iteration order |
| `Server.Disconnecting` | server.js:109-144 | every room of the socket except its own-id room loses it from the registry, others untouched; emptied rooms each get a timer, the rest an announcement sent while the socket is still in the room; afterwards socket.io's leave-all (`Transport.LeaveAll`) leaves the socket in no transport room, other sockets' memberships unchanged |
| `Server.DisconnectAnnouncesRemainingCounts` | server.js:116-141 | each announcement a disconnect sends carries the registry size of its room right after the disconnect |
| `Server.DisconnectOrderIrrelevant` | server.js:112-115 | the iteration order of `socket.rooms` does not change registry, transport or store, the multiset of pending timers, or the set of events sent |
| `Server.FireTimer` | server.js:89-99 | the oldest timer leaves the queue; the document and registry entry are deleted only if the entry exists and is empty at that moment, otherwise nothing else changes |
| `RoomController.CreatorOrAnonymous` | controllers/roomController.js:5 | the supplied creator when truthy, `'anonymous'` otherwise; never empty |
| `RoomController.CreateRoom` | controllers/roomController.js:3-28 | succeeds exactly when a non-empty name is given, storing a room with that name, the creator or 'anonymous', and an empty board; otherwise a 500 with the state unchanged |
| `RoomController.GetRoom` | controllers/roomController.js:30-44 | NotFound exactly when the id is absent, otherwise the stored document |
| `RoomController.RequestCreator` | controllers/roomController.js:52 | the body's creator when truthy, otherwise the query's |
| `RoomController.DeleteRoom` | controllers/roomController.js:47-72 | an absent id is NotFound whatever creator is supplied; a creator mismatch (or none) is Forbidden with nothing changed; success removes exactly that document and sends `room-deleted{message, roomId}` to the room's sockets, leaving registry, transport and timers alone |
| `RoomController.SaveRoomState` | controllers/roomController.js:74-87 | NotFound with nothing changed exactly when the id is absent; otherwise the board is replaced, name and creator kept, the updated document returned, and only the store changes |
| `RoomController.CreatedRoomIsFound` | controllers/roomController.js:3-39 | a room just created is found under its id with the given name, the creator or 'anonymous', and an empty board |
| `RoomController.CreatorDeleteUndoesCreate` | controllers/roomController.js:3-66 | the creator can delete a room right after creating it, which restores the store and makes the id NotFound again |
| `RoomController.AnonymousRoomDeletableByAnyone` | controllers/roomController.js:5-56 | a room created without a creator can be deleted by any request supplying the creator 'anonymous' |
| `RoomController.SavedBoardIsRead` | controllers/roomController.js:74-83 | reading a room after saving its board returns the saved document with exactly that board |
| `Lifecycle.JoinPreservesValid` | server.js:45-59 | a join keeps the registry within the transport rooms and keeps every draining room's timer pending |
| `Lifecycle.LeavePreservesValid` | server.js:77-107 | a leave preserves the invariants; when it empties an entry the timer it queues covers the new draining room |
| `Lifecycle.DisconnectPreservesValid` | server.js:109-144 | a disconnect preserves the invariants |
| `Lifecycle.FirePreservesValid` | server.js:89-99 | a timer callback preserves the invariants: a draining room it does not delete still has a later timer |
| `Lifecycle.HttpPreservesValid` | controllers/roomController.js:3-87 | the HTTP operations and `save-state` keep every stored document well formed and leave registry, transport and timers alone |
| `Lifecycle.StepPreservesValid` | server.js:45-144 | every inbound event preserves the invariants |
| `Lifecycle.RunPreservesValid` | server.js:42-149 | every sequence of events from a valid state ends in a valid state |
| `Teardown.StepPhase` | server.js:81-98 | every event moves each room along ABSENT->ACTIVE, ACTIVE->DRAINING, DRAINING->ACTIVE or DRAINING->ABSENT; only a join makes a room ACTIVE, and only that room's timer firing while it drains removes its entry |
| `Teardown.StoreDeletion` | server.js:89-95 | a document disappears only by a manual delete of that id or by its room's timer firing while the room drains |
| `Teardown.DrainingRoomIsTornDown` | server.js:86-99 | a draining room no one rejoins has neither registry entry nor document once the pending timers have fired |
| `Teardown.FireAllSparesActive` | server.js:91 | timer callbacks leave a room with sockets, and its document, unchanged |
| `Teardown.RejoinRescues` | server.js:91-98 | a join before the room's timer fires keeps the document and the joiner's registry entry |
| `Scenarios.ReconnectWithinGraceWindow` | server.js:45-144 | A and B join, A disconnects, B leaves and rejoins before the timer fires: the counts announced are 1, 2, 1, 1 and the room survives |
| `Scenarios.LoneDrawerReachesNobody` | server.js:61-63 | a stroke from the only socket in a room is relayed to no one |
| `Scenarios.DrawerOutsideOwnRoomHearsItself` | server.js:61-79 | a socket that sent `leave-room` for its own id, then joined a room, receives its own stroke back |
| `Scenarios.StaleTimerDeletesEarly` | server.js:85-99 | after leave, rejoin, leave, the first timer deletes the room while the second is still pending |

## Left out

- Express, CORS, socket.io server construction, the `req.io` middleware, the Mongo connection and
  the exit on startup failure are library wiring. Console output is not modelled.
- The 5-minute delay is not modelled as time. Timers are a queue fired by an explicit event, in
  arming order.
- The timer callback is one atomic step. In the code it awaits the document delete before it
  deletes the registry entry. A join landing in that window finds the empty entry still there and
  adds the joiner to it. The callback then deletes that entry with the joiner in it, and the room's
  document is already gone. The model does not split the callback.
- The relay audience follows socket.io 4, which skips the sockets in the sender's own-id room.
  That rule is socket.io's code, which is not part of this model.
- RoomController.DeleteRoom: the request is one atomic step. In the code it awaits the lookup
  and then the delete before it emits. Two creator deletes of the same id can therefore both pass
  the existence check, and both then answer 200 and send `room-deleted`. In the model the second
  delete answers NotFound and sends nothing.
- Persistence failures are not modelled: 500 answers from database errors, cast errors on
  malformed ids, update validators, and unhandled rejections inside timer callbacks.
- Malformed inbound events (a missing room id) are not modelled. Every event carries its fields.
- The `undo-redo` state and the relayed stroke are client JSON. They are modelled as boards and
  lines, and are relayed unchanged.
- Point coordinates are JavaScript Numbers. They are modelled as integers, and nothing depends
  on them.
- The route wiring in `routes/roomRoutes.js` has no logic. It imports a `getAllRooms` that the
  controller does not export, which the model does not cover.
- `createRoom` reads the document back after saving it, but only to log it. That read is not
  modelled.
- Document ids are not generated. `CreateRoom` takes a fresh id as a parameter.
- The iteration order of `socket.rooms` is a parameter of `Disconnecting`.
- HTTP status codes are not modelled beyond `RoomController.Status` for the error cases.
