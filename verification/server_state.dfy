/**
 * The in-memory state of the whiteboard server, seen as one immutable record:
 * the `activeUsers` registry, socket.io's room membership, the queue of pending
 * deletion timers, the room store and the log of emitted events.
 */
module ServerState {
  import opened RoomModel
  import Transport

  /**
   * The payload of an outbound event. Each variant is one socket.io event name:
   * `active-users`, `receive-drawing`, `undo-redo-receive`, `clear-board-receive`, `room-deleted`.
   */
  datatype Payload =
    | ActiveUsers(count: nat)
    | ReceiveDrawing(line: Line)
    | UndoRedoReceive(state: seq<Line>)
    | ClearBoardReceive
    | RoomDeleted(message: string, roomId: RoomId)

  /** One emitted event: what was sent, and to which sockets. */
  datatype Emit = Emit(payload: Payload, to: set<SessionId>)

  datatype State = State(
    active: map<RoomId, set<SessionId>>,   // `activeUsers`: room id -> socket ids
    sockets: Transport.Rooms,              // socket.io's room membership
    timers: seq<RoomId>,                   // pending deletion callbacks, in firing order
    store: map<RoomId, Room>,              // the persisted room documents
    log: seq<Emit>)                        // every event emitted so far, oldest first

  /** The registry set of `r`, empty when the registry has no entry. */
  function Registered(active: map<RoomId, set<SessionId>>, r: RoomId): set<SessionId> {
    if r in active then active[r] else {}
  }

  /** The server as it starts: no connections, no timers, whatever the database already holds. */
  function Init(store: map<RoomId, Room>): (st: State)
    ensures st.active == map[] && st.timers == [] && st.log == []
    ensures forall r :: Transport.Members(st.sockets, r) == {}
    ensures st.store == store
  {
    State(map[], map[], [], store, [])
  }

  /**
   * A registry entry only lists sockets that are also in the transport room, except a
   * socket listed under a room named by its own id (the disconnect handler skips that room).
   */
  ghost predicate RegistryWithinTransport(st: State) {
    forall r, u :: r in st.active && u in st.active[r] && u != r ==> u in Transport.Members(st.sockets, r)
  }

  /** A room whose registry entry is empty (draining) always has a deletion timer pending. */
  ghost predicate DrainingHasTimer(st: State) {
    forall r :: r in st.active && st.active[r] == {} ==> r in st.timers
  }

  /** Every stored document satisfies the schema's required fields. */
  ghost predicate StoreWellFormed(st: State) {
    forall r :: r in st.store ==> WellFormed(st.store[r])
  }

  ghost predicate Valid(st: State) {
    RegistryWithinTransport(st) && DrainingHasTimer(st) && StoreWellFormed(st)
  }

  /** The fresh server satisfies every invariant, given a database of well-formed documents. */
  lemma InitValid(store: map<RoomId, Room>)
    requires forall r :: r in store ==> WellFormed(store[r])
    ensures Valid(Init(store))
  {
  }
}
