/**
 * socket.io's room membership (its adapter): room name -> sockets in that room.
 * Broadcast audiences are read from it; `socket.join` and `socket.leave` change it.
 */
module Transport {
  import opened RoomModel

  type Rooms = map<RoomId, set<SessionId>>

  /** The sockets in room `r`; a room the adapter does not know is empty. */
  function Members(t: Rooms, r: RoomId): set<SessionId> {
    if r in t then t[r] else {}
  }

  /** `socket.join(r)`: `s` is in `r` afterwards, and no other room changes. */
  function Join(t: Rooms, s: SessionId, r: RoomId): (t': Rooms)
    ensures Members(t', r) == Members(t, r) + {s}
    ensures forall q :: q != r ==> Members(t', q) == Members(t, q)
  {
    t[r := Members(t, r) + {s}]
  }

  /** `socket.leave(r)`: `s` is no longer in `r`, and no other room changes. */
  function Leave(t: Rooms, s: SessionId, r: RoomId): (t': Rooms)
    ensures Members(t', r) == Members(t, r) - {s}
    ensures forall q :: q != r ==> Members(t', q) == Members(t, q)
  {
    t[r := Members(t, r) - {s}]
  }

  /** `socket.rooms`: every room the adapter lists `s` in. */
  function RoomsOf(t: Rooms, s: SessionId): (rs: set<RoomId>)
    ensures forall q :: q in rs <==> s in Members(t, q)
  {
    set q | q in t && s in t[q]
  }

  /** What socket.io does once a socket has disconnected: it leaves every room, its own included. */
  function LeaveAll(t: Rooms, s: SessionId): (t': Rooms)
    ensures forall q :: Members(t', q) == Members(t, q) - {s}
    ensures RoomsOf(t', s) == {}
  {
    map q | q in t :: t[q] - {s}
  }
}
