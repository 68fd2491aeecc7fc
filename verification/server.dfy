/**
 * The socket event handlers of the whiteboard server, each a pure transition on
 * the server state, and the callback of a pending deletion timer.
 */
module Server {
  import opened RoomModel
  import opened ServerState
  import Transport

  /** No room appears twice in an iteration order. */
  predicate NoDuplicates<T(==)>(xs: seq<T>) {
    forall i, j :: 0 <= i < j < |xs| ==> xs[i] != xs[j]
  }

  /** socket.io puts every new connection in a room named by its own socket id. */
  function Connect(st: State, s: SessionId): (post: State)
    ensures s in Transport.Members(post.sockets, s)
    ensures forall q :: q != s ==> Transport.Members(post.sockets, q) == Transport.Members(st.sockets, q)
    ensures post.(sockets := st.sockets) == st
  {
    st.(sockets := Transport.Join(st.sockets, s, s))
  }

  /**
   * `join-room`: the socket joins the transport room, the registry entry is created
   * when absent and the socket added, and the new registry size goes to every socket
   * in the room, the joiner included. Pending timers are left alone.
   */
  function JoinRoom(st: State, s: SessionId, r: RoomId): (post: State)
    ensures post.active.Keys == st.active.Keys + {r}
    ensures post.active[r] == Registered(st.active, r) + {s}
    ensures forall q :: q in st.active && q != r ==> post.active[q] == st.active[q]
    ensures Transport.Members(post.sockets, r) == Transport.Members(st.sockets, r) + {s}
    ensures forall q :: q != r ==> Transport.Members(post.sockets, q) == Transport.Members(st.sockets, q)
    ensures post.timers == st.timers && post.store == st.store
    ensures post.log == st.log + [Emit(ActiveUsers(|post.active[r]|), Transport.Members(post.sockets, r))]
    ensures s in post.log[|post.log| - 1].to
  {
    var sockets := Transport.Join(st.sockets, s, r);
    var members := Registered(st.active, r) + {s};
    st.(sockets := sockets,
        active := st.active[r := members],
        log := st.log + [Emit(ActiveUsers(|members|), Transport.Members(sockets, r))])
  }

  /**
   * The audience of `socket.to(r).emit(...)`: socket.io 4 sends to every socket in `r`
   * except those in the room named by the sender's own id. That room normally holds only
   * the sender, but a socket can leave it, and another socket can join it.
   */
  function Audience(sockets: Transport.Rooms, s: SessionId, r: RoomId): (to: set<SessionId>)
    ensures forall q :: q in to <==> q in Transport.Members(sockets, r) && q !in Transport.Members(sockets, s)
    ensures s in Transport.Members(sockets, s) ==> s !in to
  {
    Transport.Members(sockets, r) - Transport.Members(sockets, s)
  }

  /** While the sender's own-id room holds just the sender, a relay reaches the rest of `r`. */
  lemma AudienceSkipsSender(sockets: Transport.Rooms, s: SessionId, r: RoomId)
    requires Transport.Members(sockets, s) == {s}
    ensures Audience(sockets, s, r) == Transport.Members(sockets, r) - {s}
  {
  }

  /** A sender that has left its own-id room is in the audience of its own relay to a room it is in. */
  lemma AudienceEchoesWithoutOwnRoom(sockets: Transport.Rooms, s: SessionId, r: RoomId)
    requires s !in Transport.Members(sockets, s) && s in Transport.Members(sockets, r)
    ensures s in Audience(sockets, s, r)
  {
  }

  /** `socket.to(r).emit(...)`: the payload goes to the relay audience of `r`; no state changes. */
  function Relay(st: State, s: SessionId, r: RoomId, p: Payload): (post: State)
    ensures post.(log := st.log) == st
    ensures post.log == st.log + [Emit(p, Audience(st.sockets, s, r))]
    ensures s in Transport.Members(st.sockets, s) ==> s !in post.log[|post.log| - 1].to
  {
    st.(log := st.log + [Emit(p, Audience(st.sockets, s, r))])
  }

  /** `drawing-data`: the stroke is relayed as `receive-drawing` to the rest of the room. */
  function DrawingData(st: State, s: SessionId, r: RoomId, line: Line): (post: State)
    ensures post.(log := st.log) == st
    ensures post.log == st.log + [Emit(ReceiveDrawing(line), Audience(st.sockets, s, r))]
  {
    Relay(st, s, r, ReceiveDrawing(line))
  }

  /** `undo-redo`: the client's board state is relayed as `undo-redo-receive` to the rest of the room. */
  function UndoRedo(st: State, s: SessionId, r: RoomId, state: seq<Line>): (post: State)
    ensures post.(log := st.log) == st
    ensures post.log == st.log + [Emit(UndoRedoReceive(state), Audience(st.sockets, s, r))]
  {
    Relay(st, s, r, UndoRedoReceive(state))
  }

  /** `clear-board`: `clear-board-receive` goes to the rest of the room. */
  function ClearBoard(st: State, s: SessionId, r: RoomId): (post: State)
    ensures post.(log := st.log) == st
    ensures post.log == st.log + [Emit(ClearBoardReceive, Audience(st.sockets, s, r))]
  {
    Relay(st, s, r, ClearBoardReceive)
  }

  /**
   * `save-state`: the stored board of `r` is replaced (nothing happens when there is no
   * such document); registry, transport, timers and log are untouched.
   */
  function SaveState(st: State, r: RoomId, board: seq<Line>): (post: State)
    ensures post.(store := st.store) == st
    ensures post.store.Keys == st.store.Keys
    ensures r in st.store ==> post.store[r] == st.store[r].(whiteboardState := board)
    ensures forall q :: q in st.store && q != r ==> post.store[q] == st.store[q]
  {
    st.(store := ReplaceBoard(st.store, r, board))
  }

  /**
   * The removal rule shared by `leave-room` and `disconnecting`, for one room: when the
   * registry has an entry for `r`, `s` is removed from it; if that leaves it empty one new
   * deletion timer is queued and nothing is emitted, otherwise the remaining count goes to
   * the sockets currently in the transport room and no timer is queued.
   */
  function Drain(st: State, s: SessionId, r: RoomId): (post: State)
    ensures post.sockets == st.sockets && post.store == st.store
    ensures r !in st.active ==> post == st
    ensures r in st.active ==> post.active == st.active[r := st.active[r] - {s}]
    ensures r in st.active && st.active[r] - {s} == {} ==>
              post.timers == st.timers + [r] && post.log == st.log
    ensures r in st.active && st.active[r] - {s} != {} ==>
              post.timers == st.timers && post.log == st.log + [Announcement(st, s, r)]
  {
    if r !in st.active then st
    else
      var rest := st.active[r] - {s};
      if |rest| == 0 then
        st.(active := st.active[r := rest], timers := st.timers + [r])
      else
        st.(active := st.active[r := rest],
            log := st.log + [Emit(ActiveUsers(|rest|), Transport.Members(st.sockets, r))])
  }

  /** The `active-users` event the removal rule sends for `r` when `s` leaves it and others remain. */
  function Announcement(st: State, s: SessionId, r: RoomId): Emit {
    Emit(ActiveUsers(|Registered(st.active, r) - {s}|), Transport.Members(st.sockets, r))
  }

  /**
   * `leave-room`: the socket leaves the transport room first, then the removal rule runs.
   * With no registry entry for `r` only the transport membership changes.
   */
  function LeaveRoom(st: State, s: SessionId, r: RoomId): (post: State)
    ensures Transport.Members(post.sockets, r) == Transport.Members(st.sockets, r) - {s}
    ensures forall q :: q != r ==> Transport.Members(post.sockets, q) == Transport.Members(st.sockets, q)
    ensures post.store == st.store
    ensures r !in st.active ==> post.(sockets := st.sockets) == st
    ensures r in st.active ==> post.active == st.active[r := st.active[r] - {s}]
    ensures r in st.active && st.active[r] - {s} == {} ==>
              post.timers == st.timers + [r] && post.log == st.log
    ensures r in st.active && st.active[r] - {s} != {} ==>
              && post.timers == st.timers
              && post.log == st.log + [Emit(ActiveUsers(|post.active[r]|), Transport.Members(post.sockets, r))]
              && s !in post.log[|post.log| - 1].to
  {
    Drain(st.(sockets := Transport.Leave(st.sockets, s, r)), s, r)
  }

  /** The removal rule applied to each room of `order` in turn. */
  function DrainAll(st: State, s: SessionId, order: seq<RoomId>): State
    decreases |order|
  {
    if order == [] then st else DrainAll(Drain(st, s, order[0]), s, order[1..])
  }

  /**
   * The rooms of `order` that the removal rule leaves empty (`emptied`) or leaves
   * with other sockets (`!emptied`), in iteration order.
   */
  function Drained(active: map<RoomId, set<SessionId>>, s: SessionId, order: seq<RoomId>, emptied: bool): (rs: seq<RoomId>)
    ensures forall q :: q in rs <==> q in order && q in active && (active[q] - {s} == {}) == emptied
    ensures NoDuplicates(order) ==> NoDuplicates(rs)
    decreases |order|
  {
    if order == [] then []
    else
      var rest := Drained(active, s, order[1..], emptied);
      var q := order[0];
      if q in active && (active[q] - {s} == {}) == emptied then
        assert NoDuplicates(order) ==> q !in order[1..];
        [q] + rest
      else rest
  }

  /** The announcements for `rooms`, in order. */
  function Announce(st: State, s: SessionId, rooms: seq<RoomId>): (es: seq<Emit>)
    ensures |es| == |rooms|
    ensures forall k :: 0 <= k < |rooms| ==> es[k] == Announcement(st, s, rooms[k])
    decreases |rooms|
  {
    if rooms == [] then [] else [Announcement(st, s, rooms[0])] + Announce(st, s, rooms[1..])
  }

  /** `Drained` reads `active` only at the rooms of `order`. */
  lemma {:induction false} DrainedAgree(a1: map<RoomId, set<SessionId>>, a2: map<RoomId, set<SessionId>>,
                                        s: SessionId, order: seq<RoomId>, emptied: bool)
    requires forall q :: q in order ==> (q in a1 <==> q in a2) && (q in a1 ==> a1[q] == a2[q])
    ensures Drained(a1, s, order, emptied) == Drained(a2, s, order, emptied)
    decreases |order|
  {
    if order != [] {
      DrainedAgree(a1, a2, s, order[1..], emptied);
    }
  }

  /** `Announce` reads the registry only at the rooms it announces. */
  lemma AnnounceAgree(st1: State, st2: State, s: SessionId, rooms: seq<RoomId>)
    requires st1.sockets == st2.sockets
    requires forall q :: q in rooms ==> Registered(st1.active, q) == Registered(st2.active, q)
    ensures Announce(st1, s, rooms) == Announce(st2, s, rooms)
  {
  }

  /** The removal rule never touches the transport or the store, nor adds or drops registry entries. */
  lemma {:induction false} DrainAllFrame(st: State, s: SessionId, order: seq<RoomId>)
    ensures DrainAll(st, s, order).sockets == st.sockets
    ensures DrainAll(st, s, order).store == st.store
    ensures DrainAll(st, s, order).active.Keys == st.active.Keys
    decreases |order|
  {
    if order != [] {
      DrainAllFrame(Drain(st, s, order[0]), s, order[1..]);
    }
  }

  /** Over a duplicate-free order, each listed room's registry entry loses `s` and no other entry changes. */
  lemma {:induction false} DrainAllRegistry(st: State, s: SessionId, order: seq<RoomId>)
    requires NoDuplicates(order)
    ensures DrainAll(st, s, order).active.Keys == st.active.Keys
    ensures forall q :: q in st.active ==>
              DrainAll(st, s, order).active[q] == if q in order then st.active[q] - {s} else st.active[q]
    decreases |order|
  {
    DrainAllFrame(st, s, order);
    if order != [] {
      var x, rest := order[0], order[1..];
      var st1 := Drain(st, s, x);
      assert x !in rest;
      DrainAllRegistry(st1, s, rest);
    }
  }

  /** Facts about the first step of a duplicate-free order that the threading lemmas share. */
  lemma FirstStepAgrees(st: State, s: SessionId, order: seq<RoomId>)
    requires NoDuplicates(order) && order != []
    ensures NoDuplicates(order[1..])
    ensures forall q :: q in order[1..] ==>
              && (q in Drain(st, s, order[0]).active <==> q in st.active)
              && (q in st.active ==> Drain(st, s, order[0]).active[q] == st.active[q])
  {
  }

  /** Over a duplicate-free order, the new timers are the emptied rooms in iteration order. */
  lemma {:induction false} DrainAllTimers(st: State, s: SessionId, order: seq<RoomId>)
    requires NoDuplicates(order)
    ensures DrainAll(st, s, order).timers == st.timers + Drained(st.active, s, order, true)
    decreases |order|
  {
    if order != [] {
      var st1 := Drain(st, s, order[0]);
      FirstStepAgrees(st, s, order);
      DrainAllTimers(st1, s, order[1..]);
      DrainedAgree(st1.active, st.active, s, order[1..], true);
    }
  }

  lemma DrainedCons(active: map<RoomId, set<SessionId>>, s: SessionId, order: seq<RoomId>)
    requires order != [] && order[0] in active && active[order[0]] - {s} != {}
    ensures Drained(active, s, order, false) == [order[0]] + Drained(active, s, order[1..], false)
  {
  }

  lemma AnnounceCons(st: State, s: SessionId, x: RoomId, rooms: seq<RoomId>)
    ensures Announce(st, s, [x] + rooms) == [Announcement(st, s, x)] + Announce(st, s, rooms)
  {
  }

  /** One step of the removal rule adds exactly the announcements `Announce` lists for the first room. */
  lemma DrainStepLog(st: State, s: SessionId, order: seq<RoomId>)
    requires order != []
    ensures Drain(st, s, order[0]).log + Announce(st, s, Drained(st.active, s, order[1..], false))
            == st.log + Announce(st, s, Drained(st.active, s, order, false))
  {
    var x, sv := order[0], Drained(st.active, s, order[1..], false);
    if x in st.active && st.active[x] - {s} != {} {
      DrainedCons(st.active, s, order);
      AnnounceCons(st, s, x, sv);
    }
  }

  /** Over a duplicate-free order, the new events are one announcement per room left non-empty, in iteration order. */
  lemma {:induction false} DrainAllLog(st: State, s: SessionId, order: seq<RoomId>)
    requires NoDuplicates(order)
    ensures DrainAll(st, s, order).log == st.log + Announce(st, s, Drained(st.active, s, order, false))
    decreases |order|
  {
    if order != [] {
      var st1 := Drain(st, s, order[0]);
      var rest := order[1..];
      FirstStepAgrees(st, s, order);
      DrainAllLog(st1, s, rest);
      DrainedAgree(st1.active, st.active, s, rest, false);
      var sv := Drained(st.active, s, rest, false);
      assert forall q :: q in sv ==> Registered(st1.active, q) == Registered(st.active, q);
      AnnounceAgree(st1, st, s, sv);
      DrainStepLog(st, s, order);
    }
  }

  /** The rooms listed in an iteration order. */
  function Elements(order: seq<RoomId>): (rs: set<RoomId>)
    ensures forall q :: q in rs <==> q in order
  {
    set q | q in order
  }

  /** `Disconnecting` enumerates exactly the socket's rooms other than its own-id room, each once. */
  predicate EnumeratesRooms(st: State, s: SessionId, order: seq<RoomId>) {
    && NoDuplicates(order)
    && Elements(order) == Transport.RoomsOf(st.sockets, s) - {s}
  }

  /**
   * `disconnecting` followed by socket.io's cleanup: the removal rule runs for every room
   * the socket is in except its own-id room, while the socket is still in those rooms (so
   * the announcements reach it too); afterwards the socket leaves every transport room.
   * `order` is the iteration order of `socket.rooms`.
   */
  function Disconnecting(st: State, s: SessionId, order: seq<RoomId>): (post: State)
    requires EnumeratesRooms(st, s, order)
    ensures forall q :: Transport.Members(post.sockets, q) == Transport.Members(st.sockets, q) - {s}
    ensures post.store == st.store
    ensures post.active.Keys == st.active.Keys
    ensures forall q :: q in st.active ==>
              post.active[q] == if q != s && s in Transport.Members(st.sockets, q) then st.active[q] - {s} else st.active[q]
    ensures post.timers == st.timers + Drained(st.active, s, order, true)
    ensures post.log == st.log + Announce(st, s, Drained(st.active, s, order, false))
  {
    DrainAllFrame(st, s, order);
    DrainAllRegistry(st, s, order);
    DrainAllTimers(st, s, order);
    DrainAllLog(st, s, order);
    var drained := DrainAll(st, s, order);
    drained.(sockets := Transport.LeaveAll(drained.sockets, s))
  }

  /**
   * One queued deletion callback runs (the head of the queue: every timer has the same
   * delay). It deletes the stored room and the registry entry only if the entry exists
   * and is empty at that moment; otherwise it does nothing but leave the queue.
   */
  function FireTimer(st: State): (post: State)
    requires st.timers != []
    ensures post.timers == st.timers[1..]
    ensures post.sockets == st.sockets && post.log == st.log
    ensures st.timers[0] in st.active && st.active[st.timers[0]] == {} ==>
              post.active == st.active - {st.timers[0]} && post.store == st.store - {st.timers[0]}
    ensures !(st.timers[0] in st.active && st.active[st.timers[0]] == {}) ==>
              post.active == st.active && post.store == st.store
  {
    var r := st.timers[0];
    if r in st.active && |st.active[r]| == 0 then
      st.(timers := st.timers[1..], active := st.active - {r}, store := st.store - {r})
    else
      st.(timers := st.timers[1..])
  }

  /** Removing the element at `i` from a duplicate-free sequence removes exactly that element. */
  lemma RemoveAt<T>(b: seq<T>, i: nat)
    requires NoDuplicates(b) && i < |b|
    ensures NoDuplicates(b[..i] + b[i+1..])
    ensures forall q :: q in b[..i] + b[i+1..] <==> q in b && q != b[i]
    ensures multiset(b) == multiset{b[i]} + multiset(b[..i] + b[i+1..])
  {
    var b' := b[..i] + b[i+1..];
    RemoveAtIndex(b, i);
    forall m, n | 0 <= m < n < |b'|
      ensures b'[m] != b'[n]
    {
      assert b'[m] == b[if m < i then m else m + 1];
      assert b'[n] == b[if n < i then n else n + 1];
    }
    forall q
      ensures q in b' <==> q in b && q != b[i]
    {
      if q in b' {
        var k :| 0 <= k < |b'| && b'[k] == q;
        assert q == b[if k < i then k else k + 1];
      }
      if q in b && q != b[i] {
        var k :| 0 <= k < |b| && b[k] == q;
        assert q == b'[if k < i then k else k - 1];
      }
    }
    assert b == b[..i] + [b[i]] + b[i+1..];
    assert multiset(b) == multiset(b[..i]) + multiset([b[i]]) + multiset(b[i+1..]);
  }

  /** Where each element of `b` lands once the element at `i` is removed. */
  lemma RemoveAtIndex<T>(b: seq<T>, i: nat)
    requires i < |b|
    ensures |b[..i] + b[i+1..]| == |b| - 1
    ensures forall k :: 0 <= k < i ==> (b[..i] + b[i+1..])[k] == b[k]
    ensures forall k :: i < k < |b| ==> (b[..i] + b[i+1..])[k - 1] == b[k]
  {
  }

  lemma NonEmptyHasElement<T>(b: seq<T>)
    ensures b != [] ==> b[0] in b
  {
  }

  /** Two duplicate-free sequences with the same elements are permutations of each other. */
  lemma {:induction false} SameElementsSameMultiset<T>(a: seq<T>, b: seq<T>)
    requires NoDuplicates(a) && NoDuplicates(b)
    requires forall q :: q in a <==> q in b
    ensures multiset(a) == multiset(b)
    decreases |a|
  {
    if a == [] {
      NonEmptyHasElement(b);
    } else {
      assert a[0] in b;
      var i :| 0 <= i < |b| && b[i] == a[0];
      RemoveBoth(a, b, i);
      SameElementsSameMultiset(a[1..], b[..i] + b[i+1..]);
    }
  }

  /** Dropping the head of a duplicate-free sequence removes exactly the head. */
  lemma RemoveHead<T>(a: seq<T>)
    requires NoDuplicates(a) && a != []
    ensures NoDuplicates(a[1..])
    ensures forall q :: q in a[1..] <==> q in a && q != a[0]
    ensures multiset(a) == multiset{a[0]} + multiset(a[1..])
  {
    var t := a[1..];
    forall i, j | 0 <= i < j < |t|
      ensures t[i] != t[j]
    {
      assert t[i] == a[i + 1] && t[j] == a[j + 1];
    }
    forall q
      ensures q in t <==> q in a && q != a[0]
    {
      if q in t {
        var k :| 0 <= k < |t| && t[k] == q;
        assert a[k + 1] == q;
      }
      if q in a && q != a[0] {
        var k :| 0 <= k < |a| && a[k] == q;
        assert t[k - 1] == q;
      }
    }
    assert a == [a[0]] + t;
  }

  /** Removing the same element from two duplicate-free sequences with the same elements keeps them so. */
  lemma RemoveBoth<T>(a: seq<T>, b: seq<T>, i: nat)
    requires NoDuplicates(a) && NoDuplicates(b)
    requires forall q :: q in a <==> q in b
    requires a != [] && i < |b| && b[i] == a[0]
    ensures NoDuplicates(a[1..]) && NoDuplicates(b[..i] + b[i+1..])
    ensures forall q :: q in a[1..] <==> q in b[..i] + b[i+1..]
    ensures multiset(a) == multiset{a[0]} + multiset(a[1..])
    ensures multiset(b) == multiset{a[0]} + multiset(b[..i] + b[i+1..])
  {
    RemoveHead(a);
    RemoveAt(b, i);
  }

  /** The events `Announce` lists are exactly the announcements of the listed rooms. */
  lemma AnnounceMembers(st: State, s: SessionId, rooms: seq<RoomId>)
    ensures forall e :: e in Announce(st, s, rooms) <==> exists q :: q in rooms && e == Announcement(st, s, q)
  {
  }

  /**
   * The iteration order of `socket.rooms` does not matter for the outcome of a disconnect:
   * the registry, transport and store end the same, the same timers are pending (possibly
   * queued in another order) and the same announcements are sent.
   */
  lemma DisconnectOrderIrrelevant(st: State, s: SessionId, o1: seq<RoomId>, o2: seq<RoomId>)
    requires EnumeratesRooms(st, s, o1) && EnumeratesRooms(st, s, o2)
    ensures Disconnecting(st, s, o1).active == Disconnecting(st, s, o2).active
    ensures Disconnecting(st, s, o1).sockets == Disconnecting(st, s, o2).sockets
    ensures Disconnecting(st, s, o1).store == Disconnecting(st, s, o2).store
    ensures multiset(Disconnecting(st, s, o1).timers) == multiset(Disconnecting(st, s, o2).timers)
    ensures forall e :: e in Disconnecting(st, s, o1).log <==> e in Disconnecting(st, s, o2).log
  {
    var p1, p2 := Disconnecting(st, s, o1), Disconnecting(st, s, o2);
    assert forall q :: q in o1 <==> q in o2 by {
      assert Elements(o1) == Elements(o2);
    }
    assert p1.sockets == p2.sockets by {
      assert p1.sockets == Transport.LeaveAll(DrainAll(st, s, o1).sockets, s);
      DrainAllFrame(st, s, o1);
      DrainAllFrame(st, s, o2);
    }
    var e1, e2 := Drained(st.active, s, o1, true), Drained(st.active, s, o2, true);
    SameElementsSameMultiset(e1, e2);
    assert multiset(p1.timers) == multiset(st.timers) + multiset(e1);
    var v1, v2 := Drained(st.active, s, o1, false), Drained(st.active, s, o2, false);
    AnnounceMembers(st, s, v1);
    AnnounceMembers(st, s, v2);
  }

  /** Joining twice leaves the registry, transport, timers and store as one join does, and announces the same count again. */
  lemma JoinTwice(st: State, s: SessionId, r: RoomId)
    ensures JoinRoom(JoinRoom(st, s, r), s, r).(log := []) == JoinRoom(st, s, r).(log := [])
    ensures JoinRoom(JoinRoom(st, s, r), s, r).log == JoinRoom(st, s, r).log + [JoinRoom(st, s, r).log[|st.log|]]
  {
  }

  /**
   * Each announcement a disconnect sends carries the size of that room's registry entry
   * right after the disconnect, and goes to the room's transport members as they were
   * while the handler ran.
   */
  lemma DisconnectAnnouncesRemainingCounts(st: State, s: SessionId, order: seq<RoomId>)
    requires EnumeratesRooms(st, s, order)
    ensures var post := Disconnecting(st, s, order);
            var sv := Drained(st.active, s, order, false);
            && |post.log| == |st.log| + |sv|
            && forall k :: 0 <= k < |sv| ==>
                 sv[k] in post.active && post.active[sv[k]] != {} &&
                 post.log[|st.log| + k] == Emit(ActiveUsers(|post.active[sv[k]]|), Transport.Members(st.sockets, sv[k]))
  {
    var post := Disconnecting(st, s, order);
    var sv := Drained(st.active, s, order, false);
    forall k | 0 <= k < |sv|
      ensures sv[k] in post.active && post.active[sv[k]] != {}
      ensures post.log[|st.log| + k] == Emit(ActiveUsers(|post.active[sv[k]]|), Transport.Members(st.sockets, sv[k]))
    {
      SurvivorAnnounced(st, s, order, sv[k]);
      assert post.log[|st.log| + k] == Announce(st, s, sv)[k];
    }
  }

  /** A room a disconnect leaves with other sockets keeps them, and its announcement carries their number. */
  lemma SurvivorAnnounced(st: State, s: SessionId, order: seq<RoomId>, q: RoomId)
    requires EnumeratesRooms(st, s, order)
    requires q in Drained(st.active, s, order, false)
    ensures var post := Disconnecting(st, s, order);
            && q in post.active && post.active[q] == st.active[q] - {s} != {}
            && Announcement(st, s, q) == Emit(ActiveUsers(|post.active[q]|), Transport.Members(st.sockets, q))
  {
    assert q in Elements(order);
  }
}
