/**
 * Concrete runs of the server: a reconnect within the grace window, a lone drawer,
 * and the effect of a stale timer that a join did not cancel.
 */
module Scenarios {
  import opened RoomModel
  import opened ServerState
  import opened Server
  import Transport

  const R1: RoomId := "r1"
  const A: SessionId := "A"
  const B: SessionId := "B"

  function Board(): map<RoomId, Room> {
    map[R1 := Room("sketch", "alice", [])]
  }

  /** A and B connected, both in r1. */
  function BothJoined(): State {
    JoinRoom(JoinRoom(Connect(Connect(Init(Board()), A), B), A, R1), B, R1)
  }

  lemma BothJoinedFacts()
    ensures BothJoined().active.Keys == {R1} && BothJoined().active[R1] == {A, B}
    ensures Transport.Members(BothJoined().sockets, R1) == {A, B}
    ensures Transport.RoomsOf(BothJoined().sockets, A) == {A, R1}
    ensures BothJoined().log == [Emit(ActiveUsers(1), {A}), Emit(ActiveUsers(2), {A, B})]
    ensures BothJoined().timers == [] && BothJoined().store == Board()
  {
    var st0 := Connect(Connect(Init(Board()), A), B);
    BothConnected();
    FirstJoin(st0);
    SecondJoin(JoinRoom(st0, A, R1));
  }

  /** A and B connected: each is only in its own room, and nothing else has happened. */
  lemma BothConnected()
    ensures var st := Connect(Connect(Init(Board()), A), B);
            && st.active == map[] && st.timers == [] && st.log == [] && st.store == Board()
            && Transport.Members(st.sockets, R1) == {}
            && Transport.RoomsOf(st.sockets, A) == {A}
  {
    var st := Connect(Connect(Init(Board()), A), B);
    assert A != B && A != R1 && B != R1;
    forall q
      ensures A in Transport.Members(st.sockets, q) <==> q == A
    {
      if q == B {
        assert Transport.Members(st.sockets, q) == {B};
      }
    }
  }

  /** A joins r1 while it is empty and A is in no other room but its own. */
  lemma FirstJoin(st: State)
    requires st.active == map[] && Transport.Members(st.sockets, R1) == {}
    requires Transport.RoomsOf(st.sockets, A) == {A}
    ensures var post := JoinRoom(st, A, R1);
            && post.active == map[R1 := {A}] && Transport.Members(post.sockets, R1) == {A}
            && Transport.RoomsOf(post.sockets, A) == {A, R1}
            && post.log == st.log + [Emit(ActiveUsers(1), {A})]
            && post.timers == st.timers && post.store == st.store
  {
  }

  /** B joins r1 while A is its only member. */
  lemma SecondJoin(st: State)
    requires st.active == map[R1 := {A}] && Transport.Members(st.sockets, R1) == {A}
    requires Transport.RoomsOf(st.sockets, A) == {A, R1}
    ensures var post := JoinRoom(st, B, R1);
            && post.active.Keys == {R1} && post.active[R1] == {A, B}
            && Transport.Members(post.sockets, R1) == {A, B}
            && Transport.RoomsOf(post.sockets, A) == {A, R1}
            && post.log == st.log + [Emit(ActiveUsers(2), {A, B})]
            && post.timers == st.timers && post.store == st.store
  {
    assert A != B;
    assert {A} + {B} == {A, B};
  }

  /** After A's disconnect: B alone in r1. */
  function AfterDisconnect(): State
    requires EnumeratesRooms(BothJoined(), A, [R1])
  {
    Disconnecting(BothJoined(), A, [R1])
  }

  lemma AfterDisconnectFacts()
    ensures EnumeratesRooms(BothJoined(), A, [R1])
    ensures AfterDisconnect().active.Keys == {R1} && AfterDisconnect().active[R1] == {B}
    ensures Transport.Members(AfterDisconnect().sockets, R1) == {B}
    ensures AfterDisconnect().log == BothJoined().log + [Emit(ActiveUsers(1), {A, B})]
    ensures AfterDisconnect().timers == [] && AfterDisconnect().store == Board()
  {
    BothJoinedFacts();
    OnlyRoomOfA(BothJoined());
    DisconnectFromPair(BothJoined());
  }

  /** A socket in its own room and in r1 enumerates `[r1]` on disconnect. */
  lemma OnlyRoomOfA(st: State)
    requires Transport.RoomsOf(st.sockets, A) == {A, R1}
    ensures EnumeratesRooms(st, A, [R1])
  {
  }

  /** A leaves r1, which it shared with B: B remains and both hear a count of one. */
  lemma DisconnectFromPair(st: State)
    requires EnumeratesRooms(st, A, [R1])
    requires st.active.Keys == {R1} && st.active[R1] == {A, B}
    requires Transport.Members(st.sockets, R1) == {A, B}
    ensures Disconnecting(st, A, [R1]).active.Keys == {R1} && Disconnecting(st, A, [R1]).active[R1] == {B}
    ensures Transport.Members(Disconnecting(st, A, [R1]).sockets, R1) == {B}
    ensures Disconnecting(st, A, [R1]).log == st.log + [Emit(ActiveUsers(1), {A, B})]
    ensures Disconnecting(st, A, [R1]).timers == st.timers && Disconnecting(st, A, [R1]).store == st.store
  {
    assert A != B;
    assert st.active[R1] - {A} == {B};
    assert Drained(st.active, A, [R1], true) == [];
    assert Drained(st.active, A, [R1], false) == [R1];
    assert Announce(st, A, [R1]) == [Announcement(st, A, R1)];
  }

  /** B, alone in r1, leaves it: the room starts draining with one timer and no announcement. */
  lemma LastLeaveDrains(st: State)
    requires st.active.Keys == {R1} && st.active[R1] == {B}
    requires Transport.Members(st.sockets, R1) == {B}
    ensures LeaveRoom(st, B, R1).active.Keys == {R1} && LeaveRoom(st, B, R1).active[R1] == {}
    ensures Transport.Members(LeaveRoom(st, B, R1).sockets, R1) == {}
    ensures LeaveRoom(st, B, R1).timers == st.timers + [R1]
    ensures LeaveRoom(st, B, R1).log == st.log && LeaveRoom(st, B, R1).store == st.store
  {
  }

  /** B rejoins the draining r1: it hears a count of one, and the timer stays queued. */
  lemma RejoinDrainingRoom(st: State)
    requires st.active.Keys == {R1} && st.active[R1] == {}
    requires Transport.Members(st.sockets, R1) == {}
    ensures JoinRoom(st, B, R1).active.Keys == {R1} && JoinRoom(st, B, R1).active[R1] == {B}
    ensures JoinRoom(st, B, R1).timers == st.timers
    ensures JoinRoom(st, B, R1).log == st.log + [Emit(ActiveUsers(1), {B})]
    ensures JoinRoom(st, B, R1).store == st.store
  {
  }

  /**
   * A and B join r1, A disconnects, B leaves (the room starts draining), B rejoins and
   * only then the deletion timer fires: the room survives with B in it. A's disconnect
   * announcement still reaches A, which is in the transport room while `disconnecting` runs.
   */
  lemma ReconnectWithinGraceWindow()
    ensures EnumeratesRooms(BothJoined(), A, [R1])
    ensures BothJoined().log == [Emit(ActiveUsers(1), {A}), Emit(ActiveUsers(2), {A, B})]
    ensures AfterDisconnect().log == BothJoined().log + [Emit(ActiveUsers(1), {A, B})]
    ensures var st4 := LeaveRoom(AfterDisconnect(), B, R1);
            var st5 := JoinRoom(st4, B, R1);
            && st4.timers == [R1] && st4.log == AfterDisconnect().log
            && st5.timers == [R1] && st5.log == st4.log + [Emit(ActiveUsers(1), {B})]
            && FireTimer(st5).timers == []
            && FireTimer(st5).store == Board()
            && FireTimer(st5).active[R1] == {B}
  {
    BothJoinedFacts();
    AfterDisconnectFacts();
    var st4 := LeaveRoom(AfterDisconnect(), B, R1);
    LastLeaveDrains(AfterDisconnect());
    RejoinDrainingRoom(st4);
  }

  /** A lone member's stroke is relayed to no one. */
  lemma LoneDrawerReachesNobody()
    ensures var st := JoinRoom(Connect(Init(map[]), A), A, "r2");
            var line := Line([Point(1, 1)]);
            DrawingData(st, A, "r2", line).log[|st.log|] == Emit(ReceiveDrawing(line), {})
  {
  }

  /**
   * A socket that sends `leave-room` for its own id leaves its own-id room, so socket.io no
   * longer knows to skip it: its later strokes come back to it.
   */
  lemma DrawerOutsideOwnRoomHearsItself()
    ensures var st := JoinRoom(LeaveRoom(Connect(Init(map[]), A), A, A), A, "r2");
            A in DrawingData(st, A, "r2", Line([])).log[|st.log|].to
  {
    var st := JoinRoom(LeaveRoom(Connect(Init(map[]), A), A, A), A, "r2");
    assert A != "r2";
    AudienceEchoesWithoutOwnRoom(st.sockets, A, "r2");
  }

  /**
   * A join does not cancel the timer an earlier emptying queued. A leaves r1, rejoins and
   * leaves again, so two timers are pending; the first one to fire deletes the room even
   * though the timer queued by the latest emptying is still waiting, so the room was
   * deleted before it had been empty for a whole grace period.
   */
  lemma StaleTimerDeletesEarly()
    ensures var st0 := JoinRoom(Connect(Init(Board()), A), A, R1);
            var st1 := LeaveRoom(st0, A, R1);
            var st2 := LeaveRoom(JoinRoom(st1, A, R1), A, R1);
            var st3 := FireTimer(st2);
            && st1.timers == [R1]
            && st2.timers == [R1, R1]
            && R1 !in st3.store && R1 !in st3.active
            && st3.timers == [R1]
  {
  }
}
