/**
 * The per-room teardown state machine the event handlers implement: a room is ACTIVE
 * while its registry entry has sockets, DRAINING while the entry is empty and a
 * deletion timer is pending, and ABSENT when it has no entry (never joined, or torn down).
 */
module Teardown {
  import opened RoomModel
  import opened ServerState
  import Server
  import Lifecycle

  datatype Phase = Absent | Active | Draining

  function PhaseOf(st: State, r: RoomId): Phase {
    if r !in st.active then Absent
    else if st.active[r] == {} then Draining
    else Active
  }

  /**
   * The transitions the teardown policy allows: a join makes a room ACTIVE, the last
   * socket leaving makes it DRAINING, and only a DRAINING room becomes ABSENT. In
   * particular an ACTIVE room is never torn down directly, and an ABSENT room cannot
   * start draining.
   */
  predicate Allowed(p: Phase, p': Phase) {
    || p == p'
    || (p == Absent && p' == Active)
    || (p == Active && p' == Draining)
    || (p == Draining && p' == Active)
    || (p == Draining && p' == Absent)
  }

  /**
   * `post` moves room `r` along an allowed transition; it makes `r` ACTIVE only when
   * `joined`, and removes its entry only when `fired` and `r` was DRAINING.
   */
  predicate Moves(st: State, post: State, r: RoomId, joined: bool, fired: bool) {
    && Allowed(PhaseOf(st, r), PhaseOf(post, r))
    && (PhaseOf(st, r) != Active && PhaseOf(post, r) == Active ==> joined)
    && (PhaseOf(st, r) != Absent && PhaseOf(post, r) == Absent ==> fired && PhaseOf(st, r) == Draining)
  }

  lemma JoinMoves(st: State, s: SessionId, q: RoomId, r: RoomId)
    ensures Moves(st, Server.JoinRoom(st, s, q), r, q == r, false)
  {
  }

  lemma LeaveMoves(st: State, s: SessionId, q: RoomId, r: RoomId)
    ensures Moves(st, Server.LeaveRoom(st, s, q), r, false, false)
  {
  }

  lemma DisconnectMoves(st: State, s: SessionId, order: seq<RoomId>, r: RoomId)
    requires Server.EnumeratesRooms(st, s, order)
    ensures Moves(st, Server.Disconnecting(st, s, order), r, false, false)
  {
    var post := Server.Disconnecting(st, s, order);
    assert r in st.active ==> post.active[r] == st.active[r] || post.active[r] == st.active[r] - {s};
  }

  lemma FireMoves(st: State, r: RoomId)
    requires st.timers != []
    ensures Moves(st, Server.FireTimer(st), r, false, st.timers[0] == r)
  {
  }

  /**
   * Every event moves every room along an allowed transition; only a join makes a room
   * ACTIVE again, and only the firing of that room's timer removes its registry entry.
   */
  lemma StepPhase(st: State, e: Lifecycle.Event, r: RoomId)
    requires Lifecycle.Enabled(st, e)
    ensures Allowed(PhaseOf(st, r), PhaseOf(Lifecycle.Step(st, e), r))
    ensures PhaseOf(st, r) != Active && PhaseOf(Lifecycle.Step(st, e), r) == Active ==> e.Join? && e.r == r
    ensures PhaseOf(st, r) != Absent && PhaseOf(Lifecycle.Step(st, e), r) == Absent ==>
              e.Fire? && st.timers[0] == r && PhaseOf(st, r) == Draining
  {
    match e {
      case Join(s, q) => JoinMoves(st, s, q, r);
      case Leave(s, q) => LeaveMoves(st, s, q, r);
      case Disconnect(s, order) => DisconnectMoves(st, s, order, r);
      case Fire => FireMoves(st, r);
      case _ =>
        assert Lifecycle.Step(st, e).active == st.active;
    }
  }

  /**
   * A stored document disappears only through a manual delete of that id, or through the
   * firing of that room's timer while the room is DRAINING.
   */
  lemma StoreDeletion(st: State, e: Lifecycle.Event, r: RoomId)
    requires Lifecycle.Enabled(st, e)
    requires r in st.store && r !in Lifecycle.Step(st, e).store
    ensures (e.HttpDelete? && e.id == r) || (e.Fire? && st.timers[0] == r && PhaseOf(st, r) == Draining)
  {
  }

  /** Every pending timer callback run in turn. */
  function FireAll(st: State): (post: State)
    ensures post.timers == []
    decreases |st.timers|
  {
    if st.timers == [] then st else FireAll(Server.FireTimer(st))
  }

  /** Timer callbacks never bring back a registry entry or a document. */
  lemma {:induction false} FireAllKeepsAbsent(st: State, r: RoomId)
    requires r !in st.active && r !in st.store
    ensures r !in FireAll(st).active && r !in FireAll(st).store
    decreases |st.timers|
  {
    if st.timers != [] {
      FireAllKeepsAbsent(Server.FireTimer(st), r);
    }
  }

  /**
   * A DRAINING room that no one rejoins is gone once the pending timers have fired: the
   * first of its timers to fire finds the entry still empty and deletes it.
   */
  lemma {:induction false} DrainingRoomIsTornDown(st: State, r: RoomId)
    requires Valid(st) && PhaseOf(st, r) == Draining
    ensures r !in FireAll(st).active && r !in FireAll(st).store
    decreases |st.timers|
  {
    var post := Server.FireTimer(st);
    if st.timers[0] == r {
      FireAllKeepsAbsent(post, r);
    } else {
      Lifecycle.FirePreservesValid(st);
      DrainingRoomIsTornDown(post, r);
    }
  }

  /** Timer callbacks leave an ACTIVE room, its registry entry and its document, as they are. */
  lemma {:induction false} FireAllSparesActive(st: State, r: RoomId)
    requires PhaseOf(st, r) == Active
    ensures r in FireAll(st).active && FireAll(st).active[r] == st.active[r]
    ensures r in st.store ==> r in FireAll(st).store && FireAll(st).store[r] == st.store[r]
    decreases |st.timers|
  {
    if st.timers != [] {
      FireAllSparesActive(Server.FireTimer(st), r);
    }
  }

  /**
   * A rejoin before the timer fires rescues the room: the re-check finds the entry
   * non-empty, so the document and the registry entry survive.
   */
  lemma RejoinRescues(st: State, s: SessionId, r: RoomId)
    requires st.timers != [] && st.timers[0] == r
    ensures Server.FireTimer(Server.JoinRoom(st, s, r)).store == st.store
    ensures s in Server.FireTimer(Server.JoinRoom(st, s, r)).active[r]
  {
  }
}
