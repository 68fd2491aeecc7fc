/**
 * The server as a state machine over all inbound events (socket events, timer
 * callbacks and HTTP requests), with the invariants every event preserves and the
 * per-room teardown phases it may move through.
 */
module Lifecycle {
  import opened Wrappers
  import opened RoomModel
  import opened ServerState
  import Transport
  import Server
  import RoomController

  datatype Event =
    | Connected(s: SessionId)
    | Join(s: SessionId, r: RoomId)
    | Draw(s: SessionId, r: RoomId, line: Line)
    | Save(r: RoomId, board: seq<Line>)
    | Undo(s: SessionId, r: RoomId, state: seq<Line>)
    | Clear(s: SessionId, r: RoomId)
    | Leave(s: SessionId, r: RoomId)
    | Disconnect(s: SessionId, order: seq<RoomId>)
    | Fire
    | HttpCreate(id: RoomId, name: Option<string>, creatorId: Option<string>)
    | HttpGet(id: RoomId)
    | HttpDelete(id: RoomId, body: Option<string>, query: Option<string>)
    | HttpSave(id: RoomId, board: seq<Line>)

  /**
   * When an event can happen at all: a timer callback needs a queued timer, a disconnect
   * enumerates the socket's rooms, and a new document gets an id not yet in use.
   */
  predicate Enabled(st: State, e: Event) {
    match e
    case Disconnect(s, order) => Server.EnumeratesRooms(st, s, order)
    case Fire => st.timers != []
    case HttpCreate(id, _, _) => id !in st.store
    case _ => true
  }

  /** The state after handling one event; HTTP replies are dropped here. */
  function Step(st: State, e: Event): State
    requires Enabled(st, e)
  {
    match e
    case Connected(s) => Server.Connect(st, s)
    case Join(s, r) => Server.JoinRoom(st, s, r)
    case Draw(s, r, line) => Server.DrawingData(st, s, r, line)
    case Save(r, board) => Server.SaveState(st, r, board)
    case Undo(s, r, state) => Server.UndoRedo(st, s, r, state)
    case Clear(s, r) => Server.ClearBoard(st, s, r)
    case Leave(s, r) => Server.LeaveRoom(st, s, r)
    case Disconnect(s, order) => Server.Disconnecting(st, s, order)
    case Fire => Server.FireTimer(st)
    case HttpCreate(id, name, creatorId) => RoomController.CreateRoom(st, id, name, creatorId).state
    case HttpGet(_) => st
    case HttpDelete(id, body, query) => RoomController.DeleteRoom(st, id, body, query).state
    case HttpSave(id, board) => RoomController.SaveRoomState(st, id, board).state
  }

  /** The state after a sequence of events; an event that cannot happen in the current state is skipped. */
  function Run(st: State, events: seq<Event>): State
    decreases |events|
  {
    if events == [] then st
    else if Enabled(st, events[0]) then Run(Step(st, events[0]), events[1..])
    else Run(st, events[1..])
  }

  lemma JoinPreservesValid(st: State, s: SessionId, r: RoomId)
    requires Valid(st)
    ensures Valid(Server.JoinRoom(st, s, r))
  {
  }

  lemma LeavePreservesValid(st: State, s: SessionId, r: RoomId)
    requires Valid(st)
    ensures Valid(Server.LeaveRoom(st, s, r))
  {
  }

  lemma DisconnectPreservesValid(st: State, s: SessionId, order: seq<RoomId>)
    requires Valid(st) && Server.EnumeratesRooms(st, s, order)
    ensures Valid(Server.Disconnecting(st, s, order))
  {
    var post := Server.Disconnecting(st, s, order);
    forall r, u | r in post.active && u in post.active[r] && u != r
      ensures u in Transport.Members(post.sockets, r)
    {
      assert u in st.active[r];
    }
    forall r | r in post.active && post.active[r] == {}
      ensures r in post.timers
    {
      if st.active[r] != {} {
        assert r in Server.Drained(st.active, s, order, true);
      }
    }
  }

  lemma FirePreservesValid(st: State)
    requires Valid(st) && st.timers != []
    ensures Valid(Server.FireTimer(st))
  {
  }

  lemma HttpPreservesValid(st: State, e: Event)
    requires Valid(st) && Enabled(st, e)
    requires e.HttpCreate? || e.HttpDelete? || e.HttpSave? || e.Save?
    ensures Step(st, e).active == st.active && Step(st, e).sockets == st.sockets && Step(st, e).timers == st.timers
    ensures Valid(Step(st, e))
  {
    var post := Step(st, e);
    assert forall q :: q in post.store ==> WellFormed(post.store[q]) by {
      forall q | q in post.store
        ensures WellFormed(post.store[q])
      {
        if q in st.store && (e.HttpSave? || e.Save?) {
          assert post.store[q].name == st.store[q].name && post.store[q].creatorId == st.store[q].creatorId;
        }
      }
    }
  }

  /** Every event preserves the invariants of the server state. */
  lemma StepPreservesValid(st: State, e: Event)
    requires Valid(st) && Enabled(st, e)
    ensures Valid(Step(st, e))
  {
    match e {
      case Join(s, r) => JoinPreservesValid(st, s, r);
      case Leave(s, r) => LeavePreservesValid(st, s, r);
      case Disconnect(s, order) => DisconnectPreservesValid(st, s, order);
      case Fire => FirePreservesValid(st);
      case HttpCreate(_, _, _) => HttpPreservesValid(st, e);
      case HttpDelete(_, _, _) => HttpPreservesValid(st, e);
      case HttpSave(_, _) => HttpPreservesValid(st, e);
      case Save(_, _) => HttpPreservesValid(st, e);
      case _ =>
    }
  }

  /** Every run from a valid state ends in a valid state. */
  lemma {:induction false} RunPreservesValid(st: State, events: seq<Event>)
    requires Valid(st)
    ensures Valid(Run(st, events))
    decreases |events|
  {
    if events != [] {
      if Enabled(st, events[0]) {
        StepPreservesValid(st, events[0]);
        RunPreservesValid(Step(st, events[0]), events[1..]);
      } else {
        RunPreservesValid(st, events[1..]);
      }
    }
  }
}
