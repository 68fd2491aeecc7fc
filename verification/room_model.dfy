/**
 * The persisted room document (the Mongoose `Room` schema) and the identifiers
 * the real-time layer uses to address rooms and sockets.
 */
module RoomModel {

  /** A room identifier: the document `_id` on the HTTP side, a socket.io room name on the socket side. */
  type RoomId = string

  /** A socket id, as assigned by socket.io to each connection. */
  type SessionId = string

  /** A stroke point. The schema stores JavaScript Numbers; integers stand in for them. */
  datatype Point = Point(x: int, y: int)

  /** One stroke, in drawing order. */
  datatype Line = Line(points: seq<Point>)

  /** A room document: name, creator and the ordered strokes on its board. */
  datatype Room = Room(name: string, creatorId: string, whiteboardState: seq<Line>)

  /** The schema's `required: true` on `name` and `creatorId`: neither may be missing or empty. */
  predicate WellFormed(room: Room) {
    room.name != "" && room.creatorId != ""
  }

  /**
   * `findByIdAndUpdate(id, { whiteboardState })`: the board of `id` is replaced when the
   * document exists, and nothing changes when it does not.
   */
  function ReplaceBoard(store: map<RoomId, Room>, id: RoomId, board: seq<Line>): (store': map<RoomId, Room>)
    ensures store'.Keys == store.Keys
    ensures id in store ==> store'[id].whiteboardState == board
    ensures id in store ==> store'[id].name == store[id].name && store'[id].creatorId == store[id].creatorId
    ensures forall q :: q in store && q != id ==> store'[q] == store[q]
  {
    if id in store then store[id := store[id].(whiteboardState := board)] else store
  }
}
