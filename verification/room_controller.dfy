/**
 * The HTTP room operations (`createRoom`, `getRoom`, `deleteRoom`, `saveRoomState`),
 * as result-returning operations on the shared server state: they read and write
 * the room store, and a successful delete notifies the room's sockets.
 */
module RoomController {
  import opened Wrappers
  import opened RoomModel
  import opened ServerState
  import Transport

  /** The error answers: 404, 403, and the 500 a failed schema validation ends in. */
  datatype ApiError = NotFound | Forbidden | Invalid(path: string)

  /** The HTTP status each error is answered with. */
  function Status(e: ApiError): nat {
    match e
    case NotFound => 404
    case Forbidden => 403
    case Invalid(_) => 500
  }

  /** The state after the request, and the document or error it answers with. */
  datatype Reply<+T> = Reply(state: State, result: Result<T, ApiError>)

  const Anonymous := "anonymous"
  const DeletedMessage := "Room has been deleted by the creator"

  /** JavaScript truthiness of an optional string field: present and not empty. */
  predicate Truthy(v: Option<string>) {
    v.Some? && v.value != ""
  }

  /** `req.body.creatorId || 'anonymous'`. */
  function CreatorOrAnonymous(creatorId: Option<string>): (c: string)
    ensures Truthy(creatorId) ==> c == creatorId.value
    ensures !Truthy(creatorId) ==> c == Anonymous
    ensures c != ""
  {
    if Truthy(creatorId) then creatorId.value else Anonymous
  }

  /**
   * `createRoom`: a new document under the fresh id `id` with the given name, an empty
   * board and the creator (or 'anonymous'). A missing or empty name fails the schema's
   * required check and nothing is stored; the required creator is always present after
   * the 'anonymous' fallback.
   */
  function CreateRoom(st: State, id: RoomId, name: Option<string>, creatorId: Option<string>): (rep: Reply<Room>)
    requires id !in st.store
    ensures rep.result.Success? <==> Truthy(name)
    ensures rep.result.Success? ==>
              && rep.result.value == Room(name.value, CreatorOrAnonymous(creatorId), [])
              && rep.state == st.(store := st.store[id := rep.result.value])
    ensures rep.result.Failure? ==> rep.state == st && Status(rep.result.error) == 500
  {
    var room := Room(if name.Some? then name.value else "", CreatorOrAnonymous(creatorId), []);
    if room.name == "" then Reply(st, Failure(Invalid("name")))
    else Reply(st.(store := st.store[id := room]), Success(room))
  }

  /** `getRoom`: the stored document, or NotFound exactly when the id is absent. */
  function GetRoom(st: State, id: RoomId): (res: Result<Room, ApiError>)
    ensures res.Failure? <==> id !in st.store
    ensures res.Failure? ==> res.error == NotFound
    ensures res.Success? ==> res.value == st.store[id]
  {
    if id in st.store then Success(st.store[id]) else Failure(NotFound)
  }

  /** `req.body.creatorId || req.query.creatorId`: the body's value when truthy, otherwise the query's. */
  function RequestCreator(body: Option<string>, query: Option<string>): (c: Option<string>)
    ensures Truthy(body) ==> c == body
    ensures !Truthy(body) ==> c == query
  {
    if Truthy(body) then body else query
  }

  /**
   * `deleteRoom`: NotFound for an absent id, whatever creator is supplied; Forbidden when
   * the supplied creator is not the stored one; otherwise the document is deleted and
   * `room-deleted` goes to every socket in the room. The registry and the pending timers
   * are never touched.
   */
  function DeleteRoom(st: State, id: RoomId, body: Option<string>, query: Option<string>): (rep: Reply<()>)
    ensures id !in st.store ==> rep == Reply(st, Failure(NotFound))
    ensures id in st.store && RequestCreator(body, query) != Some(st.store[id].creatorId) ==>
              rep == Reply(st, Failure(Forbidden))
    ensures id in st.store && RequestCreator(body, query) == Some(st.store[id].creatorId) ==>
              && rep.result.Success?
              && rep.state.store == st.store - {id}
              && rep.state.log == st.log + [Emit(RoomDeleted(DeletedMessage, id), Transport.Members(st.sockets, id))]
              && rep.state.(store := st.store, log := st.log) == st
  {
    if id !in st.store then Reply(st, Failure(NotFound))
    else
      var creator := RequestCreator(body, query);
      if creator.None? || st.store[id].creatorId != creator.value then Reply(st, Failure(Forbidden))
      else
        var notice := Emit(RoomDeleted(DeletedMessage, id), Transport.Members(st.sockets, id));
        Reply(st.(store := st.store - {id}, log := st.log + [notice]), Success(()))
  }

  /**
   * `saveRoomState`: on an existing id the board is replaced and the updated document
   * returned, name and creator kept; an absent id yields NotFound. Only the store changes.
   */
  function SaveRoomState(st: State, id: RoomId, board: seq<Line>): (rep: Reply<Room>)
    ensures rep.result.Failure? <==> id !in st.store
    ensures id !in st.store ==> rep == Reply(st, Failure(NotFound))
    ensures id in st.store ==>
              && rep.result.value == st.store[id].(whiteboardState := board)
              && rep.state.store == st.store[id := rep.result.value]
              && rep.state.(store := st.store) == st
  {
    if id !in st.store then Reply(st, Failure(NotFound))
    else
      var store := ReplaceBoard(st.store, id, board);
      Reply(st.(store := store), Success(store[id]))
  }

  /** A room just created is found under its id, with the name and creator it was given and an empty board. */
  lemma CreatedRoomIsFound(st: State, id: RoomId, name: Option<string>, creatorId: Option<string>)
    requires id !in st.store && Truthy(name)
    ensures GetRoom(CreateRoom(st, id, name, creatorId).state, id)
            == Success(Room(name.value, CreatorOrAnonymous(creatorId), []))
  {
  }

  /**
   * Its creator can delete a room right after creating it, and the delete undoes the
   * create: the store is as before, and the id is NotFound again.
   */
  lemma CreatorDeleteUndoesCreate(st: State, id: RoomId, name: Option<string>, creatorId: Option<string>)
    requires id !in st.store && Truthy(name) && Truthy(creatorId)
    ensures var created := CreateRoom(st, id, name, creatorId).state;
            var deleted := DeleteRoom(created, id, creatorId, None);
            && deleted.result.Success?
            && deleted.state.store == st.store
            && GetRoom(deleted.state, id) == Failure(NotFound)
  {
    var created := CreateRoom(st, id, name, creatorId).state;
    assert created.store - {id} == st.store;
  }

  /**
   * A room created without a creator is stored as 'anonymous', so any request that
   * supplies the creator 'anonymous' may delete it.
   */
  lemma AnonymousRoomDeletableByAnyone(st: State, id: RoomId, name: Option<string>, query: Option<string>)
    requires id !in st.store && Truthy(name)
    ensures DeleteRoom(CreateRoom(st, id, name, None).state, id, Some(Anonymous), query).result.Success?
  {
  }

  /** Reading a room back after saving its board yields the saved document. */
  lemma SavedBoardIsRead(st: State, id: RoomId, board: seq<Line>)
    requires id in st.store
    ensures GetRoom(SaveRoomState(st, id, board).state, id) == SaveRoomState(st, id, board).result
    ensures GetRoom(SaveRoomState(st, id, board).state, id).value.whiteboardState == board
  {
  }
}
