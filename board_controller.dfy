/**
 * backend/src/controllers/boardController.js: the board handlers. Each is a chain of early
 * returns in front of at most one write; a thrown error, from the store or from calling
 * `trim` on a name that is not a string, is caught and answered with a 500.
 */
module BoardController {
  import opened Wrappers
  import opened Text
  import opened JsValues
  import opened Store
  import opened Http
  import opened BoardModel

  /**
   * The caller's id as the `user_id = ?` comparisons see it: the bound parameter compared as a
   * number. A value that is no number matches no row, and neither does 0, since ids start at 1.
   */
  function Caller(req: Request): (id: int)
    ensures ToNumber(req.userId).Int? ==> id == ToNumber(req.userId).i
    ensures !ToNumber(req.userId).Int? ==> id == 0
  {
    if ToNumber(req.userId).Int? then ToNumber(req.userId).i else 0
  }

  /** The message of the TypeError that calling `trim` on a value without it throws. */
  const TrimTypeError := "name.trim is not a function"

  /** The catch of create and update: `{ error, details: error.code || error.sqlMessage || error.message }`. */
  function FailWithDetails(error: string, details: string): Response {
    Response(500, Obj([("error", Str(error)), ("details", Str(details))]))
  }

  /** The description stored by create and update: `description || ''`. */
  function DescriptionOrEmpty(body: JsValue): JsValue {
    Or(Field(body, "description"), Str(""))
  }

  /** createBoard. */
  function CreateBoard(req: Request, db: Db, fault: Fault): (r: (Response, Db))
  {
    if !Truthy(req.userId) then (Fail(401, "Unauthorized"), db)
    else
      var body := Or(req.body, Obj([]));
      var name := Field(body, "name");
      if !Truthy(name) then (Fail(400, "Board name is required"), db)
      else if !name.Str? then (FailWithDetails("Error creating board", TrimTypeError), db)
      else if Trim(name.s) == "" then (Fail(400, "Board name is required"), db)
      else InsertBoard(db, Str(Trim(name.s)), DescriptionOrEmpty(body), Caller(req), fault)
  }

  /** The insert of createBoard and the read-back of the new board by its insertId. */
  function InsertBoard(db: Db, name: JsValue, description: JsValue, owner: int, fault: Fault): (r: (Response, Db))
  {
    var (d1, r1) := CreateBoardQuery(db, name, description, owner, fault.At(0));
    match r1
    case Err(e) => (FailWithDetails("Error creating board", e.message), d1)
    case Ok(id) =>
      match GetBoardById(d1, Num(id), owner, fault.At(1))
      case Err(e) => (FailWithDetails("Error creating board", e.message), d1)
      case Ok(created) => (Response(201, created), d1)
  }

  /** getBoards: the caller's boards, each with its task count. */
  function GetBoards(req: Request, db: Db, fault: Fault): (r: Response)
  {
    match GetAllBoards(db, Caller(req), fault.At(0))
    case Err(e) => Fail(500, e.message)
    case Ok(rows) => Response(200, Arr(rows))
  }

  /** getBoard. */
  function GetBoard(req: Request, db: Db, fault: Fault): (r: Response)
  {
    match GetBoardById(db, req.id, Caller(req), fault.At(0))
    case Err(e) => Fail(500, e.message)
    case Ok(board) => if !Truthy(board) then Fail(404, "Board not found") else Response(200, board)
  }

  /** The name check of updateBoard: falsy, or a string that is blank once trimmed. */
  predicate UpdateNameBad(name: JsValue) {
    !Truthy(name) || (name.Str? && Trim(name.s) == "")
  }

  /** The name updateBoard stores: a string is trimmed, any other value is passed on unchanged. */
  function StoredName(name: JsValue): JsValue {
    if name.Str? then Str(Trim(name.s)) else name
  }

  /** updateBoard. */
  function UpdateBoard(req: Request, db: Db, fault: Fault): (r: (Response, Db))
  {
    if !Truthy(req.userId) then (Fail(401, "Unauthorized"), db)
    else
      var body := Or(req.body, Obj([]));
      var name := Field(body, "name");
      if UpdateNameBad(name) then (Fail(400, "Board name is required"), db)
      else match GetBoardById(db, req.id, Caller(req), fault.At(0))
        case Err(e) => (FailWithDetails("Error updating board", e.message), db)
        case Ok(board) =>
          if !Truthy(board) then (Fail(404, "Board not found"), db)
          else
            var (d1, r1) := UpdateBoardQuery(db, req.id, StoredName(name), DescriptionOrEmpty(body), fault.At(1));
            if r1.Err? then (FailWithDetails("Error updating board", r1.error.message), d1)
            else match GetBoardById(d1, req.id, Caller(req), fault.At(2))
              case Err(e) => (FailWithDetails("Error updating board", e.message), d1)
              case Ok(updated) => (Response(200, updated), d1)
  }

  /** deleteBoard. */
  function DeleteBoard(req: Request, db: Db, fault: Fault): (r: (Response, Db))
  {
    match GetBoardById(db, req.id, Caller(req), fault.At(0))
    case Err(e) => (Fail(500, e.message), db)
    case Ok(board) =>
      if !Truthy(board) then (Fail(404, "Board not found"), db)
      else
        var (d1, r1) := DeleteBoardQuery(db, req.id, fault.At(1), fault.At(2));
        if r1.Err? then (Fail(500, r1.error.message), d1)
        else (Response(200, MessageJson("Board deleted")), d1)
  }

  /** The caller owns a board named by this id, and is a user. */
  predicate OwnsBoard(db: Db, id: JsValue, userId: int) {
    exists b | b in db.boards :: KeyMatches(id, b) && db.boards[b].userId == userId && userId in db.users
  }

  /** A lookup without a store failure is true exactly for a board the caller owns. */
  lemma LookupTruthy(db: Db, id: JsValue, userId: int)
    ensures GetBoardById(db, id, userId, None).Ok?
    ensures Truthy(GetBoardById(db, id, userId, None).value) <==> OwnsBoard(db, id, userId)
  {
    GetBoardByIdOwnerFilter(db, id, userId);
  }

  /** createBoard answers 401 to an unauthenticated request before it looks at the body. */
  lemma CreateBoardUnauthorized(req: Request, db: Db, fault: Fault)
    requires !Truthy(req.userId)
    ensures CreateBoard(req, db, fault) == (Fail(401, "Unauthorized"), db)
    ensures UpdateBoard(req, db, fault) == (Fail(401, "Unauthorized"), db)
  {
  }

  /** A missing or blank name is a 400 that writes nothing; a truthy name that is no string is a 500. */
  lemma CreateBoardRejects(req: Request, db: Db, fault: Fault)
    requires Truthy(req.userId)
    ensures var name := Field(Or(req.body, Obj([])), "name");
      && ((!Truthy(name) || (name.Str? && IsBlank(name.s))) ==>
            CreateBoard(req, db, fault) == (Fail(400, "Board name is required"), db))
      && (Truthy(name) && !name.Str? ==>
            CreateBoard(req, db, fault) == (FailWithDetails("Error creating board", TrimTypeError), db))
  {
  }

  /** The insert adds the board under the next id and answers 201 with it and its owner's email. */
  lemma InsertBoardStores(db: Db, name: JsValue, description: JsValue, owner: int)
    requires Valid(db) && owner in db.users
    ensures var (resp, d) := InsertBoard(db, name, description, owner, Healthy);
      && d.boards == db.boards[db.nextBoard := Board(name, description, owner)]
      && d == db.(boards := d.boards, nextBoard := db.nextBoard + 1)
      && resp == Response(201, Obj(BoardRow(db.nextBoard, Board(name, description, owner))
                                   + [("owner_email", Email(db.users, owner))]))
  {
    CreatedBoardIsFound(db, name, description, owner);
  }

  /**
   * A valid create stores the trimmed name, the description or '', and the caller as owner,
   * and answers 201 with the new board read back by its id.
   */
  lemma CreateBoardStores(req: Request, db: Db)
    requires Valid(db) && Truthy(req.userId) && Caller(req) in db.users
    requires var name := Field(Or(req.body, Obj([])), "name"); name.Str? && !IsBlank(name.s)
    ensures var body := Or(req.body, Obj([]));
      var board := Board(Str(Trim(Field(body, "name").s)), DescriptionOrEmpty(body), Caller(req));
      var (resp, d) := CreateBoard(req, db, Healthy);
      && d.boards == db.boards[db.nextBoard := board]
      && d == db.(boards := d.boards, nextBoard := db.nextBoard + 1)
      && resp == Response(201, Obj(BoardRow(db.nextBoard, board) + [("owner_email", Email(db.users, Caller(req)))]))
  {
    var body := Or(req.body, Obj([]));
    var given := Field(body, "name");
    assert Truthy(given);
    var name := Str(Trim(given.s));
    assert CreateBoard(req, db, Healthy) == InsertBoard(db, name, DescriptionOrEmpty(body), Caller(req), Healthy);
    InsertBoardStores(db, name, DescriptionOrEmpty(body), Caller(req));
  }

  /** getBoard answers 404 for a board the caller does not own, and the board itself otherwise. */
  lemma GetBoardOwnerOnly(req: Request, db: Db)
    ensures !OwnsBoard(db, req.id, Caller(req)) <==> GetBoard(req, db, Healthy) == Fail(404, "Board not found")
    ensures OwnsBoard(db, req.id, Caller(req)) ==>
      GetBoard(req, db, Healthy) == Response(200, GetBoardById(db, req.id, Caller(req), None).value)
  {
    LookupTruthy(db, req.id, Caller(req));
  }

  /** Without a store failure getBoards lists exactly the caller's boards. */
  lemma GetBoardsOwnerOnly(req: Request, db: Db)
    requires Valid(db)
    ensures var resp := GetBoards(req, db, Healthy);
      && resp.status == 200 && resp.body.Arr?
      && (forall k | 0 <= k < |resp.body.items| :: IsOwnedRow(db, Caller(req), resp.body.items[k]))
      && (forall b | b in db.boards && db.boards[b].userId == Caller(req) :: exists k | 0 <= k < |resp.body.items| ::
            resp.body.items[k] == CountedRow(db, b))
  {
    assert Healthy.At(0) == None;
    GetAllBoardsExactlyOwned(db, Caller(req));
  }

  /**
   * updateBoard checks the name before it looks the board up: a bad name is a 400 whatever the
   * store holds and whether or not it would fail.
   */
  lemma UpdateBoardValidatesFirst(req: Request, db: Db, fault: Fault)
    requires Truthy(req.userId) && UpdateNameBad(Field(Or(req.body, Obj([])), "name"))
    ensures UpdateBoard(req, db, fault) == (Fail(400, "Board name is required"), db)
  {
  }

  /** A board the caller does not own is a 404 and is not written. */
  lemma UpdateBoardNotOwned(req: Request, db: Db)
    requires Truthy(req.userId) && !UpdateNameBad(Field(Or(req.body, Obj([])), "name"))
    requires !OwnsBoard(db, req.id, Caller(req))
    ensures UpdateBoard(req, db, Healthy) == (Fail(404, "Board not found"), db)
  {
    LookupTruthy(db, req.id, Caller(req));
  }

  /**
   * An update of an owned board stores the name trimmed when it is a string and unchanged
   * otherwise, with the description or ''; only that board changes and the answer is 200.
   */
  lemma UpdateBoardWrites(req: Request, db: Db)
    requires Truthy(req.userId) && !UpdateNameBad(Field(Or(req.body, Obj([])), "name"))
    requires OwnsBoard(db, req.id, Caller(req))
    ensures var body := Or(req.body, Obj([]));
      var (resp, d) := UpdateBoard(req, db, Healthy);
      && resp.status == 200 && d.tasks == db.tasks && d.boards.Keys == db.boards.Keys
      && (forall b | b in db.boards :: if KeyMatches(req.id, b)
            then d.boards[b] == Board(StoredName(Field(body, "name")), DescriptionOrEmpty(body), db.boards[b].userId)
            else d.boards[b] == db.boards[b])
  {
    var body := Or(req.body, Obj([]));
    LookupTruthy(db, req.id, Caller(req));
    UpdateBoardOnlyThatRow(db, req.id, StoredName(Field(body, "name")), DescriptionOrEmpty(body));
    var d1 := UpdateBoardQuery(db, req.id, StoredName(Field(body, "name")), DescriptionOrEmpty(body), None).0;
    GetBoardByIdOwnerFilter(d1, req.id, Caller(req));
  }

  /** The name an update stores: a trimmed string, or the truthy non-string value itself. */
  lemma StoredNameClean(name: JsValue)
    requires !UpdateNameBad(name)
    ensures Truthy(StoredName(name))
    ensures name.Str? ==> StoredName(name).Str? && !IsBlank(StoredName(name).s)
    ensures !name.Str? ==> StoredName(name) == name
  {
    if name.Str? {
      TrimIdempotent(name.s);
    }
  }

  /** deleteBoard deletes only after the lookup finds a board the caller owns. */
  lemma DeleteBoardOwnerOnly(req: Request, db: Db)
    ensures !OwnsBoard(db, req.id, Caller(req)) ==> DeleteBoard(req, db, Healthy) == (Fail(404, "Board not found"), db)
    ensures OwnsBoard(db, req.id, Caller(req)) ==>
      var (resp, d) := DeleteBoard(req, db, Healthy);
      && resp == Response(200, MessageJson("Board deleted"))
      && (forall b | b in db.boards :: (b in d.boards <==> !KeyMatches(req.id, b)))
      && (forall t | t in db.tasks :: (t in d.tasks <==> !ColumnMatches(db.tasks[t].boardId, req.id)))
  {
    LookupTruthy(db, req.id, Caller(req));
    DeleteBoardCascade(db, req.id);
  }

  /**
   * A failure of the boards DELETE, the third query, is a 500 'Error deleting board' that leaves
   * the board in place with its tasks already deleted.
   */
  lemma DeleteBoardHalfDoneAnswered(req: Request, db: Db, e: Error)
    requires OwnsBoard(db, req.id, Caller(req))
    ensures var (resp, d) := DeleteBoard(req, db, FailAt(2, e));
      && resp == Fail(500, "Error deleting board")
      && d.boards == db.boards
      && (forall t | t in db.tasks :: (t in d.tasks <==> !ColumnMatches(db.tasks[t].boardId, req.id)))
  {
    LookupTruthy(db, req.id, Caller(req));
    DeleteBoardHalfDone(db, req.id, e);
  }

  /** A failing lookup stops deleteBoard before any write. */
  lemma DeleteBoardLookupFails(req: Request, db: Db, e: Error)
    ensures DeleteBoard(req, db, FailAt(0, e)) == (Fail(500, "Error fetching board: " + e.message), db)
  {
  }
}
