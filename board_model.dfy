/**
 * backend/src/models/boardModel.js: the boards table and the cascade into tasks. Each query
 * function is a pure statement of its table effect (used by the controllers) and a method
 * that performs it on a `Database` in place; every failure is rethrown with a fixed message.
 */
module BoardModel {
  import opened Wrappers
  import opened JsValues
  import opened Store

  /** A task column compared with a bound parameter: NULL matches nothing. */
  predicate ColumnMatches(column: JsValue, param: JsValue) {
    column.Num? && KeyMatches(param, column.n)
  }

  /** The columns of `boards.*`. */
  function BoardRow(id: int, b: Board): Object {
    [("id", Num(id)), ("name", b.name), ("description", b.description), ("user_id", Num(b.userId))]
  }

  /** `COUNT(tasks.id)` over the LEFT JOIN: the tasks whose board_id is this board. */
  function TaskCount(tasks: map<int, Task>, boardId: int): (n: nat)
  {
    |set t | t in tasks && ColumnMatches(tasks[t].boardId, Num(boardId))|
  }

  function Email(users: map<int, Row>, id: int): JsValue
    requires id in users
  {
    if "email" in users[id] then users[id]["email"] else Null
  }

  /** INSERT INTO boards: the new row gets the next id and the given owner. */
  function CreateBoardQuery(db: Db, name: JsValue, description: JsValue, userId: int, err: Option<Error>)
    : (r: (Db, Result<int>))
    ensures err.Some? ==> r == (db, Err(Error("", "Error creating board")))
    ensures err.None? ==> (
      && r.1 == Ok(db.nextBoard) && r.0.boards == db.boards[db.nextBoard := Board(name, description, userId)]
      && r.0.nextBoard == db.nextBoard + 1 && r.0 == db.(boards := r.0.boards, nextBoard := r.0.nextBoard))
  {
    if err.Some? then (db, Err(Error("", "Error creating board")))
    else
      var id := db.nextBoard;
      (db.(boards := db.boards[id := Board(name, description, userId)], nextBoard := id + 1), Ok(id))
  }

  /** The board with that id owned by that user, joined with its owner's email; `undefined` otherwise. */
  function GetBoardById(db: Db, id: JsValue, userId: int, err: Option<Error>): (r: Result<JsValue>)
    ensures err.Some? ==> r == Err(Error("", "Error fetching board: " + err.value.message))
    ensures err.None? && r.Ok? && r.value != Undefined ==>
      exists b | b in db.boards :: KeyMatches(id, b) && db.boards[b].userId == userId && userId in db.users
        && r.value == Obj(BoardRow(b, db.boards[b]) + [("owner_email", Email(db.users, userId))])
    ensures err.None? ==> r.Ok?
  {
    if err.Some? then Err(Error("", "Error fetching board: " + err.value.message))
    else match Lookup(db.boards, id)
      case Some(b) =>
        if db.boards[b].userId == userId && userId in db.users then
          Ok(Obj(BoardRow(b, db.boards[b]) + [("owner_email", Email(db.users, userId))]))
        else Ok(Undefined)
      case None => Ok(Undefined)
  }

  /** The boards owned by userId, each with its task_count. */
  function GetAllBoards(db: Db, userId: int, err: Option<Error>): (r: Result<seq<JsValue>>)
    ensures err.Some? ==> r == Err(Error("", "Error fetching boards"))
  {
    if err.Some? then Err(Error("", "Error fetching boards"))
    else
      var ids := OwnedIds(db.boards, userId, IdsBelow(db.boards, db.nextBoard));
      Ok(seq(|ids|, k requires 0 <= k < |ids| => CountedRow(db, ids[k])))
  }

  /** `item` is the listed row of one of the user's boards. */
  ghost predicate IsOwnedRow(db: Db, userId: int, item: JsValue) {
    exists b | b in db.boards && db.boards[b].userId == userId :: item == CountedRow(db, b)
  }

  /** A listed board: its row with the number of its tasks appended as `task_count`. */
  function CountedRow(db: Db, b: int): JsValue
    requires b in db.boards
  {
    Obj(BoardRow(b, db.boards[b]) + [("task_count", Num(TaskCount(db.tasks, b)))])
  }

  function OwnedIds(boards: map<int, Board>, userId: int, ids: seq<int>): (r: seq<int>)
    requires forall k | 0 <= k < |ids| :: ids[k] in boards
    ensures forall k | 0 <= k < |r| :: r[k] in boards && boards[r[k]].userId == userId
    ensures forall k | 0 <= k < |ids| :: boards[ids[k]].userId == userId ==> ids[k] in r
    ensures forall x | x in r :: x in ids
    ensures Decreasing(ids) ==> Decreasing(r)
  {
    if ids == [] then []
    else
      assert Decreasing(ids) ==> Decreasing(ids[1..]) by {
        if Decreasing(ids) {
          forall a, b | 0 <= a < b < |ids[1..]| ensures ids[1..][a] > ids[1..][b] {
            assert ids[1..][a] == ids[a + 1] && ids[1..][b] == ids[b + 1];
          }
        }
      }
      var rest := OwnedIds(boards, userId, ids[1..]);
      assert Decreasing(ids) ==> forall k | 0 <= k < |rest| :: ids[0] > rest[k] by {
        if Decreasing(ids) {
          forall k | 0 <= k < |rest| ensures ids[0] > rest[k] {
            assert rest[k] in rest;
            var m :| 0 <= m < |ids[1..]| && ids[1..][m] == rest[k];
            assert ids[m + 1] == rest[k];
          }
        }
      }
      (if boards[ids[0]].userId == userId then [ids[0]] else []) + rest
  }

  /** UPDATE boards SET name, description WHERE id: the number of rows it changed. */
  function UpdateBoardQuery(db: Db, id: JsValue, name: JsValue, description: JsValue, err: Option<Error>)
    : (r: (Db, Result<nat>))
    ensures err.Some? ==> r == (db, Err(Error("", "Error updating board")))
  {
    if err.Some? then (db, Err(Error("", "Error updating board")))
    else
      var found := Lookup(db.boards, id);
      if found.Some? then
        var b := found.value;
        (db.(boards := db.boards[b := db.boards[b].(name := name, description := description)]), Ok(1))
      else (db, Ok(0))
  }

  /** The tasks that `DELETE FROM tasks WHERE board_id = ?` leaves. */
  function TasksOfOtherBoards(tasks: map<int, Task>, id: JsValue): (r: map<int, Task>)
    ensures forall t | t in tasks :: (t in r <==> !ColumnMatches(tasks[t].boardId, id))
    ensures forall t | t in r :: t in tasks && r[t] == tasks[t]
  {
    map t | t in tasks && !ColumnMatches(tasks[t].boardId, id) :: tasks[t]
  }

  /**
   * DELETE FROM tasks WHERE board_id, then DELETE FROM boards WHERE id, outside a transaction:
   * tasksErr and boardsErr are the failures of the two statements. When the second one fails the
   * tasks are already gone.
   */
  function DeleteBoardQuery(db: Db, id: JsValue, tasksErr: Option<Error>, boardsErr: Option<Error>)
    : (r: (Db, Result<nat>))
    ensures tasksErr.Some? ==> r == (db, Err(Error("", "Error deleting board")))
    ensures tasksErr.None? && boardsErr.Some? ==>
      r == (db.(tasks := TasksOfOtherBoards(db.tasks, id)), Err(Error("", "Error deleting board")))
  {
    if tasksErr.Some? then (db, Err(Error("", "Error deleting board")))
    else
      var tasks := TasksOfOtherBoards(db.tasks, id);
      if boardsErr.Some? then (db.(tasks := tasks), Err(Error("", "Error deleting board")))
      else
        match Lookup(db.boards, id)
        case Some(b) => (db.(tasks := tasks, boards := db.boards - {b}), Ok(1))
        case None => (db.(tasks := tasks), Ok(0))
  }

  /** A new board belongs to the user who created it, and nothing but the boards table changes. */
  lemma CreateBoardRecordsOwner(db: Db, name: JsValue, description: JsValue, userId: int)
    requires Valid(db)
    ensures var (d, r) := CreateBoardQuery(db, name, description, userId, None);
      && r.Ok? && r.value !in db.boards && r.value in d.boards && d.boards[r.value].userId == userId
      && Valid(d) && d.tasks == db.tasks && d.users == db.users
      && (forall b | b in db.boards :: b in d.boards && d.boards[b] == db.boards[b])
  {
  }

  /** A created board is read back by its insertId when its owner is a user. */
  lemma CreatedBoardIsFound(db: Db, name: JsValue, description: JsValue, userId: int)
    requires Valid(db) && userId in db.users
    ensures var (d, r) := CreateBoardQuery(db, name, description, userId, None);
      GetBoardById(d, Num(r.value), userId, None) == Ok(Obj(BoardRow(r.value, Board(name, description, userId))
        + [("owner_email", Email(db.users, userId))]))
  {
    var (d, r) := CreateBoardQuery(db, name, description, userId, None);
    assert Lookup(d.boards, Num(r.value)) == Some(r.value) by {
      assert ToNumber(Num(r.value)) == Int(r.value);
    }
  }

  /** A board is found exactly when the id names a board of that owner and the owner is a user. */
  lemma GetBoardByIdOwnerFilter(db: Db, id: JsValue, userId: int)
    ensures GetBoardById(db, id, userId, None).Ok?
    ensures GetBoardById(db, id, userId, None).value != Undefined <==>
      exists b | b in db.boards :: KeyMatches(id, b) && db.boards[b].userId == userId && userId in db.users
  {
    var r := Lookup(db.boards, id);
    if r.Some? {
      forall b | b in db.boards && KeyMatches(id, b) ensures b == r.value {
        assert ToNumber(id) == Int(b);
      }
    }
  }

  /** Listing returns exactly the user's boards, each with the number of its tasks. */
  lemma GetAllBoardsExactlyOwned(db: Db, userId: int)
    requires Valid(db)
    ensures var r := GetAllBoards(db, userId, None);
      && r.Ok?
      && (forall k | 0 <= k < |r.value| :: IsOwnedRow(db, userId, r.value[k]))
      && (forall b | b in db.boards && db.boards[b].userId == userId :: exists k | 0 <= k < |r.value| ::
            r.value[k] == CountedRow(db, b))
      && (forall i, j | 0 <= i < j < |r.value| :: r.value[i] != r.value[j])
  {
    var all := IdsBelow(db.boards, db.nextBoard);
    var ids := OwnedIds(db.boards, userId, all);
    var r := GetAllBoards(db, userId, None);
    forall k | 0 <= k < |r.value| ensures IsOwnedRow(db, userId, r.value[k]) {
      var b := ids[k];
      assert b in db.boards && db.boards[b].userId == userId;
      assert r.value[k] == CountedRow(db, b);
    }
    forall b | b in db.boards && db.boards[b].userId == userId ensures exists k | 0 <= k < |r.value| ::
      r.value[k] == CountedRow(db, b)
    {
      assert b in all;
      var i :| 0 <= i < |all| && all[i] == b;
      assert b in ids;
      var k :| 0 <= k < |ids| && ids[k] == b;
      assert r.value[k] == CountedRow(db, b);
    }
    forall i, j | 0 <= i < j < |r.value| ensures r.value[i] != r.value[j] {
      assert r.value[i].entries[0] == ("id", Num(ids[i]));
      assert r.value[j].entries[0] == ("id", Num(ids[j]));
    }
  }

  /** A board without tasks is listed with task_count 0. */
  lemma TaskCountOfEmptyBoard(tasks: map<int, Task>, boardId: int)
    requires forall t | t in tasks :: !ColumnMatches(tasks[t].boardId, Num(boardId))
    ensures TaskCount(tasks, boardId) == 0
  {
    var s := set t | t in tasks && ColumnMatches(tasks[t].boardId, Num(boardId));
    forall t ensures t !in s { }
    assert s == {};
  }

  /** An update changes name and description of the named board only. */
  lemma UpdateBoardOnlyThatRow(db: Db, id: JsValue, name: JsValue, description: JsValue)
    ensures var (d, r) := UpdateBoardQuery(db, id, name, description, None);
      && r.Ok? && d.tasks == db.tasks && d.boards.Keys == db.boards.Keys
      && (forall b | b in db.boards :: if KeyMatches(id, b)
            then d.boards[b] == Board(name, description, db.boards[b].userId)
            else d.boards[b] == db.boards[b])
      && (r.value == 0 <==> forall b | b in db.boards :: !KeyMatches(id, b))
  {
    var l := Lookup(db.boards, id);
    if l.Some? {
      forall b | b in db.boards && KeyMatches(id, b) ensures b == l.value {
        assert ToNumber(id) == Int(b);
      }
    }
  }

  /** Deleting a board removes all of its tasks and the board itself, and nothing else. */
  lemma DeleteBoardCascade(db: Db, id: JsValue)
    ensures var (d, r) := DeleteBoardQuery(db, id, None, None);
      && r.Ok?
      && (forall t | t in db.tasks :: (t in d.tasks <==> !ColumnMatches(db.tasks[t].boardId, id)))
      && (forall t | t in d.tasks :: t in db.tasks && d.tasks[t] == db.tasks[t])
      && (forall b | b in db.boards :: (b in d.boards <==> !KeyMatches(id, b)))
      && (forall b | b in d.boards :: b in db.boards && d.boards[b] == db.boards[b])
      && d.users == db.users && d.audit == db.audit
  {
    var l := Lookup(db.boards, id);
    if l.Some? {
      forall b | b in db.boards && KeyMatches(id, b) ensures b == l.value {
        assert ToNumber(id) == Int(b);
      }
    }
  }

  /**
   * When the boards DELETE fails after the tasks DELETE succeeded, the board's tasks are gone,
   * every board stays, and the caller sees 'Error deleting board'.
   */
  lemma DeleteBoardHalfDone(db: Db, id: JsValue, e: Error)
    ensures var (d, r) := DeleteBoardQuery(db, id, None, Some(e));
      && r == Err(Error("", "Error deleting board"))
      && (forall t | t in db.tasks :: (t in d.tasks <==> !ColumnMatches(db.tasks[t].boardId, id)))
      && d.boards == db.boards && d.users == db.users && d.audit == db.audit
  {
  }

  // The same operations on a Database, in place.

  method CreateBoard(db: Database, name: JsValue, description: JsValue, userId: int, err: Option<Error>)
    returns (r: Result<int>)
    modifies db`boards, db`nextBoard
    ensures (db.Snapshot(), r) == CreateBoardQuery(old(db.Snapshot()), name, description, userId, err)
  {
    if err.Some? {
      return Err(Error("", "Error creating board"));
    }
    var id := db.nextBoard;
    db.boards := db.boards[id := Board(name, description, userId)];
    db.nextBoard := id + 1;
    r := Ok(id);
  }

  method UpdateBoard(db: Database, id: JsValue, name: JsValue, description: JsValue, err: Option<Error>)
    returns (r: Result<nat>)
    modifies db`boards
    ensures db.Snapshot() == UpdateBoardQuery(old(db.Snapshot()), id, name, description, err).0
    ensures r == UpdateBoardQuery(old(db.Snapshot()), id, name, description, err).1
  {
    if err.Some? {
      return Err(Error("", "Error updating board"));
    }
    var found := Lookup(db.boards, id);
    if found.Some? {
      var b := found.value;
      db.boards := db.boards[b := db.boards[b].(name := name, description := description)];
      r := Ok(1);
    } else {
      r := Ok(0);
    }
  }

  /** The two DELETEs in place: a failure of the second one leaves the first one's effect. */
  method DeleteBoard(db: Database, id: JsValue, tasksErr: Option<Error>, boardsErr: Option<Error>)
    returns (r: Result<nat>)
    modifies db`tasks, db`boards
    ensures (db.Snapshot(), r) == DeleteBoardQuery(old(db.Snapshot()), id, tasksErr, boardsErr)
  {
    if tasksErr.Some? {
      return Err(Error("", "Error deleting board"));
    }
    db.tasks := TasksOfOtherBoards(db.tasks, id);
    if boardsErr.Some? {
      return Err(Error("", "Error deleting board"));
    }
    match Lookup(db.boards, id)
    case Some(b) =>
      db.boards := db.boards - {b};
      r := Ok(1);
    case None =>
      r := Ok(0);
  }
}
