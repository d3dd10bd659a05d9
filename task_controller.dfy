/**
 * backend/src/controllers/taskController.js: its handlers. addTask checks its two fields,
 * then that the board is the caller's, then inserts; updateTask and deleteTask look a task
 * up, answer 404 when it does not exist and 403 when its user_id is not the caller's, and only
 * then write. The lookups are the queries the handlers state; the `pool` they use is the store.
 */
module TaskController {
  import opened Wrappers
  import opened Text
  import opened JsValues
  import opened Store
  import opened Http
  import opened TaskModel

  function Nullish(v: JsValue): string
    requires v.Undefined? || v.Null?
  {
    if v.Undefined? then "undefined" else "null"
  }

  /** The TypeError of `v.key` when v is undefined or null. */
  function ReadError(v: JsValue, key: string): string
    requires v.Undefined? || v.Null?
  {
    "Cannot read properties of " + Nullish(v) + " (reading '" + key + "')"
  }

  /** The TypeError of `const { title, ... } = task` when task is undefined or null. */
  function DestructureError(v: JsValue): string
    requires v.Undefined? || v.Null?
  {
    "Cannot destructure property 'title' of 'task' as it is " + Nullish(v) + "."
  }

  /** `SELECT id FROM boards WHERE id = ? AND user_id = ?` finds a row. */
  function BoardFound(db: Db, boardId: JsValue, userId: JsValue): (found: bool)
    ensures found <==> exists b | b in db.boards :: KeyMatches(boardId, b) && KeyMatches(userId, db.boards[b].userId)
  {
    var b := Lookup(db.boards, boardId);
    if b.Some? then
      assert forall c | c in db.boards && KeyMatches(boardId, c) :: c == b.value;
      KeyMatches(userId, db.boards[b.value].userId)
    else false
  }

  /** The body addTask answers with. */
  function Created(id: int, boardId: JsValue): JsValue {
    Obj([("message", Str("Task created")), ("id", Num(id)), ("board_id", boardId)])
  }

  /**
   * addTask; `recordOwner` chooses the insert: false is createTask as written, which ignores
   * the user id it is passed, true is the insert that stores the board and the creator.
   */
  function AddTaskUsing(req: Request, db: Db, fault: Fault, recordOwner: bool): (r: (Response, Db))
  {
    if req.body.Undefined? || req.body.Null? then (Fail(500, ReadError(req.body, "title")), db)
    else
      var title, boardId := Field(req.body, "title"), Field(req.body, "board_id");
      if !Truthy(title) || !Truthy(boardId) then (Fail(400, "Title and Board ID are required"), db)
      else if fault.At(0).Some? then (Fail(500, fault.At(0).value.message), db)
      else if !BoardFound(db, boardId, req.userId) then (Fail(404, "Board not found or unauthorized"), db)
      else
        var (d1, r1) := if recordOwner then CreateOwnedTaskQuery(db, req.body, req.userId, fault.At(1))
                        else CreateTaskQuery(db, req.body, fault.At(1));
        match r1
        case Err(e) => (Fail(500, e.message), d1)
        case Ok(id) => (Response(201, Created(id, boardId)), d1)
  }

  /** addTask as written. */
  function AddTask(req: Request, db: Db, fault: Fault): (r: (Response, Db))
  {
    AddTaskUsing(req, db, fault, false)
  }

  /** addTask with the insert that records a new task's board and creator. */
  function AddOwnedTask(req: Request, db: Db, fault: Fault): (r: (Response, Db))
  {
    AddTaskUsing(req, db, fault, true)
  }

  /** getTasks: every task, whoever asks. */
  function GetTasks(req: Request, db: Db, fault: Fault): (r: Response)
  {
    match GetAllTasks(db, fault.At(0))
    case Err(e) => Fail(500, e.message)
    case Ok(rows) => Response(200, Arr(rows))
  }

  /**
   * The gate of updateTask and deleteTask: `SELECT user_id FROM tasks WHERE id = ?`, 404 when
   * no row comes back, 403 when its user_id is not strictly equal to the caller's id.
   */
  function TaskGate(req: Request, db: Db, fault: Fault): (r: Result<int>)
    ensures r.Ok? ==> r.value in db.tasks && KeyMatches(req.id, r.value) && db.tasks[r.value].userId == req.userId
  {
    if fault.At(0).Some? then Err(Error("500", fault.At(0).value.message))
    else match Lookup(db.tasks, req.id)
      case None => Err(Error("404", "Task not found"))
      case Some(t) =>
        if db.tasks[t].userId != req.userId then Err(Error("403", "Unauthorized")) else Ok(t)
  }

  function GateFailure(e: Error): Response {
    if e.code == "404" then Fail(404, e.message)
    else if e.code == "403" then Fail(403, e.message)
    else Fail(500, e.message)
  }

  /** updateTask. */
  function UpdateTask(req: Request, db: Db, fault: Fault): (r: (Response, Db))
  {
    match TaskGate(req, db, fault)
    case Err(e) => (GateFailure(e), db)
    case Ok(_) =>
      if req.body.Undefined? || req.body.Null? then (Fail(500, DestructureError(req.body)), db)
      else
        var (d1, r1) := UpdateTaskQuery(db, req.id, req.body, fault.At(1));
        if r1.Err? then (Fail(500, r1.error.message), d1) else (Response(200, MessageJson("Task updated")), d1)
  }

  /** deleteTask. */
  function DeleteTask(req: Request, db: Db, fault: Fault): (r: (Response, Db))
  {
    match TaskGate(req, db, fault)
    case Err(e) => (GateFailure(e), db)
    case Ok(_) =>
      var (d1, r1) := DeleteTaskQuery(db, req.id, fault.At(1));
      if r1.Err? then (Fail(500, r1.error.message), d1) else (Response(200, MessageJson("Task deleted")), d1)
  }

  /** Some task has this id. */
  predicate TaskExists(db: Db, id: JsValue) {
    exists t | t in db.tasks :: KeyMatches(id, t)
  }

  /** A task with this id whose user_id is the caller's. */
  predicate OwnsTask(db: Db, id: JsValue, userId: JsValue) {
    exists t | t in db.tasks :: KeyMatches(id, t) && db.tasks[t].userId == userId
  }

  /** Without a store failure: 404 exactly for an unknown id, 403 exactly for another's task. */
  lemma TaskGateCases(req: Request, db: Db)
    ensures TaskGate(req, db, Healthy) == Err(Error("404", "Task not found")) <==> !TaskExists(db, req.id)
    ensures TaskGate(req, db, Healthy) == Err(Error("403", "Unauthorized")) <==>
      TaskExists(db, req.id) && !OwnsTask(db, req.id, req.userId)
    ensures TaskGate(req, db, Healthy).Ok? <==> OwnsTask(db, req.id, req.userId)
  {
    var l := Lookup(db.tasks, req.id);
    if l.Some? {
      forall t | t in db.tasks && KeyMatches(req.id, t) ensures t == l.value {
        assert ToNumber(req.id) == Int(t);
      }
    }
  }

  /**
   * getTasks answers 200 with every task, whichever user asks and whatever board_id the query
   * names; a failing query is a 500 carrying its message.
   */
  lemma GetTasksAnswersEveryTask(req: Request, db: Db, e: Error)
    requires Valid(db)
    ensures GetTasks(req, db, FailAt(0, e)) == Fail(500, "Error fetching tasks")
    ensures var r := GetTasks(req, db, Healthy);
      && r.status == 200 && r.body.Arr?
      && (forall t | t in db.tasks :: Obj(TaskRow(t, db.tasks[t])) in r.body.items)
      && (forall v | v in r.body.items :: exists t | t in db.tasks :: v == Obj(TaskRow(t, db.tasks[t])))
  {
    GetAllTasksIsEveryTask(db);
  }

  /** A missing title or board_id is a 400 that reads and writes nothing. */
  lemma AddTaskRequiresFields(req: Request, db: Db, fault: Fault, recordOwner: bool)
    requires !req.body.Undefined? && !req.body.Null?
    requires !Truthy(Field(req.body, "title")) || !Truthy(Field(req.body, "board_id"))
    ensures AddTaskUsing(req, db, fault, recordOwner) == (Fail(400, "Title and Board ID are required"), db)
  {
  }

  /** A board that does not exist or is another user's is a 404, and no task is created. */
  lemma AddTaskRequiresOwnedBoard(req: Request, db: Db, recordOwner: bool)
    requires !req.body.Undefined? && !req.body.Null?
    requires Truthy(Field(req.body, "title")) && Truthy(Field(req.body, "board_id"))
    requires !exists b | b in db.boards :: KeyMatches(Field(req.body, "board_id"), b) && KeyMatches(req.userId, db.boards[b].userId)
    ensures AddTaskUsing(req, db, Healthy, recordOwner) == (Fail(404, "Board not found or unauthorized"), db)
  {
  }

  /** A created task gets the next id, and the answer carries that id and the request's board_id. */
  lemma AddTaskCreates(req: Request, db: Db)
    requires Valid(db) && !req.body.Undefined? && !req.body.Null?
    requires Truthy(Field(req.body, "title")) && Truthy(Field(req.body, "board_id"))
    requires BoardFound(db, Field(req.body, "board_id"), req.userId)
    ensures var (resp, d) := AddTask(req, db, Healthy);
      && resp == Response(201, Created(db.nextTask, Field(req.body, "board_id")))
      && d == db.(tasks := db.tasks[db.nextTask := NewTask(req.body)], nextTask := db.nextTask + 1)
  {
  }

  /** updateTask checks existence, then ownership, and writes only a task the caller owns. */
  lemma UpdateTaskGuards(req: Request, db: Db)
    requires Valid(db) && !req.body.Undefined? && !req.body.Null?
    ensures !TaskExists(db, req.id) ==> UpdateTask(req, db, Healthy) == (Fail(404, "Task not found"), db)
    ensures TaskExists(db, req.id) && !OwnsTask(db, req.id, req.userId) ==>
      UpdateTask(req, db, Healthy) == (Fail(403, "Unauthorized"), db)
    ensures OwnsTask(db, req.id, req.userId) ==>
      var (resp, d) := UpdateTask(req, db, Healthy);
      && resp == Response(200, MessageJson("Task updated"))
      && d.tasks.Keys == db.tasks.Keys
      && (forall t | t in db.tasks :: if KeyMatches(req.id, t)
            then d.tasks[t] == db.tasks[t].(title := Bound(Field(req.body, "title")),
                   description := Bound(Field(req.body, "description")), status := Bound(Field(req.body, "status")))
            else d.tasks[t] == db.tasks[t])
  {
    TaskGateCases(req, db);
    if OwnsTask(db, req.id, req.userId) {
      assert Truthy(req.id) by {
        var t :| t in db.tasks && KeyMatches(req.id, t) && db.tasks[t].userId == req.userId;
        KeyTruthy(req.id, t);
      }
      UpdateTaskOnlyThatRow(db, req.id, req.body);
    }
  }

  /** deleteTask checks existence, then ownership, and deletes only a task the caller owns. */
  lemma DeleteTaskGuards(req: Request, db: Db)
    requires Valid(db)
    ensures !TaskExists(db, req.id) ==> DeleteTask(req, db, Healthy) == (Fail(404, "Task not found"), db)
    ensures TaskExists(db, req.id) && !OwnsTask(db, req.id, req.userId) ==>
      DeleteTask(req, db, Healthy) == (Fail(403, "Unauthorized"), db)
    ensures OwnsTask(db, req.id, req.userId) ==>
      var (resp, d) := DeleteTask(req, db, Healthy);
      && resp == Response(200, MessageJson("Task deleted"))
      && (forall t | t in db.tasks :: (t in d.tasks <==> !KeyMatches(req.id, t)))
  {
    TaskGateCases(req, db);
    if OwnsTask(db, req.id, req.userId) {
      assert Truthy(req.id) by {
        var t :| t in db.tasks && KeyMatches(req.id, t) && db.tasks[t].userId == req.userId;
        KeyTruthy(req.id, t);
      }
      DeleteTaskOnlyThatRow(db, req.id);
    }
  }

  /** A value that names a row with a non-zero id is truthy. */
  lemma KeyTruthy(key: JsValue, id: int)
    requires KeyMatches(key, id) && id != 0
    ensures Truthy(key)
  {
  }

  /**
   * As written, a task that addTask creates has a NULL user_id, so its own creator, whose id is a
   * number, is refused with 403 by updateTask and deleteTask.
   */
  lemma CreatorLockedOut(req: Request, db: Db, edit: Request)
    requires Valid(db) && !req.body.Undefined? && !req.body.Null? && req.userId.Num?
    requires Truthy(Field(req.body, "title")) && Truthy(Field(req.body, "board_id"))
    requires BoardFound(db, Field(req.body, "board_id"), req.userId)
    requires edit.id == Num(db.nextTask) && edit.userId == req.userId && !edit.body.Undefined? && !edit.body.Null?
    ensures var d := AddTask(req, db, Healthy).1;
      && UpdateTask(edit, d, Healthy) == (Fail(403, "Unauthorized"), d)
      && DeleteTask(edit, d, Healthy) == (Fail(403, "Unauthorized"), d)
  {
    var d := AddTask(req, db, Healthy).1;
    assert Lookup(d.tasks, edit.id) == Some(db.nextTask);
  }

  /** With the insert that records the creator, the creator may update and delete the new task. */
  lemma CreatorMayEdit(req: Request, db: Db, edit: Request)
    requires Valid(db) && !req.body.Undefined? && !req.body.Null? && req.userId.Num?
    requires Truthy(Field(req.body, "title")) && Truthy(Field(req.body, "board_id"))
    requires BoardFound(db, Field(req.body, "board_id"), req.userId)
    requires edit.id == Num(db.nextTask) && edit.userId == req.userId && !edit.body.Undefined? && !edit.body.Null?
    ensures var (resp, d) := AddOwnedTask(req, db, Healthy);
      && resp == Response(201, Created(db.nextTask, Field(req.body, "board_id")))
      && UpdateTask(edit, d, Healthy).0 == Response(200, MessageJson("Task updated"))
      && DeleteTask(edit, d, Healthy).0 == Response(200, MessageJson("Task deleted"))
  {
    var d := AddOwnedTask(req, db, Healthy).1;
    assert Lookup(d.tasks, edit.id) == Some(db.nextTask);
    assert Truthy(edit.id);
  }
}
