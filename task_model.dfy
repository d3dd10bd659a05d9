/**
 * backend/src/models/taskModel.js: the tasks table. The INSERT names only title, description
 * and status, so board_id and user_id of a new task are NULL. Inside updateTask and deleteTask
 * every error, "Task not found" included, is rethrown with the operation's fixed message.
 */
module TaskModel {
  import opened Wrappers
  import opened JsValues
  import opened Store

  /** How the driver binds a parameter: undefined is sent as NULL. */
  function Bound(v: JsValue): (r: JsValue)
    ensures r != Undefined && (v != Undefined ==> r == v)
  {
    if v.Undefined? then Null else v
  }

  function TaskRow(id: int, t: Task): Object {
    [("id", Num(id)), ("title", t.title), ("description", t.description), ("status", t.status),
     ("board_id", t.boardId), ("user_id", t.userId)]
  }

  /** SELECT * FROM tasks: every row, whatever the caller passes. */
  function GetAllTasks(db: Db, err: Option<Error>): (r: Result<seq<JsValue>>)
    ensures err.Some? ==> r == Err(Error("", "Error fetching tasks"))
  {
    if err.Some? then Err(Error("", "Error fetching tasks"))
    else
      var ids := IdsBelow(db.tasks, db.nextTask);
      Ok(seq(|ids|, k requires 0 <= k < |ids| => Obj(TaskRow(ids[k], db.tasks[ids[k]]))))
  }

  /** The row a createTask call inserts. */
  function NewTask(body: JsValue): (t: Task)
    ensures t.boardId == Null && t.userId == Null
  {
    Task(Bound(Field(body, "title")), Or(Field(body, "description"), Null),
         Or(Field(body, "status"), Str("pending")), Null, Null)
  }

  function CreateTaskQuery(db: Db, body: JsValue, err: Option<Error>): (r: (Db, Result<int>))
    ensures !Truthy(Field(body, "title")) ==> r == (db, Err(Error("", "Title is required")))
    ensures Truthy(Field(body, "title")) && err.Some? ==> r == (db, Err(Error("", "Error creating task")))
  {
    if !Truthy(Field(body, "title")) then (db, Err(Error("", "Title is required")))
    else if err.Some? then (db, Err(Error("", "Error creating task")))
    else
      var id := db.nextTask;
      (db.(tasks := db.tasks[id := NewTask(body)], nextTask := id + 1), Ok(id))
  }

  /** The row createTask would insert if it also stored the board and the creator it is given. */
  function NewOwnedTask(body: JsValue, userId: JsValue): (t: Task)
    ensures t.boardId == Bound(Field(body, "board_id")) && t.userId == Bound(userId)
    ensures t.(boardId := Null, userId := Null) == NewTask(body)
  {
    NewTask(body).(boardId := Bound(Field(body, "board_id")), userId := Bound(userId))
  }

  /** createTask storing board_id and user_id as well: the insert its caller evidently expects. */
  function CreateOwnedTaskQuery(db: Db, body: JsValue, userId: JsValue, err: Option<Error>): (r: (Db, Result<int>))
    ensures !Truthy(Field(body, "title")) ==> r == (db, Err(Error("", "Title is required")))
    ensures Truthy(Field(body, "title")) && err.Some? ==> r == (db, Err(Error("", "Error creating task")))
  {
    if !Truthy(Field(body, "title")) then (db, Err(Error("", "Title is required")))
    else if err.Some? then (db, Err(Error("", "Error creating task")))
    else
      var id := db.nextTask;
      (db.(tasks := db.tasks[id := NewOwnedTask(body, userId)], nextTask := id + 1), Ok(id))
  }

  function UpdateTaskQuery(db: Db, id: JsValue, body: JsValue, err: Option<Error>): (r: (Db, Result<nat>))
    ensures !Truthy(id) ==> r == (db, Err(Error("", "Task ID is required")))
    ensures r.1.Err? ==> r.0 == db
  {
    if !Truthy(id) then (db, Err(Error("", "Task ID is required")))
    else if err.Some? then (db, Err(Error("", "Error updating task")))
    else match Lookup(db.tasks, id)
      case Some(t) =>
        var row := db.tasks[t].(title := Bound(Field(body, "title")), description := Bound(Field(body, "description")),
                                status := Bound(Field(body, "status")));
        (db.(tasks := db.tasks[t := row]), Ok(1))
      case None => (db, Err(Error("", "Error updating task")))
  }

  function DeleteTaskQuery(db: Db, id: JsValue, err: Option<Error>): (r: (Db, Result<nat>))
    ensures !Truthy(id) ==> r == (db, Err(Error("", "Task ID is required")))
    ensures r.1.Err? ==> r.0 == db
  {
    if !Truthy(id) then (db, Err(Error("", "Task ID is required")))
    else if err.Some? then (db, Err(Error("", "Error deleting task")))
    else match Lookup(db.tasks, id)
      case Some(t) => (db.(tasks := db.tasks - {t}), Ok(1))
      case None => (db, Err(Error("", "Error deleting task")))
  }

  /** Every task is listed, and only tasks are. */
  lemma GetAllTasksIsEveryTask(db: Db)
    requires Valid(db)
    ensures var r := GetAllTasks(db, None);
      && r.Ok?
      && (forall t | t in db.tasks :: Obj(TaskRow(t, db.tasks[t])) in r.value)
      && (forall v | v in r.value :: exists t | t in db.tasks :: v == Obj(TaskRow(t, db.tasks[t])))
  {
    var ids := IdsBelow(db.tasks, db.nextTask);
    var r := GetAllTasks(db, None);
    forall t | t in db.tasks ensures Obj(TaskRow(t, db.tasks[t])) in r.value {
      var k :| 0 <= k < |ids| && ids[k] == t;
      assert r.value[k] == Obj(TaskRow(t, db.tasks[t]));
    }
    forall v | v in r.value ensures exists t | t in db.tasks :: v == Obj(TaskRow(t, db.tasks[t])) {
      var k :| 0 <= k < |r.value| && r.value[k] == v;
      assert ids[k] in db.tasks;
    }
  }

  /** A new task takes a missing description as NULL and a missing status as 'pending'. */
  lemma CreateTaskDefaults(db: Db, body: JsValue)
    requires Valid(db) && Truthy(Field(body, "title"))
    ensures var (d, r) := CreateTaskQuery(db, body, None);
      && r.Ok? && r.value in d.tasks && r.value !in db.tasks && Valid(d)
      && d.tasks[r.value].title == Field(body, "title")
      && (Truthy(Field(body, "description")) ==> d.tasks[r.value].description == Field(body, "description"))
      && (!Truthy(Field(body, "description")) ==> d.tasks[r.value].description == Null)
      && (Truthy(Field(body, "status")) ==> d.tasks[r.value].status == Field(body, "status"))
      && (!Truthy(Field(body, "status")) ==> d.tasks[r.value].status == Str("pending"))
      && d.tasks[r.value].boardId == Null && d.tasks[r.value].userId == Null
      && (forall t | t in db.tasks :: t in d.tasks && d.tasks[t] == db.tasks[t])
  {
  }

  /** An update rewrites title, description and status of exactly the named task; an unknown id fails. */
  lemma UpdateTaskOnlyThatRow(db: Db, id: JsValue, body: JsValue)
    requires Truthy(id)
    ensures var (d, r) := UpdateTaskQuery(db, id, body, None);
      && ((exists t | t in db.tasks :: KeyMatches(id, t)) <==> r.Ok?)
      && (r.Err? ==> r.error == Error("", "Error updating task") && d == db)
      && d.tasks.Keys == db.tasks.Keys && d.boards == db.boards
      && (forall t | t in db.tasks :: if KeyMatches(id, t)
            then d.tasks[t] == db.tasks[t].(title := Bound(Field(body, "title")),
                   description := Bound(Field(body, "description")), status := Bound(Field(body, "status")))
            else d.tasks[t] == db.tasks[t])
  {
    var l := Lookup(db.tasks, id);
    if l.Some? {
      forall t | t in db.tasks && KeyMatches(id, t) ensures t == l.value {
        assert ToNumber(id) == Int(t);
      }
    }
  }

  /** A delete removes exactly the named task; an unknown id fails with the fixed message. */
  lemma DeleteTaskOnlyThatRow(db: Db, id: JsValue)
    requires Truthy(id)
    ensures var (d, r) := DeleteTaskQuery(db, id, None);
      && ((exists t | t in db.tasks :: KeyMatches(id, t)) <==> r.Ok?)
      && (r.Err? ==> r.error == Error("", "Error deleting task") && d == db)
      && (forall t | t in db.tasks :: (t in d.tasks <==> !KeyMatches(id, t)))
      && (forall t | t in d.tasks :: d.tasks[t] == db.tasks[t])
  {
    var l := Lookup(db.tasks, id);
    if l.Some? {
      forall t | t in db.tasks && KeyMatches(id, t) ensures t == l.value {
        assert ToNumber(id) == Int(t);
      }
    }
  }

  // The same operations on a Database, in place.

  method CreateTask(db: Database, body: JsValue, err: Option<Error>) returns (r: Result<int>)
    modifies db`tasks, db`nextTask
    ensures (db.Snapshot(), r) == CreateTaskQuery(old(db.Snapshot()), body, err)
  {
    if !Truthy(Field(body, "title")) {
      return Err(Error("", "Title is required"));
    }
    if err.Some? {
      return Err(Error("", "Error creating task"));
    }
    var id := db.nextTask;
    db.tasks := db.tasks[id := NewTask(body)];
    db.nextTask := id + 1;
    r := Ok(id);
  }

  method UpdateTask(db: Database, id: JsValue, body: JsValue, err: Option<Error>) returns (r: Result<nat>)
    modifies db`tasks
    ensures (db.Snapshot(), r) == UpdateTaskQuery(old(db.Snapshot()), id, body, err)
  {
    if !Truthy(id) {
      return Err(Error("", "Task ID is required"));
    }
    if err.Some? {
      return Err(Error("", "Error updating task"));
    }
    match Lookup(db.tasks, id)
    case Some(t) =>
      db.tasks := db.tasks[t := db.tasks[t].(title := Bound(Field(body, "title")),
        description := Bound(Field(body, "description")), status := Bound(Field(body, "status")))];
      r := Ok(1);
    case None =>
      r := Err(Error("", "Error updating task"));
  }

  method DeleteTask(db: Database, id: JsValue, err: Option<Error>) returns (r: Result<nat>)
    modifies db`tasks
    ensures (db.Snapshot(), r) == DeleteTaskQuery(old(db.Snapshot()), id, err)
  {
    if !Truthy(id) {
      return Err(Error("", "Task ID is required"));
    }
    if err.Some? {
      return Err(Error("", "Error deleting task"));
    }
    match Lookup(db.tasks, id)
    case Some(t) =>
      db.tasks := db.tasks - {t};
      r := Ok(1);
    case None =>
      r := Err(Error("", "Error deleting task"));
  }
}
