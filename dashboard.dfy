/**
 * frontend/src/pages/dashboard.jsx: the board and task page. The status cycle, the board
 * payload and the per-status counts are functions; the page's `tasks`, `boards`, `activeBoard` and
 * `error` state are fields of an object whose handlers are methods. Each awaited service call
 * is a parameter holding its outcome, and a handler returns the request it sends.
 */
module Dashboard {
  import opened Wrappers
  import opened Text
  import opened JsValues
  import opened Client

  const StatusOrder: seq<string> := ["pending", "in-progress", "completed"]

  /** `order.indexOf(s)`: the first position of s, or -1. */
  function IndexIn(order: seq<string>, s: string): (i: int)
    ensures -1 <= i < |order|
    ensures i >= 0 ==> order[i] == s && forall j | 0 <= j < i :: order[j] != s
    ensures i == -1 ==> s !in order
  {
    if order == [] then -1
    else if order[0] == s then 0
    else var rest := IndexIn(order[1..], s); if rest == -1 then -1 else rest + 1
  }

  /** `order[(order.indexOf(status) + 1) % order.length]`. */
  function NextStatus(status: string): (next: string)
  {
    StatusOrder[(IndexIn(StatusOrder, status) + 1) % |StatusOrder|]
  }

  /** pending, in-progress and completed follow each other in a cycle; anything else restarts at pending. */
  lemma NextStatusCycle(status: string)
    ensures status == "pending" ==> NextStatus(status) == "in-progress"
    ensures status == "in-progress" ==> NextStatus(status) == "completed"
    ensures status == "completed" ==> NextStatus(status) == "pending"
    ensures status !in StatusOrder ==> NextStatus(status) == "pending"
    ensures NextStatus(status) in StatusOrder
  {
    assert StatusOrder[0] == "pending" && StatusOrder[1] == "in-progress" && StatusOrder[2] == "completed";
  }

  /** Three toggles bring every status of the cycle back to itself. */
  lemma ThreeTogglesReturn(status: string)
    requires status in StatusOrder
    ensures NextStatus(NextStatus(NextStatus(status))) == status
  {
    NextStatusCycle(status);
    NextStatusCycle(NextStatus(status));
    NextStatusCycle(NextStatus(NextStatus(status)));
  }

  /** `(task.status || 'pending').toLowerCase()`; None when the status is not a string and the call throws. */
  function CurrentStatus(task: Object): (s: Option<string>)
    ensures !Truthy(Prop(task, "status")) ==> s == Some("pending")
    ensures Prop(task, "status").Str? && Prop(task, "status").s != "" ==> s == Some(ToLower(Prop(task, "status").s))
  {
    assert ToLower("pending") == "pending";
    match Or(Prop(task, "status"), Str("pending"))
    case Str(t) => Some(ToLower(t))
    case _ => None
  }

  /** `{ ...task, status, board_id }`. */
  function TaskUpdate(task: Object, status: string, boardId: JsValue): (p: Object)
    ensures Prop(p, "status") == Str(status) && Prop(p, "board_id") == boardId
    ensures forall k | k != "status" && k != "board_id" :: Prop(p, k) == Prop(task, k)
  {
    SetProp(SetProp(task, "status", Str(status)), "board_id", boardId)
  }

  /** What handleCreateBoard sends, or the message it shows instead. */
  datatype BoardPayload = Send(payload: Object) | Refuse(message: string)

  const TrimTypeError := "boardInput?.name?.trim is not a function"
  const DescriptionTypeError := "boardInput?.description?.trim is not a function"

  /** `v?.trim()`: undefined for a nullish v, the trimmed text of a string, None when it throws. */
  function OptionalTrim(v: JsValue): (r: Option<JsValue>)
    ensures r.Some? ==> r.value == Undefined || (r.value.Str? && Trim(r.value.s) == r.value.s)
  {
    if v.Undefined? || v.Null? then Some(Undefined)
    else if v.Str? then TrimIdempotent(v.s); Some(Str(Trim(v.s)))
    else None
  }

  /** `` `Board for ${name} tasks` ``. */
  function DefaultDescription(name: JsValue): JsValue {
    Str("Board for " + ToStr(name) + " tasks")
  }

  /** The object branch once name and description are read and trimmed. */
  function ObjectPayload(name: JsValue, given: JsValue): (r: BoardPayload)
    ensures r.Refuse? <==> !Truthy(name)
    ensures r.Refuse? ==> r.message == "Board name is required"
    ensures r.Send? ==> r.payload == [("name", name), ("description", if Truthy(given) then given else DefaultDescription(name))]
  {
    var description := Or(given, DefaultDescription(name));
    if !Truthy(name) then Refuse("Board name is required")
    else Send([("name", name), ("description", description)])
  }

  /** handleCreateBoard's payload from a string or an object. */
  function MakeBoardPayload(input: JsValue): (r: BoardPayload)
  {
    if input.Str? then Send([("name", input), ("description", Str("Board for " + input.s + " tasks"))])
    else
      match OptionalTrim(Field(input, "name"))
      case None => Refuse(TrimTypeError)
      case Some(name) =>
        match OptionalTrim(Field(input, "description"))
        case None => Refuse(DescriptionTypeError)
        case Some(given) => ObjectPayload(name, given)
  }

  /** A string is the name as it is, with the default description. */
  lemma StringBoardPayload(input: string)
    ensures MakeBoardPayload(Str(input)) ==
      Send([("name", Str(input)), ("description", Str("Board for " + input + " tasks"))])
  {
  }

  /** The trimmed description, or undefined when there is none. */
  function GivenDescription(d: JsValue): JsValue
    requires d.Undefined? || d.Null? || d.Str?
  {
    if d.Str? then Str(Trim(d.s)) else Undefined
  }

  /**
   * From an object, the name is trimmed and must not be blank; a blank or missing description
   * becomes the default built from the trimmed name.
   */
  lemma ObjectBoardPayload(input: JsValue)
    requires input.Obj? && Field(input, "name").Str?
    requires var d := Field(input, "description"); d.Undefined? || d.Null? || d.Str?
    ensures var name := Trim(Field(input, "name").s);
      var given := GivenDescription(Field(input, "description"));
      && (name == "" <==> MakeBoardPayload(input) == Refuse("Board name is required"))
      && (name != "" ==> MakeBoardPayload(input) == Send([("name", Str(name)),
            ("description", if Truthy(given) then given else Str("Board for " + name + " tasks"))]))
  {
    var name := Str(Trim(Field(input, "name").s));
    var given := GivenDescription(Field(input, "description"));
    ObjectBoardPayloadReads(input);
    assert DefaultDescription(name) == Str("Board for " + name.s + " tasks");
  }

  /** From an object, the payload is that of its trimmed name and given description. */
  lemma ObjectBoardPayloadReads(input: JsValue)
    requires input.Obj? && Field(input, "name").Str?
    requires var d := Field(input, "description"); d.Undefined? || d.Null? || d.Str?
    ensures MakeBoardPayload(input) ==
      ObjectPayload(Str(Trim(Field(input, "name").s)), GivenDescription(Field(input, "description")))
  {
    assert OptionalTrim(Field(input, "name")) == Some(Str(Trim(Field(input, "name").s)));
    assert OptionalTrim(Field(input, "description")) == Some(GivenDescription(Field(input, "description")));
  }

  /** An object payload never carries a blank or untrimmed name. */
  lemma BoardPayloadNameNotBlank(input: JsValue)
    requires !input.Str? && MakeBoardPayload(input).Send?
    ensures var name := MakeBoardPayload(input).payload[0].1; name.Str? && name.s != "" && Trim(name.s) == name.s
  {
    var name := OptionalTrim(Field(input, "name")).value;
    var given := OptionalTrim(Field(input, "description")).value;
    assert MakeBoardPayload(input) == ObjectPayload(name, given);
  }

  /** `tasks.filter(t => t.status === status).length`. */
  function StatusCount(tasks: seq<Object>, status: string): (n: nat)
    ensures n <= |tasks|
  {
    if tasks == [] then 0
    else (if Prop(tasks[0], "status") == Str(status) then 1 else 0) + StatusCount(tasks[1..], status)
  }

  /** The pending and completed cards count disjoint tasks, so together never more than the total. */
  lemma {:induction false} PendingAndCompletedBounded(tasks: seq<Object>)
    ensures StatusCount(tasks, "pending") + StatusCount(tasks, "completed") <= |tasks|
  {
    if tasks != [] {
      PendingAndCompletedBounded(tasks[1..]);
    }
  }

  /** The counts match exactly: a task stored as 'Pending' is in neither card, though the toggle treats it as pending. */
  lemma CountsAreExact()
    ensures StatusCount([[("status", Str("Pending"))]], "pending") == 0
    ensures CurrentStatus([("status", Str("Pending"))]) == Some("pending")
  {
    assert ToLower("Pending") == "pending";
  }

  /** `tasks.find(item => item.id === id)`. */
  function Find(tasks: seq<Object>, id: JsValue): (r: Option<Object>)
    ensures r.Some? ==> r.value in tasks && Prop(r.value, "id") == id
    ensures r.None? ==> forall k | 0 <= k < |tasks| :: Prop(tasks[k], "id") != id
  {
    if tasks == [] then None
    else if Prop(tasks[0], "id") == id then Some(tasks[0])
    else Find(tasks[1..], id)
  }

  class DashboardPage {
    var tasks: seq<Object>
    var boards: seq<JsValue>
    var activeBoard: JsValue
    var error: string

    constructor ()
      ensures tasks == [] && boards == [] && activeBoard == Null && error == ""
    {
      tasks, boards, activeBoard, error := [], [], Null, "";
    }

    /**
     * handleToggleStatus: the next status of the cycle is sent, then the board's tasks are
     * reloaded; any failure only sets the message.
     */
    method ToggleStatus(task: Object, updated: Option<ClientError>, reloaded: Reply<seq<Object>>)
      returns (request: Option<(JsValue, Object)>)
      modifies this`tasks, this`error
      ensures CurrentStatus(task).None? ==> request.None?
      ensures CurrentStatus(task).Some? ==>
        request == Some((Prop(task, "id"), TaskUpdate(task, NextStatus(CurrentStatus(task).value), Field(activeBoard, "id"))))
      ensures var reloads := request.Some? && updated.None? && !activeBoard.Undefined? && !activeBoard.Null? && reloaded.Done?;
        && tasks == (if reloads then reloaded.value else old(tasks))
        && error == (if reloads then old(error) else "Failed to update task status")
    {
      var current := CurrentStatus(task);
      if current.None? {
        request := None;
        error := "Failed to update task status";
        return;
      }
      request := Some((Prop(task, "id"), TaskUpdate(task, NextStatus(current.value), Field(activeBoard, "id"))));
      if updated.Some? || activeBoard.Undefined? || activeBoard.Null? || reloaded.Failed? {
        error := "Failed to update task status";
      } else {
        tasks := reloaded.value;
      }
    }

    /**
     * handleCreateBoard: a refused payload only sets the message and sends nothing; otherwise
     * the board is created, the list reloaded and the new board made active.
     */
    method CreateBoard(input: JsValue, created: Reply<JsValue>, reloaded: Reply<seq<JsValue>>)
      returns (request: Option<Object>)
      modifies this`boards, this`activeBoard, this`error
      ensures var payload := MakeBoardPayload(input);
        && (payload.Refuse? ==>
              request.None? && error == payload.message && boards == old(boards) && activeBoard == old(activeBoard))
        && (payload.Send? ==> request == Some(payload.payload))
        && (payload.Send? && created.Done? && reloaded.Done? ==>
              boards == reloaded.value && activeBoard == created.value && error == old(error))
        && (payload.Send? && !(created.Done? && reloaded.Done?) ==>
              error == (if created.Failed? then MessageOr(created.error, "Failed to create board")
                        else MessageOr(reloaded.error, "Failed to create board"))
              && boards == old(boards) && activeBoard == old(activeBoard))
    {
      var payload := MakeBoardPayload(input);
      if payload.Refuse? {
        error := payload.message;
        return None;
      }
      request := Some(payload.payload);
      match created
      case Failed(e) =>
        error := MessageOr(e, "Failed to create board");
      case Done(board) =>
        match reloaded
        case Failed(e) =>
          error := MessageOr(e, "Failed to create board");
        case Done(list) =>
          boards := list;
          activeBoard := board;
    }

    /**
     * handleMoveTask: nothing happens for an unknown task, without an active board, or when
     * the (lower-cased) status is already the target; otherwise the move is sent and the tasks
     * are reloaded.
     */
    method MoveTask(taskId: JsValue, nextStatus: string, updated: Option<ClientError>, reloaded: Reply<seq<Object>>)
      returns (request: Option<(JsValue, Object)>)
      modifies this
      ensures var task := Find(old(tasks), taskId);
        request.None? <==>
          task.None? || !Truthy(Field(activeBoard, "id"))
          || CurrentStatus(task.value).None? || CurrentStatus(task.value) == Some(nextStatus)
      ensures request.Some? ==>
        request.value == (Prop(Find(old(tasks), taskId).value, "id"), TaskUpdate(Find(old(tasks), taskId).value, nextStatus, Field(activeBoard, "id")))
      ensures request.None? ==> tasks == old(tasks) && error == old(error)
      ensures request.Some? && updated.None? && reloaded.Done? ==> tasks == reloaded.value && error == old(error)
      ensures request.Some? && !(updated.None? && reloaded.Done?) ==> tasks == old(tasks) && error == "Failed to move task"
      ensures boards == old(boards) && activeBoard == old(activeBoard)
    {
      var task := Find(tasks, taskId);
      if task.None? || !Truthy(Field(activeBoard, "id")) {
        return None;
      }
      var current := CurrentStatus(task.value);
      if current.None? || current.value == nextStatus {
        return None;
      }
      request := Some((Prop(task.value, "id"), TaskUpdate(task.value, nextStatus, Field(activeBoard, "id"))));
      if updated.None? && reloaded.Done? {
        tasks := reloaded.value;
      } else {
        error := "Failed to move task";
      }
    }

    /**
     * handleDeleteBoard, once the confirmation is answered: the list is reloaded, and only
     * when the deleted board is the active one are the active board and its tasks cleared.
     */
    method DeleteBoard(boardId: JsValue, confirmed: bool, deleted: Option<ClientError>, reloaded: Reply<seq<JsValue>>)
      modifies this
      ensures !confirmed ==> tasks == old(tasks) && boards == old(boards) && activeBoard == old(activeBoard) && error == old(error)
      ensures confirmed && deleted.None? && reloaded.Done? ==>
        && boards == reloaded.value && error == old(error)
        && (Field(old(activeBoard), "id") == boardId ==> activeBoard == Null && tasks == [])
        && (Field(old(activeBoard), "id") != boardId ==> activeBoard == old(activeBoard) && tasks == old(tasks))
      ensures confirmed && !(deleted.None? && reloaded.Done?) ==>
        error == "Failed to delete board" && tasks == old(tasks) && boards == old(boards) && activeBoard == old(activeBoard)
    {
      if !confirmed {
        return;
      }
      if deleted.Some? || reloaded.Failed? {
        error := "Failed to delete board";
        return;
      }
      boards := reloaded.value;
      if Field(activeBoard, "id") == boardId {
        activeBoard := Null;
        tasks := [];
      }
    }
  }
}
