/**
 * frontend/src/components/taskList.jsx: which of its four views a list of tasks renders, and
 * the colour, icon, label and badge it derives from a task's priority and status (`toLowerCase`
 * on ASCII letters). `toLowerCase` and `charAt` exist only on strings: on any other value,
 * undefined and null included, the call throws a TypeError, which is `None` here and makes the
 * whole render throw.
 */
module TaskList {
  import opened Wrappers
  import opened Text
  import opened JsValues
  import opened Store
  import opened TaskModel

  datatype Icon = CheckCircle(colour: string) | Clock(colour: string) | Circle(colour: string)

  /** What one card of the grid shows of its task. */
  datatype Card = Card(icon: Icon, caption: string, variant: string, colour: string, badge: string)

  datatype View = Loading | ErrorAlert(error: JsValue) | NoTasks | Grid(cards: seq<Card>)

  /** getPriorityColor. */
  function PriorityColor(priority: JsValue): (colour: Option<string>)
    ensures colour.None? <==> !priority.Str?
  {
    match priority
    case Str(p) =>
      Some(match ToLower(p)
        case "high" => "#dc3545"
        case "medium" => "#ffc107"
        case "low" => "#0dcaf0"
        case _ => "#6c757d")
    case _ => None
  }

  /**
   * The three priorities in any letter case have their colours; every other text is grey, and
   * a priority that is not a text throws.
   */
  lemma PriorityColorCases(priority: JsValue)
    ensures !priority.Str? <==> PriorityColor(priority).None?
    ensures priority.Str? ==>
      && (ToLower(priority.s) == "high" <==> PriorityColor(priority) == Some("#dc3545"))
      && (ToLower(priority.s) == "medium" <==> PriorityColor(priority) == Some("#ffc107"))
      && (ToLower(priority.s) == "low" <==> PriorityColor(priority) == Some("#0dcaf0"))
      && (ToLower(priority.s) !in ["high", "medium", "low"] <==> PriorityColor(priority) == Some("#6c757d"))
      && PriorityColor(Str(ToLower(priority.s))) == PriorityColor(priority)
  {
    if priority.Str? {
      ToLowerIdempotent(priority.s);
    }
  }

  /** getStatusIcon: pending shares the default with every unknown status. */
  function StatusIcon(status: JsValue): (icon: Option<Icon>)
    ensures icon.None? <==> !status.Str?
    ensures status.Str? ==>
      && (ToLower(status.s) == "completed" <==> icon == Some(CheckCircle("#198754")))
      && (ToLower(status.s) == "in-progress" <==> icon == Some(Clock("#ffc107")))
      && (ToLower(status.s) != "completed" && ToLower(status.s) != "in-progress" <==> icon == Some(Circle("#6c757d")))
  {
    match status
    case Str(s) =>
      Some(match ToLower(s)
        case "completed" => CheckCircle("#198754")
        case "in-progress" => Clock("#ffc107")
        case _ => Circle("#6c757d"))
    case _ => None
  }

  /** getStatusLabel. */
  function StatusLabel(status: JsValue): (shown: Option<string>)
    ensures shown.None? <==> !status.Str?
  {
    match status
    case Str(s) => Some(if ToLower(s) == "in-progress" then "In Progress" else UpperFirst(s))
    case _ => None
  }

  /**
   * 'in-progress' in any case reads 'In Progress'; any other text changes only its first
   * letter; a status that is not a text throws.
   */
  lemma StatusLabelCases(status: JsValue)
    ensures !status.Str? <==> StatusLabel(status).None?
    ensures status.Str? && ToLower(status.s) == "in-progress" ==> StatusLabel(status) == Some("In Progress")
    ensures status.Str? && ToLower(status.s) != "in-progress" ==>
      && StatusLabel(status).Some? && |StatusLabel(status).value| == |status.s|
      && (status.s != "" ==>
        StatusLabel(status).value[0] == UpperChar(status.s[0]) && StatusLabel(status).value[1..] == status.s[1..])
  {
  }

  /** The priority badge: `Medium Priority` for 'medium'; a priority that is not a text throws. */
  function PriorityBadge(priority: JsValue): (text: Option<string>)
    ensures text.None? <==> !priority.Str?
    ensures priority.Str? ==> |text.value| == |priority.s| + 9
    ensures priority.Str? && priority.s != "" ==>
      text.value[0] == UpperChar(priority.s[0]) && text.value[1..|priority.s|] == priority.s[1..]
  {
    match priority
    case Str(p) => Some(UpperFirst(p) + " Priority")
    case _ => None
  }

  /** The status badge colour compares the status exactly, not lower-cased. */
  function StatusVariant(status: JsValue): (variant: string)
    ensures variant == "success" <==> status == Str("completed")
    ensures variant == "warning" <==> status == Str("in-progress")
  {
    if status == Str("completed") then "success" else if status == Str("in-progress") then "warning" else "secondary"
  }

  /** So a task stored as 'Completed' gets the completed icon but the neutral badge. */
  lemma IconAndBadgeDisagreeOnCase()
    ensures StatusIcon(Str("Completed")) == Some(CheckCircle("#198754"))
    ensures StatusVariant(Str("Completed")) == "secondary"
  {
    assert ToLower("Completed") == "completed";
  }

  /** One card of `tasks.map(...)`: it throws when any of its four calls throws. */
  function TaskCard(task: JsValue): (card: Option<Card>)
    ensures card.Some? <==> Field(task, "status").Str? && Field(task, "priority").Str?
  {
    var status, priority := Field(task, "status"), Field(task, "priority");
    match (StatusIcon(status), StatusLabel(status), PriorityColor(priority), PriorityBadge(priority))
    case (Some(icon), Some(caption), Some(colour), Some(badge)) =>
      Some(Card(icon, caption, StatusVariant(status), colour, badge))
    case _ => None
  }

  /** `tasks.map(...)`: the cards in order, or a throw when any card throws. */
  function Cards(tasks: seq<JsValue>): (cards: Option<seq<Card>>)
    ensures cards.Some? <==> forall k | 0 <= k < |tasks| :: TaskCard(tasks[k]).Some?
    ensures cards.Some? ==> |cards.value| == |tasks|
    ensures cards.Some? ==> forall k | 0 <= k < |tasks| :: TaskCard(tasks[k]) == Some(cards.value[k])
  {
    if tasks == [] then Some([])
    else
      match (TaskCard(tasks[0]), Cards(tasks[1..]))
      case (Some(c), Some(rest)) =>
        assert forall k | 1 <= k < |tasks| :: tasks[k] == tasks[1..][k - 1];
        Some([c] + rest)
      case (None, _) => None
      case (_, None) =>
        assert forall k | 0 <= k < |tasks| - 1 :: tasks[1..][k] == tasks[k + 1];
        None
  }

  /** The component: the three early returns, then the grid of cards. */
  function Render(loading: bool, error: JsValue, tasks: seq<JsValue>): (v: Option<View>)
  {
    if loading then Some(Loading)
    else if Truthy(error) then Some(ErrorAlert(error))
    else if |tasks| == 0 then Some(NoTasks)
    else
      match Cards(tasks)
      case Some(cards) => Some(Grid(cards))
      case None => None
  }

  /**
   * Loading wins over an error, an error over the empty list; the grid needs all three absent,
   * and it throws exactly when some task lacks a text status or a text priority.
   */
  lemma RenderPrecedence(loading: bool, error: JsValue, tasks: seq<JsValue>)
    ensures loading ==> Render(loading, error, tasks) == Some(Loading)
    ensures !loading && Truthy(error) ==> Render(loading, error, tasks) == Some(ErrorAlert(error))
    ensures !loading && !Truthy(error) && tasks == [] ==> Render(loading, error, tasks) == Some(NoTasks)
    ensures (Render(loading, error, tasks).Some? && Render(loading, error, tasks).value.Grid?) <==>
      !loading && !Truthy(error) && tasks != [] && Cards(tasks).Some?
    ensures !loading && !Truthy(error) && tasks != [] ==>
      (Render(loading, error, tasks).None? <==>
        exists k | 0 <= k < |tasks| :: !Field(tasks[k], "status").Str? || !Field(tasks[k], "priority").Str?)
  {
  }

  /**
   * Under the tasks table this model assumes (id, title, description, status, board_id and
   * user_id, the columns the task queries name), a served row has no priority, so a non-empty
   * list of them makes the grid throw.
   */
  lemma ServedTasksThrow(db: Db, error: JsValue)
    requires !Truthy(error)
    requires GetAllTasks(db, None).Ok? && GetAllTasks(db, None).value != []
    ensures Render(false, error, GetAllTasks(db, None).value).None?
  {
    var rows := GetAllTasks(db, None).value;
    var ids := IdsBelow(db.tasks, db.nextTask);
    assert rows[0] == Obj(TaskRow(ids[0], db.tasks[ids[0]]));
    NoPriority(ids[0], db.tasks[ids[0]]);
    assert !Field(rows[0], "priority").Str?;
  }

  /** A served task row has no priority. */
  lemma NoPriority(id: int, t: Task)
    ensures Field(Obj(TaskRow(id, t)), "priority") == Undefined
  {
    var row := TaskRow(id, t);
    PropShape(row, "priority");
  }
}
