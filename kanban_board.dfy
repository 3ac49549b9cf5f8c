/**
 * The task board: five fixed columns, the grouping of tasks into them, the
 * drag-end rule that turns a drop into at most one status update, and the
 * board's create and edit forms.
 */
module KanbanBoard {
  import opened Wrappers
  import opened Text
  import opened Seqs
  import opened Models
  import opened Records

  /** `COLUMNS`. */
  const Columns: seq<string> := ["backlog", "todo", "in_progress", "review", "done"]

  /** The columns are exactly the `TaskStatus` names, in declaration order. */
  lemma ColumnsAreStatuses()
    ensures |Columns| == |AllTaskStatuses|
    ensures forall i :: 0 <= i < |Columns| ==> Columns[i] == StatusName(AllTaskStatuses[i])
    ensures forall x :: x in Columns <==> IsTaskStatus(x)
  {
  }

  /** `task.status || 'backlog'`: the column a task asks for. */
  function Lane(t: Task): string
  {
    if t.status == "" then "backlog" else t.status
  }

  function InLane(c: string): Task -> bool
  {
    t => Lane(t) == c
  }

  /** What `tasksByStatus[c]` should hold: the tasks of lane `c`, in input order. */
  function Column(tasks: seq<Task>, c: string): seq<Task>
  {
    Filter(tasks, InLane(c))
  }

  /**
   * `tasksByStatus`: every column starts empty and each task is pushed onto
   * the column it asks for, if there is one. A lane named like a member of
   * `Object.prototype` reads that member, which is truthy and has no
   * `push`: the call throws a `TypeError` (`thrown`), and `grouped` is then
   * not a result.
   */
  method GroupByStatus(tasks: seq<Task>) returns (grouped: map<string, seq<Task>>, thrown: bool)
    ensures thrown <==> GroupingThrows(tasks)
    ensures !thrown ==> grouped.Keys == set c | c in Columns
    ensures !thrown ==> forall c :: c in Columns ==> grouped[c] == Column(tasks, c)
  {
    grouped := EmptyColumns();
    thrown := false;
    var i := 0;
    while i < |tasks|
      invariant 0 <= i <= |tasks|
      invariant grouped == Grouped(tasks[..i])
      invariant !GroupingThrows(tasks[..i])
    {
      var t := tasks[i];
      var status := Lane(t);
      GroupStep(tasks, i);
      ThrowStep(tasks, i);
      if status !in grouped && status in PrototypeNames {
        thrown := true;
        return;
      }
      grouped := Pushed(grouped, t);
      i := i + 1;
    }
    assert tasks[..i] == tasks;
  }

  /** Some task's lane names a member of `Object.prototype`. */
  predicate GroupingThrows(tasks: seq<Task>)
  {
    exists i :: 0 <= i < |tasks| && Lane(tasks[i]) in PrototypeNames
  }

  /** No column is named like a member of `Object.prototype`. */
  lemma ColumnsNotInherited()
    ensures forall c :: c in Columns ==> c !in PrototypeNames
  {
  }

  /** The loop's exit: either the task at `i` throws, or the prefix grows by a task that does not. */
  lemma ThrowStep(tasks: seq<Task>, i: nat)
    requires i < |tasks| && !GroupingThrows(tasks[..i])
    ensures Lane(tasks[i]) in PrototypeNames ==> GroupingThrows(tasks)
    ensures Lane(tasks[i]) !in PrototypeNames ==> !GroupingThrows(tasks[..i + 1])
  {
    assert tasks[..i + 1] == tasks[..i] + [tasks[i]];
  }

  /** `COLUMNS.forEach((col) => (grouped[col] = []))`: every column, empty. */
  method EmptyColumns() returns (grouped: map<string, seq<Task>>)
    ensures grouped == Grouped([])
  {
    grouped := map[];
    var k := 0;
    while k < |Columns|
      invariant 0 <= k <= |Columns|
      invariant grouped == map c | c in Columns[..k] :: []
    {
      assert Columns[..k + 1] == Columns[..k] + [Columns[k]];
      grouped := grouped[Columns[k] := []];
      k := k + 1;
    }
    assert Columns[..k] == Columns;
    assert forall c :: c in Columns ==> Column([], c) == [];
  }

  /** The loop invariant of `GroupByStatus`: one entry per column, holding that lane of `prefix`. */
  ghost function Grouped(prefix: seq<Task>): (m: map<string, seq<Task>>)
    ensures m.Keys == set c | c in Columns
    ensures forall c :: c in Columns ==> m[c] == Column(prefix, c)
  {
    map c | c in Columns :: Column(prefix, c)
  }

  /** `if (grouped[status]) grouped[status].push(task)` on an own key; any other lane is skipped. */
  function Pushed(grouped: map<string, seq<Task>>, t: Task): map<string, seq<Task>>
  {
    if Lane(t) in grouped then grouped[Lane(t) := grouped[Lane(t)] + [t]] else grouped
  }

  lemma GroupStep(tasks: seq<Task>, i: nat)
    requires i < |tasks|
    ensures Pushed(Grouped(tasks[..i]), tasks[i]) == Grouped(tasks[..i + 1])
    ensures Lane(tasks[i]) in Grouped(tasks[..i]) ==> Lane(tasks[i]) !in PrototypeNames
  {
    ColumnsNotInherited();
    assert tasks[..i + 1] == tasks[..i] + [tasks[i]];
    ColumnStep(tasks[..i], tasks[i]);
    var a, b := Pushed(Grouped(tasks[..i]), tasks[i]), Grouped(tasks[..i + 1]);
    assert a.Keys == b.Keys;
    assert forall c :: c in a ==> a[c] == b[c];
  }

  /** Pushing one more task extends exactly the column of its lane. */
  lemma ColumnStep(prefix: seq<Task>, t: Task)
    ensures forall c :: Column(prefix + [t], c) == Column(prefix, c) + (if Lane(t) == c then [t] else [])
  {
    forall c ensures Column(prefix + [t], c) == Column(prefix, c) + (if Lane(t) == c then [t] else []) {
      FilterConcat(prefix, [t], InLane(c));
      assert Filter([t], InLane(c)) == (if Lane(t) == c then [t] else []) + Filter([t][1..], InLane(c));
    }
  }

  /** A task with no status goes to backlog; any other status only to its own column. */
  lemma ColumnMembership(tasks: seq<Task>, t: Task, c: string)
    requires t in tasks
    ensures t in Column(tasks, c) <==> Lane(t) == c
  {
  }

  /**
   * A task whose status is not a column is on no column at all; when that
   * status names a member of `Object.prototype` the grouping throws.
   */
  lemma UnknownStatusNowhere(tasks: seq<Task>, t: Task)
    requires t.status != "" && t.status !in Columns
    ensures forall c :: c in Columns ==> t !in Column(tasks, c)
    ensures t in tasks && t.status in PrototypeNames ==> GroupingThrows(tasks)
  {
    if t in tasks && t.status in PrototypeNames {
      var i :| 0 <= i < |tasks| && tasks[i] == t;
      assert Lane(tasks[i]) in PrototypeNames;
    }
  }

  /** No task is on two columns, and each column keeps the input order. */
  lemma ColumnsDisjoint(tasks: seq<Task>, c: string, d: string)
    requires c != d
    ensures forall t :: t in Column(tasks, c) ==> t !in Column(tasks, d)
    ensures Subseq(Column(tasks, c), tasks)
  {
    FilterIsSubseq(tasks, InLane(c));
  }

  // ---- drag and drop -------------------------------------------------------

  /** What dnd-kit reports when a drag ends: the dragged id and the drop target's id, if any. */
  datatype DragEnd = DragEnd(active: string, over: Option<string>)

  /** `onTaskUpdate(taskId, { status })`. */
  datatype StatusUpdate = StatusUpdate(taskId: string, status: string)

  /** `String(t.id) === id`. */
  predicate HasId(t: Task, id: string)
  {
    IntToString(t.id) == id
  }

  /** `tasks.find(t => String(t.id) === id)`, as the index of the first match. */
  function FindTask(tasks: seq<Task>, id: string): (r: Option<nat>)
    ensures r.None? <==> forall i :: 0 <= i < |tasks| ==> !HasId(tasks[i], id)
    ensures r.Some? ==>
      r.value < |tasks| && HasId(tasks[r.value], id)
      && forall i :: 0 <= i < r.value ==> !HasId(tasks[i], id)
  {
    FindFrom(tasks, id, 0)
  }

  /** The first index at or after `k` whose task has the id. */
  function FindFrom(tasks: seq<Task>, id: string, k: nat): (r: Option<nat>)
    requires k <= |tasks|
    ensures r.None? <==> forall i :: k <= i < |tasks| ==> !HasId(tasks[i], id)
    ensures r.Some? ==>
      k <= r.value < |tasks| && HasId(tasks[r.value], id)
      && forall i :: k <= i < r.value ==> !HasId(tasks[i], id)
    decreases |tasks| - k
  {
    if k == |tasks| then None
    else if HasId(tasks[k], id) then Some(k)
    else
      var r := FindFrom(tasks, id, k + 1);
      assert r.None? ==> forall i :: k <= i < |tasks| ==> !HasId(tasks[i], id);
      assert r.Some? ==> forall i :: k <= i < r.value ==> !HasId(tasks[i], id);
      r
  }

  /** `handleDragEnd`: the update it asks for, if any. */
  function DragEndUpdate(tasks: seq<Task>, e: DragEnd): (r: Option<StatusUpdate>)
    ensures r.Some? ==> r.value.taskId == e.active
  {
    match e.over
    case None => None
    case Some(overId) =>
      match FindTask(tasks, e.active)
      case None => None
      case Some(i) =>
        var dragged := tasks[i];
        if overId in Columns then
          if dragged.status != overId then Some(StatusUpdate(e.active, overId)) else None
        else
          match FindTask(tasks, overId)
          case None => None
          case Some(j) =>
            if dragged.status != tasks[j].status then Some(StatusUpdate(e.active, tasks[j].status)) else None
  }

  /** A drag with no drop target, or of an id no task has, asks for nothing. */
  lemma DragWithoutTarget(tasks: seq<Task>, e: DragEnd)
    requires e.over.None? || FindTask(tasks, e.active).None?
    ensures DragEndUpdate(tasks, e) == None
  {
  }

  /**
   * Dropping on a column asks to move the task there exactly when it is not
   * already there.
   */
  lemma DropOnColumn(tasks: seq<Task>, e: DragEnd, i: nat)
    requires e.over.Some? && e.over.value in Columns && FindTask(tasks, e.active) == Some(i)
    ensures DragEndUpdate(tasks, e).Some? <==> tasks[i].status != e.over.value
    ensures DragEndUpdate(tasks, e).Some? ==> DragEndUpdate(tasks, e) == Some(StatusUpdate(e.active, e.over.value))
  {
  }

  /**
   * Dropping on another card asks for that card's status exactly when it
   * differs; an id that is neither a column nor a card asks for nothing.
   */
  lemma DropOnCard(tasks: seq<Task>, e: DragEnd, i: nat)
    requires e.over.Some? && e.over.value !in Columns && FindTask(tasks, e.active) == Some(i)
    ensures FindTask(tasks, e.over.value).None? ==> DragEndUpdate(tasks, e) == None
    ensures FindTask(tasks, e.over.value).Some? ==>
      var j := FindTask(tasks, e.over.value).value;
      DragEndUpdate(tasks, e) == if tasks[i].status != tasks[j].status
        then Some(StatusUpdate(e.active, tasks[j].status)) else None
  {
  }

  // ---- priority chips ------------------------------------------------------

  /** The `colors` record of `getPriorityColor`. */
  const PriorityColors: map<string, string> := map["high" := "#d32f2f", "medium" := "#f57c00", "low" := "#388e3c"]

  /** The `labels` record of `getPriorityLabel`. */
  const PriorityLabels: map<string, string> := map["high" := "High", "medium" := "Medium", "low" := "Low"]

  /** `getPriorityColor`: `colors[priority] || '#1976d2'`. */
  function PriorityColor(priority: string): Prop<string>
  {
    IndexOr(PriorityColors, priority, "#1976d2")
  }

  /** `getPriorityLabel`: `labels[priority] || 'Normal'`. */
  function PriorityLabel(priority: string): Prop<string>
  {
    IndexOr(PriorityLabels, priority, "Normal")
  }

  /**
   * Exactly low, medium and high have their own chip; a priority named
   * like a member of `Object.prototype` reads that member in both
   * records; every other priority, 'critical' included, gets 'Normal' in
   * the default colour.
   */
  lemma PriorityChips(priority: string)
    ensures PriorityLabel(priority) == Own("Normal") <==> priority !in ["low", "medium", "high"] && priority !in PrototypeNames
    ensures PriorityLabel(priority).Inherited? <==> priority in PrototypeNames
    ensures PriorityColor(priority) == Own("#1976d2") <==> PriorityLabel(priority) == Own("Normal")
    ensures PriorityColor(priority).Inherited? <==> PriorityLabel(priority).Inherited?
    ensures PriorityLabel("critical") == Own("Normal") && PriorityColor("critical") == Own("#1976d2")
  {
  }

  // ---- the board's forms ---------------------------------------------------

  /** The task `handleCreateTask` hands to `onTaskCreate`. */
  datatype NewTask = NewTask(
    title: string, description: string, status: string, priority: string, projectId: int,
    assigneeId: Option<int>, dueDate: string, estimatedHours: int, actualHours: int)

  /** One field of the edit dialog. */
  datatype EditInput = EditTitle(s: string) | EditDescription(s: string) | EditPriority(s: string) | EditStatus(s: string)

  /** `{ ...editingTask, [field]: value }`. */
  function ApplyEdit(t: Task, i: EditInput): (r: Task)
    ensures r.id == t.id && r.projectId == t.projectId && r.assigneeId == t.assigneeId
    ensures i.EditStatus? ==> r == t.(status := i.s)
    ensures !i.EditStatus? ==> r.status == t.status
  {
    match i
    case EditTitle(s) => t.(title := s)
    case EditDescription(s) => t.(description := s)
    case EditPriority(s) => t.(priority := s)
    case EditStatus(s) => t.(status := s)
  }

  /** What one call of `handleCreateTask` did. */
  datatype CreateOutcome = Ignored | AlertedNoProject | Created(task: NewTask)

  /**
   * The board's local state: the column whose "+" was clicked, the new-task
   * form, the task being edited and the card being dragged.
   */
  datatype BoardState = BoardState(
    creatingTask: Option<string>, title: string, description: string, priority: string,
    assigneeId: Option<int>, editingTask: Option<Task>, draggedTask: Option<Task>)

  /**
   * The mounted board. Its `useState` hooks are the fields of `state`; each
   * setter call is a field update of that record.
   */
  class Board {
    var state: BoardState

    constructor ()
      ensures state == BoardState(None, "", "", "medium", None, None, None)
    {
      state := BoardState(None, "", "", "medium", None, None, None);
    }

    /** A column's "+" button opens the new-task form for that column. */
    method OpenCreate(column: string)
      requires column in Columns
      modifies this
      ensures state == old(state).(creatingTask := Some(column))
    {
      state := state.(creatingTask := Some(column));
    }

    /** The new-task form's Cancel closes it and keeps what was typed. */
    method CancelCreate()
      modifies this
      ensures state == old(state).(creatingTask := None)
    {
      state := state.(creatingTask := None);
    }

    /** The new-task form's fields; an empty assignee choice is `null`. */
    method SetNewTask(t: string, d: string, p: string, a: Option<int>)
      modifies this
      ensures state == old(state).(title := t, description := d, priority := p, assigneeId := a)
    {
      state := state.(title := t);
      state := state.(description := d);
      state := state.(priority := p);
      state := state.(assigneeId := a);
    }

    /** `handleEditTask`: a card's edit button opens the dialog on that task. */
    method HandleEditTask(t: Task)
      modifies this
      ensures state == old(state).(editingTask := Some(t))
    {
      state := state.(editingTask := Some(t));
    }

    /** A field of the edit dialog changes the task being edited, if there is one. */
    method ChangeEditing(i: EditInput)
      modifies this
      ensures old(state).editingTask.None? ==> state == old(state)
      ensures old(state).editingTask.Some? ==>
        state == old(state).(editingTask := Some(ApplyEdit(old(state).editingTask.value, i)))
    {
      if state.editingTask.Some? {
        state := state.(editingTask := Some(ApplyEdit(state.editingTask.value, i)));
      }
    }

    /** The edit dialog's Cancel drops the edit. */
    method CancelEdit()
      modifies this
      ensures state == old(state).(editingTask := None)
    {
      state := state.(editingTask := None);
    }

    /**
     * `handleCreateTask`; `today` is the date part of the current time. An
     * open form with a non-blank title creates a task in the clicked column,
     * with no hours booked, and resets the form; without a project it only
     * alerts.
     */
    method HandleCreateTask(selectedProjectId: Option<int>, today: string) returns (out: CreateOutcome)
      modifies this
      ensures old(state).creatingTask.None? || IsBlank(old(state).title) ==> out == Ignored && state == old(state)
      ensures old(state).creatingTask.Some? && !IsBlank(old(state).title) && selectedProjectId.GetOr(0) == 0 ==>
        out == AlertedNoProject && state == old(state)
      ensures old(state).creatingTask.Some? && !IsBlank(old(state).title) && selectedProjectId.GetOr(0) != 0 ==>
        out == Created(NewTask(old(state).title, old(state).description, old(state).creatingTask.value,
          old(state).priority, selectedProjectId.value, old(state).assigneeId, today, 0, 0))
        && state == old(state).(creatingTask := None, title := "", description := "", priority := "medium",
                                assigneeId := None)
    {
      TrimEmptyIffBlank(state.title);
      if state.creatingTask.None? || Trim(state.title) == "" {
        return Ignored;
      }
      if selectedProjectId.None? || selectedProjectId.value == 0 {
        return AlertedNoProject;
      }
      out := Created(NewTask(state.title, state.description, state.creatingTask.value, state.priority,
        selectedProjectId.value, state.assigneeId, today, 0, 0));
      state := state.(title := "");
      state := state.(description := "");
      state := state.(priority := "medium");
      state := state.(assigneeId := None);
      state := state.(creatingTask := None);
    }

    /** `handleSaveEdit`: sends the whole edited task under its id and closes the dialog. */
    method HandleSaveEdit() returns (sent: Option<(string, Task)>)
      modifies this
      ensures old(state).editingTask.None? ==> sent == None && state == old(state)
      ensures old(state).editingTask.Some? ==>
        sent == Some((IntToString(old(state).editingTask.value.id), old(state).editingTask.value))
        && state == old(state).(editingTask := None)
    {
      if state.editingTask.None? {
        return None;
      }
      sent := Some((IntToString(state.editingTask.value.id), state.editingTask.value));
      state := state.(editingTask := None);
    }

    /** `handleDragStart`: remembers the dragged card, or none when no task has that id. */
    method HandleDragStart(tasks: seq<Task>, active: string)
      modifies this
      ensures FindTask(tasks, active).None? ==> state == old(state).(draggedTask := None)
      ensures FindTask(tasks, active).Some? ==>
        state == old(state).(draggedTask := Some(tasks[FindTask(tasks, active).value]))
    {
      match FindTask(tasks, active)
      case None => state := state.(draggedTask := None);
      case Some(i) => state := state.(draggedTask := Some(tasks[i]));
    }

    /** `handleDragEnd`: clears the dragged card, then asks for at most one update. */
    method HandleDragEnd(tasks: seq<Task>, e: DragEnd) returns (update: Option<StatusUpdate>)
      modifies this
      ensures update == DragEndUpdate(tasks, e)
      ensures state == old(state).(draggedTask := None)
    {
      state := state.(draggedTask := None);
      update := DragEndUpdate(tasks, e);
    }
  }
}
