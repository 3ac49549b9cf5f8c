/**
 * The tasks slice: the selected and dragged task, the board filters and the
 * view mode. `Reduce` specifies the reducers; `Store` assigns the draft's
 * fields in place.
 */
module TasksSlice {
  import opened Wrappers
  import opened Models

  datatype ViewMode = Kanban | List

  /** `TasksState`. */
  datatype State = State(
    selectedTaskId: Option<int>, filters: TaskFilters, viewMode: ViewMode, draggedTaskId: Option<int>)

  const Initial := State(None, NoTaskFilters, Kanban, None)

  datatype Action =
    | SetSelectedTask(task: Option<int>)
    | SetFilters(newFilters: TaskFilters)
    | SetStatusFilter(status: Option<TaskStatus>)
    | SetPriorityFilter(priority: Option<Priority>)
    | SetProjectFilter(projectId: Option<int>)
    | SetAssigneeFilter(assigneeId: Option<int>)
    | SetSearchFilter(search: Option<string>)
    | SetViewMode(mode: ViewMode)
    | SetDraggedTask(dragged: Option<int>)
    | ClearFilters

  function Reduce(s: State, a: Action): State
  {
    match a
    case SetSelectedTask(t) => s.(selectedTaskId := t)
    case SetFilters(f) => s.(filters := f)
    case SetStatusFilter(x) => s.(filters := s.filters.(status := x))
    case SetPriorityFilter(x) => s.(filters := s.filters.(priority := x))
    case SetProjectFilter(x) => s.(filters := s.filters.(projectId := x))
    case SetAssigneeFilter(x) => s.(filters := s.filters.(assigneeId := x))
    case SetSearchFilter(x) => s.(filters := s.filters.(search := x))
    case SetViewMode(m) => s.(viewMode := m)
    case SetDraggedTask(d) => s.(draggedTaskId := d)
    case ClearFilters => s.(filters := NoTaskFilters)
  }

  /** Every reducer is idempotent: dispatching an action twice is dispatching it once. */
  lemma ReduceIdempotent(s: State, a: Action)
    ensures Reduce(Reduce(s, a), a) == Reduce(s, a)
  {
  }

  /** `setFilters` replaces all filters, whatever they were; `clearFilters` empties them. */
  lemma FiltersReplaced(s: State, t: State, f: TaskFilters)
    requires s.selectedTaskId == t.selectedTaskId && s.viewMode == t.viewMode && s.draggedTaskId == t.draggedTaskId
    ensures Reduce(s, SetFilters(f)) == Reduce(t, SetFilters(f))
    ensures Reduce(s, ClearFilters).filters == NoTaskFilters && Reduce(s, ClearFilters) == Reduce(s, SetFilters(NoTaskFilters))
  {
  }

  /** A single-field filter setter changes that field and keeps every other field of the state. */
  lemma FilterSettersLocal(s: State, a: Action)
    requires a.SetStatusFilter? || a.SetPriorityFilter? || a.SetProjectFilter? || a.SetAssigneeFilter? || a.SetSearchFilter?
    ensures var r := Reduce(s, a);
      r.selectedTaskId == s.selectedTaskId && r.viewMode == s.viewMode && r.draggedTaskId == s.draggedTaskId
      && (r.filters.status == if a.SetStatusFilter? then a.status else s.filters.status)
      && (r.filters.priority == if a.SetPriorityFilter? then a.priority else s.filters.priority)
      && (r.filters.projectId == if a.SetProjectFilter? then a.projectId else s.filters.projectId)
      && (r.filters.assigneeId == if a.SetAssigneeFilter? then a.assigneeId else s.filters.assigneeId)
      && (r.filters.search == if a.SetSearchFilter? then a.search else s.filters.search)
  {
  }

  /** Selection, view mode and drag each touch only their own field. */
  lemma SelectionSettersLocal(s: State, a: Action)
    requires a.SetSelectedTask? || a.SetViewMode? || a.SetDraggedTask?
    ensures var r := Reduce(s, a);
      r.filters == s.filters
      && (r.selectedTaskId == if a.SetSelectedTask? then a.task else s.selectedTaskId)
      && (r.viewMode == if a.SetViewMode? then a.mode else s.viewMode)
      && (r.draggedTaskId == if a.SetDraggedTask? then a.dragged else s.draggedTaskId)
  {
  }

  /** The initial state: nothing selected or dragged, no filters, the board view. */
  lemma InitialState()
    ensures Initial.selectedTaskId.None? && Initial.draggedTaskId.None?
    ensures Initial.filters == TaskFilters(None, None, None, None, None) && Initial.viewMode == Kanban
  {
  }

  /** The slice's draft, updated in place. */
  class Store {
    var selectedTaskId: Option<int>
    var filters: TaskFilters
    var viewMode: ViewMode
    var draggedTaskId: Option<int>

    function Current(): State
      reads this
    {
      State(selectedTaskId, filters, viewMode, draggedTaskId)
    }

    constructor ()
      ensures Current() == Initial
    {
      selectedTaskId := None;
      filters := NoTaskFilters;
      viewMode := Kanban;
      draggedTaskId := None;
    }

    method Dispatch(a: Action)
      modifies this
      ensures Current() == Reduce(old(Current()), a)
    {
      match a
      case SetSelectedTask(t) => selectedTaskId := t;
      case SetFilters(f) => filters := f;
      case SetStatusFilter(x) => filters := filters.(status := x);
      case SetPriorityFilter(x) => filters := filters.(priority := x);
      case SetProjectFilter(x) => filters := filters.(projectId := x);
      case SetAssigneeFilter(x) => filters := filters.(assigneeId := x);
      case SetSearchFilter(x) => filters := filters.(search := x);
      case SetViewMode(m) => viewMode := m;
      case SetDraggedTask(d) => draggedTaskId := d;
      case ClearFilters => filters := NoTaskFilters;
    }
  }
}
