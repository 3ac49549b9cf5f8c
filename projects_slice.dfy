/**
 * The projects slice: the selected project, the list filters and the sort
 * order. `Reduce` specifies the reducers; `Store` assigns the draft's fields
 * in place.
 */
module ProjectsSlice {
  import opened Wrappers
  import opened Models

  datatype SortBy = ByName | ByCreatedAt | ByStatus | ByPriority
  datatype SortOrder = Asc | Desc

  /** `ProjectsState`. */
  datatype State = State(
    selectedProjectId: Option<int>, filters: ProjectFilters, sortBy: SortBy, sortOrder: SortOrder)

  const Initial := State(None, NoProjectFilters, ByCreatedAt, Desc)

  datatype Action =
    | SetSelectedProject(project: Option<int>)
    | SetFilters(newFilters: ProjectFilters)
    | SetStatusFilter(status: Option<ProjectStatus>)
    | SetTeamFilter(teamId: Option<int>)
    | SetSearchFilter(search: Option<string>)
    | SetSorting(key: SortBy, order: SortOrder)
    | ClearFilters

  function Reduce(s: State, a: Action): State
  {
    match a
    case SetSelectedProject(p) => s.(selectedProjectId := p)
    case SetFilters(f) => s.(filters := f)
    case SetStatusFilter(x) => s.(filters := s.filters.(status := x))
    case SetTeamFilter(x) => s.(filters := s.filters.(teamId := x))
    case SetSearchFilter(x) => s.(filters := s.filters.(search := x))
    case SetSorting(b, o) => s.(sortBy := b, sortOrder := o)
    case ClearFilters => s.(filters := NoProjectFilters)
  }

  lemma InitialState()
    ensures Initial.sortBy == ByCreatedAt && Initial.sortOrder == Desc
    ensures Initial.selectedProjectId.None? && Initial.filters == ProjectFilters(None, None, None, None)
  {
  }

  /** `setSorting` sets both sort fields together and nothing else. */
  lemma SortingTogether(s: State, b: SortBy, o: SortOrder)
    ensures var r := Reduce(s, SetSorting(b, o));
      r.sortBy == b && r.sortOrder == o && r.filters == s.filters && r.selectedProjectId == s.selectedProjectId
  {
  }

  /** Each filter setter changes only its own field; the owner filter is never touched by them. */
  lemma FilterSettersLocal(s: State, a: Action)
    requires a.SetStatusFilter? || a.SetTeamFilter? || a.SetSearchFilter?
    ensures var r := Reduce(s, a);
      r.selectedProjectId == s.selectedProjectId && r.sortBy == s.sortBy && r.sortOrder == s.sortOrder
      && r.filters.ownerId == s.filters.ownerId
      && (r.filters.status == if a.SetStatusFilter? then a.status else s.filters.status)
      && (r.filters.teamId == if a.SetTeamFilter? then a.teamId else s.filters.teamId)
      && (r.filters.search == if a.SetSearchFilter? then a.search else s.filters.search)
  {
  }

  /** `setFilters` replaces the filters, `clearFilters` empties them; selection and sorting stay. */
  lemma FiltersReplaced(s: State, f: ProjectFilters)
    ensures Reduce(s, SetFilters(f)) == s.(filters := f)
    ensures Reduce(s, ClearFilters) == Reduce(s, SetFilters(NoProjectFilters))
  {
  }

  lemma SelectOnly(s: State, p: Option<int>)
    ensures Reduce(s, SetSelectedProject(p)) == s.(selectedProjectId := p)
  {
  }

  /** Every reducer is idempotent. */
  lemma ReduceIdempotent(s: State, a: Action)
    ensures Reduce(Reduce(s, a), a) == Reduce(s, a)
  {
  }

  class Store {
    var selectedProjectId: Option<int>
    var filters: ProjectFilters
    var sortBy: SortBy
    var sortOrder: SortOrder

    function Current(): State
      reads this
    {
      State(selectedProjectId, filters, sortBy, sortOrder)
    }

    constructor ()
      ensures Current() == Initial
    {
      selectedProjectId := None;
      filters := NoProjectFilters;
      sortBy := ByCreatedAt;
      sortOrder := Desc;
    }

    method Dispatch(a: Action)
      modifies this
      ensures Current() == Reduce(old(Current()), a)
    {
      match a
      case SetSelectedProject(p) => selectedProjectId := p;
      case SetFilters(f) => filters := f;
      case SetStatusFilter(x) => filters := filters.(status := x);
      case SetTeamFilter(x) => filters := filters.(teamId := x);
      case SetSearchFilter(x) => filters := filters.(search := x);
      case SetSorting(b, o) =>
        sortBy := b;
        sortOrder := o;
      case ClearFilters => filters := NoProjectFilters;
    }
  }
}
