/**
 * The activity slice: the feed's filters and paging. Every filter change
 * returns to the first page; the page size is fixed.
 */
module ActivitySlice {
  import opened Wrappers
  import opened Models

  /** `ActivityState`. */
  datatype State = State(filters: ActivityFilters, page: int, pageSize: int)

  const Initial := State(NoActivityFilters, 1, 20)

  datatype Action =
    | SetFilters(newFilters: ActivityFilters)
    | SetEntityTypeFilter(entityType: Option<EntityType>)
    | SetUserFilter(userId: Option<int>)
    | SetPage(newPage: int)
    | ClearFilters

  function Reduce(s: State, a: Action): State
  {
    match a
    case SetFilters(f) => s.(filters := f, page := 1)
    case SetEntityTypeFilter(e) => s.(filters := s.filters.(entityType := e), page := 1)
    case SetUserFilter(u) => s.(filters := s.filters.(userId := u), page := 1)
    case SetPage(p) => s.(page := p)
    case ClearFilters => s.(filters := NoActivityFilters, page := 1)
  }

  lemma InitialState()
    ensures Initial == State(ActivityFilters(None, None, None, None), 1, 20)
  {
  }

  /** Only `setPage` moves off the first page. */
  lemma FilterChangesResetPage(s: State, a: Action)
    requires !a.SetPage?
    ensures Reduce(s, a).page == 1
  {
  }

  /** `setPage` changes the page and keeps the filters. */
  lemma SetPageOnly(s: State, p: int)
    ensures Reduce(s, SetPage(p)) == s.(page := p)
  {
  }

  /** No reducer changes the page size, so it stays 20 from the initial state on. */
  lemma PageSizeFixed(s: State, a: Action)
    ensures Reduce(s, a).pageSize == s.pageSize
  {
  }

  /** By induction over any sequence of actions from the initial state. */
  function ReduceAll(s: State, actions: seq<Action>): State
    decreases |actions|
  {
    if actions == [] then s else ReduceAll(Reduce(s, actions[0]), actions[1..])
  }

  lemma {:induction false} PageSizeAlways(s: State, actions: seq<Action>)
    ensures ReduceAll(s, actions).pageSize == s.pageSize
    decreases |actions|
  {
    if actions != [] {
      PageSizeFixed(s, actions[0]);
      PageSizeAlways(Reduce(s, actions[0]), actions[1..]);
    }
  }

  /** The single-field setters leave the other filter fields unchanged. */
  lemma FilterSettersLocal(s: State, a: Action)
    requires a.SetEntityTypeFilter? || a.SetUserFilter?
    ensures var f := Reduce(s, a).filters;
      f.startDate == s.filters.startDate && f.endDate == s.filters.endDate
      && (f.entityType == if a.SetEntityTypeFilter? then a.entityType else s.filters.entityType)
      && (f.userId == if a.SetUserFilter? then a.userId else s.filters.userId)
  {
  }

  class Store {
    var filters: ActivityFilters
    var page: int
    var pageSize: int

    function Current(): State
      reads this
    {
      State(filters, page, pageSize)
    }

    constructor ()
      ensures Current() == Initial
    {
      filters := NoActivityFilters;
      page := 1;
      pageSize := 20;
    }

    method Dispatch(a: Action)
      modifies this
      ensures Current() == Reduce(old(Current()), a)
    {
      match a
      case SetFilters(f) =>
        filters := f;
        page := 1;
      case SetEntityTypeFilter(e) =>
        filters := filters.(entityType := e);
        page := 1;
      case SetUserFilter(u) =>
        filters := filters.(userId := u);
        page := 1;
      case SetPage(p) => page := p;
      case ClearFilters =>
        filters := NoActivityFilters;
        page := 1;
    }
  }
}
