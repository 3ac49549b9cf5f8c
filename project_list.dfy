/**
 * The project grid: a search box and a status select narrow the projects
 * shown; both are controlled by the parent.
 */
module ProjectList {
  import opened Text
  import opened Seqs
  import opened Models

  /** The options of the status select; "" is "All Status". */
  const StatusOptions: seq<string> := ["", "planning", "active", "on_hold", "completed"]

  predicate MatchesSearch(p: Project, term: string)
  {
    Includes(ToLower(p.name), ToLower(term))
  }

  predicate MatchesStatus(p: Project, status: string)
  {
    status == "" || p.status == status
  }

  function Shown(term: string, status: string): Project -> bool
  {
    (p: Project) => MatchesSearch(p, term) && MatchesStatus(p, status)
  }

  /**
   * `filteredProjects`: the projects whose name contains the search term,
   * ignoring ASCII case, and whose status is the chosen one unless none is.
   */
  function FilteredProjects(projects: seq<Project>, term: string, status: string): (r: seq<Project>)
    ensures forall p :: p in r <==>
      p in projects && Contains(ToLower(p.name), ToLower(term)) && (status == "" || p.status == status)
    ensures Subseq(r, projects)
  {
    var r := Filter(projects, Shown(term, status));
    forall p | p in projects && Shown(term, status)(p) ensures p in r {
      var i :| 0 <= i < |projects| && projects[i] == p;
    }
    FilterIsSubseq(projects, Shown(term, status));
    r
  }

  /** With an empty search and "All Status", every project is shown in order. */
  lemma NoFilterShowsAll(projects: seq<Project>)
    ensures FilteredProjects(projects, "", "") == projects
  {
    forall i | 0 <= i < |projects| ensures Shown("", "")(projects[i]) {
      ContainsEmpty(ToLower(projects[i].name));
    }
    FilterAllTrue(projects, Shown("", ""));
  }

  /** Lower-casing distributes over concatenation. */
  lemma ToLowerAppend(a: string, b: string)
    ensures ToLower(a + b) == ToLower(a) + ToLower(b)
  {
  }

  /** Typing more into the search box can only hide projects. */
  lemma LongerTermNarrows(projects: seq<Project>, term: string, more: string, status: string)
    ensures Subseq(FilteredProjects(projects, term + more, status), FilteredProjects(projects, term, status))
  {
    forall p | Shown(term + more, status)(p) ensures Shown(term, status)(p) {
      ToLowerAppend(term, more);
      assert OccursAt(ToLower(term + more), ToLower(term), 0) by {
        assert ToLower(term + more)[..|ToLower(term)|] == ToLower(term);
      }
      ContainsTrans(ToLower(p.name), ToLower(term + more), ToLower(term));
    }
    FilterWeaker(projects, Shown(term + more, status), Shown(term, status));
  }

  /** Choosing a status can only hide projects. */
  lemma StatusNarrows(projects: seq<Project>, term: string, status: string)
    ensures Subseq(FilteredProjects(projects, term, status), FilteredProjects(projects, term, ""))
  {
    FilterWeaker(projects, Shown(term, status), Shown(term, ""));
  }

  /** The search ignores the case of what is typed. */
  lemma SearchIgnoresCase(projects: seq<Project>, term: string, status: string)
    ensures FilteredProjects(projects, ToUpper(term), status) == FilteredProjects(projects, term, status)
  {
    assert ToLower(ToUpper(term)) == ToLower(term);
    FilterCongruent(projects, Shown(ToUpper(term), status), Shown(term, status));
  }

  /** Every option but "All Status" is a project status. */
  lemma StatusOptionsKnown()
    ensures forall i :: 1 <= i < |StatusOptions| ==> ParseProjectStatus(StatusOptions[i]).Some?
  {
  }
}
