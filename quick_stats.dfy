/** The four counters at the top of the dashboard; each links to its page. */
module QuickStats {
  import opened Wrappers
  import opened Seqs
  import opened Models

  datatype Stat = Stat(caption: string, value: nat, route: string)

  predicate IsActive(p: Project)
  {
    p.status == "active"
  }

  /** `list?.length ?? 0`. */
  function LengthOr0<T>(list: Option<seq<T>>): (n: nat)
    ensures list.None? ==> n == 0
    ensures list.Some? ==> n == |list.value|
  {
    if list.Some? then |list.value| else 0
  }

  /** `projects?.filter(p => p.status === "active").length ?? 0`. */
  function ActiveCount(projects: Option<seq<Project>>): (n: nat)
    ensures n <= LengthOr0(projects)
    ensures projects.Some? ==> n == Count(projects.value, IsActive)
  {
    if projects.Some? then Count(projects.value, IsActive) else 0
  }

  /** `stats`: the totals of projects, active projects, tasks and users. */
  function Stats(projects: Option<seq<Project>>, tasks: Option<seq<Task>>, users: Option<seq<User>>): (r: seq<Stat>)
    ensures |r| == 4
    ensures r[0] == Stat("Total Projects", LengthOr0(projects), "/projects")
    ensures r[1] == Stat("Active Projects", ActiveCount(projects), "/projects")
    ensures r[2] == Stat("Total Tasks", LengthOr0(tasks), "/tasks")
    ensures r[3] == Stat("Team Members", LengthOr0(users), "/members")
    ensures r[1].value <= r[0].value
  {
    [Stat("Total Projects", LengthOr0(projects), "/projects"),
     Stat("Active Projects", ActiveCount(projects), "/projects"),
     Stat("Total Tasks", LengthOr0(tasks), "/tasks"),
     Stat("Team Members", LengthOr0(users), "/members")]
  }

  /** The captions are the cards' React keys, so they must differ. */
  lemma LabelsDistinct(projects: Option<seq<Project>>, tasks: Option<seq<Task>>, users: Option<seq<User>>)
    ensures var r := Stats(projects, tasks, users);
      forall i, j :: 0 <= i < j < |r| ==> r[i].caption != r[j].caption
  {
    var r := Stats(projects, tasks, users);
    assert r[0].caption[0] == 'T' && r[1].caption[0] == 'A' && r[3].caption[0] == 'T';
    assert r[0].caption[6] == 'P' && r[2].caption[6] == 'T';
    assert r[2].caption[0] == 'T' && r[3].caption[1] == 'e' && r[0].caption[1] == 'o' && r[2].caption[1] == 'o';
  }

  /** Lists that are not loaded yet count as zero. */
  lemma NothingLoadedIsZero()
    ensures forall i :: 0 <= i < 4 ==> Stats(None, None, None)[i].value == 0
  {
  }

  /** How many elements of `s` satisfy `p`; 0 only when none does. */
  lemma {:induction false} CountAll<T>(s: seq<T>, p: T -> bool)
    ensures Count(s, p) == |s| <==> forall i :: 0 <= i < |s| ==> p(s[i])
    ensures Count(s, p) == 0 <==> forall i :: 0 <= i < |s| ==> !p(s[i])
  {
    if s != [] {
      CountAll(s[1..], p);
      assert forall i :: 1 <= i < |s| ==> s[i] == s[1..][i - 1];
      assert Filter(s, p) == if p(s[0]) then [s[0]] + Filter(s[1..], p) else Filter(s[1..], p);
      if forall i :: 1 <= i < |s| ==> p(s[i]) {
        assert forall i :: 0 <= i < |s[1..]| ==> p(s[1..][i]) by {
          forall i | 0 <= i < |s[1..]| ensures p(s[1..][i]) { assert s[1..][i] == s[i + 1]; }
        }
      }
      if forall i :: 1 <= i < |s| ==> !p(s[i]) {
        assert forall i :: 0 <= i < |s[1..]| ==> !p(s[1..][i]) by {
          forall i | 0 <= i < |s[1..]| ensures !p(s[1..][i]) { assert s[1..][i] == s[i + 1]; }
        }
      }
    }
  }

  /**
   * The active counter equals the total exactly when every project is
   * active, and is zero exactly when none is.
   */
  lemma ActiveCounter(projects: seq<Project>, tasks: Option<seq<Task>>, users: Option<seq<User>>)
    ensures var r := Stats(Some(projects), tasks, users);
      (r[1].value == r[0].value <==> forall i :: 0 <= i < |projects| ==> projects[i].status == "active")
      && (r[1].value == 0 <==> forall i :: 0 <= i < |projects| ==> projects[i].status != "active")
  {
    CountAll(projects, IsActive);
  }

  /** The cards show skeletons while any of the three lists is loading. */
  predicate ShowsSkeletons(isLoadingProjects: bool, isLoadingTasks: bool, isLoadingUsers: bool)
  {
    isLoadingProjects || isLoadingTasks || isLoadingUsers
  }
}
