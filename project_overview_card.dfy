/**
 * A dashboard card for one project: its status chip, its task count and
 * up to three member avatars.
 */
module ProjectOverviewCard {
  import opened Wrappers
  import opened Text
  import opened Seqs
  import opened Models
  import opened Records
  import ProjectDetail

  function InProject(p: Project): Task -> bool
  {
    (t: Task) => t.projectId == p.id
  }

  /** `projectTasks`: the tasks of this project, in the given order. */
  function ProjectTasks(tasks: seq<Task>, p: Project): (r: seq<Task>)
    ensures forall t :: t in r <==> t in tasks && t.projectId == p.id
    ensures Subseq(r, tasks)
  {
    var r := Filter(tasks, InProject(p));
    forall t | t in tasks && t.projectId == p.id ensures t in r {
      var i :| 0 <= i < |tasks| && tasks[i] == t;
      assert InProject(p)(tasks[i]);
    }
    FilterIsSubseq(tasks, InProject(p));
    r
  }

  /**
   * `statusLabel`: the status split at `_`, each word capitalised, joined
   * with spaces.
   */
  function StatusLabel(status: string): (r: string)
    ensures |r| == |status|
    ensures forall k :: 0 <= k < |status| ==>
      r[k] == TitleCaseAt(status, '_')[k]
  {
    TitleWordsAt(status, '_');
    TitleWords(status, '_')
  }

  /** `on_hold` reads "On Hold". */
  lemma OnHoldLabel(s: string)
    requires s == "on_hold"
    ensures StatusLabel(s) == "On Hold"
  {
    var r := StatusLabel(s);
    assert r[0] == 'O' && r[1] == 'n' && r[2] == ' ' && r[3] == 'H';
  }

  /** `statusMap`. */
  const StatusColors: map<string, string> :=
    map["planning" := "default", "active" := "success", "on_hold" := "warning", "completed" := "info"]

  /**
   * `getStatusColor`: the four project statuses have their colours; a
   * status named like a member of `Object.prototype` reads that member;
   * anything else is "default".
   */
  function StatusColor(status: string): (c: Prop<string>)
    ensures c == match ParseProjectStatus(status)
      case Some(Planning) => Own("default")
      case Some(Active) => Own("success")
      case Some(OnHold) => Own("warning")
      case Some(Completed) => Own("info")
      case None => if status in PrototypeNames then Inherited(status) else Own("default")
  {
    IndexOr(StatusColors, status, "default")
  }

  /** The avatars drawn: the first three members at most. */
  function Avatars(members: seq<User>): (r: seq<User>)
    ensures |r| <= 3 && |r| <= |members| && r == members[..|r|]
    ensures |members| >= 3 ==> |r| == 3
    ensures |members| < 3 ==> r == members
  {
    if |members| > 0 then Take(members, 3) else []
  }

  /** The label of a one-word status is the word capitalised. */
  lemma OneWordLabel(s: string)
    requires '_' !in s
    ensures StatusLabel(s) == Capitalize(s)
  {
    var r := StatusLabel(s);
    forall k | 0 <= k < |s| ensures r[k] == Capitalize(s)[k] {
      assert s[k] != '_';
      assert k > 0 ==> s[k - 1] != '_';
    }
  }

  /** `handleCardClick`: the project's page, `/projects/${project.id}`. */
  function CardRoute(p: Project): string
  {
    "/projects/" + IntToString(p.id)
  }

  /** Cards of different projects lead to different pages. */
  lemma CardRoutesDistinct(p: Project, q: Project)
    ensures CardRoute(p) == CardRoute(q) <==> p.id == q.id
  {
    IntToStringInjective(p.id, q.id);
    if CardRoute(p) == CardRoute(q) {
      assert CardRoute(p)[10..] == IntToString(p.id);
      assert CardRoute(q)[10..] == IntToString(q.id);
    }
  }

  /**
   * The page a card opens is the edit page of that very project: its route
   * parameter parses back to the project's id, and it lists the same tasks.
   */
  lemma CardOpensItsProject(p: Project, tasks: seq<Task>)
    ensures var id := Some(CardRoute(p)[10..]);
      !ProjectDetail.IsNewProject(id) && ProjectDetail.RouteNumber(id) == Some(p.id)
      && forall t :: t in ProjectDetail.ProjectTasks(tasks, id) <==> t in ProjectTasks(tasks, p)
  {
    var s := CardRoute(p)[10..];
    assert s == IntToString(p.id);
    assert s != "new" by { assert s[0] != 'n'; }
    ParseIntToString(p.id);
  }

  /** What the card shows. */
  datatype Card = Card(project: Project, statusLabel: string, statusColor: Prop<string>, taskCount: nat,
                       avatars: seq<User>)

  function CardFor(p: Project, tasks: seq<Task>, members: seq<User>): (c: Card)
    ensures c.project == p && c.taskCount == |ProjectTasks(tasks, p)| && c.avatars == Avatars(members)
    ensures c.statusLabel == StatusLabel(p.status) && c.statusColor == StatusColor(p.status)
  {
    Card(p, StatusLabel(p.status), StatusColor(p.status), |ProjectTasks(tasks, p)|, Avatars(members))
  }
}
