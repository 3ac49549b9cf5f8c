/** The figures the reports page derives from the project and task lists. */
module Reports {
  import opened Wrappers
  import opened Seqs
  import opened Models
  import Formatters
  import Text
  import Exporters

  /** One entry of a chart: a label, a number and a colour. */
  datatype Entry = Entry(name: string, value: int, color: string)

  const StatusColors: seq<string> := ["#64748B", "#3B82F6", "#F59E0B", "#A855F7", "#10B981"]
  const PriorityColors: seq<string> := ["#10B981", "#3B82F6", "#F59E0B", "#EF4444"]

  /**
   * `taskDistribution`: the five status entries in fixed order, each counting
   * the tasks whose status (a missing one read as backlog) is that column.
   */
  method TaskDistribution(tasks: seq<Task>) returns (r: seq<Entry>)
    ensures |r| == 5
    ensures forall i :: 0 <= i < 5 ==>
      r[i] == Entry(Exporters.StatusTypes[i], Exporters.StatusTally(tasks, Exporters.StatusKeys[i]), StatusColors[i])
  {
    var counts := Exporters.CountStatuses(tasks);
    r := [
      Entry("Backlog", counts["backlog"], "#64748B"),
      Entry("To Do", counts["todo"], "#3B82F6"),
      Entry("In Progress", counts["in_progress"], "#F59E0B"),
      Entry("Review", counts["review"], "#A855F7"),
      Entry("Done", counts["done"], "#10B981")];
  }

  /** `priorityBreakdown`: four entries, a missing priority counted as medium. */
  method PriorityBreakdown(tasks: seq<Task>) returns (r: seq<Entry>)
    ensures |r| == 4
    ensures forall i :: 0 <= i < 4 ==>
      r[i] == Entry(Exporters.PriorityTypes[i], Exporters.PriorityTally(tasks, Exporters.PriorityKeys[i]), PriorityColors[i])
  {
    var counts := Exporters.CountPriorities(tasks);
    r := [
      Entry("Low", counts["low"], "#10B981"),
      Entry("Medium", counts["medium"], "#3B82F6"),
      Entry("High", counts["high"], "#F59E0B"),
      Entry("Critical", counts["critical"], "#EF4444")];
  }

  /** The sum of the chart values. */
  function Total(entries: seq<Entry>): int
  {
    if entries == [] then 0 else entries[0].value + Total(entries[1..])
  }

  /** The status chart adds up to the tasks whose status is known or missing. */
  lemma DistributionTotal(tasks: seq<Task>, r: seq<Entry>)
    requires |r| == 5
    requires forall i :: 0 <= i < 5 ==>
      r[i] == Entry(Exporters.StatusTypes[i], Exporters.StatusTally(tasks, Exporters.StatusKeys[i]), StatusColors[i])
    ensures Total(r) == Count(tasks, Exporters.Counted) <= |tasks|
  {
    TotalOfFive(r);
    assert r[2] == Entry("In Progress", Exporters.StatusTally(tasks, "in_progress"), "#F59E0B");
    Exporters.StatusTotalBound(tasks);
  }

  lemma TotalOfFive(r: seq<Entry>)
    requires |r| == 5
    ensures Total(r) == r[0].value + r[1].value + r[2].value + r[3].value + r[4].value
  {
    var a := r[1..];
    var b := a[1..];
    var c := b[1..];
    var d := c[1..];
    assert a[0] == r[1] && b[0] == r[2] && c[0] == r[3] && d[0] == r[4];
    assert d[1..] == [];
    assert Total(d) == d[0].value;
    assert Total(c) == c[0].value + Total(d);
    assert Total(b) == b[0].value + Total(c);
    assert Total(a) == a[0].value + Total(b);
  }

  /** The sum of the four priority tallies. */
  function PriorityTotal(tasks: seq<Task>): nat
  {
    Exporters.PriorityTally(tasks, "low") + Exporters.PriorityTally(tasks, "medium")
      + Exporters.PriorityTally(tasks, "high") + Exporters.PriorityTally(tasks, "critical")
  }

  /** A priority counts when it is one of the four or missing. */
  predicate PriorityCounted(t: Task)
  {
    Exporters.EffectivePriority(t) in Exporters.PriorityKeys
  }

  /** The priority chart counts every task at most once, and all when no priority is unknown. */
  lemma {:induction false} PriorityTotalBound(tasks: seq<Task>)
    ensures PriorityTotal(tasks) == Count(tasks, PriorityCounted)
    ensures PriorityTotal(tasks) <= |tasks|
    ensures (forall i :: 0 <= i < |tasks| ==> PriorityCounted(tasks[i])) ==> PriorityTotal(tasks) == |tasks|
  {
    if tasks != [] {
      PriorityTotalBound(tasks[1..]);
      CountCons(tasks, Exporters.HasPriority("low"));
      CountCons(tasks, Exporters.HasPriority("medium"));
      CountCons(tasks, Exporters.HasPriority("high"));
      CountCons(tasks, Exporters.HasPriority("critical"));
      CountCons(tasks, PriorityCounted);
      PriorityHead(tasks[0]);
      assert forall i :: 0 <= i < |tasks[1..]| ==> tasks[1..][i] == tasks[i + 1];
    }
  }

  /** A counted task is in exactly one of the four tallies; any other in none. */
  lemma PriorityHead(t: Task)
    ensures (if PriorityCounted(t) then 1 else 0) ==
      (if Exporters.HasPriority("low")(t) then 1 else 0) + (if Exporters.HasPriority("medium")(t) then 1 else 0)
      + (if Exporters.HasPriority("high")(t) then 1 else 0) + (if Exporters.HasPriority("critical")(t) then 1 else 0)
  {
    var e := Exporters.EffectivePriority(t);
    assert PriorityCounted(t) <==> e == "low" || e == "medium" || e == "high" || e == "critical";
  }

  // ---- time metrics --------------------------------------------------------

  /** `tasks.reduce((sum, t) => sum + (t.estimatedHours || 0), 0)`. */
  function TotalEstimated(tasks: seq<Task>): int
  {
    if tasks == [] then 0 else TotalEstimated(tasks[..|tasks| - 1]) + tasks[|tasks| - 1].estimatedHours
  }

  function TotalActual(tasks: seq<Task>): int
  {
    if tasks == [] then 0 else TotalActual(tasks[..|tasks| - 1]) + tasks[|tasks| - 1].actualHours
  }

  /** The totals of two lists put together are the sums of their totals. */
  lemma {:induction false} TotalsAdd(a: seq<Task>, b: seq<Task>)
    ensures TotalEstimated(a + b) == TotalEstimated(a) + TotalEstimated(b)
    ensures TotalActual(a + b) == TotalActual(a) + TotalActual(b)
    decreases |b|
  {
    if b == [] {
      assert a + b == a;
    } else {
      var b' := b[..|b| - 1];
      assert (a + b)[..|a + b| - 1] == a + b';
      TotalsAdd(a, b');
    }
  }

  /** `timeMetrics`: estimated, actual and the variance shown only when positive. */
  function TimeMetrics(tasks: seq<Task>): (r: seq<Entry>)
    ensures |r| == 3 && r[0].value == TotalEstimated(tasks) && r[1].value == TotalActual(tasks)
    ensures r[2].value >= 0 && r[2].value >= r[0].value - r[1].value
    ensures r[2].value == 0 || r[2].value == r[0].value - r[1].value
  {
    var est := TotalEstimated(tasks);
    var act := TotalActual(tasks);
    var variance := est - act;
    [Entry("Estimated", est, ""), Entry("Actual", act, ""),
     Entry("Variance", if variance > 0 then variance else 0, "")]
  }

  // ---- project progress ----------------------------------------------------

  /** One bar of the progress chart. */
  datatype Progress = Progress(name: string, progress: int, tasks: nat)

  /** `p.name.substring(0, 15)`. */
  function ShortName(name: string): (r: string)
    ensures |r| == if |name| < 15 then |name| else 15
    ensures r == name[..|r|]
  {
    if |name| < 15 then name else name[..15]
  }

  /** `tasks.filter(t => t.projectId === id).length`. */
  function ProjectTaskCount(tasks: seq<Task>, id: int): nat
  {
    Count(tasks, (t: Task) => t.projectId == id)
  }

  /** `projectProgress`: one bar per project, in project order. */
  function ProjectProgress(projects: seq<Project>, tasks: seq<Task>): (r: seq<Progress>)
    ensures |r| == |projects|
    ensures forall i :: 0 <= i < |projects| ==>
      r[i].name == ShortName(projects[i].name) && r[i].progress == projects[i].progress.GetOr(0)
      && r[i].tasks == ProjectTaskCount(tasks, projects[i].id)
  {
    seq(|projects|, i requires 0 <= i < |projects| =>
      Progress(ShortName(projects[i].name), projects[i].progress.GetOr(0), ProjectTaskCount(tasks, projects[i].id)))
  }

  /** A project's bar counts at most all tasks, and exactly the tasks when all belong to it. */
  lemma ProjectCountBounds(tasks: seq<Task>, id: int)
    ensures ProjectTaskCount(tasks, id) <= |tasks|
    ensures (forall i :: 0 <= i < |tasks| ==> tasks[i].projectId == id) ==> ProjectTaskCount(tasks, id) == |tasks|
  {
    if forall i :: 0 <= i < |tasks| ==> tasks[i].projectId == id {
      FilterAllTrue(tasks, (t: Task) => t.projectId == id);
    }
  }

  // ---- summary -------------------------------------------------------------

  /** The completion-rate figure: `toFixed(0)` of the done share, or 0 with no tasks. */
  function CompletionPercent(tasks: seq<Task>): string
  {
    if |tasks| > 0 then Formatters.ToFixed(100 * Exporters.DoneCount(tasks), |tasks|, 0) else "0"
  }

  lemma DivIs(a: int, b: int, q: int)
    requires b > 0 && q * b <= a < q * b + b
    ensures a / b == q
  {
    var e := a / b - q;
    var m := a % b;
    assert a - q * b == e * b + m;
  }

  /** Rounding `k * n / n` gives back `k`. */
  lemma RoundWhole(k: nat, n: int)
    requires n > 0
    ensures Formatters.RoundHalfUp(k * n, n) == k
  {
    DivIs(2 * (k * n) + n, 2 * n, k);
  }

  /** `toFixed(0)` of a whole quotient `k * n / n` is `k`'s digits. */
  lemma FixedWhole(k: nat, n: int)
    requires n > 0
    ensures Formatters.ToFixed(k * n, n, 0) == Text.NatToString(k)
  {
    assert Text.Pow10(0) == 1;
    assert Formatters.Product(k * n, 1) == k * n;
    RoundWhole(k, n);
    assert Formatters.Quotient(k, 1) == k;
  }

  lemma CompletionAllDone(tasks: seq<Task>)
    requires tasks != [] && forall i :: 0 <= i < |tasks| ==> tasks[i].status == "done"
    ensures CompletionPercent(tasks) == "100"
  {
    FilterAllTrue(tasks, (t: Task) => t.status == "done");
    assert Exporters.DoneCount(tasks) == |tasks|;
    FixedWhole(100, |tasks|);
    Hundred();
  }

  lemma Hundred()
    ensures Text.NatToString(100) == "100"
  {
    assert Text.NatToString(10) == "10";
  }

  lemma CompletionNoneDone(tasks: seq<Task>)
    requires tasks != [] && forall i :: 0 <= i < |tasks| ==> tasks[i].status != "done"
    ensures CompletionPercent(tasks) == "0"
  {
    FilterNoneTrue(tasks, (t: Task) => t.status == "done");
    assert Exporters.DoneCount(tasks) == 0;
    FixedWhole(0, |tasks|);
    assert Text.NatToString(0) == "0";
  }

  /** All tasks done shows 100; none done shows 0. */
  lemma CompletionExtremes(tasks: seq<Task>)
    ensures (forall i :: 0 <= i < |tasks| ==> tasks[i].status == "done") && tasks != []
      ==> CompletionPercent(tasks) == "100"
    ensures (forall i :: 0 <= i < |tasks| ==> tasks[i].status != "done") ==> CompletionPercent(tasks) == "0"
  {
    if tasks != [] {
      if forall i :: 0 <= i < |tasks| ==> tasks[i].status == "done" {
        CompletionAllDone(tasks);
      }
      if forall i :: 0 <= i < |tasks| ==> tasks[i].status != "done" {
        CompletionNoneDone(tasks);
      }
    }
  }
}
