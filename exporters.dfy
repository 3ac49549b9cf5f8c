/**
 * The report exports: the row objects built for the tasks, projects,
 * time-tracking and analytics CSV files, each handed to `convertToCSV`
 * without explicit headers, so the columns are the keys of the first row.
 */
module Exporters {
  import opened Wrappers
  import opened Text
  import opened Json
  import opened Seqs
  import opened Models
  import Csv
  import Formatters

  /** `projects.find(p => p.id === id)`, as the index of the first match. */
  function FindProject(projects: seq<Project>, id: int): (r: Option<nat>)
    ensures r.None? <==> forall i :: 0 <= i < |projects| ==> projects[i].id != id
    ensures r.Some? ==>
      r.value < |projects| && projects[r.value].id == id
      && forall i :: 0 <= i < r.value ==> projects[i].id != id
  {
    if projects == [] then None
    else if projects[0].id == id then Some(0)
    else match FindProject(projects[1..], id)
      case None => None
      case Some(i) => Some(i + 1)
  }

  /** `project?.name || 'N/A'`. */
  function ProjectLabel(projects: seq<Project>, id: int): string
  {
    match FindProject(projects, id)
    case None => "N/A"
    case Some(i) => if projects[i].name == "" then "N/A" else projects[i].name
  }

  /** `s || 'N/A'`. */
  function OrNA(s: string): string
  {
    if s == "" then "N/A" else s
  }

  // ---- tasks report --------------------------------------------------------

  const TaskColumns: seq<string> := [
    "Task ID", "Task Title", "Project", "Status", "Priority", "Assigned To",
    "Due Date", "Estimated Hours", "Actual Hours", "Variance", "Created", "Updated"]

  /** `task.assigneeId || 'Unassigned'`: id 0 is falsy too. */
  function Assignee(a: Option<int>): Value
  {
    match a
    case Some(n) => if n != 0 then Num(n) else Str("Unassigned")
    case None => Str("Unassigned")
  }

  /** The values of one tasks-report row, in column order. */
  function TaskValues(t: Task, projects: seq<Project>): (r: seq<Value>)
    ensures |r| == |TaskColumns|
  {
    [Num(t.id), Str(t.title), Str(ProjectLabel(projects, t.projectId)),
     Str(t.status), Str(t.priority), Assignee(t.assigneeId), Str(OrNA(t.dueDate)),
     Num(t.estimatedHours), Num(t.actualHours), Num(t.estimatedHours - t.actualHours),
     Str(t.createdAt), Str(t.updatedAt)]
  }

  /** The text of every field of a tasks-report line, as a reader sees it. */
  function TaskFields(t: Task, projects: seq<Project>): seq<string>
  {
    [IntToString(t.id), t.title, ProjectLabel(projects, t.projectId), t.status, t.priority,
     match t.assigneeId
     case Some(n) => if n != 0 then IntToString(n) else "Unassigned"
     case None => "Unassigned",
     OrNA(t.dueDate), IntToString(t.estimatedHours), IntToString(t.actualHours),
     IntToString(t.estimatedHours - t.actualHours), t.createdAt, t.updatedAt]
  }

  function TaskRows(tasks: seq<Task>, projects: seq<Project>): (r: seq<seq<Value>>)
    ensures |r| == |tasks| && forall i :: 0 <= i < |tasks| ==> r[i] == TaskValues(tasks[i], projects)
  {
    seq(|tasks|, i requires 0 <= i < |tasks| => TaskValues(tasks[i], projects))
  }

  /** The CSV text `exportTasksReport` downloads. */
  function TasksReportCsv(tasks: seq<Task>, projects: seq<Project>): string
  {
    Csv.ConvertToCsv(Csv.Table(TaskColumns, TaskRows(tasks, projects)), None)
  }

  lemma TaskColumnsDistinct()
    ensures Distinct(TaskColumns)
  {
  }

  lemma TaskFieldsRead(t: Task, projects: seq<Project>)
    ensures Csv.Texts(TaskValues(t, projects)) == TaskFields(t, projects)
  {
  }

  lemma TaskTexts(tasks: seq<Task>, projects: seq<Project>)
    ensures Csv.TextsAll(TaskRows(tasks, projects))
      == seq(|tasks|, i requires 0 <= i < |tasks| => TaskFields(tasks[i], projects))
  {
    var rows := TaskRows(tasks, projects);
    forall i | 0 <= i < |tasks| ensures Csv.TextsAll(rows)[i] == TaskFields(tasks[i], projects) {
      TaskFieldsRead(tasks[i], projects);
    }
  }

  /**
   * The tasks report reads back as the twelve column names, then one line
   * per task, in order, holding that task's fields.
   */
  lemma TasksReportReadsBack(tasks: seq<Task>, projects: seq<Project>)
    requires tasks != []
    ensures Csv.ParseCsv(TasksReportCsv(tasks, projects)) == Some([TaskColumns] +
      seq(|tasks|, i requires 0 <= i < |tasks| => TaskFields(tasks[i], projects)))
  {
    TaskColumnsDistinct();
    Csv.TableRoundTrip(TaskColumns, TaskRows(tasks, projects));
    TaskTexts(tasks, projects);
  }

  /** An empty task list exports an empty file. */
  lemma NoTasksEmptyReport(projects: seq<Project>)
    ensures TasksReportCsv([], projects) == ""
  {
  }

  // ---- projects report -----------------------------------------------------

  const ProjectColumns: seq<string> := [
    "Project ID", "Project Name", "Status", "Progress", "Start Date", "End Date",
    "Priority", "Created", "Updated"]

  /** `${project.progress}%`: a missing progress prints as "undefined%". */
  function ProgressText(progress: Option<int>): string
  {
    match progress
    case Some(n) => IntToString(n) + "%"
    case None => "undefined%"
  }

  function ProjectValues(p: Project): (r: seq<Value>)
    ensures |r| == |ProjectColumns|
  {
    [Num(p.id), Str(p.name), Str(p.status), Str(ProgressText(p.progress)),
     Str(OrNA(p.startDate)), Str(OrNA(p.endDate)), Str(OrNA(p.priority)),
     Str(p.createdAt), Str(p.updatedAt)]
  }

  function ProjectFields(p: Project): seq<string>
  {
    [IntToString(p.id), p.name, p.status, ProgressText(p.progress),
     OrNA(p.startDate), OrNA(p.endDate), OrNA(p.priority), p.createdAt, p.updatedAt]
  }

  function ProjectRows(projects: seq<Project>): (r: seq<seq<Value>>)
    ensures |r| == |projects| && forall i :: 0 <= i < |projects| ==> r[i] == ProjectValues(projects[i])
  {
    seq(|projects|, i requires 0 <= i < |projects| => ProjectValues(projects[i]))
  }

  /** The CSV text `exportProjectsReport` downloads. */
  function ProjectsReportCsv(projects: seq<Project>): string
  {
    Csv.ConvertToCsv(Csv.Table(ProjectColumns, ProjectRows(projects)), None)
  }

  lemma ProjectColumnsDistinct()
    ensures Distinct(ProjectColumns)
  {
  }

  lemma ProjectFieldsRead(p: Project)
    ensures Csv.Texts(ProjectValues(p)) == ProjectFields(p)
  {
  }

  lemma ProjectTexts(projects: seq<Project>)
    ensures Csv.TextsAll(ProjectRows(projects))
      == seq(|projects|, i requires 0 <= i < |projects| => ProjectFields(projects[i]))
  {
    var rows := ProjectRows(projects);
    forall i | 0 <= i < |projects| ensures Csv.TextsAll(rows)[i] == ProjectFields(projects[i]) {
      ProjectFieldsRead(projects[i]);
    }
  }

  /** The projects report reads back as its nine columns and one line per project. */
  lemma ProjectsReportReadsBack(projects: seq<Project>)
    requires projects != []
    ensures Csv.ParseCsv(ProjectsReportCsv(projects)) == Some([ProjectColumns] +
      seq(|projects|, i requires 0 <= i < |projects| => ProjectFields(projects[i])))
  {
    ProjectColumnsDistinct();
    Csv.TableRoundTrip(ProjectColumns, ProjectRows(projects));
    ProjectTexts(projects);
  }

  // ---- time-tracking report ------------------------------------------------

  const TimeColumns: seq<string> := [
    "Task ID", "Task Title", "Project", "Estimated Hours", "Actual Hours", "Variance", "Accuracy %"]

  /** `task.estimatedHours || task.actualHours` is truthy. */
  predicate IsTimed(t: Task)
  {
    t.estimatedHours != 0 || t.actualHours != 0
  }

  /** `estimated > 0 ? (actual / estimated * 100).toFixed(2) : '0'`. */
  function Accuracy(estimated: int, actual: int): (r: string)
    ensures estimated <= 0 ==> r == "0"
    ensures estimated > 0 ==> r != "" && (r[0] == '-' <==> actual < 0)
  {
    if estimated > 0 then Formatters.ToFixed(100 * actual, estimated, 2) else "0"
  }

  function TimeValues(t: Task, projects: seq<Project>): (r: seq<Value>)
    ensures |r| == |TimeColumns|
  {
    [Num(t.id), Str(t.title), Str(ProjectLabel(projects, t.projectId)),
     Num(t.estimatedHours), Num(t.actualHours), Num(t.estimatedHours - t.actualHours),
     Str(Accuracy(t.estimatedHours, t.actualHours))]
  }

  function TimeFields(t: Task, projects: seq<Project>): seq<string>
  {
    [IntToString(t.id), t.title, ProjectLabel(projects, t.projectId),
     IntToString(t.estimatedHours), IntToString(t.actualHours),
     IntToString(t.estimatedHours - t.actualHours), Accuracy(t.estimatedHours, t.actualHours)]
  }

  function TimeRows(tasks: seq<Task>, projects: seq<Project>): (r: seq<seq<Value>>)
    ensures |r| == |tasks| && forall i :: 0 <= i < |tasks| ==> r[i] == TimeValues(tasks[i], projects)
  {
    seq(|tasks|, i requires 0 <= i < |tasks| => TimeValues(tasks[i], projects))
  }

  /**
   * The CSV text `exportTimeTrackingReport` downloads; `None` is the case in
   * which it alerts 'No time tracking data to export' and downloads nothing.
   */
  function TimeTrackingCsv(tasks: seq<Task>, projects: seq<Project>): (r: Option<string>)
    ensures r.None? <==> forall i :: 0 <= i < |tasks| ==> !IsTimed(tasks[i])
  {
    var timed := Timed(tasks);
    if timed == [] then None
    else Some(Csv.ConvertToCsv(Csv.Table(TimeColumns, TimeRows(timed, projects)), None))
  }

  /** `tasks.filter(task => task.estimatedHours || task.actualHours)`. */
  function Timed(tasks: seq<Task>): (r: seq<Task>)
    ensures r == [] <==> forall i :: 0 <= i < |tasks| ==> !IsTimed(tasks[i])
  {
    var r := Filter(tasks, IsTimed);
    assert r != [] ==> r[0] in r;
    r
  }

  lemma TimeColumnsDistinct()
    ensures Distinct(TimeColumns)
  {
  }

  lemma TimeFieldsRead(t: Task, projects: seq<Project>)
    ensures Csv.Texts(TimeValues(t, projects)) == TimeFields(t, projects)
  {
  }

  lemma TimeTexts(timed: seq<Task>, projects: seq<Project>)
    ensures Csv.TextsAll(TimeRows(timed, projects))
      == seq(|timed|, i requires 0 <= i < |timed| => TimeFields(timed[i], projects))
  {
    var rows := TimeRows(timed, projects);
    forall i | 0 <= i < |timed| ensures Csv.TextsAll(rows)[i] == TimeFields(timed[i], projects) {
      TimeFieldsRead(timed[i], projects);
    }
  }

  lemma TimeTableReadsBack(timed: seq<Task>, projects: seq<Project>)
    requires timed != []
    ensures Csv.ParseCsv(Csv.ConvertToCsv(Csv.Table(TimeColumns, TimeRows(timed, projects)), None))
      == Some([TimeColumns] + seq(|timed|, i requires 0 <= i < |timed| => TimeFields(timed[i], projects)))
  {
    TimeColumnsDistinct();
    Csv.TableRoundTrip(TimeColumns, TimeRows(timed, projects));
    TimeTexts(timed, projects);
  }

  /** The timed tasks are a subsequence of the input, all of them timed. */
  lemma TimedTasks(tasks: seq<Task>)
    ensures Subseq(Timed(tasks), tasks)
    ensures forall i :: 0 <= i < |Timed(tasks)| ==> IsTimed(Timed(tasks)[i])
  {
    FilterIsSubseq(tasks, IsTimed);
    var r := Timed(tasks);
    assert forall i :: 0 <= i < |r| ==> r[i] in r;
  }

  /** Each line of the time-tracking file is a timed task, in input order. */
  lemma TimeTrackingReadsBack(tasks: seq<Task>, projects: seq<Project>)
    requires TimeTrackingCsv(tasks, projects).Some?
    ensures var timed := Timed(tasks);
      Csv.ParseCsv(TimeTrackingCsv(tasks, projects).value) == Some([TimeColumns] +
        seq(|timed|, i requires 0 <= i < |timed| => TimeFields(timed[i], projects)))
  {
    TimeTableReadsBack(Timed(tasks), projects);
  }

  /**
   * With a positive estimate the accuracy reads back as a number with two
   * decimals: `RoundedUnits` hundredths of a percent, within half a
   * hundredth of `|actual| / estimated * 100`.
   */
  lemma AccuracyValue(estimated: int, actual: int)
    requires estimated > 0
    ensures Formatters.FixedValue(Accuracy(estimated, actual), 2) == Some(Formatters.RoundedUnits(100 * actual, estimated, 2))
    ensures var q := Formatters.RoundHalfUp(Formatters.Product(Formatters.Magnitude(100 * actual), 100), estimated);
            2 * estimated * q - estimated <= 2 * Formatters.Product(Formatters.Magnitude(100 * actual), 100) < 2 * estimated * q + estimated
  {
    Formatters.ToFixedValue(100 * actual, estimated, 2);
    assert Text.Pow10(2) == 100;
  }

  /** Working exactly the estimate is 100.00 % accuracy; half of it is 50.00 %. */
  lemma AccuracyExamples()
    ensures Accuracy(8, 8) == "100.00"
    ensures Accuracy(8, 4) == "50.00"
    ensures Accuracy(0, 5) == "0"
  {
    assert Text.Pow10(2) == 100;
    assert Formatters.RoundHalfUp(Formatters.Product(800, 100), 8) == 10000;
    assert NatToString(Formatters.Quotient(10000, 100)) == "100";
    assert Formatters.PadDigits(Formatters.Remainder(10000, 100), 2) == "00";
    assert Formatters.RoundHalfUp(Formatters.Product(400, 100), 8) == 5000;
    assert NatToString(Formatters.Quotient(5000, 100)) == "50";
    assert Formatters.PadDigits(Formatters.Remainder(5000, 100), 2) == "00";
  }

  // ---- analytics summary ---------------------------------------------------

  /** `task.status || 'backlog'`. */
  function EffectiveStatus(t: Task): string
  {
    if t.status == "" then "backlog" else t.status
  }

  /** `task.priority || 'medium'`. */
  function EffectivePriority(t: Task): string
  {
    if t.priority == "" then "medium" else t.priority
  }

  function HasStatus(key: string): Task -> bool
  {
    t => EffectiveStatus(t) == key
  }

  function HasPriority(key: string): Task -> bool
  {
    t => EffectivePriority(t) == key
  }

  /** The final value of `counts[key]` for one of the pre-seeded keys. */
  function StatusTally(tasks: seq<Task>, key: string): nat
  {
    Count(tasks, HasStatus(key))
  }

  function PriorityTally(tasks: seq<Task>, key: string): nat
  {
    Count(tasks, HasPriority(key))
  }

  /** `tasks.filter(t => t.status === 'done').length`. */
  function DoneCount(tasks: seq<Task>): nat
  {
    Count(tasks, (t: Task) => t.status == "done")
  }

  /** The five seeded status keys in summary order. */
  const StatusKeys: seq<string> := ["backlog", "todo", "in_progress", "review", "done"]
  const StatusTypes: seq<string> := ["Backlog", "To Do", "In Progress", "Review", "Done"]
  const PriorityKeys: seq<string> := ["low", "medium", "high", "critical"]
  const PriorityTypes: seq<string> := ["Low", "Medium", "High", "Critical"]

  /** The completion-rate cell: "NaN%" when there are no tasks (0 / 0). */
  function CompletionRate(tasks: seq<Task>): (r: string)
    ensures tasks == [] <==> r == "NaN%"
  {
    if tasks == [] then "NaN%"
    else
      var s := Formatters.ToFixed(100 * DoneCount(tasks), |tasks|, 2);
      assert s[0] != 'N';
      s + "%"
  }

  const AnalyticsColumns: seq<string> := ["Category", "Type", "Count"]

  function SummaryRow(category: string, kind: string, count: Value): seq<Value>
  {
    [Str(category), Str(kind), count]
  }

  /** The twelve summary rows, specified from the tallies. */
  function SummaryRows(tasks: seq<Task>, projectCount: nat): (r: seq<seq<Value>>)
    ensures |r| == 12 && forall i :: 0 <= i < 12 ==> |r[i]| == |AnalyticsColumns|
  {
    seq(5, i requires 0 <= i < 5 =>
      SummaryRow("Task Status", StatusTypes[i], Num(StatusTally(tasks, StatusKeys[i])))) +
    seq(4, i requires 0 <= i < 4 =>
      SummaryRow("Priority", PriorityTypes[i], Num(PriorityTally(tasks, PriorityKeys[i])))) +
    [SummaryRow("Overall", "Total Projects", Num(projectCount)),
     SummaryRow("Overall", "Total Tasks", Num(|tasks|)),
     SummaryRow("Overall", "Completion Rate", Str(CompletionRate(tasks)))]
  }

  /** The twelve rows written out, as `exportAnalyticsSummary` lists them. */
  lemma SummaryRowsListed(tasks: seq<Task>, projectCount: nat)
    ensures SummaryRows(tasks, projectCount) == [
      SummaryRow("Task Status", "Backlog", Num(StatusTally(tasks, "backlog"))),
      SummaryRow("Task Status", "To Do", Num(StatusTally(tasks, "todo"))),
      SummaryRow("Task Status", "In Progress", Num(StatusTally(tasks, "in_progress"))),
      SummaryRow("Task Status", "Review", Num(StatusTally(tasks, "review"))),
      SummaryRow("Task Status", "Done", Num(StatusTally(tasks, "done"))),
      SummaryRow("Priority", "Low", Num(PriorityTally(tasks, "low"))),
      SummaryRow("Priority", "Medium", Num(PriorityTally(tasks, "medium"))),
      SummaryRow("Priority", "High", Num(PriorityTally(tasks, "high"))),
      SummaryRow("Priority", "Critical", Num(PriorityTally(tasks, "critical"))),
      SummaryRow("Overall", "Total Projects", Num(projectCount)),
      SummaryRow("Overall", "Total Tasks", Num(|tasks|)),
      SummaryRow("Overall", "Completion Rate", Str(CompletionRate(tasks)))]
  {
    StatusRowsListed(tasks);
    PriorityRowsListed(tasks);
  }

  lemma StatusRowsListed(tasks: seq<Task>)
    ensures seq(5, i requires 0 <= i < 5 =>
      SummaryRow("Task Status", StatusTypes[i], Num(StatusTally(tasks, StatusKeys[i])))) == [
      SummaryRow("Task Status", "Backlog", Num(StatusTally(tasks, "backlog"))),
      SummaryRow("Task Status", "To Do", Num(StatusTally(tasks, "todo"))),
      SummaryRow("Task Status", "In Progress", Num(StatusTally(tasks, "in_progress"))),
      SummaryRow("Task Status", "Review", Num(StatusTally(tasks, "review"))),
      SummaryRow("Task Status", "Done", Num(StatusTally(tasks, "done")))]
  {
  }

  lemma PriorityRowsListed(tasks: seq<Task>)
    ensures seq(4, i requires 0 <= i < 4 =>
      SummaryRow("Priority", PriorityTypes[i], Num(PriorityTally(tasks, PriorityKeys[i])))) == [
      SummaryRow("Priority", "Low", Num(PriorityTally(tasks, "low"))),
      SummaryRow("Priority", "Medium", Num(PriorityTally(tasks, "medium"))),
      SummaryRow("Priority", "High", Num(PriorityTally(tasks, "high"))),
      SummaryRow("Priority", "Critical", Num(PriorityTally(tasks, "critical")))]
  {
  }

  /** One more task moves a status tally by its indicator. */
  lemma StatusStep(prefix: seq<Task>, t: Task, key: string)
    ensures StatusTally(prefix + [t], key)
      == StatusTally(prefix, key) + (if EffectiveStatus(t) == key then 1 else 0)
  {
    CountSnoc(prefix, t, HasStatus(key));
  }

  lemma PriorityStep(prefix: seq<Task>, t: Task, key: string)
    ensures PriorityTally(prefix + [t], key)
      == PriorityTally(prefix, key) + (if EffectivePriority(t) == key then 1 else 0)
  {
    CountSnoc(prefix, t, HasPriority(key));
  }

  /** One more task in the status pass: only the entry under its key goes up, by one. */
  lemma StatusCountsStep(tasks: seq<Task>, i: nat, counts: map<string, nat>)
    requires i < |tasks| && forall k :: k in counts ==> counts[k] == StatusTally(tasks[..i], k)
    ensures var after := if EffectiveStatus(tasks[i]) in counts then counts[EffectiveStatus(tasks[i]) := counts[EffectiveStatus(tasks[i])] + 1] else counts;
      after.Keys == counts.Keys && forall k :: k in after ==> after[k] == StatusTally(tasks[..i + 1], k)
  {
    assert tasks[..i + 1] == tasks[..i] + [tasks[i]];
    forall k | k in counts ensures StatusTally(tasks[..i + 1], k) == counts[k] + (if EffectiveStatus(tasks[i]) == k then 1 else 0) {
      StatusStep(tasks[..i], tasks[i], k);
    }
  }

  /** One more task in the priority pass: only the entry under its key goes up, by one. */
  lemma PriorityCountsStep(tasks: seq<Task>, i: nat, counts: map<string, nat>)
    requires i < |tasks| && forall k :: k in counts ==> counts[k] == PriorityTally(tasks[..i], k)
    ensures var after := if EffectivePriority(tasks[i]) in counts then counts[EffectivePriority(tasks[i]) := counts[EffectivePriority(tasks[i])] + 1] else counts;
      after.Keys == counts.Keys && forall k :: k in after ==> after[k] == PriorityTally(tasks[..i + 1], k)
  {
    assert tasks[..i + 1] == tasks[..i] + [tasks[i]];
    forall k | k in counts ensures PriorityTally(tasks[..i + 1], k) == counts[k] + (if EffectivePriority(tasks[i]) == k then 1 else 0) {
      PriorityStep(tasks[..i], tasks[i], k);
    }
  }

  /**
   * `exportAnalyticsSummary`'s two counting passes and its row list. A key
   * outside the seeded ones lands in a fresh entry that no row reads.
   */
  method AnalyticsSummary(tasks: seq<Task>, projectCount: nat) returns (rows: seq<seq<Value>>)
    ensures rows == SummaryRows(tasks, projectCount)
  {
    var statusCounts := CountStatuses(tasks);
    var priorityCounts := CountPriorities(tasks);
    SummaryRowsListed(tasks, projectCount);
    var rate := CompletionRate(tasks);
    rows := [
      SummaryRow("Task Status", "Backlog", Num(statusCounts["backlog"])),
      SummaryRow("Task Status", "To Do", Num(statusCounts["todo"])),
      SummaryRow("Task Status", "In Progress", Num(statusCounts["in_progress"])),
      SummaryRow("Task Status", "Review", Num(statusCounts["review"])),
      SummaryRow("Task Status", "Done", Num(statusCounts["done"])),
      SummaryRow("Priority", "Low", Num(priorityCounts["low"])),
      SummaryRow("Priority", "Medium", Num(priorityCounts["medium"])),
      SummaryRow("Priority", "High", Num(priorityCounts["high"])),
      SummaryRow("Priority", "Critical", Num(priorityCounts["critical"])),
      SummaryRow("Overall", "Total Projects", Num(projectCount)),
      SummaryRow("Overall", "Total Tasks", Num(|tasks|)),
      SummaryRow("Overall", "Completion Rate", Str(rate))];
  }

  /**
   * The status pass: `statusCounts` starts with the five keys at 0 and
   * `statusCounts[task.status || 'backlog']++` runs for every task. A
   * status outside the keys would add a `NaN` entry that no row reads; the
   * model leaves that entry out.
   */
  method CountStatuses(tasks: seq<Task>) returns (counts: map<string, nat>)
    ensures counts.Keys == {"backlog", "todo", "in_progress", "review", "done"}
    ensures forall k :: k in counts ==> counts[k] == StatusTally(tasks, k)
  {
    counts := map["backlog" := 0, "todo" := 0, "in_progress" := 0, "review" := 0, "done" := 0];
    var i := 0;
    while i < |tasks|
      invariant 0 <= i <= |tasks|
      invariant counts.Keys == {"backlog", "todo", "in_progress", "review", "done"}
      invariant forall k :: k in counts ==> counts[k] == StatusTally(tasks[..i], k)
    {
      var status := EffectiveStatus(tasks[i]);
      StatusCountsStep(tasks, i, counts);
      if status in counts {
        counts := counts[status := counts[status] + 1];
      }
      i := i + 1;
    }
    assert tasks[..i] == tasks;
  }

  /** The priority pass: `priorityCounts[task.priority || 'medium']++` over the four seeded keys. */
  method CountPriorities(tasks: seq<Task>) returns (counts: map<string, nat>)
    ensures counts.Keys == {"low", "medium", "high", "critical"}
    ensures forall k :: k in counts ==> counts[k] == PriorityTally(tasks, k)
  {
    counts := map["low" := 0, "medium" := 0, "high" := 0, "critical" := 0];
    var i := 0;
    while i < |tasks|
      invariant 0 <= i <= |tasks|
      invariant counts.Keys == {"low", "medium", "high", "critical"}
      invariant forall k :: k in counts ==> counts[k] == PriorityTally(tasks[..i], k)
    {
      var priority := EffectivePriority(tasks[i]);
      PriorityCountsStep(tasks, i, counts);
      if priority in counts {
        counts := counts[priority := counts[priority] + 1];
      }
      i := i + 1;
    }
    assert tasks[..i] == tasks;
  }

  /** The sum of the five status rows. */
  function StatusTotal(tasks: seq<Task>): nat
  {
    StatusTally(tasks, "backlog") + StatusTally(tasks, "todo") + StatusTally(tasks, "in_progress")
      + StatusTally(tasks, "review") + StatusTally(tasks, "done")
  }

  /** A task counts in a status row exactly when its status is a column or missing. */
  predicate Counted(t: Task)
  {
    EffectiveStatus(t) in StatusKeys
  }

  /**
   * Every task is counted at most once, so the status rows add up to at most
   * the number of tasks, and to exactly that when no status is unknown.
   */
  lemma {:induction false} StatusTotalBound(tasks: seq<Task>)
    ensures StatusTotal(tasks) == Count(tasks, Counted)
    ensures StatusTotal(tasks) <= |tasks|
    ensures (forall i :: 0 <= i < |tasks| ==> Counted(tasks[i])) ==> StatusTotal(tasks) == |tasks|
  {
    if tasks != [] {
      StatusTotalBound(tasks[1..]);
      CountCons(tasks, HasStatus("backlog"));
      CountCons(tasks, HasStatus("todo"));
      CountCons(tasks, HasStatus("in_progress"));
      CountCons(tasks, HasStatus("review"));
      CountCons(tasks, HasStatus("done"));
      CountCons(tasks, Counted);
      StatusHead(tasks[0]);
      assert forall i :: 0 <= i < |tasks[1..]| ==> tasks[1..][i] == tasks[i + 1];
    }
  }

  /** A counted task is in exactly one of the five tallies; any other in none. */
  lemma StatusHead(t: Task)
    ensures (if Counted(t) then 1 else 0) ==
      (if HasStatus("backlog")(t) then 1 else 0) + (if HasStatus("todo")(t) then 1 else 0)
      + (if HasStatus("in_progress")(t) then 1 else 0) + (if HasStatus("review")(t) then 1 else 0)
      + (if HasStatus("done")(t) then 1 else 0)
  {
    var e := EffectiveStatus(t);
    assert Counted(t) <==> e == "backlog" || e == "todo" || e == "in_progress" || e == "review" || e == "done";
  }

  /** The analytics file reads back as its header and the twelve rows' texts. */
  lemma AnalyticsReadsBack(tasks: seq<Task>, projectCount: nat)
    ensures var rows := SummaryRows(tasks, projectCount);
      Csv.ParseCsv(Csv.ConvertToCsv(Csv.Table(AnalyticsColumns, rows), None))
        == Some([AnalyticsColumns] + Csv.TextsAll(rows))
  {
    assert Distinct(AnalyticsColumns);
    Csv.TableRoundTrip(AnalyticsColumns, SummaryRows(tasks, projectCount));
  }

  /**
   * The last line holds the completion rate; with no tasks it is the text
   * "NaN%" that 0 / 0 prints.
   */
  lemma CompletionLine(tasks: seq<Task>, projectCount: nat)
    ensures Csv.TextsAll(SummaryRows(tasks, projectCount))[11]
      == ["Overall", "Completion Rate", CompletionRate(tasks)]
    ensures tasks == [] ==> CompletionRate(tasks) == "NaN%"
  {
    var rows := SummaryRows(tasks, projectCount);
    assert rows[11] == SummaryRow("Overall", "Completion Rate", Str(CompletionRate(tasks)));
  }
}
