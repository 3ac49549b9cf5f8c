/**
 * The board's container: it normalises every task it loads, filters the
 * list by the chosen project and, after each successful mutation, replaces
 * the whole list with the normalised re-fetch.
 */
module KanbanContainer {
  import opened Wrappers
  import opened Text
  import opened Seqs
  import opened Models

  /** The five statuses `normalizeTask` accepts. */
  predicate ValidStatus(s: string)
  {
    s in ["backlog", "todo", "in_progress", "review", "done"]
  }

  /** `normalizeTask`: an unknown status becomes backlog, a missing priority medium. */
  function NormalizeTask(t: Task): (r: Task)
    ensures ValidStatus(t.status) ==> r.status == t.status
    ensures !ValidStatus(t.status) ==> r.status == "backlog"
    ensures r.priority == if t.priority == "" then "medium" else t.priority
    ensures r == t.(status := r.status, priority := r.priority)
  {
    t.(status := if ValidStatus(t.status) then t.status else "backlog",
       priority := if t.priority == "" then "medium" else t.priority)
  }

  /** A normalised task has a valid status and a priority, and normalising again changes nothing. */
  lemma NormalizeIdempotent(t: Task)
    ensures ValidStatus(NormalizeTask(t).status) && NormalizeTask(t).priority != ""
    ensures NormalizeTask(NormalizeTask(t)) == NormalizeTask(t)
  {
  }

  /** `normalizeTasks`: the same tasks in the same order, each normalised. */
  function NormalizeTasks(tasks: seq<Task>): (r: seq<Task>)
    ensures |r| == |tasks| && forall i :: 0 <= i < |tasks| ==> r[i] == NormalizeTask(tasks[i])
  {
    seq(|tasks|, i requires 0 <= i < |tasks| => NormalizeTask(tasks[i]))
  }

  lemma NormalizeTasksIdempotent(tasks: seq<Task>)
    ensures NormalizeTasks(NormalizeTasks(tasks)) == NormalizeTasks(tasks)
  {
    forall i | 0 <= i < |tasks| ensures NormalizeTasks(NormalizeTasks(tasks))[i] == NormalizeTasks(tasks)[i] {
      NormalizeIdempotent(tasks[i]);
    }
  }

  /** `selectedProjectId ? allTasks.filter(t => t.projectId === selectedProjectId) : allTasks`. */
  function VisibleTasks(all: seq<Task>, selected: Option<int>): seq<Task>
  {
    if selected.GetOr(0) != 0 then Filter(all, (t: Task) => t.projectId == selected.value) else all
  }

  /**
   * With no project chosen every task shows; otherwise exactly the tasks of
   * that project, in their order.
   */
  lemma VisibleTasksSpec(all: seq<Task>, selected: Option<int>)
    ensures selected.GetOr(0) == 0 ==> VisibleTasks(all, selected) == all
    ensures selected.GetOr(0) != 0 ==>
      Subseq(VisibleTasks(all, selected), all)
      && (forall t :: t in VisibleTasks(all, selected) <==> t in all && t.projectId == selected.value)
  {
    if selected.GetOr(0) != 0 {
      FilterIsSubseq(all, (t: Task) => t.projectId == selected.value);
    }
  }

  /** How an awaited call came back: a failed mutation, or the tasks a re-fetch returned. */
  datatype Outcome = Failed | Refetched(data: seq<Task>)

  /** The container's state: the loaded tasks, the error banner and the project filter. */
  class Container {
    var allTasks: seq<Task>
    var error: Option<string>
    var isLoading: bool
    var selectedProjectId: Option<int>

    constructor ()
      ensures allTasks == [] && error == None && isLoading && selectedProjectId == None
    {
      allTasks := [];
      error := None;
      isLoading := true;
      selectedProjectId := None;
    }

    /** The tasks handed to the board. */
    function Tasks(): seq<Task>
      reads this
    {
      VisibleTasks(allTasks, selectedProjectId)
    }

    /** The first fetch: the normalised list, or 'Failed to load tasks'. */
    method Load(outcome: Outcome)
      modifies this
      ensures !isLoading && selectedProjectId == old(selectedProjectId)
      ensures outcome.Refetched? ==> allTasks == NormalizeTasks(outcome.data) && error == old(error)
      ensures outcome.Failed? ==> allTasks == old(allTasks) && error == Some("Failed to load tasks")
    {
      isLoading := false;
      match outcome
      case Refetched(data) => allTasks := NormalizeTasks(data);
      case Failed => error := Some("Failed to load tasks");
    }

    /** The common tail of the three handlers. */
    method Settle(outcome: Outcome, message: string)
      modifies this
      ensures outcome.Refetched? ==> allTasks == NormalizeTasks(outcome.data) && error == None
      ensures outcome.Failed? ==> allTasks == old(allTasks) && error == Some(message)
      ensures isLoading == old(isLoading) && selectedProjectId == old(selectedProjectId)
    {
      error := None;
      match outcome
      case Refetched(data) => allTasks := NormalizeTasks(data);
      case Failed => error := Some(message);
    }

    /**
     * `handleTaskUpdate`: the id is parsed with `parseInt` (`None` is NaN) and
     * sent with the updates; on success the list is the normalised re-fetch.
     */
    method HandleTaskUpdate(taskId: string, outcome: Outcome) returns (id: Option<int>)
      modifies this
      ensures id == JsParseInt(taskId)
      ensures outcome.Refetched? ==> allTasks == NormalizeTasks(outcome.data) && error == None
      ensures outcome.Failed? ==> allTasks == old(allTasks) && error == Some("Failed to update task")
      ensures isLoading == old(isLoading) && selectedProjectId == old(selectedProjectId)
    {
      id := JsParseInt(taskId);
      Settle(outcome, "Failed to update task");
    }

    /** `handleTaskDelete`. */
    method HandleTaskDelete(taskId: string, outcome: Outcome) returns (id: Option<int>)
      modifies this
      ensures id == JsParseInt(taskId)
      ensures outcome.Refetched? ==> allTasks == NormalizeTasks(outcome.data) && error == None
      ensures outcome.Failed? ==> allTasks == old(allTasks) && error == Some("Failed to delete task")
      ensures isLoading == old(isLoading) && selectedProjectId == old(selectedProjectId)
    {
      id := JsParseInt(taskId);
      Settle(outcome, "Failed to delete task");
    }

    /** `handleTaskCreate`. */
    method HandleTaskCreate(outcome: Outcome)
      modifies this
      ensures outcome.Refetched? ==> allTasks == NormalizeTasks(outcome.data) && error == None
      ensures outcome.Failed? ==> allTasks == old(allTasks) && error == Some("Failed to create task")
      ensures isLoading == old(isLoading) && selectedProjectId == old(selectedProjectId)
    {
      Settle(outcome, "Failed to create task");
    }

    /** The project picker: '' (All Projects) clears the choice; an id selects it. */
    method SelectProject(value: Option<int>)
      modifies this
      ensures selectedProjectId == (if value.GetOr(0) != 0 then value else None)
      ensures allTasks == old(allTasks) && error == old(error) && isLoading == old(isLoading)
    {
      selectedProjectId := if value.GetOr(0) != 0 then value else None;
    }
  }

  /** Every task the container holds has a valid status and a priority. */
  lemma LoadedTasksNormal(data: seq<Task>)
    ensures forall i :: 0 <= i < |data| ==>
      ValidStatus(NormalizeTasks(data)[i].status) && NormalizeTasks(data)[i].priority != ""
  {
    forall i | 0 <= i < |data| ensures ValidStatus(NormalizeTasks(data)[i].status) && NormalizeTasks(data)[i].priority != "" {
      NormalizeIdempotent(data[i]);
    }
  }
}
