/**
 * The project page: one form creates a project (route `/projects/new`) or
 * edits one, validates it, and deletes an existing project after a prompt.
 */
module ProjectDetail {
  import opened Wrappers
  import opened Text
  import opened Seqs
  import opened Models
  import Tables
  import Backend

  /** `!id || id === "new"`. */
  predicate IsNewProject(id: Option<string>)
  {
    id.None? || id.value == "" || id.value == "new"
  }

  /**
   * The form (`Partial<Project>`). `None` is a missing or `null` value, and
   * a progress of `NaN`, which `JSON.stringify` sends as `null`.
   */
  datatype Form = Form(
    name: Option<string>, description: Option<string>, status: Option<string>, progress: Option<int>,
    startDate: string, endDate: string)

  const InitialForm := Form(Some(""), Some(""), Some("active"), Some(0), "", "")

  /** The form filled in from a loaded project. */
  function FormOf(p: Project): Form
  {
    Form(Some(p.name), Some(p.description), Some(p.status), p.progress, p.startDate, p.endDate)
  }

  /** One field's `onChange`; the progress box's text goes through `parseInt`. */
  datatype Input =
    | NameInput(s: string) | DescriptionInput(s: string) | StatusInput(s: string)
    | ProgressInput(text: string) | StartDateInput(s: string) | EndDateInput(s: string)

  /** `handleInputChange`: `{ ...prev, [field]: value }`. */
  function Apply(f: Form, i: Input): (r: Form)
    ensures i.NameInput? ==> r == f.(name := Some(i.s))
    ensures i.ProgressInput? ==> r == f.(progress := JsParseInt(i.text))
    ensures !i.NameInput? ==> r.name == f.name
    ensures !i.ProgressInput? ==> r.progress == f.progress
  {
    match i
    case NameInput(s) => f.(name := Some(s))
    case DescriptionInput(s) => f.(description := Some(s))
    case StatusInput(s) => f.(status := Some(s))
    case ProgressInput(text) => f.(progress := JsParseInt(text))
    case StartDateInput(s) => f.(startDate := s)
    case EndDateInput(s) => f.(endDate := s)
  }

  /** `formData.progress || 0`. */
  function ProgressOf(f: Form): int
  {
    f.progress.GetOr(0)
  }

  const NameRequired := "Project name is required"
  const ProgressRange := "Progress must be between 0 and 100"
  const SaveFailed := "Failed to save project"
  const DeleteFailed := "Failed to delete project"

  /** What `handleSave` does with a form: refuse it, or send a creation or an update. */
  datatype Save =
    | Refused(message: string)
    | Create(body: Backend.ProjectBody)
    /** `id` is `parseInt` of the route parameter; `None` is `NaN`. */
    | Update(id: Option<int>, body: Backend.ProjectBody)

  /** The whole form as an update body; the dates have no column. */
  function UpdateBody(f: Form): Backend.ProjectBody
  {
    Backend.ProjectBody(f.name, f.description, f.status, f.progress)
  }

  /** The creation body: the defaults fill what the form leaves falsy. */
  function CreateBody(f: Form): Backend.ProjectBody
    requires f.name.Some?
  {
    Backend.ProjectBody(f.name, Some(f.description.GetOr("")), Some(if f.status.GetOr("") == "" then "active" else f.status.value),
                        Some(ProgressOf(f)))
  }

  predicate NameBlank(f: Form)
  {
    f.name.None? || IsBlank(f.name.value)
  }

  /**
   * `handleSave`: a blank name is refused first, then a progress outside
   * 0..100; a valid form creates a new project or updates this one.
   */
  function SaveFor(f: Form, id: Option<string>): (r: Save)
    ensures r.Refused? <==> NameBlank(f) || ProgressOf(f) < 0 || ProgressOf(f) > 100
    ensures r.Refused? ==> r.message == (if NameBlank(f) then NameRequired else ProgressRange)
    ensures r.Create? <==> !r.Refused? && IsNewProject(id)
    ensures r.Update? ==> r.id == JsParseInt(id.value) && r.body == UpdateBody(f)
  {
    if f.name.None? then Refused(NameRequired)
    else if (TrimEmptyIffBlank(f.name.value); Trim(f.name.value) == "") then Refused(NameRequired)
    else if ProgressOf(f) < 0 || ProgressOf(f) > 100 then Refused(ProgressRange)
    else if IsNewProject(id) then Create(CreateBody(f))
    else Update(JsParseInt(id.value), UpdateBody(f))
  }

  /**
   * A new project that passes validation is stored with the typed name,
   * a progress in 0..100, and 'active' unless another status was chosen.
   */
  lemma CreateStoresForm(db: Backend.Db, f: Form, id: Option<string>, now: int)
    requires SaveFor(f, id).Create?
    ensures var r := Backend.CreateProject(db, SaveFor(f, id).body, now);
      r.1.Ok? && r.1.value.name == f.name.value && 0 <= r.1.value.progress <= 100
      && r.1.value.progress == ProgressOf(f)
      && r.1.value.status == (if f.status.GetOr("") == "" then "active" else f.status.value)
      && r.1.value.description == Some(f.description.GetOr(""))
  {
  }

  /** The untouched new-project form is refused for its empty name. */
  lemma InitialFormRefused(id: Option<string>)
    ensures SaveFor(InitialForm, id) == Refused(NameRequired)
  {
    assert IsBlank("");
  }

  /**
   * An edit writes every field the form holds and keeps the columns whose
   * value became `null` (a cleared progress box).
   */
  lemma UpdateWritesForm(db: Backend.Db, f: Form, id: Option<string>, pid: int, now: int)
    requires SaveFor(f, id).Update? && Tables.HasId(db.projects, Backend.ProjectId, pid)
    ensures var r := Backend.PatchProject(db, pid, SaveFor(f, id).body, now);
      var old_ := Tables.Find(db.projects, Backend.ProjectId, pid).value;
      r.1.Ok? && r.1.value.name == f.name.value
      && r.1.value.progress == (if f.progress.Some? then f.progress.value else old_.progress)
      && r.1.value.status == (if f.status.Some? then f.status.value else old_.status)
  {
  }

  /**
   * An edit checks the progress as `progress || 0` but sends the raw value:
   * a cleared box passes the check and leaves the stored progress as it was.
   */
  lemma ClearedProgressKept(f: Form, id: Option<string>)
    requires f.name.Some? && !IsBlank(f.name.value) && !IsNewProject(id)
    ensures SaveFor(f.(progress := JsParseInt("")), id).Update?
    ensures SaveFor(f.(progress := JsParseInt("")), id).body.progress == None
  {
    assert TrimStart("") == "";
  }

  function InProjectNumber(n: int): Task -> bool
  {
    (t: Task) => t.projectId == n
  }

  /** `parseInt(id || '0', 10)`; `None` is `NaN`. */
  function RouteNumber(id: Option<string>): Option<int>
  {
    JsParseInt(if id.None? || id.value == "" then "0" else id.value)
  }

  function TasksOf(tasks: seq<Task>, n: int): (r: seq<Task>)
    ensures forall t :: t in r <==> t in tasks && t.projectId == n
  {
    var r := Filter(tasks, InProjectNumber(n));
    forall t | t in tasks && t.projectId == n ensures t in r {
      var i :| 0 <= i < |tasks| && tasks[i] == t;
      assert InProjectNumber(n)(tasks[i]);
    }
    r
  }

  /**
   * `projectTasks`: the tasks of the project in the route; `parseInt`
   * of "new" is `NaN`, equal to no id.
   */
  function ProjectTasks(tasks: seq<Task>, id: Option<string>): (r: seq<Task>)
    ensures forall t :: t in r <==> t in tasks && RouteNumber(id) == Some(t.projectId)
  {
    match RouteNumber(id)
    case None => []
    case Some(n) => TasksOf(tasks, n)
  }

  /** The new-project route lists no tasks. */
  lemma NewRouteHasNoTasks(tasks: seq<Task>)
    ensures ProjectTasks(tasks, Some("new")) == []
  {
    ParseIntNoNumber("new");
  }

  /** The status options of the form. */
  const StatusOptions: seq<string> := ["active", "pending", "completed", "on_hold"]

  /**
   * The form offers 'pending', which is no project status, and does not
   * offer 'planning', which is one.
   */
  lemma StatusOptionsDiffer()
    ensures "pending" in StatusOptions && ParseProjectStatus("pending").None?
    ensures "planning" !in StatusOptions && ParseProjectStatus("planning") == Some(Planning)
  {
  }

  class ProjectPage {
    /** The route parameter `id`. */
    const routeId: Option<string>
    var form: Form
    var saveError: Option<string>
    /** Where the page navigated, if it did. */
    var location: Option<string>

    constructor (routeId: Option<string>)
      ensures this.routeId == routeId && form == InitialForm && saveError == None && location == None
    {
      this.routeId := routeId;
      form := InitialForm;
      saveError := None;
      location := None;
    }

    /** The effect that fills the form once the project has loaded (edit pages only). */
    method LoadProject(p: Project)
      modifies this
      ensures form == (if IsNewProject(routeId) then old(form) else FormOf(p))
      ensures saveError == old(saveError) && location == old(location)
    {
      if !IsNewProject(routeId) {
        form := FormOf(p);
      }
    }

    /** Editing any field clears the error. */
    method HandleInputChange(i: Input)
      modifies this
      ensures form == Apply(old(form), i) && saveError == None && location == old(location)
    {
      form := Apply(form, i);
      saveError := None;
    }

    /**
     * `handleSave`; `succeeded` is the outcome of the request. A refused
     * form shows its message; a saved one goes back to the list.
     */
    method HandleSave(succeeded: bool) returns (sent: Save)
      modifies this
      ensures sent == SaveFor(old(form), routeId) && form == old(form)
      ensures sent.Refused? ==> saveError == Some(sent.message) && location == old(location)
      ensures !sent.Refused? && succeeded ==> location == Some("/projects") && saveError == old(saveError)
      ensures !sent.Refused? && !succeeded ==> saveError == Some(SaveFailed) && location == old(location)
    {
      sent := SaveFor(form, routeId);
      if sent.Refused? {
        saveError := Some(sent.message);
      } else if succeeded {
        location := Some("/projects");
      } else {
        saveError := Some(SaveFailed);
      }
    }

    /**
     * `handleDelete`: nothing on a new project or an unconfirmed prompt;
     * otherwise it deletes `parseInt(id)` (`None` for `NaN`).
     */
    method HandleDelete(confirmed: bool, succeeded: bool) returns (deleted: Option<Option<int>>)
      modifies this
      ensures IsNewProject(routeId) || !confirmed ==>
        deleted == None && saveError == old(saveError) && location == old(location)
      ensures !IsNewProject(routeId) && confirmed ==>
        deleted == Some(JsParseInt(routeId.value))
        && (succeeded ==> location == Some("/projects") && saveError == old(saveError))
        && (!succeeded ==> saveError == Some(DeleteFailed) && location == old(location))
      ensures form == old(form)
    {
      if IsNewProject(routeId) || !confirmed {
        return None;
      }
      deleted := Some(JsParseInt(routeId.value));
      if succeeded {
        location := Some("/projects");
      } else {
        saveError := Some(DeleteFailed);
      }
    }

    method HandleBack()
      modifies this
      ensures location == Some("/projects") && form == old(form) && saveError == old(saveError)
    {
      location := Some("/projects");
    }
  }
}
