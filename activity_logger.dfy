/**
 * The activity-logging middleware: after a fulfilled mutation it maps the
 * endpoint to at most one activity entry, which it dispatches to
 * `createActivity`; the action itself passes through untouched.
 */
module ActivityLogger {
  import opened Wrappers
  import opened Text
  import opened Json
  import opened Models

  /** `action.meta.arg.originalArgs`: a bare id, an `{ id, data }` pair, or anything else. */
  datatype Args = IdArg(n: int) | IdData(id: int, data: Obj) | OtherArgs

  /** The parts of an RTK Query action the middleware reads. */
  datatype Action = Action(
    actionType: string, argType: Option<string>, endpoint: string, originalArgs: Args, payload: Obj)

  /** The eight endpoints that produce an activity. */
  const LoggedEndpoints: seq<string> := [
    "createProject", "updateProject", "deleteProject", "createTask", "updateTask",
    "deleteTask", "createTeam", "updateTeam"]

  /** Update endpoints pass `{ id, data }`; delete endpoints pass the id itself. */
  predicate ArgsFit(a: Action)
  {
    (a.endpoint in ["updateProject", "updateTask", "updateTeam"] ==> a.originalArgs.IdData?)
    && (a.endpoint in ["deleteProject", "deleteTask"] ==> a.originalArgs.IdArg?)
  }

  predicate EndsWith(s: string, suffix: string)
  {
    |suffix| <= |s| && s[|s| - |suffix|..] == suffix
  }

  /** `action.type?.endsWith('/fulfilled') && action.meta?.arg?.type === 'mutation'`. */
  predicate IsFulfilledMutation(a: Action)
  {
    EndsWith(a.actionType, "/fulfilled") && a.argType == Some("mutation")
  }

  /** `${x}` of a payload field. */
  function Field(o: Obj, k: string): string
  {
    ToJsString(Lookup(o, k))
  }

  function Quoted(s: string): string
  {
    "'" + s + "'"
  }

  /** The three `updateTask` kinds, tried in order. */
  function TaskUpdateKind(data: Obj): (k: ActivityType)
    ensures k in [TaskStatusChanged, TaskAssigned, TaskUpdated]
  {
    if HasTruthy(data, "status") then TaskStatusChanged
    else if HasTruthy(data, "assigneeId") then TaskAssigned
    else TaskUpdated
  }

  /** The entry for `updateTask`. */
  function TaskUpdateEntry(id: int, data: Obj, payload: Obj, user: User): ActivityDraft
  {
    var title := Field(payload, "title");
    match TaskUpdateKind(data)
    case TaskStatusChanged =>
      ActivityDraft(TaskStatusChanged, TaskEntity, Num(id), user.id, user.name,
        "moved task " + Quoted(title) + " to " + ReplaceFirst(Field(data, "status"), '_', ' '),
        Some([("taskTitle", Scalar(Lookup(payload, "title"))), ("newStatus", Scalar(Lookup(data, "status")))]))
    case TaskAssigned =>
      ActivityDraft(TaskAssigned, TaskEntity, Num(id), user.id, user.name,
        "assigned task " + Quoted(title),
        Some([("taskTitle", Scalar(Lookup(payload, "title"))), ("assigneeId", Scalar(Lookup(data, "assigneeId")))]))
    case _ =>
      ActivityDraft(TaskUpdated, TaskEntity, Num(id), user.id, user.name,
        "updated task " + Quoted(title),
        Some([("taskTitle", Scalar(Lookup(payload, "title")))]))
  }

  /** The `switch (endpoint)`: the entry for one fulfilled mutation by `user`. */
  function Entry(a: Action, user: User): (r: Option<ActivityDraft>)
    requires ArgsFit(a)
    ensures r.Some? <==> a.endpoint in LoggedEndpoints
    ensures r.Some? ==> r.value.userId == user.id && r.value.userName == user.name
  {
    var p := a.payload;
    var args := a.originalArgs;
    if a.endpoint == "createProject" then
      Some(ActivityDraft(ProjectCreated, ProjectEntity, Lookup(p, "id"), user.id, user.name,
        "created project " + Quoted(Field(p, "name")), Some([("projectName", Scalar(Lookup(p, "name")))])))
    else if a.endpoint == "updateProject" then
      Some(ActivityDraft(ProjectUpdated, ProjectEntity, Num(args.id), user.id, user.name,
        "updated project " + Quoted(Field(p, "name")),
        Some([("projectName", Scalar(Lookup(p, "name"))), ("changes", Names(Keys(args.data)))])))
    else if a.endpoint == "deleteProject" then
      Some(ActivityDraft(ProjectDeleted, ProjectEntity, Num(args.n), user.id, user.name,
        "deleted a project", None))
    else if a.endpoint == "createTask" then
      Some(ActivityDraft(TaskCreated, TaskEntity, Lookup(p, "id"), user.id, user.name,
        "created task " + Quoted(Field(p, "title")),
        Some([("taskTitle", Scalar(Lookup(p, "title"))), ("projectId", Scalar(Lookup(p, "projectId")))])))
    else if a.endpoint == "updateTask" then
      Some(TaskUpdateEntry(args.id, args.data, p, user))
    else if a.endpoint == "deleteTask" then
      Some(ActivityDraft(TaskDeleted, TaskEntity, Num(args.n), user.id, user.name, "deleted a task", None))
    else if a.endpoint == "createTeam" then
      Some(ActivityDraft(TeamCreated, TeamEntity, Lookup(p, "id"), user.id, user.name,
        "created team " + Quoted(Field(p, "name")), Some([("teamName", Scalar(Lookup(p, "name")))])))
    else if a.endpoint == "updateTeam" then
      Some(ActivityDraft(TeamUpdated, TeamEntity, Num(args.id), user.id, user.name,
        "updated team " + Quoted(Field(p, "name")), Some([("teamName", Scalar(Lookup(p, "name")))])))
    else None
  }

  /**
   * The middleware: `next(action)` runs first and its result is returned
   * unchanged; the second component is the activity dispatched, if any.
   */
  function Middleware<R>(a: Action, user: Option<User>, result: R): (r: (R, Option<ActivityDraft>))
    requires ArgsFit(a)
    ensures r.0 == result
    ensures r.1.Some? <==> IsFulfilledMutation(a) && user.Some? && a.endpoint in LoggedEndpoints
  {
    if IsFulfilledMutation(a) && user.Some? then (result, Entry(a, user.value)) else (result, None)
  }

  /** The entity an entry is about: the created record's id, the updated id, or the deleted argument. */
  lemma EntityIds(a: Action, user: User)
    requires ArgsFit(a) && a.endpoint in LoggedEndpoints
    ensures a.endpoint in ["createProject", "createTask", "createTeam"] ==>
      Entry(a, user).value.entityId == Lookup(a.payload, "id")
    ensures a.endpoint in ["updateProject", "updateTask", "updateTeam"] ==>
      Entry(a, user).value.entityId == Num(a.originalArgs.id)
    ensures a.endpoint in ["deleteProject", "deleteTask"] ==>
      Entry(a, user).value.entityId == Num(a.originalArgs.n)
  {
  }

  /** The kind and entity type of each endpoint's entry. */
  lemma EntryKinds(a: Action, user: User)
    requires ArgsFit(a) && a.endpoint in LoggedEndpoints
    ensures var e := Entry(a, user).value;
      (a.endpoint == "createProject" ==> e.activityType == ProjectCreated && e.entityType == ProjectEntity)
      && (a.endpoint == "updateProject" ==> e.activityType == ProjectUpdated && e.entityType == ProjectEntity)
      && (a.endpoint == "deleteProject" ==> e.activityType == ProjectDeleted && e.entityType == ProjectEntity)
      && (a.endpoint == "createTask" ==> e.activityType == TaskCreated && e.entityType == TaskEntity)
      && (a.endpoint == "updateTask" ==> e.activityType == TaskUpdateKind(a.originalArgs.data) && e.entityType == TaskEntity)
      && (a.endpoint == "deleteTask" ==> e.activityType == TaskDeleted && e.entityType == TaskEntity)
      && (a.endpoint == "createTeam" ==> e.activityType == TeamCreated && e.entityType == TeamEntity)
      && (a.endpoint == "updateTeam" ==> e.activityType == TeamUpdated && e.entityType == TeamEntity)
  {
  }

  /**
   * `updateTask` picks exactly one kind: a truthy status wins, then a
   * truthy assignee, else a plain update.
   */
  lemma UpdateTaskKinds(data: Obj)
    ensures TaskUpdateKind(data) == TaskStatusChanged <==> HasTruthy(data, "status")
    ensures TaskUpdateKind(data) == TaskAssigned <==> !HasTruthy(data, "status") && HasTruthy(data, "assigneeId")
    ensures TaskUpdateKind(data) == TaskUpdated <==> !HasTruthy(data, "status") && !HasTruthy(data, "assigneeId")
  {
  }

  /** The update of a project records the keys of the submitted data as its changes. */
  lemma ProjectChanges(a: Action, user: User)
    requires ArgsFit(a) && a.endpoint == "updateProject"
    ensures Entry(a, user).value.metadata.value[1] == ("changes", Names(Keys(a.originalArgs.data)))
  {
  }

  /**
   * Moving a task writes the new status with its first '_' turned into a
   * space, while `newStatus` keeps the raw value.
   */
  lemma StatusMessage(id: int, data: Obj, payload: Obj, user: User, status: string)
    requires Lookup(data, "status") == Str(status) && status != ""
    ensures var e := TaskUpdateEntry(id, data, payload, user);
      e.activityType == TaskStatusChanged
      && e.message == "moved task '" + Field(payload, "title") + "' to " + ReplaceFirst(status, '_', ' ')
      && e.metadata.value[1] == ("newStatus", Scalar(Str(status)))
  {
  }

  lemma InProgressMessage()
    ensures ReplaceFirst("in_progress", '_', ' ') == "in progress"
  {
    IndexOfAt("in_progress", '_', 2);
  }

  /**
   * The board's edit dialog sends the whole task, whose status is never
   * empty after normalisation, so every edit is logged as a status change.
   */
  lemma EditSaveIsStatusChange(t: Task, payload: Obj, user: User)
    requires t.status != ""
    ensures TaskUpdateKind(TaskObject(t)) == TaskStatusChanged
  {
    TaskObjectStatus(t);
  }

  /** No other endpoint (`createActivity` included) logs anything, so logging cannot feed itself. */
  lemma OtherEndpointsSilent(a: Action, user: Option<User>)
    requires ArgsFit(a) && a.endpoint !in LoggedEndpoints
    ensures Middleware(a, user, 0).1 == None
  {
  }

  lemma CreateActivitySilent(a: Action, user: Option<User>)
    requires a.endpoint == "createActivity"
    ensures Middleware(a, user, 0).1 == None
  {
    assert a.endpoint !in LoggedEndpoints;
  }
}
