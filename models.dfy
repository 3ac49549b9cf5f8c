/** The client's domain records and closed string unions. */
module Models {
  import opened Wrappers
  import Json

  /** `TaskStatus`. */
  datatype TaskStatus = Backlog | Todo | InProgress | Review | Done

  const AllTaskStatuses: seq<TaskStatus> := [Backlog, Todo, InProgress, Review, Done]

  function StatusName(s: TaskStatus): string
  {
    match s
    case Backlog => "backlog"
    case Todo => "todo"
    case InProgress => "in_progress"
    case Review => "review"
    case Done => "done"
  }

  function ParseTaskStatus(x: string): (r: Option<TaskStatus>)
    ensures r.Some? ==> StatusName(r.value) == x
  {
    if x == "backlog" then Some(Backlog)
    else if x == "todo" then Some(Todo)
    else if x == "in_progress" then Some(InProgress)
    else if x == "review" then Some(Review)
    else if x == "done" then Some(Done)
    else None
  }

  /** A string is a `TaskStatus` exactly when it is the name of one. */
  lemma TaskStatusNames(s: TaskStatus)
    ensures ParseTaskStatus(StatusName(s)) == Some(s)
    ensures s in AllTaskStatuses
  {
  }

  predicate IsTaskStatus(x: string)
  {
    ParseTaskStatus(x).Some?
  }

  /** `TaskPriority` and `ProjectPriority`, which are the same union. */
  datatype Priority = Low | Medium | High | Critical

  const AllPriorities: seq<Priority> := [Low, Medium, High, Critical]

  function PriorityName(p: Priority): string
  {
    match p
    case Low => "low"
    case Medium => "medium"
    case High => "high"
    case Critical => "critical"
  }

  function ParsePriority(x: string): (r: Option<Priority>)
    ensures r.Some? ==> PriorityName(r.value) == x
  {
    if x == "low" then Some(Low)
    else if x == "medium" then Some(Medium)
    else if x == "high" then Some(High)
    else if x == "critical" then Some(Critical)
    else None
  }

  lemma PriorityNames(p: Priority)
    ensures ParsePriority(PriorityName(p)) == Some(p)
    ensures p in AllPriorities
  {
  }

  /** `ProjectStatus`. */
  datatype ProjectStatus = Planning | Active | OnHold | Completed

  const AllProjectStatuses: seq<ProjectStatus> := [Planning, Active, OnHold, Completed]

  function ProjectStatusName(s: ProjectStatus): string
  {
    match s
    case Planning => "planning"
    case Active => "active"
    case OnHold => "on_hold"
    case Completed => "completed"
  }

  function ParseProjectStatus(x: string): (r: Option<ProjectStatus>)
    ensures r.Some? ==> ProjectStatusName(r.value) == x
  {
    if x == "planning" then Some(Planning)
    else if x == "active" then Some(Active)
    else if x == "on_hold" then Some(OnHold)
    else if x == "completed" then Some(Completed)
    else None
  }

  lemma ProjectStatusNames(s: ProjectStatus)
    ensures ParseProjectStatus(ProjectStatusName(s)) == Some(s)
    ensures s in AllProjectStatuses
  {
  }

  /** `ActivityType`: twelve kinds. */
  datatype ActivityType =
    | ProjectCreated | ProjectUpdated | ProjectDeleted
    | TaskCreated | TaskUpdated | TaskDeleted | TaskStatusChanged | TaskAssigned
    | TeamCreated | TeamUpdated | TeamMemberAdded | TeamMemberRemoved

  const AllActivityTypes: seq<ActivityType> := [
    ProjectCreated, ProjectUpdated, ProjectDeleted,
    TaskCreated, TaskUpdated, TaskDeleted, TaskStatusChanged, TaskAssigned,
    TeamCreated, TeamUpdated, TeamMemberAdded, TeamMemberRemoved ]

  function ActivityTypeName(t: ActivityType): string
  {
    match t
    case ProjectCreated => "project_created"
    case ProjectUpdated => "project_updated"
    case ProjectDeleted => "project_deleted"
    case TaskCreated => "task_created"
    case TaskUpdated => "task_updated"
    case TaskDeleted => "task_deleted"
    case TaskStatusChanged => "task_status_changed"
    case TaskAssigned => "task_assigned"
    case TeamCreated => "team_created"
    case TeamUpdated => "team_updated"
    case TeamMemberAdded => "team_member_added"
    case TeamMemberRemoved => "team_member_removed"
  }

  /** The twelve kinds are distinct and their names are distinct. */
  lemma ActivityTypesDistinct()
    ensures |AllActivityTypes| == 12
    ensures forall i, j :: 0 <= i < j < 12 ==>
      ActivityTypeName(AllActivityTypes[i]) != ActivityTypeName(AllActivityTypes[j])
    ensures forall t :: t in AllActivityTypes
  {
    forall t: ActivityType ensures t in AllActivityTypes {
      match t
      case ProjectCreated => assert AllActivityTypes[0] == t;
      case ProjectUpdated => assert AllActivityTypes[1] == t;
      case ProjectDeleted => assert AllActivityTypes[2] == t;
      case TaskCreated => assert AllActivityTypes[3] == t;
      case TaskUpdated => assert AllActivityTypes[4] == t;
      case TaskDeleted => assert AllActivityTypes[5] == t;
      case TaskStatusChanged => assert AllActivityTypes[6] == t;
      case TaskAssigned => assert AllActivityTypes[7] == t;
      case TeamCreated => assert AllActivityTypes[8] == t;
      case TeamUpdated => assert AllActivityTypes[9] == t;
      case TeamMemberAdded => assert AllActivityTypes[10] == t;
      case TeamMemberRemoved => assert AllActivityTypes[11] == t;
    }
  }

  /** `Activity['entityType']`. */
  datatype EntityType = ProjectEntity | TaskEntity | TeamEntity | UserEntity

  function EntityTypeName(e: EntityType): string
  {
    match e
    case ProjectEntity => "project"
    case TaskEntity => "task"
    case TeamEntity => "team"
    case UserEntity => "user"
  }

  /**
   * `Task` as the client receives it. `status` and `priority` are kept as the
   * raw strings the server sent (the client normalises them); a missing
   * string field is "", a missing `assigneeId` is `None`.
   */
  datatype Task = Task(
    id: int, title: string, description: string, projectId: int,
    status: string, priority: string, assigneeId: Option<int>, dueDate: string,
    estimatedHours: int, actualHours: int, createdAt: string, updatedAt: string)

  /** `Project`; a missing string field is "", a missing number `None`. */
  datatype Project = Project(
    id: int, name: string, description: string, status: string,
    teamId: Option<int>, ownerId: Option<int>, startDate: string, endDate: string,
    priority: string, progress: Option<int>, createdAt: string, updatedAt: string)

  /** `User`. */
  datatype User = User(id: int, email: string, name: string, role: string)

  /** `Team`. */
  datatype Team = Team(id: int, name: string, description: string, memberIds: seq<int>)

  /** `Activity` as listed by the server. */
  datatype Activity = Activity(
    id: int, activityType: string, entityType: string, entityId: int,
    userId: int, userName: string, message: string, timestamp: string)

  /** A metadata value: a scalar, or a list of strings such as the changed keys. */
  datatype MetaValue = Scalar(v: Json.Value) | Names(names: seq<string>)

  /**
   * The `Partial<Activity>` the client creates; `id` and `timestamp` are
   * added later. `entityId` is whatever value the action carried.
   */
  datatype ActivityDraft = ActivityDraft(
    activityType: ActivityType, entityType: EntityType, entityId: Json.Value,
    userId: int, userName: string, message: string,
    metadata: Option<seq<(string, MetaValue)>>)

  /** A task written out as the plain object the client sends. */
  function TaskObject(t: Task): Json.Obj
  {
    [("id", Json.Num(t.id)), ("title", Json.Str(t.title)), ("description", Json.Str(t.description)),
     ("projectId", Json.Num(t.projectId)), ("status", Json.Str(t.status)),
     ("priority", Json.Str(t.priority)),
     ("assigneeId", match t.assigneeId case Some(a) => Json.Num(a) case None => Json.Null),
     ("dueDate", Json.Str(t.dueDate)), ("estimatedHours", Json.Num(t.estimatedHours)),
     ("actualHours", Json.Num(t.actualHours)), ("createdAt", Json.Str(t.createdAt)),
     ("updatedAt", Json.Str(t.updatedAt))]
  }

  /** The object's `status` is the task's status. */
  lemma TaskObjectStatus(t: Task)
    ensures Json.Lookup(TaskObject(t), "status") == Json.Str(t.status)
  {
    var o := TaskObject(t);
    assert o[0].0 != "status" && o[1].0 != "status" && o[2].0 != "status" && o[3].0 != "status";
    assert o[4] == ("status", Json.Str(t.status));
    assert o[1..][1..][1..][1..] == o[4..];
    assert Json.Get(o[4..], "status") == Some(Json.Str(t.status));
    assert Json.Get(o[3..], "status") == Json.Get(o[4..], "status") by { assert o[3..][1..] == o[4..]; }
    assert Json.Get(o[2..], "status") == Json.Get(o[3..], "status") by { assert o[2..][1..] == o[3..]; }
    assert Json.Get(o[1..], "status") == Json.Get(o[2..], "status") by { assert o[1..][1..] == o[2..]; }
  }

  /** `TaskFilters`. */
  datatype TaskFilters = TaskFilters(
    status: Option<TaskStatus>, priority: Option<Priority>, projectId: Option<int>,
    assigneeId: Option<int>, search: Option<string>)

  const NoTaskFilters := TaskFilters(None, None, None, None, None)

  /** `ProjectFilters`. */
  datatype ProjectFilters = ProjectFilters(
    status: Option<ProjectStatus>, teamId: Option<int>, ownerId: Option<int>, search: Option<string>)

  const NoProjectFilters := ProjectFilters(None, None, None, None)

  /** `ActivityFilters`. */
  datatype ActivityFilters = ActivityFilters(
    entityType: Option<EntityType>, userId: Option<int>, startDate: Option<string>, endDate: Option<string>)

  const NoActivityFilters := ActivityFilters(None, None, None, None)
}
