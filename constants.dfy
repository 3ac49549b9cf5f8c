/** Configuration constants shared by the client. */
module Constants {
  import opened Models

  const AuthTokenKey := "auth_token"
  const UserKey := "user"

  /** A `{ label, color }` entry of a configuration table. */
  datatype Meta = Meta(caption: string, color: string)

  /** `TASK_STATUSES`, in declaration order. */
  const TaskStatuses: seq<(string, Meta)> := [
    ("backlog", Meta("Backlog", "#9e9e9e")),
    ("todo", Meta("To Do", "#2196f3")),
    ("in_progress", Meta("In Progress", "#ff9800")),
    ("review", Meta("Review", "#9c27b0")),
    ("done", Meta("Done", "#4caf50"))]

  /** `PRIORITIES`, in declaration order. */
  const Priorities: seq<(string, Meta)> := [
    ("low", Meta("Low", "#4caf50")),
    ("medium", Meta("Medium", "#ff9800")),
    ("high", Meta("High", "#f44336")),
    ("critical", Meta("Critical", "#d32f2f"))]

  /** `PROJECT_STATUSES`, in declaration order. */
  const ProjectStatuses: seq<(string, Meta)> := [
    ("planning", Meta("Planning", "#2196f3")),
    ("active", Meta("Active", "#4caf50")),
    ("on_hold", Meta("On Hold", "#ff9800")),
    ("completed", Meta("Completed", "#9e9e9e"))]

  /** The status table lists exactly the `TaskStatus` values, in order. */
  lemma TaskStatusesMatchModel()
    ensures |TaskStatuses| == |AllTaskStatuses|
    ensures forall i :: 0 <= i < |TaskStatuses| ==> TaskStatuses[i].0 == StatusName(AllTaskStatuses[i])
  {
  }

  /** The priority table lists exactly the `Priority` values, in order. */
  lemma PrioritiesMatchModel()
    ensures |Priorities| == |AllPriorities|
    ensures forall i :: 0 <= i < |Priorities| ==> Priorities[i].0 == PriorityName(AllPriorities[i])
  {
  }

  /** The project status table lists exactly the `ProjectStatus` values, in order. */
  lemma ProjectStatusesMatchModel()
    ensures |ProjectStatuses| == |AllProjectStatuses|
    ensures forall i :: 0 <= i < |ProjectStatuses| ==> ProjectStatuses[i].0 == ProjectStatusName(AllProjectStatuses[i])
  {
  }

  /** `TASK_STATUSES[s]`. */
  function TaskStatusMeta(s: TaskStatus): (m: Meta)
    ensures (StatusName(s), m) in TaskStatuses
  {
    match s
    case Backlog => TaskStatuses[0].1
    case Todo => TaskStatuses[1].1
    case InProgress => TaskStatuses[2].1
    case Review => TaskStatuses[3].1
    case Done => TaskStatuses[4].1
  }

  /** `PROJECT_STATUSES[s]`. */
  function ProjectStatusMeta(s: ProjectStatus): (m: Meta)
    ensures (ProjectStatusName(s), m) in ProjectStatuses
  {
    match s
    case Planning => ProjectStatuses[0].1
    case Active => ProjectStatuses[1].1
    case OnHold => ProjectStatuses[2].1
    case Completed => ProjectStatuses[3].1
  }

  /** Each label names one status, so a label shown in the UI identifies its status. */
  lemma StatusCaptionsDistinct(s: TaskStatus, t: TaskStatus, p: ProjectStatus, q: ProjectStatus)
    ensures TaskStatusMeta(s).caption == TaskStatusMeta(t).caption ==> s == t
    ensures ProjectStatusMeta(p).caption == ProjectStatusMeta(q).caption ==> p == q
  {
  }

  // VALIDATION_RULES
  const PasswordMinLength := 6
  const NameMinLength := 2
  const ProjectNameMinLength := 3
  const ProjectNameMaxLength := 100
  const TaskTitleMinLength := 3
  const TaskTitleMaxLength := 200

  const DefaultPageSize := 20
  const ActivityPageSize := 20
}
