/**
 * The dashboard's activity feed: the ten most recent activities, each
 * with a coloured chip naming its type.
 */
module ActivityFeed {
  import opened Wrappers
  import opened Text
  import opened Seqs
  import opened Models
  import opened Records

  /** `(activities || []).slice(0, 10)`: the shown activities, in the order given. */
  function Recent(activities: Option<seq<Activity>>): (r: seq<Activity>)
    ensures |r| <= 10
    ensures activities.None? ==> r == []
    ensures activities.Some? ==> |r| <= |activities.value| && r == activities.value[..|r|]
    ensures activities.Some? && |activities.value| <= 10 ==> r == activities.value
    ensures activities.Some? && |activities.value| > 10 ==> |r| == 10
  {
    Take(activities.GetOr([]), 10)
  }

  /** `isEmpty`: the "No activities yet" panel. */
  predicate IsEmpty(activities: Option<seq<Activity>>, isLoading: bool)
  {
    !isLoading && |Recent(activities)| == 0
  }

  /** The empty panel shows exactly when nothing is loading and there is nothing to list. */
  lemma EmptyIffNothing(activities: Option<seq<Activity>>, isLoading: bool)
    ensures IsEmpty(activities, isLoading) <==> !isLoading && (activities.None? || activities.value == [])
  {
    if activities.Some? && activities.value != [] {
      assert |Recent(activities)| >= 1;
    }
  }

  /**
   * `getActivityTypeColor`: the first of "created", "updated", "deleted"
   * and "assigned" that the type contains decides the colour.
   */
  function TypeColor(t: string): (c: string)
    ensures c == "success" <==> Contains(t, "created")
    ensures c == "info" <==> !Contains(t, "created") && Contains(t, "updated")
    ensures c == "error" <==> !Contains(t, "created") && !Contains(t, "updated") && Contains(t, "deleted")
    ensures c == "warning" <==>
      !Contains(t, "created") && !Contains(t, "updated") && !Contains(t, "deleted") && Contains(t, "assigned")
    ensures c == "default" <==>
      !Contains(t, "created") && !Contains(t, "updated") && !Contains(t, "deleted") && !Contains(t, "assigned")
  {
    if Includes(t, "created") then "success"
    else if Includes(t, "updated") then "info"
    else if Includes(t, "deleted") then "error"
    else if Includes(t, "assigned") then "warning"
    else "default"
  }

  /** `labelMap`. */
  const Labels: map<string, string> := map[
    "project_created" := "Project Created",
    "project_updated" := "Project Updated",
    "project_deleted" := "Project Deleted",
    "task_created" := "Task Created",
    "task_updated" := "Task Updated",
    "task_deleted" := "Task Deleted",
    "task_status_changed" := "Status Changed",
    "task_assigned" := "Task Assigned",
    "team_created" := "Team Created",
    "team_updated" := "Team Updated",
    "team_member_added" := "Member Added",
    "team_member_removed" := "Member Removed"]

  /**
   * `labelMap[type] || type`. A type named like a member of
   * `Object.prototype` reads that member, which is no string.
   */
  function Label(t: string): (r: Prop<string>)
    ensures t in Labels ==> r == Own(Labels[t])
    ensures t !in Labels && t !in PrototypeNames ==> r == Own(t)
    ensures r.Inherited? <==> t !in Labels && t in PrototypeNames
  {
    IndexOr(Labels, t, t)
  }

  /** The labelled types are exactly the twelve activity types. */
  lemma LabelledTypes()
    ensures forall a: ActivityType :: ActivityTypeName(a) in Labels
    ensures forall k :: k in Labels ==> exists a: ActivityType :: ActivityTypeName(a) == k
  {
    forall k | k in Labels ensures exists a: ActivityType :: ActivityTypeName(a) == k {
      if k == ActivityTypeName(ProjectCreated) {
        assert ActivityTypeName(ProjectCreated) == k;
      } else if k == ActivityTypeName(ProjectUpdated) {
        assert ActivityTypeName(ProjectUpdated) == k;
      } else if k == ActivityTypeName(ProjectDeleted) {
        assert ActivityTypeName(ProjectDeleted) == k;
      } else if k == ActivityTypeName(TaskCreated) {
        assert ActivityTypeName(TaskCreated) == k;
      } else if k == ActivityTypeName(TaskUpdated) {
        assert ActivityTypeName(TaskUpdated) == k;
      } else if k == ActivityTypeName(TaskDeleted) {
        assert ActivityTypeName(TaskDeleted) == k;
      } else if k == ActivityTypeName(TaskStatusChanged) {
        assert ActivityTypeName(TaskStatusChanged) == k;
      } else if k == ActivityTypeName(TaskAssigned) {
        assert ActivityTypeName(TaskAssigned) == k;
      } else if k == ActivityTypeName(TeamCreated) {
        assert ActivityTypeName(TeamCreated) == k;
      } else if k == ActivityTypeName(TeamUpdated) {
        assert ActivityTypeName(TeamUpdated) == k;
      } else if k == ActivityTypeName(TeamMemberAdded) {
        assert ActivityTypeName(TeamMemberAdded) == k;
      } else {
        assert ActivityTypeName(TeamMemberRemoved) == k;
      }
    }
  }

  /** Every activity type has a label of its own: the chip tells the types apart. */
  lemma LabelsTellTypesApart(a: ActivityType, b: ActivityType)
    requires a != b
    ensures Label(ActivityTypeName(a)) != Label(ActivityTypeName(b))
  {
    LabelOfType(a);
    LabelOfType(b);
  }

  /** The chip text of each activity type. */
  function TypeLabel(a: ActivityType): string
  {
    match a
    case ProjectCreated => "Project Created"
    case ProjectUpdated => "Project Updated"
    case ProjectDeleted => "Project Deleted"
    case TaskCreated => "Task Created"
    case TaskUpdated => "Task Updated"
    case TaskDeleted => "Task Deleted"
    case TaskStatusChanged => "Status Changed"
    case TaskAssigned => "Task Assigned"
    case TeamCreated => "Team Created"
    case TeamUpdated => "Team Updated"
    case TeamMemberAdded => "Member Added"
    case TeamMemberRemoved => "Member Removed"
  }

  lemma LabelOfType(a: ActivityType)
    ensures Label(ActivityTypeName(a)) == Own(TypeLabel(a))
  {
  }

  /**
   * A status change is labelled "Status Changed"; a type the map lacks
   * shows as it is, unless it names an inherited member.
   */
  lemma StatusChangeLabel(t: string)
    requires t !in Labels
    ensures Label("task_status_changed") == Own("Status Changed")
    ensures Label(t) == if t in PrototypeNames then Inherited(t) else Own(t)
  {
  }

  /** The colour each logged type gets. */
  function LoggedColor(a: ActivityType): string
  {
    match a
    case ProjectCreated | TaskCreated | TeamCreated => "success"
    case ProjectUpdated | TaskUpdated | TeamUpdated => "info"
    case ProjectDeleted | TaskDeleted => "error"
    case TaskAssigned => "warning"
    case TaskStatusChanged | TeamMemberAdded | TeamMemberRemoved => "default"
  }

  /**
   * The colours of the twelve activity types: status changes and team
   * membership changes contain none of the four words and fall to "default".
   */
  lemma TypeColors(a: ActivityType)
    ensures TypeColor(ActivityTypeName(a)) == LoggedColor(a)
  {
    match a
    case ProjectCreated => ProjectCreatedColor();
    case ProjectUpdated => ProjectUpdatedColor();
    case ProjectDeleted => ProjectDeletedColor();
    case TaskCreated => TaskCreatedColor();
    case TaskUpdated => TaskUpdatedColor();
    case TaskDeleted => TaskDeletedColor();
    case TaskStatusChanged => TaskStatusChangedColor();
    case TaskAssigned => TaskAssignedColor();
    case TeamCreated => TeamCreatedColor();
    case TeamUpdated => TeamUpdatedColor();
    case TeamMemberAdded => TeamMemberAddedColor();
    case TeamMemberRemoved => TeamMemberRemovedColor();
  }

  // One helper per type keeps each string literal's facts in a context of its own.

  lemma ProjectCreatedColor()
    ensures TypeColor("project_created") == "success"
  {
    var s := "project_created";
    assert s[8..15] == "created";
    assert OccursAt(s, "created", 8);
  }

  lemma ProjectUpdatedColor()
    ensures TypeColor("project_updated") == "info"
  {
    var s := "project_updated";
    ProjectUpdatedNotCreated();
    assert s[8..15] == "updated";
    assert OccursAt(s, "updated", 8);
  }

  lemma ProjectDeletedColor()
    ensures TypeColor("project_deleted") == "error"
  {
    var s := "project_deleted";
    assert 'a' !in s && 'u' !in s;
    MissingCharNotContained(s, "created", 'a');
    MissingCharNotContained(s, "updated", 'u');
    assert s[8..15] == "deleted";
    assert OccursAt(s, "deleted", 8);
  }

  lemma TaskCreatedColor()
    ensures TypeColor("task_created") == "success"
  {
    var s := "task_created";
    assert s[5..12] == "created";
    assert OccursAt(s, "created", 5);
  }

  lemma TaskUpdatedColor()
    ensures TypeColor("task_updated") == "info"
  {
    var s := "task_updated";
    MissingCharNotContained(s, "created", 'c');
    assert s[5..12] == "updated";
    assert OccursAt(s, "updated", 5);
  }

  lemma TaskDeletedColor()
    ensures TypeColor("task_deleted") == "error"
  {
    var s := "task_deleted";
    MissingCharNotContained(s, "created", 'c');
    MissingCharNotContained(s, "updated", 'u');
    assert s[5..12] == "deleted";
    assert OccursAt(s, "deleted", 5);
  }

  lemma TaskStatusChangedColor()
    ensures TypeColor("task_status_changed") == "default"
  {
    var s := "task_status_changed";
    assert 'r' !in s && 'p' !in s && 'l' !in s && 'i' !in s;
    MissingCharNotContained(s, "created", 'r');
    MissingCharNotContained(s, "updated", 'p');
    MissingCharNotContained(s, "deleted", 'l');
    MissingCharNotContained(s, "assigned", 'i');
  }

  lemma TaskAssignedColor()
    ensures TypeColor("task_assigned") == "warning"
  {
    var s := "task_assigned";
    assert 'c' !in s && 'u' !in s && 'l' !in s;
    MissingCharNotContained(s, "created", 'c');
    MissingCharNotContained(s, "updated", 'u');
    MissingCharNotContained(s, "deleted", 'l');
    assert s[5..13] == "assigned";
    assert OccursAt(s, "assigned", 5);
  }

  lemma TeamCreatedColor()
    ensures TypeColor("team_created") == "success"
  {
    var s := "team_created";
    assert s[5..12] == "created";
    assert OccursAt(s, "created", 5);
  }

  lemma TeamUpdatedColor()
    ensures TypeColor("team_updated") == "info"
  {
    var s := "team_updated";
    MissingCharNotContained(s, "created", 'c');
    assert s[5..12] == "updated";
    assert OccursAt(s, "updated", 5);
  }

  lemma TeamMemberAddedColor()
    ensures TypeColor("team_member_added") == "default"
  {
    var s := "team_member_added";
    assert 'c' !in s && 'u' !in s && 'l' !in s && 's' !in s;
    MissingCharNotContained(s, "created", 'c');
    MissingCharNotContained(s, "updated", 'u');
    MissingCharNotContained(s, "deleted", 'l');
    MissingCharNotContained(s, "assigned", 's');
  }

  lemma TeamMemberRemovedColor()
    ensures TypeColor("team_member_removed") == "default"
  {
    var s := "team_member_removed";
    assert 'c' !in s && 'u' !in s && 'l' !in s && 's' !in s;
    MissingCharNotContained(s, "created", 'c');
    MissingCharNotContained(s, "updated", 'u');
    MissingCharNotContained(s, "deleted", 'l');
    MissingCharNotContained(s, "assigned", 's');
  }

  /** "project_updated" has all the letters of "created", but not the word. */
  lemma ProjectUpdatedNotCreated()
    ensures !Contains("project_updated", "created")
  {
    var s := "project_updated";
    var t := "created";
    assert s[8..15][0] != t[0];
    assert !IncludesFrom(s, t, 9);
    assert !IncludesFrom(s, t, 8);
    assert s[7..14][0] != t[0];
    assert !IncludesFrom(s, t, 7);
    assert s[6..13][0] != t[0];
    assert !IncludesFrom(s, t, 6);
    assert s[5..12][1] != t[1];
    assert !IncludesFrom(s, t, 5);
    assert s[4..11][0] != t[0];
    assert !IncludesFrom(s, t, 4);
    assert s[3..10][0] != t[0];
    assert !IncludesFrom(s, t, 3);
    assert s[2..9][0] != t[0];
    assert !IncludesFrom(s, t, 2);
    assert s[1..8][0] != t[0];
    assert !IncludesFrom(s, t, 1);
    assert s[0..7][0] != t[0];
    assert !IncludesFrom(s, t, 0);
  }
}
