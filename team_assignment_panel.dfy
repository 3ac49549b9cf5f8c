/**
 * The team panel on a project's page: the teams assigned to the project,
 * the members each contributes, and the dialogs that assign and remove them.
 */
module TeamAssignmentPanel {
  import opened Wrappers
  import opened Seqs
  import opened Models
  import Tables
  import Backend
  import Api

  /** A row of the project's team list: the link's id and the team it names. */
  datatype ProjectTeam = ProjectTeam(id: int, teamId: int, name: string)

  predicate Assigned(pts: seq<ProjectTeam>, teamId: int)
  {
    exists i :: 0 <= i < |pts| && pts[i].teamId == teamId
  }

  function NotAssigned(pts: seq<ProjectTeam>): Team -> bool
  {
    (t: Team) => !Assigned(pts, t.id)
  }

  /** `availableTeams`: the teams the project does not have yet, in list order. */
  function AvailableTeams(all: seq<Team>, pts: seq<ProjectTeam>): (r: seq<Team>)
    ensures forall t :: t in r <==> t in all && !Assigned(pts, t.id)
    ensures Subseq(r, all)
  {
    var r := Filter(all, NotAssigned(pts));
    forall t | t in all && !Assigned(pts, t.id) ensures t in r {
      var i :| 0 <= i < |all| && all[i] == t;
      assert NotAssigned(pts)(all[i]);
    }
    FilterIsSubseq(all, NotAssigned(pts));
    r
  }

  /** "Add Team" is disabled exactly when every team is already assigned. */
  lemma AddTeamDisabledIff(all: seq<Team>, pts: seq<ProjectTeam>)
    ensures |AvailableTeams(all, pts)| == 0 <==> forall t :: t in all ==> Assigned(pts, t.id)
  {
    if |AvailableTeams(all, pts)| != 0 {
      assert AvailableTeams(all, pts)[0] in AvailableTeams(all, pts);
    }
  }

  /** The list shows every link of the project. */
  predicate ListsLinks(db: Backend.Db, projectId: int, pts: seq<ProjectTeam>)
  {
    forall l :: l in db.links && l.projectId == projectId ==> Assigned(pts, l.teamId)
  }

  /** A team offered in the dialog can be linked without breaking `UNIQUE("projectId", "teamId")`. */
  lemma OfferedTeamIsNew(db: Backend.Db, projectId: int, all: seq<Team>, pts: seq<ProjectTeam>, t: Team)
    requires ListsLinks(db, projectId, pts)
    requires t in AvailableTeams(all, pts)
    ensures !Tables.HasKey(db.links, Backend.LinkKey, (projectId, t.id))
  {
  }

  function InTeam(teamId: int): Backend.MemberRow -> bool
  {
    (m: Backend.MemberRow) => m.teamId == teamId
  }

  function UserIdOf(m: Backend.MemberRow): int
  {
    m.userId
  }

  /** `teamMembersForSelectedTeam`: nothing until a team is chosen. */
  function TeamMembers(members: seq<Backend.MemberRow>, selected: Option<int>): (r: seq<Backend.MemberRow>)
    ensures selected.GetOr(0) == 0 ==> r == []
    ensures selected.GetOr(0) != 0 ==> forall m :: m in r <==> m in members && m.teamId == selected.value
  {
    if selected.GetOr(0) != 0 then
      var r := Filter(members, InTeam(selected.value));
      forall m | m in members && m.teamId == selected.value ensures m in r {
        var i :| 0 <= i < |members| && members[i] == m;
        assert InTeam(selected.value)(members[i]);
      }
      r
    else []
  }

  /** The member rows of `team` that hold `userId`. */
  predicate Holds(members: seq<Backend.MemberRow>, team: int, userId: int)
  {
    exists i :: 0 <= i < |members| && members[i].teamId == team && members[i].userId == userId
  }

  function NotUsed(used: seq<int>): User -> bool
  {
    (u: User) => u.id !in used
  }

  /**
   * `availableMembers`: the users not yet on the chosen team of this
   * project; with no team chosen, every user.
   */
  function AvailableMembers(users: seq<User>, members: seq<Backend.MemberRow>, selected: Option<int>): (r: seq<User>)
    ensures forall u :: u in r <==> u in users && (selected.GetOr(0) != 0 ==> !Holds(members, selected.value, u.id))
    ensures Subseq(r, users)
  {
    var used := Map(TeamMembers(members, selected), UserIdOf);
    var r := Filter(users, NotUsed(used));
    forall u ensures u in r <==> u in users && (selected.GetOr(0) != 0 ==> !Holds(members, selected.value, u.id)) {
      if selected.GetOr(0) != 0 && Holds(members, selected.value, u.id) {
        var i :| 0 <= i < |members| && members[i].teamId == selected.value && members[i].userId == u.id;
        assert members[i] in TeamMembers(members, selected);
        var k :| 0 <= k < |TeamMembers(members, selected)| && TeamMembers(members, selected)[k] == members[i];
        assert used[k] == u.id;
      } else if u in users {
        var i :| 0 <= i < |users| && users[i] == u;
        assert NotUsed(used)(users[i]);
      }
    }
    FilterIsSubseq(users, NotUsed(used));
    r
  }

  /** With no team chosen the member dialog offers every user, in order. */
  lemma NoTeamOffersEveryone(users: seq<User>, members: seq<Backend.MemberRow>, selected: Option<int>)
    requires selected.GetOr(0) == 0
    ensures AvailableMembers(users, members, selected) == users
  {
    FilterAllTrue(users, NotUsed([]));
  }

  /** The panel's members are the project's rows of `project_team_members`. */
  predicate ProjectMembers(db: Backend.Db, projectId: int, members: seq<Backend.MemberRow>)
  {
    forall m :: m in db.members ==> (m.projectId == projectId <==> m in members)
  }

  /**
   * The dialog offers exactly the users the server would accept on that
   * team without a `UNIQUE("projectId", "teamId", "userId")` violation.
   */
  lemma OfferedIffNotOnTeam(db: Backend.Db, projectId: int, teamId: int, users: seq<User>,
                            members: seq<Backend.MemberRow>, u: User)
    requires ProjectMembers(db, projectId, members) && (forall m :: m in members ==> m in db.members)
    requires teamId != 0 && u in users
    ensures u in AvailableMembers(users, members, Some(teamId))
      <==> !Tables.HasKey(db.members, Backend.MemberKey, (projectId, teamId, u.id))
  {
    if Tables.HasKey(db.members, Backend.MemberKey, (projectId, teamId, u.id)) {
      var j :| 0 <= j < |db.members| && Backend.MemberKey(db.members[j]) == (projectId, teamId, u.id);
      assert db.members[j] in db.members;
      var i :| 0 <= i < |members| && members[i] == db.members[j];
      assert Holds(members, teamId, u.id);
    }
    if Holds(members, teamId, u.id) {
      var i :| 0 <= i < |members| && members[i].teamId == teamId && members[i].userId == u.id;
      assert members[i] in members;
      var j :| 0 <= j < |db.members| && db.members[j] == members[i];
      assert Backend.MemberKey(db.members[j]) == (projectId, teamId, u.id);
    }
  }

  /** `selectedPosition || undefined`. */
  function PositionArg(selected: Option<int>): (r: Option<int>)
    ensures r.Some? <==> selected.GetOr(0) != 0
    ensures r.Some? ==> r == selected
  {
    if selected.GetOr(0) != 0 then selected else None
  }

  /** "No Position" is stored as `NULL`; a chosen position is stored as chosen. */
  lemma AssignedPositionStored(db: Backend.Db, projectId: int, teamId: int, userId: int, selected: Option<int>)
    requires Backend.AddMember(db, projectId, teamId, userId, PositionArg(selected)).1.Ok?
    ensures Backend.AddMember(db, projectId, teamId, userId, PositionArg(selected)).1.value.positionId
      == (if selected.GetOr(0) != 0 then selected else None)
  {
  }

  /** The panel's state, all of it. */
  datatype View = View(
    teamDialogOpen: bool, selectedTeamId: Option<int>, memberDialogOpen: bool,
    selectedTeamForMembers: Option<int>, selectedMember: Option<int>, selectedPosition: Option<int>,
    error: Option<string>, loading: bool)

  /** A handler's effect on the server: nothing, or a request and whether it succeeded (then the lists are refetched). */
  datatype Outcome = NotSent | Sent(request: Api.Mutation, succeeded: bool)

  const AssignTeamFailed := "Failed to assign team"
  const RemoveTeamFailed := "Failed to remove team"
  const AssignMemberFailed := "Failed to assign member"
  const RemoveMemberFailed := "Failed to remove member"

  class Panel {
    const projectId: int
    var teamDialogOpen: bool
    var selectedTeamId: Option<int>
    var memberDialogOpen: bool
    var selectedTeamForMembers: Option<int>
    var selectedMember: Option<int>
    var selectedPosition: Option<int>
    var error: Option<string>
    var loading: bool

    function Current(): View
      reads this
    {
      View(teamDialogOpen, selectedTeamId, memberDialogOpen, selectedTeamForMembers, selectedMember,
           selectedPosition, error, loading)
    }

    constructor (projectId: int)
      ensures this.projectId == projectId
      ensures Current() == View(false, None, false, None, None, None, None, false)
    {
      this.projectId := projectId;
      teamDialogOpen := false;
      selectedTeamId := None;
      memberDialogOpen := false;
      selectedTeamForMembers := None;
      selectedMember := None;
      selectedPosition := None;
      error := None;
      loading := false;
    }

    /** "Assign Team" in the dialog is disabled without a chosen team or while loading. */
    predicate AssignTeamDisabled()
      reads this
    {
      selectedTeamId.GetOr(0) == 0 || loading
    }

    /** "Assign" in the member dialog is disabled without a member and a team, or while loading. */
    predicate AssignMemberDisabled()
      reads this
    {
      selectedMember.GetOr(0) == 0 || selectedTeamForMembers.GetOr(0) == 0 || loading
    }

    /** The position select: "No Position" (the empty value) is `null`. */
    method SelectPosition(value: int)
      modifies this
      ensures Current() == old(Current()).(selectedPosition := if value == 0 then None else Some(value))
    {
      selectedPosition := if value == 0 then None else Some(value);
    }

    /**
     * `handleAssignTeam`: without a chosen team nothing happens; otherwise
     * it links the team, then closes the dialog and clears the choice, or
     * shows the failure; loading ends in both cases.
     */
    method HandleAssignTeam(succeeded: bool) returns (outcome: Outcome)
      modifies this
      ensures old(selectedTeamId).GetOr(0) == 0 ==> outcome == NotSent && Current() == old(Current())
      ensures old(selectedTeamId).GetOr(0) != 0 ==>
        outcome == Sent(Api.AssignTeam(projectId, old(selectedTeamId).value), succeeded)
        && Current() == (if succeeded then old(Current()).(teamDialogOpen := false, selectedTeamId := None, loading := false)
                         else old(Current()).(error := Some(AssignTeamFailed), loading := false))
    {
      if selectedTeamId.GetOr(0) == 0 {
        return NotSent;
      }
      loading := true;
      outcome := Sent(Api.AssignTeam(projectId, selectedTeamId.value), succeeded);
      if succeeded {
        teamDialogOpen := false;
        selectedTeamId := None;
      } else {
        error := Some(AssignTeamFailed);
      }
      loading := false;
    }

    /** `handleRemoveTeam(teamId)`, after the confirmation prompt answered `confirmed`. */
    method HandleRemoveTeam(teamId: int, confirmed: bool, succeeded: bool) returns (outcome: Outcome)
      modifies this
      ensures !confirmed ==> outcome == NotSent && Current() == old(Current())
      ensures confirmed ==>
        outcome == Sent(Api.RemoveTeam(projectId, teamId), succeeded)
        && Current() == (if succeeded then old(Current()).(loading := false)
                         else old(Current()).(error := Some(RemoveTeamFailed), loading := false))
    {
      if !confirmed {
        return NotSent;
      }
      loading := true;
      outcome := Sent(Api.RemoveTeam(projectId, teamId), succeeded);
      if !succeeded {
        error := Some(RemoveTeamFailed);
      }
      loading := false;
    }

    /**
     * `handleAssignMember`: needs a member and a team; the position is sent
     * only when one is chosen; success closes the dialog and clears the
     * member and position but keeps the team.
     */
    method HandleAssignMember(succeeded: bool) returns (outcome: Outcome)
      modifies this
      ensures old(selectedMember).GetOr(0) == 0 || old(selectedTeamForMembers).GetOr(0) == 0 ==>
        outcome == NotSent && Current() == old(Current())
      ensures old(selectedMember).GetOr(0) != 0 && old(selectedTeamForMembers).GetOr(0) != 0 ==>
        outcome == Sent(Api.AssignMember(projectId, old(selectedTeamForMembers).value, old(selectedMember).value,
                                         PositionArg(old(selectedPosition))), succeeded)
        && Current() == (if succeeded then
                           old(Current()).(memberDialogOpen := false, selectedMember := None,
                                           selectedPosition := None, loading := false)
                         else old(Current()).(error := Some(AssignMemberFailed), loading := false))
    {
      if selectedMember.GetOr(0) == 0 || selectedTeamForMembers.GetOr(0) == 0 {
        return NotSent;
      }
      loading := true;
      outcome := Sent(Api.AssignMember(projectId, selectedTeamForMembers.value, selectedMember.value,
                                       PositionArg(selectedPosition)), succeeded);
      if succeeded {
        memberDialogOpen := false;
        selectedMember := None;
        selectedPosition := None;
      } else {
        error := Some(AssignMemberFailed);
      }
      loading := false;
    }

    /** `handleRemoveMember(memberId)`, after the confirmation prompt. */
    method HandleRemoveMember(memberId: int, confirmed: bool, succeeded: bool) returns (outcome: Outcome)
      modifies this
      ensures !confirmed ==> outcome == NotSent && Current() == old(Current())
      ensures confirmed ==>
        outcome == Sent(Api.RemoveMember(memberId), succeeded)
        && Current() == (if succeeded then old(Current()).(loading := false)
                         else old(Current()).(error := Some(RemoveMemberFailed), loading := false))
    {
      if !confirmed {
        return NotSent;
      }
      loading := true;
      outcome := Sent(Api.RemoveMember(memberId), succeeded);
      if !succeeded {
        error := Some(RemoveMemberFailed);
      }
      loading := false;
    }
  }
}
