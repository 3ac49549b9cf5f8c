/**
 * The backend as the running process holds it: one database whose tables
 * each mutating endpoint rewrites in place. Every method performs the
 * statement its endpoint's function in `Backend` describes and keeps the
 * schema's constraints.
 */
module BackendServer {
  import opened Wrappers
  import opened Backend

  class Server {
    var db: Db

    /** The tables `initDb` creates, before seeding. */
    constructor ()
      ensures db == EmptyDb() && Valid(db)
    {
      db := EmptyDb();
    }

    method Register(email: Option<string>, password: Option<string>, name: Option<string>, hash: string -> string)
      returns (r: Reply<UserView>)
      requires Valid(db)
      modifies this
      ensures (db, r) == Backend.Register(old(db), email, password, name, hash) && Valid(db)
    {
      RegisterValid(db, email, password, name, hash);
      var next := Backend.Register(db, email, password, name, hash);
      db, r := next.0, next.1;
    }

    method PatchUser(id: int, b: UserPatch, hash: string -> string) returns (r: Reply<UserView>)
      requires Valid(db)
      modifies this
      ensures (db, r) == Backend.PatchUser(old(db), id, b, hash) && Valid(db)
    {
      PatchUserValid(db, id, b, hash);
      var next := Backend.PatchUser(db, id, b, hash);
      db, r := next.0, next.1;
    }

    method DeleteUser(id: int) returns (r: Reply<bool>)
      requires Valid(db)
      modifies this
      ensures (db, r) == Backend.DeleteUser(old(db), id) && Valid(db)
    {
      DeleteUserValid(db, id);
      var next := Backend.DeleteUser(db, id);
      db, r := next.0, next.1;
    }

    method CreateProject(b: ProjectBody, now: int) returns (r: Reply<ProjectRow>)
      requires Valid(db)
      modifies this
      ensures (db, r) == Backend.CreateProject(old(db), b, now) && Valid(db)
    {
      CreateProjectValid(db, b, now);
      var next := Backend.CreateProject(db, b, now);
      db, r := next.0, next.1;
    }

    method PatchProject(id: int, b: ProjectBody, now: int) returns (r: Reply<ProjectRow>)
      requires Valid(db)
      modifies this
      ensures (db, r) == Backend.PatchProject(old(db), id, b, now) && Valid(db)
    {
      PatchProjectValid(db, id, b, now);
      var next := Backend.PatchProject(db, id, b, now);
      db, r := next.0, next.1;
    }

    method DeleteProject(id: int) returns (r: Reply<bool>)
      requires Valid(db)
      modifies this
      ensures (db, r) == Backend.DeleteProject(old(db), id) && Valid(db)
    {
      DeleteProjectValid(db, id);
      var next := Backend.DeleteProject(db, id);
      db, r := next.0, next.1;
    }

    method AddProjectTeam(projectId: int, teamId: int) returns (r: Reply<LinkRow>)
      requires Valid(db)
      modifies this
      ensures (db, r) == Backend.AddProjectTeam(old(db), projectId, teamId) && Valid(db)
    {
      AddProjectTeamValid(db, projectId, teamId);
      var next := Backend.AddProjectTeam(db, projectId, teamId);
      db, r := next.0, next.1;
    }

    method RemoveProjectTeam(projectId: int, teamId: int) returns (r: Reply<bool>)
      requires Valid(db)
      modifies this
      ensures (db, r) == Backend.RemoveProjectTeam(old(db), projectId, teamId) && Valid(db)
    {
      RemoveProjectTeamValid(db, projectId, teamId);
      var next := Backend.RemoveProjectTeam(db, projectId, teamId);
      db, r := next.0, next.1;
    }

    method CreatePosition(teamId: int, name: Option<string>, description: Option<string>) returns (r: Reply<PositionRow>)
      requires Valid(db)
      modifies this
      ensures (db, r) == Backend.CreatePosition(old(db), teamId, name, description) && Valid(db)
    {
      CreatePositionValid(db, teamId, name, description);
      var next := Backend.CreatePosition(db, teamId, name, description);
      db, r := next.0, next.1;
    }

    method PatchPosition(id: int, name: Option<string>, description: Option<string>) returns (r: Reply<PositionRow>)
      requires Valid(db)
      modifies this
      ensures (db, r) == Backend.PatchPosition(old(db), id, name, description) && Valid(db)
    {
      PatchPositionValid(db, id, name, description);
      var next := Backend.PatchPosition(db, id, name, description);
      db, r := next.0, next.1;
    }

    method DeletePosition(id: int) returns (r: Reply<bool>)
      requires Valid(db)
      modifies this
      ensures (db, r) == Backend.DeletePosition(old(db), id) && Valid(db)
    {
      DeletePositionValid(db, id);
      var next := Backend.DeletePosition(db, id);
      db, r := next.0, next.1;
    }

    method AddMember(projectId: int, teamId: int, userId: int, positionId: Option<int>) returns (r: Reply<MemberRow>)
      requires Valid(db)
      modifies this
      ensures (db, r) == Backend.AddMember(old(db), projectId, teamId, userId, positionId) && Valid(db)
    {
      AddMemberValid(db, projectId, teamId, userId, positionId);
      var next := Backend.AddMember(db, projectId, teamId, userId, positionId);
      db, r := next.0, next.1;
    }

    method PatchMember(id: int, positionId: Option<int>) returns (r: Reply<MemberRow>)
      requires Valid(db)
      modifies this
      ensures (db, r) == Backend.PatchMember(old(db), id, positionId) && Valid(db)
    {
      PatchMemberValid(db, id, positionId);
      var next := Backend.PatchMember(db, id, positionId);
      db, r := next.0, next.1;
    }

    method DeleteMember(id: int) returns (r: Reply<bool>)
      requires Valid(db)
      modifies this
      ensures (db, r) == Backend.DeleteMember(old(db), id) && Valid(db)
    {
      DeleteMemberValid(db, id);
      var next := Backend.DeleteMember(db, id);
      db, r := next.0, next.1;
    }

    method CreateTask(b: TaskBody, now: int) returns (r: Reply<TaskRow>)
      requires Valid(db)
      modifies this
      ensures (db, r) == Backend.CreateTask(old(db), b, now) && Valid(db)
    {
      CreateTaskValid(db, b, now);
      var next := Backend.CreateTask(db, b, now);
      db, r := next.0, next.1;
    }

    method PatchTask(id: int, b: TaskPatch, now: int) returns (r: Reply<TaskRow>)
      requires Valid(db)
      modifies this
      ensures (db, r) == Backend.PatchTask(old(db), id, b, now) && Valid(db)
    {
      PatchTaskValid(db, id, b, now);
      var next := Backend.PatchTask(db, id, b, now);
      db, r := next.0, next.1;
    }

    method DeleteTask(id: int) returns (r: Reply<bool>)
      requires Valid(db)
      modifies this
      ensures (db, r) == Backend.DeleteTask(old(db), id) && Valid(db)
    {
      DeleteTaskValid(db, id);
      var next := Backend.DeleteTask(db, id);
      db, r := next.0, next.1;
    }

    method CreateTeam(b: TeamBody, now: int) returns (r: Reply<TeamRow>)
      requires Valid(db)
      modifies this
      ensures (db, r) == Backend.CreateTeam(old(db), b, now) && Valid(db)
    {
      CreateTeamValid(db, b, now);
      var next := Backend.CreateTeam(db, b, now);
      db, r := next.0, next.1;
    }

    method PatchTeam(id: int, b: TeamBody, now: int) returns (r: Reply<TeamRow>)
      requires Valid(db)
      modifies this
      ensures (db, r) == Backend.PatchTeam(old(db), id, b, now) && Valid(db)
    {
      PatchTeamValid(db, id, b, now);
      var next := Backend.PatchTeam(db, id, b, now);
      db, r := next.0, next.1;
    }

    method DeleteTeam(id: int) returns (r: Reply<bool>)
      requires Valid(db)
      modifies this
      ensures (db, r) == Backend.DeleteTeam(old(db), id) && Valid(db)
    {
      DeleteTeamValid(db, id);
      var next := Backend.DeleteTeam(db, id);
      db, r := next.0, next.1;
    }

    /** `NOW()` does not run backwards, so the activity log stays in timestamp order. */
    method CreateActivity(b: ActivityBody, now: int) returns (r: Reply<ActivityRow>)
      requires Valid(db) && NotBefore(db.activities, now)
      modifies this
      ensures (db, r) == Backend.CreateActivity(old(db), b, now) && Valid(db)
    {
      CreateActivityValid(db, b, now);
      var next := Backend.CreateActivity(db, b, now);
      db, r := next.0, next.1;
    }
  }
}
