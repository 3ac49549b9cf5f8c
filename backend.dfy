/**
 * The Express/Postgres REST backend: every handler's SQL statement is
 * modelled by its effect on in-memory tables. The database is a value of
 * `Db`; `Valid` is what Postgres' constraints (serial keys, `UNIQUE`,
 * `NOT NULL`, `REFERENCES`) guarantee about it, and each operation below
 * keeps it. Hashing (bcrypt) and the clock (`NOW()`) are parameters.
 */
module Backend {
  import opened Wrappers
  import opened Seqs
  import opened Text
  import opened Tables

  /** A handler's answer: the JSON body, or an HTTP status with `{ error }`. */
  datatype Reply<T> = Ok(value: T) | Error(status: int, message: string)

  // Postgres' errors, reported by the handlers as 500 with `error.message` (abbreviated here).
  const NotNullViolation := "null value violates not-null constraint"
  const UniqueViolation := "duplicate key value violates unique constraint"
  const ForeignKeyViolation := "violates foreign key constraint"
  const SyntaxError := "syntax error at or near \"WHERE\""
  const NegativeLimit := "LIMIT must not be negative"
  const InvalidInteger := "invalid input syntax for type integer"
  const IntegerOutOfRange := "out of range for type integer"
  const InvalidBigint := "invalid input syntax for type bigint"
  const BigintOutOfRange := "out of range for type bigint"

  // ---- rows ------------------------------------------------------------------

  datatype UserRow = UserRow(id: int, email: string, password: string, name: Option<string>)
  datatype ProjectRow = ProjectRow(
    id: int, name: string, description: Option<string>, status: string, progress: int,
    createdAt: int, updatedAt: int)
  datatype TaskRow = TaskRow(
    id: int, title: string, description: Option<string>, status: string, priority: string,
    projectId: Option<int>, assigneeId: Option<int>, dueDate: Option<string>,
    estimatedHours: int, actualHours: int, createdAt: int, updatedAt: int)
  datatype TeamRow = TeamRow(
    id: int, name: string, description: Option<string>, memberIds: seq<int>, createdAt: int, updatedAt: int)
  /** A row of `project_teams`. */
  datatype LinkRow = LinkRow(id: int, projectId: int, teamId: int)
  datatype PositionRow = PositionRow(id: int, teamId: int, name: string, description: string)
  /** A row of `project_team_members`. */
  datatype MemberRow = MemberRow(id: int, projectId: int, teamId: int, userId: int, positionId: Option<int>)
  datatype ActivityRow = ActivityRow(
    id: int, activityType: Option<string>, message: Option<string>, userName: Option<string>,
    entityId: Option<int>, entityType: Option<string>, timestamp: int)

  /** The eight tables and the next value of the serial key generator. */
  datatype Db = Db(
    users: seq<UserRow>, projects: seq<ProjectRow>, tasks: seq<TaskRow>, teams: seq<TeamRow>,
    links: seq<LinkRow>, positions: seq<PositionRow>, members: seq<MemberRow>,
    activities: seq<ActivityRow>, serial: int)

  // Primary keys.
  function UserId(r: UserRow): int { r.id }
  function ProjectId(r: ProjectRow): int { r.id }
  function TaskId(r: TaskRow): int { r.id }
  function TeamId(r: TeamRow): int { r.id }
  function LinkId(r: LinkRow): int { r.id }
  function PositionId(r: PositionRow): int { r.id }
  function MemberId(r: MemberRow): int { r.id }
  function ActivityId(r: ActivityRow): int { r.id }

  // Foreign keys.
  function TaskProject(r: TaskRow): Option<int> { r.projectId }
  function TaskAssignee(r: TaskRow): Option<int> { r.assigneeId }
  function LinkProject(r: LinkRow): Option<int> { Some(r.projectId) }
  function LinkTeam(r: LinkRow): Option<int> { Some(r.teamId) }
  function PositionTeam(r: PositionRow): Option<int> { Some(r.teamId) }
  function MemberProject(r: MemberRow): Option<int> { Some(r.projectId) }
  function MemberTeam(r: MemberRow): Option<int> { Some(r.teamId) }
  function MemberUser(r: MemberRow): Option<int> { Some(r.userId) }
  function MemberPosition(r: MemberRow): Option<int> { r.positionId }

  // Unique keys.
  function UserEmail(r: UserRow): string { r.email }
  function LinkKey(r: LinkRow): (int, int) { (r.projectId, r.teamId) }
  function MemberKey(r: MemberRow): (int, int, int) { (r.projectId, r.teamId, r.userId) }

  // ---- the constraints -------------------------------------------------------

  predicate AllKeyed(db: Db)
  {
    Keyed(db.users, UserId, db.serial) && Keyed(db.projects, ProjectId, db.serial)
    && Keyed(db.tasks, TaskId, db.serial) && Keyed(db.teams, TeamId, db.serial)
    && Keyed(db.links, LinkId, db.serial) && Keyed(db.positions, PositionId, db.serial)
    && Keyed(db.members, MemberId, db.serial) && Keyed(db.activities, ActivityId, db.serial)
  }

  predicate TaskRefs(db: Db)
  {
    RefsOk(db.tasks, TaskProject, db.projects, ProjectId) && RefsOk(db.tasks, TaskAssignee, db.users, UserId)
  }

  predicate LinkRefs(db: Db)
  {
    RefsOk(db.links, LinkProject, db.projects, ProjectId) && RefsOk(db.links, LinkTeam, db.teams, TeamId)
  }

  predicate PositionRefs(db: Db)
  {
    RefsOk(db.positions, PositionTeam, db.teams, TeamId)
  }

  predicate MemberRefs(db: Db)
  {
    RefsOk(db.members, MemberProject, db.projects, ProjectId) && RefsOk(db.members, MemberTeam, db.teams, TeamId)
    && RefsOk(db.members, MemberUser, db.users, UserId) && RefsOk(db.members, MemberPosition, db.positions, PositionId)
  }

  /** `NOW()` never runs backwards, so activities are stored in timestamp order. */
  predicate Chronological(acts: seq<ActivityRow>)
  {
    forall i, j :: 0 <= i < j < |acts| ==> acts[i].timestamp <= acts[j].timestamp
  }

  /** What the schema's constraints guarantee. */
  predicate Valid(db: Db)
  {
    AllKeyed(db) && DistinctBy(db.users, UserEmail) && DistinctBy(db.links, LinkKey)
    && DistinctBy(db.members, MemberKey) && TaskRefs(db) && LinkRefs(db) && PositionRefs(db)
    && MemberRefs(db) && Chronological(db.activities)
  }

  /** An insert takes the next serial key. */
  lemma KeyedBump(db: Db)
    requires AllKeyed(db)
    ensures AllKeyed(db.(serial := db.serial + 1))
  {
    KeyedMore(db.users, UserId, db.serial);
    KeyedMore(db.projects, ProjectId, db.serial);
    KeyedMore(db.tasks, TaskId, db.serial);
    KeyedMore(db.teams, TeamId, db.serial);
    KeyedMore(db.links, LinkId, db.serial);
    KeyedMore(db.positions, PositionId, db.serial);
    KeyedMore(db.members, MemberId, db.serial);
    KeyedMore(db.activities, ActivityId, db.serial);
  }

  /** The database `initDb` starts from, before seeding. */
  function EmptyDb(): (db: Db)
    ensures Valid(db)
  {
    Db([], [], [], [], [], [], [], [], 1)
  }

  /** `res.json(rows)` for `SELECT ... ORDER BY id`: with serial keys, table order is key order. */
  lemma ListsInKeyOrder(db: Db)
    requires Valid(db)
    ensures forall i, j :: 0 <= i < j < |db.tasks| ==> db.tasks[i].id < db.tasks[j].id
    ensures forall i, j :: 0 <= i < j < |db.projects| ==> db.projects[i].id < db.projects[j].id
    ensures forall i, j :: 0 <= i < j < |db.users| ==> db.users[i].id < db.users[j].id
    ensures forall i, j :: 0 <= i < j < |db.teams| ==> db.teams[i].id < db.teams[j].id
  {
    assert Ascending(db.tasks, TaskId) && Ascending(db.projects, ProjectId);
    assert Ascending(db.users, UserId) && Ascending(db.teams, TeamId);
  }

  // ---- users -----------------------------------------------------------------

  /** What the user endpoints return: never the password hash. */
  datatype UserView = UserView(id: int, email: string, name: Option<string>)

  function View(u: UserRow): UserView
  {
    UserView(u.id, u.email, u.name)
  }

  /** `GET /users`. */
  function ListUsers(db: Db): (r: seq<UserView>)
    requires Valid(db)
    ensures |r| == |db.users|
    ensures forall i :: 0 <= i < |r| ==> r[i] == UserView(db.users[i].id, db.users[i].email, db.users[i].name)
    ensures forall i, j :: 0 <= i < j < |r| ==> r[i].id < r[j].id
  {
    assert Ascending(db.users, UserId);
    Map(db.users, View)
  }

  /** `GET /users/:id`. */
  function GetUser(db: Db, id: int): (r: Reply<UserView>)
    ensures r.Ok? <==> HasId(db.users, UserId, id)
    ensures r.Ok? ==> r.value.id == id && exists u :: u in db.users && r.value == View(u)
    ensures r.Error? ==> r == Error(404, "User not found")
  {
    match Find(db.users, UserId, id)
    case Some(u) => Ok(View(u))
    case None => Error(404, "User not found")
  }

  /** The user with this email, if any. */
  function FindEmail(users: seq<UserRow>, email: string): (r: Option<UserRow>)
    ensures r.Some? <==> HasKey(users, UserEmail, email)
    ensures r.Some? ==> r.value in users && r.value.email == email
  {
    if users == [] then None
    else if users[0].email == email then Some(users[0])
    else
      var r := FindEmail(users[1..], email);
      assert HasKey(users, UserEmail, email) ==> HasKey(users[1..], UserEmail, email) by {
        if HasKey(users, UserEmail, email) {
          var j :| 0 <= j < |users| && UserEmail(users[j]) == email;
          assert users[1..][j - 1] == users[j];
        }
      }
      assert HasKey(users[1..], UserEmail, email) ==> HasKey(users, UserEmail, email) by {
        if HasKey(users[1..], UserEmail, email) {
          var j :| 0 <= j < |users[1..]| && UserEmail(users[1..][j]) == email;
          assert users[j + 1] == users[1..][j];
        }
      }
      r
  }

  /**
   * `POST /register`: bcrypt rejects a missing password, the column
   * rejects a missing or taken email, and the name defaults to the email.
   */
  function Register(db: Db, email: Option<string>, password: Option<string>, name: Option<string>,
                    hash: string -> string): (r: (Db, Reply<UserView>))
    ensures r.1.Error? ==> r.0 == db && r.1.status == 500
    ensures r.1.Ok? <==> email.Some? && password.Some? && !HasKey(db.users, UserEmail, email.value)
    ensures r.1.Ok? ==>
      r.0 == db.(users := db.users + [UserRow(db.serial, email.value, hash(password.value), r.1.value.name)],
                 serial := db.serial + 1)
      && r.1.value == UserView(db.serial, email.value, Some(if name.GetOr("") == "" then email.value else name.value))
  {
    if password.None? then (db, Error(500, "Registration failed"))
    else if email.None? then (db, Error(500, "Registration failed"))
    else if FindEmail(db.users, email.value).Some? then (db, Error(500, "Registration failed"))
    else
      var row := UserRow(db.serial, email.value, hash(password.value),
                         Some(if name.GetOr("") == "" then email.value else name.value));
      (db.(users := db.users + [row], serial := db.serial + 1), Ok(View(row)))
  }

  lemma RegisterValid(db: Db, email: Option<string>, password: Option<string>, name: Option<string>,
                      hash: string -> string)
    requires Valid(db)
    ensures Valid(Register(db, email, password, name, hash).0)
  {
    var r := Register(db, email, password, name, hash);
    if r.1.Ok? {
      var row := r.0.users[|r.0.users| - 1];
      assert r.0.users == db.users + [row];
      KeyedInsert(db.users, UserId, db.serial, row);
      KeyedBump(db);
      DistinctInsert(db.users, UserEmail, row);
      forall x | true ensures HasId(db.users + [row], UserId, x) <== HasId(db.users, UserId, x) {
        HasIdSnoc(db.users, UserId, row, x);
      }
      RefsAddParent(db.tasks, TaskAssignee, db.users, UserId, row);
      RefsAddParent(db.members, MemberUser, db.users, UserId, row);
    }
  }

  /**
   * `POST /login`: an unknown email or a wrong password is 401; bcrypt
   * throws on a missing password. `hash` stands for bcrypt, so a password
   * matches when it hashes to the stored value.
   */
  function Login(db: Db, email: Option<string>, password: Option<string>, hash: string -> string): (r: Reply<UserView>)
    requires Valid(db)
    ensures r.Ok? <==>
      (email.Some? && password.Some? && exists u :: u in db.users && u.email == email.value && u.password == hash(password.value))
    ensures r.Ok? ==> r.value.email == email.value
    ensures r.Error? ==> r == Error(401, "Invalid credentials") || r == Error(500, "Login failed")
  {
    if email.None? then Error(401, "Invalid credentials")
    else match FindEmail(db.users, email.value)
      case None => Error(401, "Invalid credentials")
      case Some(u) =>
        if password.None? then Error(500, "Login failed")
        else if hash(password.value) != u.password then
          assert forall v :: v in db.users && v.email == email.value ==> v == u by {
            forall v | v in db.users && v.email == email.value ensures v == u {
              var i :| 0 <= i < |db.users| && db.users[i] == v;
              var j :| 0 <= j < |db.users| && db.users[j] == u;
              assert UserEmail(db.users[i]) == UserEmail(db.users[j]);
            }
          }
          Error(401, "Invalid credentials")
        else Ok(View(u))
  }

  // ---- PATCH /users: the incremental SQL builder ----------------------------

  /** A JSON body field: absent, `null`, or a string. */
  datatype Field = Undefined | Null | Given(s: string)

  /** The body of `PATCH /users/:id`; a missing or empty password is `""`. */
  datatype UserPatch = UserPatch(name: Field, email: Field, password: string)

  /** A query parameter. */
  datatype Param = Text(s: string) | NullParam | IdParam(n: int)

  function FieldParam(f: Field): Param
  {
    match f
    case Given(s) => Text(s)
    case _ => NullParam
  }

  /**
   * The `SET` assignments in the order the handler appends them: name
   * and email when not `undefined`, password when truthy, each paired
   * with the value `paramCount` had when it was appended.
   */
  function UserSets(b: UserPatch): seq<(string, nat)>
  {
    PushSet(b.password != "", PushSet(b.email != Undefined, PushSet(b.name != Undefined, [], "name"), "email"), "password")
  }

  /** The k-th assignment (from 1) uses placeholder `$k`; there are at most three. */
  lemma UserSetsNumbered(b: UserPatch)
    ensures forall i :: 0 <= i < |UserSets(b)| ==> UserSets(b)[i].1 == i + 1
    ensures |UserSets(b)| <= 3
  {
  }

  /** One `if` of the builder on the assignments: the column is appended when the condition holds. */
  function PushSet(c: bool, sets: seq<(string, nat)>, column: string): (r: seq<(string, nat)>)
    ensures c ==> r == sets + [(column, |sets| + 1)]
    ensures !c ==> r == sets
  {
    if c then sets + [(column, |sets| + 1)] else sets
  }

  /** The same `if` on the parameter list. */
  function PushParam(c: bool, ps: seq<Param>, p: Param): (r: seq<Param>)
    ensures c ==> r == ps + [p]
    ensures !c ==> r == ps
  {
    if c then ps + [p] else ps
  }

  /** The parameter list: one value per assignment, then the id. */
  function UserParams(b: UserPatch, id: int, hash: string -> string): (ps: seq<Param>)
  {
    PushParam(b.password != "", PushParam(b.email != Undefined, PushParam(b.name != Undefined, [], FieldParam(b.name)),
      FieldParam(b.email)), Text(hash(b.password))) + [IdParam(id)]
  }

  /** The value the handler means a column to get. */
  function ColumnParam(b: UserPatch, column: string, hash: string -> string): Param
  {
    if column == "name" then FieldParam(b.name)
    else if column == "email" then FieldParam(b.email)
    else Text(hash(b.password))
  }

  /** `" name = $1"`. */
  function Assign(column: string, k: nat): string
  {
    " " + column + " = $" + NatToString(k)
  }

  /** The assignments as they are appended to the query, comma before all but the first. */
  function RenderSets(sets: seq<(string, nat)>): string
  {
    if sets == [] then ""
    else
      RenderSets(sets[..|sets| - 1]) + (if |sets| > 1 then "," else "") + Assign(sets[|sets| - 1].0, sets[|sets| - 1].1)
  }

  const UpdateUsers := "UPDATE users SET"

  /** `" WHERE id = $k RETURNING id, email, name"`. */
  function WhereId(k: nat): string
  {
    " WHERE id = $" + NatToString(k) + " RETURNING id, email, name"
  }

  /** The whole statement, with the id placeholder after the assignments. */
  function UserUpdateSql(sets: seq<(string, nat)>): string
  {
    UpdateUsers + RenderSets(sets) + WhereId(|sets| + 1)
  }

  /** One step of the builder: the rendering grows by one assignment. */
  lemma RenderSnoc(sets: seq<(string, nat)>, column: string, k: nat)
    ensures RenderSets(sets + [(column, k)]) == RenderSets(sets) + (if |sets| > 0 then "," else "") + Assign(column, k)
  {
    assert (sets + [(column, k)])[..|sets|] == sets;
  }

  /**
   * The handler's builder: appends an assignment per supplied field while
   * `paramCount` runs 1, 2, ..., then the id as the final parameter
   * (`PlaceholdersMatch` shows each placeholder names the parameter pushed
   * for its column).
   */
  method BuildUserUpdate(b: UserPatch, id: int, hash: string -> string) returns (query: string, params: seq<Param>)
    ensures query == UserUpdateSql(UserSets(b))
    ensures params == UserParams(b, id, hash)
  {
    var paramCount: nat;
    ghost var sets: seq<(string, nat)> := [];
    assert UpdateUsers == UpdateUsers + RenderSets(sets);
    query, params, paramCount, sets :=
      AppendIf(b.name != Undefined, UpdateUsers, [], 1, "name", FieldParam(b.name), sets);
    query, params, paramCount, sets :=
      AppendIf(b.email != Undefined, query, params, paramCount, "email", FieldParam(b.email), sets);
    query, params, paramCount, sets :=
      AppendIf(b.password != "", query, params, paramCount, "password", Text(hash(b.password)), sets);
    FinishQuery(query, sets);
    query := query + WhereId(paramCount);
    params := params + [IdParam(id)];
  }

  /** One `if` of the builder: the assignment is appended only when its field was supplied. */
  method AppendIf(c: bool, query: string, params: seq<Param>, paramCount: nat, column: string, value: Param,
                  ghost sets: seq<(string, nat)>)
    returns (query': string, params': seq<Param>, paramCount': nat, ghost sets': seq<(string, nat)>)
    requires query == UpdateUsers + RenderSets(sets)
    requires paramCount == |params| + 1 && |params| == |sets|
    ensures sets' == PushSet(c, sets, column) && params' == PushParam(c, params, value)
    ensures query' == UpdateUsers + RenderSets(sets')
    ensures paramCount' == |params'| + 1 && |params'| == |sets'|
  {
    if c {
      query', params', paramCount', sets' := AppendAssignment(query, params, paramCount, column, value, sets);
    } else {
      query', params', paramCount', sets' := query, params, paramCount, sets;
    }
  }

  /** The id placeholder closes the statement. */
  lemma FinishQuery(query: string, sets: seq<(string, nat)>)
    requires query == UpdateUsers + RenderSets(sets)
    ensures query + WhereId(|sets| + 1) == UserUpdateSql(sets)
  {
  }

  /**
   * One `if` of the builder: a comma unless it is the first assignment,
   * `column = $paramCount`, the value pushed, the counter advanced.
   */
  method AppendAssignment(query: string, params: seq<Param>, paramCount: nat, column: string, value: Param,
                          ghost sets: seq<(string, nat)>)
    returns (query': string, params': seq<Param>, paramCount': nat, ghost sets': seq<(string, nat)>)
    requires query == UpdateUsers + RenderSets(sets)
    requires paramCount == |params| + 1 && |params| == |sets|
    ensures sets' == sets + [(column, paramCount)]
    ensures query' == UpdateUsers + RenderSets(sets')
    ensures params' == params + [value] && paramCount' == paramCount + 1
  {
    sets' := sets + [(column, paramCount)];
    StepQuery(query, sets, column, paramCount);
    query' := query;
    if |params| > 0 {
      query' := query' + ",";
    }
    query' := query' + Assign(column, paramCount);
    params' := params + [value];
    paramCount' := paramCount + 1;
  }

  /** The query text so far is the statement's head and the assignments so far; one more keeps it so. */
  lemma StepQuery(query: string, sets: seq<(string, nat)>, column: string, k: nat)
    requires query == UpdateUsers + RenderSets(sets)
    ensures |sets| > 0 ==> query + "," + Assign(column, k) == UpdateUsers + RenderSets(sets + [(column, k)])
    ensures |sets| == 0 ==> query + Assign(column, k) == UpdateUsers + RenderSets(sets + [(column, k)])
  {
    RenderSnoc(sets, column, k);
    var sep := if |sets| > 0 then "," else "";
    Assoc(UpdateUsers, RenderSets(sets), sep, Assign(column, k));
    assert query + sep == query + (if |sets| > 0 then "," else "");
  }

  lemma Assoc(a: string, b: string, c: string, d: string)
    ensures a + b + c + d == a + (b + c + d)
  {
  }

  /**
   * Placeholders and parameters line up: `$k` for `k` up to the number of
   * assignments holds that assignment's column value, and the last one
   * holds the id.
   */
  lemma PlaceholdersMatch(b: UserPatch, id: int, hash: string -> string)
    ensures |UserParams(b, id, hash)| == |UserSets(b)| + 1
    ensures UserParams(b, id, hash)[|UserSets(b)|] == IdParam(id)
    ensures forall i :: 0 <= i < |UserSets(b)| ==>
      UserParams(b, id, hash)[UserSets(b)[i].1 - 1] == ColumnParam(b, UserSets(b)[i].0, hash)
  {
    var s1 := PushSet(b.name != Undefined, [], "name");
    var p1 := PushParam(b.name != Undefined, [], FieldParam(b.name));
    AlignedPush(b, hash, b.name != Undefined, [], [], "name", FieldParam(b.name));
    var s2 := PushSet(b.email != Undefined, s1, "email");
    var p2 := PushParam(b.email != Undefined, p1, FieldParam(b.email));
    AlignedPush(b, hash, b.email != Undefined, s1, p1, "email", FieldParam(b.email));
    AlignedPush(b, hash, b.password != "", s2, p2, "password", Text(hash(b.password)));
  }

  /** The parameters so far are one per assignment, `$k` naming the k-th one's column value. */
  ghost predicate Aligned(b: UserPatch, hash: string -> string, sets: seq<(string, nat)>, ps: seq<Param>)
  {
    |ps| == |sets| && forall i :: 0 <= i < |sets| ==> sets[i].1 == i + 1 && ps[i] == ColumnParam(b, sets[i].0, hash)
  }

  lemma AlignedPush(b: UserPatch, hash: string -> string, c: bool, sets: seq<(string, nat)>, ps: seq<Param>,
                    column: string, p: Param)
    requires Aligned(b, hash, sets, ps) && p == ColumnParam(b, column, hash)
    ensures Aligned(b, hash, PushSet(c, sets, column), PushParam(c, ps, p))
  {
  }

  /** With nothing to change the statement has an empty `SET` list, which Postgres rejects. */
  lemma EmptyPatchSql(b: UserPatch)
    requires b.name == Undefined && b.email == Undefined && b.password == ""
    ensures UserUpdateSql(UserSets(b)) == UpdateUsers + WhereId(1)
  {
    assert UserSets(b) == [];
    NoSetsSql();
  }

  lemma NoSetsSql()
    ensures UserUpdateSql([]) == UpdateUsers + WhereId(1)
  {
    assert RenderSets([]) == "";
    assert UpdateUsers + "" == UpdateUsers;
  }

  /** A full body renders as three comma-separated assignments. */
  lemma FullPatchSql(b: UserPatch)
    requires b.name != Undefined && b.email != Undefined && b.password != ""
    ensures UserUpdateSql(UserSets(b)) == UpdateUsers + " name = $1, email = $2, password = $3" + WhereId(4)
  {
    assert PushSet(true, [], "name") == [("name", 1)];
    assert PushSet(true, [("name", 1)], "email") == [("name", 1), ("email", 2)];
    assert UserSets(b) == [("name", 1), ("email", 2)] + [("password", 3)];
    RenderThree();
  }

  lemma RenderTwo()
    ensures RenderSets([("name", 1), ("email", 2)]) == " name = $1, email = $2"
  {
    RenderOne();
    AssignEmail();
    RenderSnoc([("name", 1)], "email", 2);
    assert [("name", 1)] + [("email", 2)] == [("name", 1), ("email", 2)];
    assert " name = $1" + "," + " email = $2" == " name = $1, email = $2";
  }

  lemma RenderOne()
    ensures RenderSets([("name", 1)]) == " name = $1"
  {
    assert NatToString(1) == "1";
    RenderSnoc([], "name", 1);
    assert [] + [("name", 1)] == [("name", 1)];
  }

  lemma AssignEmail()
    ensures Assign("email", 2) == " email = $2"
  {
    assert NatToString(2) == "2";
  }

  lemma RenderThree()
    ensures RenderSets([("name", 1), ("email", 2)] + [("password", 3)]) == " name = $1, email = $2, password = $3"
  {
    AssignPassword();
    RenderTwo();
    RenderSnoc([("name", 1), ("email", 2)], "password", 3);
    assert " name = $1, email = $2" + "," + " password = $3" == " name = $1, email = $2, password = $3";
  }

  lemma AssignPassword()
    ensures Assign("password", 3) == " password = $3"
  {
    assert NatToString(3) == "3";
  }

  /** What one assignment does to a row; `None` when the column rejects the value. */
  function RunAssign(u: UserRow, column: string, p: Param): Option<UserRow>
  {
    if column == "name" then Some(u.(name := if p.Text? then Some(p.s) else None))
    else if column == "email" then (if p.Text? then Some(u.(email := p.s)) else None)
    else if column == "password" && p.Text? then Some(u.(password := p.s))
    else None
  }

  /**
   * Running the assignments in order: each column takes the parameter
   * its placeholder numbers (`$k` is `params[k - 1]`).
   */
  function RunSets(u: UserRow, sets: seq<(string, nat)>, params: seq<Param>): Option<UserRow>
  {
    if sets == [] then Some(u)
    else
      match RunSets(u, sets[..|sets| - 1], params)
      case None => None
      case Some(v) =>
        var (column, k) := sets[|sets| - 1];
        if 1 <= k <= |params| then RunAssign(v, column, params[k - 1]) else None
  }

  /** The change the handler intends: each supplied field, the password hashed. */
  function PatchedUser(u: UserRow, b: UserPatch, hash: string -> string): UserRow
  {
    u.(name := if b.name == Undefined then u.name else if b.name.Given? then Some(b.name.s) else None,
       email := if b.email.Given? then b.email.s else u.email,
       password := if b.password != "" then hash(b.password) else u.password)
  }

  lemma RunSnoc(u: UserRow, sets: seq<(string, nat)>, x: (string, nat), params: seq<Param>)
    ensures RunSets(u, sets + [x], params)
      == match RunSets(u, sets, params)
         case None => None
         case Some(v) => if 1 <= x.1 <= |params| then RunAssign(v, x.0, params[x.1 - 1]) else None
  {
    assert (sets + [x])[..|sets|] == sets;
  }

  /**
   * Because every placeholder names the parameter pushed for its column,
   * running the statement applies exactly the supplied fields; it fails
   * only on a `null` email (a `NOT NULL` column).
   */
  lemma RunBuiltUpdate(u: UserRow, b: UserPatch, id: int, hash: string -> string)
    ensures RunSets(u, UserSets(b), UserParams(b, id, hash)) == if b.email == Null then None else Some(PatchedUser(u, b, hash))
  {
    var ps := UserParams(b, id, hash);
    var s2 := PushSet(b.email != Undefined, PushSet(b.name != Undefined, [], "name"), "email");
    RunThroughEmail(u, b, id, hash);
    ParamsAt(b, id, hash);
    RunPush(u, b.password != "", s2, "password", ps, Text(hash(b.password)));
  }

  /** The row after the name assignment. */
  function NameStep(u: UserRow, b: UserPatch): UserRow
  {
    u.(name := if b.name == Undefined then u.name else if b.name.Given? then Some(b.name.s) else None)
  }

  /** The first two assignments: the name, then the email, which a `null` rejects. */
  lemma RunThroughEmail(u: UserRow, b: UserPatch, id: int, hash: string -> string)
    ensures RunSets(u, PushSet(b.email != Undefined, PushSet(b.name != Undefined, [], "name"), "email"),
                    UserParams(b, id, hash))
      == if b.email == Null then None
         else Some(NameStep(u, b).(email := if b.email.Given? then b.email.s else u.email))
  {
    var ps := UserParams(b, id, hash);
    var s1 := PushSet(b.name != Undefined, [], "name");
    ParamsAt(b, id, hash);
    RunPush(u, b.name != Undefined, [], "name", ps, FieldParam(b.name));
    assert RunSets(u, s1, ps) == Some(NameStep(u, b));
    RunPush(u, b.email != Undefined, s1, "email", ps, FieldParam(b.email));
  }

  /** Where each supplied field's value sits in the parameter list. */
  lemma ParamsAt(b: UserPatch, id: int, hash: string -> string)
    ensures var ps := UserParams(b, id, hash);
      var s1 := PushSet(b.name != Undefined, [], "name");
      var s2 := PushSet(b.email != Undefined, s1, "email");
      (b.name != Undefined ==> 0 < |ps| && ps[0] == FieldParam(b.name))
      && (b.email != Undefined ==> |s1| < |ps| && ps[|s1|] == FieldParam(b.email))
      && (b.password != "" ==> |s2| < |ps| && ps[|s2|] == Text(hash(b.password)))
  {
    var s1 := PushSet(b.name != Undefined, [], "name");
    var s2 := PushSet(b.email != Undefined, s1, "email");
    var p1 := PushParam(b.name != Undefined, [], FieldParam(b.name));
    var p2 := PushParam(b.email != Undefined, p1, FieldParam(b.email));
    var p3 := PushParam(b.password != "", p2, Text(hash(b.password)));
    assert |p1| == |s1| && |p2| == |s2| && UserParams(b, id, hash) == p3 + [IdParam(id)];
  }

  /** One `if` of the builder, run: the assignment applies the parameter it pushed. */
  lemma RunPush(u: UserRow, c: bool, sets: seq<(string, nat)>, column: string, ps: seq<Param>, p: Param)
    requires c ==> |sets| < |ps| && ps[|sets|] == p
    ensures RunSets(u, PushSet(c, sets, column), ps) ==
      if !c then RunSets(u, sets, ps)
      else match RunSets(u, sets, ps) case None => None case Some(w) => RunAssign(w, column, p)
  {
    if c {
      RunSnoc(u, sets, (column, |sets| + 1), ps);
    }
  }

  /**
   * `PATCH /users/:id`: no fields is a malformed statement (500); a
   * missing user is 404; a `null` or taken email violates the column's
   * constraints (500); otherwise the supplied fields are written.
   */
  function PatchUser(db: Db, id: int, b: UserPatch, hash: string -> string): (r: (Db, Reply<UserView>))
    ensures UserSets(b) == [] ==> r == (db, Error(500, SyntaxError))
    ensures UserSets(b) != [] && !HasId(db.users, UserId, id) ==> r == (db, Error(404, "User not found"))
    ensures r.1.Error? ==> r.0 == db
    ensures r.1.Ok? ==> b.email != Null && HasId(db.users, UserId, id)
    ensures r.1.Ok? && b.email.Given? ==> forall w :: w in db.users && w.id != id ==> w.email != b.email.s
    ensures r.1.Ok? ==>
      var v := PatchedUser(Find(db.users, UserId, id).value, b, hash);
      r.1.value == View(v) && r.0 == db.(users := SetRow(db.users, UserId, v))
  {
    if UserSets(b) == [] then (db, Error(500, SyntaxError))
    else match Find(db.users, UserId, id)
      case None => (db, Error(404, "User not found"))
      case Some(u) =>
        RunBuiltUpdate(u, b, id, hash);
        match RunSets(u, UserSets(b), UserParams(b, id, hash))
        case None => (db, Error(500, NotNullViolation))
        case Some(v) =>
          if b.email.Given? && exists w :: w in db.users && w.id != id && w.email == b.email.s then
            (db, Error(500, UniqueViolation))
          else
            (db.(users := SetRow(db.users, UserId, v)), Ok(View(v)))
  }

  /** A patch without a password leaves the stored hash of the patched user alone. */
  lemma PatchUserKeepsPassword(db: Db, id: int, b: UserPatch, hash: string -> string)
    requires b.password == ""
    ensures var r := PatchUser(db, id, b, hash);
      r.1.Ok? ==> forall i :: 0 <= i < |r.0.users| && r.0.users[i].id == id ==>
                    r.0.users[i].password == Find(db.users, UserId, id).value.password
  {
    var r := PatchUser(db, id, b, hash);
    if r.1.Ok? {
      var u := Find(db.users, UserId, id).value;
      var v := PatchedUser(u, b, hash);
      assert v.password == u.password && UserId(v) == id;
      assert r.0.users == SetRow(db.users, UserId, v);
      forall i | 0 <= i < |r.0.users| && r.0.users[i].id == id ensures r.0.users[i].password == u.password {
        SetRowWithId(db.users, UserId, v, i);
      }
    }
  }

  lemma PatchUserValid(db: Db, id: int, b: UserPatch, hash: string -> string)
    requires Valid(db)
    ensures Valid(PatchUser(db, id, b, hash).0)
  {
    var r := PatchUser(db, id, b, hash);
    if r.1.Ok? {
      var u := Find(db.users, UserId, id).value;
      var v := PatchedUser(u, b, hash);
      KeyedSetRow(db.users, UserId, db.serial, v);
      if !b.email.Given? {
        forall w | w in db.users && w.id != id ensures w.email != v.email {
          var i :| 0 <= i < |db.users| && db.users[i] == w;
          var j :| 0 <= j < |db.users| && db.users[j] == u;
          assert i != j;
          assert UserEmail(db.users[i]) != UserEmail(db.users[j]);
        }
      }
      forall i | 0 <= i < |db.users| && UserId(db.users[i]) != UserId(v) ensures UserEmail(db.users[i]) != UserEmail(v) {
        assert db.users[i] in db.users;
      }
      DistinctSetRow(db.users, UserId, UserEmail, v);
      RefsSetParent(db.tasks, TaskAssignee, db.users, UserId, v);
      RefsSetParent(db.members, MemberUser, db.users, UserId, v);
    }
  }

  /**
   * `DELETE /users/:id`: tasks assigned to the user and team-member rows
   * naming the user block the delete (`REFERENCES users(id)` without a
   * cascade); an unknown id is 404.
   */
  function DeleteUser(db: Db, id: int): (r: (Db, Reply<bool>))
    ensures r.1.Error? ==> r.0 == db
    ensures r.1.Ok? <==>
      (HasId(db.users, UserId, id) && Unreferenced(db.tasks, TaskAssignee, id) && Unreferenced(db.members, MemberUser, id))
    ensures r.1.Ok? ==> r.0 == db.(users := DeleteId(db.users, UserId, id)) && r.1.value
    ensures !HasId(db.users, UserId, id) ==> r.1 == Error(404, "User not found")
  {
    if !Unreferenced(db.tasks, TaskAssignee, id) || !Unreferenced(db.members, MemberUser, id) then
      if Find(db.users, UserId, id).None? then (db, Error(404, "User not found"))
      else (db, Error(500, ForeignKeyViolation))
    else if Find(db.users, UserId, id).None? then (db, Error(404, "User not found"))
    else (db.(users := DeleteId(db.users, UserId, id)), Ok(true))
  }

  lemma DeleteUserValid(db: Db, id: int)
    requires Valid(db)
    ensures Valid(DeleteUser(db, id).0)
  {
    var r := DeleteUser(db, id);
    if r.1.Ok? {
      KeyedDeleteId(db.users, UserId, db.serial, id);
      DistinctDeleteId(db.users, UserEmail, UserId, id);
      RefsDeleteParent(db.tasks, TaskAssignee, db.users, UserId, id);
      RefsDeleteParent(db.members, MemberUser, db.users, UserId, id);
    }
  }

  // ---- shared helpers ----------------------------------------------------------

  /** `COALESCE($k, column)` on a `NOT NULL` column: a supplied value wins, `null` keeps the column. */
  function Coalesce<T>(given: Option<T>, current: T): T
  {
    if given.Some? then given.value else current
  }

  /** `COALESCE($k, column)` on a nullable column. */
  function CoalesceNull<T>(given: Option<T>, current: Option<T>): Option<T>
  {
    if given.Some? then given else current
  }

  /** `x || fallback` on a string: the empty string falls back too. */
  function OrString(x: Option<string>, fallback: string): string
  {
    if x.GetOr("") == "" then fallback else x.value
  }

  /** `x || fallback` on a number: `0` falls back too. */
  function OrNumber(x: Option<int>, fallback: int): int
  {
    if x.GetOr(0) == 0 then fallback else x.value
  }

  // ---- projects ----------------------------------------------------------------

  /** `GET /projects`: every project, by id. */
  function ListProjects(db: Db): (r: seq<ProjectRow>)
    requires Valid(db)
    ensures forall p :: p in r <==> p in db.projects
    ensures forall i, j :: 0 <= i < j < |r| ==> r[i].id < r[j].id
  {
    assert Ascending(db.projects, ProjectId);
    db.projects
  }

  function GetProject(db: Db, id: int): (r: Reply<ProjectRow>)
    ensures r.Ok? <==> HasId(db.projects, ProjectId, id)
    ensures r.Ok? ==> r.value in db.projects && r.value.id == id
    ensures r.Error? ==> r == Error(404, "Project not found")
  {
    match Find(db.projects, ProjectId, id)
    case Some(p) => Ok(p)
    case None => Error(404, "Project not found")
  }

  /** The body of `POST /projects` and `PATCH /projects/:id`; `None` is absent or `null`. */
  datatype ProjectBody = ProjectBody(name: Option<string>, description: Option<string>, status: Option<string>,
                                     progress: Option<int>)

  /**
   * `POST /projects`: a missing name violates `NOT NULL`; a falsy status is
   * 'active', a falsy progress 0; both timestamps are `now`.
   */
  function CreateProject(db: Db, b: ProjectBody, now: int): (r: (Db, Reply<ProjectRow>))
    ensures r.1.Ok? <==> b.name.Some?
    ensures r.1.Error? ==> r == (db, Error(500, NotNullViolation))
    ensures r.1.Ok? ==>
      var p := r.1.value;
      p.id == db.serial && p.name == b.name.value && p.description == b.description
      && (b.status.GetOr("") == "" ==> p.status == "active") && (b.status.GetOr("") != "" ==> p.status == b.status.value)
      && (b.progress.GetOr(0) == 0 ==> p.progress == 0) && (b.progress.GetOr(0) != 0 ==> p.progress == b.progress.value)
      && p.createdAt == now && p.updatedAt == now
      && r.0 == db.(projects := db.projects + [p], serial := db.serial + 1)
  {
    if b.name.None? then (db, Error(500, NotNullViolation))
    else
      var p := ProjectRow(db.serial, b.name.value, b.description, OrString(b.status, "active"),
                          OrNumber(b.progress, 0), now, now);
      (db.(projects := db.projects + [p], serial := db.serial + 1), Ok(p))
  }

  lemma CreateProjectValid(db: Db, b: ProjectBody, now: int)
    requires Valid(db)
    ensures Valid(CreateProject(db, b, now).0)
  {
    var r := CreateProject(db, b, now);
    if r.1.Ok? {
      var p := r.1.value;
      KeyedInsert(db.projects, ProjectId, db.serial, p);
      KeyedBump(db);
      RefsAddParent(db.tasks, TaskProject, db.projects, ProjectId, p);
      RefsAddParent(db.links, LinkProject, db.projects, ProjectId, p);
      RefsAddParent(db.members, MemberProject, db.projects, ProjectId, p);
    }
  }

  /** A created project can be read back under the id it was given. */
  lemma CreateThenGetProject(db: Db, b: ProjectBody, now: int)
    requires Valid(db) && b.name.Some?
    ensures var r := CreateProject(db, b, now); GetProject(r.0, r.1.value.id) == Ok(r.1.value)
  {
    var r := CreateProject(db, b, now);
    var p := r.1.value;
    HasIdSnoc(db.projects, ProjectId, p, p.id);
    var f := Find(r.0.projects, ProjectId, p.id).value;
    var i :| 0 <= i < |r.0.projects| && r.0.projects[i] == f;
    assert forall k :: 0 <= k < |db.projects| ==> r.0.projects[k].id < db.serial;
    assert i == |db.projects|;
  }

  /**
   * `PATCH /projects/:id`: each supplied field replaces the stored one,
   * `updatedAt` becomes `now`, everything else stays; a missing project is 404.
   */
  function PatchProject(db: Db, id: int, b: ProjectBody, now: int): (r: (Db, Reply<ProjectRow>))
    ensures r.1.Ok? <==> HasId(db.projects, ProjectId, id)
    ensures r.1.Error? ==> r == (db, Error(404, "Project not found"))
    ensures r.1.Ok? ==>
      var old_ := Find(db.projects, ProjectId, id).value;
      var p := r.1.value;
      p.id == id && p.createdAt == old_.createdAt && p.updatedAt == now
      && p.name == (if b.name.Some? then b.name.value else old_.name)
      && p.description == (if b.description.Some? then b.description else old_.description)
      && p.status == (if b.status.Some? then b.status.value else old_.status)
      && p.progress == (if b.progress.Some? then b.progress.value else old_.progress)
      && r.0 == db.(projects := SetRow(db.projects, ProjectId, p))
  {
    match Find(db.projects, ProjectId, id)
    case None => (db, Error(404, "Project not found"))
    case Some(old_) =>
      var p := old_.(name := Coalesce(b.name, old_.name), description := CoalesceNull(b.description, old_.description),
                     status := Coalesce(b.status, old_.status), progress := Coalesce(b.progress, old_.progress),
                     updatedAt := now);
      (db.(projects := SetRow(db.projects, ProjectId, p)), Ok(p))
  }

  lemma PatchProjectValid(db: Db, id: int, b: ProjectBody, now: int)
    requires Valid(db)
    ensures Valid(PatchProject(db, id, b, now).0)
  {
    var r := PatchProject(db, id, b, now);
    if r.1.Ok? {
      var p := r.1.value;
      KeyedSetRow(db.projects, ProjectId, db.serial, p);
      RefsSetParent(db.tasks, TaskProject, db.projects, ProjectId, p);
      RefsSetParent(db.links, LinkProject, db.projects, ProjectId, p);
      RefsSetParent(db.members, MemberProject, db.projects, ProjectId, p);
    }
  }

  /** An empty body only refreshes `updatedAt`. */
  lemma PatchProjectEmpty(db: Db, id: int, now: int)
    requires HasId(db.projects, ProjectId, id)
    ensures PatchProject(db, id, ProjectBody(None, None, None, None), now).1.value
      == Find(db.projects, ProjectId, id).value.(updatedAt := now)
  {
  }

  /**
   * `DELETE /projects/:id`: the project's tasks go first, then the project;
   * `ON DELETE CASCADE` removes its team links and member rows. It answers
   * success whether or not the project existed.
   */
  function DeleteProject(db: Db, id: int): (r: (Db, Reply<bool>))
    ensures r.1 == Ok(true)
    ensures forall x :: HasId(r.0.projects, ProjectId, x) <==> HasId(db.projects, ProjectId, x) && x != id
    ensures forall t :: t in r.0.tasks <==> t in db.tasks && t.projectId != Some(id)
    ensures forall l :: l in r.0.links <==> l in db.links && l.projectId != id
    ensures forall m :: m in r.0.members <==> m in db.members && m.projectId != id
    ensures r.0.users == db.users && r.0.teams == db.teams && r.0.positions == db.positions
      && r.0.activities == db.activities && r.0.serial == db.serial
  {
    var tasks := DeleteRef(db.tasks, TaskProject, id);
    var projects := DeleteId(db.projects, ProjectId, id);
    forall x ensures HasId(projects, ProjectId, x) <==> HasId(db.projects, ProjectId, x) && x != id {
      HasIdDelete(db.projects, ProjectId, id, x);
    }
    forall t | t in db.tasks && t.projectId != Some(id) ensures t in tasks {
      var i :| 0 <= i < |db.tasks| && db.tasks[i] == t;
    }
    forall l | l in db.links && l.projectId != id ensures l in DeleteRef(db.links, LinkProject, id) {
      var i :| 0 <= i < |db.links| && db.links[i] == l;
    }
    forall m | m in db.members && m.projectId != id ensures m in DeleteRef(db.members, MemberProject, id) {
      var i :| 0 <= i < |db.members| && db.members[i] == m;
    }
    (db.(tasks := tasks, projects := projects,
         links := DeleteRef(db.links, LinkProject, id), members := DeleteRef(db.members, MemberProject, id)),
     Ok(true))
  }

  lemma DeleteProjectValid(db: Db, id: int)
    requires Valid(db)
    ensures Valid(DeleteProject(db, id).0)
  {
    KeyedDeleteRef(db.tasks, TaskId, db.serial, TaskProject, id);
    KeyedDeleteId(db.projects, ProjectId, db.serial, id);
    KeyedDeleteRef(db.links, LinkId, db.serial, LinkProject, id);
    KeyedDeleteRef(db.members, MemberId, db.serial, MemberProject, id);
    DistinctDeleteRef(db.links, LinkKey, LinkProject, id);
    DistinctDeleteRef(db.members, MemberKey, MemberProject, id);
    RefsCascade(db.tasks, TaskProject, db.projects, ProjectId, id);
    RefsDeleteChildren(db.tasks, TaskProject, id, TaskAssignee, db.users, UserId);
    RefsCascade(db.links, LinkProject, db.projects, ProjectId, id);
    RefsDeleteChildren(db.links, LinkProject, id, LinkTeam, db.teams, TeamId);
    RefsCascade(db.members, MemberProject, db.projects, ProjectId, id);
    RefsDeleteChildren(db.members, MemberProject, id, MemberTeam, db.teams, TeamId);
    RefsDeleteChildren(db.members, MemberProject, id, MemberUser, db.users, UserId);
    RefsDeleteChildren(db.members, MemberProject, id, MemberPosition, db.positions, PositionId);
  }

  // ---- project teams -------------------------------------------------------------

  /**
   * `POST /projects/:projectId/teams`: a pair already linked violates
   * `UNIQUE("projectId", "teamId")`; an unknown project or team violates
   * the foreign keys.
   */
  function AddProjectTeam(db: Db, projectId: int, teamId: int): (r: (Db, Reply<LinkRow>))
    ensures r.1.Ok? <==>
      (!HasKey(db.links, LinkKey, (projectId, teamId))
       && HasId(db.projects, ProjectId, projectId) && HasId(db.teams, TeamId, teamId))
    ensures HasKey(db.links, LinkKey, (projectId, teamId)) ==> r == (db, Error(500, UniqueViolation))
    ensures r.1.Error? ==> r.0 == db && r.1.status == 500
    ensures r.1.Ok? ==>
      r.1.value == LinkRow(db.serial, projectId, teamId)
      && r.0 == db.(links := db.links + [r.1.value], serial := db.serial + 1)
  {
    if HasKey(db.links, LinkKey, (projectId, teamId)) then (db, Error(500, UniqueViolation))
    else if !HasId(db.projects, ProjectId, projectId) || !HasId(db.teams, TeamId, teamId) then
      (db, Error(500, ForeignKeyViolation))
    else
      var l := LinkRow(db.serial, projectId, teamId);
      (db.(links := db.links + [l], serial := db.serial + 1), Ok(l))
  }

  lemma AddProjectTeamValid(db: Db, projectId: int, teamId: int)
    requires Valid(db)
    ensures Valid(AddProjectTeam(db, projectId, teamId).0)
  {
    var r := AddProjectTeam(db, projectId, teamId);
    if r.1.Ok? {
      var l := r.1.value;
      KeyedInsert(db.links, LinkId, db.serial, l);
      KeyedBump(db);
      DistinctInsert(db.links, LinkKey, l);
      RefsAddChild(db.links, LinkProject, db.projects, ProjectId, l);
      RefsAddChild(db.links, LinkTeam, db.teams, TeamId, l);
    }
  }

  /** Linking the same team to the same project twice fails the second time. */
  lemma AddProjectTeamTwice(db: Db, projectId: int, teamId: int)
    requires AddProjectTeam(db, projectId, teamId).1.Ok?
    ensures var db' := AddProjectTeam(db, projectId, teamId).0;
      AddProjectTeam(db', projectId, teamId) == (db', Error(500, UniqueViolation))
  {
    var db' := AddProjectTeam(db, projectId, teamId).0;
    assert LinkKey(db'.links[|db.links|]) == (projectId, teamId);
  }

  /** The links a `DELETE ... WHERE "projectId" = $1 AND "teamId" = $2` keeps. */
  function NotPair(projectId: int, teamId: int): LinkRow -> bool
  {
    (l: LinkRow) => LinkKey(l) != (projectId, teamId)
  }

  /**
   * `DELETE /projects/:projectId/teams/:teamId`: the link goes, always with
   * success; the team's member rows for the project stay.
   */
  function RemoveProjectTeam(db: Db, projectId: int, teamId: int): (r: (Db, Reply<bool>))
    ensures r.1 == Ok(true)
    ensures forall l :: l in r.0.links <==> l in db.links && (l.projectId, l.teamId) != (projectId, teamId)
    ensures r.0 == db.(links := r.0.links)
  {
    (db.(links := Filter(db.links, NotPair(projectId, teamId))), Ok(true))
  }

  lemma RemoveProjectTeamValid(db: Db, projectId: int, teamId: int)
    requires Valid(db)
    ensures Valid(RemoveProjectTeam(db, projectId, teamId).0)
  {
    var links := Filter(db.links, NotPair(projectId, teamId));
    KeyedFilter(db.links, LinkId, db.serial, NotPair(projectId, teamId));
    DistinctFilter(db.links, LinkKey, NotPair(projectId, teamId));
    RefsSubset(db.links, links, LinkProject, db.projects, ProjectId);
    RefsSubset(db.links, links, LinkTeam, db.teams, TeamId);
  }

  // ---- positions -----------------------------------------------------------------

  /** The positions of one team. */
  function OfTeam(teamId: int): PositionRow -> bool
  {
    (p: PositionRow) => p.teamId == teamId
  }

  /** `GET /teams/:teamId/positions`: the team's positions, by id. */
  function ListPositions(db: Db, teamId: int): (r: seq<PositionRow>)
    requires Valid(db)
    ensures forall p :: p in r <==> p in db.positions && p.teamId == teamId
    ensures forall i, j :: 0 <= i < j < |r| ==> r[i].id < r[j].id
  {
    AscendingFilter(db.positions, PositionId, OfTeam(teamId));
    Filter(db.positions, OfTeam(teamId))
  }

  /**
   * `POST /teams/:teamId/positions`: a missing name violates `NOT NULL`,
   * an unknown team the foreign key; a falsy description is ''.
   */
  function CreatePosition(db: Db, teamId: int, name: Option<string>, description: Option<string>)
    : (r: (Db, Reply<PositionRow>))
    ensures r.1.Ok? <==> name.Some? && HasId(db.teams, TeamId, teamId)
    ensures name.None? ==> r == (db, Error(500, NotNullViolation))
    ensures r.1.Error? ==> r.0 == db && r.1.status == 500
    ensures r.1.Ok? ==>
      r.1.value == PositionRow(db.serial, teamId, name.value, description.GetOr(""))
      && r.0 == db.(positions := db.positions + [r.1.value], serial := db.serial + 1)
  {
    if name.None? then (db, Error(500, NotNullViolation))
    else if !HasId(db.teams, TeamId, teamId) then (db, Error(500, ForeignKeyViolation))
    else
      var p := PositionRow(db.serial, teamId, name.value, OrString(description, ""));
      (db.(positions := db.positions + [p], serial := db.serial + 1), Ok(p))
  }

  lemma CreatePositionValid(db: Db, teamId: int, name: Option<string>, description: Option<string>)
    requires Valid(db)
    ensures Valid(CreatePosition(db, teamId, name, description).0)
  {
    var r := CreatePosition(db, teamId, name, description);
    if r.1.Ok? {
      var p := r.1.value;
      KeyedInsert(db.positions, PositionId, db.serial, p);
      KeyedBump(db);
      RefsAddChild(db.positions, PositionTeam, db.teams, TeamId, p);
      RefsAddParent(db.members, MemberPosition, db.positions, PositionId, p);
    }
  }

  /** `PATCH /positions/:id`: `COALESCE` on name and description; a missing position is 404. */
  function PatchPosition(db: Db, id: int, name: Option<string>, description: Option<string>)
    : (r: (Db, Reply<PositionRow>))
    ensures r.1.Ok? <==> HasId(db.positions, PositionId, id)
    ensures r.1.Error? ==> r == (db, Error(404, "Position not found"))
    ensures r.1.Ok? ==>
      var old_ := Find(db.positions, PositionId, id).value;
      r.1.value == PositionRow(id, old_.teamId, if name.Some? then name.value else old_.name,
                               if description.Some? then description.value else old_.description)
      && r.0 == db.(positions := SetRow(db.positions, PositionId, r.1.value))
  {
    match Find(db.positions, PositionId, id)
    case None => (db, Error(404, "Position not found"))
    case Some(old_) =>
      var p := old_.(name := Coalesce(name, old_.name), description := Coalesce(description, old_.description));
      (db.(positions := SetRow(db.positions, PositionId, p)), Ok(p))
  }

  lemma PatchPositionValid(db: Db, id: int, name: Option<string>, description: Option<string>)
    requires Valid(db)
    ensures Valid(PatchPosition(db, id, name, description).0)
  {
    var r := PatchPosition(db, id, name, description);
    if r.1.Ok? {
      var p := r.1.value;
      var old_ := Find(db.positions, PositionId, id).value;
      var i :| 0 <= i < |db.positions| && db.positions[i] == old_;
      assert PositionTeam(db.positions[i]).Some?;
      KeyedSetRow(db.positions, PositionId, db.serial, p);
      RefsSetChild(db.positions, PositionId, PositionTeam, db.teams, TeamId, p);
      RefsSetParent(db.members, MemberPosition, db.positions, PositionId, p);
    }
  }

  /** `ON DELETE SET NULL`: a member whose position row is gone loses its position. */
  function DetachFrom(positions: seq<PositionRow>): MemberRow -> MemberRow
  {
    (m: MemberRow) =>
      if m.positionId.Some? && !HasId(positions, PositionId, m.positionId.value) then m.(positionId := None) else m
  }

  /** After the rewrite every member's position exists, and only positions changed. */
  lemma Detached(members: seq<MemberRow>, positions: seq<PositionRow>)
    ensures RefsOk(Map(members, DetachFrom(positions)), MemberPosition, positions, PositionId)
    ensures forall m :: DetachFrom(positions)(m) == m.(positionId := DetachFrom(positions)(m).positionId)
  {
  }

  /** The member columns `DetachFrom` does not touch. */
  lemma DetachKeeps(db: Db, positions: seq<PositionRow>)
    requires Keyed(db.members, MemberId, db.serial) && DistinctBy(db.members, MemberKey)
    requires RefsOk(db.members, MemberProject, db.projects, ProjectId)
    requires RefsOk(db.members, MemberTeam, db.teams, TeamId)
    requires RefsOk(db.members, MemberUser, db.users, UserId)
    ensures var ms := Map(db.members, DetachFrom(positions));
      Keyed(ms, MemberId, db.serial) && DistinctBy(ms, MemberKey)
      && RefsOk(ms, MemberProject, db.projects, ProjectId) && RefsOk(ms, MemberTeam, db.teams, TeamId)
      && RefsOk(ms, MemberUser, db.users, UserId) && RefsOk(ms, MemberPosition, positions, PositionId)
  {
    var f := DetachFrom(positions);
    KeyedMap(db.members, MemberId, db.serial, f);
    DistinctMap(db.members, MemberKey, f);
    RefsMap(db.members, MemberProject, db.projects, ProjectId, f);
    RefsMap(db.members, MemberTeam, db.teams, TeamId, f);
    RefsMap(db.members, MemberUser, db.users, UserId, f);
    Detached(db.members, positions);
  }

  /** `DELETE /positions/:id`: always success; members holding the position keep their row without it. */
  function DeletePosition(db: Db, id: int): (r: (Db, Reply<bool>))
    ensures r.1 == Ok(true)
    ensures forall x :: HasId(r.0.positions, PositionId, x) <==> HasId(db.positions, PositionId, x) && x != id
    ensures |r.0.members| == |db.members| && Unreferenced(r.0.members, MemberPosition, id)
    ensures forall i :: 0 <= i < |db.members| ==> r.0.members[i] == db.members[i].(positionId := r.0.members[i].positionId)
    ensures r.0 == db.(positions := r.0.positions, members := r.0.members)
  {
    var positions := DeleteId(db.positions, PositionId, id);
    forall x ensures HasId(positions, PositionId, x) <==> HasId(db.positions, PositionId, x) && x != id {
      HasIdDelete(db.positions, PositionId, id, x);
    }
    Detached(db.members, positions);
    (db.(positions := positions, members := Map(db.members, DetachFrom(positions))), Ok(true))
  }

  /** With valid references, exactly the members holding the deleted position lose it. */
  lemma DeletePositionSetsNull(db: Db, id: int)
    requires Valid(db)
    ensures forall i :: 0 <= i < |db.members| ==>
      DeletePosition(db, id).0.members[i].positionId
        == if db.members[i].positionId == Some(id) then None else db.members[i].positionId
  {
    var positions := DeleteId(db.positions, PositionId, id);
    forall i | 0 <= i < |db.members| && db.members[i].positionId.Some?
      ensures HasId(positions, PositionId, db.members[i].positionId.value) <==> db.members[i].positionId != Some(id)
    {
      assert MemberPosition(db.members[i]).Some?;
      HasIdDelete(db.positions, PositionId, id, db.members[i].positionId.value);
    }
  }

  lemma DeletePositionValid(db: Db, id: int)
    requires Valid(db)
    ensures Valid(DeletePosition(db, id).0)
  {
    var positions := DeleteId(db.positions, PositionId, id);
    KeyedDeleteId(db.positions, PositionId, db.serial, id);
    RefsDeleteChild(db.positions, PositionId, id, PositionTeam, db.teams, TeamId);
    DetachKeeps(db, positions);
  }

  // ---- project team members ----------------------------------------------------

  /** `positionId || null`. */
  function PositionOrNull(positionId: Option<int>): Option<int>
  {
    if positionId.GetOr(0) == 0 then None else positionId
  }

  /**
   * `POST /projects/:projectId/team-members`: a user already on that
   * project's team violates `UNIQUE("projectId", "teamId", "userId")`; an
   * unknown project, team, user or position violates a foreign key.
   */
  function AddMember(db: Db, projectId: int, teamId: int, userId: int, positionId: Option<int>)
    : (r: (Db, Reply<MemberRow>))
    ensures r.1.Ok? <==>
      (!HasKey(db.members, MemberKey, (projectId, teamId, userId))
       && HasId(db.projects, ProjectId, projectId) && HasId(db.teams, TeamId, teamId) && HasId(db.users, UserId, userId)
       && (positionId.GetOr(0) != 0 ==> HasId(db.positions, PositionId, positionId.value)))
    ensures HasKey(db.members, MemberKey, (projectId, teamId, userId)) ==> r == (db, Error(500, UniqueViolation))
    ensures r.1.Error? ==> r.0 == db && r.1.status == 500
    ensures r.1.Ok? ==>
      r.1.value == MemberRow(db.serial, projectId, teamId, userId, if positionId.GetOr(0) == 0 then None else positionId)
      && r.0 == db.(members := db.members + [r.1.value], serial := db.serial + 1)
  {
    var pos := PositionOrNull(positionId);
    if HasKey(db.members, MemberKey, (projectId, teamId, userId)) then (db, Error(500, UniqueViolation))
    else if !HasId(db.projects, ProjectId, projectId) || !HasId(db.teams, TeamId, teamId)
         || !HasId(db.users, UserId, userId) || (pos.Some? && !HasId(db.positions, PositionId, pos.value)) then
      (db, Error(500, ForeignKeyViolation))
    else
      var m := MemberRow(db.serial, projectId, teamId, userId, pos);
      (db.(members := db.members + [m], serial := db.serial + 1), Ok(m))
  }

  lemma AddMemberValid(db: Db, projectId: int, teamId: int, userId: int, positionId: Option<int>)
    requires Valid(db)
    ensures Valid(AddMember(db, projectId, teamId, userId, positionId).0)
  {
    var r := AddMember(db, projectId, teamId, userId, positionId);
    if r.1.Ok? {
      var m := r.1.value;
      KeyedInsert(db.members, MemberId, db.serial, m);
      KeyedBump(db);
      DistinctInsert(db.members, MemberKey, m);
      RefsAddChild(db.members, MemberProject, db.projects, ProjectId, m);
      RefsAddChild(db.members, MemberTeam, db.teams, TeamId, m);
      RefsAddChild(db.members, MemberUser, db.users, UserId, m);
      RefsAddChild(db.members, MemberPosition, db.positions, PositionId, m);
    }
  }

  /**
   * `PATCH /project-team-members/:id`: the position is overwritten, not
   * coalesced, so a falsy `positionId` clears it; a missing row is 404.
   */
  function PatchMember(db: Db, id: int, positionId: Option<int>): (r: (Db, Reply<MemberRow>))
    ensures r.1.Ok? <==>
      (HasId(db.members, MemberId, id)
       && (positionId.GetOr(0) != 0 ==> HasId(db.positions, PositionId, positionId.value)))
    ensures !HasId(db.members, MemberId, id) ==> r == (db, Error(404, "Team member assignment not found"))
    ensures r.1.Error? ==> r.0 == db
    ensures r.1.Ok? ==>
      r.1.value == Find(db.members, MemberId, id).value.(positionId := if positionId.GetOr(0) == 0 then None else positionId)
      && r.0 == db.(members := SetRow(db.members, MemberId, r.1.value))
  {
    match Find(db.members, MemberId, id)
    case None => (db, Error(404, "Team member assignment not found"))
    case Some(m) =>
      var pos := PositionOrNull(positionId);
      if pos.Some? && !HasId(db.positions, PositionId, pos.value) then (db, Error(500, ForeignKeyViolation))
      else
        var v := m.(positionId := pos);
        (db.(members := SetRow(db.members, MemberId, v)), Ok(v))
  }

  lemma PatchMemberValid(db: Db, id: int, positionId: Option<int>)
    requires Valid(db)
    ensures Valid(PatchMember(db, id, positionId).0)
  {
    var r := PatchMember(db, id, positionId);
    if r.1.Ok? {
      var m := Find(db.members, MemberId, id).value;
      var v := r.1.value;
      var j :| 0 <= j < |db.members| && db.members[j] == m;
      assert MemberProject(db.members[j]).Some? && MemberTeam(db.members[j]).Some? && MemberUser(db.members[j]).Some?;
      KeyedSetRow(db.members, MemberId, db.serial, v);
      DistinctSetSameKey(db.members, MemberId, MemberKey, j, v);
      RefsSetChild(db.members, MemberId, MemberProject, db.projects, ProjectId, v);
      RefsSetChild(db.members, MemberId, MemberTeam, db.teams, TeamId, v);
      RefsSetChild(db.members, MemberId, MemberUser, db.users, UserId, v);
      RefsSetChild(db.members, MemberId, MemberPosition, db.positions, PositionId, v);
    }
  }

  /** `DELETE /project-team-members/:id`: always success. */
  function DeleteMember(db: Db, id: int): (r: (Db, Reply<bool>))
    ensures r.1 == Ok(true)
    ensures forall m :: m in r.0.members <==> m in db.members && m.id != id
    ensures r.0 == db.(members := r.0.members)
  {
    var members := DeleteId(db.members, MemberId, id);
    forall m | m in db.members && m.id != id ensures m in members {
      var i :| 0 <= i < |db.members| && db.members[i] == m;
    }
    (db.(members := members), Ok(true))
  }

  lemma DeleteMemberValid(db: Db, id: int)
    requires Valid(db)
    ensures Valid(DeleteMember(db, id).0)
  {
    KeyedDeleteId(db.members, MemberId, db.serial, id);
    DistinctDeleteId(db.members, MemberKey, MemberId, id);
    RefsDeleteChild(db.members, MemberId, id, MemberProject, db.projects, ProjectId);
    RefsDeleteChild(db.members, MemberId, id, MemberTeam, db.teams, TeamId);
    RefsDeleteChild(db.members, MemberId, id, MemberUser, db.users, UserId);
    RefsDeleteChild(db.members, MemberId, id, MemberPosition, db.positions, PositionId);
  }

  // ---- tasks -------------------------------------------------------------------

  /** The tasks of one project. */
  function InProject(projectId: int): TaskRow -> bool
  {
    (t: TaskRow) => t.projectId == Some(projectId)
  }

  /**
   * `GET /tasks[?projectId=n]`: with a (truthy) project id only that
   * project's tasks, otherwise all of them; by id either way.
   */
  function ListTasks(db: Db, projectId: Option<int>): (r: seq<TaskRow>)
    requires Valid(db)
    ensures projectId.None? ==> r == db.tasks
    ensures projectId.Some? ==> forall t :: t in r <==> t in db.tasks && t.projectId == projectId
    ensures projectId.Some? ==> Subseq(r, db.tasks)
    ensures forall i, j :: 0 <= i < j < |r| ==> r[i].id < r[j].id
  {
    assert Ascending(db.tasks, TaskId);
    if projectId.None? then db.tasks
    else
      AscendingFilter(db.tasks, TaskId, InProject(projectId.value));
      FilterIsSubseq(db.tasks, InProject(projectId.value));
      Filter(db.tasks, InProject(projectId.value))
  }

  // ---- query-string parameters ---------------------------------------------------

  // The handlers pass `req.query` strings to Postgres unconverted; Postgres
  // reads them with its integer input routine.
  const Int4Min := -0x8000_0000
  const Int4Max := 0x7FFF_FFFF
  const Int8Min := -0x8000_0000_0000_0000
  const Int8Max := 0x7FFF_FFFF_FFFF_FFFF

  /** The white space Postgres' integer input skips around the digits (C's `isspace`). */
  predicate PgSpace(c: char)
  {
    c == ' ' || c == '\t' || c == '\n' || c == '\U{000B}' || c == '\U{000C}' || c == '\r'
  }

  /** `s` without its leading `PgSpace` characters. */
  function PgTrimStart(s: string): (r: string)
    ensures |r| <= |s| && r == s[|s| - |r|..]
    ensures r == [] || !PgSpace(r[0])
    ensures forall i :: 0 <= i < |s| - |r| ==> PgSpace(s[i])
  {
    if s != [] && PgSpace(s[0]) then PgTrimStart(s[1..]) else s
  }

  /** `s` without its trailing `PgSpace` characters. */
  function PgTrimEnd(s: string): (r: string)
    ensures |r| <= |s| && r == s[..|r|]
    ensures r == [] || !PgSpace(r[|r| - 1])
    ensures forall i :: |r| <= i < |s| ==> PgSpace(s[i])
  {
    if s != [] && PgSpace(s[|s| - 1]) then PgTrimEnd(s[..|s| - 1]) else s
  }

  /** `s` without the `PgSpace` characters at either end. */
  function PgTrim(s: string): (r: string)
  {
    PgTrimEnd(PgTrimStart(s))
  }

  /** How Postgres reads a string as an integer column or parameter. */
  datatype PgInput = Accepted(value: int) | BadSyntax | OutOfRange

  /** An optional sign and at least one digit, nothing else. */
  function PgDecimal(t: string): (r: Option<int>)
    ensures t == [] ==> r.None?
  {
    var u := if t != [] && (t[0] == '-' || t[0] == '+') then t[1..] else t;
    if u == [] || !AllDigits(u) then None
    else if t[0] == '-' then Some(-(ParseDigits(u) as int))
    else Some(ParseDigits(u))
  }

  /**
   * Postgres' decimal integer input: surrounding white space, an optional
   * sign and at least one digit, nothing else; a value outside `lo..hi` is a
   * range error.
   */
  function PgInteger(s: string, lo: int, hi: int): (r: PgInput)
    ensures r.Accepted? ==> lo <= r.value <= hi
    ensures r.Accepted? <==> PgDecimal(PgTrim(s)).Some? && lo <= PgDecimal(PgTrim(s)).value <= hi
  {
    match PgDecimal(PgTrim(s))
    case None => BadSyntax
    case Some(v) => if lo <= v <= hi then Accepted(v) else OutOfRange
  }

  /** `String(n)` is read back as `n` when in range. */
  lemma PgIntegerOfString(n: int, lo: int, hi: int)
    ensures PgInteger(IntToString(n), lo, hi) == if lo <= n <= hi then Accepted(n) else OutOfRange
  {
    var s := IntToString(n);
    assert PgTrimStart(s) == s;
    assert PgTrimEnd(s) == s;
    PgDecimalOfString(n);
  }

  lemma PgDecimalOfString(n: int)
    ensures PgDecimal(IntToString(n)) == Some(n)
  {
    var s := IntToString(n);
    if n < 0 {
      assert s[1..] == NatToString(-n);
      ParseNatToString(-n);
    } else {
      ParseNatToString(n);
    }
  }

  /** A character that is no digit, sign or white space, anywhere in the string, is a syntax error. */
  lemma PgRejectsStray(s: string, i: int)
    requires 0 <= i < |s| && !IsDigit(s[i]) && s[i] != '+' && s[i] != '-' && !PgSpace(s[i])
    ensures PgInteger(s, Int4Min, Int4Max) == BadSyntax && PgInteger(s, Int8Min, Int8Max) == BadSyntax
  {
    var a := PgTrimStart(s);
    var k := i - (|s| - |a|);
    assert 0 <= k < |a| && a[k] == s[i];
    var t := PgTrimEnd(a);
    assert k < |t| && t[k] == s[i];
    var u := if t != [] && (t[0] == '-' || t[0] == '+') then t[1..] else t;
    if t[0] == '-' || t[0] == '+' {
      assert u[k - 1] == s[i];
    } else {
      assert u[k] == s[i];
    }
  }

  /** `12abc` and `abc` are syntax errors. */
  lemma PgRejectsLetters()
    ensures PgInteger("12abc", Int4Min, Int4Max) == BadSyntax && PgInteger("12abc", Int8Min, Int8Max) == BadSyntax
    ensures PgInteger("abc", Int4Min, Int4Max) == BadSyntax && PgInteger("abc", Int8Min, Int8Max) == BadSyntax
  {
    PgRejectsStray("12abc", 2);
    PgRejectsStray("abc", 0);
  }

  /** Where Postgres accepts a string, `parseInt` reads the same number from it. */
  lemma PgAgreesWithParseInt(s: string, lo: int, hi: int)
    requires PgInteger(s, lo, hi).Accepted?
    ensures JsParseInt(s) == Some(PgInteger(s, lo, hi).value)
  {
    var a := PgTrimStart(s);
    DecimalBeforeSpace(a);
    ParseIntSkipsLead(s);
  }

  /** `parseInt` of a signed decimal followed by white space is its value. */
  lemma DecimalBeforeSpace(a: string)
    requires PgDecimal(PgTrimEnd(a)).Some?
    ensures a != [] && !IsSpace(a[0])
    ensures JsParseInt(a) == PgDecimal(PgTrimEnd(a))
  {
    var t := PgTrimEnd(a);
    TrimmedEndSplits(a);
    DecimalThenSpace(t, a[|t|..]);
  }

  lemma TrimmedEndSplits(a: string)
    ensures a == PgTrimEnd(a) + a[|PgTrimEnd(a)|..]
    ensures forall i :: 0 <= i < |a[|PgTrimEnd(a)|..]| ==> PgSpace(a[|PgTrimEnd(a)|..][i])
  {
    var k := |PgTrimEnd(a)|;
    assert a == a[..k] + a[k..];
    assert forall i :: 0 <= i < |a[k..]| ==> a[k..][i] == a[k + i];
  }

  /** `parseInt` skips the leading `PgSpace` characters. */
  lemma {:induction false} ParseIntSkipsLead(s: string)
    requires PgTrimStart(s) != [] && !IsSpace(PgTrimStart(s)[0])
    ensures JsParseInt(s) == JsParseInt(PgTrimStart(s))
  {
    if s != [] && PgSpace(s[0]) {
      ParseIntSkipsLead(s[1..]);
      assert TrimStart(s) == TrimStart(s[1..]);
    } else {
      assert PgTrimStart(s) == s;
    }
  }

  /** `parseInt` of a signed decimal followed by white space is its value. */
  lemma DecimalThenSpace(t: string, tail: string)
    requires PgDecimal(t).Some?
    requires forall i :: 0 <= i < |tail| ==> PgSpace(tail[i])
    ensures t + tail != [] && !IsSpace((t + tail)[0])
    ensures JsParseInt(t + tail) == PgDecimal(t)
  {
    var a := t + tail;
    assert a[0] == t[0];
    SignOrDigitNotSpace(t[0]);
    assert TrimStart(a) == a;
    var u := if t[0] == '-' || t[0] == '+' then t[1..] else t;
    var v := if t[0] == '-' || t[0] == '+' then a[1..] else a;
    assert v == u + tail;
    DigitPrefixStopsAtSpace(u, tail);
  }

  lemma SignOrDigitNotSpace(c: char)
    requires c == '-' || c == '+' || IsDigit(c)
    ensures !IsSpace(c)
  {
  }

  /** Digits followed by white space: the digit prefix is the digits. */
  lemma {:induction false} DigitPrefixStopsAtSpace(d: string, w: string)
    requires AllDigits(d)
    requires forall i :: 0 <= i < |w| ==> PgSpace(w[i])
    ensures DigitPrefix(d + w) == d
  {
    if d != [] {
      assert (d + w)[1..] == d[1..] + w;
      DigitPrefixStopsAtSpace(d[1..], w);
    } else {
      assert d + w == w;
    }
  }

  /**
   * `GET /tasks[?projectId=…]`: a truthy `projectId` string is compared with
   * the integer column, so a string Postgres cannot read as an integer is a
   * 500; an absent or empty one lists every task.
   */
  function GetTasks(db: Db, projectId: Option<string>): (r: Reply<seq<TaskRow>>)
    requires Valid(db)
    ensures projectId.GetOr("") == "" ==> r == Ok(db.tasks)
    ensures r.Error? <==> projectId.GetOr("") != "" && !PgInteger(projectId.value, Int4Min, Int4Max).Accepted?
    ensures r.Error? ==> r.status == 500
    ensures r.Ok? && projectId.GetOr("") != "" ==>
      forall t :: t in r.value <==> t in db.tasks && t.projectId == Some(PgInteger(projectId.value, Int4Min, Int4Max).value)
  {
    if projectId.GetOr("") == "" then Ok(ListTasks(db, None))
    else
      match PgInteger(projectId.value, Int4Min, Int4Max)
      case Accepted(n) => Ok(ListTasks(db, Some(n)))
      case BadSyntax => Error(500, InvalidInteger)
      case OutOfRange => Error(500, IntegerOutOfRange)
  }

  function GetTask(db: Db, id: int): (r: Reply<TaskRow>)
    ensures r.Ok? <==> HasId(db.tasks, TaskId, id)
    ensures r.Ok? ==> r.value in db.tasks && r.value.id == id
    ensures r.Error? ==> r == Error(404, "Task not found")
  {
    match Find(db.tasks, TaskId, id)
    case Some(t) => Ok(t)
    case None => Error(404, "Task not found")
  }

  /** The body of `POST /tasks`; `None` is absent or `null`. */
  datatype TaskBody = TaskBody(
    title: Option<string>, description: Option<string>, status: Option<string>, priority: Option<string>,
    projectId: Option<int>, assigneeId: Option<int>, dueDate: Option<string>,
    estimatedHours: Option<int>, actualHours: Option<int>)

  /**
   * `POST /tasks`: a missing title violates `NOT NULL`, an unknown project
   * or assignee a foreign key; a falsy status is 'backlog', a falsy
   * priority 'medium', falsy hours 0; both timestamps are `now`.
   */
  function CreateTask(db: Db, b: TaskBody, now: int): (r: (Db, Reply<TaskRow>))
    ensures r.1.Ok? <==>
      (b.title.Some?
       && (b.projectId.Some? ==> HasId(db.projects, ProjectId, b.projectId.value))
       && (b.assigneeId.Some? ==> HasId(db.users, UserId, b.assigneeId.value)))
    ensures b.title.None? ==> r == (db, Error(500, NotNullViolation))
    ensures r.1.Error? ==> r.0 == db && r.1.status == 500
    ensures r.1.Ok? ==>
      var t := r.1.value;
      t.id == db.serial && t.title == b.title.value && t.description == b.description
      && (b.status.GetOr("") == "" ==> t.status == "backlog") && (b.status.GetOr("") != "" ==> t.status == b.status.value)
      && (b.priority.GetOr("") == "" ==> t.priority == "medium")
      && (b.priority.GetOr("") != "" ==> t.priority == b.priority.value)
      && t.projectId == b.projectId && t.assigneeId == b.assigneeId && t.dueDate == b.dueDate
      && t.estimatedHours == b.estimatedHours.GetOr(0) && t.actualHours == b.actualHours.GetOr(0)
      && t.createdAt == now && t.updatedAt == now
      && r.0 == db.(tasks := db.tasks + [t], serial := db.serial + 1)
  {
    if b.title.None? then (db, Error(500, NotNullViolation))
    else if (b.projectId.Some? && !HasId(db.projects, ProjectId, b.projectId.value))
         || (b.assigneeId.Some? && !HasId(db.users, UserId, b.assigneeId.value)) then
      (db, Error(500, ForeignKeyViolation))
    else
      var t := TaskRow(db.serial, b.title.value, b.description, OrString(b.status, "backlog"),
                       OrString(b.priority, "medium"), b.projectId, b.assigneeId, b.dueDate,
                       OrNumber(b.estimatedHours, 0), OrNumber(b.actualHours, 0), now, now);
      (db.(tasks := db.tasks + [t], serial := db.serial + 1), Ok(t))
  }

  lemma CreateTaskValid(db: Db, b: TaskBody, now: int)
    requires Valid(db)
    ensures Valid(CreateTask(db, b, now).0)
  {
    var r := CreateTask(db, b, now);
    if r.1.Ok? {
      var t := r.1.value;
      KeyedInsert(db.tasks, TaskId, db.serial, t);
      KeyedBump(db);
      RefsAddChild(db.tasks, TaskProject, db.projects, ProjectId, t);
      RefsAddChild(db.tasks, TaskAssignee, db.users, UserId, t);
    }
  }

  /** The body of `PATCH /tasks/:id`: every column but the project. */
  datatype TaskPatch = TaskPatch(
    title: Option<string>, description: Option<string>, status: Option<string>, priority: Option<string>,
    assigneeId: Option<int>, dueDate: Option<string>, estimatedHours: Option<int>, actualHours: Option<int>)

  /** The row `COALESCE` produces from the stored one. */
  function PatchedTask(t: TaskRow, b: TaskPatch, now: int): TaskRow
  {
    t.(title := Coalesce(b.title, t.title), description := CoalesceNull(b.description, t.description),
       status := Coalesce(b.status, t.status), priority := Coalesce(b.priority, t.priority),
       assigneeId := CoalesceNull(b.assigneeId, t.assigneeId), dueDate := CoalesceNull(b.dueDate, t.dueDate),
       estimatedHours := Coalesce(b.estimatedHours, t.estimatedHours),
       actualHours := Coalesce(b.actualHours, t.actualHours), updatedAt := now)
  }

  /**
   * `PATCH /tasks/:id`: `COALESCE` on the eight columns, `updatedAt` set
   * to `now`; a missing task is 404 and an unknown assignee violates the
   * foreign key.
   */
  function PatchTask(db: Db, id: int, b: TaskPatch, now: int): (r: (Db, Reply<TaskRow>))
    ensures r.1.Ok? <==>
      (HasId(db.tasks, TaskId, id) && (b.assigneeId.Some? ==> HasId(db.users, UserId, b.assigneeId.value)))
    ensures !HasId(db.tasks, TaskId, id) ==> r == (db, Error(404, "Task not found"))
    ensures r.1.Error? ==> r.0 == db
    ensures r.1.Ok? ==>
      r.1.value == PatchedTask(Find(db.tasks, TaskId, id).value, b, now)
      && r.0 == db.(tasks := SetRow(db.tasks, TaskId, r.1.value))
  {
    match Find(db.tasks, TaskId, id)
    case None => (db, Error(404, "Task not found"))
    case Some(t) =>
      if b.assigneeId.Some? && !HasId(db.users, UserId, b.assigneeId.value) then
        (db, Error(500, ForeignKeyViolation))
      else
        var v := PatchedTask(t, b, now);
        (db.(tasks := SetRow(db.tasks, TaskId, v)), Ok(v))
  }

  /**
   * Field by field: a supplied value replaces the old one, a missing one
   * keeps it, so nothing can be reset to `null`; the id, the project and
   * `createdAt` never change and `updatedAt` is always `now`.
   */
  lemma PatchedTaskFields(t: TaskRow, b: TaskPatch, now: int)
    ensures var v := PatchedTask(t, b, now);
      v.id == t.id && v.projectId == t.projectId && v.createdAt == t.createdAt && v.updatedAt == now
      && v.title == (if b.title.Some? then b.title.value else t.title)
      && v.status == (if b.status.Some? then b.status.value else t.status)
      && v.priority == (if b.priority.Some? then b.priority.value else t.priority)
      && v.estimatedHours == (if b.estimatedHours.Some? then b.estimatedHours.value else t.estimatedHours)
      && v.actualHours == (if b.actualHours.Some? then b.actualHours.value else t.actualHours)
      && v.description == (if b.description.Some? then b.description else t.description)
      && v.assigneeId == (if b.assigneeId.Some? then b.assigneeId else t.assigneeId)
      && v.dueDate == (if b.dueDate.Some? then b.dueDate else t.dueDate)
      && (t.description.Some? ==> v.description.Some?)
      && (t.assigneeId.Some? ==> v.assigneeId.Some?)
      && (t.dueDate.Some? ==> v.dueDate.Some?)
  {
  }

  lemma PatchTaskValid(db: Db, id: int, b: TaskPatch, now: int)
    requires Valid(db)
    ensures Valid(PatchTask(db, id, b, now).0)
  {
    var r := PatchTask(db, id, b, now);
    if r.1.Ok? {
      var t := Find(db.tasks, TaskId, id).value;
      var v := r.1.value;
      var j :| 0 <= j < |db.tasks| && db.tasks[j] == t;
      assert TaskProject(v) == TaskProject(db.tasks[j]) && (TaskAssignee(v) == TaskAssignee(db.tasks[j]) || b.assigneeId.Some?);
      KeyedSetRow(db.tasks, TaskId, db.serial, v);
      RefsSetChild(db.tasks, TaskId, TaskProject, db.projects, ProjectId, v);
      RefsSetChild(db.tasks, TaskId, TaskAssignee, db.users, UserId, v);
    }
  }

  /** `DELETE /tasks/:id`: always success. */
  function DeleteTask(db: Db, id: int): (r: (Db, Reply<bool>))
    ensures r.1 == Ok(true)
    ensures forall t :: t in r.0.tasks <==> t in db.tasks && t.id != id
    ensures r.0 == db.(tasks := r.0.tasks)
  {
    var tasks := DeleteId(db.tasks, TaskId, id);
    forall t | t in db.tasks && t.id != id ensures t in tasks {
      var i :| 0 <= i < |db.tasks| && db.tasks[i] == t;
    }
    (db.(tasks := tasks), Ok(true))
  }

  lemma DeleteTaskValid(db: Db, id: int)
    requires Valid(db)
    ensures Valid(DeleteTask(db, id).0)
  {
    KeyedDeleteId(db.tasks, TaskId, db.serial, id);
    RefsDeleteChild(db.tasks, TaskId, id, TaskProject, db.projects, ProjectId);
    RefsDeleteChild(db.tasks, TaskId, id, TaskAssignee, db.users, UserId);
  }

  /** Deleting a project leaves no task of it behind, so listing them gives nothing. */
  lemma DeleteProjectTasks(db: Db, id: int)
    requires Valid(db)
    ensures Valid(DeleteProject(db, id).0)
    ensures ListTasks(DeleteProject(db, id).0, Some(id)) == []
  {
    var db' := DeleteProject(db, id).0;
    DeleteProjectValid(db, id);
    NoTasksListed(db', id);
  }

  lemma NoTasksListed(db: Db, id: int)
    requires Valid(db) && forall t :: t in db.tasks ==> t.projectId != Some(id)
    ensures ListTasks(db, Some(id)) == []
  {
    var r := ListTasks(db, Some(id));
    assert forall i :: 0 <= i < |r| ==> r[i] in r;
  }

  // ---- teams -------------------------------------------------------------------

  /** `GET /teams`: every team, by id. */
  function ListTeams(db: Db): (r: seq<TeamRow>)
    requires Valid(db)
    ensures forall t :: t in r <==> t in db.teams
    ensures forall i, j :: 0 <= i < j < |r| ==> r[i].id < r[j].id
  {
    assert Ascending(db.teams, TeamId);
    db.teams
  }

  function GetTeam(db: Db, id: int): (r: Reply<TeamRow>)
    ensures r.Ok? <==> HasId(db.teams, TeamId, id)
    ensures r.Ok? ==> r.value in db.teams && r.value.id == id
    ensures r.Error? ==> r == Error(404, "Team not found")
  {
    match Find(db.teams, TeamId, id)
    case Some(t) => Ok(t)
    case None => Error(404, "Team not found")
  }

  /** The body of `POST /teams` and `PATCH /teams/:id`. */
  datatype TeamBody = TeamBody(name: Option<string>, description: Option<string>, memberIds: Option<seq<int>>)

  /** `POST /teams`: a missing name violates `NOT NULL`; missing member ids are `[]`. */
  function CreateTeam(db: Db, b: TeamBody, now: int): (r: (Db, Reply<TeamRow>))
    ensures r.1.Ok? <==> b.name.Some?
    ensures r.1.Error? ==> r == (db, Error(500, NotNullViolation))
    ensures r.1.Ok? ==>
      r.1.value == TeamRow(db.serial, b.name.value, b.description, b.memberIds.GetOr([]), now, now)
      && r.0 == db.(teams := db.teams + [r.1.value], serial := db.serial + 1)
  {
    if b.name.None? then (db, Error(500, NotNullViolation))
    else
      var t := TeamRow(db.serial, b.name.value, b.description, if b.memberIds.Some? then b.memberIds.value else [],
                       now, now);
      (db.(teams := db.teams + [t], serial := db.serial + 1), Ok(t))
  }

  lemma CreateTeamValid(db: Db, b: TeamBody, now: int)
    requires Valid(db)
    ensures Valid(CreateTeam(db, b, now).0)
  {
    var r := CreateTeam(db, b, now);
    if r.1.Ok? {
      var t := r.1.value;
      KeyedInsert(db.teams, TeamId, db.serial, t);
      KeyedBump(db);
      RefsAddParent(db.links, LinkTeam, db.teams, TeamId, t);
      RefsAddParent(db.positions, PositionTeam, db.teams, TeamId, t);
      RefsAddParent(db.members, MemberTeam, db.teams, TeamId, t);
    }
  }

  /** `PATCH /teams/:id`: `COALESCE` on the three columns, `updatedAt` set to `now`. */
  function PatchTeam(db: Db, id: int, b: TeamBody, now: int): (r: (Db, Reply<TeamRow>))
    ensures r.1.Ok? <==> HasId(db.teams, TeamId, id)
    ensures r.1.Error? ==> r == (db, Error(404, "Team not found"))
    ensures r.1.Ok? ==>
      var old_ := Find(db.teams, TeamId, id).value;
      r.1.value == TeamRow(id, if b.name.Some? then b.name.value else old_.name,
                           if b.description.Some? then b.description else old_.description,
                           if b.memberIds.Some? then b.memberIds.value else old_.memberIds, old_.createdAt, now)
      && r.0 == db.(teams := SetRow(db.teams, TeamId, r.1.value))
  {
    match Find(db.teams, TeamId, id)
    case None => (db, Error(404, "Team not found"))
    case Some(old_) =>
      var t := old_.(name := Coalesce(b.name, old_.name), description := CoalesceNull(b.description, old_.description),
                     memberIds := Coalesce(b.memberIds, old_.memberIds), updatedAt := now);
      (db.(teams := SetRow(db.teams, TeamId, t)), Ok(t))
  }

  lemma PatchTeamValid(db: Db, id: int, b: TeamBody, now: int)
    requires Valid(db)
    ensures Valid(PatchTeam(db, id, b, now).0)
  {
    var r := PatchTeam(db, id, b, now);
    if r.1.Ok? {
      var t := r.1.value;
      KeyedSetRow(db.teams, TeamId, db.serial, t);
      RefsSetParent(db.links, LinkTeam, db.teams, TeamId, t);
      RefsSetParent(db.positions, PositionTeam, db.teams, TeamId, t);
      RefsSetParent(db.members, MemberTeam, db.teams, TeamId, t);
    }
  }

  /**
   * `DELETE /teams/:id`: always success; `ON DELETE CASCADE` removes the
   * team's links, positions and member rows, and members elsewhere that
   * held one of its positions lose it (`ON DELETE SET NULL`).
   */
  function DeleteTeam(db: Db, id: int): (r: (Db, Reply<bool>))
    ensures r.1 == Ok(true)
    ensures forall x :: HasId(r.0.teams, TeamId, x) <==> HasId(db.teams, TeamId, x) && x != id
    ensures forall l :: l in r.0.links <==> l in db.links && l.teamId != id
    ensures forall p :: p in r.0.positions <==> p in db.positions && p.teamId != id
    ensures forall m :: m in r.0.members ==> m.teamId != id
    ensures r.0.members == Map(DeleteRef(db.members, MemberTeam, id), DetachFrom(r.0.positions))
    ensures RefsOk(r.0.members, MemberPosition, r.0.positions, PositionId)
    ensures r.0 == db.(teams := r.0.teams, links := r.0.links, positions := r.0.positions, members := r.0.members)
  {
    var teams := DeleteId(db.teams, TeamId, id);
    forall x ensures HasId(teams, TeamId, x) <==> HasId(db.teams, TeamId, x) && x != id {
      HasIdDelete(db.teams, TeamId, id, x);
    }
    var links := DeleteRef(db.links, LinkTeam, id);
    forall l | l in db.links && l.teamId != id ensures l in links {
      var i :| 0 <= i < |db.links| && db.links[i] == l;
    }
    var positions := DeleteRef(db.positions, PositionTeam, id);
    forall p | p in db.positions && p.teamId != id ensures p in positions {
      var i :| 0 <= i < |db.positions| && db.positions[i] == p;
    }
    var kept := DeleteRef(db.members, MemberTeam, id);
    var members := Map(kept, DetachFrom(positions));
    Detached(kept, positions);
    forall m | m in members ensures m.teamId != id {
      var i :| 0 <= i < |members| && members[i] == m;
      assert kept[i] in kept;
    }
    (db.(teams := teams, links := links, positions := positions, members := members), Ok(true))
  }

  /** Position `pid` is one of team `team`'s. */
  predicate TeamPosition(positions: seq<PositionRow>, pid: int, team: int)
  {
    exists p :: p in positions && p.id == pid && p.teamId == team
  }

  /**
   * With valid references, deleting a team keeps the member rows of the
   * other teams, in order, and each loses its position exactly when that
   * position was one of the deleted team's; no other column changes.
   */
  lemma DeleteTeamDetaches(db: Db, id: int)
    requires Valid(db)
    ensures var ms := DeleteTeam(db, id).0.members;
      var kept := DeleteRef(db.members, MemberTeam, id);
      |ms| == |kept|
      && (forall m :: m in kept <==> m in db.members && m.teamId != id)
      && forall i :: 0 <= i < |kept| ==>
        ms[i] == kept[i].(positionId :=
          if kept[i].positionId.Some? && TeamPosition(db.positions, kept[i].positionId.value, id) then None
          else kept[i].positionId)
  {
    var kept := DeleteRef(db.members, MemberTeam, id);
    forall m | m in db.members && m.teamId != id ensures m in kept {
      var j :| 0 <= j < |db.members| && db.members[j] == m;
    }
    KeptPositionsSurvive(db, id);
    DetachKept(kept, db.positions, DeleteRef(db.positions, PositionTeam, id), id);
  }

  /** Every position a kept member holds exists; it survives exactly when it is another team's. */
  lemma KeptPositionsSurvive(db: Db, id: int)
    requires Valid(db)
    ensures var kept := DeleteRef(db.members, MemberTeam, id);
      forall i :: 0 <= i < |kept| && kept[i].positionId.Some? ==>
        (HasId(DeleteRef(db.positions, PositionTeam, id), PositionId, kept[i].positionId.value) <==>
         !TeamPosition(db.positions, kept[i].positionId.value, id))
  {
    var kept := DeleteRef(db.members, MemberTeam, id);
    forall i | 0 <= i < |kept| && kept[i].positionId.Some?
      ensures HasId(DeleteRef(db.positions, PositionTeam, id), PositionId, kept[i].positionId.value) <==>
              !TeamPosition(db.positions, kept[i].positionId.value, id)
    {
      assert kept[i] in kept;
      var j :| 0 <= j < |db.members| && db.members[j] == kept[i];
      assert MemberPosition(db.members[j]).Some?;
      SurvivingPosition(db, id, kept[i].positionId.value);
    }
  }

  /** `DetachFrom` on the kept members, given which of their positions survive. */
  lemma DetachKept(kept: seq<MemberRow>, before: seq<PositionRow>, after: seq<PositionRow>, id: int)
    requires forall i :: 0 <= i < |kept| && kept[i].positionId.Some? ==>
      (HasId(after, PositionId, kept[i].positionId.value) <==> !TeamPosition(before, kept[i].positionId.value, id))
    ensures var ms := Map(kept, DetachFrom(after));
      |ms| == |kept| && forall i :: 0 <= i < |kept| ==>
        ms[i] == kept[i].(positionId :=
          if kept[i].positionId.Some? && TeamPosition(before, kept[i].positionId.value, id) then None
          else kept[i].positionId)
  {
  }

  /** A position that exists survives the team deletion exactly when it belongs to another team. */
  lemma SurvivingPosition(db: Db, id: int, pid: int)
    requires Keyed(db.positions, PositionId, db.serial) && HasId(db.positions, PositionId, pid)
    ensures HasId(DeleteRef(db.positions, PositionTeam, id), PositionId, pid) <==> !TeamPosition(db.positions, pid, id)
  {
    var positions := DeleteRef(db.positions, PositionTeam, id);
    var k :| 0 <= k < |db.positions| && db.positions[k].id == pid;
    forall p | p in db.positions && p.id == pid ensures p == db.positions[k] {
      var l :| 0 <= l < |db.positions| && db.positions[l] == p;
      assert !(l < k) && !(k < l) by {
        assert Ascending(db.positions, PositionId);
      }
    }
    if db.positions[k].teamId != id {
      assert db.positions[k] in positions;
      var q := db.positions[k];
      var m :| 0 <= m < |positions| && positions[m] == q;
      assert PositionId(positions[m]) == pid;
    } else {
      forall m | 0 <= m < |positions| ensures PositionId(positions[m]) != pid {
        assert positions[m] in positions;
      }
    }
  }

  lemma DeleteTeamValid(db: Db, id: int)
    requires Valid(db)
    ensures Valid(DeleteTeam(db, id).0)
  {
    var positions := DeleteRef(db.positions, PositionTeam, id);
    var kept := DeleteRef(db.members, MemberTeam, id);
    KeyedDeleteId(db.teams, TeamId, db.serial, id);
    KeyedDeleteRef(db.links, LinkId, db.serial, LinkTeam, id);
    KeyedDeleteRef(db.positions, PositionId, db.serial, PositionTeam, id);
    KeyedDeleteRef(db.members, MemberId, db.serial, MemberTeam, id);
    DistinctDeleteRef(db.links, LinkKey, LinkTeam, id);
    DistinctDeleteRef(db.members, MemberKey, MemberTeam, id);
    RefsCascade(db.links, LinkTeam, db.teams, TeamId, id);
    RefsDeleteChildren(db.links, LinkTeam, id, LinkProject, db.projects, ProjectId);
    RefsCascade(db.positions, PositionTeam, db.teams, TeamId, id);
    RefsCascade(db.members, MemberTeam, db.teams, TeamId, id);
    RefsDeleteChildren(db.members, MemberTeam, id, MemberProject, db.projects, ProjectId);
    RefsDeleteChildren(db.members, MemberTeam, id, MemberUser, db.users, UserId);
    DetachKeeps(db.(teams := DeleteId(db.teams, TeamId, id), members := kept), positions);
  }

  // ---- activities --------------------------------------------------------------

  /**
   * `GET /activities?_limit=n`: the newest `n` (default 50) activities,
   * newest first; a negative limit is rejected by Postgres.
   */
  function ListActivities(db: Db, limit: Option<int>): (r: Reply<seq<ActivityRow>>)
    requires Valid(db)
    ensures r.Error? <==> limit.GetOr(50) < 0
    ensures r.Error? ==> r == Error(500, NegativeLimit)
    ensures r.Ok? ==>
      var n := limit.GetOr(50);
      |r.value| == (if n < |db.activities| then n else |db.activities|)
      && (forall i :: 0 <= i < |r.value| ==> r.value[i] == db.activities[|db.activities| - 1 - i])
      && (forall i, j :: 0 <= i < j < |r.value| ==> r.value[i].timestamp >= r.value[j].timestamp)
  {
    var n := if limit.Some? then limit.value else 50;
    if n < 0 then Error(500, NegativeLimit)
    else
      NewestFirst(db.activities, n);
      Ok(Take(Reverse(db.activities), n))
  }

  /**
   * `GET /activities` with the raw `_limit` string: absent, it is the number
   * 50; present, Postgres reads it as a bigint, so a non-integer is a 500.
   */
  function GetActivities(db: Db, limit: Option<string>): (r: Reply<seq<ActivityRow>>)
    requires Valid(db)
    ensures limit.None? ==> r == ListActivities(db, Some(50))
    ensures limit.Some? && PgInteger(limit.value, Int8Min, Int8Max).Accepted? ==>
      r == ListActivities(db, Some(PgInteger(limit.value, Int8Min, Int8Max).value))
    ensures limit.Some? && !PgInteger(limit.value, Int8Min, Int8Max).Accepted? ==> r.Error? && r.status == 500
  {
    if limit.None? then ListActivities(db, Some(50))
    else
      match PgInteger(limit.value, Int8Min, Int8Max)
      case Accepted(n) => ListActivities(db, Some(n))
      case BadSyntax => Error(500, InvalidBigint)
      case OutOfRange => Error(500, BigintOutOfRange)
  }

  /** The first `n` stored activities from the newest back are in descending timestamp order. */
  lemma NewestFirst(acts: seq<ActivityRow>, n: nat)
    requires Chronological(acts)
    ensures var r := Take(Reverse(acts), n);
      |r| == (if n < |acts| then n else |acts|)
      && (forall i :: 0 <= i < |r| ==> r[i] == acts[|acts| - 1 - i])
      && (forall i, j :: 0 <= i < j < |r| ==> r[i].timestamp >= r[j].timestamp)
  {
    var r := Take(Reverse(acts), n);
    forall i, j | 0 <= i < j < |r| ensures r[i].timestamp >= r[j].timestamp {
      assert r[i] == acts[|acts| - 1 - i] && r[j] == acts[|acts| - 1 - j];
    }
  }

  /** The body of `POST /activities`: the five columns it inserts. */
  datatype ActivityBody = ActivityBody(
    activityType: Option<string>, message: Option<string>, userName: Option<string>,
    entityId: Option<int>, entityType: Option<string>)

  /** `POST /activities`: the row, stamped with `now`; no column is required. */
  function CreateActivity(db: Db, b: ActivityBody, now: int): (r: (Db, Reply<ActivityRow>))
    ensures r.1.Ok?
    ensures r.1.value == ActivityRow(db.serial, b.activityType, b.message, b.userName, b.entityId, b.entityType, now)
    ensures r.0 == db.(activities := db.activities + [r.1.value], serial := db.serial + 1)
  {
    var a := ActivityRow(db.serial, b.activityType, b.message, b.userName, b.entityId, b.entityType, now);
    (db.(activities := db.activities + [a], serial := db.serial + 1), Ok(a))
  }

  /** `NOW()` is not earlier than any stored timestamp. */
  predicate NotBefore(acts: seq<ActivityRow>, now: int)
  {
    forall i :: 0 <= i < |acts| ==> acts[i].timestamp <= now
  }

  lemma CreateActivityValid(db: Db, b: ActivityBody, now: int)
    requires Valid(db) && NotBefore(db.activities, now)
    ensures Valid(CreateActivity(db, b, now).0)
  {
    var r := CreateActivity(db, b, now);
    KeyedInsert(db.activities, ActivityId, db.serial, r.1.value);
    KeyedBump(db);
  }

  /** A new activity is the first one listed. */
  lemma CreateThenListActivities(db: Db, b: ActivityBody, now: int)
    requires Valid(db) && NotBefore(db.activities, now)
    ensures var r := CreateActivity(db, b, now);
      Valid(r.0) && ListActivities(r.0, None).value[0] == r.1.value
  {
    CreateActivityValid(db, b, now);
  }
}
