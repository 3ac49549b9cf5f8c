/**
 * The client's REST layer: the request each endpoint builds (URL, method,
 * body with client-side timestamps), the cache tags each mutation
 * invalidates, the uniqueness checks' response transform and the
 * Authorization header. The server side of the query strings and the
 * header (how the Express backend reads them back) is modelled beside them.
 */
module Api {
  import opened Wrappers
  import opened Text
  import opened Json
  import opened Seqs
  import Constants
  import Backend
  import Tables

  // ---- headers ---------------------------------------------------------------

  /**
   * `prepareHeaders`: the stored token, when truthy, becomes
   * `Authorization: Bearer <token>`; otherwise there is no such header.
   */
  function Authorization(storage: map<string, string>): (h: Option<string>)
    ensures h.Some? <==> Constants.AuthTokenKey in storage && storage[Constants.AuthTokenKey] != ""
    ensures h.Some? ==> |h.value| > 7 && h.value[..7] == "Bearer " && h.value[7..] == storage[Constants.AuthTokenKey]
  {
    if Constants.AuthTokenKey in storage && storage[Constants.AuthTokenKey] != "" then
      Some("Bearer " + storage[Constants.AuthTokenKey])
    else None
  }

  /** The server's `authHeader && authHeader.split(' ')[1]`; `None` is a falsy token. */
  function ServerToken(header: Option<string>): Option<string>
  {
    if header.None? || header.value == "" then None
    else
      var parts := Split(header.value, ' ');
      if |parts| > 1 && parts[1] != "" then Some(parts[1]) else None
  }

  /** A stored token without spaces reaches the server intact; without one the server sees none. */
  lemma TokenReachesServer(storage: map<string, string>)
    requires Constants.AuthTokenKey in storage ==> ' ' !in storage[Constants.AuthTokenKey]
    ensures ServerToken(Authorization(storage)) ==
      if Constants.AuthTokenKey in storage && storage[Constants.AuthTokenKey] != "" then
        Some(storage[Constants.AuthTokenKey])
      else None
  {
    if Constants.AuthTokenKey in storage && storage[Constants.AuthTokenKey] != "" {
      var t := storage[Constants.AuthTokenKey];
      assert Join([' '], ["Bearer", t]) == "Bearer " + t;
      SplitJoin(["Bearer", t], ' ');
    }
  }

  // ---- query strings ---------------------------------------------------------

  /** One `key=value` pair of a query string. */
  function Pair(p: (string, string)): string
  {
    p.0 + "=" + p.1
  }

  /** `URLSearchParams.toString()`, without percent-encoding. */
  function RenderQuery(ps: seq<(string, string)>): string
  {
    Join("&", Map(ps, Pair))
  }

  /** One `key=value` piece read back: the key runs to the first '='. */
  function ParsePair(part: string): (string, string)
  {
    if '=' in part then
      var i := IndexOf(part, '=');
      (part[..i], part[i + 1..])
    else (part, "")
  }

  /** The server's query-string parser; the empty string has no parameters. */
  function ParseQuery(q: string): seq<(string, string)>
  {
    if q == "" then [] else Map(Split(q, '&'), ParsePair)
  }

  /** The value of the first parameter named `key`. */
  function QueryValue(ps: seq<(string, string)>, key: string): (r: Option<string>)
    ensures r.Some? ==> (key, r.value) in ps
    ensures r.None? ==> forall i :: 0 <= i < |ps| ==> ps[i].0 != key
  {
    if ps == [] then None else if ps[0].0 == key then Some(ps[0].1) else QueryValue(ps[1..], key)
  }

  /** A key free of '&' and '=' and a value free of '&' survive the round trip. */
  predicate PlainParam(p: (string, string))
  {
    p.0 != "" && '&' !in p.0 && '=' !in p.0 && '&' !in p.1
  }

  lemma ParsePairOf(p: (string, string))
    requires PlainParam(p)
    ensures ParsePair(Pair(p)) == p
  {
    var s := Pair(p);
    assert s[|p.0|] == '=';
    IndexOfAt(s, '=', |p.0|);
    assert s[..|p.0|] == p.0;
    assert s[|p.0| + 1..] == p.1;
  }

  lemma {:induction false} PairsPlain(ps: seq<(string, string)>)
    requires forall i :: 0 <= i < |ps| ==> PlainParam(ps[i])
    ensures forall k :: 0 <= k < |ps| ==> '&' !in Map(ps, Pair)[k]
  {
    forall k | 0 <= k < |ps| ensures '&' !in Map(ps, Pair)[k] {
      assert Map(ps, Pair)[k] == ps[k].0 + "=" + ps[k].1;
    }
  }

  /** Parsing a rendered list of plain parameters gives the list back. */
  lemma QueryRoundTrip(ps: seq<(string, string)>)
    requires forall i :: 0 <= i < |ps| ==> PlainParam(ps[i])
    ensures ParseQuery(RenderQuery(ps)) == ps
  {
    if ps != [] {
      var pieces := Map(ps, Pair);
      PairsPlain(ps);
      SplitJoin(pieces, '&');
      assert RenderQuery(ps) == Join([ '&' ], pieces);
      assert pieces[0] != "" by { assert pieces[0] == ps[0].0 + "=" + ps[0].1; }
      JoinNonEmpty(pieces);
      forall i | 0 <= i < |ps| ensures ParsePair(pieces[i]) == ps[i] {
        ParsePairOf(ps[i]);
      }
    }
  }

  lemma {:induction false} JoinNonEmpty(parts: seq<string>)
    requires |parts| >= 1 && parts[0] != ""
    ensures Join("&", parts) != ""
  {
    if |parts| > 1 {
      assert Join("&", parts) == parts[0] + "&" + Join("&", parts[1..]);
      assert |Join("&", parts)| >= |parts[0]|;
    }
  }

  /** A URL's query string: what follows the first '?', or "" without one. */
  function QueryOf(url: string): string
  {
    if '?' in url then url[IndexOf(url, '?') + 1..] else ""
  }

  lemma QueryOfPath(path: string, q: string)
    requires '?' !in path
    ensures QueryOf(path + "?" + q) == q
  {
    var u := path + "?" + q;
    assert u[|path|] == '?';
    IndexOfAt(u, '?', |path|);
    assert u[|path| + 1..] == q;
  }

  // ---- tasks and activities ----------------------------------------------------

  /** `getTasks`: the project filter is sent only when the id is truthy. */
  function TasksUrl(projectId: Option<int>): string
  {
    if projectId.GetOr(0) != 0 then "/tasks?projectId=" + IntToString(projectId.value) else "/tasks"
  }

  /** The server's `req.query.projectId`: the raw string, which the handler passes on unconverted. */
  function ServerProjectFilter(url: string): (r: Option<string>)
    ensures r.Some? ==> ("projectId", r.value) in ParseQuery(QueryOf(url))
    ensures r.None? ==> forall p :: p in ParseQuery(QueryOf(url)) ==> p.0 != "projectId"
  {
    QueryValue(ParseQuery(QueryOf(url)), "projectId")
  }

  /** The one-parameter query of a truthy `getTasks` id reads back as that id. */
  lemma ProjectQueryRoundTrip(n: int)
    ensures QueryValue(ParseQuery(Pair(("projectId", IntToString(n)))), "projectId") == Some(IntToString(n))
  {
    var v := IntToString(n);
    assert forall i :: 0 <= i < |v| ==> v[i] != '&';
    assert RenderQuery([("projectId", v)]) == Pair(("projectId", v));
    QueryRoundTrip([("projectId", v)]);
  }

  lemma TasksUrlShape(n: int)
    ensures "/tasks?projectId=" + IntToString(n) == "/tasks" + "?" + Pair(("projectId", IntToString(n)))
  {
  }

  /**
   * The server receives the decimal text of a truthy project id, and no
   * filter for a falsy one.
   */
  lemma TasksUrlRoundTrip(projectId: Option<int>)
    ensures ServerProjectFilter(TasksUrl(projectId)) == if projectId.GetOr(0) != 0 then Some(IntToString(projectId.value)) else None
  {
    if projectId.GetOr(0) != 0 {
      var v := IntToString(projectId.value);
      TasksUrlShape(projectId.value);
      QueryOfPath("/tasks", Pair(("projectId", v)));
      ProjectQueryRoundTrip(projectId.value);
    } else {
      assert '?' !in "/tasks";
    }
  }

  /**
   * The tasks the board receives from the Express backend for a `getTasks`
   * call: all of them for a falsy id, exactly that project's for a truthy
   * one, and a 500 for an id outside Postgres' `integer` range.
   */
  lemma TasksFromBackend(db: Backend.Db, projectId: Option<int>)
    requires Backend.Valid(db)
    ensures projectId.GetOr(0) == 0 ==> Backend.GetTasks(db, ServerProjectFilter(TasksUrl(projectId))) == Backend.Ok(db.tasks)
    ensures projectId.GetOr(0) != 0 && Backend.Int4Min <= projectId.value <= Backend.Int4Max ==>
      var r := Backend.GetTasks(db, ServerProjectFilter(TasksUrl(projectId)));
      r.Ok? && forall t :: t in r.value <==> t in db.tasks && t.projectId == projectId
    ensures projectId.GetOr(0) != 0 && !(Backend.Int4Min <= projectId.value <= Backend.Int4Max) ==>
      Backend.GetTasks(db, ServerProjectFilter(TasksUrl(projectId))) == Backend.Error(500, Backend.IntegerOutOfRange)
  {
    TasksUrlRoundTrip(projectId);
    if projectId.GetOr(0) != 0 {
      Backend.PgIntegerOfString(projectId.value, Backend.Int4Min, Backend.Int4Max);
    }
  }

  /**
   * A `projectId` Postgres cannot read as an integer is a 500, where
   * `parseInt` would have read `12abc` as 12.
   */
  lemma MalformedProjectFilter(db: Backend.Db)
    requires Backend.Valid(db)
    ensures var r := Backend.GetTasks(db, Some("12abc")); r.Error? && r.status == 500
    ensures var r := Backend.GetTasks(db, Some("abc")); r.Error? && r.status == 500
    ensures JsParseInt("12abc") == Some(12)
  {
    Backend.PgRejectsLetters();
    ParseIntStopsAtLetters();
  }

  /** `getActivities`: `_sort`, `_order`, `_limit` (default 50), and `entityType` only when truthy. */
  function ActivitiesParams(limit: Option<int>, entityType: Option<string>): (ps: seq<(string, string)>)
    ensures |ps| == if entityType.GetOr("") != "" then 4 else 3
    ensures ps[0] == ("_sort", "timestamp") && ps[1] == ("_order", "desc")
    ensures ps[2] == ("_limit", IntToString(limit.GetOr(50)))
    ensures |ps| == 4 ==> ps[3] == ("entityType", entityType.value)
  {
    var base := [("_sort", "timestamp"), ("_order", "desc"), ("_limit", IntToString(limit.GetOr(50)))];
    if entityType.GetOr("") != "" then base + [("entityType", entityType.value)] else base
  }

  function ActivitiesUrl(limit: Option<int>, entityType: Option<string>): string
  {
    "/activities?" + RenderQuery(ActivitiesParams(limit, entityType))
  }

  /**
   * The server's `_limit` from `req.query`: the raw string, which Postgres
   * reads; when absent, the handler's default of 50 applies.
   */
  function ServerLimit(url: string): (r: Option<string>)
    ensures r.Some? ==> ("_limit", r.value) in ParseQuery(QueryOf(url))
    ensures r.None? ==> forall p :: p in ParseQuery(QueryOf(url)) ==> p.0 != "_limit"
  {
    QueryValue(ParseQuery(QueryOf(url)), "_limit")
  }

  /** Every parameter of `getActivities` is plain when the entity type has no '&'. */
  lemma ActivitiesParamsPlain(limit: Option<int>, entityType: Option<string>)
    requires '&' !in entityType.GetOr("")
    ensures forall i :: 0 <= i < |ActivitiesParams(limit, entityType)| ==> PlainParam(ActivitiesParams(limit, entityType)[i])
  {
    var ps := ActivitiesParams(limit, entityType);
    var v := IntToString(limit.GetOr(50));
    assert forall i :: 0 <= i < |v| ==> v[i] != '&';
    assert PlainParam(ps[0]) && PlainParam(ps[1]) && PlainParam(ps[2]);
  }

  /** `_limit` is the third parameter and the first two have other names. */
  lemma ActivitiesLimitValue(limit: Option<int>, entityType: Option<string>)
    ensures QueryValue(ActivitiesParams(limit, entityType), "_limit") == Some(IntToString(limit.GetOr(50)))
  {
    var ps := ActivitiesParams(limit, entityType);
    assert ps[0].0 != "_limit" && ps[1].0 != "_limit";
    assert ps[1..][1..] == ps[2..];
  }

  /**
   * The limit the client asks for is the one the server applies; the entity
   * type filter, which the server does not read, changes nothing.
   */
  lemma ActivitiesLimitReachesServer(limit: Option<int>, entityType: Option<string>)
    requires '&' !in entityType.GetOr("")
    ensures ServerLimit(ActivitiesUrl(limit, entityType)) == Some(IntToString(limit.GetOr(50)))
  {
    var ps := ActivitiesParams(limit, entityType);
    ActivitiesParamsPlain(limit, entityType);
    QueryRoundTrip(ps);
    assert "/activities?" == "/activities" + "?";
    QueryOfPath("/activities", RenderQuery(ps));
    ActivitiesLimitValue(limit, entityType);
  }

  /**
   * The activities the feed receives for a `getActivities` call: the
   * backend's listing at the client's limit (50 by default), and a 500 for a
   * limit outside Postgres' `bigint` range.
   */
  lemma ActivitiesFromBackend(db: Backend.Db, limit: Option<int>, entityType: Option<string>)
    requires Backend.Valid(db) && '&' !in entityType.GetOr("")
    ensures var n := limit.GetOr(50);
      Backend.GetActivities(db, ServerLimit(ActivitiesUrl(limit, entityType))) ==
        if Backend.Int8Min <= n <= Backend.Int8Max then Backend.ListActivities(db, Some(n))
        else Backend.Error(500, Backend.BigintOutOfRange)
  {
    ActivitiesLimitReachesServer(limit, entityType);
    Backend.PgIntegerOfString(limit.GetOr(50), Backend.Int8Min, Backend.Int8Max);
  }

  /** A `_limit` Postgres cannot read as a bigint, such as `abc` or the empty string, is a 500. */
  lemma MalformedLimit(db: Backend.Db)
    requires Backend.Valid(db)
    ensures var r := Backend.GetActivities(db, Some("abc")); r.Error? && r.status == 500
    ensures var r := Backend.GetActivities(db, Some("")); r.Error? && r.status == 500
  {
    Backend.PgRejectsLetters();
  }


  // ---- uniqueness checks -------------------------------------------------------

  /**
   * The `transformResponse` of `checkProjectNameUnique` and
   * `checkTaskTitleUnique`: the entry with id `excludeId` is dropped when
   * that id is truthy, and the name is unique when nothing is left.
   */
  function IsUnique<R>(response: seq<R>, idOf: R -> int, excludeId: Option<int>): bool
  {
    var filtered := if excludeId.GetOr(0) != 0 then Filter(response, Tables.NotId(idOf, excludeId.value)) else response;
    |filtered| == 0
  }

  /** Unique exactly when nothing came back, or an id is excluded and every entry has it. */
  lemma IsUniqueIff<R>(response: seq<R>, idOf: R -> int, excludeId: Option<int>)
    ensures IsUnique(response, idOf, excludeId) <==>
      |response| == 0
      || (excludeId.GetOr(0) != 0 && forall i :: 0 <= i < |response| ==> idOf(response[i]) == excludeId.value)
  {
    if excludeId.GetOr(0) != 0 {
      var p := Tables.NotId(idOf, excludeId.value);
      if !IsUnique(response, idOf, excludeId) {
        var x := Filter(response, p)[0];
        assert x in Filter(response, p);
        var i :| 0 <= i < |response| && response[i] == x;
        assert idOf(response[i]) != excludeId.value;
      }
    }
  }

  /** The same statement over the entries of the response. */
  lemma IsUniqueMembers<R>(response: seq<R>, idOf: R -> int, excludeId: Option<int>)
    ensures IsUnique(response, idOf, excludeId) <==>
      |response| == 0 || (excludeId.GetOr(0) != 0 && forall x :: x in response ==> idOf(x) == excludeId.value)
  {
    IsUniqueIff(response, idOf, excludeId);
    assert forall i :: 0 <= i < |response| ==> response[i] in response;
    if IsUnique(response, idOf, excludeId) && |response| != 0 {
      forall x | x in response ensures idOf(x) == excludeId.value {
        var i :| 0 <= i < |response| && response[i] == x;
      }
    }
  }

  /**
   * Against the Express backend, which ignores `name`, a project name counts
   * as unique only when there are no projects, or the only ones have the
   * excluded id.
   */
  lemma ProjectNameUniqueOnBackend(db: Backend.Db, name: string, excludeId: Option<int>)
    requires Backend.Valid(db)
    ensures IsUnique(Backend.ListProjects(db), Backend.ProjectId, excludeId) <==>
      |db.projects| == 0 || (excludeId.GetOr(0) != 0 && forall p :: p in db.projects ==> p.id == excludeId.value)
  {
    IsUniqueMembers(Backend.ListProjects(db), Backend.ProjectId, excludeId);
  }

  /**
   * `checkTaskTitleUnique` sends the title and the project id; the backend
   * reads only the project id, so a title counts as unique only when that
   * project has no task other than the excluded one.
   */
  lemma TaskTitleUniqueOnBackend(db: Backend.Db, title: string, projectId: int, excludeId: Option<int>)
    requires Backend.Valid(db)
    ensures IsUnique(Backend.ListTasks(db, Some(projectId)), Backend.TaskId, excludeId) <==>
      (forall t :: t in db.tasks ==> t.projectId != Some(projectId))
      || (excludeId.GetOr(0) != 0
          && forall t :: t in db.tasks && t.projectId == Some(projectId) ==> t.id == excludeId.value)
  {
    var r := Backend.ListTasks(db, Some(projectId));
    IsUniqueMembers(r, Backend.TaskId, excludeId);
    if r != [] {
      assert r[0] in r;
    }
  }

  // ---- mutations -------------------------------------------------------------

  /** RTK Query cache tags: a whole type, or one entity of it. */
  datatype TagType = UserTag | TeamTag | ProjectTag | TaskTag | ActivityTag
  datatype Tag = Kind(tagType: TagType) | Item(itemType: TagType, id: int)

  /** The mutation endpoints with their arguments; bodies are the caller's partial objects. */
  datatype Mutation =
    | Login(credentials: Obj) | Register(data: Obj)
    | CreateTeam(team: Obj) | UpdateTeam(teamId: int, teamData: Obj) | DeleteTeam(deletedTeam: int)
    | CreateProject(project: Obj) | UpdateProject(projectId: int, projectData: Obj) | DeleteProject(deletedProject: int)
    | CreateTask(task: Obj) | UpdateTask(taskId: int, taskData: Obj) | DeleteTask(deletedTask: int)
    | CreateActivity(activity: Obj)
    | AssignTeam(toProject: int, assignedTeam: int) | RemoveTeam(fromProject: int, removedTeam: int)
    | CreatePosition(ofTeam: int, name: string, description: Option<string>)
    | UpdatePosition(positionId: int, newName: Option<string>, newDescription: Option<string>)
    | DeletePosition(deletedPosition: int)
    | AssignMember(inProject: int, inTeam: int, user: int, position: Option<int>)
    | UpdateMember(memberId: int, newPosition: Option<int>)
    | RemoveMember(removedMember: int)

  function OptStr(x: Option<string>): Value
  {
    if x.Some? then Str(x.value) else Undef
  }

  function OptNum(x: Option<int>): Value
  {
    if x.Some? then Num(x.value) else Undef
  }

  /** A request: HTTP method, path and JSON body. */
  datatype Request = Request(verb: string, url: string, body: Option<Obj>)

  /** `{...o, createdAt: now, updatedAt: now}`. */
  function StampCreated(o: Obj, now: string): Obj
  {
    Set(Set(o, "createdAt", Str(now)), "updatedAt", Str(now))
  }

  function Path(base: string, id: int): string
  {
    base + "/" + IntToString(id)
  }

  /** The request each mutation sends; `now` is `new Date().toISOString()`. */
  function RequestOf(m: Mutation, now: string): Request
  {
    match m
    case Login(c) => Request("POST", "/login", Some(c))
    case Register(d) => Request("POST", "/register", Some(d))
    case CreateTeam(t) => Request("POST", "/teams", Some(t))
    case UpdateTeam(id, d) => Request("PATCH", Path("/teams", id), Some(d))
    case DeleteTeam(id) => Request("DELETE", Path("/teams", id), None)
    case CreateProject(p) => Request("POST", "/projects", Some(StampCreated(p, now)))
    case UpdateProject(id, d) => Request("PATCH", Path("/projects", id), Some(Set(d, "updatedAt", Str(now))))
    case DeleteProject(id) => Request("DELETE", Path("/projects", id), None)
    case CreateTask(t) => Request("POST", "/tasks", Some(StampCreated(t, now)))
    case UpdateTask(id, d) => Request("PATCH", Path("/tasks", id), Some(Set(d, "updatedAt", Str(now))))
    case DeleteTask(id) => Request("DELETE", Path("/tasks", id), None)
    case CreateActivity(a) => Request("POST", "/activities", Some(Set(a, "timestamp", Str(now))))
    case AssignTeam(p, t) => Request("POST", Path("/projects", p) + "/teams", Some([("teamId", Num(t))]))
    case RemoveTeam(p, t) => Request("DELETE", Path(Path("/projects", p) + "/teams", t), None)
    case CreatePosition(t, n, d) =>
      Request("POST", Path("/teams", t) + "/positions", Some([("name", Str(n)), ("description", OptStr(d))]))
    case UpdatePosition(id, n, d) =>
      Request("PATCH", Path("/positions", id), Some([("name", OptStr(n)), ("description", OptStr(d))]))
    case DeletePosition(id) => Request("DELETE", Path("/positions", id), None)
    case AssignMember(p, t, u, pos) =>
      Request("POST", Path("/projects", p) + "/team-members",
        Some([("teamId", Num(t)), ("userId", Num(u)), ("positionId", OptNum(pos))]))
    case UpdateMember(id, pos) => Request("PATCH", Path("/project-team-members", id), Some([("positionId", OptNum(pos))]))
    case RemoveMember(id) => Request("DELETE", Path("/project-team-members", id), None)
  }

  /** The tags a fulfilled mutation invalidates. */
  function Invalidates(m: Mutation): seq<Tag>
  {
    match m
    case Login(_) => []
    case Register(_) => []
    case CreateTeam(_) => [Kind(TeamTag), Kind(ActivityTag)]
    case UpdateTeam(id, _) => [Item(TeamTag, id), Kind(ActivityTag)]
    case DeleteTeam(_) => [Kind(TeamTag), Kind(ActivityTag)]
    case CreateProject(_) => [Kind(ProjectTag), Kind(ActivityTag)]
    case UpdateProject(id, _) => [Item(ProjectTag, id), Kind(ProjectTag), Kind(TaskTag), Kind(ActivityTag)]
    case DeleteProject(_) => [Kind(ProjectTag), Kind(TaskTag), Kind(ActivityTag)]
    case CreateTask(_) => [Kind(TaskTag), Kind(ActivityTag)]
    case UpdateTask(id, _) => [Item(TaskTag, id), Kind(TaskTag), Kind(ProjectTag), Kind(ActivityTag)]
    case DeleteTask(_) => [Kind(TaskTag), Kind(ActivityTag)]
    case CreateActivity(_) => [Kind(ActivityTag)]
    case _ => if m.AssignTeam? || m.RemoveTeam? || m.AssignMember? || m.UpdateMember? || m.RemoveMember?
              then [Kind(ProjectTag)] else [Kind(TeamTag)]
  }

  predicate IsTaskMutation(m: Mutation)
  {
    m.CreateTask? || m.UpdateTask? || m.DeleteTask?
  }

  /** Every task mutation refreshes both the task lists and the activity feed. */
  lemma TaskMutationsInvalidate(m: Mutation)
    requires IsTaskMutation(m)
    ensures Kind(TaskTag) in Invalidates(m) && Kind(ActivityTag) in Invalidates(m)
  {
  }

  /**
   * The activity feed is refreshed by every mutation the activity logger
   * records, and by team deletion and activity creation; project-team,
   * position and member assignments leave it alone.
   */
  lemma ActivityRefresh(m: Mutation)
    ensures Kind(ActivityTag) in Invalidates(m) <==>
      !(m.Login? || m.Register? || m.AssignTeam? || m.RemoveTeam? || m.CreatePosition?
        || m.UpdatePosition? || m.DeletePosition? || m.AssignMember? || m.UpdateMember? || m.RemoveMember?)
  {
  }

  /**
   * The client's clock is spread last: the stamped fields carry `now`
   * whatever the caller supplied, and every other field is the caller's.
   */
  lemma StampsOverride(m: Mutation, now: string)
    ensures (m.CreateProject? || m.CreateTask?) ==>
      var b := RequestOf(m, now).body.value;
      var o := if m.CreateProject? then m.project else m.task;
      Get(b, "createdAt") == Some(Str(now)) && Get(b, "updatedAt") == Some(Str(now))
      && forall k :: k != "createdAt" && k != "updatedAt" ==> Get(b, k) == Get(o, k)
    ensures (m.UpdateProject? || m.UpdateTask?) ==>
      var b := RequestOf(m, now).body.value;
      var o := if m.UpdateProject? then m.projectData else m.taskData;
      Get(b, "updatedAt") == Some(Str(now)) && forall k :: k != "updatedAt" ==> Get(b, k) == Get(o, k)
    ensures m.CreateActivity? ==>
      var b := RequestOf(m, now).body.value;
      Get(b, "timestamp") == Some(Str(now)) && forall k :: k != "timestamp" ==> Get(b, k) == Get(m.activity, k)
  {
  }

  /** Stamping keeps a well-formed object well-formed: each key still occurs once. */
  lemma StampsKeepKeysUnique(o: Obj, now: string)
    requires UniqueKeys(o)
    ensures UniqueKeys(StampCreated(o, now)) && UniqueKeys(Set(o, "updatedAt", Str(now)))
    ensures UniqueKeys(Set(o, "timestamp", Str(now)))
  {
    SetKeepsUnique(o, "createdAt", Str(now));
    SetKeepsUnique(Set(o, "createdAt", Str(now)), "updatedAt", Str(now));
    SetKeepsUnique(o, "updatedAt", Str(now));
    SetKeepsUnique(o, "timestamp", Str(now));
  }

  /** Deletes carry no body; every other mutation does. */
  lemma DeletesHaveNoBody(m: Mutation, now: string)
    ensures RequestOf(m, now).body.None? <==> RequestOf(m, now).verb == "DELETE"
  {
  }
}
