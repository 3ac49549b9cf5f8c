/**
 * The authentication slice: the login lifecycle of one browser session and
 * the two storage keys it persists. The reducers are specified by a pure
 * `Reduce` over the state and the storage; `Store` performs them field by
 * field, as the Redux draft reducers do.
 */
module AuthSlice {
  import opened Wrappers
  import opened Text
  import opened Models
  import Constants
  import Api

  /** `AuthState`. */
  datatype State = State(
    user: Option<User>, token: Option<string>, isAuthenticated: bool, loading: bool, error: Option<string>)

  /** `localStorage`: key to stored string. */
  type Storage = map<string, string>

  /** The slice state together with the storage its reducers write. */
  datatype Session = Session(state: State, storage: Storage)

  /** A login response; `accessToken` is `None` when the server sent none. */
  datatype LoginPayload = LoginPayload(user: User, accessToken: Option<string>)

  /**
   * The actions the slice handles. `LoginFulfilled(None)` is a fulfilled
   * login without payload; a rejection carries `rejectWithValue`'s value,
   * `None` when the thunk failed without one.
   */
  datatype Action =
    | Logout
    | ClearError
    | LoginPending
    | LoginFulfilled(payload: Option<LoginPayload>)
    | LoginRejected(reason: Option<string>)
    | InitFulfilled(storedUser: User, storedToken: string)
    | InitRejected(why: string)

  /** `localStorage.getItem(key)`. */
  function GetItem(storage: Storage, key: string): Option<string>
  {
    if key in storage then Some(storage[key]) else None
  }

  /** `initialState`: logged out, with the stored token (if any) copied into `token`. */
  function Initial(storage: Storage): State
  {
    State(None, GetItem(storage, Constants.AuthTokenKey), false, false, None)
  }

  /** A JSON string literal (escapes are not modelled). */
  function Quote(s: string): string
  {
    "\"" + s + "\""
  }

  /** `JSON.stringify(user)`. */
  function UserJson(u: User): (r: string)
    ensures r != ""
  {
    "{\"id\":" + IntToString(u.id) + ",\"email\":" + Quote(u.email) + ",\"name\":" + Quote(u.name)
      + ",\"role\":" + Quote(u.role) + "}"
  }

  /** `String(x)` of the token passed to `setItem`: an absent token is stored as 'undefined'. */
  function TokenText(t: Option<string>): string
  {
    if t.Some? then t.value else "undefined"
  }

  /** The reducers, `extraReducers` included. */
  function Reduce(s: Session, a: Action): Session
  {
    var st := s.state;
    match a
    case Logout =>
      Session(st.(user := None, token := None, isAuthenticated := false, error := None),
              s.storage - {Constants.AuthTokenKey, Constants.UserKey})
    case ClearError => s.(state := st.(error := None))
    case LoginPending => s.(state := st.(loading := true, error := None))
    case LoginFulfilled(p) =>
      if p.None? then s
      else
        Session(st.(loading := false, isAuthenticated := true, user := Some(p.value.user),
                    token := p.value.accessToken, error := None),
                s.storage[Constants.AuthTokenKey := TokenText(p.value.accessToken)]
                         [Constants.UserKey := UserJson(p.value.user)])
    case LoginRejected(e) => s.(state := st.(loading := false, error := e, isAuthenticated := false))
    case InitFulfilled(u, t) =>
      s.(state := st.(user := Some(u), token := Some(t), isAuthenticated := true, loading := false))
    case InitRejected(_) => s.(state := st.(loading := false))
  }

  /** How the `login` request inside `loginUser` came back. */
  datatype LoginOutcome = Data(data: LoginPayload) | ApiError | Threw(message: string)

  /** `loginUser`: the action it settles with. */
  function LoginThunk(o: LoginOutcome): (a: Action)
    ensures a.LoginFulfilled? <==> o.Data?
    ensures o.ApiError? ==> a == LoginRejected(Some("Login failed"))
    ensures o.Threw? ==> a == LoginRejected(Some(if o.message == "" then "Login failed" else o.message))
  {
    match o
    case Data(d) => LoginFulfilled(Some(d))
    case ApiError => LoginRejected(Some("Login failed"))
    case Threw(m) => LoginRejected(Some(if m == "" then "Login failed" else m))
  }

  /**
   * `initializeAuth`: both keys must hold a truthy string; `parsed` is what
   * `JSON.parse` made of the stored user (`None` when it threw).
   */
  function InitializeThunk(storage: Storage, parsed: Option<User>): (a: Action)
    ensures a.InitFulfilled? <==>
      GetItem(storage, Constants.AuthTokenKey).GetOr("") != "" && GetItem(storage, Constants.UserKey).GetOr("") != ""
      && parsed.Some?
    ensures a.InitFulfilled? ==> a == InitFulfilled(parsed.value, storage[Constants.AuthTokenKey])
  {
    var token := GetItem(storage, Constants.AuthTokenKey).GetOr("");
    var userStr := GetItem(storage, Constants.UserKey).GetOr("");
    if token != "" && userStr != "" then
      if parsed.Some? then InitFulfilled(parsed.value, token) else InitRejected("Failed to initialize auth")
    else InitRejected("No auth data found")
  }

  // ---- properties ------------------------------------------------------------

  /** The first state is logged out even when a session is stored; only the token is copied. */
  lemma InitialLoggedOut(storage: Storage)
    ensures var s := Initial(storage);
      s.user.None? && !s.isAuthenticated && !s.loading && s.error.None?
      && (s.token.Some? <==> Constants.AuthTokenKey in storage)
      && (s.token.Some? ==> s.token.value == storage[Constants.AuthTokenKey])
  {
  }

  /** `logout` ends the session and forgets both keys, leaving `loading` and the other keys alone. */
  lemma LogoutClears(s: Session)
    ensures var r := Reduce(s, Logout);
      r.state.user.None? && r.state.token.None? && !r.state.isAuthenticated && r.state.error.None?
      && r.state.loading == s.state.loading
      && Constants.AuthTokenKey !in r.storage && Constants.UserKey !in r.storage
      && forall k :: k != Constants.AuthTokenKey && k != Constants.UserKey ==>
           GetItem(r.storage, k) == GetItem(s.storage, k)
  {
  }

  /** `clearError` changes the error and nothing else. */
  lemma ClearErrorOnly(s: Session)
    ensures Reduce(s, ClearError) == s.(state := s.state.(error := None))
  {
  }

  lemma PendingLoads(s: Session)
    ensures var r := Reduce(s, LoginPending);
      r.state.loading && r.state.error.None? && r.storage == s.storage
      && r.state.user == s.state.user && r.state.token == s.state.token
  {
  }

  /**
   * A fulfilled login with a payload signs in with its user and access
   * token and persists both; without a payload nothing changes.
   */
  lemma FulfilledSignsIn(s: Session, p: Option<LoginPayload>)
    ensures p.None? ==> Reduce(s, LoginFulfilled(p)) == s
    ensures p.Some? ==> var r := Reduce(s, LoginFulfilled(p));
      r.state == State(Some(p.value.user), p.value.accessToken, true, false, None)
      && GetItem(r.storage, Constants.AuthTokenKey) == Some(TokenText(p.value.accessToken))
      && GetItem(r.storage, Constants.UserKey) == Some(UserJson(p.value.user))
  {
  }

  /** A rejected login reports the reason and leaves user, token and storage untouched. */
  lemma RejectedKeepsUser(s: Session, e: Option<string>)
    ensures var r := Reduce(s, LoginRejected(e));
      !r.state.loading && !r.state.isAuthenticated && r.state.error == e
      && r.state.user == s.state.user && r.state.token == s.state.token && r.storage == s.storage
  {
  }

  /** Hydration from storage signs in; a failed one only stops loading. */
  lemma InitOutcomes(s: Session, u: User, t: string, why: string)
    ensures Reduce(s, InitFulfilled(u, t)).state ==
      State(Some(u), Some(t), true, false, s.state.error)
    ensures Reduce(s, InitRejected(why)) == s.(state := s.state.(loading := false))
  {
  }

  /**
   * What a login persists is what the next page load restores: the stored
   * pair hydrates the same user and token, provided the user string parses
   * back to the user.
   */
  lemma LoginSurvivesReload(s: Session, user: User, token: string)
    requires token != ""
    ensures var r := Reduce(s, LoginFulfilled(Some(LoginPayload(user, Some(token)))));
      var a := InitializeThunk(r.storage, Some(user));
      a == InitFulfilled(user, token) && Reduce(Session(Initial(r.storage), r.storage), a).state.user == Some(user)
      && Reduce(Session(Initial(r.storage), r.storage), a).state.token == Some(token)
  {
    var r := Reduce(s, LoginFulfilled(Some(LoginPayload(user, Some(token)))));
    assert Constants.AuthTokenKey != Constants.UserKey;
    assert r.storage[Constants.AuthTokenKey] == token;
  }

  /** After `logout`, a reload finds no session to restore. */
  lemma LogoutThenReload(s: Session, parsed: Option<User>)
    ensures InitializeThunk(Reduce(s, Logout).storage, parsed) == InitRejected("No auth data found")
    ensures Initial(Reduce(s, Logout).storage).token.None?
  {
  }

  /**
   * The Express backend answers a login with `token`, not `accessToken`:
   * against it the slice stores the string 'undefined' and every later
   * request carries `Bearer undefined`.
   */
  lemma MissingAccessTokenStoresUndefined(s: Session, user: User)
    ensures var r := Reduce(s, LoginFulfilled(Some(LoginPayload(user, None))));
      r.state.token.None? && r.state.isAuthenticated
      && Api.Authorization(r.storage) == Some("Bearer undefined")
  {
    var r := Reduce(s, LoginFulfilled(Some(LoginPayload(user, None))));
    assert Constants.AuthTokenKey != Constants.UserKey;
    assert r.storage[Constants.AuthTokenKey] == "undefined";
    assert "Bearer " + "undefined" == "Bearer undefined";
  }

  // ---- the store ---------------------------------------------------------------

  /** The slice's draft state and the browser storage, updated in place. */
  class Store {
    var user: Option<User>
    var token: Option<string>
    var isAuthenticated: bool
    var loading: bool
    var error: Option<string>
    var storage: Storage

    function Snapshot(): Session
      reads this
    {
      Session(State(user, token, isAuthenticated, loading, error), storage)
    }

    constructor (stored: Storage)
      ensures Snapshot() == Session(Initial(stored), stored)
    {
      user := None;
      token := GetItem(stored, Constants.AuthTokenKey);
      isAuthenticated := false;
      loading := false;
      error := None;
      storage := stored;
    }

    method Logout()
      modifies this
      ensures Snapshot() == Reduce(old(Snapshot()), Action.Logout)
    {
      user := None;
      token := None;
      isAuthenticated := false;
      error := None;
      storage := storage - {Constants.AuthTokenKey};
      storage := storage - {Constants.UserKey};
    }

    method ClearError()
      modifies this
      ensures Snapshot() == Reduce(old(Snapshot()), Action.ClearError)
    {
      error := None;
    }

    method LoginPending()
      modifies this
      ensures Snapshot() == Reduce(old(Snapshot()), Action.LoginPending)
    {
      loading := true;
      error := None;
    }

    method LoginFulfilled(payload: Option<LoginPayload>)
      modifies this
      ensures Snapshot() == Reduce(old(Snapshot()), Action.LoginFulfilled(payload))
    {
      if payload.Some? {
        loading := false;
        isAuthenticated := true;
        user := Some(payload.value.user);
        token := payload.value.accessToken;
        error := None;
        storage := storage[Constants.AuthTokenKey := TokenText(payload.value.accessToken)];
        storage := storage[Constants.UserKey := UserJson(payload.value.user)];
      }
    }

    method LoginRejected(reason: Option<string>)
      modifies this
      ensures Snapshot() == Reduce(old(Snapshot()), Action.LoginRejected(reason))
    {
      loading := false;
      error := reason;
      isAuthenticated := false;
    }

    method InitFulfilled(u: User, t: string)
      modifies this
      ensures Snapshot() == Reduce(old(Snapshot()), Action.InitFulfilled(u, t))
    {
      user := Some(u);
      token := Some(t);
      isAuthenticated := true;
      loading := false;
    }

    method InitRejected(why: string)
      modifies this
      ensures Snapshot() == Reduce(old(Snapshot()), Action.InitRejected(why))
    {
      loading := false;
    }
  }
}
