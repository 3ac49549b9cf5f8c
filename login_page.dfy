/**
 * The sign-in page: a "Login" tab that dispatches `loginUser` and a
 * "Register" tab that posts to `/register`, each guarded by the form
 * validators, and both returning to the page the user came from.
 */
module LoginPage {
  import opened Wrappers
  import opened Text
  import opened Validators
  import Constants
  import Tables
  import Backend

  /** `location.state?.from?.pathname || '/'`. */
  function From(pathname: Option<string>): (r: string)
    ensures pathname.GetOr("") != "" ==> r == pathname.value
    ensures pathname.GetOr("") == "" ==> r == "/"
  {
    if pathname.GetOr("") != "" then pathname.value else "/"
  }

  datatype LoginErrors = LoginErrors(email: Option<string>, password: Option<string>)

  datatype RegErrors = RegErrors(name: Option<string>, email: Option<string>, password: Option<string>,
                                 confirmPassword: Option<string>)

  const NoLoginErrors := LoginErrors(None, None)
  const NoRegErrors := RegErrors(None, None, None, None)

  function CheckLogin(email: string, password: string): (e: LoginErrors)
    ensures e == NoLoginErrors <==> ValidateEmail(email).None? && |password| >= 6
  {
    LoginErrors(ValidateEmail(email), ValidatePassword(password))
  }

  /**
   * The four checks of the registration form; `!name.trim()` is `IsBlank`
   * (`Text.TrimEmptyIffBlank`).
   */
  function CheckRegistration(name: string, email: string, password: string, confirm: string): (e: RegErrors)
    ensures e.name.Some? <==> IsBlank(name)
    ensures e.confirmPassword.Some? <==> password != confirm
    ensures e.confirmPassword.Some? ==> e.confirmPassword == Some("Passwords do not match")
    ensures e == NoRegErrors <==>
      !IsBlank(name) && ValidateEmail(email).None? && |password| >= 6 && password == confirm
  {
    RegErrors(if IsBlank(name) then Some("Name is required") else None, ValidateEmail(email),
              ValidatePassword(password), if password != confirm then Some("Passwords do not match") else None)
  }

  /** What a registration accepted by the form also passes the login form's checks. */
  lemma RegistrationPassesLoginChecks(name: string, email: string, password: string, confirm: string)
    requires CheckRegistration(name, email, password, confirm) == NoRegErrors
    ensures CheckLogin(email, password) == NoLoginErrors
  {
  }

  /** How `dispatch(loginUser(...))` ended. */
  datatype LoginResult = LoginFulfilled | LoginRejected | LoginThrew

  /** How the `/register` request ended; `token` is the body's `token`. */
  datatype RegisterResult = RegisterOk(token: string) | RegisterRefused(errorField: string) | RegisterThrew

  /** The page's state; `storage` is `localStorage`, `location` where it navigated. */
  datatype View = View(
    tabValue: int, email: string, password: string, errors: LoginErrors, loginError: string, loading: bool,
    regName: string, regEmail: string, regPassword: string, regConfirmPassword: string, regErrors: RegErrors,
    regError: string, regLoading: bool, storage: map<string, string>, location: Option<string>)

  function LoginMessage(r: LoginResult): string
  {
    match r
    case LoginFulfilled => ""
    case LoginRejected => "Invalid email or password"
    case LoginThrew => "An error occurred during login"
  }

  /**
   * `handleLoginSubmit` on state `v`: with a field error nothing is
   * dispatched; otherwise the thunk runs, success navigates to `from`
   * and failure shows a message. The second component is whether the
   * thunk was dispatched.
   */
  function LoginSubmit(v: View, from: string, result: LoginResult): (r: (View, bool))
    ensures r.1 <==> CheckLogin(v.email, v.password) == NoLoginErrors
    ensures !r.1 ==> r.0 == v.(loginError := "", errors := CheckLogin(v.email, v.password))
    ensures r.1 ==> r.0.errors == NoLoginErrors && !r.0.loading
    ensures r.1 ==> (r.0.location == Some(from) <==> result.LoginFulfilled?) || v.location == Some(from)
    ensures r.1 ==> (r.0.loginError == "" <==> result.LoginFulfilled?)
    ensures r.0.email == v.email && r.0.password == v.password && r.0.storage == v.storage
  {
    var e := CheckLogin(v.email, v.password);
    if e != NoLoginErrors then (v.(loginError := "", errors := e), false)
    else
      (v.(loginError := LoginMessage(result), errors := NoLoginErrors, loading := false,
          location := if result.LoginFulfilled? then Some(from) else v.location), true)
  }

  function RegisterMessage(r: RegisterResult): string
    requires !r.RegisterOk?
  {
    match r
    case RegisterRefused(e) => if e != "" then e else "Registration failed"
    case RegisterThrew => "An error occurred during registration"
  }

  /**
   * `handleRegisterSubmit` on state `v`: with a field error nothing is
   * sent; otherwise the form is posted, a success stores the token under
   * `auth_token` and navigates to `from`, a failure shows a message.
   */
  function RegisterSubmit(v: View, from: string, result: RegisterResult): (r: (View, bool))
    ensures r.1 <==> CheckRegistration(v.regName, v.regEmail, v.regPassword, v.regConfirmPassword) == NoRegErrors
    ensures !r.1 ==>
      r.0 == v.(regError := "", regErrors := CheckRegistration(v.regName, v.regEmail, v.regPassword, v.regConfirmPassword))
    ensures r.1 && result.RegisterOk? ==>
      r.0.storage == v.storage[Constants.AuthTokenKey := result.token] && r.0.location == Some(from)
      && r.0.regError == ""
    ensures r.1 && !result.RegisterOk? ==>
      r.0.storage == v.storage && r.0.location == v.location && r.0.regError == RegisterMessage(result)
    ensures r.1 ==> r.0.regErrors == NoRegErrors && !r.0.regLoading
  {
    var e := CheckRegistration(v.regName, v.regEmail, v.regPassword, v.regConfirmPassword);
    if e != NoRegErrors then (v.(regError := "", regErrors := e), false)
    else
      var w := v.(regError := "", regErrors := NoRegErrors, regLoading := false);
      if result.RegisterOk? then
        (w.(storage := v.storage[Constants.AuthTokenKey := result.token], location := Some(from)), true)
      else (w.(regError := RegisterMessage(result)), true)
  }

  /** `handleTabChange`: switching tabs clears both page-level messages. */
  function TabChange(v: View, n: int): (r: View)
    ensures r.tabValue == n && r.loginError == "" && r.regError == ""
    ensures r.(tabValue := v.tabValue, loginError := v.loginError, regError := v.regError) == v
  {
    v.(tabValue := n, loginError := "", regError := "")
  }

  /**
   * The registration the form sends creates an account the login form
   * can then sign in to.
   */
  lemma RegisteredCanLogIn(db: Backend.Db, name: string, email: string, password: string, confirm: string,
                           hash: string -> string)
    requires Backend.Valid(db) && CheckRegistration(name, email, password, confirm) == NoRegErrors
    requires Backend.Register(db, Some(email), Some(password), Some(name), hash).1.Ok?
    ensures var db' := Backend.Register(db, Some(email), Some(password), Some(name), hash).0;
      Backend.Valid(db') && Backend.Login(db', Some(email), Some(password), hash).Ok?
      && Backend.Login(db', Some(email), Some(password), hash).value.email == email
  {
    var r := Backend.Register(db, Some(email), Some(password), Some(name), hash);
    Backend.RegisterValid(db, Some(email), Some(password), Some(name), hash);
    var u := r.0.users[|db.users|];
    assert u in r.0.users && u.email == email && u.password == hash(password);
  }

  /** The pre-filled credentials pass the login form's checks. */
  lemma DefaultCredentialsPass()
    ensures CheckLogin("admin@example.com", "admin123") == NoLoginErrors
  {
    AcceptsLetterAddress("admin@example.com", 5, 13);
  }

  /**
   * The mounted page. Its `useState` hooks are the fields of `state`; each
   * setter call is a field update of that record.
   */
  class Page {
    /** `location.state?.from?.pathname`. */
    const fromPath: Option<string>
    var state: View

    constructor (fromPath: Option<string>, storage: map<string, string>)
      ensures this.fromPath == fromPath
      ensures state == View(0, "admin@example.com", "admin123", NoLoginErrors, "", false,
                            "", "", "", "", NoRegErrors, "", false, storage, None)
    {
      this.fromPath := fromPath;
      state := View(0, "admin@example.com", "admin123", NoLoginErrors, "", false,
                    "", "", "", "", NoRegErrors, "", false, storage, None);
    }

    method HandleTabChange(n: int)
      modifies this
      ensures state == TabChange(old(state), n)
    {
      state := state.(tabValue := n);
      state := state.(loginError := "");
      state := state.(regError := "");
    }

    /** The login form's fields. */
    method SetCredentials(e: string, p: string)
      modifies this
      ensures state == old(state).(email := e, password := p)
    {
      state := state.(email := e);
      state := state.(password := p);
    }

    /** The registration form's fields. */
    method SetRegistration(name: string, e: string, p: string, confirm: string)
      modifies this
      ensures state == old(state).(regName := name, regEmail := e, regPassword := p, regConfirmPassword := confirm)
    {
      state := state.(regName := name);
      state := state.(regEmail := e);
      state := state.(regPassword := p);
      state := state.(regConfirmPassword := confirm);
    }

    /** `handleLoginSubmit`; returns whether `loginUser` was dispatched. */
    method HandleLoginSubmit(result: LoginResult) returns (dispatched: bool)
      modifies this
      ensures (state, dispatched) == LoginSubmit(old(state), From(fromPath), result)
    {
      state := state.(loginError := "");
      var e := CheckLogin(state.email, state.password);
      if e != NoLoginErrors {
        state := state.(errors := e);
        return false;
      }
      state := state.(errors := NoLoginErrors);
      state := state.(loading := true);
      state := state.(loginError := LoginMessage(result));
      if result.LoginFulfilled? {
        state := state.(location := Some(From(fromPath)));
      }
      state := state.(loading := false);
      dispatched := true;
    }

    /** `handleRegisterSubmit`; returns whether the form was posted. */
    method HandleRegisterSubmit(result: RegisterResult) returns (sent: bool)
      modifies this
      ensures (state, sent) == RegisterSubmit(old(state), From(fromPath), result)
    {
      state := state.(regError := "");
      var e := CheckRegistration(state.regName, state.regEmail, state.regPassword, state.regConfirmPassword);
      if e != NoRegErrors {
        state := state.(regErrors := e);
        return false;
      }
      state := state.(regErrors := NoRegErrors);
      state := state.(regLoading := true);
      if result.RegisterOk? {
        state := state.(storage := state.storage[Constants.AuthTokenKey := result.token]);
        state := state.(location := Some(From(fromPath)));
      } else {
        state := state.(regError := RegisterMessage(result));
      }
      state := state.(regLoading := false);
      sent := true;
    }
  }
}
