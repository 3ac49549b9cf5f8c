/**
 * The members page: a table of users and a dialog that adds a user
 * through `/register` or edits one through `PATCH /users/:id`, and a
 * delete button per row.
 */
module MembersPage {
  import opened Wrappers
  import opened Text
  import opened Validators
  import Tables
  import Backend
  import Models

  /** The dialog's form. */
  datatype Form = Form(name: string, email: string, password: string)

  const EmptyForm := Form("", "", "")

  /** The message under each field; `None` shows nothing. */
  datatype FieldErrors = FieldErrors(name: Option<string>, email: Option<string>, password: Option<string>)

  const NoErrors := FieldErrors(None, None, None)

  const NameRequired := "Name is required"
  const PasswordRequiredForNew := "Password is required for new users"

  predicate Editing(editingUserId: Option<int>)
  {
    editingUserId.GetOr(0) != 0
  }

  /**
   * The password check as `handleSave` writes it: a new user needs one,
   * and otherwise the password goes through `validatePassword`, which
   * also refuses the empty password of an edit.
   */
  function PasswordErrorAsWritten(editingUserId: Option<int>, password: string): (r: Option<string>)
    ensures !Editing(editingUserId) && password == "" ==> r == Some(PasswordRequiredForNew)
    ensures Editing(editingUserId) || password != "" ==> r == ValidatePassword(password)
  {
    if !Editing(editingUserId) && password == "" then Some(PasswordRequiredForNew) else ValidatePassword(password)
  }

  /** The dialog's label promises that an edit may leave the password blank; the check refuses it. */
  lemma BlankPasswordEditRefused(id: int)
    requires id != 0
    ensures PasswordErrorAsWritten(Some(id), "") == Some("Password is required")
  {
  }

  /**
   * The check as the label "New Password (leave blank to keep current)"
   * means it: a blank password on an edit is accepted; everything else
   * is checked as written.
   */
  function PasswordError(editingUserId: Option<int>, password: string): (r: Option<string>)
    ensures Editing(editingUserId) && password == "" ==> r.None?
    ensures !(Editing(editingUserId) && password == "") ==> r == PasswordErrorAsWritten(editingUserId, password)
  {
    if Editing(editingUserId) && password == "" then None else PasswordErrorAsWritten(editingUserId, password)
  }

  /** The corrected check accepts exactly: a blank edit password, or one of at least six characters. */
  lemma PasswordErrorIff(editingUserId: Option<int>, password: string)
    ensures PasswordError(editingUserId, password).None? <==>
      (Editing(editingUserId) && password == "") || |password| >= 6
  {
  }

  /** The three checks of `handleSave`. */
  function Validate(f: Form, editingUserId: Option<int>): (e: FieldErrors)
    ensures e.name.Some? <==> IsBlank(f.name)
    ensures e.email == ValidateEmail(f.email)
    ensures e.password == PasswordError(editingUserId, f.password)
  {
    TrimEmptyIffBlank(f.name);
    FieldErrors(if Trim(f.name) == "" then Some(NameRequired) else None, ValidateEmail(f.email),
                PasswordError(editingUserId, f.password))
  }

  /** The request a valid form sends. */
  datatype Request =
    | UpdateUser(id: int, patch: Backend.UserPatch)
    | CreateUser(name: string, email: string, password: string)

  /**
   * The request for a form that passes every check: a PATCH with name,
   * email and, only when one was typed, the password; or a registration.
   */
  function RequestFor(f: Form, editingUserId: Option<int>): (r: Request)
    ensures r.UpdateUser? <==> Editing(editingUserId)
    ensures r.UpdateUser? ==>
      r.id == editingUserId.value && r.patch.name == Backend.Given(f.name) && r.patch.email == Backend.Given(f.email)
      && r.patch.password == f.password
    ensures r.CreateUser? ==> r == CreateUser(f.name, f.email, f.password)
  {
    if Editing(editingUserId) then
      UpdateUser(editingUserId.value, Backend.UserPatch(Backend.Given(f.name), Backend.Given(f.email), f.password))
    else CreateUser(f.name, f.email, f.password)
  }

  /** What the server answered: success, a refusal with its `error` field, or a network failure. */
  datatype Outcome = Succeeded | Refused(errorField: string) | Threw

  predicate NoFieldErrors(e: FieldErrors)
  {
    e.name.None? && e.email.None? && e.password.None?
  }

  /**
   * (corrected) An edit with a blank password passes the checks and keeps
   * the stored password hash.
   */
  lemma BlankPasswordEditKeepsHash(db: Backend.Db, f: Form, id: int, hash: string -> string)
    requires id != 0 && f.password == "" && NoFieldErrors(Validate(f, Some(id)))
    requires Tables.HasId(db.users, Backend.UserId, id)
    ensures var r := Backend.PatchUser(db, id, RequestFor(f, Some(id)).patch, hash);
      r.1.Ok? ==> forall i :: 0 <= i < |r.0.users| && r.0.users[i].id == id ==>
                    r.0.users[i].password == Tables.Find(db.users, Backend.UserId, id).value.password
  {
    assert RequestFor(f, Some(id)).patch.password == "";
    Backend.PatchUserKeepsPassword(db, id, RequestFor(f, Some(id)).patch, hash);
  }

  /** A new member passes the checks only with a password of six or more characters. */
  lemma NewMemberNeedsPassword(f: Form, editingUserId: Option<int>)
    requires !Editing(editingUserId) && NoFieldErrors(Validate(f, editingUserId))
    ensures |f.password| >= 6 && !IsBlank(f.name) && ValidateEmail(f.email).None?
  {
  }

  /**
   * A valid new member is registered under the typed name whenever the
   * email is free.
   */
  lemma CreateRegistersName(db: Backend.Db, f: Form, editingUserId: Option<int>, hash: string -> string)
    requires !Editing(editingUserId) && NoFieldErrors(Validate(f, editingUserId))
    requires !Tables.HasKey(db.users, Backend.UserEmail, f.email)
    ensures var q := RequestFor(f, editingUserId);
      var r := Backend.Register(db, Some(q.email), Some(q.password), Some(q.name), hash);
      r.1.Ok? && r.1.value.name == Some(f.name) && r.1.value.email == f.email
  {
  }

  /** The fallback message of a refused save. */
  function SaveFallback(editingUserId: Option<int>): string
  {
    if Editing(editingUserId) then "Failed to update user" else "Failed to create user"
  }

  /** The page-level message after a request that did not succeed. */
  function FailureMessage(o: Outcome, fallback: string): (m: string)
    requires !o.Succeeded?
    ensures o.Refused? && o.errorField != "" ==> m == o.errorField
    ensures o.Refused? && o.errorField == "" ==> m == fallback
    ensures o.Threw? ==> m == "An error occurred. Please try again."
  {
    match o
    case Refused(e) => if e != "" then e else fallback
    case Threw => "An error occurred. Please try again."
  }

  /** The page's state. */
  datatype View = View(
    openDialog: bool, editingUserId: Option<int>, form: Form, errors: FieldErrors, error: Option<string>,
    saving: bool)

  /** The dialog closed and reset. */
  predicate Closed(v: View)
  {
    !v.openDialog && v.editingUserId == None && v.form == EmptyForm && v.errors == NoErrors && v.error == None
  }

  /**
   * `handleSave` on state `v`: field errors stop it with nothing sent;
   * otherwise the request goes out, success closes the dialog, failure
   * shows the server's message and keeps the form; saving ends either way.
   */
  function SaveStep(v: View, outcome: Outcome): (r: (View, Option<Request>))
    ensures var e := Validate(v.form, v.editingUserId);
      (!NoFieldErrors(e) ==> r == (v.(errors := e), None))
      && (NoFieldErrors(e) ==> r.1 == Some(RequestFor(v.form, v.editingUserId)) && !r.0.saving)
    ensures r.1.Some? && outcome.Succeeded? ==> Closed(r.0)
    ensures r.1.Some? && !outcome.Succeeded? ==>
      r.0 == v.(errors := NoErrors, saving := false,
                error := Some(FailureMessage(outcome, SaveFallback(v.editingUserId))))
  {
    var e := Validate(v.form, v.editingUserId);
    if !NoFieldErrors(e) then (v.(errors := e), None)
    else if outcome.Succeeded? then
      (View(false, None, EmptyForm, NoErrors, None, false), Some(RequestFor(v.form, v.editingUserId)))
    else
      (v.(errors := NoErrors, saving := false, error := Some(FailureMessage(outcome, SaveFallback(v.editingUserId)))),
       Some(RequestFor(v.form, v.editingUserId)))
  }

  /**
   * (corrected) Editing a member without typing a password sends the
   * PATCH, with no password in it.
   */
  lemma BlankPasswordEditSent(v: View, outcome: Outcome)
    requires Editing(v.editingUserId) && v.form.password == ""
    requires !IsBlank(v.form.name) && ValidateEmail(v.form.email).None?
    ensures SaveStep(v, outcome).1 ==
      Some(UpdateUser(v.editingUserId.value, Backend.UserPatch(Backend.Given(v.form.name), Backend.Given(v.form.email), "")))
  {
  }

  /** A save that fails keeps what was typed, so it can be retried. */
  lemma FailedSaveKeepsForm(v: View, outcome: Outcome)
    requires NoFieldErrors(Validate(v.form, v.editingUserId)) && !outcome.Succeeded?
    ensures SaveStep(v, outcome).0.form == v.form && SaveStep(v, outcome).0.openDialog == v.openDialog
    ensures SaveStep(v, outcome).0.error.Some?
  {
  }

  /**
   * The mounted page. Its `useState` hooks are the fields of `state`; each
   * setter call is a field update of that record.
   */
  class Page {
    var state: View

    constructor ()
      ensures Closed(state) && !state.saving
    {
      state := View(false, None, EmptyForm, NoErrors, None, false);
    }

    /** `handleOpenDialog(user)`: an edit starts with an empty password; field errors stay. */
    method HandleOpenDialog(user: Option<Models.User>)
      modifies this
      ensures state.openDialog && state.error == None && state.errors == old(state.errors)
      ensures state.saving == old(state.saving)
      ensures user.Some? ==>
        state.editingUserId == Some(user.value.id) && state.form == Form(user.value.name, user.value.email, "")
      ensures user.None? ==> state.editingUserId == None && state.form == EmptyForm
    {
      if user.Some? {
        state := state.(editingUserId := Some(user.value.id));
        state := state.(form := Form(user.value.name, user.value.email, ""));
      } else {
        state := state.(editingUserId := None);
        state := state.(form := EmptyForm);
      }
      state := state.(openDialog := true);
      state := state.(error := None);
    }

    method HandleCloseDialog()
      modifies this
      ensures Closed(state) && state.saving == old(state.saving)
    {
      state := state.(openDialog := false);
      state := state.(editingUserId := None);
      state := state.(form := EmptyForm);
      state := state.(errors := NoErrors);
      state := state.(error := None);
    }

    /** `handleSave`, with the corrected password check; `outcome` is the server's answer. */
    method HandleSave(outcome: Outcome) returns (sent: Option<Request>)
      modifies this
      ensures (state, sent) == SaveStep(old(state), outcome)
    {
      var e := Validate(state.form, state.editingUserId);
      if !NoFieldErrors(e) {
        state := state.(errors := e);
        return None;
      }
      sent := Some(RequestFor(state.form, state.editingUserId));
      state := state.(errors := NoErrors);
      state := state.(saving := true);
      if outcome.Succeeded? {
        state := state.(openDialog := false);
        state := state.(editingUserId := None);
        state := state.(form := EmptyForm);
        state := state.(error := None);
      } else {
        state := state.(error := Some(FailureMessage(outcome, SaveFallback(state.editingUserId))));
      }
      state := state.(saving := false);
    }

    /** `handleDelete(userId)` after the prompt; returns whether the DELETE was sent. */
    method HandleDelete(userId: int, confirmed: bool, outcome: Outcome) returns (sent: bool)
      modifies this
      ensures sent == confirmed
      ensures !confirmed || outcome.Succeeded? ==> state.error == old(state.error)
      ensures confirmed && !outcome.Succeeded? ==> state.error == Some(FailureMessage(outcome, "Failed to delete user"))
      ensures state.(error := old(state.error), saving := old(state.saving)) == old(state)
      ensures confirmed ==> !state.saving
      ensures !confirmed ==> state.saving == old(state.saving)
    {
      if !confirmed {
        return false;
      }
      state := state.(saving := true);
      if !outcome.Succeeded? {
        state := state.(error := Some(FailureMessage(outcome, "Failed to delete user")));
      }
      state := state.(saving := false);
      sent := true;
    }
  }
}
