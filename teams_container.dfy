/**
 * The teams page: a list of teams and one dialog that creates a team or
 * edits one, with a checkbox per user for the member list.
 */
module TeamsContainer {
  import opened Wrappers
  import opened Text
  import opened Seqs
  import opened Models
  import Json
  import Backend
  import Tables

  /** The dialog's form. */
  datatype Form = Form(name: string, description: string, memberIds: seq<int>)

  const EmptyForm := Form("", "", [])

  predicate Distinct(ids: seq<int>)
  {
    forall i, j :: 0 <= i < j < |ids| ==> ids[i] != ids[j]
  }

  function OtherUser(u: int): int -> bool
  {
    (x: int) => x != u
  }

  /**
   * The member list after the checkbox of user `u` is clicked
   * (`handleToggleMember`): a checked user is removed everywhere, an
   * unchecked one is appended.
   */
  function Toggle(ids: seq<int>, u: int): (r: seq<int>)
    ensures u in r <==> u !in ids
    ensures forall v :: v != u ==> (v in r <==> v in ids)
    ensures u !in ids ==> r == ids + [u]
    ensures u in ids ==> Subseq(r, ids) && |r| < |ids|
  {
    if u in ids then
      var r := Filter(ids, OtherUser(u));
      forall v | v != u && v in ids ensures v in r {
        var i :| 0 <= i < |ids| && ids[i] == v;
        assert OtherUser(u)(ids[i]);
      }
      FilterIsSubseq(ids, OtherUser(u));
      FilterShorter(ids, u);
      r
    else ids + [u]
  }

  lemma {:induction false} FilterShorter(ids: seq<int>, u: int)
    requires u in ids
    ensures |Filter(ids, OtherUser(u))| < |ids|
  {
    if ids[0] != u {
      assert u in ids[1..];
      FilterShorter(ids[1..], u);
    }
  }

  /** Clicking the same unchecked box twice gives back the list it started from. */
  lemma ToggleTwiceRestores(ids: seq<int>, u: int)
    requires u !in ids
    ensures Toggle(Toggle(ids, u), u) == ids
  {
    FilterConcat(ids, [u], OtherUser(u));
    FilterAllTrue(ids, OtherUser(u));
    assert Filter([u], OtherUser(u)) == [];
    assert ids + [] == ids;
  }

  /** A list without repeats keeps none after a toggle. */
  lemma ToggleKeepsDistinct(ids: seq<int>, u: int)
    requires Distinct(ids)
    ensures Distinct(Toggle(ids, u))
  {
    if u in ids {
      FilterDistinct(ids, OtherUser(u));
    }
  }

  lemma {:induction false} FilterDistinct(ids: seq<int>, p: int -> bool)
    requires Distinct(ids)
    ensures Distinct(Filter(ids, p))
  {
    if ids != [] {
      FilterDistinct(ids[1..], p);
      assert ids[0] !in ids[1..];
      assert ids[0] !in Filter(ids[1..], p);
    }
  }

  /** Whether `u`'s box is checked follows the parity of its clicks. */
  lemma ToggleFlipsCheckbox(ids: seq<int>, u: int)
    ensures u in Toggle(ids, u) <==> u !in ids
    ensures u in Toggle(Toggle(ids, u), u) <==> u in ids
  {
  }

  /** The request `handleCreateTeam` sends. */
  datatype Save = SaveNew(body: Backend.TeamBody) | SaveEdit(id: int, body: Backend.TeamBody)

  /** The body is the whole form. */
  function Body(f: Form): Backend.TeamBody
  {
    Backend.TeamBody(Some(f.name), Some(f.description), Some(f.memberIds))
  }

  /**
   * The request for saving form `f`: none when the name is blank, an
   * update when a team with a truthy id is being edited, else a creation.
   */
  function SaveFor(f: Form, editingTeamId: Option<int>): (r: Option<Save>)
    ensures r.None? <==> IsBlank(f.name)
    ensures r.Some? ==> r.value.body.name == Some(f.name) && r.value.body.memberIds == Some(f.memberIds)
    ensures r.Some? ==> (r.value.SaveEdit? <==> editingTeamId.GetOr(0) != 0)
    ensures r.Some? && r.value.SaveEdit? ==> r.value.id == editingTeamId.value
  {
    TrimEmptyIffBlank(f.name);
    if Trim(f.name) == "" then None
    else if editingTeamId.GetOr(0) != 0 then Some(SaveEdit(editingTeamId.value, Body(f)))
    else Some(SaveNew(Body(f)))
  }

  /** A created team is exactly the form: name, description and members. */
  lemma SaveNewCreatesForm(db: Backend.Db, f: Form, now: int)
    requires SaveFor(f, None).Some?
    ensures var r := Backend.CreateTeam(db, SaveFor(f, None).value.body, now);
      r.1.Ok? && r.1.value.name == f.name && r.1.value.description == Some(f.description)
      && r.1.value.memberIds == f.memberIds
  {
  }

  /**
   * Saving an edit overwrites all three columns of the team being edited,
   * so unchecking every box empties its member list.
   */
  lemma SaveEditOverwrites(db: Backend.Db, f: Form, id: int, now: int)
    requires id != 0 && SaveFor(f, Some(id)).Some? && Tables.HasId(db.teams, Backend.TeamId, id)
    ensures SaveFor(f, Some(id)).value.SaveEdit?
    ensures var r := Backend.PatchTeam(db, id, SaveFor(f, Some(id)).value.body, now);
      r.1.Ok? && r.1.value.id == id && r.1.value.name == f.name
      && r.1.value.description == Some(f.description) && r.1.value.memberIds == f.memberIds
  {
    assert SaveFor(f, Some(id)).value.body == Body(f);
  }

  /** The form `handleOpenDialog` fills in for `team`, or the empty form. */
  function FormFor(team: Option<Team>): (f: Form)
    ensures team.None? ==> f == EmptyForm
    ensures team.Some? ==> f.name == team.value.name && f.memberIds == team.value.memberIds
  {
    match team
    case None => EmptyForm
    case Some(t) => Form(t.name, t.description, t.memberIds)
  }

  /** Opening an existing team and saving it unchanged sends back what it holds. */
  lemma ReopenSavesSame(t: Team)
    requires t.id != 0 && !IsBlank(t.name)
    ensures SaveFor(FormFor(Some(t)), Some(t.id)) ==
      Some(SaveEdit(t.id, Backend.TeamBody(Some(t.name), Some(t.description), Some(t.memberIds))))
  {
  }

  /**
   * The "Create Team" button hands `handleOpenDialog` its click event, an
   * object with neither `id`, `name` nor `description`; the dialog then
   * takes the edit branch. The fields are JavaScript values here.
   */
  datatype OpenedForm = OpenedForm(editingTeamId: Json.Value, name: Json.Value, description: Json.Value, memberIds: seq<int>)

  function OpenFromClick(): (f: OpenedForm)
    ensures f.name == Json.Undef && !Json.Truthy(f.editingTeamId)
  {
    OpenedForm(Json.Undef, Json.Undef, Json.Undef, [])
  }

  /** The first step of `handleCreateTeam` on a name that may not be a string. */
  datatype NameCheck = NameThrows | NameRequired | NameOk

  function CheckName(name: Json.Value): (r: NameCheck)
    ensures r == NameThrows <==> !name.Str?
    ensures r == NameRequired <==> name.Str? && IsBlank(name.s)
  {
    match name
    case Str(s) =>
      TrimEmptyIffBlank(s);
      if Trim(s) == "" then NameRequired else NameOk
    case _ => NameThrows
  }

  /**
   * Saving straight after "Create Team", before typing a name, calls
   * `trim` on `undefined`: the handler throws before any message is set.
   */
  lemma CreateClickThenSaveThrows()
    ensures CheckName(OpenFromClick().name) == NameThrows
  {
  }

  /** With the form `handleOpenDialog()` builds, the same click shows "Team name is required". */
  lemma CreateDialogThenSaveAsks()
    ensures CheckName(Json.Str(FormFor(None).name)) == NameRequired
    ensures SaveFor(FormFor(None), None).None?
  {
  }

  const NameRequiredMessage := "Team name is required"
  const SaveFailedMessage := "Failed to save team"

  /** The page's state: the dialog, the team being edited, the form, the error and the loading flag. */
  datatype PageState = PageState(
    openDialog: bool, editingTeamId: Option<int>, form: Form, error: Option<string>, isLoading: bool)

  /** The dialog closed and everything in it reset. */
  predicate Closed(v: PageState)
  {
    !v.openDialog && v.editingTeamId == None && v.form == EmptyForm && v.error == None
  }

  /**
   * The mounted page. Its `useState` hooks are the fields of `state`; each
   * setter call is a field update of that record.
   */
  class TeamsPage {
    var state: PageState

    constructor ()
      ensures state == PageState(false, None, EmptyForm, None, false)
    {
      state := PageState(false, None, EmptyForm, None, false);
    }

    /** `handleOpenDialog(team)`: the corrected "Create Team" passes no team. */
    method HandleOpenDialog(team: Option<Team>)
      modifies this
      ensures state == old(state).(openDialog := true, error := None, form := FormFor(team),
                                   editingTeamId := if team.Some? then Some(team.value.id) else None)
    {
      if team.Some? {
        state := state.(editingTeamId := Some(team.value.id));
      } else {
        state := state.(editingTeamId := None);
      }
      state := state.(form := FormFor(team));
      state := state.(openDialog := true);
      state := state.(error := None);
    }

    method HandleCloseDialog()
      modifies this
      ensures Closed(state)
      ensures state == old(state).(openDialog := false, editingTeamId := None, form := EmptyForm, error := None)
    {
      state := state.(openDialog := false);
      state := state.(editingTeamId := None);
      state := state.(form := EmptyForm);
      state := state.(error := None);
    }

    method HandleToggleMember(u: int)
      modifies this
      ensures state == old(state).(form := old(state).form.(memberIds := Toggle(old(state).form.memberIds, u)))
    {
      state := state.(form := state.form.(memberIds := Toggle(state.form.memberIds, u)));
    }

    /**
     * `handleCreateTeam`; `succeeded` is the outcome of the request. It
     * returns the request sent, if any, and whether the list was refetched.
     */
    method HandleCreateTeam(succeeded: bool) returns (sent: Option<Save>, refetched: bool)
      modifies this
      ensures sent == SaveFor(old(state).form, old(state).editingTeamId)
      ensures sent.None? ==> !refetched && state == old(state).(error := Some(NameRequiredMessage))
      ensures sent.Some? ==> !state.isLoading && refetched == succeeded
      ensures sent.Some? && succeeded ==> Closed(state)
      ensures sent.Some? && !succeeded ==>
        state == old(state).(error := Some(SaveFailedMessage), isLoading := false)
    {
      sent := SaveFor(state.form, state.editingTeamId);
      if sent.None? {
        state := state.(error := Some(NameRequiredMessage));
        refetched := false;
        return;
      }
      state := state.(isLoading := true);
      if succeeded {
        refetched := true;
        HandleCloseDialog();
      } else {
        state := state.(error := Some(SaveFailedMessage));
        refetched := false;
      }
      state := state.(isLoading := false);
    }
  }
}
