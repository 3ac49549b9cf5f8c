/**
 * The advanced search page: a filter object over all tasks, the first ten
 * results, and named filter presets kept in browser storage.
 */
module AdvancedSearch {
  import opened Wrappers
  import opened Text
  import opened Json
  import opened Seqs
  import opened Models

  // ---- the filter ------------------------------------------------------------

  /** The task's value compared against an equality filter (`null` for no assignee). */
  function TaskValue(t: Task, key: string): Value
  {
    if key == "status" then Str(t.status)
    else if key == "priority" then Str(t.priority)
    else if key == "projectId" then Num(t.projectId)
    else if key == "assigneeId" then (if t.assigneeId.Some? then Num(t.assigneeId.value) else Null)
    else Undef
  }

  /**
   * One filter field: a falsy value does not filter; the title is a
   * case-insensitive substring test, the others strict equality.
   */
  predicate Passes(t: Task, key: string, v: Value)
  {
    !Truthy(v)
    || (if key == "title" then Includes(ToLower(t.title), ToLower(ToJsString(v))) else TaskValue(t, key) == v)
  }

  /** The five fields the page filters on. */
  const FilterKeys: seq<string> := ["title", "status", "priority", "projectId", "assigneeId"]

  predicate Matches(f: Obj, t: Task)
  {
    Passes(t, "title", Lookup(f, "title")) && Passes(t, "status", Lookup(f, "status"))
    && Passes(t, "priority", Lookup(f, "priority")) && Passes(t, "projectId", Lookup(f, "projectId"))
    && Passes(t, "assigneeId", Lookup(f, "assigneeId"))
  }

  function MatchesFilter(f: Obj): Task -> bool
  {
    (t: Task) => Matches(f, t)
  }

  /** `filteredTasks`. */
  function FilteredTasks(all: seq<Task>, f: Obj): seq<Task>
  {
    Filter(all, MatchesFilter(f))
  }

  /** The table shows the first ten results. */
  function Displayed(all: seq<Task>, f: Obj): (r: seq<Task>)
    ensures |r| <= 10 && |r| <= |FilteredTasks(all, f)| && r == FilteredTasks(all, f)[..|r|]
  {
    Take(FilteredTasks(all, f), 10)
  }

  /** Without a truthy filter every task is found; the result always keeps the tasks' order. */
  lemma NoFilterFindsAll(all: seq<Task>, f: Obj)
    requires forall k :: k in FilterKeys ==> !Truthy(Lookup(f, k))
    ensures FilteredTasks(all, f) == all
  {
    assert forall k :: k in FilterKeys ==> !Truthy(Lookup(f, k)) ==> true;
    assert !Truthy(Lookup(f, FilterKeys[0])) && !Truthy(Lookup(f, FilterKeys[1])) && !Truthy(Lookup(f, FilterKeys[2]))
      && !Truthy(Lookup(f, FilterKeys[3])) && !Truthy(Lookup(f, FilterKeys[4]));
    FilterAllTrue(all, MatchesFilter(f));
  }

  lemma EmptyFilterFindsAll(all: seq<Task>)
    ensures FilteredTasks(all, []) == all
  {
    NoFilterFindsAll(all, []);
  }

  lemma ResultIsSubsequence(all: seq<Task>, f: Obj)
    ensures Subseq(FilteredTasks(all, f), all)
    ensures forall t :: t in FilteredTasks(all, f) <==> t in all && Matches(f, t)
  {
    FilterIsSubseq(all, MatchesFilter(f));
  }

  lemma PassesFalsySet(t: Task, f: Obj, key: string, v: Value, k: string)
    requires !Truthy(v)
    ensures Passes(t, k, Lookup(Set(f, key, v), k)) == Passes(t, k, Lookup(Remove(f, key), k))
  {
    if k == key {
      assert Lookup(Set(f, key, v), k) == v && Lookup(Remove(f, key), k) == Undef;
    } else {
      assert Lookup(Set(f, key, v), k) == Lookup(Remove(f, key), k);
    }
  }

  /** A falsy value (such as `projectId` 0 or an 'All' choice) filters exactly like an absent key. */
  lemma FalsyIgnored(all: seq<Task>, f: Obj, key: string, v: Value)
    requires !Truthy(v)
    ensures FilteredTasks(all, Set(f, key, v)) == FilteredTasks(all, Remove(f, key))
  {
    forall i | 0 <= i < |all| ensures Matches(Set(f, key, v), all[i]) == Matches(Remove(f, key), all[i]) {
      PassesFalsySet(all[i], f, key, v, "title");
      PassesFalsySet(all[i], f, key, v, "status");
      PassesFalsySet(all[i], f, key, v, "priority");
      PassesFalsySet(all[i], f, key, v, "projectId");
      PassesFalsySet(all[i], f, key, v, "assigneeId");
    }
    FilterCongruent(all, MatchesFilter(Set(f, key, v)), MatchesFilter(Remove(f, key)));
  }

  /** Setting a filter field can only remove tasks from the result. */
  lemma FilterNarrows(all: seq<Task>, f: Obj, key: string, v: Value)
    ensures Subseq(FilteredTasks(all, Set(f, key, v)), FilteredTasks(all, Remove(f, key)))
  {
    forall t | Matches(Set(f, key, v), t) ensures Matches(Remove(f, key), t) {
      PassesSetWeaker(t, f, key, v, "title");
      PassesSetWeaker(t, f, key, v, "status");
      PassesSetWeaker(t, f, key, v, "priority");
      PassesSetWeaker(t, f, key, v, "projectId");
      PassesSetWeaker(t, f, key, v, "assigneeId");
    }
    FilterWeaker(all, MatchesFilter(Set(f, key, v)), MatchesFilter(Remove(f, key)));
  }

  /** A field passed under the set filter passes once the key is removed. */
  lemma PassesSetWeaker(t: Task, f: Obj, key: string, v: Value, k: string)
    requires Passes(t, k, Lookup(Set(f, key, v), k))
    ensures Passes(t, k, Lookup(Remove(f, key), k))
  {
    if k == key {
      assert Lookup(Remove(f, key), k) == Undef;
    } else {
      assert Lookup(Set(f, key, v), k) == Lookup(Remove(f, key), k);
    }
  }

  lemma LowerUpper(s: string)
    ensures ToLower(ToUpper(s)) == ToLower(s) && ToLower(ToLower(s)) == ToLower(s)
  {
  }

  /**
   * The title filter is a substring test that ignores ASCII case, on both
   * the query and the task title.
   */
  lemma TitleIgnoresCase(t: Task, q: string)
    requires q != ""
    ensures Passes(t, "title", Str(q)) <==> Contains(ToLower(t.title), ToLower(q))
    ensures Passes(t, "title", Str(ToUpper(q))) == Passes(t, "title", Str(q))
    ensures Passes(t.(title := ToUpper(t.title)), "title", Str(q)) == Passes(t, "title", Str(q))
  {
    LowerUpper(q);
    LowerUpper(t.title);
    assert ToUpper(q) != "";
  }

  // ---- filter edits ------------------------------------------------------------

  /** `handleFilterChange`: '' and `null` delete the key; anything else, `undefined` included, is stored. */
  function FilterChange(f: Obj, key: string, value: Value): (r: Obj)
    ensures value == Str("") || value == Null ==> Get(r, key) == None
    ensures value != Str("") && value != Null ==> Get(r, key) == Some(value)
    ensures forall k :: k != key ==> Get(r, k) == Get(f, k)
  {
    if value == Str("") || value == Null then Remove(f, key) else Set(f, key, value)
  }

  /** The status and priority selects pass `value || undefined`. */
  function SelectValue(choice: string): Value
  {
    if choice == "" then Undef else Str(choice)
  }

  /**
   * Choosing 'All' keeps the key, holding `undefined`, yet the tasks found
   * are those found without the key.
   */
  lemma AllKeepsKey(all: seq<Task>, f: Obj, key: string)
    ensures key in Keys(FilterChange(f, key, SelectValue("")))
    ensures FilteredTasks(all, FilterChange(f, key, SelectValue(""))) == FilteredTasks(all, Remove(f, key))
  {
    FalsyIgnored(all, f, key, Undef);
  }

  // ---- presets -----------------------------------------------------------------

  datatype Preset = Preset(id: string, name: string, filters: Obj, createdAt: string)

  /** The edit of one preset: the one with id `e` takes the new name and filters. */
  function Rewrite(e: string, name: string, f: Obj): Preset -> Preset
  {
    (p: Preset) => if p.id == e then p.(name := name, filters := f) else p
  }

  /**
   * `handleSavePreset`'s new list: `None` for a blank name (the alert);
   * when editing, the matching preset takes the name and filters; otherwise
   * a new preset with `id` and `createdAt` from the clock is appended.
   */
  function SavePreset(presets: seq<Preset>, name: string, editing: Option<string>, f: Obj, id: string, now: string)
    : Option<seq<Preset>>
  {
    if IsBlank(name) then None
    else if editing.GetOr("") != "" then
      Some(Map(presets, Rewrite(editing.value, name, f)))
    else Some(presets + [Preset(id, name, f, now)])
  }

  /** A blank name saves nothing. */
  lemma BlankNameSavesNothing(presets: seq<Preset>, name: string, editing: Option<string>, f: Obj, id: string, now: string)
    ensures SavePreset(presets, name, editing, f, id, now).None? <==> Trim(name) == ""
  {
    TrimEmptyIffBlank(name);
  }

  /** Editing rewrites the matching presets in place and keeps the rest as they were. */
  lemma SaveWhileEditing(presets: seq<Preset>, name: string, e: string, f: Obj, id: string, now: string)
    requires !IsBlank(name) && e != ""
    ensures var r := SavePreset(presets, name, Some(e), f, id, now).value;
      |r| == |presets|
      && forall i :: 0 <= i < |presets| ==>
           r[i] == if presets[i].id == e then presets[i].(name := name, filters := f) else presets[i]
  {
  }

  /** Otherwise exactly one preset is added, at the end. */
  lemma SaveNew(presets: seq<Preset>, name: string, editing: Option<string>, f: Obj, id: string, now: string)
    requires !IsBlank(name) && editing.GetOr("") == ""
    ensures var r := SavePreset(presets, name, editing, f, id, now).value;
      |r| == |presets| + 1 && r[..|presets|] == presets && r[|presets|] == Preset(id, name, f, now)
  {
  }

  function OtherId(id: string): Preset -> bool
  {
    (p: Preset) => p.id != id
  }

  /** `handleDeletePreset`. */
  function DeletePreset(presets: seq<Preset>, id: string): seq<Preset>
  {
    Filter(presets, OtherId(id))
  }

  /** Deleting removes every preset with the id and keeps the others in order. */
  lemma DeleteRemovesAll(presets: seq<Preset>, id: string)
    ensures forall p :: p in DeletePreset(presets, id) <==> p in presets && p.id != id
    ensures Subseq(DeletePreset(presets, id), presets)
    ensures (forall p :: p in presets ==> p.id != id) ==> DeletePreset(presets, id) == presets
  {
    FilterIsSubseq(presets, OtherId(id));
    if forall p :: p in presets ==> p.id != id {
      assert forall i :: 0 <= i < |presets| ==> presets[i] in presets;
      FilterAllTrue(presets, OtherId(id));
    }
  }

  /** Saving a new preset and deleting it by its (fresh) id gives the old list back. */
  lemma SaveThenDelete(presets: seq<Preset>, name: string, f: Obj, id: string, now: string)
    requires !IsBlank(name) && forall p :: p in presets ==> p.id != id
    ensures DeletePreset(SavePreset(presets, name, None, f, id, now).value, id) == presets
  {
    assert forall i :: 0 <= i < |presets| ==> presets[i] in presets;
    FilterConcat(presets, [Preset(id, name, f, now)], OtherId(id));
    FilterAllTrue(presets, OtherId(id));
    assert Filter([Preset(id, name, f, now)], OtherId(id)) == [];
  }

  // ---- the page ----------------------------------------------------------------

  /**
   * The page's state. `saved` is what the storage key holds, `None` when
   * nothing was saved; the presets are kept decoded.
   */
  class SearchPage {
    var filters: Obj
    var presets: seq<Preset>
    var saved: Option<seq<Preset>>
    var openPresetDialog: bool
    var presetName: string
    var editingPresetId: Option<string>

    constructor (stored: Option<seq<Preset>>)
      ensures filters == [] && presets == [] && saved == stored
      ensures !openPresetDialog && presetName == "" && editingPresetId == None
    {
      filters := [];
      presets := [];
      saved := stored;
      openPresetDialog := false;
      presetName := "";
      editingPresetId := None;
    }

    /** The mount effect: a saved list replaces the empty one. */
    method LoadPresets()
      modifies this
      ensures presets == (if saved.Some? then saved.value else old(presets))
      ensures filters == old(filters) && saved == old(saved) && editingPresetId == old(editingPresetId)
      ensures openPresetDialog == old(openPresetDialog) && presetName == old(presetName)
    {
      if saved.Some? {
        presets := saved.value;
      }
    }

    method HandleFilterChange(key: string, value: Value)
      modifies this
      ensures filters == FilterChange(old(filters), key, value)
      ensures presets == old(presets) && saved == old(saved) && editingPresetId == old(editingPresetId)
      ensures openPresetDialog == old(openPresetDialog) && presetName == old(presetName)
    {
      filters := FilterChange(filters, key, value);
    }

    method HandleClearFilters()
      modifies this
      ensures filters == [] && presets == old(presets) && saved == old(saved)
      ensures editingPresetId == old(editingPresetId) && openPresetDialog == old(openPresetDialog)
      ensures presetName == old(presetName)
    {
      filters := [];
    }

    /**
     * `handleSavePreset`; `id` and `now` are the clock's readings. A blank
     * name raises the alert and changes nothing; otherwise the list is
     * stored and the dialog is closed and reset.
     */
    method HandleSavePreset(id: string, now: string) returns (alerted: bool)
      modifies this
      ensures var r := SavePreset(old(presets), old(presetName), old(editingPresetId), old(filters), id, now);
        alerted == r.None?
        && (r.None? ==> presets == old(presets) && saved == old(saved) && presetName == old(presetName)
                        && editingPresetId == old(editingPresetId) && openPresetDialog == old(openPresetDialog))
        && (r.Some? ==> presets == r.value && saved == r && presetName == "" && editingPresetId.None?
                        && !openPresetDialog)
      ensures filters == old(filters)
    {
      if IsBlank(presetName) {
        return true;
      }
      var newPresets := presets;
      if editingPresetId.GetOr("") != "" {
        newPresets := Map(newPresets, Rewrite(editingPresetId.value, presetName, filters));
      } else {
        newPresets := newPresets + [Preset(id, presetName, filters, now)];
      }
      presets := newPresets;
      saved := Some(newPresets);
      openPresetDialog := false;
      presetName := "";
      editingPresetId := None;
      return false;
    }

    method HandleLoadPreset(p: Preset)
      modifies this
      ensures filters == p.filters && presets == old(presets) && saved == old(saved)
      ensures editingPresetId == old(editingPresetId) && openPresetDialog == old(openPresetDialog)
      ensures presetName == old(presetName)
    {
      filters := p.filters;
    }

    method HandleDeletePreset(id: string)
      modifies this
      ensures presets == DeletePreset(old(presets), id) && saved == Some(presets)
      ensures filters == old(filters) && editingPresetId == old(editingPresetId)
      ensures openPresetDialog == old(openPresetDialog) && presetName == old(presetName)
    {
      presets := DeletePreset(presets, id);
      saved := Some(presets);
    }

    /** `handleEditPreset`: the dialog opens on the preset, whose filters become the current ones. */
    method HandleEditPreset(p: Preset)
      modifies this
      ensures presetName == p.name && editingPresetId == Some(p.id) && filters == p.filters && openPresetDialog
      ensures presets == old(presets) && saved == old(saved)
    {
      presetName := p.name;
      editingPresetId := Some(p.id);
      filters := p.filters;
      openPresetDialog := true;
    }
  }
}
