/**
 * The activity log page; its chips use the same colour rule as the
 * dashboard feed (`ActivityFeed.TypeColor`) but a label computed from
 * the type string instead of a table.
 */
module ActivityContainer {
  import opened Text
  import opened Models
  import ActivityFeed

  /** Where a label character is a separator: the type's `_` or space. */
  predicate Gap(c: char)
  {
    c == '_' || c == ' '
  }

  /** A gap becomes a space; a character opening a word is upper-cased. */
  function LabelChar(t: string, k: int): char
    requires 0 <= k < |t|
  {
    if Gap(t[k]) then ' ' else if k == 0 || Gap(t[k - 1]) then Upper(t[k]) else t[k]
  }

  /**
   * `getActivityLabel`: every `_` becomes a space, and each
   * space-separated word gets its first letter upper-cased.
   */
  function ActivityLabel(t: string): (r: string)
    ensures |r| == |t|
  {
    TitleWordsAt(ReplaceAll(t, '_', ' '), ' ');
    TitleWords(ReplaceAll(t, '_', ' '), ' ')
  }

  /** The label character by character. */
  lemma LabelChars(t: string)
    ensures forall k :: 0 <= k < |t| ==> ActivityLabel(t)[k] == LabelChar(t, k)
  {
    var spaced := ReplaceAll(t, '_', ' ');
    TitleWordsAt(spaced, ' ');
    forall k | 0 <= k < |t| ensures (spaced[k] == ' ') == Gap(t[k]) && (!Gap(t[k]) ==> spaced[k] == t[k]) {
    }
  }

  /** The label keeps no underscore, and every other character stays where it was. */
  lemma LabelHasNoUnderscore(t: string)
    ensures '_' !in ActivityLabel(t)
    ensures forall k :: 0 <= k < |t| && !Gap(t[k]) ==> Lower(ActivityLabel(t)[k]) == Lower(t[k])
  {
    var r := ActivityLabel(t);
    LabelChars(t);
    forall k | 0 <= k < |t| ensures r[k] != '_' && (!Gap(t[k]) ==> Lower(r[k]) == Lower(t[k])) {
      UpperKeeps(t[k]);
      if Gap(t[k]) {
        assert r[k] == ' ';
      } else if k == 0 || Gap(t[k - 1]) {
        assert r[k] == Upper(t[k]);
      } else {
        assert r[k] == t[k];
      }
    }
  }

  lemma UpperKeeps(c: char)
    ensures Upper(c) == '_' <==> c == '_'
    ensures Lower(Upper(c)) == Lower(c)
  {
  }

  /** A word with no gap is labelled by capitalising it. */
  lemma LabelOfWord(w: string)
    requires forall k :: 0 <= k < |w| ==> !Gap(w[k])
    ensures ActivityLabel(w) == Capitalize(w)
  {
    var r := ActivityLabel(w);
    LabelChars(w);
    forall k | 0 <= k < |w| ensures r[k] == Capitalize(w)[k] {
      assert r[k] == LabelChar(w, k);
    }
  }

  /**
   * The label of `a_b` is the capitalised word `a`, a space, then the
   * label of `b`: `task_status_changed` reads "Task Status Changed".
   */
  lemma LabelOfJoined(a: string, b: string)
    requires forall k :: 0 <= k < |a| ==> !Gap(a[k])
    ensures ActivityLabel(a + "_" + b) == Capitalize(a) + " " + ActivityLabel(b)
  {
    var t := a + "_" + b;
    var r := ActivityLabel(t);
    var c := Capitalize(a);
    var lb := ActivityLabel(b);
    var l := c + " " + lb;
    assert |l| == |t|;
    LabelChars(t);
    LabelChars(b);
    forall k | 0 <= k < |a| ensures r[k] == l[k] {
      assert t[k] == a[k];
      if k > 0 { assert t[k - 1] == a[k - 1]; }
      assert r[k] == LabelChar(t, k);
      assert l[k] == c[k];
    }
    assert t[|a|] == '_' && r[|a|] == LabelChar(t, |a|);
    forall k | |a| < k < |t| ensures r[k] == l[k] {
      var j := k - |a| - 1;
      assert t[k] == b[j];
      if j > 0 { assert t[k - 1] == b[j - 1]; } else { assert t[k - 1] == '_'; }
      assert r[k] == LabelChar(t, k);
      assert l[k] == lb[j] == LabelChar(b, j);
    }
  }

  /**
   * By the ordered substring test, a status change and an added team
   * member match none of the four words and get the "default" colour.
   */
  lemma UnmatchedTypesDefault()
    ensures ActivityFeed.TypeColor(ActivityTypeName(TaskStatusChanged)) == "default"
    ensures ActivityFeed.TypeColor(ActivityTypeName(TeamMemberAdded)) == "default"
  {
    ActivityFeed.TypeColors(TaskStatusChanged);
    ActivityFeed.TypeColors(TeamMemberAdded);
  }
}
