/** Form validators: each returns `None` (JavaScript `null`) or the first failing message. */
module Validators {
  import opened Wrappers
  import opened Text
  import opened Constants
  import Json

  /** A run of the character class `[^\s@]`. */
  predicate PlainRun(s: string)
  {
    forall i :: 0 <= i < |s| ==> !IsSpace(s[i]) && s[i] != '@'
  }

  /**
   * The language of `/^[^\s@]+@[^\s@]+\.[^\s@]+$/`: `s` splits as
   * local `@` host `.` tld with three non-empty plain runs.
   */
  ghost predicate EmailShape(s: string)
  {
    exists i, j :: 0 < i && i + 1 < j && j + 1 < |s|
      && s[i] == '@' && s[j] == '.'
      && PlainRun(s[..i]) && PlainRun(s[i + 1..j]) && PlainRun(s[j + 1..])
  }

  /** A scan for the email pattern: one '@' after a non-empty prefix, then a dot with text on both sides. */
  function MatchesEmail(s: string): (b: bool)
  {
    '@' in s &&
    var i := IndexOf(s, '@');
    var d := s[i + 1..];
    i > 0 && PlainRun(s[..i]) && PlainRun(d) && |d| >= 3 && '.' in d[1..|d| - 1]
  }

  lemma PlainRunSlice(s: string, a: int, b: int)
    requires PlainRun(s) && 0 <= a <= b <= |s|
    ensures PlainRun(s[a..b])
  {
    assert forall k :: 0 <= k < b - a ==> s[a..b][k] == s[a + k];
  }

  lemma PlainRunJoin(x: string, c: char, y: string)
    requires PlainRun(x) && PlainRun(y) && !IsSpace(c) && c != '@'
    ensures PlainRun(x + [c] + y)
  {
    var z := x + [c] + y;
    forall k | 0 <= k < |z| ensures !IsSpace(z[k]) && z[k] != '@' {
      if k < |x| { assert z[k] == x[k]; }
      else if k > |x| { assert z[k] == y[k - |x| - 1]; }
    }
  }

  lemma {:induction false} MatchesEmailShape(s: string)
    requires MatchesEmail(s)
    ensures EmailShape(s)
  {
    var i := IndexOf(s, '@');
    var d := s[i + 1..];
    var inner := d[1..|d| - 1];
    var k := IndexOf(inner, '.');
    var j := i + 2 + k;
    assert s[j] == inner[k];
    assert s[i + 1..j] == d[..k + 1];
    assert s[j + 1..] == d[k + 2..];
    PlainRunSlice(d, 0, k + 1);
    PlainRunSlice(d, k + 2, |d|);
    assert 0 < i && i + 1 < j && j + 1 < |s| && s[i] == '@' && s[j] == '.'
      && PlainRun(s[..i]) && PlainRun(s[i + 1..j]) && PlainRun(s[j + 1..]);
  }

  lemma ShapeMatchesEmailAt(s: string, i: int, j: int)
    requires 0 < i && i + 1 < j && j + 1 < |s| && s[i] == '@' && s[j] == '.'
    requires PlainRun(s[..i]) && PlainRun(s[i + 1..j]) && PlainRun(s[j + 1..])
    ensures MatchesEmail(s)
  {
    assert '@' !in s[..i];
    IndexOfAt(s, '@', i);
    var d := s[i + 1..];
    assert d == s[i + 1..j] + [s[j]] + s[j + 1..];
    PlainRunJoin(s[i + 1..j], s[j], s[j + 1..]);
    var inner := d[1..|d| - 1];
    assert inner[j - i - 2] == '.';
  }

  /** The scan decides exactly the regular expression's language. */
  lemma MatchesEmailIffShape(s: string)
    ensures MatchesEmail(s) <==> EmailShape(s)
  {
    if MatchesEmail(s) { MatchesEmailShape(s); }
    if EmailShape(s) {
      var i, j :| 0 < i && i + 1 < j && j + 1 < |s|
        && s[i] == '@' && s[j] == '.'
        && PlainRun(s[..i]) && PlainRun(s[i + 1..j]) && PlainRun(s[j + 1..]);
      ShapeMatchesEmailAt(s, i, j);
    }
  }

  /** `validateEmail`. */
  function ValidateEmail(email: string): (r: Option<string>)
    ensures email == "" ==> r == Some("Email is required")
    ensures email != "" ==> (r.None? <==> EmailShape(email))
    ensures email != "" && r.Some? ==> r == Some("Invalid email format")
  {
    MatchesEmailIffShape(email);
    if email == "" then Some("Email is required")
    else if !MatchesEmail(email) then Some("Invalid email format")
    else None
  }

  /**
   * `s` is lower-case letters apart from an '@' at `i` and a '.' at `j`,
   * each with a letter on both sides.
   */
  predicate LetterAddress(s: string, i: int, j: int)
  {
    0 < i && i + 1 < j && j + 1 < |s| && s[i] == '@' && s[j] == '.'
    && forall k :: 0 <= k < |s| && k != i && k != j ==> 'a' <= s[k] <= 'z'
  }

  lemma AcceptsLetterAddress(s: string, i: int, j: int)
    requires LetterAddress(s, i, j)
    ensures ValidateEmail(s) == None
  {
    var local, host, tld := s[..i], s[i + 1..j], s[j + 1..];
    assert forall k :: 0 <= k < |local| ==> local[k] == s[k];
    assert forall k :: 0 <= k < |host| ==> host[k] == s[i + 1 + k];
    assert forall k :: 0 <= k < |tld| ==> tld[k] == s[j + 1 + k];
    ShapeMatchesEmailAt(s, i, j);
  }

  /** An address the project's tests accept. */
  lemma AcceptsExampleAddress()
    ensures ValidateEmail("user@example.com") == None
  {
    AcceptsLetterAddress("user@example.com", 4, 12);
  }

  /** An address without a dot after the '@' is refused. */
  lemma RefusesAddressWithoutDot()
    ensures ValidateEmail("bad@domain") == Some("Invalid email format")
  {
    var bad := "bad@domain";
    assert forall k :: 0 <= k < |bad| ==> bad[k] != '.';
  }

  /** `validatePassword`. */
  function ValidatePassword(password: string): (r: Option<string>)
    ensures r.None? <==> |password| >= PasswordMinLength
    ensures password == "" ==> r == Some("Password is required")
    ensures password != "" && |password| < PasswordMinLength ==>
      r == Some("Password must be at least 6 characters")
  {
    if password == "" then Some("Password is required")
    else if |password| < PasswordMinLength then
      Some("Password must be at least 6 characters")
    else None
  }

  /** `validateName`; emptiness is tested on the raw string, length on the trimmed one. */
  function ValidateName(name: string): (r: Option<string>)
    ensures r.None? <==> name != "" && |Trim(name)| >= NameMinLength
    ensures name == "" ==> r == Some("Name is required")
    ensures name != "" && IsBlank(name) ==> r == Some("Name must be at least 2 characters")
  {
    TrimEmptyIffBlank(name);
    if name == "" then Some("Name is required")
    else if |Trim(name)| < NameMinLength then
      Some("Name must be at least 2 characters")
    else None
  }

  /** `validateProjectName`. */
  function ValidateProjectName(name: string): (r: Option<string>)
    ensures r.None? <==> name != "" && ProjectNameMinLength <= |Trim(name)| <= ProjectNameMaxLength
    ensures name == "" ==> r == Some("Project name is required")
    ensures name != "" && IsBlank(name) ==> r == Some("Project name must be at least 3 characters")
    ensures |Trim(name)| > ProjectNameMaxLength ==> r == Some("Project name must not exceed 100 characters")
  {
    TrimEmptyIffBlank(name);
    if name == "" then Some("Project name is required")
    else if |Trim(name)| < ProjectNameMinLength then
      Some("Project name must be at least 3 characters")
    else if |Trim(name)| > ProjectNameMaxLength then
      Some("Project name must not exceed 100 characters")
    else None
  }

  /** `validateTaskTitle`. */
  function ValidateTaskTitle(title: string): (r: Option<string>)
    ensures r.None? <==> title != "" && TaskTitleMinLength <= |Trim(title)| <= TaskTitleMaxLength
    ensures title == "" ==> r == Some("Task title is required")
    ensures title != "" && IsBlank(title) ==> r == Some("Task title must be at least 3 characters")
    ensures |Trim(title)| > TaskTitleMaxLength ==> r == Some("Task title must not exceed 200 characters")
  {
    TrimEmptyIffBlank(title);
    if title == "" then Some("Task title is required")
    else if |Trim(title)| < TaskTitleMinLength then
      Some("Task title must be at least 3 characters")
    else if |Trim(title)| > TaskTitleMaxLength then
      Some("Task title must not exceed 200 characters")
    else None
  }

  /**
   * For text without surrounding blanks the accepted lengths are exactly the
   * configured ranges, 3..100 for project names and 3..200 for task titles;
   * both ranges are non-empty.
   */
  lemma TrimmedLengthRanges(s: string)
    requires s != [] && !IsSpace(s[0]) && !IsSpace(s[|s| - 1])
    ensures ValidateProjectName(s).None? <==> 3 <= |s| <= 100
    ensures ValidateTaskTitle(s).None? <==> 3 <= |s| <= 200
    ensures ProjectNameMinLength < ProjectNameMaxLength && TaskTitleMinLength < TaskTitleMaxLength
  {
    TrimOfTrimmed(s);
  }

  /** `validateRequired`: only `null`, `undefined` and '' are rejected. */
  function ValidateRequired(value: Json.Value, fieldName: string): (r: Option<string>)
    ensures r.Some? <==> value == Json.Null || value == Json.Undef || value == Json.Str("")
    ensures r.Some? ==> r.value == fieldName + " is required"
  {
    if value.Null? || value.Undef? || value == Json.Str("") then Some(fieldName + " is required") else None
  }

  /** `0` and `false` are falsy but still pass. */
  lemma RequiredAcceptsFalsy(fieldName: string)
    ensures ValidateRequired(Json.Num(0), fieldName) == None
    ensures ValidateRequired(Json.Bool(false), fieldName) == None
  {
  }
}
