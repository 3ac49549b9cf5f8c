/**
 * The JavaScript string operations the application relies on, over Dafny
 * strings (sequences of Unicode scalar values). Case mapping is ASCII-only.
 */
module Text {
  import opened Wrappers
  import opened Seqs

  /** The characters of `\s` in a regular expression and of `String.prototype.trim`. */
  predicate IsSpace(c: char)
  {
    c == ' ' || c == '\t' || c == '\n' || c == '\U{000B}' || c == '\U{000C}' || c == '\r'
    || c == '\U{00A0}' || c == '\U{1680}' || ('\U{2000}' <= c <= '\U{200A}')
    || c == '\U{2028}' || c == '\U{2029}' || c == '\U{202F}' || c == '\U{205F}'
    || c == '\U{3000}' || c == '\U{FEFF}'
  }

  /** Every character of `s` is white space (the string is empty after trimming). */
  predicate IsBlank(s: string)
  {
    forall i :: 0 <= i < |s| ==> IsSpace(s[i])
  }

  function TrimStart(s: string): (r: string)
    ensures |r| <= |s| && r == s[|s| - |r|..]
    ensures r == [] || !IsSpace(r[0])
    ensures IsBlank(s[..|s| - |r|])
  {
    if s != [] && IsSpace(s[0]) then
      var t := TrimStart(s[1..]);
      TrimStep(s, t);
      t
    else s
  }

  /** One leading space more keeps `TrimStart`'s three facts. */
  lemma TrimStep(s: string, t: string)
    requires s != [] && IsSpace(s[0]) && |t| <= |s| - 1
    requires t == s[1..][|s| - 1 - |t|..] && IsBlank(s[1..][..|s| - 1 - |t|])
    ensures t == s[|s| - |t|..] && IsBlank(s[..|s| - |t|])
  {
    var k := |s| - |t|;
    forall i | 0 <= i < k
      ensures IsSpace(s[i])
    {
      if i > 0 {
        assert s[i] == s[1..][..k - 1][i - 1];
      }
    }
  }

  function TrimEnd(s: string): (r: string)
    ensures |r| <= |s| && r == s[..|r|]
    ensures r == [] || !IsSpace(r[|r| - 1])
    ensures IsBlank(s[|r|..])
  {
    if s != [] && IsSpace(s[|s| - 1]) then
      var t := TrimEnd(s[..|s| - 1]);
      TrimEndStep(s, t);
      t
    else s
  }

  /** One trailing space more keeps `TrimEnd`'s three facts. */
  lemma TrimEndStep(s: string, t: string)
    requires s != [] && IsSpace(s[|s| - 1]) && |t| <= |s| - 1
    requires t == s[..|s| - 1][..|t|] && IsBlank(s[..|s| - 1][|t|..])
    ensures t == s[..|t|] && IsBlank(s[|t|..])
  {
    forall i | |t| <= i < |s|
      ensures IsSpace(s[i])
    {
      if i < |s| - 1 {
        assert s[i] == s[..|s| - 1][|t|..][i - |t|];
      }
    }
  }

  /** `s.trim()`: `s` without its leading and trailing white space. */
  function Trim(s: string): (r: string)
  {
    TrimEnd(TrimStart(s))
  }

  lemma TrimStartEmptyIffBlank(s: string)
    ensures TrimStart(s) == [] <==> IsBlank(s)
  {
    var r := TrimStart(s);
    assert s[..|s| - |r|] == s ==> r == [];
  }

  lemma TrimEndKeepsHead(t: string)
    requires t != [] && !IsSpace(t[0])
    ensures TrimEnd(t) != []
  {
  }

  /** The trimmed string is empty exactly when the string is blank. */
  lemma TrimEmptyIffBlank(s: string)
    ensures Trim(s) == [] <==> IsBlank(s)
  {
    TrimStartEmptyIffBlank(s);
    if TrimStart(s) != [] {
      TrimEndKeepsHead(TrimStart(s));
    }
  }

  lemma TrimOfTrimmed(s: string)
    requires s == [] || (!IsSpace(s[0]) && !IsSpace(s[|s| - 1]))
    ensures Trim(s) == s
  {
  }

  function Lower(c: char): char
  {
    if 'A' <= c <= 'Z' then (c as int + 32) as char else c
  }

  function Upper(c: char): char
  {
    if 'a' <= c <= 'z' then (c as int - 32) as char else c
  }

  /** `s.toLowerCase()`, ASCII letters only. */
  function ToLower(s: string): (r: string)
    ensures |r| == |s| && forall i :: 0 <= i < |s| ==> r[i] == Lower(s[i])
  {
    seq(|s|, i requires 0 <= i < |s| => Lower(s[i]))
  }

  /** `s.toUpperCase()`, ASCII letters only. */
  function ToUpper(s: string): (r: string)
    ensures |r| == |s| && forall i :: 0 <= i < |s| ==> r[i] == Upper(s[i])
  {
    seq(|s|, i requires 0 <= i < |s| => Upper(s[i]))
  }

  lemma ToLowerSlice(s: string, i: int, j: int)
    requires 0 <= i <= j <= |s|
    ensures ToLower(s[i..j]) == ToLower(s)[i..j]
  {
  }

  /** `t` occurs in `s` at position `i`. */
  predicate OccursAt(s: string, t: string, i: int)
  {
    0 <= i && i + |t| <= |s| && s[i..i + |t|] == t
  }

  /** `s.includes(t)`. */
  ghost predicate Contains(s: string, t: string)
  {
    exists i :: OccursAt(s, t, i)
  }

  /** Scanning implementation of `s.includes(t)`, agreeing with `Contains`. */
  function IncludesFrom(s: string, t: string, i: nat): (b: bool)
    requires i <= |s|
    ensures b <==> exists k :: i <= k && OccursAt(s, t, k)
    decreases |s| - i
  {
    if i + |t| > |s| then false
    else if s[i..i + |t|] == t then assert OccursAt(s, t, i); true
    else IncludesFrom(s, t, i + 1)
  }

  function Includes(s: string, t: string): (b: bool)
    ensures b == Contains(s, t)
  {
    IncludesFrom(s, t, 0)
  }

  lemma ContainsEmpty(s: string)
    ensures Contains(s, "")
  {
    assert OccursAt(s, "", 0);
  }

  /** A string lacking one of the characters of `t` does not contain `t`. */
  lemma MissingCharNotContained(s: string, t: string, c: char)
    requires c in t && c !in s
    ensures !Contains(s, t)
  {
  }

  /** Being contained is transitive. */
  lemma ContainsTrans(a: string, b: string, c: string)
    requires Contains(a, b) && Contains(b, c)
    ensures Contains(a, c)
  {
    var i :| OccursAt(a, b, i);
    var j :| OccursAt(b, c, j);
    forall k | 0 <= k < |c| ensures a[i + j + k] == c[k] {
      assert b[j + k] == c[k];
      assert a[i + (j + k)] == b[j + k];
    }
    assert a[i + j..i + j + |c|] == c;
    assert OccursAt(a, c, i + j);
  }

  /** Lower-casing preserves containment. */
  lemma ContainsLower(a: string, b: string)
    requires Contains(a, b)
    ensures Contains(ToLower(a), ToLower(b))
  {
    var i :| OccursAt(a, b, i);
    ToLowerSlice(a, i, i + |b|);
    assert OccursAt(ToLower(a), ToLower(b), i);
  }

  /** Index of the first `c` in `s`. */
  function IndexOf(s: string, c: char): (i: nat)
    requires c in s
    ensures i < |s| && s[i] == c && c !in s[..i]
  {
    if s[0] == c then 0 else 1 + IndexOf(s[1..], c)
  }

  lemma {:induction false} IndexOfAt(s: string, c: char, j: int)
    requires 0 <= j < |s| && s[j] == c && c !in s[..j]
    ensures IndexOf(s, c) == j
  {
    if j > 0 {
      assert s[..j][0] == s[0];
      assert s[1..][..j - 1] == s[..j][1..];
      IndexOfAt(s[1..], c, j - 1);
    }
  }

  /** `s.split(sep)` for a one-character separator. */
  function Split(s: string, sep: char): (parts: seq<string>)
    ensures |parts| >= 1
    ensures forall k :: 0 <= k < |parts| ==> sep !in parts[k]
    decreases |s|
  {
    if sep in s then
      var i := IndexOf(s, sep);
      [s[..i]] + Split(s[i + 1..], sep)
    else [s]
  }

  /** `parts.join(sep)`. */
  function Join(sep: string, parts: seq<string>): string
  {
    if |parts| == 0 then ""
    else if |parts| == 1 then parts[0]
    else parts[0] + sep + Join(sep, parts[1..])
  }

  /** Joining the pieces of a split gives back the string. */
  lemma {:induction false} JoinSplit(s: string, sep: char)
    ensures Join([sep], Split(s, sep)) == s
    decreases |s|
  {
    if sep in s {
      var i := IndexOf(s, sep);
      var parts := Split(s, sep);
      var tail := Split(s[i + 1..], sep);
      assert parts == [s[..i]] + tail;
      assert |parts| > 1 && parts[0] == s[..i] && parts[1..] == tail;
      assert Join([sep], parts) == s[..i] + [sep] + Join([sep], tail);
      JoinSplit(s[i + 1..], sep);
      assert s == s[..i] + [sep] + s[i + 1..];
    }
  }

  /** Splitting a join of separator-free pieces gives back the pieces. */
  lemma {:induction false} SplitJoin(parts: seq<string>, sep: char)
    requires |parts| >= 1
    requires forall k :: 0 <= k < |parts| ==> sep !in parts[k]
    ensures Split(Join([sep], parts), sep) == parts
  {
    if |parts| > 1 {
      var s := Join([sep], parts);
      JoinHead(parts, sep);
      IndexOfAt(s, sep, |parts[0]|);
      SplitJoin(parts[1..], sep);
    }
  }

  /** A join of several pieces is the first piece, the separator, then the join of the rest. */
  lemma JoinHead(parts: seq<string>, sep: char)
    requires |parts| > 1
    ensures var s := Join([sep], parts);
      && |parts[0]| < |s| && s[|parts[0]|] == sep && s[..|parts[0]|] == parts[0]
      && s[|parts[0]| + 1..] == Join([sep], parts[1..])
  {
    var s := Join([sep], parts);
    assert s == parts[0] + [sep] + Join([sep], parts[1..]);
  }

  /** `s.replace(a, b)` with a string pattern: only the first `a` is replaced. */
  function ReplaceFirst(s: string, a: char, b: char): (r: string)
    ensures |r| == |s|
    ensures a !in s ==> r == s
    ensures a in s ==> var i := IndexOf(s, a); r == s[..i] + [b] + s[i + 1..]
  {
    if a in s then var i := IndexOf(s, a); s[..i] + [b] + s[i + 1..] else s
  }

  /** `s.replace(/a/g, b)`: every `a` is replaced. */
  function ReplaceAll(s: string, a: char, b: char): (r: string)
    ensures |r| == |s|
    ensures forall i :: 0 <= i < |s| ==> r[i] == if s[i] == a then b else s[i]
  {
    seq(|s|, i requires 0 <= i < |s| => if s[i] == a then b else s[i])
  }

  // ---- title case ---------------------------------------------------------

  /** `w.charAt(0).toUpperCase() + w.slice(1)`. */
  function Capitalize(w: string): (r: string)
    ensures |r| == |w|
  {
    if w == "" then "" else [Upper(w[0])] + w[1..]
  }

  /**
   * Title case by position: every `sep` becomes a space, and a character
   * at the start or just after a `sep` is upper-cased.
   */
  function TitleCaseAt(s: string, sep: char): (r: string)
    ensures |r| == |s|
  {
    seq(|s|, k requires 0 <= k < |s| =>
      if s[k] == sep then ' ' else if k == 0 || s[k - 1] == sep then Upper(s[k]) else s[k])
  }

  /** `s.split(sep).map(Capitalize).join(" ")`. */
  function TitleWords(s: string, sep: char): string
  {
    Join(" ", Map(Split(s, sep), Capitalize))
  }

  /** The split/capitalise/join pipeline is title case by position. */
  lemma {:induction false} TitleWordsAt(s: string, sep: char)
    ensures TitleWords(s, sep) == TitleCaseAt(s, sep)
    decreases |s|
  {
    if sep in s {
      var i := IndexOf(s, sep);
      TitleWordsAt(s[i + 1..], sep);
      TitleWordsCons(s, sep);
      TitleCaseCons(s, sep, i);
    } else {
      TitleOneWord(s, sep);
    }
  }

  /** The first word, capitalised, a space, then the rest in title case. */
  lemma TitleWordsCons(s: string, sep: char)
    requires sep in s
    ensures var i := IndexOf(s, sep);
      TitleWords(s, sep) == Capitalize(s[..i]) + " " + TitleWords(s[i + 1..], sep)
  {
    var i := IndexOf(s, sep);
    var rest := s[i + 1..];
    var parts := Split(s, sep);
    assert parts == [s[..i]] + Split(rest, sep);
    var caps := Map(parts, Capitalize);
    assert caps == [Capitalize(s[..i])] + Map(Split(rest, sep), Capitalize);
    assert caps[1..] == Map(Split(rest, sep), Capitalize);
  }

  lemma TitleOneWord(s: string, sep: char)
    requires sep !in s
    ensures TitleWords(s, sep) == TitleCaseAt(s, sep)
  {
    forall k | 0 <= k < |s| ensures TitleWords(s, sep)[k] == TitleCaseAt(s, sep)[k] {
      assert s[k] != sep;
      if k > 0 { assert s[k - 1] != sep; }
    }
  }

  /** Title case of a word, a space, then title case of the rest is title case of the whole. */
  lemma TitleCaseCons(s: string, sep: char, i: int)
    requires 0 <= i < |s| && s[i] == sep && sep !in s[..i]
    ensures Capitalize(s[..i]) + " " + TitleCaseAt(s[i + 1..], sep) == TitleCaseAt(s, sep)
  {
    var rest := s[i + 1..];
    var l := Capitalize(s[..i]) + " " + TitleCaseAt(rest, sep);
    forall k | 0 <= k < |s| ensures l[k] == TitleCaseAt(s, sep)[k] {
      if k < i {
        assert s[..i][k] == s[k];
        if k > 0 { assert s[..i][k - 1] == s[k - 1]; }
      } else if k > i {
        assert l[k] == TitleCaseAt(rest, sep)[k - i - 1];
        assert rest[k - i - 1] == s[k];
        if k > i + 1 { assert rest[k - i - 2] == s[k - 1]; }
      }
    }
  }

  // ---- numbers ------------------------------------------------------------

  predicate IsDigit(c: char)
  {
    '0' <= c <= '9'
  }

  predicate AllDigits(s: string)
  {
    forall i :: 0 <= i < |s| ==> IsDigit(s[i])
  }

  function DigitChar(d: nat): (c: char)
    requires d < 10
    ensures IsDigit(c)
  {
    ('0' as int + d) as char
  }

  function DigitValue(c: char): (d: nat)
    requires IsDigit(c)
    ensures d < 10
  {
    c as int - '0' as int
  }

  /** Decimal digits of `n` without leading zeros, as `String(n)` writes them. */
  function NatToString(n: nat): (s: string)
    ensures |s| >= 1 && AllDigits(s)
  {
    if n < 10 then [DigitChar(n)] else NatToString(n / 10) + [DigitChar(n % 10)]
  }

  /** `String(n)` for an integer `n`. */
  function IntToString(n: int): (s: string)
    ensures |s| >= 1
    ensures forall i :: 0 <= i < |s| ==> IsDigit(s[i]) || (i == 0 && s[i] == '-')
  {
    if n < 0 then "-" + NatToString(-n) else NatToString(n)
  }

  /** The value of a string of decimal digits. */
  function ParseDigits(s: string): nat
    requires AllDigits(s)
  {
    if s == [] then 0 else ParseDigits(s[..|s| - 1]) * 10 + DigitValue(s[|s| - 1])
  }

  lemma {:induction false} ParseNatToString(n: nat)
    ensures ParseDigits(NatToString(n)) == n
  {
    if n >= 10 {
      ParseNatToString(n / 10);
      var s := NatToString(n);
      assert s[..|s| - 1] == NatToString(n / 10);
    }
  }

  /** Reading digits splits at any point: the head's value shifted by the tail's length, plus the tail's. */
  lemma {:induction false} ParseAppend(a: string, b: string)
    requires AllDigits(a) && AllDigits(b)
    ensures AllDigits(a + b)
    ensures ParseDigits(a + b) == ParseDigits(a) * Pow10(|b|) + ParseDigits(b)
  {
    if b != [] {
      var b' := b[..|b| - 1];
      assert (a + b)[..|a + b| - 1] == a + b';
      ParseAppend(a, b');
      assert ParseDigits(a + b) == ParseDigits(a + b') * 10 + DigitValue(b[|b| - 1]);
      assert ParseDigits(b) == ParseDigits(b') * 10 + DigitValue(b[|b| - 1]);
      ShiftDigit(ParseDigits(a), Pow10(|b'|), ParseDigits(b'), DigitValue(b[|b| - 1]));
    } else {
      assert a + b == a;
    }
  }

  lemma ShiftDigit(x: int, p: int, y: int, digit: int)
    ensures (x * p + y) * 10 + digit == x * (10 * p) + (y * 10 + digit)
  {
  }

  /** A run of zeros reads as 0. */
  lemma {:induction false} ParseZeros(k: nat)
    ensures AllDigits(seq(k, _ => '0')) && ParseDigits(seq(k, _ => '0')) == 0
  {
    if k > 0 {
      assert seq(k, _ => '0')[..k - 1] == seq(k - 1, _ => '0');
      ParseZeros(k - 1);
    }
  }

  /** `10^d`. */
  function Pow10(d: nat): (p: nat)
    ensures p >= 1
  {
    if d == 0 then 1 else 10 * Pow10(d - 1)
  }

  /** A number below `10^d` (`d >= 1`) has at most `d` digits. */
  lemma {:induction false} NatToStringLength(n: nat, d: nat)
    requires 1 <= d && n < Pow10(d)
    ensures |NatToString(n)| <= d
  {
    if n >= 10 {
      assert d >= 2;
      NatToStringLength(n / 10, d - 1);
    }
  }

  /** Length of the longest prefix of decimal digits. */
  function DigitCount(s: string): (k: nat)
    ensures k <= |s| && (forall i :: 0 <= i < k ==> IsDigit(s[i]))
    ensures k == |s| || !IsDigit(s[k])
  {
    if s != [] && IsDigit(s[0]) then 1 + DigitCount(s[1..]) else 0
  }

  /** Longest prefix of decimal digits. */
  function DigitPrefix(s: string): (r: string)
    ensures |r| <= |s| && r == s[..|r|] && AllDigits(r)
    ensures |r| == |s| || !IsDigit(s[|r|])
  {
    s[..DigitCount(s)]
  }

  lemma {:induction false} DigitCountAll(s: string)
    requires AllDigits(s)
    ensures DigitCount(s) == |s|
  {
    if s != [] {
      DigitCountAll(s[1..]);
    }
  }

  lemma DigitPrefixAll(s: string)
    requires AllDigits(s)
    ensures DigitPrefix(s) == s
  {
    DigitCountAll(s);
  }

  /**
   * `parseInt(s, 10)`: leading white space is skipped, an optional sign is
   * read, then the longest run of digits; `None` stands for `NaN`.
   */
  function JsParseInt(s: string): (r: Option<int>)
  {
    ParseSignedPrefix(TrimStart(s))
  }

  /** An optional sign, then the longest run of digits of `t`. */
  function ParseSignedPrefix(t: string): (r: Option<int>)
  {
    if t != [] && t[0] == '-' then Negated(ParseDigitPrefix(t[1..]))
    else if t != [] && t[0] == '+' then ParseDigitPrefix(t[1..])
    else ParseDigitPrefix(t)
  }

  function Negated(v: Option<nat>): (r: Option<int>)
  {
    if v.None? then None else Some(-(v.value as int))
  }

  /** The value of the longest run of digits at the start of `u`; `None` when there is none. */
  function ParseDigitPrefix(u: string): (r: Option<nat>)
  {
    var d := DigitPrefix(u);
    if d == [] then None else Some(ParseDigits(d))
  }

  lemma ParseNatString(n: nat)
    ensures JsParseInt(NatToString(n)) == Some(n)
  {
    var s := NatToString(n);
    StartsUntrimmed(s);
    PlainDigits(s);
    ParseNatToString(n);
  }

  lemma MinusDigits(d: string)
    requires d != [] && AllDigits(d)
    ensures ParseSignedPrefix("-" + d) == Some(-(ParseDigits(d) as int))
  {
    var t := "-" + d;
    assert t[0] == '-' && t[1..] == d;
    DigitPrefixAll(d);
    assert ParseDigitPrefix(d) == Some(ParseDigits(d));
    assert ParseDigitPrefix(t[1..]) == Some(ParseDigits(d));
  }

  lemma PlainDigits(d: string)
    requires d != [] && AllDigits(d)
    ensures ParseSignedPrefix(d) == Some(ParseDigits(d))
  {
    DigitPrefixAll(d);
  }

  /** No white space to skip: `parseInt` reads the sign and digits from the start. */
  lemma StartsUntrimmed(s: string)
    requires s != [] && (s[0] == '-' || s[0] == '+' || IsDigit(s[0]))
    ensures TrimStart(s) == s && JsParseInt(s) == ParseSignedPrefix(s)
  {
    assert !IsSpace(s[0]);
    assert TrimStart(s) == s;
  }

  /** A string that starts with neither white space, a sign nor a digit is `NaN`. */
  lemma ParseIntNoNumber(s: string)
    requires s != [] && !IsSpace(s[0]) && s[0] != '-' && s[0] != '+' && !IsDigit(s[0])
    ensures JsParseInt(s) == None
  {
    assert TrimStart(s) == s;
    assert DigitCount(s) == 0;
  }

  /** `parseInt` reads the digits before the first letter: `parseInt('12abc') == 12`. */
  lemma ParseIntStopsAtLetters()
    ensures JsParseInt("12abc") == Some(12)
  {
    StartsUntrimmed("12abc");
    assert DigitCount("12abc") == 2 by {
      assert DigitCount("abc") == 0;
      assert "12abc"[1..] == "2abc" && "2abc"[1..] == "abc";
    }
    assert "12abc"[..2] == "12";
    assert ParseDigits("12") == 12 by { assert "12"[..1] == "1"; }
    assert ParseDigitPrefix("12abc") == Some(12);
  }

  /** `parseInt(String(n), 10) == n`. */
  lemma ParseIntToString(n: int)
    ensures JsParseInt(IntToString(n)) == Some(n)
  {
    if n < 0 { ParseNegativeString(n); } else { ParseNatString(n); }
  }

  lemma ParseNegativeString(n: int)
    requires n < 0
    ensures JsParseInt(IntToString(n)) == Some(n)
  {
    var m: nat := -n;
    NegativeString(n);
    StartsUntrimmed(IntToString(n));
    ParseNatToString(m);
    MinusDigits(NatToString(m));
  }

  lemma NegativeString(n: int)
    requires n < 0
    ensures IntToString(n) == "-" + NatToString(-n)
  {
  }

  /** Distinct numbers have distinct decimal strings. */
  lemma IntToStringInjective(a: int, b: int)
    ensures IntToString(a) == IntToString(b) <==> a == b
  {
    if IntToString(a) == IntToString(b) {
      ParseIntToString(a);
      ParseIntToString(b);
    }
  }
}
