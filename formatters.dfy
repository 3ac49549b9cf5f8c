/** Display formatters for percentages, long text, initials and avatar colours. */
module Formatters {
  import opened Wrappers
  import opened Text

  /** `formatPercentage` on an integer: `Math.round(n)` is `n` itself. */
  function FormatPercentage(n: int): (r: string)
    ensures |r| >= 2 && r[|r| - 1] == '%'
  {
    IntToString(n) + "%"
  }

  /** Reading the percentage back with `parseInt` gives the number. */
  lemma PercentageParsesBack(n: int)
    ensures JsParseInt(FormatPercentage(n)) == Some(n)
  {
    if n < 0 { NegativePercentage(n); } else { NaturalPercentage(n); }
  }

  lemma NaturalPercentage(n: int)
    requires n >= 0
    ensures JsParseInt(FormatPercentage(n)) == Some(n)
  {
    var d := NatToString(n);
    var r := FormatPercentage(n);
    assert r == d + "%";
    assert r[0] == d[0] && IsDigit(d[0]);
    StartsUntrimmed(r);
    DigitPrefixStops(d, "%");
    ParseNatToString(n);
  }

  lemma NegativePercentage(n: int)
    requires n < 0
    ensures JsParseInt(FormatPercentage(n)) == Some(n)
  {
    var d := NatToString(-n);
    ParseNatToString(-n);
    assert FormatPercentage(n) == "-" + d + "%";
    NegativeDigitsParse(FormatPercentage(n), d, "%", -n);
  }

  /** `parseInt` of a minus sign, digits and a non-digit tail is the negated digits. */
  lemma NegativeDigitsParse(r: string, d: string, rest: string, m: nat)
    requires d != [] && AllDigits(d) && (rest == [] || !IsDigit(rest[0]))
    requires r == "-" + d + rest && ParseDigits(d) == m
    ensures JsParseInt(r) == Some(-(m as int))
  {
    MinusThen(r, d, rest);
    SignedParse(r, d, rest);
  }

  lemma MinusThen(r: string, d: string, rest: string)
    requires r == "-" + d + rest
    ensures |r| > 0 && r[0] == '-' && r[1..] == d + rest
  {
  }

  lemma SignedParse(r: string, d: string, rest: string)
    requires |r| > 0 && r[0] == '-' && r[1..] == d + rest
    requires d != [] && AllDigits(d) && (rest == [] || !IsDigit(rest[0]))
    ensures JsParseInt(r) == Some(-(ParseDigits(d) as int))
  {
    DigitPrefixStops(d, rest);
    StartsUntrimmed(r);
  }

  lemma {:induction false} DigitPrefixStops(d: string, rest: string)
    requires AllDigits(d) && (rest == [] || !IsDigit(rest[0]))
    ensures DigitPrefix(d + rest) == d
  {
    if d != [] {
      assert (d + rest)[1..] == d[1..] + rest;
      DigitPrefixStops(d[1..], rest);
    } else {
      assert d + rest == rest;
    }
  }

  /** `s.slice(0, end)`: a negative end counts from the end of the string. */
  function SliceTo(s: string, end: int): (r: string)
    ensures end >= 0 ==> r == s[..if end < |s| then end else |s|]
    ensures end < 0 ==> r == s[..if |s| + end > 0 then |s| + end else 0]
  {
    var e := if end < 0 then |s| + end else end;
    if e <= 0 then [] else if e >= |s| then s else s[..e]
  }

  /** `truncateText`. */
  function TruncateText(text: string, maxLength: int): (r: string)
    ensures |text| <= maxLength ==> r == text
    ensures 0 <= maxLength < |text| ==> r == text[..maxLength] + "..." && |r| == maxLength + 3
    ensures maxLength < 0 ==> r == SliceTo(text, maxLength) + "..."
  {
    if |text| <= maxLength then text else SliceTo(text, maxLength) + "..."
  }

  lemma TruncateExample()
    ensures TruncateText("longer than five", 5) == "longe..."
  {
    assert "longer than five"[..5] == "longe";
  }

  /** `str[0]` used in a string concatenation: an empty string contributes "undefined". */
  function FirstChar(s: string): string
  {
    if s == [] then "undefined" else [s[0]]
  }

  /** `s.substring(0, 2)`. */
  function FirstTwo(s: string): (r: string)
    ensures r == s[..if |s| < 2 then |s| else 2]
  {
    if |s| < 2 then s else s[..2]
  }

  /** `getInitials`. */
  function GetInitials(name: string): string
  {
    PartsInitials(Split(Trim(name), ' '))
  }

  /** The initials of the words `name.trim().split(' ')` gave. */
  function PartsInitials(parts: seq<string>): string
    requires |parts| >= 1
  {
    if |parts| == 1 then ToUpper(FirstTwo(parts[0]))
    else ToUpper(FirstChar(parts[0]) + FirstChar(parts[|parts| - 1]))
  }

  function Last<T>(s: seq<T>): T
    requires |s| > 0
  {
    s[|s| - 1]
  }

  /** A name without a space has the first two characters as initials. */
  lemma InitialsOneWord(name: string)
    requires ' ' !in Trim(name)
    ensures GetInitials(name) == ToUpper(FirstTwo(Trim(name)))
  {
  }

  /**
   * With several words the first and last words are non-empty, because the
   * trimmed name neither starts nor ends with a space: the initials are the
   * first letters of those words, never "undefined".
   */
  lemma {:induction false} InitialsSeveralWords(name: string)
    requires ' ' in Trim(name)
    ensures var parts := Split(Trim(name), ' ');
      |parts| >= 2 && parts[0] != [] && Last(parts) != []
      && GetInitials(name) == [Upper(parts[0][0]), Upper(Last(parts)[0])]
  {
    var t := Trim(name);
    TrimEnds(name);
    SplitEnds(t, ' ');
    InitialsOfWords(Split(t, ' '));
  }

  lemma InitialsOfWords(parts: seq<string>)
    requires |parts| >= 2 && parts[0] != [] && Last(parts) != []
    ensures PartsInitials(parts) == [Upper(parts[0][0]), Upper(Last(parts)[0])]
  {
    assert FirstChar(parts[0]) + FirstChar(Last(parts)) == [parts[0][0], Last(parts)[0]];
  }

  lemma TrimEnds(s: string)
    ensures Trim(s) == [] || (!IsSpace(Trim(s)[0]) && !IsSpace(Trim(s)[|Trim(s)| - 1]))
  {
    var t := TrimStart(s);
    var r := TrimEnd(t);
    assert r != [] ==> r[0] == t[0];
  }

  /** Splitting keeps the first and last characters in the first and last parts. */
  lemma {:induction false} SplitEnds(s: string, sep: char)
    requires s != [] && sep in s && s[0] != sep && Last(s) != sep
    ensures |Split(s, sep)| >= 2
    ensures Split(s, sep)[0] != [] && Split(s, sep)[0][0] == s[0]
    ensures Last(Split(s, sep)) != [] && Last(Last(Split(s, sep))) == Last(s)
  {
    var i := IndexOf(s, sep);
    assert 0 < i < |s| - 1;
    var rest := s[i + 1..];
    var tail := Split(rest, sep);
    assert Split(s, sep) == [s[..i]] + tail;
    assert Last(Split(s, sep)) == Last(tail);
    assert rest != [] && Last(rest) == Last(s);
    SplitLast(rest, sep);
  }

  lemma {:induction false} SplitLast(s: string, sep: char)
    requires s != [] && Last(s) != sep
    ensures Last(Split(s, sep)) != [] && Last(Last(Split(s, sep))) == Last(s)
    decreases |s|
  {
    if sep in s {
      var i := IndexOf(s, sep);
      assert i < |s| - 1;
      var rest := s[i + 1..];
      var tail := Split(rest, sep);
      assert Split(s, sep) == [s[..i]] + tail;
      assert Last(Split(s, sep)) == Last(tail);
      assert rest != [] && Last(rest) == Last(s);
      SplitLast(rest, sep);
    } else {
      assert Split(s, sep) == [s];
    }
  }

  /** The two-word case of the project's tests. */
  lemma InitialsOfFullName()
    ensures GetInitials("Jane Doe") == "JD"
  {
    TrimJaneDoe();
    SplitJaneDoe();
    assert FirstChar("Jane") == "J" && FirstChar("Doe") == "D";
  }

  lemma TrimJaneDoe()
    ensures Trim("Jane Doe") == "Jane Doe"
  {
    var t := "Jane Doe";
    assert !IsSpace(t[0]) && !IsSpace(t[7]);
    assert TrimStart(t) == t;
    assert TrimEnd(t) == t;
  }

  lemma SplitJaneDoe()
    ensures Split("Jane Doe", ' ') == ["Jane", "Doe"]
  {
    var t := "Jane Doe";
    assert t[4] == ' ' && t[..4] == "Jane" && t[5..] == "Doe";
    IndexOfAt(t, ' ', 4);
    assert ' ' !in "Doe";
    assert Split(t, ' ') == ["Jane"] + Split("Doe", ' ');
  }

  /** The one-word case of the project's tests. */
  lemma InitialsOfSingleName()
    ensures GetInitials("Madonna") == "MA"
  {
    var t := "Madonna";
    assert !IsSpace(t[0]) && !IsSpace(t[6]);
    assert TrimStart(t) == t;
    assert TrimEnd(t) == t;
    assert ' ' !in t;
    assert t[..2] == "Ma";
  }

  const AvatarColors: seq<string> := [
    "#1976d2", "#2e7d32", "#d32f2f", "#f57c00", "#7b1fa2", "#0097a7", "#c2185b", "#5d4037"]

  /** JavaScript's `%`, whose result takes the sign of the dividend. */
  function JsRem(a: int, b: int): (r: int)
    requires b > 0
    ensures a >= 0 ==> r == a % b
    ensures a < 0 ==> -b < r <= 0 && r == -((-a) % b)
  {
    if a >= 0 then a % b else -((-a) % b)
  }

  /** `getAvatarColor`; `None` is the `undefined` a negative index gives. */
  function GetAvatarColor(id: int): (r: Option<string>)
    ensures id >= 0 ==> r == Some(AvatarColors[id % 8])
    ensures id < 0 ==> (r.Some? <==> id % 8 == 0)
  {
    var k := JsRem(id, 8);
    assert id < 0 ==> ((-id) % 8 == 0 <==> id % 8 == 0);
    if k >= 0 then Some(AvatarColors[k]) else None
  }

  /** The colour repeats with period 8 on non-negative ids. */
  lemma AvatarColorPeriodic(id: nat)
    ensures GetAvatarColor(id + 8) == GetAvatarColor(id)
    ensures GetAvatarColor(id).Some?
  {
  }

  /**
   * Id 3 gets the fourth colour, and so does id 11 (11 % 8 == 3): the
   * colour '#c2185b' belongs to ids 6, 14, ...
   */
  lemma AvatarColorExamples()
    ensures GetAvatarColor(3) == Some("#f57c00")
    ensures GetAvatarColor(11) == Some("#f57c00") && GetAvatarColor(11) != Some("#c2185b")
    ensures GetAvatarColor(6) == Some("#c2185b")
  {
  }

  /** `NatToString(n)` left-padded with zeros to `width` characters. */
  function PadDigits(n: nat, width: nat): (r: string)
    ensures |r| >= width && AllDigits(r)
  {
    var s := NatToString(n);
    if |s| >= width then s else seq(width - |s|, _ => '0') + s
  }

  /** `m / den` rounded half up to a whole number. */
  function RoundHalfUp(m: nat, den: int): (q: nat)
    requires den > 0
  {
    (2 * m + den) / (2 * den)
  }

  /** The digits of `m / den` rounded half up at `d` decimals. */
  function FixedDigits(m: nat, den: int, d: nat): (r: string)
    requires den > 0
    ensures r != "" && IsDigit(r[0])
  {
    var p := Pow10(d);
    var scaled := RoundHalfUp(Product(m, p), den);
    var whole := NatToString(Quotient(scaled, p));
    var frac := if d == 0 then "" else "." + PadDigits(Remainder(scaled, p), d);
    assert (whole + frac)[0] == whole[0];
    whole + frac
  }

  function Product(a: nat, b: nat): nat
  {
    a * b
  }

  function Quotient(a: nat, b: nat): nat
    requires b > 0
  {
    a / b
  }

  function Remainder(a: nat, b: nat): nat
    requires b > 0
  {
    a % b
  }

  /**
   * `(num / den).toFixed(d)` computed exactly on the rational value: the
   * magnitude is rounded half up at `d` decimals and a negative value keeps
   * its '-' sign even when it rounds to zero.
   */
  function ToFixed(num: int, den: int, d: nat): (r: string)
    requires den > 0
    ensures r != "" && (r[0] == '-' <==> num < 0)
  {
    var digits := FixedDigits(Magnitude(num), den, d);
    (if num < 0 then "-" else "") + digits
  }

  /**
   * Reads a fixed-point numeral with exactly `d` decimals back as an integer
   * count of `10^-d` units: an optional '-', whole digits and, when `d > 0`,
   * a '.' followed by `d` digits. `None` for any other shape.
   */
  function FixedValue(r: string, d: nat): (v: Option<int>)
  {
    if r != [] && r[0] == '-' then
      match UnsignedFixedValue(r[1..], d)
      case None => None
      case Some(n) => Some(-(n as int))
    else UnsignedFixedValue(r, d)
  }

  function UnsignedFixedValue(s: string, d: nat): (v: Option<nat>)
  {
    if d == 0 then
      if s != [] && AllDigits(s) then Some(ParseDigits(s)) else None
    else if |s| >= d + 2 then PointValue(s[..|s| - d - 1], s[|s| - d - 1], s[|s| - d..], d)
    else None
  }

  /** The value of `whole`, `point`, `frac` when they are digits, '.' and digits. */
  function PointValue(whole: string, point: char, frac: string, d: nat): (v: Option<nat>)
  {
    if point == '.' && AllDigits(whole) && AllDigits(frac) then
      Some(Product(ParseDigits(whole), Pow10(d)) + ParseDigits(frac))
    else None
  }

  /** Padding keeps the value, and a number below `10^width` pads to exactly `width` digits. */
  lemma PadDigitsValue(n: nat, width: nat)
    requires 1 <= width && n < Pow10(width)
    ensures |PadDigits(n, width)| == width && ParseDigits(PadDigits(n, width)) == n
  {
    NatToStringLength(n, width);
    ParseNatToString(n);
    var s := NatToString(n);
    if |s| < width {
      ParseZeros(width - |s|);
      ParseAppend(seq(width - |s|, _ => '0'), s);
    }
  }

  /** The digits `FixedDigits` writes read back as the rounded count of `10^-d` units. */
  lemma FixedDigitsValue(m: nat, den: int, d: nat)
    requires den > 0
    ensures UnsignedFixedValue(FixedDigits(m, den, d), d) == Some(RoundHalfUp(Product(m, Pow10(d)), den))
  {
    var p := Pow10(d);
    var q := RoundHalfUp(Product(m, p), den);
    ParseNatToString(Quotient(q, p));
    if d == 0 {
      assert FixedDigits(m, den, d) == NatToString(Quotient(q, p));
      QuotientRemainder(q, p);
    } else {
      PadDigitsValue(Remainder(q, p), d);
      FixedParts(NatToString(Quotient(q, p)), PadDigits(Remainder(q, p), d), d);
      QuotientRemainder(q, p);
    }
  }

  /** `whole.frac` with `|frac| == d` splits back into its two parts. */
  lemma FixedParts(whole: string, frac: string, d: nat)
    requires whole != [] && AllDigits(whole) && AllDigits(frac) && |frac| == d >= 1
    ensures UnsignedFixedValue(whole + ("." + frac), d) == Some(Product(ParseDigits(whole), Pow10(d)) + ParseDigits(frac))
  {
    PointSplits(whole, frac);
    var r := whole + ("." + frac);
    assert UnsignedFixedValue(r, d) == PointValue(whole, '.', frac, d);
    PointDigits(whole, frac, d);
  }

  /** The three parts of `whole.frac`, located from its end. */
  lemma PointSplits(whole: string, frac: string)
    ensures var r := whole + ("." + frac);
      && |r| == |whole| + 1 + |frac|
      && r[..|r| - |frac| - 1] == whole
      && r[|r| - |frac| - 1] == '.'
      && r[|r| - |frac|..] == frac
  {
    var r := whole + ("." + frac);
    assert r[..|whole|] == whole;
    assert r[|whole| + 1..] == frac;
  }

  lemma PointDigits(whole: string, frac: string, d: nat)
    requires AllDigits(whole) && AllDigits(frac)
    ensures PointValue(whole, '.', frac, d) == Some(Product(ParseDigits(whole), Pow10(d)) + ParseDigits(frac))
  {
  }

  lemma QuotientRemainder(a: nat, b: nat)
    requires b > 0
    ensures a == Product(Quotient(a, b), b) + Remainder(a, b)
  {
  }

  /** Half-up rounding lands within half a unit: `q - 1/2 <= m / den < q + 1/2`. */
  lemma RoundHalfUpBounds(m: nat, den: int)
    requires den > 0
    ensures 2 * den * RoundHalfUp(m, den) - den <= 2 * m < 2 * den * RoundHalfUp(m, den) + den
  {
    var q := RoundHalfUp(m, den);
    var rem := (2 * m + den) % (2 * den);
    assert 2 * m + den == 2 * den * q + rem;
  }

  /** `|num| * 10^d / den` rounded half up, with the sign of `num`: the count of `10^-d` units `toFixed` writes. */
  function RoundedUnits(num: int, den: int, d: nat): int
    requires den > 0
  {
    var q := RoundHalfUp(Product(Magnitude(num), Pow10(d)), den);
    if num < 0 then -(q as int) else q
  }

  function Magnitude(num: int): nat
  {
    if num < 0 then -num else num
  }

  /**
   * `ToFixed` writes `num / den` rounded half up at `d` decimals: read back,
   * its text is `RoundedUnits(num, den, d)` units of `10^-d`, and that count
   * is within half a unit of `|num| * 10^d / den`.
   */
  lemma ToFixedValue(num: int, den: int, d: nat)
    requires den > 0
    ensures FixedValue(ToFixed(num, den, d), d) == Some(RoundedUnits(num, den, d))
    ensures var q := RoundHalfUp(Product(Magnitude(num), Pow10(d)), den);
            2 * den * q - den <= 2 * Product(Magnitude(num), Pow10(d)) < 2 * den * q + den
  {
    ToFixedReadsBack(num, den, d);
    RoundHalfUpBounds(Product(Magnitude(num), Pow10(d)), den);
  }

  lemma ToFixedReadsBack(num: int, den: int, d: nat)
    requires den > 0
    ensures FixedValue(ToFixed(num, den, d), d) == Some(RoundedUnits(num, den, d))
  {
    var m := Magnitude(num);
    var digits := FixedDigits(m, den, d);
    var q := RoundHalfUp(Product(m, Pow10(d)), den);
    FixedDigitsValue(m, den, d);
    SignedValue(digits, num < 0, q, d);
    var r := ToFixed(num, den, d);
    assert r == (if num < 0 then "-" else "") + digits;
    assert FixedValue(r, d) == Some(if num < 0 then -(q as int) else q);
    assert RoundedUnits(num, den, d) == if num < 0 then -(q as int) else q;
    assert FixedValue(r, d) == Some(RoundedUnits(num, den, d));
  }

  /** A sign in front of an unsigned numeral negates its value. */
  lemma SignedValue(digits: string, negative: bool, n: nat, d: nat)
    requires digits != [] && IsDigit(digits[0]) && UnsignedFixedValue(digits, d) == Some(n)
    ensures FixedValue((if negative then "-" else "") + digits, d) == Some(if negative then -(n as int) else n)
  {
    var r := (if negative then "-" else "") + digits;
    if negative {
      assert r[1..] == digits;
    } else {
      assert r == digits;
    }
  }

  /** Two thirds at two decimals rounds up to "0.67". */
  lemma ToFixedTwoThirds()
    ensures ToFixed(2, 3, 2) == "0.67"
  {
    assert Pow10(2) == 100;
    assert RoundHalfUp(Product(2, 100), 3) == 67;
    assert NatToString(Quotient(67, 100)) == "0";
    assert NatToString(67) == "67";
    assert PadDigits(Remainder(67, 100), 2) == "67";
  }

  /** A whole number at two decimals gets two zeros. */
  lemma ToFixedWhole()
    ensures ToFixed(50, 1, 2) == "50.00"
  {
    assert Pow10(2) == 100;
    assert RoundHalfUp(Product(50, 100), 1) == 5000;
    assert NatToString(Quotient(5000, 100)) == "50";
    assert NatToString(0) == "0";
    assert PadDigits(Remainder(5000, 100), 2) == "00";
  }
}
