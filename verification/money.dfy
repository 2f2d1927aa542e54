/**
 * `parseMoneyVnd`, the shorthand reader of the loan form's amount field:
 * commas and spaces are dropped, a trailing `k` means thousands and `m`
 * millions, and the value is rounded to whole dong.
 */
module Money {
  import opened Wrappers
  import opened Text
  import opened Numbers

  predicate IsDropped(c: char) {
    c == ',' || c == ' '
  }

  /** `.replace(/[, ]/g, "")`. */
  function DropCommasSpaces(s: string): (r: string)
    ensures |r| <= |s|
    ensures forall i :: 0 <= i < |r| ==> !IsDropped(r[i])
  {
    if |s| == 0 then ""
    else (if IsDropped(s[0]) then "" else [s[0]]) + DropCommasSpaces(s[1..])
  }

  /** The field after `trim`, `toLowerCase` and dropping commas and spaces. */
  function Raw(input: string): string {
    DropCommasSpaces(ToLower(Trim(input)))
  }

  /** `null` is `None`; otherwise the rounded amount. */
  function ParseMoneyVnd(input: string): (r: Option<int>)
  {
    ReadRaw(Raw(input))
  }

  predicate IsSuffix(c: char) {
    c == 'k' || c == 'm'
  }

  /** The text before a trailing `k` or `m`, or all of it. */
  function NumberPart(raw: string): (r: string)
    requires raw != ""
  {
    if IsSuffix(raw[|raw| - 1]) then raw[..|raw| - 1] else raw
  }

  /** A trailing `k` multiplies by 1,000 and `m` by 1,000,000; the rest must be a number. */
  function ReadRaw(raw: string): Option<int> {
    if raw == "" then None else Scaled(JsNumber(NumberPart(raw)), raw[|raw| - 1])
  }

  /** `Number.isFinite(num) ? Math.round(num * factor) : null`, the factor chosen by the last character. */
  function Scaled(num: Option<real>, last: char): Option<int> {
    match num
    case None => None
    case Some(n) => Some(RoundHalfUp(if last == 'k' then n * 1000.0 else if last == 'm' then n * 1000000.0 else n))
  }

  // ----- properties -----

  lemma {:induction false} DropAppend(a: string, b: string)
    ensures DropCommasSpaces(a + b) == DropCommasSpaces(a) + DropCommasSpaces(b)
    decreases |a|
  {
    if |a| > 0 {
      assert (a + b)[1..] == a[1..] + b;
      DropAppend(a[1..], b);
    } else {
      assert a + b == b;
    }
  }

  lemma {:induction false} DropAllDropped(s: string)
    requires forall i :: 0 <= i < |s| ==> IsDropped(s[i])
    ensures DropCommasSpaces(s) == ""
    decreases |s|
  {
    if |s| > 0 {
      DropAllDropped(s[1..]);
    }
  }

  lemma {:induction false} DropKeeps(s: string)
    requires forall i :: 0 <= i < |s| ==> !IsDropped(s[i])
    ensures DropCommasSpaces(s) == s
    decreases |s|
  {
    if |s| > 0 {
      DropKeeps(s[1..]);
      assert s == [s[0]] + s[1..];
    }
  }

  lemma {:induction false} DropLower(s: string)
    ensures DropCommasSpaces(ToLower(s)) == ToLower(DropCommasSpaces(s))
    decreases |s|
  {
    if |s| > 0 {
      assert ToLower(s)[1..] == ToLower(s[1..]);
      DropLower(s[1..]);
      var head := if IsDropped(s[0]) then "" else [s[0]];
      assert ToLower(head + DropCommasSpaces(s[1..])) == ToLower(head) + ToLower(DropCommasSpaces(s[1..]));
    }
  }

  /** Only commas and spaces: the field reads as no amount. */
  lemma OnlyCommasAndSpaces(s: string)
    requires forall i :: 0 <= i < |s| ==> IsDropped(s[i])
    ensures ParseMoneyVnd(s) == None
  {
    var t := Trim(s);
    var l := LeadingSpace(s);
    forall i | 0 <= i < |t| ensures IsDropped(ToLower(t)[i]) {
      assert t[i] == s[l + i];
    }
    DropAllDropped(ToLower(t));
    assert Raw(s) == "";
  }

  /** A blank field reads as no amount. */
  lemma BlankIsNone(s: string)
    requires IsBlank(s)
    ensures ParseMoneyVnd(s) == None
  {
    assert Raw(s) == "";
  }

  lemma {:induction false} DropIsSubsequence(s: string, c: char)
    requires c in DropCommasSpaces(s)
    ensures c in s
    decreases |s|
  {
    if |s| > 0 && c != s[0] {
      assert c in DropCommasSpaces(s[1..]);
      DropIsSubsequence(s[1..], c);
    }
  }

  lemma DropAround(a: string, t: string, b: string)
    requires forall i :: 0 <= i < |a| ==> IsDropped(a[i])
    requires forall i :: 0 <= i < |b| ==> IsDropped(b[i])
    ensures DropCommasSpaces(a + t + b) == DropCommasSpaces(t)
  {
    DropAppend(a + t, b);
    DropAppend(a, t);
    DropAllDropped(a);
    DropAllDropped(b);
  }

  /** Dropping commas and spaces from the trimmed field is dropping them from the whole field. */
  lemma DropTrimmed(s: string)
    requires forall i :: 0 <= i < |s| && IsSpace(s[i]) ==> s[i] == ' '
    ensures DropCommasSpaces(Trim(s)) == DropCommasSpaces(s)
  {
    var l := LeadingSpace(s);
    var t := Trim(s);
    var e := l + |t|;
    var a, b := s[..l], s[e..];
    TrimSplit(s);
    forall i | 0 <= i < |a| ensures IsDropped(a[i]) {
      assert a[i] == s[i];
    }
    forall i | 0 <= i < |b| ensures IsDropped(b[i]) {
      assert b[i] == s[e + i];
    }
    DropAround(a, t, b);
  }

  /** With commas and spaces gone and no other white space, trimming changes nothing. */
  lemma DroppedIsTrimmed(s: string)
    requires forall i :: 0 <= i < |s| && IsSpace(s[i]) ==> s[i] == ' '
    ensures Trim(DropCommasSpaces(s)) == DropCommasSpaces(s)
  {
    var d := DropCommasSpaces(s);
    forall i | 0 <= i < |d| ensures !IsSpace(d[i]) {
      DropIsSubsequence(s, d[i]);
    }
    TrimOfTrimmed(d);
  }

  /**
   * Where the only white space is ' ', commas and spaces anywhere are
   * ignored: reading the input is reading it with them removed.
   */
  lemma CommasAndSpacesIgnored(s: string)
    requires forall i :: 0 <= i < |s| && IsSpace(s[i]) ==> s[i] == ' '
    ensures ParseMoneyVnd(s) == ParseMoneyVnd(DropCommasSpaces(s))
  {
    var d := DropCommasSpaces(s);
    DropTrimmed(s);
    DroppedIsTrimmed(s);
    DropLower(Trim(s));
    DropLower(d);
    DropKeeps(d);
    assert Raw(s) == ToLower(d);
    assert Raw(d) == ToLower(d);
  }

  /** A trimmed field without upper-case letters, commas or spaces is read as it is. */
  lemma RawOfPlain(s: string)
    requires IsTrimmed(s)
    requires forall i :: 0 <= i < |s| ==> !IsDropped(s[i]) && !('A' <= s[i] <= 'Z')
    ensures Raw(s) == s
  {
    TrimOfTrimmed(s);
    assert ToLower(s) == s;
    DropKeeps(s);
  }

  lemma RoundWhole(n: int)
    ensures RoundHalfUp(n as real) == n
  {
  }

  /** Reading a field whose number part has the value `v`. */
  lemma ReadOf(raw: string, v: real)
    requires raw != "" && JsNumber(NumberPart(raw)) == Some(v)
    ensures ReadRaw(raw) == Scaled(Some(v), raw[|raw| - 1])
  {
  }

  lemma ScaledWhole(v: int, last: char)
    ensures Scaled(Some(v as real), last) == Some(if last == 'k' then v * 1000 else if last == 'm' then v * 1000000 else v)
  {
    RoundWhole(v);
    RoundWhole(v * 1000);
    RoundWhole(v * 1000000);
  }

  lemma NumberPartOfDigits(d: string)
    requires IsDigits(d) && |d| > 0
    ensures NumberPart(d) == d && NumberPart(d + "k") == d && NumberPart(d + "m") == d
    ensures (d + "k")[|d|] == 'k' && (d + "m")[|d|] == 'm' && !IsSuffix(d[|d| - 1])
  {
    assert (d + "k")[..|d|] == d && (d + "m")[..|d|] == d;
  }

  lemma DigitsArePlain(d: string)
    requires IsDigits(d) && |d| > 0
    ensures Raw(d) == d && Raw(d + "k") == d + "k" && Raw(d + "m") == d + "m"
  {
    RawOfPlain(d);
    RawOfPlain(d + "k");
    RawOfPlain(d + "m");
  }

  /** Whole numbers with a `k` or `m` suffix, or none. */
  lemma Suffixes(d: string)
    requires IsDigits(d) && |d| > 0
    ensures ParseMoneyVnd(d) == Some(DigitsValue(d))
    ensures ParseMoneyVnd(d + "k") == Some(DigitsValue(d) * 1000)
    ensures ParseMoneyVnd(d + "m") == Some(DigitsValue(d) * 1000000)
  {
    var v := DigitsValue(d);
    DigitsArePlain(d);
    NumberPartOfDigits(d);
    JsNumberOfDigits(d);
    ReadOf(d, v as real);
    ReadOf(d + "k", v as real);
    ReadOf(d + "m", v as real);
    ScaledWhole(v, d[|d| - 1]);
    ScaledWhole(v, 'k');
    ScaledWhole(v, 'm');
  }

  lemma OneDigit(d: string)
    requires |d| == 1 && '0' <= d[0] <= '9'
    ensures IsDigits(d) && DigitsValue(d) == DigitValue(d[0])
  {
    assert d[..0] == "";
  }

  /** "5k" reads as 5000. */
  lemma ThousandsSuffix(s: string)
    requires s == "5k"
    ensures ParseMoneyVnd(s) == Some(5000)
  {
    var d := s[..1];
    OneDigit(d);
    Suffixes(d);
    assert d + "k" == s;
  }

  /** "2m" reads as 2000000. */
  lemma MillionsSuffix(s: string)
    requires s == "2m"
    ensures ParseMoneyVnd(s) == Some(2000000)
  {
    var d := s[..1];
    OneDigit(d);
    Suffixes(d);
    assert d + "m" == s;
  }

  /** A bare "k" reads as 0: the empty number part is `Number("")`, which is 0. */
  lemma BareSuffixIsZero()
    ensures ParseMoneyVnd("k") == Some(0)
  {
    RawOfPlain("k");
    assert NumberPart("k") == "";
    ReadOf("k", 0.0);
    ScaledWhole(0, 'k');
  }

  /** The digits "1500000" denote 1500000. */
  lemma MillionAndAHalf(d: string)
    requires d == "1500000"
    ensures IsDigits(d) && DigitsValue(d) == 1500000
  {
    assert IsDigits(d);
    assert DigitsValue(d[..1]) == 1;
    assert d[..2][..1] == d[..1];
    assert DigitsValue(d[..2]) == 15;
    assert d[..3][..2] == d[..2];
    assert DigitsValue(d[..3]) == 150;
    assert d[..4][..3] == d[..3];
    assert DigitsValue(d[..4]) == 1500;
    assert d[..5][..4] == d[..4];
    assert DigitsValue(d[..5]) == 15000;
    assert d[..6][..5] == d[..5];
    assert DigitsValue(d[..6]) == 150000;
    assert d[..6] == d[..|d| - 1];
  }

  lemma SeparatorsDropped(s: string)
    requires s == "1,500,000"
    ensures DropCommasSpaces(s) == "1500000"
  {
    assert s == "1," + "500," + "000";
    DropAppend("1," + "500,", "000");
    DropAppend("1,", "500,");
  }

  lemma PlainSpacesOnly(s: string)
    requires s == "1,500,000"
    ensures forall i :: 0 <= i < |s| && IsSpace(s[i]) ==> s[i] == ' '
  {
  }

  /** Thousands separators are ignored: "1,500,000" reads as 1500000. */
  lemma ThousandsSeparators(s: string)
    requires s == "1,500,000"
    ensures ParseMoneyVnd(s) == Some(1500000)
  {
    PlainSpacesOnly(s);
    CommasAndSpacesIgnored(s);
    SeparatorsDropped(s);
    var d := DropCommasSpaces(s);
    MillionAndAHalf(d);
    Suffixes(d);
  }
}
