/**
 * Decimal numbers as the source reads and writes them: JavaScript's `Number(s)`
 * on decimal strings, `String(n)` on integers and `Math.round`.
 * Values are exact `real`s; a JavaScript NaN or infinity is `None`.
 */
module Numbers {
  import opened Wrappers
  import opened Text

  predicate IsDigit(c: char) {
    '0' <= c <= '9'
  }

  predicate IsDigits(s: string) {
    forall i :: 0 <= i < |s| ==> IsDigit(s[i])
  }

  function DigitValue(c: char): nat
    requires IsDigit(c)
  {
    c as int - '0' as int
  }

  function DigitChar(d: nat): (c: char)
    requires d < 10
    ensures IsDigit(c) && DigitValue(c) == d
  {
    ('0' as int + d) as char
  }

  function Pow10(n: nat): (r: nat)
    ensures r >= 1
  {
    if n == 0 then 1 else 10 * Pow10(n - 1)
  }

  /** The value of a string of decimal digits, most significant first; "" is 0. */
  function DigitsValue(s: string): nat
    requires IsDigits(s)
    decreases |s|
  {
    if |s| == 0 then 0 else 10 * DigitsValue(s[..|s| - 1]) + DigitValue(s[|s| - 1])
  }

  /**
   * `String(n)` for a natural number: the shortest decimal numeral of `n`,
   * which reads back as `n` and has no leading zero.
   */
  function NatToString(n: nat): (r: string)
    ensures |r| > 0 && IsDigits(r)
    ensures DigitsValue(r) == n
    ensures r[0] == '0' <==> n == 0
    decreases n
  {
    if n < 10 then [DigitChar(n)]
    else
      var prefix := NatToString(n / 10);
      var r := prefix + [DigitChar(n % 10)];
      assert r[..|r| - 1] == prefix;
      r
  }

  /** `String(i)` for an integer: a minus sign before the numeral of a negative value. */
  function IntToString(i: int): (r: string)
    ensures |r| > 0
    ensures i < 0 <==> r[0] == '-'
    ensures i >= 0 ==> r == NatToString(i)
    ensures i < 0 ==> r[1..] == NatToString(-i)
  {
    if i < 0 then "-" + NatToString(-i) else NatToString(i)
  }

  /** The position of the first '.' in `s`, or `|s|` when there is none. */
  function DotIndex(s: string): (k: nat)
    ensures k <= |s|
    ensures forall i :: 0 <= i < k ==> s[i] != '.'
    ensures k < |s| ==> s[k] == '.'
  {
    if |s| == 0 || s[0] == '.' then 0 else 1 + DotIndex(s[1..])
  }

  /**
   * The value of an unsigned decimal literal: digits, optionally a '.' and more
   * digits, with at least one digit in all ("5", "5." and ".5" are literals).
   */
  function UnsignedDecimal(u: string): (r: Option<real>)
    ensures r.Some? ==> r.value >= 0.0
  {
    var k := DotIndex(u);
    var whole := u[..k];
    var frac := if k < |u| then u[k + 1..] else "";
    if IsDigits(whole) && IsDigits(frac) && |whole| + |frac| > 0
    then Some(DecimalValue(DigitsValue(whole), DigitsValue(frac), |frac|))
    else None
  }

  /** The value of the literal `w.f` whose fraction part has `k` digits. */
  function DecimalValue(w: nat, f: nat, k: nat): (r: real)
    ensures r >= w as real
  {
    var p := Pow10(k) as real;
    assert f as real / p >= 0.0;
    w as real + f as real / p
  }

  /**
   * `Number(s)` restricted to decimal literals: white space around the literal is
   * ignored, a blank string is 0, an optional sign may lead. `None` stands for
   * a result that is not a finite number.
   */
  function JsNumber(s: string): Option<real>
  {
    SignedDecimal(Trim(s))
  }

  /** The value of a trimmed string: blank is 0, otherwise an optionally signed literal. */
  function SignedDecimal(t: string): Option<real>
  {
    if |t| == 0 then Some(0.0)
    else if t[0] == '-' then
      match UnsignedDecimal(t[1..])
      case Some(v) => Some(-v)
      case None => None
    else if t[0] == '+' then UnsignedDecimal(t[1..])
    else UnsignedDecimal(t)
  }

  function Min(a: int, b: int): int {
    if a < b then a else b
  }

  /** `Math.round`: the nearest integer, halves rounded up. */
  function RoundHalfUp(x: real): (r: int)
    ensures r as real - 0.5 <= x < r as real + 0.5
  {
    (x + 0.5).Floor
  }

  lemma NoDotInDigits(s: string)
    requires IsDigits(s)
    ensures DotIndex(s) == |s|
  {
    if |s| > 0 {
      NoDotInDigits(s[1..]);
    }
  }

  lemma DigitsAreTrimmed(s: string)
    requires IsDigits(s)
    ensures NoSpace(s) && Trim(s) == s
  {
    TrimOfTrimmed(s);
  }

  /** A digit string reads back as its own value. */
  lemma JsNumberOfDigits(s: string)
    requires IsDigits(s) && |s| > 0
    ensures JsNumber(s) == Some(DigitsValue(s) as real)
  {
    DigitsAreTrimmed(s);
    UnsignedDigits(s);
    assert IsDigit(s[0]);
    assert SignedDecimal(s) == UnsignedDecimal(s);
  }

  lemma UnsignedDigits(s: string)
    requires IsDigits(s) && |s| > 0
    ensures UnsignedDecimal(s) == Some(DigitsValue(s) as real)
  {
    NoDotInDigits(s);
    var k := DotIndex(s);
    assert k == |s|;
    assert s[..k] == s;
    var frac: string := "";
    assert IsDigits(frac);
    assert DigitsValue(frac) == 0;
    assert Pow10(0) == 1;
    assert DecimalValue(DigitsValue(s), 0, 0) == DigitsValue(s) as real;
  }

  /** `Number(String(n)) == n` for every natural number. */
  lemma JsNumberOfNat(n: nat)
    ensures JsNumber(NatToString(n)) == Some(n as real)
  {
    JsNumberOfDigits(NatToString(n));
  }

  /** `Number(String(i)) == i` for every integer. */
  lemma JsNumberOfInt(i: int)
    ensures JsNumber(IntToString(i)) == Some(i as real)
  {
    if i >= 0 {
      JsNumberOfNat(i);
    } else {
      var r := IntToString(i);
      var digits := NatToString(-i);
      assert r[1..] == digits;
      DigitsAreTrimmed(digits);
      assert IsTrimmed(r);
      TrimOfTrimmed(r);
      NoDotInDigits(digits);
      assert digits[..|digits|] == digits;
    }
  }

  /** Only a literal that starts with a minus sign has a negative value. */
  lemma JsNumberNegativeNeedsSign(s: string)
    requires JsNumber(s).Some? && JsNumber(s).value < 0.0
    ensures |Trim(s)| > 0 && Trim(s)[0] == '-'
  {
  }
}
