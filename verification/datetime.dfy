/** Timestamps and their `toISOString` form ("YYYY-MM-DDTHH:mm:ss.sssZ", UTC). */
module DateTime {
  import opened Wrappers
  import opened Numbers

  datatype DateTime = DateTime(year: int, month: int, day: int, hour: int, minute: int, second: int, millis: int)
  {
    /** The fields of a date `toISOString` prints with four year digits. */
    predicate Valid() {
      && 0 <= year <= 9999
      && 1 <= month <= 12
      && 1 <= day <= DaysInMonth(year, month)
      && 0 <= hour < 24
      && 0 <= minute < 60
      && 0 <= second < 60
      && 0 <= millis < 1000
    }
  }

  type Instant = d: DateTime | d.Valid() witness DateTime(1970, 1, 1, 0, 0, 0, 0)

  predicate IsLeapYear(y: int) {
    (y % 4 == 0 && y % 100 != 0) || y % 400 == 0
  }

  function DaysInMonth(y: int, m: int): int {
    if m == 2 then (if IsLeapYear(y) then 29 else 28)
    else if m == 4 || m == 6 || m == 9 || m == 11 then 30
    else 31
  }

  /** A key that orders instants chronologically. */
  function Ticks(d: Instant): int {
    ((((((d.year * 12 + d.month - 1) * 31 + d.day - 1) * 24 + d.hour) * 60 + d.minute) * 60 + d.second) * 1000) + d.millis
  }

  function Zeros(n: nat): (r: string)
    ensures |r| == n && IsDigits(r)
    ensures forall i :: 0 <= i < n ==> r[i] == '0'
  {
    if n == 0 then "" else "0" + Zeros(n - 1)
  }

  /** The numeral of `n` left-padded with zeros to at least `width` digits. */
  function Pad(n: nat, width: nat): (r: string)
    ensures IsDigits(r)
    ensures |NatToString(n)| <= width ==> |r| == width
  {
    var s := NatToString(n);
    if |s| < width then Zeros(width - |s|) + s else s
  }

  /** `toISOString()`. */
  function IsoString(d: Instant): string {
    Pad(d.year, 4) + "-" + Pad(d.month, 2) + "-" + Pad(d.day, 2) + "T" + Pad(d.hour, 2) + ":" + Pad(d.minute, 2)
    + ":" + Pad(d.second, 2) + "." + Pad(d.millis, 3) + "Z"
  }

  /** `toISOString().slice(0, 10)`: the calendar date "YYYY-MM-DD". */
  function IsoDate(d: Instant): (r: string)
    ensures |r| == 10 && r[4] == '-' && r[7] == '-'
    ensures r == Pad(d.year, 4) + "-" + Pad(d.month, 2) + "-" + Pad(d.day, 2)
  {
    PadWidth(d.year, 4);
    PadWidth(d.month, 2);
    PadWidth(d.day, 2);
    PadWidth(d.hour, 2);
    PadWidth(d.minute, 2);
    PadWidth(d.second, 2);
    PadWidth(d.millis, 3);
    var s := IsoString(d);
    assert s[..10] == Pad(d.year, 4) + "-" + Pad(d.month, 2) + "-" + Pad(d.day, 2);
    s[..10]
  }

  /** A number below `10^w` has a numeral of at most `w` digits. */
  lemma {:induction false} PadWidth(n: nat, w: nat)
    requires w >= 1 && n < Pow10(w)
    ensures |NatToString(n)| <= w
    decreases w
  {
    if n >= 10 {
      assert w >= 2;
      assert Pow10(w) == 10 * Pow10(w - 1);
      assert n / 10 < Pow10(w - 1);
      PadWidth(n / 10, w - 1);
      assert NatToString(n) == NatToString(n / 10) + [DigitChar(n % 10)];
    }
  }

  /** Leading zeros do not change the value of a numeral. */
  lemma {:induction false} ZerosDoNotCount(k: nat, s: string)
    requires IsDigits(s)
    ensures DigitsValue(Zeros(k) + s) == DigitsValue(s)
    decreases |s|
  {
    if |s| == 0 {
      assert Zeros(k) + s == Zeros(k);
      AllZerosValue(k);
    } else {
      var t := Zeros(k) + s;
      assert t[..|t| - 1] == Zeros(k) + s[..|s| - 1];
      ZerosDoNotCount(k, s[..|s| - 1]);
    }
  }

  lemma {:induction false} AllZerosValue(k: nat)
    ensures DigitsValue(Zeros(k)) == 0
  {
    if k > 0 {
      var z := Zeros(k);
      assert z[..|z| - 1] == Zeros(k - 1);
      AllZerosValue(k - 1);
    }
  }

  /** A padded numeral reads back as its number. */
  lemma PadRoundTrip(n: nat, w: nat)
    ensures DigitsValue(Pad(n, w)) == n
  {
    var s := NatToString(n);
    if |s| < w {
      ZerosDoNotCount(w - |s|, s);
    }
  }

  /** Reads the calendar date back out of "YYYY-MM-DD"; `None` for any other shape. */
  function ParseIsoDate(s: string): Option<(nat, nat, nat)>
  {
    if |s| == 10 && s[4] == '-' && s[7] == '-' && IsDigits(s[..4]) && IsDigits(s[5..7]) && IsDigits(s[8..])
    then Some((DigitsValue(s[..4]), DigitsValue(s[5..7]), DigitsValue(s[8..])))
    else None
  }

  /** The exported date column reads back as the instant's year, month and day. */
  lemma IsoDateRoundTrip(d: Instant)
    ensures ParseIsoDate(IsoDate(d)) == Some((d.year as nat, d.month as nat, d.day as nat))
  {
    var r := IsoDate(d);
    assert r[..4] == Pad(d.year, 4);
    assert r[5..7] == Pad(d.month, 2);
    assert r[8..] == Pad(d.day, 2);
    PadRoundTrip(d.year, 4);
    PadRoundTrip(d.month, 2);
    PadRoundTrip(d.day, 2);
  }
}
