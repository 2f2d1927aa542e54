/**
 * The textual UUID shape the loan listing and the export recognise in a search
 * string: the string representation of section 3 of RFC 4122 (8-4-4-4-12 hex
 * digits), with the version nibble (section 4.1.3) restricted to 1-5 and the
 * variant nibble (section 4.1.1) to 8, 9, a or b, letters in either case.
 */
module Uuid {
  import opened Text

  predicate IsHex(c: char) {
    ('0' <= c <= '9') || ('a' <= c <= 'f') || ('A' <= c <= 'F')
  }

  predicate AllHex(s: string) {
    forall i :: 0 <= i < |s| ==> IsHex(s[i])
  }

  /** The first hex digit of the time_hi_and_version field: versions 1 to 5. */
  predicate IsVersionNibble(c: char) {
    '1' <= c <= '5'
  }

  /** The first hex digit of clock_seq_hi_and_reserved for the RFC 4122 variant. */
  predicate IsVariantNibble(c: char) {
    c == '8' || c == '9' || c == 'a' || c == 'b' || c == 'A' || c == 'B'
  }

  predicate IsHyphenPosition(i: int) {
    i == 8 || i == 13 || i == 18 || i == 23
  }

  /** What the character at position `i` of a 36-character candidate must be. */
  predicate PositionOk(q: string, i: int)
    requires 0 <= i < |q|
  {
    if IsHyphenPosition(i) then q[i] == '-'
    else if i == 14 then IsVersionNibble(q[i])
    else if i == 19 then IsVariantNibble(q[i])
    else IsHex(q[i])
  }

  /** The shape, stated position by position. */
  predicate UuidShape(q: string) {
    |q| == 36 && forall i :: 0 <= i < 36 ==> PositionOk(q, i)
  }

  /**
   * The shape, stated group by group as the regular expression reads:
   * 8 hex, '-', 4 hex, '-', version and 3 hex, '-', variant and 3 hex, '-', 12 hex.
   */
  predicate RegexShape(q: string) {
    && |q| == 36
    && AllHex(q[0..8]) && q[8] == '-'
    && AllHex(q[9..13]) && q[13] == '-'
    && IsVersionNibble(q[14]) && AllHex(q[15..18]) && q[18] == '-'
    && IsVariantNibble(q[19]) && AllHex(q[20..23]) && q[23] == '-'
    && AllHex(q[24..36])
  }

  /** The positional reading and the group reading of the regular expression agree. */
  lemma ShapeAgreesWithRegex(q: string)
    ensures UuidShape(q) <==> RegexShape(q)
  {
    if UuidShape(q) {
      assert forall i :: 0 <= i < 8 ==> q[0..8][i] == q[i] && PositionOk(q, i);
      assert forall i :: 0 <= i < 4 ==> q[9..13][i] == q[9 + i] && PositionOk(q, 9 + i);
      assert forall i :: 0 <= i < 3 ==> q[15..18][i] == q[15 + i] && PositionOk(q, 15 + i);
      assert forall i :: 0 <= i < 3 ==> q[20..23][i] == q[20 + i] && PositionOk(q, 20 + i);
      assert forall i :: 0 <= i < 12 ==> q[24..36][i] == q[24 + i] && PositionOk(q, 24 + i);
      assert PositionOk(q, 8) && PositionOk(q, 13) && PositionOk(q, 14);
      assert PositionOk(q, 18) && PositionOk(q, 19) && PositionOk(q, 23);
    }
    if RegexShape(q) {
      forall i | 0 <= i < 36 ensures PositionOk(q, i) {
        if i < 8 { assert q[i] == q[0..8][i]; }
        else if 9 <= i < 13 { assert q[i] == q[9..13][i - 9]; }
        else if 15 <= i < 18 { assert q[i] == q[15..18][i - 15]; }
        else if 20 <= i < 23 { assert q[i] == q[20..23][i - 20]; }
        else if 24 <= i { assert q[i] == q[24..36][i - 24]; }
      }
    }
  }

  /** The `/…/i` flag: recognition does not depend on letter case. */
  lemma ShapeIgnoresCase(q: string)
    ensures UuidShape(q) <==> UuidShape(ToLower(q))
  {
    var l := ToLower(q);
    if |q| == 36 {
      forall i | 0 <= i < 36 ensures PositionOk(q, i) <==> PositionOk(l, i) {
        assert l[i] == LowerChar(q[i]);
      }
    }
  }

  /** `regex.test(q)`: checks the candidate one position at a time. */
  method TestUuid(q: string) returns (ok: bool)
    ensures ok <==> UuidShape(q)
  {
    if |q| != 36 {
      return false;
    }
    var i := 0;
    while i < 36
      invariant 0 <= i <= 36
      invariant forall j :: 0 <= j < i ==> PositionOk(q, j)
    {
      if !PositionOk(q, i) {
        return false;
      }
      i := i + 1;
    }
    return true;
  }

  /** The 8-4-4-4-12 hex shape with any version and variant digits. */
  predicate HyphenatedHex(q: string) {
    |q| == 36 && forall i :: 0 <= i < 36 ==> (if IsHyphenPosition(i) then q[i] == '-' else IsHex(q[i]))
  }

  lemma ShapeIsHyphenatedHex(q: string)
    requires UuidShape(q)
    ensures HyphenatedHex(q)
  {
    forall i | 0 <= i < 36 ensures (if IsHyphenPosition(i) then q[i] == '-' else IsHex(q[i])) {
      assert PositionOk(q, i);
    }
  }

  /** A version-4 identifier is recognised; the nil UUID (version 0) is not. */
  lemma Examples()
    ensures UuidShape("123e4567-e89b-42d3-a456-426614174000")
    ensures UuidShape("123E4567-E89B-42D3-A456-426614174000")
    ensures !UuidShape("00000000-0000-0000-0000-000000000000")
    ensures !UuidShape("123e4567-e89b-42d3-c456-426614174000")
  {
    var a := "123e4567-e89b-42d3-a456-426614174000";
    assert forall i :: 0 <= i < 36 ==> PositionOk(a, i);
    var b := "123E4567-E89B-42D3-A456-426614174000";
    assert forall i :: 0 <= i < 36 ==> PositionOk(b, i);
    assert !PositionOk("00000000-0000-0000-0000-000000000000", 14);
    assert !PositionOk("123e4567-e89b-42d3-c456-426614174000", 19);
  }
}
