/**
 * `toTitleCase` of the loan form's customer-name field: trim, split at runs
 * of white space, capitalise each word (first letter upper case, the rest
 * lower case) and join with single spaces.
 */
module TitleCase {
  import opened Text

  /** The index of the first white-space character, or `|s|`. */
  function FirstSpace(s: string): (k: nat)
    ensures k <= |s|
    ensures forall j :: 0 <= j < k ==> !IsSpace(s[j])
    ensures k < |s| ==> IsSpace(s[k])
  {
    if |s| == 0 || IsSpace(s[0]) then 0 else 1 + FirstSpace(s[1..])
  }

  /**
   * `s.split(/\s+/g)`: the pieces between maximal runs of white space. A run
   * at either end yields an empty piece there, and "" splits into [""].
   */
  function SplitWs(s: string): (r: seq<string>)
    ensures |r| >= 1
    decreases |s|
  {
    var i := FirstSpace(s);
    if i == |s| then [s]
    else
      var j := i + LeadingSpace(s[i..]);
      [s[..i]] + SplitWs(s[j..])
  }

  /** `part ? part.charAt(0).toUpperCase() + part.slice(1).toLowerCase() : ""`. */
  function CapWord(w: string): (r: string)
    ensures |r| == |w|
  {
    if |w| == 0 then "" else [UpperChar(w[0])] + ToLower(w[1..])
  }

  function CapWords(ws: seq<string>): (r: seq<string>)
    ensures |r| == |ws|
    ensures forall k :: 0 <= k < |ws| ==> r[k] == CapWord(ws[k])
  {
    if |ws| == 0 then [] else [CapWord(ws[0])] + CapWords(ws[1..])
  }

  function ToTitleCase(s: string): string {
    Join(CapWords(SplitWs(Trim(s))), " ")
  }

  // ----- shape of the output -----

  /** A word of the output: non-empty, no white space, first letter upper case, the rest lower case. */
  predicate IsCapitalised(w: string) {
    && |w| > 0 && NoSpace(w)
    && UpperChar(w[0]) == w[0]
    && forall j :: 1 <= j < |w| ==> LowerChar(w[j]) == w[j]
  }

  predicate AllWords(ws: seq<string>) {
    forall k :: 0 <= k < |ws| ==> |ws[k]| > 0 && NoSpace(ws[k])
  }

  /** Trimmed, and every white-space character is a single ' ' between two other characters. */
  predicate SingleSpaced(r: string) {
    forall i :: 0 <= i < |r| && IsSpace(r[i]) ==>
      r[i] == ' ' && 0 < i < |r| - 1 && !IsSpace(r[i - 1]) && !IsSpace(r[i + 1])
  }

  lemma CaseKeepsSpace(c: char)
    ensures IsSpace(UpperChar(c)) <==> IsSpace(c)
    ensures IsSpace(LowerChar(c)) <==> IsSpace(c)
  {
  }

  lemma CapWordIsCapitalised(w: string)
    requires |w| > 0 && NoSpace(w)
    ensures IsCapitalised(CapWord(w))
  {
    var r := CapWord(w);
    forall j | 0 <= j < |r| ensures !IsSpace(r[j]) {
      if j == 0 { CaseKeepsSpace(w[0]); } else { assert r[j] == LowerChar(w[j]); CaseKeepsSpace(w[j]); }
    }
  }

  /** A capitalised word is its own capitalisation. */
  lemma CapWordFixed(w: string)
    requires IsCapitalised(w)
    ensures CapWord(w) == w
  {
    var r := CapWord(w);
    forall j | 0 <= j < |w| ensures r[j] == w[j] {
      if j > 0 { assert r[j] == LowerChar(w[1..][j - 1]); }
    }
  }

  /** The pieces of a trimmed, non-blank string are words. */
  lemma {:induction false} SplitTrimmedIsWords(t: string)
    requires IsTrimmed(t) && |t| > 0
    ensures AllWords(SplitWs(t))
    decreases |t|
  {
    var i := FirstSpace(t);
    if i < |t| {
      var n := LeadingSpace(t[i..]);
      var j := i + n;
      assert t[|t| - 1] == t[i..][|t| - 1 - i];
      assert j < |t|;
      var rest := t[j..];
      assert rest[0] == t[i..][n];
      assert rest[|rest| - 1] == t[|t| - 1];
      SplitTrimmedIsWords(rest);
      var piece := t[..i];
      assert i > 0;
      assert NoSpace(piece) by {
        forall m | 0 <= m < |piece| ensures !IsSpace(piece[m]) { assert piece[m] == t[m]; }
      }
      var r := SplitWs(t);
      assert r == [piece] + SplitWs(rest);
      forall k | 0 <= k < |r| ensures |r[k]| > 0 && NoSpace(r[k]) {
        if k > 0 { assert r[k] == SplitWs(rest)[k - 1]; }
      }
    } else {
      assert SplitWs(t) == [t];
    }
  }

  /** Joining words with one space is single-spaced. */
  lemma {:induction false} JoinWordsSingleSpaced(ws: seq<string>)
    requires |ws| > 0 && AllWords(ws)
    ensures SingleSpaced(Join(ws, " "))
    ensures |Join(ws, " ")| > 0
    decreases |ws|
  {
    if |ws| > 1 {
      var rest := ws[1..];
      assert AllWords(rest) by {
        forall k | 0 <= k < |rest| ensures |rest[k]| > 0 && NoSpace(rest[k]) { assert rest[k] == ws[k + 1]; }
      }
      JoinWordsSingleSpaced(rest);
      var a, b := ws[0], Join(rest, " ");
      var r := Join(ws, " ");
      assert r == a + " " + b;
      forall i | 0 <= i < |r| && IsSpace(r[i])
        ensures r[i] == ' ' && 0 < i < |r| - 1 && !IsSpace(r[i - 1]) && !IsSpace(r[i + 1])
      {
        if i == |a| {
          assert r[i - 1] == a[|a| - 1];
          assert r[i + 1] == b[0];
          assert !IsSpace(b[0]);
        } else if i > |a| {
          var m := i - |a| - 1;
          assert r[i] == b[m];
          assert 0 < m < |b| - 1;
          assert r[i - 1] == b[m - 1] && r[i + 1] == b[m + 1];
        }
      }
    } else {
      assert Join(ws, " ") == ws[0];
    }
  }

  lemma SingleSpacedIsTrimmed(r: string)
    requires SingleSpaced(r)
    ensures IsTrimmed(r)
  {
    if |r| > 0 {
      assert !IsSpace(r[0]);
      assert !IsSpace(r[|r| - 1]);
    }
  }

  /** Splitting words joined by one space gives the words back. */
  lemma {:induction false} SplitJoin(ws: seq<string>)
    requires |ws| > 0 && AllWords(ws)
    ensures SplitWs(Join(ws, " ")) == ws
    decreases |ws|
  {
    var a := ws[0];
    if |ws| == 1 {
      assert Join(ws, " ") == a;
      assert FirstSpace(a) == |a|;
    } else {
      var rest := ws[1..];
      assert AllWords(rest) by {
        forall k | 0 <= k < |rest| ensures |rest[k]| > 0 && NoSpace(rest[k]) { assert rest[k] == ws[k + 1]; }
      }
      JoinWordsSingleSpaced(rest);
      var b := Join(rest, " ");
      var s := Join(ws, " ");
      assert s == a + " " + b;
      assert FirstSpace(s) == |a| by {
        assert s[|a|] == ' ';
        assert forall j :: 0 <= j < |a| ==> s[j] == a[j];
      }
      assert s[|a|..] == " " + b;
      assert LeadingSpace(" " + b) == 1 by {
        assert (" " + b)[1..] == b;
        assert !IsSpace(b[0]);
      }
      assert s[..|a|] == a;
      assert s[|a| + 1..] == b;
      SplitJoin(rest);
      assert SplitWs(s) == [a] + SplitWs(b);
    }
  }

  lemma CapWordsAreCapitalised(ws: seq<string>)
    requires AllWords(ws)
    ensures forall k :: 0 <= k < |ws| ==> IsCapitalised(CapWords(ws)[k])
    ensures AllWords(CapWords(ws))
  {
    forall k | 0 <= k < |ws| ensures IsCapitalised(CapWords(ws)[k]) {
      CapWordIsCapitalised(ws[k]);
    }
  }

  lemma CapWordsFixed(ws: seq<string>)
    requires forall k :: 0 <= k < |ws| ==> IsCapitalised(ws[k])
    ensures CapWords(ws) == ws
  {
    forall k | 0 <= k < |ws| ensures CapWords(ws)[k] == ws[k] {
      CapWordFixed(ws[k]);
    }
  }

  /**
   * The output of `toTitleCase`: empty exactly for a blank input; otherwise
   * capitalised words joined by single spaces, with nothing around them.
   */
  lemma TitleCaseShape(s: string)
    ensures ToTitleCase(s) == "" <==> IsBlank(s)
    ensures SingleSpaced(ToTitleCase(s)) && IsTrimmed(ToTitleCase(s))
    ensures !IsBlank(s) ==>
      && var ws := SplitWs(ToTitleCase(s));
      && ToTitleCase(s) == Join(ws, " ")
      && forall k :: 0 <= k < |ws| ==> IsCapitalised(ws[k])
  {
    var t := Trim(s);
    if |t| == 0 {
      assert SplitWs(t) == [""];
      assert ToTitleCase(s) == "";
    } else {
      SplitTrimmedIsWords(t);
      var ws := CapWords(SplitWs(t));
      CapWordsAreCapitalised(SplitWs(t));
      JoinWordsSingleSpaced(ws);
      SingleSpacedIsTrimmed(ToTitleCase(s));
      SplitJoin(ws);
    }
  }

  /** Title-casing twice is title-casing once. */
  lemma TitleCaseIdempotent(s: string)
    ensures ToTitleCase(ToTitleCase(s)) == ToTitleCase(s)
  {
    var r := ToTitleCase(s);
    TitleCaseShape(s);
    if IsBlank(s) {
      assert Trim(r) == "";
      assert SplitWs("") == [""];
    } else {
      TrimOfTrimmed(r);
      var ws := SplitWs(r);
      CapWordsFixed(ws);
    }
  }
}
