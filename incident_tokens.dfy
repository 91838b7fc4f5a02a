/** Extraction of incident numbers from a query: the left-to-right,
    non-overlapping matches of `INC` followed by one or more digits in the
    upper-cased query, as `re.findall(r'INC\d+', query.upper())` returns them.
    No word boundary is required on either side. Digits are the ASCII
    digits; Python's `\d` also matches the other Unicode decimal digits. */
module IncidentTokens {
  import opened Text

  /** Length of the run of digits at the start of `s`. */
  function DigitRun(s: string): (n: nat)
    ensures n <= |s|
    ensures forall i :: 0 <= i < n ==> IsDigit(s[i])
    ensures n == |s| || !IsDigit(s[n])
  {
    if s != [] && IsDigit(s[0]) then 1 + DigitRun(s[1..]) else 0
  }

  /** A match of the pattern starts at position `i` of `s`. */
  predicate MatchAt(s: string, i: int) {
    0 <= i && i + 4 <= |s| && s[i] == 'I' && s[i + 1] == 'N' && s[i + 2] == 'C' && IsDigit(s[i + 3])
  }

  /** A token: `INC` followed by at least one digit. */
  predicate IsToken(t: string) {
    |t| >= 4 && t[..3] == "INC" && IsDigits(t[3..])
  }

  /** `t` occurs in `s` at `p` and is not followed by a digit there. */
  predicate OccursMaximalAt(s: string, t: string, p: int) {
    0 <= p && p + |t| <= |s| && s[p..p + |t|] == t && (p + |t| == |s| || !IsDigit(s[p + |t|]))
  }

  /** `t` occurs somewhere in `s` with a maximal digit run. */
  ghost predicate OccursMaximal(s: string, t: string) {
    exists p :: OccursMaximalAt(s, t, p)
  }

  /** The scanner over an already upper-cased string. */
  function Scan(s: string): (ts: seq<string>)
    decreases |s|
  {
    if !MatchAt(s, 0) then (if s == [] then [] else Scan(s[1..]))
    else
      var n := 3 + DigitRun(s[3..]);
      [s[..n]] + Scan(s[n..])
  }

  /** `re.findall(r'INC\d+', query.upper())` */
  function Extract(query: string): seq<string> {
    Scan(Upper(query))
  }

  /** The token found where a match starts, and its maximal digit run. */
  lemma HeadToken(s: string)
    requires MatchAt(s, 0)
    ensures IsToken(s[..3 + DigitRun(s[3..])])
    ensures OccursMaximalAt(s, s[..3 + DigitRun(s[3..])], 0)
  {
    var d := DigitRun(s[3..]);
    var n := 3 + d;
    assert d >= 1;
    assert s[..n][..3] == "INC";
    assert s[..n][3..] == s[3..][..d];
    assert n == |s| || s[n] == s[3..][d];
  }

  lemma OccursShift(s: string, t: string, k: nat, p: int)
    requires k <= |s| && OccursMaximalAt(s[k..], t, p)
    ensures OccursMaximalAt(s, t, k + p)
  {
    assert s[k + p..k + p + |t|] == s[k..][p..p + |t|];
  }

  /** Every extracted token is `INC` followed by digits. */
  lemma {:induction false} ScanTokensWellFormed(s: string)
    ensures forall j :: 0 <= j < |Scan(s)| ==> IsToken(Scan(s)[j])
    decreases |s|
  {
    if !MatchAt(s, 0) {
      if s != [] { ScanTokensWellFormed(s[1..]); }
    } else {
      var n := 3 + DigitRun(s[3..]);
      ScanTokensWellFormed(s[n..]);
      HeadToken(s);
    }
  }

  /** Every extracted token occurs in the scanned string and is not followed
      there by a further digit: the digit run is maximal. */
  lemma {:induction false} ScanTokensOccur(s: string)
    ensures forall j :: 0 <= j < |Scan(s)| ==> OccursMaximal(s, Scan(s)[j])
    decreases |s|
  {
    var ts := Scan(s);
    if !MatchAt(s, 0) {
      if s != [] {
        ScanTokensOccur(s[1..]);
        assert ts == Scan(s[1..]);
        forall j | 0 <= j < |ts| ensures OccursMaximal(s, ts[j]) {
          var p :| OccursMaximalAt(s[1..], ts[j], p);
          OccursShift(s, ts[j], 1, p);
        }
      }
    } else {
      var n := 3 + DigitRun(s[3..]);
      var rest := s[n..];
      ScanTokensOccur(rest);
      HeadToken(s);
      assert ts == [s[..n]] + Scan(rest);
      forall j | 0 <= j < |ts| ensures OccursMaximal(s, ts[j]) {
        if j == 0 {
          assert OccursMaximalAt(s, ts[0], 0);
        } else {
          assert ts[j] == Scan(rest)[j - 1];
          var p :| OccursMaximalAt(rest, ts[j], p);
          OccursShift(s, ts[j], n, p);
        }
      }
    }
  }

  /** No tokens are found exactly when no position of the scanned string
      starts `INC` followed by a digit. */
  lemma {:induction false} ScanEmptyIff(s: string)
    ensures Scan(s) == [] <==> forall i :: 0 <= i < |s| ==> !MatchAt(s, i)
    decreases |s|
  {
    if !MatchAt(s, 0) && s != [] {
      ScanEmptyIff(s[1..]);
      forall i | 1 <= i < |s| ensures MatchAt(s, i) <==> MatchAt(s[1..], i - 1) {
      }
      if Scan(s[1..]) != [] {
        var i :| 0 <= i < |s[1..]| && MatchAt(s[1..], i);
        assert MatchAt(s, i + 1);
      }
    }
  }

  /** The token that starts where a match starts: `INC` and all the
      digits after it. */
  function TokenAt(s: string, i: nat): (t: string)
    requires MatchAt(s, i)
    ensures IsToken(t) && OccursMaximalAt(s, t, i)
  {
    HeadToken(s[i..]);
    OccursShift(s, s[i..][..3 + DigitRun(s[i + 3..])], i, 0);
    assert s[i..][3..] == s[i + 3..];
    s[i..i + 3 + DigitRun(s[i + 3..])]
  }

  /** The reference reading of `findall`: the token at every position from
      `i` on where a match starts, in order of position. */
  function MatchesFrom(s: string, i: nat): seq<string>
    decreases |s| - i
  {
    if i >= |s| then []
    else (if MatchAt(s, i) then [TokenAt(s, i)] else []) + MatchesFrom(s, i + 1)
  }

  /** Dropping a prefix of the string shifts the positions. */
  lemma {:induction false} MatchesFromShift(s: string, k: nat, j: nat)
    requires k <= |s|
    ensures MatchesFrom(s, k + j) == MatchesFrom(s[k..], j)
    decreases |s| - k - j
  {
    if k + j < |s| {
      MatchesFromShift(s, k, j + 1);
      assert MatchAt(s, k + j) <==> MatchAt(s[k..], j);
      if MatchAt(s, k + j) {
        assert s[k + j + 3..] == s[k..][j + 3..];
        assert TokenAt(s, k + j) == TokenAt(s[k..], j);
      }
    }
  }

  /** Positions where no match starts contribute nothing. */
  lemma {:induction false} MatchesFromSkip(s: string, i: nat, j: nat)
    requires i <= j && forall x :: i <= x < j ==> !MatchAt(s, x)
    ensures MatchesFrom(s, i) == MatchesFrom(s, j)
    decreases j - i
  {
    if i < j {
      MatchesFromSkip(s, i + 1, j);
    }
  }

  /** The scanner finds every match: since `N`, `C` and digits cannot start
      another `INC`, no match hides inside a token, so the non-overlapping
      left-to-right scan yields the token at every position where one
      starts. */
  lemma {:induction false} ScanIsAllMatches(s: string)
    ensures Scan(s) == MatchesFrom(s, 0)
    decreases |s|
  {
    if s == [] {
    } else if !MatchAt(s, 0) {
      ScanIsAllMatches(s[1..]);
      MatchesFromShift(s, 1, 0);
    } else {
      var n := 3 + DigitRun(s[3..]);
      ScanIsAllMatches(s[n..]);
      MatchesFromShift(s, n, 0);
      forall x | 1 <= x < n ensures !MatchAt(s, x) {
        if x >= 3 {
          assert s[x] == s[3..][x - 3];
        }
      }
      MatchesFromSkip(s, 1, n);
      assert s[0..][3..] == s[3..];
      assert TokenAt(s, 0) == s[..n];
    }
  }

  /** Upper-casing makes the prefix case-insensitive: a query containing
      `inc` followed by digits yields a token. */
  lemma ExtractFindsLowerCasePrefix(query: string, i: nat)
    requires i + 4 <= |query| && UpperChar(query[i]) == 'I' && UpperChar(query[i + 1]) == 'N'
    requires UpperChar(query[i + 2]) == 'C' && IsDigit(query[i + 3])
    ensures Extract(query) != []
  {
    ScanEmptyIff(Upper(query));
    assert MatchAt(Upper(query), i);
  }

  /** A worked example on an upper-cased query: two incident numbers, one
      glued to a word, the other preceded by a space. */
  lemma ScanExample()
    ensures Scan("XINC42 INC7") == ["INC42", "INC7"]
  {
    var u := "XINC42 INC7";
    var a := u[1..];
    assert !MatchAt(u, 0);
    assert MatchAt(a, 0) && DigitRun(a[3..]) == 2 by {
      assert a[3..] == "42 INC7";
      assert DigitRun("42 INC7") == 1 + DigitRun("2 INC7");
      assert DigitRun("2 INC7") == 1 + DigitRun(" INC7");
    }
    assert a[..5] == "INC42" && a[5..] == " INC7";
    ScanTailExample();
    assert Scan(a) == ["INC42", "INC7"];
  }

  /** The tail of the worked example: a space, then a number alone. */
  lemma ScanTailExample()
    ensures Scan(" INC7") == ["INC7"]
  {
    var b := " INC7";
    assert !MatchAt(b, 0) && b[1..] == "INC7";
    var c := "INC7";
    assert MatchAt(c, 0) && DigitRun(c[3..]) == 1 by {
      assert c[3..] == "7";
      assert DigitRun("7") == 1 + DigitRun([]);
    }
    assert c[..4] == "INC7" && c[4..] == [];
    assert Scan(c) == ["INC7"];
  }
}
