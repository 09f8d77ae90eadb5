/**
  `strings.ReplaceAll`: literal, case-sensitive replacement of every
  non-overlapping occurrence, scanning left to right.
 */
module Replace {
  import opened Text

  /** `pat` occurs in `s` at some position. */
  predicate Occurs(s: string, pat: string)
    decreases |s|
  {
    StartsWith(s, pat) || (s != [] && Occurs(s[1..], pat))
  }

  /**
    What Go does for an empty search string: `rep` is inserted before every
    character and once more at the end.
   */
  function InsertEverywhere(s: string, rep: string): string {
    if s == [] then rep else rep + [s[0]] + InsertEverywhere(s[1..], rep)
  }

  function ReplaceAll(s: string, pat: string, rep: string): string
    decreases |s|
  {
    if pat == [] then InsertEverywhere(s, rep)
    else if s == [] then []
    else if StartsWith(s, pat) then rep + ReplaceAll(s[|pat|..], pat, rep)
    else [s[0]] + ReplaceAll(s[1..], pat, rep)
  }

  /** An occurrence in a suffix is an occurrence in the whole string. */
  lemma {:induction false} OccursInSuffix(s: string, pat: string, k: nat)
    requires k <= |s| && Occurs(s[k..], pat)
    ensures Occurs(s, pat)
    decreases k
  {
    if k > 0 {
      assert s[1..][k - 1..] == s[k..];
      OccursInSuffix(s[1..], pat, k - 1);
    }
  }

  /** A string without the first character of `pat` cannot contain `pat`. */
  lemma {:induction false} AbsentFirstChar(s: string, pat: string)
    requires pat != [] && pat[0] !in s
    ensures !Occurs(s, pat)
    decreases |s|
  {
    if s != [] {
      assert s[0] != pat[0];
      assert forall c :: c in s[1..] ==> c in s;
      AbsentFirstChar(s[1..], pat);
    }
  }

  /** When the pattern does not occur, the text comes back unchanged. */
  lemma {:induction false} ReplaceAbsent(s: string, pat: string, rep: string)
    requires pat != [] && !Occurs(s, pat)
    ensures ReplaceAll(s, pat, rep) == s
    decreases |s|
  {
    if s != [] {
      ReplaceAbsent(s[1..], pat, rep);
      assert s == [s[0]] + s[1..];
    }
  }

  /** Replacing a pattern by itself changes nothing, the empty pattern included. */
  lemma {:induction false} ReplaceWithItself(s: string, pat: string)
    ensures ReplaceAll(s, pat, pat) == s
    decreases |s|
  {
    if pat == [] {
      InsertNothing(s);
    } else if s == [] {
    } else if StartsWith(s, pat) {
      ReplaceWithItself(s[|pat|..], pat);
      assert s == s[..|pat|] + s[|pat|..];
    } else {
      ReplaceWithItself(s[1..], pat);
      assert s == [s[0]] + s[1..];
    }
  }

  lemma {:induction false} InsertNothing(s: string)
    ensures InsertEverywhere(s, []) == s
    decreases |s|
  {
    if s != [] {
      InsertNothing(s[1..]);
      assert s == [s[0]] + s[1..];
    }
  }

  /** Every character of the result comes from the text or from the replacement. */
  lemma {:induction false} ReplaceChars(s: string, pat: string, rep: string, c: char)
    requires c in ReplaceAll(s, pat, rep)
    ensures c in s || c in rep
    decreases |s|
  {
    if pat == [] {
      InsertChars(s, rep, c);
    } else if s == [] {
    } else if StartsWith(s, pat) {
      if c !in rep {
        ReplaceChars(s[|pat|..], pat, rep, c);
        assert forall d :: d in s[|pat|..] ==> d in s;
      }
    } else if c != s[0] {
      ReplaceChars(s[1..], pat, rep, c);
      assert forall d :: d in s[1..] ==> d in s;
    }
  }

  lemma {:induction false} InsertChars(s: string, rep: string, c: char)
    requires c in InsertEverywhere(s, rep)
    ensures c in s || c in rep
    decreases |s|
  {
    if s != [] && c !in rep && c != s[0] {
      assert c in InsertEverywhere(s[1..], rep);
      InsertChars(s[1..], rep, c);
      assert forall d :: d in s[1..] ==> d in s;
    }
  }

  /** A text that is exactly the pattern becomes exactly the replacement. */
  lemma ReplaceWhole(pat: string, rep: string)
    requires pat != []
    ensures ReplaceAll(pat, pat, rep) == rep
  {
    assert StartsWith(pat, pat);
    assert pat[|pat|..] == [];
  }

  /** Go's behaviour for an empty search string, on a two-character text. */
  lemma EmptyPatternExample()
    ensures ReplaceAll("ab", "", "X") == "XaXbX"
  {
    assert "ab"[1..] == "b";
    assert "b"[1..] == "";
  }
}
