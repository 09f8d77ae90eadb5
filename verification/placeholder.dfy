/**
  The placeholder that stands for the project name inside stored templates.
  Capturing a file replaces the current project name by the placeholder
  (internal/template/template.go); creating a project replaces the
  placeholder by the new name (internal/project/project.go).
 */
module Placeholder {
  import opened Text
  import opened Replace

  const Token: string := "{FLUTTER_ASSIST}"

  /** Capture: every occurrence of the project name becomes the placeholder. */
  function Capture(content: string, projectName: string): string {
    ReplaceAll(content, projectName, Token)
  }

  /** Materialisation: every placeholder becomes the project name. */
  function Materialise(content: string, projectName: string): string {
    ReplaceAll(content, Token, projectName)
  }

  /**
    The placeholder has no proper border: it opens with `{`, and `{` appears
    nowhere else in it.
   */
  lemma TokenShape()
    ensures |Token| == 16 && Token[0] == '{' && Token[15] == '}'
    ensures '{' !in Token[1..]
  {
    assert Token[1..] == "FLUTTER_ASSIST}";
  }

  /**
    A prefix of the captured text that has no `{` was copied from the
    original: no placeholder can start inside it.
   */
  lemma {:induction false} BraceFreePrefixIsCopied(t: string, name: string, w: string)
    requires name != [] && '{' !in w
    requires StartsWith(Capture(t, name), w)
    ensures StartsWith(t, w)
    decreases |t|
  {
    if w != [] && t != [] {
      TokenShape();
      if StartsWith(t, name) {
        assert false;
      } else {
        var rest := Capture(t[1..], name);
        assert Capture(t, name) == [t[0]] + rest;
        assert w[0] == t[0];
        assert StartsWith(rest, w[1..]) by {
          assert rest[..|w| - 1] == ([t[0]] + rest)[1..|w|];
        }
        assert forall c :: c in w[1..] ==> c in w;
        BraceFreePrefixIsCopied(t[1..], name, w[1..]);
        assert t[..|w|] == [t[0]] + t[1..][..|w| - 1];
        assert w == [w[0]] + w[1..];
      }
    }
  }

  /**
    Where the original has no placeholder and no name at its head, the
    captured text does not start with a placeholder either: capture creates
    no spurious placeholder across a copied character.
   */
  lemma CopiedHeadIsNoToken(s: string, name: string)
    requires name != [] && !Occurs(s, Token)
    requires s != [] && !StartsWith(s, name)
    ensures !StartsWith([s[0]] + Capture(s[1..], name), Token)
  {
    var x := [s[0]] + Capture(s[1..], name);
    if StartsWith(x, Token) {
      TokenShape();
      assert s[0] == '{';
      assert StartsWith(Capture(s[1..], name), Token[1..]) by {
        assert Capture(s[1..], name)[..15] == x[1..16];
      }
      BraceFreePrefixIsCopied(s[1..], name, Token[1..]);
      assert false;
    }
  }

  /**
    Capturing with one name and materialising with another renames directly,
    provided the original held no placeholder.
   */
  lemma {:induction false} CaptureThenMaterialise(s: string, name: string, newName: string)
    requires name != [] && !Occurs(s, Token)
    ensures Materialise(Capture(s, name), newName) == ReplaceAll(s, name, newName)
    decreases |s|
  {
    if s == [] {
    } else if StartsWith(s, name) {
      var rest := s[|name|..];
      OccursInSuffixContra(s, |name|);
      CaptureThenMaterialise(rest, name, newName);
      var c := Capture(rest, name);
      assert Capture(s, name) == Token + c;
      assert StartsWith(Token + c, Token) by {
        assert (Token + c)[..|Token|] == Token;
      }
      assert (Token + c)[|Token|..] == c;
    } else {
      CaptureThenMaterialise(s[1..], name, newName);
      var c := Capture(s[1..], name);
      assert Capture(s, name) == [s[0]] + c;
      CopiedHeadIsNoToken(s, name);
      assert ([s[0]] + c)[1..] == c;
    }
  }

  lemma OccursInSuffixContra(s: string, k: nat)
    requires k <= |s| && !Occurs(s, Token)
    ensures !Occurs(s[k..], Token)
  {
    if Occurs(s[k..], Token) {
      OccursInSuffix(s, Token, k);
    }
  }

  /**
    The round trip: a file captured under its project name and materialised
    under the same name comes back unchanged, when it held no placeholder.
   */
  lemma RoundTrip(s: string, name: string)
    requires name != [] && !Occurs(s, Token)
    ensures Materialise(Capture(s, name), name) == s
  {
    CaptureThenMaterialise(s, name, name);
    ReplaceWithItself(s, name);
  }

  /**
    With no `{` in the original or in the new name, the materialised text
    holds no placeholder: every one was replaced and none was formed.
   */
  lemma NoResidualPlaceholder(s: string, name: string, newName: string)
    requires name != [] && '{' !in s && '{' !in newName
    ensures !Occurs(Materialise(Capture(s, name), newName), Token)
  {
    TokenShape();
    AbsentFirstChar(s, Token);
    CaptureThenMaterialise(s, name, newName);
    var r := ReplaceAll(s, name, newName);
    forall c | c in r ensures c != '{' {
      ReplaceChars(s, name, newName, c);
    }
    AbsentFirstChar(r, Token);
  }

  /**
    Without the no-placeholder condition the round trip fails: a file that is
    exactly the placeholder comes back as the project name.
   */
  lemma RoundTripNeedsNoToken(name: string)
    requires name != [] && name[0] !in Token
    ensures Materialise(Capture(Token, name), name) == name
    ensures name != Token
  {
    AbsentFirstChar(Token, name);
    ReplaceAbsent(Token, name, Token);
    ReplaceWhole(Token, name);
  }

  /** An empty project name (nothing typed at the prompt) puts a placeholder around every character. */
  lemma EmptyNameCapture(s: string)
    ensures Capture(s, "") == InsertEverywhere(s, Token)
  {
  }
}
