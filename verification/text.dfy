/**
  The parts of Go's standard library the tool leans on, stated over strings
  (sequences of Unicode scalar values): prefix and suffix tests,
  `strings.TrimPrefix`, `filepath.Base`, `strings.Fields`, `strconv.Atoi`,
  the `%d` formatting of menu numbers and the byte order `os.ReadDir` sorts by.
 */
module Text {
  import opened Wrappers

  predicate StartsWith(s: string, prefix: string) {
    |prefix| <= |s| && s[..|prefix|] == prefix
  }

  predicate HasSuffix(s: string, suffix: string) {
    |suffix| <= |s| && s[|s| - |suffix|..] == suffix
  }

  /** `strings.TrimPrefix`: drops one leading copy of `prefix` if there is one. */
  function TrimPrefix(s: string, prefix: string): (r: string)
    ensures StartsWith(s, prefix) ==> prefix + r == s
    ensures !StartsWith(s, prefix) ==> r == s
  {
    if StartsWith(s, prefix) then s[|prefix|..] else s
  }

  /** A single leading slash is removed and nothing else changes. */
  lemma TrimOneSlash(p: string)
    ensures p != [] && p[0] == '/' ==> TrimPrefix(p, "/") == p[1..]
    ensures (p == [] || p[0] != '/') ==> TrimPrefix(p, "/") == p
    ensures |p| >= 2 && p[0] == '/' && p[1] == '/' ==> StartsWith(TrimPrefix(p, "/"), "/")
  {
    if p != [] && p[0] == '/' {
      assert StartsWith(p, "/");
    }
  }

  // ---------------------------------------------------------------------
  // filepath.Base on Unix paths

  /** The path with all trailing slashes removed. */
  function TrimTrailingSlashes(p: string): (r: string)
    ensures |r| <= |p| && r == p[..|r|]
    ensures r != [] ==> r[|r| - 1] != '/'
    ensures forall i :: |r| <= i < |p| ==> p[i] == '/'
  {
    if p != [] && p[|p| - 1] == '/' then TrimTrailingSlashes(p[..|p| - 1]) else p
  }

  /** The part of `p` after its last slash. */
  function LastElement(p: string): (r: string)
    ensures |r| <= |p| && r == p[|p| - |r|..]
    ensures '/' !in r
    ensures |r| < |p| ==> p[|p| - |r| - 1] == '/'
  {
    if p == [] || p[|p| - 1] == '/' then [] else LastElement(p[..|p| - 1]) + [p[|p| - 1]]
  }

  /**
    `filepath.Base`: the last element of the path after trailing slashes are
    dropped; "." for the empty path and "/" for a path of slashes only.
   */
  function Base(p: string): (r: string)
    ensures r != []
    ensures r == "/" || '/' !in r
  {
    if p == [] then "."
    else
      var q := TrimTrailingSlashes(p);
      if q == [] then "/" else LastElement(q)
  }

  /** For a path that does not end in a slash, Base is its final segment, a suffix of it. */
  lemma BaseIsFinalSegment(p: string)
    requires p != [] && p[|p| - 1] != '/'
    ensures var b := Base(p); |b| <= |p| && p[|p| - |b|..] == b
    ensures var b := Base(p); |b| == |p| || p[|p| - |b| - 1] == '/'
  {
    assert TrimTrailingSlashes(p) == p;
    assert Base(p) == LastElement(p);
  }

  // ---------------------------------------------------------------------
  // strings.Fields

  /** `unicode.IsSpace`: the Unicode White_Space property. */
  predicate IsSpace(c: char) {
    || c == ' ' || c == '\t' || c == '\n' || c == '\r'
    || c == '\U{B}' || c == '\U{C}' || c == '\U{85}' || c == '\U{A0}'
    || c == '\U{1680}' || ('\U{2000}' <= c <= '\U{200A}')
    || c == '\U{2028}' || c == '\U{2029}' || c == '\U{202F}' || c == '\U{205F}'
    || c == '\U{3000}'
  }

  /** A field: a non-empty run of non-space characters. */
  predicate IsField(w: string) {
    w != [] && forall c :: c in w ==> !IsSpace(c)
  }

  /** The longest prefix of `s` without white space. */
  function Word(s: string): (w: string)
    ensures |w| <= |s| && w == s[..|w|]
    ensures forall c :: c in w ==> !IsSpace(c)
    ensures |w| < |s| ==> IsSpace(s[|w|])
    ensures s != [] && !IsSpace(s[0]) ==> w != []
  {
    if s == [] || IsSpace(s[0]) then [] else [s[0]] + Word(s[1..])
  }

  /** `strings.Fields`: the maximal runs of non-space characters, in order. */
  function Fields(s: string): (r: seq<string>)
    ensures forall i :: 0 <= i < |r| ==> IsField(r[i])
    decreases |s|
  {
    if s == [] then []
    else if IsSpace(s[0]) then Fields(s[1..])
    else
      var w := Word(s);
      [w] + Fields(s[|w|..])
  }

  function Flatten(ws: seq<string>): string {
    if ws == [] then [] else ws[0] + Flatten(ws[1..])
  }

  /** The characters of `s` that are not white space, in order. */
  function NonSpace(s: string): string {
    if s == [] then [] else (if IsSpace(s[0]) then [] else [s[0]]) + NonSpace(s[1..])
  }

  lemma {:induction false} NonSpaceOfWord(w: string, rest: string)
    requires forall c :: c in w ==> !IsSpace(c)
    ensures NonSpace(w + rest) == w + NonSpace(rest)
  {
    if w != [] {
      assert (w + rest)[0] == w[0] && (w + rest)[1..] == w[1..] + rest;
      assert w[0] in w;
      assert forall c :: c in w[1..] ==> c in w;
      NonSpaceOfWord(w[1..], rest);
      assert !IsSpace(w[0]);
      calc {
        NonSpace(w + rest);
        [w[0]] + NonSpace(w[1..] + rest);
        [w[0]] + (w[1..] + NonSpace(rest));
        { assert w == [w[0]] + w[1..]; }
        w + NonSpace(rest);
      }
    } else {
      assert w + rest == rest;
    }
  }

  /** Splitting into fields loses exactly the white space: nothing else is dropped or reordered. */
  lemma {:induction false} FieldsKeepNonSpace(s: string)
    ensures Flatten(Fields(s)) == NonSpace(s)
    decreases |s|
  {
    if s == [] {
    } else if IsSpace(s[0]) {
      FieldsKeepNonSpace(s[1..]);
    } else {
      var w := Word(s);
      var rest := s[|w|..];
      FieldsKeepNonSpace(rest);
      assert s == w + rest;
      NonSpaceOfWord(w, rest);
    }
  }

  /** A single field is split into itself. */
  lemma FieldsOfField(w: string)
    requires IsField(w)
    ensures Fields(w) == [w]
  {
    assert Word(w) == w;
    assert w[|w|..] == [];
  }

  /** White space right after `a` ends `a`'s last word there. */
  lemma {:induction false} WordBeforeSpace(a: string, rest: string)
    requires rest == [] || IsSpace(rest[0])
    ensures Word(a + rest) == Word(a)
    decreases |a|
  {
    if a == [] {
      assert a + rest == rest;
    } else {
      assert (a + rest)[0] == a[0] && (a + rest)[1..] == a[1..] + rest;
      WordBeforeSpace(a[1..], rest);
    }
  }

  /**
    A white-space character always separates fields: the fields of
    `a + [c] + b` are the fields of `a` followed by the fields of `b`.
   */
  lemma {:induction false} FieldsSplitAtSpace(a: string, c: char, b: string)
    requires IsSpace(c)
    ensures Fields(a + [c] + b) == Fields(a) + Fields(b)
    decreases |a|
  {
    var s := a + [c] + b;
    if a == [] {
      assert s == [c] + b && s[1..] == b;
    } else if IsSpace(a[0]) {
      assert s[0] == a[0] && s[1..] == a[1..] + [c] + b;
      FieldsSplitAtSpace(a[1..], c, b);
    } else {
      var tail := a[|Word(a)|..];
      FieldsSplitAtSpace(tail, c, b);
      FieldsSplitAfterWord(a, c, b);
    }
  }

  /** The step of `FieldsSplitAtSpace` for an `a` that starts with a word. */
  lemma FieldsSplitAfterWord(a: string, c: char, b: string)
    requires IsSpace(c) && a != [] && !IsSpace(a[0])
    requires Fields(a[|Word(a)|..] + [c] + b) == Fields(a[|Word(a)|..]) + Fields(b)
    ensures Fields(a + [c] + b) == Fields(a) + Fields(b)
  {
    var s := a + ([c] + b);
    var w := Word(a);
    WordBeforeSpace(a, [c] + b);
    assert s[0] == a[0];
    assert Word(s) == w;
    assert s[|w|..] == a[|w|..] + [c] + b;
    assert Fields(s) == [w] + Fields(s[|w|..]);
    assert Fields(a) == [w] + Fields(a[|w|..]);
    assert a + [c] + b == s;
  }

  // ---------------------------------------------------------------------
  // strconv.Atoi and %d

  predicate IsDigit(c: char) {
    '0' <= c <= '9'
  }

  predicate AllDigits(s: string) {
    forall i :: 0 <= i < |s| ==> IsDigit(s[i])
  }

  /** The value of a string of decimal digits. */
  function DigitsValue(ds: string): nat
    requires AllDigits(ds)
  {
    if ds == [] then 0 else 10 * DigitsValue(ds[..|ds| - 1]) + (ds[|ds| - 1] as int - '0' as int)
  }

  /**
    `strconv.Atoi`: an optional `+` or `-` followed by one or more decimal
    digits. Integers are unbounded here; in Go a value beyond 64 bits is an
    error instead, which every caller treats like any out-of-range number.
   */
  function Atoi(tok: string): Option<int> {
    if tok != [] && (tok[0] == '+' || tok[0] == '-') then
      var digits := tok[1..];
      if digits != [] && AllDigits(digits) then
        Some(if tok[0] == '-' then -(DigitsValue(digits) as int) else DigitsValue(digits))
      else None
    else if tok != [] && AllDigits(tok) then Some(DigitsValue(tok))
    else None
  }

  function DigitChar(d: nat): (c: char)
    requires d < 10
    ensures IsDigit(c) && c as int - '0' as int == d
  {
    ('0' as int + d) as char
  }

  /** `fmt` `%d` of a non-negative number: its decimal digits, no sign, no padding. */
  function Itoa(n: nat): (r: string)
    ensures r != [] && AllDigits(r)
  {
    if n < 10 then [DigitChar(n)] else Itoa(n / 10) + [DigitChar(n % 10)]
  }

  lemma {:induction false} DigitsOfItoa(n: nat)
    ensures DigitsValue(Itoa(n)) == n
  {
    if n >= 10 {
      DigitsOfItoa(n / 10);
      var s := Itoa(n);
      assert s[..|s| - 1] == Itoa(n / 10);
    }
  }

  /** Parsing a printed number gives the number back, also with an explicit sign. */
  lemma AtoiOfItoa(n: nat)
    ensures Atoi(Itoa(n)) == Some(n)
    ensures Atoi("+" + Itoa(n)) == Some(n)
    ensures Atoi("-" + Itoa(n)) == Some(-(n as int))
  {
    DigitsOfItoa(n);
    var s := Itoa(n);
    assert s[0] != '+' && s[0] != '-' by { assert IsDigit(s[0]); }
    assert ("+" + s)[1..] == s;
    assert ("-" + s)[1..] == s;
  }

  /** A token with a character that is neither a digit nor a leading sign is rejected. */
  lemma AtoiRejects(tok: string, i: nat)
    requires i < |tok| && !IsDigit(tok[i])
    requires i > 0 || (tok[0] != '+' && tok[0] != '-')
    ensures Atoi(tok) == None
  {
    if tok[0] == '+' || tok[0] == '-' {
      assert tok[1..][i - 1] == tok[i];
    }
  }

  // ---------------------------------------------------------------------
  // Byte order of names, as os.ReadDir sorts them

  /**
    Strict lexicographic order by code point. For valid UTF-8 this is the
    byte order `strings.Compare` uses.
   */
  predicate LexLess(a: string, b: string)
    decreases |a|
  {
    if a == [] then b != []
    else if b == [] then false
    else if a[0] != b[0] then a[0] < b[0]
    else LexLess(a[1..], b[1..])
  }

  lemma {:induction false} LexLessIrreflexive(a: string)
    ensures !LexLess(a, a)
    decreases |a|
  {
    if a != [] {
      LexLessIrreflexive(a[1..]);
    }
  }
}
