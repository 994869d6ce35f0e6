// Hand-written matchers for the four fixed regular expressions the analysers
// use. Each `...At` function decides whether the pattern matches starting at a
// given index, the way the regex crate's backtracking would settle it; the
// search functions find the leftmost such index, as `Regex::find`,
// `Regex::captures` and `Regex::captures_iter` do.
module Patterns {
  import opened Text

  // ---------------------------------------------------------------------------
  // `let\s+(\w+)` (src/commands/scan.rs, extract_variable_name)

  /**
   * `let\s+(\w+)` matches at `p`. The whitespace run must be consumed whole
   * (a word character cannot be whitespace), so one test after it decides.
   */
  predicate LetAt(s: string, p: nat) {
    OccursAt(s, "let", p)
    && var q := SkipSpace(s, p + 3);
    q > p + 3 && q < |s| && IsWordChar(s[q])
  }

  /** The leftmost `p' >= p` where `let\s+(\w+)` matches. */
  function FirstLetFrom(s: string, p: nat): Option<nat>
    requires p <= |s|
    decreases |s| - p
  {
    if p == |s| then None
    else if LetAt(s, p) then Some(p)
    else FirstLetFrom(s, p + 1)
  }

  lemma {:induction false} FirstLetFromSpec(s: string, p: nat)
    requires p <= |s|
    ensures var r := FirstLetFrom(s, p);
      && (r.Some? ==> p <= r.value < |s| && LetAt(s, r.value))
      && (r.Some? ==> forall j | p <= j < r.value :: !LetAt(s, j))
      && (r.None? ==> forall j | p <= j <= |s| :: !LetAt(s, j))
    decreases |s| - p
  {
    if p < |s| && !LetAt(s, p) {
      FirstLetFromSpec(s, p + 1);
      var r := FirstLetFrom(s, p + 1);
      assert FirstLetFrom(s, p) == r;
      assert forall j | p <= j < p + 1 :: !LetAt(s, j);
    }
  }

  /** The text of group 1 of the leftmost match of `let\s+(\w+)`, if any. */
  function ExtractVariableName(s: string): (r: Option<string>)
    ensures r.Some? ==> IsWord(r.value)
  {
    match FirstLetFrom(s, 0)
    case None => None
    case Some(p) =>
      FirstLetFromSpec(s, 0);
      var q := SkipSpace(s, p + 3);
      Some(s[q..WordEnd(s, q)])
  }

  /**
   * A reading of `let\s+(\w+)` that does not go through the scanning
   * helpers: "let" at `p`, a non-empty whitespace run up to `q`, and a maximal
   * word run `q..e` (the greedy capture).
   */
  predicate LetMatch(s: string, p: nat, q: nat, e: nat) {
    p + 3 < q < e <= |s| && OccursAt(s, "let", p)
    && AllSpace(s[p + 3..q]) && IsWord(s[q..e]) && (e == |s| || !IsWordChar(s[e]))
  }

  lemma LetAtIff(s: string, p: nat)
    ensures LetAt(s, p) <==> exists q: nat, e: nat :: LetMatch(s, p, q, e)
    ensures LetAt(s, p) ==> LetMatch(s, p, SkipSpace(s, p + 3), WordEnd(s, SkipSpace(s, p + 3)))
  {
    if LetAt(s, p) {
      var q := SkipSpace(s, p + 3);
      var e := WordEnd(s, q);
      assert IsWord(s[q..e]) by {
        forall k | 0 <= k < e - q ensures IsWordChar(s[q..e][k]) { assert s[q..e][k] == s[q + k]; }
      }
      assert LetMatch(s, p, q, e);
    }
    if exists q: nat, e: nat :: LetMatch(s, p, q, e) {
      var q: nat, e: nat :| LetMatch(s, p, q, e);
      forall j | p + 3 <= j < q ensures IsSpace(s[j]) {
        assert s[p + 3..q][j - (p + 3)] == s[j];
      }
      assert s[q..e][0] == s[q];
      SkipSpaceTo(s, p + 3, q);
    }
  }

  /** A whitespace run followed by a non-whitespace character is where `SkipSpace` stops. */
  lemma SkipSpaceTo(s: string, k: nat, q: nat)
    requires k <= q < |s|
    requires forall j | k <= j < q :: IsSpace(s[j])
    requires !IsSpace(s[q])
    ensures SkipSpace(s, k) == q
    decreases q - k
  {
    if k < q {
      SkipSpaceTo(s, k + 1, q);
    }
  }

  /**
   * `extract_variable_name` agrees with the regex: `None` exactly when no
   * match exists, otherwise the capture of the leftmost match.
   */
  lemma {:induction false} ExtractVariableNameSpec(s: string)
    ensures ExtractVariableName(s).None? <==> forall p: nat, q: nat, e: nat :: !LetMatch(s, p, q, e)
    ensures ExtractVariableName(s).Some? ==>
      exists p: nat, q: nat, e: nat :: LetMatch(s, p, q, e) && ExtractVariableName(s).value == s[q..e]
        && forall p': nat, q': nat, e': nat :: LetMatch(s, p', q', e') ==> p <= p'
  {
    FirstLetFromSpec(s, 0);
    match FirstLetFrom(s, 0)
    case None =>
      forall p: nat, q: nat, e: nat ensures !LetMatch(s, p, q, e) {
        if LetMatch(s, p, q, e) {
          LetAtIff(s, p);
        }
      }
    case Some(p) =>
      LetAtIff(s, p);
      var q := SkipSpace(s, p + 3);
      var e := WordEnd(s, q);
      forall p': nat, q': nat, e': nat | LetMatch(s, p', q', e') ensures p <= p' {
        LetAtIff(s, p');
      }
      assert LetMatch(s, p, q, e);
  }

  // ---------------------------------------------------------------------------
  // `(?m)^\s*(?:public\s+)?fun\s+(\w+)` (gas.rs parse_move_functions,
  // coverage.rs calculate_test_coverage)

  /** `^` in multi-line mode: the start of the text or just after a line feed. */
  predicate LineStart(s: string, p: nat) {
    p <= |s| && (p == 0 || s[p - 1] == '\n')
  }

  /**
   * The optional `(?:public\s+)?` between the indentation that ends at `a`
   * and the `fun` at `f`: absent, or `public` and a non-empty whitespace run.
   */
  predicate PublicPrefix(s: string, a: nat, f: nat) {
    f == a || (a + 6 < f <= |s| && OccursAt(s, "public", a) && AllSpace(s[a + 6..f]))
  }

  /**
   * Where `fun` has to start after the indentation that ends at `a`: past
   * `public` and its whitespace when they are there, otherwise at `a`.
   */
  function FunStart(s: string, a: nat): (f: nat)
    requires a <= |s|
    ensures a <= f <= |s| && PublicPrefix(s, a, f)
  {
    if OccursAt(s, "public", a) && SkipSpace(s, a + 6) > a + 6 then
      SpaceSlice(s, a + 6, SkipSpace(s, a + 6));
      SkipSpace(s, a + 6)
    else a
  }

  /**
   * The function-signature pattern matches at `p`; the result is the span of
   * group 1. `\s*` must take the whole whitespace run; `public` is taken when
   * it is followed by whitespace, and when `fun` does not follow it the
   * alternative without `public` fails as well, since the text there starts
   * with `p`, not `f`.
   */
  function SigAt(s: string, p: nat): (r: Option<(nat, nat)>)
    requires p <= |s|
    ensures r.Some? ==> p < r.value.0 < r.value.1 <= |s|
    ensures r.Some? ==> IsWord(s[r.value.0..r.value.1]) && (r.value.1 == |s| || !IsWordChar(s[r.value.1]))
  {
    if !LineStart(s, p) then None
    else
      var a := SkipSpace(s, p);
      var f := FunStart(s, a);
      if !OccursAt(s, "fun", f) then None
      else
        var q := SkipSpace(s, f + 3);
        if q == f + 3 || q == |s| || !IsWordChar(s[q]) then None
        else
          var e := WordEnd(s, q);
          WordSlice(s, q, e);
          Some((q, e))
  }

  /** A run of word characters is a word, and back. */
  lemma WordSlice(s: string, k: nat, r: nat)
    requires k < r <= |s|
    ensures IsWord(s[k..r]) <==> forall j | k <= j < r :: IsWordChar(s[j])
  {
    if forall j | k <= j < r :: IsWordChar(s[j]) {
      forall j | 0 <= j < r - k ensures IsWordChar(s[k..r][j]) { assert s[k..r][j] == s[k + j]; }
    }
    if IsWord(s[k..r]) {
      forall j | k <= j < r ensures IsWordChar(s[j]) { assert s[k..r][j - k] == s[j]; }
    }
  }

  /** Group 1 of every match `captures_iter` yields from `p` on, in order. */
  function SigNamesFrom(s: string, p: nat): (r: seq<string>)
    requires p <= |s|
    ensures forall k | 0 <= k < |r| :: IsWord(r[k])
    decreases |s| - p
  {
    if p == |s| then []
    else match SigAt(s, p)
      case None => SigNamesFrom(s, p + 1)
      case Some((q, e)) => [s[q..e]] + SigNamesFrom(s, e)
  }

  /** The names of all function signatures of a file, in file order. */
  function SigNames(s: string): seq<string> {
    SigNamesFrom(s, 0)
  }

  /**
   * A declaration whose first word after the indentation is `entry`, or
   * `public` followed by `entry`, is not a signature match.
   */
  lemma EntryFunctionsNotMatched(s: string, p: nat)
    requires LineStart(s, p)
    requires var a := SkipSpace(s, p);
      OccursAt(s, "entry", a)
      || (OccursAt(s, "public", a) && OccursAt(s, "entry", SkipSpace(s, a + 6)))
    ensures SigAt(s, p).None?
  {
    var a := SkipSpace(s, p);
    var f := FunStart(s, a);
    OccursAtHead(s, "fun", f);
    OccursAtHead(s, "public", a);
    OccursAtHead(s, "entry", a);
    if OccursAt(s, "entry", a) {
      assert f == a;
    } else {
      var g := SkipSpace(s, a + 6);
      OccursAtHead(s, "entry", g);
      assert f == a || f == g;
    }
    assert !OccursAt(s, "fun", f);
  }

  /** Every signature match starts at a line whose first word is `fun` or `public`. */
  lemma SigAtShape(s: string, p: nat)
    requires p <= |s| && SigAt(s, p).Some?
    ensures LineStart(s, p)
    ensures OccursAt(s, "fun", SkipSpace(s, p)) || OccursAt(s, "public", SkipSpace(s, p))
  {
  }

  /**
   * The part of a signature match before group 1: whitespace `p..a`, the
   * optional `public` prefix up to `f`, `fun` at `f` and a non-empty
   * whitespace run up to `q`.
   */
  predicate SigLayout(s: string, p: nat, a: nat, f: nat, q: nat) {
    p <= a <= f && f + 3 < q <= |s| && AllSpace(s[p..a]) && PublicPrefix(s, a, f)
    && OccursAt(s, "fun", f) && AllSpace(s[f + 3..q])
  }

  /**
   * The regex's own reading of `(?m)^\s*(?:public\s+)?fun\s+(\w+)` matching
   * at `p` with group 1 spanning `q..e`: a line start, the layout above, and
   * a word run that cannot be extended (the greedy `\w+`).
   */
  ghost predicate SigMatch(s: string, p: nat, q: nat, e: nat) {
    LineStart(s, p) && q < e <= |s| && IsWord(s[q..e]) && (e == |s| || !IsWordChar(s[e]))
    && exists a: nat, f: nat :: SigLayout(s, p, a, f, q)
  }

  /** A run of whitespace indices is an all-whitespace slice, and back. */
  lemma SpaceSlice(s: string, k: nat, r: nat)
    requires k <= r <= |s|
    ensures AllSpace(s[k..r]) <==> forall j | k <= j < r :: IsSpace(s[j])
  {
    if AllSpace(s[k..r]) {
      forall j | k <= j < r ensures IsSpace(s[j]) { assert s[k..r][j - k] == s[j]; }
    }
  }

  /** A word run followed by a non-word character is where `WordEnd` stops. */
  lemma WordEndTo(s: string, k: nat, e: nat)
    requires k <= e <= |s|
    requires forall j | k <= j < e :: IsWordChar(s[j])
    requires e == |s| || !IsWordChar(s[e])
    ensures WordEnd(s, k) == e
    decreases e - k
  {
    if k < e {
      WordEndTo(s, k + 1, e);
    }
  }

  /** An all-whitespace slice followed by a non-whitespace character is where `SkipSpace` stops. */
  lemma SkipSpaceAt(s: string, k: nat, r: nat)
    requires k <= r < |s| && AllSpace(s[k..r]) && !IsSpace(s[r])
    ensures SkipSpace(s, k) == r
  {
    SpaceSlice(s, k, r);
    SkipSpaceTo(s, k, r);
  }

  /** A `fun` after the optional `public` prefix is where `FunStart` looks for it. */
  lemma FunStartIs(s: string, a: nat, f: nat)
    requires a <= f && PublicPrefix(s, a, f) && OccursAt(s, "fun", f)
    ensures FunStart(s, a) == f
  {
    OccursAtHead(s, "fun", f);
    OccursAtHead(s, "public", a);
    if f > a {
      SkipSpaceAt(s, a + 6, f);
    }
  }

  /** The positions of a signature layout are the ones `SigAt` computes. */
  lemma SigLayoutPositions(s: string, p: nat, a: nat, f: nat, q: nat)
    requires SigLayout(s, p, a, f, q) && q < |s| && IsWordChar(s[q])
    ensures a == SkipSpace(s, p)
    ensures f == FunStart(s, a)
    ensures q == SkipSpace(s, f + 3)
  {
    OccursAtHead(s, "fun", f);
    OccursAtHead(s, "public", a);
    SkipSpaceAt(s, p, a);
    FunStartIs(s, a, f);
    SkipSpaceAt(s, f + 3, q);
  }

  /** Every match `SigAt` reports is a match of the regex. */
  lemma SigAtSound(s: string, p: nat)
    requires p <= |s| && SigAt(s, p).Some?
    ensures SigMatch(s, p, SigAt(s, p).value.0, SigAt(s, p).value.1)
  {
    var a := SkipSpace(s, p);
    var f := FunStart(s, a);
    var q := SkipSpace(s, f + 3);
    SpaceSlice(s, p, a);
    SpaceSlice(s, f + 3, q);
    assert SigLayout(s, p, a, f, q);
  }

  /** A signature layout followed by a maximal word run is the match `SigAt` reports. */
  lemma SigLayoutFound(s: string, p: nat, a: nat, f: nat, q: nat, e: nat)
    requires LineStart(s, p) && SigLayout(s, p, a, f, q)
    requires q < e <= |s| && forall j | q <= j < e :: IsWordChar(s[j])
    requires e == |s| || !IsWordChar(s[e])
    ensures SigAt(s, p) == Some((q, e))
  {
    SigLayoutPositions(s, p, a, f, q);
    WordEndTo(s, q, e);
  }

  /** Every match of the regex at `p` is the one `SigAt` reports. */
  lemma SigMatchFound(s: string, p: nat, q: nat, e: nat)
    requires SigMatch(s, p, q, e)
    ensures SigAt(s, p) == Some((q, e))
  {
    var a: nat, f: nat :| SigLayout(s, p, a, f, q);
    WordSlice(s, q, e);
    SigLayoutFound(s, p, a, f, q, e);
  }

  /** `SigAt` finds exactly the regex's match at `p`, capture included. */
  lemma SigAtIff(s: string, p: nat, q: nat, e: nat)
    requires p <= |s|
    ensures SigAt(s, p) == Some((q, e)) <==> SigMatch(s, p, q, e)
  {
    if SigAt(s, p) == Some((q, e)) {
      SigAtSound(s, p);
    }
    if SigMatch(s, p, q, e) {
      SigMatchFound(s, p, q, e);
    }
  }

  /** No signature match starts in `[i, j)`. */
  ghost predicate NoSigIn(s: string, i: nat, j: nat) {
    forall p: nat, q: nat, e: nat | i <= p < j :: !SigMatch(s, p, q, e)
  }

  /** The signature match at `p'`, spanning `q..e` in group 1, is the leftmost one at or after `p`. */
  ghost predicate LeftmostSig(s: string, p: nat, p': nat, q: nat, e: nat) {
    p <= p' && SigMatch(s, p', q, e) && NoSigIn(s, p, p')
  }

  /** With no match at `p`, the leftmost match from `p + 1` is the leftmost from `p`. */
  lemma LeftmostSigShift(s: string, p: nat, p': nat, q: nat, e: nat)
    requires NoSigIn(s, p, p + 1) && LeftmostSig(s, p + 1, p', q, e)
    ensures LeftmostSig(s, p, p', q, e)
  {
  }

  /**
   * `captures_iter` from `p`: nothing when no match starts at or after `p`;
   * otherwise the capture of the leftmost such match, followed by the
   * captures of the search resumed at the end of that match.
   */
  lemma {:induction false} SigNamesFromSpec(s: string, p: nat)
    requires p <= |s|
    ensures NoSigIn(s, p, |s| + 1) ==> SigNamesFrom(s, p) == []
    ensures !NoSigIn(s, p, |s| + 1) ==>
      exists p': nat, q: nat, e: nat ::
        LeftmostSig(s, p, p', q, e) && SigNamesFrom(s, p) == [s[q..e]] + SigNamesFrom(s, e)
    decreases |s| - p, 1
  {
    if p < |s| {
      match SigAt(s, p)
      case Some((q, e)) =>
        SigAtIff(s, p, q, e);
        assert LeftmostSig(s, p, p, q, e);
      case None =>
        SigNamesSkip(s, p);
    }
  }

  /** The step of `SigNamesFromSpec` past a position where nothing matches. */
  lemma {:induction false} SigNamesSkip(s: string, p: nat)
    requires p < |s| && SigAt(s, p).None?
    ensures NoSigIn(s, p, |s| + 1) ==> SigNamesFrom(s, p) == []
    ensures !NoSigIn(s, p, |s| + 1) ==>
      exists p': nat, q: nat, e: nat ::
        LeftmostSig(s, p, p', q, e) && SigNamesFrom(s, p) == [s[q..e]] + SigNamesFrom(s, e)
    decreases |s| - p, 0
  {
    forall q: nat, e: nat ensures !SigMatch(s, p, q, e) {
      SigAtIff(s, p, q, e);
    }
    SigNamesFromSpec(s, p + 1);
    assert SigNamesFrom(s, p) == SigNamesFrom(s, p + 1);
    if !NoSigIn(s, p + 1, |s| + 1) {
      var p': nat, q: nat, e: nat :|
        LeftmostSig(s, p + 1, p', q, e) && SigNamesFrom(s, p + 1) == [s[q..e]] + SigNamesFrom(s, e);
      LeftmostSigShift(s, p, p', q, e);
    }
  }

  // ---------------------------------------------------------------------------
  // `fun\s+NAME\s*\([^)]*\)[^{]*\{` (gas.rs estimate_gas_usage)

  /**
   * The header pattern for function `name` matches at `p`; the result is the
   * end of the match, just after the `{`. Each greedy part has exactly one
   * way to continue: `\s+` and `\s*` must take the whole whitespace run (the
   * next token is not whitespace), `[^)]*` runs to the first `)` and `[^{]*`
   * to the first `{`, line feeds included.
   */
  function HeaderAt(s: string, name: string, p: nat): (r: Option<nat>)
    requires IsWord(name) && p <= |s|
    ensures r.Some? ==> p < r.value <= |s| && s[r.value - 1] == '{'
  {
    if !OccursAt(s, "fun", p) then None
    else
      var a := SkipSpace(s, p + 3);
      if a == p + 3 || !OccursAt(s, name, a) then None
      else
        var b := SkipSpace(s, a + |name|);
        if b == |s| || s[b] != '(' then None
        else match IndexOf(s, ')', b + 1)
          case None => None
          case Some(c) =>
            match IndexOf(s, '{', c + 1)
            case None => None
            case Some(d) => Some(d + 1)
  }

  /** The header matches of function `name` in `s`, by start position. */
  function HeaderMatches(s: string, name: string): nat -> Option<nat> {
    (q: nat) => if IsWord(name) && q <= |s| then HeaderAt(s, name, q) else None
  }

  /** `Regex::find` over the whole content: the end offset of the leftmost header match. */
  function FindHeader(s: string, name: string): (r: Option<nat>)
    requires IsWord(name)
    ensures r.Some? ==> r.value <= |s|
  {
    FirstSomeSpec(HeaderMatches(s, name), 0, |s|);
    FirstSome(HeaderMatches(s, name), 0, |s|)
  }

  /** The result is the end of the leftmost match, or there is no match at all. */
  lemma FindHeaderSpec(s: string, name: string)
    requires IsWord(name)
    ensures var r := FindHeader(s, name);
      && (r.Some? ==>
            exists q: nat | q <= |s| :: HeaderAt(s, name, q) == r && forall j: nat | j < q :: HeaderAt(s, name, j).None?)
      && (r.None? ==> forall q: nat | q <= |s| :: HeaderAt(s, name, q).None?)
  {
    var f := HeaderMatches(s, name);
    FirstSomeSpec(f, 0, |s|);
    if FindHeader(s, name).Some? {
      var q :| 0 <= q <= |s| && f(q) == FindHeader(s, name) && forall j | 0 <= j < q :: f(j).None?;
      assert forall j: nat | j < q :: HeaderAt(s, name, j) == f(j);
    } else {
      assert forall q: nat | q <= |s| :: HeaderAt(s, name, q) == f(q);
    }
  }

  /**
   * The regex's own reading of `fun\s+NAME\s*\([^)]*\)[^{]*\{` matching at
   * `p`: `fun`, a non-empty whitespace run up to `a`, the name, whitespace up
   * to the `(` at `b`, no `)` up to the `)` at `c`, and no `{` up to the `{`
   * at `d`, where the match ends.
   */
  predicate HeaderShape(s: string, name: string, p: nat, a: nat, b: nat, c: nat, d: nat) {
    p + 3 < a && a + |name| <= b < c < d < |s|
    && OccursAt(s, "fun", p) && AllSpace(s[p + 3..a])
    && OccursAt(s, name, a) && AllSpace(s[a + |name|..b])
    && s[b] == '(' && ')' !in s[b + 1..c] && s[c] == ')'
    && '{' !in s[c + 1..d] && s[d] == '{'
  }

  /** A character absent from a slice is absent from each of its indices, and back. */
  lemma NotInSlice(s: string, x: char, i: nat, j: nat)
    requires i <= j <= |s|
    ensures x !in s[i..j] <==> forall k | i <= k < j :: s[k] != x
  {
    if x in s[i..j] {
      var m :| 0 <= m < j - i && s[i..j][m] == x;
      assert s[i + m] == x;
    }
    if exists k | i <= k < j :: s[k] == x {
      var k :| i <= k < j && s[k] == x;
      assert s[i..j][k - i] == x;
    }
  }

  /** The first `x` at or after `k` is where `IndexOf` stops. */
  lemma IndexOfTo(s: string, x: char, k: nat, c: nat)
    requires k <= c < |s| && s[c] == x
    requires forall j | k <= j < c :: s[j] != x
    ensures IndexOf(s, x, k) == Some(c)
    decreases c - k
  {
    if k < c {
      IndexOfTo(s, x, k + 1, c);
    }
  }

  /** Every match `HeaderAt` reports has the regex's shape. */
  lemma HeaderAtSound(s: string, name: string, p: nat, d: nat)
    requires IsWord(name) && p <= |s| && HeaderAt(s, name, p) == Some(d + 1)
    ensures exists a: nat, b: nat, c: nat :: HeaderShape(s, name, p, a, b, c, d)
  {
    var a := SkipSpace(s, p + 3);
    var b := SkipSpace(s, a + |name|);
    assert OccursAt(s, "fun", p) && a > p + 3 && OccursAt(s, name, a) && b < |s| && s[b] == '(';
    var c := IndexOf(s, ')', b + 1).value;
    assert IndexOf(s, '{', c + 1) == Some(d);
    SpaceSlice(s, p + 3, a);
    SpaceSlice(s, a + |name|, b);
    NotInSlice(s, ')', b + 1, c);
    NotInSlice(s, '{', c + 1, d);
    assert HeaderShape(s, name, p, a, b, c, d);
  }

  /** The positions of the regex's shape are the ones `HeaderAt` computes. */
  lemma HeaderShapePositions(s: string, name: string, p: nat, a: nat, b: nat, c: nat, d: nat)
    requires IsWord(name) && HeaderShape(s, name, p, a, b, c, d)
    ensures SkipSpace(s, p + 3) == a && SkipSpace(s, a + |name|) == b
    ensures IndexOf(s, ')', b + 1) == Some(c) && IndexOf(s, '{', c + 1) == Some(d)
  {
    OccursAtHead(s, name, a);
    SkipSpaceAt(s, p + 3, a);
    SkipSpaceAt(s, a + |name|, b);
    NotInSlice(s, ')', b + 1, c);
    NotInSlice(s, '{', c + 1, d);
    IndexOfTo(s, ')', b + 1, c);
    IndexOfTo(s, '{', c + 1, d);
  }

  /** Every occurrence of the regex's shape at `p` is the match `HeaderAt` reports. */
  lemma HeaderShapeFound(s: string, name: string, p: nat, a: nat, b: nat, c: nat, d: nat)
    requires IsWord(name) && HeaderShape(s, name, p, a, b, c, d)
    ensures HeaderAt(s, name, p) == Some(d + 1)
  {
    HeaderShapePositions(s, name, p, a, b, c, d);
    assert OccursAt(s, "fun", p) && a > p + 3 && OccursAt(s, name, a);
  }

  /**
   * `HeaderAt` is exactly the regex at `p`: it reports the end `d + 1` just
   * when the text from `p` has the pattern's shape with its `{` at `d`.
   */
  lemma HeaderAtIff(s: string, name: string, p: nat, d: nat)
    requires IsWord(name) && p <= |s|
    ensures HeaderAt(s, name, p) == Some(d + 1) <==> exists a: nat, b: nat, c: nat :: HeaderShape(s, name, p, a, b, c, d)
  {
    if HeaderAt(s, name, p) == Some(d + 1) {
      HeaderAtSound(s, name, p, d);
    }
    if exists a: nat, b: nat, c: nat :: HeaderShape(s, name, p, a, b, c, d) {
      var a: nat, b: nat, c: nat :| HeaderShape(s, name, p, a, b, c, d);
      HeaderShapeFound(s, name, p, a, b, c, d);
    }
  }

  /** The pattern for `name` matches at `p` and ends after the `{` at `d`. */
  ghost predicate HeaderMatch(s: string, name: string, p: nat, d: nat) {
    exists a: nat, b: nat, c: nat :: HeaderShape(s, name, p, a, b, c, d)
  }

  /** `HeaderMatch` and `HeaderAt` agree at every start position. */
  lemma HeaderMatchAt(s: string, name: string, p: nat, d: nat)
    requires IsWord(name)
    ensures HeaderMatch(s, name, p, d) <==> p <= |s| && HeaderAt(s, name, p) == Some(d + 1)
  {
    if HeaderMatch(s, name, p, d) {
      var a: nat, b: nat, c: nat :| HeaderShape(s, name, p, a, b, c, d);
      HeaderShapeFound(s, name, p, a, b, c, d);
    }
    if p <= |s| {
      HeaderAtIff(s, name, p, d);
    }
  }

  /** The pattern for `name` starts nowhere in `[i, j)`. */
  ghost predicate NoHeaderIn(s: string, name: string, i: nat, j: nat) {
    forall p: nat, d: nat | i <= p < j :: !HeaderMatch(s, name, p, d)
  }

  /** The occurrence at `p`, ending after the `{` at `d`, is the leftmost one at or after `i`. */
  ghost predicate LeftmostHeader(s: string, name: string, i: nat, p: nat, d: nat) {
    i <= p && HeaderMatch(s, name, p, d) && NoHeaderIn(s, name, i, p)
  }

  /**
   * The search from `i` in the regex's own terms: nothing exactly when the
   * pattern starts nowhere at or after `i`; otherwise the end of the leftmost
   * occurrence.
   */
  lemma {:induction false} FindHeaderFrom(s: string, name: string, i: nat)
    requires IsWord(name) && i <= |s| + 1
    ensures var r := FirstSome(HeaderMatches(s, name), i, |s|);
      && (r.None? <==> NoHeaderIn(s, name, i, |s| + 1))
      && (r.Some? ==> exists p: nat, d: nat :: r == Some(d + 1) && LeftmostHeader(s, name, i, p, d))
    decreases |s| + 1 - i, 1
  {
    if i <= |s| {
      match HeaderAt(s, name, i)
      case Some(v) =>
        var d: nat := v - 1;
        HeaderMatchAt(s, name, i, d);
        assert LeftmostHeader(s, name, i, i, d);
      case None =>
        HeaderSkipStep(s, name, i);
        FindHeaderSkip(s, name, i);
    }
  }

  /** With no occurrence at `i`, emptiness and leftmost occurrences from `i + 1` carry over to `i`. */
  lemma HeaderShift(s: string, name: string, i: nat, p: nat, d: nat, n: nat)
    requires NoHeaderIn(s, name, i, i + 1) && i < n
    ensures NoHeaderIn(s, name, i, n) <==> NoHeaderIn(s, name, i + 1, n)
    ensures LeftmostHeader(s, name, i + 1, p, d) ==> LeftmostHeader(s, name, i, p, d)
  {
  }

  /** No occurrence starts at `i`, and the search from `i` is the search from `i + 1`. */
  lemma HeaderSkipStep(s: string, name: string, i: nat)
    requires IsWord(name) && i <= |s| && HeaderAt(s, name, i).None?
    ensures NoHeaderIn(s, name, i, i + 1)
    ensures FirstSome(HeaderMatches(s, name), i, |s|) == FirstSome(HeaderMatches(s, name), i + 1, |s|)
  {
    forall d: nat ensures !HeaderMatch(s, name, i, d) {
      HeaderMatchAt(s, name, i, d);
    }
    assert HeaderMatches(s, name)(i).None?;
  }

  /** The step of `FindHeaderFrom` past a position where the pattern does not start. */
  lemma {:induction false} FindHeaderSkip(s: string, name: string, i: nat)
    requires IsWord(name) && i <= |s| && NoHeaderIn(s, name, i, i + 1)
    requires FirstSome(HeaderMatches(s, name), i, |s|) == FirstSome(HeaderMatches(s, name), i + 1, |s|)
    ensures var r := FirstSome(HeaderMatches(s, name), i, |s|);
      && (r.None? <==> NoHeaderIn(s, name, i, |s| + 1))
      && (r.Some? ==> exists p: nat, d: nat :: r == Some(d + 1) && LeftmostHeader(s, name, i, p, d))
    decreases |s| + 1 - i, 0
  {
    FindHeaderFrom(s, name, i + 1);
    var r := FirstSome(HeaderMatches(s, name), i + 1, |s|);
    if r.Some? {
      var p: nat, d: nat :| r == Some(d + 1) && LeftmostHeader(s, name, i + 1, p, d);
      HeaderShift(s, name, i, p, d, |s| + 1);
    } else {
      HeaderShift(s, name, i, 0, 0, |s| + 1);
    }
  }

  /**
   * `Regex::find` in the regex's own terms: `None` exactly when the pattern
   * occurs nowhere; otherwise the end of the occurrence that starts leftmost.
   */
  lemma FindHeaderShape(s: string, name: string)
    requires IsWord(name)
    ensures FindHeader(s, name).None? <==> NoHeaderIn(s, name, 0, |s| + 1)
    ensures FindHeader(s, name).Some? ==> exists p: nat, d: nat :: FindHeader(s, name) == Some(d + 1) && LeftmostHeader(s, name, 0, p, d)
  {
    FindHeaderFrom(s, name, 0);
  }

  // ---------------------------------------------------------------------------
  // `(\w+\s*\*\s*\w+|\w+\s*/\s*\w+)` (gas.rs analyze_for_optimizations)

  /**
   * The calculation pattern matches around the operator at `k`: skipping
   * whitespace backwards from it reaches a word character, and so does
   * skipping whitespace forwards.
   */
  predicate CalcAt(s: string, k: nat) {
    k < |s| && (s[k] == '*' || s[k] == '/')
    && var a := SpaceRunStart(s, k);
    a > 0 && IsWordChar(s[a - 1])
    && var b := SkipSpace(s, k + 1);
    b < |s| && IsWordChar(s[b])
  }

  /** `calculation_pattern.is_match(line)`. */
  predicate CalcMatch(s: string) {
    exists k | 0 <= k < |s| :: CalcAt(s, k)
  }

  /**
   * The regex's own reading: a word character, optional whitespace, `*` or
   * `/`, optional whitespace, a word character. One character on each side is
   * enough, since `\w+` may stop anywhere inside a longer word.
   */
  predicate CalcShape(s: string, a: nat, k: nat, b: nat) {
    a < k < b < |s| && IsWordChar(s[a]) && (s[k] == '*' || s[k] == '/')
    && AllSpace(s[a + 1..k]) && AllSpace(s[k + 1..b]) && IsWordChar(s[b])
  }

  /** A whitespace run preceded by a non-whitespace character is where `SpaceRunStart` stops. */
  lemma SpaceRunStartTo(s: string, k: nat, a: nat)
    requires a < k <= |s|
    requires forall j | a + 1 <= j < k :: IsSpace(s[j])
    requires !IsSpace(s[a])
    ensures SpaceRunStart(s, k) == a + 1
    decreases k - a
  {
    if k > a + 1 {
      SpaceRunStartTo(s, k - 1, a);
    }
  }

  /** A match around an operator has the regex's shape. */
  lemma CalcAtShape(s: string, k: nat)
    requires CalcAt(s, k)
    ensures CalcShape(s, SpaceRunStart(s, k) - 1, k, SkipSpace(s, k + 1))
  {
    var a := SpaceRunStart(s, k) - 1;
    var b := SkipSpace(s, k + 1);
    var left := s[a + 1..k];
    var right := s[k + 1..b];
    forall j | 0 <= j < |left| ensures IsSpace(left[j]) {
      assert left[j] == s[a + 1 + j];
    }
    forall j | 0 <= j < |right| ensures IsSpace(right[j]) {
      assert right[j] == s[k + 1 + j];
    }
  }

  /** Text of the regex's shape matches around its operator. */
  lemma ShapeCalcAt(s: string, a: nat, k: nat, b: nat)
    requires CalcShape(s, a, k, b)
    ensures CalcAt(s, k)
  {
    var left := s[a + 1..k];
    var right := s[k + 1..b];
    forall j | a + 1 <= j < k ensures IsSpace(s[j]) {
      assert left[j - (a + 1)] == s[j];
    }
    forall j | k + 1 <= j < b ensures IsSpace(s[j]) {
      assert right[j - (k + 1)] == s[j];
    }
    SpaceRunStartTo(s, k, a);
    SkipSpaceTo(s, k + 1, b);
  }

  /** `CalcMatch` is exactly the regex: some operator with a word character on each side. */
  lemma CalcMatchIff(s: string)
    ensures CalcMatch(s) <==> exists a: nat, k: nat, b: nat :: CalcShape(s, a, k, b)
  {
    if CalcMatch(s) {
      var k :| 0 <= k < |s| && CalcAt(s, k);
      CalcAtShape(s, k);
    }
    if exists a: nat, k: nat, b: nat :: CalcShape(s, a, k, b) {
      var a: nat, k: nat, b: nat :| CalcShape(s, a, k, b);
      ShapeCalcAt(s, a, k, b);
    }
  }
}
