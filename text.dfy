// Text primitives shared by the three analysers: the loaded corpus, substring
// search and non-overlapping occurrence counts (`str::contains`,
// `str::matches(..).count()`), line splitting (`str::lines`), trimming,
// whitespace and word characters, line windows (`iter().skip(a).take(n)`) and
// decimal formatting of line numbers.
module Text {

  datatype Option<T> = None | Some(value: T)

  /** A `.move` file as handed over by the directory walker: its display path and its text. */
  datatype SourceFile = SourceFile(path: string, content: string)

  function Min(a: int, b: int): int { if a <= b then a else b }

  /** `usize::saturating_sub`. */
  function SatSub(a: nat, b: nat): nat { if a >= b then a - b else 0 }

  // ---------------------------------------------------------------------------
  // Substrings

  /** `t` occurs in `s` starting at index `k`. */
  predicate OccursAt(s: string, t: string, k: nat) {
    k + |t| <= |s| && s[k..k + |t|] == t
  }

  /** `str::contains` with a string pattern. */
  predicate Contains(s: string, t: string) {
    exists k: nat | k <= |s| :: OccursAt(s, t, k)
  }

  /** `str::starts_with` with a string pattern. */
  predicate StartsWith(s: string, p: string) {
    OccursAt(s, p, 0)
  }

  /** An occurrence of a non-empty pattern starts with the pattern's first character. */
  lemma OccursAtHead(s: string, t: string, k: nat)
    requires |t| > 0
    ensures OccursAt(s, t, k) ==> k < |s| && s[k] == t[0]
  {
    if OccursAt(s, t, k) {
      assert s[k..k + |t|][0] == s[k];
    }
  }

  /** An occurrence is either at the front or in the tail. */
  lemma ContainsStep(s: string, t: string)
    requires |s| > 0
    ensures Contains(s, t) <==> StartsWith(s, t) || Contains(s[1..], t)
  {
    if Contains(s[1..], t) {
      var k: nat :| k <= |s| - 1 && OccursAt(s[1..], t, k);
      assert s[1..][k..k + |t|] == s[k + 1..k + 1 + |t|];
      assert OccursAt(s, t, k + 1);
    }
    if Contains(s, t) && !StartsWith(s, t) {
      var k: nat :| k <= |s| && OccursAt(s, t, k);
      assert k > 0;
      assert s[1..][k - 1..k - 1 + |t|] == s[k..k + |t|];
      assert OccursAt(s[1..], t, k - 1);
    }
  }

  /**
   * `s.matches(t).count()` for a non-empty pattern: occurrences found left to
   * right, each search resuming after the previous occurrence, so they never
   * overlap.
   */
  function CountOcc(s: string, t: string): (r: nat)
    requires |t| > 0
    ensures r > 0 <==> Contains(s, t)
    ensures r * |t| <= |s|
    decreases |s|
  {
    if |s| < |t| then
      0
    else if s[..|t|] == t then
      assert OccursAt(s, t, 0);
      var rest := CountOcc(s[|t|..], t);
      MulSucc(rest, |t|, |s|);
      1 + rest
    else
      ContainsStep(s, t);
      CountOcc(s[1..], t)
  }

  /** One more block of `m` still fits when `a` blocks fit in `n - m`. */
  lemma MulSucc(a: nat, m: nat, n: nat)
    requires m <= n && a * m <= n - m
    ensures (1 + a) * m <= n
  {
    assert (1 + a) * m == m + a * m;
  }

  // The next three lemmas show that a suffix never holds more occurrences than
  // the text it was cut from, although the leftmost scan may pair characters
  // differently in the two.

  /** Dropping the first character never raises the count. */
  lemma {:induction false} CountOccDropOne(s: string, t: string)
    requires |t| > 0 && |s| > 0
    ensures CountOcc(s[1..], t) <= CountOcc(s, t)
    decreases |s|, 0
  {
    if |s| < |t| {
    } else if s[..|t|] == t {
      CountOccDropShort(s[1..], t, |t| - 1);
      assert s[1..][|t| - 1..] == s[|t|..];
    }
  }

  /** Dropping at most `|t|` characters loses at most one occurrence. */
  lemma {:induction false} CountOccDropShort(x: string, t: string, m: nat)
    requires |t| > 0 && m <= |t| && m <= |x|
    ensures CountOcc(x, t) <= 1 + CountOcc(x[m..], t)
    decreases |x|, 2
  {
    if m == 0 {
      assert x[0..] == x;
    } else if |x| < |t| {
    } else if x[..|t|] == t {
      CountOccDropPrefix(x[m..], t, |t| - m);
      assert x[m..][|t| - m..] == x[|t|..];
    } else {
      CountOccDropShort(x[1..], t, m - 1);
      assert x[1..][m - 1..] == x[m..];
    }
  }

  /** Dropping any prefix never raises the count. */
  lemma {:induction false} CountOccDropPrefix(y: string, t: string, d: nat)
    requires |t| > 0 && d <= |y|
    ensures CountOcc(y[d..], t) <= CountOcc(y, t)
    decreases |y|, 1
  {
    if d == 0 {
      assert y[0..] == y;
    } else {
      CountOccDropOne(y, t);
      CountOccDropPrefix(y[1..], t, d - 1);
      assert y[1..][d - 1..] == y[d..];
    }
  }

  /** A region that starts later holds no more occurrences than one that starts earlier. */
  lemma SuffixCountMonotone(s: string, t: string, j: nat, m: nat)
    requires |t| > 0 && j <= m <= |s|
    ensures CountOcc(s[m..], t) <= CountOcc(s[j..], t)
  {
    CountOccDropPrefix(s[j..], t, m - j);
    assert s[j..][m - j..] == s[m..];
  }

  // ---------------------------------------------------------------------------
  // Characters

  /** Unicode `White_Space`: what `\s` in the regex crate and `str::trim` remove. */
  predicate IsSpace(c: char) {
    var n := c as int;
    (9 <= n <= 13) || n == 32 || n == 0x85 || n == 0xA0 || n == 0x1680
    || (0x2000 <= n <= 0x200A) || n == 0x2028 || n == 0x2029 || n == 0x202F
    || n == 0x205F || n == 0x3000
  }

  /** `\w`, restricted to ASCII: letters, digits and `_`. */
  predicate IsWordChar(c: char) {
    ('a' <= c <= 'z') || ('A' <= c <= 'Z') || ('0' <= c <= '9') || c == '_'
  }

  predicate IsWord(s: string) {
    |s| > 0 && forall k | 0 <= k < |s| :: IsWordChar(s[k])
  }

  predicate AllSpace(s: string) {
    forall k | 0 <= k < |s| :: IsSpace(s[k])
  }

  /** The end of the whitespace run that starts at `k` (a greedy `\s*` from `k`). */
  function SkipSpace(s: string, k: nat): (r: nat)
    requires k <= |s|
    ensures k <= r <= |s|
    ensures forall j | k <= j < r :: IsSpace(s[j])
    ensures r == |s| || !IsSpace(s[r])
    decreases |s| - k
  {
    if k == |s| || !IsSpace(s[k]) then k else SkipSpace(s, k + 1)
  }

  /** The end of the word run that starts at `k` (a greedy `\w*` from `k`). */
  function WordEnd(s: string, k: nat): (r: nat)
    requires k <= |s|
    ensures k <= r <= |s|
    ensures forall j | k <= j < r :: IsWordChar(s[j])
    ensures r == |s| || !IsWordChar(s[r])
    decreases |s| - k
  {
    if k == |s| || !IsWordChar(s[k]) then k else WordEnd(s, k + 1)
  }

  /** The start of the whitespace run that ends at `k`. */
  function SpaceRunStart(s: string, k: nat): (r: nat)
    requires k <= |s|
    ensures r <= k
    ensures forall j | r <= j < k :: IsSpace(s[j])
    ensures r == 0 || !IsSpace(s[r - 1])
    decreases k
  {
    if k == 0 || !IsSpace(s[k - 1]) then k else SpaceRunStart(s, k - 1)
  }

  /** The first `f(q)` that is present, for `q` from `p` up to `n` inclusive. */
  function FirstSome(f: nat -> Option<nat>, p: nat, n: nat): Option<nat>
    decreases n + 1 - p
  {
    if p > n then None
    else if f(p).Some? then f(p)
    else FirstSome(f, p + 1, n)
  }

  /** The search returns the leftmost present value, or proves there is none. */
  lemma {:induction false} FirstSomeSpec(f: nat -> Option<nat>, p: nat, n: nat)
    ensures var r := FirstSome(f, p, n);
      && (r.Some? ==> exists q | p <= q <= n :: f(q) == r && forall j | p <= j < q :: f(j).None?)
      && (r.None? ==> forall q | p <= q <= n :: f(q).None?)
    decreases n + 1 - p
  {
    if p <= n && f(p).None? {
      FirstSomeSpec(f, p + 1, n);
      if FirstSome(f, p, n).Some? {
        var q :| p + 1 <= q <= n && f(q) == FirstSome(f, p, n) && forall j | p + 1 <= j < q :: f(j).None?;
        assert forall j | p <= j < q :: f(j).None?;
      }
    }
  }

  /** The first index at or after `k` that holds `c`. */
  function IndexOf(s: string, c: char, k: nat): (r: Option<nat>)
    requires k <= |s|
    ensures r.Some? ==> k <= r.value < |s| && s[r.value] == c
    ensures r.Some? ==> forall j | k <= j < r.value :: s[j] != c
    ensures r.None? ==> forall j | k <= j < |s| :: s[j] != c
    decreases |s| - k
  {
    if k == |s| then None
    else if s[k] == c then Some(k)
    else IndexOf(s, c, k + 1)
  }

  /** The last index that holds `c`. */
  function LastIndexOf(s: string, c: char): (r: Option<nat>)
    ensures r.Some? ==> r.value < |s| && s[r.value] == c
    ensures r.Some? ==> forall j | r.value < j < |s| :: s[j] != c
    ensures r.None? ==> forall j | 0 <= j < |s| :: s[j] != c
    decreases |s|
  {
    if s == [] then None
    else if s[|s| - 1] == c then Some(|s| - 1)
    else LastIndexOf(s[..|s| - 1], c)
  }

  // ---------------------------------------------------------------------------
  // Trimming

  /** The bounds of `str::trim`: the text left after removing leading and trailing whitespace. */
  function TrimBounds(s: string): (r: (nat, nat))
    ensures r.0 <= r.1 <= |s|
    ensures AllSpace(s[..r.0]) && AllSpace(s[r.1..])
    ensures r.0 < r.1 ==> !IsSpace(s[r.0]) && !IsSpace(s[r.1 - 1])
  {
    var a := SkipSpace(s, 0);
    var b := SpaceRunStart(s, |s|);
    if b <= a then (a, a) else (a, b)
  }

  function Trim(s: string): string {
    s[TrimBounds(s).0..TrimBounds(s).1]
  }

  /** A line trims to nothing exactly when it is all whitespace. */
  lemma TrimEmptyIff(s: string)
    ensures Trim(s) == [] <==> AllSpace(s)
  {
    var (a, b) := TrimBounds(s);
    if Trim(s) == [] {
      assert s == s[..a] + s[b..];
    }
  }

  // ---------------------------------------------------------------------------
  // Lines

  /**
   * `str::lines` on text whose lines end in `\n`: the pieces between line
   * feeds, without a final empty piece when the text ends in a line feed.
   */
  function Lines(s: string): (r: seq<string>)
    ensures forall k | 0 <= k < |r| :: '\n' !in r[k]
    decreases |s|
  {
    if s == [] then []
    else match IndexOf(s, '\n', 0)
      case None => [s]
      case Some(k) => [s[..k]] + Lines(s[k + 1..])
  }

  /** Every line followed by a line feed. */
  function Unlines(ls: seq<string>): string {
    if ls == [] then [] else ls[0] + "\n" + Unlines(ls[1..])
  }

  /** Splitting into lines loses nothing but a missing final line feed. */
  lemma {:induction false} LinesRoundTrip(s: string)
    ensures Unlines(Lines(s)) == if s == [] || s[|s| - 1] == '\n' then s else s + "\n"
    decreases |s|
  {
    if s != [] {
      match IndexOf(s, '\n', 0)
      case None =>
        assert Lines(s) == [s];
        assert Unlines([s][1..]) == [];
      case Some(k) =>
        var head, rest := s[..k], s[k + 1..];
        LinesRoundTrip(rest);
        UnlinesCons(head, Lines(rest));
        RoundTripStep(s, k, Unlines(Lines(rest)));
    }
  }

  /** Re-joining at the first line feed `k` of `s`, given the round trip of what follows it. */
  lemma RoundTripStep(s: string, k: nat, u: string)
    requires k < |s| && s[k] == '\n'
    requires var rest := s[k + 1..]; u == if rest == [] || rest[|rest| - 1] == '\n' then rest else rest + "\n"
    ensures s[..k] + "\n" + u == if s[|s| - 1] == '\n' then s else s + "\n"
  {
    var head, rest := s[..k], s[k + 1..];
    assert s == head + "\n" + rest;
    if rest != [] {
      assert rest[|rest| - 1] == s[|s| - 1];
      if s[|s| - 1] != '\n' {
        assert head + "\n" + (rest + "\n") == (head + "\n" + rest) + "\n";
      }
    }
  }

  /** Joining a line in front of others puts it and a line feed first. */
  lemma UnlinesCons(head: string, ls: seq<string>)
    ensures Unlines([head] + ls) == head + "\n" + Unlines(ls)
  {
    assert ([head] + ls)[1..] == ls;
  }

  /** `lines.iter().skip(a).take(n)`: at most `n` lines from index `a`, clipped at the end. */
  function Window(lines: seq<string>, a: nat, n: nat): seq<string> {
    lines[Min(a, |lines|)..Min(a + n, |lines|)]
  }

  /** `iter().any(p)` over a slice of lines. */
  predicate AnyLine(w: seq<string>, p: string -> bool) {
    exists k | 0 <= k < |w| :: p(w[k])
  }

  /** `iter().filter(p).count()` over a slice of lines. */
  function CountIf(w: seq<string>, p: string -> bool): (r: nat)
    ensures r <= |w|
    ensures r > 0 <==> AnyLine(w, p)
  {
    if w == [] then 0
    else
      assert forall k | 1 <= k < |w| :: w[1..][k - 1] == w[k];
      CountIf(w[..|w| - 1], p) + (if p(w[|w| - 1]) then 1 else 0)
  }

  /** `iter().filter(p).collect()` over lines: those that pass the test, in order. */
  function Filter(w: seq<string>, p: string -> bool): seq<string> {
    if w == [] then []
    else Filter(w[..|w| - 1], p) + (if p(w[|w| - 1]) then [w[|w| - 1]] else [])
  }

  /** The filter keeps only lines that pass, keeps every line that passes, and keeps as many as pass. */
  lemma {:induction false} FilterSpec(w: seq<string>, p: string -> bool)
    ensures forall k | 0 <= k < |Filter(w, p)| :: p(Filter(w, p)[k])
    ensures forall k | 0 <= k < |w| && p(w[k]) :: w[k] in Filter(w, p)
    ensures |Filter(w, p)| == CountIf(w, p)
  {
    if w != [] {
      var init := w[..|w| - 1];
      FilterSpec(init, p);
      assert forall k | 0 <= k < |init| :: init[k] == w[k];
    }
  }

  /** At least two lines pass the test exactly when two different lines do. */
  lemma {:induction false} CountIfTwo(w: seq<string>, p: string -> bool)
    ensures CountIf(w, p) > 1 <==> exists a, b | 0 <= a < b < |w| :: p(w[a]) && p(w[b])
  {
    if w != [] {
      var init := w[..|w| - 1];
      CountIfTwo(init, p);
      if CountIf(w, p) > 1 && CountIf(init, p) <= 1 {
        var a :| 0 <= a < |init| && p(init[a]);
        assert w[a] == init[a];
        assert p(w[|w| - 1]);
      }
      if exists a, b | 0 <= a < b < |w| :: p(w[a]) && p(w[b]) {
        var a, b :| 0 <= a < b < |w| && p(w[a]) && p(w[b]);
        assert w[a] == init[a];
        if b < |init| {
          assert w[b] == init[b];
        } else {
          assert AnyLine(init, p);
        }
      }
    }
  }

  /** Two lines of a window pass the test exactly when two of the lines it covers do. */
  lemma CountIfTwoWindow(lines: seq<string>, a: nat, n: nat, p: string -> bool)
    ensures CountIf(Window(lines, a, n), p) > 1
        <==> exists j1, j2 | a <= j1 < j2 < Min(a + n, |lines|) :: p(lines[j1]) && p(lines[j2])
  {
    var w := Window(lines, a, n);
    CountIfTwo(w, p);
    if a < |lines| {
      assert forall k | 0 <= k < |w| :: w[k] == lines[a + k];
      if exists j1, j2 | a <= j1 < j2 < Min(a + n, |lines|) :: p(lines[j1]) && p(lines[j2]) {
        var j1, j2 :| a <= j1 < j2 < Min(a + n, |lines|) && p(lines[j1]) && p(lines[j2]);
        assert p(w[j1 - a]) && p(w[j2 - a]);
      }
    }
  }

  /** A window test is a test over the line indices the window covers. */
  lemma AnyLineWindow(lines: seq<string>, a: nat, n: nat, p: string -> bool)
    ensures AnyLine(Window(lines, a, n), p)
        <==> exists j | a <= j < Min(a + n, |lines|) :: p(lines[j])
  {
    var w := Window(lines, a, n);
    if AnyLine(w, p) {
      var k :| 0 <= k < |w| && p(w[k]);
      assert w[k] == lines[Min(a, |lines|) + k];
    }
    if exists j | a <= j < Min(a + n, |lines|) :: p(lines[j]) {
      var j :| a <= j < Min(a + n, |lines|) && p(lines[j]);
      assert w[j - a] == lines[j];
    }
  }

  // ---------------------------------------------------------------------------
  // Decimal numbers

  function DigitChar(d: nat): char
    requires d < 10
  {
    ('0' as int + d) as char
  }

  /** `format!("{}", n)` for an unsigned integer. */
  function NatToString(n: nat): (r: string)
    ensures |r| > 0 && forall k | 0 <= k < |r| :: '0' <= r[k] <= '9'
  {
    if n < 10 then [DigitChar(n)] else NatToString(n / 10) + [DigitChar(n % 10)]
  }

  /** The value of a string of decimal digits. */
  function ParseDecimal(s: string): int {
    if s == [] then 0 else 10 * ParseDecimal(s[..|s| - 1]) + (s[|s| - 1] as int - '0' as int)
  }

  /** Printing a number in decimal loses nothing. */
  lemma {:induction false} NatToStringRoundTrip(n: nat)
    ensures ParseDecimal(NatToString(n)) == n
  {
    if n >= 10 {
      NatToStringRoundTrip(n / 10);
      var s := NatToString(n);
      assert s[..|s| - 1] == NatToString(n / 10);
    } else {
      assert NatToString(n)[..0] == [];
    }
  }

  // ---------------------------------------------------------------------------
  // Report locations

  /**
   * Where a finding or a suggestion was made: the file and the one-based
   * line. The source keeps it as the rendered string `file:line`; `Render`
   * produces it.
   */
  datatype SourceLocation = SourceLocation(file: string, line: nat) {
    /** `format!("{}:{}", file_name, line)`. */
    function Render(): string {
      file + ":" + NatToString(line)
    }
  }

  /** Line `i` of a file, counted from 0, is reported as line `i + 1`. */
  function Location(fileName: string, i: nat): SourceLocation {
    SourceLocation(fileName, i + 1)
  }

  /** The rendered location names its file and, in decimal, the line number. */
  lemma RenderRoundTrip(loc: SourceLocation)
    ensures var r := loc.Render();
      && r[..|loc.file| + 1] == loc.file + ":"
      && ParseDecimal(r[|loc.file| + 1..]) == loc.line
  {
    var r := loc.Render();
    assert r[|loc.file| + 1..] == NatToString(loc.line);
    NatToStringRoundTrip(loc.line);
  }
}
