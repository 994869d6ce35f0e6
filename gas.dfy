// The gas estimator and optimisation advisor of `suiforge gas`
// (src/commands/gas.rs): a linear cost formula over marker counts taken from a
// function's opening brace to the end of its file, one profile per function
// signature, four line rules that suggest savings, the five largest kept, and
// the statistics of the `analyze` report.
module Gas {
  import opened Text
  import opened Patterns
  import Ranking

  // ---------------------------------------------------------------------------
  // Estimating one function (estimate_gas_usage)

  // The five markers whose occurrences are priced.
  const ObjectNew: string := "object::new"
  const TableOp: string := "table::"
  const TransferOp: string := "transfer::"
  const VectorOp: string := "vector::"
  const BalanceOp: string := "balance::"

  /** The charge every estimate carries, matched or not. */
  const BaseCost: nat := 200

  datatype GasEstimate = GasEstimate(total: nat, storage: nat, computation: nat)

  /** 500 per object created, 300 per table operation. */
  function StorageCost(region: string): nat {
    500 * CountOcc(region, ObjectNew) + 300 * CountOcc(region, TableOp)
  }

  /** 200 per transfer, 50 per vector operation, 100 per balance operation. */
  function ComputationCost(region: string): nat {
    200 * CountOcc(region, TransferOp) + 50 * CountOcc(region, VectorOp) + 100 * CountOcc(region, BalanceOp)
  }

  /**
   * The estimate for the function `name` of a file: the markers are counted
   * from the end of the first header match to the end of the file.
   */
  function EstimateGasUsage(content: string, name: string): (r: GasEstimate)
    requires IsWord(name)
    ensures r.total >= BaseCost
  {
    match FindHeader(content, name)
    case None => GasEstimate(BaseCost, 0, BaseCost)
    case Some(start) =>
      var region := content[start..];
      var storage := StorageCost(region);
      var computation := ComputationCost(region);
      GasEstimate(storage + computation + BaseCost, storage, computation)
  }

  /**
   * The region runs to the end of the file, not to the function's closing
   * brace. Without a header match the estimate is the fixed default, which
   * books the base charge as computation, so the total equals the sum of its
   * parts exactly in that case; storage is free exactly when the region
   * creates no object and touches no table.
   */
  lemma EstimateSpec(content: string, name: string)
    requires IsWord(name)
    ensures var r := EstimateGasUsage(content, name);
      && (FindHeader(content, name).None? ==> r == GasEstimate(BaseCost, 0, BaseCost))
      && (r.total == r.storage + r.computation <==> FindHeader(content, name).None?)
      && (FindHeader(content, name).Some? ==>
        var region := content[FindHeader(content, name).value..];
        && r.total == r.storage + r.computation + BaseCost
        && r.storage == StorageCost(region) && r.computation == ComputationCost(region)
        && (r.storage == 0 <==> !Contains(region, ObjectNew) && !Contains(region, TableOp)))
  {
  }

  /**
   * Scan regions overlap: a function whose header match ends no later than
   * another's is charged at least as much in every part, since its region
   * contains the other's.
   */
  lemma EarlierHeaderCostsMore(content: string, f: string, g: string)
    requires IsWord(f) && IsWord(g)
    requires FindHeader(content, f).Some? && FindHeader(content, g).Some?
    requires FindHeader(content, f).value <= FindHeader(content, g).value
    ensures var a, b := EstimateGasUsage(content, f), EstimateGasUsage(content, g);
      a.storage >= b.storage && a.computation >= b.computation && a.total >= b.total
  {
    var j, m := FindHeader(content, f).value, FindHeader(content, g).value;
    SuffixCountMonotone(content, ObjectNew, j, m);
    SuffixCountMonotone(content, TableOp, j, m);
    SuffixCountMonotone(content, TransferOp, j, m);
    SuffixCountMonotone(content, VectorOp, j, m);
    SuffixCountMonotone(content, BalanceOp, j, m);
  }

  // ---------------------------------------------------------------------------
  // Profiles (parse_move_functions)

  datatype GasProfile = GasProfile(name: string, gasUsed: nat, storageCost: nat, computationCost: nat)

  function ProfileOf(content: string, name: string): GasProfile
    requires IsWord(name)
  {
    var e := EstimateGasUsage(content, name);
    GasProfile(name, e.total, e.storage, e.computation)
  }

  /**
   * One profile per captured name, in order. Two signatures with the same
   * name get the same profile, since the estimate looks only at the first
   * header match for that name.
   */
  function FileProfiles(content: string, names: seq<string>): (r: seq<GasProfile>)
    requires forall k | 0 <= k < |names| :: IsWord(names[k])
    ensures |r| == |names|
    ensures forall k | 0 <= k < |r| :: r[k] == ProfileOf(content, names[k])
  {
    if names == [] then []
    else FileProfiles(content, names[..|names| - 1]) + [ProfileOf(content, names[|names| - 1])]
  }

  /** The profiles of every file, files in walk order, signatures in file order. */
  function CorpusProfiles(files: seq<SourceFile>): seq<GasProfile> {
    if files == [] then []
    else
      var f := files[|files| - 1];
      CorpusProfiles(files[..|files| - 1]) + FileProfiles(f.content, SigNames(f.content))
  }

  /** What `parse_move_functions("sources")` returns; nothing when the directory is absent. */
  function Profiles(dirExists: bool, files: seq<SourceFile>): seq<GasProfile> {
    if dirExists then CorpusProfiles(files) else []
  }

  /** The capture loop over one file: a profile for each signature, in file order. */
  method ProfileFile(content: string, acc: seq<GasProfile>) returns (out: seq<GasProfile>)
    ensures out == acc + FileProfiles(content, SigNames(content))
  {
    var names := SigNames(content);
    out := acc;
    for k := 0 to |names|
      invariant out == acc + FileProfiles(content, names[..k])
    {
      var estimate := EstimateGasUsage(content, names[k]);
      out := out + [GasProfile(names[k], estimate.total, estimate.storage, estimate.computation)];
      assert names[..k + 1][..k] == names[..k];
    }
    assert names[..|names|] == names;
  }

  method ParseMoveFunctions(dirExists: bool, files: seq<SourceFile>) returns (profiles: seq<GasProfile>)
    ensures profiles == Profiles(dirExists, files)
  {
    profiles := [];
    if !dirExists {
      return;
    }
    for f := 0 to |files|
      invariant profiles == CorpusProfiles(files[..f])
    {
      profiles := ProfileFile(files[f].content, profiles);
      assert files[..f + 1][..f] == files[..f];
    }
    assert files[..|files|] == files;
  }

  /**
   * Every profile belongs to a signature of some file: its name is one of that
   * file's captured names and its numbers are that file's estimate for it.
   */
  lemma {:induction false} CorpusProfileOrigin(files: seq<SourceFile>)
    ensures forall p | p in CorpusProfiles(files) ::
      && p.gasUsed >= BaseCost
      && exists f | f in files :: p.name in SigNames(f.content) && p == ProfileOf(f.content, p.name)
  {
    if files != [] {
      var init, f := files[..|files| - 1], files[|files| - 1];
      CorpusProfileOrigin(init);
      var fp := FileProfiles(f.content, SigNames(f.content));
      forall p | p in CorpusProfiles(files)
        ensures p.gasUsed >= BaseCost
        ensures exists g | g in files :: p.name in SigNames(g.content) && p == ProfileOf(g.content, p.name)
      {
        if p in CorpusProfiles(init) {
          var g :| g in init && p.name in SigNames(g.content) && p == ProfileOf(g.content, p.name);
          assert g in files;
        } else {
          assert p in fp;
          var k :| 0 <= k < |fp| && fp[k] == p;
          assert p == ProfileOf(f.content, SigNames(f.content)[k]);
        }
      }
    }
  }

  // ---------------------------------------------------------------------------
  // Optimisation suggestions (analyze_for_optimizations)

  datatype Suggestion = Suggestion(
    title: string,
    location: SourceLocation,
    current: string,
    recommendation: string,
    savings: nat)

  function Savings(s: Suggestion): nat { s.savings }

  const StorageTitle: string := "Reduce Storage Allocations"
  const StorageCurrent: string := "Multiple object creations in same function"
  const StorageAdvice: string := "Consider using shared objects or batch operations"
  const VectorLoopTitle: string := "Optimize Vector Operations"
  const VectorLoopCurrent: string := "Vector operations inside loop"
  const VectorLoopAdvice: string := "Use Table for O(1) lookups or batch vector operations"
  const CacheTitle: string := "Cache Computed Values"
  const CacheCurrent: string := "Repeated calculations"
  const CacheAdvice: string := "Store intermediate results in variables"
  const LookupTitle: string := "Use Efficient Data Structures"
  const LookupCurrent: string := "Using vector for lookups"
  const LookupAdvice: string := "Use Table or ObjectTable for O(1) access"

  /** Savings grow with the allocations seen: 200 for each one beyond the first. */
  function StorageSuggestion(loc: SourceLocation, count: nat): Suggestion
    requires count > 2
  {
    Suggestion(StorageTitle, loc, StorageCurrent, StorageAdvice, 200 * (count - 1))
  }

  function VectorLoopSuggestion(loc: SourceLocation): Suggestion {
    Suggestion(VectorLoopTitle, loc, VectorLoopCurrent, VectorLoopAdvice, 150)
  }

  function CacheSuggestion(loc: SourceLocation): Suggestion {
    Suggestion(CacheTitle, loc, CacheCurrent, CacheAdvice, 100)
  }

  function LookupSuggestion(loc: SourceLocation): Suggestion {
    Suggestion(LookupTitle, loc, LookupCurrent, LookupAdvice, 180)
  }

  // The tests applied to the lines of a window.
  predicate HasObjectNew(l: string) {
    Contains(l, ObjectNew)
  }

  predicate HasVectorOp(l: string) {
    Contains(l, "vector::push_back") || Contains(l, "vector::borrow")
  }

  /** The `object::new` lines among the 20 lines from `i - 10`, saturated at 0. */
  function ObjectNewCount(lines: seq<string>, i: nat): nat {
    CountIf(Window(lines, SatSub(i, 10), 20), HasObjectNew)
  }

  /** Storage rule (gas.rs:207-222): an allocation with more than two allocations around it. */
  predicate StorageRule(lines: seq<string>, i: nat)
    requires i < |lines|
  {
    Contains(lines[i], ObjectNew) && ObjectNewCount(lines, i) > 2
  }

  /** Vector-in-loop rule (gas.rs:226-241): a loop keyword, then a vector operation in the 15 lines from `i` itself. */
  predicate VectorLoopRule(lines: seq<string>, i: nat)
    requires i < |lines|
  {
    (Contains(lines[i], "while") || Contains(lines[i], "loop"))
    && AnyLine(Window(lines, i, 15), HasVectorOp)
  }

  /** Cache rule (gas.rs:244-262): an assignment with a calculation, and more than one calculation in the next 10 lines. */
  predicate CacheRule(lines: seq<string>, i: nat)
    requires i < |lines|
  {
    Contains(lines[i], "=") && !Contains(lines[i], "==") && CalcMatch(lines[i])
    && CountIf(Window(lines, i + 1, 10), CalcMatch) > 1
  }

  /** Lookup rule (gas.rs:266-274): a vector borrow or membership test, with no window at all. */
  predicate LookupRule(lines: seq<string>, i: nat)
    requires i < |lines|
  {
    Contains(lines[i], VectorOp) && (Contains(lines[i], "borrow") || Contains(lines[i], "contains"))
  }

  function StorageFindings(fileName: string, lines: seq<string>, i: nat): seq<Suggestion>
    requires i < |lines|
  {
    if StorageRule(lines, i) then [StorageSuggestion(Location(fileName, i), ObjectNewCount(lines, i))] else []
  }

  function VectorLoopFindings(fileName: string, lines: seq<string>, i: nat): seq<Suggestion>
    requires i < |lines|
  {
    if VectorLoopRule(lines, i) then [VectorLoopSuggestion(Location(fileName, i))] else []
  }

  function CacheFindings(fileName: string, lines: seq<string>, i: nat): seq<Suggestion>
    requires i < |lines|
  {
    if CacheRule(lines, i) then [CacheSuggestion(Location(fileName, i))] else []
  }

  function LookupFindings(fileName: string, lines: seq<string>, i: nat): seq<Suggestion>
    requires i < |lines|
  {
    if LookupRule(lines, i) then [LookupSuggestion(Location(fileName, i))] else []
  }

  /** The four checks of the line loop's body. */
  datatype Check = ReduceStorage | VectorInLoop | CacheValues | EfficientLookup

  /** The order in which the loop body applies the checks. */
  const CheckOrder: seq<Check> := [ReduceStorage, VectorInLoop, CacheValues, EfficientLookup]

  function CheckFindings(fileName: string, lines: seq<string>, i: nat, c: Check): seq<Suggestion>
    requires i < |lines|
  {
    match c
    case ReduceStorage => StorageFindings(fileName, lines, i)
    case VectorInLoop => VectorLoopFindings(fileName, lines, i)
    case CacheValues => CacheFindings(fileName, lines, i)
    case EfficientLookup => LookupFindings(fileName, lines, i)
  }

  /** The suggestions of the checks `cs` on line `i`, in the order of `cs`. */
  function ChecksFindings(fileName: string, lines: seq<string>, i: nat, cs: seq<Check>): seq<Suggestion>
    requires i < |lines|
  {
    if cs == [] then []
    else ChecksFindings(fileName, lines, i, cs[..|cs| - 1]) + CheckFindings(fileName, lines, i, cs[|cs| - 1])
  }

  /** What one line contributes. */
  function LineSuggestions(fileName: string, lines: seq<string>, i: nat): seq<Suggestion>
    requires i < |lines|
  {
    ChecksFindings(fileName, lines, i, CheckOrder)
  }

  /** A line's suggestions are those of the four checks, in loop order. */
  lemma LineSuggestionsUnfold(fileName: string, lines: seq<string>, i: nat)
    requires i < |lines|
    ensures LineSuggestions(fileName, lines, i)
      == CheckFindings(fileName, lines, i, ReduceStorage) + CheckFindings(fileName, lines, i, VectorInLoop)
        + CheckFindings(fileName, lines, i, CacheValues) + CheckFindings(fileName, lines, i, EfficientLookup)
  {
    var c1, c2, c3 := CheckOrder[..1], CheckOrder[..2], CheckOrder[..3];
    assert c1[..0] == [] && c2[..1] == c1 && c3[..2] == c2 && CheckOrder[..3] == c3;
    assert ChecksFindings(fileName, lines, i, c1) == CheckFindings(fileName, lines, i, ReduceStorage);
    assert ChecksFindings(fileName, lines, i, c2)
      == ChecksFindings(fileName, lines, i, c1) + CheckFindings(fileName, lines, i, VectorInLoop);
    assert ChecksFindings(fileName, lines, i, c3)
      == ChecksFindings(fileName, lines, i, c2) + CheckFindings(fileName, lines, i, CacheValues);
  }

  /** The suggestions of the first `n` lines of a file. */
  function SuggestionsUpTo(fileName: string, lines: seq<string>, n: nat): seq<Suggestion>
    requires n <= |lines|
  {
    if n == 0 then [] else SuggestionsUpTo(fileName, lines, n - 1) + LineSuggestions(fileName, lines, n - 1)
  }

  function FileSuggestions(file: SourceFile): seq<Suggestion> {
    var lines := Lines(file.content);
    SuggestionsUpTo(file.path, lines, |lines|)
  }

  function FilesSuggestions(files: seq<SourceFile>): seq<Suggestion> {
    if files == [] then []
    else FilesSuggestions(files[..|files| - 1]) + FileSuggestions(files[|files| - 1])
  }

  /** Every suggestion generated, in discovery order, before ranking. */
  function AllSuggestions(dirExists: bool, files: seq<SourceFile>): seq<Suggestion> {
    if dirExists then FilesSuggestions(files) else []
  }

  /** The answer: a stable sort on descending savings, truncated to five. */
  function Optimizations(dirExists: bool, files: seq<SourceFile>): seq<Suggestion> {
    Ranking.TopByKey(AllSuggestions(dirExists, files), Savings, 5)
  }

  method CheckStorage(fileName: string, lines: seq<string>, i: nat, acc: seq<Suggestion>)
    returns (out: seq<Suggestion>)
    requires i < |lines|
    ensures out == acc + StorageFindings(fileName, lines, i)
  {
    out := acc;
    if Contains(lines[i], ObjectNew) {
      var count := CountIf(Window(lines, SatSub(i, 10), 20), HasObjectNew);
      if count > 2 {
        out := out + [StorageSuggestion(Location(fileName, i), count)];
      }
    }
  }

  method CheckVectorLoop(fileName: string, lines: seq<string>, i: nat, acc: seq<Suggestion>)
    returns (out: seq<Suggestion>)
    requires i < |lines|
    ensures out == acc + VectorLoopFindings(fileName, lines, i)
  {
    out := acc;
    if Contains(lines[i], "while") || Contains(lines[i], "loop") {
      var hasVectorOps := AnyLine(Window(lines, i, 15), HasVectorOp);
      if hasVectorOps {
        out := out + [VectorLoopSuggestion(Location(fileName, i))];
      }
    }
  }

  method CheckCache(fileName: string, lines: seq<string>, i: nat, acc: seq<Suggestion>)
    returns (out: seq<Suggestion>)
    requires i < |lines|
    ensures out == acc + CacheFindings(fileName, lines, i)
  {
    out := acc;
    if Contains(lines[i], "=") && !Contains(lines[i], "==") {
      if CalcMatch(lines[i]) {
        var sameCalcCount := CountIf(Window(lines, i + 1, 10), CalcMatch);
        if sameCalcCount > 1 {
          out := out + [CacheSuggestion(Location(fileName, i))];
        }
      }
    }
  }

  method CheckLookup(fileName: string, lines: seq<string>, i: nat, acc: seq<Suggestion>)
    returns (out: seq<Suggestion>)
    requires i < |lines|
    ensures out == acc + LookupFindings(fileName, lines, i)
  {
    out := acc;
    if Contains(lines[i], VectorOp) && (Contains(lines[i], "borrow") || Contains(lines[i], "contains")) {
      out := out + [LookupSuggestion(Location(fileName, i))];
    }
  }

  lemma Concat5<T>(a: seq<T>, b: seq<T>, c: seq<T>, d: seq<T>, e: seq<T>)
    ensures a + b + c + d + e == a + (b + c + d + e)
  {
  }

  /** The body of the line loop. */
  method SuggestLine(fileName: string, lines: seq<string>, i: nat, acc: seq<Suggestion>)
    returns (out: seq<Suggestion>)
    requires i < |lines|
    ensures out == acc + LineSuggestions(fileName, lines, i)
  {
    out := CheckStorage(fileName, lines, i, acc);
    ghost var s := out;
    out := CheckVectorLoop(fileName, lines, i, out);
    ghost var v := out;
    out := CheckCache(fileName, lines, i, out);
    ghost var c := out;
    out := CheckLookup(fileName, lines, i, out);
    assert s == acc + CheckFindings(fileName, lines, i, ReduceStorage);
    assert v == s + CheckFindings(fileName, lines, i, VectorInLoop);
    assert c == v + CheckFindings(fileName, lines, i, CacheValues);
    assert out == c + CheckFindings(fileName, lines, i, EfficientLookup);
    LineSuggestionsUnfold(fileName, lines, i);
    Concat5(acc, CheckFindings(fileName, lines, i, ReduceStorage), CheckFindings(fileName, lines, i, VectorInLoop),
      CheckFindings(fileName, lines, i, CacheValues), CheckFindings(fileName, lines, i, EfficientLookup));
  }

  /** The line loop over one file. */
  method SuggestFile(fileName: string, lines: seq<string>, acc: seq<Suggestion>)
    returns (out: seq<Suggestion>)
    ensures out == acc + SuggestionsUpTo(fileName, lines, |lines|)
  {
    out := acc;
    for i := 0 to |lines|
      invariant out == acc + SuggestionsUpTo(fileName, lines, i)
    {
      out := SuggestLine(fileName, lines, i, out);
    }
  }

  method AnalyzeForOptimizations(dirExists: bool, files: seq<SourceFile>)
    returns (suggestions: seq<Suggestion>)
    ensures suggestions == Optimizations(dirExists, files)
  {
    suggestions := [];
    if !dirExists {
      return;
    }
    for f := 0 to |files|
      invariant suggestions == FilesSuggestions(files[..f])
    {
      suggestions := SuggestFile(files[f].path, Lines(files[f].content), suggestions);
      assert files[..f + 1][..f] == files[..f];
    }
    assert files[..|files|] == files;
    suggestions := Ranking.TopByKey(suggestions, Savings, 5);
  }

  // ---------------------------------------------------------------------------
  // Properties of the suggestions

  /** Each title comes with its own savings: at least 400 in steps of 200, or 150, 100 or 180. */
  predicate Scheduled(s: Suggestion) {
    || (s.title == StorageTitle && s.savings >= 400 && s.savings % 200 == 0)
    || (s.title == VectorLoopTitle && s.savings == 150)
    || (s.title == CacheTitle && s.savings == 100)
    || (s.title == LookupTitle && s.savings == 180)
  }

  /** Every suggestion of the list carries its rule's savings. */
  predicate AllScheduled(ss: seq<Suggestion>) {
    ss == [] || (AllScheduled(ss[..|ss| - 1]) && Scheduled(ss[|ss| - 1]))
  }

  lemma {:induction false} AllScheduledMembers(ss: seq<Suggestion>)
    ensures AllScheduled(ss) <==> forall s | s in ss :: Scheduled(s)
  {
    if ss != [] {
      var init := ss[..|ss| - 1];
      AllScheduledMembers(init);
      assert ss == init + [ss[|ss| - 1]];
    }
  }

  lemma {:induction false} AllScheduledAppend(a: seq<Suggestion>, b: seq<Suggestion>)
    requires AllScheduled(a) && AllScheduled(b)
    ensures AllScheduled(a + b)
    decreases |b|
  {
    if b == [] {
      assert a + b == a;
    } else {
      AllScheduledAppend(a, b[..|b| - 1]);
      assert (a + b)[..|a + b| - 1] == a + b[..|b| - 1];
    }
  }

  lemma CheckScheduled(fileName: string, lines: seq<string>, i: nat, c: Check)
    requires i < |lines|
    ensures AllScheduled(CheckFindings(fileName, lines, i, c))
  {
    var r := CheckFindings(fileName, lines, i, c);
    if r != [] {
      assert |r| == 1 && AllScheduled(r[..0]);
      if c == ReduceStorage {
        var count := ObjectNewCount(lines, i);
        assert r[0].savings == 200 * (count - 1) && (200 * (count - 1)) % 200 == 0;
      }
      assert Scheduled(r[0]);
    }
  }

  lemma {:induction false} ChecksScheduled(fileName: string, lines: seq<string>, i: nat, cs: seq<Check>)
    requires i < |lines|
    ensures AllScheduled(ChecksFindings(fileName, lines, i, cs))
  {
    if cs != [] {
      ChecksScheduled(fileName, lines, i, cs[..|cs| - 1]);
      CheckScheduled(fileName, lines, i, cs[|cs| - 1]);
      AllScheduledAppend(ChecksFindings(fileName, lines, i, cs[..|cs| - 1]), CheckFindings(fileName, lines, i, cs[|cs| - 1]));
    }
  }

  lemma {:induction false} UpToScheduled(fileName: string, lines: seq<string>, n: nat)
    requires n <= |lines|
    ensures AllScheduled(SuggestionsUpTo(fileName, lines, n))
  {
    if n > 0 {
      UpToScheduled(fileName, lines, n - 1);
      ChecksScheduled(fileName, lines, n - 1, CheckOrder);
      AllScheduledAppend(SuggestionsUpTo(fileName, lines, n - 1), LineSuggestions(fileName, lines, n - 1));
    }
  }

  lemma {:induction false} FilesScheduled(files: seq<SourceFile>)
    ensures AllScheduled(FilesSuggestions(files))
  {
    if files != [] {
      var f := files[|files| - 1];
      FilesScheduled(files[..|files| - 1]);
      UpToScheduled(f.path, Lines(f.content), |Lines(f.content)|);
      AllScheduledAppend(FilesSuggestions(files[..|files| - 1]), FileSuggestions(f));
    }
  }

  /**
   * The ranked answer: at most five suggestions, never increasing in
   * savings, each one generated by a rule and carrying its rule's savings;
   * no suggestion left out saves more than one kept; among equal savings the
   * kept ones are the first discovered, in discovery order.
   */
  lemma OptimizationsSpec(dirExists: bool, files: seq<SourceFile>)
    ensures var all, r := AllSuggestions(dirExists, files), Optimizations(dirExists, files);
      && |r| == Min(5, |all|)
      && Ranking.SortedDesc(r, Savings)
      && multiset(r) <= multiset(all)
      && AllScheduled(r)
      && (forall i, j | 0 <= i < |r| <= j < |all| :: r[i].savings >= Ranking.SortDesc(all, Savings)[j].savings)
      && forall v: nat :: Ranking.WithKey(r, Savings, v) <= Ranking.WithKey(all, Savings, v)
  {
    var all, r := AllSuggestions(dirExists, files), Optimizations(dirExists, files);
    Ranking.TopByKeySpec(all, Savings, 5);
    forall v: nat ensures Ranking.WithKey(r, Savings, v) <= Ranking.WithKey(all, Savings, v) {
      Ranking.TopByKeyStable(all, Savings, 5, v);
    }
    if dirExists {
      FilesScheduled(files);
    }
    AllScheduledMembers(all);
    AllScheduledMembers(r);
    forall s | s in r ensures Scheduled(s) {
      assert s in multiset(r);
    }
  }

  /** The vector-in-loop window starts at the loop line itself and spans 15 lines. */
  lemma VectorLoopWindow(lines: seq<string>, i: nat)
    requires i < |lines|
    ensures VectorLoopRule(lines, i) <==>
      (Contains(lines[i], "while") || Contains(lines[i], "loop"))
      && exists j | i <= j < Min(i + 15, |lines|) :: HasVectorOp(lines[j])
  {
    AnyLineWindow(lines, i, 15, HasVectorOp);
  }

  /**
   * The cache rule wants two further calculations among the next ten lines:
   * a calculation repeated only once is not reported.
   */
  lemma CacheWindow(lines: seq<string>, i: nat)
    requires i < |lines|
    ensures CacheRule(lines, i) <==>
      Contains(lines[i], "=") && !Contains(lines[i], "==") && CalcMatch(lines[i])
      && exists a, b | i < a < b < Min(i + 11, |lines|) :: CalcMatch(lines[a]) && CalcMatch(lines[b])
  {
    CountIfTwoWindow(lines, i + 1, 10, CalcMatch);
  }

  /** The storage window always holds the line that triggers it, which is counted too. */
  lemma StorageCountsOwnLine(lines: seq<string>, i: nat)
    requires i < |lines| && Contains(lines[i], ObjectNew)
    ensures ObjectNewCount(lines, i) >= 1
  {
    var w := Window(lines, SatSub(i, 10), 20);
    assert w[i - SatSub(i, 10)] == lines[i];
  }

  /** `vector::borrow` contains both `vector::` and `borrow`. */
  lemma VectorBorrowParts(l: string)
    requires Contains(l, "vector::borrow")
    ensures Contains(l, VectorOp) && Contains(l, "borrow")
  {
    var k: nat :| k <= |l| && OccursAt(l, "vector::borrow", k);
    var m := l[k..k + 14];
    assert l[k..k + 8] == m[..8];
    assert l[k + 8..k + 14] == m[8..];
    assert OccursAt(l, VectorOp, k);
    assert OccursAt(l, "borrow", k + 8);
  }

  /**
   * A loop line that itself borrows from a vector is reported twice: once
   * by the vector-in-loop rule, whose window starts at the line, and once
   * by the lookup rule.
   */
  lemma LoopBorrowReportedTwice(fileName: string, lines: seq<string>, i: nat)
    requires i < |lines|
    requires Contains(lines[i], "while") && Contains(lines[i], "vector::borrow")
    ensures VectorLoopSuggestion(Location(fileName, i)) in LineSuggestions(fileName, lines, i)
    ensures LookupSuggestion(Location(fileName, i)) in LineSuggestions(fileName, lines, i)
  {
    VectorBorrowParts(lines[i]);
    VectorLoopWindow(lines, i);
    assert HasVectorOp(lines[i]);
    LineSuggestionsUnfold(fileName, lines, i);
  }

  // ---------------------------------------------------------------------------
  // Statistics of the `analyze` report (analyze_gas)

  function GasUsed(p: GasProfile): nat { p.gasUsed }

  /** `profiles.iter().map(|p| p.gas_used).sum()`. */
  function TotalGas(ps: seq<GasProfile>): nat {
    if ps == [] then 0 else TotalGas(ps[..|ps| - 1]) + ps[|ps| - 1].gasUsed
  }

  datatype HotSpot = HotSpot(name: string, reason: string)

  const StorageReason: string := "High storage allocation"
  const ComputationReason: string := "Complex computation"

  /** A hot spot is blamed on storage exactly when storage outweighs computation. */
  function HotSpotOf(p: GasProfile): (h: HotSpot)
    ensures h.name == p.name
    ensures h.reason == StorageReason <==> p.storageCost > p.computationCost
  {
    HotSpot(p.name, if p.storageCost > p.computationCost then StorageReason else ComputationReason)
  }

  /** The three largest consumers of a sorted list, when it has at least three. */
  function HotSpots(sorted: seq<GasProfile>): seq<HotSpot> {
    if |sorted| >= 3 then [HotSpotOf(sorted[0]), HotSpotOf(sorted[1]), HotSpotOf(sorted[2])] else []
  }

  /** The two smallest of a sorted list, smallest first, when it has at least two. */
  function Efficient(sorted: seq<GasProfile>): seq<GasProfile> {
    if |sorted| >= 2 then [sorted[|sorted| - 1], sorted[|sorted| - 2]] else []
  }

  /** `total / n` on unsigned integers: the floor of the mean. */
  function Mean(total: nat, n: nat): nat
    requires n > 0
  {
    total / n
  }

  datatype GasReport = GasReport(
    totalFunctions: nat,
    averageGas: nat,
    highest: GasProfile,
    lowest: GasProfile,
    hotSpots: seq<HotSpot>,
    efficient: seq<GasProfile>)

  /**
   * The report for a non-empty profile list: the floor of the mean, the last
   * maximum and the first minimum, the three largest consumers when there
   * are at least three profiles, and the two smallest, smallest first, when
   * there are at least two.
   */
  function ReportOf(profiles: seq<GasProfile>): GasReport
    requires |profiles| > 0
  {
    var sorted := Ranking.SortDesc(profiles, GasUsed);
    GasReport(
      |profiles|,
      Mean(TotalGas(profiles), |profiles|),
      profiles[Ranking.ArgMaxLast(profiles, GasUsed)],
      profiles[Ranking.ArgMinFirst(profiles, GasUsed)],
      HotSpots(sorted),
      Efficient(sorted))
  }

  /** The hot-spot loop: `sorted.iter().take(3)`, only when there are at least three. */
  method CollectHotSpots(sorted: seq<GasProfile>) returns (hotSpots: seq<HotSpot>)
    ensures hotSpots == HotSpots(sorted)
  {
    hotSpots := [];
    if |sorted| >= 3 {
      for i := 0 to 3
        invariant hotSpots == HotSpots(sorted)[..i]
      {
        var reason := if sorted[i].storageCost > sorted[i].computationCost then StorageReason else ComputationReason;
        hotSpots := hotSpots + [HotSpot(sorted[i].name, reason)];
      }
    }
  }

  /** The efficient-function loop: `sorted.iter().rev().take(2)`, only when there are at least two. */
  method CollectEfficient(sorted: seq<GasProfile>) returns (efficient: seq<GasProfile>)
    ensures efficient == Efficient(sorted)
  {
    efficient := [];
    if |sorted| >= 2 {
      for i := 0 to 2
        invariant efficient == Efficient(sorted)[..i]
      {
        efficient := efficient + [sorted[|sorted| - 1 - i]];
      }
    }
  }

  /** `analyze_gas`: no report for an empty profile list, the warning case. */
  method AnalyzeGas(profiles: seq<GasProfile>) returns (report: Option<GasReport>)
    ensures report.None? <==> profiles == []
    ensures report.Some? ==> report.value == ReportOf(profiles)
  {
    if profiles == [] {
      return None;
    }
    var totalFunctions := |profiles|;
    var averageGas := Mean(TotalGas(profiles), totalFunctions);
    var highest := profiles[Ranking.ArgMaxLast(profiles, GasUsed)];
    var lowest := profiles[Ranking.ArgMinFirst(profiles, GasUsed)];
    var sorted := Ranking.SortDesc(profiles, GasUsed);
    var hotSpots := CollectHotSpots(sorted);
    var efficient := CollectEfficient(sorted);
    report := Some(GasReport(totalFunctions, averageGas, highest, lowest, hotSpots, efficient));
  }

  lemma {:induction false} TotalGasBounds(ps: seq<GasProfile>, lo: nat, hi: nat)
    requires forall k | 0 <= k < |ps| :: lo <= ps[k].gasUsed <= hi
    ensures |ps| * lo <= TotalGas(ps) <= |ps| * hi
  {
    if ps != [] {
      var n := |ps| - 1;
      TotalGasBounds(ps[..n], lo, hi);
      assert (n + 1) * lo == n * lo + lo && (n + 1) * hi == n * hi + hi;
    }
  }

  lemma MulMonotone(a: nat, b: nat, n: nat)
    requires a <= b
    ensures a * n <= b * n
  {
    assert b * n == a * n + (b - a) * n;
  }

  /** Integer division by `n` keeps a total of `n` values within their range. */
  lemma FloorMeanBounds(total: nat, n: nat, lo: nat, hi: nat)
    requires n > 0 && n * lo <= total <= n * hi
    ensures lo <= total / n <= hi
  {
    var q, m := total / n, total % n;
    assert total == q * n + m && 0 <= m < n;
    if q < lo {
      MulMonotone(q + 1, lo, n);
    }
  }

  /** The mean lies between the lowest and the highest usage, which are the extremes of the input. */
  lemma AverageSpec(profiles: seq<GasProfile>)
    requires |profiles| > 0
    ensures var r := ReportOf(profiles);
      && r.totalFunctions == |profiles|
      && r.lowest.gasUsed <= r.averageGas <= r.highest.gasUsed
      && r.highest in profiles && r.lowest in profiles
      && forall p | p in profiles :: r.lowest.gasUsed <= p.gasUsed <= r.highest.gasUsed
  {
    var r := ReportOf(profiles);
    var hi, lo := r.highest.gasUsed, r.lowest.gasUsed;
    TotalGasBounds(profiles, lo, hi);
    FloorMeanBounds(TotalGas(profiles), |profiles|, lo, hi);
    assert r.averageGas == TotalGas(profiles) / |profiles|;
  }

  /** Each element of the sorted list is a profile of the input. */
  lemma SortedFromInput(profiles: seq<GasProfile>)
    ensures var sorted := Ranking.SortDesc(profiles, GasUsed);
      forall k | 0 <= k < |sorted| :: sorted[k] in profiles
  {
    var sorted := Ranking.SortDesc(profiles, GasUsed);
    Ranking.SortDescPermutation(profiles, GasUsed);
    forall k | 0 <= k < |sorted| ensures sorted[k] in profiles {
      assert sorted[k] in multiset(sorted);
    }
  }

  /**
   * Hot spots are reported only with at least three profiles; each is a
   * profile of the input no lighter than any profile outside the hot spots.
   */
  lemma HotSpotsSpec(profiles: seq<GasProfile>)
    requires |profiles| > 0
    ensures var r, sorted := ReportOf(profiles), Ranking.SortDesc(profiles, GasUsed);
      && |r.hotSpots| == (if |profiles| >= 3 then 3 else 0)
      && (forall k | 0 <= k < |r.hotSpots| :: r.hotSpots[k] == HotSpotOf(sorted[k]) && sorted[k] in profiles)
      && forall k, j | 0 <= k < |r.hotSpots| <= j < |sorted| :: sorted[k].gasUsed >= sorted[j].gasUsed
  {
    var sorted := Ranking.SortDesc(profiles, GasUsed);
    assert ReportOf(profiles).hotSpots == HotSpots(sorted);
    SortedFromInput(profiles);
    assert forall k, j | 0 <= k < j < |sorted| :: GasUsed(sorted[k]) >= GasUsed(sorted[j]);
  }

  /**
   * The efficient functions are the two lightest profiles, lightest first,
   * the first as light as the reported lowest.
   */
  lemma EfficientSpec(profiles: seq<GasProfile>)
    requires |profiles| > 0
    ensures var r, sorted := ReportOf(profiles), Ranking.SortDesc(profiles, GasUsed);
      && |r.efficient| == (if |profiles| >= 2 then 2 else 0)
      && (forall k | 0 <= k < |r.efficient| :: r.efficient[k] in profiles)
      && (|r.efficient| == 2 ==> r.efficient[0].gasUsed == r.lowest.gasUsed <= r.efficient[1].gasUsed)
      && (|r.efficient| == 2 ==> forall j | 0 <= j < |sorted| - 2 :: r.efficient[1].gasUsed <= sorted[j].gasUsed)
  {
    SortedFromInput(profiles);
    Ranking.SortDescLastIsMin(profiles, GasUsed);
  }
}
