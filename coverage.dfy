// The coverage estimator of `suiforge coverage` (src/commands/coverage.rs):
// each source file is paired with the first test file whose name contains
// the source file's stem; the share of its function names that the test text
// mentions and the number of `#[test]` markers give two ratios, which scale
// the file's code-line and `fun ` counts; the per-file figures are summed.
module Coverage {
  import opened Text
  import opened Patterns

  // ---------------------------------------------------------------------------
  // Percentages (line_percentage, function_percentage)

  /** A share in percent, 0 for an empty total. */
  function Percentage(covered: nat, total: nat): (r: real)
    ensures total == 0 ==> r == 0.0
    ensures total > 0 ==> r * (total as real) == (covered as real) * 100.0
    ensures covered <= total ==> 0.0 <= r <= 100.0
    ensures total > 0 && covered <= total ==> (r == 100.0 <==> covered == total)
  {
    if total == 0 then 0.0 else (covered as real / total as real) * 100.0
  }

  datatype ModuleCoverage = ModuleCoverage(
    name: string,
    linesCovered: nat,
    linesTotal: nat,
    functionsCovered: nat,
    functionsTotal: nat)
  {
    function LinePercentage(): (r: real)
      ensures linesTotal == 0 ==> r == 0.0
      ensures linesCovered <= linesTotal ==> 0.0 <= r <= 100.0
    {
      Percentage(linesCovered, linesTotal)
    }

    function FunctionPercentage(): (r: real)
      ensures functionsTotal == 0 ==> r == 0.0
      ensures functionsCovered <= functionsTotal ==> 0.0 <= r <= 100.0
    {
      Percentage(functionsCovered, functionsTotal)
    }
  }

  /** A line the report would list as uncovered; the analysis never produces one. */
  datatype UncoveredLine = UncoveredLine(location: string, description: string)

  datatype CoverageData = CoverageData(
    linesCovered: nat,
    linesTotal: nat,
    functionsCovered: nat,
    functionsTotal: nat,
    modules: seq<ModuleCoverage>,
    uncoveredLines: seq<UncoveredLine>)
  {
    function LinePercentage(): (r: real)
      ensures linesTotal == 0 ==> r == 0.0
      ensures linesCovered <= linesTotal ==> 0.0 <= r <= 100.0
    {
      Percentage(linesCovered, linesTotal)
    }

    function FunctionPercentage(): (r: real)
      ensures functionsTotal == 0 ==> r == 0.0
      ensures functionsCovered <= functionsTotal ==> 0.0 <= r <= 100.0
    {
      Percentage(functionsCovered, functionsTotal)
    }
  }

  // ---------------------------------------------------------------------------
  // File names

  /** `Path::file_name` of a walker path: what follows the last `/`. */
  function FileName(path: string): string {
    match LastIndexOf(path, '/')
    case None => path
    case Some(k) => path[k + 1..]
  }

  /** The file name is the longest suffix of the path without a `/`. */
  lemma FileNameSpec(path: string)
    ensures var r := FileName(path);
      && '/' !in r
      && |r| <= |path| && r == path[|path| - |r|..]
      && (|r| < |path| ==> path[|path| - |r| - 1] == '/')
  {
  }

  /**
   * `Path::file_stem` of a file name: the text before the last `.`, or the
   * whole name when it has no `.` or its only `.` is the first character.
   */
  function FileStem(name: string): string {
    match LastIndexOf(name, '.')
    case None => name
    case Some(k) => if k == 0 then name else name[..k]
  }

  /** The stem is a prefix of the name: all of it, or a non-empty part followed by the last `.`. */
  lemma FileStemSpec(name: string)
    ensures var r := FileStem(name);
      && r <= name
      && (r == name || (0 < |r| && name[|r|] == '.' && '.' !in name[|r| + 1..]))
  {
  }

  /** The module name sought in test file names. */
  function ModuleName(sourcePath: string): string {
    FileStem(FileName(sourcePath))
  }

  /** The walker's test for a test file: its file name contains the module name. */
  predicate NamedFor(test: SourceFile, moduleName: string) {
    Contains(FileName(test.path), moduleName)
  }

  /** The walker's test as a function value. */
  function Named(moduleName: string): SourceFile -> bool {
    test => NamedFor(test, moduleName)
  }

  /** The index of the first test file, from `k` on, that satisfies `named`. */
  function FirstTestFrom(named: SourceFile -> bool, tests: seq<SourceFile>, k: nat): (r: Option<nat>)
    requires k <= |tests|
    ensures r.Some? ==> k <= r.value < |tests| && named(tests[r.value])
    ensures r.Some? ==> forall j | k <= j < r.value :: !named(tests[j])
    ensures r.None? ==> forall j | k <= j < |tests| :: !named(tests[j])
    decreases |tests| - k
  {
    if k == |tests| then None
    else if named(tests[k]) then Some(k)
    else FirstTestFrom(named, tests, k + 1)
  }

  /** The test file chosen for `moduleName`: the first, in walk order, named for it. */
  function FirstTestFor(moduleName: string, tests: seq<SourceFile>): Option<nat> {
    FirstTestFrom(Named(moduleName), tests, 0)
  }

  /** A test file satisfying `named`, after none that does, is the one chosen. */
  lemma FirstTestAt(named: SourceFile -> bool, tests: seq<SourceFile>, i: nat, k: nat)
    requires i <= k < |tests| && named(tests[k])
    requires forall j | i <= j < k :: !named(tests[j])
    ensures FirstTestFrom(named, tests, i) == Some(k)
  {
    var r := FirstTestFrom(named, tests, i);
    assert r.Some? && r.value <= k;
  }

  /**
   * The empty module name, the fallback when a path has no stem, pairs a
   * source with the first test file: every name contains the empty string.
   */
  lemma EmptyModuleNameTakesFirstTest(tests: seq<SourceFile>)
    requires |tests| > 0
    ensures FirstTestFor("", tests) == Some(0)
  {
    assert OccursAt(FileName(tests[0].path), "", 0);
  }

  /** Without a test file named for the module, none is chosen. */
  lemma FirstTestNone(moduleName: string, tests: seq<SourceFile>)
    requires forall j | 0 <= j < |tests| :: !NamedFor(tests[j], moduleName)
    ensures FirstTestFor(moduleName, tests).None?
  {
    assert forall j | 0 <= j < |tests| :: !Named(moduleName)(tests[j]);
  }

  // ---------------------------------------------------------------------------
  // Ratios (calculate_test_coverage)

  const TestMarker: string := "#[test]"

  /** How many of the names the test text mentions, a repeated name once per occurrence in the list. */
  function CountTested(names: seq<string>, test: string): (r: nat)
    ensures r <= |names|
  {
    if names == [] then 0
    else CountTested(names[..|names| - 1], test) + (if Contains(test, names[|names| - 1]) then 1 else 0)
  }

  /** All names are counted exactly when the test text mentions each, none exactly when it mentions none. */
  lemma {:induction false} CountTestedEnds(names: seq<string>, test: string)
    ensures CountTested(names, test) == |names| <==> forall k | 0 <= k < |names| :: Contains(test, names[k])
    ensures CountTested(names, test) == 0 <==> forall k | 0 <= k < |names| :: !Contains(test, names[k])
  {
    if names != [] {
      var init := names[..|names| - 1];
      CountTestedEnds(init, test);
      assert forall k | 0 <= k < |init| :: init[k] == names[k];
    }
  }

  /** The share of the source's function names that the test text mentions; 0 without names. */
  function FunctionRatio(names: seq<string>, test: string): (r: real)
    ensures 0.0 <= r <= 1.0
  {
    if names == [] then 0.0
    else
      var t := CountTested(names, test);
      ShareBounds(t, |names|);
      t as real / |names| as real
  }

  /** The function ratio is 1 exactly when every name is mentioned, and 0 exactly when none is (or there are none). */
  lemma FunctionRatioEnds(names: seq<string>, test: string)
    ensures FunctionRatio(names, test) == 1.0 <==> names != [] && forall k | 0 <= k < |names| :: Contains(test, names[k])
    ensures FunctionRatio(names, test) == 0.0 <==> names == [] || forall k | 0 <= k < |names| :: !Contains(test, names[k])
  {
    CountTestedEnds(names, test);
    if names != [] {
      ShareBounds(CountTested(names, test), |names|);
    }
  }

  /** A share `t / n` of a positive whole lies in [0, 1], and is 0 or 1 exactly at the ends. */
  lemma ShareBounds(t: nat, n: nat)
    requires 0 < n && t <= n
    ensures var r := t as real / n as real;
      0.0 <= r <= 1.0 && (r == 1.0 <==> t == n) && (r == 0.0 <==> t == 0)
  {
    var r := t as real / n as real;
    assert r * n as real == t as real;
  }

  /** `f64::min` on the reals. */
  function RealMin(a: real, b: real): real {
    if a <= b then a else b
  }

  /** Each test adds a fifth, up to 1. */
  function TestFactor(testCount: nat): (r: real)
    ensures 0.0 <= r <= 1.0
    ensures testCount >= 5 ==> r == 1.0
  {
    RealMin(testCount as real * 0.2, 1.0)
  }

  /**
   * The line ratio: 0 without tests, otherwise 70% function ratio and 30%
   * test factor, capped at 1.
   */
  function LineRatio(functionRatio: real, testCount: nat): (r: real)
    ensures testCount == 0 ==> r == 0.0
    ensures 0.0 <= functionRatio <= 1.0 ==> 0.0 <= r <= 1.0
  {
    if testCount == 0 then 0.0
    else RealMin(functionRatio * 0.7 + TestFactor(testCount) * 0.3, 1.0)
  }

  datatype TestCoverage = TestCoverage(lineRatio: real, functionRatio: real)

  const NoCoverage: TestCoverage := TestCoverage(0.0, 0.0)

  /** What `calculate_test_coverage` returns for one source file. */
  function TestCoverageOf(sourcePath: string, sourceContent: string, testDirExists: bool, tests: seq<SourceFile>)
    : TestCoverage
  {
    if !testDirExists then NoCoverage
    else match FirstTestFor(ModuleName(sourcePath), tests)
      case None => NoCoverage
      case Some(k) => RatiosFor(sourceContent, tests[k].content)
  }

  /** The two ratios of a source file against the test text chosen for it. */
  function RatiosFor(sourceContent: string, testContent: string): TestCoverage {
    var functionRatio := FunctionRatio(SigNames(sourceContent), testContent);
    TestCoverage(LineRatio(functionRatio, CountOcc(testContent, TestMarker)), functionRatio)
  }

  /** The walk over the test files that stops at the first one named for `moduleName`. */
  method FindTestFile(moduleName: string, tests: seq<SourceFile>) returns (testContent: string, foundTest: bool)
    ensures foundTest <==> FirstTestFor(moduleName, tests).Some?
    ensures foundTest ==> testContent == tests[FirstTestFor(moduleName, tests).value].content
  {
    testContent := "";
    foundTest := false;
    for k := 0 to |tests|
      invariant !foundTest
      invariant forall j | 0 <= j < k :: !Named(moduleName)(tests[j])
    {
      if Contains(FileName(tests[k].path), moduleName) {
        testContent := tests[k].content;
        foundTest := true;
        FirstTestAt(Named(moduleName), tests, 0, k);
        break;
      }
    }
    if !foundTest {
      FirstTestNone(moduleName, tests);
    }
  }

  /** The loop that counts the source's function names mentioned in the test text. */
  method CountTestedFunctions(sourceFunctions: seq<string>, testContent: string) returns (testedFunctions: nat)
    ensures testedFunctions == CountTested(sourceFunctions, testContent)
  {
    testedFunctions := 0;
    for k := 0 to |sourceFunctions|
      invariant testedFunctions == CountTested(sourceFunctions[..k], testContent)
    {
      if Contains(testContent, sourceFunctions[k]) {
        testedFunctions := testedFunctions + 1;
      }
      assert sourceFunctions[..k + 1][..k] == sourceFunctions[..k];
    }
    assert sourceFunctions[..|sourceFunctions|] == sourceFunctions;
  }

  /** The ratio computation once a test file is found. */
  method ComputeRatios(sourceContent: string, testContent: string) returns (coverage: TestCoverage)
    ensures coverage == RatiosFor(sourceContent, testContent)
  {
    var testFunctionCount := CountOcc(testContent, TestMarker);
    var sourceFunctions := SigNames(sourceContent);
    var testedFunctions := CountTestedFunctions(sourceFunctions, testContent);

    var functionRatio :=
      if |sourceFunctions| == 0 then 0.0 else testedFunctions as real / |sourceFunctions| as real;
    var lineRatio;
    if testFunctionCount == 0 {
      lineRatio := 0.0;
    } else {
      var testFactor := RealMin(testFunctionCount as real * 0.2, 1.0);
      lineRatio := RealMin(functionRatio * 0.7 + testFactor * 0.3, 1.0);
    }
    coverage := TestCoverage(lineRatio, functionRatio);
  }

  /**
   * Both ratios for one source file; zero without a test directory or
   * without a test file named for the file's stem.
   */
  method CalculateTestCoverage(sourceFile: string, sourceContent: string, testDirExists: bool, tests: seq<SourceFile>)
    returns (coverage: TestCoverage)
    ensures coverage == TestCoverageOf(sourceFile, sourceContent, testDirExists, tests)
  {
    if !testDirExists {
      return TestCoverage(0.0, 0.0);
    }
    var moduleName := FileStem(FileName(sourceFile));
    var testContent, foundTest := FindTestFile(moduleName, tests);
    if !foundTest {
      return TestCoverage(0.0, 0.0);
    }

    coverage := ComputeRatios(sourceContent, testContent);
  }

  /** Both ratios lie in [0, 1]. */
  lemma TestCoverageBounds(sourcePath: string, sourceContent: string, testDirExists: bool, tests: seq<SourceFile>)
    ensures var c := TestCoverageOf(sourcePath, sourceContent, testDirExists, tests);
      0.0 <= c.lineRatio <= 1.0 && 0.0 <= c.functionRatio <= 1.0
  {
  }

  /** Without a test directory, or without a test file whose name contains the module name, both ratios are 0. */
  lemma NoTestFileNoCoverage(sourcePath: string, sourceContent: string, testDirExists: bool, tests: seq<SourceFile>)
    requires !testDirExists || forall k | 0 <= k < |tests| :: !NamedFor(tests[k], ModuleName(sourcePath))
    ensures TestCoverageOf(sourcePath, sourceContent, testDirExists, tests) == NoCoverage
  {
  }

  /**
   * The cap at 1 never binds: with a function ratio in [0, 1] the blend
   * stays within 1, and from five tests on the test factor is full.
   */
  lemma LineRatioUncapped(functionRatio: real, testCount: nat)
    requires 0.0 <= functionRatio <= 1.0 && testCount > 0
    ensures LineRatio(functionRatio, testCount) == functionRatio * 0.7 + TestFactor(testCount) * 0.3
    ensures testCount >= 5 ==> LineRatio(functionRatio, testCount) == functionRatio * 0.7 + 0.3
  {
  }

  /**
   * The line ratio is not capped at the function ratio: with five or more
   * tests it exceeds every function ratio below 1.
   */
  lemma LineRatioAboveFunctionRatio(functionRatio: real, testCount: nat)
    requires 0.0 <= functionRatio < 1.0 && testCount >= 5
    ensures LineRatio(functionRatio, testCount) > functionRatio
  {
  }

  /** More tests, or a larger function ratio, never lower the line ratio. */
  lemma LineRatioMonotone(f1: real, f2: real, n1: nat, n2: nat)
    requires 0.0 <= f1 <= f2 <= 1.0 && 0 < n1 <= n2
    ensures LineRatio(f1, n1) <= LineRatio(f2, n2)
  {
  }

  // ---------------------------------------------------------------------------
  // Per-file and aggregate counts (analyze_coverage)

  /** A line that is neither blank nor, after trimming, starts with `/`. */
  predicate IsCodeLine(l: string) {
    Trim(l) != [] && !StartsWith(Trim(l), "/")
  }

  const FunMarker: string := "fun "

  /** `(n as f64 * ratio) as usize`: truncation toward zero, negative products giving 0. */
  function Scale(n: nat, ratio: real): (r: nat)
    ensures 0.0 <= ratio <= 1.0 ==> r <= n
  {
    var x := n as real * ratio;
    if x <= 0.0 then 0
    else
      ScaleAtMost(n, ratio);
      assert x.Floor as real <= x;
      x.Floor
  }

  /** For a non-negative ratio the scaled count is the whole part of `n * ratio`. */
  lemma ScaleFloor(n: nat, ratio: real)
    requires 0.0 <= ratio
    ensures Scale(n, ratio) as real <= n as real * ratio < Scale(n, ratio) as real + 1.0
  {
  }

  /** A ratio in [0, 1] does not enlarge `n`. */
  lemma ScaleAtMost(n: nat, ratio: real)
    ensures 0.0 <= ratio <= 1.0 ==> n as real * ratio <= n as real
  {
    if 0.0 <= ratio <= 1.0 {
      assert n as real - n as real * ratio == n as real * (1.0 - ratio);
    }
  }

  /** The coverage entry of one source file. */
  function ModuleOf(file: SourceFile, testDirExists: bool, tests: seq<SourceFile>): ModuleCoverage {
    var coverage := TestCoverageOf(file.path, file.content, testDirExists, tests);
    var lines := |Filter(Lines(file.content), IsCodeLine)|;
    var functions := CountOcc(file.content, FunMarker);
    ModuleCoverage(file.path, Scale(lines, coverage.lineRatio), lines, Scale(functions, coverage.functionRatio), functions)
  }

  /** Measures each file, in walk order. */
  function MapFiles(files: seq<SourceFile>, measure: SourceFile -> ModuleCoverage): seq<ModuleCoverage> {
    if files == [] then []
    else MapFiles(files[..|files| - 1], measure) + [measure(files[|files| - 1])]
  }

  /** Entry `k` of the mapped list is the measure of file `k`. */
  lemma {:induction false} MapFilesElements(files: seq<SourceFile>, measure: SourceFile -> ModuleCoverage)
    ensures |MapFiles(files, measure)| == |files|
    ensures forall k | 0 <= k < |files| :: MapFiles(files, measure)[k] == measure(files[k])
  {
    if files != [] {
      var init := files[..|files| - 1];
      MapFilesElements(init, measure);
      assert forall k | 0 <= k < |init| :: init[k] == files[k];
    }
  }

  /** Measuring one more file appends its entry. */
  lemma MapFilesSnoc(files: seq<SourceFile>, f: nat, measure: SourceFile -> ModuleCoverage)
    requires f < |files|
    ensures MapFiles(files[..f + 1], measure) == MapFiles(files[..f], measure) + [measure(files[f])]
  {
    assert files[..f + 1][..f] == files[..f];
  }

  /** The per-file measurement of the analysis as a function value. */
  function Measure(testDirExists: bool, tests: seq<SourceFile>): SourceFile -> ModuleCoverage {
    file => ModuleOf(file, testDirExists, tests)
  }

  /** The module entries of the sources, one per file in walk order. */
  function ModulesOf(sources: seq<SourceFile>, testDirExists: bool, tests: seq<SourceFile>): seq<ModuleCoverage> {
    MapFiles(sources, Measure(testDirExists, tests))
  }

  /** The four totals over a module list, with the list itself and no uncovered lines. */
  function Summary(modules: seq<ModuleCoverage>): (r: CoverageData)
    ensures r.modules == modules && r.uncoveredLines == []
  {
    if modules == [] then CoverageData(0, 0, 0, 0, [], [])
    else
      var init := modules[..|modules| - 1];
      var m := modules[|modules| - 1];
      var s := Summary(init);
      assert init + [m] == modules;
      CoverageData(s.linesCovered + m.linesCovered, s.linesTotal + m.linesTotal,
        s.functionsCovered + m.functionsCovered, s.functionsTotal + m.functionsTotal, modules, [])
  }

  /** Appending a module adds its four counts to the totals. */
  lemma SummarySnoc(modules: seq<ModuleCoverage>, m: ModuleCoverage)
    ensures var s, t := Summary(modules), Summary(modules + [m]);
      && t.linesCovered == s.linesCovered + m.linesCovered && t.linesTotal == s.linesTotal + m.linesTotal
      && t.functionsCovered == s.functionsCovered + m.functionsCovered
      && t.functionsTotal == s.functionsTotal + m.functionsTotal
  {
    assert (modules + [m])[..|modules|] == modules;
  }

  /** What `analyze_coverage("sources", "tests")` returns. */
  function AnalysisOf(sourceDirExists: bool, sources: seq<SourceFile>, testDirExists: bool, tests: seq<SourceFile>)
    : CoverageData
  {
    if !sourceDirExists then CoverageData(0, 0, 0, 0, [], [])
    else Summary(ModulesOf(sources, testDirExists, tests))
  }

  /** The body of the walk over the sources: one file's counts and covered shares. */
  method MeasureModule(file: SourceFile, testDirExists: bool, tests: seq<SourceFile>) returns (m: ModuleCoverage)
    ensures m == ModuleOf(file, testDirExists, tests)
  {
    var content := file.content;
    var fileName := file.path;
    var lines := |Filter(Lines(content), IsCodeLine)|;
    var functionCount := CountOcc(content, FunMarker);
    var testCoverage := CalculateTestCoverage(fileName, content, testDirExists, tests);
    var linesCovered := Scale(lines, testCoverage.lineRatio);
    var functionsCovered := Scale(functionCount, testCoverage.functionRatio);

    m := ModuleCoverage(fileName, linesCovered, lines, functionsCovered, functionCount);
  }

  /** The walk over the sources, summing each file's counts into the report. */
  method AnalyzeCoverage(sourceDirExists: bool, sources: seq<SourceFile>, testDirExists: bool, tests: seq<SourceFile>)
    returns (data: CoverageData)
    ensures data == AnalysisOf(sourceDirExists, sources, testDirExists, tests)
  {
    var modules: seq<ModuleCoverage> := [];
    var totalLinesCovered: nat := 0;
    var totalLines: nat := 0;
    var totalFunctionsCovered: nat := 0;
    var totalFunctions: nat := 0;
    var uncoveredLines: seq<UncoveredLine> := [];

    if !sourceDirExists {
      return CoverageData(0, 0, 0, 0, [], []);
    }

    for f := 0 to |sources|
      invariant modules == ModulesOf(sources[..f], testDirExists, tests)
      invariant totalLinesCovered == Summary(modules).linesCovered && totalLines == Summary(modules).linesTotal
      invariant totalFunctionsCovered == Summary(modules).functionsCovered
      invariant totalFunctions == Summary(modules).functionsTotal
    {
      var m := MeasureModule(sources[f], testDirExists, tests);

      totalLines := totalLines + m.linesTotal;
      totalLinesCovered := totalLinesCovered + m.linesCovered;
      totalFunctions := totalFunctions + m.functionsTotal;
      totalFunctionsCovered := totalFunctionsCovered + m.functionsCovered;

      SummarySnoc(modules, m);
      MapFilesSnoc(sources, f, Measure(testDirExists, tests));
      modules := modules + [m];
    }
    assert sources[..|sources|] == sources;
    data := CoverageData(totalLinesCovered, totalLines, totalFunctionsCovered, totalFunctions, modules, uncoveredLines);
  }

  // ---------------------------------------------------------------------------
  // Properties of the analysis

  /** Neither covered count exceeds its total. */
  predicate Bounded(m: ModuleCoverage) {
    m.linesCovered <= m.linesTotal && m.functionsCovered <= m.functionsTotal
  }

  /** Each file's covered counts are at most its totals. */
  lemma ModuleBounded(file: SourceFile, testDirExists: bool, tests: seq<SourceFile>)
    ensures Bounded(ModuleOf(file, testDirExists, tests))
  {
    TestCoverageBounds(file.path, file.content, testDirExists, tests);
  }

  /** Summing keeps covered within total. */
  lemma {:induction false} SummaryBounded(modules: seq<ModuleCoverage>)
    requires forall k | 0 <= k < |modules| :: Bounded(modules[k])
    ensures var s := Summary(modules); s.linesCovered <= s.linesTotal && s.functionsCovered <= s.functionsTotal
  {
    if modules != [] {
      SummaryBounded(modules[..|modules| - 1]);
    }
  }

  /**
   * The report: one module per source file, in walk order, named by its
   * full path; covered never exceeds total, per module and overall, so every
   * percentage lies in [0, 100]; no uncovered line is ever listed; a missing
   * source directory gives all zeros and no modules.
   */
  lemma AnalysisSpec(sourceDirExists: bool, sources: seq<SourceFile>, testDirExists: bool, tests: seq<SourceFile>)
    ensures var d := AnalysisOf(sourceDirExists, sources, testDirExists, tests);
      && d.uncoveredLines == []
      && (!sourceDirExists ==> d == CoverageData(0, 0, 0, 0, [], []))
      && (sourceDirExists ==>
            |d.modules| == |sources|
            && forall k | 0 <= k < |sources| :: d.modules[k] == ModuleOf(sources[k], testDirExists, tests))
      && (forall k | 0 <= k < |d.modules| :: Bounded(d.modules[k])
            && 0.0 <= d.modules[k].LinePercentage() <= 100.0 && 0.0 <= d.modules[k].FunctionPercentage() <= 100.0)
      && d.linesCovered <= d.linesTotal && d.functionsCovered <= d.functionsTotal
      && 0.0 <= d.LinePercentage() <= 100.0 && 0.0 <= d.FunctionPercentage() <= 100.0
  {
    if sourceDirExists {
      var ms := ModulesOf(sources, testDirExists, tests);
      ModulesOfElements(sources, testDirExists, tests);
      forall k | 0 <= k < |ms| ensures Bounded(ms[k]) {
        ModuleBounded(sources[k], testDirExists, tests);
      }
      SummaryBounded(ms);
    }
  }

  /** The module list has one entry per source, each measured from that source. */
  lemma ModulesOfElements(sources: seq<SourceFile>, testDirExists: bool, tests: seq<SourceFile>)
    ensures |ModulesOf(sources, testDirExists, tests)| == |sources|
    ensures forall k | 0 <= k < |sources| :: ModulesOf(sources, testDirExists, tests)[k] == ModuleOf(sources[k], testDirExists, tests)
  {
    MapFilesElements(sources, Measure(testDirExists, tests));
  }

  /** A file measured without a test directory has nothing covered. */
  lemma ModuleWithoutTests(file: SourceFile, tests: seq<SourceFile>)
    ensures ModuleOf(file, false, tests).linesCovered == 0 && ModuleOf(file, false, tests).functionsCovered == 0
  {
  }

  /** Totals of files none of which has anything covered cover nothing. */
  lemma {:induction false} MapFilesNothingCovered(files: seq<SourceFile>, measure: SourceFile -> ModuleCoverage)
    requires forall file :: measure(file).linesCovered == 0 && measure(file).functionsCovered == 0
    ensures var s := Summary(MapFiles(files, measure)); s.linesCovered == 0 && s.functionsCovered == 0
  {
    if files != [] {
      MapFilesNothingCovered(files[..|files| - 1], measure);
      SummarySnoc(MapFiles(files[..|files| - 1], measure), measure(files[|files| - 1]));
    }
  }

  /** Without a test directory nothing is covered, whatever the sources. */
  lemma NoTestsNothingCovered(sources: seq<SourceFile>, tests: seq<SourceFile>)
    ensures var d := AnalysisOf(true, sources, false, tests); d.linesCovered == 0 && d.functionsCovered == 0
  {
    var measure := Measure(false, tests);
    forall file ensures measure(file).linesCovered == 0 && measure(file).functionsCovered == 0 {
      ModuleWithoutTests(file, tests);
    }
    MapFilesNothingCovered(sources, measure);
  }
}
