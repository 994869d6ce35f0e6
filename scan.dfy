// The security rule engine of `suiforge scan` (src/commands/scan.rs): five
// line-anchored rules with fixed look-behind and look-ahead windows, applied
// to every line of every `.move` file, findings kept in discovery order.
module Scan {
  import opened Text
  import opened Patterns

  datatype Severity = Critical | High | Medium | Low | Info

  /** `Severity::as_str`: the upper-case name used in both reports. */
  function AsStr(s: Severity): (r: string)
    ensures |r| > 0 && forall k | 0 <= k < |r| :: 'A' <= r[k] <= 'Z'
  {
    match s
    case Critical => "CRITICAL"
    case High => "HIGH"
    case Medium => "MEDIUM"
    case Low => "LOW"
    case Info => "INFO"
  }

  /** The printed name identifies the severity. */
  lemma AsStrInjective(a: Severity, b: Severity)
    ensures AsStr(a) == AsStr(b) <==> a == b
  {
    if AsStr(a) == AsStr(b) {
      assert AsStr(a)[0] == AsStr(b)[0] && |AsStr(a)| == |AsStr(b)|;
    }
  }

  datatype SecurityIssue = SecurityIssue(
    severity: Severity,
    title: string,
    description: string,
    location: SourceLocation,
    recommendation: string)

  // ---------------------------------------------------------------------------
  // The tests applied to the lines of a window (the closures given to `any`)

  /** An ownership assertion (scan.rs:106). */
  predicate OwnershipCheck(l: string) {
    Contains(l, "assert!") && (Contains(l, "owner") || Contains(l, "sender"))
  }

  /** An access-control marker (scan.rs:126). */
  predicate AccessGuard(l: string) {
    Contains(l, "assert!") || Contains(l, "require") || Contains(l, "capability")
  }

  /** An assignment that is not a comparison (scan.rs:146). */
  predicate StateUpdate(l: string) {
    Contains(l, "=") && !Contains(l, "==")
  }

  /** Some line of the window contains `name` (scan.rs:168). */
  predicate Mentions(w: seq<string>, name: string) {
    AnyLine(w, l => Contains(l, name))
  }

  // ---------------------------------------------------------------------------
  // The five rules

  /** Unchecked transfer (scan.rs:100-117): looks at the 5 lines from `i - 5`, saturated at 0. */
  predicate UncheckedTransfer(lines: seq<string>, i: nat)
    requires i < |lines|
  {
    Contains(lines[i], "transfer::") && !Contains(lines[i], "assert!")
    && !AnyLine(Window(lines, SatSub(i, 5), 5), OwnershipCheck)
  }

  /** Missing access control (scan.rs:120-137): the 10 lines from `i` itself; never at level "basic". */
  predicate MissingAccessControl(lines: seq<string>, i: nat, level: string)
    requires i < |lines|
  {
    Contains(lines[i], "public fun") && !Contains(lines[i], "entry")
    && !AnyLine(Window(lines, i, 10), AccessGuard) && level != "basic"
  }

  /** Reentrancy (scan.rs:140-157): the 3 lines from `i - 3`, saturated at 0; at every level. */
  predicate ReentrancyRisk(lines: seq<string>, i: nat)
    requires i < |lines|
  {
    (Contains(lines[i], "transfer::") || Contains(lines[i], "coin::"))
    && !AnyLine(Window(lines, SatSub(i, 3), 3), StateUpdate)
  }

  /** Unused variable (scan.rs:162-179): level "strict"; the name is sought in the 20 lines after `i`. */
  predicate UnusedVariable(lines: seq<string>, i: nat, level: string)
    requires i < |lines|
  {
    level == "strict"
    && Contains(lines[i], "let ") && !Contains(lines[i], "mut") && !Contains(lines[i], "_")
    && ExtractVariableName(lines[i]).Some?
    && !Mentions(Window(lines, i + 1, 20), ExtractVariableName(lines[i]).value)
  }

  /** Missing documentation (scan.rs:183-193): level "strict"; only the line before is examined. */
  predicate MissingDoc(lines: seq<string>, i: nat, level: string)
    requires i < |lines|
  {
    level == "strict" && Contains(lines[i], "public fun")
    && !(i > 0 && StartsWith(Trim(lines[i - 1]), "///"))
  }

  // The texts of the five findings.
  const TransferTitle: string := "Unchecked Transfer"
  const TransferDescription: string := "Transfer operation without ownership verification"
  const TransferAdvice: string := "Add ownership check before transfer: assert!(owner == sender)"
  const AccessTitle: string := "Missing Access Control"
  const AccessDescription: string := "Public function without role-based access control"
  const AccessAdvice: string := "Implement admin-only modifier or capability pattern"
  const ReentrancyTitle: string := "Potential Reentrancy Risk"
  const ReentrancyDescription: string := "External call before state update"
  const ReentrancyAdvice: string := "Update state before making external calls (checks-effects-interactions)"
  const UnusedTitle: string := "Unused Variable"
  const UnusedAdvice: string := "Remove unused variable or prefix with underscore"
  const DocTitle: string := "Missing Documentation"
  const DocDescription: string := "Public function lacks documentation comment"
  const DocAdvice: string := "Add /// documentation comment explaining function purpose"

  /** `format!("Variable '{}' declared but never used", var_name)`. */
  function UnusedDescription(name: string): string {
    "Variable '" + name + "' declared but never used"
  }

  function UncheckedTransferIssue(loc: SourceLocation): SecurityIssue {
    SecurityIssue(High, TransferTitle, TransferDescription, loc, TransferAdvice)
  }

  function MissingAccessControlIssue(loc: SourceLocation): SecurityIssue {
    SecurityIssue(Medium, AccessTitle, AccessDescription, loc, AccessAdvice)
  }

  function ReentrancyIssue(loc: SourceLocation): SecurityIssue {
    SecurityIssue(Critical, ReentrancyTitle, ReentrancyDescription, loc, ReentrancyAdvice)
  }

  function UnusedVariableIssue(loc: SourceLocation, name: string): SecurityIssue {
    SecurityIssue(Low, UnusedTitle, UnusedDescription(name), loc, UnusedAdvice)
  }

  function MissingDocIssue(loc: SourceLocation): SecurityIssue {
    SecurityIssue(Info, DocTitle, DocDescription, loc, DocAdvice)
  }

  /**
   * Which of the five rules fire on one line, in the order
   * `scan_file_for_issues` applies them; the unused-variable rule carries the
   * name it reports.
   */
  datatype Verdict = Verdict(transfer: bool, access: bool, reentrancy: bool, unused: Option<string>, doc: bool)

  /** The verdict of the five rules on line `i`. */
  function LineVerdict(lines: seq<string>, i: nat, level: string): Verdict
    requires i < |lines|
  {
    Verdict(
      UncheckedTransfer(lines, i),
      MissingAccessControl(lines, i, level),
      ReentrancyRisk(lines, i),
      if UnusedVariable(lines, i, level) then Some(ExtractVariableName(lines[i]).value) else None,
      MissingDoc(lines, i, level))
  }

  /** The five rules, in the order `scan_file_for_issues` applies them to a line. */
  datatype Rule = UncheckedTransferRule | AccessControlRule | ReentrancyRule | UnusedVariableRule | DocumentationRule

  const RuleOrder: seq<Rule> :=
    [UncheckedTransferRule, AccessControlRule, ReentrancyRule, UnusedVariableRule, DocumentationRule]

  /** The severity each rule reports with. */
  function SeverityOf(rule: Rule): Severity {
    match rule
    case UncheckedTransferRule => High
    case AccessControlRule => Medium
    case ReentrancyRule => Critical
    case UnusedVariableRule => Low
    case DocumentationRule => Info
  }

  /** The rule that reports with a severity: each severity belongs to exactly one rule. */
  function RuleOf(sev: Severity): (rule: Rule)
    ensures SeverityOf(rule) == sev
  {
    match sev
    case High => UncheckedTransferRule
    case Medium => AccessControlRule
    case Critical => ReentrancyRule
    case Low => UnusedVariableRule
    case Info => DocumentationRule
  }

  /** No two rules report with the same severity. */
  lemma RuleOfSeverityOf(rule: Rule)
    ensures RuleOf(SeverityOf(rule)) == rule
  {
  }

  /** Whether `rule` fires according to verdict `v`. */
  predicate Fires(v: Verdict, rule: Rule) {
    match rule
    case UncheckedTransferRule => v.transfer
    case AccessControlRule => v.access
    case ReentrancyRule => v.reentrancy
    case UnusedVariableRule => v.unused.Some?
    case DocumentationRule => v.doc
  }

  /** What one rule reports at `loc`: one finding of its own severity exactly when it fires. */
  function RuleFinding(loc: SourceLocation, v: Verdict, rule: Rule): (r: seq<SecurityIssue>)
    ensures |r| <= 1 && (|r| == 1 <==> Fires(v, rule))
    ensures |r| == 1 ==> r[0].severity == SeverityOf(rule) && r[0].location == loc
  {
    match rule
    case UncheckedTransferRule => if v.transfer then [UncheckedTransferIssue(loc)] else []
    case AccessControlRule => if v.access then [MissingAccessControlIssue(loc)] else []
    case ReentrancyRule => if v.reentrancy then [ReentrancyIssue(loc)] else []
    case UnusedVariableRule =>
      (match v.unused
       case Some(name) => [UnusedVariableIssue(loc, name)]
       case None => [])
    case DocumentationRule => if v.doc then [MissingDocIssue(loc)] else []
  }

  /** The findings of a list of rules at `loc`, rule after rule. */
  function RulesFindings(loc: SourceLocation, v: Verdict, rules: seq<Rule>): seq<SecurityIssue> {
    if rules == [] then []
    else RulesFindings(loc, v, rules[..|rules| - 1]) + RuleFinding(loc, v, rules[|rules| - 1])
  }

  /** The findings a verdict yields at `loc`: every rule, in the order of `RuleOrder`. */
  function VerdictFindings(loc: SourceLocation, v: Verdict): seq<SecurityIssue> {
    RulesFindings(loc, v, RuleOrder)
  }

  /** The findings of a verdict are those of the five rules, concatenated in rule order. */
  lemma VerdictFindingsUnfold(loc: SourceLocation, v: Verdict)
    ensures VerdictFindings(loc, v)
      == RuleFinding(loc, v, UncheckedTransferRule) + RuleFinding(loc, v, AccessControlRule)
        + RuleFinding(loc, v, ReentrancyRule) + RuleFinding(loc, v, UnusedVariableRule)
        + RuleFinding(loc, v, DocumentationRule)
  {
    var r1, r2, r3, r4 := RuleOrder[..1], RuleOrder[..2], RuleOrder[..3], RuleOrder[..4];
    assert r1[..0] == [] && r2[..1] == r1 && r3[..2] == r2 && r4[..3] == r3 && RuleOrder[..4] == r4;
    assert RulesFindings(loc, v, r1) == RuleFinding(loc, v, UncheckedTransferRule);
    assert RulesFindings(loc, v, r2) == RulesFindings(loc, v, r1) + RuleFinding(loc, v, AccessControlRule);
    assert RulesFindings(loc, v, r3) == RulesFindings(loc, v, r2) + RuleFinding(loc, v, ReentrancyRule);
    assert RulesFindings(loc, v, r4) == RulesFindings(loc, v, r3) + RuleFinding(loc, v, UnusedVariableRule);
  }

  /** What line `i` contributes. */
  function LineFindings(fileName: string, lines: seq<string>, i: nat, level: string): seq<SecurityIssue>
    requires i < |lines|
  {
    VerdictFindings(Location(fileName, i), LineVerdict(lines, i, level))
  }

  /** The findings of the first `n` lines, in line order. */
  function FindingsUpTo(fileName: string, lines: seq<string>, level: string, n: nat): seq<SecurityIssue>
    requires n <= |lines|
  {
    if n == 0 then []
    else FindingsUpTo(fileName, lines, level, n - 1) + LineFindings(fileName, lines, n - 1, level)
  }

  /** What `scan_file_for_issues` appends for one file. */
  function FileFindings(file: SourceFile, level: string): seq<SecurityIssue> {
    var lines := Lines(file.content);
    FindingsUpTo(file.path, lines, level, |lines|)
  }

  /** The findings of a sequence of files, file after file. */
  function FilesFindings(files: seq<SourceFile>, level: string): seq<SecurityIssue> {
    if files == [] then []
    else FilesFindings(files[..|files| - 1], level) + FileFindings(files[|files| - 1], level)
  }

  /** What `scan_sources` returns: nothing when the source directory is missing. */
  function SourcesFindings(dirExists: bool, files: seq<SourceFile>, level: string): seq<SecurityIssue> {
    if !dirExists then [] else FilesFindings(files, level)
  }

  // ---------------------------------------------------------------------------
  // The scanning loops

  /**
   * `scan_file_for_issues`: appends the findings of every line to `issues`.
   * The Rust function takes `&mut Vec`; an exclusive borrow cannot alias, so
   * the vector is passed in and handed back.
   */
  method ScanFileForIssues(content: string, fileName: string, level: string, issues: seq<SecurityIssue>)
    returns (out: seq<SecurityIssue>)
    ensures out == issues + FileFindings(SourceFile(fileName, content), level)
  {
    var lines := Lines(content);
    out := issues;
    for i := 0 to |lines|
      invariant out == issues + FindingsUpTo(fileName, lines, level, i)
    {
      out := CheckLine(fileName, lines, i, level, out);
    }
  }

  lemma Concat6<T>(a: seq<T>, b: seq<T>, c: seq<T>, d: seq<T>, e: seq<T>, f: seq<T>)
    ensures a + b + c + d + e + f == a + (b + c + d + e + f)
  {
  }

  /** The first check of the line loop: a transfer with no ownership assertion around it. */
  method CheckUncheckedTransfer(lines: seq<string>, i: nat, loc: SourceLocation, issues: seq<SecurityIssue>)
    returns (out: seq<SecurityIssue>)
    requires i < |lines|
    ensures out == issues + (if UncheckedTransfer(lines, i) then [UncheckedTransferIssue(loc)] else [])
  {
    out := issues;
    var line := lines[i];
    if Contains(line, "transfer::") && !Contains(line, "assert!") {
      var hasCheck := AnyLine(Window(lines, SatSub(i, 5), 5), OwnershipCheck);
      if !hasCheck {
        out := out + [UncheckedTransferIssue(loc)];
      }
    }
  }

  /** The second check: a public, non-entry function with no guard in its first ten lines. */
  method CheckAccessControl(lines: seq<string>, i: nat, level: string, loc: SourceLocation, issues: seq<SecurityIssue>)
    returns (out: seq<SecurityIssue>)
    requires i < |lines|
    ensures out == issues + (if MissingAccessControl(lines, i, level) then [MissingAccessControlIssue(loc)] else [])
  {
    out := issues;
    var line := lines[i];
    if Contains(line, "public fun") && !Contains(line, "entry") {
      var hasAccessControl := AnyLine(Window(lines, i, 10), AccessGuard);
      if !hasAccessControl && level != "basic" {
        out := out + [MissingAccessControlIssue(loc)];
      }
    }
  }

  /** The third check: a transfer or coin call with no assignment just before it. */
  method CheckReentrancy(lines: seq<string>, i: nat, loc: SourceLocation, issues: seq<SecurityIssue>)
    returns (out: seq<SecurityIssue>)
    requires i < |lines|
    ensures out == issues + (if ReentrancyRisk(lines, i) then [ReentrancyIssue(loc)] else [])
  {
    out := issues;
    var line := lines[i];
    if Contains(line, "transfer::") || Contains(line, "coin::") {
      var hasStateUpdateBefore := AnyLine(Window(lines, SatSub(i, 3), 3), StateUpdate);
      if !hasStateUpdateBefore {
        out := out + [ReentrancyIssue(loc)];
      }
    }
  }

  /** The fourth check (strict level only): a `let` whose name the next 20 lines never mention. */
  method CheckUnusedVariable(lines: seq<string>, i: nat, level: string, loc: SourceLocation, issues: seq<SecurityIssue>)
    returns (out: seq<SecurityIssue>)
    requires i < |lines|
    ensures out == issues
      + (if UnusedVariable(lines, i, level) then [UnusedVariableIssue(loc, ExtractVariableName(lines[i]).value)] else [])
  {
    out := issues;
    var line := lines[i];
    if level == "strict" && Contains(line, "let ") && !Contains(line, "mut") && !Contains(line, "_") {
      match ExtractVariableName(line)
      case Some(varName) =>
        var isUsed := Mentions(Window(lines, i + 1, 20), varName);
        if !isUsed {
          out := out + [UnusedVariableIssue(loc, varName)];
        }
      case None =>
    }
  }

  /** The fifth check (strict level only): a public function whose previous line is no `///` comment. */
  method CheckDocumentation(lines: seq<string>, i: nat, level: string, loc: SourceLocation, issues: seq<SecurityIssue>)
    returns (out: seq<SecurityIssue>)
    requires i < |lines|
    ensures out == issues + (if MissingDoc(lines, i, level) then [MissingDocIssue(loc)] else [])
  {
    out := issues;
    if level == "strict" && Contains(lines[i], "public fun") {
      var hasDoc := i > 0 && StartsWith(Trim(lines[i - 1]), "///");
      if !hasDoc {
        out := out + [MissingDocIssue(loc)];
      }
    }
  }

  /** What each rule reports for line `i`, stated with the rule's own predicate. */
  lemma LineRuleFindings(lines: seq<string>, i: nat, level: string, loc: SourceLocation)
    requires i < |lines|
    ensures var v := LineVerdict(lines, i, level);
      && RuleFinding(loc, v, UncheckedTransferRule) == (if UncheckedTransfer(lines, i) then [UncheckedTransferIssue(loc)] else [])
      && RuleFinding(loc, v, AccessControlRule)
        == (if MissingAccessControl(lines, i, level) then [MissingAccessControlIssue(loc)] else [])
      && RuleFinding(loc, v, ReentrancyRule) == (if ReentrancyRisk(lines, i) then [ReentrancyIssue(loc)] else [])
      && RuleFinding(loc, v, UnusedVariableRule)
        == (if UnusedVariable(lines, i, level) then [UnusedVariableIssue(loc, ExtractVariableName(lines[i]).value)] else [])
      && RuleFinding(loc, v, DocumentationRule) == (if MissingDoc(lines, i, level) then [MissingDocIssue(loc)] else [])
  {
  }

  /** The body of the line loop of `scan_file_for_issues`: the five checks applied to line `i`, in order. */
  method CheckLine(fileName: string, lines: seq<string>, i: nat, level: string, issues: seq<SecurityIssue>)
    returns (out: seq<SecurityIssue>)
    requires i < |lines|
    ensures out == issues + LineFindings(fileName, lines, i, level)
  {
    var loc := Location(fileName, i);
    ghost var v := LineVerdict(lines, i, level);
    out := CheckUncheckedTransfer(lines, i, loc, issues);
    ghost var t := out;
    out := CheckAccessControl(lines, i, level, loc, out);
    ghost var a := out;
    out := CheckReentrancy(lines, i, loc, out);
    ghost var r := out;
    out := CheckUnusedVariable(lines, i, level, loc, out);
    ghost var u := out;
    out := CheckDocumentation(lines, i, level, loc, out);
    LineRuleFindings(lines, i, level, loc);
    assert t == issues + RuleFinding(loc, v, UncheckedTransferRule);
    assert a == t + RuleFinding(loc, v, AccessControlRule);
    assert r == a + RuleFinding(loc, v, ReentrancyRule);
    assert u == r + RuleFinding(loc, v, UnusedVariableRule);
    assert out == u + RuleFinding(loc, v, DocumentationRule);
    VerdictFindingsUnfold(loc, v);
    Concat6(issues, RuleFinding(loc, v, UncheckedTransferRule), RuleFinding(loc, v, AccessControlRule),
      RuleFinding(loc, v, ReentrancyRule), RuleFinding(loc, v, UnusedVariableRule), RuleFinding(loc, v, DocumentationRule));
  }

  /** `scan_sources`: every file in walk order, each appending to the same list. */
  method ScanSources(dirExists: bool, files: seq<SourceFile>, level: string)
    returns (issues: seq<SecurityIssue>)
    ensures issues == SourcesFindings(dirExists, files, level)
  {
    issues := [];
    if !dirExists {
      return;
    }
    for k := 0 to |files|
      invariant issues == FilesFindings(files[..k], level)
    {
      issues := ScanFileForIssues(files[k].content, files[k].path, level, issues);
      assert files[..k + 1][..k] == files[..k];
    }
    assert files[..|files|] == files;
  }
  // ---------------------------------------------------------------------------
  // Severity counts (print_text_report)

  /** How many findings have severity `sev`. */
  function CountSeverity(issues: seq<SecurityIssue>, sev: Severity): (r: nat)
    ensures r <= |issues|
  {
    if issues == [] then 0
    else CountSeverity(issues[..|issues| - 1], sev) + (if issues[|issues| - 1].severity == sev then 1 else 0)
  }

  lemma {:induction false} CountSeverityAppend(a: seq<SecurityIssue>, b: seq<SecurityIssue>, sev: Severity)
    ensures CountSeverity(a + b, sev) == CountSeverity(a, sev) + CountSeverity(b, sev)
    decreases |b|
  {
    if b == [] {
      assert a + b == a;
    } else {
      CountSeverityAppend(a, b[..|b| - 1], sev);
      assert (a + b)[..|a + b| - 1] == a + b[..|b| - 1];
    }
  }

  /** A severity is counted exactly when some finding has it. */
  lemma {:induction false} CountSeverityPositive(issues: seq<SecurityIssue>, sev: Severity)
    ensures CountSeverity(issues, sev) > 0 <==> exists k | 0 <= k < |issues| :: issues[k].severity == sev
  {
    if issues != [] {
      var init := issues[..|issues| - 1];
      CountSeverityPositive(init, sev);
      if exists k | 0 <= k < |init| :: init[k].severity == sev {
        var k :| 0 <= k < |init| && init[k].severity == sev;
        assert issues[k] == init[k];
      }
      if exists k | 0 <= k < |issues| :: issues[k].severity == sev {
        var k :| 0 <= k < |issues| && issues[k].severity == sev;
        if k < |init| {
          assert issues[k] == init[k];
        }
      }
    }
  }

  /** The five counters of `print_text_report`; together they count every finding once. */
  method CountBySeverity(issues: seq<SecurityIssue>)
    returns (critical: nat, high: nat, medium: nat, low: nat, info: nat)
    ensures critical == CountSeverity(issues, Critical) && high == CountSeverity(issues, High)
    ensures medium == CountSeverity(issues, Medium) && low == CountSeverity(issues, Low)
    ensures info == CountSeverity(issues, Info)
    ensures critical + high + medium + low + info == |issues|
  {
    critical, high, medium, low, info := 0, 0, 0, 0, 0;
    for k := 0 to |issues|
      invariant critical == CountSeverity(issues[..k], Critical) && high == CountSeverity(issues[..k], High)
      invariant medium == CountSeverity(issues[..k], Medium) && low == CountSeverity(issues[..k], Low)
      invariant info == CountSeverity(issues[..k], Info)
      invariant critical + high + medium + low + info == k
    {
      assert issues[..k + 1][..k] == issues[..k];
      match issues[k].severity
      case Critical => critical := critical + 1;
      case High => high := high + 1;
      case Medium => medium := medium + 1;
      case Low => low := low + 1;
      case Info => info := info + 1;
    }
    assert issues[..|issues|] == issues;
  }

  /** The closing verdict of the text report: a warning exactly when a Critical or High finding exists. */
  function ReviewRequired(issues: seq<SecurityIssue>): (r: bool)
    ensures r <==> exists k | 0 <= k < |issues| :: issues[k].severity == Critical || issues[k].severity == High
  {
    CountSeverityPositive(issues, Critical);
    CountSeverityPositive(issues, High);
    CountSeverity(issues, Critical) > 0 || CountSeverity(issues, High) > 0
  }

  // ---------------------------------------------------------------------------
  // Properties of one line

  lemma CountConcat5(a: seq<SecurityIssue>, b: seq<SecurityIssue>, c: seq<SecurityIssue>,
                     d: seq<SecurityIssue>, e: seq<SecurityIssue>, sev: Severity)
    ensures CountSeverity(a + b + c + d + e, sev)
      == CountSeverity(a, sev) + CountSeverity(b, sev) + CountSeverity(c, sev)
        + CountSeverity(d, sev) + CountSeverity(e, sev)
  {
    CountSeverityAppend(a + b + c + d, e, sev);
    CountSeverityAppend(a + b + c, d, sev);
    CountSeverityAppend(a + b, c, sev);
    CountSeverityAppend(a, b, sev);
  }

  lemma CountRuleFinding(loc: SourceLocation, v: Verdict, rule: Rule, sev: Severity)
    ensures CountSeverity(RuleFinding(loc, v, rule), sev) == if Fires(v, rule) && SeverityOf(rule) == sev then 1 else 0
  {
    var r := RuleFinding(loc, v, rule);
    if |r| == 1 {
      assert r[..0] == [];
    }
  }

  /** A verdict yields exactly one finding of a severity when that severity's rule fires, and none otherwise. */
  lemma {:induction false} VerdictSeverityCount(loc: SourceLocation, v: Verdict, sev: Severity)
    ensures CountSeverity(VerdictFindings(loc, v), sev) == if Fires(v, RuleOf(sev)) then 1 else 0
  {
    VerdictFindingsUnfold(loc, v);
    CountConcat5(RuleFinding(loc, v, UncheckedTransferRule), RuleFinding(loc, v, AccessControlRule),
      RuleFinding(loc, v, ReentrancyRule), RuleFinding(loc, v, UnusedVariableRule),
      RuleFinding(loc, v, DocumentationRule), sev);
    CountRuleFinding(loc, v, UncheckedTransferRule, sev);
    CountRuleFinding(loc, v, AccessControlRule, sev);
    CountRuleFinding(loc, v, ReentrancyRule, sev);
    CountRuleFinding(loc, v, UnusedVariableRule, sev);
    CountRuleFinding(loc, v, DocumentationRule, sev);
  }

  /** Line `i` yields one High, Medium, Critical, Low or Info finding exactly when the matching rule fires. */
  lemma LineSeverityCount(fileName: string, lines: seq<string>, i: nat, level: string)
    requires i < |lines|
    ensures CountSeverity(LineFindings(fileName, lines, i, level), High) == if UncheckedTransfer(lines, i) then 1 else 0
    ensures CountSeverity(LineFindings(fileName, lines, i, level), Medium)
      == if MissingAccessControl(lines, i, level) then 1 else 0
    ensures CountSeverity(LineFindings(fileName, lines, i, level), Critical) == if ReentrancyRisk(lines, i) then 1 else 0
    ensures CountSeverity(LineFindings(fileName, lines, i, level), Low) == if UnusedVariable(lines, i, level) then 1 else 0
    ensures CountSeverity(LineFindings(fileName, lines, i, level), Info) == if MissingDoc(lines, i, level) then 1 else 0
  {
    var loc, v := Location(fileName, i), LineVerdict(lines, i, level);
    VerdictSeverityCount(loc, v, High);
    VerdictSeverityCount(loc, v, Medium);
    VerdictSeverityCount(loc, v, Critical);
    VerdictSeverityCount(loc, v, Low);
    VerdictSeverityCount(loc, v, Info);
  }

  /** The position of each rule in the order the rules are applied, by the severity it reports. */
  function RuleRank(s: Severity): nat {
    match s
    case High => 0
    case Medium => 1
    case Critical => 2
    case Low => 3
    case Info => 4
  }

  /** Every finding sits at `loc` and the findings come in strictly increasing rule order, all below `bound`. */
  predicate InRuleOrder(f: seq<SecurityIssue>, loc: SourceLocation, bound: nat) {
    && (forall k | 0 <= k < |f| :: f[k].location == loc && RuleRank(f[k].severity) < bound)
    && (forall k, m | 0 <= k < m < |f| :: RuleRank(f[k].severity) < RuleRank(f[m].severity))
  }

  /** The findings of a list of rules, each ranked above the one before, keep that order. */
  lemma {:induction false} RulesFindingsOrder(loc: SourceLocation, v: Verdict, rules: seq<Rule>, bound: nat)
    requires forall k | 0 <= k < |rules| :: RuleRank(SeverityOf(rules[k])) < bound
    requires forall k, m | 0 <= k < m < |rules| :: RuleRank(SeverityOf(rules[k])) < RuleRank(SeverityOf(rules[m]))
    ensures InRuleOrder(RulesFindings(loc, v, rules), loc, bound)
    ensures |RulesFindings(loc, v, rules)| <= |rules|
  {
    if rules != [] {
      var init, last := rules[..|rules| - 1], rules[|rules| - 1];
      var f: seq<SecurityIssue>, g: seq<SecurityIssue> := RulesFindings(loc, v, init), RuleFinding(loc, v, last);
      var r := RuleRank(SeverityOf(last));
      RulesFindingsOrder(loc, v, init, r);
      assert RulesFindings(loc, v, rules) == f + g;
      forall k, m | 0 <= k < m < |f + g|
        ensures RuleRank((f + g)[k].severity) < RuleRank((f + g)[m].severity)
      {
        if m >= |f| {
          assert (f + g)[m] == g[0];
        }
      }
    }
  }

  /**
   * A line yields at most one finding per rule, in the order unchecked
   * transfer, access control, reentrancy, unused variable, documentation,
   * each located at that line.
   */
  lemma VerdictFindingsOrder(loc: SourceLocation, v: Verdict)
    ensures var f := VerdictFindings(loc, v);
      && |f| <= 5
      && (forall k | 0 <= k < |f| :: f[k].location == loc)
      && (forall k, m | 0 <= k < m < |f| :: RuleRank(f[k].severity) < RuleRank(f[m].severity))
  {
    RulesFindingsOrder(loc, v, RuleOrder, 5);
  }

  /** Unchecked transfer, stated over line indices: the window is `[i-5, i-5+5)` saturated at 0. */
  lemma UncheckedTransferWindow(lines: seq<string>, i: nat)
    requires i < |lines|
    ensures UncheckedTransfer(lines, i) <==>
      && Contains(lines[i], "transfer::") && !Contains(lines[i], "assert!")
      && forall j | SatSub(i, 5) <= j < Min(SatSub(i, 5) + 5, |lines|) :: !OwnershipCheck(lines[j])
  {
    AnyLineWindow(lines, SatSub(i, 5), 5, OwnershipCheck);
  }

  /**
   * Near the top of a file the look-behind window reaches forward: an
   * ownership assertion on a later line among the first five suppresses the
   * finding.
   */
  lemma TransferCheckSeenAhead(lines: seq<string>, i: nat, j: nat)
    requires i < j < 5 && j < |lines| && OwnershipCheck(lines[j])
    ensures !UncheckedTransfer(lines, i)
  {
    UncheckedTransferWindow(lines, i);
  }

  /** Missing access control, stated over line indices: the window `[i, i+10)` holds the trigger line. */
  lemma MissingAccessControlWindow(lines: seq<string>, i: nat, level: string)
    requires i < |lines|
    ensures MissingAccessControl(lines, i, level) <==>
      && level != "basic"
      && Contains(lines[i], "public fun") && !Contains(lines[i], "entry")
      && forall j | i <= j < Min(i + 10, |lines|) :: !AccessGuard(lines[j])
  {
    AnyLineWindow(lines, i, 10, AccessGuard);
  }

  /** A declaration line that itself asserts, requires or mentions a capability is never flagged. */
  lemma GuardedDeclarationNotFlagged(lines: seq<string>, i: nat, level: string)
    requires i < |lines| && AccessGuard(lines[i])
    ensures !MissingAccessControl(lines, i, level)
  {
    MissingAccessControlWindow(lines, i, level);
  }

  /** Reentrancy, stated over line indices: the window is `[i-3, i-3+3)` saturated at 0. */
  lemma ReentrancyWindow(lines: seq<string>, i: nat)
    requires i < |lines|
    ensures ReentrancyRisk(lines, i) <==>
      && (Contains(lines[i], "transfer::") || Contains(lines[i], "coin::"))
      && forall j | SatSub(i, 3) <= j < Min(SatSub(i, 3) + 3, |lines|) :: !StateUpdate(lines[j])
  {
    AnyLineWindow(lines, SatSub(i, 3), 3, StateUpdate);
  }

  /** Unused variable, stated over line indices: the name is sought in `[i+1, i+21)`. */
  lemma UnusedVariableWindow(lines: seq<string>, i: nat, level: string)
    requires i < |lines|
    ensures UnusedVariable(lines, i, level) <==>
      && level == "strict"
      && Contains(lines[i], "let ") && !Contains(lines[i], "mut") && !Contains(lines[i], "_")
      && ExtractVariableName(lines[i]).Some?
      && forall j | i + 1 <= j < Min(i + 21, |lines|) :: !Contains(lines[j], ExtractVariableName(lines[i]).value)
  {
    if ExtractVariableName(lines[i]).Some? {
      var name := ExtractVariableName(lines[i]).value;
      AnyLineWindow(lines, i + 1, 20, l => Contains(l, name));
    }
  }

  /** The first line of a file has no line before it, so a `public fun` there is always undocumented. */
  lemma FirstLineUndocumented(fileName: string, lines: seq<string>, level: string)
    requires |lines| > 0 && level == "strict" && Contains(lines[0], "public fun")
    ensures CountSeverity(LineFindings(fileName, lines, 0, level), Info) == 1
  {
    VerdictSeverityCount(Location(fileName, 0), LineVerdict(lines, 0, level), Info);
  }

  /**
   * A transfer line with no assignment in its window yields exactly one
   * Critical finding, whatever the level.
   */
  lemma ReentrancyExactlyOnce(fileName: string, lines: seq<string>, i: nat, level: string)
    requires i < |lines| && Contains(lines[i], "transfer::")
    requires forall j | SatSub(i, 3) <= j < Min(SatSub(i, 3) + 3, |lines|) :: !StateUpdate(lines[j])
    ensures CountSeverity(LineFindings(fileName, lines, i, level), Critical) == 1
  {
    ReentrancyWindow(lines, i);
    VerdictSeverityCount(Location(fileName, i), LineVerdict(lines, i, level), Critical);
  }

  // ---------------------------------------------------------------------------
  // Properties of whole files and of the corpus

  /**
   * Findings are only ever appended: those of the first `m` lines are a
   * prefix of those of the first `n`, so every line's findings appear as one
   * block, in line order.
   */
  lemma {:induction false} FindingsPrefix(fileName: string, lines: seq<string>, level: string, m: nat, n: nat)
    requires m <= n <= |lines|
    ensures FindingsUpTo(fileName, lines, level, m) <= FindingsUpTo(fileName, lines, level, n)
    decreases n
  {
    if m < n {
      FindingsPrefix(fileName, lines, level, m, n - 1);
      var before := FindingsUpTo(fileName, lines, level, n - 1);
      assert before <= before + LineFindings(fileName, lines, n - 1, level);
    }
  }

  /** A severity whose rule fires on no line is absent from the file. */
  lemma {:induction false} NoSeverityInFile(fileName: string, lines: seq<string>, level: string, n: nat, sev: Severity)
    requires n <= |lines|
    requires forall i | 0 <= i < n :: !Fires(LineVerdict(lines, i, level), RuleOf(sev))
    ensures CountSeverity(FindingsUpTo(fileName, lines, level, n), sev) == 0
  {
    if n > 0 {
      NoSeverityInFile(fileName, lines, level, n - 1, sev);
      VerdictSeverityCount(Location(fileName, n - 1), LineVerdict(lines, n - 1, level), sev);
      CountSeverityAppend(FindingsUpTo(fileName, lines, level, n - 1), LineFindings(fileName, lines, n - 1, level), sev);
    }
  }

  /** A severity whose rule fires on no line of any file is absent from the corpus. */
  lemma {:induction false} NoSeverityInFiles(files: seq<SourceFile>, level: string, sev: Severity)
    requires forall k, i | 0 <= k < |files| && 0 <= i < |Lines(files[k].content)| ::
      !Fires(LineVerdict(Lines(files[k].content), i, level), RuleOf(sev))
    ensures CountSeverity(FilesFindings(files, level), sev) == 0
  {
    if files != [] {
      var init := files[..|files| - 1];
      var last := files[|files| - 1];
      var lines := Lines(last.content);
      assert forall k | 0 <= k < |init| :: init[k] == files[k];
      NoSeverityInFiles(init, level, sev);
      NoSeverityInFile(last.path, lines, level, |lines|, sev);
      CountSeverityAppend(FilesFindings(init, level), FileFindings(last, level), sev);
    }
  }

  /** At level "basic" no Medium (missing access control) finding is ever produced. */
  lemma BasicLevelNoAccessControl(dirExists: bool, files: seq<SourceFile>)
    ensures CountSeverity(SourcesFindings(dirExists, files, "basic"), Medium) == 0
  {
    NoSeverityInFiles(files, "basic", Medium);
  }

  /** Below level "strict" no Low or Info finding is ever produced. */
  lemma StrictOnlyLowAndInfo(dirExists: bool, files: seq<SourceFile>, level: string)
    requires level != "strict"
    ensures CountSeverity(SourcesFindings(dirExists, files, level), Low) == 0
    ensures CountSeverity(SourcesFindings(dirExists, files, level), Info) == 0
  {
    NoSeverityInFiles(files, level, Low);
    NoSeverityInFiles(files, level, Info);
  }

  /** The number of Critical findings in a file does not depend on the level. */
  lemma {:induction false} ReentrancyIgnoresLevelInFile(fileName: string, lines: seq<string>, n: nat, l1: string, l2: string)
    requires n <= |lines|
    ensures CountSeverity(FindingsUpTo(fileName, lines, l1, n), Critical)
      == CountSeverity(FindingsUpTo(fileName, lines, l2, n), Critical)
  {
    if n > 0 {
      ReentrancyIgnoresLevelInFile(fileName, lines, n - 1, l1, l2);
      CriticalStep(FindingsUpTo(fileName, lines, l1, n - 1), FindingsUpTo(fileName, lines, l2, n - 1),
        Location(fileName, n - 1), LineVerdict(lines, n - 1, l1), LineVerdict(lines, n - 1, l2));
    }
  }

  /** Lines whose verdicts agree on reentrancy add the same number of Critical findings. */
  lemma CriticalStep(a1: seq<SecurityIssue>, a2: seq<SecurityIssue>, loc: SourceLocation, v1: Verdict, v2: Verdict)
    requires CountSeverity(a1, Critical) == CountSeverity(a2, Critical) && v1.reentrancy == v2.reentrancy
    ensures CountSeverity(a1 + VerdictFindings(loc, v1), Critical) == CountSeverity(a2 + VerdictFindings(loc, v2), Critical)
  {
    VerdictSeverityCount(loc, v1, Critical);
    VerdictSeverityCount(loc, v2, Critical);
    CountSeverityAppend(a1, VerdictFindings(loc, v1), Critical);
    CountSeverityAppend(a2, VerdictFindings(loc, v2), Critical);
  }

  /** The number of Critical findings in the corpus does not depend on the level. */
  lemma {:induction false} ReentrancyIgnoresLevel(files: seq<SourceFile>, l1: string, l2: string)
    ensures CountSeverity(FilesFindings(files, l1), Critical) == CountSeverity(FilesFindings(files, l2), Critical)
  {
    if files != [] {
      var init := files[..|files| - 1];
      var last := files[|files| - 1];
      var lines := Lines(last.content);
      ReentrancyIgnoresLevel(init, l1, l2);
      ReentrancyIgnoresLevelInFile(last.path, lines, |lines|, l1, l2);
      CountSeverityAppend(FilesFindings(init, l1), FileFindings(last, l1), Critical);
      CountSeverityAppend(FilesFindings(init, l2), FileFindings(last, l2), Critical);
    }
  }

  /** A missing source directory, or one without `.move` files, yields no findings. */
  lemma NoSourcesNoFindings(files: seq<SourceFile>, level: string)
    ensures SourcesFindings(false, files, level) == []
    ensures SourcesFindings(true, [], level) == []
  {
  }
}
