# suiforge static analysis, modelled in Dafny

suiforge is a command-line toolkit for Sui Move projects. This project models
the part of it that analyses Move source text without running it:

- **The security scan** (`src/commands/scan.rs`). The lines of every `.move` file under
  `sources/` are checked against five rules, in this order:

  | rule | severity |
  |---|---|
  | unchecked transfer | High |
  | missing access control | Medium |
  | reentrancy risk | Critical |
  | unused variable | Low |
  | missing documentation | Info |

  Each rule looks at the trigger line and at a window of nearby lines built with `skip(a).take(n)`. The strictness level switches some rules off. Findings are appended in file, line and rule order, and then counted by severity.
- **The gas estimator and optimisation advisor** (`src/commands/gas.rs`).
  - Each function signature gets a cost estimate. The estimate counts five marker substrings from the end of the function's header to the end of the file.
  - Four windowed line rules produce savings suggestions. The suggestions are ranked by a stable descending sort on savings and truncated to five.
  - The statistics of `analyze_gas` are the floor of the mean, the last maximum, the first minimum, the three hot spots and the two cheapest functions.
- **The coverage estimator** (`src/commands/coverage.rs`).
  - Each source file is paired with the first test file, in walk order, whose file name contains the source's stem.
  - A function ratio and a line ratio are derived from the paired test text.
  - These ratios scale each module's line and function counts. The scaled counts are summed into totals and shown as percentages.

## How the model is organised

| module | file | contents |
|---|---|---|
| `Text` | `text.dfy` | String primitives the code relies on (see below) |
| `Patterns` | `patterns.dfy` | Hand-written matchers for the four regular expressions (see below) |
| `Ranking` | `ranking.dfy` | The stable descending sort of `sort_by`, `truncate`, `max_by_key` and `min_by_key` |
| `Scan` | `scan.dfy` | `scan_file_for_issues`, `scan_sources`, `Severity::as_str`, the severity counters |
| `Gas` | `gas.dfy` | `estimate_gas_usage`, `parse_move_functions`, `analyze_for_optimizations`, the statistics of `analyze_gas` |
| `Coverage` | `coverage.dfy` | `calculate_test_coverage`, `analyze_coverage`, the percentages |

The string primitives in `Text` are:
- `contains`;
- the non-overlapping `matches(..).count()`;
- `lines`;
- `trim`;
- the `"{file}:{line}"` location format;
- the windows `skip(a).take(n)`.

The four regular expressions in `Patterns` are:
- `let\s+(\w+)`;
- `(?m)^\s*(?:public\s+)?fun\s+(\w+)`;
- the `fun NAME\s*\([^)]*\)[^{]*\{` header finder;
- the calculation pattern.

Each matcher is proved equal to a direct reading of its regular expression, in both directions (`Patterns.LetAtIff`, `Patterns.SigAtIff`, `Patterns.HeaderAtIff`, `Patterns.CalcMatchIff`). The searches built on them are proved to return the leftmost match (`Patterns.ExtractVariableNameSpec`, `Patterns.SigNamesFromSpec`, `Patterns.FindHeaderShape`).

Loops that push into a vector or update counters are methods. Each one is proved equal to a specification function. These functions are described by lemmas: window characterisations, ordering, counting, bounds and ranking.

The file system is a parameter. A directory walk becomes a flag saying whether the directory exists, plus the sequence of its `.move` files as `(path, content)` pairs, in walk order.

The coverage ratios and percentages are exact `real` numbers. The cast `as usize` is the whole part of a non-negative product, and 0 for a negative one.

Observations the lemmas make precise:
- Near the top of a file, the unchecked-transfer window looks ahead instead of back (`Scan.TransferCheckSeenAhead`).
- A `public entry fun` is never profiled (`Patterns.EntryFunctionsNotMatched`).
- The line ratio can exceed the function ratio (`Coverage.LineRatioAboveFunctionRatio`). A comment at `src/commands/coverage.rs:425` speaks of a cap at the function ratio, but the code caps at 1. The model follows the code.

## Model

| member | source | states |
|---|---|---|
| Text.CountOcc | src/commands/gas.rs:337-341 | the non-overlapping count of `t` in `s` is positive exactly when `s` contains `t`, and its matches fit in `s` |
| Text.Lines | src/commands/scan.rs:96 | no line produced by `str::lines` contains a newline |
| Text.LinesRoundTrip | src/commands/scan.rs:96 | joining the lines with newlines gives back the content, plus a final newline when it had none |
| Text.TrimBounds | src/commands/coverage.rs:179 | trimming removes exactly the leading and trailing white space |
| Text.Trim | src/commands/coverage.rs:179 | `str::trim`: the slice between the bounds of `TrimBounds`, so exactly the leading and trailing white space is removed |
| Text.TrimEmptyIff | src/commands/coverage.rs:179 | a line trims to the empty string exactly when it is all white space |
| Text.CountIf | src/commands/gas.rs:208-212 | a filtered count is at most the window size, and positive exactly when some line matches |
| Text.FilterSpec | src/commands/coverage.rs:179 | the kept lines all satisfy the filter, every matching line is kept, and their number is the count of matches |
| Text.CountIfTwo | src/commands/gas.rs:247-253 | a count exceeds 1 exactly when two distinct lines match |
| Text.CountIfTwoWindow | src/commands/gas.rs:247-253 | over `skip(a).take(n)`, more than one match means two matching line indices in `[a, min(a+n, len))` |
| Text.Window | src/commands/scan.rs:102-106 | `iter().skip(a).take(n)` over the lines; `AnyLineWindow` and `CountIfTwoWindow` read it as the index range `[a, min(a+n, len))` |
| Text.AnyLineWindow | src/commands/scan.rs:102-106 | `skip(a).take(n).any(p)` holds exactly when some line index in `[a, min(a+n, len))` satisfies `p` |
| Text.FirstSomeSpec | src/commands/gas.rs:332 | a left-to-right search returns the leftmost present match, or proves there is none |
| Text.NatToStringRoundTrip | src/commands/scan.rs:113 | the decimal rendering of a line number parses back to it |
| Text.Location | src/commands/scan.rs:113 | the location of line index `i` carries the file name and the line number `i + 1` |
| Text.SourceLocation.Render | src/commands/scan.rs:113 | `format!("{}:{}", file_name, i + 1)`; `RenderRoundTrip` splits the text back into the file and the number |
| Text.RenderRoundTrip | src/commands/scan.rs:113 | a location `"{file}:{n}"` starts with the file and a colon, and the rest parses back to `n` |
| Patterns.FirstLetFromSpec | src/commands/scan.rs:202-205 | the search finds the leftmost `let\s+\w` from a position, or proves there is none |
| Patterns.ExtractVariableName | src/commands/scan.rs:201-206 | a captured variable name is a non-empty run of word characters |
| Patterns.LetAtIff | src/commands/scan.rs:202 | a `let` at a position begins a match exactly when some group span completes it, and the greedy span does |
| Patterns.ExtractVariableNameSpec | src/commands/scan.rs:201-206 | `None` exactly when `let\s+(\w+)` matches nowhere; otherwise the group of the leftmost match |
| Patterns.SigAt | src/commands/gas.rs:294 | a signature match at a line start captures a maximal word after the position; `SigAtIff` states that it is exactly the regex's match |
| Patterns.SigNamesFrom | src/commands/gas.rs:294-304 | every captured function name is a word; `SigNamesFromSpec` states which names, in which order |
| Patterns.SigAtIff | src/commands/gas.rs:294 | `SigAt` reports group 1 at `q..e` exactly when `(?m)^\s*(?:public\s+)?fun\s+(\w+)` matches at `p` with that greedy capture: a line start, indentation, optional `public` and white space, `fun`, white space, and a word that cannot be extended (`SigMatch`) |
| Patterns.SigNamesFromSpec | src/commands/gas.rs:294-304 | `captures_iter` from `p`: no names exactly when no match starts at or after `p`; otherwise group 1 of the leftmost match, followed by the names found from the end of that match |
| Patterns.SigAtShape | src/commands/gas.rs:294 | a signature match starts at a line start, with `fun` or `public` after the indentation |
| Patterns.EntryFunctionsNotMatched | src/commands/gas.rs:294 | a line whose first word is `entry`, or `public` followed by `entry`, yields no signature |
| Patterns.HeaderAt | src/commands/gas.rs:329 | a header match ends just after a `{`; `HeaderAtIff` states that it is exactly the regex's match |
| Patterns.HeaderAtIff | src/commands/gas.rs:329 | `HeaderAt` reports the end `d + 1` exactly when `fun\s+NAME\s*\([^)]*\)[^{]*\{` matches at `p` with its `{` at `d`: `fun`, white space, the name, white space, `(`, no `)` up to the first `)`, no `{` up to the first `{` (`HeaderShape`) |
| Patterns.FindHeader | src/commands/gas.rs:332-334 | a match end lies within the content |
| Patterns.FindHeaderSpec | src/commands/gas.rs:329-332 | the result is the end of the leftmost header match, or there is no match at all |
| Patterns.FindHeaderFrom | src/commands/gas.rs:329-332 | a search from position `i` finds nothing exactly when the header pattern starts nowhere at or after `i`; otherwise the end of the leftmost occurrence |
| Patterns.FindHeaderShape | src/commands/gas.rs:329-334 | `Regex::find` returns nothing exactly when the header pattern occurs nowhere in the content; otherwise the end of its leftmost occurrence, where the counted region starts |
| Patterns.CalcMatchIff | src/commands/gas.rs:245-246 | the hand-written calculation matcher holds exactly when `\w+\s*[*/]\s*\w+` occurs in the line |
| Ranking.Insert | src/commands/gas.rs:279 | inserting into a sorted list keeps it sorted and adds one element |
| Ranking.SortDesc | src/commands/gas.rs:279 | the sort yields a list of the same length, non-increasing in the key |
| Ranking.InsertPermutation | src/commands/gas.rs:279 | insertion adds the element and loses nothing |
| Ranking.SortDescPermutation | src/commands/gas.rs:279 | the sort is a permutation of its input |
| Ranking.SortDescStable | src/commands/gas.rs:279 | for each key, the elements carrying it keep their input order (a stable sort) |
| Ranking.TopByKeySpec | src/commands/gas.rs:279-280 | sort then `truncate(n)` keeps `min(n, len)` sorted elements of the input, none ranked below a dropped one |
| Ranking.TopByKeyStable | src/commands/gas.rs:279-280 | the kept elements of each key are a prefix of that key's elements in input order |
| Ranking.TopByKey | src/commands/gas.rs:279-280 | `sort_by` on descending key then `truncate(n)`; `TopByKeySpec` and `TopByKeyStable` state what it keeps |
| Ranking.TakeSorted | src/commands/gas.rs:280 | a prefix of a sorted list is sorted, drawn from it, and ranks above the rest |
| Ranking.ArgMaxLast | src/commands/gas.rs:94 | `max_by_key` returns a largest element, and the last of them |
| Ranking.ArgMinFirst | src/commands/gas.rs:95 | `min_by_key` returns a smallest element, and the first of them |
| Ranking.SortDescLastIsMin | src/commands/gas.rs:133 | the last element of the descending sort has the smallest key |
| Scan.AsStr | src/commands/scan.rs:28-36 | each severity name is a non-empty upper-case word |
| Scan.AsStrInjective | src/commands/scan.rs:28-36 | distinct severities have distinct names |
| Scan.RuleOf | src/commands/scan.rs:110-187 | each severity is produced by exactly one rule |
| Scan.RuleOfSeverityOf | src/commands/scan.rs:110-187 | the rule-to-severity assignment is a bijection |
| Scan.RuleFinding | src/commands/scan.rs:108-116 | a rule contributes one finding, at the line's location and with its severity, exactly when it fires |
| Scan.VerdictFindingsUnfold | src/commands/scan.rs:99-196 | a line's findings are the five rules' findings in loop order |
| Scan.LineRuleFindings | src/commands/scan.rs:99-196 | each rule's finding is present exactly when that rule's condition holds on the line |
| Scan.CheckUncheckedTransfer | src/commands/scan.rs:100-117 | appends the High finding exactly when the unchecked-transfer condition holds |
| Scan.CheckAccessControl | src/commands/scan.rs:120-137 | appends the Medium finding exactly when the access-control condition holds |
| Scan.CheckReentrancy | src/commands/scan.rs:140-157 | appends the Critical finding exactly when the reentrancy condition holds |
| Scan.CheckUnusedVariable | src/commands/scan.rs:160-180 | appends the Low finding, naming the captured variable, exactly when the unused-variable condition holds |
| Scan.CheckDocumentation | src/commands/scan.rs:182-194 | appends the Info finding exactly when the documentation condition holds |
| Scan.CheckLine | src/commands/scan.rs:99-196 | the loop body appends the line's findings to the caller's list |
| Scan.ScanFileForIssues | src/commands/scan.rs:90-199 | the caller's list gains the file's findings, line by line, after what it held |
| Scan.ScanSources | src/commands/scan.rs:67-88 | the result is the concatenation of every file's findings in walk order, empty without a source directory |
| Scan.CountSeverity | src/commands/scan.rs:221-229 | a severity's count is at most the number of issues |
| Scan.CountSeverityAppend | src/commands/scan.rs:221-229 | counting distributes over concatenation |
| Scan.CountSeverityPositive | src/commands/scan.rs:221-229 | a count is positive exactly when some issue has that severity |
| Scan.CountBySeverity | src/commands/scan.rs:215-229 | the five counters hold the per-severity counts and sum to the number of issues |
| Scan.ReviewRequired | src/commands/scan.rs:263-267 | the warning is printed exactly when some issue is Critical or High |
| Scan.CountRuleFinding | src/commands/scan.rs:99-196 | a rule's finding counts once for its own severity when it fires, and never for another |
| Scan.VerdictSeverityCount | src/commands/scan.rs:99-196 | a line yields one finding of a severity exactly when that severity's rule fires |
| Scan.LineSeverityCount | src/commands/scan.rs:99-196 | per line: High iff unchecked transfer, Medium iff missing access control, Critical iff reentrancy, Low iff unused variable, Info iff missing doc |
| Scan.RulesFindingsOrder | src/commands/scan.rs:99-196 | findings of rules listed in rank order come out in that order, at most one per rule |
| Scan.VerdictFindingsOrder | src/commands/scan.rs:99-196 | a line yields at most five findings, all at its location, in rule order without repeats |
| Scan.UncheckedTransfer | src/commands/scan.rs:100-108 | the unchecked-transfer condition; `UncheckedTransferWindow` states it over line indices |
| Scan.MissingAccessControl | src/commands/scan.rs:120-128 | the access-control condition, level included; `MissingAccessControlWindow` states it over line indices |
| Scan.ReentrancyRisk | src/commands/scan.rs:140-148 | the reentrancy condition; `ReentrancyWindow` states it over line indices |
| Scan.UnusedVariable | src/commands/scan.rs:160-170 | the unused-variable condition with the captured name; `UnusedVariableWindow` states it over line indices |
| Scan.MissingDoc | src/commands/scan.rs:160-185 | strict mode, a `public fun` line, and no previous line whose trimmed text starts with `///`; `FirstLineUndocumented` and `StrictOnlyLowAndInfo` state its edge cases |
| Scan.LineVerdict | src/commands/scan.rs:99-196 | the five conditions on one line; `LineRuleFindings` and `LineSeverityCount` tie each to its finding |
| Scan.FileFindings | src/commands/scan.rs:90-199 | the findings of every line of a file, in line order; `ScanFileForIssues` appends exactly these |
| Scan.FilesFindings | src/commands/scan.rs:75-85 | the files' findings concatenated in walk order; `NoSeverityInFiles` and `ReentrancyIgnoresLevel` are stated over it |
| Scan.SourcesFindings | src/commands/scan.rs:67-88 | no findings without a source directory, otherwise those of the files; `ScanSources` returns exactly this and `NoSourcesNoFindings` states the empty cases |
| Scan.UncheckedTransferWindow | src/commands/scan.rs:100-108 | fires exactly for a `transfer::` line without `assert!` when no line of `[max(0,i-5), max(0,i-5)+5)` holds an ownership assertion |
| Scan.TransferCheckSeenAhead | src/commands/scan.rs:102-106 | for a line before the fifth, an ownership assertion on a later line within the first five suppresses the finding |
| Scan.MissingAccessControlWindow | src/commands/scan.rs:120-128 | fires exactly above level `basic`, for a `public fun` line without `entry`, when no line of `[i, i+10)` has a guard |
| Scan.GuardedDeclarationNotFlagged | src/commands/scan.rs:120-126 | a declaration line that itself holds a guard is never flagged, since the window includes it |
| Scan.ReentrancyWindow | src/commands/scan.rs:140-148 | fires exactly for a `transfer::` or `coin::` line when no line of `[max(0,i-3), max(0,i-3)+3)` assigns |
| Scan.UnusedVariableWindow | src/commands/scan.rs:160-170 | fires exactly in strict mode for a `let ` line without `mut` or `_` whose captured name appears in none of the next 20 lines |
| Scan.FirstLineUndocumented | src/commands/scan.rs:183-186 | in strict mode a `public fun` on the first line always gets the Info finding |
| Scan.ReentrancyExactlyOnce | src/commands/scan.rs:140-157 | a `transfer::` line with no assignment in its window gets exactly one Critical finding |
| Scan.FindingsPrefix | src/commands/scan.rs:99-196 | the findings of the first lines are a prefix of those of more lines |
| Scan.NoSeverityInFile | src/commands/scan.rs:99-196 | if a severity's rule fires on no line of a file, the file has no finding of that severity |
| Scan.NoSeverityInFiles | src/commands/scan.rs:75-85 | if a severity's rule fires on no line of any file, the corpus has no finding of that severity |
| Scan.BasicLevelNoAccessControl | src/commands/scan.rs:128 | at level `basic` no Medium finding is produced |
| Scan.StrictOnlyLowAndInfo | src/commands/scan.rs:160-195 | below level `strict` no Low or Info finding is produced |
| Scan.ReentrancyIgnoresLevelInFile | src/commands/scan.rs:139-157 | a file's Critical count does not depend on the level |
| Scan.ReentrancyIgnoresLevel | src/commands/scan.rs:139-157 | the corpus's Critical count does not depend on the level |
| Scan.NoSourcesNoFindings | src/commands/scan.rs:71-73 | no source directory, or no files, gives no findings |
| Gas.EstimateGasUsage | src/commands/gas.rs:327-359 | every estimate carries at least the base cost of 200 |
| Gas.EstimateSpec | src/commands/gas.rs:332-358 | with no header match the estimate is (200, 0, 200); with one, storage and computation are the weighted marker counts after the header and total adds 200; total equals storage plus computation exactly when nothing matched |
| Gas.EarlierHeaderCostsMore | src/commands/gas.rs:332-346 | a function whose header ends no later than another's has every cost at least as large |
| Gas.ProfileOf | src/commands/gas.rs:305-314 | the profile of a captured name is its estimate's total, storage and computation; `EstimateSpec` states their values |
| Gas.FileProfiles | src/commands/gas.rs:303-315 | one profile per captured name, in order, each the estimate for that name |
| Gas.ProfileFile | src/commands/gas.rs:303-315 | the capture loop appends the file's profiles to what came before |
| Gas.ParseMoveFunctions | src/commands/gas.rs:286-319 | the profiles of all files in walk order, none without a source directory |
| Gas.CorpusProfileOrigin | src/commands/gas.rs:296-315 | every profile costs at least 200 and is the estimate of a name captured in some file |
| Gas.LineSuggestionsUnfold | src/commands/gas.rs:205-274 | a line's suggestions are the four checks' suggestions in loop order |
| Gas.CheckStorage | src/commands/gas.rs:207-223 | appends the storage suggestion exactly when the storage rule fires |
| Gas.CheckVectorLoop | src/commands/gas.rs:225-241 | appends the vector-in-loop suggestion exactly when that rule fires |
| Gas.CheckCache | src/commands/gas.rs:243-263 | appends the cache suggestion exactly when that rule fires |
| Gas.CheckLookup | src/commands/gas.rs:265-274 | appends the lookup suggestion exactly when that rule fires |
| Gas.SuggestLine | src/commands/gas.rs:205-275 | the loop body appends the line's suggestions |
| Gas.SuggestFile | src/commands/gas.rs:203-275 | the line loop appends the suggestions of every line in order |
| Gas.AnalyzeForOptimizations | src/commands/gas.rs:188-283 | the result is the top five, by stable descending savings, of all suggestions in discovery order |
| Gas.AllScheduledMembers | src/commands/gas.rs:205-274 | a list is all-scheduled exactly when each member carries its rule's savings |
| Gas.AllScheduledAppend | src/commands/gas.rs:205-274 | the savings schedule is kept under concatenation |
| Gas.CheckScheduled | src/commands/gas.rs:205-274 | every check emits its own savings: storage at least 400 in steps of 200, then 150, 100 or 180 |
| Gas.ChecksScheduled | src/commands/gas.rs:205-274 | any sequence of checks on a line emits scheduled savings |
| Gas.UpToScheduled | src/commands/gas.rs:205-275 | the suggestions of a file's first lines all carry scheduled savings |
| Gas.FilesScheduled | src/commands/gas.rs:196-276 | every suggestion of the corpus carries its rule's savings |
| Gas.OptimizationsSpec | src/commands/gas.rs:278-282 | the result has `min(5, n)` elements, sorted by savings, drawn from all suggestions with their scheduled savings, none below a dropped one, and ties in discovery order |
| Gas.VectorLoopWindow | src/commands/gas.rs:226-232 | fires exactly for a `while`/`loop` line when some line of `[i, i+15)` pushes to or borrows from a vector |
| Gas.CacheWindow | src/commands/gas.rs:244-253 | fires exactly for an assignment with a calculation when two of the next ten lines hold a calculation |
| Gas.StorageCountsOwnLine | src/commands/gas.rs:207-212 | the allocation count always includes the trigger line |
| Gas.VectorBorrowParts | src/commands/gas.rs:266 | a `vector::borrow` line meets the lookup condition |
| Gas.LoopBorrowReportedTwice | src/commands/gas.rs:226-274 | a `while` line with `vector::borrow` gets both the vector-in-loop and the lookup suggestion |
| Gas.StorageRule | src/commands/gas.rs:207-213 | an `object::new` line with more than two allocations in its window; `StorageCountsOwnLine` and `CheckScheduled` state its window and savings |
| Gas.VectorLoopRule | src/commands/gas.rs:226-232 | the vector-in-loop condition; `VectorLoopWindow` states it over line indices |
| Gas.CacheRule | src/commands/gas.rs:244-253 | the repeated-calculation condition; `CacheWindow` states it over line indices |
| Gas.LookupRule | src/commands/gas.rs:266 | a `vector::` line with `borrow` or `contains`; `VectorBorrowParts` and `LoopBorrowReportedTwice` use it |
| Gas.AllSuggestions | src/commands/gas.rs:188-276 | every suggestion of every file in discovery order, none without a source directory; `FilesScheduled` states their savings |
| Gas.Optimizations | src/commands/gas.rs:278-282 | the top five of all suggestions by stable descending savings; `OptimizationsSpec` states what is kept |
| Gas.HotSpotOf | src/commands/gas.rs:120-124 | a hot spot is blamed on storage exactly when storage exceeds computation |
| Gas.CollectHotSpots | src/commands/gas.rs:117-128 | the loop yields the first three sorted profiles' hot spots, and nothing when there are fewer than three |
| Gas.CollectEfficient | src/commands/gas.rs:131-137 | the loop yields the last two sorted profiles, last first, and nothing when there are fewer than two |
| Gas.AnalyzeGas | src/commands/gas.rs:80-137 | no report exactly for an empty profile list, otherwise the report of the statistics |
| Gas.TotalGasBounds | src/commands/gas.rs:87 | a sum of values within `[lo, hi]` lies within `[n*lo, n*hi]` |
| Gas.FloorMeanBounds | src/commands/gas.rs:88-92 | integer division keeps the mean within the values' range |
| Gas.AverageSpec | src/commands/gas.rs:85-95 | the mean lies between the lowest and highest usage, which are members of the input and bound every profile |
| Gas.SortedFromInput | src/commands/gas.rs:114-115 | every element of the sorted copy is a profile of the input |
| Gas.HotSpotsSpec | src/commands/gas.rs:113-128 | three hot spots exactly when there are three profiles, each the sorted list's entry and at least every later one |
| Gas.EfficientSpec | src/commands/gas.rs:130-137 | two efficient functions exactly when there are two profiles, the first of minimum usage and the second at most every earlier one |
| Gas.TotalGas | src/commands/gas.rs:87 | the sum of the gas used; `TotalGasBounds` bounds it |
| Gas.Mean | src/commands/gas.rs:88-92 | `total / n` on unsigned integers; `FloorMeanBounds` and `AverageSpec` bound it |
| Gas.HotSpots | src/commands/gas.rs:117-128 | the first three sorted profiles with their reasons, none with fewer than three; `HotSpotsSpec` states it |
| Gas.Efficient | src/commands/gas.rs:131-137 | the last two sorted profiles, last first, none with fewer than two; `EfficientSpec` states it |
| Gas.ReportOf | src/commands/gas.rs:85-137 | the statistics of a non-empty profile list; `AnalyzeGas` returns it and `AverageSpec`, `HotSpotsSpec` and `EfficientSpec` state its parts |
| Coverage.Percentage | src/commands/coverage.rs:101-115 | 0 for an empty total, otherwise `covered*100/total` exactly, within [0, 100], and 100 exactly when all is covered |
| Coverage.ModuleCoverage.LinePercentage | src/commands/coverage.rs:127-133 | 0 for no lines, within [0, 100] when covered does not exceed total |
| Coverage.ModuleCoverage.FunctionPercentage | src/commands/coverage.rs:135-141 | 0 for no functions, within [0, 100] when covered does not exceed total |
| Coverage.CoverageData.LinePercentage | src/commands/coverage.rs:101-107 | 0 for no lines, within [0, 100] when covered does not exceed total |
| Coverage.CoverageData.FunctionPercentage | src/commands/coverage.rs:109-115 | 0 for no functions, within [0, 100] when covered does not exceed total |
| Coverage.FileNameSpec | src/commands/coverage.rs:382 | the file name is the longest suffix of the path without a `/` |
| Coverage.FileStemSpec | src/commands/coverage.rs:368-371 | the stem is the whole name, or the non-empty part before the last `.` |
| Coverage.FileName | src/commands/coverage.rs:382 | the text after the last `/`; `FileNameSpec` states it |
| Coverage.FileStem | src/commands/coverage.rs:368-371 | the name cut at its last `.` unless that is the first character; `FileStemSpec` states it |
| Coverage.ModuleName | src/commands/coverage.rs:368-371 | the stem of the file name of the source path |
| Coverage.FirstTestFrom | src/commands/coverage.rs:377-387 | the chosen index passes the walker's test and no earlier file does; none means no file does |
| Coverage.FirstTestAt | src/commands/coverage.rs:377-387 | a file that passes the walker's test, preceded by none that does, is the one chosen |
| Coverage.EmptyModuleNameTakesFirstTest | src/commands/coverage.rs:368-386 | with the empty stem every test file qualifies, so the first one is taken |
| Coverage.FirstTestNone | src/commands/coverage.rs:389-394 | without a file named for the module none is chosen |
| Coverage.CountTested | src/commands/coverage.rs:407-412 | the tested count is at most the number of names |
| Coverage.CountTestedEnds | src/commands/coverage.rs:407-412 | all names are counted exactly when each is mentioned, none exactly when none is |
| Coverage.FunctionRatio | src/commands/coverage.rs:415-419 | the function ratio lies in [0, 1] |
| Coverage.FunctionRatioEnds | src/commands/coverage.rs:415-419 | the ratio is 1 exactly when there are names and all are mentioned, 0 exactly when there are none or none is mentioned |
| Coverage.ShareBounds | src/commands/coverage.rs:418 | a share of a positive whole lies in [0, 1], reaching the ends exactly at none and all |
| Coverage.TestFactor | src/commands/coverage.rs:426 | the test factor lies in [0, 1] and reaches 1 from five tests on |
| Coverage.LineRatio | src/commands/coverage.rs:422-428 | no tests give 0; a function ratio in [0, 1] gives a line ratio in [0, 1] |
| Coverage.FindTestFile | src/commands/coverage.rs:374-387 | the search finds a file exactly when one is named for the module, and reads the first such |
| Coverage.CountTestedFunctions | src/commands/coverage.rs:407-412 | the counter ends at the number of mentioned names |
| Coverage.ComputeRatios | src/commands/coverage.rs:397-433 | the ratios of the source against the chosen test text |
| Coverage.CalculateTestCoverage | src/commands/coverage.rs:356-434 | no test directory or no matching file gives (0, 0); otherwise the ratios against the first matching file |
| Coverage.TestCoverageOf | src/commands/coverage.rs:356-434 | the ratios of `calculate_test_coverage`; `TestCoverageBounds` and `NoTestFileNoCoverage` state them and `CalculateTestCoverage` computes them |
| Coverage.RatiosFor | src/commands/coverage.rs:397-433 | the function ratio over the source's captured names and the line ratio from the `#[test]` count; `ComputeRatios` computes them |
| Coverage.TestCoverageBounds | src/commands/coverage.rs:356-434 | both ratios always lie in [0, 1] |
| Coverage.NoTestFileNoCoverage | src/commands/coverage.rs:360-394 | without a test directory, or a test file named for the module, both ratios are 0 |
| Coverage.LineRatioUncapped | src/commands/coverage.rs:422-428 | the cap at 1 never binds: the line ratio is `0.7*fr + 0.3*factor`, and `0.7*fr + 0.3` from five tests on |
| Coverage.LineRatioAboveFunctionRatio | src/commands/coverage.rs:425-427 | with five tests or more, a function ratio below 1 gives a strictly larger line ratio |
| Coverage.LineRatioMonotone | src/commands/coverage.rs:422-428 | more tests or a larger function ratio never lower the line ratio |
| Coverage.Scale | src/commands/coverage.rs:184-185 | a ratio in [0, 1] never scales a count above itself |
| Coverage.ScaleFloor | src/commands/coverage.rs:184-185 | for a non-negative ratio the scaled count is the whole part of `n*ratio` |
| Coverage.ScaleAtMost | src/commands/coverage.rs:184-185 | a ratio in [0, 1] does not enlarge the count |
| Coverage.MapFilesElements | src/commands/coverage.rs:170-199 | the module list has one entry per file, each that file's measurement |
| Coverage.MapFilesSnoc | src/commands/coverage.rs:192-198 | measuring one more file appends its entry |
| Coverage.Summary | src/commands/coverage.rs:201-208 | the report carries the module list and no uncovered lines |
| Coverage.SummarySnoc | src/commands/coverage.rs:186-190 | appending a module adds its four counts to the totals |
| Coverage.MeasureModule | src/commands/coverage.rs:175-198 | one file's entry: code lines, `fun ` count, and their scaled covered values |
| Coverage.IsCodeLine | src/commands/coverage.rs:179 | a line that is not blank after trimming and whose trimmed text does not start with `/`; `TrimEmptyIff` and `FilterSpec` state the filter |
| Coverage.ModuleOf | src/commands/coverage.rs:175-198 | one source file's entry; `MeasureModule` computes it and `ModuleBounded` bounds it |
| Coverage.AnalyzeCoverage | src/commands/coverage.rs:149-209 | the loop's totals and module list are those of the analysis |
| Coverage.AnalysisOf | src/commands/coverage.rs:149-209 | the coverage report; `AnalysisSpec` states it and `AnalyzeCoverage` computes it |
| Coverage.ModuleBounded | src/commands/coverage.rs:179-185 | each module's covered counts are at most its totals |
| Coverage.SummaryBounded | src/commands/coverage.rs:186-190 | summing keeps covered within total |
| Coverage.AnalysisSpec | src/commands/coverage.rs:149-209 | no uncovered lines; all zeros without a source directory; otherwise one entry per source in walk order; every module and the totals bounded, with percentages in [0, 100] |
| Coverage.ModulesOfElements | src/commands/coverage.rs:170-199 | entry `k` of the module list is the measurement of source `k` |
| Coverage.ModuleWithoutTests | src/commands/coverage.rs:360-365 | without a test directory a module has nothing covered |
| Coverage.MapFilesNothingCovered | src/commands/coverage.rs:186-190 | totals of modules that cover nothing cover nothing |
| Coverage.NoTestsNothingCovered | src/commands/coverage.rs:149-209 | without a test directory the totals cover nothing, whatever the sources |

## Left out

- File-system walking and reading. `walkdir` and `fs::read_to_string` become a directory-exists flag plus the `.move` files as `(path, content)` pairs in walk order. Unreadable entries, read errors and the `?` error propagation are not modelled.
- Rendering and async plumbing are not modelled: `execute`, `print_text_report` beyond its counters and verdict, `print_json_report`, spinners and colours. The HTML and JSON coverage reports are left out too; they print fixed numbers unrelated to the analysis.
- `profile_gas` and the printing done by `suggest_optimizations` are not modelled. They display results; they compute nothing new.
- The regex engine is not modelled. Its four fixed patterns are hand-written predicates with `\w` read as ASCII word characters. Non-ASCII letters, which the Unicode `\w` of the regex crate would match, are not captured.
- `str::lines` splits on `\n` only. A trailing `\r` is not removed.
- `Path::file_stem` is modelled as: cut at the last `.`, unless that `.` is the first character. The special cases are not modelled: a name of exactly `..`, and a path that ends in `/`.
- Coverage.Scale: the ratios are exact reals, not `f64`. A product whose IEEE value rounds across an integer boundary may floor differently.
- Coverage.Percentage: the percentages are exact reals, not `f64`. The last-bit rounding of `covered * 100 / total` is not modelled.
- Coverage.ModuleCoverage.LinePercentage: exact real, as for Coverage.Percentage.
- Coverage.ModuleCoverage.FunctionPercentage: exact real, as for Coverage.Percentage.
- Coverage.CoverageData.LinePercentage: exact real, as for Coverage.Percentage.
- Coverage.CoverageData.FunctionPercentage: exact real, as for Coverage.Percentage.
- Gas.EstimateGasUsage: `u64` overflow of the cost sums is not modelled, since integers are unbounded. The same holds for the `usize` totals of `analyze_coverage`.
- Ranking.SortDesc: the in-place `sort_by` on a `Vec` is modelled on values, as a stable insertion sort. Its result is proved sorted, a permutation and stable. No aliasing is involved, because the vector is a local clone.
- The `&mut Vec<SecurityIssue>` of `scan_file_for_issues` is modelled as an input list and a returned extended list. Rust's exclusive borrow rules out aliasing.
