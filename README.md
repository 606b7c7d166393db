# Plugin merge engine and diagnostic gate, modelled in Dafny

This project models the core of the build tool for Rust (Oxide/uMod) server plugins in `Program.cs`.
A plugin lives in its own directory of C# source files. Every file holds `partial` parts of one plugin class.
The tool merges these parts into a single `.cs` file per plugin. Before it does, the tool checks the parts and counts errors per plugin.
A plugin that has errors is not merged.

The model covers these parts of the tool:

- **Primary-class resolution** (`Resolver`). Three tiers choose the plugin's primary classes:
  1. a base type whose text contains `RustPlugin` or `CovalencePlugin`;
  2. failing that, an attribute whose name contains `Info`;
  3. failing both, a `public` class whose name ends in `Plugin`, ignoring case.

  The identifiers of the primary classes, the *candidate names*, decide which classes are checked.
- **Structural validation** (`Validator`).
  - First, every checked class must be `partial`.
  - Then every file with top-level types must hold a valid part of the plugin class and nothing else. A valid part has a candidate name, is `partial`, and sits in a primary namespace. A file that breaks this rule becomes a `PluginFileViolation`. The violation lists the extra types and a primary span: the first extra type with a location, else the first valid part's identifier, else the start of the file.
  - Each rule adds its number of offenders to the plugin's error count and stops the merge.
- **The merge** (`Merge`).
  - Using directives are deduplicated by name.
  - Every `partial` class is grouped by (name, namespace), then by namespace.
  - Each group becomes one class (`BuildMergedClassSyntax`):
    - the header comes from the base part: the first part with a base list, else the first part;
    - the modifiers are the base part's minus `partial`, or `public` when none remain;
    - attribute lists are ordered by offset, and a text seen before is dropped;
    - members are stably sorted by offset, with a member that has no location sorting last.
  - Named namespaces become namespace declarations. Classes with no namespace go at the top level.
- **Diagnostic filtering, tally and priority buckets** (`Diagnostics`).
  - The analysis keeps warnings and errors in source under the plugin tree.
  - Each error is charged to the path segment after `/plugins/`.
  - The priority levels are tried in ascending `Level`. Only the first level that groups a diagnostic is shown, most severe first. When no level groups one, the diagnostics outside every level's rules are shown. At most 15 are rendered.
- **The merge gate** (`Gate`). `MergeAllPlugins` visits every plugin directory.
  - It skips a plugin whose count is already positive.
  - Otherwise it merges the plugin. If the merge raised the count, the plugin is reported as skipped with the new errors; otherwise it counts as merged.
  - The per-plugin error count, `_pluginErrorCount`, is the `Gate.Ledger` class. The analysis's tally and the merges update it in place.
- **Helpers**:
  - the source excerpt printed under a problem (`Snippet`);
  - `CreateFileBatches` (`Formatting`);
  - the measurement loop and threshold cascade of `IsProblematicPlugin` (`Formatting`).

Files: `text.dfy` (options and .NET string operations), `seqs.dfy` (sequence library: filter, stable sort, distinct-by, group-by), `syntax.dfy`, `counts.dfy`, `resolver.dfy`, `validator.dfy`, `merge.dfy`, `diagnostics.dfy`, `gate.dfy`, `snippet.dfy`, `formatting.dfy`.

### Where the model follows the code rather than the documentation

- **Empty candidate set.** An empty candidate set is not a violation of its own. When no class qualifies for any tier, nothing is checked for `partial`. Every file with top-level types then lacks a valid part and is reported as a violation.
- **Using directives without a name.** `UsingComparer` treats two such directives as equal. The first one is kept, not discarded.
- **Which classes the merge groups.** Grouping takes every `partial` class in the plugin. That includes nested classes and classes outside the candidate set. Offsets are file-local, so members from different files interleave by their own offsets.
- **Two different plugin names.** The tally charges an error to the first path segment below `plugins`. The gate and the merge use the whole relative path, with separators replaced by `_`. For a nested plugin directory the two names differ. `Gate.TallyKeyVersusGateKey` and `Gate.NestedFailureCountedMerged` state the consequences.

## Model

| member | source | states |
|---|---|---|
| Text.Contains | Program.cs:718 | ordinal `Contains(p)` holds exactly when `p` occurs at some index of `s` |
| Text.IndexOfIgnoreCase | Program.cs:568-569 | ignore-case `IndexOf`: -1 exactly when the marker occurs nowhere, otherwise an index where it occurs with no earlier occurrence |
| Text.BeforeFirst | Program.cs:571 | `Split(c)[0]`: a prefix of `s` free of the separator, ending at the first separator or at the end of `s` |
| Text.JoinFirstSegment | Program.cs:570-571 | the first `Split` segment of a separator-joined path is its first component when that component holds no separator |
| Counts.Added | Program.cs:572-573 | the insert-or-increment of a count raises exactly that key by `n`, leaves every other count alone and adds the key |
| Resolver.PrimaryClasses | Program.cs:713-738 | every primary class is one of the plugin's classes |
| Resolver.CandidateNames | Program.cs:740 | a name is a candidate exactly when some primary class has that identifier |
| Resolver.ResolutionTiers | Program.cs:713-738 | tier 1 decides when any class has a marker base; tier 2 when none has one but some has an `Info` attribute; tier 3 otherwise; a class is primary exactly when it qualifies for the deciding tier |
| Resolver.ClassesToCheckAreNamed | Program.cs:740-748 | the checked classes are the classes that have a candidate identifier, in order |
| Resolver.NamedCoversPrimary | Program.cs:741-748 | the classes with a candidate name are empty only when there are no primary classes, so the `classesToCheck = primary` fallback changes nothing |
| Validator.FirstExtraSpan | Program.cs:812 | the span of the first extra type that has one, and none exactly when no extra type has a span |
| Validator.ExtraInfos | Program.cs:809-812 | one `ExtraTypeInfo` per extra type, in order |
| Validator.PartitionTopLevel | Program.cs:796-806 | every top-level type is in exactly one of the valid parts and the extra types, and the two sizes add up to the number of top-level types |
| Validator.FileViolationSpec | Program.cs:786-824 | a file violates exactly when it has top-level types and either none or not all of them are valid parts; a file with none never violates; `MissingPartial` holds exactly when there is no valid part; the extra types are listed with their keyword, qualified name and identifier span; the primary span is the one chosen from those entries and the valid parts |
| Validator.PrimarySpanChoice | Program.cs:814-816 | the primary span is the first extra type's span when any extra has one, else the first valid part's identifier span, else `(path, 0:0-0:0)` for a non-empty path |
| Validator.Violations | Program.cs:783-825 | at most one violation per file |
| Validator.CollectViolations | Program.cs:783-825 | the per-tree loop appends exactly the violations of the files, in file order |
| Validator.ViolationsCount | Program.cs:827-858 | the violation count equals the number of violating files, and there are none exactly when no file violates |
| Validator.Validate | Program.cs:757-858 | validation adds no errors exactly when the plugin is valid |
| Validator.NonPartialStopsValidation | Program.cs:757-779 | any checked class without `partial` rejects the plugin before the per-file check; the charge is the number of such classes, which are exactly the checked classes lacking `partial` |
| Validator.ErrorsAddedIffRejected | Program.cs:757-858 | validation adds errors exactly when it rejects the plugin; on file violations it adds the number of violating files |
| Merge.FirstWithBaseList | Program.cs:1006 | the first part with a base list, and none exactly when no part has one |
| Merge.BasePartChoice | Program.cs:1006 | the base part is the first part with a base list, else the first part |
| Merge.MergedHeader | Program.cs:1038-1058 | identifier, type parameters, base list and constraints come only from the base part; the modifiers are the base part's, rewritten |
| Merge.MergedModifiersSpec | Program.cs:1021-1028 | the merged modifiers never contain `partial`, keep every other modifier of the base part in order, and are `public` alone when nothing else remains |
| Merge.MergedMembersOrdered | Program.cs:1031-1036 | the merged members are a permutation of all parts' members, in non-decreasing offset, with ties kept in part order |
| Merge.DedupAttributes | Program.cs:1009-1018 | the `seenAttributes` loop keeps each attribute text's first occurrence, in order |
| Merge.BuildMergedClass | Program.cs:1002-1061 | the imperative construction of one merged class yields the merged class of its parts |
| Merge.MergedAttributesDeduplicated | Program.cs:1009-1018 | the merged attribute lists are in offset order, no two share a text, every text of every part appears, and each kept list is the first occurrence of its text |
| Merge.MergedUsingsDeduplicated | Program.cs:864-868 | the merged usings have distinct names, cover every name used, keep each name's first occurrence, and follow first-occurrence order |
| Merge.MergeGroups | Program.cs:885-888 | one merged class per group |
| Merge.MergeGroupsEach | Program.cs:885-888 | the k-th merged class is the merge of the k-th group's parts |
| Merge.PartialClassesAre | Program.cs:871-875 | the grouped classes are exactly the plugin's classes that are `partial`, nested ones included |
| Merge.ClassGroupsPartition | Program.cs:871-876 | class groups have distinct (name, namespace) keys, every partial class has its group, and each group holds exactly the partial classes with its key |
| Merge.ClassGroupsNonEmpty | Program.cs:871-876 | no class group is empty |
| Merge.AssembleNamespaces | Program.cs:878-899 | every namespace declaration in the merged unit has a non-empty name and holds exactly that namespace group's merged classes |
| Merge.AssembleTopLevel | Program.cs:878-899 | every top-level class in the merged unit is the merged class of a group in the unnamed namespace |
| Merge.OutputIffValid | Program.cs:757-906 | the merged file is written exactly when validation adds no errors, and then it holds the merged unit |
| Diagnostics.PluginsMarker | Program.cs:556-568 | the marker is nine characters and starts and ends with the separator |
| Diagnostics.ReportedSpec | Program.cs:549-561 | a diagnostic is reported exactly when it is a warning or error in source whose path contains `/plugins/<name>/` for a named plugin, or `/plugins/` or `\plugins\` otherwise |
| Diagnostics.NamedIsReported | Program.cs:553-559 | with either platform separator, a diagnostic reported for a named plugin is also reported with no name |
| Diagnostics.NamingPluginNarrows | Program.cs:553-559 | naming a plugin only removes diagnostics from the report |
| Diagnostics.TallyKey | Program.cs:563-571 | an error is tallied exactly when the root is known, it has a path and the path contains the plugins marker, ignoring case; the key holds no separator |
| Diagnostics.TallyCounts | Program.cs:563-574 | each plugin's count rises by exactly the number of its tallied errors |
| Diagnostics.TallyKeyOfPluginFile | Program.cs:567-571 | an error in `…/plugins/<name>/…` is charged to `<name>` |
| Diagnostics.Tally | Program.cs:563-574 | the tally keeps every plugin already counted and never lowers a count |
| Diagnostics.TallyUncharged | Program.cs:564-574 | tallying diagnostics none of which is charged to a plugin leaves the counts as they were |
| Diagnostics.Analyze | Program.cs:549-610 | the analysis never lowers a count, leaves the counts alone when nothing is reported, and shows nothing exactly when nothing is reported |
| Diagnostics.AnalysisCounts | Program.cs:549-574 | the analysis raises each plugin's count by exactly the number of reported errors charged to it, so a count rises only for an error in source, with a path (inside the named plugin's directory when one is named), charged to that plugin |
| Diagnostics.NonErrorsNeverCounted | Program.cs:564 | adding diagnostics that are not errors, warnings included, to the analysed list leaves every count unchanged |
| Diagnostics.ElsewhereNotReported | Program.cs:553-557 | with a plugin named, no diagnostic outside `<sep>plugins<sep><name><sep>` is reported |
| Diagnostics.OtherPluginsIgnored | Program.cs:553-557 | with a plugin named, diagnostics in other plugins' files change neither the counts nor what is shown |
| Diagnostics.FirstLevel | Program.cs:578-592 | the first level, in the order tried, that groups some diagnostic, with no earlier level grouping any; none exactly when no level does |
| Diagnostics.FindLevel | Program.cs:578-592 | the loop with `break` stops at exactly the first level that groups some diagnostic |
| Diagnostics.ShowIssues | Program.cs:576-608 | the display is the bucket chosen for the diagnostics, and `issueFound` holds exactly when something is shown |
| Diagnostics.IssueFoundIffReported | Program.cs:576-608 | nothing is shown exactly when no diagnostic is reported |
| Diagnostics.ShownLevelIsFirst | Program.cs:578-592 | a shown level is one of the configured levels; its list is a non-empty permutation of its matching diagnostics; every level with a smaller `Level` matched nothing |
| Diagnostics.UnprioritizedIsEverything | Program.cs:594-608 | the unprioritized list is shown exactly when there are diagnostics and no level groups any; it is then a permutation of all of them, under the level count |
| Diagnostics.NoLevelMatchedRestIsAll | Program.cs:594-598 | when no level groups a diagnostic, filtering out every level's rules removes nothing |
| Diagnostics.BySeverityOrder | Program.cs:582 | `OrderByDescending(Severity)` is a permutation, most severe first, that keeps the relative order of equally severe diagnostics |
| Diagnostics.Rendered | Program.cs:626 | at most the first 15 shown diagnostics are rendered |
| Gate.MergeKey | Program.cs:750-755 | the merge charges the `_`-joined relative path when the root is known, else the directory's own name |
| Gate.Charged | Program.cs:774-776 | the merge raises its key's count by exactly the errors validation adds and changes no other count |
| Gate.Written | Program.cs:905 | a merge appends its output file only when it produced one |
| Gate.Ledger.constructor | Program.cs:80 | the error count starts empty |
| Gate.Ledger.TallyErrors | Program.cs:563-574 | the tally loop raises each plugin's count by the errors charged to it, leaving the count that `Tally` describes |
| Gate.Ledger.AnalyzeCompilation | Program.cs:549-610 | the analysis's filter, tally and bucketing over the same filtered list: the ledger ends with the counts and the display `Analyze` gives, and `issueFound` holds exactly when something is shown |
| Gate.Ledger.MergePlugin | Program.cs:702-906 | one merge updates the count and the output as its validation and merge say |
| Gate.Ledger.Visit | Program.cs:1105-1130 | one turn of the gate loop leaves the state one gate step gives, and the ledger agrees with it |
| Gate.Ledger.MergeAll | Program.cs:1078-1131 | the whole gate loop yields the outcome `GateRun` describes (see `Gate.GateRunAccounts`); the ledger holds its final count, unchanged when the named plugin is not found |
| Gate.Step | Program.cs:1105-1130 | each turn counts the plugin as merged or skipped, exactly one of the two, and adds at most one output while keeping the earlier ones |
| Gate.RejectedNonPartial | Program.cs:770-778 | the non-partial branch adds the number of non-partial classes, which is the charge validation implies, and writes nothing |
| Gate.RejectedViolating | Program.cs:827-860 | the violation branch adds the number of violating files, which is the charge validation implies, and writes nothing |
| Gate.AcceptedValid | Program.cs:863-906 | a plugin that passes both checks is charged nothing and written as its merged unit |
| Gate.StepWhenCounted | Program.cs:1110-1116 | a plugin whose count is already positive is skipped with its count, and nothing else changes |
| Gate.SkipLeavesStateAlone | Program.cs:1110-1116 | skipping leaves the counts, the outputs and the merged count untouched and records the count |
| Gate.MergedIffValid | Program.cs:1118-1130 | with the root known, a plugin with no errors counts as merged and is written exactly when it validates; otherwise it is skipped with the errors its validation added |
| Gate.SettleAfterMerge | Program.cs:1118-1130 | after a merge whose output exists exactly when validation added no errors, the plugin counts as merged and is written exactly when valid, otherwise it is skipped with the added errors |
| Gate.StepAccounts | Program.cs:1105-1131 | each turn adds one to merged plus skipped, one skipped entry per skip, only grows the outputs and the counts, and adds at most one output per merge |
| Gate.RunGateAccounts | Program.cs:1105-1131 | over any sequence of directories, merged plus skipped rises by their number, and the other bookkeeping facts hold |
| Gate.GateRunAccounts | Program.cs:1078-1139 | a run fails exactly when a named plugin matches no directory; otherwise processed = merged + skipped = number of selected directories, and no more files are written than merged |
| Gate.SelectedAreNamed | Program.cs:1088-1093 | with a name, the selected directories are exactly those whose own name equals it, ignoring case |
| Gate.JoinLongerThanLast | Program.cs:750-755 | the `_`-joined key of a nested directory is longer than its own name |
| Gate.NestedFailureCountedMerged | Program.cs:750-755 | when the root is unknown, a failing nested plugin is charged under its own name, so the gate counts it as merged although nothing is written |
| Gate.TallyKeyVersusGateKey | Program.cs:570-571 | an analysis error is charged to the first segment below `plugins`, which is the gate's name for a top-level plugin and never for a nested one |
| Gate.AnalysisErrorBlocksMerge | Program.cs:549-574 | an error in source in a file of a plugin directly below the root, analysed with no plugin named or with that plugin named, raises that plugin's count, so the gate skips it without merging or writing |
| Gate.ReportedAtMarker | Program.cs:549-561 | an error in source below `<sep>plugins<sep><name><sep>` passes the filter, with no plugin named or with `<name>` |
| Snippet.CaretLength | Program.cs:964 | at least one caret, and the span's width when that is larger |
| Snippet.HighlightColumn | Program.cs:963 | the start column, clamped at zero |
| Snippet.RenderExcerpt | Program.cs:954-968 | the printing loop yields the excerpt rows of the window |
| Snippet.RowsFromShape | Program.cs:956-967 | one source row per window line, marked exactly on the problem's line, carrying the file's own text; a caret row right after the marked row exactly when the problem's line is in the window |
| Snippet.ExcerptShape | Program.cs:954-967 | an excerpt shows only lines within two of the problem's line, at most six rows, and carets exactly when the problem's line exists |
| Formatting.CreateFileBatches | Program.cs:1492-1505 | the loop cuts the files into consecutive batches of the maximum size |
| Formatting.BatchesFlatten | Program.cs:1496-1502 | the batches, concatenated, are the files, in order |
| Formatting.BatchesShape | Program.cs:1496-1502 | every batch is non-empty and at most the maximum size, all but the last are full, and their number is the ceiling of files / size |
| Formatting.IsProblematicPlugin | Program.cs:1238-1316 | the loop and the cascade yield the classification of the measured totals, and the plugin is problematic exactly when the verdict is not "Normal plugin" |
| Formatting.MeasureCounts | Program.cs:1248-1275 | the large, very large and error-prone counts are the numbers of readable files over each threshold |
| Formatting.Measure | Program.cs:1248-1275 | the large, very large and error-prone counts never exceed the number of files |
| Formatting.VeryLargeAreLarge | Program.cs:1260-1264 | with the very-large threshold at least the large one, every very large file is also large |
| Formatting.NormalIffWithinLimits | Program.cs:1280-1315 | a plugin is normal exactly when every total is within its limit |
| Formatting.ReasonIsFirstExceeded | Program.cs:1280-1315 | the verdict names the first exceeded limit in cascade order, with every earlier limit met; the reported megabytes are the total size rounded down |
| Formatting.DefaultsRejectVeryLargeFile | Program.cs:29-37 | with the default thresholds, one readable file over 500 KB makes a plugin problematic |

## Left out

- File and directory access is not modelled. Plugin directories, the `.cs` files in them and each file's lines are inputs. This covers `Directory.GetDirectories`, `Directory.GetFiles`, `File.ReadAllText`, `File.ReadAllLines` and `FileInfo`.
- `PluginDir.files` stands for every `.cs` file anywhere below the directory, because the merge reads the sources recursively (line 704). The gate visits every directory that holds `.cs` files directly (lines 1084-1085), so a nested plugin's files are validated and merged both under the parent directory and under their own. The model does not relate a parent directory's files to those of the directories nested in it; each directory's files are an independent input.
- Parsing with the C# compiler API is not modelled. A file is given as its using directives and its type declarations, with the facts the engine reads from them.
- Enum and delegate declarations are not part of the abstraction. The engine only looks at class and type declarations, and these are neither.
- Rendering the merged unit to text (`NormalizeWhitespace`, `ToFullString`) and writing it are not modelled. The result is the structure of the merged unit, and the write is an entry in the outputs list.
- Compilation, analyzer runs and the production of diagnostics are not modelled. Diagnostics are an input list. When the compilation is unavailable (lines 502-506) or the project has no analyzers (lines 513-518), the analysis returns before tallying, so not even compiler errors are charged; the model represents that by an empty diagnostic list.
- Command-line parsing, config-file discovery and JSON loading are not modelled. The thresholds and priority levels are parameters.
- The `dotnet format` pipeline and its regexes are not modelled: process calls and output parsing. Only `CreateFileBatches` and `IsProblematicPlugin` are kept.
- `ConcurrentStats` is not modelled: concurrency. Stopwatch timing and the files-per-second figures are not modelled: clock and floating point.
- Console text and colours are not modelled. The excerpt is modelled as rows of numbers, marks, text and caret positions, without padding.
- Case-insensitive comparison folds ASCII letters only; .NET's `OrdinalIgnoreCase` also folds other letters.
- `_pluginsRoot` is the boolean `rootKnown`: "set, and the plugin directory lies below it" (lines 284, 351 and 418). Plugin paths are segment lists relative to that root, so the `StartsWith` test reduces to that boolean. The model also assumes that the directory `MergeAllPlugins` walks (its `pluginsDir`) is `_pluginsRoot` itself whenever the root is set, so that the merge's key and the gate's key agree. One path breaks this: when no `.csproj` is given, `_pluginsRoot` is the outer `plugins` folder (line 284), every project below it is analysed (line 304), and each project's own `plugins` folder is merged (lines 487-493). The merge then charges errors under the path relative to the outer root (lines 751-754), while the gate reads the path relative to the inner folder (lines 1107-1108 and 1119-1121), so a rejection goes unnoticed and the plugin counts as merged, as in `Gate.NestedFailureCountedMerged`. `Gate.MergedIffValid` does not cover that path.
- Formatting.CreateFileBatches: works on sequences rather than `string[]` and `Array.Copy`. It requires a positive batch size; with 0 the C# loop never ends, and both callers pass a positive size (lines 1346 and 1744).
- Formatting.IsProblematicPlugin: does not model 32-bit overflow of `totalLines` or of `LargeFileSizeKB * 1024`. The model computes with unbounded integers. It also takes each file's length and line count as already read; an unreadable length skips the file, and an unreadable line count adds only the length.
- Snippet.RenderExcerpt: models the shared window and caret arithmetic of `PrintSourceSnippet`. The excerpt in `DisplayDiagnostics` (lines 651-672) has the same window but indents carets by the unclamped start column, which would throw on a negative column. The diagnostics' display is not modelled beyond that window.
- The `Console` summary after the gate loop is not modelled beyond the counters it prints (lines 1133-1147).
