# tsec-validation: violation bookkeeping and location arithmetic, in Dafny

This project models the core of a tool that finds Trusted Types violations at
run time. The tool loads a web application in a browser with a report-only
Content Security Policy header. It collects the violation reports the browser
sends. It resolves each reported location in the served JavaScript back to the
TypeScript source through the source map. Separately, it cross-checks a set of
resolved reports against the output of the static checker tsec and lists the
violations tsec did not flag.

Modules, one per source file or shared concern:

- `ViolationReports` (src/violationReport.ts): the `ViolationReport` class, with its
  web location, optional disk location and growing list of script samples.
  Also its key, count, `addOccurrence` and `toString`.
- `LegacyRuntime` (src/ttruntime.js): the collector keyed by the string
  `file:line:column`, which merges repeat sightings. Also the total count and
  the summary line of its report.
- `Runtime` (src/ttruntime.ts): the collector whose `Map` is keyed by a fresh
  object literal, so that it never merges. Also its summary line, and the
  report-only header added to document responses.
- `CspReports`: the payload record and the counting and summary line that both
  collectors share.
- `Localization` (src/localization.ts) and `LegacyLocalization`
  (src/localization.js): the decisions and the one-based/zero-based arithmetic of
  `getOriginalLocation`. The file system and the source-map library are passed in
  as oracles: a `fileExists` predicate and an `originalPositionFor` function that
  either throws or answers.
- `Ansi`: an exact model of the colour-code regular expression in
  src/tsecValidation.ts:35. It follows the engine's backtracking order.
- `TsecValidation` (src/tsecValidation.ts): the `grep | cut` pipeline as a pure
  line filter, `parseTsecOutput`, the missed filter and `printReport`.
- `JsStrings`: the string operations these rely on. That is
  template-literal rendering of integers, unary `+`, `split`, `join`,
  `replace` with a string pattern, and the line match of `grep`.
- `Wrappers`: `Option`, used for `undefined`, `null` and NaN.

Printed lines are returned as strings instead of written to the console.

## Model

| member | source | states |
|---|---|---|
| `ViolationReports.ViolationReport.constructor` | src/violationReport.ts:24-27 | a new report keeps the given web location, has no samples, count 0 and no disk location |
| `ViolationReports.ViolationReport.ToKey` | src/violationReport.ts:28-30 | the definition of the key `url:line:column`; its own contract states that the character at the url's length is `:` and that the key is at least four characters longer than the url. `ToKeyInjective` and `ToKeyFields` state what the key identifies |
| `ViolationReports.ToKeyInjective` | src/violationReport.ts:28-30 | two `url:line:column` keys are equal if and only if url, line and column are all equal, even for urls containing colons |
| `ViolationReports.ToKeyFields` | src/violationReport.ts:28-30 | a key whose path has no colon splits on `:` into exactly the path, the rendered line and the rendered column |
| `ViolationReports.ViolationReport.Key` | src/violationReport.ts:31-36 | the key is `toKey` of the disk location once one is set, ignoring the web location, and `toKey` of the web location until then |
| `ViolationReports.ViolationReport.Count` | src/violationReport.ts:37-39 | the definition of `count`, the number of samples; it is 0 exactly when there is no sample. The constructor and `AddOccurrence` state how it changes |
| `ViolationReports.ViolationReport.AddOccurrence` | src/violationReport.ts:37-42 | appends the sample at the end, raises `count` by exactly one, keeps earlier samples, the web location and the disk location |
| `ViolationReports.ViolationReport.ToString` | src/violationReport.ts:43-45 | the definition of `toString`; its own contract states that it starts with `source: ` and the key, followed by a newline. `ToStringLines` states every line |
| `ViolationReports.ToStringLines` | src/violationReport.ts:43-45 | splitting `toString` into lines gives `source: <key>`, then ` code samples: ` with the first sample, then every further sample in order |
| `JsStrings.NatToDecimal` | src/violationReport.ts:29 | the rendering of a number is a non-empty digit string whose decimal value is the number, with no leading zero |
| `JsStrings.ReadRenderedNumber` | src/tsecValidation.ts:42-43 | unary `+` on a rendered integer gives the integer back |
| `JsStrings.IntToDecimalInjective` | src/violationReport.ts:29 | different integers render differently |
| `JsStrings.ReadNumber` | src/tsecValidation.ts:42-43 | the empty field reads as 0 and a digit string as its decimal value |
| `JsStrings.Split` | src/tsecValidation.ts:36 | `split` gives at least one piece, no piece holds the separator, and text without the separator is one piece |
| `JsStrings.SplitAtFirst` | src/tsecValidation.ts:39 | text before the first separator is the first piece, the rest is split on |
| `JsStrings.SplitJoin` | src/violationReport.ts:44 | splitting what `join` produced, on a separator no part holds, gives the parts back |
| `JsStrings.IndexOfFrom` | src/localization.js:28 | the result is the first occurrence at or after the start, or there is none |
| `JsStrings.ReplaceFirst` | src/localization.js:28 | without an occurrence the text is unchanged; at the first occurrence, the text before it is kept, the pattern is replaced and the rest is kept; a replacement as long as the pattern keeps the length |
| `JsStrings.FirstOccurrenceExists` | src/localization.js:28 | any occurrence has a first occurrence at or before it, so the two cases of `replace` cover every text |
| `Localization.MapPath` | src/localization.ts:35 | the definition of `${projectRoot}/${path}.map`; its own contract states that the path ends in `.map` and is five characters longer than root and path together. `MapPathInjective` states that different files have different maps |
| `Localization.MapPathInjective` | src/localization.ts:35 | under one project root, two files with the same map path are the same file |
| `Localization.Complete` | src/localization.ts:50 | the truthiness test of the answer: a complete answer has no null field, and an empty source or a zero line or column is not complete. `GetOriginalLocation` and `ResolvedIsWhole` state its effect on the result |
| `Localization.GetOriginalLocation` | src/localization.ts:30-60 | empty path gives undefined; missing map gives the input back; the query is `(line - 1, column - 1)`; a throw or a falsy answer field gives undefined; otherwise the answer plus one |
| `Localization.EmptyPathConsultsNothing` | src/localization.ts:32-34 | with an empty path the result is undefined whatever the file system and the map say |
| `Localization.ResolvedIsWhole` | src/localization.ts:50-56 | a resolved location is the input itself or has a non-empty path and coordinates that are not 1, never a partial one |
| `Localization.IdentityMapRoundTrip` | src/localization.ts:45-55 | through a map that sends each position to itself, the shift to zero-based and back cancels; line or column 1 becomes unresolved |
| `LegacyLocalization.GetOriginalLocation` | src/localization.js:18-44 | falsy path gives undefined; missing map gives the triple back; the query names the `.ts` file and uses `(line - 1, col - 1)`; a throw gives undefined; otherwise the answer plus one, unchecked |
| `LegacyLocalization.PlusOne` | src/localization.js:40 | adding one to a number gives its successor and adding one to `null` gives 1 |
| `LegacyLocalization.NothingFoundIsNotUndefined` | src/localization.js:40 | an all-null answer comes back as `[null, 1, 1]`, where the TypeScript resolver gives undefined |
| `LegacyLocalization.TsPath` | src/localization.js:28 | the definition of the queried `.ts` path; its own contract states that it is the project root and `/` followed by a path as long as the input, since `.ts` replaces `.js`. `TsPathReplacesFirstJs` and `TsPathWithoutJs` state which text it holds |
| `LegacyLocalization.TsPathReplacesFirstJs` | src/localization.js:28 | only the first `.js` of the path becomes `.ts`, the rest of the path is kept |
| `LegacyLocalization.TsPathWithoutJs` | src/localization.js:28 | a path without `.js` is queried under its own name |
| `CspReports.FoldAddIsSum` | src/ttruntime.ts:113-114 | the left fold of `reduce` from a start value is the start value plus the sum |
| `CspReports.ReduceWithoutInitial` | src/ttruntime.js:94-96 | `reduce` without an initial value throws exactly on an empty array and gives the sum otherwise |
| `CspReports.ReduceFromZero` | src/ttruntime.ts:113-114 | `reduce` from 0 gives the sum, and 0 for an empty array |
| `CspReports.SumIncrement` | src/ttruntime.js:52 | one more element in one list adds one to the total |
| `CspReports.SummaryLine` | src/ttruntime.js:97 | `Found 1 violation.` for one, `Found N violations.` otherwise (the same line as src/ttruntime.ts:115) |
| `CspReports.SummaryLineCount` | src/ttruntime.ts:115 | the word after `Found ` is the rendered total and reads back as the total |
| `CspReports.SummaryLineInjective` | src/ttruntime.ts:115 | different totals give different summary lines |
| `LegacyRuntime.Collector.constructor` | src/ttruntime.js:43 | the collector starts with an empty, well-formed map |
| `LegacyRuntime.Parsed` | src/ttruntime.js:45-54 | no `csp-report` leaves the map unchanged; otherwise the whole report goes at the end of the list under `file:line:column`, a first sighting adds the key last, and every other list is untouched |
| `LegacyRuntime.Collector.ParseViolation` | src/ttruntime.js:45-54 | the imperative `has`/`set`/`push` sequence gives exactly `Parsed` of the old map and keeps the map well formed |
| `LegacyRuntime.ParsedValid` | src/ttruntime.js:49-52 | keys stay distinct and in step with the stored lists |
| `LegacyRuntime.ParsedTotal` | src/ttruntime.js:49-52 | each accepted payload adds exactly one to the total, a rejected one nothing |
| `LegacyRuntime.TotalCountsAccepted` | src/ttruntime.js:45-54 | after any arrival sequence the total equals the number of payloads carrying a report |
| `LegacyRuntime.RepeatedSightings` | src/ttruntime.js:48-52 | N payloads for one location give one key whose list holds the report N times |
| `LegacyRuntime.MergeIffSameLocation` | src/ttruntime.js:48 | two reports share an entry if and only if file, line and column agree |
| `LegacyRuntime.ReportSummary` | src/ttruntime.js:93-97 | an empty map throws; otherwise the summary states the total of the list lengths |
| `LegacyRuntime.ThreePayloads` | src/ttruntime.js:45-97 | two payloads at one location and a third at another give two entries in arrival order, the first holding both reports, and `Found 3 violations.` |
| `Runtime.LocationKey.constructor` | src/ttruntime.ts:53-57 | the key object carries the report's file, line and column |
| `Runtime.Collector.constructor` | src/ttruntime.ts:48 | the collector starts with no entries, and so with distinct key objects |
| `Runtime.Collector.Has` | src/ttruntime.ts:58 | `has` is true exactly when an entry's key is the very same object |
| `Runtime.Collector.IndexOf` | src/ttruntime.ts:61 | `get` finds the entry keyed by that object, or reports there is none |
| `Runtime.Collector.SaveViolation` | src/ttruntime.ts:50-63 | no `csp-report` changes nothing; otherwise exactly one entry is added last, under a fresh key object for the report's location, with sample list `[script-sample]`; earlier entries are untouched and the total grows by one |
| `Runtime.SameLocationTwice` | src/ttruntime.ts:53-61 | as written, two payloads for one location leave two entries with equal locations and one sample each |
| `Runtime.SaveMergingKeepsCount` | src/ttruntime.ts:53-61 | the corrected collector keeps locations distinct and adds one sample per accepted payload |
| `Runtime.RepeatedSightingsMerge` | src/ttruntime.ts:53-61 | with the correction, N payloads for one location give one entry with N samples |
| `Runtime.SampleCounts` | src/ttruntime.ts:113 | the projection the totals are proved over: one count per entry, in entry order, equal to that entry's number of samples |
| `Runtime.ReportSummary` | src/ttruntime.ts:112-115 | the summary states the sum of the sample counts, `Found 0 violations.` for an empty map |
| `Runtime.ReportOnlyHeader` | src/ttruntime.ts:67-70 | name `Content-Security-Policy-Report-Only`; value `require-trusted-types-for 'script'; report-uri ` followed by the endpoint, or `http://127.0.0.1:8080` when it is absent or empty |
| `Runtime.AddCspReportOnlyHeader` | src/ttruntime.ts:65-70 | the caller's header array gets that header at its end and keeps every earlier header |
| `Ansi.MatchAt` | src/tsecValidation.ts:35 | a match starts with ESC or CSI and spans at least two characters |
| `Ansi.StripAnsiIdentity` | src/tsecValidation.ts:35 | text with neither `\u001b` nor `\u009b` is unchanged |
| `Ansi.StripAnsi` | src/tsecValidation.ts:35 | the definition of the global `replace` of colour codes; its own contract states that it never lengthens the text. `StripAnsiIdentity` and `StripColouredWord` state what it keeps and what it removes |
| `Ansi.StripColouredWord` | src/tsecValidation.ts:35 | a word without ESC or CSI between the cyan code `ESC[96m` and the reset code `ESC[0m` strips to the word |
| `TsecValidation.Cut` | src/tsecValidation.ts:24 | `cut -d' ' -f1` gives text without a space, the whole line when it has none |
| `TsecValidation.GrepCut` | src/tsecValidation.ts:24 | `grep TS21228` followed by `cut -d' ' -f1` never gives more lines than it reads, and no line it gives holds a space |
| `TsecValidation.Terminated` | src/tsecValidation.ts:25 | the printed text is empty exactly when there are no lines, and otherwise ends in a newline |
| `TsecValidation.TsecPipeline` | src/tsecValidation.ts:24 | the definition of the shell pipeline's output; its own contract states that it is empty or ends in a newline and holds no space. `PipelineOfDiagnostics` states what it gives for tsec's diagnostic lines |
| `TsecValidation.DiagnosticSelected` | src/tsecValidation.ts:21-24 | a tsec TS21228 line passes `grep` and `cut` keeps its `path:line:column` |
| `TsecValidation.PipelineOfDiagnostics` | src/tsecValidation.ts:21-25 | the pipeline turns tsec's diagnostic lines into their location fields, one per line, in order |
| `TsecValidation.ParseLine` | src/tsecValidation.ts:39-44 | the path never holds `:`; a line without `:` is all path, with NaN line and column |
| `TsecValidation.ParseLinePath` | src/tsecValidation.ts:39-41 | the path is the text before the first `:` |
| `TsecValidation.ParseLineFields` | src/tsecValidation.ts:39-44 | for `path:line:column`, optionally followed by `:` and more, the line and column are `+line` and `+column` of the second and third fields |
| `TsecValidation.ParseKey` | src/tsecValidation.ts:39-44 | a `path:line:column` line parses to that path, line and column |
| `TsecValidation.ParseLines` | src/tsecValidation.ts:37-45 | never more locations than lines |
| `TsecValidation.ParseLinesCount` | src/tsecValidation.ts:37 | empty lines are dropped, so with no empty line there is one location per line and with only empty lines none |
| `TsecValidation.ParseLinesAppend` | src/tsecValidation.ts:36-45 | parsing is line by line, in input order |
| `TsecValidation.ParseTsecOutput` | src/tsecValidation.ts:32-46 | the definition of `parseTsecOutput`; its own contract states that no parsed path holds `:`. `ParseTerminatedKeys`, `ParseLinesCount` and `ParseLinesAppend` state what it returns |
| `TsecValidation.ParseTerminatedKeys` | src/tsecValidation.ts:32-46 | `parseTsecOutput` of newline-terminated keys gives their locations in order |
| `TsecValidation.Missed` | src/tsecValidation.ts:27-28 | the missed list is a subsequence of the reports; a report is in it if and only if no parsed location equals it, as many times as it occurs among the reports; with none parsed every report is missed |
| `TsecValidation.MissedIffNotReported` | src/tsecValidation.ts:23-30 | with tsec reporting TS21228 at given locations, a report is missed if and only if its disk location is none of them |
| `TsecValidation.ExactMatchOnly` | src/tsecValidation.ts:27-28 | with tsec reporting `a.ts:10:5`, a report at `a.ts:10:5` is not missed and one at `a.ts:11:5` is |
| `TsecValidation.CompareWithTsecResults` | src/tsecValidation.ts:23-30 | prints between one line and one more than there are reports, the first being the summary of how many lines follow |
| `TsecValidation.ExactMatchPrinted` | src/tsecValidation.ts:23-30 | with tsec reporting `a.ts:10:5`, the output for reports at `a.ts:10:5` and `a.ts:11:5` is `Found 1 violation not found by tsec.` and `1. ` followed by the second report |
| `TsecValidation.NoTsecOutputAllMissed` | src/tsecValidation.ts:23-30 | when tsec's output is empty, every report is printed as missed |
| `TsecValidation.PrintOne` | src/tsecValidation.ts:48-54 | one missed report prints the singular summary and `1. ` followed by the report |
| `TsecValidation.MissedSummary` | src/tsecValidation.ts:49-50 | `Found 1 violation not found by tsec.` for one, `Found N violations not found by tsec.` otherwise |
| `TsecValidation.PrintReport` | src/tsecValidation.ts:48-50 | one line more than there are missed reports, the first being the summary of their count |
| `TsecValidation.PrintReportLines` | src/tsecValidation.ts:51-53 | line k+1 is `<k+1>. <report.toString()>` for the k-th missed report |
| `TsecValidation.UnflaggedIffElsewhere` | src/tsecValidation.ts:27-28 | a report survives the filter if and only if its disk location is none of the parsed locations |

## Left out

- Browser launch, request interception and response fulfilment are left out. That covers `intercept`, `main`, the `Fetch.*` calls and the `setTimeout` call. They are browser and network plumbing.
- Command-line parsing with yargs is left out. The endpoint option is a parameter of `Runtime.ReportOnlyHeader`.
- `JSON.parse` of the payload is not modelled. A payload is `Option<CspReport>`, and `None` stands for a missing or falsy `csp-report`. Malformed JSON throws in the source and is not modelled.
- The file system and the source-map library are abstract. They are `SourceMaps.fileExists` and `SourceMaps.originalPositionFor`. The second stands for reading the map, `JSON.parse` and `originalPositionFor` together, and may throw. Source-map decoding itself is not part of this model.
- Logging with `console.error` or `console.log` is left out. Printed lines are returned as strings.
- `execSync` and the shell are left out. `cat file | grep TS21228 | cut -d' ' -f1` is modelled as a pure function of the file's text, `TsecValidation.TsecPipeline`.
- The per-entry lines of `printReport` in src/ttruntime.ts:116-120 are left out. Their ordinals follow the order in which the asynchronous lookups finish, and the fallback prints the object key as `[object Object]`. Only the count and summary line are modelled.
- `ViolationReports.ViolationReport.LocationEquals`: src/tsecValidation.ts:28 calls `locationEquals`, but src/violationReport.ts does not define it. The model assumes exact equality of path, line and column with the disk location. A report without a disk location equals nothing.
- `DiskLocation` and `WebLocation` are imported from src/localization.ts, which does not export them. The model treats them as records: `{path, line, column}` and `{url, line, column}`.
- `JsStrings.ReadNumber`: `+field` is modelled only for the empty string and for digit strings with an optional sign. Every other field reads as NaN. JavaScript would also accept, among others, surrounding whitespace, fractions, exponents, `Infinity`, and the `0x`, `0o` and `0b` prefixes.
- `JsStrings.IntToDecimal`: numbers are unbounded integers. Exponent notation for magnitudes of 10^21 and above, and non-integral coordinates, are not modelled.
- A missing source map returns the input location, not a separate no-mapping value.
- Neither collector sorts its entries before printing.
- The `.js` report does no source localization (src/ttruntime.js:98).
- The `.ts` collector does not merge repeat sightings; see Findings.

## Findings

| source | as written | input that shows it | evidently intended | confidence | as-written member | corrected member |
|---|---|---|---|---|---|---|
| src/ttruntime.ts:53-61 | the map key is a new object literal for each payload, and `Map` compares object keys by identity, so `has` is always false | two payloads with the same `source-file`, `line-number` and `column-number` | one entry per location holding both samples, as src/ttruntime.js:48-52 does with string keys | high (not executed) | `Runtime.SameLocationTwice` | `Runtime.RepeatedSightingsMerge` |

The summary count is the same either way, because both forms add one sample per accepted payload (`Runtime.Collector.SaveViolation`, `Runtime.SaveMergingKeepsCount`).
