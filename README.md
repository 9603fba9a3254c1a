# conftest, modelled in Dafny

conftest checks configuration files against Open Policy Agent (Rego)
policies. This project models the logic that sits around the Rego
evaluator, and proves properties of that model:

- **Rule names and result accounting** (`engine.dfy`, `test_runner.dfy`,
  `verify.dfy`, `results.dfy`). These cover:
  - which rule names are `warn`, `deny` or `violation` rules;
  - how rule answers are filed as successes, failures, warnings and
    exceptions, with exception suppression and success padding;
  - how Rego unit-test outcomes become results;
  - the exit-code rules.

  The Rego query is a function parameter that returns result lists.
- **Report formats** (`standard.dfy`, `sarif.dfy`, `tap.dfy`,
  `github.dfy`, `azuredevops.dfy`, `table.dfy`, `json_output.dfy`,
  `managers.dfy`, with `reports.dfy` and `lines.dfy` underneath).
  - The writers become methods that return the lines or records they
    write, proved equal to specification functions.
  - SARIF runs and the buffering output managers are classes whose
    methods append to their fields.
  - SARIF follows the SARIF 2.1.0 result object, reportingDescriptor
    and invocation.
- **Input dispatch and splitting** (`parser.dfy`, `yaml.dfy`, `edn.dfy`).
  These cover:
  - choosing a parser from a path;
  - combining configurations sorted by path;
  - splitting multi-document YAML, which is proved to round-trip;
  - normalising EDN values into string-keyed maps with string leaves.
- **References and paths** (`oci_detector.dfy`, `network.dfy`,
  `policy_repo.dfy`, `repository.dfy`, `plugin_cache.dfy`, `plugin.dfy`,
  `xdg.dfy`). These cover:
  - OCI registry detection and `:latest` tagging;
  - host names;
  - repository tag checks;
  - plugin cache directory names;
  - plugin command splitting and exit status;
  - the XDG directory search.

  The file system, the current user, the environment and the process
  runner are parameters.
- **Documentation headings** (`metadata.dfy`): section depths never jump
  by more than one level.

Shared pieces:
- `wrappers.dfy` holds `Option` and `Outcome`.
- `strings.dfy` models the parts of Go's `strings` and `path/filepath`
  packages that the code uses.
- `values.dfy` models decoded configuration values.

Where the code and its documentation differ, the model follows the code:

- `output/result.go` declares a `CheckResult` with a list of successes.
  The formatters and `runner/verify.go` use a later shape with a success
  count, skipped results, a namespace and queries. Both shapes are
  modelled: `Results.CheckResult` and `Reports.CheckResult`.
- `ConvertAnnotationsToSections` never returns an error, but a negative
  depth makes `strings.Repeat` panic. The model returns that panic as an
  error outcome and proves exactly when it happens.

## Model

| member | source | states |
|---|---|---|
| `Results.NewResult` | output/result.go:25-34 | a new result keeps the message and the traces and starts with empty metadata and no location |
| `Results.ErrorOfNewResult` | output/result.go:10-12 | a result used as an error reads as its own message |
| `Results.GetExitCode` | output/result.go:36-64 | the code is 0, 1 or 2; without fail-on-warn it is 1 exactly when some result has failures and 0 otherwise (warnings alone give 0); with fail-on-warn it is 2 on any failure, else 1 on any warning, else 0 |
| `Results.Error` | output/result.go:10-12 | a result read as an error is its message |
| `Values.StrAt` | output/sarif.go:213-218 | the comma-ok lookup `m[k].(string)` gives a value exactly when the key is present and holds a string, and then that string |
| `Reports.TotalFailuresZero` | output/standard.go:92 | the failure total is zero exactly when no result has a failure |
| `Reports.TotalWarningsZero` | output/standard.go:94 | the warning total is zero exactly when no result has a warning |
| `Reports.TotalExceptionsZero` | output/standard.go:93 | the exception total is zero exactly when no result has an exception |
| `Reports.Plural` | output/standard.go:101-119 | the suffix is "s" exactly when the count is not one, and empty exactly when it is one |
| `Reports.TotalFailures` | output/standard.go:92 | the number of failures over every file |
| `Reports.TotalWarnings` | output/standard.go:94 | the number of warnings over every file |
| `Reports.TotalExceptions` | output/standard.go:93 | the number of exceptions over every file |
| `Reports.TotalSkipped` | output/standard.go:95 | the number of skipped results over every file |
| `Reports.TotalSuccesses` | output/standard.go:96 | the number of counted successes over every file |
| `Reports.TotalTests` | output/standard.go:99 | failures, exceptions, warnings, successes and skipped results added up |
| `Lines.SummaryColor` | output/standard.go:133-142 | red exactly on failures, yellow exactly on warnings without failures, cyan exactly on exceptions alone, green exactly when all three are zero |
| `Lines.Paint` | output/standard.go:46-49 | text coloured only when colouring is on |
| `Lines.SummaryText` | output/standard.go:121-127 | the summary "N test(s), P passed, W warning(s), F failure(s), E exception(s)" |
| `Standard.IssueLines` | output/standard.go:64-90 | one line per result of the group, in order, tagged and coloured, ending in the file indicator ("-" for standard input, else "- name"), the namespace field ("-" or "- ns -") and the message |
| `Standard.TaggedLines` | output/standard.go:152-154 | one blue tagged line per text, in order |
| `Standard.Output` | output/standard.go:44-147 | the lines written are the tracing lines in tracing mode, else the print lines, the per-file issue lines, a blank line and the coloured summary |
| `Standard.WriteResults` | output/standard.go:58-97 | the loop writes every file's issue lines in order and its five totals are the sums over all results |
| `Standard.WriteIssues` | output/standard.go:78-90 | one loop over a group writes exactly that group's issue lines |
| `Standard.WriteTagged` | output/standard.go:152-154 | the loop writes one tagged line per text |
| `Standard.OutputPrints` | output/standard.go:149-157 | one PRNT line per `print` output of every query of every result, in order |
| `Standard.OutputTrace` | output/standard.go:159-176 | per query a header "file: … \| query: …", green when it passed and red otherwise, followed by its TRAC lines |
| `Standard.IssueLineCount` | output/standard.go:78-90 | the issue lines number the warnings plus the failures plus, unless exceptions are suppressed, the exceptions |
| `Standard.FileLinesOrder` | output/standard.go:78-90 | within a file all WARN lines come first, then all FAIL lines, then the EXCP lines, each ending in its own result's message |
| `Standard.TracingWritesOnlyTraces` | output/standard.go:51-54 | in tracing mode every line is a query header or a TRAC line, so no summary is written |
| `Standard.QueryTracesShape` | output/standard.go:160-174 | the trace lines of one result are query headers and TRAC lines only |
| `Standard.SummaryFlags` | output/standard.go:99-145 | outside tracing mode the last line is the summary, with ", N skipped" exactly when ShowSkipped is set, and red exactly when some file has failures |
| `Standard.OutputLines` | output/standard.go:45-147 | what Output writes: the trace listing when tracing, else the PRNT lines, every file's issue lines, a blank line and the coloured summary |
| `Standard.QueryPrints` | output/standard.go:149-157 | one PRNT line per print output of every query |
| `Standard.QueryTraceLines` | output/standard.go:159-176 | per query a header coloured by whether it passed, then one TRAC line per trace |
| `Standard.SummaryLine` | output/standard.go:121-145 | the summary, with ", N skipped" only when skipped tests are shown, in the summary colour |
| `Sarif.GetRuleID` | output/sarif.go:205-211 | success, skipped and exception results always get the bare prefix of their result type, whatever their metadata |
| `Sarif.RuleIdFromPackage` | output/sarif.go:213-218 | for a failure or warning, string `package` and `rule` metadata give namespace/package/rule, whatever else the metadata holds |
| `Sarif.NoDotAfterReplace` | output/sarif.go:224 | turning every "." into "-" leaves no "." |
| `Sarif.RuleIdFromQuery` | output/sarif.go:220-226 | without package and rule, a string `query` gives prefix + "-" + the query with one leading "data." removed and every "." turned into "-", and that tail holds no "." |
| `Sarif.NoSpaceAfterLower` | output/sarif.go:230 | lower-casing adds no space |
| `Sarif.RuleIdFromDescription` | output/sarif.go:228-231 | with only a string `description`, the ID is prefix + "/" + the description with spaces turned into dashes and lower-cased, so its tail has no space and no upper-case letter |
| `Sarif.RuleIdFallback` | output/sarif.go:233-234 | with no identifying metadata the ID is the bare prefix |
| `Sarif.CreateRuleFields` | output/sarif.go:237-284 | the rule's short description is the message, its full description, help and help URI the string metadata of those names; its properties always hold the namespace, hold package, rule and query exactly when they are strings, copy every other metadata entry, and hold nothing else |
| `Sarif.CreateProperties` | output/sarif.go:297-317 | result properties always hold the namespace (which wins), never hold package, rule, description, url or help, and copy every other metadata entry unchanged |
| `Sarif.Entries` | output/sarif.go:343-351 | the result objects read without their rule indices, one per result, in order |
| `Sarif.EntriesFor` | output/sarif.go:321-351 | the result objects processResults appends for a list of results: one each, in input order, with the result type's kind and level, the message, the file as only location, and the result's properties |
| `Sarif.Run.constructor` | output/sarif.go:377-393 | a run starts with no rules and no results |
| `Sarif.Run.FindRule` | output/sarif.go:329-336 | the index found is that of the first rule with the given ID, and -1 exactly when no rule has it |
| `Sarif.Run.AddResult` | output/sarif.go:322-351 | one iteration appends one result object after the existing ones, appends the result's created rule exactly when its ID is not yet in the rule list (the rules stay as they were otherwise), and keeps rule IDs distinct and every rule index pointing at a rule with the result's ID |
| `Sarif.Run.ProcessResults` | output/sarif.go:319-354 | the results grow by exactly the number of input results, in input order, the old results are kept, the rules are the old rules after meeting each input result's created rule in order (`RulesAfter`), rule IDs stay distinct and every rule index agrees with its result's rule ID |
| `Sarif.Run.ProcessFile` | output/sarif.go:399-427 | one check result appends its failures, warnings and exceptions, then a pass or skipped result when it has none of them, and the rules grow by meeting their created rules in that same order |
| `Sarif.Run.ProcessIssues` | output/sarif.go:400-411 | failures, then warnings, then exceptions, each with its own result type, for the result objects and the rules alike |
| `Sarif.EntriesSnoc` | output/sarif.go:343 | appending a result object appends its entry |
| `Sarif.EntriesForSnoc` | output/sarif.go:321 | the entries of one more input result extend those of the prefix by one |
| `Sarif.RulesAfterAppend` | output/sarif.go:322-327 | meeting two lists of created rules one after the other gives the rules of meeting their concatenation |
| `Sarif.AddRuleIds` | output/sarif.go:324-327 | one created rule adds exactly its ID to the rule IDs and keeps the rules already there, in place |
| `Sarif.RulesAfterCovers` | output/sarif.go:322-327 | every created rule's ID ends up in the rule list |
| `Sarif.RulesAfterFirst` | output/sarif.go:322-327 | starting from no rules, every rule in the list is a created rule, and the first one created with its ID |
| `Sarif.AllIdsMatch` | output/sarif.go:399-427 | the rules created over all files line up one to one with the result objects, and each carries its result's rule ID |
| `Sarif.OutputRules` | output/sarif.go:322-327 | in Output's rule list the IDs are exactly the results' rule IDs (each rule is used by some result, each result's rule is listed), and every rule is the one created from the first result, in output order, with its ID |
| `Sarif.AppendRuleKeepsIds` | output/sarif.go:324-327 | appending a rule whose ID is new keeps the IDs distinct and adds exactly that ID to the set of IDs |
| `Sarif.QuietFileEntry` | output/sarif.go:413-426 | a file with no failures, warnings or exceptions gets exactly one result: a "pass" one with rule "conftest-pass" when it had successes, a "notApplicable" one with rule "conftest-skipped" otherwise |
| `Sarif.NoisyFileEntries` | output/sarif.go:399-414 | a file with any failure, warning or exception gets one result per such item and no pass or notApplicable result |
| `Sarif.HasFailures` | output/sarif.go:468-476 | true exactly when some check result has a failure |
| `Sarif.HasWarnings` | output/sarif.go:478-486 | true exactly when some check result has a warning |
| `Sarif.HasExceptions` | output/sarif.go:488-496 | true exactly when some check result has an exception |
| `Sarif.Output` | output/sarif.go:372-461 | one run with the SARIF 2.1.0 schema and version and the conftest driver, whose results are every file's entries in order, whose rules are those met over all files' created rules in output order starting from none, whose rule IDs are distinct, whose rule indices agree with the rule IDs, and whose one invocation is successful with exit code 1 exactly on a failure (0 otherwise), described by violations, else warnings, else exceptions, else no violations |
| `Sarif.Report` | output/sarif.go:463-466 | always an error |
| `Sarif.CreateRule` | output/sarif.go:238-284 | createRule: the rule's ID is getRuleID of the result, its kind and namespace (its other fields are stated by CreateRuleFields) |
| `Sarif.RulePrefix` | output/sarif.go:168-202 | the rule-ID prefix of each result type |
| `Sarif.KindStr` | output/sarif.go:168-202 | the SARIF kind of each result type: fail, review, informational, pass, notApplicable |
| `Sarif.Level` | output/sarif.go:168-202 | the SARIF level of each result type: error, warning, note, and none for passes and skipped results |
| `Sarif.Description` | output/sarif.go:168-202 | the description of each result type |
| `Tap.AsTests` | output/tap.go:41-59 | one planned test per result, in order, carrying its message, "ok" exactly when asked |
| `Tap.Passes` | output/tap.go:62-67 | one "ok" test without a message per success |
| `Tap.Output` | output/tap.go:23-72 | the lines written are those of each file in turn, stopping at the first file whose plan is zero |
| `Tap.WriteFile` | output/tap.go:38-68 | the plan line "1..N", the failures, then each non-empty group of warnings, exceptions and successes under its "# …" header, numbered on from the counter |
| `Tap.WriteNumbered` | output/tap.go:41-59 | one numbered line per result from the counter on, and the counter advanced by their number |
| `Tap.WriteSuccesses` | output/tap.go:62-67 | one numbered "ok" line per success, and the counter advanced by their number |
| `Tap.NumberedSnoc` | output/tap.go:43 | numbering one more test appends its line with the next number |
| `Tap.TestLinesAppend` | output/tap.go:41-68 | the test lines of two listings are those of each, in order |
| `Tap.TestLinesNumbered` | output/tap.go:42-65 | numbered lines are all test lines, none is a "#" header |
| `Tap.TestLinesGroup` | output/tap.go:46-52 | dropping the header of a group leaves its numbered tests |
| `Tap.NumberedAppend` | output/tap.go:38-68 | numbering two runs of tests one after the other equals numbering their concatenation |
| `Tap.NumberedAt` | output/tap.go:41-68 | the i-th numbered line carries number start + i and the i-th test |
| `Tap.NumberedLength` | output/tap.go:41-68 | one line per test |
| `Tap.Numbering` | output/tap.go:33-68 | the first line is "1..N" with N = successes + failures + warnings + exceptions (skipped excluded); the test lines are numbered 1..N consecutively, restarting for every file, in the order failures, warnings, exceptions, successes; exactly exceptions and successes are "ok" |
| `Tap.NumberedTestLines` | output/tap.go:38-68 | without its headers a file's listing is its tests numbered from 1 |
| `Tap.GroupsTestLines` | output/tap.go:41-68 | the four groups, headers dropped, number the concatenated tests from 1 |
| `Tap.StripHeaders` | output/tap.go:46-63 | the headers of the three optional groups are the only lines dropped |
| `Tap.StopsAtEmptyPlan` | output/tap.go:34-36 | a file with an empty plan ends the output: whatever follows it is never written |
| `Tap.WritesEachFile` | output/tap.go:25-69 | while no plan is empty each file's lines are appended after those of the files before it |
| `Tap.Render` | output/tap.go:42-65 | "ok" or "not ok", the counter, the indicator and the message when there is one |
| `Tap.PlanCount` | output/tap.go:33 | the plan counts successes, failures, warnings and exceptions but not skipped results |
| `Tap.FileLines` | output/tap.go:39-68 | the plan line, the failures, then the headed warnings, exceptions and successes, numbered on from 1 |
| `Tap.TapLines` | output/tap.go:24-72 | every file's lines in order, stopping at the first file with nothing to plan |
| `GitHub.LocLinesCases` | output/github.go:92-113 | a result without a location is reported at the file, line 1; one in the same file at the policy's location only; one in another file at its relative location and again at the file, prefixed "(ORIGINATING FROM …)" |
| `GitHub.Output` | output/github.go:35-81 | the lines written are every file's group, in order, followed by the summary over the totals, skipped results counted as tests |
| `GitHub.WriteFile` | output/github.go:49-67 | a file's group: the header with the policy count, errors for failures, warnings, notices for exceptions, "Test was skipped:" notices, the success-count notice and "::endgroup::" |
| `GitHub.WriteIssues` | output/github.go:54-65 | one loop over a group writes exactly the location lines of its results, in order |
| `GitHub.Report` | output/github.go:115-117 | always an error |
| `GitHub.LocLinePrefix` | output/github.go:87-90 | every line writeLoc writes starts "::level file=" |
| `GitHub.LocLinesPrefix` | output/github.go:92-113 | every line writeLocs writes is a command of its level |
| `GitHub.IssueLinesShape` | output/github.go:54-65 | a group writes one command of its level per result, or two for a location in another file |
| `GitHub.CommandsWeaken` | output/github.go:88 | a command of some level is a workflow command |
| `GitHub.FileLinesShape` | output/github.go:53-67 | a file's group is its header, one or two commands per result, the success-count notice and the group end, in that order |
| `GitHub.FileLinesCommands` | output/github.go:53-67 | every line of a file's group is a workflow command |
| `GitHub.IssueCommands` | output/github.go:54-65 | every line of a group is a workflow command |
| `GitHub.HeaderAndTailCommands` | output/github.go:53-67 | the header, the success notice and the group end are workflow commands |
| `GitHub.CommandsOfParts` | output/github.go:53-67 | a group made of workflow commands is one |
| `GitHub.PrefixOfAppend` | output/github.go:53 | a line keeps its prefix when text is appended |
| `GitHub.CommandsAppend` | output/github.go:53-67 | two runs of commands written one after the other are commands |
| `GitHub.LocLine` | output/github.go:87-90 | "::level file=F,line=L::message" |
| `GitHub.LocLines` | output/github.go:92-113 | one line at the file location when the policy gives none, one at the policy's location in the same file, and two lines for a location in another file |
| `GitHub.IssueLines` | output/github.go:54-65 | the location lines of every result of one kind, in order |
| `GitHub.FileLines` | output/github.go:53-67 | one file's group: the header, failures, warnings, exceptions, skipped results, the success notice and "::endgroup::" |
| `GitHub.OutputLines` | output/github.go:36-81 | every file's group followed by the summary |
| `AzureDevOps.ResultLines` | output/azuredevops.go:39-53 | one line per result, in order: a task.logissue command of the loop's type, or a "skipped file=…" line |
| `AzureDevOps.Output` | output/azuredevops.go:26-100 | the lines written are every file's group, in order, followed by the summary over the totals, skipped results counted as tests and each "s" written exactly when its count is not one |
| `AzureDevOps.WriteFile` | output/azuredevops.go:35-65 | a file's lines: the section with the policy count (skipped included), the group start, failures as errors, warnings, exceptions as warnings, skipped lines, the success line only when there are successes, and the group end |
| `AzureDevOps.WriteResults` | output/azuredevops.go:39-53 | one loop over a group writes exactly that group's lines |
| `AzureDevOps.FileLinesCount` | output/azuredevops.go:37-65 | a file's group has three framing lines, one line per failure, warning, exception and skipped result, and the success line exactly when successes are positive, just before the group end |
| `AzureDevOps.ExceptionsAsWarnings` | output/azuredevops.go:47-49 | each exception is logged as a `type=warning` issue with its message |
| `AzureDevOps.Report` | output/azuredevops.go:102-104 | always an error |
| `AzureDevOps.FileLines` | output/azuredevops.go:35-65 | one file's section: the header, the group, an issue line per failure, warning and exception, the skipped lines, the success line when there are successes, and the group end |
| `AzureDevOps.OutputLines` | output/azuredevops.go:27-100 | every file's lines followed by the summary |
| `Table.KindRows` | output/table.go:37-51 | one row per result, in order, labelled with its kind, the file, the namespace and its message |
| `Table.SuccessRows` | output/table.go:33-35 | one "success"/"SUCCESS" row per counted success |
| `Table.Output` | output/table.go:26-60 | nothing is rendered when there are no rows; otherwise the fixed header result, file, namespace, message over every file's rows in order |
| `Table.WriteSuccesses` | output/table.go:33-35 | the loop appends exactly the success rows |
| `Table.WriteRows` | output/table.go:37-51 | one loop appends exactly the rows of its group |
| `Table.Report` | output/table.go:62-64 | always an error |
| `Table.RowCount` | output/table.go:32-51 | the rows number successes + exceptions + warnings + skipped + failures |
| `Table.RenderedIffTests` | output/table.go:54-57 | a table is rendered exactly when there is at least one test |
| `Table.FileRowsOrder` | output/table.go:32-51 | within a file rows come as successes, exceptions, warnings, skipped, failures, each labelled with the file and its namespace |
| `Table.FileRows` | output/table.go:33-51 | one file's rows: successes, exceptions, warnings, skipped, failures |
| `Table.AllRows` | output/table.go:32-52 | every file's rows in order |
| `JsonOutput.Cleaned` | output/json.go:29-35 | standard input's "-" becomes the empty file name, the query records are cleared, and every other field is unchanged |
| `JsonOutput.Prepare` | output/json.go:29-35 | the pre-pass rewrites every element of the results in place to its cleaned form, so count and order are kept |
| `JsonOutput.CleanedIdempotent` | output/json.go:29-35 | a second pre-pass changes nothing |
| `JsonOutput.Report` | output/json.go:51-53 | always an error |
| `Managers.GetOutputManager` | internal/commands/output.go:38-54 | each of "json", "tap", "table" and "junit" selects exactly its own manager, and every name outside the valid outputs falls back to the standard manager |
| `Managers.TraceLines` | internal/commands/output.go:111-113 | one blue TRAC line per trace, in order |
| `Managers.StandardOutputManager.constructor` | internal/commands/output.go:74-80 | a new manager has an empty buffer and the requested colouring |
| `Managers.StandardOutputManager.Put` | internal/commands/output.go:82-86 | Put only appends the result to the buffer; nothing is written |
| `Managers.StandardOutputManager.Flush` | internal/commands/output.go:88-186 | Flush writes the lines of every buffered result, a blank line and the coloured summary over the totals |
| `Managers.FlushResults` | internal/commands/output.go:95-140 | the loop writes every file's lines in order and accumulates the totals of the files that have policies |
| `Managers.FlushFile` | internal/commands/output.go:96-134 | a file's lines: "no policies found" when it has no successes, warnings or failures, else its traced successes, warnings, failures and exceptions with their traces |
| `Managers.PrintGroup` | internal/commands/output.go:116-134 | one loop over a group writes exactly the printed lines of its results, skipping untraced successes when asked |
| `Managers.PrintResults` | internal/commands/output.go:109-114 | a result's line followed by one TRAC line per trace |
| `Managers.NoPoliciesFound` | internal/commands/output.go:103-107 | a file without successes, warnings or failures is reported as "no policies found" and leaves the totals unchanged, even when it carries exceptions |
| `Managers.UntracedPassesSilent` | internal/commands/output.go:116-122 | successes without traces write no PASS line |
| `Managers.GroupLinesCount` | internal/commands/output.go:124-134 | every warning, failure and exception is written with one line for itself and one per trace |
| `Managers.FlushTotalsBound` | internal/commands/output.go:136-142 | the totals of successes, warnings and failures add up to the policies of the files that have any |
| `Managers.ToJsonResults` | internal/commands/output.go:241-263 | one JSON record per result, in order, keeping message, metadata and trace texts |
| `Managers.ToJson` | internal/commands/output.go:229-264 | standard input's "-" becomes the empty file name, and warnings, failures and successes are present (never null) lists holding each result's record (message, metadata, traces) in order; exceptions are not reported |
| `Managers.JsonOutputManager.constructor` | internal/commands/output.go:212-217 | a new manager holds no data |
| `Managers.JsonOutputManager.Put` | internal/commands/output.go:228-268 | Put appends exactly the converted record |
| `Managers.ConvertResults` | internal/commands/output.go:241-263 | one of Put's loops builds exactly the records of its group |
| `Managers.ErrsToStrings` | internal/commands/output.go:219-226 | the text of every trace, in order |
| `Managers.TapTracesAt` | internal/commands/output.go:317-319 | one "trace" line per trace, numbered from 1 under the result's counter |
| `Managers.TapPut` | internal/commands/output.go:304-347 | the lines written by Put: nothing when there is nothing to plan, else the plan, the failures, then the headed warnings and successes |
| `Managers.TapGroup` | internal/commands/output.go:326-342 | one loop numbers its results from one past the offset |
| `Managers.TapEntriesSnoc` | internal/commands/output.go:332-334 | one more result appends its entry with the next counter |
| `Managers.TapPrintResults` | internal/commands/output.go:313-321 | a result's test line, then "# Traces" and its trace lines only when it has traces |
| `Managers.TestLinesAppend` | internal/commands/output.go:313-343 | the test lines of two listings are those of each, in order |
| `Managers.TracesAreNotTests` | internal/commands/output.go:316-319 | neither "# Traces" nor a trace line is a test line |
| `Managers.TapEntryTests` | internal/commands/output.go:313-321 | a printed result holds exactly one test line, its own |
| `Managers.TapEntriesTests` | internal/commands/output.go:326-342 | the test lines of a loop are its results' lines numbered on from the start |
| `Managers.HeadsAppend` | internal/commands/output.go:326-342 | numbering two runs of results one after the other equals numbering their concatenation |
| `Managers.HeadsAt` | internal/commands/output.go:326-342 | the i-th test line carries counter start + i and the i-th result |
| `Managers.HeadsLength` | internal/commands/output.go:326-342 | one test line per result |
| `Managers.TapPutNumbering` | internal/commands/output.go:323-343 | the plan counts failures + warnings + successes, and the test lines after it are numbered 1..N consecutively: failures and warnings "not ok", then successes "ok" |
| `Managers.TapPutShape` | internal/commands/output.go:324-343 | after the plan come the failures, the headed warnings and the headed successes, each numbered on from the last |
| `Managers.ThreeParts` | internal/commands/output.go:326-342 | the test lines of three listings are those of each, in order |
| `Managers.HeaderGroupTests` | internal/commands/output.go:330-342 | a group's "#" header is not a test line |
| `Managers.TraceRows` | internal/commands/output.go:378-381 | one "trace" row per trace, in order |
| `Managers.TableOutputManager.constructor` | internal/commands/output.go:364-371 | a new table has no rows |
| `Managers.TableOutputManager.Put` | internal/commands/output.go:373-397 | Put appends the rows of the successes, warnings and failures with their traces; exceptions are not tabulated |
| `Managers.TableOutputManager.Flush` | internal/commands/output.go:399-406 | the table is rendered only when it has rows |
| `Managers.AppendGroup` | internal/commands/output.go:384-394 | one loop appends exactly the rows of its group |
| `Managers.TraceRowsOf` | internal/commands/output.go:378-381 | the inner loop appends exactly the trace rows |
| `Managers.GroupRowsShape` | internal/commands/output.go:375-394 | each tabulated result contributes its row and one row per trace, every row labelled with the group's kind or "trace" and with the file |
| `Managers.ConvertAll` | internal/commands/output.go:441-464 | one test per result, in order, named by the file and the message's first line, with the message and the traces as output |
| `Managers.JUnitOutputManager.constructor` | internal/commands/output.go:419-428 | a new manager has the package "conftest" and no tests |
| `Managers.JUnitOutputManager.Put` | internal/commands/output.go:430-466 | Put appends the tests of the warnings and failures (FAIL) and of the successes (PASS) |
| `Managers.ConvertGroup` | internal/commands/output.go:432-463 | one loop builds exactly the tests of its group |
| `Managers.TestNameShape` | internal/commands/output.go:441-447 | a test name is the file name, " - ", and a prefix of the message that holds no line break |
| `Managers.PutTestsStatus` | internal/commands/output.go:456-464 | Put appends one test per warning, failure and success, and a test fails exactly when it came from a warning or a failure |
| `Managers.FileLines` | internal/commands/output.go:96-134 | one buffered file's lines: "no policies found" or its traced successes, warnings, failures and exceptions |
| `Managers.FlushTotals` | internal/commands/output.go:136-142 | the totals of the files that have policies |
| `Managers.FlushLines` | internal/commands/output.go:89-186 | every file's lines, a blank line and the coloured summary |
| `Managers.TapPutLines` | internal/commands/output.go:305-347 | nothing when there is nothing to plan, else the plan and the numbered failures, warnings and successes |
| `Managers.ResultRows` | internal/commands/output.go:378-381 | a result's row followed by one row per trace |
| `Managers.PutRows` | internal/commands/output.go:374-397 | the rows of the successes, warnings and failures with their traces |
| `Managers.TestName` | internal/commands/output.go:441-447 | the file name, " - " and the first line of the message |
| `Managers.Convert` | internal/commands/output.go:432-454 | a test whose output is the message followed by the trace texts |
| `Managers.PutTests` | internal/commands/output.go:431-466 | one test per warning, failure and success, in that order |
| `Engine.TailShapedCons` | policy/engine.go:308-316 | a letter or digit in front of a segment tail keeps it well formed, and removing it keeps it well formed |
| `Engine.SegmentsIff` | policy/engine.go:308-316 | the anchored group `(_[a-zA-Z0-9]+)*` matches exactly the empty text or an underscore followed by letters, digits and single underscores that does not end in an underscore |
| `Engine.UnderscoreCons` | policy/engine.go:308-316 | an underscore before a letter or digit keeps a segment tail well formed both ways |
| `Engine.SegmentTailIff` | policy/engine.go:308-316 | the rest of a segment matches exactly when it is letters, digits and single underscores not ending in one |
| `Engine.IsWarningIff` | policy/engine.go:308-311 | a rule is a warning rule exactly when it is "warn" followed by well-formed `_segment`s |
| `Engine.IsFailureIff` | policy/engine.go:313-316 | a rule is a failure rule exactly when it is "deny" or "violation" followed by well-formed `_segment`s |
| `Engine.WarningIsNotFailure` | policy/engine.go:308-316 | no rule name is both a warning and a failure rule |
| `Engine.WarningNameExamples` | policy/engine.go:308-311 | "warn", "warn_x", "warn_1", "warn_x_y_z" are warning rules; "", "warnXYZ", "warn_" are not |
| `Engine.FailureNameExamples` | policy/engine.go:313-316 | "deny", "violation", "deny_x", "violation_1", "deny_x_y_z" are failure rules |
| `Engine.NotFailureNameExamples` | policy/engine.go:313-316 | "", "denyXYZ", "violationXYZ", "deny_", "violation_" are not failure rules |
| `Engine.FirstCharDiffers` | policy/engine.go:329-331 | a text does not start with a prefix whose first character differs from its own |
| `Engine.RemoveFailurePrefixStrips` | policy/engine.go:328-336 | "deny_" is removed first, otherwise "violation_", otherwise the name is unchanged; the removed prefix plus the result gives back the name |
| `Engine.ContainsFold` | policy/engine.go:318-326 | true exactly when some element equals the item up to letter case |
| `Engine.Namespaces` | policy/engine.go:81-93 | the loop returns the namespaces of the modules, "data." removed, in first-seen order, skipping case-insensitive repeats |
| `Engine.NamespacesDistinct` | policy/engine.go:81-93 | no two listed namespaces are equal up to letter case |
| `Engine.NamespacesCover` | policy/engine.go:81-93 | the namespace of every module is listed, up to letter case |
| `Engine.NamespacesFromModules` | policy/engine.go:81-93 | every listed namespace is the namespace of some module |
| `Engine.NamespacesKeepOrder` | policy/engine.go:81-93 | more modules only append namespaces; those listed keep their places |
| `Engine.SpecialRules` | policy/engine.go:161-166 | only warn, deny and violation rule heads are kept |
| `Engine.DedupFacts` | policy/engine.go:154-167 | the distinct rule names hold the same names as the heads, each once |
| `Engine.DedupIn` | policy/engine.go:154-167 | a name is among the distinct names exactly when it is among the heads |
| `Engine.CountModuleRules` | policy/engine.go:161-166 | the inner loop extends the distinct names and the occurrence counts by the special heads of one module |
| `Engine.CountRules` | policy/engine.go:154-167 | the rule map holds each special head of the namespace, each counted as often as it occurs |
| `Engine.CountedRules` | policy/engine.go:154-167 | every counted rule is a warning or failure rule, has a positive count, and appears once |
| `Engine.HeadsAreSpecial` | policy/engine.go:161-166 | every collected head is a warning or failure rule |
| `Engine.OtherNamespaceIgnored` | policy/engine.go:156-159 | a module of another namespace adds no rules |
| `Engine.Passed` | policy/engine.go:202-206 | the passed results are results without a message, in order |
| `Engine.Violations` | policy/engine.go:202-217 | the violating results are results with a message, in order |
| `Engine.Padding` | policy/engine.go:219-227 | the padding is blank successes bringing the total up to the rule's count, none when it is reached |
| `Engine.CollectExceptions` | policy/engine.go:179-191 | the exceptions are the message-less results of the exception query, labelled with that query |
| `Engine.Classify` | policy/engine.go:199-217 | blank results are successes; results with a message are dropped when excepted, else failures for a failure rule and warnings otherwise |
| `Engine.Pad` | policy/engine.go:225-227 | the loop appends the padding to the successes |
| `Engine.EvaluateRule` | policy/engine.go:172-232 | one rule: the exception query, then the rule query, errors wrapped as "query exception: " and "query input: " |
| `Engine.FiledAsEvaluated` | policy/engine.go:199-227 | the three loops of one rule produce exactly the filing of its results |
| `Engine.EvaluateCounts` | policy/engine.go:219-227 | a rule yields at least as many results as it occurs, and exactly that many when its queries gave fewer |
| `Engine.EvaluateClassifies` | policy/engine.go:199-217 | an exception suppresses every violation; otherwise violations are failures of a failure rule and warnings of any other rule; every success is blank |
| `Engine.PassedViolationsPartition` | policy/engine.go:202-217 | every result is either passed or violating, as multisets |
| `Engine.RelabelledFacts` | policy/engine.go:179-191 | one exception per blank exception result, in order, each with the query as its message |
| `Engine.EvalRulesFailSticks` | policy/engine.go:172-177 | the first rule whose query fails decides the error of the whole check |
| `Engine.CheckConfig` | policy/engine.go:149-236 | check returns the rule outcomes of every counted rule, gathered per kind, under the given path, or the first query error |
| `Engine.CheckCombined` | policy/engine.go:71-78 | the combined input is checked under the name "Combined", an error prefixed "combined query: " |
| `Engine.CheckDocsFailSticks` | policy/engine.go:44-48 | the first failing document decides the error |
| `Engine.CheckAllFailSticks` | policy/engine.go:45-62 | the first failing configuration decides the error |
| `Engine.CheckDocuments` | policy/engine.go:39-56 | each document of a multi-document configuration is checked and the results are gathered under its path, an error prefixed "check: " |
| `Engine.Check` | policy/engine.go:30-68 | one CheckResult per configuration, multi-document ones gathered, single ones checked directly |
| `Engine.CheckAllShape` | policy/engine.go:30-68 | on success there is exactly one result per configuration, in order, named by its path |
| `Engine.CheckConfigPath` | policy/engine.go:169-171 | a checked configuration carries its own path |
| `Engine.CheckDocsPath` | policy/engine.go:41-43 | the gathered documents carry the configuration's path |
| `Engine.CheckOneDoc` | policy/engine.go:39-56 | a single document is checked like a plain configuration |
| `Engine.CheckDocsAppend` | policy/engine.go:44-54 | checking `a + b` gives the results of `a` followed by those of `b`, field by field, and the first error |
| `Engine.MergeAssoc` | policy/engine.go:50-53 | gathering results field by field is associative |
| `Engine.IsWarning` | policy/engine.go:308-311 | the whole name is "warn" followed by zero or more segments of "_" and one or more ASCII letters or digits |
| `Engine.IsFailure` | policy/engine.go:313-316 | the whole name is "deny" or "violation" followed by zero or more segments of "_" and one or more ASCII letters or digits |
| `Engine.RemoveFailurePrefix` | policy/engine.go:328-336 | one leading "deny_" removed, else one leading "violation_", else the name unchanged |
| `Engine.NamespaceOf` | policy/engine.go:156 | the package path with its first "data." removed |
| `Engine.RuleHeads` | policy/engine.go:155-167 | the warn and deny rule heads of the modules in the namespace, repetitions kept |
| `Engine.Dedup` | policy/engine.go:164 | the distinct rule names in first-seen order |
| `Engine.Evaluate` | policy/engine.go:199-232 | how one rule's answers are filed: message-less ones pass, the rest fail or warn unless an exception was found, and blank successes pad up to the rule's count |
| `Engine.EvalRule` | policy/engine.go:173-197 | the exception query then the rule query, wrapped "query exception: " and "query input: " on error |
| `Engine.EvalRules` | policy/engine.go:172-233 | the rules evaluated in order, the first error ending the evaluation |
| `Engine.CheckConfigSpec` | policy/engine.go:149-236 | what check returns for one configuration |
| `Engine.Merge` | policy/engine.go:50-53 | one evaluation appended to the result gathered under the same path |
| `Engine.CheckDocs` | policy/engine.go:39-56 | the documents of a multi-document configuration checked one by one under one path, "check: " on error |
| `Engine.CheckAll` | policy/engine.go:30-68 | one CheckResult per configuration, in order, or the first error |
| `Engine.EvaluateRules` | policy/engine.go:169-228 | the rule loop of check: equal to EvalRules over the counted rules, stopping at the first error |
| `Engine.ExceptionQuery` | policy/engine.go:173 | "data.<namespace>.exception[_][_] == " and the quoted rule name without its failure prefix |
| `Engine.RuleQuery` | policy/engine.go:193 | "data.<namespace>.<rule>" |
| `TestRunner.StringInSlice` | internal/runner/test.go:290-298 | true exactly when the name is an element of the list |
| `TestRunner.CollectFailSticks` | internal/runner/test.go:117-126 | the first file whose stat or directory listing fails decides the error |
| `TestRunner.ParseFileList` | internal/runner/test.go:105-139 | empty names are skipped, "-" is kept, directories are expanded, plain files kept; stat and listing errors are wrapped; an empty result is the error "no files found" |
| `TestRunner.PlainFileList` | internal/runner/test.go:105-139 | without directories the non-empty names come back in order, and "no files found" when none is left |
| `TestRunner.FilesNotEmpty` | internal/runner/test.go:134-136 | a successful parse never yields an empty list |
| `TestRunner.FilterExceptionsFiles` | internal/runner/test.go:319-335 | the rule's violations and successes, the exception query's successes as exceptions, no violations once any exception is found; errors wrapped "run query: " and "exception query: " |
| `TestRunner.RunMultipleFailSticks` | internal/runner/test.go:305-309 | the first failing document decides the error |
| `TestRunner.RunMultipleQueries` | internal/runner/test.go:300-317 | the filtered answers of every document, concatenated in order |
| `TestRunner.RunMultipleViolations` | internal/runner/test.go:300-335 | a document's violations are kept exactly when its own exception query found nothing |
| `TestRunner.KindRulesMatch` | internal/runner/test.go:223-228 | only rule heads that match the queried pattern are kept |
| `TestRunner.CollectModuleRules` | internal/runner/test.go:223-234 | the inner loop counts every matching head and adds each new name once |
| `TestRunner.CollectRules` | internal/runner/test.go:215-235 | the distinct matching rule names of the namespace in first-seen order and the number of matching heads |
| `TestRunner.RunEachFailSticks` | internal/runner/test.go:255-266 | the first rule whose queries fail decides the error |
| `TestRunner.RunOneRule` | internal/runner/test.go:248-270 | a list input is queried document by document ("run multiple queries: "), any other input at once ("run query: ") |
| `TestRunner.RunEachRule` | internal/runner/test.go:247-271 | the answers of every distinct rule, concatenated in order |
| `TestRunner.RunRules` | internal/runner/test.go:214-278 | runRules: every distinct rule queried, then blank successes up to one test per head (times the documents of a list) |
| `TestRunner.RunRulesCounts` | internal/runner/test.go:237-275 | at least the expected number of tests come back, and exactly that many when the queries gave fewer |
| `TestRunner.QueriedRules` | internal/runner/test.go:231-233 | each matching rule name is queried once, however many heads it has |
| `TestRunner.GetResultFailSticks` | internal/runner/test.go:185-195 | the first failing namespace decides the error |
| `TestRunner.GetResult` | internal/runner/test.go:179-212 | the warn and deny outcomes of every namespace gathered in order |
| `TestRunner.OneNamespace` | internal/runner/test.go:185-209 | for one namespace warnings are the warn rules' violations, failures the deny rules', and exceptions and successes come from both, warn first |
| `TestRunner.CollectFiles` | internal/runner/test.go:105-133 | the files named so far, directories expanded, before the emptiness check |
| `TestRunner.FilterExceptions` | internal/runner/test.go:319-335 | the rule's violations and successes and the exception query's successes as exceptions, the violations dropped when an exception was found |
| `TestRunner.RunMultiple` | internal/runner/test.go:300-317 | one filtered query per document, concatenated, or the first error |
| `TestRunner.KindRules` | internal/runner/test.go:223-228 | the rule heads of one module that match the queried pattern, in order |
| `TestRunner.RunRule` | internal/runner/test.go:248-270 | one rule queried document by document for a list input, at once otherwise |
| `TestRunner.RunEach` | internal/runner/test.go:247-271 | the rules queried in order, the first error ending the loop |
| `TestRunner.RunRulesSpec` | internal/runner/test.go:214-278 | what runRules returns |
| `TestRunner.GetResultSpec` | internal/runner/test.go:179-212 | the warn and deny outcomes of the namespaces gathered in order |
| `TestRunner.NamespaceStep` | internal/runner/test.go:185-209 | one namespace: the warn rules first, then the deny rules |
| `TestRunner.FileListSpec` | internal/runner/test.go:105-139 | the collected files, or "no files found" when none is left, or the first stat or listing error |
| `TestRunner.ExpectedTests` | internal/runner/test.go:237-242 | one test per matching rule head, times the number of documents for a list input |
| `TestRunner.RunNamespace` | internal/runner/test.go:186-209 | one pass of the namespace loop: equal to NamespaceStep |
| `Verify.EnableTracing` | runner/verify.go:43-44 | tracing is on exactly when the trace flag is set or the report option is "full", "notes" or "fails" |
| `Verify.NonEmptyLines` | runner/verify.go:73-77 | only non-empty lines of the trace are kept |
| `Verify.TraceLines` | runner/verify.go:70-77 | the loop keeps the non-empty lines of the trace text, in order |
| `Verify.TraceLinesClean` | runner/verify.go:73-77 | every trace line is non-empty and holds no line break |
| `Verify.ToCheckResult` | runner/verify.go:79-100 | a test's CheckResult is named by its file and holds one query named by the test |
| `Verify.Classified` | runner/verify.go:79-100 | a failed test is one failure, else a skipped one is one skipped result, else one success; only failed or skipped tests carry the message package.name |
| `Verify.RunFailSticks` | runner/verify.go:64-67 | the first test carrying an error decides the run's error |
| `Verify.Run` | runner/verify.go:62-105 | the loop returns the CheckResults and the raw results, or "run test: " and the first error |
| `Verify.RunShape` | runner/verify.go:62-105 | the run fails exactly when some test carries an error; otherwise one CheckResult per test in order, and the raw results are the tests |
| `Verify.EveryTestCounted` | runner/verify.go:94-100 | every test counts exactly once in the printed totals |
| `Verify.IsReportOptionOn` | runner/verify.go:109-113 | the report option is "full", "notes" or "fails" |
| `Verify.RunSpec` | runner/verify.go:62-105 | the CheckResults and raw results of the tests, or "run test: " and the first error |
| `Parser.New` | parser/parser.go:77-133 | a known name gives the parser of that name; any other name is the error "unknown parser: " and the name |
| `Parser.NewKnowsEveryKind` | parser/parser.go:77-133 | every parser is reached by its own name |
| `Parser.NewIff` | parser/parser.go:77-133 | New succeeds exactly on the twenty parser names |
| `Parser.TrimTrailingSlashes` | parser/parser.go:167 | the base name is taken after trailing slashes are removed: the result is a prefix of the path not ending in "/" |
| `Parser.DotSuffix` | parser/parser.go:169-172 | the extension is empty exactly when there is no dot, otherwise it is the suffix from the last dot |
| `Parser.Ext` | parser/parser.go:169-172 | an extension starts with its only dot and holds no "/" |
| `Parser.StdinIsYaml` | parser/parser.go:162-165 | standard input "-" is parsed as YAML |
| `Parser.ChooseParserRules` | parser/parser.go:174-211 | the Dockerfile rule comes first, then YAML, HCL2, ignore files, dotenv and text protocol buffers; any other extension must name a parser, else "new: unknown parser: " |
| `Parser.FileSupportedIff` | parser/parser.go:242-245 | a path is supported exactly when it is "-", a Dockerfile or dotenv name, or has a known extension |
| `Parser.ExtIgnoresDirectory` | parser/parser.go:169-172 | the extension comes from the last path element only |
| `Parser.LessIrreflexive` | parser/parser.go:304-306 | no path sorts before itself |
| `Parser.LessTransitive` | parser/parser.go:304-306 | the path order is transitive |
| `Parser.LessTotal` | parser/parser.go:304-306 | of two different paths one sorts before the other |
| `Parser.NotLessTransitive` | parser/parser.go:304-306 | "not before" is transitive |
| `Parser.LessAsymmetric` | parser/parser.go:304-306 | two paths never sort before each other |
| `Parser.Insert` | parser/parser.go:304-306 | inserting an entry adds exactly that entry |
| `Parser.InsertSorted` | parser/parser.go:304-306 | inserting into a sorted sequence keeps it sorted |
| `Parser.EntriesOf` | parser/parser.go:281-298 | a multi-document configuration gives one entry per document under its path, any other one entry |
| `Parser.AppendDocuments` | parser/parser.go:283-291 | the inner loop appends one entry per document, in order |
| `Parser.AppendEntries` | parser/parser.go:281-298 | one configuration appends its entries |
| `Parser.CombineConfigurations` | parser/parser.go:274-311 | the only key is "Combined" and its value holds every document of every configuration, sorted by path |
| `Parser.SortByPath` | parser/parser.go:302-306 | the sort returns a permutation of the entries sorted by path |
| `Parser.FlattenCount` | parser/parser.go:281-298 | the number of combined entries is the number of documents, a non-list configuration counting one |
| `Yaml.Separator` | parser/yaml/yaml.go:39-45 | the separator is "\r\n---\r\n" when the data holds a CRLF, else "\n---\n" |
| `Yaml.SubDocumentCases` | parser/yaml/yaml.go:38-69 | without a "%" directive the pieces of the split, or the data itself for no separator; with a directive the data itself for at most one separator, else the directive glued to the first document |
| `Yaml.JoinFirstTwo` | parser/yaml/yaml.go:57-59 | gluing the first two pieces back with the separator does not change their join |
| `Yaml.SubDocumentsRoundTrip` | parser/yaml/yaml.go:38-69 | there is always at least one subdocument, and joining them with the separator gives back the input |
| `Yaml.SubDocumentsFree` | parser/yaml/yaml.go:48-68 | without a directive no subdocument holds the separator |
| `Yaml.DecodeFailSticks` | parser/yaml/yaml.go:73-77 | the first subdocument that fails to decode decides the error |
| `Yaml.UnmarshalMultipleDocuments` | parser/yaml/yaml.go:71-92 | the loop decodes every subdocument into a list of values, an error prefixed "unmarshal subdocument yaml: " |
| `Yaml.Unmarshal` | parser/yaml/yaml.go:21-36 | several subdocuments are decoded one by one ("unmarshal multiple documents: "); a single one is decoded whole ("unmarshal yaml: ") |
| `Yaml.DecodeAllShape` | parser/yaml/yaml.go:71-80 | decoding fails exactly when some subdocument fails; otherwise one value per subdocument, in order |
| `Yaml.UnmarshalShape` | parser/yaml/yaml.go:21-36 | a single subdocument is decoded whole; several become a list with one value per subdocument, failing exactly when one of them fails |
| `Yaml.SeparateSubDocuments` | parser/yaml/yaml.go:38-69 | the data split on its separator; a leading "%" directive keeps the first two pieces together |
| `Yaml.DecodeAll` | parser/yaml/yaml.go:71-92 | every subdocument decoded in order, "unmarshal subdocument yaml: " and the first error otherwise |
| `Yaml.UnmarshalSpec` | parser/yaml/yaml.go:21-36 | several subdocuments become a list of decoded values; a single one is decoded whole |
| `Edn.Size` | parser/edn/edn.go:38-49 | every value has a positive size |
| `Edn.SizeList` | parser/edn/edn.go:22-28 | each element of a list is smaller than the list |
| `Edn.SizeEntry` | parser/edn/edn.go:30-36 | key and value are smaller than their map entry |
| `Edn.SizeEntries` | parser/edn/edn.go:30-36 | each entry is smaller than the map |
| `Edn.Clean` | parser/edn/edn.go:38-49 | lists stay lists of the same length, maps become maps, strings stay, anything else becomes its printed form |
| `Edn.CleanList` | parser/edn/edn.go:22-28 | each element is cleaned in place |
| `Edn.CleanMap` | parser/edn/edn.go:30-36 | the keys are the printed keys of the entries |
| `Edn.CleanMapLastWins` | parser/edn/edn.go:30-36 | a key printed only once maps to its own cleaned value |
| `Edn.CleanHasStringLeaves` | parser/edn/edn.go:38-49 | a cleaned value holds only strings, lists and string-keyed maps |
| `Edn.CleanMapLeaves` | parser/edn/edn.go:30-36 | a cleaned map's values hold only strings, lists and string-keyed maps |
| `Edn.CleanupInterfaceArray` | parser/edn/edn.go:22-28 | the loop cleans each element in place |
| `Edn.CleanupInterfaceMap` | parser/edn/edn.go:30-36 | the loop stores each cleaned value under its printed key |
| `Edn.CleanupMapValue` | parser/edn/edn.go:38-49 | the method returns the cleaned value |
| `Edn.Parse` | parser/edn/edn.go:14-20 | a decoding error is "unmarshal EDN: " and the error; otherwise one cleaned document |
| `Edn.ParsedIsClean` | parser/edn/edn.go:14-20 | a parsed document holds only strings, lists and string-keyed maps |
| `Edn.Show` | parser/edn/edn.go:47 | the printed form of a value |
| `Edn.StringLeaves` | parser/edn/edn.go:38-49 | only strings, lists and string-keyed maps remain |
| `OciDetector.LocalRegistryOneDigit` | downloader/oci_detector.go:49-53 | the local-registry pattern matches exactly when "::1", "127.0.0.1" or "localhost" (any case) is followed by ":" and a digit |
| `OciDetector.GetRepositoryFromURL` | downloader/oci_detector.go:65-74 | ":latest" is added exactly when the last path segment holds no ":" |
| `OciDetector.RepositoryHasTag` | downloader/oci_detector.go:65-74 | the result always has a tag in its last segment |
| `OciDetector.RepositoryIdempotent` | downloader/oci_detector.go:65-74 | adding the default tag twice is adding it once |
| `OciDetector.SplitSlashCount` | downloader/oci_detector.go:56-57 | splitting on "/" gives two or more parts exactly when the text holds a "/" |
| `OciDetector.DetectHTTP` | downloader/oci_detector.go:55-63 | a source without "/" is the error "URL is not a valid registry URL"; otherwise "oci://" and the tagged repository |
| `OciDetector.Detect` | downloader/oci_detector.go:14-29 | an empty source, or one that matches no registry pattern (`.` never matching a line feed, so a name split across lines is not recognised), is not detected; a matching source becomes "oci://" and its tagged repository when it holds a "/", and fails with "detect http: " otherwise |
| `OciDetector.DetectedIsTagged` | downloader/oci_detector.go:14-29 | a detected source comes back as an "oci://" URL whose last segment has a tag |
| `OciDetector.MatchDotted` | downloader/oci_detector.go:33-37 | a pattern of literal characters and `.` matching at a position, `.` matching any character but a line feed |
| `OciDetector.MatchDottedOneLine` | downloader/oci_detector.go:33-37 | a match of a registry pattern never spans a line feed |
| `OciDetector.ContainsOCIRegistry` | downloader/oci_detector.go:31-47 | Azure, Google and GitLab names anywhere, an ECR name anywhere, a Quay name at the start |
| `OciDetector.FoldsTo` | downloader/oci_detector.go:50 | `(?i:localhost)` accepts each letter in either case, and also the long s U+017F for "s" |
| `OciDetector.LocalhostFoldAscii` | downloader/oci_detector.go:50 | on ASCII text the case-insensitive "localhost" is exactly strings.EqualFold with "localhost" |
| `OciDetector.ContainsLocalRegistry` | downloader/oci_detector.go:49-53 | "::1", "127.0.0.1" or "localhost" in any case, then ":" and one to five digits, anywhere in the source |
| `OciDetector.AzureGcrExamples` | downloader/oci_detector_test.go:11-20 | the Azure and Google sources of the detector tests match the registry patterns |
| `OciDetector.GitlabQuayExamples` | downloader/oci_detector_test.go:26-55 | the GitLab and Quay sources of the detector tests match the registry patterns |
| `OciDetector.LocalRegistryExamples` | downloader/oci_detector_test.go:46-70 | "localhost:5000/policies" and "::1:32123/policies:tag" match the local pattern |
| `OciDetector.EcrName` | downloader/oci_detector.go:36 | twelve digits, ".dkr.ecr.", a region of lower-case letters, digits and "-", then ".amazonaws.com" is recognised, whatever follows |
| `OciDetector.EcrExample` | downloader/oci_detector_test.go:21-25 | the ECR source of the detector tests matches the registry patterns |
| `OciDetector.QuayAnchored` | downloader/oci_detector.go:37 | "x.quay.io/p" is not recognised: the Quay pattern only matches at the start |
| `OciDetector.NewlineNotDetected` | downloader/oci_detector.go:14-47 | "gcr\nio/x" matches no pattern, as `.` does not match a line feed, so it is not detected |
| `OciDetector.RegistryExtends` | downloader/oci_detector.go:31-47 | text added after a recognised source keeps it recognised |
| `OciDetector.LocalRegistryExtends` | downloader/oci_detector.go:49-53 | text added after a local-registry source keeps it recognised |
| `Network.Hostname` | internal/network/network.go:8-24 | the host is a prefix of the reference without "oci://" |
| `Network.HostnameCut` | internal/network/network.go:8-24 | the cut is at the first ":" unless a "/" comes before it; without either the whole stripped reference is the host |
| `Network.BeforeFirst` | internal/network/network.go:11-12 | nothing before the first occurrence of a character is that character |
| `Network.HostnameClean` | internal/network/network.go:8-24 | the host holds neither ":" nor "/" |
| `Network.IsLoopback` | internal/network/network.go:26-44 | true exactly for the four loopback names or when the lookup succeeds with some loopback address |
| `Network.IsLoopbackName` | internal/network/network.go:27-30 | "localhost", "127.0.0.1", "::1" and "0:0:0:0:0:0:0:1" need no lookup |
| `Metadata.SectionEqualIgnores` | document/metadata.go:70-78 | equality of sections looks only at heading, package name and title, so depth and other annotations do not matter |
| `Metadata.RunFailSticks` | document/metadata.go:109 | the first entry whose depth is negative ends the conversion |
| `Metadata.ConvertAnnotationsToSections` | document/metadata.go:85-121 | the loop returns the sections of the entries, or the negative-repeat error |
| `Metadata.RunShape` | document/metadata.go:85-121 | the conversion succeeds exactly when no path is shorter than the offset; then one section per entry, in order, named without "data.", headed by as many "#" as its depth, the first depth at most 1 |
| `Metadata.OffsetOfInit` | document/metadata.go:96-98 | the offset is fixed by the first entry alone |
| `Metadata.StepShape` | document/metadata.go:92-117 | one step keeps those promises and fails exactly on a path shorter than the offset |
| `Metadata.DepthSmoothed` | document/metadata.go:103-105 | a heading is never more than one level below the previous one |
| `Metadata.SectionEqual` | document/metadata.go:70-78 | two sections are equal when heading, package name and title are |
| `Metadata.Step` | document/metadata.go:92-117 | one entry: its depth, smoothed to at most one below the previous, and its section |
| `Metadata.Run` | document/metadata.go:91-118 | the loop over a prefix of the annotation set |
| `PluginCache.ConvertURLToValidPath` | plugin/cache.go:53-58 | the directory name holds no "/" and no "." |
| `PluginCache.ConvertKeepsPlainURL` | plugin/cache.go:53-58 | without "://", every "/" and "." becomes "-" and every other character stays in place |
| `PluginCache.SchemeSeparatorFirst` | plugin/cache.go:54 | in a scheme, "://" and a rest, with no "://" in the scheme, the first "://" is the one after the scheme |
| `PluginCache.ConvertScheme` | plugin/cache.go:53-58 | a URL made of a scheme, "://" and a rest, neither holding "://", becomes the scheme and the rest, each with every "/" and "." turned into "-", joined by one "-" (the shape of the https URL in plugin/cache_test.go:31-34) |
| `PluginCache.PluginDirInCache` | plugin/cache.go:48-51 | the plugin directory is one entry directly inside the cache directory |
| `PluginCache.CheckIfURLInCacheAsWritten` | plugin/cache.go:40-46 | as written, the check is true only when os.Stat reports "already exists" |
| `PluginCache.CacheNeverHitAsWritten` | plugin/cache.go:40-46 | no os.Stat result reports "already exists", so the check as written is never true |
| `PluginCache.CheckIfURLInCache` | plugin/cache.go:40-46 | as intended, the check is true exactly when os.Stat succeeds |
| `PluginCache.PresentPluginMissedAsWritten` | plugin/cache.go:40-51 | for an existing plugin directory the intended check finds it and the check as written does not |
| `PluginCache.Dash` | plugin/cache.go:55-56 | every "/" and "." turned into "-" |
| `PluginCache.GetPluginDirPath` | plugin/cache.go:48-51 | the cache directory joined with the converted URL |
| `Plugin.Prepare` | plugin/plugin.go:25-38 | an empty program is the error "prepare plugin command: no command found"; otherwise the program and its arguments contain no space and joined with spaces give back the expanded command |
| `Plugin.SplitFacts` | plugin/plugin.go:26-27 | splitting on spaces round-trips, yields pieces free of spaces, and the first piece is empty exactly when the text is empty or starts with a space |
| `Plugin.ExecOutcome` | plugin/plugin.go:96-127 | a command that cannot be prepared is "plugin exec prepare: "; otherwise the process runs with the command's arguments then the caller's, and Exec succeeds exactly on a normal exit or exit status 1 |
| `Plugin.Exec` | plugin/plugin.go:96-127 | the command prepared with CONFTEST_PLUGIN_DIR set, then run with the caller's arguments appended; exit status 1 is no error |
| `Xdg.Writable` | plugin/xdg.go:55-82 | a path that cannot be stat-ed is not writable; a world-writable one is |
| `Xdg.WritableIff` | plugin/xdg.go:55-82 | writable exactly when world-writable, or owned by the user and owner-writable, or of the user's group and group-writable |
| `Xdg.FirstWritable` | plugin/xdg.go:38-45 | the first writable directory, all before it not writable; none when no directory is |
| `Xdg.PickDataDir` | plugin/xdg.go:38-45 | the loop finds the first writable directory |
| `Xdg.Preferred` | plugin/xdg.go:28-48 | without a current user the home directory; otherwise the first writable of XDG_DATA_HOME and XDG_DATA_DIRS, else the home directory |
| `Xdg.FirstWritableSkip` | plugin/xdg.go:34-45 | skipping a non-writable XDG_DATA_HOME shifts the choice by one |
| `Xdg.SearchDataDirs` | plugin/xdg.go:103-114 | the loop returns the first existing directory, an error other than "does not exist", or nothing |
| `Xdg.FirstPresent` | plugin/xdg.go:91-114 | the first candidate whose directory is not reported missing, every one before it reported missing; none when all are missing |
| `Xdg.SearchDirsFirstPresent` | plugin/xdg.go:103-114 | the search of XDG_DATA_DIRS is decided by the first directory not reported missing: found when it exists, its "get data dirs directory" error otherwise; nothing found when every directory is missing |
| `Xdg.FirstPresentSkip` | plugin/xdg.go:92-101 | skipping a missing XDG_DATA_HOME shifts the deciding candidate by one |
| `Xdg.HomeFind` | plugin/xdg.go:117-127 | the home fallback fails with "get home dir" when the home directory is unknown and succeeds only with a directory that exists |
| `Xdg.Find` | plugin/xdg.go:91-128 | among XDG_DATA_HOME and then the directories of XDG_DATA_DIRS, the first candidate not reported missing decides: its directory when it exists, otherwise its stat error wrapped as "get data home directory" for XDG_DATA_HOME and "get data dirs directory" for the others; when all are missing, the home fallback; and every directory returned exists |
| `Xdg.HomeDir` | plugin/xdg.go:50-53 | homeDir: the application directory and path joined under the home directory, the lookup's error dropped |
| `Xdg.HomeDirShape` | plugin/xdg.go:50-53 | with a known home the result is home/app/path; when the home lookup fails, its error is ignored and the result is the relative path app/path |
| `Xdg.Candidates` | plugin/xdg.go:34-45 | XDG_DATA_HOME when set, then each ":"-separated entry of XDG_DATA_DIRS when set, in order |
| `Xdg.SearchDirs` | plugin/xdg.go:103-114 | the first data directory whose application path exists, the first stat error other than "not exist" wrapped "get data dirs directory: ", or nothing when every one is missing |
| `PolicyRepo.GetRepositoryFromPolicy` | pkg/policy/policy.go:57-68 | a repository that names a tag is kept; otherwise the policy's tag, or "latest" when that is empty, is added |
| `PolicyRepo.PolicyRepositoryTagged` | pkg/policy/policy.go:57-73 | with a tag free of "/" the result names a tag, and asking again changes nothing |
| `PolicyRepo.SlashInTagHidesTag` | pkg/policy/policy.go:57-73 | a tag holding "/" gives a reference whose last segment has no tag |
| `PolicyRepo.SameAsDetector` | pkg/policy/policy.go:57-73 | without a tag the result is the same as the OCI detector's default tagging |
| `RepoUtil.LastSegmentStart` | util/repository.go:7-8 | the last segment starts at the beginning or right after a "/" |
| `RepoUtil.TagFromSegment` | util/repository.go:6-9 | a ":" in the last segment has no "/" after it |
| `RepoUtil.SegmentFromTag` | util/repository.go:6-9 | a ":" with no "/" after it lies in the last segment |
| `RepoUtil.ContainsTagIff` | util/repository.go:6-9 | a name contains a tag exactly when some ":" has no "/" after it |
| `Parser.NoExtensionIsYaml` | parser/parser.go:169-184 | a path without an extension is read as YAML unless its name makes it a Dockerfile |
| `Parser.ChooseParser` | parser/parser.go:174-211 | the parser chosen from the lowercased base name and extension: Dockerfile names, then the extension table, dotenv names, text protocol buffers, and otherwise the parser named by the extension or "new: " and its error |
| `Parser.NewFromPath` | parser/parser.go:159-212 | standard input is YAML; any other path goes through the choice on its base name and extension |
| `Parser.FileSupported` | parser/parser.go:242-245 | a path is supported when a parser can be chosen for it |
| `Parser.Flatten` | parser/parser.go:281-298 | every document of every configuration, in configuration order |
| `Parser.Base` | parser/parser.go:167 | filepath.Base: the last "/"-separated element after trailing slashes are removed |
| `Parser.FileExtension` | parser/parser.go:169-172 | the lowercased extension without its dot, or "yml" when the path has none |
| `Parser.IsDockerfileName` | parser/parser.go:178 | the name is "dockerfile", starts with "dockerfile.", or the extension is "dockerfile" |
| `Parser.IsDotenvName` | parser/parser.go:198 | the name is ".env", starts with ".env.", or the extension is "env" |
| `RepoUtil.PathHidesPort` | util/repository.go:6-9 | a port in the host is no tag once a path without ":" follows it |
| `RepoUtil.TagAfterLastSlash` | util/repository.go:6-9 | a tag free of "/" at the end is always seen, with or without a port before it |
| `RepoUtil.RepositoryNameContainsTag` | util/repository.go:6-9 | the last "/"-separated segment holds a ":" |

## Left out

Evaluation, I/O and concurrency:
- Rego compilation and evaluation (`Engine.query`, `Runtime`, the OPA tester): a function parameter that returns results or an error.
- Loading policies, reading files and standard input, walking directories (`getFilesFromDirectory`), `os.Stat`, `user.Current`, `os.UserHomeDir`, `os.ExpandEnv`, DNS lookups, running plugin processes: all are parameters or left out, because they are I/O.
- `Standard.Report`: it feeds results through a goroutine and a channel, and concurrency is outside the model.
- Go map iteration order: configurations, rule counts and modules are sequences in a fixed order.

Presentation and encoding:
- Terminal colours are an enumeration. ANSI escapes, tablewriter box drawing, JSON indentation and encoding, and the JUnit XML encoding are not modelled.
- SARIF timestamps (`time.Now`) are not modelled, because they are clock readings.
- GitHub log commands: writeLoc builds the whole command (the file name, the line, the relative path of "(ORIGINATING FROM …)" and the message) and writeLn hands it to `fmt.Fprintf` as the format string (output/github.go:84-88, 105-112). A `%` in any of these parts would be read as a verb; the model writes every part as plain text.
- Quoting (`%q`): double quotes, backslashes, newlines, tabs and carriage returns are escaped. Go's other escapes (other control characters, non-printable runes as `\x`/`\u` sequences) are not modelled.
- `fmt.Sprintf("%v", ...)` of an EDN scalar: the decoded scalar carries its printed form. Lists and maps print in `%v` shape with their entries in decoded order; Go's sorting of map keys when printing is not modelled. When two keys print alike, the later entry wins, though Go's map iteration picks either.

Output manager Flush methods:
- `JsonOutputManager.Flush`, `JUnitOutputManager.Flush`: their work is JSON or XML encoding of the buffered data, which is not modelled.
- TAP manager `Flush`: a no-op, modelled by its absence.

Library simplifications:
- `strings.EqualFold` and `strings.ToLower` act on ASCII letters only. Unicode case folding (for example the Kelvin sign) is not modelled for them. The `(?i:localhost)` of the local-registry pattern is the exception: it follows RE2's folding, which for these letters adds only the long s U+017F.
- `filepath.Join`: non-empty elements joined by "/". Lexical cleaning of "..", "." and repeated slashes is not modelled.
- `filepath.ToSlash`: the identity, as on Unix.
- `sort.Slice`: an insertion sort. The contract states sorted and a permutation, which is all that `sort.Slice` promises.
- `yaml.Marshal` then `yaml.Unmarshal` in `unmarshalMultipleDocuments`: taken as the identity on the decoded list, so the marshal error branch is not modelled.
- `output.Result` helpers missing from these source files (`QueryResult.Passed`, `Location.String`, the `plural` helper): modelled from how the formatters use them. `Passed` is "no message".

Not modelled operations:
- `New("textproto")`: proto file discovery is file-system I/O. The model returns the parser kind without loading protos.
- Third-party format parsers: only the kind is chosen.
- `internal/runner/test.go` calls an older engine `Query(ctx, query, input)` that returns violations and successes. That interface is the parameter `TestRunner.Query`.
- `createPluginCacheDir`, `fetchHomeDir`, `Download`, `LoadPlugin`, `FindPlugins`, `DownloadPolicy`, and the `Plugin.Set*` setters: file-system and network I/O, or plain field assignment.
- The DNS branch of `IsLoopback`: the resolver is a parameter that returns, for each address, whether it is a loopback address.
- `Metadata.ConvertAnnotationsToSections`: the panic of `strings.Repeat` on a negative depth is an error outcome, because a panic is not a value.

## Findings

| source | as written | input that shows it | evidently intended | confidence | as-written member | corrected member |
|---|---|---|---|---|---|---|
| plugin/cache.go:40-46 | `checkIfURLInCache` tests `os.IsExist` on the error of `os.Stat`. `os.Stat` never reports "already exists", so the check is never true and a cached plugin is downloaded again. | any existing plugin directory: `os.Stat` returns no error, and `os.IsExist(nil)` is false | the directory is in the cache when `os.Stat` succeeds | not executed | `PluginCache.CheckIfURLInCacheAsWritten` (with `PluginCache.CacheNeverHitAsWritten`, `PluginCache.PresentPluginMissedAsWritten`) | `PluginCache.CheckIfURLInCache` |
