/** The Azure DevOps formatter (output/azuredevops.go): a section and a
    collapsible group per file holding logging commands, then the summary. */
module AzureDevOps {
  import opened Wrappers
  import opened Strs
  import Results
  import opened Reports
  import Lines

  /** Every policy counts, skipped ones included. */
  function PolicyCount(cr: CheckResult): nat {
    cr.successes + |cr.failures| + |cr.warnings| + |cr.exceptions| + |cr.skipped|
  }

  function Section(cr: CheckResult): string {
    "##[section]Testing '" + cr.fileName + "' against " + NatToString(PolicyCount(cr)) + " policies in namespace '" + cr.namespace + "'"
  }

  const GroupStart := "##[group]See conftest results"
  const GroupEnd := "##[endgroup]"

  /** A task.logissue command of the given type. */
  function Issue(kind: string, fileName: string, message: string): string {
    "##vso[task.logissue type=" + kind + "] file=" + fileName + " --> " + message
  }

  function SkippedLine(fileName: string, message: string): string {
    "skipped file=" + fileName + " " + message
  }

  function SuccessLine(fileName: string, successes: nat): string {
    "success file=" + fileName + " " + NatToString(successes)
  }

  /** An issue of `kind`, or a skipped line when `kind` is empty. */
  function LineFor(kind: string, fileName: string, r: Results.Result): string {
    if kind == "" then SkippedLine(fileName, r.message) else Issue(kind, fileName, r.message)
  }

  /** One loop over a result list. */
  function ResultLines(kind: string, fileName: string, rs: seq<Results.Result>): (ls: seq<string>)
    ensures |ls| == |rs|
    ensures forall i :: 0 <= i < |rs| ==> ls[i] == LineFor(kind, fileName, rs[i])
  {
    seq(|rs|, i requires 0 <= i < |rs| => LineFor(kind, fileName, rs[i]))
  }

  /** The lines written for one file; exceptions are logged as warnings. */
  function FileLines(cr: CheckResult): seq<string> {
    [Section(cr), GroupStart]
    + ResultLines("error", cr.fileName, cr.failures)
    + ResultLines("warning", cr.fileName, cr.warnings)
    + ResultLines("warning", cr.fileName, cr.exceptions)
    + ResultLines("", cr.fileName, cr.skipped)
    + (if cr.successes > 0 then [SuccessLine(cr.fileName, cr.successes)] else [])
    + [GroupEnd]
  }

  function AllFileLines(rs: seq<CheckResult>): seq<string> {
    if rs == [] then [] else AllFileLines(rs[..|rs| - 1]) + FileLines(rs[|rs| - 1])
  }

  /** What AzureDevOps.Output writes. */
  function OutputLines(rs: seq<CheckResult>): seq<string> {
    AllFileLines(rs) + [Lines.SummaryText(TotalTests(rs), TotalSuccesses(rs), TotalWarnings(rs), TotalFailures(rs), TotalExceptions(rs))]
  }

  /** AzureDevOps.Output. */
  method Output(rs: seq<CheckResult>) returns (lines: seq<string>)
    ensures lines == OutputLines(rs)
  {
    var totalFailures, totalExceptions, totalWarnings, totalSuccesses, totalSkipped := 0, 0, 0, 0, 0;
    lines := [];
    for i := 0 to |rs|
      invariant lines == AllFileLines(rs[..i])
      invariant totalFailures == TotalFailures(rs[..i]) && totalExceptions == TotalExceptions(rs[..i])
      invariant totalWarnings == TotalWarnings(rs[..i]) && totalSuccesses == TotalSuccesses(rs[..i])
      invariant totalSkipped == TotalSkipped(rs[..i])
    {
      var result := rs[i];
      var group := WriteFile(result);
      lines := lines + group;
      totalFailures := totalFailures + |result.failures|;
      totalExceptions := totalExceptions + |result.exceptions|;
      totalWarnings := totalWarnings + |result.warnings|;
      totalSkipped := totalSkipped + |result.skipped|;
      totalSuccesses := totalSuccesses + result.successes;
      assert rs[..i + 1][..i] == rs[..i];
    }
    assert rs[..|rs|] == rs;
    var totalTests := totalFailures + totalExceptions + totalWarnings + totalSuccesses + totalSkipped;
    lines := lines + [Lines.SummaryText(totalTests, totalSuccesses, totalWarnings, totalFailures, totalExceptions)];
  }

  /** The body of the results loop for one file. */
  method WriteFile(result: CheckResult) returns (lines: seq<string>)
    ensures lines == FileLines(result)
  {
    var totalPolicies := result.successes + |result.failures| + |result.warnings| + |result.exceptions| + |result.skipped|;
    lines := ["##[section]Testing '" + result.fileName + "' against " + NatToString(totalPolicies)
      + " policies in namespace '" + result.namespace + "'", GroupStart];
    var failures := WriteResults("error", result.fileName, result.failures);
    var warnings := WriteResults("warning", result.fileName, result.warnings);
    var exceptions := WriteResults("warning", result.fileName, result.exceptions);
    var skipped := WriteResults("", result.fileName, result.skipped);
    lines := lines + failures + warnings + exceptions + skipped;
    if result.successes > 0 {
      lines := lines + ["success file=" + result.fileName + " " + NatToString(result.successes)];
    }
    lines := lines + [GroupEnd];
  }

  /** One of the four per-file loops. */
  method WriteResults(kind: string, fileName: string, rs: seq<Results.Result>) returns (lines: seq<string>)
    ensures lines == ResultLines(kind, fileName, rs)
  {
    lines := [];
    for j := 0 to |rs|
      invariant lines == ResultLines(kind, fileName, rs[..j])
    {
      var line := if kind == "" then "skipped file=" + fileName + " " + rs[j].message
        else "##vso[task.logissue type=" + kind + "] file=" + fileName + " --> " + rs[j].message;
      lines := lines + [line];
    }
    assert rs[..|rs|] == rs;
  }

  /** A file's group holds one line per failure, warning, exception and
      skipped result, plus the success line exactly when there are
      successes (just before the group end), between the section header,
      the group start and the group end. */
  lemma FileLinesCount(cr: CheckResult)
    ensures |FileLines(cr)| == 3 + |cr.failures| + |cr.warnings| + |cr.exceptions| + |cr.skipped| + (if cr.successes > 0 then 1 else 0)
    ensures FileLines(cr)[0] == Section(cr) && FileLines(cr)[1] == GroupStart
    ensures FileLines(cr)[|FileLines(cr)| - 1] == GroupEnd
    ensures cr.successes > 0 ==> FileLines(cr)[|FileLines(cr)| - 2] == SuccessLine(cr.fileName, cr.successes)
  {
  }

  /** Exceptions are logged with type=warning, in the same form as
      warnings. */
  lemma ExceptionsAsWarnings(cr: CheckResult, i: nat)
    requires i < |cr.exceptions|
    ensures FileLines(cr)[2 + |cr.failures| + |cr.warnings| + i] == Issue("warning", cr.fileName, cr.exceptions[i].message)
  {
    var pre := [Section(cr), GroupStart] + ResultLines("error", cr.fileName, cr.failures) + ResultLines("warning", cr.fileName, cr.warnings);
    var e := ResultLines("warning", cr.fileName, cr.exceptions);
    var rest := ResultLines("", cr.fileName, cr.skipped)
      + (if cr.successes > 0 then [SuccessLine(cr.fileName, cr.successes)] else []) + [GroupEnd];
    assert FileLines(cr) == (pre + e) + rest;
    assert |pre| == 2 + |cr.failures| + |cr.warnings|;
    assert ((pre + e) + rest)[|pre| + i] == (pre + e)[|pre| + i] == e[i];
  }

  /** Report is not supported by this formatter. */
  function Report(): (r: Outcome<()>)
    ensures r.Fail?
  {
    Fail("report is not supported in AzureDevOps output")
  }
}
