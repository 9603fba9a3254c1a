/** The GitHub Actions formatter (output/github.go): one `::group::` per
    file holding workflow commands for each result, then a summary line. */
module GitHub {
  import opened Wrappers
  import opened Strs
  import Results
  import opened Reports
  import Lines

  datatype Level = Notice | Warning | Error

  function LevelText(level: Level): string {
    match level
    case Notice => "notice"
    case Warning => "warning"
    case Error => "error"
  }

  /** writeLoc: "::level file=F,line=L::message". */
  function LocLine(level: Level, file: string, line: string, msg: string): string {
    "::" + LevelText(level) + " file=" + file + ",line=" + line + "::" + msg
  }

  /** The printed form of a location, "<file> L<line>". */
  function LocationText(loc: Results.Location): string {
    loc.file + " L" + loc.line
  }

  /** writeLocs: the lines written for one result, `relPath` being the
      conversion to a relative path. */
  function LocLines(level: Level, fileName: string, og: Option<Results.Location>, msg: string, relPath: string -> string): seq<string> {
    match og
    case None => [LocLine(level, fileName, "1", msg)]
    case Some(loc) =>
      if loc.file == fileName then [LocLine(level, loc.file, loc.line, msg)]
      else
        var rel := Results.Location(relPath(loc.file), loc.line);
        [LocLine(level, rel.file, rel.line, msg), LocLine(level, fileName, "1", "(ORIGINATING FROM " + LocationText(rel) + ") " + msg)]
  }

  /** A result without a location is reported at the file, line 1; one in
      the same file at its own location only; one in another file at its
      relative location and again at the file, marked as originating
      there. */
  lemma LocLinesCases(level: Level, fileName: string, og: Option<Results.Location>, msg: string, relPath: string -> string)
    ensures var ls := LocLines(level, fileName, og, msg, relPath);
      (og.None? ==> ls == [LocLine(level, fileName, "1", msg)])
      && (og.Some? && og.value.file == fileName ==> ls == [LocLine(level, fileName, og.value.line, msg)])
      && (og.Some? && og.value.file != fileName ==>
        var rel := Results.Location(relPath(og.value.file), og.value.line);
        ls == [LocLine(level, rel.file, rel.line, msg), LocLine(level, fileName, "1", "(ORIGINATING FROM " + LocationText(rel) + ") " + msg)])
  {
  }

  /** The lines of one loop over a result list; `prefix` is put before each
      message. */
  function IssueLines(level: Level, fileName: string, prefix: string, rs: seq<Results.Result>, relPath: string -> string): seq<string> {
    if rs == [] then []
    else (IssueLines(level, fileName, prefix, rs[..|rs| - 1], relPath)
          + LocLines(level, fileName, rs[|rs| - 1].location, prefix + rs[|rs| - 1].message, relPath))
  }

  /** Every policy counts, skipped ones included. */
  function PolicyCount(cr: CheckResult): nat {
    cr.successes + |cr.failures| + |cr.warnings| + |cr.exceptions| + |cr.skipped|
  }

  function Header(cr: CheckResult): string {
    "::group::" + GroupTitle(cr.fileName, PolicyCount(cr), cr.namespace)
  }

  function GroupTitle(fileName: string, policies: nat, namespace: string): string {
    "Testing " + Quote(fileName) + " against " + NatToString(policies) + " policies in namespace " + Quote(namespace)
  }

  function SuccessNotice(cr: CheckResult): string {
    LocLine(Notice, cr.fileName, "1", "Number of successful checks: " + NatToString(cr.successes))
  }

  /** The group written for one file. */
  function FileLines(cr: CheckResult, relPath: string -> string): seq<string> {
    [Header(cr)]
    + IssueLines(Error, cr.fileName, "", cr.failures, relPath)
    + IssueLines(Warning, cr.fileName, "", cr.warnings, relPath)
    + IssueLines(Notice, cr.fileName, "", cr.exceptions, relPath)
    + IssueLines(Notice, cr.fileName, "Test was skipped: ", cr.skipped, relPath)
    + [SuccessNotice(cr), "::endgroup::"]
  }

  function AllFileLines(rs: seq<CheckResult>, relPath: string -> string): seq<string> {
    if rs == [] then [] else AllFileLines(rs[..|rs| - 1], relPath) + FileLines(rs[|rs| - 1], relPath)
  }

  /** What GitHub.Output writes. */
  function OutputLines(rs: seq<CheckResult>, relPath: string -> string): seq<string> {
    AllFileLines(rs, relPath)
    + [Lines.SummaryText(TotalTests(rs), TotalSuccesses(rs), TotalWarnings(rs), TotalFailures(rs), TotalExceptions(rs))]
  }

  /** GitHub.Output. */
  method Output(rs: seq<CheckResult>, relPath: string -> string) returns (lines: seq<string>)
    ensures lines == OutputLines(rs, relPath)
  {
    var totalFailures, totalExceptions, totalWarnings, totalSuccesses, totalSkipped := 0, 0, 0, 0, 0;
    lines := [];
    for i := 0 to |rs|
      invariant lines == AllFileLines(rs[..i], relPath)
      invariant totalFailures == TotalFailures(rs[..i]) && totalExceptions == TotalExceptions(rs[..i])
      invariant totalWarnings == TotalWarnings(rs[..i]) && totalSuccesses == TotalSuccesses(rs[..i])
      invariant totalSkipped == TotalSkipped(rs[..i])
    {
      var result := rs[i];
      totalFailures := totalFailures + |result.failures|;
      totalExceptions := totalExceptions + |result.exceptions|;
      totalWarnings := totalWarnings + |result.warnings|;
      totalSkipped := totalSkipped + |result.skipped|;
      totalSuccesses := totalSuccesses + result.successes;
      var group := WriteFile(result, relPath);
      lines := lines + group;
      assert rs[..i + 1][..i] == rs[..i];
    }
    assert rs[..|rs|] == rs;
    var totalTests := totalFailures + totalExceptions + totalWarnings + totalSuccesses + totalSkipped;
    lines := lines + [Lines.SummaryText(totalTests, totalSuccesses, totalWarnings, totalFailures, totalExceptions)];
  }

  /** The body of the results loop for one file. */
  method WriteFile(result: CheckResult, relPath: string -> string) returns (lines: seq<string>)
    ensures lines == FileLines(result, relPath)
  {
    var numPolicies := result.successes + |result.failures| + |result.warnings| + |result.exceptions| + |result.skipped|;
    var header := "::group::" + GroupTitle(result.fileName, numPolicies, result.namespace);
    var failures := WriteIssues(Error, result.fileName, "", result.failures, relPath);
    var warnings := WriteIssues(Warning, result.fileName, "", result.warnings, relPath);
    var exceptions := WriteIssues(Notice, result.fileName, "", result.exceptions, relPath);
    var skipped := WriteIssues(Notice, result.fileName, "Test was skipped: ", result.skipped, relPath);
    var successes := LocLine(Notice, result.fileName, "1", "Number of successful checks: " + NatToString(result.successes));
    lines := [header] + failures + warnings + exceptions + skipped + [successes, "::endgroup::"];
  }

  /** One of the four per-file loops. */
  method WriteIssues(level: Level, fileName: string, prefix: string, rs: seq<Results.Result>, relPath: string -> string)
    returns (lines: seq<string>)
    ensures lines == IssueLines(level, fileName, prefix, rs, relPath)
  {
    lines := [];
    for j := 0 to |rs|
      invariant lines == IssueLines(level, fileName, prefix, rs[..j], relPath)
    {
      lines := lines + LocLines(level, fileName, rs[j].location, prefix + rs[j].message, relPath);
      assert rs[..j + 1][..j] == rs[..j];
    }
    assert rs[..|rs|] == rs;
  }

  /** Report is not supported by this formatter. */
  function Report(): (r: Outcome<()>)
    ensures r.Fail?
  {
    Fail("report is not supported in GitHub output")
  }

  /** A result is reported once, or twice when its policy points into
      another file. */
  function Emitted(fileName: string, r: Results.Result): nat {
    if r.location.Some? && r.location.value.file != fileName then 2 else 1
  }

  function ReportCount(fileName: string, rs: seq<Results.Result>): nat {
    if rs == [] then 0 else ReportCount(fileName, rs[..|rs| - 1]) + Emitted(fileName, rs[|rs| - 1])
  }

  /** Every line starts with `head`. */
  predicate Commands(ls: seq<string>, head: string) {
    forall i :: 0 <= i < |ls| ==> HasPrefix(ls[i], head)
  }

  lemma LocLinePrefix(level: Level, file: string, line: string, msg: string)
    ensures HasPrefix(LocLine(level, file, line, msg), "::" + LevelText(level) + " file=")
  {
    var head := "::" + LevelText(level) + " file=";
    assert LocLine(level, file, line, msg) == head + (file + ",line=" + line + "::" + msg);
  }

  lemma LocLinesPrefix(level: Level, fileName: string, og: Option<Results.Location>, msg: string, relPath: string -> string)
    ensures Commands(LocLines(level, fileName, og, msg, relPath), "::" + LevelText(level) + " file=")
  {
    match og
    case None => LocLinePrefix(level, fileName, "1", msg);
    case Some(loc) =>
      var rel := Results.Location(relPath(loc.file), loc.line);
      LocLinePrefix(level, loc.file, loc.line, msg);
      LocLinePrefix(level, rel.file, rel.line, msg);
      LocLinePrefix(level, fileName, "1", "(ORIGINATING FROM " + LocationText(rel) + ") " + msg);
  }

  /** The lines of a loop are workflow commands of its level, one per
      result or two for a location outside the file. */
  lemma {:induction false} IssueLinesShape(level: Level, fileName: string, prefix: string, rs: seq<Results.Result>, relPath: string -> string)
    ensures |IssueLines(level, fileName, prefix, rs, relPath)| == ReportCount(fileName, rs)
    ensures ReportCount(fileName, rs) >= |rs|
    ensures Commands(IssueLines(level, fileName, prefix, rs, relPath), "::" + LevelText(level) + " file=")
  {
    if rs != [] {
      IssueLinesShape(level, fileName, prefix, rs[..|rs| - 1], relPath);
      var r := rs[|rs| - 1];
      LocLinesPrefix(level, fileName, r.location, prefix + r.message, relPath);
    }
  }

  /** A command of a given level is in particular a workflow command. */
  lemma CommandsWeaken(ls: seq<string>, level: Level)
    requires Commands(ls, "::" + LevelText(level) + " file=")
    ensures Commands(ls, "::")
  {
    forall i | 0 <= i < |ls| ensures HasPrefix(ls[i], "::") {
      assert ls[i][..2] == ls[i][..|"::" + LevelText(level) + " file="|][..2];
    }
  }

  /** A file's group is the group header, one command per result (two for
      a location in another file), the success-count notice and the group
      end; every one of its lines is a workflow command. */
  lemma FileLinesShape(cr: CheckResult, relPath: string -> string)
    ensures var ls := FileLines(cr, relPath);
      |ls| == 3 + ReportCount(cr.fileName, cr.failures) + ReportCount(cr.fileName, cr.warnings)
        + ReportCount(cr.fileName, cr.exceptions) + ReportCount(cr.fileName, cr.skipped)
      && ls[0] == Header(cr) && ls[|ls| - 2] == SuccessNotice(cr) && ls[|ls| - 1] == "::endgroup::"
  {
    IssueLinesShape(Error, cr.fileName, "", cr.failures, relPath);
    IssueLinesShape(Warning, cr.fileName, "", cr.warnings, relPath);
    IssueLinesShape(Notice, cr.fileName, "", cr.exceptions, relPath);
    IssueLinesShape(Notice, cr.fileName, "Test was skipped: ", cr.skipped, relPath);
  }

  lemma FileLinesCommands(cr: CheckResult, relPath: string -> string)
    ensures Commands(FileLines(cr, relPath), "::")
  {
    var f := IssueLines(Error, cr.fileName, "", cr.failures, relPath);
    var w := IssueLines(Warning, cr.fileName, "", cr.warnings, relPath);
    var e := IssueLines(Notice, cr.fileName, "", cr.exceptions, relPath);
    var k := IssueLines(Notice, cr.fileName, "Test was skipped: ", cr.skipped, relPath);
    IssueCommands(Error, cr.fileName, "", cr.failures, relPath);
    IssueCommands(Warning, cr.fileName, "", cr.warnings, relPath);
    IssueCommands(Notice, cr.fileName, "", cr.exceptions, relPath);
    IssueCommands(Notice, cr.fileName, "Test was skipped: ", cr.skipped, relPath);
    HeaderAndTailCommands(cr);
    CommandsOfParts([Header(cr)], f, w, e, k, [SuccessNotice(cr), "::endgroup::"]);
  }

  lemma IssueCommands(level: Level, fileName: string, prefix: string, rs: seq<Results.Result>, relPath: string -> string)
    ensures Commands(IssueLines(level, fileName, prefix, rs, relPath), "::")
  {
    IssueLinesShape(level, fileName, prefix, rs, relPath);
    CommandsWeaken(IssueLines(level, fileName, prefix, rs, relPath), level);
  }

  lemma HeaderAndTailCommands(cr: CheckResult)
    ensures Commands([Header(cr)], "::") && Commands([SuccessNotice(cr), "::endgroup::"], "::")
  {
    LocLinePrefix(Notice, cr.fileName, "1", "Number of successful checks: " + NatToString(cr.successes));
    CommandsWeaken([SuccessNotice(cr)], Notice);
    CommandsAppend([SuccessNotice(cr)], ["::endgroup::"], "::");
    assert [SuccessNotice(cr), "::endgroup::"] == [SuccessNotice(cr)] + ["::endgroup::"];
    PrefixOfAppend("::group::", GroupTitle(cr.fileName, PolicyCount(cr), cr.namespace), "::");
  }

  lemma CommandsOfParts(h: seq<string>, f: seq<string>, w: seq<string>, e: seq<string>, k: seq<string>, tail: seq<string>)
    requires Commands(h, "::") && Commands(f, "::") && Commands(w, "::") && Commands(e, "::")
    requires Commands(k, "::") && Commands(tail, "::")
    ensures Commands(h + f + w + e + k + tail, "::")
  {
    CommandsAppend(h, f, "::");
    CommandsAppend(h + f, w, "::");
    CommandsAppend(h + f + w, e, "::");
    CommandsAppend(h + f + w + e, k, "::");
    CommandsAppend(h + f + w + e + k, tail, "::");
  }

  lemma PrefixOfAppend(a: string, b: string, p: string)
    requires HasPrefix(a, p)
    ensures HasPrefix(a + b, p)
  {
    assert (a + b)[..|p|] == a[..|p|];
  }

  lemma CommandsAppend(a: seq<string>, b: seq<string>, head: string)
    requires Commands(a, head) && Commands(b, head)
    ensures Commands(a + b, head)
  {
    forall i | 0 <= i < |a + b| ensures HasPrefix((a + b)[i], head) {
      if i < |a| { assert (a + b)[i] == a[i]; } else { assert (a + b)[i] == b[i - |a|]; }
    }
  }
}
