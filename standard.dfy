/** The human-readable formatter (output/standard.go): per file, warnings,
    then failures, then (unless suppressed) exceptions, followed by a blank
    line and a coloured summary; `print` outputs come first; in tracing
    mode only the query traces are written. */
module Standard {
  import opened Strs
  import opened Lines
  import Results
  import opened Reports

  /** The Standard outputter's switches (the writer is the returned lines). */
  datatype Options = Options(tracing: bool, noColor: bool, suppressExceptions: bool, showSkipped: bool)

  /** "-" for standard input, else "- <file>". */
  function Indicator(fileName: string): string {
    if fileName == "-" then "-" else "- " + fileName
  }

  /** "-" for the "-" namespace, else "- <namespace> -". */
  function NamespaceField(namespace: string): string {
    if namespace == "-" then "-" else "- " + namespace + " -"
  }

  /** Fprintln(Colorize(tag), indicator, namespace, message), one per result. */
  function IssueLines(tag: string, color: Color, opts: Options, cr: CheckResult, rs: seq<Results.Result>): (ls: seq<Line>)
    ensures |ls| == |rs|
    ensures forall i :: 0 <= i < |rs| ==>
      ls[i] == Paint(tag, color, !opts.noColor, " " + Indicator(cr.fileName) + " " + NamespaceField(cr.namespace) + " " + rs[i].message)
  {
    seq(|rs|, i requires 0 <= i < |rs| =>
      Paint(tag, color, !opts.noColor, " " + Indicator(cr.fileName) + " " + NamespaceField(cr.namespace) + " " + rs[i].message))
  }

  /** The lines written for one check result. */
  function FileLines(opts: Options, cr: CheckResult): seq<Line> {
    IssueLines("WARN", Yellow, opts, cr, cr.warnings)
    + IssueLines("FAIL", Red, opts, cr, cr.failures)
    + (if opts.suppressExceptions then [] else IssueLines("EXCP", Cyan, opts, cr, cr.exceptions))
  }

  function AllFileLines(opts: Options, rs: seq<CheckResult>): seq<Line> {
    if rs == [] then [] else AllFileLines(opts, rs[..|rs| - 1]) + FileLines(opts, rs[|rs| - 1])
  }

  /** A line written as Fprintln(Colorize(tag), "", text). */
  function TaggedLines(tag: string, opts: Options, ts: seq<string>): (ls: seq<Line>)
    ensures |ls| == |ts|
    ensures forall i :: 0 <= i < |ts| ==> ls[i] == Paint(tag, Blue, !opts.noColor, "  " + ts[i])
  {
    seq(|ts|, i requires 0 <= i < |ts| => Paint(tag, Blue, !opts.noColor, "  " + ts[i]))
  }

  /** outputPrints: one PRNT line per `print` output of every query. */
  function QueryPrints(opts: Options, qs: seq<QueryResult>): seq<Line> {
    if qs == [] then [] else QueryPrints(opts, qs[..|qs| - 1]) + TaggedLines("PRNT ", opts, qs[|qs| - 1].outputs)
  }

  function AllPrints(opts: Options, rs: seq<CheckResult>): seq<Line> {
    if rs == [] then [] else AllPrints(opts, rs[..|rs| - 1]) + QueryPrints(opts, rs[|rs| - 1].queries)
  }

  /** outputTrace: per query, a header coloured by its outcome, then its traces. */
  function QueryTraceLines(opts: Options, fileName: string, q: QueryResult): seq<Line> {
    [Paint("file: " + fileName + " | query: " + q.query, if q.passed then Green else Red, !opts.noColor, "")]
    + TaggedLines("TRAC ", opts, q.traces)
  }

  function QueryTraces(opts: Options, fileName: string, qs: seq<QueryResult>): seq<Line> {
    if qs == [] then [] else QueryTraces(opts, fileName, qs[..|qs| - 1]) + QueryTraceLines(opts, fileName, qs[|qs| - 1])
  }

  function AllTraces(opts: Options, rs: seq<CheckResult>): seq<Line> {
    if rs == [] then [] else AllTraces(opts, rs[..|rs| - 1]) + QueryTraces(opts, rs[|rs| - 1].fileName, rs[|rs| - 1].queries)
  }

  /** The summary text, with ", N skipped" only when skipped tests are shown. */
  function SummaryOf(opts: Options, rs: seq<CheckResult>): string {
    SummaryText(TotalTests(rs), TotalSuccesses(rs), TotalWarnings(rs), TotalFailures(rs), TotalExceptions(rs))
    + SkippedText(opts, TotalSkipped(rs))
  }

  /** ", N skipped", written only when skipped tests are shown. */
  function SkippedText(opts: Options, skipped: nat): string {
    if opts.showSkipped then ", " + NatToString(skipped) + " skipped" else ""
  }

  function SummaryLine(opts: Options, rs: seq<CheckResult>): Line {
    Paint(SummaryOf(opts, rs), SummaryColor(TotalFailures(rs), TotalWarnings(rs), TotalExceptions(rs)), !opts.noColor, "")
  }

  /** What Standard.Output writes. */
  function OutputLines(opts: Options, rs: seq<CheckResult>): seq<Line> {
    if opts.tracing then AllTraces(opts, rs)
    else AllPrints(opts, rs) + AllFileLines(opts, rs) + [PlainLine(""), SummaryLine(opts, rs)]
  }

  /** Standard.Output. */
  method Output(opts: Options, rs: seq<CheckResult>) returns (lines: seq<Line>)
    ensures lines == OutputLines(opts, rs)
  {
    if opts.tracing {
      lines := OutputTrace(opts, rs);
      return;
    }
    var prints := OutputPrints(opts, rs);
    var body, totalFailures, totalExceptions, totalWarnings, totalSuccesses, totalSkipped := WriteResults(opts, rs);
    var totalTests := totalFailures + totalExceptions + totalWarnings + totalSuccesses + totalSkipped;
    var outputText := SummaryText(totalTests, totalSuccesses, totalWarnings, totalFailures, totalExceptions);
    outputText := outputText + SkippedText(opts, totalSkipped);
    var outputColor := SummaryColor(totalFailures, totalWarnings, totalExceptions);
    lines := prints + body + [PlainLine(""), Paint(outputText, outputColor, !opts.noColor, "")];
  }

  /** The main loop of Output: the issue lines and the five totals. */
  method WriteResults(opts: Options, rs: seq<CheckResult>)
    returns (lines: seq<Line>, totalFailures: nat, totalExceptions: nat, totalWarnings: nat, totalSuccesses: nat, totalSkipped: nat)
    ensures lines == AllFileLines(opts, rs)
    ensures totalFailures == TotalFailures(rs) && totalExceptions == TotalExceptions(rs)
    ensures totalWarnings == TotalWarnings(rs) && totalSuccesses == TotalSuccesses(rs)
    ensures totalSkipped == TotalSkipped(rs)
  {
    lines := [];
    totalFailures, totalExceptions, totalWarnings, totalSuccesses, totalSkipped := 0, 0, 0, 0, 0;
    for i := 0 to |rs|
      invariant lines == AllFileLines(opts, rs[..i])
      invariant totalFailures == TotalFailures(rs[..i]) && totalExceptions == TotalExceptions(rs[..i])
      invariant totalWarnings == TotalWarnings(rs[..i]) && totalSuccesses == TotalSuccesses(rs[..i])
      invariant totalSkipped == TotalSkipped(rs[..i])
    {
      var result := rs[i];
      var fileLines := WriteFile(opts, result);
      lines := lines + fileLines;
      totalFailures := totalFailures + |result.failures|;
      totalExceptions := totalExceptions + |result.exceptions|;
      totalWarnings := totalWarnings + |result.warnings|;
      totalSkipped := totalSkipped + |result.skipped|;
      totalSuccesses := totalSuccesses + result.successes;
      assert rs[..i + 1][..i] == rs[..i];
    }
    assert rs[..|rs|] == rs;
  }

  /** The issue lines of one file: warnings, failures, then exceptions
      unless they are suppressed. */
  method WriteFile(opts: Options, result: CheckResult) returns (lines: seq<Line>)
    ensures lines == FileLines(opts, result)
  {
    var warnings := WriteIssues("WARN", Yellow, opts, result, result.warnings);
    var failures := WriteIssues("FAIL", Red, opts, result, result.failures);
    var exceptions := [];
    if !opts.suppressExceptions {
      exceptions := WriteIssues("EXCP", Cyan, opts, result, result.exceptions);
    }
    lines := warnings + failures + exceptions;
  }

  /** One of the three per-file loops of Output. */
  method WriteIssues(tag: string, color: Color, opts: Options, cr: CheckResult, rs: seq<Results.Result>)
    returns (lines: seq<Line>)
    ensures lines == IssueLines(tag, color, opts, cr, rs)
  {
    var indicator := if cr.fileName == "-" then "-" else "- " + cr.fileName;
    var namespace := if cr.namespace == "-" then "-" else "- " + cr.namespace + " -";
    lines := [];
    for j := 0 to |rs|
      invariant lines == IssueLines(tag, color, opts, cr, rs[..j])
    {
      lines := lines + [Paint(tag, color, !opts.noColor, " " + indicator + " " + namespace + " " + rs[j].message)];
    }
    assert rs[..|rs|] == rs;
  }

  /** Writes Fprintln(Colorize(tag), "", t) for each text. */
  method WriteTagged(tag: string, opts: Options, ts: seq<string>) returns (lines: seq<Line>)
    ensures lines == TaggedLines(tag, opts, ts)
  {
    lines := [];
    for k := 0 to |ts|
      invariant lines == TaggedLines(tag, opts, ts[..k])
    {
      lines := lines + [Paint(tag, Blue, !opts.noColor, "  " + ts[k])];
    }
    assert ts[..|ts|] == ts;
  }

  /** outputPrints. */
  method OutputPrints(opts: Options, rs: seq<CheckResult>) returns (lines: seq<Line>)
    ensures lines == AllPrints(opts, rs)
  {
    lines := [];
    for i := 0 to |rs|
      invariant lines == AllPrints(opts, rs[..i])
    {
      var printed := FilePrints(opts, rs[i].queries);
      lines := lines + printed;
      assert rs[..i + 1][..i] == rs[..i];
    }
    assert rs[..|rs|] == rs;
  }

  /** The `print` outputs of the queries of one file. */
  method FilePrints(opts: Options, queries: seq<QueryResult>) returns (lines: seq<Line>)
    ensures lines == QueryPrints(opts, queries)
  {
    lines := [];
    for j := 0 to |queries|
      invariant lines == QueryPrints(opts, queries[..j])
    {
      var printed := WriteTagged("PRNT ", opts, queries[j].outputs);
      lines := lines + printed;
      assert queries[..j + 1][..j] == queries[..j];
    }
    assert queries[..|queries|] == queries;
  }

  /** outputTrace. */
  method OutputTrace(opts: Options, rs: seq<CheckResult>) returns (lines: seq<Line>)
    ensures lines == AllTraces(opts, rs)
  {
    lines := [];
    for i := 0 to |rs|
      invariant lines == AllTraces(opts, rs[..i])
    {
      var traced := FileTraces(opts, rs[i].fileName, rs[i].queries);
      lines := lines + traced;
      assert rs[..i + 1][..i] == rs[..i];
    }
    assert rs[..|rs|] == rs;
  }

  /** The traces of the queries of one file, each under its header. */
  method FileTraces(opts: Options, fileName: string, queries: seq<QueryResult>) returns (lines: seq<Line>)
    ensures lines == QueryTraces(opts, fileName, queries)
  {
    lines := [];
    for j := 0 to |queries|
      invariant lines == QueryTraces(opts, fileName, queries[..j])
    {
      var query := queries[j];
      var color := if query.passed then Green else Red;
      var traced := WriteTagged("TRAC ", opts, query.traces);
      lines := lines + ([Paint("file: " + fileName + " | query: " + query.query, color, !opts.noColor, "")] + traced);
      assert queries[..j + 1][..j] == queries[..j];
    }
    assert queries[..|queries|] == queries;
  }

  /** One issue line per warning and failure, and per exception unless
      exceptions are suppressed. */
  lemma {:induction false} IssueLineCount(opts: Options, rs: seq<CheckResult>)
    ensures |AllFileLines(opts, rs)|
      == TotalWarnings(rs) + TotalFailures(rs) + (if opts.suppressExceptions then 0 else TotalExceptions(rs))
  {
    if rs != [] {
      IssueLineCount(opts, rs[..|rs| - 1]);
    }
  }

  /** Within a file, warnings come first, then failures, then exceptions,
      each line ending in its result's message. */
  lemma FileLinesOrder(opts: Options, cr: CheckResult)
    ensures var ls := FileLines(opts, cr);
      var w, f := |cr.warnings|, |cr.failures|;
      (forall i :: 0 <= i < w ==> ls[i].head == "WARN" && HasSuffix(ls[i].tail, cr.warnings[i].message))
      && (forall i :: w <= i < w + f ==> ls[i].head == "FAIL" && HasSuffix(ls[i].tail, cr.failures[i - w].message))
      && (forall i :: w + f <= i < |ls| ==> ls[i].head == "EXCP" && HasSuffix(ls[i].tail, cr.exceptions[i - w - f].message))
  {
    var ls := FileLines(opts, cr);
    var w, f := |cr.warnings|, |cr.failures|;
    forall i | 0 <= i < |ls| ensures i < w ==> HasSuffix(ls[i].tail, cr.warnings[i].message)
      ensures w <= i < w + f ==> HasSuffix(ls[i].tail, cr.failures[i - w].message)
      ensures w + f <= i ==> HasSuffix(ls[i].tail, cr.exceptions[i - w - f].message)
    {
      var m := if i < w then cr.warnings[i].message else if i < w + f then cr.failures[i - w].message
        else cr.exceptions[i - w - f].message;
      var pre := " " + Indicator(cr.fileName) + " " + NamespaceField(cr.namespace) + " ";
      assert ls[i].tail == pre + m;
      assert (pre + m)[|pre + m| - |m|..] == m;
    }
  }

  /** In tracing mode no summary is written: every line is a query header
      or a TRAC line. */
  lemma {:induction false} TracingWritesOnlyTraces(opts: Options, rs: seq<CheckResult>)
    ensures forall l :: l in AllTraces(opts, rs) ==> l.head == "TRAC " || HasPrefix(l.head, "file: ")
  {
    if rs != [] {
      TracingWritesOnlyTraces(opts, rs[..|rs| - 1]);
      QueryTracesShape(opts, rs[|rs| - 1].fileName, rs[|rs| - 1].queries);
    }
  }

  lemma {:induction false} QueryTracesShape(opts: Options, fileName: string, qs: seq<QueryResult>)
    ensures forall l :: l in QueryTraces(opts, fileName, qs) ==> l.head == "TRAC " || HasPrefix(l.head, "file: ")
  {
    if qs != [] {
      QueryTracesShape(opts, fileName, qs[..|qs| - 1]);
      var q := qs[|qs| - 1];
      var h := "file: " + fileName + " | query: " + q.query;
      assert h[..6] == "file: ";
    }
  }

  /** Outside tracing mode the last line is the summary: it reports the
      skipped count exactly when ShowSkipped is set, and is red exactly when
      some file has failures. */
  lemma SummaryFlags(opts: Options, rs: seq<CheckResult>)
    requires !opts.tracing
    ensures var l := OutputLines(opts, rs)[|OutputLines(opts, rs)| - 1];
      l.head == SummaryText(TotalTests(rs), TotalSuccesses(rs), TotalWarnings(rs), TotalFailures(rs), TotalExceptions(rs))
        + (if opts.showSkipped then ", " + NatToString(TotalSkipped(rs)) + " skipped" else "")
      && (!opts.noColor ==> (l.color == Red <==> exists i :: 0 <= i < |rs| && rs[i].failures != []))
  {
    TotalFailuresZero(rs);
  }
}
