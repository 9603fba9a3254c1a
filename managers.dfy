/** The buffering output managers of the test command
    (internal/commands/output.go). They consume the engine's per-file
    results (`Results.CheckResult`, with a success list). */
module Managers {
  import opened Wrappers
  import opened Strs
  import opened Values
  import opened Lines
  import Results

  /** The manager kinds, chosen by output format name. */
  datatype Format = StandardFormat | JsonFormat | TapFormat | TableFormat | JUnitFormat

  const ValidOutputs: seq<string> := ["stdout", "json", "tap", "table", "junit"]

  /** GetOutputManager: each valid name selects its manager; any other name
      falls back to the standard one. */
  function GetOutputManager(outputFormat: string): (f: Format)
    ensures outputFormat !in ValidOutputs ==> f == StandardFormat
    ensures f == JsonFormat <==> outputFormat == "json"
    ensures f == TapFormat <==> outputFormat == "tap"
    ensures f == TableFormat <==> outputFormat == "table"
    ensures f == JUnitFormat <==> outputFormat == "junit"
  {
    match outputFormat
    case "stdout" => StandardFormat
    case "json" => JsonFormat
    case "tap" => TapFormat
    case "table" => TableFormat
    case "junit" => JUnitFormat
    case _ => StandardFormat
  }

  // ---------------------------------------------------------------- standard

  /** " - " for standard input, else " - <file> - ". */
  function Indicator(fileName: string): string {
    if fileName == "-" then " - " else " - " + fileName + " - "
  }

  /** The policies a file counts: successes, warnings and failures. */
  function Policies(cr: Results.CheckResult): nat {
    |cr.successes| + |cr.warnings| + |cr.failures|
  }

  function TraceLines(enabled: bool, indicator: string, ts: seq<string>): (ls: seq<Line>)
    ensures |ls| == |ts|
    ensures forall i :: 0 <= i < |ts| ==> ls[i] == Paint("TRAC", Blue, enabled, indicator + ts[i])
  {
    seq(|ts|, i requires 0 <= i < |ts| => Paint("TRAC", Blue, enabled, indicator + ts[i]))
  }

  /** printResults: the result's line and then one TRAC line per trace. */
  function ResultLines(r: Results.Result, prefix: string, color: Color, enabled: bool, indicator: string): seq<Line> {
    [Paint(prefix, color, enabled, indicator + r.message)] + TraceLines(enabled, indicator, r.traces)
  }

  /** One loop over a result list; with `tracedOnly`, results without
      traces are skipped. */
  function GroupLines(rs: seq<Results.Result>, prefix: string, color: Color, enabled: bool, indicator: string, tracedOnly: bool): seq<Line> {
    if rs == [] then []
    else (GroupLines(rs[..|rs| - 1], prefix, color, enabled, indicator, tracedOnly)
          + (if tracedOnly && rs[|rs| - 1].traces == [] then [] else ResultLines(rs[|rs| - 1], prefix, color, enabled, indicator)))
  }

  /** The lines of one file in Flush. */
  function FileLines(enabled: bool, cr: Results.CheckResult): seq<Line> {
    var indicator := Indicator(cr.fileName);
    if Policies(cr) == 0 then [Paint("?", White, enabled, indicator + "no policies found")]
    else (GroupLines(cr.successes, "PASS", Green, enabled, indicator, true)
          + GroupLines(cr.warnings, "WARN", Yellow, enabled, indicator, false)
          + GroupLines(cr.failures, "FAIL", Red, enabled, indicator, false)
          + GroupLines(cr.exceptions, "EXCP", Cyan, enabled, indicator, false))
  }

  function AllFileLines(enabled: bool, rs: seq<Results.CheckResult>): seq<Line> {
    if rs == [] then [] else AllFileLines(enabled, rs[..|rs| - 1]) + FileLines(enabled, rs[|rs| - 1])
  }

  datatype Totals = Totals(failures: nat, exceptions: nat, warnings: nat, successes: nat)

  /** The totals Flush accumulates: files without policies are skipped. */
  function FlushTotals(rs: seq<Results.CheckResult>): Totals {
    if rs == [] then Totals(0, 0, 0, 0)
    else
      var t := FlushTotals(rs[..|rs| - 1]);
      var cr := rs[|rs| - 1];
      if Policies(cr) == 0 then t
      else Totals(t.failures + |cr.failures|, t.exceptions + |cr.exceptions|, t.warnings + |cr.warnings|, t.successes + |cr.successes|)
  }

  function SummaryLine(enabled: bool, t: Totals): Line {
    Paint(SummaryText(t.failures + t.exceptions + t.warnings + t.successes, t.successes, t.warnings, t.failures, t.exceptions),
      SummaryColor(t.failures, t.warnings, t.exceptions), enabled, "")
  }

  /** What Flush writes for the buffered results. */
  function FlushLines(enabled: bool, rs: seq<Results.CheckResult>): seq<Line> {
    AllFileLines(enabled, rs) + [PlainLine(""), SummaryLine(enabled, FlushTotals(rs))]
  }

  /** StandardOutputManager: Put buffers, Flush writes. */
  class StandardOutputManager {
    const color: bool
    var results: seq<Results.CheckResult>

    constructor (color: bool)
      ensures this.color == color && results == []
    {
      this.color := color;
      results := [];
    }

    /** Put only appends to the buffer; nothing is written. */
    method Put(cr: Results.CheckResult)
      modifies this
      ensures results == old(results) + [cr]
    {
      results := results + [cr];
    }

    /** Flush: the lines written for the buffered results. */
    method Flush() returns (lines: seq<Line>)
      ensures lines == FlushLines(color, results)
    {
      var t;
      lines, t := FlushResults(color, results);
      var outputColor := SummaryColor(t.failures, t.warnings, t.exceptions);
      var totalPolicies := t.failures + t.exceptions + t.warnings + t.successes;
      var outputText := SummaryText(totalPolicies, t.successes, t.warnings, t.failures, t.exceptions);
      lines := lines + [PlainLine(""), Paint(outputText, outputColor, color, "")];
    }
  }

  /** Flush's loop over the buffered results, with its totals. */
  method FlushResults(enabled: bool, results: seq<Results.CheckResult>) returns (lines: seq<Line>, t: Totals)
    ensures lines == AllFileLines(enabled, results) && t == FlushTotals(results)
  {
    lines := [];
    t := Totals(0, 0, 0, 0);
    for i := 0 to |results|
      invariant lines == AllFileLines(enabled, results[..i])
      invariant t == FlushTotals(results[..i])
    {
      var cr := results[i];
      var fileLines := FlushFile(enabled, cr);
      lines := lines + fileLines;
      if Policies(cr) > 0 {
        t := Totals(t.failures + |cr.failures|, t.exceptions + |cr.exceptions|, t.warnings + |cr.warnings|, t.successes + |cr.successes|);
      }
      assert results[..i + 1][..i] == results[..i];
    }
    assert results[..|results|] == results;
  }

  /** The body of Flush's loop for one file. */
  method FlushFile(enabled: bool, cr: Results.CheckResult) returns (lines: seq<Line>)
    ensures lines == FileLines(enabled, cr)
  {
    var indicator := if cr.fileName == "-" then " - " else " - " + cr.fileName + " - ";
    var currentPolicies := |cr.successes| + |cr.warnings| + |cr.failures|;
    if currentPolicies == 0 {
      lines := [Paint("?", White, enabled, indicator + "no policies found")];
      return;
    }
    var passes := PrintGroup(cr.successes, "PASS", Green, enabled, indicator, true);
    var warnings := PrintGroup(cr.warnings, "WARN", Yellow, enabled, indicator, false);
    var failures := PrintGroup(cr.failures, "FAIL", Red, enabled, indicator, false);
    var exceptions := PrintGroup(cr.exceptions, "EXCP", Cyan, enabled, indicator, false);
    lines := passes + warnings + failures + exceptions;
  }

  method PrintGroup(rs: seq<Results.Result>, prefix: string, color: Color, enabled: bool, indicator: string, tracedOnly: bool)
    returns (lines: seq<Line>)
    ensures lines == GroupLines(rs, prefix, color, enabled, indicator, tracedOnly)
  {
    lines := [];
    for j := 0 to |rs|
      invariant lines == GroupLines(rs[..j], prefix, color, enabled, indicator, tracedOnly)
    {
      if !(tracedOnly && |rs[j].traces| == 0) {
        var printed := PrintResults(rs[j], prefix, color, enabled, indicator);
        lines := lines + printed;
      }
      assert rs[..j + 1][..j] == rs[..j];
    }
    assert rs[..|rs|] == rs;
  }

  /** printResults. */
  method PrintResults(r: Results.Result, prefix: string, color: Color, enabled: bool, indicator: string) returns (lines: seq<Line>)
    ensures lines == ResultLines(r, prefix, color, enabled, indicator)
  {
    lines := [Paint(prefix, color, enabled, indicator + r.message)];
    for k := 0 to |r.traces|
      invariant lines == [Paint(prefix, color, enabled, indicator + r.message)] + TraceLines(enabled, indicator, r.traces[..k])
    {
      lines := lines + [Paint("TRAC", Blue, enabled, indicator + r.traces[k])];
    }
    assert r.traces[..|r.traces|] == r.traces;
  }

  /** A file without successes, warnings or failures is reported as having
      no policies and leaves the totals unchanged, even when it carries
      exceptions. */
  lemma NoPoliciesFound(enabled: bool, rs: seq<Results.CheckResult>, cr: Results.CheckResult)
    requires Policies(cr) == 0
    ensures FlushTotals(rs + [cr]) == FlushTotals(rs)
    ensures AllFileLines(enabled, rs + [cr]) == AllFileLines(enabled, rs) + [Paint("?", White, enabled, Indicator(cr.fileName) + "no policies found")]
  {
    assert (rs + [cr])[..|rs|] == rs;
  }

  /** Successes are printed only when they carry traces: without traces no
      PASS line is written. */
  lemma {:induction false} UntracedPassesSilent(rs: seq<Results.Result>, color: Color, enabled: bool, indicator: string)
    requires forall i :: 0 <= i < |rs| ==> rs[i].traces == []
    ensures GroupLines(rs, "PASS", color, enabled, indicator, true) == []
  {
    if rs != [] {
      UntracedPassesSilent(rs[..|rs| - 1], color, enabled, indicator);
    }
  }

  /** The lines per printed result: its own line and one per trace. */
  function Printed(rs: seq<Results.Result>): nat {
    if rs == [] then 0 else Printed(rs[..|rs| - 1]) + 1 + |rs[|rs| - 1].traces|
  }

  /** Every warning, failure and exception is printed with all of its
      traces. */
  lemma {:induction false} GroupLinesCount(rs: seq<Results.Result>, prefix: string, color: Color, enabled: bool, indicator: string)
    ensures |GroupLines(rs, prefix, color, enabled, indicator, false)| == Printed(rs)
    ensures Printed(rs) >= |rs|
  {
    if rs != [] {
      GroupLinesCount(rs[..|rs| - 1], prefix, color, enabled, indicator);
    }
  }

  /** The totals count every policy of the files that have any. */
  lemma {:induction false} FlushTotalsBound(rs: seq<Results.CheckResult>)
    ensures var t := FlushTotals(rs);
      t.successes + t.warnings + t.failures == SumPolicies(rs)
  {
    if rs != [] {
      FlushTotalsBound(rs[..|rs| - 1]);
    }
  }

  function SumPolicies(rs: seq<Results.CheckResult>): nat {
    if rs == [] then 0 else SumPolicies(rs[..|rs| - 1]) + Policies(rs[|rs| - 1])
  }

  // -------------------------------------------------------------------- json

  datatype JsonResult = JsonResult(message: string, metadata: Metadata, traces: seq<string>)
  datatype JsonCheckResult = JsonCheckResult(filename: string, warnings: seq<JsonResult>, failures: seq<JsonResult>, successes: seq<JsonResult>)

  function ToJsonResults(rs: seq<Results.Result>): (js: seq<JsonResult>)
    ensures |js| == |rs|
    ensures forall i :: 0 <= i < |rs| ==> js[i] == JsonResult(rs[i].message, rs[i].metadata, rs[i].traces)
  {
    seq(|rs|, i requires 0 <= i < |rs| => JsonResult(rs[i].message, rs[i].metadata, rs[i].traces))
  }

  /** The record Put buffers: standard input gets an empty file name, and
      every list is present (possibly empty) with one entry per result.
      Exceptions are not reported. */
  function ToJson(cr: Results.CheckResult): (j: JsonCheckResult)
    ensures j.filename == if cr.fileName == "-" then "" else cr.fileName
    ensures |j.warnings| == |cr.warnings| && |j.failures| == |cr.failures| && |j.successes| == |cr.successes|
    ensures j.warnings == ToJsonResults(cr.warnings) && j.failures == ToJsonResults(cr.failures)
      && j.successes == ToJsonResults(cr.successes)
  {
    JsonCheckResult(if cr.fileName == "-" then "" else cr.fileName,
      ToJsonResults(cr.warnings), ToJsonResults(cr.failures), ToJsonResults(cr.successes))
  }

  /** JSONOutputManager: Put converts and buffers. */
  class JsonOutputManager {
    var data: seq<JsonCheckResult>

    constructor ()
      ensures data == []
    {
      data := [];
    }

    method Put(cr: Results.CheckResult)
      modifies this
      ensures data == old(data) + [ToJson(cr)]
    {
      var fileName := if cr.fileName == "-" then "" else cr.fileName;
      var warnings := ConvertResults(cr.warnings);
      var failures := ConvertResults(cr.failures);
      var successes := ConvertResults(cr.successes);
      data := data + [JsonCheckResult(fileName, warnings, failures, successes)];
    }
  }

  /** One of Put's loops. */
  method ConvertResults(rs: seq<Results.Result>) returns (js: seq<JsonResult>)
    ensures js == ToJsonResults(rs)
  {
    js := [];
    for i := 0 to |rs|
      invariant js == ToJsonResults(rs[..i])
    {
      var traces := ErrsToStrings(rs[i].traces);
      js := js + [JsonResult(rs[i].message, rs[i].metadata, traces)];
    }
    assert rs[..|rs|] == rs;
  }

  /** errsToStrings: the text of every trace, in order. */
  method ErrsToStrings(errs: seq<string>) returns (res: seq<string>)
    ensures res == errs
  {
    res := [];
    for i := 0 to |errs|
      invariant res == errs[..i]
    {
      res := res + [errs[i]];
    }
  }

  // --------------------------------------------------------------------- tap

  /** log.Print("trace ", counter, j+1, indicator, t): the two numbers are
      separated by a space. */
  function TraceLine(counter: nat, j: nat, indicator: string, t: string): string {
    "trace " + NatToString(counter) + " " + NatToString(j) + indicator + t
  }

  function TestLine(status: string, counter: nat, indicator: string, r: Results.Result): string {
    status + NatToString(counter) + indicator + r.message
  }

  /** The trace lines of one result, numbered from 1. */
  function TapTraces(counter: nat, indicator: string, ts: seq<string>): seq<string> {
    if ts == [] then []
    else TapTraces(counter, indicator, ts[..|ts| - 1]) + [TraceLine(counter, |ts|, indicator, ts[|ts| - 1])]
  }

  /** One "trace" line per trace, numbered from 1 under the result's counter. */
  lemma {:induction false} TapTracesAt(counter: nat, indicator: string, ts: seq<string>)
    ensures |TapTraces(counter, indicator, ts)| == |ts|
    ensures forall j :: 0 <= j < |ts| ==> TapTraces(counter, indicator, ts)[j] == TraceLine(counter, j + 1, indicator, ts[j])
  {
    if ts != [] {
      TapTracesAt(counter, indicator, ts[..|ts| - 1]);
    }
  }

  /** printResults of the TAP manager. */
  function TapEntry(status: string, counter: nat, indicator: string, r: Results.Result): seq<string> {
    [TestLine(status, counter, indicator, r)]
    + (if r.traces == [] then [] else ["# Traces"] + TapTraces(counter, indicator, r.traces))
  }

  /** Entries numbered from `start`. */
  function TapEntries(status: string, start: nat, indicator: string, rs: seq<Results.Result>): seq<string>
    decreases |rs|
  {
    if rs == [] then [] else TapEntry(status, start, indicator, rs[0]) + TapEntries(status, start + 1, indicator, rs[1..])
  }

  /** What TAPOutputManager.Put writes: nothing when there is nothing to
      plan; exceptions are never written. */
  function TapPutLines(cr: Results.CheckResult): seq<string> {
    var n := |cr.failures| + |cr.warnings| + |cr.successes|;
    if n == 0 then [] else ["1.." + NatToString(n)] + TapPutBody(cr)
  }

  /** The failures, then the headed warnings and successes. */
  function TapPutBody(cr: Results.CheckResult): seq<string> {
    var indicator := Indicator(cr.fileName);
    var f, w := |cr.failures|, |cr.warnings|;
    TapEntries("not ok ", 1, indicator, cr.failures)
    + TapGroupLines("# Warnings", "not ok ", 1 + f, indicator, cr.warnings)
    + TapGroupLines("# Successes", "ok ", 1 + f + w, indicator, cr.successes)
  }

  /** A headed group, or nothing for an empty list. */
  function TapGroupLines(header: string, status: string, start: nat, indicator: string, rs: seq<Results.Result>): seq<string> {
    if |rs| > 0 then [header] + TapEntries(status, start, indicator, rs) else []
  }

  /** TAPOutputManager.Put (the manager holds no state besides its logger). */
  method TapPut(cr: Results.CheckResult) returns (lines: seq<string>)
    ensures lines == TapPutLines(cr)
  {
    var indicator := if cr.fileName == "-" then " - " else " - " + cr.fileName + " - ";
    var issues := |cr.failures| + |cr.warnings| + |cr.successes|;
    lines := [];
    if issues > 0 {
      var failures := TapGroup(cr.failures, "not ok ", 0, indicator);
      var warnings := TapHeaded("# Warnings", cr.warnings, "not ok ", |cr.failures|, indicator);
      var successes := TapHeaded("# Successes", cr.successes, "ok ", |cr.failures| + |cr.warnings|, indicator);
      lines := ["1.." + NatToString(issues)] + (failures + warnings + successes);
    }
  }

  /** The warnings or successes of a Put: nothing when there are none, else
      the header and the numbered results. */
  method TapHeaded(header: string, rs: seq<Results.Result>, status: string, offset: nat, indicator: string) returns (lines: seq<string>)
    ensures lines == TapGroupLines(header, status, 1 + offset, indicator, rs)
  {
    lines := [];
    if |rs| > 0 {
      lines := TapGroup(rs, status, offset, indicator);
      lines := [header] + lines;
    }
  }

  /** A loop `for i, r := range rs { printResults(r, status, i + 1 + offset) }`. */
  method TapGroup(rs: seq<Results.Result>, status: string, offset: nat, indicator: string) returns (lines: seq<string>)
    ensures lines == TapEntries(status, 1 + offset, indicator, rs)
  {
    lines := [];
    for i := 0 to |rs|
      invariant lines == TapEntries(status, 1 + offset, indicator, rs[..i])
    {
      var entry := TapPrintResults(rs[i], status, i + 1 + offset, indicator);
      assert rs[..i + 1] == rs[..i] + [rs[i]];
      TapEntriesSnoc(status, 1 + offset, indicator, rs[..i], rs[i]);
      lines := lines + entry;
    }
    assert rs[..|rs|] == rs;
  }

  lemma {:induction false} TapEntriesSnoc(status: string, start: nat, indicator: string, rs: seq<Results.Result>, r: Results.Result)
    ensures TapEntries(status, start, indicator, rs + [r]) == TapEntries(status, start, indicator, rs) + TapEntry(status, start + |rs|, indicator, r)
    decreases |rs|
  {
    if rs == [] {
      assert ([] + [r])[1..] == [];
      assert TapEntries(status, start, indicator, [r]) == TapEntry(status, start, indicator, r) + TapEntries(status, start + 1, indicator, []);
    } else {
      assert (rs + [r])[0] == rs[0] && (rs + [r])[1..] == rs[1..] + [r];
      TapEntriesSnoc(status, start + 1, indicator, rs[1..], r);
    }
  }

  method TapPrintResults(r: Results.Result, status: string, counter: nat, indicator: string) returns (lines: seq<string>)
    ensures lines == TapEntry(status, counter, indicator, r)
  {
    lines := [status + NatToString(counter) + indicator + r.message];
    if |r.traces| > 0 {
      lines := lines + ["# Traces"];
      for j := 0 to |r.traces|
        invariant lines == [TestLine(status, counter, indicator, r)] + ["# Traces"] + TapTraces(counter, indicator, r.traces[..j])
      {
        assert r.traces[..j + 1][..j] == r.traces[..j];
        lines := lines + ["trace " + NatToString(counter) + " " + NatToString(j + 1) + indicator + r.traces[j]];
      }
      assert r.traces[..|r.traces|] == r.traces;
    }
  }

  /** The test lines of a listing: those starting "ok " or "not ok ". */
  predicate IsTestLine(l: string) {
    HasPrefix(l, "ok ") || HasPrefix(l, "not ok ")
  }

  function TestLines(ls: seq<string>): seq<string> {
    if ls == [] then [] else (if IsTestLine(ls[0]) then [ls[0]] else []) + TestLines(ls[1..])
  }

  /** The test lines numbered from `start`. */
  function Heads(status: string, start: nat, indicator: string, rs: seq<Results.Result>): seq<string>
    decreases |rs|
  {
    if rs == [] then [] else [TestLine(status, start, indicator, rs[0])] + Heads(status, start + 1, indicator, rs[1..])
  }

  lemma {:induction false} TestLinesAppend(a: seq<string>, b: seq<string>)
    ensures TestLines(a + b) == TestLines(a) + TestLines(b)
  {
    if a == [] {
      assert a + b == b;
    } else {
      assert (a + b)[0] == a[0];
      assert (a + b)[1..] == a[1..] + b;
      TestLinesAppend(a[1..], b);
    }
  }

  /** No trace line is a test line. */
  lemma {:induction false} TracesAreNotTests(counter: nat, indicator: string, ts: seq<string>)
    ensures TestLines(TapTraces(counter, indicator, ts)) == []
  {
    if ts != [] {
      var line := TraceLine(counter, |ts|, indicator, ts[|ts| - 1]);
      assert line == "trace " + (NatToString(counter) + " " + NatToString(|ts|) + indicator + ts[|ts| - 1]);
      assert line[0] == 't';
      TracesAreNotTests(counter, indicator, ts[..|ts| - 1]);
      TestLinesAppend(TapTraces(counter, indicator, ts[..|ts| - 1]), [line]);
      assert TestLines([line]) == [] + TestLines([]);
    }
  }

  lemma TapEntryTests(status: string, counter: nat, indicator: string, r: Results.Result)
    requires status == "ok " || status == "not ok "
    ensures TestLines(TapEntry(status, counter, indicator, r)) == [TestLine(status, counter, indicator, r)]
  {
    var head := TestLine(status, counter, indicator, r);
    assert HasPrefix(head, status) by {
      assert head == status + (NatToString(counter) + indicator + r.message);
    }
    if r.traces == [] {
      assert TapEntry(status, counter, indicator, r) == [head];
      assert TestLines([head]) == [head] + TestLines([]);
    } else {
      var rest := ["# Traces"] + TapTraces(counter, indicator, r.traces);
      TracesAreNotTests(counter, indicator, r.traces);
      TestLinesAppend(["# Traces"], TapTraces(counter, indicator, r.traces));
      TestLinesAppend([head], rest);
      assert TestLines([head]) == [head] + TestLines([]);
      HeaderIsNotTest("# Traces");
    }
  }

  lemma {:induction false} TapEntriesTests(status: string, start: nat, indicator: string, rs: seq<Results.Result>)
    requires status == "ok " || status == "not ok "
    ensures TestLines(TapEntries(status, start, indicator, rs)) == Heads(status, start, indicator, rs)
    decreases |rs|
  {
    if rs != [] {
      TapEntryTests(status, start, indicator, rs[0]);
      TestLinesAppend(TapEntry(status, start, indicator, rs[0]), TapEntries(status, start + 1, indicator, rs[1..]));
      TapEntriesTests(status, start + 1, indicator, rs[1..]);
    }
  }

  lemma {:induction false} HeadsAppend(status: string, start: nat, indicator: string, a: seq<Results.Result>, b: seq<Results.Result>)
    ensures Heads(status, start, indicator, a) + Heads(status, start + |a|, indicator, b) == Heads(status, start, indicator, a + b)
    decreases |a|
  {
    if a == [] {
      assert a + b == b;
    } else {
      assert (a + b)[0] == a[0] && (a + b)[1..] == a[1..] + b;
      HeadsAppend(status, start + 1, indicator, a[1..], b);
    }
  }

  lemma {:induction false} HeadsAt(status: string, start: nat, indicator: string, rs: seq<Results.Result>, i: nat)
    requires i < |rs|
    ensures |Heads(status, start, indicator, rs)| == |rs|
    ensures Heads(status, start, indicator, rs)[i] == TestLine(status, start + i, indicator, rs[i])
    decreases |rs|
  {
    HeadsLength(status, start + 1, indicator, rs[1..]);
    if i > 0 {
      HeadsAt(status, start + 1, indicator, rs[1..], i - 1);
    }
  }

  lemma {:induction false} HeadsLength(status: string, start: nat, indicator: string, rs: seq<Results.Result>)
    ensures |Heads(status, start, indicator, rs)| == |rs|
    decreases |rs|
  {
    if rs != [] {
      HeadsLength(status, start + 1, indicator, rs[1..]);
    }
  }

  /** After the plan "1..N", the test lines of a Put are numbered 1..N
      consecutively: failures and warnings "not ok", then successes "ok";
      traces and group headers are not numbered. */
  lemma TapPutNumbering(cr: Results.CheckResult)
    requires |cr.failures| + |cr.warnings| + |cr.successes| > 0
    ensures TapPutLines(cr)[0] == "1.." + NatToString(|cr.failures| + |cr.warnings| + |cr.successes|)
    ensures TestLines(TapPutLines(cr)[1..])
      == Heads("not ok ", 1, Indicator(cr.fileName), cr.failures + cr.warnings)
       + Heads("ok ", 1 + |cr.failures| + |cr.warnings|, Indicator(cr.fileName), cr.successes)
  {
    var ind := Indicator(cr.fileName);
    var f, w := |cr.failures|, |cr.warnings|;
    var a := TapEntries("not ok ", 1, ind, cr.failures);
    var b := TapGroupLines("# Warnings", "not ok ", 1 + f, ind, cr.warnings);
    var c := TapGroupLines("# Successes", "ok ", 1 + f + w, ind, cr.successes);
    assert TapPutLines(cr)[1..] == TapPutBody(cr);
    TapEntriesTests("not ok ", 1, ind, cr.failures);
    HeaderGroupTests("# Warnings", "not ok ", 1 + f, ind, cr.warnings);
    HeaderGroupTests("# Successes", "ok ", 1 + f + w, ind, cr.successes);
    ThreeParts(a, b, c, Heads("not ok ", 1, ind, cr.failures), Heads("not ok ", 1 + f, ind, cr.warnings), Heads("ok ", 1 + f + w, ind, cr.successes));
    HeadsAppend("not ok ", 1, ind, cr.failures, cr.warnings);
  }

  /** After the plan come the failures, the headed warnings and the headed
      successes, each group numbered on from the last. */
  lemma TapPutShape(cr: Results.CheckResult)
    requires |cr.failures| + |cr.warnings| + |cr.successes| > 0
    ensures var ind, f, w := Indicator(cr.fileName), |cr.failures|, |cr.warnings|;
      TapPutLines(cr)[1..] == TapEntries("not ok ", 1, ind, cr.failures)
        + TapGroupLines("# Warnings", "not ok ", 1 + f, ind, cr.warnings)
        + TapGroupLines("# Successes", "ok ", 1 + f + w, ind, cr.successes)
  {
    assert TapPutLines(cr)[1..] == TapPutBody(cr);
  }

  lemma ThreeParts(a: seq<string>, b: seq<string>, c: seq<string>, x: seq<string>, y: seq<string>, z: seq<string>)
    requires TestLines(a) == x && TestLines(b) == y && TestLines(c) == z
    ensures TestLines(a + b + c) == x + y + z
  {
    TestLinesAppend(a + b, c);
    TestLinesAppend(a, b);
  }

  /** A "#" line is no test line. */
  lemma HeaderIsNotTest(header: string)
    requires HasPrefix(header, "#")
    ensures TestLines([header]) == []
  {
    assert header[..1] == "#";
    if |header| >= 3 { assert header[..3][0] == '#'; }
    if |header| >= 7 { assert header[..7][0] == '#'; }
    assert !IsTestLine(header);
    assert TestLines([header]) == [] + TestLines([]);
  }

  lemma HeaderGroupTests(header: string, status: string, start: nat, indicator: string, rs: seq<Results.Result>)
    requires HasPrefix(header, "#")
    requires status == "ok " || status == "not ok "
    ensures TestLines(TapGroupLines(header, status, start, indicator, rs)) == Heads(status, start, indicator, rs)
  {
    if |rs| > 0 {
      TestLinesAppend([header], TapEntries(status, start, indicator, rs));
      TapEntriesTests(status, start, indicator, rs);
      HeaderIsNotTest(header);
    }
  }

  // ------------------------------------------------------------------- table

  datatype Row = Row(result: string, file: string, message: string)

  const TableHeader: seq<string> := ["result", "file", "message"]

  function TraceRows(file: string, ts: seq<string>): (rows: seq<Row>)
    ensures |rows| == |ts|
    ensures forall i :: 0 <= i < |ts| ==> rows[i] == Row("trace", file, ts[i])
  {
    seq(|ts|, i requires 0 <= i < |ts| => Row("trace", file, ts[i]))
  }

  /** printResults of the table manager: the result row, then its traces. */
  function ResultRows(r: Results.Result, prefix: string, file: string): seq<Row> {
    [Row(prefix, file, Results.Error(r))] + TraceRows(file, r.traces)
  }

  function GroupRows(rs: seq<Results.Result>, prefix: string, file: string): seq<Row> {
    if rs == [] then [] else GroupRows(rs[..|rs| - 1], prefix, file) + ResultRows(rs[|rs| - 1], prefix, file)
  }

  /** The rows one Put appends: successes, warnings, failures; exceptions
      are not tabulated. */
  function PutRows(cr: Results.CheckResult): seq<Row> {
    GroupRows(cr.successes, "success", cr.fileName)
    + GroupRows(cr.warnings, "warning", cr.fileName)
    + GroupRows(cr.failures, "failure", cr.fileName)
  }

  class TableOutputManager {
    var rows: seq<Row>

    constructor ()
      ensures rows == []
    {
      rows := [];
    }

    method Put(cr: Results.CheckResult)
      modifies this
      ensures rows == old(rows) + PutRows(cr)
    {
      var successes := AppendGroup(cr.successes, "success", cr.fileName);
      var warnings := AppendGroup(cr.warnings, "warning", cr.fileName);
      var failures := AppendGroup(cr.failures, "failure", cr.fileName);
      rows := rows + successes + warnings + failures;
    }

    /** Flush renders the table only when it has rows. */
    method Flush() returns (table: Option<seq<Row>>)
      ensures table == if rows == [] then None else Some(rows)
    {
      if |rows| > 0 {
        table := Some(rows);
      } else {
        table := None;
      }
    }
  }

  method AppendGroup(rs: seq<Results.Result>, prefix: string, file: string) returns (rows: seq<Row>)
    ensures rows == GroupRows(rs, prefix, file)
  {
    rows := [];
    for j := 0 to |rs|
      invariant rows == GroupRows(rs[..j], prefix, file)
    {
      var r := rs[j];
      var traces := TraceRowsOf(r.traces, file);
      rows := rows + [Row(prefix, file, r.message)] + traces;
      assert rs[..j + 1][..j] == rs[..j];
    }
    assert rs[..|rs|] == rs;
  }

  method TraceRowsOf(ts: seq<string>, file: string) returns (rows: seq<Row>)
    ensures rows == TraceRows(file, ts)
  {
    rows := [];
    for k := 0 to |ts|
      invariant rows == TraceRows(file, ts[..k])
    {
      rows := rows + [Row("trace", file, ts[k])];
    }
    assert ts[..|ts|] == ts;
  }

  /** Each tabulated result contributes its row and one row per trace; no
      row is an exception. */
  lemma {:induction false} GroupRowsShape(rs: seq<Results.Result>, prefix: string, file: string)
    ensures |GroupRows(rs, prefix, file)| == Printed(rs)
    ensures forall k :: 0 <= k < |GroupRows(rs, prefix, file)| ==>
      GroupRows(rs, prefix, file)[k].result in {prefix, "trace"} && GroupRows(rs, prefix, file)[k].file == file
  {
    if rs != [] {
      GroupRowsShape(rs[..|rs| - 1], prefix, file);
    }
  }

  // ------------------------------------------------------------------- junit

  datatype Status = Pass | Failed

  datatype JUnitTest = JUnitTest(name: string, result: Status, output: seq<string>)

  /** "<file> - <first line of the message>", which keeps test names unique. */
  function TestName(fileName: string, message: string): string {
    fileName + " - " + Split(message, "\n")[0]
  }

  /** convert: the message followed by the trace texts is the output. */
  function Convert(fileName: string, r: Results.Result, status: Status): JUnitTest {
    JUnitTest(TestName(fileName, r.message), status, [r.message] + r.traces)
  }

  function ConvertAll(fileName: string, rs: seq<Results.Result>, status: Status): (ts: seq<JUnitTest>)
    ensures |ts| == |rs|
    ensures forall i :: 0 <= i < |rs| ==> ts[i] == Convert(fileName, rs[i], status)
  {
    seq(|rs|, i requires 0 <= i < |rs| => Convert(fileName, rs[i], status))
  }

  /** The tests one Put appends: warnings and failures fail, successes pass. */
  function PutTests(cr: Results.CheckResult): seq<JUnitTest> {
    ConvertAll(cr.fileName, cr.warnings, Failed) + ConvertAll(cr.fileName, cr.failures, Failed) + ConvertAll(cr.fileName, cr.successes, Pass)
  }

  class JUnitOutputManager {
    const packageName: string
    var tests: seq<JUnitTest>

    constructor ()
      ensures packageName == "conftest" && tests == []
    {
      packageName := "conftest";
      tests := [];
    }

    method Put(cr: Results.CheckResult)
      modifies this
      ensures tests == old(tests) + PutTests(cr)
    {
      var warnings := ConvertGroup(cr.fileName, cr.warnings, Failed);
      var failures := ConvertGroup(cr.fileName, cr.failures, Failed);
      var successes := ConvertGroup(cr.fileName, cr.successes, Pass);
      tests := tests + warnings + failures + successes;
    }
  }

  method ConvertGroup(fileName: string, rs: seq<Results.Result>, status: Status) returns (ts: seq<JUnitTest>)
    ensures ts == ConvertAll(fileName, rs, status)
  {
    ts := [];
    for i := 0 to |rs|
      invariant ts == ConvertAll(fileName, rs[..i], status)
    {
      var r := rs[i];
      var name := fileName + " - " + Split(r.message, "\n")[0];
      var output := [r.message];
      for k := 0 to |r.traces|
        invariant output == [r.message] + r.traces[..k]
      {
        output := output + [r.traces[k]];
      }
      assert r.traces[..|r.traces|] == r.traces;
      ts := ts + [JUnitTest(name, status, output)];
    }
    assert rs[..|rs|] == rs;
  }

  /** A test name is the file name, " - ", and the message up to its first
      line break: that part is a prefix of the message and spans one line. */
  lemma TestNameShape(fileName: string, message: string)
    ensures var n := TestName(fileName, message);
      var first := n[|fileName| + 3..];
      HasPrefix(n, fileName + " - ") && HasPrefix(message, first) && '\n' !in first
  {
    var parts := Split(message, "\n");
    var first := parts[0];
    SplitPartsFree(message, "\n");
    ContainsSingle(first, '\n');
    var i := Index(message, "\n");
    if i >= 0 {
      assert parts == [message[..i]] + Split(message[i + 1..], "\n");
    }
    var n := TestName(fileName, message);
    assert n == (fileName + " - ") + first;
    assert n[|fileName| + 3..] == first;
  }

  /** Every buffered test fails exactly when it came from a warning or a
      failure. */
  lemma PutTestsStatus(cr: Results.CheckResult)
    ensures |PutTests(cr)| == |cr.warnings| + |cr.failures| + |cr.successes|
    ensures forall i :: 0 <= i < |PutTests(cr)| ==> (PutTests(cr)[i].result == Failed <==> i < |cr.warnings| + |cr.failures|)
  {
  }
}
