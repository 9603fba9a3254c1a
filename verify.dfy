/** The `verify` runner (runner/verify.go): the report options that switch
    tracing on, and the loop that turns each Rego unit-test result into a
    CheckResult. Loading the policies and running the OPA tester are outside
    the model: the tester's results arrive as a sequence. */
module Verify {
  import opened Wrappers
  import opened Strs
  import opened Results
  import Reports

  const ReportFull := "full"
  const ReportNotes := "notes"
  const ReportFails := "fails"

  /** IsReportOptionOn. */
  predicate IsReportOptionOn(report: string) {
    report == ReportFull || report == ReportNotes || report == ReportFails
  }

  /** Tracing is switched on by the trace flag or by any report option. */
  function EnableTracing(trace: bool, report: string): (on: bool)
    ensures on <==> trace || report in {"full", "notes", "fails"}
  {
    trace || IsReportOptionOn(report)
  }

  /** One result of the OPA tester: where the test lives, its outcome, the
      error it raised if any, and its pretty-printed trace. */
  datatype TestResult = TestResult(
    package: string,
    name: string,
    file: string,
    fail: bool,
    skip: bool,
    error: Option<string>,
    traceText: string)

  /** The non-empty lines of a text, in order. */
  function NonEmptyLines(lines: seq<string>): (r: seq<string>)
    ensures forall l :: l in r ==> l in lines && |l| > 0
  {
    if |lines| == 0 then []
    else
      var last := lines[|lines| - 1];
      NonEmptyLines(lines[..|lines| - 1]) + (if |last| > 0 then [last] else [])
  }

  /** The trace loop (runner/verify.go:72-77). */
  method TraceLines(text: string) returns (traces: seq<string>)
    ensures traces == NonEmptyLines(Split(text, "\n"))
  {
    var lines := Split(text, "\n");
    traces := [];
    var i := 0;
    while i < |lines|
      invariant 0 <= i <= |lines|
      invariant traces == NonEmptyLines(lines[..i])
    {
      assert lines[..i + 1][..i] == lines[..i];
      if |lines[i]| > 0 {
        traces := traces + [lines[i]];
      }
      i := i + 1;
    }
    assert lines[..|lines|] == lines;
  }

  /** Trace lines are non-empty and hold no line break. */
  lemma TraceLinesClean(text: string)
    ensures forall l :: l in NonEmptyLines(Split(text, "\n")) ==> |l| > 0 && '\n' !in l
  {
    var parts := Split(text, "\n");
    SplitPartsFree(text, "\n");
    forall l | l in NonEmptyLines(parts) ensures |l| > 0 && '\n' !in l {
      ContainsSingle(l, '\n');
    }
  }

  /** The CheckResult made for one test. */
  function ToCheckResult(t: TestResult): (c: Reports.CheckResult)
    ensures c.fileName == t.file && |c.queries| == 1 && c.queries[0].query == t.name
  {
    var message := if t.fail || t.skip then t.package + "." + t.name else "";
    var r := Result(message, map[], None, []);
    var q := Reports.QueryResult(t.name, NonEmptyLines(Split(t.traceText, "\n")), [], message == "");
    var c := Reports.CheckResult(t.file, "", 0, [], [], [], [], [q]);
    if t.fail then c.(failures := [r])
    else if t.skip then c.(skipped := [r])
    else c.(successes := 1)
  }

  /** A failed test is one failure, else a skipped test is one skipped
      result, else the test is one success; only the first two carry the
      message package.name. */
  lemma Classified(t: TestResult)
    ensures var c := ToCheckResult(t);
      c.warnings == [] && c.exceptions == []
      && (t.fail ==>
            |c.failures| == 1 && c.skipped == [] && c.successes == 0
            && c.failures[0].message == t.package + "." + t.name)
      && (!t.fail && t.skip ==>
            c.failures == [] && |c.skipped| == 1 && c.successes == 0
            && c.skipped[0].message == t.package + "." + t.name)
      && (!t.fail && !t.skip ==> c.failures == [] && c.skipped == [] && c.successes == 1)
  {
  }

  /** What Run returns for the tester's results: the CheckResults and the
      raw results, or the error of the first test that raised one. */
  function RunSpec(tests: seq<TestResult>): Outcome<(seq<Reports.CheckResult>, seq<TestResult>)> {
    if |tests| == 0 then Ok(([], []))
    else
      match RunSpec(tests[..|tests| - 1])
      case Fail(e) => Fail(e)
      case Ok(acc) =>
        var t := tests[|tests| - 1];
        if t.error.Some? then Fail("run test: " + t.error.value)
        else Ok((acc.0 + [ToCheckResult(t)], acc.1 + [t]))
  }

  lemma {:induction false} RunFailSticks(tests: seq<TestResult>, k: nat)
    requires k <= |tests|
    requires RunSpec(tests[..k]).Fail?
    ensures RunSpec(tests) == RunSpec(tests[..k])
    decreases |tests| - k
  {
    if k < |tests| {
      assert tests[..k + 1][..k] == tests[..k];
      RunFailSticks(tests, k + 1);
    } else {
      assert tests[..k] == tests;
    }
  }

  /** The result loop of VerifyRunner.Run (runner/verify.go:62-105). */
  method Run(tests: seq<TestResult>) returns (r: Outcome<(seq<Reports.CheckResult>, seq<TestResult>)>)
    ensures r == RunSpec(tests)
  {
    var results: seq<Reports.CheckResult> := [];
    var raw: seq<TestResult> := [];
    var i := 0;
    while i < |tests|
      invariant 0 <= i <= |tests|
      invariant RunSpec(tests[..i]) == Ok((results, raw))
    {
      assert tests[..i + 1][..i] == tests[..i];
      var t := tests[i];
      if t.error.Some? {
        RunFailSticks(tests, i + 1);
        return Fail("run test: " + t.error.value);
      }
      raw := raw + [t];
      var traces := TraceLines(t.traceText);
      var message := if t.fail || t.skip then t.package + "." + t.name else "";
      var outcome := Result(message, map[], None, []);
      var query := Reports.QueryResult(t.name, traces, [], message == "");
      var checkResult := Reports.CheckResult(t.file, "", 0, [], [], [], [], [query]);
      if t.fail {
        checkResult := checkResult.(failures := [outcome]);
      } else if t.skip {
        checkResult := checkResult.(skipped := [outcome]);
      } else {
        checkResult := checkResult.(successes := checkResult.successes + 1);
      }
      results := results + [checkResult];
      i := i + 1;
    }
    assert tests[..|tests|] == tests;
    return Ok((results, raw));
  }

  /** Any test carrying an error aborts the run; otherwise there is exactly
      one CheckResult per test, in arrival order, and the raw results are
      the tests themselves. */
  lemma {:induction false} RunShape(tests: seq<TestResult>)
    ensures RunSpec(tests).Fail? <==> exists i :: 0 <= i < |tests| && tests[i].error.Some?
    ensures RunSpec(tests).Ok? ==>
      RunSpec(tests).value.1 == tests
      && |RunSpec(tests).value.0| == |tests|
      && forall i :: 0 <= i < |tests| ==> RunSpec(tests).value.0[i] == ToCheckResult(tests[i])
  {
    if |tests| > 0 {
      var init := tests[..|tests| - 1];
      RunShape(init);
      assert tests == init + [tests[|tests| - 1]];
      if RunSpec(init).Fail? {
        var i :| 0 <= i < |init| && init[i].error.Some?;
        assert tests[i] == init[i];
      } else if RunSpec(tests).Fail? {
        assert tests[|tests| - 1].error.Some?;
      } else {
        forall i | 0 <= i < |tests| ensures tests[i].error.None? {
          if i < |init| { assert tests[i] == init[i]; }
        }
      }
    }
  }

  /** Each test counts once in the totals the formatters print. */
  lemma {:induction false} EveryTestCounted(tests: seq<TestResult>)
    requires RunSpec(tests).Ok?
    ensures Reports.TotalTests(RunSpec(tests).value.0) == |tests|
  {
    if |tests| > 0 {
      var init := tests[..|tests| - 1];
      EveryTestCounted(init);
      var t := tests[|tests| - 1];
      var rs := RunSpec(tests).value.0;
      assert rs[..|rs| - 1] == RunSpec(init).value.0;
      Classified(t);
    }
  }
}
