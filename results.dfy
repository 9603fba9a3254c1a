/** Rule results and per-file check results as the engine, the test runner
    and the buffering output managers produce them (output/result.go). */
module Results {
  import opened Wrappers
  import opened Values

  /** Where a policy says a result comes from (a file and a line number
      kept in its printed form). */
  datatype Location = Location(file: string, line: string)

  /** The outcome of one rule evaluation. Go keeps traces as `[]error`;
      only their texts matter here. */
  datatype Result = Result(
    message: string,
    metadata: Metadata,
    location: Option<Location>,
    traces: seq<string>)

  /** What a Rego evaluation reports for one configuration. */
  datatype CheckResult = CheckResult(
    fileName: string,
    warnings: seq<Result>,
    failures: seq<Result>,
    exceptions: seq<Result>,
    successes: seq<Result>)

  /** The zero value `Result{}`. */
  const EmptyResult := Result("", map[], None, [])

  /** NewResult: a result carrying the message and traces, with empty metadata. */
  function NewResult(message: string, traces: seq<string>): (r: Result)
    ensures r.message == message && r.traces == traces
    ensures r.metadata == map[] && r.location == None
  {
    Result(message, map[], None, traces)
  }

  /** Result.Error: a result used as an error reads as its message. */
  function Error(r: Result): string {
    r.message
  }

  /** A freshly made result reports its own message as its error text. */
  lemma ErrorOfNewResult(message: string, traces: seq<string>)
    ensures Error(NewResult(message, traces)) == message
  {
  }

  predicate SomeFailure(results: seq<CheckResult>) {
    exists i :: 0 <= i < |results| && |results[i].failures| > 0
  }

  predicate SomeWarning(results: seq<CheckResult>) {
    exists i :: 0 <= i < |results| && |results[i].warnings| > 0
  }

  /** GetExitCode: 0 when nothing failed; 1 on failures; with fail-on-warn,
      2 on failures and 1 on warnings alone. */
  method GetExitCode(results: seq<CheckResult>, failOnWarn: bool) returns (code: int)
    ensures 0 <= code <= 2
    ensures !failOnWarn ==> (code == 1 <==> SomeFailure(results)) && (code == 0 <==> !SomeFailure(results))
    ensures failOnWarn ==> code == (if SomeFailure(results) then 2 else if SomeWarning(results) then 1 else 0)
  {
    var hasFailure, hasWarning := false, false;
    var i := 0;
    while i < |results|
      invariant 0 <= i <= |results|
      invariant hasFailure <==> exists j :: 0 <= j < i && |results[j].failures| > 0
      invariant hasWarning <==> exists j :: 0 <= j < i && |results[j].warnings| > 0
    {
      if |results[i].failures| > 0 {
        hasFailure := true;
      }
      if |results[i].warnings| > 0 {
        hasWarning := true;
      }
      i := i + 1;
    }
    if failOnWarn && hasFailure {
      return 2;
    }
    if failOnWarn && hasWarning {
      return 1;
    }
    if hasFailure {
      return 1;
    }
    return 0;
  }
}
