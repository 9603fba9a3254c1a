/** The per-file result the report formatters consume: it adds the policy
    namespace, a success count instead of a success list, skipped results
    and the raw query records. The Go declaration of this later shape is not
    part of this model; its fields are those the formatters read. */
module Reports {
  import opened Results

  /** One evaluated query: its text, trace lines, `print` outputs, and
      whether it passed (QueryResult.Passed, taken as given). */
  datatype QueryResult = QueryResult(query: string, traces: seq<string>, outputs: seq<string>, passed: bool)

  datatype CheckResult = CheckResult(
    fileName: string,
    namespace: string,
    successes: nat,
    skipped: seq<Result>,
    warnings: seq<Result>,
    failures: seq<Result>,
    exceptions: seq<Result>,
    queries: seq<QueryResult>)

  /** Sums over a result list, one per counter the formatters keep. */
  function TotalFailures(rs: seq<CheckResult>): nat {
    if rs == [] then 0 else TotalFailures(rs[..|rs| - 1]) + |rs[|rs| - 1].failures|
  }
  function TotalWarnings(rs: seq<CheckResult>): nat {
    if rs == [] then 0 else TotalWarnings(rs[..|rs| - 1]) + |rs[|rs| - 1].warnings|
  }
  function TotalExceptions(rs: seq<CheckResult>): nat {
    if rs == [] then 0 else TotalExceptions(rs[..|rs| - 1]) + |rs[|rs| - 1].exceptions|
  }
  function TotalSkipped(rs: seq<CheckResult>): nat {
    if rs == [] then 0 else TotalSkipped(rs[..|rs| - 1]) + |rs[|rs| - 1].skipped|
  }
  function TotalSuccesses(rs: seq<CheckResult>): nat {
    if rs == [] then 0 else TotalSuccesses(rs[..|rs| - 1]) + rs[|rs| - 1].successes
  }

  /** Failures + exceptions + warnings + successes + skipped. */
  function TotalTests(rs: seq<CheckResult>): nat {
    TotalFailures(rs) + TotalExceptions(rs) + TotalWarnings(rs) + TotalSuccesses(rs) + TotalSkipped(rs)
  }

  /** A total is zero exactly when every result contributes nothing to it. */
  lemma {:induction false} TotalFailuresZero(rs: seq<CheckResult>)
    ensures TotalFailures(rs) == 0 <==> forall i :: 0 <= i < |rs| ==> rs[i].failures == []
  {
    if rs != [] {
      TotalFailuresZero(rs[..|rs| - 1]);
      assert forall i :: 0 <= i < |rs| - 1 ==> rs[..|rs| - 1][i] == rs[i];
    }
  }

  lemma {:induction false} TotalWarningsZero(rs: seq<CheckResult>)
    ensures TotalWarnings(rs) == 0 <==> forall i :: 0 <= i < |rs| ==> rs[i].warnings == []
  {
    if rs != [] {
      TotalWarningsZero(rs[..|rs| - 1]);
      assert forall i :: 0 <= i < |rs| - 1 ==> rs[..|rs| - 1][i] == rs[i];
    }
  }

  lemma {:induction false} TotalExceptionsZero(rs: seq<CheckResult>)
    ensures TotalExceptions(rs) == 0 <==> forall i :: 0 <= i < |rs| ==> rs[i].exceptions == []
  {
    if rs != [] {
      TotalExceptionsZero(rs[..|rs| - 1]);
      assert forall i :: 0 <= i < |rs| - 1 ==> rs[..|rs| - 1][i] == rs[i];
    }
  }

  /** The printed plural suffix: "s" unless the count is exactly one. */
  function Plural(n: nat): (s: string)
    ensures s == "s" <==> n != 1
    ensures s == "" <==> n == 1
  {
    if n != 1 then "s" else ""
  }
}
