/** The JSON formatter's pre-pass (output/json.go): before encoding, the
    results are rewritten in place. */
module JsonOutput {
  import opened Wrappers
  import opened Reports

  /** One loop step: standard input gets an empty file name, and the query
      records are dropped. */
  function Cleaned(cr: CheckResult): (c: CheckResult)
    ensures c.fileName == (if cr.fileName == "-" then "" else cr.fileName)
    ensures c.queries == []
    ensures c == cr.(fileName := c.fileName, queries := [])
  {
    cr.(fileName := if cr.fileName == "-" then "" else cr.fileName, queries := [])
  }

  /** The pre-pass of JSON.Output over the results slice. */
  method Prepare(results: array<CheckResult>)
    modifies results
    ensures forall r :: 0 <= r < results.Length ==> results[r] == Cleaned(old(results[r]))
  {
    for r := 0 to results.Length
      invariant forall k :: 0 <= k < r ==> results[k] == Cleaned(old(results[k]))
      invariant forall k :: r <= k < results.Length ==> results[k] == old(results[k])
    {
      if results[r].fileName == "-" {
        results[r] := results[r].(fileName := "");
      }
      results[r] := results[r].(queries := []);
    }
  }

  /** The pre-pass may be repeated without further change. */
  lemma CleanedIdempotent(cr: CheckResult)
    ensures Cleaned(Cleaned(cr)) == Cleaned(cr)
  {
  }

  /** JSON.Report is not supported. */
  function Report(): (r: Outcome<()>)
    ensures r.Fail?
  {
    Fail("report is not supported in JSON output")
  }
}
