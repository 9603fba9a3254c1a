/** The table formatter (output/table.go): rows of result kind, file,
    namespace and message, rendered under a fixed header. */
module Table {
  import opened Wrappers
  import Results
  import opened Reports

  const Header: seq<string> := ["result", "file", "namespace", "message"]

  datatype Row = Row(result: string, file: string, namespace: string, message: string)

  /** Rows of one kind for a result list. */
  function KindRows(kind: string, cr: CheckResult, rs: seq<Results.Result>): (rows: seq<Row>)
    ensures |rows| == |rs|
    ensures forall i :: 0 <= i < |rs| ==> rows[i] == Row(kind, cr.fileName, cr.namespace, rs[i].message)
  {
    seq(|rs|, i requires 0 <= i < |rs| => Row(kind, cr.fileName, cr.namespace, rs[i].message))
  }

  /** One "success"/"SUCCESS" row per counted success. */
  function SuccessRows(cr: CheckResult, n: nat): (rows: seq<Row>)
    ensures |rows| == n
    ensures forall i :: 0 <= i < n ==> rows[i] == Row("success", cr.fileName, cr.namespace, "SUCCESS")
  {
    seq(n, i requires 0 <= i < n => Row("success", cr.fileName, cr.namespace, "SUCCESS"))
  }

  /** The rows of one file: successes, exceptions, warnings, skipped, failures. */
  function FileRows(cr: CheckResult): seq<Row> {
    SuccessRows(cr, cr.successes)
    + KindRows("exception", cr, cr.exceptions)
    + KindRows("warning", cr, cr.warnings)
    + KindRows("skipped", cr, cr.skipped)
    + KindRows("failure", cr, cr.failures)
  }

  function AllRows(rs: seq<CheckResult>): seq<Row> {
    if rs == [] then [] else AllRows(rs[..|rs| - 1]) + FileRows(rs[|rs| - 1])
  }

  /** A rendered table: its header and its rows. */
  datatype Rendered = Rendered(header: seq<string>, rows: seq<Row>)

  /** Table.Output: nothing is rendered when there are no rows. */
  method Output(rs: seq<CheckResult>) returns (table: Option<Rendered>)
    ensures table == if AllRows(rs) == [] then None else Some(Rendered(Header, AllRows(rs)))
  {
    var tableData: seq<Row> := [];
    for i := 0 to |rs|
      invariant tableData == AllRows(rs[..i])
    {
      var checkResult := rs[i];
      var successes := WriteSuccesses(checkResult);
      var exceptions := WriteRows("exception", checkResult, checkResult.exceptions);
      var warnings := WriteRows("warning", checkResult, checkResult.warnings);
      var skipped := WriteRows("skipped", checkResult, checkResult.skipped);
      var failures := WriteRows("failure", checkResult, checkResult.failures);
      tableData := tableData + successes + exceptions + warnings + skipped + failures;
      assert rs[..i + 1][..i] == rs[..i];
    }
    assert rs[..|rs|] == rs;
    if |tableData| > 0 {
      table := Some(Rendered(Header, tableData));
    } else {
      table := None;
    }
  }

  method WriteSuccesses(cr: CheckResult) returns (rows: seq<Row>)
    ensures rows == SuccessRows(cr, cr.successes)
  {
    rows := [];
    for r := 0 to cr.successes
      invariant rows == SuccessRows(cr, r)
    {
      rows := rows + [Row("success", cr.fileName, cr.namespace, "SUCCESS")];
    }
  }

  method WriteRows(kind: string, cr: CheckResult, rs: seq<Results.Result>) returns (rows: seq<Row>)
    ensures rows == KindRows(kind, cr, rs)
  {
    rows := [];
    for j := 0 to |rs|
      invariant rows == KindRows(kind, cr, rs[..j])
    {
      rows := rows + [Row(kind, cr.fileName, cr.namespace, rs[j].message)];
    }
    assert rs[..|rs|] == rs;
  }

  /** Table.Report is not supported. */
  function Report(): (r: Outcome<()>)
    ensures r.Fail?
  {
    Fail("report is not supported in table output")
  }

  /** One row per success, exception, warning, skipped result and failure. */
  lemma {:induction false} RowCount(rs: seq<CheckResult>)
    ensures |AllRows(rs)| == TotalSuccesses(rs) + TotalExceptions(rs) + TotalWarnings(rs) + TotalSkipped(rs) + TotalFailures(rs)
  {
    if rs != [] {
      RowCount(rs[..|rs| - 1]);
    }
  }

  /** A table is rendered exactly when there is at least one test. */
  lemma RenderedIffTests(rs: seq<CheckResult>)
    ensures AllRows(rs) == [] <==> TotalTests(rs) == 0
  {
    RowCount(rs);
  }

  /** The kind of the i-th row of a file, by position. */
  function KindAt(cr: CheckResult, i: nat): string {
    var s, e, w, k := cr.successes, |cr.exceptions|, |cr.warnings|, |cr.skipped|;
    if i < s then "success" else if i < s + e then "exception" else if i < s + e + w then "warning"
    else if i < s + e + w + k then "skipped" else "failure"
  }

  /** Within a file the rows come in the order successes, exceptions,
      warnings, skipped, failures, all labelled with the file and its
      namespace. */
  lemma FileRowsOrder(cr: CheckResult)
    ensures forall i :: 0 <= i < |FileRows(cr)| ==>
      FileRows(cr)[i].result == KindAt(cr, i) && FileRows(cr)[i].file == cr.fileName && FileRows(cr)[i].namespace == cr.namespace
  {
  }
}
