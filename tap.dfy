/** The TAP formatter (output/tap.go): per file a plan line "1..N" and one
    numbered test line per failure, warning, exception and success. */
module Tap {
  import opened Strs
  import Results
  import opened Reports

  /** One planned test: whether it is "ok", and the message it carries
      (success lines carry none). */
  datatype Test = Test(ok: bool, message: string, hasMessage: bool)

  /** "-" for standard input, else "- <file> -". */
  function Indicator(fileName: string): string {
    if fileName == "-" then "-" else "- " + fileName + " -"
  }

  /** The plan count N: successes, failures, warnings and exceptions, but
      not skipped results. */
  function PlanCount(cr: CheckResult): nat {
    cr.successes + |cr.failures| + |cr.warnings| + |cr.exceptions|
  }

  /** "ok <n> <indicator>[ <message>]" or "not ok ...". */
  function Render(n: nat, indicator: string, t: Test): string {
    (if t.ok then "ok " else "not ok ") + NatToString(n) + " " + indicator + (if t.hasMessage then " " + t.message else "")
  }

  /** Results as tests that are all `ok` or all "not ok". */
  function AsTests(ok: bool, rs: seq<Results.Result>): seq<Test> {
    if rs == [] then [] else AsTests(ok, rs[..|rs| - 1]) + [Test(ok, rs[|rs| - 1].message, true)]
  }

  /** n successes, which carry no message. */
  function Passes(n: nat): seq<Test> {
    if n == 0 then [] else Passes(n - 1) + [Test(true, "", false)]
  }

  lemma {:induction false} AsTestsLength(ok: bool, rs: seq<Results.Result>)
    ensures |AsTests(ok, rs)| == |rs|
  {
    if rs != [] {
      AsTestsLength(ok, rs[..|rs| - 1]);
    }
  }

  lemma {:induction false} PassesLength(n: nat)
    ensures |Passes(n)| == n
  {
    if n > 0 {
      PassesLength(n - 1);
    }
  }

  lemma {:induction false} AsTestsAt(ok: bool, rs: seq<Results.Result>)
    ensures |AsTests(ok, rs)| == |rs|
    ensures forall i :: 0 <= i < |rs| ==> AsTests(ok, rs)[i] == Test(ok, rs[i].message, true)
  {
    if rs != [] {
      AsTestsAt(ok, rs[..|rs| - 1]);
    }
  }

  lemma {:induction false} PassesAt(n: nat)
    ensures |Passes(n)| == n
    ensures forall i :: 0 <= i < n ==> Passes(n)[i] == Test(true, "", false)
  {
    if n > 0 {
      PassesAt(n - 1);
    }
  }

  /** The tests of one file in the order they are numbered. */
  function Tests(cr: CheckResult): seq<Test> {
    AsTests(false, cr.failures) + AsTests(false, cr.warnings) + AsTests(true, cr.exceptions) + Passes(cr.successes)
  }

  /** Test lines numbered from `start`. */
  function Numbered(start: nat, indicator: string, ts: seq<Test>): seq<string>
    decreases |ts|
  {
    if ts == [] then [] else [Render(start, indicator, ts[0])] + Numbered(start + 1, indicator, ts[1..])
  }

  /** A "# ..." header followed by its tests, or nothing for an empty group. */
  function Group(header: string, start: nat, indicator: string, ts: seq<Test>): seq<string> {
    if ts == [] then [] else [header] + Numbered(start, indicator, ts)
  }

  /** The lines written for one file with a non-zero plan: the plan line,
      then the groups. */
  function FileLines(cr: CheckResult): seq<string> {
    ["1.." + NatToString(PlanCount(cr))] + FileGroups(cr)
  }

  /** The failures, then the headed groups of warnings, exceptions and successes. */
  function FileGroups(cr: CheckResult): seq<string> {
    Layout(Indicator(cr.fileName), AsTests(false, cr.failures), AsTests(false, cr.warnings),
      AsTests(true, cr.exceptions), Passes(cr.successes))
  }

  /** Failures, warnings, exceptions and successes numbered on from one
      another, the last three under their headers. */
  function Layout(ind: string, tf: seq<Test>, tw: seq<Test>, te: seq<Test>, ts: seq<Test>): seq<string> {
    Numbered(1, ind, tf)
    + Group("# warnings", 1 + |tf|, ind, tw)
    + Group("# exceptions", 1 + |tf| + |tw|, ind, te)
    + Group("# successes", 1 + |tf| + |tw| + |te|, ind, ts)
  }

  /** What TAP.Output writes: output stops at the first file whose plan is
      zero. */
  function TapLines(rs: seq<CheckResult>): seq<string> {
    if rs == [] || PlanCount(rs[0]) == 0 then [] else FileLines(rs[0]) + TapLines(rs[1..])
  }

  /** TAP.Output. */
  method Output(rs: seq<CheckResult>) returns (lines: seq<string>)
    ensures lines == TapLines(rs)
  {
    lines := [];
    var i := 0;
    while i < |rs|
      invariant 0 <= i <= |rs|
      invariant lines + TapLines(rs[i..]) == TapLines(rs)
    {
      var fileLines, stop := OutputFile(rs, i);
      if stop {
        return;
      }
      AppendAssoc(lines, fileLines, TapLines(rs[i + 1..]));
      lines := lines + fileLines;
      i := i + 1;
    }
    assert rs[i..] == [];
  }

  lemma AppendAssoc(a: seq<string>, b: seq<string>, c: seq<string>)
    ensures a + (b + c) == (a + b) + c
  {
  }

  /** The body of the results loop: the lines of file i, or `stop` when its
      plan is zero. */
  method OutputFile(rs: seq<CheckResult>, i: nat) returns (fileLines: seq<string>, stop: bool)
    requires i < |rs|
    ensures stop <==> PlanCount(rs[i]) == 0
    ensures stop ==> TapLines(rs[i..]) == []
    ensures !stop ==> TapLines(rs[i..]) == fileLines + TapLines(rs[i + 1..])
  {
    var result := rs[i];
    var indicator := if result.fileName == "-" then "-" else "- " + result.fileName + " -";
    var totalTests := result.successes + |result.failures| + |result.warnings| + |result.exceptions|;
    TapLinesFrom(rs, i);
    if totalTests == 0 {
      return [], true;
    }
    fileLines := WriteFile(result, indicator, totalTests);
    stop := false;
  }

  /** The lines from file i on: nothing at an empty plan, else that file's
      lines and those of the files after it. */
  lemma TapLinesFrom(rs: seq<CheckResult>, i: nat)
    requires i < |rs|
    ensures TapLines(rs[i..]) == if PlanCount(rs[i]) == 0 then [] else FileLines(rs[i]) + TapLines(rs[i + 1..])
  {
    assert rs[i..][0] == rs[i] && rs[i..][1..] == rs[i + 1..];
  }

  /** The body of the results loop for one file. */
  method WriteFile(result: CheckResult, indicator: string, totalTests: nat) returns (lines: seq<string>)
    requires indicator == Indicator(result.fileName) && totalTests == PlanCount(result)
    ensures lines == FileLines(result)
  {
    ghost var tf, tw, te := AsTests(false, result.failures), AsTests(false, result.warnings), AsTests(true, result.exceptions);
    AsTestsLength(false, result.failures);
    AsTestsLength(false, result.warnings);
    AsTestsLength(true, result.exceptions);
    var counter := 1;
    lines := ["1.." + NatToString(totalTests)];
    var failures, warnings, exceptions, successes;
    failures, counter := WriteNumbered(false, counter, indicator, result.failures);
    assert failures == Numbered(1, indicator, tf) && counter == 1 + |tf|;
    warnings, counter := WriteGroup("# warnings", false, counter, indicator, result.warnings);
    assert warnings == Group("# warnings", 1 + |tf|, indicator, tw) && counter == 1 + |tf| + |tw|;
    exceptions, counter := WriteGroup("# exceptions", true, counter, indicator, result.exceptions);
    assert exceptions == Group("# exceptions", 1 + |tf| + |tw|, indicator, te) && counter == 1 + |tf| + |tw| + |te|;
    successes, counter := WriteSuccessGroup(counter, indicator, result.successes);
    assert successes == Group("# successes", 1 + |tf| + |tw| + |te|, indicator, Passes(result.successes));
    LayoutOf(indicator, tf, tw, te, Passes(result.successes), failures, warnings, exceptions, successes);
    assert FileGroups(result) == Layout(indicator, tf, tw, te, Passes(result.successes));
    lines := lines + (failures + warnings + exceptions + successes);
  }

  lemma LayoutOf(ind: string, tf: seq<Test>, tw: seq<Test>, te: seq<Test>, ts: seq<Test>,
                 a: seq<string>, b: seq<string>, c: seq<string>, d: seq<string>)
    requires a == Numbered(1, ind, tf)
    requires b == Group("# warnings", 1 + |tf|, ind, tw)
    requires c == Group("# exceptions", 1 + |tf| + |tw|, ind, te)
    requires d == Group("# successes", 1 + |tf| + |tw| + |te|, ind, ts)
    ensures Layout(ind, tf, tw, te, ts) == a + b + c + d
  {
  }

  /** The warnings or exceptions of one file: nothing when there are none,
      else the header and the numbered lines. */
  method WriteGroup(header: string, ok: bool, counter: nat, indicator: string, rs: seq<Results.Result>)
    returns (lines: seq<string>, next: nat)
    ensures lines == Group(header, counter, indicator, AsTests(ok, rs))
    ensures next == counter + |rs|
  {
    lines, next := [], counter;
    if |rs| > 0 {
      lines, next := WriteNumbered(ok, counter, indicator, rs);
      lines := [header] + lines;
    }
  }

  /** The successes of one file: nothing when there are none, else the
      header and the numbered lines. */
  method WriteSuccessGroup(counter: nat, indicator: string, n: nat) returns (lines: seq<string>, next: nat)
    ensures lines == Group("# successes", counter, indicator, Passes(n))
    ensures next == counter + n
  {
    lines, next := [], counter;
    if n > 0 {
      lines, next := WriteSuccesses(counter, indicator, n);
      lines := ["# successes"] + lines;
    }
  }

  /** One loop over failures, warnings or exceptions; `ok` is false for the
      first two. */
  method WriteNumbered(ok: bool, counter: nat, indicator: string, rs: seq<Results.Result>)
    returns (lines: seq<string>, next: nat)
    ensures lines == Numbered(counter, indicator, AsTests(ok, rs))
    ensures next == counter + |rs|
  {
    lines := [];
    next := counter;
    var status := if ok then "ok " else "not ok ";
    for j := 0 to |rs|
      invariant next == counter + j
      invariant lines == Numbered(counter, indicator, AsTests(ok, rs[..j]))
    {
      var line := status + NatToString(next) + " " + indicator + " " + rs[j].message;
      assert line == Render(counter + j, indicator, Test(ok, rs[j].message, true));
      assert rs[..j + 1][..j] == rs[..j];
      AsTestsLength(ok, rs[..j]);
      NumberedSnoc(counter, indicator, AsTests(ok, rs[..j]), Test(ok, rs[j].message, true));
      lines := lines + [line];
      next := next + 1;
    }
    assert rs[..|rs|] == rs;
  }

  method WriteSuccesses(counter: nat, indicator: string, n: nat) returns (lines: seq<string>, next: nat)
    ensures lines == Numbered(counter, indicator, Passes(n))
    ensures next == counter + n
  {
    lines := [];
    next := counter;
    for j := 0 to n
      invariant next == counter + j
      invariant lines == Numbered(counter, indicator, Passes(j))
    {
      var line := "ok " + NatToString(next) + " " + indicator;
      assert line == Render(counter + j, indicator, Test(true, "", false));
      PassesLength(j);
      NumberedSnoc(counter, indicator, Passes(j), Test(true, "", false));
      lines := lines + [line];
      next := next + 1;
    }
  }

  lemma NumberedSnoc(start: nat, indicator: string, ts: seq<Test>, t: Test)
    ensures Numbered(start, indicator, ts + [t]) == Numbered(start, indicator, ts) + [Render(start + |ts|, indicator, t)]
  {
    NumberedAppend(start, indicator, ts, [t]);
    assert Numbered(start + |ts|, indicator, [t]) == [Render(start + |ts|, indicator, t)] + Numbered(start + |ts| + 1, indicator, []);
  }

  /** The non-comment lines of a listing. */
  function TestLines(ls: seq<string>): seq<string> {
    if ls == [] then [] else (if HasPrefix(ls[0], "#") then [] else [ls[0]]) + TestLines(ls[1..])
  }

  lemma {:induction false} TestLinesAppend(a: seq<string>, b: seq<string>)
    ensures TestLines(a + b) == TestLines(a) + TestLines(b)
  {
    if a == [] {
      assert a + b == b;
    } else {
      assert (a + b)[0] == a[0];
      assert (a + b)[1..] == a[1..] + b;
      TestLinesAppend(a[1..], b);
    }
  }

  lemma {:induction false} TestLinesNumbered(start: nat, indicator: string, ts: seq<Test>)
    ensures TestLines(Numbered(start, indicator, ts)) == Numbered(start, indicator, ts)
    decreases |ts|
  {
    if ts != [] {
      var ls := Numbered(start, indicator, ts);
      var first := Render(start, indicator, ts[0]);
      assert first[0] == 'o' || first[0] == 'n';
      assert ls == [first] + Numbered(start + 1, indicator, ts[1..]);
      assert ls[0] == first && ls[1..] == Numbered(start + 1, indicator, ts[1..]);
      TestLinesNumbered(start + 1, indicator, ts[1..]);
    }
  }

  lemma TestLinesGroup(header: string, start: nat, indicator: string, ts: seq<Test>)
    requires HasPrefix(header, "#")
    ensures TestLines(Group(header, start, indicator, ts)) == Numbered(start, indicator, ts)
  {
    if ts != [] {
      TestLinesAppend([header], Numbered(start, indicator, ts));
      TestLinesNumbered(start, indicator, ts);
    }
  }

  lemma {:induction false} NumberedAppend(start: nat, indicator: string, a: seq<Test>, b: seq<Test>)
    ensures Numbered(start, indicator, a) + Numbered(start + |a|, indicator, b) == Numbered(start, indicator, a + b)
    decreases |a|
  {
    if a == [] {
      assert a + b == b;
    } else {
      assert (a + b)[0] == a[0] && (a + b)[1..] == a[1..] + b;
      NumberedAppend(start + 1, indicator, a[1..], b);
    }
  }

  /** The i-th test line carries number start + i. */
  lemma {:induction false} NumberedAt(start: nat, indicator: string, ts: seq<Test>, i: nat)
    requires i < |ts|
    ensures |Numbered(start, indicator, ts)| == |ts|
    ensures Numbered(start, indicator, ts)[i] == Render(start + i, indicator, ts[i])
    decreases |ts|
  {
    NumberedLength(start + 1, indicator, ts[1..]);
    if i > 0 {
      NumberedAt(start + 1, indicator, ts[1..], i - 1);
    }
  }

  lemma {:induction false} NumberedLength(start: nat, indicator: string, ts: seq<Test>)
    ensures |Numbered(start, indicator, ts)| == |ts|
    decreases |ts|
  {
    if ts != [] {
      NumberedLength(start + 1, indicator, ts[1..]);
    }
  }

  /** After the plan line, the test lines of a file are its tests numbered
      1..N consecutively in the order failures, warnings, exceptions,
      successes; the first line announces N, and only exceptions and
      successes are "ok". */
  lemma Numbering(cr: CheckResult)
    ensures FileLines(cr)[0] == "1.." + NatToString(PlanCount(cr))
    ensures |Tests(cr)| == PlanCount(cr)
    ensures TestLines(FileLines(cr)[1..]) == Numbered(1, Indicator(cr.fileName), Tests(cr))
    ensures forall k :: 0 <= k < |Tests(cr)| ==> (Tests(cr)[k].ok <==> k >= |cr.failures| + |cr.warnings|)
  {
    NumberedTestLines(cr);
    TestsOkOrder(cr);
  }

  /** The failures and warnings come first and are "not ok"; every test
      after them is "ok". */
  lemma TestsOkOrder(cr: CheckResult)
    ensures |Tests(cr)| == PlanCount(cr)
    ensures forall k :: 0 <= k < |Tests(cr)| ==> (Tests(cr)[k].ok <==> k >= |cr.failures| + |cr.warnings|)
  {
    var tf, tw, te, ts := AsTests(false, cr.failures), AsTests(false, cr.warnings), AsTests(true, cr.exceptions), Passes(cr.successes);
    AsTestsAt(false, cr.failures);
    AsTestsAt(false, cr.warnings);
    AsTestsAt(true, cr.exceptions);
    PassesAt(cr.successes);
    var bad, good := tf + tw, te + ts;
    assert forall k :: 0 <= k < |bad| ==> !bad[k].ok;
    assert forall k :: 0 <= k < |good| ==> good[k].ok;
    assert Tests(cr) == bad + good;
  }

  lemma NumberedTestLines(cr: CheckResult)
    ensures TestLines(FileLines(cr)[1..]) == Numbered(1, Indicator(cr.fileName), Tests(cr))
  {
    assert FileLines(cr)[1..] == FileGroups(cr);
    FileGroupsTests(cr);
  }

  /** The test lines of the groups are the tests numbered from 1. */
  lemma FileGroupsTests(cr: CheckResult)
    ensures TestLines(FileGroups(cr)) == Numbered(1, Indicator(cr.fileName), Tests(cr))
  {
    GroupsTestLines(Indicator(cr.fileName), AsTests(false, cr.failures), AsTests(false, cr.warnings),
      AsTests(true, cr.exceptions), Passes(cr.successes));
  }

  lemma GroupsTestLines(ind: string, tf: seq<Test>, tw: seq<Test>, te: seq<Test>, ts: seq<Test>)
    ensures TestLines(Layout(ind, tf, tw, te, ts)) == Numbered(1, ind, tf + tw + te + ts)
  {
    var a, b, c := 1 + |tf|, 1 + |tf| + |tw|, 1 + |tf| + |tw| + |te|;
    var n, g1, g2, g3 := Numbered(1, ind, tf), Group("# warnings", a, ind, tw), Group("# exceptions", b, ind, te), Group("# successes", c, ind, ts);
    LayoutOf(ind, tf, tw, te, ts, n, g1, g2, g3);
    TestLinesNumbered(1, ind, tf);
    TestLinesGroup("# warnings", a, ind, tw);
    TestLinesGroup("# exceptions", b, ind, te);
    TestLinesGroup("# successes", c, ind, ts);
    var m1, m2, m3 := Numbered(a, ind, tw), Numbered(b, ind, te), Numbered(c, ind, ts);
    StripHeaders(n, g1, g2, g3, m1, m2, m3);
    NumberedJoin(1, ind, tf, tw, a);
    NumberedJoin(1, ind, tf + tw, te, b);
    NumberedJoin(1, ind, tf + tw + te, ts, c);
  }

  lemma NumberedJoin(start: nat, indicator: string, a: seq<Test>, b: seq<Test>, mid: nat)
    requires mid == start + |a|
    ensures Numbered(start, indicator, a) + Numbered(mid, indicator, b) == Numbered(start, indicator, a + b)
  {
    NumberedAppend(start, indicator, a, b);
  }

  lemma StripHeaders(n: seq<string>, g1: seq<string>, g2: seq<string>, g3: seq<string>, m1: seq<string>, m2: seq<string>, m3: seq<string>)
    requires TestLines(n) == n && TestLines(g1) == m1 && TestLines(g2) == m2 && TestLines(g3) == m3
    ensures TestLines(n + g1 + g2 + g3) == n + m1 + m2 + m3
  {
    TestLinesAppend(n + g1 + g2, g3);
    TestLinesAppend(n + g1, g2);
    TestLinesAppend(n, g1);
  }

  /** A file with an empty plan ends the output: nothing after it is
      written. */
  lemma {:induction false} StopsAtEmptyPlan(pre: seq<CheckResult>, cr: CheckResult, rest1: seq<CheckResult>, rest2: seq<CheckResult>)
    requires PlanCount(cr) == 0
    ensures TapLines(pre + [cr] + rest1) == TapLines(pre + [cr] + rest2)
  {
    if pre == [] {
      assert (pre + [cr] + rest1)[0] == cr && (pre + [cr] + rest2)[0] == cr;
    } else {
      assert (pre + [cr] + rest1)[1..] == pre[1..] + [cr] + rest1;
      assert (pre + [cr] + rest2)[1..] == pre[1..] + [cr] + rest2;
      StopsAtEmptyPlan(pre[1..], cr, rest1, rest2);
    }
  }

  /** While no plan is empty, each file's lines are appended after those of
      the files before it. */
  lemma {:induction false} WritesEachFile(rs: seq<CheckResult>, cr: CheckResult)
    requires forall k :: 0 <= k < |rs| ==> PlanCount(rs[k]) > 0
    requires PlanCount(cr) > 0
    ensures TapLines(rs + [cr]) == TapLines(rs) + FileLines(cr)
  {
    if rs == [] {
      assert ([] + [cr])[1..] == [];
    } else {
      assert (rs + [cr])[0] == rs[0];
      assert (rs + [cr])[1..] == rs[1..] + [cr];
      WritesEachFile(rs[1..], cr);
    }
  }
}
