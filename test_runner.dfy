/** The test runner of internal/runner/test.go: picking the files to test,
    and querying the `warn` and `deny` rules of each namespace with exception
    filtering and success padding. The engine this runner drives answers a
    query with the results that carry a message (violations) and those that
    do not (successes); that engine is the parameter `query`. */
module TestRunner {
  import opened Wrappers
  import opened Values
  import opened Results
  import Engine

  /** What the engine's Query returns: (violations, successes). */
  datatype Answer = Answer(violations: seq<Result>, successes: seq<Result>)

  type Query = (Value, string) -> Outcome<Answer>

  /** Which of the two rule-name patterns (warnQ, denyQ) is queried. */
  datatype Kind = Warn | Deny

  predicate Matches(kind: Kind, name: string) {
    match kind
    case Warn => Engine.IsWarning(name)
    case Deny => Engine.IsFailure(name)
  }

  /** stringInSlice: sequence membership. */
  predicate StringInSlice(a: string, list: seq<string>)
    ensures StringInSlice(a, list) <==> a in list
  {
    |list| > 0 && (list[0] == a || StringInSlice(a, list[1..]))
  }

  // ---- parseFileList -------------------------------------------------------

  /** The file system as parseFileList sees it: `stat` says whether a path
      is a directory (or fails), `listDir` yields the files found under a
      directory given the ignore pattern (or fails). */
  type Stat = string -> Outcome<bool>
  type ListDir = (string, string) -> Outcome<seq<string>>

  /** The files named so far, before the final emptiness check. */
  function CollectFiles(stat: Stat, listDir: ListDir, fileList: seq<string>, ignore: string): Outcome<seq<string>> {
    if |fileList| == 0 then Ok([])
    else
      match CollectFiles(stat, listDir, fileList[..|fileList| - 1], ignore)
      case Fail(e) => Fail(e)
      case Ok(acc) =>
        var file := fileList[|fileList| - 1];
        if file == "" then Ok(acc)
        else if file == "-" then Ok(acc + ["-"])
        else
          match stat(file)
          case Fail(e) => Fail("get file info: " + e)
          case Ok(isDir) =>
            if !isDir then Ok(acc + [file])
            else
              match listDir(file, ignore)
              case Fail(e) => Fail("get files from directory: " + e)
              case Ok(found) => Ok(acc + found)
  }

  function FileListSpec(stat: Stat, listDir: ListDir, fileList: seq<string>, ignore: string): Outcome<seq<string>> {
    match CollectFiles(stat, listDir, fileList, ignore)
    case Fail(e) => Fail(e)
    case Ok(files) => if |files| == 0 then Fail("no files found") else Ok(files)
  }

  lemma {:induction false} CollectFailSticks(stat: Stat, listDir: ListDir, fileList: seq<string>, k: nat, ignore: string)
    requires k <= |fileList|
    requires CollectFiles(stat, listDir, fileList[..k], ignore).Fail?
    ensures CollectFiles(stat, listDir, fileList, ignore) == CollectFiles(stat, listDir, fileList[..k], ignore)
    decreases |fileList| - k
  {
    if k < |fileList| {
      assert fileList[..k + 1][..k] == fileList[..k];
      CollectFailSticks(stat, listDir, fileList, k + 1, ignore);
    } else {
      assert fileList[..k] == fileList;
    }
  }

  /** parseFileList. */
  method ParseFileList(stat: Stat, listDir: ListDir, fileList: seq<string>, ignore: string)
    returns (r: Outcome<seq<string>>)
    ensures r == FileListSpec(stat, listDir, fileList, ignore)
  {
    var files: seq<string> := [];
    var i := 0;
    while i < |fileList|
      invariant 0 <= i <= |fileList|
      invariant CollectFiles(stat, listDir, fileList[..i], ignore) == Ok(files)
    {
      assert fileList[..i + 1][..i] == fileList[..i];
      var file := fileList[i];
      if file == "" {
      } else if file == "-" {
        files := files + ["-"];
      } else {
        var info := stat(file);
        if info.Fail? {
          CollectFailSticks(stat, listDir, fileList, i + 1, ignore);
          return Fail("get file info: " + info.error);
        }
        if info.value {
          var found := listDir(file, ignore);
          if found.Fail? {
            CollectFailSticks(stat, listDir, fileList, i + 1, ignore);
            return Fail("get files from directory: " + found.error);
          }
          files := files + found.value;
        } else {
          files := files + [file];
        }
      }
      i := i + 1;
    }
    assert fileList[..|fileList|] == fileList;
    if |files| == 0 {
      return Fail("no files found");
    }
    return Ok(files);
  }

  /** The names that are neither empty nor directories, in order. */
  function NonEmpty(fileList: seq<string>): seq<string> {
    if |fileList| == 0 then []
    else NonEmpty(fileList[..|fileList| - 1]) + (if fileList[|fileList| - 1] == "" then [] else [fileList[|fileList| - 1]])
  }

  /** Without directories, parseFileList keeps the non-empty names in order
      ("-" included) and fails with "no files found" when none is left. */
  lemma {:induction false} PlainFileList(stat: Stat, listDir: ListDir, fileList: seq<string>, ignore: string)
    requires forall i :: 0 <= i < |fileList| && fileList[i] != "" && fileList[i] != "-" ==> stat(fileList[i]) == Ok(false)
    ensures CollectFiles(stat, listDir, fileList, ignore) == Ok(NonEmpty(fileList))
    ensures FileListSpec(stat, listDir, fileList, ignore) ==
      if NonEmpty(fileList) == [] then Fail("no files found") else Ok(NonEmpty(fileList))
  {
    if |fileList| > 0 {
      var init := fileList[..|fileList| - 1];
      forall i | 0 <= i < |init| && init[i] != "" && init[i] != "-" ensures stat(init[i]) == Ok(false) {
        assert init[i] == fileList[i];
      }
      PlainFileList(stat, listDir, init, ignore);
      var last := fileList[|fileList| - 1];
      var acc := NonEmpty(init);
      assert CollectFiles(stat, listDir, init, ignore) == Ok(acc);
      if last == "" {
        assert NonEmpty(fileList) == acc + [];
        assert acc + [] == acc;
        assert CollectFiles(stat, listDir, fileList, ignore) == Ok(acc);
      } else if last == "-" {
        assert NonEmpty(fileList) == acc + [last];
        assert CollectFiles(stat, listDir, fileList, ignore) == Ok(acc + ["-"]);
      } else {
        assert stat(last) == Ok(false);
        assert NonEmpty(fileList) == acc + [last];
        assert CollectFiles(stat, listDir, fileList, ignore) == Ok(acc + [last]);
      }
    }
  }

  /** A successful parse never yields an empty list. */
  lemma FilesNotEmpty(stat: Stat, listDir: ListDir, fileList: seq<string>, ignore: string)
    ensures FileListSpec(stat, listDir, fileList, ignore).Ok? ==> |FileListSpec(stat, listDir, fileList, ignore).value| > 0
  {
  }

  // ---- one rule, one input -------------------------------------------------

  /** A rule's violations, exceptions and successes. */
  datatype Filtered = Filtered(violations: seq<Result>, exceptions: seq<Result>, successes: seq<Result>)

  function Size(f: Filtered): nat {
    |f.violations| + |f.exceptions| + |f.successes|
  }

  /** filterExceptionsQuery: the rule's violations and successes, the
      exception query's successes as exceptions, and no violations once
      there is any exception. */
  function FilterExceptions(query: Query, q: string, eq: string, input: Value): Outcome<Filtered> {
    match query(input, q)
    case Fail(e) => Fail("run query: " + e)
    case Ok(answer) =>
      match query(input, eq)
      case Fail(e) => Fail("exception query: " + e)
      case Ok(excepted) =>
        var exceptions := excepted.successes;
        Ok(Filtered(if |exceptions| > 0 then [] else answer.violations, exceptions, answer.successes))
  }

  /** What filterExceptionsQuery promises: both queries answered, the
      exception query's successes as exceptions, the rule's successes kept,
      the rule's violations only when no exception was found; otherwise the
      first query error, wrapped. */
  lemma FilterExceptionsFiles(query: Query, q: string, eq: string, input: Value)
    ensures var r := FilterExceptions(query, q, eq, input);
      r.Ok? ==>
        (query(input, q).Ok? && query(input, eq).Ok?
         && r.value.exceptions == query(input, eq).value.successes
         && r.value.successes == query(input, q).value.successes
         && r.value.violations == (if |r.value.exceptions| > 0 then [] else query(input, q).value.violations))
    ensures query(input, q).Fail? ==> FilterExceptions(query, q, eq, input) == Fail("run query: " + query(input, q).error)
    ensures query(input, q).Ok? && query(input, eq).Fail? ==>
      FilterExceptions(query, q, eq, input) == Fail("exception query: " + query(input, eq).error)
  {
  }

  function Concat(a: Filtered, b: Filtered): Filtered {
    Filtered(a.violations + b.violations, a.exceptions + b.exceptions, a.successes + b.successes)
  }

  /** runMultipleQueries: one filtered query per document, concatenated. */
  function RunMultiple(query: Query, q: string, eq: string, inputs: seq<Value>): Outcome<Filtered> {
    if |inputs| == 0 then Ok(Filtered([], [], []))
    else
      match RunMultiple(query, q, eq, inputs[..|inputs| - 1])
      case Fail(e) => Fail(e)
      case Ok(acc) =>
        match FilterExceptions(query, q, eq, inputs[|inputs| - 1])
        case Fail(e) => Fail("run query: " + e)
        case Ok(f) => Ok(Concat(acc, f))
  }

  lemma {:induction false} RunMultipleFailSticks(query: Query, q: string, eq: string, inputs: seq<Value>, k: nat)
    requires k <= |inputs|
    requires RunMultiple(query, q, eq, inputs[..k]).Fail?
    ensures RunMultiple(query, q, eq, inputs) == RunMultiple(query, q, eq, inputs[..k])
    decreases |inputs| - k
  {
    if k < |inputs| {
      assert inputs[..k + 1][..k] == inputs[..k];
      RunMultipleFailSticks(query, q, eq, inputs, k + 1);
    } else {
      assert inputs[..k] == inputs;
    }
  }

  method RunMultipleQueries(query: Query, q: string, eq: string, inputs: seq<Value>) returns (r: Outcome<Filtered>)
    ensures r == RunMultiple(query, q, eq, inputs)
  {
    var acc := Filtered([], [], []);
    var i := 0;
    while i < |inputs|
      invariant 0 <= i <= |inputs|
      invariant RunMultiple(query, q, eq, inputs[..i]) == Ok(acc)
    {
      assert inputs[..i + 1][..i] == inputs[..i];
      var f := FilterExceptions(query, q, eq, inputs[i]);
      if f.Fail? {
        RunMultipleFailSticks(query, q, eq, inputs, i + 1);
        return Fail("run query: " + f.error);
      }
      acc := Concat(acc, f.value);
      i := i + 1;
    }
    assert inputs[..|inputs|] == inputs;
    return Ok(acc);
  }

  /** A document with an exception contributes no violations; exceptions in
      one document do not suppress the violations of another. */
  lemma {:induction false} RunMultipleViolations(query: Query, q: string, eq: string, inputs: seq<Value>)
    requires RunMultiple(query, q, eq, inputs).Ok?
    ensures forall i :: 0 <= i < |inputs| ==> FilterExceptions(query, q, eq, inputs[i]).Ok?
    ensures RunMultiple(query, q, eq, inputs).value.violations == Violations(query, q, eq, inputs)
  {
    if |inputs| > 0 {
      var init := inputs[..|inputs| - 1];
      RunMultipleViolations(query, q, eq, init);
      forall i | 0 <= i < |inputs| ensures FilterExceptions(query, q, eq, inputs[i]).Ok? {
        if i < |init| { assert inputs[i] == init[i]; }
      }
    }
  }

  /** The violations gathered over the documents, each document's only when
      its exception query found nothing. */
  function Violations(query: Query, q: string, eq: string, inputs: seq<Value>): seq<Result>
    requires forall i :: 0 <= i < |inputs| ==> FilterExceptions(query, q, eq, inputs[i]).Ok?
  {
    if |inputs| == 0 then []
    else
      var d := inputs[|inputs| - 1];
      assert FilterExceptions(query, q, eq, d).Ok?;
      Violations(query, q, eq, inputs[..|inputs| - 1])
      + (if |query(d, eq).value.successes| > 0 then [] else query(d, q).value.violations)
  }

  // ---- runRules -------------------------------------------------------------

  /** The rule heads of one module matching the pattern, in order. */
  function KindRules(kind: Kind, rules: seq<string>): seq<string> {
    if |rules| == 0 then []
    else
      var last := rules[|rules| - 1];
      KindRules(kind, rules[..|rules| - 1]) + (if Matches(kind, last) then [last] else [])
  }

  /** Only rule heads that match the pattern are kept. */
  lemma {:induction false} KindRulesMatch(kind: Kind, rules: seq<string>)
    ensures forall x :: x in KindRules(kind, rules) ==> Matches(kind, x)
  {
    if |rules| > 0 {
      KindRulesMatch(kind, rules[..|rules| - 1]);
    }
  }

  /** Every matching rule head of the modules in the namespace, repetitions kept. */
  function KindHeads(modules: seq<Engine.Module>, namespace: string, kind: Kind): seq<string> {
    if |modules| == 0 then []
    else
      var m := modules[|modules| - 1];
      KindHeads(modules[..|modules| - 1], namespace, kind)
      + (if Engine.NamespaceOf(m.packagePath) == namespace then KindRules(kind, m.rules) else [])
  }

  /** One more rule head extends the matching heads by that head when it matches. */
  lemma KindRulesStep(kind: Kind, rules: seq<string>, j: nat)
    requires j < |rules|
    ensures KindRules(kind, rules[..j + 1]) == KindRules(kind, rules[..j]) + (if Matches(kind, rules[j]) then [rules[j]] else [])
  {
    assert rules[..j + 1][..j] == rules[..j];
  }

  /** One rule head: counted, and named once, when it matches. */
  method AddRule(matched: bool, rule: string, ghost before: seq<string>, ghost after: seq<string>, names0: seq<string>, n0: nat)
    returns (names: seq<string>, n: nat)
    requires names0 == Engine.Dedup(before) && n0 == |before|
    requires after == before + (if matched then [rule] else [])
    ensures names == Engine.Dedup(after)
    ensures n == |after|
  {
    names, n := names0, n0;
    if matched {
      Engine.DedupStep(before, rule);
      Engine.DedupIn(before, rule);
      n := n + 1;
      if !StringInSlice(rule, names) {
        names := names + [rule];
      }
    } else {
      assert before + [] == before;
    }
  }

  /** The rules of one module (internal/runner/test.go:223-234). */
  method CollectModuleRules(kind: Kind, rules: seq<string>, ghost seen: seq<string>, names0: seq<string>, n0: nat)
    returns (names: seq<string>, n: nat)
    requires names0 == Engine.Dedup(seen) && n0 == |seen|
    ensures names == Engine.Dedup(seen + KindRules(kind, rules))
    ensures n == |seen + KindRules(kind, rules)|
  {
    names, n := names0, n0;
    assert rules[..0] == [] && seen + KindRules(kind, []) == seen;
    var j := 0;
    while j < |rules|
      invariant 0 <= j <= |rules|
      invariant names == Engine.Dedup(seen + KindRules(kind, rules[..j]))
      invariant n == |seen + KindRules(kind, rules[..j])|
    {
      var rule := rules[j];
      var matched := Matches(kind, rule);
      KindRulesStep(kind, rules, j);
      ghost var before := seen + KindRules(kind, rules[..j]);
      ghost var after := seen + KindRules(kind, rules[..j + 1]);
      assert after == before + (if matched then [rule] else []);
      names, n := AddRule(matched, rule, before, after, names, n);
      j := j + 1;
    }
    assert rules[..|rules|] == rules;
  }

  /** The first loop of runRules: the distinct matching rule names of the
      namespace in first-seen order, and how many rule heads match. */
  method CollectRules(modules: seq<Engine.Module>, namespace: string, kind: Kind) returns (names: seq<string>, n: nat)
    ensures names == Engine.Dedup(KindHeads(modules, namespace, kind))
    ensures n == |KindHeads(modules, namespace, kind)|
  {
    names, n := [], 0;
    var i := 0;
    while i < |modules|
      invariant 0 <= i <= |modules|
      invariant names == Engine.Dedup(KindHeads(modules[..i], namespace, kind))
      invariant n == |KindHeads(modules[..i], namespace, kind)|
    {
      assert modules[..i + 1][..i] == modules[..i];
      if Engine.NamespaceOf(modules[i].packagePath) == namespace {
        names, n := CollectModuleRules(kind, modules[i].rules, KindHeads(modules[..i], namespace, kind), names, n);
        assert KindHeads(modules[..i + 1], namespace, kind) == KindHeads(modules[..i], namespace, kind) + KindRules(kind, modules[i].rules);
      } else {
        assert KindHeads(modules[..i + 1], namespace, kind) == KindHeads(modules[..i], namespace, kind) + [];
        assert KindHeads(modules[..i + 1], namespace, kind) == KindHeads(modules[..i], namespace, kind);
      }
      i := i + 1;
    }
    assert modules[..|modules|] == modules;
  }

  /** The number of tests expected: one per matching rule head, times the
      number of documents when the input is a list of documents. */
  function ExpectedTests(heads: nat, input: Value): nat {
    if input.Arr? then heads * |input.items| else heads
  }

  /** One rule against the input: every document of a list, or the input itself. */
  function RunRule(query: Query, namespace: string, input: Value, rule: string): Outcome<Filtered> {
    var q := Engine.RuleQuery(namespace, rule);
    var eq := Engine.ExceptionQuery(namespace, rule);
    if input.Arr? then
      match RunMultiple(query, q, eq, input.items)
      case Fail(e) => Fail("run multiple queries: " + e)
      case Ok(f) => Ok(f)
    else
      match FilterExceptions(query, q, eq, input)
      case Fail(e) => Fail("run query: " + e)
      case Ok(f) => Ok(f)
  }

  /** The rule loop of runRules; the first error ends it. */
  function RunEach(query: Query, namespace: string, input: Value, rules: seq<string>): Outcome<Filtered> {
    if |rules| == 0 then Ok(Filtered([], [], []))
    else
      match RunEach(query, namespace, input, rules[..|rules| - 1])
      case Fail(e) => Fail(e)
      case Ok(acc) =>
        match RunRule(query, namespace, input, rules[|rules| - 1])
        case Fail(e) => Fail(e)
        case Ok(f) => Ok(Concat(acc, f))
  }

  /** What runRules returns. */
  function RunRulesSpec(modules: seq<Engine.Module>, query: Query, namespace: string, input: Value, kind: Kind): Outcome<Filtered> {
    var heads := KindHeads(modules, namespace, kind);
    match RunEach(query, namespace, input, Engine.Dedup(heads))
    case Fail(e) => Fail(e)
    case Ok(f) =>
      Ok(f.(successes := f.successes + Engine.Padding(Size(f), ExpectedTests(|heads|, input))))
  }

  lemma {:induction false} RunEachFailSticks(query: Query, namespace: string, input: Value, rules: seq<string>, k: nat)
    requires k <= |rules|
    requires RunEach(query, namespace, input, rules[..k]).Fail?
    ensures RunEach(query, namespace, input, rules) == RunEach(query, namespace, input, rules[..k])
    decreases |rules| - k
  {
    if k < |rules| {
      assert rules[..k + 1][..k] == rules[..k];
      RunEachFailSticks(query, namespace, input, rules, k + 1);
    } else {
      assert rules[..k] == rules;
    }
  }

  /** One more rule extends the loop by that rule's answers. */
  lemma RunEachStep(query: Query, namespace: string, input: Value, rules: seq<string>, i: nat)
    requires i < |rules|
    ensures var before := RunEach(query, namespace, input, rules[..i]);
      var one := RunRule(query, namespace, input, rules[i]);
      RunEach(query, namespace, input, rules[..i + 1])
        == if before.Fail? then before
           else if one.Fail? then Fail(one.error)
           else Ok(Concat(before.value, one.value))
  {
    assert rules[..i + 1][..i] == rules[..i];
  }

  /** The body of the rule loop of runRules (internal/runner/test.go:248-270). */
  method RunOneRule(query: Query, namespace: string, input: Value, rule: string) returns (r: Outcome<Filtered>)
    ensures r == RunRule(query, namespace, input, rule)
  {
    var q := Engine.RuleQuery(namespace, rule);
    var eq := Engine.ExceptionQuery(namespace, rule);
    if input.Arr? {
      r := RunMultipleQueries(query, q, eq, input.items);
      if r.Fail? {
        r := Fail("run multiple queries: " + r.error);
      }
    } else {
      r := FilterExceptions(query, q, eq, input);
      if r.Fail? {
        r := Fail("run query: " + r.error);
      }
    }
  }

  /** One pass of the rule loop: the next rule's answers added to the ones so far. */
  method RunEachNext(query: Query, namespace: string, input: Value, rules: seq<string>, i: nat, acc: Filtered)
    returns (r: Outcome<Filtered>)
    requires i < |rules| && RunEach(query, namespace, input, rules[..i]) == Ok(acc)
    ensures r == RunEach(query, namespace, input, rules[..i + 1])
  {
    RunEachStep(query, namespace, input, rules, i);
    var f := RunOneRule(query, namespace, input, rules[i]);
    if f.Fail? {
      return Fail(f.error);
    }
    return Ok(Concat(acc, f.value));
  }

  /** The rule loop of runRules (internal/runner/test.go:247-271). */
  method RunEachRule(query: Query, namespace: string, input: Value, rules: seq<string>) returns (r: Outcome<Filtered>)
    ensures r == RunEach(query, namespace, input, rules)
  {
    var acc := Filtered([], [], []);
    var i := 0;
    while i < |rules|
      invariant 0 <= i <= |rules|
      invariant RunEach(query, namespace, input, rules[..i]) == Ok(acc)
    {
      var next := RunEachNext(query, namespace, input, rules, i, acc);
      if next.Fail? {
        RunEachFailSticks(query, namespace, input, rules, i + 1);
        return next;
      }
      acc := next.value;
      i := i + 1;
    }
    assert rules[..|rules|] == rules;
    return Ok(acc);
  }

  /** runRules. */
  method RunRules(modules: seq<Engine.Module>, query: Query, namespace: string, input: Value, kind: Kind)
    returns (r: Outcome<Filtered>)
    ensures r == RunRulesSpec(modules, query, namespace, input, kind)
  {
    var rules, numberOfRules := CollectRules(modules, namespace, kind);
    // One test per rule head, times the number of documents for a list.
    var totalTests := ExpectedTests(numberOfRules, input);
    var found := RunEachRule(query, namespace, input, rules);
    if found.Fail? {
      return Fail(found.error);
    }
    var acc := found.value;
    var padded := Engine.Pad(acc.successes, |acc.violations| + |acc.exceptions|, totalTests);
    return Ok(acc.(successes := padded));
  }

  /** Padding: at least the expected number of tests come back, and exactly
      that many when the queries gave fewer. */
  lemma RunRulesCounts(modules: seq<Engine.Module>, query: Query, namespace: string, input: Value, kind: Kind)
    ensures var r := RunRulesSpec(modules, query, namespace, input, kind);
      var expected := ExpectedTests(|KindHeads(modules, namespace, kind)|, input);
      r.Ok? ==> (Size(r.value) >= expected
        && (Size(RunEach(query, namespace, input, Engine.Dedup(KindHeads(modules, namespace, kind))).value) < expected
            ==> Size(r.value) == expected))
  {
  }

  /** Each matching rule is queried once, however many heads it has. */
  lemma QueriedRules(modules: seq<Engine.Module>, namespace: string, kind: Kind)
    ensures forall x :: x in Engine.Dedup(KindHeads(modules, namespace, kind)) <==> x in KindHeads(modules, namespace, kind)
    ensures forall i, j :: 0 <= i < j < |Engine.Dedup(KindHeads(modules, namespace, kind))| ==>
      Engine.Dedup(KindHeads(modules, namespace, kind))[i] != Engine.Dedup(KindHeads(modules, namespace, kind))[j]
  {
    Engine.DedupFacts(KindHeads(modules, namespace, kind));
  }

  // ---- GetResult ------------------------------------------------------------

  /** GetResult over the namespaces so far; the file name is filled in by the caller. */
  function GetResultSpec(modules: seq<Engine.Module>, query: Query, namespaces: seq<string>, input: Value): Outcome<CheckResult> {
    if |namespaces| == 0 then Ok(CheckResult("", [], [], [], []))
    else
      match GetResultSpec(modules, query, namespaces[..|namespaces| - 1], input)
      case Fail(e) => Fail(e)
      case Ok(acc) => NamespaceStep(acc, modules, query, namespaces[|namespaces| - 1], input)
  }

  /** One namespace: first the warn rules, then the deny rules. */
  function NamespaceStep(acc: CheckResult, modules: seq<Engine.Module>, query: Query, namespace: string, input: Value): Outcome<CheckResult> {
    match RunRulesSpec(modules, query, namespace, input, Warn)
    case Fail(e) => Fail("running warn rules: " + e)
    case Ok(w) =>
      match RunRulesSpec(modules, query, namespace, input, Deny)
      case Fail(e) => Fail("running deny rules: " + e)
      case Ok(d) =>
        Ok(CheckResult(acc.fileName, acc.warnings + w.violations, acc.failures + d.violations,
          acc.exceptions + w.exceptions + d.exceptions, acc.successes + w.successes + d.successes))
  }

  lemma {:induction false} GetResultFailSticks(modules: seq<Engine.Module>, query: Query, namespaces: seq<string>, k: nat, input: Value)
    requires k <= |namespaces|
    requires GetResultSpec(modules, query, namespaces[..k], input).Fail?
    ensures GetResultSpec(modules, query, namespaces, input) == GetResultSpec(modules, query, namespaces[..k], input)
    decreases |namespaces| - k
  {
    if k < |namespaces| {
      assert namespaces[..k + 1][..k] == namespaces[..k];
      GetResultFailSticks(modules, query, namespaces, k + 1, input);
    } else {
      assert namespaces[..k] == namespaces;
    }
  }

  /** One more namespace extends the result by that namespace's step. */
  lemma GetResultStep(modules: seq<Engine.Module>, query: Query, namespaces: seq<string>, i: nat, input: Value)
    requires i < |namespaces|
    ensures var before := GetResultSpec(modules, query, namespaces[..i], input);
      GetResultSpec(modules, query, namespaces[..i + 1], input)
        == if before.Fail? then before else NamespaceStep(before.value, modules, query, namespaces[i], input)
  {
    assert namespaces[..i + 1][..i] == namespaces[..i];
  }

  /** The body of the namespace loop of GetResult (internal/runner/test.go:186-209). */
  method RunNamespace(acc: CheckResult, modules: seq<Engine.Module>, query: Query, namespace: string, input: Value)
    returns (r: Outcome<CheckResult>)
    ensures r == NamespaceStep(acc, modules, query, namespace, input)
  {
    var w := RunRules(modules, query, namespace, input, Warn);
    if w.Fail? {
      return Fail("running warn rules: " + w.error);
    }
    var d := RunRules(modules, query, namespace, input, Deny);
    if d.Fail? {
      return Fail("running deny rules: " + d.error);
    }
    return Ok(CheckResult(acc.fileName, acc.warnings + w.value.violations, acc.failures + d.value.violations,
      acc.exceptions + w.value.exceptions + d.value.exceptions,
      acc.successes + w.value.successes + d.value.successes));
  }

  /** TestRunner.GetResult. */
  method GetResult(modules: seq<Engine.Module>, query: Query, namespaces: seq<string>, input: Value)
    returns (r: Outcome<CheckResult>)
    ensures r == GetResultSpec(modules, query, namespaces, input)
  {
    var acc := CheckResult("", [], [], [], []);
    var i := 0;
    while i < |namespaces|
      invariant 0 <= i <= |namespaces|
      invariant GetResultSpec(modules, query, namespaces[..i], input) == Ok(acc)
    {
      GetResultStep(modules, query, namespaces, i, input);
      var next := RunNamespace(acc, modules, query, namespaces[i], input);
      if next.Fail? {
        GetResultFailSticks(modules, query, namespaces, i + 1, input);
        return next;
      }
      acc := next.value;
      i := i + 1;
    }
    assert namespaces[..|namespaces|] == namespaces;
    return Ok(acc);
  }

  /** For one namespace, warnings are the warn rules' violations, failures
      the deny rules' violations, and exceptions and successes come from
      both, warn rules first. */
  lemma OneNamespace(modules: seq<Engine.Module>, query: Query, namespace: string, input: Value)
    requires RunRulesSpec(modules, query, namespace, input, Warn).Ok?
    requires RunRulesSpec(modules, query, namespace, input, Deny).Ok?
    ensures var w := RunRulesSpec(modules, query, namespace, input, Warn).value;
      var d := RunRulesSpec(modules, query, namespace, input, Deny).value;
      GetResultSpec(modules, query, [namespace], input)
        == Ok(CheckResult("", w.violations, d.violations, w.exceptions + d.exceptions, w.successes + d.successes))
  {
    GetResultStep(modules, query, [namespace], 0, input);
    assert [namespace][..1] == [namespace];
    var w := RunRulesSpec(modules, query, namespace, input, Warn).value;
    var d := RunRulesSpec(modules, query, namespace, input, Deny).value;
    assert [] + w.violations == w.violations && [] + d.violations == d.violations;
    assert [] + w.exceptions + d.exceptions == w.exceptions + d.exceptions;
    assert [] + w.successes + d.successes == w.successes + d.successes;
  }

}
