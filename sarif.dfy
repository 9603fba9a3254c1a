/** The SARIF 2.1.0 formatter (output/sarif.go): every failure, warning and
    exception becomes a result object (SARIF 2.1.0 section 3.27) referring
    to a reportingDescriptor (SARIF 2.1.0 section 3.49) in the driver's rule
    list by `ruleId` (SARIF 2.1.0 section 3.27.5) and `ruleIndex`
    (SARIF 2.1.0 section 3.27.6); files with none of these get one pass or
    notApplicable result; the invocation (SARIF 2.1.0 section 3.20) carries
    the exit code. Timestamps and the JSON encoding are not modelled. */
module Sarif {
  import opened Wrappers
  import opened Values
  import opened Strs
  import Results
  import Reports

  const SchemaUri := "https://docs.oasis-open.org/sarif/sarif/v2.1.0/errata01/os/schemas/sarif-schema-2.1.0.json"
  const SarifVersion := "2.1.0"
  const ToolName := "conftest"
  const ToolUri := "https://github.com/open-policy-agent/conftest"

  const ExitNoViolations := "No policy violations found"
  const ExitViolations := "Policy violations found"
  const ExitWarnings := "Policy warnings found"
  const ExitExceptions := "Policy exceptions found"

  /** resultKind together with the resultType table it selects. */
  datatype ResultKind = Success | Skipped | Exception | Failure | Warning

  function RulePrefix(k: ResultKind): string {
    match k
    case Failure => "conftest-failure"
    case Warning => "conftest-warning"
    case Exception => "conftest-exception"
    case Success => "conftest-pass"
    case Skipped => "conftest-skipped"
  }

  /** The `kind` of SARIF 2.1.0 section 3.27.9. */
  function KindStr(k: ResultKind): string {
    match k
    case Failure => "fail"
    case Warning => "review"
    case Exception => "informational"
    case Success => "pass"
    case Skipped => "notApplicable"
  }

  /** The `level` of SARIF 2.1.0 section 3.27.10. */
  function Level(k: ResultKind): string {
    match k
    case Failure => "error"
    case Warning => "warning"
    case Exception => "note"
    case Success => "none"
    case Skipped => "none"
  }

  function Description(k: ResultKind): string {
    match k
    case Failure => "Policy violation"
    case Warning => "Policy warning"
    case Exception => "Policy exception"
    case Success => "Policy was satisfied successfully"
    case Skipped => "Policy check was skipped"
  }

  /** getRuleID. Success, skipped and exception results always use the bare
      prefix; the other cases are stated by the RuleId* lemmas. */
  function GetRuleID(md: Metadata, k: ResultKind, namespace: string): (id: string)
    ensures k.Success? || k.Skipped? || k.Exception? ==> id == RulePrefix(k)
  {
    if k.Success? || k.Skipped? || k.Exception? then RulePrefix(k)
    else if StrAt(md, "package").Some? && StrAt(md, "rule").Some? then
      namespace + "/" + StrAt(md, "package").value + "/" + StrAt(md, "rule").value
    else if StrAt(md, "query").Some? then
      RulePrefix(k) + "-" + ReplaceAll(TrimPrefix(StrAt(md, "query").value, "data."), ".", "-")
    else if StrAt(md, "description").Some? then
      RulePrefix(k) + "/" + ToLower(ReplaceAll(StrAt(md, "description").value, " ", "-"))
    else RulePrefix(k)
  }

  /** String `package` and `rule` metadata name the rule, whatever else the
      metadata holds. */
  lemma RuleIdFromPackage(md: Metadata, k: ResultKind, namespace: string, pkg: string, rule: string)
    requires k.Failure? || k.Warning?
    requires "package" in md && md["package"] == Str(pkg)
    requires "rule" in md && md["rule"] == Str(rule)
    ensures GetRuleID(md, k, namespace) == namespace + "/" + pkg + "/" + rule
  {
  }

  /** Replacing "." by "-" leaves no "." behind. */
  lemma NoDotAfterReplace(s: string)
    ensures '.' !in ReplaceAll(s, ".", "-")
  {
    ReplaceSingle(s, '.', '-');
  }

  /** Without package and rule, a string `query` gives prefix, "-", and the
      query without "data." and with every "." turned into "-"; the part
      after the prefix holds no ".". */
  lemma RuleIdFromQuery(md: Metadata, k: ResultKind, namespace: string, query: string)
    requires k.Failure? || k.Warning?
    requires StrAt(md, "package").None? || StrAt(md, "rule").None?
    requires "query" in md && md["query"] == Str(query)
    ensures var tail := ReplaceAll(TrimPrefix(query, "data."), ".", "-");
      GetRuleID(md, k, namespace) == RulePrefix(k) + "-" + tail && '.' !in tail
  {
    NoDotAfterReplace(TrimPrefix(query, "data."));
  }

  /** Lower-casing keeps spaces out when none were there. */
  lemma NoSpaceAfterLower(s: string)
    requires ' ' !in s
    ensures ' ' !in ToLower(s)
  {
  }

  /** With only a string `description`, the ID is prefix, "/", and the
      description with spaces turned into dashes and lower-cased: it holds
      neither spaces nor upper-case letters. */
  lemma RuleIdFromDescription(md: Metadata, k: ResultKind, namespace: string, desc: string)
    requires k.Failure? || k.Warning?
    requires StrAt(md, "package").None? || StrAt(md, "rule").None?
    requires StrAt(md, "query").None?
    requires "description" in md && md["description"] == Str(desc)
    ensures var tail := ToLower(ReplaceAll(desc, " ", "-"));
      GetRuleID(md, k, namespace) == RulePrefix(k) + "/" + tail
      && ' ' !in tail && forall i :: 0 <= i < |tail| ==> !IsUpper(tail[i])
  {
    ReplaceSingle(desc, ' ', '-');
    NoSpaceAfterLower(ReplaceAll(desc, " ", "-"));
  }

  /** With no identifying metadata the ID is the bare prefix. */
  lemma RuleIdFallback(md: Metadata, k: ResultKind, namespace: string)
    requires StrAt(md, "package").None? || StrAt(md, "rule").None?
    requires StrAt(md, "query").None? && StrAt(md, "description").None?
    ensures GetRuleID(md, k, namespace) == RulePrefix(k)
  {
  }

  /** The metadata keys createRule consumes itself. */
  const RuleFields: set<string> := {"package", "rule", "description", "url", "help", "query"}
  /** The metadata keys createProperties leaves out. */
  const RuleLevelFields: set<string> := {"package", "rule", "description", "url", "help"}

  /** A reportingDescriptor (SARIF 2.1.0 section 3.49). */
  datatype SarifRule = SarifRule(
    id: string,
    shortDescription: string,
    fullDescription: Option<string>,
    help: Option<string>,
    helpUri: string,
    properties: Metadata)

  /** createRule: the rule object for a result, under the result's rule ID. */
  function CreateRule(result: Results.Result, k: ResultKind, namespace: string): (rule: SarifRule)
    ensures rule.id == GetRuleID(result.metadata, k, namespace)
  {
    var md := result.metadata;
    var typed := map key | key in md && key in {"package", "rule", "query"} && md[key].Str? :: md[key];
    var others := map key | key in md && key !in RuleFields :: md[key];
    var url := StrAt(md, "url");
    SarifRule(
      GetRuleID(md, k, namespace),
      result.message,
      StrAt(md, "description"),
      StrAt(md, "help"),
      if url.Some? then url.value else "",
      typed["namespace" := Str(namespace)] + others)
  }

  /** What createRule puts in a rule besides its ID: its short description
      is the message, its full description, help and help URI the string
      metadata of those names; its properties hold the string-valued
      package, rule and query, the namespace, and every other metadata
      entry (which, being copied last, wins over the namespace). */
  lemma CreateRuleFields(result: Results.Result, k: ResultKind, namespace: string)
    ensures var rule := CreateRule(result, k, namespace);
      var md := result.metadata;
      && rule.shortDescription == result.message
      && rule.fullDescription == StrAt(md, "description")
      && rule.help == StrAt(md, "help")
      && rule.helpUri == (if StrAt(md, "url").Some? then StrAt(md, "url").value else "")
      && "namespace" in rule.properties
      && ("namespace" !in md ==> rule.properties["namespace"] == Str(namespace))
      && (forall key :: key in md && key !in RuleFields ==>
            key in rule.properties && rule.properties[key] == md[key])
      && (forall key :: key in {"package", "rule", "query"} ==>
            (key in rule.properties <==> StrAt(md, key).Some?))
      && (forall key :: key in rule.properties ==> key == "namespace" || key in md)
      && (forall key :: key in rule.properties && key in RuleFields ==> rule.properties[key] == md[key])
  {
  }

  /** createProperties: result properties are the metadata without the
      rule-level keys, plus the namespace, which always wins. */
  function CreateProperties(md: Metadata, namespace: string): (props: Metadata)
    ensures "namespace" in props && props["namespace"] == Str(namespace)
    ensures forall key :: key in props ==> key == "namespace" || (key in md && key !in RuleLevelFields)
    ensures forall key :: key in md && key !in RuleLevelFields && key != "namespace" ==>
      key in props && props[key] == md[key]
  {
    (map key | key in md && key !in RuleLevelFields :: md[key])["namespace" := Str(namespace)]
  }

  /** A result object (SARIF 2.1.0 section 3.27). */
  datatype SarifResult = SarifResult(
    ruleId: string,
    ruleIndex: int,
    kind: string,
    level: string,
    message: string,
    locations: seq<string>,
    properties: Metadata)

  /** A result object without its rule index: what a result says, apart
      from where the run happens to keep its rule. */
  datatype Entry = Entry(
    ruleId: string,
    kind: string,
    level: string,
    message: string,
    locations: seq<string>,
    properties: Metadata)

  function Strip(r: SarifResult): Entry {
    Entry(r.ruleId, r.kind, r.level, r.message, r.locations, r.properties)
  }

  function Entries(rs: seq<SarifResult>): (es: seq<Entry>)
    ensures |es| == |rs|
    ensures forall i :: 0 <= i < |rs| ==> es[i] == Strip(rs[i])
  {
    seq(|rs|, i requires 0 <= i < |rs| => Strip(rs[i]))
  }

  /** The entry processResults appends for one input result. The location
      URI is the file name (filepath.ToSlash is the identity with `/` paths). */
  function EntryFor(result: Results.Result, k: ResultKind, fileName: string, namespace: string): Entry {
    Entry(GetRuleID(result.metadata, k, namespace), KindStr(k), Level(k), result.message,
      [fileName], CreateProperties(result.metadata, namespace))
  }

  function EntriesFor(rs: seq<Results.Result>, k: ResultKind, fileName: string, namespace: string): (es: seq<Entry>)
    ensures |es| == |rs|
    ensures forall i :: 0 <= i < |rs| ==> es[i] == EntryFor(rs[i], k, fileName, namespace)
  {
    seq(|rs|, i requires 0 <= i < |rs| => EntryFor(rs[i], k, fileName, namespace))
  }

  /** Rule IDs are pairwise distinct. */
  predicate DistinctIds(rules: seq<SarifRule>) {
    forall i, j :: 0 <= i < j < |rules| ==> rules[i].id != rules[j].id
  }

  /** Every result points at a rule carrying its own rule ID. */
  predicate IndicesAgree(rules: seq<SarifRule>, results: seq<SarifResult>) {
    forall i :: 0 <= i < |results| ==>
      0 <= results[i].ruleIndex < |rules| && rules[results[i].ruleIndex].id == results[i].ruleId
  }

  function RuleIds(rules: seq<SarifRule>): set<string> {
    set i | 0 <= i < |rules| :: rules[i].id
  }

  /** The rules createRule builds for a list of results, one each, in order. */
  function CreatedRules(rs: seq<Results.Result>, k: ResultKind, namespace: string): (created: seq<SarifRule>)
    ensures |created| == |rs|
    ensures forall i :: 0 <= i < |rs| ==> created[i] == CreateRule(rs[i], k, namespace)
  {
    seq(|rs|, i requires 0 <= i < |rs| => CreateRule(rs[i], k, namespace))
  }

  /** The rule list after one more created rule: it is appended unless a
      rule with the same ID is already there. */
  function AddRule(rules: seq<SarifRule>, rule: SarifRule): seq<SarifRule> {
    if rule.id in RuleIds(rules) then rules else rules + [rule]
  }

  /** The rule list after meeting the created rules in order. */
  function RulesAfter(rules: seq<SarifRule>, created: seq<SarifRule>): seq<SarifRule>
    decreases |created|
  {
    if created == [] then rules
    else AddRule(RulesAfter(rules, created[..|created| - 1]), created[|created| - 1])
  }

  /** Meeting two lists of rules is meeting their concatenation. */
  lemma {:induction false} RulesAfterAppend(rules: seq<SarifRule>, a: seq<SarifRule>, b: seq<SarifRule>)
    ensures RulesAfter(rules, a + b) == RulesAfter(RulesAfter(rules, a), b)
    decreases |b|
  {
    if b == [] {
      assert a + b == a;
    } else {
      var b' := b[..|b| - 1];
      assert (a + b)[..|a + b| - 1] == a + b';
      assert (a + b)[|a + b| - 1] == b[|b| - 1];
      RulesAfterAppend(rules, a, b');
    }
  }

  lemma AppendThree(e0: seq<Entry>, f: seq<Entry>, w: seq<Entry>, e: seq<Entry>)
    ensures e0 + f + w + e == e0 + (f + w + e)
  {
  }

  lemma RulesAfterThree(rules: seq<SarifRule>, a: seq<SarifRule>, b: seq<SarifRule>, c: seq<SarifRule>)
    ensures RulesAfter(RulesAfter(RulesAfter(rules, a), b), c) == RulesAfter(rules, a + b + c)
  {
    RulesAfterAppend(rules, a, b);
    RulesAfterAppend(rules, a + b, c);
  }

  /** The rule is one of the created ones, and the first with its ID. */
  predicate FirstWithId(rule: SarifRule, created: seq<SarifRule>) {
    exists j :: 0 <= j < |created| && rule == created[j]
      && (forall j' :: 0 <= j' < j ==> created[j'].id != rule.id)
  }

  /** Adding a rule adds its ID to the IDs and keeps the rules before it. */
  lemma AddRuleIds(rules: seq<SarifRule>, rule: SarifRule)
    ensures RuleIds(AddRule(rules, rule)) == RuleIds(rules) + {rule.id}
    ensures |AddRule(rules, rule)| >= |rules| && AddRule(rules, rule)[..|rules|] == rules
  {
    if rule.id !in RuleIds(rules) {
      var r := rules + [rule];
      forall x | x in RuleIds(r) ensures x in RuleIds(rules) + {rule.id} {
        var i :| 0 <= i < |r| && x == r[i].id;
        if i < |rules| { assert r[i] == rules[i]; }
      }
      forall x | x in RuleIds(rules) ensures x in RuleIds(r) {
        var i :| 0 <= i < |rules| && x == rules[i].id;
        assert r[i] == rules[i];
      }
      assert r[|rules|].id in RuleIds(r);
    }
  }

  /** Every created rule's ID ends up among the rules. */
  lemma {:induction false} RulesAfterCovers(created: seq<SarifRule>)
    ensures forall j :: 0 <= j < |created| ==> created[j].id in RuleIds(RulesAfter([], created))
    decreases |created|
  {
    if created != [] {
      var init := created[..|created| - 1];
      RulesAfterCovers(init);
      AddRuleIds(RulesAfter([], init), created[|created| - 1]);
      forall j | 0 <= j < |init| ensures created[j].id in RuleIds(RulesAfter([], created)) {
        assert created[j] == init[j];
      }
    }
  }

  /** A rule first met before the last created one is still first met there. */
  lemma FirstWithIdSnoc(rule: SarifRule, created: seq<SarifRule>)
    requires created != [] && FirstWithId(rule, created[..|created| - 1])
    ensures FirstWithId(rule, created)
  {
    var init := created[..|created| - 1];
    var j :| 0 <= j < |init| && rule == init[j]
      && (forall j' :: 0 <= j' < j ==> init[j'].id != rule.id);
    assert created[j] == init[j];
    forall j' | 0 <= j' < j ensures created[j'].id != rule.id {
      assert created[j'] == init[j'];
    }
  }

  /** Starting from no rules, the rule list holds, for every distinct rule
      ID met, the FIRST created rule with that ID. */
  lemma {:induction false} RulesAfterFirst(created: seq<SarifRule>)
    ensures forall i :: 0 <= i < |RulesAfter([], created)| ==> FirstWithId(RulesAfter([], created)[i], created)
    decreases |created|
  {
    if created != [] {
      var init := created[..|created| - 1];
      var last := created[|created| - 1];
      var before := RulesAfter([], init);
      RulesAfterFirst(init);
      RulesAfterCovers(init);
      AddRuleIds(before, last);
      var rules := RulesAfter([], created);
      forall i | 0 <= i < |rules| ensures FirstWithId(rules[i], created) {
        if i < |before| {
          assert rules[i] == before[i];
          FirstWithIdSnoc(before[i], created);
        } else {
          assert last.id !in RuleIds(before) && rules[i] == last;
          forall j' | 0 <= j' < |created| - 1 ensures created[j'].id != last.id {
            assert created[j'] == init[j'];
          }
        }
      }
    }
  }

  /** The mutable part of a SARIF run, with the rule-ID set that
      processResults threads alongside it. */
  class Run {
    var rules: seq<SarifRule>
    var results: seq<SarifResult>
    var ruleMap: set<string>

    ghost predicate Valid()
      reads this
    {
      DistinctIds(rules) && ruleMap == RuleIds(rules) && IndicesAgree(rules, results)
    }

    constructor ()
      ensures Valid() && rules == [] && results == []
    {
      rules, results, ruleMap := [], [], {};
    }

    /** The index search of processResults: the first rule with this ID. */
    method FindRule(id: string) returns (index: int)
      ensures -1 <= index < |rules|
      ensures index == -1 <==> id !in RuleIds(rules)
      ensures index >= 0 ==> rules[index].id == id && forall j :: 0 <= j < index ==> rules[j].id != id
    {
      index := 0;
      while index < |rules|
        invariant 0 <= index <= |rules|
        invariant forall j :: 0 <= j < index ==> rules[j].id != id
      {
        if rules[index].id == id {
          return;
        }
        index := index + 1;
      }
      index := -1;
    }

    /** One iteration of processResults. */
    method AddResult(result: Results.Result, k: ResultKind, fileName: string, namespace: string)
      requires Valid()
      modifies this
      ensures Valid()
      ensures |results| == old(|results|) + 1 && results[..old(|results|)] == old(results)
      ensures Entries(results) == Entries(old(results)) + [EntryFor(result, k, fileName, namespace)]
      ensures rules == AddRule(old(rules), CreateRule(result, k, namespace))
    {
      var rule := CreateRule(result, k, namespace);
      if rule.id !in ruleMap {
        AppendRuleKeepsIds(rules, rule);
        rules := rules + [rule];
        ruleMap := ruleMap + {rule.id};
      }
      var index := FindRule(rule.id);
      var entry := SarifResult(rule.id, index, KindStr(k), Level(k), result.message,
        [fileName], CreateProperties(result.metadata, namespace));
      EntriesSnoc(results, entry);
      results := results + [entry];
    }

    /** processResults: appends one result object per input result, in
        order, adding each new rule once. The "rule not found" error of the
        source cannot occur: a rule is always added before it is searched. */
    method ProcessResults(rs: seq<Results.Result>, k: ResultKind, fileName: string, namespace: string)
      requires Valid()
      modifies this
      ensures Valid()
      ensures |results| == old(|results|) + |rs| && results[..old(|results|)] == old(results)
      ensures Entries(results) == Entries(old(results)) + EntriesFor(rs, k, fileName, namespace)
      ensures rules == RulesAfter(old(rules), CreatedRules(rs, k, namespace))
    {
      ghost var rules0, results0 := rules, results;
      var n := 0;
      while n < |rs|
        invariant 0 <= n <= |rs|
        invariant ProcessedUpTo(rs, n, k, fileName, namespace, rules0, results0)
      {
        AddNext(rs, n, k, fileName, namespace, rules0, results0);
        n := n + 1;
      }
      assert rs[..n] == rs;
    }

    /** The state of processResults after the first n results. */
    ghost predicate ProcessedUpTo(rs: seq<Results.Result>, n: nat, k: ResultKind, fileName: string, namespace: string,
                                  rules0: seq<SarifRule>, results0: seq<SarifResult>)
      reads this
      requires n <= |rs|
    {
      Valid()
      && |results| == |results0| + n && results[..|results0|] == results0
      && Entries(results) == Entries(results0) + EntriesFor(rs[..n], k, fileName, namespace)
      && rules == RulesAfter(rules0, CreatedRules(rs[..n], k, namespace))
    }

    /** One iteration of the processResults loop. */
    method AddNext(rs: seq<Results.Result>, n: nat, k: ResultKind, fileName: string, namespace: string,
                   ghost rules0: seq<SarifRule>, ghost results0: seq<SarifResult>)
      requires n < |rs| && ProcessedUpTo(rs, n, k, fileName, namespace, rules0, results0)
      modifies this
      ensures ProcessedUpTo(rs, n + 1, k, fileName, namespace, rules0, results0)
    {
      EntriesForSnoc(rs, n, k, fileName, namespace);
      RulesAfterSnoc(rules0, CreatedRules(rs[..n], k, namespace), rs, n, k, namespace);
      ghost var before := results;
      AddResult(rs[n], k, fileName, namespace);
      assert results[..|before|] == before;
      assert results[..|results0|] == before[..|results0|];
    }

    /** The results Output appends for one check result. */
    method ProcessFile(cr: Reports.CheckResult)
      requires Valid()
      modifies this
      ensures Valid()
      ensures Entries(results) == Entries(old(results)) + FileEntries(cr)
      ensures rules == RulesAfter(old(rules), FileRules(cr))
    {
      ghost var e0 := Entries(results);
      ProcessIssues(cr);
      ghost var e1 := Entries(results);
      ghost var r1 := rules;
      if |cr.failures| == 0 && |cr.warnings| == 0 && |cr.exceptions| == 0 {
        if cr.successes > 0 {
          ProcessResults([Results.Result(Description(Success), map[], None, [])], Success, cr.fileName, cr.namespace);
        } else {
          ProcessResults([Results.Result(Description(Skipped), map[], None, [])], Skipped, cr.fileName, cr.namespace);
        }
      }
      assert Entries(results) == e1 + QuietTail(cr);
      assert rules == RulesAfter(r1, QuietRules(cr));
      RulesAfterAppend(old(rules), IssueRules(cr), QuietRules(cr));
    }

    /** The failures, warnings and exceptions of one check result. */
    method ProcessIssues(cr: Reports.CheckResult)
      requires Valid()
      modifies this
      ensures Valid()
      ensures Entries(results) == Entries(old(results)) + Issues(cr)
      ensures rules == RulesAfter(old(rules), IssueRules(cr))
    {
      ghost var e0, r0 := Entries(results), rules;
      ProcessResults(cr.failures, Failure, cr.fileName, cr.namespace);
      ProcessResults(cr.warnings, Warning, cr.fileName, cr.namespace);
      ProcessResults(cr.exceptions, Exception, cr.fileName, cr.namespace);
      RulesAfterThree(r0, CreatedRules(cr.failures, Failure, cr.namespace),
        CreatedRules(cr.warnings, Warning, cr.namespace), CreatedRules(cr.exceptions, Exception, cr.namespace));
      AppendThree(e0, EntriesFor(cr.failures, Failure, cr.fileName, cr.namespace),
        EntriesFor(cr.warnings, Warning, cr.fileName, cr.namespace), EntriesFor(cr.exceptions, Exception, cr.fileName, cr.namespace));
    }
  }

  /** The rules created for one check result's failures, warnings and
      exceptions, in the order processResults meets them. */
  function IssueRules(cr: Reports.CheckResult): seq<SarifRule> {
    CreatedRules(cr.failures, Failure, cr.namespace)
    + CreatedRules(cr.warnings, Warning, cr.namespace)
    + CreatedRules(cr.exceptions, Exception, cr.namespace)
  }

  /** The rule created for the pass or notApplicable result, if any. */
  function QuietRules(cr: Reports.CheckResult): seq<SarifRule> {
    if cr.failures == [] && cr.warnings == [] && cr.exceptions == [] then
      var k := if cr.successes > 0 then Success else Skipped;
      CreatedRules([Results.Result(Description(k), map[], None, [])], k, cr.namespace)
    else []
  }

  function FileRules(cr: Reports.CheckResult): seq<SarifRule> {
    IssueRules(cr) + QuietRules(cr)
  }

  /** Every rule Output creates, one per result object, in output order. */
  function AllRules(crs: seq<Reports.CheckResult>): seq<SarifRule> {
    if crs == [] then [] else AllRules(crs[..|crs| - 1]) + FileRules(crs[|crs| - 1])
  }

  /** The rules after one more input result. */
  lemma RulesAfterSnoc(rules: seq<SarifRule>, created: seq<SarifRule>, rs: seq<Results.Result>, n: nat, k: ResultKind, namespace: string)
    requires n < |rs| && created == CreatedRules(rs[..n], k, namespace)
    ensures RulesAfter(rules, CreatedRules(rs[..n + 1], k, namespace)) == AddRule(RulesAfter(rules, created), CreateRule(rs[n], k, namespace))
  {
    var next := CreatedRules(rs[..n + 1], k, namespace);
    assert next == created + [CreateRule(rs[n], k, namespace)];
    assert next[..|next| - 1] == created;
  }

  /** The rules after one more check result. */
  lemma AllRulesSnoc(crs: seq<Reports.CheckResult>, n: nat)
    requires n < |crs|
    ensures RulesAfter([], AllRules(crs[..n + 1])) == RulesAfter(RulesAfter([], AllRules(crs[..n])), FileRules(crs[n]))
    ensures AllEntries(crs[..n + 1]) == AllEntries(crs[..n]) + FileEntries(crs[n])
  {
    assert crs[..n + 1][..n] == crs[..n];
    RulesAfterAppend([], AllRules(crs[..n]), FileRules(crs[n]));
  }

  function Issues(cr: Reports.CheckResult): seq<Entry> {
    EntriesFor(cr.failures, Failure, cr.fileName, cr.namespace)
    + EntriesFor(cr.warnings, Warning, cr.fileName, cr.namespace)
    + EntriesFor(cr.exceptions, Exception, cr.fileName, cr.namespace)
  }

  lemma EntriesSnoc(rs: seq<SarifResult>, r: SarifResult)
    ensures Entries(rs + [r]) == Entries(rs) + [Strip(r)]
  {
  }

  lemma EntriesForSnoc(rs: seq<Results.Result>, n: nat, k: ResultKind, fileName: string, namespace: string)
    requires n < |rs|
    ensures EntriesFor(rs[..n + 1], k, fileName, namespace)
      == EntriesFor(rs[..n], k, fileName, namespace) + [EntryFor(rs[n], k, fileName, namespace)]
  {
  }

  /** Appending a rule with a new ID keeps IDs distinct and adds its ID. */
  lemma AppendRuleKeepsIds(rules: seq<SarifRule>, rule: SarifRule)
    requires DistinctIds(rules) && rule.id !in RuleIds(rules)
    ensures DistinctIds(rules + [rule])
    ensures RuleIds(rules + [rule]) == RuleIds(rules) + {rule.id}
  {
    var r := rules + [rule];
    forall i, j | 0 <= i < j < |r| ensures r[i].id != r[j].id {
      if j == |rules| {
        assert r[i].id in RuleIds(rules);
      }
    }
    forall x | x in RuleIds(r) ensures x in RuleIds(rules) + {rule.id} {
      var i :| 0 <= i < |r| && x == r[i].id;
      if i < |rules| { assert r[i] == rules[i]; }
    }
    forall x | x in RuleIds(rules) ensures x in RuleIds(r) {
      var i :| 0 <= i < |rules| && x == rules[i].id;
      assert r[i] == rules[i];
    }
    assert r[|rules|].id in RuleIds(r);
  }

  /** The pass or notApplicable entry of a file with nothing else to report. */
  function QuietTail(cr: Reports.CheckResult): seq<Entry> {
    if cr.failures == [] && cr.warnings == [] && cr.exceptions == [] then
      var k := if cr.successes > 0 then Success else Skipped;
      EntriesFor([Results.Result(Description(k), map[], None, [])], k, cr.fileName, cr.namespace)
    else []
  }

  /** The entries Output emits for one check result, in order. */
  function FileEntries(cr: Reports.CheckResult): seq<Entry> {
    Issues(cr) + QuietTail(cr)
  }

  function AllEntries(crs: seq<Reports.CheckResult>): seq<Entry> {
    if crs == [] then [] else AllEntries(crs[..|crs| - 1]) + FileEntries(crs[|crs| - 1])
  }

  /** The rule IDs the entries carry. */
  function EntryIds(es: seq<Entry>): set<string> {
    set j | 0 <= j < |es| :: es[j].ruleId
  }

  /** Entries and created rules that agree position by position on the ID. */
  predicate IdsMatch(es: seq<Entry>, created: seq<SarifRule>) {
    |es| == |created| && forall j :: 0 <= j < |es| ==> es[j].ruleId == created[j].id
  }

  lemma IdsMatchAppend(es: seq<Entry>, created: seq<SarifRule>, es': seq<Entry>, created': seq<SarifRule>)
    requires IdsMatch(es, created) && IdsMatch(es', created')
    ensures IdsMatch(es + es', created + created')
  {
  }

  lemma IdsMatchFor(rs: seq<Results.Result>, k: ResultKind, fileName: string, namespace: string)
    ensures IdsMatch(EntriesFor(rs, k, fileName, namespace), CreatedRules(rs, k, namespace))
  {
  }

  lemma {:induction false} AllIdsMatch(crs: seq<Reports.CheckResult>)
    ensures IdsMatch(AllEntries(crs), AllRules(crs))
    decreases |crs|
  {
    if crs != [] {
      var cr := crs[|crs| - 1];
      AllIdsMatch(crs[..|crs| - 1]);
      IdsMatchFor(cr.failures, Failure, cr.fileName, cr.namespace);
      IdsMatchFor(cr.warnings, Warning, cr.fileName, cr.namespace);
      IdsMatchFor(cr.exceptions, Exception, cr.fileName, cr.namespace);
      var k := if cr.successes > 0 then Success else Skipped;
      IdsMatchFor([Results.Result(Description(k), map[], None, [])], k, cr.fileName, cr.namespace);
      IdsMatchAppend(EntriesFor(cr.failures, Failure, cr.fileName, cr.namespace), CreatedRules(cr.failures, Failure, cr.namespace),
        EntriesFor(cr.warnings, Warning, cr.fileName, cr.namespace), CreatedRules(cr.warnings, Warning, cr.namespace));
      IdsMatchAppend(EntriesFor(cr.failures, Failure, cr.fileName, cr.namespace) + EntriesFor(cr.warnings, Warning, cr.fileName, cr.namespace),
        CreatedRules(cr.failures, Failure, cr.namespace) + CreatedRules(cr.warnings, Warning, cr.namespace),
        EntriesFor(cr.exceptions, Exception, cr.fileName, cr.namespace), CreatedRules(cr.exceptions, Exception, cr.namespace));
      IdsMatchAppend(Issues(cr), IssueRules(cr), QuietTail(cr), QuietRules(cr));
      IdsMatchAppend(AllEntries(crs[..|crs| - 1]), AllRules(crs[..|crs| - 1]), FileEntries(cr), FileRules(cr));
    }
  }

  /** The driver's rule list of Output: its IDs are exactly the rule IDs of
      the results, and each rule is the one created for the FIRST result,
      in output order, carrying its ID (AllRules(crs)[j] is created for the
      result whose entry is AllEntries(crs)[j]). */
  lemma {:induction false} OutputRules(crs: seq<Reports.CheckResult>)
    ensures IdsMatch(AllEntries(crs), AllRules(crs))
    ensures RuleIds(RulesAfter([], AllRules(crs))) == EntryIds(AllEntries(crs))
    ensures forall i :: 0 <= i < |RulesAfter([], AllRules(crs))| ==>
      FirstWithId(RulesAfter([], AllRules(crs))[i], AllRules(crs))
  {
    var created, es := AllRules(crs), AllEntries(crs);
    var rules := RulesAfter([], created);
    AllIdsMatch(crs);
    RulesAfterFirst(created);
    RulesAfterCovers(created);
    forall x | x in RuleIds(rules) ensures x in EntryIds(es) {
      var i :| 0 <= i < |rules| && rules[i].id == x;
      assert FirstWithId(rules[i], created);
      var j :| 0 <= j < |created| && rules[i] == created[j]
        && (forall j' :: 0 <= j' < j ==> created[j'].id != rules[i].id);
      assert es[j].ruleId == x;
    }
    forall x | x in EntryIds(es) ensures x in RuleIds(rules) {
      var j :| 0 <= j < |es| && es[j].ruleId == x;
      assert created[j].id == x;
    }
  }

  /** A file with no failures, warnings or exceptions gets exactly one
      result: a pass when it had successes, a notApplicable one otherwise. */
  lemma QuietFileEntry(cr: Reports.CheckResult)
    requires cr.failures == [] && cr.warnings == [] && cr.exceptions == []
    ensures |FileEntries(cr)| == 1
    ensures FileEntries(cr)[0].kind == (if cr.successes > 0 then "pass" else "notApplicable")
    ensures FileEntries(cr)[0].ruleId == (if cr.successes > 0 then "conftest-pass" else "conftest-skipped")
    ensures FileEntries(cr)[0].message == (if cr.successes > 0 then "Policy was satisfied successfully" else "Policy check was skipped")
  {
  }

  /** A file with any failure, warning or exception gets one result per
      such item and no pass or notApplicable result. */
  lemma NoisyFileEntries(cr: Reports.CheckResult)
    requires cr.failures != [] || cr.warnings != [] || cr.exceptions != []
    ensures |FileEntries(cr)| == |cr.failures| + |cr.warnings| + |cr.exceptions|
    ensures forall i :: 0 <= i < |FileEntries(cr)| ==>
      FileEntries(cr)[i].kind != "pass" && FileEntries(cr)[i].kind != "notApplicable"
  {
    assert FileEntries(cr) == Issues(cr);
  }

  /** The invocation object (SARIF 2.1.0 section 3.20), without its timestamps. */
  datatype Invocation = Invocation(executionSuccessful: bool, exitCode: int, exitCodeDescription: string)

  datatype RunLog = RunLog(
    toolName: string,
    informationUri: string,
    rules: seq<SarifRule>,
    results: seq<SarifResult>,
    invocations: seq<Invocation>)

  datatype SarifReport = SarifReport(schema: string, version: string, runs: seq<RunLog>)

  /** hasFailures. */
  method HasFailures(crs: seq<Reports.CheckResult>) returns (b: bool)
    ensures b <==> exists i :: 0 <= i < |crs| && crs[i].failures != []
  {
    for i := 0 to |crs|
      invariant forall j :: 0 <= j < i ==> crs[j].failures == []
    {
      if |crs[i].failures| > 0 {
        return true;
      }
    }
    return false;
  }

  /** hasWarnings. */
  method HasWarnings(crs: seq<Reports.CheckResult>) returns (b: bool)
    ensures b <==> exists i :: 0 <= i < |crs| && crs[i].warnings != []
  {
    for i := 0 to |crs|
      invariant forall j :: 0 <= j < i ==> crs[j].warnings == []
    {
      if |crs[i].warnings| > 0 {
        return true;
      }
    }
    return false;
  }

  /** hasExceptions. */
  method HasExceptions(crs: seq<Reports.CheckResult>) returns (b: bool)
    ensures b <==> exists i :: 0 <= i < |crs| && crs[i].exceptions != []
  {
    for i := 0 to |crs|
      invariant forall j :: 0 <= j < i ==> crs[j].exceptions == []
    {
      if |crs[i].exceptions| > 0 {
        return true;
      }
    }
    return false;
  }

  /** SARIF.Output: a single run whose results are AllEntries(crs) in order,
      whose rules have distinct IDs that every result's index agrees with,
      and whose invocation reports exit code 1 exactly when some file has a
      failure, describing warnings, then exceptions, when it has none. */
  method Output(crs: seq<Reports.CheckResult>) returns (report: SarifReport)
    ensures report.schema == SchemaUri && report.version == SarifVersion && |report.runs| == 1
    ensures report.runs[0].toolName == ToolName && report.runs[0].informationUri == ToolUri
    ensures Entries(report.runs[0].results) == AllEntries(crs)
    ensures report.runs[0].rules == RulesAfter([], AllRules(crs))
    ensures DistinctIds(report.runs[0].rules)
    ensures IndicesAgree(report.runs[0].rules, report.runs[0].results)
    ensures |report.runs[0].invocations| == 1
    ensures var inv := report.runs[0].invocations[0];
      var failed := exists i :: 0 <= i < |crs| && crs[i].failures != [];
      var warned := exists i :: 0 <= i < |crs| && crs[i].warnings != [];
      var excepted := exists i :: 0 <= i < |crs| && crs[i].exceptions != [];
      inv.executionSuccessful
      && (inv.exitCode == 1 <==> failed) && (inv.exitCode == 0 <==> !failed)
      && inv.exitCodeDescription ==
        (if failed then ExitViolations else if warned then ExitWarnings
         else if excepted then ExitExceptions else ExitNoViolations)
  {
    var run := new Run();
    var n := 0;
    while n < |crs|
      invariant 0 <= n <= |crs|
      invariant run.Valid()
      invariant Entries(run.results) == AllEntries(crs[..n])
      invariant run.rules == RulesAfter([], AllRules(crs[..n]))
    {
      run.ProcessFile(crs[n]);
      AllRulesSnoc(crs, n);
      n := n + 1;
    }
    assert crs[..n] == crs;
    var exitCode, exitDesc := 0, ExitNoViolations;
    var failed := HasFailures(crs);
    var warned := HasWarnings(crs);
    var excepted := HasExceptions(crs);
    if failed {
      exitCode, exitDesc := 1, ExitViolations;
    } else if warned {
      exitCode, exitDesc := 0, ExitWarnings;
    } else if excepted {
      exitCode, exitDesc := 0, ExitExceptions;
    }
    var log := RunLog(ToolName, ToolUri, run.rules, run.results, [Invocation(true, exitCode, exitDesc)]);
    report := SarifReport(SchemaUri, SarifVersion, [log]);
  }

  /** SARIF.Report: test reports are not supported. */
  function Report(): (r: Outcome<()>)
    ensures r.Fail?
  {
    Fail("report is not supported in SARIF output")
  }
}
