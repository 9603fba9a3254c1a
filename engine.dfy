/** The policy engine's own logic (policy/engine.go): recognising the special
    `warn`/`deny`/`violation` rules, listing namespaces, and turning the
    answers of Rego queries into a CheckResult. The Rego evaluation itself
    is the parameter `query`: given an input document and a query text it
    returns the rule results or an error. */
module Engine {
  import opened Wrappers
  import opened Strs
  import opened Values
  import opened Results

  /** Evaluating a Rego query against an input document. */
  type Query = (Value, string) -> Outcome<seq<Result>>

  /** A loaded policy module: its package path (as printed, "data.main")
      and the names of its rule heads in declaration order, duplicates kept. */
  datatype Module = Module(packagePath: string, rules: seq<string>)

  // ---- rule names --------------------------------------------------------

  /** The regular expression `(_[a-zA-Z0-9]+)*` anchored at both ends:
      zero or more segments, each an underscore and at least one letter or
      digit. SegmentTail matches the rest of a segment after its first
      letter or digit. */
  predicate Segments(s: string)
    decreases |s|, 0
  {
    |s| == 0 || (s[0] == '_' && |s| >= 2 && IsAlnum(s[1]) && SegmentTail(s[2..]))
  }

  predicate SegmentTail(s: string)
    decreases |s|, 1
  {
    |s| == 0 || (if IsAlnum(s[0]) then SegmentTail(s[1..]) else Segments(s))
  }

  /** A character-level description of the same language: only letters,
      digits and underscores, no two underscores in a row, no trailing one. */
  predicate NoDoubleUnderscore(s: string) {
    forall i :: 0 <= i < |s| - 1 ==> !(s[i] == '_' && s[i + 1] == '_')
  }

  predicate SegmentChars(s: string) {
    forall i :: 0 <= i < |s| ==> s[i] == '_' || IsAlnum(s[i])
  }

  predicate TailShaped(s: string) {
    SegmentChars(s) && NoDoubleUnderscore(s) && (|s| == 0 || s[|s| - 1] != '_')
  }

  predicate SegmentsShaped(s: string) {
    |s| == 0 || (s[0] == '_' && TailShaped(s))
  }

  lemma TailShapedCons(c: char, s: string)
    requires IsAlnum(c)
    ensures TailShaped([c] + s) <==> TailShaped(s)
  {
    var t := [c] + s;
    assert t[1..] == s;
    if TailShaped(s) {
      forall i | 0 <= i < |t| - 1 ensures !(t[i] == '_' && t[i + 1] == '_') {
        if i > 0 { assert t[i] == s[i - 1] && t[i + 1] == s[i]; }
      }
    }
    if TailShaped(t) {
      forall i | 0 <= i < |s| - 1 ensures !(s[i] == '_' && s[i + 1] == '_') {
        assert s[i] == t[i + 1] && s[i + 1] == t[i + 2];
      }
      forall i | 0 <= i < |s| ensures s[i] == '_' || IsAlnum(s[i]) {
        assert s[i] == t[i + 1];
      }
    }
  }

  /** The recursive matcher accepts exactly the strings described
      character by character. */
  lemma {:induction false} SegmentsIff(s: string)
    ensures Segments(s) <==> SegmentsShaped(s)
    decreases |s|, 0
  {
    if |s| >= 2 && s[0] == '_' {
      SegmentTailIff(s[2..]);
      if IsAlnum(s[1]) {
        TailShapedCons(s[1], s[2..]);
        assert s[1..] == [s[1]] + s[2..];
        assert s == [s[0]] + s[1..];
        UnderscoreCons(s[1..]);
      } else {
        assert !TailShaped(s) by {
          if s[1] == '_' { assert s[0] == '_' && s[1] == '_'; }
        }
      }
    } else if |s| == 1 {
      assert s[|s| - 1] == s[0];
    }
  }

  /** An underscore may go in front of a tail that starts with a letter or digit. */
  lemma UnderscoreCons(s: string)
    requires |s| >= 1 && IsAlnum(s[0])
    ensures TailShaped(['_'] + s) <==> TailShaped(s)
  {
    var t := ['_'] + s;
    if TailShaped(s) {
      forall i | 0 <= i < |t| - 1 ensures !(t[i] == '_' && t[i + 1] == '_') {
        if i > 0 { assert t[i] == s[i - 1] && t[i + 1] == s[i]; }
      }
    }
    if TailShaped(t) {
      forall i | 0 <= i < |s| - 1 ensures !(s[i] == '_' && s[i + 1] == '_') {
        assert s[i] == t[i + 1] && s[i + 1] == t[i + 2];
      }
      forall i | 0 <= i < |s| ensures s[i] == '_' || IsAlnum(s[i]) {
        assert s[i] == t[i + 1];
      }
    }
  }

  lemma {:induction false} SegmentTailIff(s: string)
    ensures SegmentTail(s) <==> TailShaped(s)
    decreases |s|, 1
  {
    if |s| > 0 {
      if IsAlnum(s[0]) {
        SegmentTailIff(s[1..]);
        assert s == [s[0]] + s[1..];
        TailShapedCons(s[0], s[1..]);
      } else {
        SegmentsIff(s);
      }
    }
  }

  /** isWarning: `^warn(_[a-zA-Z0-9]+)*$`. */
  predicate IsWarning(rule: string) {
    HasPrefix(rule, "warn") && Segments(rule[4..])
  }

  /** isFailure: `^(deny|violation)(_[a-zA-Z0-9]+)*$`. */
  predicate IsFailure(rule: string) {
    (HasPrefix(rule, "deny") && Segments(rule[4..]))
    || (HasPrefix(rule, "violation") && Segments(rule[9..]))
  }

  /** A warning rule is "warn" followed by well-formed segments, and nothing else is. */
  lemma IsWarningIff(rule: string)
    ensures IsWarning(rule) <==> HasPrefix(rule, "warn") && SegmentsShaped(rule[4..])
  {
    if HasPrefix(rule, "warn") { SegmentsIff(rule[4..]); }
  }

  /** A failure rule is "deny" or "violation" followed by well-formed segments. */
  lemma IsFailureIff(rule: string)
    ensures IsFailure(rule) <==>
      (HasPrefix(rule, "deny") && SegmentsShaped(rule[4..]))
      || (HasPrefix(rule, "violation") && SegmentsShaped(rule[9..]))
  {
    if HasPrefix(rule, "deny") { SegmentsIff(rule[4..]); }
    if HasPrefix(rule, "violation") { SegmentsIff(rule[9..]); }
  }

  /** No rule name is both a warning and a failure. */
  lemma WarningIsNotFailure(rule: string)
    ensures !(IsWarning(rule) && IsFailure(rule))
  {
    if IsWarning(rule) {
      assert rule[..4][0] == rule[0] == 'w';
      FirstCharDiffers(rule, "deny");
      FirstCharDiffers(rule, "violation");
    }
  }

  /** The warning names the rule-name tests list, with their verdicts. */
  lemma WarningNameExamples()
    ensures !IsWarning("") && IsWarning("warn") && !IsWarning("warnXYZ") && !IsWarning("warn_")
    ensures IsWarning("warn_x") && IsWarning("warn_1") && IsWarning("warn_x_y_z")
  {
    assert "warnXYZ"[4..] == "XYZ";
    assert "warn_"[4..] == "_";
    assert "warn_x"[4..] == "_x" && "_x"[2..] == "";
    assert "warn_1"[4..] == "_1" && "_1"[2..] == "";
    assert "warn_x_y_z"[4..] == "_x_y_z" && "_x_y_z"[2..] == "_y_z" && "_y_z"[2..] == "_z" && "_z"[2..] == "";
  }

  /** The names the rule-name tests reject as failures. */
  lemma NotFailureNameExamples()
    ensures !IsFailure("") && !IsFailure("denyXYZ") && !IsFailure("violationXYZ")
    ensures !IsFailure("deny_") && !IsFailure("violation_")
  {
    assert "denyXYZ"[4..] == "XYZ";
    assert "violationXYZ"[9..] == "XYZ";
    assert "deny_"[4..] == "_" && "violation_"[9..] == "_";
    FirstCharDiffers("violationXYZ", "deny");
    FirstCharDiffers("violation_", "deny");
  }

  /** The names the rule-name tests accept as failures. */
  lemma FailureNameExamples()
    ensures IsFailure("deny") && IsFailure("violation")
    ensures IsFailure("deny_x") && IsFailure("violation_x") && IsFailure("deny_1") && IsFailure("violation_1")
    ensures IsFailure("deny_x_y_z") && IsFailure("violation_x_y_z")
  {
    assert "deny_x"[4..] == "_x" && "violation_x"[9..] == "_x";
    assert "deny_1"[4..] == "_1" && "violation_1"[9..] == "_1";
    assert "deny_x_y_z"[4..] == "_x_y_z" && "violation_x_y_z"[9..] == "_x_y_z";
    assert "_x_y_z"[2..] == "_y_z" && "_y_z"[2..] == "_z" && "_z"[2..] == "";
  }

  lemma FirstCharDiffers(s: string, p: string)
    requires |s| > 0 && |p| > 0 && s[0] != p[0]
    ensures !HasPrefix(s, p)
  {
    if |p| <= |s| { assert s[..|p|][0] == s[0]; }
  }

  /** removeFailurePrefix: strips one leading "deny_", else one leading
      "violation_", else returns the name unchanged. */
  function RemoveFailurePrefix(rule: string): string {
    if HasPrefix(rule, "deny_") then TrimPrefix(rule, "deny_")
    else if HasPrefix(rule, "violation_") then TrimPrefix(rule, "violation_")
    else rule
  }

  /** At most one prefix goes: "deny_" first, else "violation_", else none. */
  lemma RemoveFailurePrefixStrips(rule: string)
    ensures HasPrefix(rule, "deny_") ==> rule == "deny_" + RemoveFailurePrefix(rule)
    ensures !HasPrefix(rule, "deny_") && HasPrefix(rule, "violation_") ==> rule == "violation_" + RemoveFailurePrefix(rule)
    ensures !HasPrefix(rule, "deny_") && !HasPrefix(rule, "violation_") ==> RemoveFailurePrefix(rule) == rule
  {
  }

  /** contains: some element equals `item` up to letter case. */
  predicate ContainsFold(collection: seq<string>, item: string)
    ensures ContainsFold(collection, item) <==>
      exists i :: 0 <= i < |collection| && EqualFold(collection[i], item)
  {
    |collection| > 0
    && (EqualFold(collection[0], item) || ContainsFold(collection[1..], item))
  }

  // ---- namespaces --------------------------------------------------------

  /** The namespace of a package path: its first "data." removed. */
  function NamespaceOf(packagePath: string): string {
    ReplaceFirst(packagePath, "data.", "")
  }

  /** The namespaces of the modules in order, skipping one already listed
      up to letter case. */
  function NamespaceList(modules: seq<Module>): seq<string> {
    if |modules| == 0 then []
    else
      var acc := NamespaceList(modules[..|modules| - 1]);
      var ns := NamespaceOf(modules[|modules| - 1].packagePath);
      if ContainsFold(acc, ns) then acc else acc + [ns]
  }

  /** Engine.Namespaces. */
  method Namespaces(modules: seq<Module>) returns (namespaces: seq<string>)
    ensures namespaces == NamespaceList(modules)
  {
    namespaces := [];
    var i := 0;
    while i < |modules|
      invariant 0 <= i <= |modules|
      invariant namespaces == NamespaceList(modules[..i])
    {
      assert modules[..i + 1][..i] == modules[..i];
      var ns := NamespaceOf(modules[i].packagePath);
      if !ContainsFold(namespaces, ns) {
        namespaces := namespaces + [ns];
      }
      i := i + 1;
    }
    assert modules[..|modules|] == modules;
  }

  /** No two listed namespaces are equal up to letter case. */
  lemma {:induction false} NamespacesDistinct(modules: seq<Module>)
    ensures forall i, j :: 0 <= i < j < |NamespaceList(modules)| ==>
      !EqualFold(NamespaceList(modules)[i], NamespaceList(modules)[j])
  {
    if |modules| > 0 {
      NamespacesDistinct(modules[..|modules| - 1]);
    }
  }

  /** Every module's namespace is listed, up to letter case. */
  lemma {:induction false} NamespacesCover(modules: seq<Module>)
    ensures forall k :: 0 <= k < |modules| ==>
      ContainsFold(NamespaceList(modules), NamespaceOf(modules[k].packagePath))
  {
    if |modules| > 0 {
      var init := modules[..|modules| - 1];
      NamespacesCover(init);
      var acc := NamespaceList(init);
      var ns := NamespaceOf(modules[|modules| - 1].packagePath);
      if !ContainsFold(acc, ns) {
        var all := acc + [ns];
        assert NamespaceList(modules) == all;
        forall k | 0 <= k < |modules|
          ensures ContainsFold(all, NamespaceOf(modules[k].packagePath))
        {
          if k < |modules| - 1 {
            assert modules[k] == init[k];
            var j :| 0 <= j < |acc| && EqualFold(acc[j], NamespaceOf(init[k].packagePath));
            assert all[j] == acc[j];
          } else {
            assert all[|acc|] == ns;
            assert EqualFold(ns, ns);
          }
        }
      } else {
        forall k | 0 <= k < |modules|
          ensures ContainsFold(acc, NamespaceOf(modules[k].packagePath))
        {
          if k < |modules| - 1 {
            assert modules[k] == init[k];
          }
        }
      }
    }
  }

  /** Every listed namespace is the namespace of some module. */
  lemma {:induction false} NamespacesFromModules(modules: seq<Module>)
    ensures forall i :: 0 <= i < |NamespaceList(modules)| ==>
      exists k :: 0 <= k < |modules| && NamespaceList(modules)[i] == NamespaceOf(modules[k].packagePath)
  {
    if |modules| > 0 {
      var init := modules[..|modules| - 1];
      NamespacesFromModules(init);
      var acc := NamespaceList(init);
      var last := |modules| - 1;
      var ns := NamespaceOf(modules[last].packagePath);
      var all := NamespaceList(modules);
      assert all == if ContainsFold(acc, ns) then acc else acc + [ns];
      forall i | 0 <= i < |all|
        ensures exists k :: 0 <= k < |modules| && all[i] == NamespaceOf(modules[k].packagePath)
      {
        if i < |acc| {
          var k :| 0 <= k < |init| && acc[i] == NamespaceOf(init[k].packagePath);
          assert modules[k] == init[k];
          assert all[i] == acc[i];
        } else {
          assert all[i] == NamespaceOf(modules[last].packagePath);
        }
      }
      assert forall i :: 0 <= i < |all| ==>
        exists k :: 0 <= k < |modules| && all[i] == NamespaceOf(modules[k].packagePath);
    } else {
      assert NamespaceList(modules) == [];
    }
  }

  /** First-seen order: namespaces already listed keep their places when more
      modules follow. */
  lemma {:induction false} NamespacesKeepOrder(modules: seq<Module>, more: seq<Module>)
    ensures HasPrefix(NamespaceList(modules + more), NamespaceList(modules))
    decreases |more|
  {
    if |more| > 0 {
      var init := more[..|more| - 1];
      assert (modules + more)[..|modules + more| - 1] == modules + init;
      NamespacesKeepOrder(modules, init);
    } else {
      assert modules + more == modules;
    }
  }

  // ---- counting the special rules ---------------------------------------

  /** The names of the `warn`/`deny`/`violation` heads among `rules`, in order. */
  function SpecialRules(rules: seq<string>): (r: seq<string>)
    ensures forall x :: x in r ==> IsFailure(x) || IsWarning(x)
  {
    if |rules| == 0 then []
    else
      var last := rules[|rules| - 1];
      SpecialRules(rules[..|rules| - 1]) + (if IsFailure(last) || IsWarning(last) then [last] else [])
  }

  /** Every special rule head of the modules in `namespace`, with repetitions. */
  function RuleHeads(modules: seq<Module>, namespace: string): seq<string> {
    if |modules| == 0 then []
    else
      var m := modules[|modules| - 1];
      RuleHeads(modules[..|modules| - 1], namespace)
      + (if NamespaceOf(m.packagePath) == namespace then SpecialRules(m.rules) else [])
  }

  /** The distinct elements in first-seen order. */
  function Dedup(s: seq<string>): seq<string> {
    if |s| == 0 then []
    else
      var init := s[..|s| - 1];
      Dedup(init) + (if s[|s| - 1] in init then [] else [s[|s| - 1]])
  }

  /** Dedup lists each element of its input exactly once. */
  lemma {:induction false} DedupFacts(s: seq<string>)
    ensures forall x :: x in Dedup(s) <==> x in s
    ensures forall i, j :: 0 <= i < j < |Dedup(s)| ==> Dedup(s)[i] != Dedup(s)[j]
  {
    if |s| > 0 {
      var init := s[..|s| - 1];
      DedupFacts(init);
      assert s == init + [s[|s| - 1]];
    }
  }

  /** Membership in Dedup, for one element. */
  lemma {:induction false} DedupIn(s: seq<string>, x: string)
    ensures x in Dedup(s) <==> x in s
  {
    if |s| > 0 {
      var init := s[..|s| - 1];
      DedupIn(init, x);
      assert s == init + [s[|s| - 1]];
    }
  }

  /** One more rule head extends the special rules by that head when it is special. */
  lemma SpecialRulesStep(rules: seq<string>, j: nat)
    requires j < |rules|
    ensures SpecialRules(rules[..j + 1])
      == SpecialRules(rules[..j]) + (if IsFailure(rules[j]) || IsWarning(rules[j]) then [rules[j]] else [])
  {
    assert rules[..j + 1][..j] == rules[..j];
  }

  /** One more element extends Dedup by that element when it is new. */
  lemma DedupStep(s: seq<string>, x: string)
    ensures Dedup(s + [x]) == Dedup(s) + (if x in s then [] else [x])
  {
    assert (s + [x])[..|s|] == s;
  }

  /** One rule head of the inner loop: counted, and named once, when it is special. */
  method CountRule(special: bool, rule: string, ghost before: seq<string>, ghost after: seq<string>, names0: seq<string>, counts0: multiset<string>)
    returns (names: seq<string>, counts: multiset<string>)
    requires names0 == Dedup(before) && counts0 == multiset(before)
    requires after == before + (if special then [rule] else [])
    ensures names == Dedup(after)
    ensures counts == multiset(after)
  {
    names, counts := names0, counts0;
    if special {
      DedupStep(before, rule);
      assert rule in counts <==> rule in before;
      if rule !in counts {
        names := names + [rule];
      }
      counts := counts + multiset{rule};
    } else {
      assert before + [] == before;
    }
  }

  /** The inner loop over one module's rules (policy/engine.go:161-166). */
  method CountModuleRules(rules: seq<string>, ghost seen: seq<string>, names0: seq<string>, counts0: multiset<string>)
    returns (names: seq<string>, counts: multiset<string>)
    requires names0 == Dedup(seen) && counts0 == multiset(seen)
    ensures names == Dedup(seen + SpecialRules(rules))
    ensures counts == multiset(seen + SpecialRules(rules))
  {
    names, counts := names0, counts0;
    assert rules[..0] == [] && seen + SpecialRules([]) == seen;
    var j := 0;
    while j < |rules|
      invariant 0 <= j <= |rules|
      invariant names == Dedup(seen + SpecialRules(rules[..j]))
      invariant counts == multiset(seen + SpecialRules(rules[..j]))
    {
      var rule := rules[j];
      var special := IsFailure(rule) || IsWarning(rule);
      SpecialRulesStep(rules, j);
      ghost var before := seen + SpecialRules(rules[..j]);
      ghost var after := seen + SpecialRules(rules[..j + 1]);
      assert after == before + (if special then [rule] else []);
      names, counts := CountRule(special, rule, before, after, names, counts);
      j := j + 1;
    }
    assert rules[..|rules|] == rules;
  }

  /** The counting loop of `check` (policy/engine.go:154-167): the special
      rules of the requested namespace, each name once in first-seen order,
      with how often it occurs. */
  method CountRules(modules: seq<Module>, namespace: string) returns (names: seq<string>, counts: multiset<string>)
    ensures names == Dedup(RuleHeads(modules, namespace))
    ensures counts == multiset(RuleHeads(modules, namespace))
  {
    names, counts := [], multiset{};
    var i := 0;
    while i < |modules|
      invariant 0 <= i <= |modules|
      invariant names == Dedup(RuleHeads(modules[..i], namespace))
      invariant counts == multiset(RuleHeads(modules[..i], namespace))
    {
      assert modules[..i + 1][..i] == modules[..i];
      if NamespaceOf(modules[i].packagePath) == namespace {
        names, counts := CountModuleRules(modules[i].rules, RuleHeads(modules[..i], namespace), names, counts);
        assert RuleHeads(modules[..i + 1], namespace) == RuleHeads(modules[..i], namespace) + SpecialRules(modules[i].rules);
      } else {
        assert RuleHeads(modules[..i + 1], namespace) == RuleHeads(modules[..i], namespace) + [];
        assert RuleHeads(modules[..i + 1], namespace) == RuleHeads(modules[..i], namespace);
      }
      i := i + 1;
    }
    assert modules[..|modules|] == modules;
  }

  /** Only special rules of the requested namespace are counted, each as
      often as it occurs, and every name appears once. */
  lemma CountedRules(modules: seq<Module>, namespace: string)
    ensures forall x :: x in Dedup(RuleHeads(modules, namespace)) ==> IsFailure(x) || IsWarning(x)
    ensures forall x :: x in Dedup(RuleHeads(modules, namespace)) <==> multiset(RuleHeads(modules, namespace))[x] > 0
    ensures forall i, j :: 0 <= i < j < |Dedup(RuleHeads(modules, namespace))| ==>
      Dedup(RuleHeads(modules, namespace))[i] != Dedup(RuleHeads(modules, namespace))[j]
  {
    DedupFacts(RuleHeads(modules, namespace));
    HeadsAreSpecial(modules, namespace);
  }

  lemma {:induction false} HeadsAreSpecial(modules: seq<Module>, namespace: string)
    ensures forall x :: x in RuleHeads(modules, namespace) ==> IsFailure(x) || IsWarning(x)
  {
    if |modules| > 0 {
      HeadsAreSpecial(modules[..|modules| - 1], namespace);
    }
  }

  /** A module outside the namespace contributes nothing to the count. */
  lemma OtherNamespaceIgnored(modules: seq<Module>, m: Module, namespace: string)
    requires NamespaceOf(m.packagePath) != namespace
    ensures RuleHeads(modules + [m], namespace) == RuleHeads(modules, namespace)
  {
    assert (modules + [m])[..|modules|] == modules;
  }

  // ---- evaluating one rule ------------------------------------------------

  /** The per-rule share of a CheckResult. */
  datatype RuleOutcome = RuleOutcome(
    successes: seq<Result>,
    failures: seq<Result>,
    warnings: seq<Result>,
    exceptions: seq<Result>)

  function Size(o: RuleOutcome): nat {
    |o.successes| + |o.failures| + |o.warnings| + |o.exceptions|
  }

  /** The query that asks whether the rule is excepted. */
  function ExceptionQuery(namespace: string, rule: string): string {
    "data." + namespace + ".exception[_][_] == " + Quote(RemoveFailurePrefix(rule))
  }

  /** The query that evaluates the rule itself. */
  function RuleQuery(namespace: string, rule: string): string {
    "data." + namespace + "." + rule
  }

  /** The results without a message, in order. */
  function Passed(results: seq<Result>): (r: seq<Result>)
    ensures |r| <= |results|
  {
    if |results| == 0 then []
    else
      var last := results[|results| - 1];
      Passed(results[..|results| - 1]) + (if last.message == "" then [last] else [])
  }

  /** The results with a message, in order. */
  function Violations(results: seq<Result>): (r: seq<Result>)
    ensures |r| <= |results|
  {
    if |results| == 0 then []
    else
      var last := results[|results| - 1];
      Violations(results[..|results| - 1]) + (if last.message != "" then [last] else [])
  }

  /** The exceptions found: the exception-query results without a message,
      each labelled with the query text. */
  function Relabelled(results: seq<Result>, text: string): seq<Result> {
    if |results| == 0 then []
    else
      var last := results[|results| - 1];
      Relabelled(results[..|results| - 1], text)
      + (if last.message == "" then [last.(message := text)] else [])
  }

  /** `k` blank results, the zero value `Result{}` each. */
  function Blanks(k: nat): (r: seq<Result>)
    ensures |r| == k
  {
    if k == 0 then [] else Blanks(k - 1) + [EmptyResult]
  }

  /** Every blank is the zero result. */
  lemma {:induction false} BlanksAreEmpty(k: nat)
    ensures forall x :: x in Blanks(k) ==> x == EmptyResult
  {
    if k > 0 {
      BlanksAreEmpty(k - 1);
    }
  }

  /** The blank successes added up to the rule's occurrence count. */
  function Padding(have: nat, count: nat): seq<Result> {
    Blanks(if have < count then count - have else 0)
  }

  /** How `check` files the answers for one rule occurring `count` times;
      `failure` tells whether the rule's name satisfies IsFailure. */
  function Evaluate(failure: bool, count: nat, exceptions: seq<Result>, results: seq<Result>): RuleOutcome {
    var violations := if |exceptions| > 0 then [] else Violations(results);
    var failures := if failure then violations else [];
    var warnings := if failure then [] else violations;
    var passed := Passed(results);
    var have := |passed| + |failures| + |warnings| + |exceptions|;
    RuleOutcome(passed + Padding(have, count), failures, warnings, exceptions)
  }

  /** Both queries for one rule, with their errors wrapped as `check` wraps them. */
  function EvalRule(query: Query, config: Value, namespace: string, rule: string, count: nat): Outcome<RuleOutcome> {
    var text := ExceptionQuery(namespace, rule);
    match query(config, text)
    case Fail(e) => Fail("query exception: " + e)
    case Ok(found) =>
      match query(config, RuleQuery(namespace, rule))
      case Fail(e) => Fail("query input: " + e)
      case Ok(results) => Ok(Evaluate(IsFailure(rule), count, Relabelled(found, text), results))
  }

  /** The exception loop (policy/engine.go:179-191). */
  method CollectExceptions(found: seq<Result>, text: string) returns (exceptions: seq<Result>)
    ensures exceptions == Relabelled(found, text)
  {
    exceptions := [];
    var k := 0;
    while k < |found|
      invariant 0 <= k <= |found|
      invariant exceptions == Relabelled(found[..k], text)
    {
      assert found[..k + 1][..k] == found[..k];
      if found[k].message == "" {
        exceptions := exceptions + [found[k].(message := text)];
      }
      k := k + 1;
    }
    assert found[..|found|] == found;
  }

  /** The classification loop (policy/engine.go:199-217); `failure` is the
      verdict of IsFailure on the rule's name. */
  method Classify(failure: bool, results: seq<Result>, excepted: bool)
    returns (successes: seq<Result>, failures: seq<Result>, warnings: seq<Result>)
    ensures successes == Passed(results)
    ensures failures == if excepted || !failure then [] else Violations(results)
    ensures warnings == if excepted || failure then [] else Violations(results)
  {
    successes, failures, warnings := [], [], [];
    var k := 0;
    while k < |results|
      invariant 0 <= k <= |results|
      invariant successes == Passed(results[..k])
      invariant failures == if excepted || !failure then [] else Violations(results[..k])
      invariant warnings == if excepted || failure then [] else Violations(results[..k])
    {
      assert results[..k + 1][..k] == results[..k];
      var r := results[k];
      if r.message == "" {
        successes := successes + [r];
      } else if !excepted {
        if failure {
          failures := failures + [r];
        } else {
          warnings := warnings + [r];
        }
      }
      k := k + 1;
    }
    assert results[..|results|] == results;
  }

  /** The padding loop (policy/engine.go:225-227). */
  method Pad(successes: seq<Result>, others: nat, count: nat) returns (padded: seq<Result>)
    ensures padded == successes + Padding(|successes| + others, count)
  {
    padded := successes;
    var have := |successes| + others;
    var i := have;
    while i < count
      invariant have <= i && (i <= count || i == have)
      invariant padded == successes + Blanks(i - have)
      decreases count - i
    {
      padded := padded + [EmptyResult];
      i := i + 1;
    }
  }

  /** Both queries and the three loops for one rule. */
  method EvaluateRule(query: Query, config: Value, namespace: string, rule: string, count: nat)
    returns (r: Outcome<RuleOutcome>)
    ensures r == EvalRule(query, config, namespace, rule, count)
  {
    var text := ExceptionQuery(namespace, rule);
    var found := query(config, text);
    if found.Fail? {
      return Fail("query exception: " + found.error);
    }
    var exceptions := CollectExceptions(found.value, text);
    var answered := query(config, RuleQuery(namespace, rule));
    if answered.Fail? {
      return Fail("query input: " + answered.error);
    }
    var successes, failures, warnings := Classify(IsFailure(rule), answered.value, |exceptions| > 0);
    var padded := Pad(successes, |failures| + |warnings| + |exceptions|, count);
    FiledAsEvaluated(IsFailure(rule), count, exceptions, answered.value, padded, failures, warnings);
    r := Ok(RuleOutcome(padded, failures, warnings, exceptions));
  }

  /** The three loops of EvaluateRule compute Evaluate. */
  lemma FiledAsEvaluated(failure: bool, count: nat, exceptions: seq<Result>, results: seq<Result>,
                         successes: seq<Result>, failures: seq<Result>, warnings: seq<Result>)
    requires failures == if |exceptions| > 0 || !failure then [] else Violations(results)
    requires warnings == if |exceptions| > 0 || failure then [] else Violations(results)
    requires successes == Passed(results) + Padding(|Passed(results)| + |failures| + |warnings| + |exceptions|, count)
    ensures Evaluate(failure, count, exceptions, results) == RuleOutcome(successes, failures, warnings, exceptions)
  {
  }

  /** Padding: the rule yields at least `count` results, and exactly `count`
      when the queries gave fewer. */
  lemma EvaluateCounts(rule: string, count: nat, exceptions: seq<Result>, results: seq<Result>)
    ensures Size(Evaluate(IsFailure(rule), count, exceptions, results)) >= count
    ensures var o := Evaluate(IsFailure(rule), count, exceptions, results);
      Size(o.(successes := Passed(results))) < count ==> Size(o) == count
  {
  }

  /** An exception for the rule suppresses every result with a message;
      otherwise such a result is a failure for a failure rule and a warning
      for any other rule. */
  lemma EvaluateClassifies(rule: string, count: nat, exceptions: seq<Result>, results: seq<Result>)
    ensures var o := Evaluate(IsFailure(rule), count, exceptions, results);
      (|exceptions| > 0 ==> o.failures == [] && o.warnings == [])
      && (|exceptions| == 0 && IsFailure(rule) ==> o.failures == Violations(results) && o.warnings == [])
      && (|exceptions| == 0 && !IsFailure(rule) ==> o.warnings == Violations(results) && o.failures == [])
    ensures var o := Evaluate(IsFailure(rule), count, exceptions, results);
      forall x :: x in o.successes ==> x.message == ""
  {
    PassedHaveNoMessage(results);
    var o := Evaluate(IsFailure(rule), count, exceptions, results);
    BlanksAreEmpty(|o.successes| - |Passed(results)|);
  }

  /** The passed results are rule results without a message. */
  lemma {:induction false} PassedHaveNoMessage(results: seq<Result>)
    ensures forall x :: x in Passed(results) ==> x in results && x.message == ""
  {
    if |results| > 0 {
      PassedHaveNoMessage(results[..|results| - 1]);
    }
  }

  /** Every rule result lands in exactly one of the passed and the violating
      results. */
  lemma {:induction false} PassedViolationsPartition(results: seq<Result>)
    ensures multiset(Passed(results)) + multiset(Violations(results)) == multiset(results)
  {
    if |results| > 0 {
      var init := results[..|results| - 1];
      var last := results[|results| - 1];
      PassedViolationsPartition(init);
      assert results == init + [last];
      assert multiset(results) == multiset(init) + multiset{last};
      if last.message == "" {
        assert Passed(results) == Passed(init) + [last];
        assert Violations(results) == Violations(init) + [];
      } else {
        assert Passed(results) == Passed(init) + [];
        assert Violations(results) == Violations(init) + [last];
      }
    }
  }

  /** The exceptions are the message-less exception results, in order,
      each carrying the exception query as its message. */
  lemma {:induction false} RelabelledFacts(found: seq<Result>, text: string)
    ensures |Relabelled(found, text)| == |Passed(found)|
    ensures forall i :: 0 <= i < |Passed(found)| ==>
      Relabelled(found, text)[i] == Passed(found)[i].(message := text)
  {
    if |found| > 0 {
      RelabelledFacts(found[..|found| - 1], text);
    }
  }

  // ---- check: one configuration -------------------------------------------

  function Combine(a: RuleOutcome, b: RuleOutcome): RuleOutcome {
    RuleOutcome(a.successes + b.successes, a.failures + b.failures,
      a.warnings + b.warnings, a.exceptions + b.exceptions)
  }

  /** The rules evaluated in order; the first error ends the evaluation. */
  function EvalRules(query: Query, config: Value, namespace: string, names: seq<string>, counts: multiset<string>): Outcome<RuleOutcome> {
    if |names| == 0 then Ok(RuleOutcome([], [], [], []))
    else
      match EvalRules(query, config, namespace, names[..|names| - 1], counts)
      case Fail(e) => Fail(e)
      case Ok(acc) =>
        var rule := names[|names| - 1];
        match EvalRule(query, config, namespace, rule, counts[rule])
        case Fail(e) => Fail(e)
        case Ok(o) => Ok(Combine(acc, o))
  }

  /** Once a prefix of the rules fails, the whole evaluation fails with that error. */
  lemma {:induction false} EvalRulesFailSticks(query: Query, config: Value, namespace: string, names: seq<string>, k: nat, counts: multiset<string>)
    requires k <= |names|
    requires EvalRules(query, config, namespace, names[..k], counts).Fail?
    ensures EvalRules(query, config, namespace, names, counts) == EvalRules(query, config, namespace, names[..k], counts)
    decreases |names| - k
  {
    if k < |names| {
      assert names[..k + 1][..k] == names[..k];
      EvalRulesFailSticks(query, config, namespace, names, k + 1, counts);
    } else {
      assert names[..k] == names;
    }
  }

  /** What `check` returns for one configuration. */
  function CheckConfigSpec(modules: seq<Module>, query: Query, path: string, config: Value, namespace: string): Outcome<CheckResult> {
    var heads := RuleHeads(modules, namespace);
    match EvalRules(query, config, namespace, Dedup(heads), multiset(heads))
    case Fail(e) => Fail(e)
    case Ok(o) => Ok(CheckResult(path, o.warnings, o.failures, o.exceptions, o.successes))
  }

  /** One more rule extends the evaluation by that rule's outcome. */
  lemma EvalRulesStep(query: Query, config: Value, namespace: string, names: seq<string>, i: nat, counts: multiset<string>)
    requires i < |names|
    ensures EvalRules(query, config, namespace, names[..i + 1], counts)
      == match EvalRules(query, config, namespace, names[..i], counts)
         case Fail(e) => Fail(e)
         case Ok(acc) =>
           match EvalRule(query, config, namespace, names[i], counts[names[i]])
           case Fail(e) => Fail(e)
           case Ok(o) => Ok(Combine(acc, o))
  {
    assert names[..i + 1][..i] == names[..i];
  }

  /** One pass of the rule loop: the next rule's outcome added to the ones so far. */
  method EvaluateNext(query: Query, config: Value, namespace: string, names: seq<string>, i: nat, counts: multiset<string>, acc: RuleOutcome)
    returns (r: Outcome<RuleOutcome>)
    requires i < |names| && EvalRules(query, config, namespace, names[..i], counts) == Ok(acc)
    ensures r == EvalRules(query, config, namespace, names[..i + 1], counts)
  {
    EvalRulesStep(query, config, namespace, names, i, counts);
    var o := EvaluateRule(query, config, namespace, names[i], counts[names[i]]);
    if o.Fail? {
      return Fail(o.error);
    }
    return Ok(Combine(acc, o.value));
  }

  /** The rule loop of `check` (policy/engine.go:169-228): each counted rule
      evaluated in turn, stopping at the first error. */
  method EvaluateRules(query: Query, config: Value, namespace: string, names: seq<string>, counts: multiset<string>)
    returns (r: Outcome<RuleOutcome>)
    ensures r == EvalRules(query, config, namespace, names, counts)
  {
    var acc := RuleOutcome([], [], [], []);
    var i := 0;
    while i < |names|
      invariant 0 <= i <= |names|
      invariant EvalRules(query, config, namespace, names[..i], counts) == Ok(acc)
    {
      var next := EvaluateNext(query, config, namespace, names, i, counts, acc);
      if next.Fail? {
        EvalRulesFailSticks(query, config, namespace, names, i + 1, counts);
        return next;
      }
      acc := next.value;
      i := i + 1;
    }
    assert names[..|names|] == names;
    return Ok(acc);
  }

  /** Engine.check. */
  method CheckConfig(modules: seq<Module>, query: Query, path: string, config: Value, namespace: string)
    returns (r: Outcome<CheckResult>)
    ensures r == CheckConfigSpec(modules, query, path, config, namespace)
  {
    var names, counts := CountRules(modules, namespace);
    var o := EvaluateRules(query, config, namespace, names, counts);
    if o.Fail? {
      return Fail(o.error);
    }
    var acc := o.value;
    return Ok(CheckResult(path, acc.warnings, acc.failures, acc.exceptions, acc.successes));
  }

  /** Engine.CheckCombined: all configurations as one input, under the name "Combined". */
  method CheckCombined(modules: seq<Module>, query: Query, combined: Value, namespace: string)
    returns (r: Outcome<CheckResult>)
    ensures r.Ok? ==> r == CheckConfigSpec(modules, query, "Combined", combined, namespace) && r.value.fileName == "Combined"
    ensures r.Fail? <==> CheckConfigSpec(modules, query, "Combined", combined, namespace).Fail?
    ensures r.Fail? ==> r.error == "combined query: " + CheckConfigSpec(modules, query, "Combined", combined, namespace).error
  {
    var c := CheckConfig(modules, query, "Combined", combined, namespace);
    if c.Fail? {
      return Fail("combined query: " + c.error);
    }
    return c;
  }

  // ---- Check: every configuration -----------------------------------------

  /** One evaluation folded into the result gathered so far for the same path. */
  function Merge(acc: CheckResult, r: CheckResult): CheckResult {
    CheckResult(acc.fileName, acc.warnings + r.warnings, acc.failures + r.failures,
      acc.exceptions + r.exceptions, acc.successes + r.successes)
  }

  function Wrap(r: Outcome<CheckResult>): Outcome<CheckResult> {
    match r
    case Fail(e) => Fail("check: " + e)
    case Ok(c) => Ok(c)
  }

  /** The documents of a multi-document configuration, each checked on its
      own and gathered under the one path. */
  function CheckDocs(modules: seq<Module>, query: Query, path: string, docs: seq<Value>, namespace: string): Outcome<CheckResult> {
    if |docs| == 0 then Ok(CheckResult(path, [], [], [], []))
    else
      match CheckDocs(modules, query, path, docs[..|docs| - 1], namespace)
      case Fail(e) => Fail(e)
      case Ok(acc) =>
        match Wrap(CheckConfigSpec(modules, query, path, docs[|docs| - 1], namespace))
        case Fail(e) => Fail(e)
        case Ok(r) => Ok(Merge(acc, r))
  }

  /** What Check returns: a CheckResult per configuration, in order. */
  function CheckAll(modules: seq<Module>, query: Query, configs: seq<(string, Value)>, namespace: string): Outcome<seq<CheckResult>> {
    if |configs| == 0 then Ok([])
    else
      match CheckAll(modules, query, configs[..|configs| - 1], namespace)
      case Fail(e) => Fail(e)
      case Ok(acc) =>
        var (path, config) := configs[|configs| - 1];
        var one := if config.Arr? then CheckDocs(modules, query, path, config.items, namespace)
                   else Wrap(CheckConfigSpec(modules, query, path, config, namespace));
        match one
        case Fail(e) => Fail(e)
        case Ok(r) => Ok(acc + [r])
  }

  lemma {:induction false} CheckDocsFailSticks(modules: seq<Module>, query: Query, path: string, docs: seq<Value>, k: nat, namespace: string)
    requires k <= |docs|
    requires CheckDocs(modules, query, path, docs[..k], namespace).Fail?
    ensures CheckDocs(modules, query, path, docs, namespace) == CheckDocs(modules, query, path, docs[..k], namespace)
    decreases |docs| - k
  {
    if k < |docs| {
      assert docs[..k + 1][..k] == docs[..k];
      CheckDocsFailSticks(modules, query, path, docs, k + 1, namespace);
    } else {
      assert docs[..k] == docs;
    }
  }

  lemma {:induction false} CheckAllFailSticks(modules: seq<Module>, query: Query, configs: seq<(string, Value)>, k: nat, namespace: string)
    requires k <= |configs|
    requires CheckAll(modules, query, configs[..k], namespace).Fail?
    ensures CheckAll(modules, query, configs, namespace) == CheckAll(modules, query, configs[..k], namespace)
    decreases |configs| - k
  {
    if k < |configs| {
      assert configs[..k + 1][..k] == configs[..k];
      CheckAllFailSticks(modules, query, configs, k + 1, namespace);
    } else {
      assert configs[..k] == configs;
    }
  }

  /** The loop over the documents of one configuration (policy/engine.go:41-55). */
  method CheckDocuments(modules: seq<Module>, query: Query, path: string, docs: seq<Value>, namespace: string)
    returns (r: Outcome<CheckResult>)
    ensures r == CheckDocs(modules, query, path, docs, namespace)
  {
    var acc := CheckResult(path, [], [], [], []);
    var i := 0;
    while i < |docs|
      invariant 0 <= i <= |docs|
      invariant CheckDocs(modules, query, path, docs[..i], namespace) == Ok(acc)
    {
      assert docs[..i + 1][..i] == docs[..i];
      var one := CheckConfig(modules, query, path, docs[i], namespace);
      if one.Fail? {
        CheckDocsFailSticks(modules, query, path, docs, i + 1, namespace);
        return Fail("check: " + one.error);
      }
      acc := Merge(acc, one.value);
      i := i + 1;
    }
    assert docs[..|docs|] == docs;
    return Ok(acc);
  }

  /** Engine.Check. The configurations, a Go map, are taken in a fixed order. */
  method Check(modules: seq<Module>, query: Query, configs: seq<(string, Value)>, namespace: string)
    returns (r: Outcome<seq<CheckResult>>)
    ensures r == CheckAll(modules, query, configs, namespace)
  {
    var results: seq<CheckResult> := [];
    var i := 0;
    while i < |configs|
      invariant 0 <= i <= |configs|
      invariant CheckAll(modules, query, configs[..i], namespace) == Ok(results)
    {
      assert configs[..i + 1][..i] == configs[..i];
      var (path, config) := configs[i];
      var one: Outcome<CheckResult>;
      if config.Arr? {
        one := CheckDocuments(modules, query, path, config.items, namespace);
      } else {
        one := CheckConfig(modules, query, path, config, namespace);
        if one.Fail? {
          one := Fail("check: " + one.error);
        }
      }
      if one.Fail? {
        CheckAllFailSticks(modules, query, configs, i + 1, namespace);
        return Fail(one.error);
      }
      results := results + [one.value];
      i := i + 1;
    }
    assert configs[..|configs|] == configs;
    return Ok(results);
  }

  /** One CheckResult per configuration, in order, named by its path. */
  lemma {:induction false} CheckAllShape(modules: seq<Module>, query: Query, configs: seq<(string, Value)>, namespace: string)
    ensures var r := CheckAll(modules, query, configs, namespace);
      r.Ok? ==> (|r.value| == |configs|
        && forall i :: 0 <= i < |configs| ==> r.value[i].fileName == configs[i].0)
  {
    if |configs| > 0 {
      var init := configs[..|configs| - 1];
      CheckAllShape(modules, query, init, namespace);
      var last := configs[|configs| - 1];
      if last.1.Arr? {
        CheckDocsPath(modules, query, last.0, last.1.items, namespace);
      } else {
        CheckConfigPath(modules, query, last.0, last.1, namespace);
      }
    }
  }

  lemma CheckConfigPath(modules: seq<Module>, query: Query, path: string, config: Value, namespace: string)
    ensures CheckConfigSpec(modules, query, path, config, namespace).Ok? ==>
      CheckConfigSpec(modules, query, path, config, namespace).value.fileName == path
  {
  }

  lemma {:induction false} CheckDocsPath(modules: seq<Module>, query: Query, path: string, docs: seq<Value>, namespace: string)
    ensures CheckDocs(modules, query, path, docs, namespace).Ok? ==>
      CheckDocs(modules, query, path, docs, namespace).value.fileName == path
  {
    if |docs| > 0 {
      CheckDocsPath(modules, query, path, docs[..|docs| - 1], namespace);
    }
  }

  function MergeOutcomes(a: Outcome<CheckResult>, b: Outcome<CheckResult>): Outcome<CheckResult> {
    match a
    case Fail(e) => Fail(e)
    case Ok(x) =>
      match b
      case Fail(e) => Fail(e)
      case Ok(y) => Ok(Merge(x, y))
  }

  /** A single document is checked like a plain configuration. */
  lemma CheckOneDoc(modules: seq<Module>, query: Query, path: string, doc: Value, namespace: string)
    ensures CheckDocs(modules, query, path, [doc], namespace)
      == MergeOutcomes(Ok(CheckResult(path, [], [], [], [])), Wrap(CheckConfigSpec(modules, query, path, doc, namespace)))
  {
    assert [doc][..0] == [];
  }

  /** Splitting the documents splits the checking: the result for `a + b` is
      the result for `a` with the results for `b` appended, field by field,
      and the first failing document decides the error. */
  lemma {:induction false} CheckDocsAppend(modules: seq<Module>, query: Query, path: string, a: seq<Value>, b: seq<Value>, namespace: string)
    ensures CheckDocs(modules, query, path, a + b, namespace)
      == MergeOutcomes(CheckDocs(modules, query, path, a, namespace), CheckDocs(modules, query, path, b, namespace))
    decreases |b|
  {
    if |b| == 0 {
      assert a + b == a;
      var ca := CheckDocs(modules, query, path, a, namespace);
      if ca.Ok? {
        CheckDocsPath(modules, query, path, a, namespace);
        assert Merge(ca.value, CheckResult(path, [], [], [], [])) == ca.value;
      }
    } else {
      var init := b[..|b| - 1];
      var d := b[|b| - 1];
      assert (a + b)[..|a + b| - 1] == a + init;
      assert (a + b)[|a + b| - 1] == d;
      CheckDocsAppend(modules, query, path, a, init, namespace);
      var ca := CheckDocs(modules, query, path, a, namespace);
      var ci := CheckDocs(modules, query, path, init, namespace);
      var cd := Wrap(CheckConfigSpec(modules, query, path, d, namespace));
      if ca.Ok? && ci.Ok? && cd.Ok? {
        MergeAssoc(ca.value, ci.value, cd.value);
      }
    }
  }

  lemma MergeAssoc(x: CheckResult, y: CheckResult, z: CheckResult)
    ensures Merge(Merge(x, y), z) == Merge(x, Merge(y, z))
  {
    assert x.warnings + y.warnings + z.warnings == x.warnings + (y.warnings + z.warnings);
    assert x.failures + y.failures + z.failures == x.failures + (y.failures + z.failures);
    assert x.exceptions + y.exceptions + z.exceptions == x.exceptions + (y.exceptions + z.exceptions);
    assert x.successes + y.successes + z.successes == x.successes + (y.successes + z.successes);
  }
}
