/** The documentation generator's section list (document/metadata.go):
    annotated Rego packages and rules become sections whose heading depth
    follows the length of their path, smoothed so that a heading is never
    more than one level below the previous one. Loading and compiling the
    Rego files is outside the model: the flattened annotation set arrives
    as a sequence. */
module Metadata {
  import opened Wrappers
  import opened Strs

  /** The annotations OPA attached to a package or rule; only the title is
      looked at here. */
  datatype Annotations = Annotations(title: string, description: string)

  /** One entry of the flattened annotation set: the number of terms of its
      path (`data` included), the printed path, and its annotations. */
  datatype AnnotationsRef = AnnotationsRef(pathLength: nat, pathText: string, annotations: Annotations)

  datatype Section = Section(
    regoPackageName: string,
    depth: int,
    markdownHeading: string,
    annotations: Annotations)

  /** Section.Equal: heading, package name and title; nothing else. */
  predicate SectionEqual(s: Section, s2: Section) {
    s.markdownHeading == s2.markdownHeading
    && s.regoPackageName == s2.regoPackageName
    && s.annotations.title == s2.annotations.title
  }

  /** Equal ignores the depth field and all other annotations. */
  lemma SectionEqualIgnores(s: Section, depth: int, description: string)
    ensures SectionEqual(s, s.(depth := depth, annotations := s.annotations.(description := description)))
  {
  }

  /** The loop state: the sections so far, currentDepth and offset. */
  datatype State = State(doc: seq<Section>, currentDepth: int, offset: int)

  /** strings.Repeat with a negative count panics. */
  const NegativeRepeat := "strings: negative Repeat count"

  /** One iteration of the loop of ConvertAnnotationsToSections
      (document/metadata.go:91-118) for entry number `i`. */
  function Step(st: State, i: nat, entry: AnnotationsRef): Outcome<State> {
    var depth := entry.pathLength - st.offset;
    var offset := if i == 0 && depth > 1 then depth else st.offset;
    var smoothed := if depth - st.currentDepth > 1 then st.currentDepth + 1 else depth;
    if smoothed < 0 then Fail(NegativeRepeat)
    else
      var section := Section(TrimPrefix(entry.pathText, "data."), smoothed, Repeat('#', smoothed), entry.annotations);
      Ok(State(st.doc + [section], smoothed, offset))
  }

  /** The loop run over a prefix of the annotation set. */
  function Run(entries: seq<AnnotationsRef>): Outcome<State> {
    if |entries| == 0 then Ok(State([], 0, 1))
    else
      match Run(entries[..|entries| - 1])
      case Fail(e) => Fail(e)
      case Ok(st) => Step(st, |entries| - 1, entries[|entries| - 1])
  }

  lemma {:induction false} RunFailSticks(entries: seq<AnnotationsRef>, k: nat)
    requires k <= |entries|
    requires Run(entries[..k]).Fail?
    ensures Run(entries) == Run(entries[..k])
    decreases |entries| - k
  {
    if k < |entries| {
      assert entries[..k + 1][..k] == entries[..k];
      RunFailSticks(entries, k + 1);
    } else {
      assert entries[..k] == entries;
    }
  }

  /** ConvertAnnotationsToSections. */
  method ConvertAnnotationsToSections(entries: seq<AnnotationsRef>) returns (d: Outcome<seq<Section>>)
    ensures Run(entries).Fail? ==> d == Fail(Run(entries).error)
    ensures Run(entries).Ok? ==> d == Ok(Run(entries).value.doc)
  {
    var doc: seq<Section> := [];
    var currentDepth := 0;
    var offset := 1;
    var i := 0;
    while i < |entries|
      invariant 0 <= i <= |entries|
      invariant Run(entries[..i]) == Ok(State(doc, currentDepth, offset))
    {
      assert entries[..i + 1][..i] == entries[..i];
      var entry := entries[i];
      var depth := entry.pathLength - offset;
      if i == 0 && depth > 1 {
        offset := depth;
      }
      if depth - currentDepth > 1 {
        depth := currentDepth + 1;
      }
      currentDepth := depth;
      if depth < 0 {
        RunFailSticks(entries, i + 1);
        return Fail(NegativeRepeat);
      }
      var h := Repeat('#', depth);
      var path := TrimPrefix(entry.pathText, "data.");
      doc := doc + [Section(path, depth, h, entry.annotations)];
      i := i + 1;
    }
    assert entries[..|entries|] == entries;
    return Ok(doc);
  }

  /** The offset after the first entry: its depth when that exceeds 1, else 1. */
  function Offset(entries: seq<AnnotationsRef>): int {
    if |entries| > 0 && entries[0].pathLength - 1 > 1 then entries[0].pathLength - 1 else 1
  }

  /** What one run promises: one section per entry, in order, each named by
      its path without "data." and headed by as many "#" as its depth; the
      first depth is at most 1 and each depth is at most one more than the
      previous; the loop ends with the last depth and the offset fixed by
      the first entry. */
  predicate Promised(entries: seq<AnnotationsRef>, st: State) {
    |st.doc| == |entries|
    && (forall i :: 0 <= i < |entries| ==>
          st.doc[i].regoPackageName == TrimPrefix(entries[i].pathText, "data.")
          && st.doc[i].annotations == entries[i].annotations
          && st.doc[i].depth >= 0
          && st.doc[i].markdownHeading == Repeat('#', st.doc[i].depth))
    && (|entries| > 0 ==> st.doc[0].depth <= 1 && st.currentDepth == st.doc[|entries| - 1].depth)
    && (|entries| == 0 ==> st.currentDepth == 0)
    && (forall i :: 0 < i < |entries| ==> st.doc[i].depth <= st.doc[i - 1].depth + 1)
    && st.offset == Offset(entries)
  }

  /** The run succeeds exactly when no path is shorter than the offset, and
      then it keeps its promises. */
  lemma {:induction false} RunShape(entries: seq<AnnotationsRef>)
    ensures Run(entries).Ok? <==> forall i :: 0 <= i < |entries| ==> entries[i].pathLength >= Offset(entries)
    ensures Run(entries).Ok? ==> Promised(entries, Run(entries).value)
  {
    if |entries| > 0 {
      var init := entries[..|entries| - 1];
      var last := entries[|entries| - 1];
      assert entries == init + [last];
      RunShape(init);
      if |entries| > 1 { OffsetOfInit(entries); }
      if Run(init).Fail? {
        var i :| 0 <= i < |init| && init[i].pathLength < Offset(init);
        assert entries[i] == init[i];
      } else {
        var st := Run(init).value;
        assert Run(entries) == Step(st, |init|, last);
        assert |init| == 0 ==> st == State([], 0, 1);
        StepShape(init, st, last);
        forall i | 0 <= i < |init| ensures entries[i] == init[i] { }
      }
    }
  }

  /** Dropping the last entry keeps the offset, as long as an entry remains. */
  lemma OffsetOfInit(entries: seq<AnnotationsRef>)
    requires |entries| > 1
    ensures Offset(entries[..|entries| - 1]) == Offset(entries)
  {
  }

  /** One step keeps the promises, and fails exactly on a path shorter
      than the offset. */
  lemma StepShape(init: seq<AnnotationsRef>, st: State, last: AnnotationsRef)
    requires Promised(init, st)
    requires |init| == 0 ==> st == State([], 0, 1)
    ensures Step(st, |init|, last).Fail? <==> last.pathLength < Offset(init + [last])
    ensures Step(st, |init|, last).Ok? ==> Promised(init + [last], Step(st, |init|, last).value)
  {
    var entries := init + [last];
    assert entries[..|init|] == init;
    if |init| > 0 {
      assert entries[0] == init[0];
      assert st.currentDepth >= 0;
    }
    if Step(st, |init|, last).Ok? {
      var st2 := Step(st, |init|, last).value;
      assert st2.doc == st.doc + [st2.doc[|init|]];
      forall i | 0 <= i < |init| ensures entries[i] == init[i] && st2.doc[i] == st.doc[i] { }
    }
  }

  /** The depth never jumps by more than one level. */
  lemma DepthSmoothed(entries: seq<AnnotationsRef>, i: nat)
    requires Run(entries).Ok? && 0 < i < |entries|
    ensures var doc := Run(entries).value.doc;
      |doc| == |entries| && doc[i].depth <= doc[i - 1].depth + 1
  {
    RunShape(entries);
  }
}
