/** The YAML parser's handling of multi-document input
    (parser/yaml/yaml.go): splitting the bytes on the document separator,
    keeping a leading "%" directive with the first document, and decoding
    several subdocuments into one list. Decoding a single YAML document is
    done by a library and is a parameter here. */
module Yaml {
  import opened Wrappers
  import opened Strs
  import opened Values

  type Bytes = seq<bv8>

  const LF: Bytes := [10]
  const CRLF: Bytes := [13, 10]
  const Dashes: Bytes := [45, 45, 45]
  const Percent: Bytes := [37]

  /** The line ending of the data: CRLF as soon as one occurs, else LF. */
  function Linebreak(data: Bytes): Bytes {
    if Contains(data, CRLF) then CRLF else LF
  }

  /** The document separator: a line holding only "---". */
  function Separator(data: Bytes): (sep: Bytes)
    ensures Contains(data, CRLF) ==> sep == [13, 10, 45, 45, 45, 13, 10]
    ensures !Contains(data, CRLF) ==> sep == [10, 45, 45, 45, 10]
  {
    Linebreak(data) + Dashes + Linebreak(data)
  }

  /** separateSubDocuments. */
  function SeparateSubDocuments(data: Bytes): seq<Bytes> {
    var separator := Separator(data);
    var parts := Split(data, separator);
    if HasPrefix(data, Percent) then
      if |parts| <= 2 then [data]
      else [parts[0] + separator + parts[1]] + parts[2..]
    else if |parts| <= 1 then [data]
    else parts
  }

  /** The cases of separateSubDocuments: without a directive the pieces of
      the split (or the data itself when there is no separator); with a
      directive, the data itself for at most one separator, else the
      directive glued to the first document and one fewer document than
      pieces. */
  lemma SubDocumentCases(data: Bytes)
    ensures var parts := Split(data, Separator(data));
      var docs := SeparateSubDocuments(data);
      (!HasPrefix(data, Percent) && |parts| <= 1 ==> docs == [data])
      && (!HasPrefix(data, Percent) && |parts| > 1 ==> docs == parts)
      && (HasPrefix(data, Percent) && |parts| <= 2 ==> docs == [data])
      && (HasPrefix(data, Percent) && |parts| > 2 ==>
            |docs| == |parts| - 1
            && docs[0] == parts[0] + Separator(data) + parts[1]
            && docs[1..] == parts[2..])
  {
  }

  /** Joining two leading parts first does not change the join. */
  lemma JoinFirstTwo(parts: seq<Bytes>, sep: Bytes)
    requires |parts| > 2
    ensures Join([parts[0] + sep + parts[1]] + parts[2..], sep) == Join(parts, sep)
  {
    var glued := [parts[0] + sep + parts[1]] + parts[2..];
    assert glued[1..] == parts[2..];
    assert parts[1..][1..] == parts[2..];
    assert Join(parts[1..], sep) == parts[1] + sep + Join(parts[2..], sep);
  }

  /** There is always at least one subdocument, and joining the
      subdocuments with the separator gives back the input. */
  lemma SubDocumentsRoundTrip(data: Bytes)
    ensures |SeparateSubDocuments(data)| >= 1
    ensures Join(SeparateSubDocuments(data), Separator(data)) == data
  {
    var separator := Separator(data);
    var parts := Split(data, separator);
    JoinSplit(data, separator);
    if HasPrefix(data, Percent) && |parts| > 2 {
      JoinFirstTwo(parts, separator);
    }
  }

  /** Without a directive no subdocument holds the separator. */
  lemma SubDocumentsFree(data: Bytes)
    requires !HasPrefix(data, Percent)
    ensures forall k :: 0 <= k < |SeparateSubDocuments(data)| ==>
      !Contains(SeparateSubDocuments(data)[k], Separator(data))
  {
    SplitPartsFree(data, Separator(data));
    var parts := Split(data, Separator(data));
    if |parts| <= 1 {
      assert parts == [data];
    }
  }

  /** Decoding one YAML document: the library call, a parameter here. */
  type Decode = Bytes -> Outcome<Value>

  /** The decoding loop of unmarshalMultipleDocuments. */
  function DecodeAll(decode: Decode, docs: seq<Bytes>): Outcome<seq<Value>> {
    if |docs| == 0 then Ok([])
    else
      match DecodeAll(decode, docs[..|docs| - 1])
      case Fail(e) => Fail(e)
      case Ok(acc) =>
        match decode(docs[|docs| - 1])
        case Fail(e) => Fail("unmarshal subdocument yaml: " + e)
        case Ok(v) => Ok(acc + [v])
  }

  lemma {:induction false} DecodeFailSticks(decode: Decode, docs: seq<Bytes>, k: nat)
    requires k <= |docs|
    requires DecodeAll(decode, docs[..k]).Fail?
    ensures DecodeAll(decode, docs) == DecodeAll(decode, docs[..k])
    decreases |docs| - k
  {
    if k < |docs| {
      assert docs[..k + 1][..k] == docs[..k];
      DecodeFailSticks(decode, docs, k + 1);
    } else {
      assert docs[..k] == docs;
    }
  }

  /** unmarshalMultipleDocuments: every subdocument decoded in order and
      collected into one list. */
  method UnmarshalMultipleDocuments(decode: Decode, docs: seq<Bytes>) returns (r: Outcome<Value>)
    ensures r == (match DecodeAll(decode, docs)
                  case Fail(e) => Fail(e)
                  case Ok(vs) => Ok(Arr(vs)))
  {
    var store: seq<Value> := [];
    var i := 0;
    while i < |docs|
      invariant 0 <= i <= |docs|
      invariant DecodeAll(decode, docs[..i]) == Ok(store)
    {
      assert docs[..i + 1][..i] == docs[..i];
      var d := decode(docs[i]);
      if d.Fail? {
        DecodeFailSticks(decode, docs, i + 1);
        return Fail("unmarshal subdocument yaml: " + d.error);
      }
      store := store + [d.value];
      i := i + 1;
    }
    assert docs[..|docs|] == docs;
    return Ok(Arr(store));
  }

  /** What Unmarshal produces. */
  function UnmarshalSpec(decode: Decode, p: Bytes): Outcome<Value> {
    var subDocuments := SeparateSubDocuments(p);
    if |subDocuments| > 1 then
      match DecodeAll(decode, subDocuments)
      case Fail(e) => Fail("unmarshal multiple documents: " + e)
      case Ok(vs) => Ok(Arr(vs))
    else
      match decode(p)
      case Fail(e) => Fail("unmarshal yaml: " + e)
      case Ok(v) => Ok(v)
  }

  /** Unmarshal. */
  method Unmarshal(decode: Decode, p: Bytes) returns (r: Outcome<Value>)
    ensures r == UnmarshalSpec(decode, p)
  {
    var subDocuments := SeparateSubDocuments(p);
    if |subDocuments| > 1 {
      var m := UnmarshalMultipleDocuments(decode, subDocuments);
      if m.Fail? {
        return Fail("unmarshal multiple documents: " + m.error);
      }
      return m;
    }
    var d := decode(p);
    if d.Fail? {
      return Fail("unmarshal yaml: " + d.error);
    }
    return Ok(d.value);
  }

  /** Decoding all documents fails exactly when one of them does; otherwise
      there is one value per document, in order. */
  lemma {:induction false} DecodeAllShape(decode: Decode, docs: seq<Bytes>)
    ensures DecodeAll(decode, docs).Fail? <==> exists i :: 0 <= i < |docs| && decode(docs[i]).Fail?
    ensures DecodeAll(decode, docs).Ok? ==>
      |DecodeAll(decode, docs).value| == |docs|
      && forall i :: 0 <= i < |docs| ==> decode(docs[i]) == Ok(DecodeAll(decode, docs).value[i])
  {
    if |docs| > 0 {
      var init := docs[..|docs| - 1];
      DecodeAllShape(decode, init);
      if DecodeAll(decode, init).Fail? {
        var i :| 0 <= i < |init| && decode(init[i]).Fail?;
        assert docs[i] == init[i];
      } else if DecodeAll(decode, docs).Ok? {
        forall i | 0 <= i < |docs| ensures decode(docs[i]) == Ok(DecodeAll(decode, docs).value[i]) {
          if i < |init| { assert docs[i] == init[i]; }
        }
      }
    }
  }

  /** A single subdocument is decoded whole; several become a list with one
      decoded value per subdocument, in order, and one invalid subdocument
      fails the call. */
  lemma UnmarshalShape(decode: Decode, p: Bytes)
    ensures var docs := SeparateSubDocuments(p);
      (|docs| <= 1 ==> (UnmarshalSpec(decode, p).Ok? <==> decode(p).Ok?))
      && (|docs| <= 1 && decode(p).Ok? ==> UnmarshalSpec(decode, p) == decode(p))
      && (|docs| > 1 ==>
            (UnmarshalSpec(decode, p).Fail? <==> exists i :: 0 <= i < |docs| && decode(docs[i]).Fail?))
      && (|docs| > 1 && UnmarshalSpec(decode, p).Ok? ==>
            UnmarshalSpec(decode, p).value.Arr?
            && |UnmarshalSpec(decode, p).value.items| == |docs|
            && forall i :: 0 <= i < |docs| ==> decode(docs[i]) == Ok(UnmarshalSpec(decode, p).value.items[i]))
  {
    DecodeAllShape(decode, SeparateSubDocuments(p));
  }
}
