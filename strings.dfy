/** The byte- and string-level operations of Go's `strings` and `bytes`
    packages that the conftest code relies on, stated over sequences so that
    one definition serves `string` and `[]byte`. */
module Strs {

  predicate HasPrefix<T(==)>(s: seq<T>, p: seq<T>) {
    |p| <= |s| && s[..|p|] == p
  }

  predicate HasSuffix<T(==)>(s: seq<T>, p: seq<T>) {
    |p| <= |s| && s[|s| - |p|..] == p
  }

  /** strings.TrimPrefix: removes one leading `p`, if present. */
  function TrimPrefix<T(==)>(s: seq<T>, p: seq<T>): (r: seq<T>)
    ensures HasPrefix(s, p) ==> s == p + r
    ensures !HasPrefix(s, p) ==> r == s
  {
    if HasPrefix(s, p) then s[|p|..] else s
  }

  /** strings.Index / bytes.Index: the position of the first occurrence of
      `sub` in `s`, or -1 when there is none (IndexIsFirst states the "first"). */
  function Index<T(==)>(s: seq<T>, sub: seq<T>): (r: int)
    ensures -1 <= r <= |s|
    ensures r >= 0 ==> r + |sub| <= |s|
    decreases |s|
  {
    if HasPrefix(s, sub) then 0
    else if |s| == 0 then -1
    else
      var k := Index(s[1..], sub);
      if k < 0 then -1 else k + 1
  }

  /** Index reports a position where `sub` does occur. */
  lemma {:induction false} IndexMatches<T>(s: seq<T>, sub: seq<T>)
    ensures Index(s, sub) >= 0 ==> HasPrefix(s[Index(s, sub)..], sub)
    decreases |s|
  {
    if !HasPrefix(s, sub) && |s| > 0 {
      IndexMatches(s[1..], sub);
      var k := Index(s[1..], sub);
      if k >= 0 {
        assert s[1..][k..] == s[k + 1..];
      }
    }
  }

  /** No occurrence of `sub` starts before the one Index reports, and none at
      all when it reports -1. */
  lemma {:induction false} IndexIsFirst<T>(s: seq<T>, sub: seq<T>)
    ensures Index(s, sub) >= 0 ==> forall j :: 0 <= j < Index(s, sub) ==> !HasPrefix(s[j..], sub)
    ensures Index(s, sub) < 0 ==> forall j :: 0 <= j <= |s| ==> !HasPrefix(s[j..], sub)
    decreases |s|
  {
    if !HasPrefix(s, sub) && |s| > 0 {
      IndexIsFirst(s[1..], sub);
      forall j | 1 <= j <= |s| ensures s[1..][j - 1..] == s[j..] { }
    }
  }

  /** strings.Contains / bytes.Contains. */
  predicate Contains<T(==)>(s: seq<T>, sub: seq<T>) {
    Index(s, sub) >= 0
  }

  /** For a one-element pattern, containment is plain membership. */
  lemma ContainsSingle<T>(s: seq<T>, c: T)
    ensures Contains(s, [c]) <==> c in s
  {
    IndexIsFirst(s, [c]);
    IndexMatches(s, [c]);
    var r := Index(s, [c]);
    if r >= 0 {
      assert s[r..][..1] == [c];
      assert s[r] == c;
    }
    if c in s {
      var j :| 0 <= j < |s| && s[j] == c;
      assert HasPrefix(s[j..], [c]);
    }
  }

  /** strings.Split / bytes.Split for a non-empty separator: the pieces of `s`
      between successive leftmost non-overlapping occurrences of `sep`. */
  function Split<T(==)>(s: seq<T>, sep: seq<T>): (parts: seq<seq<T>>)
    requires |sep| > 0
    ensures |parts| >= 1
    decreases |s|
  {
    var i := Index(s, sep);
    if i < 0 then [s] else [s[..i]] + Split(s[i + |sep|..], sep)
  }

  /** How Split unfolds once. */
  lemma SplitStep<T>(s: seq<T>, sep: seq<T>)
    requires |sep| > 0
    ensures Index(s, sep) < 0 ==> Split(s, sep) == [s]
    ensures Index(s, sep) >= 0 ==> Split(s, sep) == [s[..Index(s, sep)]] + Split(s[Index(s, sep) + |sep|..], sep)
  {
  }

  /** strings.Join / bytes.Join. */
  function Join<T>(parts: seq<seq<T>>, sep: seq<T>): seq<T>
    decreases |parts|
  {
    if |parts| == 0 then []
    else if |parts| == 1 then parts[0]
    else parts[0] + sep + Join(parts[1..], sep)
  }

  /** Joining the pieces of a split with the same separator gives back the input. */
  lemma {:induction false} JoinSplit<T>(s: seq<T>, sep: seq<T>)
    requires |sep| > 0
    ensures Join(Split(s, sep), sep) == s
    decreases |s|
  {
    SplitStep(s, sep);
    var i := Index(s, sep);
    if i >= 0 {
      var tail := s[i + |sep|..];
      JoinSplit(tail, sep);
      JoinCons(s[..i], Split(tail, sep), sep);
      PieceSepRest(s, i, sep);
    }
  }

  /** Around the first occurrence of `sep`: the text before it, `sep`, the rest. */
  lemma PieceSepRest<T>(s: seq<T>, i: int, sep: seq<T>)
    requires i == Index(s, sep) && i >= 0
    ensures s == s[..i] + sep + s[i + |sep|..]
  {
    IndexMatches(s, sep);
    assert s[i..][..|sep|] == sep;
  }

  /** No piece of a split contains the separator. */
  lemma {:induction false} SplitPartsFree<T>(s: seq<T>, sep: seq<T>)
    requires |sep| > 0
    ensures forall k :: 0 <= k < |Split(s, sep)| ==> !Contains(Split(s, sep)[k], sep)
    decreases |s|
  {
    var i := Index(s, sep);
    if i >= 0 {
      SplitPartsFree(s[i + |sep|..], sep);
      IndexIsFirst(s, sep);
      var head := s[..i];
      HeadFree(s, i, sep);
      assert Split(s, sep) == [head] + Split(s[i + |sep|..], sep);
    }
  }

  /** A prefix of `s` that ends before the first occurrence of `sep` does
      not contain it. */
  lemma HeadFree<T>(s: seq<T>, i: nat, sep: seq<T>)
    requires |sep| > 0 && i <= |s|
    requires forall j :: 0 <= j < i ==> !HasPrefix(s[j..], sep)
    ensures !Contains(s[..i], sep)
  {
    IndexMatches(s[..i], sep);
    var r := Index(s[..i], sep);
    if r >= 0 {
      PrefixWithin(s, i, r, sep);
    }
  }

  lemma PrefixWithin<T>(s: seq<T>, i: nat, r: nat, sep: seq<T>)
    requires r + |sep| <= i <= |s|
    ensures HasPrefix(s[..i][r..], sep) <==> HasPrefix(s[r..], sep)
  {
    assert s[..i][r..][..|sep|] == s[r..][..|sep|];
  }

  /** The last piece of splitting `s` on the single element `c`. */
  function LastSegment<T(==)>(s: seq<T>, c: T): seq<T> {
    Last(Split(s, [c]))
  }

  /** The last element of a non-empty sequence. */
  function Last<T>(q: seq<T>): T
    requires |q| > 0
  {
    q[|q| - 1]
  }

  /** The last segment is free of `c` and ends `s`. */
  lemma LastSegmentFacts<T>(s: seq<T>, c: T)
    ensures c !in LastSegment(s, c)
    ensures HasSuffix(s, LastSegment(s, c))
  {
    var parts := Split(s, [c]);
    SplitPartsFree(s, [c]);
    ContainsSingle(parts[|parts| - 1], c);
    LastPieceIsSuffix(s, [c]);
  }

  lemma {:induction false} LastPieceIsSuffix<T>(s: seq<T>, sep: seq<T>)
    requires |sep| > 0
    ensures HasSuffix(s, Split(s, sep)[|Split(s, sep)| - 1])
    decreases |s|
  {
    var i := Index(s, sep);
    if i >= 0 {
      var rest := s[i + |sep|..];
      LastPieceIsSuffix(rest, sep);
      assert Split(s, sep) == [s[..i]] + Split(rest, sep);
      SuffixOfDrop(s, i + |sep|, Split(rest, sep)[|Split(rest, sep)| - 1]);
    }
  }

  /** A suffix of a suffix is a suffix. */
  lemma SuffixOfDrop<T>(s: seq<T>, k: nat, x: seq<T>)
    requires k <= |s| && HasSuffix(s[k..], x)
    ensures HasSuffix(s, x)
  {
    assert s[k..][|s| - k - |x|..] == s[|s| - |x|..];
  }

  /** The first occurrence of a one-element separator in `s + t` is the one
      in `s`, when `s` has one, and there is none when neither part has it. */
  lemma IndexAppendSingle<T>(s: seq<T>, t: seq<T>, c: T)
    ensures Index(s, [c]) >= 0 ==> Index(s + t, [c]) == Index(s, [c])
    ensures Index(s, [c]) < 0 && c !in t ==> Index(s + t, [c]) < 0
  {
    ContainsSingle(s, c);
    ContainsSingle(s + t, c);
    var i := Index(s, [c]);
    if i >= 0 {
      IndexIsFirst(s, [c]);
      IndexIsFirst(s + t, [c]);
      IndexMatches(s, [c]);
      IndexMatches(s + t, [c]);
      var k := Index(s + t, [c]);
      assert s[i..][..1] == [c];
      assert (s + t)[i..][..1] == [c];
      assert k >= 0 && k <= i;
      assert (s + t)[k..][..1] == [c];
      assert (s + t)[k] == c;
      assert s[k..][..1] == [c];
    } else if c !in t {
      assert c !in s + t;
    }
  }

  /** One step of LastSegment: past the first `c`, the last segment is that
      of the remainder. */
  lemma LastSegmentStep<T>(s: seq<T>, c: T)
    ensures Index(s, [c]) >= 0 ==> LastSegment(s, c) == LastSegment(s[Index(s, [c]) + 1..], c)
    ensures Index(s, [c]) < 0 ==> LastSegment(s, c) == s
  {
    if Index(s, [c]) >= 0 {
      LastSegmentFound(s, c, Index(s, [c]));
    } else {
      SplitStep(s, [c]);
    }
  }

  lemma LastSegmentFound<T>(s: seq<T>, c: T, i: int)
    requires i == Index(s, [c]) && i >= 0
    ensures LastSegment(s, c) == LastSegment(s[i + 1..], c)
  {
    SplitStep(s, [c]);
    LastOfCons(s[..i], Split(s[i + 1..], [c]));
  }

  /** The last element of a sequence with one more element in front. */
  lemma LastOfCons<T>(x: T, q: seq<T>)
    requires |q| > 0
    ensures Last([x] + q) == Last(q)
  {
  }

  /** Appending text free of `c` extends the last `c`-separated segment. */
  lemma {:induction false} LastSegmentAppend<T>(s: seq<T>, t: seq<T>, c: T)
    requires c !in t
    ensures LastSegment(s + t, c) == LastSegment(s, c) + t
    decreases |s|
  {
    IndexAppendSingle(s, t, c);
    LastSegmentStep(s, c);
    LastSegmentStep(s + t, c);
    var i := Index(s, [c]);
    if i >= 0 {
      assert (s + t)[i + 1..] == s[i + 1..] + t;
      LastSegmentAppend(s[i + 1..], t, c);
    }
  }

  /** Nothing follows a trailing separator. */
  lemma {:induction false} LastSegmentAfterSeparator<T>(s: seq<T>, c: T)
    ensures LastSegment(s + [c], c) == []
    decreases |s|
  {
    var t := s + [c];
    IndexAppendSingle(s, [c], c);
    LastSegmentStep(t, c);
    var i := Index(s, [c]);
    if i >= 0 {
      assert t[i + 1..] == s[i + 1..] + [c];
      LastSegmentAfterSeparator(s[i + 1..], c);
    } else {
      ContainsSingle(s, c);
      IndexIsFirst(t, [c]);
      IndexMatches(t, [c]);
      assert HasPrefix(t[|s|..], [c]);
      var k := Index(t, [c]);
      assert k >= 0;
      assert t[k..][..1] == [c];
      assert t[k] == c;
      assert k == |s|;
      assert t[k + 1..] == [];
      assert Index<T>([], [c]) < 0;
    }
  }

  /** A sequence without `c` is its own (only) segment. */
  lemma LastSegmentNoSep<T>(s: seq<T>, c: T)
    requires c !in s
    ensures Split(s, [c]) == [s]
    ensures LastSegment(s, c) == s
  {
    ContainsSingle(s, c);
  }

  /** strings.Replace(s, pat, rep, -1) for a non-empty `pat`: every leftmost
      non-overlapping occurrence of `pat` is replaced by `rep`, scanning
      from the left. */
  function ReplaceAll<T(==)>(s: seq<T>, pat: seq<T>, rep: seq<T>): seq<T>
    requires |pat| > 0
    decreases |s|
  {
    var i := Index(s, pat);
    if i < 0 then s else s[..i] + rep + ReplaceAll(s[i + |pat|..], pat, rep)
  }

  /** Replacing every occurrence is joining the pieces of the split with the
      replacement. */
  lemma {:induction false} ReplaceAllIsJoinSplit<T>(s: seq<T>, pat: seq<T>, rep: seq<T>)
    requires |pat| > 0
    ensures ReplaceAll(s, pat, rep) == Join(Split(s, pat), rep)
    decreases |s|
  {
    var i := Index(s, pat);
    if i >= 0 {
      var rest := s[i + |pat|..];
      ReplaceAllIsJoinSplit(rest, pat, rep);
      JoinCons(s[..i], Split(rest, pat), rep);
    }
  }

  /** strings.Replace(s, pat, rep, 1): only the first occurrence is replaced. */
  function ReplaceFirst<T(==)>(s: seq<T>, pat: seq<T>, rep: seq<T>): (r: seq<T>)
    ensures Index(s, pat) < 0 ==> r == s
    ensures Index(s, pat) >= 0 ==>
      r == s[..Index(s, pat)] + rep + s[Index(s, pat) + |pat|..]
  {
    var i := Index(s, pat);
    if i < 0 then s else s[..i] + rep + s[i + |pat|..]
  }

  /** Element-wise substitution of `c` by `d`. */
  function MapElem<T(==)>(s: seq<T>, c: T, d: T): (r: seq<T>)
    ensures |r| == |s|
    ensures forall i :: 0 <= i < |s| ==> r[i] == if s[i] == c then d else s[i]
  {
    seq(|s|, i requires 0 <= i < |s| => if s[i] == c then d else s[i])
  }

  lemma MapElemAppend<T>(a: seq<T>, b: seq<T>, c: T, d: T)
    ensures MapElem(a + b, c, d) == MapElem(a, c, d) + MapElem(b, c, d)
  {
  }

  /** One step of ReplaceAll: the text before the first occurrence, the
      replacement, then the rest replaced. */
  lemma ReplaceAllStep<T>(s: seq<T>, pat: seq<T>, rep: seq<T>)
    requires |pat| > 0
    ensures Index(s, pat) < 0 ==> ReplaceAll(s, pat, rep) == s
    ensures Index(s, pat) >= 0 ==>
      ReplaceAll(s, pat, rep) == s[..Index(s, pat)] + rep + ReplaceAll(s[Index(s, pat) + |pat|..], pat, rep)
  {
  }

  /** Join with one more piece in front. */
  lemma JoinCons<T>(x: seq<T>, q: seq<seq<T>>, sep: seq<T>)
    requires |q| > 0
    ensures Join([x] + q, sep) == x + sep + Join(q, sep)
  {
    assert ([x] + q)[1..] == q;
  }

  /** Substitution around the first `c`: the part before it is unchanged. */
  lemma MapElemAtFirst<T>(s: seq<T>, i: nat, c: T, d: T)
    requires i < |s| && s[i] == c
    requires forall j :: 0 <= j < i ==> s[j] != c
    ensures MapElem(s, c, d) == s[..i] + [d] + MapElem(s[i + 1..], c, d)
  {
    assert MapElem(s[..i], c, d) == s[..i];
    assert s == s[..i] + [c] + s[i + 1..];
    MapElemAppend(s[..i] + [c], s[i + 1..], c, d);
    MapElemAppend(s[..i], [c], c, d);
  }

  /** For a one-element pattern, Index is the position of the first equal element. */
  lemma IndexSingle<T>(s: seq<T>, c: T)
    ensures Index(s, [c]) < 0 ==> c !in s
    ensures Index(s, [c]) >= 0 ==> s[Index(s, [c])] == c
    ensures forall j :: 0 <= j < Index(s, [c]) ==> s[j] != c
  {
    ContainsSingle(s, c);
    var i := Index(s, [c]);
    if i >= 0 {
      IndexIsFirst(s, [c]);
      IndexMatches(s, [c]);
      assert s[i..][..1] == [c];
      forall j | 0 <= j < i ensures s[j] != c {
        assert s[j..][..1] == [s[j]];
      }
    }
  }

  /** Replacing a one-element pattern by a one-element replacement is an
      element-wise substitution. */
  lemma {:induction false} ReplaceSingle<T>(s: seq<T>, c: T, d: T)
    ensures ReplaceAll(s, [c], [d]) == MapElem(s, c, d)
    decreases |s|
  {
    var i := Index(s, [c]);
    IndexSingle(s, c);
    ReplaceAllStep(s, [c], [d]);
    if i < 0 {
      assert MapElem(s, c, d) == s;
    } else {
      ReplaceSingle(s[i + 1..], c, d);
      MapElemAtFirst(s, i, c, d);
    }
  }

  /** filepath.Join for slash-separated paths: the non-empty elements
      joined by "/" (the lexical cleaning of the result is not modelled). */
  function JoinPath(elems: seq<string>): string {
    Join(NonEmptyElems(elems), "/")
  }

  function NonEmptyElems(elems: seq<string>): (r: seq<string>)
    ensures forall e :: e in r ==> e in elems && e != ""
  {
    if |elems| == 0 then []
    else (if elems[0] == "" then [] else [elems[0]]) + NonEmptyElems(elems[1..])
  }

  // ---- fmt's %q ----------------------------------------------------

  /** The escapes of Go's %q for the characters that need one. */
  function EscapeChar(c: char): string {
    if c == '"' then "\\\"" else if c == '\\' then "\\\\"
    else if c == '\n' then "\\n" else if c == '\t' then "\\t" else if c == '\r' then "\\r"
    else [c]
  }

  function Escape(s: string): string {
    if s == [] then [] else EscapeChar(s[0]) + Escape(s[1..])
  }

  function UnescapeChar(c: char): char {
    if c == 'n' then '\n' else if c == 't' then '\t' else if c == 'r' then '\r' else c
  }

  /** The inverse of Escape, reading escapes left to right. */
  function Unescape(s: string): string {
    if s == [] then []
    else if s[0] == '\\' && |s| >= 2 then [UnescapeChar(s[1])] + Unescape(s[2..])
    else [s[0]] + Unescape(s[1..])
  }

  /** %q: the text between double quotes with its quotes, backslashes and
      control characters escaped. */
  function Quote(s: string): (q: string)
    ensures |q| >= 2 && q[0] == '"' && q[|q| - 1] == '"'
  {
    "\"" + Escape(s) + "\""
  }

  /** Quoting loses nothing: unescaping the inner text gives the original back. */
  lemma {:induction false} EscapeRoundTrip(s: string)
    ensures Unescape(Escape(s)) == s
  {
    if s != [] {
      EscapeRoundTrip(s[1..]);
      UnescapeEscapeChar(s[0], Escape(s[1..]));
      assert s == [s[0]] + s[1..];
    }
  }

  /** Unescaping reads one escaped character back and goes on with the rest. */
  lemma UnescapeEscapeChar(c: char, rest: string)
    ensures Unescape(EscapeChar(c) + rest) == [c] + Unescape(rest)
  {
    var e := EscapeChar(c);
    if |e| == 2 {
      assert (e + rest)[2..] == rest;
    } else {
      assert (e + rest)[1..] == rest;
    }
  }

  // ---- characters ------------------------------------------------------

  predicate IsDigit(c: char) { '0' <= c <= '9' }
  predicate IsLower(c: char) { 'a' <= c <= 'z' }
  predicate IsUpper(c: char) { 'A' <= c <= 'Z' }
  /** The character class `[a-zA-Z0-9]`. */
  predicate IsAlnum(c: char) { IsDigit(c) || IsLower(c) || IsUpper(c) }

  function LowerChar(c: char): char {
    if IsUpper(c) then (c as int + 32) as char else c
  }

  /** strings.ToLower restricted to ASCII letters. */
  function ToLower(s: string): (r: string)
    ensures |r| == |s|
    ensures forall i :: 0 <= i < |s| ==> r[i] == LowerChar(s[i])
  {
    seq(|s|, i requires 0 <= i < |s| => LowerChar(s[i]))
  }

  /** strings.EqualFold restricted to ASCII letters. */
  predicate EqualFold(a: string, b: string) {
    ToLower(a) == ToLower(b)
  }

  /** strings.Repeat(s, n) for a one-character `s`. */
  function Repeat(c: char, n: nat): (r: string)
    ensures |r| == n
    ensures forall i :: 0 <= i < n ==> r[i] == c
  {
    seq(n, _ => c)
  }

  function DigitChar(d: nat): char
    requires d < 10
  {
    ('0' as int + d) as char
  }

  /** Decimal rendering of a natural number (fmt's %d and %v, strconv.Itoa). */
  function NatToString(n: nat): (s: string)
    ensures |s| >= 1
    ensures forall i :: 0 <= i < |s| ==> IsDigit(s[i])
    decreases n
  {
    if n < 10 then [DigitChar(n)] else NatToString(n / 10) + [DigitChar(n % 10)]
  }
}
