/** The EDN parser's post-processing (parser/edn/edn.go): the decoded EDN
    value is rewritten so that every map key is a string and every scalar
    other than a string is replaced by its printed form. Decoding EDN text
    is done by a library and arrives here as a value. */
module Edn {
  import opened Wrappers
  import opened Strs
  import opened Values

  /** A decoded EDN value: a string, a vector or list, a map with keys of
      any kind, or another scalar (keyword, symbol, number, boolean, nil)
      given by the text `%v` prints for it. */
  datatype EdnValue =
    | EStr(s: string)
    | EList(items: seq<EdnValue>)
    | EMap(entries: seq<EdnEntry>)
    | EOther(printed: string)

  /** One key/value pair of an EDN map, in the order the decoder met it. */
  datatype EdnEntry = EdnEntry(key: EdnValue, val: EdnValue)

  function Size(v: EdnValue): (n: nat)
    ensures n >= 1
  {
    match v
    case EStr(_) => 1
    case EOther(_) => 1
    case EList(items) => 1 + SizeList(items)
    case EMap(entries) => 1 + SizeEntries(entries)
  }

  function SizeList(items: seq<EdnValue>): (n: nat)
    ensures n >= 1
    ensures forall i :: 0 <= i < |items| ==> Size(items[i]) < n
  {
    if |items| == 0 then 1 else SizeList(items[..|items| - 1]) + Size(items[|items| - 1])
  }

  function SizeEntry(e: EdnEntry): (n: nat)
    ensures Size(e.key) < n && Size(e.val) < n
  {
    Size(e.key) + Size(e.val) + 1
  }

  function SizeEntries(entries: seq<EdnEntry>): (n: nat)
    ensures n >= 1
    ensures forall i :: 0 <= i < |entries| ==> SizeEntry(entries[i]) < n
  {
    if |entries| == 0 then 1
    else SizeEntries(entries[..|entries| - 1]) + SizeEntry(entries[|entries| - 1])
  }

  // ---- fmt's %v ------------------------------------------------------

  /** `fmt.Sprintf("%v", v)`: a string as itself, a list as its elements
      separated by spaces in brackets, a map as "map[k:v ...]". */
  function Show(v: EdnValue): string
    decreases Size(v)
  {
    match v
    case EStr(s) => s
    case EOther(p) => p
    case EList(items) => "[" + ShowList(items) + "]"
    case EMap(entries) => "map[" + ShowEntries(entries) + "]"
  }

  function ShowList(items: seq<EdnValue>): string
    decreases SizeList(items)
  {
    if |items| == 0 then ""
    else
      var init := items[..|items| - 1];
      (if |init| == 0 then "" else ShowList(init) + " ") + Show(items[|items| - 1])
  }

  function ShowEntries(entries: seq<EdnEntry>): string
    decreases SizeEntries(entries)
  {
    if |entries| == 0 then ""
    else
      var init := entries[..|entries| - 1];
      var last := entries[|entries| - 1];
      assert SizeEntry(last) < SizeEntries(entries);
      (if |init| == 0 then "" else ShowEntries(init) + " ") + Show(last.key) + ":" + Show(last.val)
  }

  // ---- the cleanup ------------------------------------------------------

  /** cleanupMapValue: lists and maps are cleaned element by element,
      strings stay, every other scalar becomes its printed form. */
  function Clean(v: EdnValue): (r: Value)
    ensures r.Str? || r.Arr? || r.Obj?
    ensures v.EList? ==> r.Arr? && |r.items| == |v.items|
    ensures v.EMap? ==> r.Obj?
    ensures v.EStr? ==> r == Str(v.s)
    ensures v.EOther? ==> r == Str(v.printed)
    decreases Size(v)
  {
    match v
    case EStr(s) => Str(s)
    case EOther(p) => Str(p)
    case EList(items) => Arr(CleanList(items))
    case EMap(entries) => Obj(CleanMap(entries))
  }

  /** cleanupInterfaceArray: the elements cleaned, in order. */
  function CleanList(items: seq<EdnValue>): (r: seq<Value>)
    ensures |r| == |items|
    ensures forall i :: 0 <= i < |items| ==> r[i] == Clean(items[i])
    decreases SizeList(items)
  {
    if |items| == 0 then []
    else
      CleanList(items[..|items| - 1]) + [Clean(items[|items| - 1])]
  }

  /** cleanupInterfaceMap: each key printed, each value cleaned; of two
      keys that print alike, the later entry is kept. */
  function CleanMap(entries: seq<EdnEntry>): (r: map<string, Value>)
    ensures r.Keys == set i | 0 <= i < |entries| :: Show(entries[i].key)
    decreases SizeEntries(entries)
  {
    if |entries| == 0 then map[]
    else
      var init := entries[..|entries| - 1];
      var last := entries[|entries| - 1];
      assert SizeEntry(last) < SizeEntries(entries);
      var m := CleanMap(init);
      assert (set i | 0 <= i < |entries| :: Show(entries[i].key))
          == (set i | 0 <= i < |init| :: Show(init[i].key)) + {Show(last.key)} by {
        forall i | 0 <= i < |init| ensures init[i] == entries[i] { }
      }
      m[Show(last.key) := Clean(last.val)]
  }

  /** The value kept for a key is the cleaned value of the last entry whose
      key prints as it. */
  lemma {:induction false} CleanMapLastWins(entries: seq<EdnEntry>, i: nat)
    requires i < |entries|
    requires forall j :: i < j < |entries| ==> Show(entries[j].key) != Show(entries[i].key)
    ensures CleanMap(entries)[Show(entries[i].key)] == Clean(entries[i].val)
    decreases |entries|
  {
    if i < |entries| - 1 {
      var init := entries[..|entries| - 1];
      forall j | i < j < |init| ensures Show(init[j].key) != Show(init[i].key) {
        assert init[j] == entries[j];
      }
      CleanMapLastWins(init, i);
    }
  }

  /** Only strings remain at the leaves of a cleaned value. */
  predicate StringLeaves(v: Value) {
    match v
    case Str(_) => true
    case Arr(items) => forall i :: 0 <= i < |items| ==> StringLeaves(items[i])
    case Obj(fields) => forall k :: k in fields ==> StringLeaves(fields[k])
    case _ => false
  }

  lemma {:induction false} CleanHasStringLeaves(v: EdnValue)
    ensures StringLeaves(Clean(v))
    decreases Size(v)
  {
    match v
    case EStr(_) =>
    case EOther(_) =>
    case EList(items) =>
      forall i | 0 <= i < |items| ensures StringLeaves(Clean(v).items[i]) {
        CleanHasStringLeaves(items[i]);
      }
    case EMap(entries) =>
      CleanMapLeaves(entries);
  }

  lemma {:induction false} CleanMapLeaves(entries: seq<EdnEntry>)
    ensures forall k :: k in CleanMap(entries) ==> StringLeaves(CleanMap(entries)[k])
    decreases SizeEntries(entries)
  {
    if |entries| > 0 {
      var init := entries[..|entries| - 1];
      var last := entries[|entries| - 1];
      assert SizeEntry(last) < SizeEntries(entries);
      CleanMapLeaves(init);
      CleanHasStringLeaves(last.val);
    }
  }

  /** cleanupInterfaceArray, with its loop. */
  method CleanupInterfaceArray(items: seq<EdnValue>) returns (res: seq<Value>)
    ensures res == CleanList(items)
    decreases SizeList(items), 0
  {
    res := [];
    var i := 0;
    while i < |items|
      invariant 0 <= i <= |items|
      invariant res == CleanList(items[..i])
    {
      var v := CleanupMapValue(items[i]);
      assert items[..i + 1][..i] == items[..i];
      res := res + [v];
      i := i + 1;
    }
    assert items[..|items|] == items;
  }

  /** cleanupInterfaceMap, with its loop over the entries. */
  method CleanupInterfaceMap(entries: seq<EdnEntry>) returns (res: map<string, Value>)
    ensures res == CleanMap(entries)
    decreases SizeEntries(entries), 0
  {
    res := map[];
    var i := 0;
    while i < |entries|
      invariant 0 <= i <= |entries|
      invariant res == CleanMap(entries[..i])
    {
      var k, v := entries[i].key, entries[i].val;
      assert SizeEntry(entries[i]) < SizeEntries(entries);
      var cleaned := CleanupMapValue(v);
      assert entries[..i + 1][..i] == entries[..i];
      res := res[Show(k) := cleaned];
      i := i + 1;
    }
    assert entries[..|entries|] == entries;
  }

  /** cleanupMapValue. */
  method CleanupMapValue(v: EdnValue) returns (r: Value)
    ensures r == Clean(v)
    decreases Size(v), 1
  {
    match v {
      case EList(items) =>
        var res := CleanupInterfaceArray(items);
        r := Arr(res);
      case EMap(entries) =>
        var res := CleanupInterfaceMap(entries);
        r := Obj(res);
      case EStr(s) => r := Str(s);
      case EOther(p) => r := Str(p);
    }
  }

  /** Parse: the decoded document as the only element, or "unmarshal EDN: ". */
  function Parse(decoded: Outcome<EdnValue>): (r: Outcome<seq<Value>>)
    ensures decoded.Fail? ==> r == Fail("unmarshal EDN: " + decoded.error)
    ensures decoded.Ok? ==> r.Ok? && |r.value| == 1 && r.value[0] == Clean(decoded.value)
  {
    match decoded
    case Fail(e) => Fail("unmarshal EDN: " + e)
    case Ok(v) => Ok([Clean(v)])
  }

  /** A parsed EDN file is one document holding only strings at its leaves. */
  lemma ParsedIsClean(decoded: Outcome<EdnValue>)
    requires decoded.Ok?
    ensures |Parse(decoded).value| == 1 && StringLeaves(Parse(decoded).value[0])
  {
    CleanHasStringLeaves(decoded.value);
  }
}
