/** The dynamically typed values (`interface{}`) that flow through conftest:
    decoded configuration documents and rule metadata. */
module Values {
  import opened Wrappers

  datatype Value =
    | Null
    | Bool(b: bool)
    /** A number, kept in its printed form. */
    | Number(text: string)
    | Str(s: string)
    | Arr(items: seq<Value>)
    | Obj(fields: map<string, Value>)

  /** Rule metadata: `map[string]interface{}`. */
  type Metadata = map<string, Value>

  /** The comma-ok lookup `m[k].(string)`: a value only when the key is
      present and holds a string. */
  function StrAt(m: Metadata, k: string): (r: Option<string>)
    ensures r.Some? <==> k in m && m[k].Str?
    ensures r.Some? ==> m[k] == Str(r.value)
  {
    if k in m && m[k].Str? then Some(m[k].s) else None
  }
}
