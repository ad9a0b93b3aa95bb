/** JSON values, as found in the dataset file, in the documents sent to the
    search engine and in the `_source` of the hits it returns. */
module Json {
  import opened Wrappers

  /** A JSON value. Numbers are integers: every number the core builds or
      inspects (a document id) is one. An object's key order is not kept. */
  datatype Value =
    | Null
    | Bool(b: bool)
    | Num(n: int)
    | Str(s: string)
    | Arr(items: seq<Value>)
    | Obj(fields: map<string, Value>)

  /** JavaScript's `v.key` on a value that is neither `undefined` nor `null`:
      the property when `v` is an object holding `key`, `undefined` otherwise
      (arrays, strings, numbers and booleans have no such data property). */
  function Property(v: Value, key: string): (r: Option<Value>)
    ensures r.Some? <==> v.Obj? && key in v.fields
    ensures r.Some? ==> r.value == v.fields[key]
  {
    match v
    case Obj(fields) => if key in fields then Some(fields[key]) else None
    case _ => None
  }
}
