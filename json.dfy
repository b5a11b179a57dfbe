/** JSON-like values: what the deployer serialises with `json.dumps`, reads
    back with `json.load`, and what the web UI receives from the service.
    Objects keep their keys in insertion order, as Python dictionaries do. */
module Json {
  import opened Wrappers

  datatype Value =
    | Null
    | Bool(b: bool)
    | Int(i: int)
    | Str(s: string)
    | List(items: seq<Value>)
    | Object(fields: seq<(string, Value)>)

  /** A JavaScript property read `v.k` on a parsed value: the last field named
      `k` of an object (as `JSON.parse` keeps the last of repeated keys), and
      `undefined` (None) for a missing field or a value that is not an object. */
  function Field(v: Value, k: string): (r: Option<Value>)
    ensures r.Some? ==> v.Object? && exists i :: 0 <= i < |v.fields| && v.fields[i] == (k, r.value)
    ensures r.None? && v.Object? ==> forall i :: 0 <= i < |v.fields| ==> v.fields[i].0 != k
    decreases if v.Object? then |v.fields| else 0
  {
    if !v.Object? || v.fields == [] then None
    else
      var last := v.fields[|v.fields| - 1];
      if last.0 == k then Some(last.1)
      else Field(Object(v.fields[..|v.fields| - 1]), k)
  }

  /** JavaScript truthiness of a parsed value: `null`, `false`, `0` and the
      empty string are falsy; arrays and objects are truthy even when empty. */
  predicate Truthy(v: Value) {
    match v
    case Null => false
    case Bool(b) => b
    case Int(i) => i != 0
    case Str(s) => s != []
    case List(_) => true
    case Object(_) => true
  }
}
