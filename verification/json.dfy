/** JSON values as the Python code sees them after `json.loads`, with
    Python's truthiness and the dictionary operations the core uses. */
module Json {
  import opened Wrappers

  /** A decoded JSON document. An object keeps its fields in insertion
      order, which is the iteration order of a Python `dict`. */
  datatype Json =
    | JNull
    | JBool(b: bool)
    | JNum(n: real)
    | JStr(s: string)
    | JArr(items: seq<Json>)
    | JObj(fields: seq<(string, Json)>)

  /** `bool(value)` in Python: `None`, `False`, zero and empty containers are falsy. */
  predicate Truthy(j: Json) {
    match j
    case JNull => false
    case JBool(b) => b
    case JNum(n) => n != 0.0
    case JStr(s) => s != ""
    case JArr(items) => items != []
    case JObj(fields) => fields != []
  }

  /** `key in d` for a dictionary `d`. */
  predicate HasKey(fields: seq<(string, Json)>, key: string) {
    exists i :: 0 <= i < |fields| && fields[i].0 == key
  }

  /** `d.get(key)`: the value stored under `key`, or `None`. */
  function Get(fields: seq<(string, Json)>, key: string): (r: Option<Json>)
    ensures r.Some? <==> HasKey(fields, key)
    ensures r.Some? ==> exists i :: 0 <= i < |fields| && fields[i] == (key, r.value)
  {
    if fields == [] then None
    else if fields[0].0 == key then Some(fields[0].1)
    else
      var rest := Get(fields[1..], key);
      assert forall i :: 0 <= i < |fields| - 1 ==> fields[1..][i] == fields[i + 1];
      rest
  }

  /** `d.get(key, default)`. */
  function GetOr(fields: seq<(string, Json)>, key: string, default: Json): (r: Json)
    ensures !HasKey(fields, key) ==> r == default
    ensures HasKey(fields, key) ==> Some(r) == Get(fields, key)
  {
    match Get(fields, key)
    case Some(v) => v
    case None => default
  }

  /** The Python exceptions the modelled code can raise. */
  datatype PyError =
    | KeyError(key: string)   // a missing dictionary key
    | TypeError               // an operation applied to a value of the wrong type
    | AttributeError          // a method called on a value that lacks it (`.get` on a non-dict)
}
