/** Python values as the three programs see them: optional values, raised
    exceptions, and the JSON values that `json.loads` produces. */
module Values {

  datatype Option<+T> = None | Some(value: T)

  /** The outcome of Python code that may raise: a value, or the message of
      the exception that escaped. */
  datatype Result<+T> = Ok(value: T) | Raised(error: string)

  /** A decoded JSON value. Numbers are integers only (floats are not part
      of the model). */
  datatype Json =
    | Null
    | Bool(b: bool)
    | Num(n: int)
    | Str(s: string)
    | Arr(items: seq<Json>)
    | Obj(fields: map<string, Json>)

  /** A decoded JSON object: a Python dict with string keys. */
  type Record = map<string, Json>

  /** The abstract strict parser (`json.loads` applied to text that starts
      with `{`): the decoded object, or None where it raises. */
  type Parser = string -> Option<Record>

  /** Python truthiness of a decoded value. */
  predicate Truthy(j: Json) {
    match j
    case Null => false
    case Bool(b) => b
    case Num(n) => n != 0
    case Str(s) => s != ""
    case Arr(items) => items != []
    case Obj(fields) => fields != map[]
  }

  /** The Python type name of a decoded value, as it appears in a
      TypeError or AttributeError message. */
  function TypeName(j: Json): string {
    match j
    case Null => "NoneType"
    case Bool(_) => "bool"
    case Num(_) => "int"
    case Str(_) => "str"
    case Arr(_) => "list"
    case Obj(_) => "dict"
  }

  /** `d.get(key)`: the value under the key, or None (JSON null) when absent. */
  function Get(d: Record, key: string): (r: Json)
    ensures key !in d ==> r == Null
    ensures key in d ==> r == d[key]
  {
    if key in d then d[key] else Null
  }

  /** A list of Python strings as a JSON array. */
  function StrItems(xs: seq<string>): (r: seq<Json>)
    ensures |r| == |xs|
    ensures forall i :: 0 <= i < |xs| ==> r[i] == Str(xs[i])
  {
    seq(|xs|, i requires 0 <= i < |xs| => Str(xs[i]))
  }
}
