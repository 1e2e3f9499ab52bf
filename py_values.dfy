/**
  * The Python values a decoded JSON parameter object can hold, Python truthiness,
  * and the exceptions the tools can raise, as data.
  */
module PyValues {

  import opened Wrappers

  /** A value produced by `json.loads`: `None`, `bool`, `int`, `float`, `str`, `list` or `dict`. */
  datatype Value =
    | Null
    | Bool(b: bool)
    | Int(i: int)
    | Float(r: real)
    | Str(s: string)
    | List(items: seq<Value>)
    | Object(fields: seq<(string, Value)>)

  /** A decoded parameter object: its keys in the order `json.loads` gives them. */
  type Params = seq<(string, Value)>

  /** Python's `bool(v)`. */
  predicate Truthy(v: Value) {
    match v
    case Null => false
    case Bool(b) => b
    case Int(i) => i != 0
    case Float(r) => r != 0.0
    case Str(s) => s != ""
    case List(items) => items != []
    case Object(fields) => fields != []
  }

  /** Python's `type(v).__name__`. */
  function TypeName(v: Value): string {
    match v
    case Null => "NoneType"
    case Bool(_) => "bool"
    case Int(_) => "int"
    case Float(_) => "float"
    case Str(_) => "str"
    case List(_) => "list"
    case Object(_) => "dict"
  }

  /** Lists and dicts cannot be dictionary keys. */
  predicate Hashable(v: Value) { !v.List? && !v.Object? }

  datatype ErrorKind = AttributeError | TypeError | ValueError | KeyError | OverflowError

  /** An exception: its class and `str(e)`. */
  datatype PyError = PyError(kind: ErrorKind, message: string)

  /** The result of a Python call: the value it returns or the exception it raises. */
  datatype Outcome<+T> = Return(value: T) | Raise(error: PyError)

  /** `v.<attr>` on a value that is not a string. */
  function NoAttribute(v: Value, attr: string): PyError {
    PyError(AttributeError, "'" + TypeName(v) + "' object has no attribute '" + attr + "'")
  }

  /** Using a list or dict as a dictionary key. */
  function Unhashable(v: Value): PyError {
    PyError(TypeError, "unhashable type: '" + TypeName(v) + "'")
  }

  /** `v.lower()`: the string, or the exception a non-string raises. */
  function AsStr(v: Value): (r: Outcome<string>)
    ensures r.Return? <==> v.Str?
    ensures r.Return? ==> r.value == v.s
  {
    if v.Str? then Return(v.s) else Raise(NoAttribute(v, "lower"))
  }

  /** The first value stored under `key`, if any (`params.get(key)`). */
  function Lookup(params: Params, key: string): (r: Option<Value>)
    ensures r.Some? <==> exists k :: 0 <= k < |params| && params[k].0 == key
  {
    if params == [] then None
    else if params[0].0 == key then Some(params[0].1)
    else
      var rest := Lookup(params[1..], key);
      assert forall k :: 1 <= k < |params| ==> params[k] == params[1..][k - 1];
      rest
  }

  /** A keyword argument with a default of `None`. */
  function ArgOrNone(params: Params, key: string): Value {
    match Lookup(params, key)
    case Some(v) => v
    case None => Null
  }
}
