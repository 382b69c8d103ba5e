/** The values `json.loads` produces, and the Python operations the pipeline
    applies to them: truthiness, the `in` test, subscription with a string
    key, `dict.get`, and `str()` of a number. */
module Values {
  import opened Wrappers
  import opened Text

  /** A decoded JSON value. Numbers are integers only; Python's `None` inside
      a decoded document is `Null`. */
  datatype Value =
    | Null
    | Bool(b: bool)
    | Int(i: int)
    | Str(s: string)
    | Arr(items: seq<Value>)
    | Obj(fields: map<string, Value>)

  /** Python's truth value of a decoded value. */
  predicate Truthy(v: Value) {
    match v
    case Null => false
    case Bool(b) => b
    case Int(i) => i != 0
    case Str(s) => s != []
    case Arr(items) => items != []
    case Obj(fields) => fields != map[]
  }

  /** `needle` occurs somewhere in `hay` (Python's `needle in hay` on strings). */
  predicate IsSubstring(needle: string, hay: string) {
    exists i :: 0 <= i <= |hay| && At(hay, i, needle)
  }

  /** Python's `key in container` for a string key. `None` is the TypeError
      raised when the container supports no membership test. */
  function Contains(container: Value, key: string): (r: Option<bool>)
  {
    match container
    case Obj(fields) => Some(key in fields)
    case Str(s) => Some(IsSubstring(key, s))
    case Arr(items) => Some(Str(key) in items)
    case _ => None
  }

  /** Python's `container[key]` for a string key. `None` is the KeyError or
      TypeError it raises. */
  function Subscript(container: Value, key: string): (r: Option<Value>)
  {
    match container
    case Obj(fields) => if key in fields then Some(fields[key]) else None
    case _ => None
  }

  /** Python's `d.get(key, default)` on a dict. */
  function Get(fields: map<string, Value>, key: string, default: Value): (r: Value)
  {
    if key in fields then fields[key] else default
  }

  /** On a dict, the flattener's pattern of an `in` test, then `[]`, then
      `.get` agrees: `in` holds exactly when subscripting succeeds, and `.get`
      yields what subscripting yields, or the default where it raises. */
  lemma GetAgreesWithSubscript(fields: map<string, Value>, key: string, default: Value)
    ensures Contains(Obj(fields), key) == Some(Subscript(Obj(fields), key).Some?)
    ensures Get(fields, key, default)
         == (if Subscript(Obj(fields), key).Some? then Subscript(Obj(fields), key).value else default)
  {
  }

  /** What `update_form_values` stores for a value: `str(value)` when the
      value is an `int` (a `bool` is one in Python), the value itself otherwise. */
  function FormValue(v: Value): (r: Value)
    ensures !r.Int? && !r.Bool?
    ensures v.Int? ==> r.Str? && ParseInt(r.s) == Some(v.i)
    ensures v.Bool? ==> r == Str(if v.b then "True" else "False")
    ensures !v.Int? && !v.Bool? ==> r == v
  {
    match v
    case Int(i) => IntToStringRoundTrip(i); Str(IntToString(i))
    case Bool(b) => Str(if b then "True" else "False")
    case _ => v
  }

  /** Storing a stored value again changes nothing. */
  lemma FormValueIdempotent(v: Value)
    ensures FormValue(FormValue(v)) == FormValue(v)
  {
  }
}
