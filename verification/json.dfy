/** The values `json.loads` returns, and subscripting them with a key.
    The JSON grammar itself is not modelled: parsing is an oracle. */
module Json {
  import opened Wrappers
  import opened Exceptions
  import opened Text

  datatype Json =
    | Null
    | Bool(b: bool)
    | Int(i: int)
    /** A number with a fraction or exponent; its digits are kept as text. */
    | Float(literal: string)
    | String(s: string)
    | Array(items: seq<Json>)
    | Object(fields: map<string, Json>)

  /** What `json.loads` does with a text: a value, or `str(e)` of the
      `JSONDecodeError` `e` it raises. */
  type JsonParser = string -> Result<Json, string>

  const ObjectNotSubscriptable := " object is not subscriptable"
  const IndicesMustBeIntegers := " indices must be integers"

  /** The `TypeError` message for `v[key]` when `v` is not a dict: a scalar
      is "not subscriptable", a `str` or `list` wants integer indices. */
  function NotSubscriptable(v: Json): (m: string)
    requires !v.Object?
    ensures v.Null? ==> m == "'NoneType'" + ObjectNotSubscriptable
    ensures v.Bool? ==> m == "'bool'" + ObjectNotSubscriptable
    ensures v.Int? ==> m == "'int'" + ObjectNotSubscriptable
    ensures v.Float? ==> m == "'float'" + ObjectNotSubscriptable
    ensures v.String? ==> m == "string" + IndicesMustBeIntegers + ", not 'str'"
    ensures v.Array? ==> m == "list" + IndicesMustBeIntegers + " or slices, not str"
  {
    match v
    case Null => "'NoneType'" + ObjectNotSubscriptable
    case Bool(_) => "'bool'" + ObjectNotSubscriptable
    case Int(_) => "'int'" + ObjectNotSubscriptable
    case Float(_) => "'float'" + ObjectNotSubscriptable
    case String(_) => "string" + IndicesMustBeIntegers + ", not 'str'"
    case Array(_) => "list" + IndicesMustBeIntegers + " or slices, not str"
  }

  /** `v[key]` in Python, for a string key. */
  function Subscript(v: Json, key: string): (r: Result<Json, Exception>)
    ensures r.Success? <==> v.Object? && key in v.fields
    ensures r.Success? ==> r.value == v.fields[key]
    ensures v.Object? && key !in v.fields ==> r == Failure(KeyError(key))
    ensures !v.Object? ==> r.Failure? && r.error.TypeError?
  {
    match v
    case Object(fields) =>
      if key in fields then Success(fields[key]) else Failure(KeyError(key))
    case _ => Failure(TypeError(NotSubscriptable(v)))
  }
}
