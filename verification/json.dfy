/**
 The fragment of JSON the request handlers look at: scalar values and a
 request body as a mapping from field names to values, together with the two
 pieces of Python semantics the handlers rely on (truthiness and `==`
 between a JSON value and a Python int).
 */
module Json {

  /** A JSON scalar as decoded by the web framework: `null`, a boolean, an
      integer or a string. */
  datatype Value = Null | Bool(b: bool) | Int(i: int) | Str(s: string)

  /** A decoded JSON object (the request body). */
  type Body = map<string, Value>

  /** Python's `not v`: `None`, `False`, `0` and `""` are falsy, every
      other scalar is truthy. */
  predicate Falsy(v: Value) {
    match v
    case Null => true
    case Bool(b) => !b
    case Int(i) => i == 0
    case Str(s) => |s| == 0
  }

  /** `body.get(key, default)`: the value stored under `key`, or `default`
      when the key is absent (a key present with value `null` yields `Null`,
      not the default). */
  function Get(body: Body, key: string, default: Value): (v: Value)
    ensures key in body ==> v == body[key]
    ensures key !in body ==> v == default
  {
    if key in body then body[key] else default
  }

  /** Python's `v == n` for a decoded JSON value and an int. `bool` is a
      subclass of `int` in Python, so `True == 1` and `False == 0`; `None`
      and strings never equal an int. */
  predicate PyEquals(v: Value, n: int) {
    match v
    case Null => false
    case Bool(b) => (if b then 1 else 0) == n
    case Int(i) => i == n
    case Str(_) => false
  }

  /** The truthiness test agrees with the four falsy literals and nothing
      else. */
  lemma FalsyExactly(v: Value)
    ensures Falsy(v) <==> v == Null || v == Bool(false) || v == Int(0) || v == Str("")
  {
  }

  /** Equality with an int holds exactly for the integer itself and, when the
      int is 0 or 1, for the matching boolean. */
  lemma PyEqualsExactly(v: Value, n: int)
    ensures PyEquals(v, n) <==> v == Int(n) || (n == 1 && v == Bool(true)) || (n == 0 && v == Bool(false))
  {
  }
}
