/** Decoded JSON values as Python's `json` module produces them, with Python's
    truthiness, `dict.get` and dictionary-key semantics. */
module JsonValues {
  import opened Wrappers

  /** A decoded JSON document. Numbers are integers in this model. */
  datatype Json =
    | JNull
    | JBool(b: bool)
    | JNum(n: int)
    | JStr(s: string)
    | JArr(items: seq<Json>)
    | JObj(fields: map<string, Json>)

  /** A JSON object (a Python `dict` with string keys). */
  type Object = map<string, Json>

  /** The exceptions the modelled code can raise on ill-shaped documents. */
  datatype PyError = AttributeError | TypeError

  /** Python truthiness: `None`, `False`, `0`, `""`, `[]` and `{}` are false. */
  predicate Truthy(j: Json) {
    match j
    case JNull => false
    case JBool(b) => b
    case JNum(n) => n != 0
    case JStr(s) => s != ""
    case JArr(a) => a != []
    case JObj(m) => m != map[]
  }

  /** `d.get(key, default)` on a JSON object. */
  function Get(m: Object, key: string, default: Json): Json {
    if key in m then m[key] else default
  }

  /** A value used as a Python dictionary key. Python treats `True` as `1` and
      `False` as `0` both for hashing and for equality, so booleans become numbers. */
  datatype Key = KNone | KNum(n: int) | KStr(s: string)

  /** The dictionary key a JSON value stands for; lists and objects are
      unhashable and make a dictionary operation raise `TypeError`. */
  function HashKey(j: Json): (r: Result<Key, PyError>)
    ensures r.Err? <==> j.JArr? || j.JObj?
    ensures r.Err? ==> r.error == TypeError
    ensures j.JStr? ==> r == Ok(KStr(j.s))
    ensures r == Ok(KNone) <==> j == JNull
  {
    match j
    case JNull => Ok(KNone)
    case JBool(b) => Ok(KNum(if b then 1 else 0))
    case JNum(n) => Ok(KNum(n))
    case JStr(s) => Ok(KStr(s))
    case _ => Err(TypeError)
  }

  /** Two hashable JSON values land on the same dictionary key exactly when
      Python's `==` holds between them. */
  lemma HashKeyIsPythonEquality(a: Json, b: Json)
    requires !a.JArr? && !a.JObj? && !b.JArr? && !b.JObj?
    ensures HashKey(a) == HashKey(b) <==> PyEq(a, b)
  {
  }

  /** Python's `==` between two JSON scalars. */
  predicate PyEq(a: Json, b: Json)
    requires !a.JArr? && !a.JObj? && !b.JArr? && !b.JObj?
  {
    match (a, b)
    case (JNull, JNull) => true
    case (JStr(x), JStr(y)) => x == y
    case (JBool(x), JBool(y)) => x == y
    case (JNum(x), JNum(y)) => x == y
    case (JBool(x), JNum(y)) => (if x then 1 else 0) == y
    case (JNum(x), JBool(y)) => x == (if y then 1 else 0)
    case _ => false
  }
}
