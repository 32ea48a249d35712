/** The JavaScript values the core handles: parsed JSON, bytes and numbers
    that may be NaN or infinite, with the JavaScript rules for truthiness,
    property access and numeric conversion that the core relies on. */
module JsValues {
  import opened Wrappers

  /** An element of a `Uint8Array`. */
  type Byte = b: int | 0 <= b < 256

  /** A value produced by `JSON.parse` (or built as an object literal). */
  datatype Json =
    | JNull
    | JBool(b: bool)
    | JNum(n: real)
    | JStr(s: string)
    | JArr(items: seq<Json>)
    | JObj(fields: map<string, Json>)

  const EmptyObject: Json := JObj(map[])

  /** JavaScript truthiness of a value that may be `undefined` (`None`). */
  predicate Truthy(v: Option<Json>) {
    match v
    case None => false
    case Some(j) =>
      match j
      case JNull => false
      case JBool(b) => b
      case JNum(n) => n != 0.0
      case JStr(s) => s != ""
      case JArr(_) => true
      case JObj(_) => true
  }

  /** The own property `key` of a value known not to be null or undefined.
      Only the keys the core reads are ever asked for, and none of them is a
      built-in property of strings, numbers or arrays, so those give
      `undefined`. */
  function Field(j: Json, key: string): (r: Option<Json>)
    ensures r.Some? <==> j.JObj? && key in j.fields
    ensures r.Some? ==> r.value == j.fields[key]
  {
    if j.JObj? && key in j.fields then Some(j.fields[key]) else None
  }

  /** The expression `v[key]` (or `v.key`): reading a property of
      `undefined` or `null` throws a `TypeError`. */
  function Member(v: Option<Json>, key: string): (r: Result<Option<Json>>)
    ensures r.Failure? <==> v.None? || v.value.JNull?
    ensures r.Failure? ==> r.error == TypeError
    ensures r.Success? ==> r.value == Field(v.value, key)
  {
    match v
    case None => Failure(TypeError)
    case Some(JNull) => Failure(TypeError)
    case Some(j) => Success(Field(j, key))
  }

  /** A JavaScript number: finite, NaN or positive infinity (the only
      infinity the core can produce). */
  datatype JsNumber = Finite(value: real) | NaN | Infinity

  /** `Number(j)` as used by the arithmetic in the core. Strings, arrays and
      objects are taken to be NaN (see the README's "Left out"). */
  function ToNumber(j: Json): (r: JsNumber)
    ensures j.JNum? ==> r == Finite(j.n)
    ensures r != Infinity
  {
    match j
    case JNull => Finite(0.0)
    case JBool(b) => if b then Finite(1.0) else Finite(0.0)
    case JNum(n) => Finite(n)
    case _ => NaN
  }

  /** `Number.isInteger`-style check used for the `integer` schema type. */
  predicate IsIntegral(r: real) {
    r.Floor as real == r
  }

  /** `s.indexOf(p) != -1` for strings. */
  predicate IsSubstring(p: string, s: string) {
    exists i :: 0 <= i <= |s| - |p| && p <= s[i..]
  }

  /** `v == x` for a number `x`: `undefined` and `null` equal no number;
      anything else is compared after `Number(v)`. */
  predicate LooseEqualsNumber(v: Option<Json>, x: real) {
    v.Some? && !v.value.JNull? && ToNumber(v.value) == Finite(x)
  }
}
