/** Shared vocabulary of the billing engine: optional values, document ids,
    instants and the handful of JavaScript values that request bodies carry. */
module Common {

  datatype Option<+T> = None | Some(value: T)

  /** A MongoDB document id, kept as its string form. */
  type Id = string

  /** A point in time as JavaScript's `getTime()` gives it: milliseconds since
      1 January 1970, 00:00 (local time and UTC are taken to coincide). */
  type Instant = int

  const MsPerDay: int := 86_400_000

  /** A value parsed from a JSON request body or query string. A string keeps
      the number it coerces to under JavaScript's ToNumber (None for NaN),
      because string-to-number parsing itself is not part of this model. */
  datatype JsValue =
    | Undefined
    | Null
    | Bool(b: bool)
    | Number(n: real)
    | NaN
    | Text(s: string, asNumber: Option<real>)

  /** JavaScript truthiness (`!v` is false). */
  predicate Truthy(v: JsValue)
  {
    match v
    case Undefined => false
    case Null => false
    case Bool(b) => b
    case Number(n) => n != 0.0
    case NaN => false
    case Text(s, _) => s != ""
  }

  /** The global `isNaN(v)`, which coerces its argument to a number first. */
  predicate IsNaN(v: JsValue)
  {
    match v
    case Undefined => true
    case Null => false
    case Bool(_) => false
    case Number(_) => false
    case NaN => true
    case Text(_, n) => n.None?
  }

  /** `Number.isInteger(v)`, which never coerces. */
  predicate IsInteger(v: JsValue)
  {
    v.Number? && v.n == v.n.Floor as real
  }

  /** Truthiness of an optional string field (`undefined` and `""` are falsy). */
  predicate Present(s: Option<string>)
  {
    s.Some? && s.value != ""
  }

  function Min(a: int, b: int): int
  {
    if a <= b then a else b
  }

  /** `Math.ceil` on an exact real. */
  function Ceil(x: real): (r: int)
    ensures r as real >= x && (r as real) - 1.0 < x
  {
    -((-x).Floor)
  }

  /** `mongoose.Types.ObjectId.isValid` on a string: a 12-character string, or
      24 hexadecimal digits. */
  predicate IsValidObjectId(s: string)
  {
    |s| == 12 || (|s| == 24 && forall i :: 0 <= i < |s| ==> IsHexDigit(s[i]))
  }

  predicate IsHexDigit(c: char)
  {
    ('0' <= c <= '9') || ('a' <= c <= 'f') || ('A' <= c <= 'F')
  }
}
