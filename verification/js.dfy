/** The fragment of JavaScript value semantics that the front-end hooks depend on:
    untyped values, truthiness, `typeof`, property reads, array indexing,
    `String.prototype.slice`, and the shape of thrown values. */
module Js {
  import opened Wrappers

  /** An untyped JavaScript value. Arrays are objects here; a function is an
      object too, but `typeof` tells it apart. */
  datatype Value =
    | Undefined
    | Null
    | Bool(b: bool)
    | Number(n: real)
    | NaN
    | Str(s: string)
    | Object(props: map<string, Value>)
    | Function(props: map<string, Value>)

  /** `!!v`: the falsy values are undefined, null, false, 0, NaN and "". */
  function Truthy(v: Value): (b: bool)
    ensures !b <==> v in {Undefined, Null, Bool(false), Number(0.0), NaN, Str("")}
  {
    match v
    case Undefined => false
    case Null => false
    case Bool(b) => b
    case Number(n) => n != 0.0
    case NaN => false
    case Str(s) => s != ""
    case Object(_) => true
    case Function(_) => true
  }

  /** `typeof v`. */
  function TypeOf(v: Value): (r: string)
    ensures r == "object" <==> v.Null? || v.Object?
    ensures r == "function" <==> v.Function?
    ensures r == "string" <==> v.Str?
    ensures r == "undefined" <==> v.Undefined?
    ensures r == "number" <==> v.Number? || v.NaN?
  {
    match v
    case Undefined => "undefined"
    case Null => "object"
    case Bool(_) => "boolean"
    case Number(_) => "number"
    case NaN => "number"
    case Str(_) => "string"
    case Object(_) => "object"
    case Function(_) => "function"
  }

  /** `o[key]` on an object: a missing own property reads as undefined. */
  function Get(props: map<string, Value>, key: string): Value {
    if key in props then props[key] else Undefined
  }

  /** `xs[i]` on an array of strings: reading past the end gives undefined. */
  function Index(xs: seq<string>, i: nat): (v: Value)
    ensures i < |xs| <==> v.Str?
    ensures i < |xs| ==> v == Str(xs[i])
    ensures i >= |xs| ==> v == Undefined
  {
    if i < |xs| then Str(xs[i]) else Undefined
  }

  /** How `slice` resolves one index argument against a string of length `len`:
      a negative index counts back from the end, and the result is clamped to
      the range 0..len. */
  function RelativeIndex(i: int, len: nat): (k: nat)
    ensures k <= len
  {
    if i < 0 then (if len + i < 0 then 0 else len + i)
    else if i < len then i else len
  }

  /** `s.slice(start)` when `end` is None, `s.slice(start, end)` otherwise.
      An empty range (start at or past end) gives the empty string. Lengths
      count characters, where JavaScript counts UTF-16 code units; the two
      agree on ASCII text such as a hexadecimal address. */
  function Slice(s: string, start: int, end: Option<int>): (r: string)
    ensures |r| <= |s|
    // A non-negative start counts from the front, a negative one from the back, both clamped.
    ensures end.None? && start >= 0 ==> r == s[(if start <= |s| then start else |s|)..]
    ensures end.None? && start < 0 ==> r == s[(if |s| + start >= 0 then |s| + start else 0)..]
    ensures end.Some? && 0 <= start <= end.value <= |s| ==> r == s[start..end.value]
    ensures end.Some? && 0 <= end.value <= start ==> r == ""
  {
    var lo := RelativeIndex(start, |s|);
    var hi := match end case None => |s| case Some(e) => RelativeIndex(e, |s|);
    if lo < hi then s[lo..hi] else ""
  }

  /** The two numeric types: a double (`number`) and an arbitrary-precision
      integer (`bigint`, what ethers v6 decodes every `uint` result to). */
  datatype Numeric = Num(x: real) | Big(i: int)

  /** The `TypeError` message V8 gives when the operands of an arithmetic
      operator mix a `bigint` with a `number`. */
  const MixedBigIntMessage := "Cannot mix BigInt and other types, use explicit conversions"

  /** `a - b`: defined within one numeric type, a `TypeError` across the two.
      Two `number`s subtract exactly here, not with IEEE double rounding. */
  function Subtract(a: Numeric, b: Numeric): (r: Result<Numeric, Thrown>)
    ensures r.Failure? <==> a.Big? != b.Big?
    ensures r.Failure? ==> r.error == ErrorInstance(MixedBigIntMessage, None)
    ensures a.Big? && b.Big? ==> r == Success(Big(a.i - b.i))
    ensures a.Num? && b.Num? ==> r == Success(Num(a.x - b.x))
  {
    match (a, b)
    case (Big(m), Big(n)) => Success(Big(m - n))
    case (Num(x), Num(y)) => Success(Num(x - y))
    case _ => Failure(ErrorInstance(MixedBigIntMessage, None))
  }

  /** A value passed to `throw`. Wallet providers reject with objects that carry
      a numeric `code` (EIP-1193), which may or may not be `Error` instances. */
  datatype Thrown =
    | ErrorInstance(message: string, code: Option<int>)
    | OtherValue(code: Option<int>)

  /** `err instanceof Error ? err.message : fallback`. */
  function MessageOr(t: Thrown, fallback: string): (m: string)
    ensures t.ErrorInstance? ==> m == t.message
    ensures t.OtherValue? ==> m == fallback
  {
    match t
    case ErrorInstance(message, _) => message
    case OtherValue(_) => fallback
  }

  /** `new Error(message)`. */
  function Raise(message: string): Thrown {
    ErrorInstance(message, None)
  }
}
