/** The part of JavaScript's number semantics the editors rely on: integral
 *  values and NaN, the ToInt32 conversion behind `>>`, and the comparisons
 *  and arithmetic in which NaN propagates or compares false. */
module JsNumber {

  /** An integral JavaScript number, or NaN (a failed `parseInt`, or arithmetic
   *  on `undefined`). */
  datatype Num = NaN | Int(i: int)

  const Two31: int := 0x8000_0000
  const Two32: int := 0x1_0000_0000

  /** ToInt32: the value modulo 2^32, read as a signed 32-bit integer; NaN is 0. */
  function ToInt32(n: Num): (r: int)
    ensures -Two31 <= r < Two31
    ensures n.NaN? ==> r == 0
    ensures n.Int? ==> (n.i - r) % Two32 == 0
    ensures n.Int? && -Two31 <= n.i < Two31 ==> r == n.i
  {
    match n
    case NaN => 0
    case Int(i) =>
      var m := i % Two32;
      if m >= Two31 then m - Two32 else m
  }

  /** `n >> 8`: ToInt32 followed by an arithmetic shift, that is, floor division by 256. */
  function ShiftRight8(n: Num): (r: int)
    ensures -Two31 / 256 <= r < Two31 / 256
    ensures n.Int? && 0 <= n.i < Two31 ==> r == n.i / 256
    ensures n.NaN? ==> r == 0
  {
    ToInt32(n) / 256
  }

  /** The integer a DataView or typed-array store sees: NaN is stored as 0. */
  function IntegerOrZero(n: Num): (r: int)
    ensures n.Int? ==> r == n.i
    ensures n.NaN? ==> r == 0
  {
    match n
    case NaN => 0
    case Int(i) => i
  }

  function Add(a: Num, b: Num): (r: Num)
    ensures r.Int? <==> a.Int? && b.Int?
    ensures r.Int? ==> r.i == a.i + b.i
  {
    if a.Int? && b.Int? then Int(a.i + b.i) else NaN
  }

  function Sub(a: Num, b: Num): (r: Num)
    ensures r.Int? <==> a.Int? && b.Int?
    ensures r.Int? ==> r.i == a.i - b.i
  {
    if a.Int? && b.Int? then Int(a.i - b.i) else NaN
  }

  /** `a < b`: false whenever NaN is involved. */
  predicate Less(a: Num, b: Num)
  {
    a.Int? && b.Int? && a.i < b.i
  }

  /** `a !== b` on numbers: NaN differs from everything, itself included. */
  predicate StrictNotEqual(a: Num, b: Num)
  {
    a.NaN? || b.NaN? || a.i != b.i
  }
}
