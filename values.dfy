/** The value domain of the solver: unsigned 32-bit integers and the four
    checked operators that either produce an in-range result or nothing. */
module Values {

  datatype Option<+T> = None | Some(value: T)

  /** Largest representable value, `u32::MAX`. */
  const MAX: nat := 0xFFFF_FFFF

  /** A `u32`: the solver's `Value`. */
  type Value = x: nat | x <= MAX

  /** `a` raised to the power `b`, over unbounded naturals (0^0 == 1). */
  function Pow(a: nat, b: nat): nat
    decreases b
  {
    if b == 0 then 1 else a * Pow(a, b - 1)
  }

  /** `u32::checked_add`. */
  function CheckedAdd(a: Value, b: Value): (r: Option<Value>)
    ensures r.Some? <==> a + b <= MAX
    ensures r.Some? ==> r.value == a + b
  {
    if a + b <= MAX then Some(a + b) else None
  }

  /** `u32::checked_mul`. */
  function CheckedMul(a: Value, b: Value): (r: Option<Value>)
    ensures r.Some? <==> a * b <= MAX
    ensures r.Some? ==> r.value == a * b
  {
    if a * b <= MAX then Some(a * b) else None
  }

  /** `u32::checked_sub`: no result when the difference would be negative. */
  function CheckedSub(a: Value, b: Value): (r: Option<Value>)
    ensures r.Some? <==> b <= a
    ensures r.Some? ==> r.value + b == a
  {
    if b <= a then Some(a - b) else None
  }

  /** `u32::checked_pow`: the exponent is itself a `u32`. */
  function CheckedPow(a: Value, b: Value): (r: Option<Value>)
    ensures r.Some? <==> Pow(a, b) <= MAX
    ensures r.Some? ==> r.value == Pow(a, b)
  {
    var p := Pow(a, b);
    if p <= MAX then Some(p) else None
  }
}
