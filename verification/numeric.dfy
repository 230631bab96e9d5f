/** Machine integers, the 32-bit millisecond clock and the single-precision
    float of the ESP32 target, as far as the firmware's logic depends on them. */
module Numeric {

  const UINT8_LIMIT: int := 0x100
  const UINT32_LIMIT: int := 0x1_0000_0000

  /** `uint8_t` */
  type uint8 = x: int | 0 <= x < 0x100
  /** `uint32_t`; on the ESP32 `unsigned long` (what `millis()` returns) is also 32 bits wide. */
  type uint32 = x: int | 0 <= x < 0x1_0000_0000

  /** The conversion `(uint8_t)x` of an integer: C reduces modulo 2^8. */
  function ToUint8(x: int): (r: uint8)
    ensures 0 <= x < UINT8_LIMIT ==> r == x
    ensures (x - r) % UINT8_LIMIT == 0
  {
    x % UINT8_LIMIT
  }

  /** `now - since` on two 32-bit unsigned clock readings: the difference wraps
      around when the clock has rolled over since `since`. */
  function Elapsed(now: uint32, since: uint32): (r: uint32)
    ensures since <= now ==> r == now - since
    ensures now < since ==> r == UINT32_LIMIT - since + now
  {
    (now - since) % UINT32_LIMIT
  }

  /** Adding the wrapped difference back to the earlier reading, modulo 2^32,
      gives the later reading: `Elapsed` is the inverse of advancing the clock. */
  lemma ElapsedAdvances(now: uint32, since: uint32)
    ensures (since + Elapsed(now, since)) % UINT32_LIMIT == now
  {
  }

  /** An IEEE-754 single as the firmware uses it: a number or NaN. Rounding and
      infinities are not modelled; `Finite` carries the exact mathematical value. */
  datatype Float32 = NaN | Finite(value: real)

  /** `a + b`: NaN is absorbing. */
  function FAdd(a: Float32, b: Float32): (r: Float32)
    ensures r.Finite? <==> a.Finite? && b.Finite?
    ensures r.Finite? ==> r.value == a.value + b.value
  {
    if a.Finite? && b.Finite? then Finite(a.value + b.value) else NaN
  }

  /** `a / n` for a positive element count `n`. */
  function FDivCount(a: Float32, n: nat): (r: Float32)
    requires n > 0
    ensures r.Finite? <==> a.Finite?
    ensures r.Finite? ==> r.value * (n as real) == a.value
  {
    if a.Finite? then Finite(a.value / n as real) else NaN
  }

  /** `a != b` on floats: every comparison with a NaN is unordered, so `!=` holds. */
  predicate FNotEqual(a: Float32, b: Float32)
  {
    !(a.Finite? && b.Finite? && a.value == b.value)
  }

  /** `f` converted from an integer: exact for every value the firmware converts. */
  function FromInt(i: int): (r: Float32)
    ensures r.Finite? && r.value == i as real
  {
    Finite(i as real)
  }

  /** `(uint8_t)f`: C truncates toward zero. The conversion is undefined in C
      when the truncated value does not fit in 0..255 or `f` is NaN; the model
      yields 0 there. */
  function FloatToUint8(f: Float32): (r: uint8)
    ensures f.Finite? && 0.0 <= f.value < 256.0 ==> r as real <= f.value < r as real + 1.0
    ensures f.Finite? && -1.0 < f.value < 1.0 ==> r == 0
  {
    if f.Finite? && 0.0 <= f.value < 256.0 then f.value.Floor else 0
  }

  /** Converting a byte to float and back is the identity: a tare frame carries its
      scale number exactly. */
  lemma {:induction false} FloatToUint8FromInt(x: uint8)
    ensures FloatToUint8(FromInt(x)) == x
  {
    assert (x as real).Floor == x;
  }
}
