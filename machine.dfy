/** Fixed-width unsigned integers of the controller's C++ code (uint8_t,
    uint16_t, and the 32-bit uint32_t / unsigned long of the target MCU), and
    the C operations whose meaning differs from Dafny's unbounded arithmetic:
    conversion to an unsigned type (reduction modulo 2^n), wrap-around
    subtraction of timer readings, and the truncating remainder `%`. */
module Machine {

  const BYTE_LIMIT: int := 0x100
  const U32_LIMIT: int := 0x1_0000_0000

  type byte = x: int | 0 <= x < 0x100
  type u16 = x: int | 0 <= x < 0x1_0000
  type u32 = x: int | 0 <= x < 0x1_0000_0000

  /** Conversion of an int to uint8_t. */
  function ToU8(x: int): (r: byte)
    ensures 0 <= x < BYTE_LIMIT ==> r == x
    ensures -BYTE_LIMIT <= x < 0 ==> r == x + BYTE_LIMIT
  {
    x % BYTE_LIMIT
  }

  /** Conversion of an int to a 32-bit unsigned value (uint32_t, unsigned long). */
  function Wrap32(x: int): (r: u32)
    ensures 0 <= x < U32_LIMIT ==> r == x
    ensures U32_LIMIT <= x < 2 * U32_LIMIT ==> r == x - U32_LIMIT
  {
    x % U32_LIMIT
  }

  /** `now - since` on uint32_t timer readings: the time elapsed since `since`,
      correct across one wrap of the millisecond (or second) counter. */
  function Elapsed(now: u32, since: u32): (r: u32)
    ensures since <= now ==> r == now - since
    ensures now < since ==> r == now + U32_LIMIT - since
  {
    Wrap32(now - since)
  }

  /** C's `a / b` for a positive divisor: the quotient truncated toward zero. */
  function CQuot(a: int, b: int): int
    requires b > 0
  {
    if a >= 0 then a / b else -((-a) / b)
  }

  /** C's `a % b` for a positive divisor: the remainder of truncating
      division, which takes the sign of the dividend, unlike Dafny's
      Euclidean `%`. */
  function CRem(a: int, b: int): (r: int)
    requires b > 0
    ensures a == CQuot(a, b) * b + r
    ensures a >= 0 ==> 0 <= r < b
    ensures a < 0 ==> -b < r <= 0
  {
    if a >= 0 then a % b else -((-a) % b)
  }

  /** Adding after a wrap is the same as wrapping the whole sum. */
  lemma WrapAdd(x: int, y: int)
    ensures Wrap32(Wrap32(x) + y) == Wrap32(x + y)
  {
    var q := x / U32_LIMIT;
    assert x == q * U32_LIMIT + Wrap32(x);
    assert Wrap32(x) + y == (x + y) - q * U32_LIMIT;
    ModShift(x + y, -q);
  }

  /** Subtracting a multiple of the modulus does not change the remainder. */
  lemma ModShift(z: int, k: int)
    ensures (z + k * U32_LIMIT) % U32_LIMIT == z % U32_LIMIT
  {
    var q := z / U32_LIMIT;
    var r := z % U32_LIMIT;
    assert z + k * U32_LIMIT == (q + k) * U32_LIMIT + r;
  }

  /** A timer that advanced by `d` (less than one full wrap) is seen to have
      advanced by exactly `d`, even when the counter wrapped in between. */
  lemma ElapsedAfter(since: u32, d: int)
    requires 0 <= d < U32_LIMIT
    ensures Elapsed(Wrap32(since + d), since) == d
  {
    if since + d >= U32_LIMIT {
      assert Wrap32(since + d) == since + d - U32_LIMIT;
    }
  }
}
