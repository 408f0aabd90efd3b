/** Definitions shared by the ring buffer and the fifo buffer: the outcome of
    an operation, the range of a C `int`, and the two pieces of C arithmetic
    (wrap-around of a 32-bit sum, truncating remainder) that the model needs
    to spell out. */
module Common {

  /** Outcome of an operation that returns 0 on success and -1 on failure. */
  datatype Outcome = Success | Failure

  /** Outcome of an operation that, on success, also writes a value through
      an out-parameter. */
  datatype Result<T> = Ok(value: T) | Err

  const INT32_MIN: int := -0x8000_0000
  const INT32_MAX: int := 0x7fff_ffff

  /** The values of a C `int` on the platforms the library targets. */
  type Int32 = x: int | INT32_MIN <= x <= INT32_MAX

  /** The value a 32-bit two's-complement addition leaves when the exact sum
      is `x`. (Signed overflow is undefined in C; this is what the usual
      targets do.) */
  function Wrap32(x: int): (r: int)
    ensures INT32_MIN <= r <= INT32_MAX
    ensures INT32_MIN <= x <= INT32_MAX ==> r == x
  {
    (x - INT32_MIN) % 0x1_0000_0000 + INT32_MIN
  }

  /** C's `a % b` for a positive divisor: the remainder takes the sign of `a`. */
  function CRem(a: int, b: int): (r: int)
    requires 0 < b
    ensures -b < r < b
    ensures 0 <= a ==> r == a % b
    ensures a < 0 ==> r <= 0
  {
    if 0 <= a then a % b else -((-a) % b)
  }

  /** Euclidean remainder of a value that lies at most one period away from
      the range `[0, n)`. */
  lemma ModNear(x: int, n: int)
    requires 0 < n && -n <= x < 2 * n
    ensures x % n == if x < 0 then x + n else if x < n then x else x - n
  {
    if x < 0 {
      assert x == -1 * n + (x + n);
    } else if n <= x {
      assert x == 1 * n + (x - n);
    }
  }
}
