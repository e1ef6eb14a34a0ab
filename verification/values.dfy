/** The canonical value every recognised token is converted to: a `double`
    seen abstractly as NaN, one of the two infinities, or a finite real.
    Rounding to binary64 is not part of this abstraction. */
module Values {

  datatype Val = NaN | PosInf | NegInf | Finite(r: real)

  /** `std::numeric_limits<int>::min()` and `max()` for a 32-bit `int`. */
  const INT_MIN: int := -0x8000_0000
  const INT_MAX: int := 0x7fff_ffff

  /** `std::numeric_limits<unsigned char>::max()`. */
  const UCHAR_MAX: int := 255

  /** `std::numeric_limits<float>::max()`, (2 - 2^-23) * 2^127, which a
      `double` holds exactly. */
  const FLT_MAX: real := 340282346638528859811704183484516925440.0

  /** Conversion of a finite floating value to an integer type, as
      `static_cast` does it: the fractional part is discarded, so the result
      is rounded toward zero. */
  function Trunc(x: real): (n: int)
    ensures 0.0 <= x ==> 0 <= n && n as real <= x < n as real + 1.0
    ensures x < 0.0 ==> n <= 0 && n as real - 1.0 < x <= n as real
  {
    if x >= 0.0 then x.Floor else -((-x).Floor)
  }

  /** Truncation leaves integers alone. */
  lemma TruncOfInteger(n: int)
    ensures Trunc(n as real) == n
  {
  }
}
