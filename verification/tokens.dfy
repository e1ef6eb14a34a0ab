/** Bytes and tokens as the converter sees them: a C++ `std::string` is a
    sequence of bytes, each written here as the Latin-1 character with that
    code so that tokens can be spelled as string literals. */
module Tokens {

  /** One byte of the token. */
  type Byte = c: char | c as int < 256 witness 'a'

  /** The raw input text. */
  type Token = seq<Byte>

  const QUOTE: Byte := '\''
  const PLUS: Byte := '+'
  const MINUS: Byte := '-'
  const DOT: Byte := '.'
  const FSUFFIX: Byte := 'f'
  /** The byte that ends the C string `c_str()` hands to the C library. */
  const NUL: Byte := '\0'

  /** `std::isdigit` on an `unsigned char` in the "C" locale. */
  predicate IsDigit(c: Byte): (b: bool)
    ensures b <==> c in "0123456789"
  {
    '0' <= c <= '9'
  }

  /** `std::isspace` in the "C" locale: space, \t, \n, \v, \f, \r. */
  predicate IsSpace(c: Byte): (b: bool)
    ensures b <==> c in {' ', '\t', '\n', '\U{b}', '\U{c}', '\r'}
    ensures b ==> c != NUL
  {
    c == ' ' || '\t' <= c <= '\r'
  }

  predicate IsSign(c: Byte) {
    c == PLUS || c == MINUS
  }

  /** Value of a digit byte. */
  function DigitValue(c: Byte): (d: nat)
    requires IsDigit(c)
    ensures d < 10
  {
    c as int - '0' as int
  }

  /** The numeric value of a plain `char` converted to `double`. Plain `char`
      is signed on the common ABIs (x86, x86-64), so bytes 128..255 become
      -128..-1. */
  function CharCode(c: Byte): (v: int)
    ensures -128 <= v < 128
    ensures v % 256 == c as int % 256
    ensures c as int < 128 ==> v == c as int
  {
    if c as int < 128 then c as int else c as int - 256
  }

  /** Length of the optional leading sign: 1 when the token starts with `+`
      or `-`, otherwise 0. */
  function SignLen(s: Token): (d: nat)
    ensures d <= 1 && d <= |s|
    ensures d == 1 <==> |s| > 0 && IsSign(s[0])
  {
    if |s| > 0 && IsSign(s[0]) then 1 else 0
  }

  /** Every byte of s[lo..hi] is a digit. */
  predicate DigitsIn(s: Token, lo: int, hi: int)
    requires 0 <= lo <= hi <= |s|
  {
    forall j :: lo <= j < hi ==> IsDigit(s[j])
  }
}
