/**
  * Fixed-width integer conversions of C++, std::to_string, and the outcome
  * of a call that may throw: the vocabulary the other modules share.
  */
module Base {

  datatype Option<+T> = None | Some(value: T)

  /** The end of a call that may throw (DXTHROW_INVALID_ARGUMENT, DXCHECK_THROW). */
  datatype Outcome<+T> = Returned(value: T) | Threw

  const INT32_MIN: int := -0x8000_0000
  const INT32_MAX: int := 0x7fff_ffff

  /** C++ `int`. */
  type int32 = x: int | INT32_MIN <= x <= INT32_MAX

  const TWO_16: int := 0x1_0000
  const TWO_32: int := 0x1_0000_0000
  const TWO_64: int := 0x1_0000_0000_0000_0000

  /** `(uint16_t)x`: reduction modulo 2^16. */
  function ToUint16(x: int): (r: int)
    ensures 0 <= r < TWO_16
    ensures 0 <= x < TWO_16 ==> r == x
  {
    x % TWO_16
  }

  /** `(uint32_t)x`: reduction modulo 2^32. */
  function ToUint32(x: int): (r: int)
    ensures 0 <= r < TWO_32
    ensures 0 <= x < TWO_32 ==> r == x
  {
    x % TWO_32
  }

  /** `(uint64_t)x`: reduction modulo 2^64. */
  function ToUint64(x: int): (r: int)
    ensures 0 <= r < TWO_64
    ensures 0 <= x < TWO_64 ==> r == x
  {
    x % TWO_64
  }

  /** `(int)u` for a 32-bit unsigned u: two's complement reinterpretation. */
  function Uint32ToInt32(u: int): (r: int32)
    requires 0 <= u < TWO_32
    ensures u <= INT32_MAX ==> r == u
  {
    if u <= INT32_MAX then u else u - TWO_32
  }

  function Abs(x: int): nat
  {
    if x < 0 then -x else x
  }

  /** C++ `a / b` on int: the quotient truncated toward zero. */
  function CDiv(a: int, b: int): (q: int)
    requires b != 0
    ensures Abs(b) * Abs(q) <= Abs(a) < Abs(b) * (Abs(q) + 1)
    ensures q == 0 || ((q < 0) <==> ((a < 0) != (b < 0)))
  {
    QuotientBounds(Abs(a), Abs(b));
    var m: nat := Abs(a) / Abs(b);
    var q := if (a < 0) == (b < 0) then m as int else -(m as int);
    SignedQuotientBounds(Abs(a), Abs(b), m, q);
    q
  }

  /** A quotient of naturals, whichever sign it is given, keeps its bounds. */
  lemma SignedQuotientBounds(n: nat, d: nat, m: nat, q: int)
    requires d * m <= n < d * (m + 1)
    requires q == m || -q == m
    ensures d * Abs(q) <= n < d * (Abs(q) + 1)
  {
    assert Abs(q) == m;
  }

  /** The quotient of naturals is the largest multiple of d not above n. */
  lemma QuotientBounds(n: nat, d: nat)
    requires d > 0
    ensures 0 <= n / d && d * (n / d) <= n < d * (n / d + 1)
  {
    var q, r := n / d, n % d;
    assert n == d * q + r && 0 <= r < d;
    assert d * (q + 1) == d * q + d;
  }

  /** C++ `a % b` on int: what is left after the truncated quotient. */
  function CRem(a: int, b: int): (r: int)
    requires b != 0
    ensures a == b * CDiv(a, b) + r
    ensures Abs(r) < Abs(b)
    ensures r == 0 || ((r < 0) <==> (a < 0))
  {
    a - b * CDiv(a, b)
  }

  /** For a non-negative dividend and a positive divisor C++ agrees with Dafny's division. */
  lemma CDivNonNegative(a: int, b: int)
    requires a >= 0 && b > 0
    ensures CDiv(a, b) == a / b && CRem(a, b) == a % b
  {
  }

  predicate IsDigit(c: char)
  {
    '0' <= c <= '9'
  }

  function DigitChar(d: int): (c: char)
    requires 0 <= d < 10
    ensures IsDigit(c)
  {
    (d + '0' as int) as char
  }

  function DigitValue(c: char): (d: nat)
    requires IsDigit(c)
    ensures d < 10 && DigitChar(d) == c
  {
    c as int - '0' as int
  }

  predicate AllDigits(s: string)
  {
    forall i :: 0 <= i < |s| ==> IsDigit(s[i])
  }

  /** The number a string of decimal digits denotes. */
  function DigitsValue(s: string): nat
    requires AllDigits(s)
    decreases |s|
  {
    if s == [] then 0 else DigitsValue(s[..|s| - 1]) * 10 + DigitValue(s[|s| - 1])
  }

  /** The decimal digits of n, without leading zeros. */
  function Dec(n: nat): (s: string)
    ensures s != [] && AllDigits(s)
    decreases n
  {
    if n < 10 then [DigitChar(n)] else Dec(n / 10) + [DigitChar(n % 10)]
  }

  /** std::to_string of an int. */
  function IntToString(x: int): (s: string)
    ensures s != [] && (x < 0 <==> s[0] == '-')
  {
    if x < 0 then "-" + Dec(-x) else Dec(x)
  }

  /** Reading back the digits Dec writes gives the number again. */
  lemma {:induction false} DecValue(n: nat)
    ensures DigitsValue(Dec(n)) == n
    decreases n
  {
    if n >= 10 {
      DecValue(n / 10);
      var s := Dec(n);
      assert s[..|s| - 1] == Dec(n / 10);
      assert s[|s| - 1] == DigitChar(n % 10);
    }
  }

  lemma DecInjective(a: nat, b: nat)
    requires Dec(a) == Dec(b)
    ensures a == b
  {
    DecValue(a);
    DecValue(b);
  }

  /** std::to_string is one-to-one: distinct ints print differently. */
  lemma IntToStringInjective(a: int, b: int)
    requires IntToString(a) == IntToString(b)
    ensures a == b
  {
    if a < 0 && b < 0 {
      assert Dec(-a) == IntToString(a)[1..];
      DecInjective(-a, -b);
    } else if a >= 0 && b >= 0 {
      DecInjective(a, b);
    }
  }

  /** Names built as prefix + tag + std::to_string(x) differ whenever the numbers differ. */
  lemma NumberedNamesInjective(prefix: string, a: int, b: int)
    requires prefix + IntToString(a) == prefix + IntToString(b)
    ensures a == b
  {
    assert IntToString(a) == (prefix + IntToString(a))[|prefix|..];
    assert IntToString(b) == (prefix + IntToString(b))[|prefix|..];
    IntToStringInjective(a, b);
  }
}
