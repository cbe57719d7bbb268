/** Java's 32-bit `int`, `String.hashCode` and the decimal form `String.valueOf(int)`. */
module JavaInt {

  const TWO_31: int := 0x8000_0000
  const TWO_32: int := 0x1_0000_0000

  /** A value of Java type `int`. */
  newtype int32 = x: int | -0x8000_0000 <= x < 0x8000_0000

  predicate InRange(x: int) {
    -TWO_31 <= x < TWO_31
  }

  /** Two's-complement wrap-around of an integer into a Java `int`. */
  function Wrap(x: int): (r: int32)
    ensures (r as int - x) % TWO_32 == 0
    ensures InRange(x) ==> r as int == x
  {
    ((x + TWO_31) % TWO_32 - TWO_31) as int32
  }

  /** Two `int`s congruent modulo 2^32 are equal. */
  lemma CongruentInt32(a: int32, b: int32)
    requires (a as int - b as int) % TWO_32 == 0
    ensures a == b
  {
    assert -TWO_32 < a as int - b as int < TWO_32;
  }

  /** Wrapping depends only on the residue modulo 2^32. */
  lemma WrapCongruent(x: int, y: int)
    requires (x - y) % TWO_32 == 0
    ensures Wrap(x) == Wrap(y)
  {
    var rx, ry := Wrap(x), Wrap(y);
    var k1, k2, k3 := (rx as int - x) / TWO_32, (ry as int - y) / TWO_32, (x - y) / TWO_32;
    assert rx as int - x == TWO_32 * k1;
    assert ry as int - y == TWO_32 * k2;
    assert x - y == TWO_32 * k3;
    assert rx as int - ry as int == TWO_32 * (k1 - k2 + k3);
    assert (TWO_32 * (k1 - k2 + k3)) % TWO_32 == 0;
    CongruentInt32(rx, ry);
  }

  /** Accumulating with a wrap after every addition is the same as wrapping the exact sum once. */
  lemma WrapAdd(a: int, b: int)
    ensures Wrap(Wrap(a) as int + b) == Wrap(a + b)
  {
    var k := (Wrap(a) as int - a) / TWO_32;
    assert Wrap(a) as int - a == TWO_32 * k;
    assert (Wrap(a) as int + b) - (a + b) == TWO_32 * k;
    WrapCongruent(Wrap(a) as int + b, a + b);
  }

  function Pow31(n: nat): nat {
    if n == 0 then 1 else 31 * Pow31(n - 1)
  }

  /** The documented value of a string hash: s[0]*31^(n-1) + s[1]*31^(n-2) + ... + s[n-1], exactly. */
  function HashPolynomial(s: string): int {
    if s == [] then 0 else s[0] as int * Pow31(|s| - 1) + HashPolynomial(s[1..])
  }

  /** Appending a character multiplies the polynomial by 31 and adds the character. */
  lemma {:induction false} HashPolynomialAppend(s: string, c: char)
    ensures HashPolynomial(s + [c]) == 31 * HashPolynomial(s) + c as int
    decreases |s|
  {
    if s != [] {
      var t := s + [c];
      assert t[0] == s[0] && t[1..] == s[1..] + [c];
      HashPolynomialAppend(s[1..], c);
      var a, p := s[0] as int, Pow31(|s| - 1);
      assert Pow31(|t| - 1) == 31 * p;
      assert a * (31 * p) == 31 * (a * p);
    }
  }

  /** Multiplying by 31 commutes with wrapping. */
  lemma WrapMulAdd(a: int, c: int)
    ensures Wrap(31 * Wrap(a) as int + c) == Wrap(31 * a + c)
  {
    var k := (Wrap(a) as int - a) / TWO_32;
    assert Wrap(a) as int - a == TWO_32 * k;
    assert (31 * Wrap(a) as int + c) - (31 * a + c) == TWO_32 * (31 * k);
    WrapCongruent(31 * Wrap(a) as int + c, 31 * a + c);
  }

  /** `String.hashCode`: h = 31 * h + c over the characters, in `int` arithmetic.
      Its value is the documented polynomial reduced into an `int`. */
  function StringHash(s: string): (h: int32)
    ensures h == Wrap(HashPolynomial(s))
  {
    if s == [] then 0
    else
      var prefix, last := s[..|s| - 1], s[|s| - 1];
      assert s == prefix + [last];
      HashPolynomialAppend(prefix, last);
      WrapMulAdd(HashPolynomial(prefix), last as int);
      Wrap(31 * StringHash(prefix) as int + last as int)
  }

  predicate IsDigit(c: char) {
    '0' <= c <= '9'
  }

  function DigitChar(d: nat): (c: char)
    requires d < 10
    ensures IsDigit(c) && DigitValue(c) == d
  {
    ('0' as int + d) as char
  }

  function DigitValue(c: char): nat {
    if IsDigit(c) then c as int - '0' as int else 0
  }

  /** The decimal digits of a natural number, without leading zeros. */
  function NatString(n: nat): (s: string)
    ensures |s| > 0
    ensures forall i :: 0 <= i < |s| ==> IsDigit(s[i])
    ensures s[0] == '0' <==> n == 0
    decreases n
  {
    if n < 10 then [DigitChar(n)] else NatString(n / 10) + [DigitChar(n % 10)]
  }

  /** `String.valueOf(int)`: an optional minus sign followed by the digits of the magnitude. */
  function DecimalString(n: int): (s: string)
    ensures |s| > 0
    ensures s[0] == '-' <==> n < 0
    ensures forall i :: (if n < 0 then 1 else 0) <= i < |s| ==> IsDigit(s[i])
  {
    if n < 0 then "-" + NatString(-n) else NatString(n)
  }

  /** An independent reading of a digit string back into a number (`Integer.parseInt`). */
  function ParseNat(s: string): nat {
    if s == [] then 0 else ParseNat(s[..|s| - 1]) * 10 + DigitValue(s[|s| - 1])
  }

  function ParseDecimal(s: string): int {
    if |s| > 0 && s[0] == '-' then -(ParseNat(s[1..]) as int) else ParseNat(s)
  }

  lemma {:induction false} ParseNatString(n: nat)
    ensures ParseNat(NatString(n)) == n
    decreases n
  {
    var s := NatString(n);
    if n >= 10 {
      ParseNatString(n / 10);
      assert s[..|s| - 1] == NatString(n / 10);
    }
  }

  /** Reading the decimal form of a number gives the number back, so distinct numbers have distinct forms. */
  lemma DecimalStringRoundTrip(n: int)
    ensures ParseDecimal(DecimalString(n)) == n
  {
    if n < 0 {
      ParseNatString(-n);
      assert DecimalString(n)[1..] == NatString(-n);
    } else {
      ParseNatString(n);
    }
  }

  lemma DecimalStringInjective(m: int, n: int)
    requires DecimalString(m) == DecimalString(n)
    ensures m == n
  {
    DecimalStringRoundTrip(m);
    DecimalStringRoundTrip(n);
  }
}
