/**
 * The pieces of the Java SE API the library leans on: int arithmetic with
 * two's-complement wrap-around, decimal rendering of integers (what `"" + n`
 * and string concatenation of a long or int produce), String.hashCode and
 * String.startsWith.
 */
module JavaLang {
  import opened Wrappers

  const TWO_31: int := 0x8000_0000
  const TWO_32: int := 0x1_0000_0000

  /** The range of a Java int. */
  predicate IsInt(x: int) {
    -TWO_31 <= x < TWO_31
  }

  /** Narrowing of an exact result to a Java int: what int arithmetic keeps of it. */
  function ToInt(x: int): (r: int)
    ensures IsInt(r)
    ensures (x - r) % TWO_32 == 0
    ensures IsInt(x) ==> r == x
  {
    (x + TWO_31) % TWO_32 - TWO_31
  }

  /** Two exact values that agree modulo 2^32 narrow to the same int. */
  lemma ToIntCongruent(x: int, y: int)
    requires (x - y) % TWO_32 == 0
    ensures ToInt(x) == ToInt(y)
  {
    var k := (x - y) / TWO_32;
    assert x + TWO_31 == (y + TWO_31) + TWO_32 * k;
    ModShift(y + TWO_31, k);
  }

  lemma ModShift(a: int, k: int)
    ensures (a + TWO_32 * k) % TWO_32 == a % TWO_32
  {
  }

  /** Integer division as Java does it: the quotient is truncated toward zero. */
  function Quot(a: int, b: int): (q: int)
    requires b != 0
    ensures a >= 0 && b > 0 ==> q == a / b
    ensures a < 0 && b > 0 ==> q == -((-a) / b)
  {
    if (a < 0) == (b < 0) then (if a < 0 then (-a) / (-b) else a / b)
    else -(if a < 0 then (-a) / b else a / (-b))
  }

  // ---------------------------------------------------------------------
  // Decimal rendering

  predicate IsDigit(c: char) {
    '0' <= c <= '9'
  }

  predicate AllDigits(s: string) {
    forall i :: 0 <= i < |s| ==> IsDigit(s[i])
  }

  function DigitChar(d: int): (c: char)
    requires 0 <= d < 10
    ensures IsDigit(c)
  {
    ('0' as int + d) as char
  }

  function DigitValue(c: char): (d: int)
    requires IsDigit(c)
    ensures 0 <= d < 10
  {
    c as int - '0' as int
  }

  /** Decimal digits of a non-negative number, most significant first, without leading zeros. */
  function NatToDecimal(n: nat): (s: string)
    ensures |s| >= 1 && AllDigits(s)
    ensures s[0] == '0' <==> n == 0
    ensures s[0] == '0' ==> |s| == 1
    decreases n
  {
    if n < 10 then [DigitChar(n)] else NatToDecimal(n / 10) + [DigitChar(n % 10)]
  }

  /** Long.toString / Integer.toString: an optional minus sign, then the digits of the magnitude. */
  function IntToDecimal(n: int): (s: string)
    ensures |s| >= 1
    ensures s[0] == '-' <==> n < 0
    ensures forall i :: 1 <= i < |s| ==> IsDigit(s[i])
    ensures n >= 0 ==> AllDigits(s)
    ensures n >= 0 && s[0] == '0' ==> |s| == 1
    ensures n < 0 ==> |s| >= 2 && s[1] != '0'
  {
    if n < 0 then "-" + NatToDecimal(-n) else NatToDecimal(n)
  }

  /** The number a string of decimal digits denotes. */
  function DecimalValue(s: string): nat
    requires AllDigits(s)
  {
    if |s| == 0 then 0 else 10 * DecimalValue(s[..|s| - 1]) + DigitValue(s[|s| - 1])
  }

  /** Long.parseLong restricted to the form IntToDecimal produces: '-'? digit+. */
  function ParseInt(s: string): Option<int> {
    if |s| > 0 && s[0] == '-' then
      (if |s| > 1 && AllDigits(s[1..]) then Some(-(DecimalValue(s[1..]) as int)) else None)
    else if |s| > 0 && AllDigits(s) then Some(DecimalValue(s))
    else None
  }

  lemma {:induction false} DecimalValueOfNat(n: nat)
    ensures DecimalValue(NatToDecimal(n)) == n
    decreases n
  {
    var s := NatToDecimal(n);
    if n >= 10 {
      DecimalValueOfNat(n / 10);
      assert s[..|s| - 1] == NatToDecimal(n / 10);
    }
  }

  /** Rendering an integer in decimal loses nothing: it parses back to the same integer. */
  lemma {:induction false} ParseIntInverts(n: int)
    ensures ParseInt(IntToDecimal(n)) == Some(n)
  {
    var s := IntToDecimal(n);
    if n < 0 {
      var d := NatToDecimal(-n);
      assert s == "-" + d && s[1..] == d;
      DecimalValueOfNat(-n);
      assert |s| > 1 && s[0] == '-' && AllDigits(s[1..]);
    } else {
      assert s == NatToDecimal(n);
      DecimalValueOfNat(n);
      assert |s| > 0 && s[0] != '-' && AllDigits(s);
    }
  }

  // ---------------------------------------------------------------------
  // String.hashCode

  function Pow31(k: nat): nat {
    if k == 0 then 1 else 31 * Pow31(k - 1)
  }

  /**
   * The value String.hashCode is specified to be before it is reduced to an
   * int: s[0]*31^(n-1) + s[1]*31^(n-2) + ... + s[n-1].
   */
  function HashPolynomial(s: string): int
  {
    if |s| == 0 then 0 else (s[0] as int) * Pow31(|s| - 1) + HashPolynomial(s[1..])
  }

  /** String.hashCode as it is computed: h = 31*h + c for each character, in int arithmetic. */
  function HashCode(s: string): (h: int)
    ensures IsInt(h)
  {
    if |s| == 0 then 0 else ToInt(31 * HashCode(s[..|s| - 1]) + s[|s| - 1] as int)
  }

  lemma {:induction false} HashPolynomialAppend(p: string, c: char)
    ensures HashPolynomial(p + [c]) == 31 * HashPolynomial(p) + c as int
    decreases |p|
  {
    if |p| == 0 {
      assert p + [c] == [c];
      assert [c][1..] == [];
    } else {
      var q := p[1..];
      assert (p + [c])[1..] == q + [c];
      HashPolynomialAppend(q, c);
      var a := p[0] as int;
      assert Pow31(|p|) == 31 * Pow31(|q|);
      calc {
        HashPolynomial(p + [c]);
        a * Pow31(|p|) + HashPolynomial(q + [c]);
        a * (31 * Pow31(|q|)) + 31 * HashPolynomial(q) + c as int;
        { assert a * (31 * Pow31(|q|)) == 31 * (a * Pow31(|q|)); }
        31 * (a * Pow31(|q|) + HashPolynomial(q)) + c as int;
      }
    }
  }

  /** The step-by-step int computation agrees with the specified polynomial reduced to an int. */
  lemma {:induction false} HashCodeIsWrappedPolynomial(s: string)
    ensures HashCode(s) == ToInt(HashPolynomial(s))
    decreases |s|
  {
    if |s| > 0 {
      var p, c := s[..|s| - 1], s[|s| - 1];
      assert s == p + [c];
      HashCodeIsWrappedPolynomial(p);
      HashPolynomialAppend(p, c);
      StepCongruent(HashPolynomial(p), c as int);
    }
  }

  /** One step of the hash on the exact value and on its narrowing narrows to the same int. */
  lemma StepCongruent(P: int, c: int)
    ensures ToInt(31 * P + c) == ToInt(31 * ToInt(P) + c)
  {
    var h := ToInt(P);
    var k := (P - h) / TWO_32;
    assert P - h == TWO_32 * k by {
      assert (P - h) % TWO_32 == 0;
    }
    assert (31 * P + c) - (31 * h + c) == TWO_32 * (31 * k);
    ModShift(0, 31 * k);
    ToIntCongruent(31 * P + c, 31 * h + c);
  }

  /** String.startsWith. */
  predicate StartsWith(s: string, prefix: string) {
    prefix <= s
  }
}
