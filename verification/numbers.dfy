/**
 * The "finite number" test the parser applies to a trimmed cell
 * (`Number(v)` followed by `Number.isFinite`), restricted to signed decimal
 * notation with an optional fractional part, and the value such a text denotes.
 */
module Numbers {

  predicate IsDigit(c: char) {
    '0' <= c <= '9'
  }

  predicate IsDigits(s: string) {
    forall i :: 0 <= i < |s| ==> IsDigit(s[i])
  }

  function DigitValue(c: char): nat
    requires IsDigit(c)
  {
    (c as int) - ('0' as int)
  }

  /** The value of a run of decimal digits, most significant first. */
  function DigitsValue(s: string): nat
    requires IsDigits(s)
  {
    if s == [] then 0 else DigitsValue(s[..|s| - 1]) * 10 + DigitValue(s[|s| - 1])
  }

  function Pow10(n: nat): (r: nat)
    ensures r >= 1
  {
    if n == 0 then 1 else 10 * Pow10(n - 1)
  }

  /** `s` without a leading `+` or `-`. */
  function Unsigned(s: string): string {
    if s != [] && (s[0] == '+' || s[0] == '-') then s[1..] else s
  }

  /** Index of the first decimal point, or the length when there is none. */
  function PointIndex(u: string): (k: nat)
    ensures k <= |u|
    ensures k < |u| ==> u[k] == '.'
    ensures forall i :: 0 <= i < k ==> u[i] != '.'
  {
    if u == [] then 0 else if u[0] == '.' then 0 else 1 + PointIndex(u[1..])
  }

  function IntPart(u: string): string {
    u[..PointIndex(u)]
  }

  function FracPart(u: string): string {
    if PointIndex(u) < |u| then u[PointIndex(u) + 1..] else []
  }

  /** Digits, optionally followed by a point and more digits, with at least one digit in all. */
  predicate IsUnsignedDecimal(u: string) {
    && IsDigits(IntPart(u))
    && IsDigits(FracPart(u))
    && |IntPart(u)| + |FracPart(u)| >= 1
  }

  /** The texts the model accepts as finite numbers. */
  predicate IsFiniteNumber(s: string) {
    IsUnsignedDecimal(Unsigned(s))
  }

  /** The number a finite-number text denotes. */
  function NumberValue(s: string): real
    requires IsFiniteNumber(s)
  {
    var u := Unsigned(s);
    var magnitude := DigitsValue(IntPart(u)) as real
      + DigitsValue(FracPart(u)) as real / Pow10(|FracPart(u)|) as real;
    if s[0] == '-' then -magnitude else magnitude
  }

  /** A finite-number text is never empty and holds only signs, digits and one point. */
  lemma FiniteNumberShape(s: string)
    requires IsFiniteNumber(s)
    ensures s != []
    ensures forall i :: 0 <= i < |s| ==> IsDigit(s[i]) || s[i] in "+-."
  {
    var u := Unsigned(s);
    var k := PointIndex(u);
    assert u == IntPart(u) + u[k..];
    assert k < |u| ==> u[k..] == ['.'] + FracPart(u);
    forall i | 0 <= i < |u| ensures IsDigit(u[i]) || u[i] == '.' {
      if i < k {
        assert u[i] == IntPart(u)[i];
      } else if i > k {
        assert u[i] == FracPart(u)[i - k - 1];
      }
    }
  }

  // ---------------------------------------------------------------- integer texts

  function Digit(d: nat): (c: char)
    requires d < 10
    ensures IsDigit(c) && DigitValue(c) == d
  {
    ('0' as int + d) as char
  }

  /** The decimal text of a natural number, as `String(n)` writes it. */
  function NatText(n: nat): (r: string)
    ensures |r| >= 1 && IsDigits(r)
  {
    if n < 10 then [Digit(n)] else NatText(n / 10) + [Digit(n % 10)]
  }

  /** The decimal text of an integer, with a minus sign when it is negative. */
  function IntText(n: int): string {
    if n < 0 then "-" + NatText(-n) else NatText(n)
  }

  lemma {:induction false} NatTextValue(n: nat)
    ensures DigitsValue(NatText(n)) == n
  {
    if n >= 10 {
      var t := NatText(n);
      NatTextValue(n / 10);
      assert t[..|t| - 1] == NatText(n / 10);
    }
  }

  lemma DigitsHaveNoPoint(u: string)
    requires IsDigits(u)
    ensures PointIndex(u) == |u| && IntPart(u) == u && FracPart(u) == []
  {
    assert forall i :: 0 <= i < |u| ==> u[i] != '.';
  }

  /** The text of every integer passes the finite-number test and denotes that integer. */
  lemma IntTextRoundTrip(n: int)
    ensures IsFiniteNumber(IntText(n))
    ensures NumberValue(IntText(n)) == n as real
  {
    var m: nat := if n < 0 then -n else n;
    var t := NatText(m);
    NatTextValue(m);
    DigitsHaveNoPoint(t);
    assert Unsigned(IntText(n)) == t;
    assert Pow10(0) == 1;
  }
}
