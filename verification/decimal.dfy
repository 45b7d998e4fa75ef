/**
 * Decimal printing of natural numbers, as Go's `%d` verb and the zero-padded
 * numeric fields of `time.Format` produce it, together with the inverse
 * reading of a digit string back into a number.
 */
module Decimal {

  function DigitChar(d: nat): (c: char)
    requires d < 10
    ensures '0' <= c <= '9'
  {
    ('0' as int + d) as char
  }

  predicate IsDigit(c: char) {
    '0' <= c <= '9'
  }

  predicate IsDigits(s: string) {
    forall i :: 0 <= i < |s| ==> IsDigit(s[i])
  }

  lemma DigitsConcat(a: string, b: string)
    requires IsDigits(a) && IsDigits(b)
    ensures IsDigits(a + b)
  {
    assert forall i :: 0 <= i < |a + b| ==> (a + b)[i] == if i < |a| then a[i] else b[i - |a|];
  }

  function Pow10(k: nat): (p: nat)
    ensures p >= 1
  {
    if k == 0 then 1 else 10 * Pow10(k - 1)
  }

  /** The shortest decimal form of `n`: no sign, no leading zero except for 0 itself. */
  function Digits(n: nat): (s: string)
    ensures IsDigits(s)
    ensures |s| >= 1
    ensures |s| == 1 <==> n < 10
  {
    if n < 10 then [DigitChar(n)] else Digits(n / 10) + [DigitChar(n % 10)]
  }

  /** The number a digit string denotes (leading zeros allowed). */
  function Value(s: string): (v: nat)
    requires IsDigits(s)
  {
    if |s| == 0 then 0 else 10 * Value(s[..|s| - 1]) + (s[|s| - 1] as int - '0' as int)
  }

  function Zeros(k: nat): (z: string)
    ensures |z| == k
    ensures forall i :: 0 <= i < k ==> z[i] == '0'
  {
    seq(k, _ => '0')
  }

  /** `n` in decimal, left-padded with zeros to at least `width` characters. */
  function ZeroPad(n: nat, width: nat): (s: string)
    ensures IsDigits(s)
    ensures |s| >= width
  {
    var d := Digits(n);
    if |d| < width then Zeros(width - |d|) + d else d
  }

  /** Reading back the printed form gives the number: `Value` inverts `Digits`. */
  lemma {:induction false} ValueOfDigits(n: nat)
    ensures Value(Digits(n)) == n
  {
    if n >= 10 {
      var s := Digits(n);
      assert s[..|s| - 1] == Digits(n / 10);
      ValueOfDigits(n / 10);
    }
  }

  /** Distinct numbers print differently. */
  lemma DigitsInjective(a: nat, b: nat)
    ensures Digits(a) == Digits(b) <==> a == b
  {
    if Digits(a) == Digits(b) {
      ValueOfDigits(a);
      ValueOfDigits(b);
    }
  }

  /** Leading zeros do not change the value of a digit string. */
  lemma {:induction false} ValueIgnoresLeadingZeros(k: nat, s: string)
    requires IsDigits(s)
    ensures IsDigits(Zeros(k) + s)
    ensures Value(Zeros(k) + s) == Value(s)
    decreases |s|, k
  {
    var t := Zeros(k) + s;
    if |s| == 0 {
      if k > 0 {
        assert t[..|t| - 1] == Zeros(k - 1) + s;
        ValueIgnoresLeadingZeros(k - 1, s);
      }
    } else {
      assert t[..|t| - 1] == Zeros(k) + s[..|s| - 1];
      ValueIgnoresLeadingZeros(k, s[..|s| - 1]);
    }
  }

  /** A number below 10^w prints in at most w digits. */
  lemma {:induction false} DigitsFit(n: nat, w: nat)
    requires 1 <= w
    requires n < Pow10(w)
    ensures |Digits(n)| <= w
  {
    if n >= 10 {
      assert w >= 2;
      DigitsFit(n / 10, w - 1);
    }
  }

  /** A zero-padded field of a number below 10^w is exactly w digits and reads back as the number. */
  lemma ZeroPadRoundTrip(n: nat, w: nat)
    requires 1 <= w
    requires n < Pow10(w)
    ensures |ZeroPad(n, w)| == w
    ensures Value(ZeroPad(n, w)) == n
  {
    DigitsFit(n, w);
    ValueOfDigits(n);
    var d := Digits(n);
    if |d| < w {
      ValueIgnoresLeadingZeros(w - |d|, d);
    }
  }
}
