/** Rendering of natural numbers as decimal digit strings, as JavaScript's
    `"" + n` and Python's `f"{n}"` do for non-negative integers, together
    with the digit parser that is its inverse. */
module Decimal {

  predicate IsDigit(c: char) {
    '0' <= c <= '9'
  }

  predicate AllDigits(s: string) {
    forall k :: 0 <= k < |s| ==> IsDigit(s[k])
  }

  /** A canonical decimal numeral: non-empty, digits only, no leading zero
      unless the numeral is "0" itself. */
  predicate Canonical(s: string) {
    |s| >= 1 && AllDigits(s) && (|s| > 1 ==> s[0] != '0')
  }

  function DigitChar(d: nat): (c: char)
    requires d < 10
    ensures IsDigit(c)
  {
    (48 + d) as char
  }

  function DigitValue(c: char): (d: nat)
    requires IsDigit(c)
    ensures d < 10
  {
    c as int - 48
  }

  /** The decimal numeral of n. */
  function FromNat(n: nat): (s: string)
    ensures Canonical(s)
    ensures n < 10 <==> |s| == 1
  {
    if n < 10 then [DigitChar(n)] else FromNat(n / 10) + [DigitChar(n % 10)]
  }

  /** The number a digit string denotes (the empty string denotes 0). */
  function Value(s: string): nat
    requires AllDigits(s)
  {
    if |s| == 0 then 0 else Value(s[..|s| - 1]) * 10 + DigitValue(s[|s| - 1])
  }

  /** Reading back a rendered number gives the number. */
  lemma {:induction false} ValueOfFromNat(n: nat)
    ensures Value(FromNat(n)) == n
  {
    var s := FromNat(n);
    if n >= 10 {
      ValueOfFromNat(n / 10);
      assert s[..|s| - 1] == FromNat(n / 10);
    }
  }

  /** A canonical numeral with more than one digit denotes at least 10. */
  lemma {:induction false} CanonicalValueLowerBound(s: string)
    requires Canonical(s)
    ensures Value(s) >= 1 || s == "0"
    ensures |s| > 1 ==> Value(s) >= 10
  {
    if |s| > 1 {
      var t := s[..|s| - 1];
      assert t[0] == s[0];
      CanonicalValueLowerBound(t);
      assert t != "0" by { assert t[0] != '0'; }
    } else {
      if s[0] != '0' {
        assert Value(s) == Value(s[..0]) * 10 + DigitValue(s[0]);
      } else {
        assert s == "0";
      }
    }
  }

  /** Every canonical numeral is the rendering of the number it denotes,
      so rendering is onto the canonical numerals. */
  lemma {:induction false} FromNatOfValue(s: string)
    requires Canonical(s)
    ensures FromNat(Value(s)) == s
  {
    if |s| == 1 {
      assert s == [DigitChar(DigitValue(s[0]))];
    } else {
      var t := s[..|s| - 1];
      assert t[0] == s[0];
      CanonicalValueLowerBound(s);
      FromNatOfValue(t);
      assert Value(s) / 10 == Value(t);
      assert Value(s) % 10 == DigitValue(s[|s| - 1]);
      assert s == t + [s[|s| - 1]];
    }
  }

  /** Distinct numbers render as distinct numerals. */
  lemma FromNatInjective(m: nat, n: nat)
    ensures FromNat(m) == FromNat(n) <==> m == n
  {
    if FromNat(m) == FromNat(n) {
      ValueOfFromNat(m);
      ValueOfFromNat(n);
    }
  }
}
