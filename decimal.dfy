/** Decimal rendering of integers, as used to build the indexed userCand keys
    `label + str(n)`. */
module Decimal {

  predicate IsDigit(c: char) {
    '0' <= c <= '9'
  }

  function DigitChar(d: nat): (c: char)
    requires d < 10
    ensures IsDigit(c)
  {
    (48 + d) as char
  }

  /** Decimal digits of `n`, most significant first, without leading zeros. */
  function NatToString(n: nat): (s: string)
    ensures 1 <= |s|
    ensures (n < 10) == (|s| == 1)
    ensures forall k :: 0 <= k < |s| ==> IsDigit(s[k])
    decreases n
  {
    if n < 10 then [DigitChar(n)] else NatToString(n / 10) + [DigitChar(n % 10)]
  }

  /** Decimal rendering of a (possibly negative) integer, with a leading '-'. */
  function IntToString(i: int): (s: string)
    ensures 1 <= |s|
    ensures (i < 0) == (s[0] == '-')
  {
    if i < 0 then "-" + NatToString(-i) else NatToString(i)
  }

  /** Different numbers never render to the same digits. */
  lemma {:induction false} NatToStringInjective(a: nat, b: nat)
    requires NatToString(a) == NatToString(b)
    ensures a == b
  {
    var sa, sb := NatToString(a), NatToString(b);
    if a < 10 || b < 10 {
      assert |sa| == 1 && |sb| == 1;
      assert a < 10 && b < 10;
      assert sa[0] == DigitChar(a) && sb[0] == DigitChar(b);
    } else {
      var pa, pb := NatToString(a / 10), NatToString(b / 10);
      assert sa == pa + [DigitChar(a % 10)];
      assert sb == pb + [DigitChar(b % 10)];
      assert |pa| == |pb|;
      assert pa == sa[..|sa| - 1] && pb == sb[..|sb| - 1];
      assert DigitChar(a % 10) == sa[|sa| - 1] == DigitChar(b % 10);
      NatToStringInjective(a / 10, b / 10);
    }
  }

  lemma IntToStringInjective(a: int, b: int)
    requires IntToString(a) == IntToString(b)
    ensures a == b
  {
    if a < 0 && b < 0 {
      assert NatToString(-a) == IntToString(a)[1..] == IntToString(b)[1..] == NatToString(-b);
      NatToStringInjective(-a, -b);
    } else if a >= 0 && b >= 0 {
      NatToStringInjective(a, b);
    }
  }

  /** Keys `prefix + str(a)` and `prefix + str(b)` coincide only when `a == b`. */
  lemma SuffixedInjective(prefix: string, a: int, b: int)
    requires prefix + IntToString(a) == prefix + IntToString(b)
    ensures a == b
  {
    assert IntToString(a) == (prefix + IntToString(a))[|prefix|..];
    assert IntToString(b) == (prefix + IntToString(b))[|prefix|..];
    IntToStringInjective(a, b);
  }
}
