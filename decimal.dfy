/**
 * Decimal rendering of natural numbers, as JavaScript's `String(n)` and
 * template literals produce it. Identifiers, cache handles and memo keys in
 * the system are built from it; the lemmas here are what makes those keys
 * unambiguous.
 */
module Decimal {
  predicate IsDigit(c: char) {
    '0' <= c <= '9'
  }

  predicate AllDigits(s: string) {
    forall k :: 0 <= k < |s| ==> IsDigit(s[k])
  }

  function DigitChar(d: nat): (c: char)
    requires d < 10
    ensures IsDigit(c)
  {
    (d + '0' as int) as char
  }

  function DigitValue(c: char): (d: nat)
    requires IsDigit(c)
    ensures d < 10 && DigitChar(d) == c
  {
    c as int - '0' as int
  }

  /** `String(n)` for a non-negative integer: no sign, no leading zero. */
  function NatToString(n: nat): (s: string)
    ensures |s| > 0 && AllDigits(s)
    ensures s[0] == '0' ==> n == 0
  {
    if n < 10 then [DigitChar(n)] else NatToString(n / 10) + [DigitChar(n % 10)]
  }

  /** The value of a string of decimal digits (`Number(s)` on such strings; "" reads as 0). */
  function ParseDigits(s: string): nat
    requires AllDigits(s)
  {
    if |s| == 0 then 0 else ParseDigits(s[..|s| - 1]) * 10 + DigitValue(s[|s| - 1])
  }

  /** Reading back a rendered number gives the number. */
  lemma {:induction false} ParseNatToString(n: nat)
    ensures ParseDigits(NatToString(n)) == n
  {
    var s := NatToString(n);
    if n >= 10 {
      ParseNatToString(n / 10);
      assert s[..|s| - 1] == NatToString(n / 10);
    }
  }

  /** Distinct numbers render to distinct strings. */
  lemma NatToStringInjective(a: nat, b: nat)
    ensures NatToString(a) == NatToString(b) <==> a == b
  {
    if NatToString(a) == NatToString(b) {
      ParseNatToString(a);
      ParseNatToString(b);
    }
  }

  /**
   * A colon-free string followed by a colon can be split off unambiguously:
   * the first colon marks where it ends.
   */
  lemma {:induction false} ColonSplit(a: string, x: string, b: string, y: string)
    requires ':' !in a && ':' !in b
    ensures a + ":" + x == b + ":" + y <==> a == b && x == y
  {
    if a + ":" + x == b + ":" + y {
      var u := a + ":" + x;
      assert u[|a|] == ':' && u[|b|] == ':';
      assert forall k :: 0 <= k < |a| ==> u[k] == a[k] && u[k] in a;
      assert forall k :: 0 <= k < |b| ==> u[k] == b[k] && u[k] in b;
      assert a == u[..|a|];
      assert b == u[..|b|];
      assert x == u[|a| + 1..];
      assert y == u[|b| + 1..];
    }
  }

  /** A rendered number contains no colon. */
  lemma NatToStringColonFree(n: nat)
    ensures ':' !in NatToString(n)
  {
    var s := NatToString(n);
    assert forall k :: 0 <= k < |s| ==> IsDigit(s[k]);
  }

  /**
   * Keys of the form `${n}:${rest}` are unambiguous: the number and the
   * suffix can both be read back, because the number contributes no colon.
   */
  lemma ColonKeyInjective(a: nat, x: string, b: nat, y: string)
    ensures NatToString(a) + ":" + x == NatToString(b) + ":" + y <==> a == b && x == y
  {
    NatToStringColonFree(a);
    NatToStringColonFree(b);
    ColonSplit(NatToString(a), x, NatToString(b), y);
    NatToStringInjective(a, b);
  }
}
