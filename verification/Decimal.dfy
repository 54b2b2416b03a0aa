/** Go's `%d`, and why names and keys built with it can be taken apart again. */
module Decimal {

  function Digit(d: nat): char
    requires d < 10
  {
    '0' + d as char
  }

  function OfNat(n: nat): string {
    if n < 10 then [Digit(n)] else OfNat(n / 10) + [Digit(n % 10)]
  }

  function OfInt(n: int): string {
    if n < 0 then "-" + OfNat(-n) else OfNat(n)
  }

  predicate AllDigits(s: string) {
    forall i | 0 <= i < |s| :: '0' <= s[i] <= '9'
  }

  /** Reads a string of digits. */
  function Value(s: string): int {
    if s == "" then 0 else 10 * Value(s[..|s| - 1]) + (s[|s| - 1] as int - '0' as int)
  }

  lemma {:induction false} ValueOfNat(n: nat)
    ensures Value(OfNat(n)) == n && AllDigits(OfNat(n)) && OfNat(n) != ""
  {
    var s := OfNat(n);
    if n < 10 {
      assert s[..0] == "";
    } else {
      ValueOfNat(n / 10);
      assert s[..|s| - 1] == OfNat(n / 10);
    }
  }

  /** Different numbers print differently, with digits and a minus sign only. */
  lemma OfIntInjective(m: int, n: int)
    ensures OfInt(m) == OfInt(n) ==> m == n
    ensures forall i | 0 <= i < |OfInt(n)| :: OfInt(n)[i] == '-' || '0' <= OfInt(n)[i] <= '9'
  {
    ValueOfNat(if m < 0 then -m else m);
    ValueOfNat(if n < 0 then -n else n);
    if OfInt(m) == OfInt(n) {
      assert OfInt(m)[0] == OfInt(n)[0];
      if m < 0 && n < 0 {
        assert OfInt(m)[1..] == OfNat(-m) && OfInt(n)[1..] == OfNat(-n);
      }
    }
  }

  predicate Free(s: string, c: char) {
    forall i | 0 <= i < |s| :: s[i] != c
  }

  lemma PrintedFree(n: int, c: char)
    requires c != '-' && !('0' <= c <= '9')
    ensures Free(OfInt(n), c)
  {
    OfIntInjective(n, n);
  }

  /** What follows the last separator, and what precedes it, are determined by the whole. */
  lemma LastSeparator(a: string, t: string, b: string, u: string, c: char)
    requires Free(t, c) && Free(u, c)
    requires a + [c] + t == b + [c] + u
    ensures a == b && t == u
  {
    var whole := a + [c] + t;
    assert whole[|a|] == c && whole[|b|] == c;
    assert forall i | |a| < i < |whole| :: whole[i] == t[i - |a| - 1];
    assert forall i | |b| < i < |whole| :: whole[i] == u[i - |b| - 1];
    assert |a| == |b|;
    assert whole[..|a|] == a && whole[..|a|] == b;
    assert whole[|a| + 1..] == t && whole[|a| + 1..] == u;
  }

  /** What precedes the first separator, and what follows it, are determined by the whole. */
  lemma FirstSeparator(a: string, t: string, b: string, u: string, c: char)
    requires Free(a, c) && Free(b, c)
    requires a + [c] + t == b + [c] + u
    ensures a == b && t == u
  {
    var whole := a + [c] + t;
    assert whole[|a|] == c && whole[|b|] == c;
    assert forall i | 0 <= i < |a| :: whole[i] == a[i];
    assert forall i | 0 <= i < |b| :: whole[i] == b[i];
    assert |a| == |b|;
    assert whole[..|a|] == a && whole[..|a|] == b;
    assert whole[|a| + 1..] == t && whole[|a| + 1..] == u;
  }
}
