/** Substrings and decimal numerals, as the source language's strings have them. */
module Texts {
  predicate IsDigit(c: char) { '0' <= c <= '9' }

  predicate OccursAt(s: string, t: string, k: int) { 0 <= k <= |t| - |s| && t[k..k + |s|] == s }

  /** `t.includes(s)`. */
  predicate Occurs(s: string, t: string) { exists k :: 0 <= k <= |t| && OccursAt(s, t, k) }

  /** Character by character, so also where the same characters stand elsewhere. */
  lemma OccursElsewhere(s: string, t: string, k: int, u: string, j: int)
    requires OccursAt(s, t, k) && 0 <= j <= |u| - |s|
    requires forall i :: k <= i < k + |s| ==> t[i] == u[i - k + j]
    ensures OccursAt(s, u, j)
  {
    forall i | 0 <= i < |s| ensures u[j..j + |s|][i] == s[i] {
      assert t[k..k + |s|][i] == t[k + i];
    }
  }

  lemma FirstCharacter(s: string, t: string, k: int)
    requires s != "" && OccursAt(s, t, k)
    ensures t[k] == s[0]
  {
    assert t[k..k + |s|][0] == t[k];
  }

  lemma OccursInside(s: string, a: string, b: string, c: string)
    requires Occurs(s, b)
    ensures Occurs(s, a + b + c)
  {
    var k :| 0 <= k <= |b| && OccursAt(s, b, k);
    OccursElsewhere(s, b, k, a + b + c, |a| + k);
  }

  /** The numeral of a natural number, as a template string prints it. */
  function Decimal(n: nat): (s: string)
    ensures s != "" && forall k :: 0 <= k < |s| ==> IsDigit(s[k])
  {
    var digit := ('0' as int + n % 10) as char;
    if n < 10 then [digit] else Decimal(n / 10) + [digit]
  }

  function DecimalValue(s: string): nat
    requires forall k :: 0 <= k < |s| ==> IsDigit(s[k])
  {
    if s == "" then 0
    else
      assert IsDigit(s[|s| - 1]);
      10 * DecimalValue(s[..|s| - 1]) + (s[|s| - 1] as int - '0' as int)
  }

  lemma {:induction false} DecimalRoundTrip(n: nat)
    ensures DecimalValue(Decimal(n)) == n
  {
    var s := Decimal(n);
    if n >= 10 {
      DecimalRoundTrip(n / 10);
      assert s[..|s| - 1] == Decimal(n / 10);
    } else {
      assert s[..|s| - 1] == "";
    }
  }
}
