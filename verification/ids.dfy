/** Positional identifiers of phases and tasks: `phase-<i>` and
    `task-<i>-<j>`, where the numbers are rendered as a template literal
    renders a non-negative integer (shortest decimal, no leading zero). */
module Ids {

  predicate IsDigit(c: char) {
    '0' <= c <= '9'
  }

  predicate AllDigits(s: string) {
    forall k :: 0 <= k < |s| ==> IsDigit(s[k])
  }

  function DigitChar(d: nat): (c: char)
    requires d < 10
    ensures IsDigit(c)
  {
    ('0' as int + d) as char
  }

  /** Decimal rendering of a natural number. */
  function NatToString(n: nat): (s: string)
    ensures |s| > 0 && AllDigits(s)
    ensures |s| > 1 ==> s[0] != '0'
  {
    if n < 10 then [DigitChar(n)]
    else NatToString(n / 10) + [DigitChar(n % 10)]
  }

  /** The number a string of decimal digits denotes. */
  function DigitsValue(s: string): nat
    requires AllDigits(s)
  {
    if |s| == 0 then 0
    else DigitsValue(s[..|s| - 1]) * 10 + (s[|s| - 1] as int - '0' as int)
  }

  /** Reading back a rendered number gives the number. */
  lemma {:induction false} DigitsValueOfNatToString(n: nat)
    ensures DigitsValue(NatToString(n)) == n
  {
    if n >= 10 {
      var s := NatToString(n);
      assert s[..|s| - 1] == NatToString(n / 10);
      DigitsValueOfNatToString(n / 10);
    }
  }

  /** Distinct numbers are rendered as distinct strings. */
  lemma NatToStringInjective(m: nat, n: nat)
    ensures NatToString(m) == NatToString(n) ==> m == n
  {
    DigitsValueOfNatToString(m);
    DigitsValueOfNatToString(n);
  }

  /** `phase-${i}` */
  function PhaseId(i: nat): string {
    "phase-" + NatToString(i)
  }

  /** `task-${i}-${j}` */
  function TaskId(i: nat, j: nat): string {
    "task-" + NatToString(i) + "-" + NatToString(j)
  }

  /** When `c` holds no dash, a dash right after a shorter `a` cannot fall
      inside `c`. */
  lemma DashComesFirst(a: string, b: string, c: string, d: string)
    requires AllDigits(c)
    ensures |a| < |c| ==> a + "-" + b != c + "-" + d
  {
    if |a| < |c| {
      assert (a + "-" + b)[|a|] == '-';
      assert (c + "-" + d)[|a|] == c[|a|];
    }
  }

  /** Splitting `a + "-" + b` at its first dash recovers `a` and `b` when `a`
      holds no dash. */
  lemma SplitAtDash(a: string, b: string, c: string, d: string)
    requires AllDigits(a) && AllDigits(c)
    requires a + "-" + b == c + "-" + d
    ensures a == c && b == d
  {
    var s := a + "-" + b;
    DashComesFirst(a, b, c, d);
    DashComesFirst(c, d, a, b);
    assert a == s[..|a|] == c;
    assert b == s[|a| + 1..] == d;
  }

  /** Phase identifiers are pairwise distinct. */
  lemma PhaseIdInjective(i: nat, k: nat)
    ensures PhaseId(i) == PhaseId(k) ==> i == k
  {
    if PhaseId(i) == PhaseId(k) {
      assert NatToString(i) == PhaseId(i)[6..] == PhaseId(k)[6..] == NatToString(k);
      NatToStringInjective(i, k);
    }
  }

  /** Task identifiers are pairwise distinct. */
  lemma TaskIdInjective(i: nat, j: nat, k: nat, l: nat)
    ensures TaskId(i, j) == TaskId(k, l) ==> i == k && j == l
  {
    if TaskId(i, j) == TaskId(k, l) {
      var a, b, c, d := NatToString(i), NatToString(j), NatToString(k), NatToString(l);
      assert a + "-" + b == TaskId(i, j)[5..] == TaskId(k, l)[5..] == c + "-" + d;
      SplitAtDash(a, b, c, d);
      NatToStringInjective(i, k);
      NatToStringInjective(j, l);
    }
  }

  /** No phase identifier is a task identifier. */
  lemma PhaseIdIsNotTaskId(i: nat, k: nat, l: nat)
    ensures PhaseId(i) != TaskId(k, l)
  {
    assert PhaseId(i)[0] == 'p' && TaskId(k, l)[0] == 't';
  }
}
