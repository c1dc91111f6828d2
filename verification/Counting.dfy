/** Sums over per-thread shares, and division with remainder. */
module Counting {

  function Total(s: seq<int>): int {
    if s == [] then 0 else Total(s[..|s| - 1]) + s[|s| - 1]
  }

  /** Changing one share changes the total by the difference. */
  lemma {:induction false} TotalUpdate(s: seq<int>, i: nat, x: int)
    requires i < |s|
    ensures Total(s[i := x]) == Total(s) - s[i] + x
    decreases |s|
  {
    var n := |s| - 1;
    if i < n {
      TotalUpdate(s[..n], i, x);
      assert s[i := x][..n] == s[..n][i := x];
    } else {
      assert s[i := x][..n] == s[..n];
    }
  }

  /** A total of shares of at least 0 is at least each of them. */
  lemma {:induction false} TotalAtLeast(s: seq<int>)
    requires forall i | 0 <= i < |s| :: s[i] >= 0
    ensures Total(s) >= 0 && forall i | 0 <= i < |s| :: s[i] <= Total(s)
    decreases |s|
  {
    if s != [] {
      TotalAtLeast(s[..|s| - 1]);
      forall i | 0 <= i < |s| - 1 ensures s[i] <= Total(s) { assert s[i] == s[..|s| - 1][i]; }
    }
  }

  lemma {:induction false} TotalZero(s: seq<int>)
    requires forall i | 0 <= i < |s| :: s[i] == 0
    ensures Total(s) == 0
    decreases |s|
  {
    if s != [] { TotalZero(s[..|s| - 1]); }
  }

  /** Division with remainder has one result. */
  lemma QuotientUnique(cap: nat, q: nat, m: nat, q': nat, m': nat)
    requires m < cap && m' < cap && cap * q + m == cap * q' + m'
    ensures q == q' && m == m'
  {
    Scale(cap, q, q');
    Scale(cap, q', q);
  }

  lemma Scale(cap: nat, a: nat, b: nat)
    ensures a < b ==> cap * a + cap <= cap * b
  {
    if a < b { assert cap * b == cap * a + cap + cap * (b - a - 1); }
  }
}
