/** Sums of integer sequences. */
module Sums {
  /** The sum of the first n elements. */
  function SumTo(s: seq<int>, n: nat): int
    requires n <= |s|
  {
    if n == 0 then 0 else SumTo(s, n - 1) + s[n - 1]
  }

  function Sum(s: seq<int>): int {
    SumTo(s, |s|)
  }

  lemma {:induction false} SamePrefix(s: seq<int>, t: seq<int>, n: nat)
    requires n <= |s| && n <= |t| && forall i :: 0 <= i < n ==> s[i] == t[i]
    ensures SumTo(s, n) == SumTo(t, n)
  {
    if n > 0 {
      SamePrefix(s, t, n - 1);
    }
  }

  lemma SumAppend(s: seq<int>, x: int)
    ensures Sum(s + [x]) == Sum(s) + x
  {
    SamePrefix(s + [x], s, |s|);
  }

  lemma {:induction false} SumToUpdate(s: seq<int>, i: nat, x: int, n: nat)
    requires i < n <= |s|
    ensures SumTo(s[i := x], n) == SumTo(s, n) - s[i] + x
  {
    if i < n - 1 {
      SumToUpdate(s, i, x, n - 1);
    } else {
      SamePrefix(s[i := x], s, n - 1);
    }
  }

  lemma SumUpdate(s: seq<int>, i: nat, x: int)
    requires i < |s|
    ensures Sum(s[i := x]) == Sum(s) - s[i] + x
  {
    SumToUpdate(s, i, x, |s|);
  }

  lemma {:induction false} SumToOfSums(a: seq<int>, b: seq<int>, c: seq<int>, n: nat)
    requires n <= |a| == |b| == |c| && forall i :: 0 <= i < n ==> c[i] == a[i] + b[i]
    ensures SumTo(c, n) == SumTo(a, n) + SumTo(b, n)
  {
    if n > 0 {
      SumToOfSums(a, b, c, n - 1);
    }
  }

  lemma SumOfSums(a: seq<int>, b: seq<int>, c: seq<int>)
    requires |a| == |b| == |c| && forall i :: 0 <= i < |a| ==> c[i] == a[i] + b[i]
    ensures Sum(c) == Sum(a) + Sum(b)
  {
    SumToOfSums(a, b, c, |a|);
  }

  lemma {:induction false} SumToMonotone(a: seq<int>, b: seq<int>, n: nat)
    requires n <= |a| == |b| && forall i :: 0 <= i < n ==> a[i] <= b[i]
    ensures SumTo(a, n) <= SumTo(b, n)
  {
    if n > 0 {
      SumToMonotone(a, b, n - 1);
    }
  }

  lemma SumMonotone(a: seq<int>, b: seq<int>)
    requires |a| == |b| && forall i :: 0 <= i < |a| ==> a[i] <= b[i]
    ensures Sum(a) <= Sum(b)
  {
    SumToMonotone(a, b, |a|);
  }

  lemma {:induction false} SumToZero(s: seq<int>, n: nat)
    requires n <= |s| && forall i :: 0 <= i < n ==> s[i] == 0
    ensures SumTo(s, n) == 0
  {
    if n > 0 {
      SumToZero(s, n - 1);
    }
  }

  lemma SumZero(s: seq<int>)
    requires forall i :: 0 <= i < |s| ==> s[i] == 0
    ensures Sum(s) == 0
  {
    SumToZero(s, |s|);
  }

  lemma {:induction false} SumToRises(s: seq<int>, k: nat, n: nat)
    requires k <= n <= |s| && forall i :: 0 <= i < |s| ==> s[i] >= 0
    ensures 0 <= SumTo(s, k) <= SumTo(s, n)
    decreases n
  {
    if k < n {
      SumToRises(s, k, n - 1);
    } else if n > 0 {
      SumToRises(s, n - 1, n - 1);
    }
  }

  /** No element exceeds the sum of elements that are not negative. */
  lemma ElementAtMostSum(s: seq<int>, i: nat)
    requires i < |s| && forall k :: 0 <= k < |s| ==> s[k] >= 0
    ensures s[i] <= Sum(s)
  {
    SumToRises(s, i, i);
    SumToRises(s, i + 1, |s|);
  }
}
