/** Finite sums over sequences of integers. */
module Sums {

  ghost function Total(shares: seq<int>): int {
    if shares == [] then 0 else Total(shares[..|shares| - 1]) + shares[|shares| - 1]
  }

  lemma {:induction false} TotalConcat(a: seq<int>, b: seq<int>)
    ensures Total(a + b) == Total(a) + Total(b)
  {
    if b == [] {
      assert a + b == a;
    } else {
      assert (a + b)[..|a + b| - 1] == a + b[..|b| - 1];
      TotalConcat(a, b[..|b| - 1]);
    }
  }

  lemma TotalMiddle(front: seq<int>, x: int, back: seq<int>)
    ensures Total(front + [x] + back) == Total(front + back) + x
  {
    TotalConcat(front + [x], back);
    TotalConcat(front, back);
    assert (front + [x])[..|front|] == front;
  }

  lemma Middle(shares: seq<int>, i: nat)
    requires i < |shares|
    ensures shares == shares[..i] + [shares[i]] + shares[i + 1..]
  {
  }

  lemma TotalSplit(shares: seq<int>, i: nat)
    requires i < |shares|
    ensures Total(shares) == Total(shares[..i] + shares[i + 1..]) + shares[i]
  {
    Middle(shares, i);
    TotalMiddle(shares[..i], shares[i], shares[i + 1..]);
  }

  lemma TotalUpdate(shares: seq<int>, i: nat, x: int)
    requires i < |shares|
    ensures Total(shares[i := x]) == Total(shares) - shares[i] + x
  {
    TotalSplit(shares, i);
    TotalSplit(shares[i := x], i);
    assert shares[i := x][..i] + shares[i := x][i + 1..] == shares[..i] + shares[i + 1..];
  }

  lemma {:induction false} TotalAtLeast(shares: seq<int>, i: nat)
    requires i < |shares| && forall j | 0 <= j < |shares| :: shares[j] >= 0
    ensures Total(shares) >= shares[i]
  {
    if i < |shares| - 1 {
      TotalAtLeast(shares[..|shares| - 1], i);
    } else if |shares| > 1 {
      TotalAtLeast(shares[..|shares| - 1], 0);
    }
  }

  lemma {:induction false} TotalAtMost(a: seq<int>, b: seq<int>)
    requires |a| == |b| && forall i | 0 <= i < |a| :: a[i] <= b[i]
    ensures Total(a) <= Total(b)
  {
    if a != [] { TotalAtMost(a[..|a| - 1], b[..|b| - 1]); }
  }
}
