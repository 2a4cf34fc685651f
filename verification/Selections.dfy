/** Subsequences chosen by flags. */
module Selections {

  function Select<T>(xs: seq<T>, keep: seq<bool>): seq<T>
    requires |keep| == |xs|
  {
    if xs == [] then []
    else
      var n := |xs| - 1;
      Select(xs[..n], keep[..n]) + if keep[n] then [xs[n]] else []
  }

  /** How many of the first i flags are set: the place of element i among the selected. */
  function Place(keep: seq<bool>, i: nat): (p: nat)
    requires i <= |keep|
    ensures p <= i
  {
    if i == 0 then 0 else Place(keep, i - 1) + if keep[i - 1] then 1 else 0
  }

  lemma {:induction false} PlacePrefix(keep: seq<bool>, m: nat, i: nat)
    requires i <= m <= |keep|
    ensures Place(keep[..m], i) == Place(keep, i)
  {
    if i > 0 { PlacePrefix(keep, m, i - 1); }
  }

  lemma {:induction false} SelectLength<T>(xs: seq<T>, keep: seq<bool>)
    requires |keep| == |xs|
    ensures |Select(xs, keep)| == Place(keep, |keep|)
  {
    if xs != [] {
      var n := |xs| - 1;
      SelectLength(xs[..n], keep[..n]);
      PlacePrefix(keep, n, n);
    }
  }

  lemma {:induction false} PlaceGrows(keep: seq<bool>, i: nat, j: nat)
    requires i <= j <= |keep|
    ensures Place(keep, i) <= Place(keep, j)
    ensures i < j && keep[i] ==> Place(keep, i) < Place(keep, j)
  {
    if i < j { PlaceGrows(keep, i, j - 1); }
  }

  lemma {:induction false} SelectAt<T>(xs: seq<T>, keep: seq<bool>, i: nat)
    requires |keep| == |xs| && i < |xs| && keep[i]
    ensures Place(keep, i) < |Select(xs, keep)| && Select(xs, keep)[Place(keep, i)] == xs[i]
  {
    var n := |xs| - 1;
    SelectLength(xs[..n], keep[..n]);
    PlacePrefix(keep, n, i);
    PlacePrefix(keep, n, n);
    if i < n { SelectAt(xs[..n], keep[..n], i); }
  }

  lemma {:induction false} Origin(keep: seq<bool>, p: nat) returns (i: nat)
    requires p < Place(keep, |keep|)
    ensures i < |keep| && keep[i] && Place(keep, i) == p
  {
    i := OriginWithin(keep, |keep|, p);
  }

  lemma {:induction false} OriginWithin(keep: seq<bool>, n: nat, p: nat) returns (i: nat)
    requires n <= |keep| && p < Place(keep, n)
    ensures i < n && keep[i] && Place(keep, i) == p
  {
    if keep[n - 1] && Place(keep, n - 1) == p {
      i := n - 1;
    } else {
      i := OriginWithin(keep, n - 1, p);
    }
  }

  predicate Within(inner: seq<bool>, outer: seq<bool>) {
    |inner| == |outer| && forall i | 0 <= i < |inner| && inner[i] :: outer[i]
  }

  /** Selecting twice selects once. */
  lemma {:induction false} SelectTwice<T>(xs: seq<T>, keep: seq<bool>, flags: seq<bool>)
    requires |keep| == |xs| && Within(flags, keep)
    ensures |Select(flags, keep)| == |Select(xs, keep)|
    ensures Select(Select(xs, keep), Select(flags, keep)) == Select(xs, flags)
  {
    SelectLength(xs, keep);
    SelectLength(flags, keep);
    if xs != [] {
      var n := |xs| - 1;
      SelectLength(xs[..n], keep[..n]);
      SelectLength(flags[..n], keep[..n]);
      SelectTwice(xs[..n], keep[..n], flags[..n]);
      if keep[n] {
        Append(Select(xs[..n], keep[..n]), Select(flags[..n], keep[..n]), xs[n], flags[n]);
      } else {
        assert Select(xs, keep) == Select(xs[..n], keep[..n]);
        assert Select(flags, keep) == Select(flags[..n], keep[..n]);
      }
    }
  }

  lemma Append<T>(xs: seq<T>, keep: seq<bool>, x: T, k: bool)
    requires |keep| == |xs|
    ensures Select(xs + [x], keep + [k]) == Select(xs, keep) + if k then [x] else []
  {
    assert (xs + [x])[..|xs|] == xs && (keep + [k])[..|xs|] == keep;
  }

  lemma {:induction false} SelectAll<T>(xs: seq<T>, keep: seq<bool>)
    requires |keep| == |xs| && forall i | 0 <= i < |keep| :: keep[i]
    ensures Select(xs, keep) == xs
  {
    if xs != [] {
      SelectAll(xs[..|xs| - 1], keep[..|xs| - 1]);
    }
  }

  lemma {:induction false} SelectShorter<T>(xs: seq<T>, keep: seq<bool>)
    requires |keep| == |xs|
    ensures |Select(xs, keep)| <= |xs|
    ensures |Select(xs, keep)| == |xs| ==> Select(xs, keep) == xs && forall i | 0 <= i < |keep| :: keep[i]
  {
    if xs != [] {
      SelectShorter(xs[..|xs| - 1], keep[..|xs| - 1]);
    }
  }
}
