/** Half-open activity spans in milliseconds and their merging (internal/proxytelemetry/quota.go).

    A list of spans stands for the set of instants it covers.  `Merge` is the canonical list for
    that set: everything the quota ledger proves about arrival order rests on `SeparatedUnique`. */
module Spans {
  import opened Base

  datatype Span = Span(from: int, to: int)

  predicate Proper(spans: seq<Span>) {
    forall i | 0 <= i < |spans| :: spans[i].from < spans[i].to
  }

  predicate SortedByStart(spans: seq<Span>) {
    forall i, j | 0 <= i < j < |spans| :: spans[i].from <= spans[j].from
  }

  /** Sorted, and with a gap between any two spans. */
  predicate Separated(spans: seq<Span>) {
    && Proper(spans)
    && forall i, j | 0 <= i < j < |spans| :: spans[i].to < spans[j].from
  }

  predicate Within(t: int, span: Span) { span.from <= t < span.to }

  ghost function Range(span: Span): set<int> {
    set t | span.from <= t < span.to && Within(t, span)
  }

  /** The instants covered by a list of spans, whatever its order and overlaps. */
  ghost function Instants(spans: seq<Span>): set<int> {
    if spans == [] then {} else Instants(spans[..|spans| - 1]) + Range(spans[|spans| - 1])
  }

  function Length(spans: seq<Span>): int {
    if spans == [] then 0
    else Length(spans[..|spans| - 1]) + spans[|spans| - 1].to - spans[|spans| - 1].from
  }

  lemma {:induction false} InInstants(spans: seq<Span>, t: int)
    ensures t in Instants(spans) <==> exists i :: 0 <= i < |spans| && spans[i].from <= t < spans[i].to
  {
    if spans != [] {
      var front := spans[..|spans| - 1];
      InInstants(front, t);
      if t in Instants(front) {
        var i :| 0 <= i < |front| && front[i].from <= t < front[i].to;
        assert spans[i].from <= t < spans[i].to;
      }
      if i :| 0 <= i < |spans| && spans[i].from <= t < spans[i].to {
        assert i < |front| ==> front[i] == spans[i];
      }
    }
  }

  lemma {:induction false} InstantsConcat(a: seq<Span>, b: seq<Span>)
    ensures Instants(a + b) == Instants(a) + Instants(b)
  {
    if b == [] {
      assert a + b == a;
    } else {
      assert (a + b)[..|a + b| - 1] == a + b[..|b| - 1];
      InstantsConcat(a, b[..|b| - 1]);
    }
  }

  // Sorting by start: the library call of the source, as insertion sort.

  function Insert(sorted: seq<Span>, span: Span): (r: seq<Span>) {
    if sorted == [] || sorted[|sorted| - 1].from <= span.from then sorted + [span]
    else Insert(sorted[..|sorted| - 1], span) + [sorted[|sorted| - 1]]
  }

  function SortByStart(spans: seq<Span>): (r: seq<Span>) {
    if spans == [] then [] else Insert(SortByStart(spans[..|spans| - 1]), spans[|spans| - 1])
  }

  lemma {:induction false} InsertElements(sorted: seq<Span>, span: Span)
    ensures forall x :: x in Insert(sorted, span) <==> x in sorted || x == span
  {
    if !(sorted == [] || sorted[|sorted| - 1].from <= span.from) {
      InsertElements(sorted[..|sorted| - 1], span);
      assert sorted == sorted[..|sorted| - 1] + [sorted[|sorted| - 1]];
    }
  }

  lemma {:induction false} InsertInstants(sorted: seq<Span>, span: Span)
    ensures Instants(Insert(sorted, span)) == Instants(sorted) + Range(span)
  {
    var r := Insert(sorted, span);
    if sorted == [] || sorted[|sorted| - 1].from <= span.from {
      assert r[..|r| - 1] == sorted;
    } else {
      InsertInstants(sorted[..|sorted| - 1], span);
      assert r[..|r| - 1] == Insert(sorted[..|sorted| - 1], span);
    }
  }

  lemma {:induction false} InsertSorted(sorted: seq<Span>, span: Span)
    requires SortedByStart(sorted)
    ensures SortedByStart(Insert(sorted, span))
  {
    if !(sorted == [] || sorted[|sorted| - 1].from <= span.from) {
      var front, last := sorted[..|sorted| - 1], sorted[|sorted| - 1];
      InsertSorted(front, span);
      InsertElements(front, span);
      var inner := Insert(front, span);
      forall i | 0 <= i < |inner| ensures inner[i].from <= last.from {
        assert inner[i] in inner;
      }
    }
  }

  lemma {:induction false} SortKeeps(spans: seq<Span>)
    ensures SortedByStart(SortByStart(spans))
    ensures Instants(SortByStart(spans)) == Instants(spans)
    ensures forall x :: x in SortByStart(spans) <==> x in spans
  {
    if spans != [] {
      var front, last := spans[..|spans| - 1], spans[|spans| - 1];
      assert spans == front + [last];
      SortKeeps(front);
      InsertSorted(SortByStart(front), last);
      InsertInstants(SortByStart(front), last);
      InsertElements(SortByStart(front), last);
    }
  }

  // Merging.

  /** One step of the merging loop: extend the last span or open a new one. */
  function Absorb(merged: seq<Span>, span: Span): seq<Span> {
    if merged != [] && span.from <= merged[|merged| - 1].to then
      merged[|merged| - 1 := Span(merged[|merged| - 1].from, Max(merged[|merged| - 1].to, span.to))]
    else
      merged + [span]
  }

  function AbsorbAll(spans: seq<Span>): seq<Span> {
    if spans == [] then [] else Absorb(AbsorbAll(spans[..|spans| - 1]), spans[|spans| - 1])
  }

  function Merge(spans: seq<Span>): seq<Span> {
    AbsorbAll(SortByStart(spans))
  }

  lemma AbsorbKeeps(merged: seq<Span>, span: Span)
    requires Separated(merged) && span.from < span.to
    requires merged != [] ==> merged[|merged| - 1].from <= span.from
    ensures Separated(Absorb(merged, span))
    ensures Instants(Absorb(merged, span)) == Instants(merged) + Range(span)
    ensures var r := Absorb(merged, span); r != [] && r[|r| - 1].from <= span.from
  {
    var next := Absorb(merged, span);
    if merged != [] && span.from <= merged[|merged| - 1].to {
      var front, last := merged[..|merged| - 1], merged[|merged| - 1];
      assert next[..|next| - 1] == front;
      assert Range(next[|next| - 1]) == Range(last) + Range(span);
    } else {
      assert next[..|next| - 1] == merged;
    }
  }

  lemma {:induction false} AbsorbAllKeeps(spans: seq<Span>)
    requires Proper(spans) && SortedByStart(spans)
    ensures Separated(AbsorbAll(spans))
    ensures Instants(AbsorbAll(spans)) == Instants(spans)
    ensures var r := AbsorbAll(spans);
            r != [] ==> spans != [] && r[|r| - 1].from <= spans[|spans| - 1].from
  {
    if spans != [] {
      AbsorbAllKeeps(spans[..|spans| - 1]);
      AbsorbKeeps(AbsorbAll(spans[..|spans| - 1]), spans[|spans| - 1]);
    }
  }

  lemma MergeCanonical(spans: seq<Span>)
    requires Proper(spans)
    ensures Separated(Merge(spans))
    ensures Instants(Merge(spans)) == Instants(spans)
  {
    SortKeeps(spans);
    var sorted := SortByStart(spans);
    assert Proper(sorted) by {
      forall i | 0 <= i < |sorted| ensures sorted[i].from < sorted[i].to { assert sorted[i] in spans; }
    }
    AbsorbAllKeeps(sorted);
  }

  // Separated lists are canonical: a covered set has exactly one.

  lemma LastSpan(spans: seq<Span>)
    requires Separated(spans) && spans != []
    ensures var last, front := spans[|spans| - 1], Instants(spans[..|spans| - 1]);
            && Instants(spans) == front + Range(last)
            && last.from in Instants(spans)
            && (forall t | t in front :: t < last.from - 1)
  {
    var last, front := spans[|spans| - 1], spans[..|spans| - 1];
    forall t | t in Instants(front) ensures t < last.from - 1 {
      InInstants(front, t);
      var i :| 0 <= i < |front| && front[i].from <= t < front[i].to;
      assert spans[i].to < last.from;
    }
  }

  /** If a set splits as lower part, gap, last range, the range and the lower part are determined. */
  lemma SplitUnique(s: set<int>, front: set<int>, last: Span, front': set<int>, last': Span)
    requires last.from < last.to && last'.from < last'.to
    requires s == front + Range(last) == front' + Range(last')
    requires (forall t | t in front :: t < last.from - 1) && (forall t | t in front' :: t < last'.from - 1)
    ensures last == last' && front == front'
  {
    assert last.to - 1 in s && last'.to - 1 in s;
    assert last.from in s && last'.from in s;
    assert last.from - 1 !in s && last'.from - 1 !in s;
    assert last.from < last'.from ==> last'.from - 1 in Range(last);
    assert last'.from < last.from ==> last.from - 1 in Range(last');
  }

  lemma SameLast(a: seq<Span>, b: seq<Span>)
    requires Separated(a) && Separated(b) && a != [] && b != []
    requires Instants(a) == Instants(b)
    ensures a[|a| - 1] == b[|b| - 1]
    ensures Instants(a[..|a| - 1]) == Instants(b[..|b| - 1])
  {
    LastSpan(a);
    LastSpan(b);
    SplitUnique(Instants(a), Instants(a[..|a| - 1]), a[|a| - 1], Instants(b[..|b| - 1]), b[|b| - 1]);
  }

  lemma {:induction false} SeparatedUnique(a: seq<Span>, b: seq<Span>)
    requires Separated(a) && Separated(b)
    requires Instants(a) == Instants(b)
    ensures a == b
  {
    if a != [] && b != [] {
      SameLast(a, b);
      SeparatedUnique(a[..|a| - 1], b[..|b| - 1]);
      assert a == a[..|a| - 1] + [a[|a| - 1]];
      assert b == b[..|b| - 1] + [b[|b| - 1]];
    } else if a != [] {
      LastSpan(a);
    } else if b != [] {
      LastSpan(b);
    }
  }

  /** Merging depends on the covered instants only, not on the order or grouping of the spans. */
  lemma MergeDependsOnInstants(a: seq<Span>, b: seq<Span>)
    requires Proper(a) && Proper(b)
    ensures Merge(a) == Merge(b) <==> Instants(a) == Instants(b)
  {
    MergeCanonical(a);
    MergeCanonical(b);
    if Instants(a) == Instants(b) { SeparatedUnique(Merge(a), Merge(b)); }
  }

  // Measure.

  lemma {:induction false} RangeSize(span: Span)
    requires span.from <= span.to
    ensures |Range(span)| == span.to - span.from
    decreases span.to - span.from
  {
    if span.from < span.to {
      var shorter := Span(span.from, span.to - 1);
      RangeSize(shorter);
      assert Range(span) == Range(shorter) + {span.to - 1};
    } else {
      assert Range(span) == {};
    }
  }

  lemma {:induction false} SeparatedMeasure(spans: seq<Span>)
    requires Separated(spans)
    ensures Length(spans) == |Instants(spans)|
  {
    if spans != [] {
      var front, last := spans[..|spans| - 1], spans[|spans| - 1];
      SeparatedMeasure(front);
      LastSpan(spans);
      RangeSize(last);
      assert Instants(front) !! Range(last);
    }
  }

  /** The summed length of the merged spans is the measure of the union of the given ones. */
  lemma MergeMeasure(spans: seq<Span>)
    requires Proper(spans)
    ensures Length(Merge(spans)) == |Instants(spans)|
  {
    MergeCanonical(spans);
    SeparatedMeasure(Merge(spans));
  }

  lemma SubsetSize(a: set<int>, b: set<int>)
    requires a <= b
    ensures |a| <= |b|
    ensures |a| == |b| ==> a == b
  {
    assert b == a + (b - a);
  }

  /** Adding a span to an already merged list loses nothing of what the list was merged from. */
  lemma MergeAppend(spans: seq<Span>, span: Span)
    requires Proper(spans) && span.from < span.to
    ensures Proper(Merge(spans) + [span])
    ensures Merge(Merge(spans) + [span]) == Merge(spans + [span])
  {
    MergeCanonical(spans);
    InstantsConcat(Merge(spans), [span]);
    InstantsConcat(spans, [span]);
    MergeDependsOnInstants(Merge(spans) + [span], spans + [span]);
  }

  lemma MergeGrows(spans: seq<Span>, span: Span)
    requires Separated(spans) && span.from < span.to
    ensures Separated(Merge(spans + [span]))
    ensures 0 <= Length(spans) <= Length(Merge(spans + [span]))
    ensures Length(spans) == Length(Merge(spans + [span])) ==> Merge(spans + [span]) == spans
  {
    var more := spans + [span];
    MergeCanonical(more);
    MergeMeasure(more);
    SeparatedMeasure(spans);
    InstantsConcat(spans, [span]);
    SubsetSize(Instants(spans), Instants(more));
    if |Instants(spans)| == |Instants(more)| {
      SeparatedUnique(Merge(more), spans);
    }
  }

  lemma InstantsWithin(spans: seq<Span>, lo: int, hi: int)
    requires lo <= hi && Proper(spans)
    requires forall i | 0 <= i < |spans| :: lo <= spans[i].from && spans[i].to <= hi
    ensures Length(Merge(spans)) <= hi - lo
  {
    MergeMeasure(spans);
    RangeSize(Span(lo, hi));
    forall t | t in Instants(spans) ensures t in Range(Span(lo, hi)) { InInstants(spans, t); }
    SubsetSize(Instants(spans), Range(Span(lo, hi)));
  }

  method MergeSpans(spans: seq<Span>) returns (merged: seq<Span>)
    requires Proper(spans)
    ensures merged == Merge(spans)
    ensures Separated(merged) && Instants(merged) == Instants(spans)
  {
    var sorted := SortByStart(spans);
    merged := [];
    for i := 0 to |sorted|
      invariant merged == AbsorbAll(sorted[..i])
    {
      assert sorted[..i + 1][..i] == sorted[..i];
      var span := sorted[i];
      if |merged| > 0 && span.from <= merged[|merged| - 1].to {
        merged := merged[|merged| - 1 := Span(merged[|merged| - 1].from, Max(merged[|merged| - 1].to, span.to))];
      } else {
        merged := merged + [span];
      }
    }
    assert sorted[..|sorted|] == sorted;
    MergeCanonical(spans);
  }
}
