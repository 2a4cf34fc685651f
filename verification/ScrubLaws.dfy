/** What scrubbing never touches, and what exactly it removes. */
module ScrubLaws {
  import opened Base
  import opened Selections
  import opened Scrub

  // Protection depends on headers only and survives every selection that keeps protected items.

  datatype Header = Header(kind: Kind, role: Role, call: Option<CallId>)

  function HeaderOf(item: Item): Header { Header(item.kind, item.role, item.call) }

  predicate SameHeaders(a: seq<Item>, b: seq<Item>) {
    |a| == |b| && forall i | 0 <= i < |a| :: HeaderOf(a[i]) == HeaderOf(b[i])
  }

  lemma TailSame(a: seq<Item>, b: seq<Item>, i: int)
    requires SameHeaders(a, b)
    ensures InTail(a, i) == InTail(b, i)
  {
    forall mark ensures Has(a, mark) == Has(b, mark) && After(a, i, mark) == After(b, i, mark) {
      forall j | 0 <= j < |a| ensures Bears(a[j], mark) == Bears(b[j], mark) {
        assert HeaderOf(a[j]) == HeaderOf(b[j]);
      }
    }
  }

  lemma FlagsSame(a: seq<Item>, b: seq<Item>)
    requires SameHeaders(a, b)
    ensures Flags(a) == Flags(b)
  {
    hide InTail;
    forall i | 0 <= i < |a| ensures Anchored(a, i) == Anchored(b, i) {
      TailSame(a, b, i);
      assert HeaderOf(a[i]) == HeaderOf(b[i]);
    }
    forall i | 0 <= i < |a| ensures Protected(a, i) == Protected(b, i) {
      forall j | 0 <= j < |a| ensures Linked(a, i, j) == Linked(b, i, j) {
        assert HeaderOf(a[i]) == HeaderOf(b[i]) && HeaderOf(a[j]) == HeaderOf(b[j]);
      }
    }
  }

  lemma {:induction false} LastWithin(items: seq<Item>, n: nat, mark: Mark) returns (last: nat)
    requires n <= |items| && exists j | 0 <= j < n :: Bears(items[j], mark)
    ensures last < n && Bears(items[last], mark) && forall j | last < j < n :: !Bears(items[j], mark)
  {
    if Bears(items[n - 1], mark) {
      last := n - 1;
    } else {
      last := LastWithin(items, n - 1, mark);
    }
  }

  /** The last marked item is protected. */
  lemma LastOf(items: seq<Item>, mark: Mark) returns (last: nat)
    requires Has(items, mark)
    ensures last < |items| && Bears(items[last], mark) && !After(items, last, mark)
    ensures Protected(items, last)
  {
    last := LastWithin(items, |items|, mark);
    assert InTail(items, last) by { assert Has(items, mark) && !After(items, last, mark); }
  }

  /** A selection that keeps every protected item. */
  predicate Keeps(items: seq<Item>, keep: seq<bool>) { Within(Flags(items), keep) }

  lemma {:induction false} MarkKept(items: seq<Item>, keep: seq<bool>, i: nat, mark: Mark)
    requires Keeps(items, keep) && i < |items| && keep[i]
    ensures Has(Select(items, keep), mark) == Has(items, mark)
    ensures After(Select(items, keep), Place(keep, i), mark) == After(items, i, mark)
  {
    var few := Select(items, keep);
    SelectLength(items, keep);
    if p :| 0 <= p < |few| && Bears(few[p], mark) {
      var o := Origin(keep, p);
      SelectAt(items, keep, o);
      assert Bears(items[o], mark);
    }
    if Has(items, mark) {
      var last := LastOf(items, mark);
      assert Flags(items)[last];
      SelectAt(items, keep, last);
      assert Bears(few[Place(keep, last)], mark);
      if After(items, i, mark) {
        PlaceGrows(keep, i, last);
      }
    }
    if p :| 0 <= p < |few| && Place(keep, i) < p && Bears(few[p], mark) {
      var o := Origin(keep, p);
      SelectAt(items, keep, o);
      if o <= i { PlaceGrows(keep, o, i); }
      assert Bears(items[o], mark);
    }
  }

  lemma AnchoredKept(items: seq<Item>, keep: seq<bool>, i: nat)
    requires Keeps(items, keep) && i < |items| && keep[i]
    ensures Place(keep, i) < |Select(items, keep)|
    ensures Anchored(Select(items, keep), Place(keep, i)) == Anchored(items, i)
  {
    hide After, Has;
    SelectAt(items, keep, i);
    MarkKept(items, keep, i, UserMark);
    MarkKept(items, keep, i, CompactionMark);
  }

  lemma ProtectedKept(items: seq<Item>, keep: seq<bool>, i: nat)
    requires Keeps(items, keep) && i < |items| && keep[i]
    ensures Place(keep, i) < |Select(items, keep)|
    ensures Protected(Select(items, keep), Place(keep, i)) == Protected(items, i)
  {
    hide Anchored;
    var few := Select(items, keep);
    SelectLength(items, keep);
    SelectAt(items, keep, i);
    AnchoredKept(items, keep, i);
    if j :| 0 <= j < |items| && Linked(items, i, j) && Anchored(items, j) {
      assert Flags(items)[j];
      SelectAt(items, keep, j);
      AnchoredKept(items, keep, j);
      assert Linked(few, Place(keep, i), Place(keep, j));
    }
    if p :| 0 <= p < |few| && Linked(few, Place(keep, i), p) && Anchored(few, p) {
      var j := Origin(keep, p);
      SelectAt(items, keep, j);
      AnchoredKept(items, keep, j);
      assert Linked(items, i, j);
    }
  }

  /** Selecting keeps protection: the flags of the selection are the selected flags. */
  lemma FlagsKept(items: seq<Item>, keep: seq<bool>)
    requires Keeps(items, keep)
    ensures Flags(Select(items, keep)) == Select(Flags(items), keep)
  {
    hide Protected;
    var few := Select(items, keep);
    SelectLength(items, keep);
    SelectLength(Flags(items), keep);
    forall p | 0 <= p < |few| ensures Flags(few)[p] == Select(Flags(items), keep)[p] {
      var i := Origin(keep, p);
      ProtectedKept(items, keep, i);
      SelectAt(Flags(items), keep, i);
    }
  }

  /** And the protected items of the selection are exactly the protected items, in order. */
  lemma ProtectedItemsKept(items: seq<Item>, keep: seq<bool>)
    requires Keeps(items, keep)
    ensures Select(Select(items, keep), Flags(Select(items, keep))) == Select(items, Flags(items))
  {
    hide Protected;
    FlagsKept(items, keep);
    SelectTwice(items, keep, Flags(items));
  }

  lemma LinkedTogether(items: seq<Item>, i: nat, j: nat)
    requires i < |items| && j < |items| && Linked(items, i, j)
    ensures Protected(items, i) == Protected(items, j)
  {
    forall k | 0 <= k < |items| ensures Linked(items, i, k) == Linked(items, j, k) {}
    assert Linked(items, i, i) && Linked(items, j, j);
  }

  // Rewriting leaves protected items alone.

  lemma {:induction false} RewriteKeeps(items: seq<Item>, flags: seq<bool>, change: Item -> Option<Raw>)
    requires |flags| == |items|
    ensures SameHeaders(Rewrite(items, flags, change), items)
    ensures Select(Rewrite(items, flags, change), flags) == Select(items, flags)
  {
    SelectAgree(Rewrite(items, flags, change), items, flags);
  }

  lemma {:induction false} SelectAgree(a: seq<Item>, b: seq<Item>, keep: seq<bool>)
    requires |a| == |b| == |keep| && forall i | 0 <= i < |a| && keep[i] :: a[i] == b[i]
    ensures Select(a, keep) == Select(b, keep)
  {
    if a != [] {
      SelectAgree(a[..|a| - 1], b[..|a| - 1], keep[..|a| - 1]);
    }
  }

  // Evicting one turn.

  /** All but the items from start up to end. */
  function Outside(n: nat, start: nat, end: nat): (keep: seq<bool>)
    requires start <= end <= n
    ensures |keep| == n && forall i | 0 <= i < n :: keep[i] == !(start <= i < end)
  {
    seq(n, i => !(start <= i < end))
  }

  /** `few` is xs without the stretch from start up to end. */
  predicate Without<T(==)>(xs: seq<T>, start: nat, end: nat, few: seq<T>) {
    && start <= end <= |xs| && |few| == |xs| - (end - start)
    && (forall p | 0 <= p < start :: few[p] == xs[p])
    && (forall p | start <= p < |few| :: few[p] == xs[p + (end - start)])
  }

  lemma Around<T>(xs: seq<T>, start: nat, end: nat)
    requires start <= end <= |xs|
    ensures Without(xs, start, end, xs[..start] + xs[end..])
  {
  }

  /** Where an item outside the removed stretch ends up. */
  function Shift(start: nat, end: nat, i: nat): nat
    requires start <= end && !(start <= i < end)
  {
    if i < start then i else i - (end - start)
  }

  lemma WithoutAt<T>(xs: seq<T>, start: nat, end: nat, few: seq<T>, i: nat)
    requires Without(xs, start, end, few) && i < |xs| && !(start <= i < end)
    ensures Shift(start, end, i) < |few| && few[Shift(start, end, i)] == xs[i]
  {
    if i >= end { assert few[i - (end - start)] == xs[i]; }
  }

  function Unshift(start: nat, end: nat, p: nat): nat
    requires start <= end
  {
    if p < start then p else p + (end - start)
  }

  lemma WithoutFrom<T>(xs: seq<T>, start: nat, end: nat, few: seq<T>, p: nat)
    requires Without(xs, start, end, few) && p < |few|
    ensures var i := Unshift(start, end, p);
            i < |xs| && !(start <= i < end) && Shift(start, end, i) == p && few[p] == xs[i]
  {
  }

  lemma {:induction false} PlaceOutside(n: nat, start: nat, end: nat, i: nat)
    requires start <= end <= n && i <= n
    ensures Place(Outside(n, start, end), i) == if i <= start then i else if i <= end then start else i - (end - start)
  {
    if i > 0 { PlaceOutside(n, start, end, i - 1); }
  }

  lemma SelectOutside<T>(xs: seq<T>, start: nat, end: nat, few: seq<T>)
    requires Without(xs, start, end, few)
    ensures Select(xs, Outside(|xs|, start, end)) == few
  {
    hide Select, Place;
    var keep := Outside(|xs|, start, end);
    SelectLength(xs, keep);
    PlaceOutside(|xs|, start, end, |xs|);
    forall p | 0 <= p < |few| ensures Select(xs, keep)[p] == few[p] {
      WithoutFrom(xs, start, end, few, p);
      PlaceOutside(|xs|, start, end, Unshift(start, end, p));
      SelectAt(xs, keep, Unshift(start, end, p));
    }
  }

  lemma EvictWithout(items: seq<Item>, start: nat)
    requires start < |items|
    ensures Without(items, start, TurnEnd(items, start + 1), Evict(items, start))
  {
    Around(items, start, TurnEnd(items, start + 1));
  }

  lemma TurnLoose(items: seq<Item>, start: nat, i: nat)
    requires Evictable(items, start) && start <= i < TurnEnd(items, start + 1)
    ensures Loose(items, start, TurnEnd(items, start + 1), i)
  {
  }

  lemma EvictKeeps(items: seq<Item>, start: nat)
    requires Evictable(items, start)
    ensures var keep := Outside(|items|, start, TurnEnd(items, start + 1));
            Keeps(items, keep) && Evict(items, start) == Select(items, keep)
  {
    var end := TurnEnd(items, start + 1);
    EvictWithout(items, start);
    SelectOutside(items, start, end, Evict(items, start));
    forall i | start <= i < end ensures !Flags(items)[i] { TurnLoose(items, start, i); }
  }

  lemma EvictProtected(items: seq<Item>, start: nat, i: nat)
    requires Evictable(items, start) && i < |items| && !(start <= i < TurnEnd(items, start + 1))
    ensures var few, p := Evict(items, start), Shift(start, TurnEnd(items, start + 1), i);
            p < |few| && few[p] == items[i] && Protected(few, p) == Protected(items, i)
  {
    hide Protected, ValidTurn, Select, Keeps, Evict, Without;
    var end := TurnEnd(items, start + 1);
    var few, flags, p := Evict(items, start), Flags(items), Shift(start, end, i);
    EvictKeeps(items, start);
    FlagsKept(items, Outside(|items|, start, end));
    EvictWithout(items, start);
    WithoutAt(items, start, end, few, i);
    Around(flags, start, end);
    SelectOutside(flags, start, end, flags[..start] + flags[end..]);
    WithoutAt(flags, start, end, Flags(few), i);
    FlagAt(few, p);
    FlagAt(items, i);
  }

  lemma FlagAt(items: seq<Item>, i: nat)
    requires i < |items|
    ensures Flags(items)[i] == Protected(items, i)
  {
  }

  /** The calls of an evictable turn stay inside it. */
  lemma NotShared(items: seq<Item>, start: nat, j: nat)
    requires Evictable(items, start) && start <= j < TurnEnd(items, start + 1) && items[j].call.Some?
    ensures forall i | 0 <= i < |items| && items[i].call == items[j].call :: start <= i < TurnEnd(items, start + 1)
  {
    TurnLoose(items, start, j);
    assert GroupWithin(items, start, TurnEnd(items, start + 1), items[j].call.value);
  }

  /** The bounds a, b of another turn move with its items. */
  predicate Moves(start: nat, end: nat, a: nat, b: nat, a': nat, b': nat) {
    && start < end && a <= b
    && ((b <= start && a' == a && b' == b) || (end <= a && a' == a - (end - start) && b' == b - (end - start)))
  }

  /** The removed stretch has nothing of the call. */
  predicate Removed(xs: seq<Item>, start: nat, end: nat, few: seq<Item>, id: CallId) {
    start < end && Without(xs, start, end, few) && forall j | start <= j < end :: xs[j].call != Some(id)
  }

  lemma RemovedGroup(xs: seq<Item>, start: nat, end: nat, few: seq<Item>, id: CallId, a: nat, b: nat, a': nat, b': nat)
    requires Removed(xs, start, end, few, id) && Moves(start, end, a, b, a', b') && b <= |xs|
    ensures GroupWithin(few, a', b', id) == GroupWithin(xs, a, b, id)
  {
    hide Without, IsCall, IsOutput;
    if GroupWithin(few, a', b', id) {
      forall j | 0 <= j < |xs| && xs[j].call == Some(id) ensures a <= j < b && (IsCall(xs[j]) || IsOutput(xs[j])) {
        WithoutAt(xs, start, end, few, j);
      }
    }
    if GroupWithin(xs, a, b, id) {
      forall p | 0 <= p < |few| && few[p].call == Some(id)
        ensures a' <= p < b' && (IsCall(few[p]) || IsOutput(few[p]))
      {
        WithoutFrom(xs, start, end, few, p);
      }
    }
  }

  lemma RemovedPaired(xs: seq<Item>, start: nat, end: nat, few: seq<Item>, id: CallId, a: nat, b: nat, a': nat, b': nat)
    requires Removed(xs, start, end, few, id) && Moves(start, end, a, b, a', b') && b <= |xs|
    ensures Paired(few, a', b', id) == Paired(xs, a, b, id)
  {
    hide GroupWithin, IsCall, IsOutput, Without;
    RemovedGroup(xs, start, end, few, id, a, b, a', b');
    if j :| 0 <= j < |xs| && xs[j].call == Some(id) && IsCall(xs[j]) { WithoutAt(xs, start, end, few, j); }
    if j :| 0 <= j < |xs| && xs[j].call == Some(id) && IsOutput(xs[j]) { WithoutAt(xs, start, end, few, j); }
    if p :| 0 <= p < |few| && few[p].call == Some(id) && IsCall(few[p]) { WithoutFrom(xs, start, end, few, p); }
    if p :| 0 <= p < |few| && few[p].call == Some(id) && IsOutput(few[p]) { WithoutFrom(xs, start, end, few, p); }
  }

  lemma EvictRemoves(items: seq<Item>, start: nat, i: nat)
    requires Evictable(items, start) && i < |items| && !(start <= i < TurnEnd(items, start + 1)) && items[i].call.Some?
    ensures Removed(items, start, TurnEnd(items, start + 1), Evict(items, start), items[i].call.value)
  {
    EvictWithout(items, start);
    hide ValidTurn, Without, Evict;
    forall j | start <= j < TurnEnd(items, start + 1) ensures items[j].call != items[i].call {
      if items[j].call.Some? { NotShared(items, start, j); }
    }
  }

  /** An item of another turn is as loose after an eviction as before. */
  lemma EvictLoose(items: seq<Item>, start: nat, i: nat, a: nat, b: nat, a': nat, b': nat)
    requires Evictable(items, start) && a <= i < b <= |items| && Moves(start, TurnEnd(items, start + 1), a, b, a', b')
    ensures var few, p := Evict(items, start), Shift(start, TurnEnd(items, start + 1), i);
            p < |few| && Loose(few, a', b', p) == Loose(items, a, b, i)
  {
    hide Protected, Evictable, Paired, Removed;
    EvictProtected(items, start, i);
    if items[i].call.Some? {
      EvictRemoves(items, start, i);
      RemovedPaired(items, start, TurnEnd(items, start + 1), Evict(items, start), items[i].call.value, a, b, a', b');
    }
  }

  lemma {:induction false} TurnEndKept(items: seq<Item>, start: nat, from: nat)
    requires Evictable(items, start) && from <= |items| && (from <= start || TurnEnd(items, start + 1) <= from)
    ensures var end, few := TurnEnd(items, start + 1), Evict(items, start);
            && (from <= start ==> TurnEnd(items, from) <= start && TurnEnd(few, from) == TurnEnd(items, from))
            && (end <= from ==> TurnEnd(few, from - (end - start)) == TurnEnd(items, from) - (end - start))
    decreases |items| - from
  {
    hide ValidTurn, Evict, Without;
    var end, few := TurnEnd(items, start + 1), Evict(items, start);
    EvictWithout(items, start);
    WithoutSize(items, start, end, few);
    if from < |items| && !(start <= from < end) { WithoutAt(items, start, end, few, from); }
    if end < |items| { WithoutAt(items, start, end, few, end); }
    if from < start {
      TurnEndKept(items, start, from + 1);
    } else if end <= from < |items| {
      TurnEndKept(items, start, from + 1);
    }
  }

  lemma WithoutSize<T>(xs: seq<T>, start: nat, end: nat, few: seq<T>)
    requires Without(xs, start, end, few)
    ensures |few| == |xs| - (end - start)
  {
  }

  /** A turn is as valid after the eviction of another as before. */
  lemma EvictTurn(items: seq<Item>, start: nat, a: nat, b: nat, a': nat, b': nat)
    requires Evictable(items, start) && b <= |items| && Moves(start, TurnEnd(items, start + 1), a, b, a', b')
    ensures b' <= |Evict(items, start)| && ValidTurn(Evict(items, start), a', b') == ValidTurn(items, a, b)
  {
    var end, few := TurnEnd(items, start + 1), Evict(items, start);
    EvictWithout(items, start);
    WithoutSize(items, start, end, few);
    hide Loose, Evict, Evictable, Without;
    forall i | a <= i < b
      ensures Shift(start, end, i) < |few| && Loose(few, a', b', Shift(start, end, i)) == Loose(items, a, b, i)
    {
      EvictLoose(items, start, i, a, b, a', b');
    }
    if ValidTurn(items, a, b) {
      forall p | a' <= p < b' ensures Loose(few, a', b', p) {
        assert Shift(start, end, Unshift(start, end, p)) == p;
      }
    }
  }

  /** Evicting one turn changes the evictability of no other. */
  lemma EvictOther(items: seq<Item>, start: nat, x: nat)
    requires Evictable(items, start) && x < |items| && !(start <= x < TurnEnd(items, start + 1))
    ensures Evictable(Evict(items, start), Shift(start, TurnEnd(items, start + 1), x)) == Evictable(items, x)
  {
    hide ValidTurn, Evict, Without, TurnEnd;
    var end, few := TurnEnd(items, start + 1), Evict(items, start);
    EvictWithout(items, start);
    TurnEndKept(items, start, x + 1);
    WithoutAt(items, start, end, few, x);
    EvictTurn(items, start, x, TurnEnd(items, x + 1), Shift(start, end, x), TurnEnd(few, Shift(start, end, x) + 1));
  }

  // Evicting many.

  /** How many evictable turns start before s. */
  function Rank(items: seq<Item>, s: nat): nat {
    if s == 0 then 0 else Rank(items, s - 1) + if Evictable(items, s - 1) then 1 else 0
  }

  predicate InTurn(items: seq<Item>, s: nat, i: nat) {
    Evictable(items, s) && s <= i < TurnEnd(items, s + 1)
  }

  /** Item i lies in one of the first k evictable turns. */
  predicate Dropped(items: seq<Item>, k: nat, i: nat) {
    exists s | 0 <= s < |items| :: InTurn(items, s, i) && Rank(items, s) < k
  }

  function KeepFirst(items: seq<Item>, k: nat): (keep: seq<bool>)
    ensures |keep| == |items| && forall i | 0 <= i < |items| :: keep[i] == !Dropped(items, k, i)
  {
    seq(|items|, i requires 0 <= i < |items| => !Dropped(items, k, i))
  }

  /** Evict the oldest evictable turn k times. */
  function Remove(items: seq<Item>, k: nat): seq<Item>
    decreases k
  {
    var start := OldestFrom(items, 0);
    if k == 0 || start.None? then items else Remove(Evict(items, start.value), k - 1)
  }

  predicate IsOldest(items: seq<Item>, start: nat) {
    Evictable(items, start) && forall s | 0 <= s < start :: !Evictable(items, s)
  }

  lemma {:induction false} NoneBefore(items: seq<Item>, start: nat, s: nat)
    requires IsOldest(items, start) && s <= start
    ensures Rank(items, s) == 0
  {
    hide Evictable;
    if s > 0 { NoneBefore(items, start, s - 1); }
  }

  lemma InsideNotEvictable(items: seq<Item>, start: nat, x: nat)
    requires Evictable(items, start) && start < x < TurnEnd(items, start + 1)
    ensures !Evictable(items, x)
  {
    hide ValidTurn;
  }

  lemma {:induction false} NoneAtAll(items: seq<Item>, s: nat)
    requires OldestFrom(items, 0).None?
    ensures Rank(items, s) == 0 && !Evictable(items, s)
  {
    hide Evictable;
    if s > 0 { NoneAtAll(items, s - 1); }
  }

  /** After the oldest turn is evicted every later one has moved one rank up. */
  lemma {:induction false} RankAfter(items: seq<Item>, start: nat, x: nat)
    requires IsOldest(items, start) && TurnEnd(items, start + 1) <= x <= |items|
    ensures Rank(items, x) == Rank(Evict(items, start), Shift(start, TurnEnd(items, start + 1), x)) + 1
    decreases x
  {
    hide Evictable, Evict;
    var end, few := TurnEnd(items, start + 1), Evict(items, start);
    if x == end {
      RankInside(items, start, end);
      RankBelow(items, start, start);
    } else {
      RankAfter(items, start, x - 1);
      EvictOther(items, start, x - 1);
    }
  }

  lemma {:induction false} RankInside(items: seq<Item>, start: nat, x: nat)
    requires IsOldest(items, start) && start < x <= TurnEnd(items, start + 1)
    ensures Rank(items, x) == 1
  {
    hide Evictable;
    if x == start + 1 {
      NoneBefore(items, start, start);
    } else {
      RankInside(items, start, x - 1);
      InsideNotEvictable(items, start, x - 1);
    }
  }

  lemma {:induction false} RankBelow(items: seq<Item>, start: nat, x: nat)
    requires IsOldest(items, start) && x <= start
    ensures Rank(Evict(items, start), x) == 0
  {
    hide ValidTurn, Evict;
    if x > 0 {
      RankBelow(items, start, x - 1);
      EvictOther(items, start, x - 1);
    }
  }

  /** Which items the first k evictions drop, before and after the first of them. */
  lemma DroppedAfter(items: seq<Item>, start: nat, k: nat, i: nat)
    requires IsOldest(items, start) && k > 0 && i < |items|
    ensures var end := TurnEnd(items, start + 1);
            if start <= i < end then Dropped(items, k, i)
            else Dropped(items, k, i) == Dropped(Evict(items, start), k - 1, Shift(start, end, i))
  {
    var end, few := TurnEnd(items, start + 1), Evict(items, start);
    if start <= i < end {
      NoneBefore(items, start, start);
      assert InTurn(items, start, i);
    } else {
      if s :| 0 <= s < |items| && InTurn(items, s, i) && Rank(items, s) < k {
        DroppedForward(items, start, k, i, s);
      }
      if p :| 0 <= p < |few| && InTurn(few, p, Shift(start, end, i)) && Rank(few, p) < k - 1 {
        DroppedBackward(items, start, k, i, p);
      }
    }
  }

  lemma DroppedForward(items: seq<Item>, start: nat, k: nat, i: nat, s: nat)
    requires IsOldest(items, start) && k > 0 && i < |items| && !(start <= i < TurnEnd(items, start + 1))
    requires s < |items| && InTurn(items, s, i) && Rank(items, s) < k
    ensures Dropped(Evict(items, start), k - 1, Shift(start, TurnEnd(items, start + 1), i))
  {
    hide Evictable, Evict, Without;
    var end, few := TurnEnd(items, start + 1), Evict(items, start);
    assert !(s < start);
    if start < s < end { InsideNotEvictable(items, start, s); }
    EvictOther(items, start, s);
    RankAfter(items, start, s);
    TurnEndKept(items, start, s + 1);
    EvictWithout(items, start);
    WithoutAt(items, start, end, few, s);
    assert InTurn(few, Shift(start, end, s), Shift(start, end, i));
  }

  lemma DroppedBackward(items: seq<Item>, start: nat, k: nat, i: nat, p: nat)
    requires IsOldest(items, start) && k > 0 && i < |items| && !(start <= i < TurnEnd(items, start + 1))
    requires p < |Evict(items, start)| && InTurn(Evict(items, start), p, Shift(start, TurnEnd(items, start + 1), i))
    requires Rank(Evict(items, start), p) < k - 1
    ensures Dropped(items, k, i)
  {
    hide Evictable, Evict, Without;
    var end, few := TurnEnd(items, start + 1), Evict(items, start);
    EvictWithout(items, start);
    WithoutFrom(items, start, end, few, p);
    var s := Unshift(start, end, p);
    EvictOther(items, start, s);
    assert s >= end;
    RankAfter(items, start, s);
    TurnEndKept(items, start, s + 1);
    assert InTurn(items, s, i);
  }

  /** Evicting k times removes exactly the first k evictable turns of the original items. */
  lemma {:induction false} RemoveExact(items: seq<Item>, k: nat)
    ensures Remove(items, k) == Select(items, KeepFirst(items, k))
    decreases k
  {
    hide ValidTurn, Dropped, Select, TurnEnd, Evict;
    var oldest := OldestFrom(items, 0);
    if k == 0 || oldest.None? {
      forall i | 0 <= i < |items| ensures KeepFirst(items, k)[i] { NothingDropped(items, k, i); }
      SelectAll(items, KeepFirst(items, k));
    } else {
      RemoveExact(Evict(items, oldest.value), k - 1);
      KeepAfter(items, oldest.value, k);
    }
  }

  lemma NothingDropped(items: seq<Item>, k: nat, i: nat)
    requires k == 0 || OldestFrom(items, 0).None?
    ensures !Dropped(items, k, i)
  {
    hide Evictable;
    if OldestFrom(items, 0).None? {
      forall s | 0 <= s < |items| ensures !InTurn(items, s, i) { NoneAtAll(items, s); }
    }
  }

  lemma KeepAfter(items: seq<Item>, start: nat, k: nat)
    requires IsOldest(items, start) && k > 0
    ensures var few := Evict(items, start); Select(few, KeepFirst(few, k - 1)) == Select(items, KeepFirst(items, k))
  {
    hide ValidTurn, Evict, Dropped, Without, Select;
    var end, few := TurnEnd(items, start + 1), Evict(items, start);
    var keep, outside := KeepFirst(items, k), Outside(|items|, start, end);
    EvictWithout(items, start);
    WithoutSize(items, start, end, few);
    forall i | 0 <= i < |items| && start <= i < end ensures !keep[i] { DroppedAfter(items, start, k, i); }
    KeepShifted(items, start, k);
    SelectOutside(items, start, end, few);
    SelectOutside(keep, start, end, KeepFirst(few, k - 1));
    SelectTwice(items, outside, keep);
  }

  lemma KeepShifted(items: seq<Item>, start: nat, k: nat)
    requires IsOldest(items, start) && k > 0
    ensures Without(KeepFirst(items, k), start, TurnEnd(items, start + 1), KeepFirst(Evict(items, start), k - 1))
  {
    hide ValidTurn, Evict, Dropped;
    var end, few := TurnEnd(items, start + 1), Evict(items, start);
    EvictWithout(items, start);
    WithoutSize(items, start, end, few);
    var a, b := KeepFirst(few, k - 1), KeepFirst(items, k);
    forall p | 0 <= p < |few|
      ensures p < start ==> a[p] == b[p]
      ensures p >= start ==> p + (end - start) < |b| && a[p] == b[p + (end - start)]
    {
      WithoutFrom(items, start, end, few, p);
      DroppedAfter(items, start, k, Unshift(start, end, p));
    }
  }

  /** How many evictable turns there are. */
  function Turns(items: seq<Item>): nat { Rank(items, |items|) }

  lemma TurnsAfter(items: seq<Item>, start: nat)
    requires IsOldest(items, start)
    ensures Turns(items) == Turns(Evict(items, start)) + 1
  {
    hide Evictable, Evict, Without;
    RankAfter(items, start, |items|);
    EvictWithout(items, start);
    WithoutSize(items, start, TurnEnd(items, start + 1), Evict(items, start));
  }

  predicate FirstFit(codec: Codec, policy: Policy, items: seq<Item>, k: nat) {
    1 <= k && Fits(codec, policy, Remove(items, k)) && forall j | 1 <= j < k :: !Fits(codec, policy, Remove(items, j))
  }

  predicate NeverFits(codec: Codec, policy: Policy, items: seq<Item>) {
    forall j | 1 <= j <= Turns(items) :: !Fits(codec, policy, Remove(items, j))
  }

  /** Eviction stops at the first k that fits, and fails only after every evictable turn is gone. */
  lemma {:induction false} EvictedExactly(codec: Codec, policy: Policy, items: seq<Item>) returns (k: nat)
    ensures var (rest, ok) := EvictUntil(codec, policy, items);
            && rest == Remove(items, k) && k <= Turns(items)
            && (if ok then FirstFit(codec, policy, items, k) else k == Turns(items) && NeverFits(codec, policy, items))
    decreases |items|
  {
    hide ValidTurn, Fits;
    var oldest := OldestFrom(items, 0);
    if oldest.None? {
      NoneAtAll(items, |items|);
      k := 0;
    } else {
      var few := Evict(items, oldest.value);
      TurnsAfter(items, oldest.value);
      assert Remove(items, 1) == Remove(few, 0) == few;
      if Fits(codec, policy, few) {
        k := 1;
      } else {
        var rest := EvictedExactly(codec, policy, few);
        k := rest + 1;
        forall j | 1 <= j ensures Remove(items, j) == Remove(few, j - 1) {}
      }
    }
  }

  // The whole pipeline keeps the protected items.

  /** The protected items, in order. */
  function Core(items: seq<Item>): seq<Item> { Select(items, Flags(items)) }

  lemma RewriteCore(items: seq<Item>, flags: seq<bool>, change: Item -> Option<Raw>)
    requires flags == Flags(items)
    ensures var r := Rewrite(items, flags, change); Flags(r) == flags && Core(r) == Core(items)
  {
    hide Protected;
    RewriteKeeps(items, flags, change);
    FlagsSame(Rewrite(items, flags, change), items);
  }

  lemma EvictCore(items: seq<Item>, start: nat)
    requires Evictable(items, start)
    ensures Core(Evict(items, start)) == Core(items)
  {
    hide Protected, Select, ValidTurn;
    EvictKeeps(items, start);
    ProtectedItemsKept(items, Outside(|items|, start, TurnEnd(items, start + 1)));
  }

  lemma {:induction false} EvictUntilCore(codec: Codec, policy: Policy, items: seq<Item>)
    ensures Core(EvictUntil(codec, policy, items).0) == Core(items)
    decreases |items|
  {
    hide Core, ValidTurn, Fits;
    var oldest := OldestFrom(items, 0);
    if oldest.Some? {
      EvictCore(items, oldest.value);
      EvictUntilCore(codec, policy, Evict(items, oldest.value));
    }
  }

  lemma CutCore(items: seq<Item>)
    ensures Core(Cut(items)) == Core(items)
  {
    hide Protected, Select;
    if Cuts(items) { ProtectedItemsKept(items, Flags(items)); }
  }

  /** Every initially protected item is still there, unchanged and in order, and is still what is protected. */
  lemma ProtectedUnchanged(codec: Codec, policy: Policy, before: nat, items: seq<Item>)
    ensures Core(Scrubbed(codec, policy, before, Input(items)).items) == Core(items)
  {
    hide Core, Fits, Flags, Changes, EvictUntil, Rewrite, Cut;
    var cut := Cut(items);
    CutCore(items);
    RewriteCore(cut, Flags(cut), MediaOf(codec));
    var cleaned := Cleaned(codec, cut);
    RewriteCore(cleaned, Flags(cut), ShortenOf(codec));
    EvictUntilCore(codec, policy, Shortened(codec, cleaned, Flags(cut)));
  }

  // Calls are kept or dropped whole.

  /** What remains of one call: the headers of its items, in order. */
  function Group(items: seq<Item>, id: CallId): seq<Header> {
    if items == [] then []
    else
      var last := items[|items| - 1];
      Group(items[..|items| - 1], id) + if last.call == Some(id) then [HeaderOf(last)] else []
  }

  lemma {:induction false} GroupSame(a: seq<Item>, b: seq<Item>, id: CallId)
    requires SameHeaders(a, b)
    ensures Group(a, id) == Group(b, id)
  {
    if a != [] {
      assert HeaderOf(a[|a| - 1]) == HeaderOf(b[|b| - 1]);
      GroupSame(a[..|a| - 1], b[..|b| - 1], id);
    }
  }

  predicate Uniform(items: seq<Item>, keep: seq<bool>, id: CallId, kept: bool) {
    |keep| == |items| && forall i | 0 <= i < |items| && items[i].call == Some(id) :: keep[i] == kept
  }

  lemma {:induction false} GroupSelect(items: seq<Item>, keep: seq<bool>, id: CallId, kept: bool)
    requires Uniform(items, keep, id, kept)
    ensures Group(Select(items, keep), id) == if kept then Group(items, id) else []
  {
    if items != [] {
      var n := |items| - 1;
      GroupSelect(items[..n], keep[..n], id, kept);
      var few := Select(items[..n], keep[..n]);
      if keep[n] {
        assert Select(items, keep) == few + [items[n]];
        assert (few + [items[n]])[..|few|] == few;
      } else {
        assert Select(items, keep) == few;
      }
    }
  }

  lemma CutGroup(items: seq<Item>, id: CallId)
    ensures Group(Cut(items), id) == Group(items, id) || Group(Cut(items), id) == []
  {
    hide Protected;
    if Cuts(items) {
      if i :| 0 <= i < |items| && items[i].call == Some(id) {
        forall j | 0 <= j < |items| && items[j].call == Some(id) ensures Flags(items)[j] == Flags(items)[i] {
          LinkedTogether(items, i, j);
        }
        GroupSelect(items, Flags(items), id, Flags(items)[i]);
      } else {
        GroupSelect(items, Flags(items), id, true);
      }
    }
  }

  lemma EvictGroup(items: seq<Item>, start: nat, id: CallId)
    requires Evictable(items, start)
    ensures Group(Evict(items, start), id) == Group(items, id) || Group(Evict(items, start), id) == []
  {
    hide ValidTurn, Select, Keeps, Evict;
    var end := TurnEnd(items, start + 1);
    var keep := Outside(|items|, start, end);
    EvictKeeps(items, start);
    if j :| start <= j < end && items[j].call == Some(id) {
      NotShared(items, start, j);
      GroupSelect(items, keep, id, false);
    } else {
      GroupSelect(items, keep, id, true);
    }
  }

  lemma {:induction false} EvictUntilGroup(codec: Codec, policy: Policy, items: seq<Item>, id: CallId)
    ensures var rest := EvictUntil(codec, policy, items).0; Group(rest, id) == Group(items, id) || Group(rest, id) == []
    decreases |items|
  {
    hide ValidTurn, Group, Fits;
    var oldest := OldestFrom(items, 0);
    if oldest.Some? {
      EvictGroup(items, oldest.value, id);
      EvictUntilGroup(codec, policy, Evict(items, oldest.value), id);
    }
  }

  /** The items of one call are kept together or dropped together. */
  lemma CallsWhole(codec: Codec, policy: Policy, before: nat, items: seq<Item>, id: CallId)
    ensures var out := Scrubbed(codec, policy, before, Input(items)).items;
            Group(out, id) == Group(items, id) || Group(out, id) == []
  {
    hide Group, Fits, Flags, Changes, Cut, SameHeaders, Rewrite, EvictUntil;
    var cut := Cut(items);
    CutGroup(items, id);
    ReducedGroup(codec, policy, cut, |cut| != |items|, id);
  }

  lemma ReducedGroup(codec: Codec, policy: Policy, items: seq<Item>, changed: bool, id: CallId)
    ensures var out := Reduced(codec, policy, items, changed).items;
            Group(out, id) == Group(items, id) || Group(out, id) == []
  {
    hide Group, Fits, Changes, SameHeaders, Rewrite, EvictUntil;
    var flags, cleaned := Flags(items), Cleaned(codec, items);
    var shortened := Shortened(codec, cleaned, flags);
    RewriteKeeps(items, flags, MediaOf(codec));
    RewriteKeeps(cleaned, flags, ShortenOf(codec));
    GroupSame(cleaned, items, id);
    GroupSame(shortened, cleaned, id);
    EvictUntilGroup(codec, policy, shortened, id);
  }

  // With a compaction the protected items are all that is left.

  lemma TailProtected(items: seq<Item>)
    requires Has(items, CompactionMark) && !After(items, 0, CompactionMark)
    ensures forall i | 0 <= i < |items| :: Protected(items, i)
  {
    forall i | 0 <= i < |items| ensures Protected(items, i) {
      assert !After(items, i, CompactionMark);
      assert InTail(items, i);
    }
  }

  lemma CutIsCore(items: seq<Item>)
    requires Has(items, CompactionMark)
    ensures Cut(items) == Core(items) && forall i | 0 <= i < |Cut(items)| :: Flags(Cut(items))[i]
  {
    hide Protected;
    var flags := Flags(items);
    if Cuts(items) {
      FlagsKept(items, flags);
      SelectSelf(flags);
    } else {
      TailProtected(items);
      SelectAll(items, flags);
    }
  }

  lemma {:induction false} SelectSelf(flags: seq<bool>)
    ensures forall i | 0 <= i < |Select(flags, flags)| :: Select(flags, flags)[i]
  {
    if flags != [] { SelectSelf(flags[..|flags| - 1]); }
  }

  /** If any item is a compaction, a scrubbed request holds exactly the protected items, and no later stage
      changes it, whether or not it fits. */
  lemma CompactionKeepsCore(codec: Codec, policy: Policy, before: nat, items: seq<Item>)
    requires before >= policy.trigger && PolicyOk(policy) && Has(items, CompactionMark)
    ensures var r := Scrubbed(codec, policy, before, Input(items));
            && r.items == Core(items) && r.changed == (Core(items) != items)
            && r.error == if r.changed && Fits(codec, policy, r.items) then None else Some(TargetMissed)
  {
    hide Protected, Fits, Has, Core;
    var cut, flags := Cut(items), Flags(Cut(items));
    CutIsCore(items);
    FullCut(items);
    NothingLoose(cut);
    assert Cleaned(codec, cut) == cut;
    assert Shortened(codec, cut, flags) == cut;
  }

  lemma NothingLoose(items: seq<Item>)
    requires forall i | 0 <= i < |items| :: Flags(items)[i]
    ensures OldestFrom(items, 0).None?
  {
    hide InTail, Anchored;
    forall s | 0 <= s < |items| ensures !Evictable(items, s) {
      assert Flags(items)[s];
      assert !Loose(items, s, TurnEnd(items, s + 1), s);
    }
  }

  /** Rewriting old media, or old media and tool output, changes something and is enough. */
  predicate RewritingSuffices(codec: Codec, policy: Policy, items: seq<Item>) {
    var cleaned := Cleaned(codec, items);
    || (Changes(items, Flags(items), MediaOf(codec)) && Fits(codec, policy, cleaned))
    || (Changes(cleaned, Flags(items), ShortenOf(codec)) &&
         Fits(codec, policy, Shortened(codec, cleaned, Flags(items))))
  }

  lemma ReducedEvicts(codec: Codec, policy: Policy, items: seq<Item>, changed: bool)
    requires !RewritingSuffices(codec, policy, items)
    ensures var r := Reduced(codec, policy, items, changed);
            var (rest, ok) := EvictUntil(codec, policy, Shortened(codec, Cleaned(codec, items), Flags(items)));
            r.items == rest && r.error == if ok then None else Some(TargetMissed)
  {
    hide Flags, Fits, Changes, Rewrite, EvictUntil;
  }

  /** Without one, a request that rewriting does not bring under the target loses exactly its first k
      evictable turns: k is the least number that fits, or every turn is gone and the target is missed. */
  lemma TurnsEvicted(codec: Codec, policy: Policy, before: nat, items: seq<Item>) returns (k: nat)
    requires before >= policy.trigger && PolicyOk(policy) && !Has(items, CompactionMark)
    requires !RewritingSuffices(codec, policy, items)
    ensures var shortened := Shortened(codec, Cleaned(codec, items), Flags(items));
            var r := Scrubbed(codec, policy, before, Input(items));
            && r.items == Select(shortened, KeepFirst(shortened, k)) && k <= Turns(shortened)
            && if r.error.None? then FirstFit(codec, policy, shortened, k)
               else r.error == Some(TargetMissed) && k == Turns(shortened) && NeverFits(codec, policy, shortened)
  {
    hide Flags, Fits, FirstFit, NeverFits, Rewrite, Changes, Reduced, EvictUntil, RewritingSuffices, Remove, Select,
        KeepFirst;
    var shortened := Shortened(codec, Cleaned(codec, items), Flags(items));
    NotCut(items);
    ReducedEvicts(codec, policy, items, false);
    k := EvictedExactly(codec, policy, shortened);
    RemoveExact(shortened, k);
  }

  lemma NotCut(items: seq<Item>)
    requires !Has(items, CompactionMark)
    ensures Cut(items) == items
  {
  }

  /** A scrubbed request that succeeds fits the target. */
  lemma SuccessFits(codec: Codec, policy: Policy, before: nat, items: seq<Item>)
    ensures var r := Scrubbed(codec, policy, before, Input(items));
            r.error.None? ==>
              if before < policy.trigger then r == Outcome(items, false, None)
              else r.changed && Fits(codec, policy, r.items)
  {
    hide Flags, Fits, Rewrite, Changes, Cut;
    var cut := Cut(items);
    EvictUntilFits(codec, policy, Shortened(codec, Cleaned(codec, cut), Flags(cut)));
  }

  lemma {:induction false} EvictUntilFits(codec: Codec, policy: Policy, items: seq<Item>)
    ensures var (rest, ok) := EvictUntil(codec, policy, items); ok ==> rest != items && Fits(codec, policy, rest)
    decreases |items|
  {
    hide ValidTurn, Fits;
    EvictUntilShrinks(codec, policy, items);
    var oldest := OldestFrom(items, 0);
    if oldest.Some? { EvictUntilFits(codec, policy, Evict(items, oldest.value)); }
  }
}
