/** Shrinking an oversized request (internal/responsesproxy/scrub.go): cut at the last compaction, drop old
    media, shorten old tool output, evict the oldest turns.  Raw JSON is opaque. */
module Scrub {
  import opened Base
  import opened Selections

  type Raw = nat
  type CallId = nat

  datatype Kind =
    | Compaction
    | FunctionCall | CustomToolCall | ComputerCall | LocalShellCall
    | FunctionCallOutput | CustomToolCallOutput | ComputerCallOutput | LocalShellCallOutput
    | OtherKind

  datatype Role = User | System | Developer | OtherRole

  datatype Item = Item(kind: Kind, role: Role, call: Option<CallId>, raw: Raw)

  /** What the JSON library does: the size of a request with the given input items, and the rewriting of
      one item's text (None when nothing in it qualifies). */
  datatype Codec = Codec(
    size: seq<Raw> -> nat,
    content: Raw -> Option<Raw>, output: Raw -> Option<Raw>, screenshot: Raw -> Option<Raw>,
    shorten: Raw -> Option<Raw>)

  datatype Policy = Policy(trigger: int, target: int)

  datatype Parsed = Malformed | NoInput | Input(items: seq<Item>)

  datatype Error = InvalidRequest | TargetMissed

  /** The items encoded in the resulting body; unchanged means the original body is passed on. */
  datatype Outcome = Outcome(items: seq<Item>, changed: bool, error: Option<Error>)

  // Protected items.

  /** The two kinds of items that start the protected tail. */
  datatype Mark = UserMark | CompactionMark

  predicate Bears(item: Item, mark: Mark) {
    match mark
    case UserMark => item.role == User
    case CompactionMark => item.kind == Compaction
  }

  predicate Has(items: seq<Item>, mark: Mark) { exists j | 0 <= j < |items| :: Bears(items[j], mark) }

  predicate After(items: seq<Item>, i: int, mark: Mark) {
    exists j | 0 <= j < |items| && i < j :: Bears(items[j], mark)
  }

  /** From the last user item or the last compaction on, whichever comes first; everything if there is neither. */
  predicate InTail(items: seq<Item>, i: int) {
    || (Has(items, UserMark) && !After(items, i, UserMark))
    || (Has(items, CompactionMark) && !After(items, i, CompactionMark))
    || (!Has(items, UserMark) && !Has(items, CompactionMark))
  }

  predicate Anchored(items: seq<Item>, i: nat)
    requires i < |items|
  {
    InTail(items, i) || items[i].role == System || items[i].role == Developer
  }

  predicate Linked(items: seq<Item>, i: nat, j: nat)
    requires i < |items| && j < |items|
  {
    items[i].call.Some? && items[j].call == items[i].call
  }

  /** A call group that reaches into the tail is protected whole. */
  predicate Protected(items: seq<Item>, i: nat)
    requires i < |items|
  {
    Anchored(items, i) || exists j | 0 <= j < |items| :: Linked(items, i, j) && Anchored(items, j)
  }

  function Flags(items: seq<Item>): (flags: seq<bool>)
    ensures |flags| == |items| && forall i | 0 <= i < |items| :: flags[i] == Protected(items, i)
  {
    seq(|items|, i requires 0 <= i < |items| => Protected(items, i))
  }

  /** The last item with the given mark. */
  method LastMarked(items: seq<Item>, mark: Mark) returns (r: Option<nat>)
    ensures r.Some? ==> r.value < |items| && Bears(items[r.value], mark)
    ensures forall j | 0 <= j < |items| && (r.Some? ==> r.value < j) :: !Bears(items[j], mark)
  {
    var i: nat := |items|;
    while i > 0
      invariant i <= |items| && forall j | i <= j < |items| :: !Bears(items[j], mark)
    {
      i := i - 1;
      if Bears(items[i], mark) {
        return Some(i);
      }
    }
    return None;
  }

  predicate Grouped(items: seq<Item>, calls: map<CallId, set<nat>>, n: nat)
    requires n <= |items|
  {
    && (forall id | id in calls ::
         calls[id] != {} && forall i | i in calls[id] :: 0 <= i < n && items[i].call == Some(id))
    && (forall i | 0 <= i < n && items[i].call.Some? :: items[i].call.value in calls && i in calls[items[i].call.value])
  }

  method CallIndices(items: seq<Item>) returns (calls: map<CallId, set<nat>>)
    ensures Grouped(items, calls, |items|)
  {
    calls := map[];
    for i := 0 to |items|
      invariant Grouped(items, calls, i)
    {
      if items[i].call.Some? {
        var id := items[i].call.value;
        calls := calls[id := (if id in calls then calls[id] else {}) + {i}];
      }
    }
  }

  method ProtectedItems(items: seq<Item>) returns (flags: seq<bool>)
    ensures flags == Flags(items)
  {
    hide Anchored, Protected, Linked;
    var base := AnchoredItems(items);
    var calls := CallIndices(items);
    flags := base;
    var ids := calls.Keys;
    while ids != {}
      invariant ids <= calls.Keys && |flags| == |items|
      invariant forall i | 0 <= i < |items| ::
        flags[i] == if items[i].call.Some? && items[i].call.value !in ids then Protected(items, i) else base[i]
      decreases |ids|
    {
      var id :| id in ids;
      var crosses := exists i | i in calls[id] :: base[i];
      CrossesIsProtected(items, calls, base, id);
      if crosses {
        flags := Protect(flags, calls[id]);
      }
      ids := ids - {id};
    }
    forall i | 0 <= i < |items| ensures flags[i] == Protected(items, i) { UnlinkedIsAnchored(items, i); }
  }

  method AnchoredItems(items: seq<Item>) returns (base: seq<bool>)
    ensures |base| == |items| && forall k | 0 <= k < |items| :: base[k] == Anchored(items, k)
  {
    var user := LastMarked(items, UserMark);
    var compact := LastMarked(items, CompactionMark);
    var boundary := if user.Some? then user.value else -1;
    if compact.Some? && (boundary < 0 || compact.value < boundary) {
      boundary := compact.value;
    }
    if boundary < 0 {
      boundary := 0;
    }
    base := [];
    for i := 0 to |items|
      invariant |base| == i && forall k | 0 <= k < i :: base[k] == Anchored(items, k)
    {
      BoundaryIsTail(items, user, compact, boundary, i);
      base := base + [i >= boundary || items[i].role == System || items[i].role == Developer];
    }
  }

  lemma UnlinkedIsAnchored(items: seq<Item>, i: nat)
    requires i < |items|
    ensures items[i].call.None? ==> Protected(items, i) == Anchored(items, i)
  {
  }

  lemma CrossesIsProtected(items: seq<Item>, calls: map<CallId, set<nat>>, base: seq<bool>, id: CallId)
    requires Grouped(items, calls, |items|) && id in calls
    requires |base| == |items| && forall k | 0 <= k < |items| :: base[k] == Anchored(items, k)
    ensures forall i | i in calls[id] :: i < |items| && (Protected(items, i) <==> exists k | k in calls[id] :: base[k])
    ensures forall i | 0 <= i < |items| && items[i].call == Some(id) :: i in calls[id]
  {
    forall i | i in calls[id] ensures i < |items| && (Protected(items, i) <==> exists k | k in calls[id] :: base[k]) {
      if k :| k in calls[id] && base[k] { assert Linked(items, i, k) && Anchored(items, k); }
      if Anchored(items, i) { assert base[i]; }
      if j :| 0 <= j < |items| && Linked(items, i, j) && Anchored(items, j) { assert j in calls[id] && base[j]; }
    }
  }

  lemma BoundaryIsTail(items: seq<Item>, user: Option<nat>, compact: Option<nat>, boundary: int, i: nat)
    requires user.Some? ==> user.value < |items| && Bears(items[user.value], UserMark)
    requires forall j | 0 <= j < |items| && (user.Some? ==> user.value < j) :: !Bears(items[j], UserMark)
    requires compact.Some? ==> compact.value < |items| && Bears(items[compact.value], CompactionMark)
    requires forall j | 0 <= j < |items| && (compact.Some? ==> compact.value < j) :: !Bears(items[j], CompactionMark)
    requires boundary == if user.Some? && compact.Some? then Min(compact.value, user.value)
                         else if user.Some? then user.value
                         else if compact.Some? then compact.value
                         else 0
    ensures i >= boundary <==> InTail(items, i)
  {
  }

  method Protect(flags: seq<bool>, indices: set<nat>) returns (r: seq<bool>)
    requires forall i | i in indices :: i < |flags|
    ensures |r| == |flags| && forall i | 0 <= i < |r| :: r[i] == (flags[i] || i in indices)
  {
    r := seq(|flags|, i requires 0 <= i < |flags| => flags[i] || i in indices);
  }

  // Stages that rewrite unprotected items.

  predicate ToolOutput(item: Item) { item.kind == FunctionCallOutput || item.kind == CustomToolCallOutput }

  /** Old media, by what the item is. */
  function Media(codec: Codec, item: Item): Option<Raw> {
    if item.role == User then codec.content(item.raw)
    else if ToolOutput(item) then codec.output(item.raw)
    else if item.kind == ComputerCallOutput then codec.screenshot(item.raw)
    else None
  }

  function Shorten(codec: Codec, item: Item): Option<Raw> {
    if ToolOutput(item) then codec.shorten(item.raw) else None
  }

  function MediaOf(codec: Codec): Item -> Option<Raw> { (item: Item) => Media(codec, item) }

  function ShortenOf(codec: Codec): Item -> Option<Raw> { (item: Item) => Shorten(codec, item) }

  function Rewritten(item: Item, kept: bool, raw: Option<Raw>): Item {
    if kept || raw.None? then item else item.(raw := raw.value)
  }

  function Rewrite(items: seq<Item>, flags: seq<bool>, change: Item -> Option<Raw>): (r: seq<Item>)
    requires |flags| == |items|
    ensures |r| == |items| && forall i | 0 <= i < |items| :: r[i] == Rewritten(items[i], flags[i], change(items[i]))
  {
    seq(|items|, i requires 0 <= i < |items| => Rewritten(items[i], flags[i], change(items[i])))
  }

  predicate Changes(items: seq<Item>, flags: seq<bool>, change: Item -> Option<Raw>)
    requires |flags| == |items|
  {
    exists i | 0 <= i < |items| :: !flags[i] && change(items[i]).Some?
  }

  method RewriteItems(items: seq<Item>, flags: seq<bool>, change: Item -> Option<Raw>)
    returns (r: seq<Item>, changed: bool)
    requires |flags| == |items|
    ensures r == Rewrite(items, flags, change) && changed == Changes(items, flags, change)
  {
    r, changed := items, false;
    for i := 0 to |items|
      invariant |r| == |items| && forall k | i <= k < |items| :: r[k] == items[k]
      invariant forall k | 0 <= k < i :: r[k] == Rewritten(items[k], flags[k], change(items[k]))
      invariant changed <==> exists k | 0 <= k < i :: !flags[k] && change(items[k]).Some?
    {
      if flags[i] {
        continue;
      }
      var rewritten := change(items[i]);
      if rewritten.Some? {
        r, changed := r[i := r[i].(raw := rewritten.value)], true;
      }
    }
  }

  // Turns: a user item and everything up to the next one.

  function TurnEnd(items: seq<Item>, from: nat): (end: nat)
    requires from <= |items|
    ensures from <= end <= |items| && (end < |items| ==> items[end].role == User)
    ensures forall j | from <= j < end :: items[j].role != User
    decreases |items| - from
  {
    if from == |items| || items[from].role == User then from else TurnEnd(items, from + 1)
  }

  predicate IsCall(item: Item) {
    item.kind == FunctionCall || item.kind == CustomToolCall || item.kind == ComputerCall || item.kind == LocalShellCall
  }

  predicate IsOutput(item: Item) {
    item.kind == FunctionCallOutput || item.kind == CustomToolCallOutput ||
    item.kind == ComputerCallOutput || item.kind == LocalShellCallOutput
  }

  predicate GroupWithin(items: seq<Item>, start: nat, end: nat, id: CallId) {
    forall j | 0 <= j < |items| && items[j].call == Some(id) ::
        start <= j < end && (IsCall(items[j]) || IsOutput(items[j]))
  }

  /** All items of a call are in the turn: calls and outputs, at least one of each. */
  predicate Paired(items: seq<Item>, start: nat, end: nat, id: CallId) {
    && GroupWithin(items, start, end, id)
    && (exists j | 0 <= j < |items| :: items[j].call == Some(id) && IsCall(items[j]))
    && (exists j | 0 <= j < |items| :: items[j].call == Some(id) && IsOutput(items[j]))
  }

  predicate Loose(items: seq<Item>, start: nat, end: nat, i: nat)
    requires i < |items|
  {
    && !Protected(items, i) && items[i].kind != Compaction
    && (items[i].call.Some? ==> Paired(items, start, end, items[i].call.value))
  }

  predicate ValidTurn(items: seq<Item>, start: nat, end: nat)
    requires start <= end <= |items|
  {
    forall i | start <= i < end :: Loose(items, start, end, i)
  }

  predicate Evictable(items: seq<Item>, start: nat) {
    start < |items| && items[start].role == User && ValidTurn(items, start, TurnEnd(items, start + 1))
  }

  function OldestFrom(items: seq<Item>, from: nat): (r: Option<nat>)
    requires from <= |items|
    ensures r.Some? ==> from <= r.value && Evictable(items, r.value)
    ensures forall s | from <= s && (r.Some? ==> s < r.value) :: !Evictable(items, s)
    decreases |items| - from
  {
    if from == |items| then None
    else if Evictable(items, from) then Some(from)
    else OldestFrom(items, from + 1)
  }

  /** The items without their oldest evictable turn. */
  function Evict(items: seq<Item>, start: nat): (r: seq<Item>)
    requires start < |items|
    ensures |r| < |items|
  {
    items[..start] + items[TurnEnd(items, start + 1)..]
  }

  method CheckTurn(items: seq<Item>, flags: seq<bool>, calls: map<CallId, set<nat>>, start: nat, end: nat)
    returns (ok: bool)
    requires start <= end <= |items| && flags == Flags(items) && Grouped(items, calls, |items|)
    ensures ok == ValidTurn(items, start, end)
  {
    for i := start to end
      invariant forall k | start <= k < i :: Loose(items, start, end, k)
    {
      if flags[i] || items[i].role == System || items[i].role == Developer || items[i].kind == Compaction {
        assert !Loose(items, start, end, i);
        return false;
      }
      if items[i].call.Some? {
        var paired := CheckGroup(items, calls, start, end, items[i].call.value);
        if !paired {
          assert !Loose(items, start, end, i);
          return false;
        }
      }
    }
    return true;
  }

  method CheckGroup(items: seq<Item>, calls: map<CallId, set<nat>>, start: nat, end: nat, id: CallId) returns (ok: bool)
    requires start <= end <= |items| && Grouped(items, calls, |items|) && id in calls
    ensures ok == Paired(items, start, end, id)
  {
    var hasCall, hasOutput, known := false, false, true;
    var related := calls[id];
    while related != {}
      invariant related <= calls[id]
      invariant forall j | j in calls[id] && j !in related :: start <= j < end
      invariant hasCall <==> exists j | j in calls[id] && j !in related :: IsCall(items[j])
      invariant hasOutput <==> exists j | j in calls[id] && j !in related :: IsOutput(items[j])
      invariant known <==> forall j | j in calls[id] && j !in related :: IsCall(items[j]) || IsOutput(items[j])
      decreases |related|
    {
      var j :| j in related;
      if j < start || j >= end {
        return false;
      }
      if IsCall(items[j]) {
        hasCall := true;
      } else if IsOutput(items[j]) {
        hasOutput := true;
      } else {
        known := false;
      }
      related := related - {j};
    }
    return known && hasCall && hasOutput;
  }

  method OldestEvictableTurn(items: seq<Item>) returns (r: Option<nat>)
    ensures r == OldestFrom(items, 0)
  {
    var flags := ProtectedItems(items);
    var calls := CallIndices(items);
    for start := 0 to |items|
      invariant OldestFrom(items, start) == OldestFrom(items, 0)
    {
      if items[start].role != User || flags[start] {
        assert flags[start] ==> !Loose(items, start, TurnEnd(items, start + 1), start);
        continue;
      }
      var end := |items|;
      for index := start + 1 to |items|
        invariant end == |items| && TurnEnd(items, index) == TurnEnd(items, start + 1)
      {
        if items[index].role == User {
          end := index;
          break;
        }
      }
      var valid := CheckTurn(items, flags, calls, start, end);
      if valid {
        return Some(start);
      }
    }
    return None;
  }

  // The whole pipeline.

  function Raws(items: seq<Item>): seq<Raw> { seq(|items|, i requires 0 <= i < |items| => items[i].raw) }

  predicate Fits(codec: Codec, policy: Policy, items: seq<Item>) { codec.size(Raws(items)) <= policy.target }

  /** With a compaction behind the first item, only protected items are kept. */
  predicate Cuts(items: seq<Item>) { After(items, 0, CompactionMark) }

  function Cut(items: seq<Item>): seq<Item> { if Cuts(items) then Select(items, Flags(items)) else items }

  /** Evict turns, oldest first, until the request fits; false when none is left. */
  function EvictUntil(codec: Codec, policy: Policy, items: seq<Item>): (seq<Item>, bool)
    decreases |items|
  {
    var start := OldestFrom(items, 0);
    if start.None? then (items, false)
    else
      var rest := Evict(items, start.value);
      if Fits(codec, policy, rest) then (rest, true) else EvictUntil(codec, policy, rest)
  }

  function Evicted(codec: Codec, policy: Policy, items: seq<Item>, changed: bool): Outcome {
    var (rest, ok) := EvictUntil(codec, policy, items);
    Outcome(rest, changed || rest != items, if ok then None else Some(TargetMissed))
  }

  function Cleaned(codec: Codec, items: seq<Item>): seq<Item> {
    Rewrite(items, Flags(items), MediaOf(codec))
  }

  function Shortened(codec: Codec, items: seq<Item>, flags: seq<bool>): seq<Item>
    requires |flags| == |items|
  {
    Rewrite(items, flags, ShortenOf(codec))
  }

  /** The stages after the cut; each stops as soon as a changed request fits. */
  function Reduced(codec: Codec, policy: Policy, items: seq<Item>, changed: bool): Outcome {
    var flags := Flags(items);
    var cleaned := Cleaned(codec, items);
    var mediaChanged := Changes(items, flags, MediaOf(codec));
    if mediaChanged && Fits(codec, policy, cleaned) then Outcome(cleaned, true, None)
    else
      var shortened := Shortened(codec, cleaned, flags);
      var outputChanged := Changes(cleaned, flags, ShortenOf(codec));
      if outputChanged && Fits(codec, policy, shortened) then Outcome(shortened, true, None)
      else Evicted(codec, policy, shortened, changed || mediaChanged || outputChanged)
  }

  predicate PolicyOk(policy: Policy) { policy.target > 0 && policy.trigger > policy.target }

  function Scrubbed(codec: Codec, policy: Policy, before: nat, request: Parsed): Outcome {
    var items := if request.Input? then request.items else [];
    if before < policy.trigger then Outcome(items, false, None)
    else if !PolicyOk(policy) || request.Malformed? then Outcome(items, false, Some(InvalidRequest))
    else if request.NoInput? then Outcome(items, false, Some(TargetMissed))
    else
      var cut := Cut(items);
      var changed := |cut| != |items|;
      if changed && Fits(codec, policy, cut) then Outcome(cut, true, None)
      else Reduced(codec, policy, cut, changed)
  }

  method CutAtCompaction(items: seq<Item>) returns (kept: seq<Item>)
    ensures kept == Cut(items)
  {
    var compact := LastMarked(items, CompactionMark);
    if compact.None? || compact.value == 0 {
      return items;
    }
    var flags := ProtectedItems(items);
    kept := [];
    for index := 0 to |items|
      invariant kept == Select(items[..index], flags[..index])
    {
      assert items[..index + 1][..index] == items[..index] && flags[..index + 1][..index] == flags[..index];
      assert index >= compact.value ==> InTail(items, index);
      if index >= compact.value || flags[index] {
        kept := kept + [items[index]];
      }
    }
    assert items[..|items|] == items && flags[..|items|] == flags;
  }

  method EvictTurns(codec: Codec, policy: Policy, before: seq<Item>, changed: bool) returns (r: Outcome)
    ensures r == Evicted(codec, policy, before, changed)
  {
    var items, evicted := before, false;
    while true
      invariant EvictUntil(codec, policy, items) == EvictUntil(codec, policy, before)
      invariant if evicted then |items| < |before| else items == before
      decreases |items|
    {
      EvictUntilShrinks(codec, policy, items);
      var start := OldestEvictableTurn(items);
      if start.None? {
        return Outcome(items, changed || evicted, Some(TargetMissed));
      }
      items, evicted := Evict(items, start.value), true;
      if Fits(codec, policy, items) {
        return Outcome(items, true, None);
      }
    }
  }

  lemma {:induction false} EvictUntilShrinks(codec: Codec, policy: Policy, items: seq<Item>)
    ensures var (rest, ok) := EvictUntil(codec, policy, items);
            |rest| <= |items| && (rest != items ==> |rest| < |items|) && (ok ==> rest != items)
    decreases |items|
  {
    var start := OldestFrom(items, 0);
    if start.Some? { EvictUntilShrinks(codec, policy, Evict(items, start.value)); }
  }

  lemma FullCut(items: seq<Item>)
    ensures |Cut(items)| == |items| ==> Cut(items) == items
  {
    SelectShorter(items, Flags(items));
  }

  method Scrub(codec: Codec, policy: Policy, before: nat, request: Parsed) returns (r: Outcome)
    ensures r == Scrubbed(codec, policy, before, request)
  {
    var items := if request.Input? then request.items else [];
    if before < policy.trigger {
      return Outcome(items, false, None);
    }
    if policy.target <= 0 || policy.trigger <= policy.target || request.Malformed? {
      return Outcome(items, false, Some(InvalidRequest));
    }
    if request.NoInput? {
      return Outcome(items, false, Some(TargetMissed));
    }
    var kept := CutAtCompaction(items);
    var changed := false;
    FullCut(items);
    if |kept| != |items| {
      items, changed := kept, true;
      if Fits(codec, policy, items) {
        return Outcome(items, true, None);
      }
    }
    var flags := ProtectedItems(items);
    var mediaChanged, outputChanged;
    items, mediaChanged := RewriteItems(items, flags, MediaOf(codec));
    if mediaChanged && Fits(codec, policy, items) {
      return Outcome(items, true, None);
    }
    items, outputChanged := RewriteItems(items, flags, ShortenOf(codec));
    if outputChanged && Fits(codec, policy, items) {
      return Outcome(items, true, None);
    }
    r := EvictTurns(codec, policy, items, changed || mediaChanged || outputChanged);
  }
}
