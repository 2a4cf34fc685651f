/** Shortening tool output on character boundaries (truncateOutput in internal/responsesproxy/scrub.go). */
module Truncation {

  newtype Byte = b: int | 0 <= b < 256

  const KEEP := 8192

  predicate Between(b: Byte, low: Byte, high: Byte) { low <= b <= high }

  predicate Continuation(b: Byte) { Between(b, 0x80, 0xBF) }

  predicate RuneStart(b: Byte) { !Continuation(b) }

  /** The second byte the first one allows: no overlong forms, no surrogates, nothing above U+10FFFF. */
  predicate SecondOk(first: Byte, second: Byte) {
    if first == 0xE0 then Between(second, 0xA0, 0xBF)
    else if first == 0xED then Between(second, 0x80, 0x9F)
    else if first == 0xF0 then Between(second, 0x90, 0xBF)
    else if first == 0xF4 then Between(second, 0x80, 0x8F)
    else Continuation(second)
  }

  function RuneWidth(first: Byte): nat {
    if first < 0x80 then 1
    else if Between(first, 0xC2, 0xDF) then 2
    else if Between(first, 0xE0, 0xEF) then 3
    else if Between(first, 0xF0, 0xF4) then 4
    else 0
  }

  /** The length of the UTF-8 character a string starts with; zero if it starts with none. */
  function RuneLength(s: seq<Byte>): (n: nat)
    ensures n <= |s| && n <= 4
  {
    if s == [] then 0
    else
      var n := RuneWidth(s[0]);
      if n > |s| || (n > 1 && !SecondOk(s[0], s[1])) || (n > 2 && !Continuation(s[2])) ||
         (n > 3 && !Continuation(s[3]))
      then 0
      else n
  }

  predicate ValidString(s: seq<Byte>)
    decreases |s|
  {
    s == [] || (RuneLength(s) > 0 && ValidString(s[RuneLength(s)..]))
  }

  predicate AtBoundary(s: seq<Byte>, i: nat)
    requires i <= |s|
  {
    i == |s| || RuneStart(s[i])
  }

  /** In valid text a cut leaves two valid halves exactly where the next byte starts a character. */
  lemma {:induction false} CutsValid(s: seq<Byte>, i: nat)
    requires ValidString(s) && i <= |s|
    ensures ValidString(s[..i]) <==> AtBoundary(s, i)
    ensures AtBoundary(s, i) ==> ValidString(s[i..])
    decreases |s|
  {
    if s == [] || i == 0 {
      assert s[0..] == s;
    } else {
      var n := RuneLength(s);
      if i >= n {
        CutsValid(s[n..], i - n);
        assert s[..i][n..] == s[n..][..i - n] && s[n..][i - n..] == s[i..];
      }
    }
  }

  /** A character is at most four bytes long, so the next cut is near. */
  lemma {:induction false} BoundaryNear(s: seq<Byte>, i: nat) returns (before: nat, after: nat)
    requires ValidString(s) && i <= |s|
    ensures before <= i <= after <= |s| && i - before <= 3 && after - i <= 3
    ensures AtBoundary(s, before) && AtBoundary(s, after)
    decreases |s|
  {
    var n := RuneLength(s);
    if s == [] || i == 0 {
      before, after := 0, 0;
    } else if i < n {
      before, after := 0, n;
      if n < |s| { assert RuneLength(s[n..]) > 0; }
    } else {
      before, after := BoundaryNear(s[n..], i - n);
      before, after := before + n, after + n;
    }
  }

  /** Head and tail of a text and the number of bytes between them: both are valid text of at most KEEP
      bytes, and at most three bytes of either are given up to end on a character.  The head is the longest valid
      one, and nothing is omitted from a text whose rest behind the head is short enough to keep. */
  method TruncateOutput(value: seq<Byte>) returns (head: seq<Byte>, omitted: nat, tail: seq<Byte>)
    requires ValidString(value)
    ensures |head| + omitted + |tail| == |value| && head <= value && tail == value[|head| + omitted..]
    ensures ValidString(head) && ValidString(tail) && |head| <= KEEP && |tail| <= KEEP
    ensures |value| > KEEP ==> |head| >= KEEP - 3
    ensures |tail| >= (if |value| - |head| < KEEP then |value| - |head| else KEEP) - 3
    ensures |value| <= KEEP ==> head == value
    ensures |value| - |head| <= KEEP ==> omitted == 0
    ensures forall k | |head| < k <= KEEP && k <= |value| :: !ValidString(value[..k])
  {
    hide ValidString, RuneStart;
    var headEnd: nat := if KEEP < |value| then KEEP else |value|;
    ghost var limit := headEnd;
    assert value[..|value|] == value;
    ghost var before, _ := BoundaryNear(value, limit);
    CutsValid(value, before);
    while headEnd > 0 && !ValidString(value[..headEnd])
      invariant before <= headEnd <= limit && (limit == |value| ==> headEnd == limit)
      invariant forall k | headEnd < k <= limit :: !ValidString(value[..k])
    {
      headEnd := headEnd - 1;
    }
    var tailStart: nat := if headEnd < |value| - KEEP then |value| - KEEP else headEnd;
    ghost var start := tailStart;
    if headEnd > before { assert ValidString(value[..headEnd]); }
    CutsValid(value, headEnd);
    ghost var _, after := BoundaryNear(value, start);
    while tailStart < |value| && !RuneStart(value[tailStart])
      invariant start <= tailStart <= after && (start == headEnd ==> tailStart == start)
    {
      tailStart := tailStart + 1;
    }
    CutsValid(value, tailStart);
    return value[..headEnd], tailStart - headEnd, value[tailStart..];
  }
}
