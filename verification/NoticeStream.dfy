/** Prefixing the final answer of a streamed response (streamNotice in internal/responsesproxy/notice.go).
    A frame is one server-sent event, as framed by section 9.2 of the WHATWG HTML Standard. */
module NoticeStream {
  import opened Base

  /** Item ids; 0 is the empty id. */
  type Id = nat

  datatype Kind =
    ItemAdded | ItemDone | TextDelta | TextDone | PartDone | Completed | Incomplete | Failed | ErrorEvent | OtherKind

  datatype Phase = FinalAnswer | Commentary | NoPhase

  datatype Part = Part(outputText: bool, text: Option<string>)

  datatype Item = Item(id: Id, message: bool, assistant: bool, phase: Phase, content: seq<Part>)

  datatype Event = Event(
    kind: Kind, itemId: Id, item: Option<Item>, index: int, delta: Option<string>, text: Option<string>,
    part: Option<Part>, output: seq<Item>, rest: nat)

  /** A frame without a typed event (a comment, say) is passed through as it is. */
  datatype Frame = Frame(size: nat, event: Option<Event>)

  datatype Sent = Sent(source: Frame, event: Option<Event>, sequence: nat)

  datatype State = State(
    final: set<Id>, started: set<Id>, inserted: bool,
    pending: seq<Frame>, held: Id, bytes: nat, sequence: nat, out: seq<Sent>)

  const MAX_REQUEST := 67108864

  predicate Terminal(f: Frame) {
    f.event.Some? && (f.event.value.kind == Completed || f.event.value.kind == Incomplete ||
                      f.event.value.kind == Failed || f.event.value.kind == ErrorEvent)
  }

  // Emitting one frame.

  predicate Prefixable(p: Part) { p.outputText && p.text.Some? && p.text.value != "" }

  /** The prefix goes in front of the first non-empty text part. */
  function PrefixContent(prefix: string, content: seq<Part>): seq<Part> {
    if content == [] then []
    else if Prefixable(content[0]) then [content[0].(text := Some(prefix + content[0].text.value))] + content[1..]
    else [content[0]] + PrefixContent(prefix, content[1..])
  }

  predicate HasText(content: seq<Part>) { exists i | 0 <= i < |content| :: Prefixable(content[i]) }

  function PrefixItem(prefix: string, item: Item): Item { item.(content := PrefixContent(prefix, item.content)) }

  function PrefixOutput(prefix: string, output: seq<Item>, final: set<Id>): (r: seq<Item>)
    ensures |r| == |output|
    ensures forall i | 0 <= i < |output| ::
              r[i] == if output[i].id in final then PrefixItem(prefix, output[i]) else output[i]
  {
    seq(|output|, i requires 0 <= i < |output| =>
      if output[i].id in final then PrefixItem(prefix, output[i]) else output[i])
  }

  function IdOf(e: Event): Id { if e.item.Some? then e.item.value.id else e.itemId }

  predicate FirstDelta(e: Event, started: set<Id>) {
    e.index == 0 && e.kind == TextDelta && e.delta.Some? && IdOf(e) !in started
  }

  function PrefixText(prefix: string, text: Option<string>): Option<string> {
    if text.Some? then Some(prefix + text.value) else None
  }

  /** An event of a final answer. */
  function FinalEvent(prefix: string, e: Event, started: set<Id>): Event {
    var e1 := if e.item.Some? then e.(item := Some(PrefixItem(prefix, e.item.value).(phase := FinalAnswer))) else e;
    if e.index != 0 then e1
    else
      e1.(delta := if FirstDelta(e, started) then PrefixText(prefix, e.delta) else e.delta,
          text := if e.kind == TextDone then PrefixText(prefix, e.text) else e.text,
          part := if e.kind == PartDone && e.part.Some? && e.part.value.outputText
                  then Some(e.part.value.(text := PrefixText(prefix, e.part.value.text))) else e.part)
  }

  function Emit(prefix: string, s: State, f: Frame): State {
    if f.event.None? then s.(out := s.out + [Sent(f, None, 0)])
    else
      var e := f.event.value;
      var own := IdOf(e) in s.final;
      var e1 := if own then FinalEvent(prefix, e, s.started) else e;
      var e2 := e1.(output := PrefixOutput(prefix, e1.output, s.final));
      var first := own && FirstDelta(e, s.started);
      s.(sequence := s.sequence + 1,
         started := if first then s.started + {IdOf(e)} else s.started,
         inserted := s.inserted || first || (own && e.item.Some? && HasText(e.item.value.content)) ||
                     (exists i | 0 <= i < |e.output| :: e.output[i].id in s.final && HasText(e.output[i].content)),
         out := s.out + [Sent(f, Some(e2), s.sequence + 1)])
  }

  function EmitAll(prefix: string, s: State, frames: seq<Frame>): State {
    if frames == [] then s else Emit(prefix, EmitAll(prefix, s, frames[..|frames| - 1]), frames[|frames| - 1])
  }

  // Reading one frame.

  predicate Starts(f: Frame) {
    f.event.Some? && f.event.value.kind == ItemAdded && f.event.value.item.Some? &&
    f.event.value.item.value.message && f.event.value.item.value.assistant
  }

  function ItemId(f: Frame): Id {
    if f.event.Some? && f.event.value.item.Some? then f.event.value.item.value.id else 0
  }

  function ItemPhase(f: Frame): Phase {
    if f.event.Some? && f.event.value.item.Some? then f.event.value.item.value.phase else NoPhase
  }

  /** A new assistant message is final at once, or held back until its phase is known. */
  function Announce(s: State, f: Frame): State {
    if s.held != 0 || !Starts(f) then s
    else
      match ItemPhase(f)
      case FinalAnswer => s.(final := s.final + {ItemId(f)})
      case NoPhase => s.(held := ItemId(f))
      case Commentary => s
  }

  predicate Ends(s: State, f: Frame) {
    f.event.Some? && f.event.value.kind == ItemDone && ItemId(f) == s.held
  }

  /** Send everything held back. */
  function Release(prefix: string, s: State): State {
    EmitAll(prefix, s.(pending := [], held := 0, bytes := 0), s.pending)
  }

  function Step(prefix: string, s: State, f: Frame): State {
    var s1 := Announce(s, f);
    if s1.held == 0 then Emit(prefix, s1, f)
    else
      var s2 := s1.(pending := s1.pending + [f], bytes := s1.bytes + f.size);
      if Terminal(f) then Release(prefix, s2)
      else if !Ends(s2, f) then s2
      else
        Release(prefix, s2.(final := if ItemPhase(f) != Commentary then s2.final + {s2.held} else s2.final - {s2.held}))
  }

  function Initial(): State { State({}, {}, false, [], 0, 0, 0, []) }

  function Steps(prefix: string, frames: seq<Frame>): State {
    if frames == [] then Initial() else Step(prefix, Steps(prefix, frames[..|frames| - 1]), frames[|frames| - 1])
  }

  /** How many frames are read: up to and including the first terminal one. */
  function Reads(frames: seq<Frame>): (n: nat)
    ensures n <= |frames|
    ensures forall i | 0 <= i < n - 1 :: !Terminal(frames[i])
    ensures n < |frames| ==> n > 0 && Terminal(frames[n - 1])
  {
    if frames == [] then 0 else if Terminal(frames[0]) then 1 else 1 + Reads(frames[1..])
  }

  // The transformer.

  datatype Result = Finished(inserted: bool) | ReadFailed | TooLarge | Disconnected | EndedEarly

  /** Emitting appends one frame each. */
  lemma {:induction false} EmitAllAppends(prefix: string, s: State, frames: seq<Frame>, i: nat)
    requires i <= |frames|
    ensures |EmitAll(prefix, s, frames).out| == |s.out| + |frames|
    ensures EmitAll(prefix, s, frames[..i]).out == EmitAll(prefix, s, frames).out[..|s.out| + i]
  {
    if frames == [] {
    } else if i < |frames| {
      hide FinalEvent, PrefixOutput, HasText, FirstDelta;
      EmitAllAppends(prefix, s, frames[..|frames| - 1], i);
      assert frames[..|frames| - 1][..i] == frames[..i];
    } else {
      hide FinalEvent, PrefixOutput, HasText, FirstDelta;
      EmitAllAppends(prefix, s, frames[..|frames| - 1], 0);
      assert frames[..i] == frames;
    }
  }

  /** Writes to a client that takes at most `room` frames. */
  method EmitFrames(prefix: string, before: State, frames: seq<Frame>, room: nat) returns (s: State, ok: bool)
    requires |before.out| <= room
    ensures var all := EmitAll(prefix, before, frames);
            ok == (|all.out| <= room) && (if ok then s == all else s.out == all.out[..room])
  {
    s := before;
    EmitAllAppends(prefix, before, frames, 0);
    for i := 0 to |frames|
      invariant s == EmitAll(prefix, before, frames[..i]) && |s.out| == |before.out| + i <= room
    {
      EmitAllAppends(prefix, before, frames, i);
      if |s.out| >= room {
        return s, false;
      }
      assert frames[..i + 1][..i] == frames[..i];
      s := Emit(prefix, s, frames[i]);
      EmitAllAppends(prefix, before, frames[..i + 1], 0);
    }
    assert frames[..|frames|] == frames;
    return s, true;
  }

  predicate AnyTerminal(frames: seq<Frame>) { exists i | 0 <= i < |frames| :: Terminal(frames[i]) }

  /** The frame would make the frames held back too large. */
  predicate Overflows(s: State, f: Frame) {
    Announce(s, f).held != 0 && s.bytes + f.size > MAX_REQUEST
  }

  datatype Progress = Went | Overflowed | Gone

  /** The body of the reading loop. */
  method ReadFrame(prefix: string, before: State, f: Frame, room: nat) returns (s: State, progress: Progress)
    requires |before.out| <= room && (before.held == 0 ==> before.pending == [])
    ensures progress.Overflowed? <==> Overflows(before, f)
    ensures progress.Overflowed? ==> s.out == before.out
    ensures !progress.Overflowed? ==> (progress.Gone? <==> |Step(prefix, before, f).out| > room)
    ensures progress.Gone? ==> s.out == Step(prefix, before, f).out[..room]
    ensures progress.Went? ==> s == Step(prefix, before, f) && (s.held == 0 ==> s.pending == [])
    ensures progress.Went? && Terminal(f) ==> s.held == 0
  {
    hide Emit, EmitAll, Ends, Terminal, Starts, ItemPhase;
    s := Announce(before, f);
    if s.held != 0 {
      s := s.(pending := s.pending + [f], bytes := s.bytes + f.size);
      if s.bytes > MAX_REQUEST {
        return s, Overflowed;
      }
      if !Terminal(f) {
        if !Ends(s, f) {
          return s, Went;
        }
        s := s.(final := if ItemPhase(f) != Commentary then s.final + {s.held} else s.final - {s.held});
      }
      var pending := s.pending;
      s := s.(pending := [], held := 0, bytes := 0);
      EmitAllPlain(prefix, s, pending);
      var released, ok := EmitFrames(prefix, s, pending, room);
      return released, if ok then Went else Gone;
    }
    EmitOne(prefix, s, f);
    EmitPlain(prefix, s, f);
    if |s.out| >= room {
      return s, Gone;
    }
    return Emit(prefix, s, f), Went;
  }

  /** `broken` says that reading fails after the given frames instead of reaching the end of the stream; `read`
      counts the frames read.  The observer is called once for a terminal frame read, even when the client is gone. */
  method StreamNotice(prefix: string, frames: seq<Frame>, broken: bool, room: nat)
    returns (result: Result, out: seq<Sent>, observed: nat, read: nat)
    ensures read <= Reads(frames) && observed == if AnyTerminal(frames[..read]) then 1 else 0
    ensures result.Finished? ==> var s := Steps(prefix, frames[..read]);
            read == Reads(frames) && out == s.out && result.inserted == s.inserted && s.held == 0 && s.pending == []
    ensures result.Finished? && broken ==> AnyTerminal(frames)
    ensures result == Disconnected ==>
              var all := Steps(prefix, frames[..read]).out; room < |all| && out == all[..room]
    ensures result != Disconnected ==> |out| <= room
    ensures result == EndedEarly || result == ReadFailed ==> out == Steps(prefix, frames).out && !AnyTerminal(frames)
    ensures result == EndedEarly ==> Steps(prefix, frames).held != 0
    ensures result == ReadFailed ==> broken
    ensures result == TooLarge ==>
              read > 0 && Overflows(Steps(prefix, frames[..read - 1]), frames[read - 1]) &&
              out == Steps(prefix, frames[..read - 1]).out
  {
    hide Step, Terminal, Overflows, Reads;
    var s, progress := Initial(), Went;
    observed, read := 0, 0;
    for i := 0 to |frames|
      invariant s == Steps(prefix, frames[..i]) && observed == 0 && (s.held == 0 ==> s.pending == [])
      invariant read == i <= Reads(frames) && |s.out| <= room
      invariant forall k | 0 <= k < i :: !Terminal(frames[k])
    {
      var f := frames[i];
      read := i + 1;
      assert frames[..i + 1][..i] == frames[..i];
      ReadsFirst(frames, i);
      if Terminal(f) {
        observed := 1;
        assert Terminal(frames[..read][i]);
      }
      s, progress := ReadFrame(prefix, s, f, room);
      if progress != Went {
        return if progress == Overflowed then TooLarge else Disconnected, s.out, observed, read;
      }
      if Terminal(f) {
        return Finished(s.inserted), s.out, observed, read;
      }
    }
    assert frames[..|frames|] == frames;
    ReadsAll(frames);
    if broken {
      return ReadFailed, s.out, observed, read;
    }
    if s.held != 0 {
      return EndedEarly, s.out, observed, read;
    }
    return Finished(s.inserted), s.out, observed, read;
  }

  lemma EmitOne(prefix: string, s: State, f: Frame)
    ensures |Emit(prefix, s, f).out| == |s.out| + 1 && Emit(prefix, s, f).out[..|s.out|] == s.out
  {
  }

  lemma {:induction false} ReadsFirst(frames: seq<Frame>, i: nat)
    requires i < |frames| && forall k | 0 <= k < i :: !Terminal(frames[k])
    ensures Reads(frames) > i && (Terminal(frames[i]) ==> Reads(frames) == i + 1)
    decreases i
  {
    if i > 0 { ReadsFirst(frames[1..], i - 1); }
  }

  lemma {:induction false} ReadsAll(frames: seq<Frame>)
    requires forall k | 0 <= k < |frames| :: !Terminal(frames[k])
    ensures Reads(frames) == |frames|
  {
    if frames != [] { ReadsAll(frames[1..]); }
  }

  lemma EmitPlain(prefix: string, s: State, f: Frame)
    ensures var s' := Emit(prefix, s, f);
            s'.pending == s.pending && s'.held == s.held && s'.bytes == s.bytes && s'.final == s.final
  {
  }

  /** Emitting changes nothing about what is held back. */
  lemma {:induction false} EmitAllPlain(prefix: string, s: State, frames: seq<Frame>)
    ensures var s' := EmitAll(prefix, s, frames);
            s'.pending == s.pending && s'.held == s.held && s'.bytes == s.bytes && s'.final == s.final
  {
    if frames != [] { EmitAllPlain(prefix, s, frames[..|frames| - 1]); }
  }
}
