/** What the streamed-notice transformer keeps and how it rewrites a final answer. */
module NoticeLaws {
  import opened Base
  import opened NoticeStream

  // Every frame exactly once, in order.

  function Sources(out: seq<Sent>): seq<Frame> {
    if out == [] then [] else Sources(out[..|out| - 1]) + [out[|out| - 1].source]
  }

  function Typed(out: seq<Sent>): nat {
    if out == [] then 0 else Typed(out[..|out| - 1]) + if out[|out| - 1].event.Some? then 1 else 0
  }

  /** Typed frames are numbered 1, 2, 3, … in the order sent. */
  predicate Numbered(out: seq<Sent>) {
    forall i | 0 <= i < |out| ::
      out[i].event.Some? == out[i].source.event.Some? &&
      out[i].sequence == if out[i].event.Some? then Typed(out[..i + 1]) else 0
  }

  predicate Exact(s: State) { Numbered(s.out) && s.sequence == Typed(s.out) }

  lemma EmitExact(prefix: string, s: State, f: Frame)
    requires Exact(s)
    ensures Exact(Emit(prefix, s, f)) && Sources(Emit(prefix, s, f).out) == Sources(s.out) + [f]
  {
    hide FinalEvent, PrefixOutput, FirstDelta, HasText;
    var out, out' := s.out, Emit(prefix, s, f).out;
    assert out'[..|out|] == out;
    forall i | 0 <= i < |out'| ensures out'[i].sequence == if out'[i].event.Some? then Typed(out'[..i + 1]) else 0 {
      if i < |out| {
        assert out'[..i + 1] == out[..i + 1];
      } else {
        assert out'[..i + 1] == out';
      }
    }
  }

  lemma {:induction false} EmitAllExact(prefix: string, s: State, frames: seq<Frame>)
    requires Exact(s)
    ensures var s' := EmitAll(prefix, s, frames); Exact(s') && Sources(s'.out) == Sources(s.out) + frames
  {
    if frames == [] {
      assert Sources(s.out) + frames == Sources(s.out);
    } else {
      hide Emit, Exact, Sources;
      var front, last := frames[..|frames| - 1], frames[|frames| - 1];
      EmitAllExact(prefix, s, front);
      EmitExact(prefix, EmitAll(prefix, s, front), last);
      Joined(Sources(s.out), front, last);
      assert frames == front + [last];
    }
  }

  predicate HoldsBack(s: State) { s.held == 0 ==> s.pending == [] }

  lemma ReleaseExact(prefix: string, s: State)
    requires Exact(s)
    ensures var s' := Release(prefix, s);
            Exact(s') && s'.held == 0 && s'.pending == [] && Sources(s'.out) == Sources(s.out) + s.pending
  {
    hide Numbered, Emit, EmitAll;
    EmitAllPlain(prefix, s.(pending := [], held := 0, bytes := 0), s.pending);
    EmitAllExact(prefix, s.(pending := [], held := 0, bytes := 0), s.pending);
  }

  /** The state in which a step releases what is held back, if it does. */
  function Releasing(s: State, f: Frame): State {
    var s1 := Announce(s, f);
    var s2 := s1.(pending := s1.pending + [f], bytes := s1.bytes + f.size);
    if Terminal(f) || !Ends(s2, f) then s2
    else s2.(final := if ItemPhase(f) != Commentary then s2.final + {s2.held} else s2.final - {s2.held})
  }

  /** The three things a step can do. */
  lemma StepCases(prefix: string, s: State, f: Frame)
    ensures var s1 := Announce(s, f);
            Step(prefix, s, f) ==
              if s1.held == 0 then Emit(prefix, s1, f)
              else if Terminal(f) || Ends(s1, f) then Release(prefix, Releasing(s, f))
              else Releasing(s, f)
  {
    hide Emit, Release, Announce, Terminal;
  }

  lemma StepExact(prefix: string, s: State, f: Frame)
    requires Exact(s) && HoldsBack(s)
    ensures var s' := Step(prefix, s, f);
            Exact(s') && HoldsBack(s') && Sources(s'.out) + s'.pending == Sources(s.out) + s.pending + [f]
  {
    hide Emit, Release, Starts, Terminal, ItemPhase, Ends, Exact, Step;
    StepCases(prefix, s, f);
    var s1, s2 := Announce(s, f), Releasing(s, f);
    SameCount(s, s1);
    SameCount(s, s2);
    Joined(Sources(s.out), s.pending, f);
    if s1.held == 0 {
      EmitPlain(prefix, s1, f);
      EmitExact(prefix, s1, f);
      assert Sources(s.out) + [] + [f] == Sources(s.out) + [f] + [];
    } else {
      ReleaseExact(prefix, s2);
      assert Sources(s.out) + (s.pending + [f]) + [] == Sources(s.out) + (s.pending + [f]);
    }
  }

  lemma SameCount(s: State, s': State)
    requires Exact(s) && s'.out == s.out && s'.sequence == s.sequence
    ensures Exact(s')
  {
  }

  lemma Joined<T>(a: seq<T>, b: seq<T>, x: T)
    ensures a + (b + [x]) == a + b + [x]
  {
  }

  /** Whatever is held back meanwhile, the frames sent and then those held are the frames read, in order,
      and the typed ones are numbered without gaps. */
  lemma {:induction false} EveryFrameOnce(prefix: string, frames: seq<Frame>)
    ensures var s := Steps(prefix, frames);
            Exact(s) && HoldsBack(s) && Sources(s.out) + s.pending == frames
  {
    if frames != [] {
      hide Step, Exact;
      EveryFrameOnce(prefix, frames[..|frames| - 1]);
      StepExact(prefix, Steps(prefix, frames[..|frames| - 1]), frames[|frames| - 1]);
      assert frames[..|frames| - 1] + [frames[|frames| - 1]] == frames;
    }
  }

  // How the events of one final answer are rewritten.

  predicate Mentions(f: Frame, m: Id) {
    f.event.Some? &&
    (IdOf(f.event.value) == m || exists i | 0 <= i < |f.event.value.output| :: f.event.value.output[i].id == m)
  }

  function DeltaOf(event: Option<Event>, m: Id): string {
    if event.Some? && IdOf(event.value) == m && event.value.index == 0 && event.value.kind == TextDelta &&
       event.value.delta.Some?
    then event.value.delta.value
    else ""
  }

  predicate IsDelta(f: Frame, m: Id) {
    && f.event.Some? && IdOf(f.event.value) == m && f.event.value.index == 0
    && f.event.value.kind == TextDelta && f.event.value.delta.Some?
  }

  /** The text streamed for a message, as it arrived and as it was sent. */
  function Received(out: seq<Sent>, m: Id): string {
    if out == [] then "" else Received(out[..|out| - 1], m) + DeltaOf(out[|out| - 1].source.event, m)
  }

  function Streamed(out: seq<Sent>, m: Id): string {
    if out == [] then "" else Streamed(out[..|out| - 1], m) + DeltaOf(out[|out| - 1].event, m)
  }

  /** Every event about the message carries the prefix exactly where its text is. */
  predicate Prefixed(prefix: string, m: Id, from: Event, to: Event) {
    && to.kind == from.kind && IdOf(to) == IdOf(from) && to.index == from.index && |to.output| == |from.output|
    && (IdOf(from) == m ==>
         && to.item == (if from.item.Some?
                        then Some(PrefixItem(prefix, from.item.value).(phase := FinalAnswer)) else None)
         && to.text == (if from.index == 0 && from.kind == TextDone then PrefixText(prefix, from.text) else from.text)
         && to.part == (if from.index == 0 && from.kind == PartDone && from.part.Some? && from.part.value.outputText
                        then Some(from.part.value.(text := PrefixText(prefix, from.part.value.text))) else from.part))
    && (forall i | 0 <= i < |from.output| :: to.output[i].id == from.output[i].id)
    && (forall i | 0 <= i < |from.output| && from.output[i].id == m ::
         to.output[i] == PrefixItem(prefix, from.output[i]))
  }

  predicate SentOk(prefix: string, m: Id, x: Sent) {
    x.source.event.Some? && Mentions(x.source, m) ==>
      x.event.Some? && Prefixed(prefix, m, x.source.event.value, x.event.value)
  }

  predicate AllSentOk(prefix: string, m: Id, out: seq<Sent>) {
    forall i | 0 <= i < |out| :: SentOk(prefix, m, out[i])
  }

  predicate AnyDelta(out: seq<Sent>, m: Id) { exists i | 0 <= i < |out| :: IsDelta(out[i].source, m) }

  /** The prefix was streamed once, in front of the first delta. */
  predicate Agrees(prefix: string, m: Id, s: State) {
    && AllSentOk(prefix, m, s.out)
    && (AnyDelta(s.out, m) <==> m in s.started)
    && Streamed(s.out, m) == (if m in s.started then prefix else "") + Received(s.out, m)
  }

  lemma EmitEvent(prefix: string, m: Id, s: State, f: Frame)
    requires Mentions(f, m) ==> m in s.final
    ensures var s' := Emit(prefix, s, f); |s'.out| == |s.out| + 1 && SentOk(prefix, m, s'.out[|s.out|])
  {
    hide FirstDelta;
    if f.event.Some? {
      var e := f.event.value;
      forall i | 0 <= i < |e.output| && e.output[i].id == m
        ensures PrefixOutput(prefix, e.output, s.final)[i] == PrefixItem(prefix, e.output[i])
      {
        assert Mentions(f, m);
      }
    }
  }

  lemma EmitDelta(prefix: string, m: Id, s: State, f: Frame)
    requires Mentions(f, m) ==> m in s.final
    ensures var s' := Emit(prefix, s, f);
            && (m in s'.started <==> m in s.started || IsDelta(f, m))
            && DeltaOf(s'.out[|s.out|].event, m) ==
               (if IsDelta(f, m) && m !in s.started then prefix else "") + DeltaOf(f.event, m)
  {
    hide PrefixContent, PrefixOutput, HasText;
    if IsDelta(f, m) { assert Mentions(f, m); }
  }

  lemma EmitAgrees(prefix: string, m: Id, s: State, f: Frame)
    requires Agrees(prefix, m, s) && (Mentions(f, m) ==> m in s.final)
    ensures Agrees(prefix, m, Emit(prefix, s, f))
  {
    var s' := Emit(prefix, s, f);
    EmitEvent(prefix, m, s, f);
    EmitDelta(prefix, m, s, f);
    Emitted(prefix, s, f);
    hide Emit, SentOk, DeltaOf, IsDelta, Mentions, AllSentOk, AnyDelta;
    if m !in s.started { NoDeltas(s.out, m); }
    Appended(prefix, m, s.out, s'.out);
    Concat(prefix, Received(s.out, m), DeltaOf(f.event, m));
  }

  lemma Concat(a: string, b: string, c: string)
    ensures a + b + c == a + (b + c) && "" + a == a && a + "" == a
  {
  }

  lemma Appended(prefix: string, m: Id, out: seq<Sent>, out': seq<Sent>)
    requires |out'| == |out| + 1 && out'[..|out|] == out
    ensures AllSentOk(prefix, m, out) && SentOk(prefix, m, out'[|out|]) ==> AllSentOk(prefix, m, out')
    ensures AnyDelta(out', m) <==> AnyDelta(out, m) || IsDelta(out'[|out|].source, m)
  {
    hide SentOk, IsDelta;
    forall i | 0 <= i < |out| ensures out'[i] == out[i] { assert out'[..|out|][i] == out[i]; }
  }

  lemma Emitted(prefix: string, s: State, f: Frame)
    ensures var s' := Emit(prefix, s, f);
            |s'.out| == |s.out| + 1 && s'.out[..|s.out|] == s.out && s'.out[|s.out|].source == f && s'.final == s.final
  {
  }

  lemma {:induction false} NoDeltas(out: seq<Sent>, m: Id)
    requires !AnyDelta(out, m)
    ensures Received(out, m) == ""
  {
    if out != [] {
      var n := |out| - 1;
      assert !IsDelta(out[n].source, m);
      assert forall i | 0 <= i < n :: out[..n][i] == out[i];
      NoDeltas(out[..n], m);
    }
  }

  predicate Silent(frames: seq<Frame>, m: Id) { forall i | 0 <= i < |frames| :: !Mentions(frames[i], m) }

  lemma {:induction false} EmitAllAgrees(prefix: string, m: Id, s: State, frames: seq<Frame>)
    requires Agrees(prefix, m, s) && (m in s.final || Silent(frames, m))
    ensures var s' := EmitAll(prefix, s, frames); Agrees(prefix, m, s') && s'.final == s.final
  {
    hide Agrees, Emit, Mentions;
    EmitAllPlain(prefix, s, frames);
    if frames != [] {
      EmitAllAgrees(prefix, m, s, frames[..|frames| - 1]);
      EmitAgrees(prefix, m, EmitAll(prefix, s, frames[..|frames| - 1]), frames[|frames| - 1]);
    }
  }

  lemma ReleaseAgrees(prefix: string, m: Id, s: State)
    requires Agrees(prefix, m, s) && (m in s.final || Silent(s.pending, m))
    ensures var s' := Release(prefix, s);
            Agrees(prefix, m, s') && s'.final == s.final && s'.held == 0 && s'.pending == []
  {
    hide EmitAll, Agrees;
    AgreesSame(prefix, m, s, s.(pending := [], held := 0, bytes := 0));
    EmitAllPlain(prefix, s.(pending := [], held := 0, bytes := 0), s.pending);
    EmitAllAgrees(prefix, m, s.(pending := [], held := 0, bytes := 0), s.pending);
  }

  // Messages that are not final answers.

  /** Whatever an event says about the message is left as it is. */
  predicate Unchanged(m: Id, from: Event, to: Event) {
    && to.kind == from.kind && IdOf(to) == IdOf(from) && to.index == from.index && |to.output| == |from.output|
    && (IdOf(from) == m ==>
         to.item == from.item && to.delta == from.delta && to.text == from.text && to.part == from.part)
    && (forall i | 0 <= i < |from.output| :: to.output[i].id == from.output[i].id)
    && (forall i | 0 <= i < |from.output| && from.output[i].id == m :: to.output[i] == from.output[i])
  }

  predicate PlainOk(m: Id, x: Sent) {
    x.source.event.Some? && Mentions(x.source, m) ==>
      x.event.Some? && Unchanged(m, x.source.event.value, x.event.value)
  }

  /** Nothing sent about the message carries a prefix. */
  predicate Untouched(m: Id, out: seq<Sent>) {
    (forall i | 0 <= i < |out| :: PlainOk(m, out[i])) && Streamed(out, m) == Received(out, m)
  }

  lemma EmitUnchanged(prefix: string, m: Id, s: State, f: Frame)
    requires m !in s.final
    ensures var s' := Emit(prefix, s, f);
            |s'.out| == |s.out| + 1 && PlainOk(m, s'.out[|s.out|]) &&
              DeltaOf(s'.out[|s.out|].event, m) == DeltaOf(f.event, m)
  {
    hide PrefixContent, HasText;
    if f.event.Some? {
      var e := f.event.value;
      assert IdOf(e) == m ==> IdOf(e) !in s.final;
    }
  }

  lemma EmitUntouched(prefix: string, m: Id, s: State, f: Frame)
    requires m !in s.final && Untouched(m, s.out)
    ensures Untouched(m, Emit(prefix, s, f).out)
  {
    EmitUnchanged(prefix, m, s, f);
    Emitted(prefix, s, f);
    hide Emit, PlainOk, DeltaOf;
    var out, out' := s.out, Emit(prefix, s, f).out;
    forall i | 0 <= i < |out| ensures out'[i] == out[i] { assert out'[..|out|][i] == out[i]; }
  }

  lemma {:induction false} EmitAllUntouched(prefix: string, m: Id, s: State, frames: seq<Frame>)
    requires m !in s.final && Untouched(m, s.out)
    ensures var s' := EmitAll(prefix, s, frames); Untouched(m, s'.out) && m !in s'.final
  {
    hide Untouched, Emit;
    EmitAllPlain(prefix, s, frames);
    if frames != [] {
      EmitAllUntouched(prefix, m, s, frames[..|frames| - 1]);
      EmitUntouched(prefix, m, EmitAll(prefix, s, frames[..|frames| - 1]), frames[|frames| - 1]);
    }
  }

  lemma ReleaseUntouched(prefix: string, m: Id, s: State)
    requires m !in s.final && Untouched(m, s.out)
    ensures var s' := Release(prefix, s); Untouched(m, s'.out) && m !in s'.final && s'.held == 0
  {
    hide EmitAll, Untouched;
    EmitAllPlain(prefix, s.(pending := [], held := 0, bytes := 0), s.pending);
    EmitAllUntouched(prefix, m, s.(pending := [], held := 0, bytes := 0), s.pending);
  }

  // A message is announced once; from the moment it is known to be final every event about it is rewritten.

  predicate StartsMessage(f: Frame, m: Id) { Starts(f) && ItemId(f) == m }

  predicate Settled(prefix: string, m: Id, s: State) { Agrees(prefix, m, s) && m in s.final && s.held != m }

  /** The message is passed on as it is. */
  predicate Apart(m: Id, s: State) { Untouched(m, s.out) && m !in s.final && s.held != m }

  lemma AgreesSame(prefix: string, m: Id, s: State, s': State)
    requires Agrees(prefix, m, s) && s'.out == s.out && s'.started == s.started
    ensures Agrees(prefix, m, s')
  {
  }

  lemma StaysSettled(prefix: string, m: Id, s: State, f: Frame)
    requires Settled(prefix, m, s) && !StartsMessage(f, m) && m != 0
    ensures Settled(prefix, m, Step(prefix, s, f))
  {
    hide Agrees, Emit, Release, Terminal, Ends, Mentions, Step;
    StepCases(prefix, s, f);
    var s1, s2 := Announce(s, f), Releasing(s, f);
    AgreesSame(prefix, m, s, s1);
    AgreesSame(prefix, m, s, s2);
    if s1.held == 0 {
      EmitPlain(prefix, s1, f);
      EmitAgrees(prefix, m, s1, f);
    } else {
      ReleaseAgrees(prefix, m, s2);
    }
  }

  lemma StaysApart(prefix: string, m: Id, s: State, f: Frame)
    requires Apart(m, s) && m != 0 && (StartsMessage(f, m) ==> s.held != 0 || ItemPhase(f) == Commentary)
    ensures Apart(m, Step(prefix, s, f))
  {
    hide Untouched, Emit, Release, Terminal, Ends, Step;
    StepCases(prefix, s, f);
    var s1, s2 := Announce(s, f), Releasing(s, f);
    if s1.held == 0 {
      EmitPlain(prefix, s1, f);
      EmitUntouched(prefix, m, s1, f);
    } else {
      ReleaseUntouched(prefix, m, s2);
    }
  }

  /** Before its announcement nothing about the message is sent or held back. */
  predicate Quiet(prefix: string, m: Id, s: State) {
    Agrees(prefix, m, s) && Apart(m, s) && Silent(s.pending, m)
  }

  lemma StaysQuiet(prefix: string, m: Id, s: State, f: Frame)
    requires Quiet(prefix, m, s) && !Mentions(f, m) && m != 0
    ensures Quiet(prefix, m, Step(prefix, s, f))
  {
    hide Agrees, Emit, Release, Terminal, Ends, Step, Untouched;
    StaysApart(prefix, m, s, f);
    StepCases(prefix, s, f);
    var s1, s2 := Announce(s, f), Releasing(s, f);
    AgreesSame(prefix, m, s, s1);
    AgreesSame(prefix, m, s, s2);
    if s1.held == 0 {
      EmitPlain(prefix, s1, f);
      EmitAgrees(prefix, m, s1, f);
    } else {
      ReleaseAgrees(prefix, m, s2);
    }
  }

  lemma {:induction false} QuietBefore(prefix: string, m: Id, frames: seq<Frame>)
    requires m != 0 && Silent(frames, m)
    ensures Quiet(prefix, m, Steps(prefix, frames))
  {
    if frames != [] {
      hide Quiet, Step;
      QuietBefore(prefix, m, frames[..|frames| - 1]);
      StaysQuiet(prefix, m, Steps(prefix, frames[..|frames| - 1]), frames[|frames| - 1]);
    }
  }

  predicate Closes(f: Frame, m: Id) { f.event.Some? && f.event.value.kind == ItemDone && ItemId(f) == m }

  /** The message is announced by frame a and by no other, and nothing is said about it before. */
  predicate AnnouncedOnce(frames: seq<Frame>, a: nat, m: Id) {
    && a < |frames| && m != 0 && StartsMessage(frames[a], m) && Silent(frames[..a], m)
    && forall i | a < i < |frames| :: !StartsMessage(frames[i], m)
  }

  /** It is the final answer: no other message is held back when it is announced, and either the announcement says
      so or its completion, before any terminal frame, does not say commentary. */
  predicate IsFinalAnswer(prefix: string, frames: seq<Frame>, a: nat, m: Id)
    requires a < |frames|
  {
    FinalBy(prefix, frames, a, |frames|, m)
  }

  /** So much is known after n frames. */
  predicate FinalBy(prefix: string, frames: seq<Frame>, a: nat, n: nat, m: Id)
    requires a < n <= |frames|
  {
    && Steps(prefix, frames[..a]).held == 0
    && (ItemPhase(frames[a]) == FinalAnswer || (ItemPhase(frames[a]) == NoPhase && ClosedBefore(frames, a, n, m)))
  }

  predicate ClosedAt(frames: seq<Frame>, a: nat, d: nat, m: Id) {
    && a < d < |frames| && Closes(frames[d], m) && ItemPhase(frames[d]) != Commentary
    && forall i | a < i < d :: !Terminal(frames[i]) && !Closes(frames[i], m)
  }

  predicate ClosedBefore(frames: seq<Frame>, a: nat, n: nat, m: Id) {
    exists d | a < d < n :: ClosedAt(frames, a, d, m)
  }

  /** Announced without a phase, and neither its completion nor a terminal frame has been read. */
  predicate Open(prefix: string, frames: seq<Frame>, a: nat, n: nat, m: Id)
    requires a < n <= |frames|
  {
    && Steps(prefix, frames[..a]).held == 0 && ItemPhase(frames[a]) == NoPhase
    && forall i | a < i < n :: !Terminal(frames[i]) && !Closes(frames[i], m)
  }

  lemma OneMore(prefix: string, frames: seq<Frame>, a: nat, n: nat, m: Id)
    requires a + 1 < n <= |frames|
    ensures Open(prefix, frames, a, n, m) <==>
            Open(prefix, frames, a, n - 1, m) && !Terminal(frames[n - 1]) && !Closes(frames[n - 1], m)
    ensures FinalBy(prefix, frames, a, n, m) <==>
            FinalBy(prefix, frames, a, n - 1, m) ||
            (Open(prefix, frames, a, n - 1, m) && Closes(frames[n - 1], m) && ItemPhase(frames[n - 1]) != Commentary)
  {
    hide Steps, Terminal, ItemPhase, Closes;
    if ClosedBefore(frames, a, n, m) && !ClosedBefore(frames, a, n - 1, m) {
      assert ClosedAt(frames, a, n - 1, m);
    }
    if Open(prefix, frames, a, n - 1, m) && Closes(frames[n - 1], m) && ItemPhase(frames[n - 1]) != Commentary {
      assert ClosedAt(frames, a, n - 1, m);
    }
  }

  /** Held back: nothing about the message was sent yet. */
  predicate Waiting(prefix: string, m: Id, s: State) {
    Agrees(prefix, m, s) && Untouched(m, s.out) && m !in s.final && s.held == m
  }

  lemma Announced(prefix: string, m: Id, s: State, f: Frame)
    requires Quiet(prefix, m, s) && s.held == 0 && StartsMessage(f, m) && m != 0
    ensures var s' := Step(prefix, s, f);
            match ItemPhase(f)
            case FinalAnswer => Settled(prefix, m, s')
            case NoPhase => Terminal(f) || Waiting(prefix, m, s')
            case Commentary => Apart(m, s')
  {
    if ItemPhase(f) == Commentary { StaysApart(prefix, m, s, f); }
    hide Agrees, Emit, Release, Mentions, Step, Untouched;
    StepCases(prefix, s, f);
    var s1, s2 := Announce(s, f), Releasing(s, f);
    AgreesSame(prefix, m, s, s1);
    AgreesSame(prefix, m, s, s2);
    if ItemPhase(f) == FinalAnswer {
      EmitPlain(prefix, s1, f);
      EmitAgrees(prefix, m, s1, f);
    }
  }

  lemma Waits(prefix: string, m: Id, s: State, f: Frame)
    requires Waiting(prefix, m, s) && m != 0
    ensures var s' := Step(prefix, s, f);
            if Terminal(f) then Apart(m, s')
            else if !Closes(f, m) then Waiting(prefix, m, s')
            else if ItemPhase(f) == Commentary then Apart(m, s')
            else Settled(prefix, m, s')
  {
    hide Agrees, Emit, Release, Mentions, Terminal, Step, Untouched;
    StepCases(prefix, s, f);
    var s2 := Releasing(s, f);
    AgreesSame(prefix, m, s, s2);
    if m in s2.final { ReleaseAgrees(prefix, m, s2); } else { ReleaseUntouched(prefix, m, s2); }
  }

  /** From its announcement on a message is held back, settled as a final answer, or passed on as it is. */
  lemma {:induction false} MessageFrom(prefix: string, frames: seq<Frame>, a: nat, m: Id, n: nat)
    requires AnnouncedOnce(frames, a, m) && a < n <= |frames|
    ensures var s := Steps(prefix, frames[..n]);
            if FinalBy(prefix, frames, a, n, m) then Settled(prefix, m, s)
            else if Open(prefix, frames, a, n, m) then Waiting(prefix, m, s)
            else Apart(m, s)
  {
    hide Settled, Apart, Waiting, Step, Release, Terminal, ItemPhase, Closes, ClosedAt;
    var f := frames[n - 1];
    assert frames[..n][..n - 1] == frames[..n - 1];
    if n == a + 1 {
      var s := Steps(prefix, frames[..a]);
      QuietBefore(prefix, m, frames[..a]);
      StartIsTyped(f, m);
      if s.held == 0 { Announced(prefix, m, s, f); } else { StaysApart(prefix, m, s, f); }
    } else {
      MessageFrom(prefix, frames, a, m, n - 1);
      OneMore(prefix, frames, a, n, m);
      var s := Steps(prefix, frames[..n - 1]);
      hide Open, FinalBy, Steps;
      assert !StartsMessage(f, m);
      if FinalBy(prefix, frames, a, n - 1, m) {
        StaysSettled(prefix, m, s, f);
      } else if Open(prefix, frames, a, n - 1, m) {
        Waits(prefix, m, s, f);
        ClosesIsNotTerminal(f, m);
      } else {
        StaysApart(prefix, m, s, f);
      }
    }
  }

  lemma StartIsTyped(f: Frame, m: Id)
    requires StartsMessage(f, m)
    ensures !Terminal(f)
  {
  }

  lemma ClosesIsNotTerminal(f: Frame, m: Id)
    ensures Closes(f, m) ==> !Terminal(f)
  {
  }

  /** Every message announced once is treated as a whole: either it is a final answer, and every event about it is
      sent with the prefix, once and consistently (in front of the first delta, of the finished text and part, and
      of the first text part of the item wherever it appears), or nothing about it is changed. */
  lemma {:induction false} PrefixedOrUntouched(prefix: string, frames: seq<Frame>, a: nat, m: Id)
    requires AnnouncedOnce(frames, a, m)
    ensures var s := Steps(prefix, frames);
            if IsFinalAnswer(prefix, frames, a, m) then Agrees(prefix, m, s) && m in s.final
            else Untouched(m, s.out) && m !in s.final
  {
    hide Agrees, Untouched, FinalBy, Open, Steps;
    MessageFrom(prefix, frames, a, m, |frames|);
    assert frames[..|frames|] == frames;
  }

  // One text part at index 0.

  predicate OneText(content: seq<Part>, text: string) { content == [Part(true, Some(text))] }

  /** What an event says about the text of the message; the announcement may still be empty. */
  predicate Says(e: Event, m: Id, text: string) {
    && (IdOf(e) == m && e.item.Some? ==> e.item.value.content == [] || OneText(e.item.value.content, text))
    && (IdOf(e) == m && e.index == 0 && e.kind == TextDone ==> e.text == Some(text))
    && (IdOf(e) == m && e.index == 0 && e.kind == PartDone && e.part.Some? && e.part.value.outputText ==>
         e.part.value.text == Some(text))
    && (forall i | 0 <= i < |e.output| && e.output[i].id == m :: OneText(e.output[i].content, text))
  }

  lemma PrefixOne(prefix: string, content: seq<Part>, text: string)
    requires text != "" && OneText(content, text)
    ensures OneText(PrefixContent(prefix, content), prefix + text)
  {
    assert content[0] == Part(true, Some(text)) && content[1..] == [];
  }

  lemma PrefixedSays(prefix: string, m: Id, from: Event, to: Event, text: string)
    requires text != "" && Says(from, m, text) && Prefixed(prefix, m, from, to)
    ensures Says(to, m, prefix + text)
  {
    if IdOf(from) == m && from.item.Some? && from.item.value.content != [] {
      PrefixOne(prefix, from.item.value.content, text);
    }
    forall i | 0 <= i < |to.output| && to.output[i].id == m ensures OneText(to.output[i].content, prefix + text) {
      assert from.output[i].id == m;
      PrefixOne(prefix, from.output[i].content, text);
    }
  }

  /** Upstream streams the text in deltas and says it in every event. */
  predicate Upstream(out: seq<Sent>, m: Id, text: string) {
    && text != "" && AnyDelta(out, m) && Received(out, m) == text
    && forall i | 0 <= i < |out| && out[i].source.event.Some? && Mentions(out[i].source, m) ::
         Says(out[i].source.event.value, m, text)
  }

  /** So does what is sent. */
  predicate Downstream(out: seq<Sent>, m: Id, text: string) {
    && Streamed(out, m) == text
    && forall i | 0 <= i < |out| && out[i].source.event.Some? && Mentions(out[i].source, m) ::
         out[i].event.Some? && Says(out[i].event.value, m, text)
  }

  lemma AgreeingAnswer(prefix: string, s: State, m: Id, text: string)
    requires Agrees(prefix, m, s) && Upstream(s.out, m, text)
    ensures Downstream(s.out, m, prefix + text)
  {
    hide Says, Prefixed, Mentions;
    forall i | 0 <= i < |s.out| && s.out[i].source.event.Some? && Mentions(s.out[i].source, m)
      ensures s.out[i].event.Some? && Says(s.out[i].event.value, m, prefix + text)
    {
      assert SentOk(prefix, m, s.out[i]);
      PrefixedSays(prefix, m, s.out[i].source.event.value, s.out[i].event.value, text);
    }
  }

  lemma UnchangedSays(m: Id, from: Event, to: Event, text: string)
    requires Says(from, m, text) && Unchanged(m, from, to)
    ensures Says(to, m, text)
  {
    forall i | 0 <= i < |to.output| && to.output[i].id == m ensures OneText(to.output[i].content, text) {
      assert from.output[i].id == m;
    }
  }

  lemma PlainAnswer(s: State, m: Id, text: string)
    requires Untouched(m, s.out) && Upstream(s.out, m, text)
    ensures Downstream(s.out, m, text)
  {
    hide Says, Unchanged, Mentions;
    forall i | 0 <= i < |s.out| && s.out[i].source.event.Some? && Mentions(s.out[i].source, m)
      ensures s.out[i].event.Some? && Says(s.out[i].event.value, m, text)
    {
      assert PlainOk(m, s.out[i]);
      UnchangedSays(m, s.out[i].source.event.value, s.out[i].event.value, text);
    }
  }

  /** If the upstream deltas of a message add up to its text and all its events say that text, then what is sent adds
      up to one text, the prefix and the text for a final answer and else the text, and every event sent says that. */
  lemma {:induction false} OneAnswer(prefix: string, frames: seq<Frame>, a: nat, m: Id, text: string)
    requires AnnouncedOnce(frames, a, m)
    ensures var s, final := Steps(prefix, frames), IsFinalAnswer(prefix, frames, a, m);
            Upstream(s.out, m, text) ==> Downstream(s.out, m, if final then prefix + text else text)
  {
    hide IsFinalAnswer, Agrees, Upstream, Downstream, Steps, Untouched;
    PrefixedOrUntouched(prefix, frames, a, m);
    if Upstream(Steps(prefix, frames).out, m, text) {
      if IsFinalAnswer(prefix, frames, a, m) {
        AgreeingAnswer(prefix, Steps(prefix, frames), m, text);
      } else {
        PlainAnswer(Steps(prefix, frames), m, text);
      }
    }
  }
}
