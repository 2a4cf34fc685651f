/** From the streamed answer to its replay: what upstream said is what upstream gets back. */
module NoticeReplay {
  import opened Base
  import opened NoticeStream
  import opened NoticeLaws
  import N = Notice

  predicate CleanItem(item: Item) { N.Clean(N.Parts(item.content)) }

  /** A client sends the item back as it received it. */
  function Replayed(item: Item): N.Message { N.Message(item.assistant, false, N.Parts(item.content)) }

  /** Replaying the item that was sent gives upstream the item upstream sent. */
  predicate Restores(from: Item, to: Item) {
    from.assistant && CleanItem(from) ==> to.assistant && N.Prepared([Replayed(to)]) == [Replayed(from)]
  }

  lemma ItemRestored(account: N.Account, from: Item, to: Item)
    requires !N.HasBreak(N.Label(account)) && to.assistant == from.assistant
    requires to.content == from.content || to.content == PrefixContent(N.AccountNotice(account), from.content)
    ensures Restores(from, to)
  {
    hide N.Clean, N.Noticed, N.StripContent, N.HasBreak;
    if from.assistant && CleanItem(from) {
      var content := N.Parts(from.content);
      NoticedIs(account, from.content);
      assert [Replayed(to)][..0] == [] == N.Prepared([]);
      N.NoticedRestored(account, content);
      N.CleanMeans(content);
    }
  }

  lemma NoticedIs(account: N.Account, parts: seq<Part>)
    ensures N.Noticed(account, N.Parts(parts)) == N.Parts(PrefixContent(N.AccountNotice(account), parts))
  {
  }

  /** Everything one event says about the message. */
  predicate EventRestores(m: Id, from: Event, to: Event) {
    && (from.item.Some? && from.item.value.id == m ==> to.item.Some? && Restores(from.item.value, to.item.value))
    && |to.output| == |from.output|
    && (forall i | 0 <= i < |from.output| && from.output[i].id == m :: Restores(from.output[i], to.output[i]))
  }

  lemma PrefixedRestores(account: N.Account, m: Id, from: Event, to: Event)
    requires !N.HasBreak(N.Label(account)) && Prefixed(N.AccountNotice(account), m, from, to)
    ensures EventRestores(m, from, to)
  {
    hide N.AccountNotice, N.HasBreak, PrefixContent, Restores;
    if from.item.Some? && from.item.value.id == m { ItemRestored(account, from.item.value, to.item.value); }
    forall i | 0 <= i < |from.output| && from.output[i].id == m ensures Restores(from.output[i], to.output[i]) {
      ItemRestored(account, from.output[i], to.output[i]);
    }
  }

  lemma UnchangedRestores(account: N.Account, m: Id, from: Event, to: Event)
    requires !N.HasBreak(N.Label(account)) && Unchanged(m, from, to)
    ensures EventRestores(m, from, to)
  {
    hide N.AccountNotice, N.HasBreak, PrefixContent, Restores;
    if from.item.Some? && from.item.value.id == m { ItemRestored(account, from.item.value, to.item.value); }
    forall i | 0 <= i < |from.output| && from.output[i].id == m ensures Restores(from.output[i], to.output[i]) {
      ItemRestored(account, from.output[i], to.output[i]);
    }
  }

  /** Whichever event of a message a client takes its item from (its announcement, its completion or the completed
      response), and whether or not the message was prefixed, replaying the item gives upstream what upstream sent. */
  lemma StreamedRestored(account: N.Account, frames: seq<Frame>, a: nat, m: Id, k: nat)
    requires AnnouncedOnce(frames, a, m) && !N.HasBreak(N.Label(account))
    requires k < |Steps(N.AccountNotice(account), frames).out|
    ensures var sent := Steps(N.AccountNotice(account), frames).out[k];
            sent.source.event.Some? && Mentions(sent.source, m) ==>
              sent.event.Some? && EventRestores(m, sent.source.event.value, sent.event.value)
  {
    hide Steps, IsFinalAnswer, EventRestores, Prefixed, Unchanged, Mentions, N.AccountNotice, N.HasBreak;
    var prefix := N.AccountNotice(account);
    PrefixedOrUntouched(prefix, frames, a, m);
    var sent := Steps(prefix, frames).out[k];
    if sent.source.event.Some? && Mentions(sent.source, m) {
      if IsFinalAnswer(prefix, frames, a, m) {
        assert SentOk(prefix, m, sent);
        PrefixedRestores(account, m, sent.source.event.value, sent.event.value);
      } else {
        assert PlainOk(m, sent);
        UnchangedRestores(account, m, sent.source.event.value, sent.event.value);
      }
    }
  }
}
