/** The account notice put in front of an answer, and its removal when the answer is replayed
    (AccountNoticeAt and PrepareNotice in internal/responsesproxy/notice.go). */
module Notice {
  import opened Base
  import S = NoticeStream

  const MINUTE := 60_000_000_000  // nanoseconds

  datatype Status = NoStatus | Retry | Failover

  /** Percentages and the time left until each reset, in nanoseconds, where known. */
  datatype Account = Account(
    name: string, id: string, short: Option<int>, weekly: Option<int>, shortLeft: Option<int>, weeklyLeft: Option<int>,
    status: Status)

  // Building the notice.

  predicate OneLine(s: string) { '\n' !in s }

  function Digit(d: int): (c: char)
    requires 0 <= d < 10
    ensures c != '\n'
  {
    "0123456789"[d]
  }

  function Digits(n: nat): (s: string)
    ensures OneLine(s) && s != ""
  {
    if n < 10 then [Digit(n)] else Digits(n / 10) + [Digit(n % 10)]
  }

  function Decimal(n: int): (s: string)
    ensures OneLine(s)
  {
    if n < 0 then "-" + Digits(-n) else Digits(n)
  }

  function Percent(value: Option<int>): (s: string)
    ensures OneLine(s)
  {
    if value.None? then "\U{2014}" else Decimal(value.value) + "%"
  }

  /** Minutes left, rounded up, as days and hours, hours and minutes, or minutes. */
  function Remaining(left: Option<int>): (s: string)
    ensures OneLine(s)
  {
    if left.None? then "\U{2014}"
    else
      var minutes := Max(0, Quotient(left.value + MINUTE - 1, MINUTE));
      if minutes >= 24 * 60 then Decimal(minutes / (24 * 60)) + "d" + Decimal(minutes / 60 % 24) + "h"
      else if minutes >= 60 then Decimal(minutes / 60) + "h" + Decimal(minutes % 60) + "m"
      else Decimal(minutes) + "m"
  }

  function StatusText(status: Status): (s: string)
    ensures OneLine(s)
  {
    match status
    case NoStatus => ""
    case Retry => " \U{B7} \U{21BB} retry"
    case Failover => " \U{B7} \U{21BB} failover"
  }

  const HAMMER := "\U{1F528} "
  const SHORT := " \U{B7} 5h "
  const WEEKLY := " \U{B7} 7d "
  const BREAK := "\n\n"

  function Label(a: Account): string { if a.name == "" then a.id else a.name }

  /** Everything after the title, up to the blank line. */
  function Rest(a: Account): (s: string)
    ensures OneLine(s)
  {
    SHORT + Percent(a.short) + " " + Remaining(a.shortLeft) +
    WEEKLY + Percent(a.weekly) + " " + Remaining(a.weeklyLeft) + StatusText(a.status)
  }

  function AccountNotice(a: Account): string { HAMMER + Label(a) + Rest(a) + BREAK }

  // Removing it.

  predicate At(s: string, i: int, sub: string) { 0 <= i <= |s| - |sub| && s[i..i + |sub|] == sub }

  predicate Contains(s: string, sub: string) { exists i | 0 <= i <= |s| :: At(s, i, sub) }

  predicate HasPrefix(s: string, prefix: string) { At(s, 0, prefix) }

  /** A blank line starts here. */
  predicate BreakAt(s: string, i: int) { 0 <= i && i + 1 < |s| && s[i] == '\n' && s[i + 1] == '\n' }

  predicate HasBreak(s: string) { exists i | 0 <= i < |s| :: BreakAt(s, i) }

  function FirstBreak(s: string, from: nat): (r: Option<nat>)
    requires from <= |s|
    ensures r.Some? ==> from <= r.value && BreakAt(s, r.value)
    ensures forall i | from <= i && (r.Some? ==> i < r.value) :: !BreakAt(s, i)
    decreases |s| - from
  {
    if from == |s| then None else if BreakAt(s, from) then Some(from) else FirstBreak(s, from + 1)
  }

  predicate NoticeLine(line: string) {
    || (HasPrefix(line, "Codex Broker: ") && Contains(line, " \U{B7} short ") && Contains(line, " \U{B7} weekly "))
    || (HasPrefix(line, HAMMER) && Contains(line, SHORT) && Contains(line, WEEKLY))
  }

  function Strip(text: string): string {
    var at := FirstBreak(text, 0);
    if at.Some? && NoticeLine(text[..at.value]) then text[at.value + 2..] else text
  }

  // The removal undoes the insertion.

  function Line(a: Account): string { HAMMER + Label(a) + Rest(a) }

  lemma RestStarts(a: Account)
    ensures |Rest(a)| > 6 && Rest(a)[0] == ' '
  {
    assert SHORT[0] == ' ';
  }

  /** In the notice's line a line break is followed by another exactly where the label has a blank line. */
  lemma LineBreaks(a: Account, i: int)
    ensures BreakAt(Line(a), i) <==> BreakAt(Label(a), i - |HAMMER|)
    ensures |Line(a)| > 2 && Line(a)[|Line(a)| - 1] != '\n'
  {
    var title, rest, line := Label(a), Rest(a), Line(a);
    RestStarts(a);
    assert line[0] == HAMMER[0] != '\n' && line[1] == HAMMER[1] != '\n';
    assert forall k | 0 <= k < |title| :: line[|HAMMER| + k] == title[k];
    assert forall k | 0 <= k < |rest| :: line[|HAMMER| + |title| + k] == rest[k];
    assert forall k | 0 <= k < |rest| :: rest[k] in rest;
  }

  lemma BreaksOfNotice(a: Account, text: string, i: int)
    requires i <= |Line(a)|
    ensures BreakAt(AccountNotice(a) + text, i) <==> BreakAt(Label(a), i - |HAMMER|) || i == |Line(a)|
  {
    var line, whole := Line(a), AccountNotice(a) + text;
    LineBreaks(a, i);
    assert forall k | 0 <= k < |line| :: whole[k] == line[k];
    assert whole[|line|] == '\n' && whole[|line| + 1] == '\n';
  }

  lemma Occurs(before: string, sub: string, after: string)
    ensures Contains(before + sub + after, sub)
  {
    assert (before + sub + after)[|before|..|before| + |sub|] == sub;
    assert At(before + sub + after, |before|, sub);
  }

  lemma LineIsNotice(a: Account)
    ensures NoticeLine(Line(a))
  {
    hide Percent, Remaining, StatusText, Contains, Label;
    var early := Percent(a.short) + " " + Remaining(a.shortLeft);
    var late := Percent(a.weekly) + " " + Remaining(a.weeklyLeft) + StatusText(a.status);
    assert Line(a) == HAMMER + Label(a) + SHORT + (early + WEEKLY + late);
    assert Line(a) == HAMMER + Label(a) + SHORT + early + WEEKLY + late;
    Occurs(HAMMER + Label(a), SHORT, early + WEEKLY + late);
    Occurs(HAMMER + Label(a) + SHORT + early, WEEKLY, late);
    assert Line(a)[0..|HAMMER|] == HAMMER;
  }

  lemma LineLength(a: Account)
    ensures AccountNotice(a) == Line(a) + BREAK && |Line(a)| > |HAMMER| + |Label(a)|
  {
    RestStarts(a);
  }

  lemma StripsBroken(a: Account, text: string)
    requires HasBreak(Label(a))
    ensures |Strip(AccountNotice(a) + text)| > |text|
  {
    hide NoticeLine, Rest, Label;
    var whole := AccountNotice(a) + text;
    var k :| 0 <= k < |Label(a)| && BreakAt(Label(a), k);
    LineLength(a);
    BreaksOfNotice(a, text, k + |HAMMER|);
    assert FirstBreak(whole, 0).value <= k + |HAMMER|;
  }

  lemma StripsWhole(a: Account, text: string)
    requires !HasBreak(Label(a))
    ensures Strip(AccountNotice(a) + text) == text
  {
    hide NoticeLine, Rest, Label, Line, AccountNotice;
    var line, whole := Line(a), AccountNotice(a) + text;
    LineLength(a);
    BreaksOfNotice(a, text, |line|);
    var at := FirstBreak(whole, 0);
    if at.value < |line| { BreaksOfNotice(a, text, at.value); }
    LineIsNotice(a);
    Split(line, text);
  }

  lemma Split(line: string, text: string)
    ensures (line + BREAK + text)[..|line|] == line && (line + BREAK + text)[|line| + 2..] == text
  {
  }

  /** Stripping gives back exactly the original text, whatever it is, for every label without a blank line,
      and for no other. */
  lemma StripUndoes(a: Account, text: string)
    ensures Strip(AccountNotice(a) + text) == text <==> !HasBreak(Label(a))
  {
    hide Strip, AccountNotice, HasBreak;
    if HasBreak(Label(a)) { StripsBroken(a, text); } else { StripsWhole(a, text); }
  }

  // Preparing a request for replay.

  datatype Content = Text(text: string) | Parts(parts: seq<S.Part>) | NoText

  /** An input item: whether an assistant's, whether its id is one the broker made up for a notice, its text. */
  datatype Message = Message(assistant: bool, made: bool, content: Content)

  /** Any part that has a text may carry a notice, whatever its type. */
  function StripPart(part: S.Part): S.Part {
    if part.text.Some? then part.(text := Some(Strip(part.text.value))) else part
  }

  function StripParts(parts: seq<S.Part>): (r: seq<S.Part>)
    ensures |r| == |parts| && forall i | 0 <= i < |parts| :: r[i] == StripPart(parts[i])
  {
    seq(|parts|, i requires 0 <= i < |parts| => StripPart(parts[i]))
  }

  function StripContent(content: Content): Content {
    match content
    case Text(text) => Text(Strip(text))
    case Parts(parts) => Parts(StripParts(parts))
    case NoText => NoText
  }

  function Prepared(input: seq<Message>): seq<Message> {
    if input == [] then []
    else
      var front, last := Prepared(input[..|input| - 1]), input[|input| - 1];
      if !last.assistant then front + [last]
      else if last.made then front
      else front + [last.(content := StripContent(last.content))]
  }

  method StripAll(parts: seq<S.Part>) returns (stripped: seq<S.Part>, changed: bool)
    ensures stripped == StripParts(parts) && (!changed ==> stripped == parts)
  {
    hide Strip;
    stripped, changed := [], false;
    for k := 0 to |parts|
      invariant |stripped| == k && forall i | 0 <= i < k :: stripped[i] == StripPart(parts[i])
      invariant !changed ==> stripped == parts[..k]
    {
      var part := StripPart(parts[k]);
      changed := changed || part != parts[k];
      stripped := stripped + [part];
    }
  }

  method PrepareNotice(input: seq<Message>) returns (filtered: seq<Message>, changed: bool)
    ensures filtered == Prepared(input) && (!changed ==> filtered == input)
  {
    hide Strip, StripParts;
    filtered, changed := [], false;
    for i := 0 to |input|
      invariant filtered == Prepared(input[..i]) && (!changed ==> filtered == input[..i])
    {
      var item := input[i];
      assert input[..i + 1][..i] == input[..i];
      if item.assistant {
        if item.made {
          changed := true;
          continue;
        }
        match item.content {
          case Text(text) =>
            changed := changed || Strip(text) != text;
            item := item.(content := Text(Strip(text)));
          case Parts(parts) =>
            var stripped, stripChanged := StripAll(parts);
            changed := changed || stripChanged;
            item := item.(content := Parts(stripped));
          case NoText =>
        }
      }
      filtered := filtered + [item];
    }
    assert input[..|input|] == input;
  }

  /** What the client was sent: the notice in front of a plain text, or where the stream puts it among parts. */
  function Noticed(a: Account, content: Content): Content {
    match content
    case Text(text) => Text(AccountNotice(a) + text)
    case Parts(parts) => Parts(S.PrefixContent(AccountNotice(a), parts))
    case NoText => NoText
  }

  /** No text of the content looks like a notice itself. */
  predicate Clean(content: Content) { StripContent(content) == content }

  lemma {:induction false} StripNoticedParts(a: Account, parts: seq<S.Part>)
    requires !HasBreak(Label(a)) && StripParts(parts) == parts
    ensures StripParts(S.PrefixContent(AccountNotice(a), parts)) == parts
  {
    if parts != [] {
      hide Strip, AccountNotice, Label;
      assert forall i | 0 <= i < |parts[1..]| :: StripPart(parts[1..][i]) == StripParts(parts)[i + 1] == parts[1..][i];
      var noticed := S.PrefixContent(AccountNotice(a), parts);
      if S.Prefixable(parts[0]) {
        StripUndoes(a, parts[0].text.value);
      } else {
        StripNoticedParts(a, parts[1..]);
        assert StripPart(parts[0]) == parts[0];
        assert noticed[1..] == S.PrefixContent(AccountNotice(a), parts[1..]);
      }
    }
  }

  lemma CleanMeans(content: Content)
    requires Clean(content)
    ensures StripContent(content) == content
  {
  }

  /** Whatever the stream did to a clean content, replaying restores it. */
  lemma NoticedRestored(a: Account, content: Content)
    requires !HasBreak(Label(a)) && Clean(content)
    ensures StripContent(Noticed(a, content)) == content
  {
    if content.Text? { StripUndoes(a, content.text); }
    if content.Parts? { StripNoticedParts(a, content.parts); }
  }

  predicate Replays(sent: seq<Message>, input: seq<Message>, accounts: seq<Account>)
  {
    && |sent| == |input| == |accounts|
    && forall i | 0 <= i < |input| :: !HasBreak(Label(accounts[i])) && !input[i].made &&
         if input[i].assistant then
           Clean(input[i].content) &&
           (sent[i] == input[i] || sent[i] == input[i].(content := Noticed(accounts[i], input[i].content)))
         else sent[i] == input[i]
  }

  /** A conversation replayed with notices in front of any of its answers is restored exactly. */
  lemma {:induction false} ReplayRestored(sent: seq<Message>, input: seq<Message>, accounts: seq<Account>)
    requires Replays(sent, input, accounts)
    ensures Prepared(sent) == input
  {
    if sent != [] {
      var n := |sent| - 1;
      ReplayRestored(sent[..n], input[..n], accounts[..n]);
      hide Clean, Noticed, StripContent;
      assert sent[n].assistant == input[n].assistant && sent[n].made == input[n].made;
      if input[n].assistant {
        NoticedRestored(accounts[n], input[n].content);
        assert StripContent(input[n].content) == input[n].content by { CleanMeans(input[n].content); }
      }
      assert input == input[..n] + [input[n]];
    }
  }
}
