/** A whole connection: how the replies and the deadlines cut the input into command lines,
    AUTH lines and message bodies, and what every such conversation keeps. */
module Conversation {
  import opened Queue
  import opened DataReader
  import opened Session

  /** One piece of input, what the rest of the server answered meanwhile, the reply. */
  datatype Entry = Entry(text: string, answers: Answers, code: int)

  /** What the server reads as one piece after a reply: after 354 a body up to its
      terminator line, or as much of it as arrived in time; otherwise one line. */
  predicate Fits(lastCode: int, text: string) {
    if lastCode == 354 then
      match SplitBody(text)
      case Unterminated => true
      case Body(_, _, rest) => rest == ""
    else SplitLine(text) == Line(text, "")
  }

  /** Where a piece ends in the input: at its first line feed, or after 354 at the end of
      the body, unless that was cut short. */
  lemma PieceShape(input: string, lastCode: int, text: string)
    requires text <= input && Fits(lastCode, text)
    ensures lastCode != 354 ==> SplitLine(input) == Line(text, input[|text|..])
    ensures lastCode == 354 ==>
      && |text| <= BodySize(input)
      && (|text| < BodySize(input) <==> SplitBody(text).Unterminated? && text != input)
      && (SplitBody(text).Body? ==> SplitBody(input) == SplitBody(text).(rest := input[|text|..]))
  {
    hide SplitBody;
    assert input == text + input[|text|..];
    if lastCode == 354 {
      BodyGrows(text, input[|text|..]);
    } else {
      SplitLineOf(text, input[|text|..]);
    }
  }

  /** As much of a body as arrived in time, up to its end. */
  function BodyPart(timely: string): string {
    match SplitBody(timely)
    case Unterminated => timely
    case Body(lines, terminator, _) => Concat(lines) + terminator
  }

  /** consumeData reads exactly that part, and what it reads is the same on its own. */
  lemma BodyPartRead(timely: string, maxBytes: int)
    ensures Fits(354, BodyPart(timely)) && BodyPart(timely) <= timely
    ensures match SplitBody(timely)
      case Unterminated => Consume(timely, maxBytes).ReadError?
      case Body(lines, terminator, rest) =>
        && timely == BodyPart(timely) + rest
        && SplitBody(BodyPart(timely)) == Body(lines, terminator, "")
        && Consume(timely, maxBytes) ==
             if |Unstuffed(lines)| <= maxBytes then Accepted(Unstuffed(lines), rest) else TooBig(rest)
  {
    hide IsTerminator, Concat, Unstuffed, SplitBody;
    BodyAlone(timely);
    SplitBodyCuts(timely);
    assert timely[..|timely|] == timely;
  }

  function LastCode(log: seq<Entry>): int {
    if log == [] then 220 else log[|log| - 1].code
  }

  /** The input left over when the log is the input cut up by its replies. */
  function Unread(input: string, log: seq<Entry>): Option<string> {
    if log == [] then Some(input) else
      var n := |log| - 1;
      match Unread(input, log[..n])
      case None => None
      case Some(rest) =>
        var text := log[n].text;
        if text <= rest && Fits(LastCode(log[..n]), text) then Some(rest[|text|..]) else None
  }

  /** The session after the log when every reply is the machine's. */
  function Replayed(cfg: Config, start: Session, log: seq<Entry>): Option<Session> {
    if log == [] then Some(start) else
      var n := |log| - 1;
      match Replayed(cfg, start, log[..n])
      case None => None
      case Some(s) =>
        var r := React(cfg, s, log[n].text, log[n].answers);
        if s.mode.Closed? || r.code != log[n].code then None else Some(r.session)
  }

  function Texts(log: seq<Entry>): string {
    if log == [] then "" else Texts(log[..|log| - 1]) + log[|log| - 1].text
  }

  /** Calls into the rest of the server, in order. */
  function Effects(cfg: Config, start: Session, log: seq<Entry>): seq<Effect> {
    if log == [] then [] else
      var n := |log| - 1;
      match Replayed(cfg, start, log[..n])
      case None => []
      case Some(s) =>
        var effect := React(cfg, s, log[n].text, log[n].answers).effect;
        Effects(cfg, start, log[..n]) + (if effect.Nothing? then [] else [effect])
  }

  lemma Appended(cfg: Config, start: Session, input: string, log: seq<Entry>, e: Entry)
    ensures (log + [e])[..|log|] == log && LastCode(log + [e]) == e.code
    ensures Unread(input, log + [e]) ==
      match Unread(input, log)
      case None => None
      case Some(rest) =>
        if e.text <= rest && Fits(LastCode(log), e.text) then Some(rest[|e.text|..]) else None
    ensures Replayed(cfg, start, log + [e]) ==
      match Replayed(cfg, start, log)
      case None => None
      case Some(s) =>
        var r := React(cfg, s, e.text, e.answers);
        if s.mode.Closed? || r.code != e.code then None else Some(r.session)
    ensures Effects(cfg, start, log + [e]) ==
      match Replayed(cfg, start, log)
      case None => []
      case Some(s) =>
        var effect := React(cfg, s, e.text, e.answers).effect;
        Effects(cfg, start, log) + (if effect.Nothing? then [] else [effect])
  {
    hide React, Fits;
    assert (log + [e])[..|log|] == log;
  }

  /** A conversation continued by a conversation is a conversation, with the calls of both. */
  lemma {:induction false} Continued(cfg: Config, start: Session, log: seq<Entry>, more: seq<Entry>)
    requires Replayed(cfg, start, log).Some? && Replayed(cfg, Replayed(cfg, start, log).value, more).Some?
    ensures var mid := Replayed(cfg, start, log).value;
      && Replayed(cfg, start, log + more) == Replayed(cfg, mid, more)
      && Effects(cfg, start, log + more) == Effects(cfg, start, log) + Effects(cfg, mid, more)
  {
    hide React;
    if more == [] {
      assert log + more == log;
    } else {
      var n := |more| - 1;
      Continued(cfg, start, log, more[..n]);
      assert log + more == log + more[..n] + [more[n]];
      Appended(cfg, start, "", log + more[..n], more[n]);
    }
  }

  // ---- What every conversation keeps ----

  /** No byte is lost, invented or moved: the pieces in order, then the unread rest. */
  lemma {:induction false} InputIsPartitioned(input: string, log: seq<Entry>)
    requires Unread(input, log).Some?
    ensures input == Texts(log) + Unread(input, log).value
  {
    hide Fits;
    if log != [] {
      var n := |log| - 1;
      InputIsPartitioned(input, log[..n]);
      var rest := Unread(input, log[..n]).value;
      assert rest == log[n].text + Unread(input, log).value;
    }
  }

  /** What the server reads next is what its last reply asked for. */
  lemma {:induction false} PiecesReadAsAnnounced(cfg: Config, start: Session, log: seq<Entry>)
    requires start.mode.Command? && Replayed(cfg, start, log).Some?
    ensures var s := Replayed(cfg, start, log).value;
      && (LastCode(log) == 354 <==> s.mode.Data?)
      && (LastCode(log) == 334 <==> InAuth(s.mode))
  {
    hide React;
    if log != [] {
      var n := |log| - 1;
      var s := Replayed(cfg, start, log[..n]).value;
      ReplyAnnouncesMode(cfg, s, log[n].text, log[n].answers);
    }
  }

  /** Pieces that arrive when neither a body nor an AUTH line was asked for. */
  function CommandLines(log: seq<Entry>): nat {
    if log == [] then 0 else
      var before := log[..|log| - 1];
      CommandLines(before) + (if LastCode(before) == 354 || LastCode(before) == 334 then 0 else 1)
  }

  /** The command count of the session is the number of command lines; the first line
      over the limit is refused with 421 and ends the conversation. */
  lemma {:induction false} CommandsAreCounted(cfg: Config, start: Session, log: seq<Entry>)
    requires start.mode.Command? && start.count <= cfg.maxCommands && Replayed(cfg, start, log).Some?
    ensures var s := Replayed(cfg, start, log).value;
      && s.count == start.count + CommandLines(log) <= cfg.maxCommands + 1
      && (s.count == cfg.maxCommands + 1 ==> LastCode(log) == 421 && s.mode.Closed?)
  {
    hide React;
    if log != [] {
      var n := |log| - 1;
      CommandsAreCounted(cfg, start, log[..n]);
      PiecesReadAsAnnounced(cfg, start, log[..n]);
      var s := Replayed(cfg, start, log[..n]).value;
      ReplyAnnouncesMode(cfg, s, log[n].text, log[n].answers);
    }
  }

  /** The senders that the alias authority vouched for along the way. */
  ghost function ApprovedBy(cfg: Config, start: Session, log: seq<Entry>): set<string> {
    if log == [] then {} else
      var n := |log| - 1;
      match Replayed(cfg, start, log[..n])
      case None => {}
      case Some(s) =>
        var s' := React(cfg, s, log[n].text, log[n].answers).session;
        ApprovedBy(cfg, start, log[..n]) + Vouched(s, s', log[n].answers)
  }

  /** Every state of every conversation is safe, TLS is never undone, and every message
      queued passed the sender policy and the limits. */
  lemma {:induction false} ConversationsAreSafe(
    cfg: Config, approved: set<string>, start: Session, log: seq<Entry>)
    requires SessionInv(cfg, approved, start) && Replayed(cfg, start, log).Some?
    ensures var s := Replayed(cfg, start, log).value;
      && SessionInv(cfg, approved + ApprovedBy(cfg, start, log), s)
      && (start.tls ==> s.tls)
    ensures QueuedOk(cfg, approved + ApprovedBy(cfg, start, log), Effects(cfg, start, log))
  {
    hide React, SessionInv, ContentOk;
    if log != [] {
      var n := |log| - 1;
      ConversationsAreSafe(cfg, approved, start, log[..n]);
      var s := Replayed(cfg, start, log[..n]).value;
      var known := approved + ApprovedBy(cfg, start, log[..n]);
      var more := Vouched(s, React(cfg, s, log[n].text, log[n].answers).session, log[n].answers);
      ReactKeeps(cfg, known, s, log[n].text, log[n].answers);
      assert approved + ApprovedBy(cfg, start, log) == known + more;
      forall e | e in Effects(cfg, start, log) && e.Queued?
        ensures ContentOk(cfg, known + more, e.content)
      {
        StillOk(cfg, known, more, e.content);
      }
    } else {
      assert approved + ApprovedBy(cfg, start, log) == approved;
    }
  }

  ghost predicate QueuedOk(cfg: Config, approved: set<string>, effects: seq<Effect>) {
    forall e :: e in effects && e.Queued? ==> ContentOk(cfg, approved, e.content)
  }

  /** Once three logins have failed, no later piece of the conversation gets credentials
      checked, and a session that was not authenticated never is. */
  lemma {:induction false} LockedOutForGood(
    cfg: Config, approved: set<string>, start: Session, log: seq<Entry>, more: seq<Entry>)
    returns (later: seq<Effect>)
    requires SessionInv(cfg, approved, start)
    requires Replayed(cfg, start, log).Some? && Replayed(cfg, start, log + more).Some?
    requires Replayed(cfg, start, log).value.authFailures == 3
    ensures var s, s' := Replayed(cfg, start, log).value, Replayed(cfg, start, log + more).value;
      s'.authFailures == 3 && (!s.authed ==> !s'.authed)
    ensures Effects(cfg, start, log + more) == Effects(cfg, start, log) + later
    ensures forall e :: e in later ==> e.Queued?
    decreases |more|
  {
    hide React, SessionInv, Unread, Replayed, Effects;
    if more == [] {
      assert log + more == log;
      later := [];
    } else {
      var n := |more| - 1;
      var before, last := log + more[..n], more[n];
      assert log + more == before + [last];
      Appended(cfg, start, "", before, last);
      later := LockedOutForGood(cfg, approved, start, log, more[..n]);
      ConversationsAreSafe(cfg, approved, start, before);
      var s := Replayed(cfg, start, before).value;
      ThreeFailuresAreFinal(cfg, approved + ApprovedBy(cfg, start, before), s, last.text, last.answers);
      var effect := React(cfg, s, last.text, last.answers).effect;
      later := later + (if effect.Nothing? then [] else [effect]);
    }
  }

  ghost predicate ThreeFailed(cfg: Config, start: Session, log: seq<Entry>) {
    Replayed(cfg, start, log).Some? && Replayed(cfg, start, log).value.authFailures == 3
  }

  /** From the third failure on there is neither a login nor a failed one. */
  ghost predicate QuietAfterThree(cfg: Config, start: Session, log: seq<Entry>) {
    forall k :: 0 <= k <= |log| && ThreeFailed(cfg, start, log[..k]) ==>
      Effects(cfg, start, log[..k]) <= Effects(cfg, start, log) &&
      forall e :: e in Effects(cfg, start, log)[|Effects(cfg, start, log[..k])|..] ==> e.Queued?
  }

  lemma AllQuietAfterThree(cfg: Config, approved: set<string>, start: Session, log: seq<Entry>)
    requires SessionInv(cfg, approved, start) && Replayed(cfg, start, log).Some?
    ensures QuietAfterThree(cfg, start, log)
  {
    hide React, SessionInv, Replayed, Effects;
    forall k | 0 <= k <= |log| && ThreeFailed(cfg, start, log[..k])
      ensures Effects(cfg, start, log[..k]) <= Effects(cfg, start, log)
      ensures forall e :: e in Effects(cfg, start, log)[|Effects(cfg, start, log[..k])|..] ==> e.Queued?
    {
      assert log[..k] + log[k..] == log;
      var later := LockedOutForGood(cfg, approved, start, log[..k], log[k..]);
      assert Effects(cfg, start, log)[|Effects(cfg, start, log[..k])|..] == later;
    }
  }
}
