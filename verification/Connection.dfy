/** The connection handler's code: a loop over command lines with the AUTH lines and the
    DATA body read from inside the commands.  It behaves as the reactive machine, reply
    by reply and byte by byte. */
module Connection {
  import opened Timestamps
  import opened Queue
  import opened DataReader
  import opened Text
  import opened Session
  import opened Conversation
  import opened Deadlines
  import opened Logins

  function Calls(e: Effect): seq<Effect> {
    if e.Nothing? then [] else [e]
  }

  function Codes(log: seq<Entry>): seq<int> {
    if log == [] then [] else Codes(log[..|log| - 1]) + [log[|log| - 1].code]
  }

  /** The same answers from everybody but the queue. */
  predicate Agrees(a: Answers, b: Answers) {
    a == b.(backlog := a.backlog, insertError := a.insertError)
  }

  /** What everybody else answers after `n` replies. */
  function AnswersAt(env: seq<Answers>, n: nat): Answers {
    if n < |env| then env[n] else NOT_ASKED
  }

  /** Without what the queue answers. */
  function OutsideAt(env: seq<Answers>, n: nat): Answers {
    AnswersAt(env, n).(backlog := None, insertError := false)
  }

  /** Piece `k` was handled after k + 1 replies. */
  ghost predicate Obeys(env: seq<Answers>, log: seq<Entry>) {
    forall k :: 0 <= k < |log| ==> Agrees(log[k].answers, AnswersAt(env, k + 1))
  }

  lemma OneMoreObeys(env: seq<Answers>, log: seq<Entry>, e: Entry)
    requires Obeys(env, log) && Agrees(e.answers, AnswersAt(env, |log| + 1))
    ensures Obeys(env, log + [e])
  {
    hide Agrees, AnswersAt;
    var more := log + [e];
    forall k | 0 <= k < |more| ensures Agrees(more[k].answers, AnswersAt(env, k + 1)) {
      if k < |log| {
        assert more[k] == log[k];
      }
    }
  }

  lemma OneMoreCode(log: seq<Entry>, e: Entry)
    ensures Codes(log + [e]) == Codes(log) + [e.code]
  {
    assert (log + [e])[..|log|] == log;
  }

  lemma OneMoreRecorded(env: seq<Answers>, log: seq<Entry>, replies: seq<int>, e: Entry)
    requires replies == [220] + Codes(log) && Obeys(env, log) && Agrees(e.answers, AnswersAt(env, |replies|))
    ensures replies + [e.code] == [220] + Codes(log + [e]) && Obeys(env, log + [e])
  {
    hide Agrees, AnswersAt, Obeys, Codes;
    CodesAreAsMany(log);
    OneMoreObeys(env, log, e);
    OneMoreCode(log, e);
  }

  lemma {:induction false} CodesAreAsMany(log: seq<Entry>)
    ensures |Codes(log)| == |log|
  {
    if log != [] {
      CodesAreAsMany(log[..|log| - 1]);
    }
  }

  /** The conversation on one byte stream: before STARTTLS, or after it. */
  datatype Phase = Phase(input: string, start: Session, log: seq<Entry>)

  function BothLogs(plain: Option<Phase>, phase: Phase): seq<Entry> {
    (if plain.Some? then plain.value.log else []) + phase.log
  }

  lemma BothLogsGrow(plain: Option<Phase>, phase: Phase, e: Entry)
    ensures BothLogs(plain, phase.(log := phase.log + [e])) == BothLogs(plain, phase) + [e]
  {}

  lemma NothingYet(cfg: Config, env: seq<Answers>, clock: Clock, input: string, start: Session)
    ensures Unread(input, []) == Some(input) && Replayed(cfg, start, []) == Some(start) && Effects(cfg, start, []) == []
    ensures Punctual(clock, input, []) && Obeys(env, []) && !AsksForMore(LastCode([]))
  {}

  /** All that a connection has to show for itself at some moment. */
  datatype Record = Record(
    plain: Option<Phase>, phase: Phase, model: Session, replies: seq<int>, calls: seq<Effect>)

  /** One more piece, answered by this reaction. */
  function Stepped(s: Record, text: string, a: Answers, re: Reaction): Record {
    s.(phase := s.phase.(log := s.phase.log + [Entry(text, a, re.code)]),
       model := re.session, replies := s.replies + [re.code], calls := s.calls + Calls(re.effect))
  }

  /** Still on the same stream, with everything recorded before still there. */
  predicate Extends(s: Record, s': Record) {
    && s'.plain == s.plain && s'.phase.input == s.phase.input && s'.phase.start == s.phase.start
    && s.phase.log <= s'.phase.log && s.replies <= s'.replies && s.calls <= s'.calls
  }

  /** Switched to the stream `next` after the rest of the plaintext conversation. */
  predicate SwitchedTo(s: Record, s': Record, next: string) {
    && s.plain.None? && s'.plain.Some?
    && s'.plain.value.input == s.phase.input && s'.plain.value.start == s.phase.start
    && s.phase.log <= s'.plain.value.log && s.replies <= s'.replies && s.calls <= s'.calls
    && s'.phase.input == next
  }

  /** The log of the stream that was in use in `s`. */
  function StreamLog(s: Record, s': Record): seq<Entry> {
    if s'.plain == s.plain then s'.phase.log else if s'.plain.Some? then s'.plain.value.log else []
  }

  /** Piece `text` came next and got this reply, under these answers. */
  predicate Answered(s: Record, s': Record, text: string, a: Answers, code: int) {
    s.phase.log + [Entry(text, a, code)] <= StreamLog(s, s') && s.replies + [code] <= s'.replies
  }

  /** Piece `text` came next and got the machine's reply. */
  ghost predicate AnsweredTo(cfg: Config, env: seq<Answers>, s: Record, s': Record, text: string) {
    exists a :: Agrees(a, AnswersAt(env, |s.replies|)) && Answered(s, s', text, a, React(cfg, s.model, text, a).code)
  }

  lemma StepAnswers(cfg: Config, env: seq<Answers>, s: Record, text: string, a: Answers)
    requires Agrees(a, AnswersAt(env, |s.replies|))
    ensures var s' := Stepped(s, text, a, React(cfg, s.model, text, a));
      && Extends(s, s') && Answered(s, s', text, a, React(cfg, s.model, text, a).code)
      && AnsweredTo(cfg, env, s, s', text)
  {
    hide React, Agrees, AnswersAt;
  }

  lemma StepSize(s: Record, text: string, a: Answers, re: Reaction)
    ensures var s' := Stepped(s, text, a, re);
      && |s'.phase.log| == |s.phase.log| + 1 && |s'.replies| == |s.replies| + 1
      && LastCode(s'.phase.log) == re.code && s'.calls == s.calls + Calls(re.effect)
  {}

  lemma OneReply(s: Record, text: string, a: Answers, re: Reaction)
    ensures |Stepped(s, text, a, re).replies| == |s.replies| + 1
  {}

  lemma SwitchedOn(s: Record, s': Record, last: Record, next: string)
    ensures SwitchedTo(s, s', next) && Extends(s', last) ==> SwitchedTo(s, last, next)
    ensures Extends(s, s') && SwitchedTo(s', last, next) ==> SwitchedTo(s, last, next)
    ensures Extends(s, s') && Extends(s', last) ==> Extends(s, last)
    ensures SwitchedTo(s, s', next) ==> s'.plain.Some?
    ensures SwitchedTo(s', last, next) ==> s'.plain.None?
  {}

  lemma ExtendsSelf(s: Record)
    ensures Extends(s, s)
  {}

  /** The last line of AUTH LOGIN, when it arrives, gets the machine's reply. */
  ghost predicate PasswordFrom(cfg: Config, env: seq<Answers>, s: Record, s': Record, close: bool)
    requires s.model.mode.LoginPassword?
  {
    if close then s' == s else
      exists text :: var a := OutsideAt(env, |s.replies|);
        s' == Stepped(s, text, a, OnLoginPassword(cfg, s.model, s.model.mode.user, text, a))
  }

  /** So does the line before it, and the password is asked for only after a user name. */
  ghost predicate LoginFrom(cfg: Config, env: seq<Answers>, s: Record, s': Record, close: bool) {
    (close && s' == s) ||
    exists text :: var first := Stepped(s, text, OutsideAt(env, |s.replies|), OnLoginUser(cfg, s.model, text));
      if first.model.mode.LoginPassword? then PasswordFrom(cfg, env, first, s', close) else !close && s' == first
  }

  lemma LoginReplies(cfg: Config, env: seq<Answers>, s: Record, s': Record, close: bool)
    requires LoginFrom(cfg, env, s, s', close)
    ensures |s'.replies| <= |s.replies| + 2
  {
    hide OnLoginUser, OnLoginPassword;
  }

  lemma ExtendsOn(s: Record, s': Record, last: Record)
    requires Extends(s, s') && Extends(s', last)
    ensures Extends(s, last)
  {}

  lemma AnsweredBefore(cfg: Config, env: seq<Answers>, s: Record, s': Record, last: Record, text: string)
    requires Extends(s, s') && Extends(s', last)
    ensures AnsweredTo(cfg, env, s, s', text) ==> AnsweredTo(cfg, env, s, last, text)
    ensures forall a, code :: Answered(s, s', text, a, code) ==> Answered(s, last, text, a, code)
  {
    hide React, Agrees, AnswersAt;
    forall a, code | Answered(s, s', text, a, code) ensures Answered(s, last, text, a, code) {
      assert s.phase.log + [Entry(text, a, code)] <= last.phase.log;
      assert s.replies + [code] <= last.replies;
    }
  }

  class Connection {
    const cfg: Config
    const implicitTls: bool
    const tlsStream: Reader
    const store: SQLiteStore

    /** What the limiter, the alias authority, the handshake and the database answer after
        so many replies. */
    const env: seq<Answers>

    /** How many bytes arrive in time for the deadline set after so many replies. */
    const arrivals: seq<nat>

    var r: Reader
    var isTLS: bool
    var greeted: bool
    var authed: bool
    var authFailures: nat
    var mailFrom: string
    var rcptTo: seq<string>

    /** Login results reported to the limiter and messages handed to the queue. */
    var calls: seq<Effect>

    /** The code of every reply written, the greeting first. */
    var replies: seq<int>

    ghost var plain: Option<Phase>
    ghost var phase: Phase
    ghost var earlier: seq<Effect>
    ghost var model: Session

    // ---- How the fields relate to the machine ----

    ghost predicate Matches(s: Session)
      reads this
    {
      && isTLS == s.tls && greeted == s.greeted && authed == s.authed && authFailures == s.authFailures
      && mailFrom == s.mailFrom && rcptTo == s.rcptTo
    }

    ghost function Made(): seq<Effect>
      reads this`earlier, this`phase
    {
      earlier + Effects(cfg, phase.start, phase.log)
    }

    /** What the queue does not answer. */
    function Outside(): Answers
      reads this`replies
    {
      OutsideAt(env, |replies|)
    }

    ghost function TheClock(): Clock
      reads this`plain
    {
      Clock(arrivals, if plain.Some? then |plain.value.log| else 0)
    }

    ghost predicate Written()
      reads this`replies, this`plain, this`phase
    {
      replies == [220] + Codes(Entries())
    }

    /** This phase, and the plaintext phase before it if there was one, are runs. */
    ghost predicate Tracks()
      reads this`phase, this`model, this`plain, this`earlier, this`isTLS, this`r
    {
      && Replayed(cfg, phase.start, phase.log) == Some(model)
      && phase.start.mode.Command? && Obeys(env, Entries())
      && Punctual(TheClock(), phase.input, phase.log)
      && (plain.None? ==> phase.start == Greeted(implicitTls) && earlier == [])
      && (plain.Some? ==>
            && !implicitTls && plain.value.start == Greeted(false) && phase.start.tls
            && !phase.start.greeted && !phase.start.authed
            && Unread(plain.value.input, plain.value.log).Some?
            && Punctual(Clock(arrivals, 0), plain.value.input, plain.value.log)
            && Replayed(cfg, plain.value.start, plain.value.log) == Some(phase.start)
            && earlier == Effects(cfg, plain.value.start, plain.value.log))
      && (!isTLS ==> r != tlsStream && plain.None? && !implicitTls)
    }

    /** Between two pieces of input. */
    ghost predicate Ready()
      reads this, r
    {
      && Tracks() && Matches(model) && calls == Made() && Written()
      && Unread(phase.input, phase.log) == Some(r.Rest())
      && (AsksForMore(LastCode(phase.log)) ==> Running())
    }

    /** What has arrived before the deadline is what the reader has. */
    ghost predicate Running()
      reads this`plain, this`phase, this`r, r
    {
      Arrived(TheClock(), phase.input, phase.log, r.timely)
    }

    /** A piece has been read and not yet answered. */
    ghost predicate Got(text: string)
      reads this`phase, this`model, this`plain, this`earlier, this`isTLS, this`r, this`replies, r
    {
      && Tracks() && !model.mode.Closed? && Written()
      && Unread(phase.input, phase.log) == Some(text + r.Rest()) && Fits(LastCode(phase.log), text)
      && Arrived(TheClock(), phase.input, phase.log, text + r.timely)
      && (LastCode(phase.log) == 354 ==> text == BodyPart(text + r.timely))
    }

    ghost predicate Unanswered(text: string)
      reads this, r
    {
      Got(text) && Matches(model) && calls == Made()
    }

    /** The line asked for does not arrive in time, and the connection is dropped. */
    ghost predicate Dropped()
      reads this
    {
      && Tracks() && calls == Made() && Written() && Unread(phase.input, phase.log).Some?
      && Late(TheClock(), phase.input, phase.log)
    }

    /** Everything handled so far, on both streams. */
    ghost function Entries(): seq<Entry>
      reads this`plain, this`phase
    {
      BothLogs(plain, phase)
    }

    /** What the whole connection, STARTTLS included, has done up to now. */
    ghost predicate Safe()
      reads this
    {
      && Replayed(cfg, Greeted(implicitTls), Entries()) == Some(model)
      && calls == Effects(cfg, Greeted(implicitTls), Entries())
      && SessionInv(cfg, ApprovedBy(cfg, Greeted(implicitTls), Entries()), model)
      && QueuedOk(cfg, ApprovedBy(cfg, Greeted(implicitTls), Entries()), calls)
      && QuietAfterThree(cfg, Greeted(implicitTls), Entries())
      && (model.tls <==> implicitTls || TlsBegan(cfg, Greeted(implicitTls), Entries()))
      && (model.authed ==> LoggedIn(cfg, phase.start, phase.log))
      && (model.greeted ==> WasGreeted(cfg, phase.start, phase.log))
      && model.count == CommandLines(Entries()) <= cfg.maxCommands + 1
    }

    lemma WholeConversation()
      requires Tracks() && calls == Made()
      ensures Safe()
    {
      hide React, Replayed, Effects, SessionInv, Unread, QuietAfterThree, Obeys, LoggedIn, WasGreeted,
        TlsBegan;
      if plain.Some? {
        Continued(cfg, Greeted(false), plain.value.log, phase.log);
      } else {
        assert Entries() == phase.log;
      }
      FreshIsSafe(cfg, {}, implicitTls);
      ConversationsAreSafe(cfg, {}, Greeted(implicitTls), Entries());
      assert {} + ApprovedBy(cfg, Greeted(implicitTls), Entries()) == ApprovedBy(cfg, Greeted(implicitTls), Entries());
      AllQuietAfterThree(cfg, {}, Greeted(implicitTls), Entries());
      TlsByHandshake(cfg, Greeted(implicitTls), Entries());
      if model.authed {
        AuthedByLogin(cfg, phase.start, phase.log);
      }
      if model.greeted {
        GreetedByEhlo(cfg, phase.start, phase.log);
      }
      CommandsAreCounted(cfg, Greeted(implicitTls), Entries());
    }

    // ---- How a step relates to the state before it ----

    ghost function Now(): Record
      reads this`plain, this`phase, this`model, this`replies, this`calls
    {
      Record(plain, phase, model, replies, calls)
    }

    /** The conversation is about the bytes that the client sends, on either stream. */
    twostate predicate SameInput()
      reads this, tlsStream
    {
      || (&& r == old(r) && Extends(old(Now()), Now())
          && (r != tlsStream ==> tlsStream.Rest() == old(tlsStream.Rest())))
      || (old(r) != tlsStream && r == tlsStream && SwitchedTo(old(Now()), Now(), old(tlsStream.Rest())))
    }

    lemma OutsideAgrees()
      ensures Agrees(Outside(), AnswersAt(env, |replies|))
      ensures forall backlog, insertError ::
        Agrees(Outside().(backlog := backlog, insertError := insertError), AnswersAt(env, |replies|))
    {}

    /** The greeting has been written. */
    constructor (cfg: Config, implicitTls: bool, stream: Reader, tlsStream: Reader, store: SQLiteStore,
                 env: seq<Answers>, arrivals: seq<nat>)
      requires stream != tlsStream
      ensures Ready() && this.cfg == cfg && this.implicitTls == implicitTls
      ensures r == stream && this.tlsStream == tlsStream && this.store == store
      ensures this.env == env && this.arrivals == arrivals
      ensures model == Greeted(implicitTls) && replies == [220]
      ensures isTLS == implicitTls && !greeted && !authed && authFailures == 0 && mailFrom == "" && rcptTo == []
      ensures phase == Phase(stream.Rest(), Greeted(implicitTls), []) && plain == None
    {
      this.cfg, this.implicitTls, this.tlsStream, this.r := cfg, implicitTls, tlsStream, stream;
      this.store, this.env, this.arrivals := store, env, arrivals;
      isTLS, greeted, authed, authFailures, mailFrom, rcptTo := implicitTls, false, false, 0, "", [];
      calls, earlier, replies := [], [], [220];
      plain, model := None, Greeted(implicitTls);
      phase := Phase(stream.Rest(), Greeted(implicitTls), []);
    }

    /** Writes the reply that answers piece `text`. */
    method Reply(ghost text: string, ghost a: Answers, code: int)
      requires Got(text) && Agrees(a, AnswersAt(env, |replies|))
      requires var re := React(cfg, model, text, a);
        re.code == code && Matches(re.session) && calls == Made() + Calls(re.effect)
      modifies this`phase, this`model, this`replies
      ensures Ready() && model == React(cfg, old(model), text, a).session
      ensures Now() == Stepped(old(Now()).(calls := old(Made())), text, a, React(cfg, old(model), text, a))
    {
      hide React, Fits, Unread, Replayed, Effects, Obeys, Codes, Agrees, AnswersAt, BothLogs, Punctual;
      hide Arrived, OnTime;
      hide BodyPart, AsksForMore, LastCode;
      ghost var e, entries := Entry(text, a, code), Entries();
      OneMoreRecorded(env, entries, replies, e);
      BothLogsGrow(plain, phase, e);
      ArrivedOnTime(TheClock(), phase.input, phase.log, text, r.timely);
      OneMoreOnTime(TheClock(), phase.input, phase.log, e);
      if AsksForMore(code) {
        StillArrived(TheClock(), phase.input, phase.log, e, r.timely);
      }
      Appended(cfg, phase.start, phase.input, phase.log, e);
      CallsMade(earlier, Effects(cfg, phase.start, phase.log), Calls(React(cfg, model, text, a).effect));
      model := React(cfg, model, text, a).session;
      phase := phase.(log := phase.log + [e]);
      replies := replies + [code];
    }

    lemma CallsMade(earlier: seq<Effect>, made: seq<Effect>, more: seq<Effect>)
      ensures earlier + made + more == earlier + (made + more)
    {}

    method ReadLine() returns (line: Option<string>)
      requires Ready() && !model.mode.Data? && !model.mode.Closed? && (model.mode.Command? ==> Running())
      modifies r
      ensures line.None? ==> Dropped()
      ensures line.Some? ==> Unanswered(line.value)
    {
      hide React, Unread, Replayed, Effects, SplitBody, Obeys, Codes, Punctual, Arrived, Late, BodyPart;
      hide Written, Made;
      PiecesReadAsAnnounced(cfg, phase.start, phase.log);
      ghost var before, late := r.timely, r.late;
      line := r.ReadLine();
      if line.Some? {
        SplitLineOf(line.value, "");
        assert line.value + "" == line.value;
        assert before == line.value + r.timely;
        assert before + late == line.value + r.Rest();
      } else {
        TooLate(TheClock(), phase.input, phase.log, before);
      }
    }

    method SetReadDeadline()
      requires Ready() && model.mode.Command?
      modifies r
      ensures Ready() && Running()
    {
      hide React, Unread, Replayed, Effects, Obeys, Codes, Punctual, Arrived;
      PiecesReadAsAnnounced(cfg, phase.start, phase.log);
      InputIsPartitioned(phase.input, phase.log);
      CodesAreAsMany(Entries());
      r.SetReadDeadline(Arriving(arrivals, |replies|, |r.Rest()|));
      NewDeadline(TheClock(), phase.input, phase.log, r.Rest(), r.timely);
    }

    /** The workers and the other connections do as they like with the queue. */
    method OthersUseQueue()
      modifies store
    {
      store.rows := *;
    }

    // ---- handleConn ----

    /** Serves until a line does not arrive in time, the session closes, or the server shuts
        down, here after so many replies: the command in progress, with its questions, is
        the last.  A body that does not arrive in time does not end
        the connection. */
    method HandleConn(shutdown: Option<nat>) returns (cancelled: bool)
      requires Ready() && plain.None? && phase.log == [] && model == Greeted(implicitTls)
      modifies this, r, tlsStream, store
      ensures Safe() && Tracks() && Unread(phase.input, phase.log).Some? && SameInput()
      ensures model.mode.Closed? || cancelled || Dropped()
      ensures replies == [220] + Codes(Entries()) + (if cancelled then [421] else [])
      ensures cancelled ==> shutdown.Some? && shutdown.value <= |replies| - 1
      ensures shutdown.Some? ==> |replies| <= shutdown.value + 3
    {
      hide *;
      cancelled := CommandLoop(shutdown);
      WholeConversation();
    }

    /** The part of handleConn after the greeting. */
    method CommandLoop(shutdown: Option<nat>) returns (cancelled: bool)
      requires Ready() && plain.None? && phase.log == [] && model == Greeted(implicitTls)
      modifies this, r, tlsStream, store
      ensures Tracks() && calls == Made() && Unread(phase.input, phase.log).Some? && SameInput()
      ensures model.mode.Closed? || cancelled || Dropped()
      ensures replies == [220] + Codes(Entries()) + (if cancelled then [421] else [])
      ensures cancelled ==> shutdown.Some? && shutdown.value <= |replies| - 1
      ensures shutdown.Some? ==> |replies| <= shutdown.value + 3
    {
      hide React, Got, Made, Tracks, Codes, Unread, AnswersAt, Answered, AnsweredTo, Extends, SwitchedTo;
      ghost var s, fresh0 := Now(), tlsStream.Rest();
      ExtendsSelf(s);
      CodesAreAsMany(Entries());
      var commandCount := 0;
      cancelled := false;
      while true
        invariant r == old(r) || r == tlsStream
        invariant Ready() && model.mode.Command? && model.count == commandCount <= cfg.maxCommands
        invariant SameInput() && (shutdown.Some? ==> |replies| <= shutdown.value + 2)
        decreases cfg.maxCommands - commandCount
      {
        if shutdown.Some? && shutdown.value <= |replies| {
          ShutDown(s, fresh0);
          return true;
        }
        SetReadDeadline();
        var text := ReadLine();
        if text.None? {
          return;
        }
        OthersUseQueue();
        commandCount := commandCount + 1;
        ghost var s' := Now();
        var close := HandleLine(text.value, commandCount);
        SwitchedOn(s, s', Now(), fresh0);
        if close {
          return;
        }
      }
    }

    /** 421, the last reply of a server that shuts down. */
    method ShutDown(ghost s: Record, ghost next: string)
      requires Ready()
      modifies this`replies
      ensures replies == old(replies) + [421]
      ensures Extends(s, old(Now())) ==> Extends(s, Now())
      ensures SwitchedTo(s, old(Now()), next) ==> SwitchedTo(s, Now(), next)
    {
      replies := replies + [421];
    }

    /** The part of handleConn after a line has been read. */
    method HandleLine(text: string, commandCount: nat) returns (close: bool)
      requires Unanswered(text) && model.mode.Command? && model.count + 1 == commandCount <= cfg.maxCommands + 1
      modifies this, r, tlsStream, store
      ensures Served(text, close) && (!close ==> commandCount <= cfg.maxCommands)
    {
      hide React, Got, Running, Made, Written, Tracks, TrimSpace, Agrees, AnswersAt, Outside, Answered;
      hide AnsweredTo, Extends;
      hide Stepped;
      OutsideAgrees();
      LineReaction(text, Outside());
      StepAnswers(cfg, env, Now(), text, Outside());
      OneReply(Now(), text, Outside(), React(cfg, model, text, Outside()));
      if commandCount > cfg.maxCommands {
        Reply(text, Outside(), 421);
        return true;
      }
      var line := TrimSpace(text);
      if line == "" {
        Reply(text, Outside(), 500);
        return false;
      }
      close := HandleCommand(text, line);
    }

    lemma LineReaction(text: string, a: Answers)
      requires model.mode.Command?
      ensures React(cfg, model, text, a) == OnLine(cfg, model, text, a)
    {}

    ghost predicate IsCommand(text: string, line: string)
      reads this
    {
      model.mode.Command? && model.count < cfg.maxCommands && line == TrimSpace(text) && line != ""
    }

    ghost function Counted(): Session
      reads this
    {
      model.(count := model.count + 1)
    }

    lemma CommandReaction(text: string, line: string, a: Answers)
      requires IsCommand(text, line)
      ensures React(cfg, model, text, a) == OnCommand(cfg, Counted(), line, a)
    {
      hide OnCommand, TrimSpace;
    }

    /** A command of the given kind is waiting for its reply. */
    ghost predicate Asked(text: string, verb: Verb, args: string)
      reads this, r
    {
      && Unanswered(text) && IsCommand(text, TrimSpace(text))
      && VerbOf(SplitCommand(TrimSpace(text)).0) == verb && SplitCommand(TrimSpace(text)).1 == args
    }

    // ---- handleCommand ----

    /** What every command leaves behind. */
    twostate predicate Served(text: string, close: bool)
      reads this, r, tlsStream
    {
      && SameInput() && AnsweredTo(cfg, env, old(Now()), Now(), text) && |replies| <= |old(replies)| + 3
      && (close ==> (Ready() && model.mode.Closed?) || Dropped())
      && (!close ==> Ready() && model.mode.Command? && model.count == old(model.count) + 1)
    }

    /** Writes a reply after which the next command is read, or the connection closed. */
    method Answer(ghost text: string, code: int)
      requires Got(text) && calls == Made()
      requires var re := React(cfg, model, text, Outside());
        re.code == code && Matches(re.session) && re.effect.Nothing?
      modifies this`phase, this`model, this`replies
      ensures Ready() && model == React(cfg, old(model), text, old(Outside())).session
      ensures SameInput() && AnsweredTo(cfg, env, old(Now()), Now(), text) && |replies| == |old(replies)| + 1
    {
      hide React, Got, Running, Made, Written, Tracks, Agrees, AnswersAt, Outside, AnsweredTo, Answered;
      hide Extends, Stepped;
      OutsideAgrees();
      OneReply(Now(), text, Outside(), React(cfg, model, text, Outside()));
      StepAnswers(cfg, env, Now(), text, Outside());
      assert calls + [] == calls;
      Reply(text, Outside(), code);
    }

    method HandleCommand(ghost text: string, line: string) returns (close: bool)
      requires Unanswered(text) && IsCommand(text, line)
      modifies this, r, tlsStream, store
      ensures Served(text, close)
    {
      hide React, Got, Running, Made, Written, Tracks, Agrees, AnswersAt, Outside, AnsweredTo, Answered;
      hide Extends, Stepped, TrimSpace, SplitCommand, VerbOf;
      hide OnStartTls, OnAuth, OnMail, OnRcpt, OnData, SwitchedTo, Dropped;
      ghost var s, a := Now(), Outside();
      OutsideAgrees();
      StepAnswers(cfg, env, s, text, a);
      var (word, args) := SplitCommand(line);
      var verb := VerbOf(word);
      CommandReaction(text, line, Outside());
      match verb {
        case Ehlo =>
          greeted := true;
          ResetEnvelope();
          Answer(text, 250);
          return false;
        case StartTls => close := HandleStartTls(text, args);
        case Auth => close := AuthCommand(text, args);
        case Mail =>
          HandleMail(text, args);
          return false;
        case Rcpt =>
          HandleRcpt(text, args);
          return false;
        case DataVerb => close := HandleData(text, args);
        case Rset =>
          ResetEnvelope();
          Answer(text, 250);
          return false;
        case Noop =>
          Answer(text, 250);
          return false;
        case Quit =>
          Answer(text, 221);
          return true;
        case Other =>
          Answer(text, 502);
          return false;
      }
    }

    method ResetEnvelope()
      modifies this`mailFrom, this`rcptTo
      ensures mailFrom == "" && rcptTo == []
    {
      mailFrom := "";
      rcptTo := [];
    }

    method HandleStartTls(ghost text: string, ghost args: string) returns (close: bool)
      requires Asked(text, StartTls, args)
      modifies this, r, tlsStream
      ensures Served(text, close)
      ensures var a := old(Outside()); Answered(old(Now()), Now(), text, a, OnStartTls(old(Counted()), a).code)
      ensures plain != old(plain) ==>
        model.tls && !model.greeted && !model.authed && model.mailFrom == "" && model.rcptTo == []
      ensures plain != old(plain) <==> !old(isTLS) && old(Outside()).handshakeOk
    {
      hide React, Made, Written, Unread, Replayed, Effects, Obeys, Fits, Agrees, AnswersAt;
      hide Answered, AnsweredTo, Extends, Stepped, SwitchedTo, TrimSpace, SplitCommand, VerbOf;
      ghost var s, a := Now(), Outside();
      OutsideAgrees();
      StepAnswers(cfg, env, s, text, a);
      OneReply(s, text, a, React(cfg, model, text, a));
      CommandReaction(text, TrimSpace(text), Outside());
      if isTLS {
        Reply(text, Outside(), 454);
        return false;
      }
      if !Outside().handshakeOk {
        Reply(text, Outside(), 220);
        return true;
      }
      isTLS, greeted, authed := true, false, false;
      ResetEnvelope();
      Reply(text, Outside(), 220);
      ghost var s' := Now();
      SwitchStream();
      SwitchedAnswer(cfg, env, s, s', Now(), text);
      return false;
    }

    /** The reply is still there in the log of the plaintext stream. */
    lemma SwitchedAnswer(cfg: Config, env: seq<Answers>, s: Record, s': Record, last: Record, text: string)
      requires Extends(s, s') && s.plain.None? && last == s'.(plain := Some(s'.phase), phase := last.phase)
      ensures SwitchedTo(s, last, last.phase.input)
      ensures AnsweredTo(cfg, env, s, s', text) ==> AnsweredTo(cfg, env, s, last, text)
      ensures forall a, code :: Answered(s, s', text, a, code) ==> Answered(s, last, text, a, code)
    {
      hide React, Agrees, AnswersAt;
    }

    /** Input already received in plaintext is dropped with its stream. */
    method SwitchStream()
      requires Ready() && plain.None? && !implicitTls && model.tls && model.mode.Command?
      requires !model.greeted && !model.authed
      modifies this`r, this`plain, this`phase, this`earlier
      ensures Ready() && r == tlsStream
      ensures Now() == old(Now()).(plain := Some(old(phase)), phase := Phase(tlsStream.Rest(), model, []))
    {
      hide React, Obeys, Codes, Unread, Replayed, Effects, Punctual, Arrived;
      NothingYet(cfg, env, Clock(arrivals, |phase.log|), tlsStream.Rest(), model);
      assert phase.log + [] == [] + phase.log;
      plain := Some(phase);
      earlier := Effects(cfg, phase.start, phase.log);
      r := tlsStream;
      phase := Phase(tlsStream.Rest(), model, []);
    }

    method HandleMail(ghost text: string, args: string)
      requires Asked(text, Mail, args)
      modifies this`mailFrom, this`phase, this`model, this`replies
      ensures Ready() && model.mode.Command? && model.count == old(model.count) + 1
      ensures |replies| == |old(replies)| + 1
      ensures var a := old(Outside()); Now() == Stepped(old(Now()), text, a, OnMail(cfg, old(Counted()), args, a))
    {
      hide React, Got, Running, Made, Written, Tracks, Agrees, AnswersAt, Outside, AnsweredTo, Answered;
      hide TrimSpace, SplitCommand, VerbOf, ToUpper, ExtractAddress;
      OutsideAgrees();
      CommandReaction(text, TrimSpace(text), Outside());
      if !greeted {
        Reply(text, Outside(), 503);
        return;
      }
      if !authed {
        Reply(text, Outside(), 530);
        return;
      }
      if mailFrom != "" {
        Reply(text, Outside(), 503);
        return;
      }
      if !("FROM:" <= ToUpper(args)) {
        Reply(text, Outside(), 501);
        return;
      }
      var address := ExtractAddress(args, 5);
      if address == "" || !cfg.validAddress(address) {
        Reply(text, Outside(), 553);
        return;
      }
      if !cfg.senderPattern(address) {
        Reply(text, Outside(), 550);
        return;
      }
      if cfg.checkAliases {
        var aliases := Outside().aliases;
        if aliases.None? {
          Reply(text, Outside(), 454);
          return;
        }
        if address !in aliases.value {
          Reply(text, Outside(), 550);
          return;
        }
      }
      mailFrom := address;
      Reply(text, Outside(), 250);
    }

    method HandleRcpt(ghost text: string, args: string)
      requires Asked(text, Rcpt, args)
      modifies this`rcptTo, this`phase, this`model, this`replies
      ensures Ready() && model.mode.Command? && model.count == old(model.count) + 1
      ensures |replies| == |old(replies)| + 1
      ensures Now() == Stepped(old(Now()), text, old(Outside()), OnRcpt(cfg, old(Counted()), args))
    {
      hide React, Got, Running, Made, Written, Tracks, Agrees, AnswersAt, Outside, AnsweredTo, Answered;
      hide TrimSpace, SplitCommand, VerbOf, ToUpper, ExtractAddress;
      OutsideAgrees();
      CommandReaction(text, TrimSpace(text), Outside());
      if mailFrom == "" {
        Reply(text, Outside(), 503);
        return;
      }
      if !("TO:" <= ToUpper(args)) {
        Reply(text, Outside(), 501);
        return;
      }
      if |rcptTo| >= cfg.maxRecipients {
        Reply(text, Outside(), 452);
        return;
      }
      var address := ExtractAddress(args, 3);
      if address == "" || !cfg.validAddress(address) {
        Reply(text, Outside(), 553);
        return;
      }
      rcptTo := rcptTo + [address];
      Reply(text, Outside(), 250);
    }

    /** The answers to DATA: the count is the backlog at this moment. */
    ghost function DataAnswers(): Answers
      reads this`replies, store
    {
      Outside().(backlog :=
        if AnswersAt(env, |replies|).backlog.None? then None else Some(|Backlog(store.rows)|))
    }

    method HandleData(ghost text: string, ghost args: string) returns (close: bool)
      requires Asked(text, DataVerb, args)
      modifies this`mailFrom, this`rcptTo, this`calls, this`phase, this`model, this`replies, r, store
      ensures Served(text, close) && !close
      ensures var a := old(DataAnswers());
        Answered(old(Now()), Now(), text, a, OnData(cfg, old(Counted()), a).code)
    {
      hide React, Got, Running, Made, Written, Tracks, Agrees, AnswersAt, Outside, AnsweredTo, Answered;
      hide Extends, Stepped, TrimSpace, SplitCommand, VerbOf, Backlog;
      ghost var s, a := Now(), DataAnswers();
      OutsideAgrees();
      CommandReaction(text, TrimSpace(text), a);
      StepAnswers(cfg, env, s, text, a);
      OneReply(s, text, a, OnData(cfg, Counted(), a));
      var ready := CheckData(text, args);
      if ready {
        ghost var s' := Now();
        ReceiveBody();
        ExtendsOn(s, s', Now());
        AnsweredBefore(cfg, env, s, s', Now(), text);
      }
      return false;
    }

    /** The part of DATA up to the 354 reply. */
    method CheckData(ghost text: string, ghost args: string) returns (ready: bool)
      requires Asked(text, DataVerb, args)
      modifies this`phase, this`model, this`replies
      ensures Ready() && (if ready then model.mode.Data? else model.mode.Command?)
      ensures model.count == old(model.count) + 1
      ensures var a := old(DataAnswers()); Now() == Stepped(old(Now()), text, a, OnData(cfg, old(Counted()), a))
    {
      hide React, Got, Running, Made, Written, Tracks, Agrees, AnswersAt, Outside, AnsweredTo, Answered;
      hide Extends, Stepped, TrimSpace, SplitCommand, VerbOf, Backlog;
      var dbError := AnswersAt(env, |replies|).backlog.None?;
      OutsideAgrees();
      ghost var a := DataAnswers();
      CommandReaction(text, TrimSpace(text), a);
      if mailFrom == "" || |rcptTo| == 0 {
        Reply(text, a, 503);
        return false;
      }
      var backlog := store.BacklogCount(dbError);
      if backlog.None? {
        Reply(text, a, 451);
        return false;
      }
      if backlog.value >= cfg.maxBacklog {
        Reply(text, a, 421);
        return false;
      }
      Reply(text, a, 354);
      return true;
    }

    /** A 250 means one more message handed over, and its row is in the table. */
    twostate predicate Handed(before: seq<Effect>)
      reads this, store
    {
      if LastCode(phase.log) != 250 then calls == before
      else
        && |calls| == |before| + 1 && before <= calls && calls[|before|].Queued?
        && var content := calls[|before|].content;
        && content.mailFrom == old(mailFrom) && content.recipients == old(rcptTo)
        && Stored(content)
    }

    ghost predicate Stored(content: Content)
      reads store
    {
      exists id, created :: id in store.rows && store.rows[id] == Row(content, Pending, 0, created, created, created)
    }

    /** A random id, time.Now, and the insert, by when the queue may look different. */
    method StoreMessage(content: Content, errored: bool) returns (inserted: bool, ghost id: string)
      modifies store
      ensures inserted ==> !errored && content.data != "" && Stored(content)
      ensures !inserted ==> errored || !Complete(id, content) || id in store.rows
    {
      var newId: string, createdAt: Instant := *, *;
      id := newId;
      OthersUseQueue();
      var fault := NoFault;
      if errored {
        fault :| fault != NoFault;
      }
      var result := store.Enqueue(newId, content, Some(createdAt), None, createdAt, fault);
      if result.Inserted? {
        assert store.rows[newId] == Row(content, Pending, 0, createdAt, createdAt, createdAt);
      }
      inserted := result.Inserted?;
    }

    /** Exactly this piece was answered. */
    twostate predicate OnePiece(text: string)
      reads this
    {
      && Extends(old(Now()), Now()) && AnsweredTo(cfg, env, old(Now()), Now(), text)
      && |phase.log| == |old(phase.log)| + 1 && |replies| == |old(replies)| + 1
    }

    /** The part of DATA after the 354 reply.  A body that did not arrive in time is answered
        451, and whatever comes later is taken for commands. */
    method ReceiveBody()
      requires Ready() && model.mode.Data?
      modifies this`mailFrom, this`rcptTo, this`calls, this`phase, this`model, this`replies, r, store
      ensures Ready() && model.mode.Command? && model.count == old(model.count)
      ensures OnePiece(BodyPart(old(r.timely))) && Handed(old(calls))
      ensures (r != tlsStream ==> tlsStream.Rest() == old(tlsStream.Rest()))
      ensures SplitBody(old(r.timely)).Unterminated? ==>
        && LastCode(phase.log) == 451 && mailFrom == old(mailFrom) && rcptTo == old(rcptTo)
        && r.timely == "" && r.late == old(r.late)
    {
      hide React, Unread, Replayed, Effects, Obeys, Codes, SplitBody, Unstuffed, Fits, Consume, Concat, BodyPart;
      hide Arrived, Punctual;
      PiecesReadAsAnnounced(cfg, phase.start, phase.log);
      ghost var timely, late := r.timely, r.late;
      ghost var body := BodyPart(timely);
      BodyPartRead(timely, cfg.maxMessageBytes);
      WholePart(timely);
      var payload, size, err := ConsumeData(r, cfg.maxMessageBytes);
      assert timely == body + r.timely;
      assert timely + late == body + r.Rest();
      AnswerBody(body, payload, size, err);
    }

    lemma WholePart(timely: string)
      ensures SplitBody(timely).Unterminated? ==> BodyPart(timely) == timely
    {}

    /** What ReceiveBody does once the reader is done with the body. */
    method AnswerBody(ghost body: string, payload: Option<string>, size: int, err: bool)
      requires Unanswered(body) && model.mode.Data? && (err <==> SplitBody(body).Unterminated?)
      requires !err ==> var whole := Unstuffed(SplitBody(body).lines);
        if |whole| <= cfg.maxMessageBytes then payload == Some(whole) && size == |whole| else size > cfg.maxMessageBytes
      modifies this`mailFrom, this`rcptTo, this`calls, this`phase, this`model, this`replies, store
      ensures Ready() && model.mode.Command? && model.count == old(model.count)
      ensures OnePiece(body) && Handed(old(calls))
      ensures err ==> LastCode(phase.log) == 451 && mailFrom == old(mailFrom) && rcptTo == old(rcptTo)
    {
      hide React, Got, Running, Made, Written, Tracks, Agrees, AnswersAt, Outside, AnsweredTo, Answered;
      hide Extends, Stepped;
      hide SplitBody, Unstuffed;
      OutsideAgrees();
      StepAnswers(cfg, env, Now(), body, Outside());
      StepSize(Now(), body, Outside(), React(cfg, model, body, Outside()));
      BodyReaction(body, Outside());
      if err {
        Reply(body, Outside(), 451);
        return;
      }
      if size > cfg.maxMessageBytes {
        ResetEnvelope();
        Reply(body, Outside(), 552);
        return;
      }
      QueueBody(body, payload.value);
    }

    method QueueBody(ghost body: string, payload: string)
      requires Unanswered(body) && model.mode.Data? && |payload| <= cfg.maxMessageBytes
      requires SplitBody(body).Body? && payload == Unstuffed(SplitBody(body).lines)
      modifies this`mailFrom, this`rcptTo, this`calls, this`phase, this`model, this`replies, store
      ensures Ready() && model.mode.Command? && model.count == old(model.count)
      ensures OnePiece(body) && Handed(old(calls))
    {
      hide React, Got, Running, Made, Written, Tracks, AnswersAt, AnsweredTo, Extends, Stored, SplitBody, Unstuffed;
      var content := Content(mailFrom, rcptTo, payload);
      var inserted, _ := StoreMessage(content, AnswersAt(env, |replies|).insertError);
      AnswerInserted(body, content, inserted);
    }

    /** 250 for a stored message, after which the envelope is gone, or 451. */
    method AnswerInserted(ghost body: string, content: Content, inserted: bool)
      requires Unanswered(body) && model.mode.Data? && SplitBody(body).Body?
      requires content == Content(mailFrom, rcptTo, Unstuffed(SplitBody(body).lines))
      requires |content.data| <= cfg.maxMessageBytes && (inserted ==> content.data != "")
      modifies this`mailFrom, this`rcptTo, this`calls, this`phase, this`model, this`replies
      ensures Ready() && model.mode.Command? && model.count == old(model.count) && OnePiece(body)
      ensures LastCode(phase.log) == (if inserted then 250 else 451)
      ensures calls == old(calls) + (if inserted then [Queued(content)] else [])
    {
      hide React, Got, Running, Made, Written, Tracks, Agrees, AnswersAt, Outside, AnsweredTo, Answered, Extends;
      hide Stepped, SplitBody, Unstuffed;
      ghost var a := Outside().(insertError := !inserted);
      OutsideAgrees();
      StepAnswers(cfg, env, Now(), body, a);
      StepSize(Now(), body, a, React(cfg, model, body, a));
      BodyReaction(body, a);
      if !inserted {
        Reply(body, a, 451);
        return;
      }
      calls := calls + [Queued(content)];
      ResetEnvelope();
      Reply(body, a, 250);
    }

    lemma BodyReaction(body: string, a: Answers)
      requires model.mode.Data?
      ensures React(cfg, model, body, a) == OnBody(cfg, model, body, a)
    {}

    // ---- handleAuth ----

    /** The gates before credentials, in handleCommand. */
    method AuthCommand(ghost text: string, args: string) returns (close: bool)
      requires Asked(text, Auth, args)
      modifies this`authFailures, this`authed, this`calls, this`phase, this`model, this`replies, r
      ensures Served(text, close)
      ensures var a := old(Outside()); Answered(old(Now()), Now(), text, a, OnAuth(cfg, old(Counted()), args, a).code)
    {
      hide React, Got, Running, Made, Written, Tracks, Agrees, AnswersAt, Outside, AnsweredTo, Answered;
      hide Extends, Stepped, TrimSpace, SplitCommand, VerbOf, ToUpper, Fields, Split;
      OutsideAgrees();
      StepAnswers(cfg, env, Now(), text, Outside());
      OneReply(Now(), text, Outside(), React(cfg, model, text, Outside()));
      CommandReaction(text, TrimSpace(text), Outside());
      if !isTLS && cfg.requireTls {
        Reply(text, Outside(), 530);
        return false;
      }
      if !greeted {
        Reply(text, Outside(), 503);
        return false;
      }
      if authFailures >= 3 {
        Reply(text, Outside(), 454);
        return false;
      }
      if Outside().ipBlocked {
        Reply(text, Outside(), 454);
        return false;
      }
      close := HandleAuth(text, args);
    }

    ghost predicate PastGates()
      reads this
    {
      (isTLS || !cfg.requireTls) && greeted && authFailures < 3 && !Outside().ipBlocked
    }

    /** handleAuth: the mechanisms. */
    method HandleAuth(ghost text: string, args: string) returns (close: bool)
      requires Asked(text, Auth, args) && PastGates()
      modifies this`authFailures, this`authed, this`calls, this`phase, this`model, this`replies, r
      ensures Served(text, close)
      ensures var a := old(Outside()); Answered(old(Now()), Now(), text, a, OnAuth(cfg, old(Counted()), args, a).code)
    {
      hide React, Got, Running, Made, Written, Tracks, Agrees, AnswersAt, Outside, AnsweredTo, Answered;
      hide Extends, Stepped, TrimSpace, SplitCommand, VerbOf, ToUpper, Fields, Split;
      ghost var s := Now();
      OutsideAgrees();
      StepAnswers(cfg, env, s, text, Outside());
      OneReply(s, text, Outside(), React(cfg, model, text, Outside()));
      CommandReaction(text, TrimSpace(text), Outside());
      var parts := Fields(args);
      if |parts| == 0 {
        Reply(text, Outside(), 501);
        return false;
      }
      if ToUpper(parts[0]) == "PLAIN" {
        if |parts| > 1 {
          FinishPlain(text, Counted(), parts[1]);
          return false;
        }
        Reply(text, Outside(), 334);
        ghost var s' := Now();
        close := PlainLine();
        ExtendsOn(s, s', Now());
        AnsweredBefore(cfg, env, s, s', Now(), text);
        return;
      }
      if ToUpper(parts[0]) == "LOGIN" {
        Reply(text, Outside(), 334);
        ghost var s' := Now();
        close := Login();
        LoginReplies(cfg, env, s', Now(), close);
        ExtendsOn(s, s', Now());
        AnsweredBefore(cfg, env, s, s', Now(), text);
        return;
      }
      Reply(text, Outside(), 504);
      return false;
    }

    lemma PlainReaction(text: string)
      requires model.mode.PlainResponse?
      ensures React(cfg, model, text, Outside()) == OnPlain(cfg, model, TrimSpace(text), Outside())
    {}

    /** Decodes a PLAIN response and checks the credentials in it. */
    method FinishPlain(ghost text: string, ghost s: Session, payload: string)
      requires Unanswered(text) && Matches(s) && s.mode != Data
      requires React(cfg, model, text, Outside()) == OnPlain(cfg, s, payload, Outside())
      modifies this`authFailures, this`authed, this`calls, this`phase, this`model, this`replies
      ensures Ready() && model.mode.Command? && model.count == s.count
      ensures var a := old(Outside()); Now() == Stepped(old(Now()), text, a, OnPlain(cfg, s, payload, a))
    {
      hide React, Got, Running, Made, Written, Tracks, Agrees, AnswersAt, Outside, AnsweredTo, Answered, Split;
      OutsideAgrees();
      var decoded := cfg.decode(payload);
      if decoded.None? {
        Reply(text, Outside(), 535);
        return;
      }
      var segments := Split(decoded.value, '\0');
      if |segments| < 3 {
        Reply(text, Outside(), 535);
        return;
      }
      Validate(text, s, segments[1], segments[2]);
    }

    method Validate(ghost text: string, ghost s: Session, username: string, password: string)
      requires Unanswered(text) && Matches(s)
      requires React(cfg, model, text, Outside()) == CheckLogin(cfg, s, username, password, Outside())
      modifies this`authFailures, this`authed, this`calls, this`phase, this`model, this`replies
      ensures Ready() && model.mode.Command? && model.count == s.count
      ensures var a := old(Outside()); Now() == Stepped(old(Now()), text, a, CheckLogin(cfg, s, username, password, a))
    {
      hide React, Got, Running, Made, Written, Tracks, Agrees, AnswersAt, Outside, AnsweredTo, Answered;
      OutsideAgrees();
      if Outside().userBlocked {
        Reply(text, Outside(), 454);
        return;
      }
      if (username, password) !in cfg.users {
        authFailures := authFailures + 1;
        calls := calls + [LoginFailed(username)];
        Reply(text, Outside(), 535);
        return;
      }
      calls := calls + [LoginOk(username)];
      authFailures := 0;
      authed := true;
      Reply(text, Outside(), 235);
    }

    lemma UserReaction(text: string)
      requires model.mode.LoginUser?
      ensures React(cfg, model, text, Outside()) == OnLoginUser(cfg, model, text)
    {}

    lemma PasswordReaction(text: string)
      requires model.mode.LoginPassword?
      ensures React(cfg, model, text, Outside()) == OnLoginPassword(cfg, model, model.mode.user, text, Outside())
    {}

    /** The first question of AUTH LOGIN. */
    method Login() returns (close: bool)
      requires Ready() && model.mode.LoginUser?
      modifies this`authFailures, this`authed, this`calls, this`phase, this`model, this`replies, r
      ensures Extends(old(Now()), Now()) && LoginFrom(cfg, env, old(Now()), Now(), close)
      ensures r != tlsStream ==> tlsStream.Rest() == old(tlsStream.Rest())
      ensures if close then Dropped() else Ready() && model.mode.Command? && model.count == old(model.count)
    {
      hide React, Got, Running, Made, Written, Tracks, Agrees, AnswersAt, AnsweredTo, Answered, Extends;
      hide Stepped, TrimSpace;
      hide PasswordFrom;
      ghost var s := Now();
      OutsideAgrees();
      ExtendsSelf(s);
      var line := ReadLine();
      if line.None? {
        return true;
      }
      UserReaction(line.value);
      StepAnswers(cfg, env, s, line.value, Outside());
      var user := cfg.decode(TrimSpace(line.value));
      if user.None? {
        Reply(line.value, Outside(), 535);
        return false;
      }
      Reply(line.value, Outside(), 334);
      ghost var s' := Now();
      close := Password(user.value);
      ExtendsOn(s, s', Now());
    }

    /** The second question. */
    method Password(user: string) returns (close: bool)
      requires Ready() && model.mode == LoginPassword(user)
      modifies this`authFailures, this`authed, this`calls, this`phase, this`model, this`replies, r
      ensures Extends(old(Now()), Now()) && PasswordFrom(cfg, env, old(Now()), Now(), close)
      ensures r != tlsStream ==> tlsStream.Rest() == old(tlsStream.Rest())
      ensures if close then Dropped() else Ready() && model.mode.Command? && model.count == old(model.count)
    {
      hide React, Got, Running, Made, Written, Tracks, Agrees, AnswersAt, AnsweredTo, Answered, Extends;
      hide Stepped, TrimSpace;
      ghost var s := Now();
      OutsideAgrees();
      ExtendsSelf(s);
      var line := ReadLine();
      if line.None? {
        return true;
      }
      PasswordReaction(line.value);
      StepAnswers(cfg, env, s, line.value, Outside());
      var password := cfg.decode(TrimSpace(line.value));
      if password.None? {
        Reply(line.value, Outside(), 535);
        return false;
      }
      Validate(line.value, model, user, password.value);
      return false;
    }

    /** The line after the empty challenge of AUTH PLAIN. */
    method PlainLine() returns (close: bool)
      requires Ready() && model.mode.PlainResponse?
      modifies this`authFailures, this`authed, this`calls, this`phase, this`model, this`replies, r
      ensures Extends(old(Now()), Now())
      ensures r != tlsStream ==> tlsStream.Rest() == old(tlsStream.Rest())
      ensures |replies| <= |old(replies)| + 1
      ensures if close then Dropped() && Now() == old(Now())
              else Ready() && model.mode.Command? && model.count == old(model.count)
      ensures !close ==> exists text :: var a := old(Outside());
        Now() == Stepped(old(Now()), text, a, OnPlain(cfg, old(model), TrimSpace(text), a))
    {
      hide React, Got, Running, Made, Written, Tracks, Agrees, AnswersAt, AnsweredTo, Answered, Extends;
      hide Stepped, TrimSpace;
      ghost var s := Now();
      OutsideAgrees();
      ExtendsSelf(s);
      var line := ReadLine();
      if line.None? {
        return true;
      }
      PlainReaction(line.value);
      StepAnswers(cfg, env, s, line.value, Outside());
      OneReply(s, line.value, Outside(), OnPlain(cfg, model, TrimSpace(line.value), Outside()));
      FinishPlain(line.value, model, TrimSpace(line.value));
      return false;
    }
  }
}
