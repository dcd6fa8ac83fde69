/** Which configurations take any mail at all: those in which some conversation is told to
    send a body.  Then one gets there without ever learning the backlog on the way. */
module Opening {
  import opened Queue
  import opened Text
  import opened Session
  import opened Conversation
  import opened PlainClient

  /** A conversation on a new connection. */
  datatype Opening = Opening(tls: bool, log: seq<Entry>)

  ghost predicate Leads(cfg: Config, o: Opening, s: Session) {
    Replayed(cfg, Greeted(o.tls), o.log) == Some(s)
  }

  /** Some conversation is answered 354, and a body may have a byte. */
  ghost predicate TakesMail(cfg: Config) {
    cfg.maxMessageBytes >= 1 && exists o, s :: Leads(cfg, o, s) && s.mode.Data?
  }

  predicate Unasked(log: seq<Entry>) {
    forall e :: e in log ==> e.answers.backlog.None?
  }

  /** The conversation stops just before DATA, and no reply in it depends on the backlog. */
  ghost predicate Opens(cfg: Config, o: Opening, s: Session) {
    Leads(cfg, o, s) && Unasked(o.log) && MaySendData(cfg, s)
  }

  // ---- Only DATA looks at the backlog ----

  function Blind(a: Answers): Answers {
    a.(backlog := None)
  }

  lemma CommandsAreBlind(cfg: Config, s: Session, args: string, a: Answers)
    ensures OnAuth(cfg, s, args, Blind(a)) == OnAuth(cfg, s, args, a)
    ensures OnMail(cfg, s, args, Blind(a)) == OnMail(cfg, s, args, a)
    ensures OnStartTls(s, Blind(a)) == OnStartTls(s, a)
    ensures !OnData(cfg, s, a).session.mode.Data? ==> OnData(cfg, s, Blind(a)).session == OnData(cfg, s, a).session
    ensures OnData(cfg, s, a).effect.Nothing? && OnMail(cfg, s, args, a).effect.Nothing?
    ensures !OnAuth(cfg, s, args, a).effect.Queued? && OnRcpt(cfg, s, args).effect.Nothing?
  {
    hide Split, Fields, ToUpper, ExtractAddress;
  }

  /** Outside bodies, a step that does not lead into one is the same without the backlog,
      and queues nothing. */
  lemma StepIsBlind(cfg: Config, s: Session, text: string, a: Answers)
    requires !s.mode.Closed? && !s.mode.Data? && !React(cfg, s, text, a).session.mode.Data?
    ensures React(cfg, s, text, Blind(a)).session == React(cfg, s, text, a).session
  {
    hide VerbOf, Split, Fields, ToUpper, TrimSpace, SplitCommand, OnAuth, OnMail, OnRcpt, OnStartTls, OnData;
    if s.mode.Command? {
      CommandsAreBlind(cfg, s.(count := s.count + 1), SplitCommand(TrimSpace(text)).1, a);
    }
  }

  lemma NothingQueued(cfg: Config, s: Session, text: string, a: Answers)
    requires !s.mode.Closed? && !s.mode.Data?
    ensures !React(cfg, s, text, a).effect.Queued?
  {
    hide VerbOf, Split, Fields, ToUpper, TrimSpace, SplitCommand, OnAuth, OnMail, OnRcpt, OnStartTls, OnData;
    if s.mode.Command? {
      CommandsAreBlind(cfg, s.(count := s.count + 1), SplitCommand(TrimSpace(text)).1, a);
      StartTlsQueuesNothing(s.(count := s.count + 1), a);
    }
  }

  lemma StartTlsQueuesNothing(s: Session, a: Answers)
    ensures OnStartTls(s, a).effect.Nothing?
  {}

  // ---- From any conversation that reaches DATA to an opening ----

  /** Either the log got into a body, and then a part of it is an opening; or it did not,
      and leads to the same session without asking for the backlog. */
  lemma {:induction false} BlindLog(cfg: Config, tls: bool, log: seq<Entry>)
    returns (found: bool, o: Opening, s: Session)
    requires Replayed(cfg, Greeted(tls), log).Some?
    ensures Leads(cfg, o, s) && Unasked(o.log)
    ensures found ==> MaySendData(cfg, s)
    ensures !found ==> o.tls == tls && s == Replayed(cfg, Greeted(tls), log).value && !s.mode.Data?
  {
    hide React, MaySendData;
    if log == [] {
      found, o, s := false, Opening(tls, []), Greeted(tls);
    } else {
      var n := |log| - 1;
      found, o, s := BlindLog(cfg, tls, log[..n]);
      if !found {
        var text, a := log[n].text, log[n].answers;
        if React(cfg, s, text, a).session.mode.Data? {
          DataStarts(cfg, s, text, a);
          found := true;
        } else {
          StepIsBlind(cfg, s, text, a);
          var r := React(cfg, s, text, Blind(a));
          var e := Entry(text, Blind(a), r.code);
          Appended(cfg, Greeted(tls), "", o.log, e);
          o, s := Opening(tls, o.log + [e]), r.session;
        }
      }
    }
  }

  lemma MailHasOpening(cfg: Config) returns (o: Opening, s: Session)
    requires TakesMail(cfg)
    ensures Opens(cfg, o, s)
  {
    hide React, MaySendData, Replayed;
    var o', s' :| Leads(cfg, o', s') && s'.mode.Data?;
    var found;
    found, o, s := BlindLog(cfg, o'.tls, o'.log);
  }

  // ---- A configuration that serves a client takes mail ----

  lemma Said(cfg: Config, o: Opening, s: Session, text: string, a: Answers) returns (o': Opening)
    requires Leads(cfg, o, s) && !s.mode.Closed?
    ensures Leads(cfg, o', React(cfg, s, text, a).session)
  {
    hide React, Replayed, Unread, Effects;
    var e := Entry(text, a, React(cfg, s, text, a).code);
    Appended(cfg, Greeted(o.tls), "", o.log, e);
    o' := Opening(o.tls, o.log + [e]);
  }

  lemma JustGreeted(cfg: Config, tls: bool)
    ensures Leads(cfg, Opening(tls, []), Greeted(tls))
  {}

  lemma ServedTakesMail(cfg: Config, who: Client)
    requires Served(cfg, who) && cfg.maxBacklog > 0
    ensures TakesMail(cfg)
  {
    hide React, Leads, KnownUser, Says, Spells;
    var a := NOT_ASKED.(aliases := Some({who.sender}), backlog := Some(0));
    var auth := "PLAIN" + (" " + who.payload + "");
    var mail, rcpt := "FROM:<" + who.sender + ">", "TO:<" + who.recipient + ">";
    ClientLines(cfg, who);
    JustGreeted(cfg, true);
    EhloAccepted(cfg, Greeted(true), CommandLine("EHLO", ""), "", a);
    var o := Said(cfg, Opening(true, []), Greeted(true), CommandLine("EHLO", ""), a);
    var s := Session(true, true, false, 0, "", [], 1, Command);
    AuthAccepted(cfg, s, CommandLine("AUTH", auth), "PLAIN", who, a);
    o := Said(cfg, o, s, CommandLine("AUTH", auth), a);
    s := s.(count := 2, authed := true);
    MailAccepted(cfg, s, CommandLine("MAIL", mail), "FROM:", who.sender, "", a);
    o := Said(cfg, o, s, CommandLine("MAIL", mail), a);
    s := s.(count := 3, mailFrom := who.sender);
    RcptAccepted(cfg, s, CommandLine("RCPT", rcpt), "TO:", who.recipient, "", a);
    o := Said(cfg, o, s, CommandLine("RCPT", rcpt), a);
    s := s.(count := 4, rcptTo := [] + [who.recipient]);
    PlainLines();
    DataAccepted(cfg, s, DATA_LINE, "", a);
    o := Said(cfg, o, s, DATA_LINE, a);
    assert Leads(cfg, o, s.(count := 5, mode := Data));
  }

  /** The four lines before DATA say what they are meant to. */
  lemma ClientLines(cfg: Config, who: Client)
    requires KnownUser(cfg, who)
    ensures Says(CommandLine("EHLO", ""), "EHLO", "")
    ensures var auth := "PLAIN" + (" " + who.payload + ""); Says(CommandLine("AUTH", auth), "AUTH", auth)
    ensures var mail := "FROM:<" + who.sender + ">";
      mail == "FROM:" + "<" + who.sender + ">" + "" && Says(CommandLine("MAIL", mail), "MAIL", mail)
    ensures var rcpt := "TO:<" + who.recipient + ">";
      rcpt == "TO:" + "<" + who.recipient + ">" + "" && Says(CommandLine("RCPT", rcpt), "RCPT", rcpt)
    ensures Spells("PLAIN", "PLAIN") && Spells("FROM:", "FROM:") && Spells("TO:", "TO:")
  {
    hide Says;
    LineSays("EHLO", "");
    assert who.payload[|who.payload| - 1] in who.payload;
    LineSays("AUTH", "PLAIN" + (" " + who.payload + ""));
    LineSays("MAIL", "FROM:<" + who.sender + ">");
    LineSays("RCPT", "TO:<" + who.recipient + ">");
  }
}
