/** One SMTP connection as a reactive machine: each piece of input the server waits for
    (a command line, an AUTH line, a message body) gets one reply and moves the session. */
module Session {
  import opened Queue
  import opened DataReader
  import opened Text

  /** Address syntax, the sender pattern and base64 are parameters. */
  datatype Config = Config(
    requireTls: bool, maxMessageBytes: nat, maxRecipients: nat, maxCommands: nat, maxBacklog: nat,
    checkAliases: bool, validAddress: string -> bool, senderPattern: string -> bool,
    users: set<(string, string)>, decode: string -> Option<string>)

  datatype Mode = Command | PlainResponse | LoginUser | LoginPassword(user: string) | Data | Closed

  datatype Session = Session(
    tls: bool, greeted: bool, authed: bool, authFailures: nat,
    mailFrom: string, rcptTo: seq<string>, count: nat, mode: Mode)
  {
    function ResetEnvelope(): Session {
      this.(mailFrom := "", rcptTo := [])
    }
  }

  /** What the shared parts of the server answer while one piece of input is handled. */
  datatype Answers = Answers(
    handshakeOk: bool, ipBlocked: bool, userBlocked: bool,
    aliases: Option<set<string>>, backlog: Option<nat>, insertError: bool)

  const NOT_ASKED := Answers(false, false, false, None, None, false)

  datatype Effect = Nothing | LoginFailed(user: string) | LoginOk(user: string) | Queued(content: Content)

  datatype Reaction = Reaction(session: Session, code: int, effect: Effect)

  function Greeted(implicitTls: bool): Session {
    Session(implicitTls, false, false, 0, "", [], 0, Command)
  }

  function Plain(s: Session, code: int): Reaction {
    Reaction(s.(mode := Command), code, Nothing)
  }

  // ---- Commands ----

  function OnLine(cfg: Config, s: Session, text: string, a: Answers): Reaction {
    var counted := s.(count := s.count + 1);
    if counted.count > cfg.maxCommands then Reaction(counted.(mode := Closed), 421, Nothing)
    else
      var line := TrimSpace(text);
      if line == "" then Plain(counted, 500) else OnCommand(cfg, counted, line, a)
  }

  datatype Verb = Ehlo | StartTls | Auth | Mail | Rcpt | DataVerb | Rset | Noop | Quit | Other

  function VerbOf(word: string): Verb {
    if word == "EHLO" || word == "HELO" then Ehlo
    else if word == "STARTTLS" then StartTls
    else if word == "AUTH" then Auth
    else if word == "MAIL" then Mail
    else if word == "RCPT" then Rcpt
    else if word == "DATA" then DataVerb
    else if word == "RSET" then Rset
    else if word == "NOOP" then Noop
    else if word == "QUIT" then Quit
    else Other
  }

  function OnCommand(cfg: Config, s: Session, line: string, a: Answers): Reaction {
    var args := SplitCommand(line).1;
    match VerbOf(SplitCommand(line).0)
    case Ehlo => Plain(s.ResetEnvelope().(greeted := true), 250)
    case StartTls => OnStartTls(s, a)
    case Auth => OnAuth(cfg, s, args, a)
    case Mail => OnMail(cfg, s, args, a)
    case Rcpt => OnRcpt(cfg, s, args)
    case DataVerb => OnData(cfg, s, a)
    case Rset => Plain(s.ResetEnvelope(), 250)
    case Noop => Plain(s, 250)
    case Quit => Reaction(s.(mode := Closed), 221, Nothing)
    case Other => Plain(s, 502)
  }

  function OnStartTls(s: Session, a: Answers): Reaction {
    if s.tls then Plain(s, 454)
    else if !a.handshakeOk then Reaction(s.(mode := Closed), 220, Nothing)
    else Plain(s.ResetEnvelope().(tls := true, greeted := false, authed := false), 220)
  }

  function OnMail(cfg: Config, s: Session, args: string, a: Answers): Reaction {
    if !s.greeted then Plain(s, 503)
    else if !s.authed then Plain(s, 530)
    else if s.mailFrom != "" then Plain(s, 503)
    else if !("FROM:" <= ToUpper(args)) then Plain(s, 501)
    else
      var address := ExtractAddress(args, 5);
      if address == "" || !cfg.validAddress(address) then Plain(s, 553)
      else if !cfg.senderPattern(address) then Plain(s, 550)
      else if cfg.checkAliases && a.aliases.None? then Plain(s, 454)
      else if cfg.checkAliases && address !in a.aliases.value then Plain(s, 550)
      else Plain(s.(mailFrom := address), 250)
  }

  function OnRcpt(cfg: Config, s: Session, args: string): Reaction {
    if s.mailFrom == "" then Plain(s, 503)
    else if !("TO:" <= ToUpper(args)) then Plain(s, 501)
    else if |s.rcptTo| >= cfg.maxRecipients then Plain(s, 452)
    else
      var address := ExtractAddress(args, 3);
      if address == "" || !cfg.validAddress(address) then Plain(s, 553)
      else Plain(s.(rcptTo := s.rcptTo + [address]), 250)
  }

  function OnData(cfg: Config, s: Session, a: Answers): Reaction {
    if s.mailFrom == "" || s.rcptTo == [] then Plain(s, 503)
    else if a.backlog.None? then Plain(s, 451)
    else if a.backlog.value >= cfg.maxBacklog then Plain(s, 421)
    else Reaction(s.(mode := Data), 354, Nothing)
  }

  // ---- Authentication ----

  function OnAuth(cfg: Config, s: Session, args: string, a: Answers): Reaction {
    if !s.tls && cfg.requireTls then Plain(s, 530)
    else if !s.greeted then Plain(s, 503)
    else if s.authFailures >= 3 then Plain(s, 454)
    else if a.ipBlocked then Plain(s, 454)
    else
      var parts := Fields(args);
      if parts == [] then Plain(s, 501)
      else if ToUpper(parts[0]) == "PLAIN" then
        if |parts| > 1 then OnPlain(cfg, s, parts[1], a)
        else Reaction(s.(mode := PlainResponse), 334, Nothing)
      else if ToUpper(parts[0]) == "LOGIN" then Reaction(s.(mode := LoginUser), 334, Nothing)
      else Plain(s, 504)
  }

  function OnPlain(cfg: Config, s: Session, payload: string, a: Answers): Reaction {
    match cfg.decode(payload)
    case None => Plain(s, 535)
    case Some(decoded) =>
      var segments := Split(decoded, '\0');
      if |segments| < 3 then Plain(s, 535) else CheckLogin(cfg, s, segments[1], segments[2], a)
  }

  function OnLoginUser(cfg: Config, s: Session, text: string): Reaction {
    match cfg.decode(TrimSpace(text))
    case None => Plain(s, 535)
    case Some(user) => Reaction(s.(mode := LoginPassword(user)), 334, Nothing)
  }

  function OnLoginPassword(cfg: Config, s: Session, user: string, text: string, a: Answers): Reaction {
    match cfg.decode(TrimSpace(text))
    case None => Plain(s, 535)
    case Some(password) => CheckLogin(cfg, s, user, password, a)
  }

  function CheckLogin(cfg: Config, s: Session, user: string, password: string, a: Answers): Reaction {
    if a.userBlocked then Plain(s, 454)
    else if (user, password) !in cfg.users then
      Reaction(s.(authFailures := s.authFailures + 1, mode := Command), 535, LoginFailed(user))
    else
      Reaction(s.(authFailures := 0, authed := true, mode := Command), 235, LoginOk(user))
  }

  // ---- Message bodies ----

  function OnBody(cfg: Config, s: Session, text: string, a: Answers): Reaction {
    var body := SplitBody(text);
    var payload := if body.Body? then Unstuffed(body.lines) else "";
    if |payload| > cfg.maxMessageBytes then Plain(s.ResetEnvelope(), 552)
    else if payload == "" || a.insertError then Plain(s, 451)
    else Reaction(s.ResetEnvelope().(mode := Command), 250, Queued(Content(s.mailFrom, s.rcptTo, payload)))
  }

  function React(cfg: Config, s: Session, text: string, a: Answers): Reaction {
    match s.mode
    case Command => OnLine(cfg, s, text, a)
    case PlainResponse => OnPlain(cfg, s, TrimSpace(text), a)
    case LoginUser => OnLoginUser(cfg, s, text)
    case LoginPassword(user) => OnLoginPassword(cfg, s, user, text, a)
    case Data => OnBody(cfg, s, text, a)
    case Closed => Reaction(s, 421, Nothing)
  }

  // ---- The way into a body ----

  predicate MayCommand(cfg: Config, s: Session) {
    s.mode.Command? && s.count < cfg.maxCommands
  }

  /** A session that may send DATA, or has just been told to send its body. */
  predicate HasEnvelope(s: Session) {
    s.mailFrom != "" && s.rcptTo != []
  }

  predicate MaySendData(cfg: Config, s: Session) {
    MayCommand(cfg, s) && HasEnvelope(s)
  }

  lemma OtherCommandsOpenNothing(cfg: Config, s: Session, args: string, a: Answers)
    requires s.mode.Command?
    ensures !OnAuth(cfg, s, args, a).session.mode.Data? && !OnStartTls(s, a).session.mode.Data?
    ensures !OnMail(cfg, s, args, a).session.mode.Data? && !OnRcpt(cfg, s, args).session.mode.Data?
  {
    hide Split, Fields, ToUpper, ExtractAddress;
  }

  lemma CommandOpens(cfg: Config, s: Session, line: string, a: Answers)
    requires s.mode.Command? && OnCommand(cfg, s, line, a).session.mode.Data?
    ensures HasEnvelope(s) && a.backlog.Some? && a.backlog.value < cfg.maxBacklog
  {
    hide VerbOf, SplitCommand, OnAuth, OnMail, OnRcpt, OnStartTls;
    OtherCommandsOpenNothing(cfg, s, SplitCommand(line).1, a);
  }

  /** Only DATA after an envelope, with room in the queue, leads into a body. */
  lemma DataStarts(cfg: Config, s: Session, text: string, a: Answers)
    requires !s.mode.Closed? && React(cfg, s, text, a).session.mode.Data?
    ensures MaySendData(cfg, s) && a.backlog.Some? && a.backlog.value < cfg.maxBacklog
  {
    hide Split, TrimSpace, OnCommand, SplitBody, Unstuffed;
    if s.mode.Command? {
      CommandOpens(cfg, s.(count := s.count + 1), TrimSpace(text), a);
    }
  }

  // ---- Safety of every step ----

  ghost predicate SenderOk(cfg: Config, approved: set<string>, address: string) {
    cfg.validAddress(address) && cfg.senderPattern(address) && (cfg.checkAliases ==> address in approved)
  }

  ghost predicate ContentOk(cfg: Config, approved: set<string>, c: Content) {
    && c.mailFrom != "" && SenderOk(cfg, approved, c.mailFrom)
    && 1 <= |c.recipients| <= cfg.maxRecipients
    && (forall r :: r in c.recipients ==> cfg.validAddress(r))
    && 1 <= |c.data| <= cfg.maxMessageBytes
  }

  predicate InAuth(mode: Mode) {
    mode.PlainResponse? || mode.LoginUser? || mode.LoginPassword?
  }

  /** `approved` is every sender the alias authority has vouched for so far. */
  ghost predicate SessionInv(cfg: Config, approved: set<string>, s: Session) {
    && (s.authed ==> s.greeted && (s.tls || !cfg.requireTls))
    && (s.mailFrom != "" ==> s.authed && SenderOk(cfg, approved, s.mailFrom))
    && (s.rcptTo != [] ==> s.mailFrom != "")
    && |s.rcptTo| <= cfg.maxRecipients
    && (forall r :: r in s.rcptTo ==> cfg.validAddress(r))
    && s.authFailures <= 3
    && (s.mode.Data? ==> s.mailFrom != "" && s.rcptTo != [])
    && (InAuth(s.mode) ==> s.greeted && (s.tls || !cfg.requireTls) && s.authFailures < 3)
    && s.count <= cfg.maxCommands + 1
    && (!s.mode.Closed? ==> s.count <= cfg.maxCommands)
  }

  /** The address of a MAIL command that this reaction accepted, if the alias authority was
      asked and knows it. */
  function Vouched(s: Session, s': Session, a: Answers): set<string> {
    if s.mailFrom == "" && s'.mailFrom != "" && a.aliases.Some? && s'.mailFrom in a.aliases.value
    then {s'.mailFrom} else {}
  }

  lemma OnAuthKeeps(cfg: Config, approved: set<string>, s: Session, args: string, a: Answers)
    requires SessionInv(cfg, approved, s) && s.mode.Command?
    ensures SessionInv(cfg, approved, OnAuth(cfg, s, args, a).session)
  {
    hide Split, Fields, ToUpper;
  }

  lemma OnMailKeeps(cfg: Config, approved: set<string>, s: Session, args: string, a: Answers)
    requires SessionInv(cfg, approved, s) && s.mode.Command?
    ensures var s' := OnMail(cfg, s, args, a).session; SessionInv(cfg, approved + Vouched(s, s', a), s')
  {
    hide ExtractAddress, ToUpper;
  }

  lemma OnRcptKeeps(cfg: Config, approved: set<string>, s: Session, args: string)
    requires SessionInv(cfg, approved, s) && s.mode.Command?
    ensures SessionInv(cfg, approved, OnRcpt(cfg, s, args).session)
  {
    hide ExtractAddress, ToUpper;
  }

  lemma MoreApproved(cfg: Config, approved: set<string>, more: set<string>, s: Session)
    requires SessionInv(cfg, approved, s)
    ensures SessionInv(cfg, approved + more, s)
  {}

  lemma StillOk(cfg: Config, approved: set<string>, more: set<string>, c: Content)
    ensures ContentOk(cfg, approved, c) ==> ContentOk(cfg, approved + more, c)
    ensures approved + {} == approved
  {}

  lemma FreshIsSafe(cfg: Config, approved: set<string>, implicitTls: bool)
    ensures SessionInv(cfg, approved, Greeted(implicitTls))
  {}

  lemma OtherVerbsKeep(cfg: Config, approved: set<string>, s: Session, a: Answers)
    requires SessionInv(cfg, approved, s) && s.mode.Command?
    ensures SessionInv(cfg, approved, Plain(s.ResetEnvelope().(greeted := true), 250).session)
    ensures SessionInv(cfg, approved, Plain(s.ResetEnvelope(), 250).session)
    ensures SessionInv(cfg, approved, s.(mode := Closed))
    ensures SessionInv(cfg, approved, OnStartTls(s, a).session)
    ensures SessionInv(cfg, approved, OnData(cfg, s, a).session)
  {}

  lemma OnCommandKeeps(cfg: Config, approved: set<string>, s: Session, line: string, a: Answers)
    requires SessionInv(cfg, approved, s) && s.mode.Command?
    ensures var s' := OnCommand(cfg, s, line, a).session; SessionInv(cfg, approved + Vouched(s, s', a), s')
  {
    hide SessionInv, VerbOf, SplitCommand, OnAuth, OnMail, OnRcpt, OnStartTls, OnData;
    var args := SplitCommand(line).1;
    OnAuthKeeps(cfg, approved, s, args, a);
    OnMailKeeps(cfg, approved, s, args, a);
    OnRcptKeeps(cfg, approved, s, args);
    OtherVerbsKeep(cfg, approved, s, a);
    var s' := OnCommand(cfg, s, line, a).session;
    if VerbOf(SplitCommand(line).0) != Mail {
      assert SessionInv(cfg, approved, s');
      MoreApproved(cfg, approved, Vouched(s, s', a), s');
    }
  }

  lemma CountedKeeps(cfg: Config, approved: set<string>, s: Session)
    requires SessionInv(cfg, approved, s) && s.mode.Command?
    ensures var counted := s.(count := s.count + 1);
      if counted.count > cfg.maxCommands then SessionInv(cfg, approved, counted.(mode := Closed))
      else SessionInv(cfg, approved, counted)
  {}

  lemma OnLineKeeps(cfg: Config, approved: set<string>, s: Session, text: string, a: Answers)
    requires SessionInv(cfg, approved, s) && s.mode.Command?
    ensures var s' := OnLine(cfg, s, text, a).session; SessionInv(cfg, approved + Vouched(s, s', a), s')
  {
    hide SessionInv, OnCommand, TrimSpace;
    CountedKeeps(cfg, approved, s);
    var counted := s.(count := s.count + 1);
    if counted.count > cfg.maxCommands {
      MoreApproved(cfg, approved, Vouched(s, counted, a), counted.(mode := Closed));
    } else {
      MoreApproved(cfg, approved, Vouched(s, counted, a), counted);
      OnCommandKeeps(cfg, approved, counted, TrimSpace(text), a);
    }
  }

  /** Every reaction keeps the session safe, never undoes TLS, and queues only messages
      whose sender, recipients and size passed every check. */
  lemma ReactKeeps(cfg: Config, approved: set<string>, s: Session, text: string, a: Answers)
    requires SessionInv(cfg, approved, s) && !s.mode.Closed?
    ensures var r := React(cfg, s, text, a);
      && SessionInv(cfg, approved + Vouched(s, r.session, a), r.session)
      && (s.tls ==> r.session.tls)
      && (r.effect.Queued? <==> s.mode.Data? && r.code == 250)
      && (r.effect.Queued? ==> ContentOk(cfg, approved, r.effect.content) && !a.insertError)
  {
    hide VerbOf, Split, Fields, ToUpper, TrimSpace, SplitCommand, ExtractAddress, SplitBody, Unstuffed, OnLine;
    if s.mode.Command? {
      OnLineKeeps(cfg, approved, s, text, a);
      OnLineAnnounces(cfg, s, text, a);
    }
  }

  ghost predicate NoLogin(s: Session, r: Reaction) {
    && r.session.authFailures == s.authFailures && !r.effect.LoginFailed? && !r.effect.LoginOk?
    && !InAuth(r.session.mode) && (!s.authed ==> !r.session.authed)
  }

  lemma EnvelopeNoLogin(cfg: Config, s: Session, args: string, a: Answers)
    requires s.mode.Command?
    ensures NoLogin(s, OnMail(cfg, s, args, a)) && NoLogin(s, OnRcpt(cfg, s, args))
    ensures NoLogin(s, OnStartTls(s, a)) && NoLogin(s, OnData(cfg, s, a))
    ensures s.authFailures >= 3 ==> NoLogin(s, OnAuth(cfg, s, args, a))
  {
    hide ToUpper, ExtractAddress, Fields;
  }

  /** After three failures no credentials are checked any more and the count stays. */
  lemma ThreeFailuresAreFinal(cfg: Config, approved: set<string>, s: Session, text: string, a: Answers)
    requires SessionInv(cfg, approved, s) && !s.mode.Closed? && s.authFailures == 3
    ensures NoLogin(s, React(cfg, s, text, a))
  {
    hide VerbOf, TrimSpace, SplitCommand, SplitBody, Unstuffed, OnAuth, OnMail, OnRcpt, OnStartTls, OnData;
    if s.mode.Command? {
      var args := SplitCommand(TrimSpace(text)).1;
      EnvelopeNoLogin(cfg, s.(count := s.count + 1), args, a);
    }
  }

  /** What holds of the reaction to any command line. */
  ghost predicate Announces(s: Session, r: Reaction) {
    && (r.code == 354 <==> r.session.mode.Data?)
    && (r.code == 334 <==> InAuth(r.session.mode))
    && r.session.count == s.count
    && (s.tls ==> r.session.tls)
    && !r.effect.Queued?
  }

  lemma AuthAnnounces(cfg: Config, s: Session, args: string, a: Answers)
    requires s.mode.Command?
    ensures Announces(s, OnAuth(cfg, s, args, a))
  {
    hide Split, Fields, ToUpper;
  }

  lemma EnvelopeAnnounces(cfg: Config, s: Session, args: string, a: Answers)
    requires s.mode.Command?
    ensures Announces(s, OnMail(cfg, s, args, a)) && Announces(s, OnRcpt(cfg, s, args))
    ensures Announces(s, OnStartTls(s, a)) && Announces(s, OnData(cfg, s, a))
  {
    hide ToUpper, ExtractAddress;
  }

  lemma OnLineAnnounces(cfg: Config, s: Session, text: string, a: Answers)
    requires s.mode.Command?
    ensures var r := OnLine(cfg, s, text, a);
      && Announces(s.(count := s.count + 1), r)
      && (r.session.count > cfg.maxCommands ==> r.code == 421 && r.session.mode.Closed?)
  {
    hide VerbOf, TrimSpace, SplitCommand, OnAuth, OnMail, OnRcpt, OnStartTls, OnData;
    var counted := s.(count := s.count + 1);
    var args := SplitCommand(TrimSpace(text)).1;
    AuthAnnounces(cfg, counted, args, a);
    EnvelopeAnnounces(cfg, counted, args, a);
  }

  /** The reply announces what the server will read next. */
  lemma ReplyAnnouncesMode(cfg: Config, s: Session, text: string, a: Answers)
    requires !s.mode.Closed?
    ensures var r := React(cfg, s, text, a);
      && (r.code == 354 <==> r.session.mode.Data?)
      && (r.code == 334 <==> InAuth(r.session.mode))
      && r.session.count == s.count + (if s.mode.Command? then 1 else 0)
      && (r.session.count > cfg.maxCommands && s.mode.Command? ==> r.code == 421 && r.session.mode.Closed?)
  {
    hide Split, TrimSpace, SplitBody, Unstuffed, OnLine;
    if s.mode.Command? {
      OnLineAnnounces(cfg, s, text, a);
    }
  }
}
