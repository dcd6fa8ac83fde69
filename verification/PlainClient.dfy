/** The lines a simple client sends, in any spelling of the keywords, and what a session
    answers to each. */
module PlainClient {
  import opened Queue
  import opened DataReader
  import opened Text
  import opened Session
  import opened SessionRules

  // ---- A client whose mail is accepted ----

  /** A user, the AUTH PLAIN response that presents it, a sender and a recipient. */
  datatype Client = Client(user: string, password: string, payload: string, sender: string, recipient: string)

  predicate IsWord(s: string) {
    s != "" && NoSpace(s)
  }

  ghost predicate KnownUser(cfg: Config, who: Client) {
    IsWord(who.payload) && PlainPair(cfg, who.payload, who.user, who.password) && (who.user, who.password) in cfg.users
  }

  /** Credentials that are valid, addresses that are allowed, and limits that leave room
      for one message of one character. */
  ghost predicate Served(cfg: Config, who: Client) {
    && KnownUser(cfg, who)
    && who.sender != "" && '>' !in who.sender && cfg.validAddress(who.sender) && cfg.senderPattern(who.sender)
    && who.recipient != "" && '>' !in who.recipient && cfg.validAddress(who.recipient)
    && cfg.maxCommands >= 5 && cfg.maxRecipients >= 1 && cfg.maxMessageBytes >= 1
  }

  const EOL := "\r\n"
  const DATA_LINE := "DATA" + EOL
  const QUIT_LINE := "QUIT" + EOL
  const SMALL_BODY := "\n.\n"

  function CommandLine(verb: string, args: string): string {
    verb + (if args == "" then "" else " " + args) + EOL
  }

  lemma LineSays(verb: string, args: string)
    requires args == "" || Trimmed(args)
    ensures Says(CommandLine(verb, args), verb, args)
  {
    var gap := if args == "" then "" else " ";
    assert CommandLine(verb, args) == "" + (verb + gap + args) + EOL;
    assert SaysWith(CommandLine(verb, args), verb, args, "", verb, gap, EOL);
  }

  // ---- What the session answers ----

  lemma EhloAccepted(cfg: Config, s: Session, text: string, args: string, a: Answers)
    requires MayCommand(cfg, s) && (Says(text, "EHLO", args) || Says(text, "HELO", args))
    ensures React(cfg, s, text, a)
         == Reaction(s.(count := s.count + 1, greeted := true, mailFrom := "", rcptTo := []), 250, Nothing)
  {
    hide React, Says;
    EhloReply(cfg, s, text, args, a);
  }

  lemma AuthAccepted(cfg: Config, s: Session, text: string, word: string, who: Client, a: Answers)
    requires MayCommand(cfg, s) && KnownUser(cfg, who) && Spells(word, "PLAIN")
    requires Says(text, "AUTH", word + (" " + who.payload + ""))
    requires (s.tls || !cfg.requireTls) && s.greeted && s.authFailures < 3 && !a.ipBlocked && !a.userBlocked
    ensures React(cfg, s, text, a)
         == Reaction(s.(count := s.count + 1, authFailures := 0, authed := true), 235, LoginOk(who.user))
  {
    hide React, Says, PlainPair, Spells;
    var args := word + (" " + who.payload + "");
    assert PlainArgumentAt(args, who.payload, word, " ", "");
    assert Orders(cfg, s, text, "AUTH", args);
    PresentedIsChecked(cfg, s, text, a, who.user, who.password);
  }

  lemma PathParsed(keyword: string, path: string, capitals: string, parameters: string)
    requires Spells(keyword, capitals) && '>' !in path
    requires parameters == "" || !IsSpace(parameters[|parameters| - 1])
    ensures var args := keyword + "<" + path + ">" + parameters;
      Begins(args, capitals) && ExtractAddress(args, |capitals|) == path
  {
    hide Spells, ExtractAddress;
    var args := keyword + "<" + path + ">" + parameters;
    assert args == keyword + "" + "<" + path + ">" + parameters;
    SameLength(keyword, capitals);
    assert args[..|keyword|] == keyword;
    BracketedAddressFound(keyword, "", path, parameters);
  }

  lemma SameLength(word: string, capitals: string)
    requires Spells(word, capitals)
    ensures |word| == |capitals|
  {}

  /** FROM: in any spelling, the sender in brackets and then any parameters. */
  lemma MailAccepted(
    cfg: Config, s: Session, text: string, keyword: string, sender: string, parameters: string, a: Answers)
    requires MayCommand(cfg, s) && s.greeted && s.authed && s.mailFrom == ""
    requires Says(text, "MAIL", keyword + "<" + sender + ">" + parameters) && Spells(keyword, "FROM:")
    requires parameters == "" || !IsSpace(parameters[|parameters| - 1])
    requires sender != "" && '>' !in sender && cfg.validAddress(sender) && cfg.senderPattern(sender)
    requires cfg.checkAliases ==> a.aliases.Some? && sender in a.aliases.value
    ensures React(cfg, s, text, a) == Reaction(s.(count := s.count + 1, mailFrom := sender), 250, Nothing)
  {
    hide React, Says, Spells, ExtractAddress, Begins;
    PathParsed(keyword, sender, "FROM:", parameters);
    MailReply(cfg, s, text, keyword + "<" + sender + ">" + parameters, a);
  }

  /** TO: in any spelling, the recipient in brackets and then any parameters. */
  lemma RcptAccepted(
    cfg: Config, s: Session, text: string, keyword: string, recipient: string, parameters: string, a: Answers)
    requires MayCommand(cfg, s) && s.mailFrom != "" && |s.rcptTo| < cfg.maxRecipients
    requires Says(text, "RCPT", keyword + "<" + recipient + ">" + parameters) && Spells(keyword, "TO:")
    requires parameters == "" || !IsSpace(parameters[|parameters| - 1])
    requires recipient != "" && '>' !in recipient && cfg.validAddress(recipient)
    ensures React(cfg, s, text, a)
         == Reaction(s.(count := s.count + 1, rcptTo := s.rcptTo + [recipient]), 250, Nothing)
  {
    hide React, Says, Spells, ExtractAddress, Begins;
    PathParsed(keyword, recipient, "TO:", parameters);
    RcptReply(cfg, s, text, keyword + "<" + recipient + ">" + parameters, a);
  }

  lemma DataAccepted(cfg: Config, s: Session, text: string, args: string, a: Answers)
    requires MaySendData(cfg, s) && Says(text, "DATA", args)
    requires a.backlog.Some? && a.backlog.value < cfg.maxBacklog
    ensures React(cfg, s, text, a) == Reaction(s.(count := s.count + 1, mode := Data), 354, Nothing)
  {
    hide React, Says;
    DataReply(cfg, s, text, args, a);
  }

  lemma QuitAccepted(cfg: Config, s: Session, text: string, args: string, a: Answers)
    requires MayCommand(cfg, s) && Says(text, "QUIT", args)
    ensures React(cfg, s, text, a) == Reaction(s.(count := s.count + 1, mode := Closed), 221, Nothing)
  {
    hide React, Says;
    QuitReply(cfg, s, text, args, a);
  }

  lemma PlainLines()
    ensures Says(DATA_LINE, "DATA", "") && Says(QUIT_LINE, "QUIT", "")
  {
    hide Says;
    LineSays("DATA", "");
    LineSays("QUIT", "");
    assert CommandLine("DATA", "") == DATA_LINE && CommandLine("QUIT", "") == QUIT_LINE;
  }

  lemma SmallBodyLines()
    ensures SplitBody(SMALL_BODY) == Body(["\n"], ".\n", "") && Unstuffed(["\n"]) == "\n"
  {
    hide IsTerminator, IsLine;
    LinesAreLines();
    assert ".\n" + "" == ".\n" && "\n" + ".\n" == SMALL_BODY;
    BodyOfLine(".\n", "");
    BodyOfLine("\n", ".\n");
    assert ["\n"] + [] == ["\n"] && ["\n"][1..] == [];
  }

  lemma LinesAreLines()
    ensures IsLine("\n") && IsLine(".\n") && !IsTerminator("\n") && IsTerminator(".\n")
  {
    TerminatorShape("\n");
    TerminatorShape(".\n");
    assert "\n"[..0] == [] && ".\n"[..1] == ".";
  }

  lemma BodyAccepted(cfg: Config, s: Session)
    requires s.mode.Data? && cfg.maxMessageBytes >= 1
    ensures React(cfg, s, SMALL_BODY, NOT_ASKED)
         == Reaction(s.(mailFrom := "", rcptTo := [], mode := Command), 250,
                     Queued(Content(s.mailFrom, s.rcptTo, "\n")))
  {
    hide SplitBody, Unstuffed, React;
    SmallBodyLines();
    BodyReply(cfg, s, SMALL_BODY, NOT_ASKED);
  }
}
