/** The protocol as its client sees it, stated on the bytes of a piece: which reply each
    command gets and why, what it changes, and what nothing else changes. */
module SessionRules {
  import opened Queue
  import opened DataReader
  import opened Text
  import opened Session

  /** The session takes a command, and the text is this one. */
  ghost predicate Orders(cfg: Config, s: Session, text: string, capitals: string, args: string) {
    MayCommand(cfg, s) && Says(text, capitals, args)
  }

  ghost predicate Ordered(cfg: Config, s: Session, text: string, capitals: string) {
    exists args :: Orders(cfg, s, text, capitals, args)
  }

  function Counted(s: Session): Session {
    s.(count := s.count + 1)
  }

  function NoEnvelope(s: Session): Session {
    s.(mailFrom := "", rcptTo := [])
  }

  lemma VerbsAreVerbs()
    ensures IsVerb("EHLO") && IsVerb("HELO") && IsVerb("STARTTLS") && IsVerb("AUTH") && IsVerb("MAIL")
    ensures IsVerb("RCPT") && IsVerb("DATA") && IsVerb("RSET") && IsVerb("NOOP") && IsVerb("QUIT")
  {}

  lemma Dispatched(cfg: Config, s: Session, text: string, capitals: string, args: string, a: Answers)
    requires Orders(cfg, s, text, capitals, args) && IsVerb(capitals)
    ensures SplitCommand(TrimSpace(text)) == (capitals, args)
    ensures React(cfg, s, text, a) == OnCommand(cfg, Counted(s), TrimSpace(text), a)
  {
    hide TrimSpace, SplitCommand, OnCommand, Says;
    CommandSplit(text, capitals, args);
  }

  lemma OrderedIs(cfg: Config, s: Session, text: string, capitals: string)
    requires MayCommand(cfg, s) && IsVerb(capitals)
    ensures Ordered(cfg, s, text, capitals)
       <==> TrimSpace(text) != "" && SplitCommand(TrimSpace(text)).0 == capitals
  {
    hide TrimSpace, SplitCommand, Says;
    var args := SplitCommand(TrimSpace(text)).1;
    CommandSplit(text, capitals, args);
    assert SplitCommand(TrimSpace(text)) == (SplitCommand(TrimSpace(text)).0, args);
    assert Says(text, capitals, args) ==> Orders(cfg, s, text, capitals, args);
    if Ordered(cfg, s, text, capitals) {
      var x :| Orders(cfg, s, text, capitals, x);
      CommandSplit(text, capitals, x);
    }
  }

  // ---- Commands with one outcome ----

  /** EHLO and HELO greet and drop the envelope. */
  lemma EhloReply(cfg: Config, s: Session, text: string, args: string, a: Answers)
    requires Orders(cfg, s, text, "EHLO", args) || Orders(cfg, s, text, "HELO", args)
    ensures React(cfg, s, text, a) == Reaction(NoEnvelope(Counted(s)).(greeted := true), 250, Nothing)
  {
    hide TrimSpace, SplitCommand, Says;
    VerbsAreVerbs();
    if Says(text, "EHLO", args) {
      Dispatched(cfg, s, text, "EHLO", args, a);
    } else {
      Dispatched(cfg, s, text, "HELO", args, a);
    }
  }

  /** RSET drops the envelope and nothing else. */
  lemma RsetReply(cfg: Config, s: Session, text: string, args: string, a: Answers)
    requires Orders(cfg, s, text, "RSET", args)
    ensures React(cfg, s, text, a) == Reaction(NoEnvelope(Counted(s)), 250, Nothing)
  {
    hide TrimSpace, SplitCommand, Says;
    VerbsAreVerbs();
    Dispatched(cfg, s, text, "RSET", args, a);
  }

  lemma NoopReply(cfg: Config, s: Session, text: string, args: string, a: Answers)
    requires Orders(cfg, s, text, "NOOP", args)
    ensures React(cfg, s, text, a) == Reaction(Counted(s), 250, Nothing)
  {
    hide TrimSpace, SplitCommand, Says;
    VerbsAreVerbs();
    Dispatched(cfg, s, text, "NOOP", args, a);
  }

  lemma QuitReply(cfg: Config, s: Session, text: string, args: string, a: Answers)
    requires Orders(cfg, s, text, "QUIT", args)
    ensures React(cfg, s, text, a) == Reaction(Counted(s).(mode := Closed), 221, Nothing)
  {
    hide TrimSpace, SplitCommand, Says;
    VerbsAreVerbs();
    Dispatched(cfg, s, text, "QUIT", args, a);
  }

  /** STARTTLS after a handshake forgets greeting, login and envelope. */
  lemma StartTlsReply(cfg: Config, s: Session, text: string, args: string, a: Answers)
    requires Orders(cfg, s, text, "STARTTLS", args)
    ensures var r := React(cfg, s, text, a);
      && r.effect.Nothing?
      && r.code == (if s.tls then 454 else 220)
      && (s.tls ==> r.session == Counted(s))
      && (!s.tls && !a.handshakeOk ==> r.session == Counted(s).(mode := Closed))
      && (!s.tls && a.handshakeOk ==>
            && r.session.tls && !r.session.greeted && !r.session.authed
            && r.session.mailFrom == "" && r.session.rcptTo == [] && r.session.mode.Command?
            && r.session.authFailures == s.authFailures && r.session.count == s.count + 1)
  {
    hide TrimSpace, SplitCommand, Says;
    VerbsAreVerbs();
    Dispatched(cfg, s, text, "STARTTLS", args, a);
  }

  ghost predicate KnownVerb(cfg: Config, s: Session, text: string) {
    exists capitals :: Ordered(cfg, s, text, capitals) && capitals in KNOWN
  }

  const KNOWN := ["EHLO", "HELO", "STARTTLS", "AUTH", "MAIL", "RCPT", "DATA", "RSET", "NOOP", "QUIT"]

  lemma KnownIs(cfg: Config, s: Session, text: string)
    requires MayCommand(cfg, s) && TrimSpace(text) != ""
    ensures KnownVerb(cfg, s, text) <==> SplitCommand(TrimSpace(text)).0 in KNOWN
  {
    hide TrimSpace, SplitCommand, Ordered;
    VerbsAreVerbs();
    forall capitals | capitals in KNOWN
      ensures Ordered(cfg, s, text, capitals) <==> SplitCommand(TrimSpace(text)).0 == capitals
    {
      OrderedIs(cfg, s, text, capitals);
    }
  }

  /** Anything else is answered 502, an empty line 500, and changes nothing. */
  lemma UnknownReply(cfg: Config, s: Session, text: string, a: Answers)
    requires MayCommand(cfg, s) && !KnownVerb(cfg, s, text)
    ensures React(cfg, s, text, a) == Reaction(Counted(s), if AllSpace(text) then 500 else 502, Nothing)
  {
    hide SplitCommand, KnownVerb, TrimSpace;
    BlankIs(text);
    if TrimSpace(text) != "" {
      KnownIs(cfg, s, text);
      OtherVerb(SplitCommand(TrimSpace(text)).0);
    }
  }

  lemma OtherVerb(word: string)
    ensures VerbOf(word).Other? <==> word !in KNOWN
  {}

  lemma BlankIs(text: string)
    ensures AllSpace(text) <==> TrimSpace(text) == ""
  {
    hide TrimSpace;
    var lead, tail := TrimSpaceShape(text);
    if AllSpace(text) {
      OnlySpaces(text);
    }
    assert TrimSpace(text) == "" ==> text == lead + tail;
  }

  // ---- MAIL ----

  /** The arguments begin with this keyword, in any spelling. */
  predicate Begins(args: string, keyword: string) {
    |keyword| <= |args| && Spells(args[..|keyword|], keyword)
  }

  lemma BeginsIs(args: string, keyword: string)
    requires forall c :: c in keyword ==> !Small(c)
    ensures Begins(args, keyword) <==> keyword <= ToUpper(args)
  {
    if |keyword| <= |args| {
      SpelledUpper(args[..|keyword|], keyword);
      assert ToUpper(args)[..|keyword|] == ToUpper(args[..|keyword|]);
    }
  }

  predicate Acceptable(cfg: Config, address: string) {
    address != "" && cfg.validAddress(address)
  }

  /** Each reply to MAIL and when it is given; only 250 changes anything but the count. */
  lemma MailReply(cfg: Config, s: Session, text: string, args: string, a: Answers)
    requires Orders(cfg, s, text, "MAIL", args)
    ensures var r := React(cfg, s, text, a);
      var address := if Begins(args, "FROM:") then ExtractAddress(args, 5) else "";
      var refused := cfg.checkAliases && a.aliases.Some? && address !in a.aliases.value;
      var unknown := cfg.checkAliases && a.aliases.None?;
      var open := s.greeted && s.authed && s.mailFrom == "";
      var named := open && Begins(args, "FROM:") && Acceptable(cfg, address);
      && (r.code == 503 <==> !s.greeted || (s.authed && s.mailFrom != ""))
      && (r.code == 530 <==> s.greeted && !s.authed)
      && (r.code == 501 <==> open && !Begins(args, "FROM:"))
      && (r.code == 553 <==> open && Begins(args, "FROM:") && !Acceptable(cfg, address))
      && (r.code == 550 <==> named && (!cfg.senderPattern(address) || refused))
      && (r.code == 454 <==> named && cfg.senderPattern(address) && unknown)
      && (r.code == 250 <==> named && cfg.senderPattern(address) && !refused && !unknown)
      && r.code in {503, 530, 501, 553, 550, 454, 250} && r.effect.Nothing?
      && r.session == (if r.code == 250 then Counted(s).(mailFrom := address) else Counted(s))
  {
    hide TrimSpace, SplitCommand, Says, ExtractAddress, Begins, ToUpper;
    VerbsAreVerbs();
    Dispatched(cfg, s, text, "MAIL", args, a);
    BeginsIs(args, "FROM:");
  }

  // ---- RCPT ----

  /** Each reply to RCPT and when it is given; 250 adds one recipient at the end. */
  lemma RcptReply(cfg: Config, s: Session, text: string, args: string, a: Answers)
    requires Orders(cfg, s, text, "RCPT", args)
    ensures var r := React(cfg, s, text, a);
      var address := if Begins(args, "TO:") then ExtractAddress(args, 3) else "";
      var room := s.mailFrom != "" && Begins(args, "TO:") && |s.rcptTo| < cfg.maxRecipients;
      && (r.code == 503 <==> s.mailFrom == "")
      && (r.code == 501 <==> s.mailFrom != "" && !Begins(args, "TO:"))
      && (r.code == 452 <==> s.mailFrom != "" && Begins(args, "TO:") && |s.rcptTo| >= cfg.maxRecipients)
      && (r.code == 553 <==> room && !Acceptable(cfg, address))
      && (r.code == 250 <==> room && Acceptable(cfg, address))
      && r.code in {503, 501, 452, 553, 250} && r.effect.Nothing?
      && r.session == (if r.code == 250 then Counted(s).(rcptTo := s.rcptTo + [address]) else Counted(s))
  {
    hide TrimSpace, SplitCommand, Says, ExtractAddress, Begins, ToUpper;
    VerbsAreVerbs();
    Dispatched(cfg, s, text, "RCPT", args, a);
    BeginsIs(args, "TO:");
  }

  // ---- DATA and bodies ----

  /** Each reply to DATA and when it is given; only 354 changes the mode. */
  lemma DataReply(cfg: Config, s: Session, text: string, args: string, a: Answers)
    requires Orders(cfg, s, text, "DATA", args)
    ensures var r := React(cfg, s, text, a);
      && (r.code == 503 <==> s.mailFrom == "" || s.rcptTo == [])
      && (r.code == 451 <==> HasEnvelope(s) && a.backlog.None?)
      && (r.code == 421 <==> HasEnvelope(s) && a.backlog.Some? && a.backlog.value >= cfg.maxBacklog)
      && (r.code == 354 <==> HasEnvelope(s) && a.backlog.Some? && a.backlog.value < cfg.maxBacklog)
      && r.code in {503, 451, 421, 354} && r.effect.Nothing?
      && r.session == (if r.code == 354 then Counted(s).(mode := Data) else Counted(s))
  {
    hide TrimSpace, SplitCommand, Says;
    VerbsAreVerbs();
    Dispatched(cfg, s, text, "DATA", args, a);
  }

  /** Each reply to a body and when it is given: the envelope goes with 250 and with 552 and
      stays with 451, and only 250 hands anything over. */
  lemma BodyReply(cfg: Config, s: Session, text: string, a: Answers)
    requires s.mode.Data?
    ensures var r := React(cfg, s, text, a);
      var body := SplitBody(text);
      var payload := if body.Body? then Unstuffed(body.lines) else "";
      && (r.code == 552 <==> body.Body? && |payload| > cfg.maxMessageBytes)
      && (r.code == 250 <==> body.Body? && 1 <= |payload| <= cfg.maxMessageBytes && !a.insertError)
      && (r.code == 451 <==> r.code != 552 && r.code != 250)
      && r.session == (if r.code == 451 then s else NoEnvelope(s)).(mode := Command)
      && r.effect == (if r.code == 250 then Queued(Content(s.mailFrom, s.rcptTo, payload)) else Nothing)
  {
    hide SplitBody, Unstuffed;
  }

  // ---- AUTH ----

  ghost predicate PlainArgumentAt(args: string, payload: string, word: string, gap: string, more: string) {
    && args == word + (gap + payload + more) && Spells(word, "PLAIN") && AllSpace(gap) && gap != ""
    && payload != "" && NoSpace(payload) && (more == "" || IsSpace(more[0]))
  }

  /** The arguments are PLAIN, in any spelling, and then this word. */
  ghost predicate PlainArgument(args: string, payload: string) {
    exists word, gap, more :: PlainArgumentAt(args, payload, word, gap, more)
  }

  ghost predicate LoginAskedAt(args: string, word: string, more: string) {
    args == word + more && Spells(word, "LOGIN") && (more == "" || IsSpace(more[0]))
  }

  /** The first word of the arguments is LOGIN, in any spelling. */
  ghost predicate LoginAsked(args: string) {
    exists word, more :: LoginAskedAt(args, word, more)
  }

  /** The arguments as a first word and, if there are more, a second one. */
  lemma TwoWords(args: string) returns (word: string, gap: string, second: string, more: string)
    requires Trimmed(args)
    ensures args == word + (gap + second + more) && word != "" && NoSpace(word) && AllSpace(gap) && NoSpace(second)
    ensures second == "" ==> gap == "" && more == ""
    ensures second != "" ==> gap != "" && (more == "" || IsSpace(more[0]))
    ensures Fields(args) == (if second == "" then [word] else [word] + ([second] + Fields(more)))
  {
    hide Fields;
    var spaces, rest;
    spaces, word, rest := WordOrSpaces(args);
    SpaceInFront(spaces, word + rest);
    assert args == spaces + (word + rest);
    assert spaces == "" && args == word + rest;
    assert "" + word + rest == args;
    FieldFound("", word, rest);
    gap, second, more := WordOrSpaces(rest);
    if second == "" {
      assert rest == gap + "" + "" == gap && args == word + gap;
      SpaceBehind(word, gap);
      assert gap == "" && rest == "";
      NoFields("");
      assert [word] + [] == [word];
    } else {
      FieldFound(gap, second, more);
      assert rest == gap + (second + more) && (second + more)[0] == second[0] && second[0] in second;
      assert gap == "" ==> rest == second + more;
    }
  }

  lemma SameFirstWord(word: string, rest: string, word': string, rest': string)
    requires word + rest == word' + rest' && NoSpace(word) && NoSpace(word')
    requires (rest == "" || IsSpace(rest[0])) && (rest' == "" || IsSpace(rest'[0]))
    ensures word == word' && rest == rest'
  {
    forall k | 0 <= k < |word| ensures !IsSpace(word[k]) {
      assert word[k] in word;
    }
    forall k | 0 <= k < |word'| ensures !IsSpace(word'[k]) {
      assert word'[k] in word';
    }
    SpaceAfter(word, rest);
    SpaceAfter(word', rest');
    assert (word + rest)[..|word|] == word && (word' + rest')[..|word|] == word';
    assert (word + rest)[|word|..] == rest && (word' + rest')[|word|..] == rest';
  }

  lemma MechanismsAreVerbs()
    ensures IsVerb("PLAIN") && IsVerb("LOGIN")
  {}

  lemma LoginAskedIs(args: string)
    requires Trimmed(args)
    ensures Fields(args) != []
    ensures LoginAsked(args) <==> ToUpper(Fields(args)[0]) == "LOGIN"
    ensures Spells(args, "PLAIN") <==> |Fields(args)| == 1 && ToUpper(Fields(args)[0]) == "PLAIN"
  {
    hide Fields, ToUpper, Spells;
    MechanismsAreVerbs();
    var word, gap, second, more := TwoWords(args);
    var rest := gap + second + more;
    SpelledUpper(word, "LOGIN");
    SpelledUpper(word, "PLAIN");
    if Spells(word, "LOGIN") {
      assert LoginAskedAt(args, word, rest);
    }
    if LoginAsked(args) {
      var w, m :| LoginAskedAt(args, w, m);
      SpelledWord(w, "LOGIN");
      SameFirstWord(word, rest, w, m);
    }
    if second == "" {
      assert args == word;
    }
    if Spells(args, "PLAIN") {
      SpelledWord(args, "PLAIN");
      assert args + "" == args;
      SameFirstWord(word, rest, args, "");
    }
  }

  lemma PlainArgumentIs(args: string, payload: string)
    requires Trimmed(args)
    ensures PlainArgument(args, payload)
       <==> |Fields(args)| > 1 && ToUpper(Fields(args)[0]) == "PLAIN" && Fields(args)[1] == payload
  {
    hide Fields, ToUpper, Spells;
    MechanismsAreVerbs();
    var word, gap, second, more := TwoWords(args);
    SpelledUpper(word, "PLAIN");
    if second == payload && second != "" && Spells(word, "PLAIN") {
      assert PlainArgumentAt(args, payload, word, gap, more);
    }
    if PlainArgument(args, payload) {
      var w, g, m :| PlainArgumentAt(args, payload, w, g, m);
      SpelledWord(w, "PLAIN");
      assert g[0] in g && (g + payload + m)[0] == g[0];
      SameFirstWord(word, gap + second + more, w, g + payload + m);
      FieldFound(g, payload, m);
      assert Fields(args) == [word] + ([payload] + Fields(m)) by {
        assert "" + word + (g + payload + m) == args;
        FieldFound("", word, g + payload + m);
      }
    }
  }

  /** What has to hold before credentials are looked at. */
  predicate Gates(cfg: Config, s: Session, a: Answers) {
    (s.tls || !cfg.requireTls) && s.greeted && s.authFailures < 3 && !a.ipBlocked
  }

  /** Each reply to AUTH without an initial response and when it is given; only the two
      questions change anything but the count. */
  lemma AuthReply(cfg: Config, s: Session, text: string, args: string, a: Answers)
    requires Orders(cfg, s, text, "AUTH", args) && !(exists payload :: PlainArgument(args, payload))
    ensures var r := React(cfg, s, text, a);
      var tls, gates := s.tls || !cfg.requireTls, Gates(cfg, s, a);
      && (r.code == 530 <==> !tls)
      && (r.code == 503 <==> tls && !s.greeted)
      && (r.code == 454 <==> tls && s.greeted && !gates)
      && (r.code == 501 <==> gates && args == "")
      && (r.code == 504 <==> gates && args != "" && !LoginAsked(args) && !Spells(args, "PLAIN"))
      && (r.code == 334 <==> gates && args != "" && (LoginAsked(args) || Spells(args, "PLAIN")))
      && r.code in {530, 503, 454, 501, 504, 334} && r.effect.Nothing?
      && r.session == (if r.code != 334 then Counted(s)
                       else Counted(s).(mode := if LoginAsked(args) then LoginUser else PlainResponse))
  {
    hide TrimSpace, SplitCommand, Fields, ToUpper, Spells, LoginAsked, PlainArgument;
    VerbsAreVerbs();
    Dispatched(cfg, s, text, "AUTH", args, a);
    if args == "" {
      NoFields("");
    } else {
      ArgsTrimmed(text, "AUTH", args);
      LoginAskedIs(args);
      if |Fields(args)| > 1 {
        PlainArgumentIs(args, Fields(args)[1]);
      }
    }
  }

  /** Where the gates are closed an initial response makes no difference. */
  lemma ClosedGatesReply(cfg: Config, s: Session, text: string, args: string, a: Answers)
    requires Orders(cfg, s, text, "AUTH", args) && !Gates(cfg, s, a)
    ensures React(cfg, s, text, a) == Reaction(Counted(s),
      if !s.tls && cfg.requireTls then 530 else if !s.greeted then 503 else 454, Nothing)
  {
    hide TrimSpace, SplitCommand, Fields, ToUpper, Says;
    VerbsAreVerbs();
    Dispatched(cfg, s, text, "AUTH", args, a);
  }

  lemma ArgsTrimmed(text: string, capitals: string, args: string)
    requires Says(text, capitals, args)
    ensures args == "" || Trimmed(args)
  {}

  // ---- Credentials ----

  ghost predicate PairIn(decoded: string, authzid: string, user: string, password: string, more: string) {
    && decoded == authzid + ['\0'] + (user + ['\0'] + (password + more))
    && '\0' !in authzid && '\0' !in user && '\0' !in password && (more == "" || more[0] == '\0')
  }

  /** The response decodes to an identity, a user and a password, with NULs in between. */
  ghost predicate PlainPair(cfg: Config, payload: string, user: string, password: string) {
    cfg.decode(payload).Some? &&
    exists authzid, more :: PairIn(cfg.decode(payload).value, authzid, user, password, more)
  }

  /** The piece gives the server this user and this password to check. */
  ghost predicate Presents(cfg: Config, s: Session, text: string, a: Answers, user: string, password: string) {
    match s.mode
    case Command =>
      Gates(cfg, s, a) && exists args, payload ::
        Orders(cfg, s, text, "AUTH", args) && PlainArgument(args, payload) && PlainPair(cfg, payload, user, password)
    case PlainResponse => PlainPair(cfg, TrimSpace(text), user, password)
    case LoginPassword(name) => name == user && cfg.decode(TrimSpace(text)) == Some(password)
    case _ => false
  }

  lemma FirstSegment(s: string) returns (part: string, more: string)
    ensures s == part + more && '\0' !in part && (more == "" || more[0] == '\0')
    ensures Split(s, '\0') == [part] + (if more == "" then [] else Split(more[1..], '\0'))
  {
    var i := IndexOf(s, '\0');
    part, more := s[..i], s[i..];
    if i < |s| {
      assert s[i..][1..] == s[i + 1..];
    } else {
      assert s[..i] == s;
    }
  }

  lemma PairIsSplit(decoded: string, authzid: string, user: string, password: string, more: string)
    requires PairIn(decoded, authzid, user, password, more)
    ensures |Split(decoded, '\0')| >= 3 && Split(decoded, '\0')[1] == user && Split(decoded, '\0')[2] == password
  {
    hide Split;
    SplitFound(authzid, '\0', user + ['\0'] + (password + more));
    SplitFound(user, '\0', password + more);
    LastSegment(password, more);
  }

  lemma SplitIsPair(decoded: string) returns (authzid: string, more: string)
    requires |Split(decoded, '\0')| >= 3
    ensures PairIn(decoded, authzid, Split(decoded, '\0')[1], Split(decoded, '\0')[2], more)
  {
    hide Split, IndexOf;
    var first, second, user, password;
    authzid, first := FirstSegment(decoded);
    user, second := FirstSegment(first[1..]);
    password, more := FirstSegment(second[1..]);
    assert first == ['\0'] + first[1..] && second == ['\0'] + second[1..];
    assert decoded == authzid + ['\0'] + (user + ['\0'] + (password + more));
  }

  lemma PairIs(decoded: string, user: string, password: string)
    ensures (exists authzid, more :: PairIn(decoded, authzid, user, password, more))
       <==> |Split(decoded, '\0')| >= 3 && Split(decoded, '\0')[1] == user && Split(decoded, '\0')[2] == password
  {
    hide Split, PairIn;
    if authzid, more :| PairIn(decoded, authzid, user, password, more) {
      PairIsSplit(decoded, authzid, user, password, more);
    }
    if |Split(decoded, '\0')| >= 3 {
      var authzid, more := SplitIsPair(decoded);
    }
  }

  lemma LastSegment(part: string, more: string)
    requires '\0' !in part && (more == "" || more[0] == '\0')
    ensures |Split(part + more, '\0')| >= 1 && Split(part + more, '\0')[0] == part
  {
    if more == "" {
      assert part + more == part;
      SplitFound(part, '\0', "");
    } else {
      assert part + more == part + ['\0'] + more[1..];
      SplitFound(part, '\0', more[1..]);
    }
  }

  /** What a check of credentials comes to; `t` is the session that checks them. */
  ghost predicate Outcome(cfg: Config, t: Session, r: Reaction, a: Answers, user: string, password: string) {
    if a.userBlocked then r == Reaction(t, 454, Nothing)
    else if (user, password) in cfg.users then
      r == Reaction(t.(authed := true, authFailures := 0), 235, LoginOk(user))
    else r == Reaction(t.(authFailures := t.authFailures + 1), 535, LoginFailed(user))
  }

  function Checking(s: Session): Session {
    if s.mode.Command? then Counted(s) else s.(mode := Command)
  }

  lemma PlainChecked(cfg: Config, s: Session, payload: string, a: Answers, user: string, password: string)
    requires PlainPair(cfg, payload, user, password)
    ensures Outcome(cfg, s.(mode := Command), OnPlain(cfg, s, payload, a), a, user, password)
  {
    hide Split, PairIn;
    PairIs(cfg.decode(payload).value, user, password);
  }

  /** Right credentials log in and wrong ones are counted, whichever way they come. */
  lemma PresentedIsChecked(cfg: Config, s: Session, text: string, a: Answers, user: string, password: string)
    requires Presents(cfg, s, text, a, user, password)
    ensures Outcome(cfg, Checking(s), React(cfg, s, text, a), a, user, password)
  {
    hide TrimSpace, SplitCommand, Fields, ToUpper, Split, PairIn, PlainPair, PlainArgument, OnPlain;
    if s.mode.Command? {
      VerbsAreVerbs();
      var args, payload :|
        Orders(cfg, s, text, "AUTH", args) && PlainArgument(args, payload) && PlainPair(cfg, payload, user, password);
      Dispatched(cfg, s, text, "AUTH", args, a);
      ArgsTrimmed(text, "AUTH", args);
      NotEmpty(args, payload);
      PlainArgumentIs(args, payload);
      PlainChecked(cfg, Counted(s), payload, a, user, password);
    } else if s.mode.PlainResponse? {
      PlainChecked(cfg, s, TrimSpace(text), a, user, password);
    }
  }

  lemma NotEmpty(args: string, payload: string)
    requires PlainArgument(args, payload)
    ensures args != ""
  {}

  lemma PlainUnchecked(cfg: Config, s: Session, payload: string, a: Answers)
    requires forall user, password :: !PlainPair(cfg, payload, user, password)
    ensures OnPlain(cfg, s, payload, a) == Reaction(s.(mode := Command), 535, Nothing)
  {
    hide Split, PairIn;
    if cfg.decode(payload).Some? {
      var segments := Split(cfg.decode(payload).value, '\0');
      if |segments| >= 3 {
        assert !PlainPair(cfg, payload, segments[1], segments[2]);
        PairIs(cfg.decode(payload).value, segments[1], segments[2]);
      }
    }
  }

  /** The user line of AUTH LOGIN asks for the password, unless it cannot be decoded. */
  lemma UserLineReply(cfg: Config, s: Session, text: string, a: Answers)
    requires s.mode.LoginUser?
    ensures React(cfg, s, text, a) ==
      match cfg.decode(TrimSpace(text))
      case None => Reaction(s.(mode := Command), 535, Nothing)
      case Some(user) => Reaction(s.(mode := LoginPassword(user)), 334, Nothing)
  {
    hide TrimSpace;
  }

  /** AUTH PLAIN with a response, or one of the lines after a question. */
  ghost predicate Responds(cfg: Config, s: Session, text: string, a: Answers) {
    match s.mode
    case Command =>
      Gates(cfg, s, a) && exists args, payload :: Orders(cfg, s, text, "AUTH", args) && PlainArgument(args, payload)
    case PlainResponse => true
    case LoginPassword(_) => true
    case _ => false
  }

  /** A response without credentials in it is answered 535, and nobody is told. */
  lemma NoPairReply(cfg: Config, s: Session, text: string, a: Answers)
    requires Responds(cfg, s, text, a) && forall user, password :: !Presents(cfg, s, text, a, user, password)
    ensures React(cfg, s, text, a) == Reaction(Checking(s), 535, Nothing)
  {
    hide TrimSpace, SplitCommand, Fields, ToUpper, PlainPair, PlainArgument, OnPlain;
    match s.mode
    case Command =>
      VerbsAreVerbs();
      var args, payload :| Orders(cfg, s, text, "AUTH", args) && PlainArgument(args, payload);
      Dispatched(cfg, s, text, "AUTH", args, a);
      ArgsTrimmed(text, "AUTH", args);
      NotEmpty(args, payload);
      PlainArgumentIs(args, payload);
      forall user, password ensures !PlainPair(cfg, payload, user, password) {
        assert !Presents(cfg, s, text, a, user, password);
      }
      PlainUnchecked(cfg, Counted(s), payload, a);
    case PlainResponse =>
      forall user, password ensures !PlainPair(cfg, TrimSpace(text), user, password) {
        assert !Presents(cfg, s, text, a, user, password);
      }
      PlainUnchecked(cfg, s, TrimSpace(text), a);
    case LoginPassword(name) =>
      var decoded := cfg.decode(TrimSpace(text));
      assert decoded.Some? ==> Presents(cfg, s, text, a, name, decoded.value);
    case _ =>
  }

  /** No credentials, no login: nothing else logs in, counts a failure or is answered 235. */
  ghost predicate NoCheck(s: Session, r: Reaction) {
    && !r.effect.LoginOk? && !r.effect.LoginFailed? && r.session.authFailures == s.authFailures
    && r.code != 235 && (r.session.authed ==> s.authed)
  }

  lemma OthersDoNotCheck(cfg: Config, s: Session, args: string, a: Answers)
    requires s.mode.Command?
    ensures NoCheck(s, OnStartTls(s, a)) && NoCheck(s, OnMail(cfg, s, args, a))
    ensures NoCheck(s, OnRcpt(cfg, s, args)) && NoCheck(s, OnData(cfg, s, a))
  {
    hide ToUpper, ExtractAddress;
  }

  lemma NothingPresented(cfg: Config, s: Session, text: string, a: Answers)
    requires !s.mode.Closed? && forall user, password :: !Presents(cfg, s, text, a, user, password)
    ensures NoCheck(s, React(cfg, s, text, a))
  {
    hide TrimSpace, SplitCommand, VerbOf, Fields, ToUpper, Split, PlainPair, OnPlain, SplitBody, Unstuffed, Presents;
    hide OnMail, OnRcpt, OnStartTls, OnData, OnAuth;
    match s.mode
    case Command =>
      if MayCommand(cfg, s) {
        OthersDoNotCheck(cfg, Counted(s), SplitCommand(TrimSpace(text)).1, a);
        if TrimSpace(text) != "" && VerbOf(SplitCommand(TrimSpace(text)).0).Auth? {
          AuthPresentsNothing(cfg, s, text, a);
        }
      }
    case PlainResponse => PlainLinePresentsNothing(cfg, s, text, a);
    case LoginPassword(name) => PasswordPresentsNothing(cfg, s, text, a);
    case _ =>
  }

  lemma PlainLinePresentsNothing(cfg: Config, s: Session, text: string, a: Answers)
    requires s.mode.PlainResponse? && forall user, password :: !Presents(cfg, s, text, a, user, password)
    ensures NoCheck(s, React(cfg, s, text, a))
  {
    hide TrimSpace, PlainPair, OnPlain;
    forall user, password ensures !PlainPair(cfg, TrimSpace(text), user, password) {
      assert !Presents(cfg, s, text, a, user, password);
    }
    PlainUnchecked(cfg, s, TrimSpace(text), a);
  }

  lemma PasswordPresentsNothing(cfg: Config, s: Session, text: string, a: Answers)
    requires s.mode.LoginPassword? && forall user, password :: !Presents(cfg, s, text, a, user, password)
    ensures NoCheck(s, React(cfg, s, text, a))
  {
    hide TrimSpace;
    var decoded := cfg.decode(TrimSpace(text));
    assert decoded.Some? ==> Presents(cfg, s, text, a, s.mode.user, decoded.value);
  }

  lemma AuthPresentsNothing(cfg: Config, s: Session, text: string, a: Answers)
    requires MayCommand(cfg, s) && forall user, password :: !Presents(cfg, s, text, a, user, password)
    requires TrimSpace(text) != "" && VerbOf(SplitCommand(TrimSpace(text)).0).Auth?
    ensures NoCheck(s, OnAuth(cfg, Counted(s), SplitCommand(TrimSpace(text)).1, a))
  {
    hide TrimSpace, SplitCommand, Fields, ToUpper, PlainPair, OnPlain;
    var args := SplitCommand(TrimSpace(text)).1;
    VerbsAreVerbs();
    assert SplitCommand(TrimSpace(text)) == ("AUTH", args);
    CommandSplit(text, "AUTH", args);
    ArgsTrimmed(text, "AUTH", args);
    if args == "" {
      NoFields("");
    } else if Gates(cfg, s, a) && |Fields(args)| > 1 && ToUpper(Fields(args)[0]) == "PLAIN" {
      var payload := Fields(args)[1];
      PlainArgumentIs(args, payload);
      forall user, password ensures !PlainPair(cfg, payload, user, password) {
        assert Orders(cfg, s, text, "AUTH", args);
        assert !Presents(cfg, s, text, a, user, password);
      }
      PlainUnchecked(cfg, Counted(s), payload, a);
    }
  }

  // ---- What nothing else changes ----

  /** STARTTLS on plaintext, followed by a handshake. */
  ghost predicate TurnsTls(cfg: Config, s: Session, text: string, a: Answers) {
    Ordered(cfg, s, text, "STARTTLS") && !s.tls && a.handshakeOk
  }

  ghost predicate Greets(cfg: Config, s: Session, text: string) {
    Ordered(cfg, s, text, "EHLO") || Ordered(cfg, s, text, "HELO")
  }

  /** Credentials in `cfg.users`, with nobody blocked. */
  ghost predicate LogsIn(cfg: Config, s: Session, text: string, a: Answers) {
    !a.userBlocked &&
    exists user, password :: Presents(cfg, s, text, a, user, password) && (user, password) in cfg.users
  }

  lemma CommandsKeep(cfg: Config, s: Session, args: string, a: Answers)
    requires s.mode.Command?
    ensures var r := OnAuth(cfg, s, args, a).session; r.tls == s.tls && r.greeted == s.greeted
    ensures var r := OnMail(cfg, s, args, a).session; r.tls == s.tls && r.greeted == s.greeted && r.authed == s.authed
    ensures var r := OnRcpt(cfg, s, args).session; r.tls == s.tls && r.greeted == s.greeted && r.authed == s.authed
    ensures var r := OnData(cfg, s, a).session; r.tls == s.tls && r.greeted == s.greeted && r.authed == s.authed
    ensures var r := OnAuth(cfg, s, args, a).session; s.authed ==> r.authed
    ensures OnStartTls(s, a).session.tls <==> s.tls || a.handshakeOk
    ensures var r := OnStartTls(s, a).session;
      (!s.tls && a.handshakeOk) || (r.greeted == s.greeted && r.authed == s.authed)
  {
    hide ToUpper, ExtractAddress, Fields, Split;
  }

  /** TLS comes with a handshake and stays; a greeting comes with EHLO or HELO, and goes
      only with the handshake, as does a login. */
  lemma StateRules(cfg: Config, s: Session, text: string, a: Answers)
    requires !s.mode.Closed?
    ensures var r := React(cfg, s, text, a).session;
      && (r.tls <==> s.tls || TurnsTls(cfg, s, text, a))
      && (r.greeted <==> Greets(cfg, s, text) || (s.greeted && !TurnsTls(cfg, s, text, a)))
      && (s.authed && !TurnsTls(cfg, s, text, a) ==> r.authed)
      && (TurnsTls(cfg, s, text, a) ==> !r.greeted && !r.authed && r.mailFrom == "" && r.rcptTo == [])
  {
    hide TrimSpace, SplitCommand, OnAuth, OnMail, OnRcpt, OnStartTls, OnData, Ordered, Split, SplitBody, Unstuffed;
    if MayCommand(cfg, s) {
      var line := TrimSpace(text);
      VerbsAreVerbs();
      OrderedIs(cfg, s, text, "STARTTLS");
      OrderedIs(cfg, s, text, "EHLO");
      OrderedIs(cfg, s, text, "HELO");
      CommandsKeep(cfg, Counted(s), SplitCommand(line).1, a);
      if TurnsTls(cfg, s, text, a) {
        StartTlsForgets(cfg, s, text, a);
      }
    } else {
      NoOrders(cfg, s, text);
    }
  }

  lemma NoOrders(cfg: Config, s: Session, text: string)
    requires !MayCommand(cfg, s)
    ensures forall capitals :: !Ordered(cfg, s, text, capitals)
  {}

  lemma StartTlsForgets(cfg: Config, s: Session, text: string, a: Answers)
    requires TurnsTls(cfg, s, text, a)
    ensures var r := React(cfg, s, text, a).session;
      !r.greeted && !r.authed && r.mailFrom == "" && r.rcptTo == []
  {
    hide React, Says;
    var args :| Orders(cfg, s, text, "STARTTLS", args);
    StartTlsReply(cfg, s, text, args, a);
  }

  /** The session becomes authenticated exactly by right credentials. */
  lemma LoginRule(cfg: Config, s: Session, text: string, a: Answers)
    requires !s.mode.Closed? && !s.authed
    ensures React(cfg, s, text, a).session.authed <==> LogsIn(cfg, s, text, a)
    ensures React(cfg, s, text, a).effect.LoginOk? ==> LogsIn(cfg, s, text, a)
  {
    hide React, Presents;
    if exists user, password :: Presents(cfg, s, text, a, user, password) {
      var user, password :| Presents(cfg, s, text, a, user, password);
      PresentedIsChecked(cfg, s, text, a, user, password);
      forall u, p | Presents(cfg, s, text, a, u, p) && !a.userBlocked
        ensures (u, p) in cfg.users <==> (user, password) in cfg.users
      {
        PresentedIsChecked(cfg, s, text, a, u, p);
      }
    } else {
      NothingPresented(cfg, s, text, a);
    }
  }

  /** The failure count goes up by one for wrong credentials, back to zero for right ones,
      and stays otherwise; the limiter is told of exactly these. */
  lemma FailureRule(cfg: Config, s: Session, text: string, a: Answers)
    requires !s.mode.Closed?
    ensures var r := React(cfg, s, text, a);
      var checked := !a.userBlocked && exists user, password :: Presents(cfg, s, text, a, user, password);
      && (LogsIn(cfg, s, text, a) ==> r.session.authFailures == 0 && r.effect.LoginOk? && r.code == 235)
      && (checked && !LogsIn(cfg, s, text, a) ==>
            r.session.authFailures == s.authFailures + 1 && r.effect.LoginFailed? && r.code == 535)
      && (!checked ==> NoCheck(s, r))
      && (r.effect.LoginOk? || r.effect.LoginFailed? ==>
            exists password :: Presents(cfg, s, text, a, r.effect.user, password))
  {
    hide React, Presents;
    var r := React(cfg, s, text, a);
    if exists user, password :: Presents(cfg, s, text, a, user, password) {
      var user, password :| Presents(cfg, s, text, a, user, password);
      PresentedIsChecked(cfg, s, text, a, user, password);
      forall u, p | Presents(cfg, s, text, a, u, p) && !a.userBlocked
        ensures (u, p) in cfg.users <==> (user, password) in cfg.users
      {
        PresentedIsChecked(cfg, s, text, a, u, p);
      }
      if LogsIn(cfg, s, text, a) {
        var u, p :| Presents(cfg, s, text, a, u, p) && (u, p) in cfg.users;
      }
    } else {
      NothingPresented(cfg, s, text, a);
    }
  }

  lemma CommandsAskNoPassword(cfg: Config, s: Session, args: string, a: Answers)
    requires s.mode.Command?
    ensures !OnAuth(cfg, s, args, a).session.mode.LoginPassword? && !OnStartTls(s, a).session.mode.LoginPassword?
    ensures !OnMail(cfg, s, args, a).session.mode.LoginPassword? && !OnRcpt(cfg, s, args).session.mode.LoginPassword?
    ensures !OnData(cfg, s, a).session.mode.LoginPassword?
  {
    hide Split, Fields, ToUpper, ExtractAddress;
  }

  /** The name that goes with a password line is the one the line before decodes to. */
  lemma NameRule(cfg: Config, s: Session, text: string, a: Answers, user: string)
    requires !s.mode.Closed?
    ensures React(cfg, s, text, a).session.mode == LoginPassword(user)
       <==> s.mode.LoginUser? && cfg.decode(TrimSpace(text)) == Some(user)
  {
    hide TrimSpace, SplitCommand, VerbOf, Split, SplitBody, Unstuffed, OnAuth, OnMail, OnRcpt, OnStartTls, OnData;
    if s.mode.Command? {
      CommandsAskNoPassword(cfg, Counted(s), SplitCommand(TrimSpace(text)).1, a);
    }
  }

  /** The envelope is dropped by EHLO, HELO, RSET, the handshake and the end of a body. */
  ghost predicate DropsEnvelope(cfg: Config, s: Session, text: string, a: Answers) {
    || Greets(cfg, s, text) || Ordered(cfg, s, text, "RSET") || TurnsTls(cfg, s, text, a)
    || (s.mode.Data? && React(cfg, s, text, a).code in {250, 552})
  }

  lemma CommandsKeepEnvelope(cfg: Config, s: Session, args: string, a: Answers)
    requires s.mode.Command?
    ensures var r := OnAuth(cfg, s, args, a).session; r.mailFrom == s.mailFrom && r.rcptTo == s.rcptTo
    ensures var r := OnData(cfg, s, a).session; r.mailFrom == s.mailFrom && r.rcptTo == s.rcptTo
    ensures OnMail(cfg, s, args, a).session.rcptTo == s.rcptTo
    ensures OnRcpt(cfg, s, args).session.mailFrom == s.mailFrom
    ensures var r := OnMail(cfg, s, args, a); r.code != 250 ==> r.session.mailFrom == s.mailFrom
    ensures var r := OnRcpt(cfg, s, args); r.code != 250 ==> r.session.rcptTo == s.rcptTo
    ensures var r := OnStartTls(s, a).session;
      (!s.tls && a.handshakeOk) || (r.mailFrom == s.mailFrom && r.rcptTo == s.rcptTo)
  {
    hide ToUpper, ExtractAddress, Fields, Split;
  }

  /** Otherwise only an accepted MAIL sets the sender, and only an accepted RCPT adds a
      recipient. */
  lemma EnvelopeRule(cfg: Config, s: Session, text: string, a: Answers)
    requires !s.mode.Closed?
    ensures var r := React(cfg, s, text, a);
      if DropsEnvelope(cfg, s, text, a) then r.session.mailFrom == "" && r.session.rcptTo == []
      else
        && (r.session.mailFrom != s.mailFrom ==> Ordered(cfg, s, text, "MAIL") && r.code == 250)
        && (r.session.rcptTo != s.rcptTo ==> Ordered(cfg, s, text, "RCPT") && r.code == 250)
  {
    if MayCommand(cfg, s) {
      EnvelopeOfCommand(cfg, s, text, a);
    } else {
      NoOrders(cfg, s, text);
      EnvelopeElsewhere(cfg, s, text, a);
    }
  }

  lemma EnvelopeElsewhere(cfg: Config, s: Session, text: string, a: Answers)
    requires !s.mode.Closed? && !MayCommand(cfg, s)
    ensures var r := React(cfg, s, text, a);
      if s.mode.Data? && r.code in {250, 552} then r.session.mailFrom == "" && r.session.rcptTo == []
      else r.session.mailFrom == s.mailFrom && r.session.rcptTo == s.rcptTo
  {
    hide TrimSpace, Split, SplitBody, Unstuffed, OnCommand;
  }

  lemma EnvelopeOfCommand(cfg: Config, s: Session, text: string, a: Answers)
    requires MayCommand(cfg, s)
    ensures var r := React(cfg, s, text, a);
      if DropsEnvelope(cfg, s, text, a) then r.session.mailFrom == "" && r.session.rcptTo == []
      else
        && (r.session.mailFrom != s.mailFrom ==> Ordered(cfg, s, text, "MAIL") && r.code == 250)
        && (r.session.rcptTo != s.rcptTo ==> Ordered(cfg, s, text, "RCPT") && r.code == 250)
  {
    hide TrimSpace, SplitCommand, OnAuth, OnMail, OnRcpt, OnStartTls, OnData, Ordered, Split, SplitBody, Unstuffed;
    var line := TrimSpace(text);
    VerbsAreVerbs();
    OrderedIs(cfg, s, text, "STARTTLS");
    OrderedIs(cfg, s, text, "EHLO");
    OrderedIs(cfg, s, text, "HELO");
    OrderedIs(cfg, s, text, "RSET");
    OrderedIs(cfg, s, text, "MAIL");
    OrderedIs(cfg, s, text, "RCPT");
    CommandsKeepEnvelope(cfg, Counted(s), SplitCommand(line).1, a);
    if TurnsTls(cfg, s, text, a) {
      StartTlsForgets(cfg, s, text, a);
    }
  }
}
