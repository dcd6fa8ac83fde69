/** Whether the server and its client agree on where message bodies end.  The client sends
    a body up to its terminator line; the server reads one only until its deadline. */
module Framing {
  import opened Queue
  import opened DataReader
  import opened Session
  import opened Conversation
  import opened PlainClient

  // ---- Positions in the input ----

  /** Where piece `k` starts. */
  function StartOf(log: seq<Entry>, k: nat): nat
    requires k <= |log|
  {
    |Texts(log[..k])|
  }

  predicate InPiece(log: seq<Entry>, j: nat, p: nat)
    requires j < |log|
  {
    StartOf(log, j) <= p < StartOf(log, j + 1)
  }

  predicate ReadAsBody(log: seq<Entry>, k: nat)
    requires k < |log|
  {
    LastCode(log[..k]) == 354
  }

  predicate ReadAsCommand(log: seq<Entry>, k: nat)
    requires k < |log|
  {
    LastCode(log[..k]) != 354 && LastCode(log[..k]) != 334
  }

  /** Byte `p` belongs to the body that starts where piece `k` does. */
  predicate InBody(input: string, log: seq<Entry>, k: nat, p: nat)
    requires k < |log|
  {
    var start := StartOf(log, k);
    start <= |input| && start <= p < start + BodySize(input[start..])
  }

  /** Some byte of the body asked for before piece `k` was read as a command. */
  ghost predicate Misread(input: string, log: seq<Entry>, k: nat)
    requires k < |log|
  {
    exists j, p :: 0 <= j < |log| && ReadAsCommand(log, j) && InPiece(log, j, p) && InBody(input, log, k, p)
  }

  /** A read failed inside the body asked for before piece `k`. */
  predicate CutShort(log: seq<Entry>, k: nat)
    requires k < |log|
  {
    ReadAsBody(log, k) && SplitBody(log[k].text).Unterminated?
  }

  // ---- The pieces lie one after the other ----

  lemma NextStart(log: seq<Entry>, k: nat)
    requires k < |log|
    ensures StartOf(log, k + 1) == StartOf(log, k) + |log[k].text|
  {
    assert log[..k + 1][..k] == log[..k];
  }

  lemma {:induction false} StartsGrow(log: seq<Entry>, i: nat, j: nat)
    requires i <= j <= |log|
    ensures StartOf(log, i) <= StartOf(log, j)
    decreases j
  {
    if i < j {
      StartsGrow(log, i, j - 1);
      NextStart(log, j - 1);
    }
  }

  lemma {:induction false} PrefixUnread(input: string, log: seq<Entry>, k: nat)
    requires Unread(input, log).Some? && k <= |log|
    ensures Unread(input, log[..k]).Some?
    decreases |log|
  {
    hide Fits;
    if k < |log| {
      var n := |log| - 1;
      assert log[..n][..k] == log[..k];
      PrefixUnread(input, log[..n], k);
    } else {
      assert log[..k] == log;
    }
  }

  lemma UnreadFrom(input: string, log: seq<Entry>, k: nat)
    requires Unread(input, log).Some? && k <= |log|
    ensures StartOf(log, k) <= |input|
    ensures Unread(input, log[..k]) == Some(input[StartOf(log, k)..])
  {
    PrefixUnread(input, log, k);
    InputIsPartitioned(input, log[..k]);
  }

  lemma PieceThere(input: string, log: seq<Entry>, k: nat)
    requires Unread(input, log).Some? && k < |log|
    ensures StartOf(log, k) <= |input|
    ensures log[k].text <= input[StartOf(log, k)..] && Fits(LastCode(log[..k]), log[k].text)
  {
    hide Fits;
    UnreadFrom(input, log, k);
    PrefixUnread(input, log, k + 1);
    assert log[..k + 1][..k] == log[..k];
  }

  lemma {:induction false} PrefixReplayed(cfg: Config, start: Session, log: seq<Entry>, k: nat)
    requires Replayed(cfg, start, log).Some? && k <= |log|
    ensures Replayed(cfg, start, log[..k]).Some?
    decreases |log|
  {
    hide React;
    if k < |log| {
      var n := |log| - 1;
      assert log[..n][..k] == log[..k];
      PrefixReplayed(cfg, start, log[..n], k);
    } else {
      assert log[..k] == log;
    }
  }

  /** A body cut short is answered 451, so the next piece is read as a command. */
  lemma CutIsRefused(cfg: Config, start: Session, log: seq<Entry>, k: nat)
    requires start.mode.Command? && Replayed(cfg, start, log).Some? && k < |log| && CutShort(log, k)
    ensures log[k].code == 451
    ensures k + 1 < |log| ==> ReadAsCommand(log, k + 1)
  {
    hide React, SplitBody;
    PrefixReplayed(cfg, start, log, k);
    PrefixReplayed(cfg, start, log, k + 1);
    PiecesReadAsAnnounced(cfg, start, log[..k]);
    assert log[..k + 1][..k] == log[..k];
    PartIsRefused(cfg, Replayed(cfg, start, log[..k]).value, log[k].text, log[k].answers);
  }

  lemma PartIsRefused(cfg: Config, s: Session, text: string, a: Answers)
    requires s.mode.Data? && SplitBody(text).Unterminated?
    ensures React(cfg, s, text, a) == Reaction(s.(mode := Command), 451, Nothing)
  {}

  // ---- When a body is misread ----

  lemma OnlyWhenCut(input: string, log: seq<Entry>, k: nat, j: nat, p: nat)
    requires Unread(input, log).Some? && k < |log| && j < |log| && ReadAsBody(log, k)
    requires ReadAsCommand(log, j) && InPiece(log, j, p) && InBody(input, log, k, p)
    ensures CutShort(log, k) && k + 1 < |log|
  {
    hide Fits, SplitBody, BodySize, StartOf;
    PieceThere(input, log, k);
    PieceShape(input[StartOf(log, k)..], 354, log[k].text);
    NextStart(log, k);
    if j < k {
      StartsGrow(log, j + 1, k);
    } else {
      assert j != k;
      StartsGrow(log, k + 1, j);
    }
  }

  lemma WheneverCut(cfg: Config, start: Session, input: string, log: seq<Entry>, k: nat)
    requires start.mode.Command? && Unread(input, log).Some? && Replayed(cfg, start, log).Some?
    requires k + 1 < |log| && CutShort(log, k)
    ensures Misread(input, log, k)
  {
    hide SplitBody, BodySize, StartOf, Replayed, Unread;
    var from := StartOf(log, k);
    PieceThere(input, log, k);
    PieceThere(input, log, k + 1);
    CutIsRefused(cfg, start, log, k);
    NextStart(log, k);
    NextStart(log, k + 1);
    assert log[k + 1].text != "";
    assert log[k].text != input[from..];
    PieceShape(input[from..], 354, log[k].text);
    assert InPiece(log, k + 1, StartOf(log, k + 1)) && InBody(input, log, k, StartOf(log, k + 1));
  }

  /** Some byte of a body is read as a command if and only if a read inside that body failed
      and anything was read afterwards. */
  lemma MisreadExactlyWhen(cfg: Config, start: Session, input: string, log: seq<Entry>, k: nat)
    requires start.mode.Command? && Unread(input, log).Some? && Replayed(cfg, start, log).Some?
    requires k < |log| && ReadAsBody(log, k)
    ensures Misread(input, log, k) <==> CutShort(log, k) && k + 1 < |log|
  {
    hide ReadAsBody, ReadAsCommand, InPiece, InBody, CutShort, Unread, Replayed;
    if Misread(input, log, k) {
      var j: nat, p: nat :|
        0 <= j < |log| && ReadAsCommand(log, j) && InPiece(log, j, p) && InBody(input, log, k, p);
      OnlyWhenCut(input, log, k, j, p);
    }
    if CutShort(log, k) && k + 1 < |log| {
      WheneverCut(cfg, start, input, log, k);
    }
  }

  /** The server reads no byte of any body as a command exactly when no read fails inside a
      body with something read after it. */
  lemma BodiesStayBodiesExactlyWhen(cfg: Config, start: Session, input: string, log: seq<Entry>)
    requires start.mode.Command? && Unread(input, log).Some? && Replayed(cfg, start, log).Some?
    ensures (forall k :: 0 <= k < |log| && ReadAsBody(log, k) ==> !Misread(input, log, k))
       <==> (forall k :: 0 <= k < |log| - 1 ==> !CutShort(log, k))
  {
    hide ReadAsBody, Misread, Unread, Replayed;
    forall k | 0 <= k < |log| && ReadAsBody(log, k)
      ensures Misread(input, log, k) <==> CutShort(log, k) && k + 1 < |log|
    {
      MisreadExactlyWhen(cfg, start, input, log, k);
    }
  }

  // ---- Two clients that pause inside a body ----

  const HELLO := "hello" + EOL
  const DOT_LINE := "." + EOL
  const DATA_THEN_DOT := HELLO + (QUIT_LINE + DOT_LINE)
  const DATA_THEN_DATA := HELLO + (DATA_LINE + SMALL_BODY)

  lemma LineOfBody(line: string, tail: string)
    requires IsLine(line) && line[0] != '.'
    ensures SplitBody(line + tail) == Prepend([line], SplitBody(tail))
    ensures SplitBody(line).Unterminated?
  {
    hide IsTerminator, SplitBody;
    TerminatorShape(line);
    BodyOfLine(line, tail);
    BodyOfLine(line, "");
    assert line + "" == line;
    NoBody("");
  }

  lemma TheseAreLines()
    ensures IsLine(HELLO) && IsLine(QUIT_LINE) && IsLine(DATA_LINE) && IsLine(DOT_LINE) && IsTerminator(DOT_LINE)
  {
    TerminatorShape(DOT_LINE);
  }

  lemma BothAreOneBody()
    ensures SplitBody(DATA_THEN_DOT) == Body([HELLO, QUIT_LINE], DOT_LINE, "")
    ensures SplitBody(DATA_THEN_DATA) == Body([HELLO, DATA_LINE, "\n"], ".\n", "")
    ensures SplitBody(HELLO).Unterminated?
  {
    hide IsTerminator, IsLine, SplitBody;
    TheseAreLines();
    SmallBodyLines();
    assert HELLO[0] == 'h' && QUIT_LINE[0] == 'Q' && DATA_LINE[0] == 'D';
    BodyOfLine(DOT_LINE, "");
    assert DOT_LINE + "" == DOT_LINE;
    LineOfBody(QUIT_LINE, DOT_LINE);
    LineOfBody(HELLO, QUIT_LINE + DOT_LINE);
    LineOfBody(DATA_LINE, SMALL_BODY);
    LineOfBody(HELLO, DATA_LINE + SMALL_BODY);
  }

  /** A client pauses after the first line of a body whose second line is QUIT: the server
      takes that line for the command and says goodbye. */
  lemma BodyLineQuits(cfg: Config, s: Session, a: Answers) returns (log: seq<Entry>)
    requires MaySendData(cfg, s) && s.count + 2 <= cfg.maxCommands
    requires a.backlog.Some? && a.backlog.value < cfg.maxBacklog
    ensures SplitBody(DATA_THEN_DOT) == Body([HELLO, QUIT_LINE], DOT_LINE, "")
    ensures |log| == 3 && log[0].text == DATA_LINE && log[0].code == 354
    ensures ReadAsBody(log, 1) && ReadAsCommand(log, 2) && log[2] == Entry(QUIT_LINE, NOT_ASKED, 221)
    ensures Unread(DATA_LINE + DATA_THEN_DOT, log) == Some(DOT_LINE)
    ensures Replayed(cfg, s, log).Some? && Replayed(cfg, s, log).value.mode.Closed?
  {
    hide React, SplitBody, IsLine, Fits, Unread, Replayed, Effects;
    BothAreOneBody();
    log := CutAfterHello(cfg, s, a, QUIT_LINE + DOT_LINE);
    var t := Replayed(cfg, s, log).value;
    PlainLines();
    QuitAccepted(cfg, t, QUIT_LINE, "", NOT_ASKED);
    var last := Entry(QUIT_LINE, NOT_ASKED, 221);
    Appended(cfg, s, DATA_LINE + DATA_THEN_DOT, log, last);
    LineFits(QUIT_LINE, DOT_LINE);
    log := log + [last];
    assert log[..1] == [log[0]] && log[..2] == [log[0], log[1]];
  }

  lemma LineFits(line: string, rest: string)
    requires line == QUIT_LINE || line == DATA_LINE
    ensures Fits(451, line) && Fits(220, line) && line <= line + rest && (line + rest)[|line|..] == rest
  {
    hide IsLine;
    TheseAreLines();
    SplitLineOf(line, "");
    assert line + "" == line;
  }

  /** DATA is accepted, and the first line of the body is all that arrives in time. */
  lemma CutAfterHello(cfg: Config, s: Session, a: Answers, rest: string) returns (log: seq<Entry>)
    requires MaySendData(cfg, s) && a.backlog.Some? && a.backlog.value < cfg.maxBacklog
    ensures log == [Entry(DATA_LINE, a, 354), Entry(HELLO, NOT_ASKED, 451)]
    ensures Unread(DATA_LINE + (HELLO + rest), log) == Some(rest)
    ensures Replayed(cfg, s, log) == Some(s.(count := s.count + 1)) && Effects(cfg, s, log) == []
  {
    hide React, SplitBody, IsLine, Unread, Replayed, Effects;
    var input := DATA_LINE + (HELLO + rest);
    var first, second := Entry(DATA_LINE, a, 354), Entry(HELLO, NOT_ASKED, 451);
    NoPieces(cfg, s, input);
    PlainLines();
    DataAccepted(cfg, s, DATA_LINE, "", a);
    Appended(cfg, s, input, [], first);
    LineFits(DATA_LINE, HELLO + rest);
    assert [] + [first] == [first];
    BothAreOneBody();
    PartIsRefused(cfg, s.(count := s.count + 1, mode := Data), HELLO, NOT_ASKED);
    Appended(cfg, s, input, [first], second);
    assert HELLO <= HELLO + rest && (HELLO + rest)[|HELLO|..] == rest;
    log := [first] + [second];
  }

  lemma NoPieces(cfg: Config, s: Session, input: string)
    ensures Unread(input, []) == Some(input) && Replayed(cfg, s, []) == Some(s) && Effects(cfg, s, []) == []
  {}

  /** Had the second line been DATA, the rest of the body is queued as a message of its own,
      with the sender and the recipients of the one that was cut, and acknowledged. */
  lemma BodyFragmentIsQueued(cfg: Config, s: Session, a: Answers) returns (log: seq<Entry>)
    requires MaySendData(cfg, s) && s.count + 2 <= cfg.maxCommands && cfg.maxMessageBytes >= 1
    requires a.backlog.Some? && a.backlog.value < cfg.maxBacklog
    ensures SplitBody(DATA_THEN_DATA) == Body([HELLO, DATA_LINE, "\n"], ".\n", "")
    ensures |log| == 4 && log[0].text == DATA_LINE && log[0].code == 354 && log[3].code == 250
    ensures Unread(DATA_LINE + DATA_THEN_DATA, log) == Some("")
    ensures Replayed(cfg, s, log).Some?
    ensures Effects(cfg, s, log) == [Queued(Content(s.mailFrom, s.rcptTo, "\n"))]
  {
    hide React, SplitBody, IsLine, Unread, Replayed, Effects;
    var input := DATA_LINE + DATA_THEN_DATA;
    BothAreOneBody();
    log := CutAfterHello(cfg, s, a, DATA_LINE + SMALL_BODY);
    var t := s.(count := s.count + 1);
    PlainLines();
    DataAccepted(cfg, t, DATA_LINE, "", a);
    Appended(cfg, s, input, log, Entry(DATA_LINE, a, 354));
    LineFits(DATA_LINE, SMALL_BODY);
    log := log + [Entry(DATA_LINE, a, 354)];
    SmallBodyLines();
    BodyAccepted(cfg, t.(count := t.count + 1, mode := Data));
    Appended(cfg, s, input, log, Entry(SMALL_BODY, NOT_ASKED, 250));
    assert SMALL_BODY <= SMALL_BODY && SMALL_BODY[|SMALL_BODY|..] == "";
    log := log + [Entry(SMALL_BODY, NOT_ASKED, 250)];
  }
}
