/** Reading lines off the connection, and the DATA reader: dot unstuffing with a size
    limit.  A char stands for one byte. */
module DataReader {
  import opened Queue

  // ---- Lines ----

  datatype FirstLine = NoLine | Line(text: string, rest: string)

  predicate IsLine(s: string) {
    s != [] && s[|s| - 1] == '\n' && '\n' !in s[..|s| - 1]
  }

  /** The input up to and including its first line feed. */
  function SplitLine(input: string): (line: FirstLine)
    ensures line.NoLine? <==> '\n' !in input
    ensures line.Line? ==> IsLine(line.text) && input == line.text + line.rest
  {
    if input == [] then NoLine
    else if input[0] == '\n' then Line([input[0]], input[1..])
    else
      match SplitLine(input[1..])
      case NoLine => NoLine
      case Line(text, rest) =>
        LongerLine(input[0], text);
        Line([input[0]] + text, rest)
  }

  lemma LongerLine(c: char, line: string)
    requires c != '\n' && IsLine(line)
    ensures IsLine([c] + line)
  {
    assert ([c] + line)[..|line|] == [c] + line[..|line| - 1];
  }

  lemma {:induction false} SplitLineOf(line: string, rest: string)
    requires IsLine(line)
    ensures SplitLine(line + rest) == Line(line, rest)
  {
    assert (line + rest)[1..] == line[1..] + rest;
    if line[0] == '\n' {
      assert line == ['\n'];
    } else {
      assert line[1..][..|line| - 2] == line[..|line| - 1][1..];
      SplitLineOf(line[1..], rest);
      assert [line[0]] + line[1..] == line;
    }
  }

  /** The bytes of one connection.  The server sets a deadline before each command; what
      arrives in time can be read, and a read that needs more fails. */
  class Reader {
    /** What arrives before the deadline set last and has not been read. */
    var timely: string
    /** What the client sends after that, if anything. */
    var late: string

    function Rest(): string
      reads this
    {
      timely + late
    }

    constructor (input: string)
      ensures Rest() == input && timely == ""
    {
      timely, late := "", input;
    }

    /** The next `arriving` bytes get here in time. */
    method SetReadDeadline(arriving: nat)
      requires arriving <= |Rest()|
      modifies this
      ensures Rest() == old(Rest()) && |timely| == arriving
    {
      timely, late := Rest()[..arriving], Rest()[arriving..];
    }

    /** ReadString('\n'): on an error the partial line is consumed and dropped.  A later
        read goes on with what arrives before the next deadline. */
    method ReadLine() returns (line: Option<string>)
      modifies this
      ensures late == old(late)
      ensures match SplitLine(old(timely))
              case NoLine => line.None? && timely == ""
              case Line(text, after) => line == Some(text) && timely == after
    {
      var i := 0;
      while i < |timely| && timely[i] != '\n'
        invariant 0 <= i <= |timely|
        invariant '\n' !in timely[..i]
      {
        i := i + 1;
      }
      if i == |timely| {
        assert timely[..i] == timely;
        timely := "";
        return None;
      }
      assert timely[..i + 1][..i] == timely[..i];
      SplitLineOf(timely[..i + 1], timely[i + 1..]);
      assert timely[..i + 1] + timely[i + 1..] == timely;
      line := Some(timely[..i + 1]);
      timely := timely[i + 1..];
    }
  }

  // ---- Message bodies ----

  predicate IsEol(c: char) {
    c == '\r' || c == '\n'
  }

  function TrimEol(s: string): string {
    if s != [] && IsEol(s[|s| - 1]) then TrimEol(s[..|s| - 1]) else s
  }

  predicate IsTerminator(line: string) {
    TrimEol(line) == "."
  }

  /** A lone dot and then nothing but carriage returns and line feeds ends the body. */
  lemma {:induction false} TerminatorShape(line: string)
    ensures IsTerminator(line)
       <==> line != [] && line[0] == '.' && forall i :: 1 <= i < |line| ==> line[i] == '\r' || line[i] == '\n'
  {
    if line != [] && IsEol(line[|line| - 1]) {
      TerminatorShape(line[..|line| - 1]);
    }
  }

  datatype Body = Unterminated | Body(lines: seq<string>, terminator: string, rest: string)

  function Concat(lines: seq<string>): string {
    if lines == [] then "" else lines[0] + Concat(lines[1..])
  }

  /** The lines before the first terminator line, and what follows it. */
  function SplitBody(input: string): Body
    decreases |input|
  {
    match SplitLine(input)
    case NoLine => Unterminated
    case Line(text, rest) =>
      if IsTerminator(text) then Body([], text, rest) else Prepend([text], SplitBody(rest))
  }

  function Prepend(lines: seq<string>, body: Body): Body {
    match body
    case Unterminated => Unterminated
    case Body(more, terminator, rest) => Body(lines + more, terminator, rest)
  }

  lemma ConcatCons(line: string, lines: seq<string>)
    ensures Concat([line] + lines) == line + Concat(lines)
  {
    assert ([line] + lines)[1..] == lines;
  }

  ghost predicate Cuts(input: string, body: Body) {
    body.Body? ==>
      && input == Concat(body.lines) + body.terminator + body.rest
      && IsLine(body.terminator) && IsTerminator(body.terminator)
      && forall l :: l in body.lines ==> IsLine(l) && !IsTerminator(l)
  }

  lemma PrependCuts(line: string, input: string, body: Body)
    requires Cuts(input, body) && IsLine(line) && !IsTerminator(line)
    ensures Cuts(line + input, Prepend([line], body))
  {
    hide IsTerminator, IsLine, Concat;
    if body.Body? {
      ConcatCons(line, body.lines);
      assert line + (Concat(body.lines) + body.terminator + body.rest)
          == line + Concat(body.lines) + body.terminator + body.rest;
    }
  }

  /** A body is cut out of the input without loss, at the first terminator line. */
  lemma {:induction false} SplitBodyCuts(input: string)
    ensures Cuts(input, SplitBody(input))
    decreases |input|
  {
    hide IsTerminator, IsLine, Concat, Prepend, Cuts;
    match SplitLine(input)
    case NoLine => NothingCut(input);
    case Line(text, rest) =>
      if IsTerminator(text) {
        EmptyCut(text, rest);
      } else {
        SplitBodyCuts(rest);
        PrependCuts(text, rest, SplitBody(rest));
      }
  }

  lemma NothingCut(input: string)
    ensures Cuts(input, Unterminated)
  {}

  lemma EmptyCut(terminator: string, rest: string)
    requires IsLine(terminator) && IsTerminator(terminator)
    ensures Cuts(terminator + rest, Body([], terminator, rest))
  {
    hide IsTerminator, IsLine;
    assert "" + terminator == terminator;
  }

  function Unstuff(line: string): string {
    if ".." <= line then line[1..] else line
  }

  function Unstuffed(lines: seq<string>): string {
    if lines == [] then "" else Unstuff(lines[0]) + Unstuffed(lines[1..])
  }

  lemma {:induction false} UnstuffedSnoc(lines: seq<string>, line: string)
    ensures Unstuffed(lines + [line]) == Unstuffed(lines) + Unstuff(line)
  {
    if lines == [] {
      assert lines + [line] == [line];
      assert [line][1..] == [];
    } else {
      assert (lines + [line])[1..] == lines[1..] + [line];
      UnstuffedSnoc(lines[1..], line);
    }
  }

  lemma NothingSeen(body: Body)
    ensures Prepend([], body) == body && Unstuffed([]) == ""
  {
    if body.Body? {
      assert [] + body.lines == body.lines;
    }
  }

  datatype Consumed =
    | ReadError
    | Accepted(payload: string, rest: string)
    | TooBig(rest: string)

  /** What reading a body from `input` comes to. */
  function Consume(input: string, maxBytes: int): Consumed {
    match SplitBody(input)
    case Unterminated => ReadError
    case Body(lines, _, rest) =>
      if |Unstuffed(lines)| <= maxBytes then Accepted(Unstuffed(lines), rest) else TooBig(rest)
  }

  /** One line further into the body. */
  lemma BodyStep(seen: seq<string>, input: string)
    ensures match SplitLine(input)
      case NoLine => Prepend(seen, SplitBody(input)).Unterminated?
      case Line(text, rest) =>
        Prepend(seen, SplitBody(input)) ==
          if IsTerminator(text) then Body(seen, text, rest) else Prepend(seen + [text], SplitBody(rest))
  {
    hide IsTerminator;
    var line := SplitLine(input);
    if line.Line? && !IsTerminator(line.text) && SplitBody(line.rest).Body? {
      var more := SplitBody(line.rest).lines;
      assert seen + ([line.text] + more) == seen + [line.text] + more;
    }
  }

  /** consumeData: payload, size and error, leaving the reader after the terminator.  When the
      body does not arrive in time, what did arrive is consumed and dropped. */
  method ConsumeData(r: Reader, maxBytes: int)
    returns (payload: Option<string>, size: int, err: bool)
    requires maxBytes >= 0
    modifies r
    ensures r.late == old(r.late)
    ensures match Consume(old(r.timely), maxBytes)
            case ReadError => err && payload.None? && r.timely == ""
            case Accepted(body, after) =>
              !err && payload == Some(body) && size == |body| <= maxBytes && r.timely == after
            case TooBig(after) => !err && payload.None? && size > maxBytes && r.timely == after
  {
    hide SplitBody, Prepend, IsTerminator, Unstuffed;
    var buf := "";
    var total := 0;
    ghost var seen: seq<string> := [];
    ghost var whole := SplitBody(r.timely);
    NothingSeen(whole);
    while true
      invariant whole == Prepend(seen, SplitBody(r.timely)) && r.late == old(r.late)
      invariant buf == Unstuffed(seen) && total == |buf| <= maxBytes
      decreases |r.timely|
    {
      ghost var before := r.timely;
      BodyStep(seen, before);
      var line := r.ReadLine();
      if line.None? {
        return None, total, true;
      }
      if IsTerminator(line.value) {
        return Some(buf), total, false;
      }
      UnstuffedSnoc(seen, line.value);
      seen := seen + [line.value];
      var text := line.value;
      if ".." <= text {
        text := text[1..];
      }
      total := total + |text|;
      if total <= maxBytes {
        buf := buf + text;
        continue;
      }
      while true
        invariant whole == Prepend(seen, SplitBody(r.timely)) && r.late == old(r.late)
        invariant maxBytes < total <= |Unstuffed(seen)|
        invariant |r.timely| < |before|
        decreases |r.timely|
      {
        BodyStep(seen, r.timely);
        var next := r.ReadLine();
        if next.None? {
          return None, total, true;
        }
        if IsTerminator(next.value) {
          return None, total, false;
        }
        UnstuffedSnoc(seen, next.value);
        seen := seen + [next.value];
      }
    }
  }

  // ---- Dot stuffing (RFC 5321, section 4.5.2) ----

  function Stuff(line: string): string {
    if "." <= line then "." + line else line
  }

  /** What a sender transmits for a message of LF-terminated lines. */
  function StuffMessage(message: string): string
    decreases |message|
  {
    match SplitLine(message)
    case NoLine => ""
    case Line(text, rest) => Stuff(text) + StuffMessage(rest)
  }

  lemma StuffedLine(line: string)
    requires IsLine(line)
    ensures IsLine(Stuff(line)) && !IsTerminator(Stuff(line)) && Unstuff(Stuff(line)) == line
  {
    TerminatorShape(Stuff(line));
    if "." <= line {
      LongerLine('.', line);
      assert Stuff(line) == ['.'] + line && Stuff(line)[1] == '.';
    } else {
      assert line[0] != '.';
    }
  }

  lemma BodyOfLine(line: string, tail: string)
    requires IsLine(line)
    ensures SplitBody(line + tail) ==
      if IsTerminator(line) then Body([], line, tail) else Prepend([line], SplitBody(tail))
  {
    hide IsTerminator;
    SplitLineOf(line, tail);
  }

  lemma UnstuffedCons(line: string, lines: seq<string>)
    ensures Unstuffed([line] + lines) == Unstuff(line) + Unstuffed(lines)
  {
    assert ([line] + lines)[1..] == lines;
  }

  /** One line more in front of a body that reads the same on its own. */
  lemma LineAlone(line: string, body: Body)
    requires IsLine(line) && !IsTerminator(line) && body.Body?
    requires SplitBody(Concat(body.lines) + body.terminator) == Body(body.lines, body.terminator, "")
    ensures SplitBody(Concat([line] + body.lines) + body.terminator) == Body([line] + body.lines, body.terminator, "")
  {
    hide IsTerminator, IsLine, Concat, SplitBody;
    var tail := Concat(body.lines) + body.terminator;
    ConcatCons(line, body.lines);
    assert line + Concat(body.lines) + body.terminator == line + tail;
    BodyOfLine(line, tail);
  }

  lemma TerminatorAlone(terminator: string)
    requires IsLine(terminator) && IsTerminator(terminator)
    ensures SplitBody(Concat([]) + terminator) == Body([], terminator, "")
  {
    hide IsTerminator, IsLine, SplitBody;
    assert Concat([]) + terminator == terminator + "";
    BodyOfLine(terminator, "");
  }

  /** A body cut out of the input reads the same on its own. */
  lemma {:induction false} BodyAlone(input: string)
    ensures var body := SplitBody(input); body.Body? ==>
      SplitBody(Concat(body.lines) + body.terminator) == Body(body.lines, body.terminator, "")
    decreases |input|
  {
    hide IsTerminator, IsLine, Concat, SplitBody;
    match SplitLine(input)
    case NoLine => NoBody(input);
    case Line(text, rest) =>
      BodyOfLine(text, rest);
      if IsTerminator(text) {
        TerminatorAlone(text);
      } else {
        BodyAlone(rest);
        if SplitBody(rest).Body? {
          LineAlone(text, SplitBody(rest));
        }
      }
  }

  lemma NoBody(input: string)
    requires SplitLine(input).NoLine?
    ensures SplitBody(input).Unterminated?
  {}

  /** How much of the input the body at its start takes up: all of it when it never ends. */
  function BodySize(input: string): (n: nat)
    ensures n <= |input|
  {
    match SplitBody(input)
    case Unterminated => |input|
    case Body(_, _, rest) =>
      SplitBodyCuts(input);
      |input| - |rest|
  }

  /** More input does not change a body that has ended, and lengthens one that has not. */
  lemma {:induction false} BodyGrows(input: string, more: string)
    ensures match SplitBody(input)
      case Body(lines, terminator, rest) => SplitBody(input + more) == Body(lines, terminator, rest + more)
      case Unterminated => SplitBody(input + more).Body? ==> |SplitBody(input + more).rest| < |more|
    decreases |input|
  {
    hide IsTerminator, IsLine, SplitBody;
    match SplitLine(input)
    case NoLine => FirstLineGrows(input, more);
    case Line(text, rest) =>
      assert input + more == text + (rest + more);
      BodyOfLine(text, rest);
      BodyOfLine(text, rest + more);
      if !IsTerminator(text) {
        BodyGrows(rest, more);
      }
  }

  lemma FirstLineGrows(input: string, more: string)
    requires SplitLine(input).NoLine?
    ensures SplitBody(input).Unterminated?
    ensures SplitBody(input + more).Body? ==> |SplitBody(input + more).rest| < |more|
  {
    hide IsTerminator, IsLine, SplitBody, SplitLine, Concat;
    NoBody(input);
    match SplitLine(input + more)
    case NoLine => NoBody(input + more);
    case Line(text, rest) =>
      LineReachesPast(input, more, text, rest);
      BodyOfLine(text, rest);
      RestIsNoLonger(rest);
  }

  lemma LineReachesPast(input: string, more: string, line: string, rest: string)
    requires '\n' !in input && IsLine(line) && input + more == line + rest
    ensures |line| > |input|
  {
    var all := input + more;
    assert all[|line| - 1] == (line + rest)[|line| - 1] == '\n';
    assert forall k :: 0 <= k < |input| ==> all[k] == input[k];
  }

  lemma RestIsNoLonger(input: string)
    ensures SplitBody(input).Body? ==> |SplitBody(input).rest| <= |input|
  {
    hide IsTerminator, IsLine, SplitBody, Concat;
    SplitBodyCuts(input);
  }

  predicate IsMessage(s: string) {
    s == "" || s[|s| - 1] == '\n'
  }

  lemma MessageLine(message: string)
    requires IsMessage(message)
    ensures match SplitLine(message)
      case NoLine => message == "" && StuffMessage(message) == ""
      case Line(text, rest) => StuffMessage(message) == Stuff(text) + StuffMessage(rest) && IsMessage(rest)
  {
    hide Stuff;
    if message != "" {
      assert message[|message| - 1] in message;
      var line := SplitLine(message);
      assert line.rest != "" ==> line.rest[|line.rest| - 1] == message[|message| - 1];
    }
  }

  lemma {:induction false} StuffedBody(message: string, terminator: string, rest: string)
    requires IsMessage(message) && IsLine(terminator) && IsTerminator(terminator)
    ensures var body := SplitBody(StuffMessage(message) + terminator + rest);
      body.Body? && body.terminator == terminator && body.rest == rest && Unstuffed(body.lines) == message
    decreases |message|
  {
    hide IsTerminator, IsLine, IsMessage, Unstuff, Stuff, SplitBody, StuffMessage;
    MessageLine(message);
    match SplitLine(message)
    case NoLine =>
      assert StuffMessage(message) + terminator + rest == terminator + rest;
      BodyOfLine(terminator, rest);
    case Line(text, after) =>
      StuffedLine(text);
      StuffedBody(after, terminator, rest);
      var tail := StuffMessage(after) + terminator + rest;
      assert StuffMessage(message) + terminator + rest == Stuff(text) + tail;
      BodyOfLine(Stuff(text), tail);
      UnstuffedCons(Stuff(text), SplitBody(tail).lines);
  }

  /** Stuffing and reading back returns exactly the message and leaves exactly the rest;
      a message over the limit is refused as a whole with the stream still in step. */
  lemma RoundTrip(message: string, terminator: string, rest: string, maxBytes: int)
    requires IsMessage(message) && IsLine(terminator) && IsTerminator(terminator)
    ensures Consume(StuffMessage(message) + terminator + rest, maxBytes)
         == if |message| <= maxBytes then Accepted(message, rest) else TooBig(rest)
  {
    StuffedBody(message, terminator, rest);
  }

  // ---- Against the receiver rule of the standard ----

  function RfcUnstuff(line: string): string {
    if "." <= line then line[1..] else line
  }

  function RfcUnstuffed(lines: seq<string>): string {
    if lines == [] then "" else RfcUnstuff(lines[0]) + RfcUnstuffed(lines[1..])
  }

  predicate LoneDot(line: string) {
    "." <= line && !(".." <= line)
  }

  lemma {:induction false} KeptDotsCount(lines: seq<string>)
    ensures |RfcUnstuffed(lines)| <= |Unstuffed(lines)|
    ensures |RfcUnstuffed(lines)| == |Unstuffed(lines)| ==> forall l :: l in lines ==> !LoneDot(l)
    ensures (forall l :: l in lines ==> !LoneDot(l)) ==> RfcUnstuffed(lines) == Unstuffed(lines)
  {
    if lines != [] {
      KeptDotsCount(lines[1..]);
      assert forall l :: l in lines <==> l == lines[0] || l in lines[1..];
      assert !LoneDot(lines[0]) ==> RfcUnstuff(lines[0]) == Unstuff(lines[0]);
    }
  }

  /** The standard drops every leading dot; this reader agrees with it on a body exactly
      when no line begins with a dot that is not doubled. */
  lemma MatchesRfcReceiverExactlyWhen(lines: seq<string>)
    ensures Unstuffed(lines) == RfcUnstuffed(lines) <==> forall l :: l in lines ==> !LoneDot(l)
  {
    KeptDotsCount(lines);
  }

  /** For instance a sender that does not stuff at all. */
  lemma KeepsALoneDot()
    ensures Unstuffed([".x\n"]) == ".x\n" && RfcUnstuffed([".x\n"]) == "x\n"
  {
    assert !(".." <= ".x\n") by { assert ".x\n"[1] == 'x'; }
    assert [".x\n"][1..] == [];
  }
}
