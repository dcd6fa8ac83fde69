/** Which part of the input arrives in time.  The deadline is set before each command and
    covers the AUTH lines and the body that belong to it. */
module Deadlines {
  import opened Queue
  import opened Session
  import opened Conversation

  /** `arrivals[n]` bytes arrive before the deadline set after `n` replies, all that is left
      when there is no such entry; `before` pieces were handled on an earlier stream. */
  datatype Clock = Clock(arrivals: seq<nat>, before: nat)

  function Arriving(arrivals: seq<nat>, n: nat, left: nat): (k: nat)
    ensures k <= left
  {
    if n < |arrivals| && arrivals[n] < left then arrivals[n] else left
  }

  /** The last reply asked for more under the same deadline. */
  predicate AsksForMore(code: int) {
    code == 334 || code == 354
  }

  /** How many pieces had been handled when the deadline was set. */
  function Begun(log: seq<Entry>): (m: nat)
    ensures m <= |log|
  {
    if AsksForMore(LastCode(log)) then Begun(log[..|log| - 1]) else |log|
  }

  /** How far into the input the bytes go that arrive before that deadline. */
  function Reach(clock: Clock, input: string, log: seq<Entry>): (end: nat)
    ensures end <= |input|
  {
    var start := |Texts(log[..Begun(log)])|;
    if start > |input| then |input|
    else start + Arriving(clock.arrivals, clock.before + Begun(log) + 1, |input| - start)
  }

  /** `timely` is what has arrived and has not been read. */
  predicate Arrived(clock: Clock, input: string, log: seq<Entry>, timely: string) {
    var here := |Texts(log)|;
    here + |timely| == Reach(clock, input, log) && timely == input[here..here + |timely|]
  }

  /** The next piece arrived in time, and a body was not cut before it had to be. */
  predicate OnTime(clock: Clock, input: string, log: seq<Entry>, text: string) {
    var here, end := |Texts(log)|, Reach(clock, input, log);
    && here + |text| <= end && text == input[here..here + |text|]
    && (LastCode(log) == 354 ==> text == BodyPart(input[here..end]))
  }

  predicate Punctual(clock: Clock, input: string, log: seq<Entry>) {
    log == [] ||
    var n := |log| - 1;
    Punctual(clock, input, log[..n]) && OnTime(clock, input, log[..n], log[n].text)
  }

  /** The line that is waited for does not arrive whole before the deadline. */
  predicate Late(clock: Clock, input: string, log: seq<Entry>) {
    var here, end := |Texts(log)|, Reach(clock, input, log);
    LastCode(log) != 354 && here <= end && '\n' !in input[here..end]
  }

  lemma OneMoreOnTime(clock: Clock, input: string, log: seq<Entry>, e: Entry)
    requires Punctual(clock, input, log) && OnTime(clock, input, log, e.text)
    ensures Punctual(clock, input, log + [e])
  {
    hide OnTime;
    assert (log + [e])[..|log|] == log;
  }

  lemma ArrivedOnTime(clock: Clock, input: string, log: seq<Entry>, text: string, more: string)
    requires Arrived(clock, input, log, text + more)
    requires LastCode(log) == 354 ==> text == BodyPart(text + more)
    ensures OnTime(clock, input, log, text)
  {
    hide Reach, BodyPart;
    var here := |Texts(log)|;
    assert (text + more)[..|text|] == text;
    assert input[here..here + |text + more|][..|text|] == input[here..here + |text|];
  }

  /** Reading on under the same deadline. */
  lemma StillArrived(clock: Clock, input: string, log: seq<Entry>, e: Entry, more: string)
    requires Arrived(clock, input, log, e.text + more) && AsksForMore(e.code)
    ensures Arrived(clock, input, log + [e], more)
  {
    assert (log + [e])[..|log|] == log;
    assert (log + [e])[..Begun(log)] == log[..Begun(log)];
    var here := |Texts(log)|;
    var all := e.text + more;
    assert all[|e.text|..] == more;
    assert input[here..here + |all|][|e.text|..] == input[here + |e.text|..here + |all|];
  }

  /** One deadline covers a command with its AUTH lines and its body: a reply that asks for
      more sets no new one, and any other does, for what is left from there. */
  lemma OneDeadlineForAll(clock: Clock, input: string, log: seq<Entry>, e: Entry)
    ensures e.code == 334 || e.code == 354 ==> Reach(clock, input, log + [e]) == Reach(clock, input, log)
    ensures e.code != 334 && e.code != 354 && |Texts(log + [e])| <= |input| ==>
      Reach(clock, input, log + [e]) == |Texts(log + [e])| +
        Arriving(clock.arrivals, clock.before + |log| + 2, |input| - |Texts(log + [e])|)
  {
    assert (log + [e])[..|log|] == log;
    assert (log + [e])[..Begun(log)] == log[..Begun(log)];
    assert (log + [e])[..|log| + 1] == log + [e];
  }

  lemma ReachNow(clock: Clock, input: string, log: seq<Entry>)
    requires !AsksForMore(LastCode(log)) && |Texts(log)| <= |input|
    ensures Reach(clock, input, log)
      == |Texts(log)| + Arriving(clock.arrivals, clock.before + |log| + 1, |input| - |Texts(log)|)
  {
    hide Arriving, AsksForMore;
    assert log[..|log|] == log;
  }

  lemma Slice(a: string, b: string, n: nat)
    requires n <= |b|
    ensures (a + b)[|a|..|a| + n] == b[..n]
  {}

  /** A new deadline. */
  lemma NewDeadline(clock: Clock, input: string, log: seq<Entry>, rest: string, timely: string)
    requires !AsksForMore(LastCode(log)) && input == Texts(log) + rest
    requires |timely| == Arriving(clock.arrivals, clock.before + |log| + 1, |rest|) && timely <= rest
    ensures Arrived(clock, input, log, timely)
  {
    hide Reach, Arriving, Texts, AsksForMore, LastCode;
    ReachNow(clock, input, log);
    Slice(Texts(log), rest, |timely|);
  }

  lemma TooLate(clock: Clock, input: string, log: seq<Entry>, timely: string)
    requires Arrived(clock, input, log, timely) && '\n' !in timely && LastCode(log) != 354
    ensures Late(clock, input, log)
  {}
}
