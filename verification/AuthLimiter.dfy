/** The failed-login limiter: a counting window and a lockout per key ("user:..." or
    "ip:...").  Times are nanoseconds. */
module AuthLimiter {
  import opened Queue

  const SECOND: int := 1_000_000_000
  const MINUTE: int := 60 * SECOND

  datatype Limits = Limits(perMinute: nat, lockoutSeconds: nat)

  predicate ValidLimits(l: Limits) {
    l.perMinute > 0 && l.lockoutSeconds > 0
  }

  datatype Control = Control(windowStart: Option<int>, attempts: nat, lockedUntil: Option<int>)

  const NO_CONTROL := Control(None, 0, None)

  predicate Locked(c: Control, now: int) {
    c.lockedUntil.Some? && now < c.lockedUntil.value
  }

  function WithWindow(c: Control, now: int): Control {
    if c.windowStart.None? || now - c.windowStart.value >= MINUTE
    then c.(windowStart := Some(now), attempts := 0)
    else c
  }

  /** One failure at `now`; failures during a lockout leave no trace. */
  function OnFailure(l: Limits, c: Control, now: int): Control {
    if Locked(c, now) then c else
      var open := WithWindow(c, now);
      if open.attempts + 1 >= l.perMinute
      then open.(attempts := 0, lockedUntil := Some(now + l.lockoutSeconds * SECOND))
      else open.(attempts := open.attempts + 1)
  }

  /** The seconds the client is told to wait. */
  function Wait(c: Control, now: int): int
    requires Locked(c, now)
  {
    var whole := (c.lockedUntil.value - now) / SECOND;
    if whole < 1 then 1 else whole
  }

  /** What is left of the lockout in whole seconds, rounded down, but at least one. */
  lemma WaitIsWhatIsLeft(c: Control, now: int)
    requires Locked(c, now)
    ensures var left := c.lockedUntil.value - now;
      if left < SECOND then Wait(c, now) == 1
      else Wait(c, now) * SECOND <= left < (Wait(c, now) + 1) * SECOND
  {}

  // ---- The history of one key ----

  datatype Op = Failure(at: int) | Cleared

  ghost function Replay(l: Limits, ops: seq<Op>): Control {
    if ops == [] then NO_CONTROL
    else
      match ops[|ops| - 1]
      case Failure(at) => OnFailure(l, Replay(l, ops[..|ops| - 1]), at)
      case Cleared => NO_CONTROL
  }

  lemma FailureSteps(l: Limits, c: Control, now: int)
    ensures OnFailure(l, c, now) ==
      if Locked(c, now) then c else
        var open := if c.windowStart.None? || now - c.windowStart.value >= MINUTE
                    then c.(windowStart := Some(now), attempts := 0) else c;
        var counted := open.(attempts := open.attempts + 1);
        if counted.attempts >= l.perMinute
        then counted.(lockedUntil := Some(now + l.lockoutSeconds * SECOND), attempts := 0) else counted
  {}

  lemma ReplayOneMore(l: Limits, ops: seq<Op>, op: Op)
    ensures Replay(l, ops + [op]) ==
      match op
      case Failure(at) => OnFailure(l, Replay(l, ops), at)
      case Cleared => NO_CONTROL
  {
    assert (ops + [op])[..|ops|] == ops;
  }

  class AuthLimiter {
    const limits: Limits
    var authState: map<string, Control>
    ghost var log: map<string, seq<Op>>

    function Get(key: string): Control
      reads this
    {
      if key in authState then authState[key] else NO_CONTROL
    }

    ghost function Log(key: string): seq<Op>
      reads this
    {
      if key in log then log[key] else []
    }

    ghost predicate Valid()
      reads this
    {
      ValidLimits(limits) && forall key :: Get(key) == Replay(limits, Log(key))
    }

    constructor (limits: Limits)
      requires ValidLimits(limits)
      ensures Valid() && this.limits == limits && forall key :: Log(key) == []
    {
      this.limits := limits;
      authState := map[];
      log := map[];
    }

    method AuthBlocked(key: string, now: int) returns (blocked: bool, wait: int)
      ensures blocked <==> Locked(Get(key), now)
      ensures wait == if blocked then Wait(Get(key), now) else 0
    {
      if key !in authState {
        return false, 0;
      }
      var st := authState[key];
      if st.lockedUntil.Some? && now < st.lockedUntil.value {
        wait := (st.lockedUntil.value - now) / SECOND;
        if wait < 1 {
          wait := 1;
        }
        return true, wait;
      }
      return false, 0;
    }

    method RecordAuthFailureKey(key: string, now: int)
      requires Valid()
      modifies this
      ensures Valid() && Log(key) == old(Log(key)) + [Failure(now)]
      ensures forall other :: other != key ==> Log(other) == old(Log(other)) && Get(other) == old(Get(other))
    {
      hide Replay, OnFailure;
      ghost var before := Log(key);
      ReplayOneMore(limits, before, Failure(now));
      FailureSteps(limits, Get(key), now);
      var st := Get(key);
      log := log[key := before + [Failure(now)]];
      if st.lockedUntil.Some? && now < st.lockedUntil.value {
        OneKeyChanged(key);
        return;
      }
      if st.windowStart.None? || now - st.windowStart.value >= MINUTE {
        st := st.(windowStart := Some(now), attempts := 0);
      }
      st := st.(attempts := st.attempts + 1);
      if st.attempts >= limits.perMinute {
        st := st.(lockedUntil := Some(now + limits.lockoutSeconds * SECOND), attempts := 0);
      }
      authState := authState[key := st];
      OneKeyChanged(key);
    }

    /** The other keys are as valid as they were. */
    twostate lemma OneKeyChanged(key: string)
      requires old(Valid()) && Get(key) == Replay(limits, Log(key))
      requires forall other :: other != key ==> Log(other) == old(Log(other)) && Get(other) == old(Get(other))
      ensures Valid()
    {
      hide Replay;
      forall other ensures Get(other) == Replay(limits, Log(other)) {
        assert old(Get(other)) == Replay(limits, old(Log(other)));
      }
    }

    method RecordAuthFailure(username: string, ip: string, now: int)
      requires Valid()
      modifies this
      ensures Valid()
      ensures Log("user:" + username) == old(Log("user:" + username)) + [Failure(now)]
      ensures Log("ip:" + ip) == old(Log("ip:" + ip)) + (if ip != "" then [Failure(now)] else [])
      ensures forall other :: other != "user:" + username && other != "ip:" + ip ==> Log(other) == old(Log(other))
    {
      assert ("user:" + username)[0] != ("ip:" + ip)[0];
      RecordAuthFailureKey("user:" + username, now);
      if ip != "" {
        RecordAuthFailureKey("ip:" + ip, now);
      }
    }

    method ClearAuthState(key: string)
      requires Valid()
      modifies this
      ensures Valid() && Log(key) == old(Log(key)) + [Cleared] && Get(key) == NO_CONTROL
      ensures forall other :: other != key ==> Log(other) == old(Log(other)) && Get(other) == old(Get(other))
    {
      hide Replay;
      ReplayOneMore(limits, Log(key), Cleared);
      log := log[key := Log(key) + [Cleared]];
      authState := authState - {key};
      OneKeyChanged(key);
    }
  }

  // ---- A lockout means the limit was reached ----

  /** Failures counted by the limiter, with times in (from, to]. */
  ghost function CountedBetween(l: Limits, ops: seq<Op>, from: int, to: int): nat {
    if ops == [] then 0 else
      var n := |ops| - 1;
      CountedBetween(l, ops[..n], from, to) +
      (if ops[n].Failure? && !Locked(Replay(l, ops[..n]), ops[n].at) && from < ops[n].at <= to then 1 else 0)
  }

  /** The clock does not go backwards between the failures of one key. */
  ghost predicate Ordered(ops: seq<Op>, until: int) {
    ops == [] ||
    match ops[|ops| - 1]
    case Failure(at) => at <= until && Ordered(ops[..|ops| - 1], at)
    case Cleared => Ordered(ops[..|ops| - 1], until)
  }

  lemma {:induction false} EarlierCountsMore(l: Limits, ops: seq<Op>, from: int, later: int, to: int)
    requires from <= later
    ensures CountedBetween(l, ops, later, to) <= CountedBetween(l, ops, from, to)
  {
    if ops != [] {
      EarlierCountsMore(l, ops[..|ops| - 1], from, later, to);
    }
  }

  lemma {:induction false} AttemptsAreCounted(l: Limits, ops: seq<Op>, until: int, to: int)
    requires ValidLimits(l) && Ordered(ops, until) && until <= to
    ensures var c := Replay(l, ops);
      && c.attempts < l.perMinute
      && (c.windowStart.None? ==> c.attempts == 0)
      && (c.windowStart.Some? ==>
            && c.windowStart.value <= until
            && c.attempts <= CountedBetween(l, ops, c.windowStart.value - 1, to))
  {
    if ops != [] {
      var last := ops[|ops| - 1];
      AttemptsAreCounted(l, ops[..|ops| - 1], if last.Failure? then last.at else until, to);
    }
  }

  /** A lockout at `now` means at least `perMinute` counted failures, this one included,
      in the minute that ends at `now`. */
  lemma LockoutNeedsTheLimit(l: Limits, ops: seq<Op>, now: int)
    requires ValidLimits(l) && Ordered(ops, now)
    requires !Locked(Replay(l, ops), now) && Locked(Replay(l, ops + [Failure(now)]), now)
    ensures CountedBetween(l, ops + [Failure(now)], now - MINUTE, now) >= l.perMinute
  {
    AttemptsAreCounted(l, ops, now, now);
    var c := Replay(l, ops);
    assert (ops + [Failure(now)])[..|ops|] == ops;
    if WithWindow(c, now) == c {
      EarlierCountsMore(l, ops, now - MINUTE, c.windowStart.value - 1, now);
    }
  }

  // ---- How many failures force a lockout ----

  /** All of these failures are counted and none of them locks. */
  ghost predicate NoneLocks(l: Limits, c: Control, times: seq<int>)
    decreases |times|
  {
    times == [] ||
    (&& !Locked(c, times[0]) && !Locked(OnFailure(l, c, times[0]), times[0])
     && NoneLocks(l, OnFailure(l, c, times[0]), times[1..]))
  }

  /** In order, and all within less than a minute. */
  ghost predicate Burst(times: seq<int>) {
    forall i, j :: 0 <= i <= j < |times| ==> times[i] <= times[j] < times[i] + MINUTE
  }

  /** A burst of failures that a key with this history lets through. */
  ghost predicate Escapes(l: Limits, ops: seq<Op>, times: seq<int>) {
    && Burst(times) && (times != [] ==> Ordered(ops, times[0]))
    && NoneLocks(l, Replay(l, ops), times)
  }

  /** The least number of failures within a minute that always locks. */
  function Threshold(l: Limits): nat
    requires ValidLimits(l)
  {
    if l.perMinute == 1 then 1
    else if l.lockoutSeconds < 60 then 2 * l.perMinute - 1
    else 2 * l.perMinute - 2
  }

  lemma {:induction false} OneWindow(l: Limits, c: Control, times: seq<int>)
    requires ValidLimits(l) && c.attempts < l.perMinute && c.windowStart.Some?
    requires forall t :: t in times ==> t - c.windowStart.value < MINUTE
    requires NoneLocks(l, c, times)
    ensures |times| + c.attempts < l.perMinute
    decreases |times|
  {
    if times != [] {
      assert times[0] in times && forall t :: t in times[1..] ==> t in times;
      assert OnFailure(l, c, times[0]) == c.(attempts := c.attempts + 1);
      OneWindow(l, OnFailure(l, c, times[0]), times[1..]);
    }
  }

  /** A burst that starts in an old window can fill that one and one more. */
  lemma {:induction false} TwoWindows(l: Limits, c: Control, times: seq<int>)
    requires ValidLimits(l) && c.attempts < l.perMinute
    requires Burst(times) && NoneLocks(l, c, times)
    ensures |times| + c.attempts <= 2 * (l.perMinute - 1)
    decreases |times|
  {
    if times != [] {
      var c' := OnFailure(l, c, times[0]);
      if c.windowStart.Some? && times[0] - c.windowStart.value < MINUTE {
        assert c' == c.(attempts := c.attempts + 1);
        TwoWindows(l, c', times[1..]);
      } else {
        NewWindow(l, c, times);
      }
    }
  }

  /** A burst that opens a window stays in it. */
  lemma NewWindow(l: Limits, c: Control, times: seq<int>)
    requires ValidLimits(l) && Burst(times) && NoneLocks(l, c, times) && times != []
    requires c.windowStart.None? || times[0] - c.windowStart.value >= MINUTE
    ensures |times| < l.perMinute
  {
    var c' := OnFailure(l, c, times[0]);
    assert c' == c.(windowStart := Some(times[0]), attempts := 1);
    forall t | t in times[1..] ensures t - times[0] < MINUTE {
      var k :| 0 <= k < |times[1..]| && times[1..][k] == t;
      assert times[k + 1] < times[0] + MINUTE;
    }
    OneWindow(l, c', times[1..]);
  }

  /** Whatever happened to the key before, even with a clock that went back, 2 * perMinute - 1
      failures within a minute are not all counted without one of them locking the key. */
  lemma TwiceTheLimitMustLock(l: Limits, ops: seq<Op>, times: seq<int>)
    requires ValidLimits(l) && |times| >= 2 * l.perMinute - 1 && Burst(times)
    ensures !NoneLocks(l, Replay(l, ops), times)
  {
    if NoneLocks(l, Replay(l, ops), times) {
      AttemptsBelowLimit(l, ops);
      TwoWindows(l, Replay(l, ops), times);
    }
  }

  lemma {:induction false} AttemptsBelowLimit(l: Limits, ops: seq<Op>)
    requires ValidLimits(l)
    ensures Replay(l, ops).attempts < l.perMinute
  {
    if ops != [] {
      AttemptsBelowLimit(l, ops[..|ops| - 1]);
    }
  }

  /** A lockout of a minute or more outlasts the window it was triggered in, so a window
      that is open on an unlocked key already holds a failure. */
  lemma {:induction false} LongLockoutsOutlast(l: Limits, ops: seq<Op>, until: int)
    requires ValidLimits(l) && l.lockoutSeconds >= 60 && Ordered(ops, until)
    ensures var c := Replay(l, ops);
      c.windowStart.Some? ==>
        && c.windowStart.value <= until
        && (c.attempts == 0 ==> c.lockedUntil.Some? && c.lockedUntil.value >= c.windowStart.value + MINUTE)
  {
    if ops != [] {
      var last := ops[|ops| - 1];
      LongLockoutsOutlast(l, ops[..|ops| - 1], if last.Failure? then last.at else until);
    }
  }

  lemma MustLock(l: Limits, ops: seq<Op>, times: seq<int>)
    requires ValidLimits(l) && |times| >= Threshold(l)
    ensures !Escapes(l, ops, times)
  {
    if Escapes(l, ops, times) {
      AttemptsBelowLimit(l, ops);
      var c := Replay(l, ops);
      TwoWindows(l, c, times);
      if l.lockoutSeconds >= 60 && l.perMinute > 1 {
        LongLockoutsOutlast(l, ops, times[0]);
        if c.windowStart.None? || times[0] - c.windowStart.value >= MINUTE {
          NewWindow(l, c, times);
        }
      }
    }
  }

  // ---- Fewer may not lock ----

  function Repeat(n: nat, at: int): seq<int> {
    seq(n, _ => at)
  }

  lemma {:induction false} FillWindow(l: Limits, c: Control, n: nat, at: int, times: seq<int>)
    requires ValidLimits(l) && !Locked(c, at) && WithWindow(c, at).attempts + n < l.perMinute
    requires n > 0 ==> NoneLocks(l, WithWindow(c, at).(attempts := WithWindow(c, at).attempts + n), times)
    requires n == 0 ==> NoneLocks(l, c, times)
    ensures NoneLocks(l, c, Repeat(n, at) + times)
    decreases n
  {
    if n == 0 {
      assert Repeat(0, at) + times == times;
    } else {
      var c' := OnFailure(l, c, at);
      var all := Repeat(n, at) + times;
      assert all[0] == at && all[1..] == Repeat(n - 1, at) + times;
      assert WithWindow(c', at) == c';
      FillWindow(l, c', n - 1, at, times);
    }
  }

  ghost function Failures(n: nat, at: int): seq<Op> {
    seq(n, _ => Failure(at))
  }

  lemma {:induction false} FailuresAdd(l: Limits, n: nat, at: int)
    requires ValidLimits(l) && 0 < n < l.perMinute
    ensures Replay(l, Failures(n, at)) == Control(Some(at), n, None)
  {
    assert Failures(n, at)[..n - 1] == Failures(n - 1, at);
    if n > 1 {
      FailuresAdd(l, n - 1, at);
    } else {
      assert Failures(0, at) == [];
    }
  }

  lemma {:induction false} FailuresOrdered(n: nat, at: int, until: int)
    requires at <= until
    ensures Ordered(Failures(n, at), until)
  {
    if n > 0 {
      assert Failures(n, at)[..n - 1] == Failures(n - 1, at);
      FailuresOrdered(n - 1, at, at);
    }
  }

  /** `n` failures at the end of a window and all but one of the limit in the next. */
  lemma AcrossTwoWindows(l: Limits, c: Control, n: nat) returns (times: seq<int>)
    requires ValidLimits(l) && c.windowStart == Some(0) && !Locked(c, MINUTE - 1)
    requires c.attempts + n < l.perMinute
    ensures |times| == n + l.perMinute - 1 && Burst(times) && NoneLocks(l, c, times)
    ensures forall t :: t in times ==> t >= MINUTE - 1
  {
    var late, rest := MINUTE - 1, l.perMinute - 1;
    var full := c.(attempts := c.attempts + n);
    assert WithWindow(c, late) == c;
    assert WithWindow(full, MINUTE) == full.(windowStart := Some(MINUTE), attempts := 0);
    FillWindow(l, full, rest, MINUTE, []);
    assert Repeat(rest, MINUTE) + [] == Repeat(rest, MINUTE);
    FillWindow(l, c, n, late, Repeat(rest, MINUTE));
    times := Repeat(n, late) + Repeat(rest, MINUTE);
  }

  /** The key that lets most through: a short lockout that ended in its own window, or a
      window opened by a single failure. */
  lemma BestHistory(l: Limits) returns (ops: seq<Op>, n: nat)
    requires ValidLimits(l) && l.perMinute > 1
    ensures n + l.perMinute == Threshold(l) && Ordered(ops, MINUTE - 1)
    ensures var c := Replay(l, ops);
      c.windowStart == Some(0) && !Locked(c, MINUTE - 1) && c.attempts + n == l.perMinute - 1
  {
    if l.lockoutSeconds < 60 {
      ops, n := Failures(l.perMinute, 0), l.perMinute - 1;
      assert ops[..l.perMinute - 1] == Failures(l.perMinute - 1, 0);
      FailuresAdd(l, l.perMinute - 1, 0);
      FailuresOrdered(l.perMinute, 0, MINUTE - 1);
      assert Replay(l, ops) == Control(Some(0), 0, Some(l.lockoutSeconds * SECOND));
    } else {
      ops, n := Failures(1, 0), l.perMinute - 2;
      FailuresAdd(l, 1, 0);
      FailuresOrdered(1, 0, MINUTE - 1);
    }
  }

  lemma {:induction false} OrderedLater(ops: seq<Op>, from: int, to: int)
    requires Ordered(ops, from) && from <= to
    ensures Ordered(ops, to)
  {
    if ops != [] && ops[|ops| - 1].Cleared? {
      OrderedLater(ops[..|ops| - 1], from, to);
    }
  }

  lemma {:induction false} FewerLockNeither(l: Limits, c: Control, times: seq<int>, n: nat)
    requires NoneLocks(l, c, times) && n <= |times|
    ensures NoneLocks(l, c, times[..n])
    decreases n
  {
    if n > 0 {
      FewerLockNeither(l, OnFailure(l, c, times[0]), times[1..], n - 1);
      assert times[..n][1..] == times[1..][..n - 1];
    }
  }

  lemma MayEscape(l: Limits, n: nat) returns (ops: seq<Op>, times: seq<int>)
    requires ValidLimits(l) && n < Threshold(l)
    ensures |times| == n && Escapes(l, ops, times)
  {
    if n == 0 {
      ops, times := [], [];
    } else {
      var filled;
      ops, filled := BestHistory(l);
      times := AcrossTwoWindows(l, Replay(l, ops), filled);
      FewerLockNeither(l, Replay(l, ops), times, n);
      assert times[0] in times;
      OrderedLater(ops, MINUTE - 1, times[0]);
      times := times[..n];
    }
  }

  /** The threshold is exact for every configuration: a number of failures within a minute
      can pass without a lockout if and only if it is below the threshold. */
  lemma EscapesExactlyBelow(l: Limits, n: nat)
    requires ValidLimits(l)
    ensures (exists ops, times :: |times| == n && Escapes(l, ops, times)) <==> n < Threshold(l)
  {
    if n < Threshold(l) {
      var ops, times := MayEscape(l, n);
    } else {
      forall ops, times | |times| == n ensures !Escapes(l, ops, times) {
        MustLock(l, ops, times);
      }
    }
  }

  /** What the setting says, perMinute failures in any minute lock the key, is true only
      for a limit of one, and for two with a lockout of a minute or more. */
  lemma LimitPerMinuteHoldsExactlyWhen(l: Limits)
    requires ValidLimits(l)
    ensures (forall ops, times :: |times| == l.perMinute ==> !Escapes(l, ops, times))
       <==> l.perMinute == 1 || (l.perMinute == 2 && l.lockoutSeconds >= 60)
  {
    hide Escapes, Threshold;
    EscapesExactlyBelow(l, l.perMinute);
    assert l.perMinute < Threshold(l) <==> !(l.perMinute == 1 || (l.perMinute == 2 && l.lockoutSeconds >= 60)) by {
      ThresholdAndLimit(l);
    }
  }

  lemma ThresholdAndLimit(l: Limits)
    requires ValidLimits(l)
    ensures l.perMinute < Threshold(l) <==> !(l.perMinute == 1 || (l.perMinute == 2 && l.lockoutSeconds >= 60))
  {}

  /** The default settings in numbers: no key takes 118 counted failures within a minute, and
      the one that locks does so for 300 seconds. */
  lemma DefaultSettings(before: Control, lockedAt: int)
    requires !Locked(before, lockedAt) && Locked(OnFailure(Limits(60, 300), before, lockedAt), lockedAt)
    ensures Threshold(Limits(60, 300)) == 118
    ensures var c := OnFailure(Limits(60, 300), before, lockedAt);
      Locked(c, lockedAt + 299_999_999_999) && !Locked(c, lockedAt + 300_000_000_000) && Wait(c, lockedAt) == 300
  {
    LockoutLastsExactly(Limits(60, 300), before, lockedAt, [], lockedAt + 299_999_999_999);
    LockoutLastsExactly(Limits(60, 300), before, lockedAt, [], lockedAt + 300_000_000_000);
  }

  // ---- The lockout lasts exactly as long as it says ----

  ghost function AfterFailures(l: Limits, c: Control, times: seq<int>): Control
    decreases |times|
  {
    if times == [] then c else AfterFailures(l, OnFailure(l, c, times[0]), times[1..])
  }

  lemma {:induction false} StaysLocked(l: Limits, c: Control, from: int, times: seq<int>)
    requires c.lockedUntil == Some(from + l.lockoutSeconds * SECOND)
    requires forall t :: t in times ==> from <= t < from + l.lockoutSeconds * SECOND
    ensures AfterFailures(l, c, times) == c
    decreases |times|
  {
    if times != [] {
      assert times[0] in times && forall t :: t in times[1..] ==> t in times;
      StaysLocked(l, c, from, times[1..]);
    }
  }

  /** From the failure that locks on, whatever further failures arrive meanwhile, the key
      is blocked exactly for the lockout period, with a wait from 1 to that period. */
  lemma LockoutLastsExactly(l: Limits, before: Control, lockedAt: int, times: seq<int>, now: int)
    requires ValidLimits(l) && lockedAt <= now
    requires !Locked(before, lockedAt) && Locked(OnFailure(l, before, lockedAt), lockedAt)
    requires forall t :: t in times ==> lockedAt <= t < lockedAt + l.lockoutSeconds * SECOND
    ensures var c := AfterFailures(l, OnFailure(l, before, lockedAt), times);
      && (Locked(c, now) <==> now < lockedAt + l.lockoutSeconds * SECOND)
      && (Locked(c, now) ==> 1 <= Wait(c, now) <= l.lockoutSeconds)
  {
    var c := OnFailure(l, before, lockedAt);
    StaysLocked(l, c, lockedAt, times);
    if Locked(c, now) {
      assert c.lockedUntil.value - now <= l.lockoutSeconds * SECOND;
    }
  }
}
