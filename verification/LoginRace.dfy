/** The lockout and the sessions that are already past it: asking the limiter, checking the
    password and reporting the failure are three steps, and other sessions run in between. */
module LoginRace {
  import opened Queue
  import opened AuthLimiter

  /** One key of the limiter; a success clears a user's key and leaves an address's. */
  datatype Config = Config(limits: Limits, maxConnections: nat, clearedBySuccess: bool)

  /** Live connections, and those the limiter let pass that have not reported yet. */
  datatype State = State(control: Control, conns: set<nat>, checking: set<nat>)

  datatype Event =
    | Arrive(c: nat)
    | Leave(c: nat)
    | Pass(c: nat, now: int)      // authBlocked said no
    | Fails(c: nat, now: int)     // a wrong password, recorded
    | Succeeds(c: nat)

  const START := State(NO_CONTROL, {}, {})

  predicate Enabled(cfg: Config, s: State, e: Event) {
    match e
    case Arrive(c) => c !in s.conns && |s.conns| < cfg.maxConnections
    case Leave(c) => c in s.conns
    case Pass(c, now) => c in s.conns && c !in s.checking && !Locked(s.control, now)
    case Fails(c, _) => c in s.checking
    case Succeeds(c) => c in s.checking
  }

  function Apply(cfg: Config, s: State, e: Event): State
    requires Enabled(cfg, s, e)
  {
    match e
    case Arrive(c) => s.(conns := s.conns + {c})
    case Leave(c) => s.(conns := s.conns - {c}, checking := s.checking - {c})
    case Pass(c, _) => s.(checking := s.checking + {c})
    case Fails(c, now) => s.(control := OnFailure(cfg.limits, s.control, now), checking := s.checking - {c})
    case Succeeds(c) =>
      s.(control := if cfg.clearedBySuccess then NO_CONTROL else s.control, checking := s.checking - {c})
  }

  ghost predicate CanRun(cfg: Config, s: State, es: seq<Event>)
    decreases |es|, 0
  {
    es == [] ||
    var n := |es| - 1;
    CanRun(cfg, s, es[..n]) && Enabled(cfg, After(cfg, s, es[..n]), es[n])
  }

  ghost function After(cfg: Config, s: State, es: seq<Event>): State
    requires CanRun(cfg, s, es)
    decreases |es|, 1
  {
    if es == [] then s else
      var n := |es| - 1;
      Apply(cfg, After(cfg, s, es[..n]), es[n])
  }

  predicate ChecksPassword(e: Event) {
    e.Fails? || e.Succeeds?
  }

  /** How often a password was compared. */
  function Checks(es: seq<Event>): nat {
    if es == [] then 0
    else Checks(es[..|es| - 1]) + (if ChecksPassword(es[|es| - 1]) then 1 else 0)
  }

  ghost predicate SlotsInv(cfg: Config, s: State) {
    s.checking <= s.conns && |s.conns| <= cfg.maxConnections
  }

  lemma {:induction false} SlotsKept(cfg: Config, es: seq<Event>)
    requires CanRun(cfg, START, es)
    ensures SlotsInv(cfg, After(cfg, START, es))
  {
    if es != [] {
      SlotsKept(cfg, es[..|es| - 1]);
    }
  }

  /** The event leaves the lock in place. */
  ghost predicate KeepsLock(cfg: Config, e: Event, until: int) {
    && (e.Pass? || e.Fails? ==> e.now < until)
    && (cfg.clearedBySuccess ==> !e.Succeeds?)
  }

  /** While the key is locked nobody new gets past the limiter. */
  lemma {:induction false} LockedChecks(cfg: Config, s: State, es: seq<Event>, until: int)
    requires CanRun(cfg, s, es) && s.control.lockedUntil == Some(until)
    requires forall e :: e in es ==> KeepsLock(cfg, e, until)
    ensures After(cfg, s, es).control == s.control && After(cfg, s, es).checking <= s.checking
    ensures Checks(es) + |After(cfg, s, es).checking| <= |s.checking|
  {
    if es != [] {
      var n := |es| - 1;
      LockedChecks(cfg, s, es[..n], until);
      var t := After(cfg, s, es[..n]);
      assert KeepsLock(cfg, es[n], until);
      var left := Apply(cfg, t, es[n]).checking;
      assert t.checking == left + (t.checking - left);
    }
  }

  lemma Somebody(cfg: Config, s: State, e: Event)
    requires Enabled(cfg, s, e) && e.Succeeds?
    ensures |s.checking| >= 1
  {
    assert s.checking == {e.c} + (s.checking - {e.c});
  }

  lemma LockTakesOneOut(cfg: Config, s: State, lock: Event)
    requires SlotsInv(cfg, s) && Enabled(cfg, s, lock) && lock.Fails? && !Locked(s.control, lock.now)
    requires Locked(OnFailure(cfg.limits, s.control, lock.now), lock.now)
    ensures var s' := Apply(cfg, s, lock);
      && s'.control.lockedUntil == Some(lock.now + cfg.limits.lockoutSeconds * SECOND)
      && |s'.checking| < cfg.maxConnections
  {
    assert s.conns == s.checking + (s.conns - s.checking);
    assert s.checking == {lock.c} + (s.checking - {lock.c});
  }

  lemma ChecksWhileLocked(cfg: Config, s: State, es: seq<Event>, until: int)
    requires CanRun(cfg, s, es) && s.control.lockedUntil == Some(until)
    requires forall k :: 0 <= k < |es| - 1 ==> KeepsLock(cfg, es[k], until)
    requires es != [] ==> KeepsLock(cfg, es[|es| - 1], until) || es[|es| - 1].Succeeds?
    ensures Checks(es) <= |s.checking|
  {
    hide Enabled, Apply, KeepsLock;
    if es != [] {
      var n := |es| - 1;
      forall e | e in es[..n] ensures KeepsLock(cfg, e, until) {
        var k :| 0 <= k < n && es[k] == e;
      }
      if KeepsLock(cfg, es[n], until) {
        LockedChecks(cfg, s, es, until);
      } else {
        LockedChecks(cfg, s, es[..n], until);
        Somebody(cfg, After(cfg, s, es[..n]), es[n]);
      }
    }
  }

  /** The lockout has neither ended nor been lifted before the last event. */
  ghost predicate WhileLocked(cfg: Config, es: seq<Event>, until: int) {
    && (forall k :: 0 <= k < |es| && (es[k].Pass? || es[k].Fails?) ==> es[k].now < until)
    && (cfg.clearedBySuccess ==> forall k :: 0 <= k < |es| - 1 ==> !es[k].Succeeds?)
  }

  /** After the failure that locks a key, until the lockout ends or a success lifts it,
      the password is compared less often than there are connections, that success included. */
  lemma ChecksAfterLockout(cfg: Config, past: seq<Event>, lock: Event, es: seq<Event>)
    requires CanRun(cfg, START, past) && lock.Fails? && Enabled(cfg, After(cfg, START, past), lock)
    requires !Locked(After(cfg, START, past).control, lock.now)
    requires var s := Apply(cfg, After(cfg, START, past), lock); Locked(s.control, lock.now) && CanRun(cfg, s, es)
    requires WhileLocked(cfg, es, lock.now + cfg.limits.lockoutSeconds * SECOND)
    ensures Checks(es) < cfg.maxConnections
  {
    hide Enabled, CanRun, After;
    SlotsKept(cfg, past);
    var before := After(cfg, START, past);
    LockTakesOneOut(cfg, before, lock);
    ChecksWhileLocked(cfg, Apply(cfg, before, lock), es, lock.now + cfg.limits.lockoutSeconds * SECOND);
  }
}
