/** The worker pool's code: one pass of `processOne`, run while the other workers, the
    SMTP sessions and the database do whatever they like between its statements. */
module Runner {
  import opened Timestamps
  import opened Backoff
  import opened Queue
  import opened Delivery
  import opened DeliveryInvariant
  import R = DeliveryRuns

  predicate ValidConfig(cfg: Config) {
    cfg.maxAttempts > 0 && 0 < cfg.base <= cfg.max && CapFits(cfg.base, cfg.max)
  }

  predicate ByWorker(e: Event, w: nat) {
    match e
    case Insert(_, _, _) => false
    case Crash => false
    case Restart(_, _) => false
    case _ => e.w == w
  }

  /** The events of `es` that worker `w` takes. */
  function OwnEvents(es: seq<Event>, w: nat): seq<Event> {
    if es == [] then []
    else OwnEvents(es[..|es| - 1], w) + (if ByWorker(es[|es| - 1], w) then [es[|es| - 1]] else [])
  }

  lemma OwnEventsSnoc(es: seq<Event>, e: Event, w: nat)
    ensures OwnEvents(es + [e], w) == OwnEvents(es, w) + (if ByWorker(e, w) then [e] else [])
  {
    assert (es + [e])[..|es|] == es;
  }

  /** One pass of a worker: nothing was claimed, or the claim committed and still reported
      an error, or claim, send, record, decide and mark. */
  predicate OnePass(es: seq<Event>) {
    || es == []
    || (|es| == 2 && es[0].Claim? && es[1].LoseClaim?)
    || (&& |es| == 5 && es[0].Claim? && es[1].SendReturns? && es[2].Record? && es[3].Decide?
        && (es[4].Mark? || es[4].MarkFails?))
  }

  lemma PassShape(es: seq<Event>)
    requires es == [] || (|es| == 2 && es[0].Claim? && es[1].LoseClaim?) ||
      (&& |es| == 5 && es[0].Claim? && es[1].SendReturns? && es[2].Record? && es[3].Decide?
       && (es[4].Mark? || es[4].MarkFails?))
    ensures OnePass(es)
  {}

  /** One call to the mail API: what was handed over, and what came back. */
  datatype SendCall = SendCall(content: Content, outcome: Outcome)

  ghost predicate NothingEligible(rows: Table, now: Instant) {
    forall id :: !Eligible(rows, id, now)
  }

  class Runner {
    const cfg: Config
    const store: SQLiteStore

    var processedCount: nat
    var sentCount: nat
    var retriedCount: nat
    var failedCount: nat

    /** Every call to Send so far, by worker. */
    var sent: map<nat, seq<SendCall>>

    ghost var trace: seq<Event>
    ghost var world: State

    function SentBy(w: nat): seq<SendCall>
      reads this`sent
    {
      if w in sent then sent[w] else []
    }

    /** The store and the counters are where the recorded run of the machine ends. */
    ghost predicate Valid()
      reads this, store
    {
      && ValidConfig(cfg)
      && CanRun(cfg, Start(cfg), trace) && world == After(cfg, Start(cfg), trace)
      && Inv(cfg, world) && world.up
      && store.rows == world.rows
      && Counters(processedCount, sentCount, retriedCount, failedCount) == world.counters
    }

    /** Starts the pool on whatever earlier lives of the relay left in the database,
        after the recovery that main runs first. */
    constructor (cfg: Config, store: SQLiteStore, ghost past: seq<Event>, olderThan: Instant, now: Instant)
      requires ValidConfig(cfg)
      requires CanRun(cfg, Start(cfg), past) && !After(cfg, Start(cfg), past).up
      requires store.rows == Recovered(After(cfg, Start(cfg), past).rows, olderThan, now)
      ensures Valid() && this.cfg == cfg && this.store == store
      ensures trace == past + [Restart(olderThan, now)] && forall w :: SentBy(w) == []
    {
      this.cfg := cfg;
      sent := map[];
      this.store := store;
      processedCount, sentCount, retriedCount, failedCount := 0, 0, 0, 0;
      trace := past + [Restart(olderThan, now)];
      world := Apply(cfg, After(cfg, Start(cfg), past), Restart(olderThan, now));
      new;
      hide Before, Delay, Recovered, RowInv, StageInv, Inv;
      StartInv(cfg);
      RunKeeps(cfg, Start(cfg), past);
      OneMore(cfg, Start(cfg), past, Restart(olderThan, now));
      StepKeeps(cfg, After(cfg, Start(cfg), past), Restart(olderThan, now));
      DownCounters(cfg, past);
    }

    /** Records that the statements just executed were step `e` of the machine. */
    ghost method Took(e: Event, w: nat)
      requires ValidConfig(cfg)
      requires CanRun(cfg, Start(cfg), trace) && world == After(cfg, Start(cfg), trace) && Inv(cfg, world)
      requires Enabled(cfg, world, e)
      modifies this`trace, this`world
      ensures trace == old(trace) + [e] && world == Apply(cfg, old(world), e)
      ensures CanRun(cfg, Start(cfg), trace) && world == After(cfg, Start(cfg), trace) && Inv(cfg, world)
      ensures OwnEvents(trace, w) == OwnEvents(old(trace), w) + (if ByWorker(e, w) then [e] else [])
    {
      hide Enabled, Apply, Inv;
      OneMore(cfg, Start(cfg), trace, e);
      StepKeeps(cfg, world, e);
      OwnEventsSnoc(trace, e, w);
      world := Apply(cfg, world, e);
      trace := trace + [e];
    }

    /** Any steps by anyone but worker `w`, within the life of this process. */
    method Interference(w: nat)
      requires Valid() && w < |world.workers|
      modifies this, store
      ensures Valid() && w < |world.workers| && world.workers[w] == old(world.workers[w])
      ensures old(trace) <= trace && OwnEvents(trace, w) == OwnEvents(old(trace), w)
      ensures SentBy(w) == old(SentBy(w))
    {
    }

    /** time.Now, somewhere before the last retry delay of year 9999. */
    method Now(since: Instant) returns (now: Instant)
      requires IsInstant(since + cfg.max)
      ensures since <= now && IsInstant(now + cfg.max)
    {
      now :| since <= now && IsInstant(now + cfg.max);
    }

    /** The one call that hands the message to the mail API. */
    method Send(w: nat, content: Content) returns (outcome: Outcome)
      requires Valid()
      modifies this`sent
      ensures Valid() && SentBy(w) == old(SentBy(w)) + [SendCall(content, outcome)]
      ensures forall other :: other != w ==> SentBy(other) == old(SentBy(other))
    {
      hide Inv, CanRun, After;
      outcome := *;
      sent := sent[w := SentBy(w) + [SendCall(content, outcome)]];
    }

    lemma WhereTheRunEnds()
      requires Valid()
      ensures CanRun(cfg, Start(cfg), trace) && After(cfg, Start(cfg), trace).rows == store.rows
    {
      hide Inv, CanRun, After;
    }

    /** The pass is part of the run: worker `w` took exactly the steps of one pass.  `now`
        is the time it started, `fault` how the database answered the claim. */
    method ProcessOne(w: nat, now: Instant, fault: Fault) returns (err: bool, ghost pass: seq<Event>)
      requires Valid() && w < |world.workers| && world.workers[w].Idle? && IsInstant(now + cfg.max)
      modifies this, store
      ensures Valid() && w < |world.workers| && world.workers[w].Idle?
      ensures old(trace) <= trace
      ensures OnePass(pass) && OwnEvents(trace, w) == OwnEvents(old(trace), w) + pass
      ensures pass == [] ==> (err <==> !fault.NoFault?) && (fault.Refused? || NothingEligible(store.rows, now))
      ensures pass != [] ==>
        pass[0].now == now && (if fault.NoFault? then |pass| == 5 else fault.TookEffect? && |pass| == 2)
      ensures |pass| == 2 ==> err
      ensures |pass| == 5 && pass[4].MarkFails? ==> err
      ensures |pass| == 5 ==>
        && pass[0].id in store.rows
        && SentBy(w) == old(SentBy(w)) + [SendCall(store.rows[pass[0].id].content, pass[1].outcome)]
      ensures |pass| != 5 ==> SentBy(w) == old(SentBy(w))
    {
      hide *;
      Interference(w);
      var claimed;
      claimed, pass := ClaimStep(w, now, fault);
      if claimed.None? {
        PassShape(pass);
        return !fault.NoFault?, pass;
      }
      ghost var claim, before := Claim(w, now, claimed.value.id), trace;
      WhereTheRunEnds();
      err, pass := Deliver(w, claimed.value, now);
      WhereTheRunEnds();
      ContentAlong(cfg, before, trace, claimed.value.id);
      pass := [claim] + pass;
      PassShape(pass);
    }

    /** The part of processOne from the call to Send on. */
    method Deliver(w: nat, message: Message, now: Instant) returns (err: bool, ghost pass: seq<Event>)
      requires Valid() && w < |world.workers| && IsInstant(now + cfg.max)
      requires world.workers[w] == Busy(message.id, message.content, message.attempts, now, Sending)
      modifies this, store
      ensures Valid() && w < |world.workers| && world.workers[w].Idle?
      ensures old(trace) <= trace && OwnEvents(trace, w) == OwnEvents(old(trace), w) + pass
      ensures |pass| == 4 && pass[0].SendReturns? && pass[1].Record? && pass[2].Decide?
      ensures pass[3].Mark? || (err && pass[3].MarkFails?)
      ensures SentBy(w) == old(SentBy(w)) + [SendCall(message.content, pass[0].outcome)]
    {
      hide Valid, OwnEvents;
      Interference(w);
      var outcome := Send(w, message.content);
      SendStep(w, outcome);
      Interference(w);
      RecordProcessed(w);
      pass := [SendReturns(w, outcome), Record(w)];
      assert OwnEvents(trace, w) == OwnEvents(old(trace), w) + pass;
      ghost var rest;
      err, rest := Settle(w, message, outcome, now);
      pass := pass + rest;
    }

    /** The part of processOne that looks at what Send returned. */
    method Settle(w: nat, message: Message, outcome: Outcome, now: Instant)
      returns (err: bool, ghost pass: seq<Event>)
      requires Valid() && w < |world.workers| && IsInstant(now + cfg.max)
      requires world.workers[w] == Busy(message.id, message.content, message.attempts, now, Recorded(outcome))
      modifies this, store
      ensures Valid() && w < |world.workers| && world.workers[w].Idle?
      ensures old(trace) <= trace && OwnEvents(trace, w) == OwnEvents(old(trace), w) + pass
      ensures |pass| == 2 && pass[0].Decide? && (pass[1].Mark? || (err && pass[1].MarkFails?))
      ensures SentBy(w) == old(SentBy(w))
    {
      hide Valid, OwnEvents;
      Interference(w);
      var decision := DecideStep(w, message, outcome, now);
      pass := [trace[|trace| - 1]];
      Interference(w);
      err := MarkStep(w, message.id, decision, now);
      pass := pass + [trace[|trace| - 1]];
    }

    /** A claim that commits and then reports an error leaves a row nobody works on. */
    method ClaimStep(w: nat, now: Instant, fault: Fault) returns (claimed: Option<Message>, ghost pass: seq<Event>)
      requires Valid() && w < |world.workers| && world.workers[w].Idle?
      modifies this`trace, this`world, store
      ensures Valid() && w < |world.workers|
      ensures trace == old(trace) + pass && OwnEvents(trace, w) == OwnEvents(old(trace), w) + pass
      ensures claimed.None? ==>
        && world.workers[w].Idle?
        && (pass == [] || (fault.TookEffect? && |pass| == 2 && pass[0].Claim? && pass[1] == LoseClaim(w)))
        && (if pass == [] then fault.Refused? || NothingEligible(store.rows, now) else pass[0].now == now)
      ensures claimed.Some? ==>
        && claimed.value.id in store.rows && store.rows[claimed.value.id].content == claimed.value.content
        && fault.NoFault? && pass == [Claim(w, now, claimed.value.id)]
        && world.workers[w] == Busy(claimed.value.id, claimed.value.content, claimed.value.attempts, now, Sending)
    {
      hide Inv, OwnEvents, Enabled, Apply, Before, CanRun, After, Delay;
      claimed := store.ClaimNextPending(now, fault);
      pass := [];
      if claimed.Some? {
        pass := [Claim(w, now, claimed.value.id)];
        ClaimTaken(cfg, world, w, now, claimed.value.id);
        Took(pass[0], w);
      } else if store.rows != world.rows {
        ghost var id :| FirstEligible(world.rows, id, now) && store.rows == Claimed(world.rows, id, now);
        pass := [Claim(w, now, id), LoseClaim(w)];
        ClaimTaken(cfg, world, w, now, id);
        Took(pass[0], w);
        Took(pass[1], w);
      }
    }

    method SendStep(w: nat, outcome: Outcome)
      requires Valid() && w < |world.workers| && world.workers[w].Busy? && world.workers[w].stage.Sending?
      modifies this`trace, this`world
      ensures Valid() && w < |world.workers|
      ensures trace == old(trace) + [SendReturns(w, outcome)]
      ensures OwnEvents(trace, w) == OwnEvents(old(trace), w) + [SendReturns(w, outcome)]
      ensures world.workers[w] == old(world.workers[w]).(stage := Returned(outcome))
    {
      hide Before, Delay, RowInv, StageInv;
      Took(SendReturns(w, outcome), w);
    }

    method RecordProcessed(w: nat)
      requires Valid() && w < |world.workers| && world.workers[w].Busy? && world.workers[w].stage.Returned?
      modifies this`processedCount, this`trace, this`world
      ensures Valid() && w < |world.workers|
      ensures trace == old(trace) + [Record(w)]
      ensures OwnEvents(trace, w) == OwnEvents(old(trace), w) + [Record(w)]
      ensures world.workers[w] == old(world.workers[w]).(stage := Recorded(old(world.workers[w]).stage.outcome))
      ensures processedCount == old(processedCount) + 1
    {
      hide Before, Delay, RowInv, StageInv;
      processedCount := processedCount + 1;
      Took(Record(w), w);
    }

    method DecideStep(w: nat, message: Message, outcome: Outcome, since: Instant) returns (decision: Decision)
      requires Valid() && w < |world.workers| && IsInstant(since + cfg.max)
      requires world.workers[w] == Busy(message.id, message.content, message.attempts, since, Recorded(outcome))
      modifies this`sentCount, this`retriedCount, this`failedCount, this`trace, this`world
      ensures Valid() && w < |world.workers|
      ensures |trace| == |old(trace)| + 1 && old(trace) <= trace
      ensures var last := trace[|trace| - 1];
        && last.Decide? && last.w == w
        && OwnEvents(trace, w) == OwnEvents(old(trace), w) + [last]
      ensures world.workers[w] == old(world.workers[w]).(stage := Marking(decision))
      ensures match decision
              case ToSent => outcome.Delivered?
              case ToFailed => !outcome.Delivered? && (message.attempts >= cfg.maxAttempts || !outcome.Transient?)
              case ToRetry(at) =>
                && 1 <= message.attempts < cfg.maxAttempts && outcome.Transient?
                && at == trace[|trace| - 1].now + Capped(cfg.base, message.attempts - 1, cfg.max)
      ensures sentCount == old(sentCount) + (if decision.ToSent? then 1 else 0)
      ensures failedCount == old(failedCount) + (if decision.ToFailed? then 1 else 0)
      ensures retriedCount == old(retriedCount) + (if decision.ToRetry? then 1 else 0)
    {
      hide Delay, Inv, OwnEvents, Enabled, Apply;
      Attempted(cfg, world, w);
      DelayMonotone(cfg.base, cfg.max, message.attempts, message.attempts);
      if outcome.Delivered? {
        decision := ToSent;
        sentCount := sentCount + 1;
        DecisionTaken(cfg, world, w, since);
        Took(Decide(w, since), w);
      } else if message.attempts >= cfg.maxAttempts || !outcome.Transient? {
        decision := ToFailed;
        failedCount := failedCount + 1;
        DecisionTaken(cfg, world, w, since);
        Took(Decide(w, since), w);
      } else {
        var now := Now(since);
        var delay := BackoffDuration(message.attempts, cfg.base, cfg.max);
        decision := ToRetry(now + delay);
        retriedCount := retriedCount + 1;
        DecisionTaken(cfg, world, w, now);
        Took(Decide(w, now), w);
      }
    }

    method MarkStep(w: nat, id: string, decision: Decision, since: Instant) returns (err: bool)
      requires Valid() && w < |world.workers| && IsInstant(since + cfg.max)
      requires world.workers[w].Busy? && world.workers[w].id == id && world.workers[w].stage == Marking(decision)
      modifies this`trace, this`world, store
      ensures Valid() && w < |world.workers| && world.workers[w].Idle?
      ensures |trace| == |old(trace)| + 1 && old(trace) <= trace
      ensures var last := trace[|trace| - 1];
        && (last.Mark? || (err && last.MarkFails?))
        && OwnEvents(trace, w) == OwnEvents(old(trace), w) + [last]
      ensures if trace[|trace| - 1].MarkFails? then store.rows == old(store.rows) else
        && id in old(store.rows) && id in store.rows && store.rows - {id} == old(store.rows) - {id}
        && var was, row := old(store.rows)[id], store.rows[id];
        && row.content == was.content && row.attempts == was.attempts && row.createdAt == was.createdAt
        && match decision
           case ToSent => row.status.Sent? && row.nextAttemptAt == was.nextAttemptAt
           case ToFailed => row.status.Failed? && row.nextAttemptAt == was.nextAttemptAt
           case ToRetry(at) => row.status.Pending? && row.nextAttemptAt == at
    {
      hide Before, Delay, RowInv, StageInv, Inv;
      var now := Now(since);
      var fault: Fault := *;
      err := !fault.NoFault?;
      OwnedRow(cfg, world, w);
      match decision {
        case ToSent => store.MarkSent(id, now, fault);
        case ToFailed => store.MarkFailed(id, now, fault);
        case ToRetry(at) => store.MarkRetry(id, at, now, fault);
      }
      Took(if fault.Refused? then MarkFails(w) else Mark(w, now), w);
    }
  }

  /** What main does before it starts the pool: recover the stuck rows, and give up when
      that reports an error.  Either way the table is where a run of the machine ends. */
  method StartUp(cfg: Config, store: SQLiteStore, ghost past: seq<Event>,
                 olderThan: Instant, now: Instant, fault: Fault)
    returns (pool: Option<Runner>, ghost trace: seq<Event>)
    requires ValidConfig(cfg) && CanRun(cfg, Start(cfg), past)
    requires var s := After(cfg, Start(cfg), past); !s.up && store.rows == s.rows
    modifies store
    ensures pool.Some? <==> fault.NoFault?
    ensures CanRun(cfg, Start(cfg), trace) && After(cfg, Start(cfg), trace).rows == store.rows
    ensures pool.Some? ==>
      && trace == past + [Restart(olderThan, now)]
      && fresh(pool.value) && pool.value.Valid()
      && pool.value.cfg == cfg && pool.value.store == store && pool.value.trace == trace
    ensures pool.None? ==> past <= trace && !After(cfg, Start(cfg), trace).up
  {
    hide Before, Delay, Recovered, RowInv, StageInv, Inv, CanRun, After;
    trace := past;
    var restart := Restart(olderThan, now);
    OneMore(cfg, Start(cfg), past, restart);
    var recovered := store.RecoverStuckProcessing(olderThan, now, fault);
    if recovered.None? {
      if !fault.Refused? {
        OneMore(cfg, Start(cfg), past + [restart], Crash);
        trace := past + [restart] + [Crash];
      }
      return None, trace;
    }
    trace := past + [restart];
    var runner := new Runner(cfg, store, past, olderThan, now);
    pool := Some(runner);
  }

  /** A relay that is down has no counters left. */
  lemma {:induction false} DownCounters(cfg: Config, es: seq<Event>)
    requires CanRun(cfg, Start(cfg), es) && !After(cfg, Start(cfg), es).up
    ensures After(cfg, Start(cfg), es).counters == Counters(0, 0, 0, 0)
  {
    hide Before, Delay, Recovered, CanRun;
    if es != [] {
      LastStep(cfg, es);
      var n := |es| - 1;
      if !After(cfg, Start(cfg), es[..n]).up {
        DownCounters(cfg, es[..n]);
      }
    }
  }

  /** No later step touches the content of a row. */
  lemma {:induction false} ContentAlong(cfg: Config, es: seq<Event>, longer: seq<Event>, id: string)
    requires CanRun(cfg, Start(cfg), es) && CanRun(cfg, Start(cfg), longer) && es <= longer
    requires id in After(cfg, Start(cfg), es).rows
    ensures var s, s' := After(cfg, Start(cfg), es), After(cfg, Start(cfg), longer);
      id in s'.rows && s'.rows[id].content == s.rows[id].content
  {
    hide Enabled, Apply;
    if es != longer {
      var n := |longer| - 1;
      assert es <= longer[..n];
      ContentAlong(cfg, es, longer[..n], id);
      R.ContentStep(cfg, After(cfg, Start(cfg), longer[..n]), longer[n], id);
    }
  }

  lemma LastStep(cfg: Config, es: seq<Event>)
    requires CanRun(cfg, Start(cfg), es) && es != []
    ensures var n := |es| - 1;
      && CanRun(cfg, Start(cfg), es[..n]) && Enabled(cfg, After(cfg, Start(cfg), es[..n]), es[n])
      && After(cfg, Start(cfg), es) == Apply(cfg, After(cfg, Start(cfg), es[..n]), es[n])
  {
    hide Enabled, Apply;
  }

  lemma ClaimTaken(cfg: Config, s: State, w: nat, now: Instant, id: string)
    requires s.up && w < |s.workers| && s.workers[w].Idle? && FirstEligible(s.rows, id, now)
    ensures Enabled(cfg, s, Claim(w, now, id)) && Enabled(cfg, Apply(cfg, s, Claim(w, now, id)), LoseClaim(w))
    ensures var s' := Apply(cfg, s, Claim(w, now, id));
      && s'.up && s'.rows == Claimed(s.rows, id, now) && s'.counters == s.counters && |s'.workers| == |s.workers|
      && s'.workers[w] == Busy(id, s.rows[id].content, s.rows[id].attempts + 1, now, Sending)
    ensures var s' := Apply(cfg, Apply(cfg, s, Claim(w, now, id)), LoseClaim(w));
      && s'.up && s'.rows == Claimed(s.rows, id, now) && s'.counters == s.counters && |s'.workers| == |s.workers|
      && s'.workers[w].Idle?
  {
    hide Before;
  }

  /** The machine's decision, branch by branch. */
  lemma DecisionTaken(cfg: Config, s: State, w: nat, now: Instant)
    requires InStage(s, w) && s.workers[w].stage.Recorded? && s.workers[w].claimedAt <= now
    requires Retries(cfg, s.workers[w].attempt, s.workers[w].stage.outcome) ==>
      IsInstant(now + Delay(s.workers[w].attempt, cfg.base, cfg.max))
    ensures Enabled(cfg, s, Decide(w, now))
    ensures var s', worker, c := Apply(cfg, s, Decide(w, now)), s.workers[w], s.counters;
      && s'.up && s'.rows == s.rows && |s'.workers| == |s.workers|
      && if worker.stage.outcome.Delivered? then
           s'.workers[w] == worker.(stage := Marking(ToSent)) && s'.counters == c.(sent := c.sent + 1)
         else if worker.attempt >= cfg.maxAttempts || !worker.stage.outcome.Transient? then
           s'.workers[w] == worker.(stage := Marking(ToFailed)) && s'.counters == c.(failed := c.failed + 1)
         else
           && s'.workers[w] == worker.(stage := Marking(ToRetry(now + Delay(worker.attempt, cfg.base, cfg.max))))
           && s'.counters == c.(retried := c.retried + 1)
  {
    hide Delay;
  }

  lemma OwnedRow(cfg: Config, s: State, w: nat)
    requires Inv(cfg, s) && w < |s.workers| && s.workers[w].Busy?
    ensures s.workers[w].id in s.rows
  {}

  lemma Attempted(cfg: Config, s: State, w: nat)
    requires Inv(cfg, s) && w < |s.workers| && s.workers[w].Busy?
    ensures s.workers[w].attempt >= 1
  {
    hide Before, Delay;
    var id := s.workers[w].id;
    assert RowInv(cfg, s.rows[id], s.history[id]);
  }
}
