/** Draining terminates: when nothing new arrives, the workers run out of steps after a
    bounded number of them, whatever fails; when no mark and no claim fails either, every
    message is settled by then. */
module Drain {
  import opened Timestamps
  import opened TimestampOrder
  import opened Backoff
  import opened Queue
  import opened Delivery
  import opened DeliveryInvariant
  import opened DeliveryRuns

  /** A step of the worker pool that does what it is meant to. */
  predicate WorkerStep(e: Event) {
    e.Claim? || e.SendReturns? || e.Record? || e.Decide? || e.Mark?
  }

  /** A step after which a worker has lost its row. */
  predicate LosesRow(e: Event) {
    e.LoseClaim? || e.MarkFails?
  }

  /** A step of the worker pool, failing or not. */
  predicate PoolStep(e: Event) {
    WorkerStep(e) || LosesRow(e)
  }

  /** A start-up that finds something to recover. */
  ghost predicate Recovers(s: State, e: Event) {
    e.Restart? && StuckIds(s.rows, e.olderThan) != {}
  }

  function StepsLeft(worker: Worker, id: string): nat {
    if worker.Busy? && worker.id == id then
      match worker.stage
      case Sending => 4
      case Returned(_) => 3
      case Recorded(_) => 2
      case Marking(_) => 1
    else 0
  }

  /** Steps until the current attempt on a message is marked. */
  ghost function AttemptLeft(workers: seq<Worker>, id: string): nat {
    if workers == [] then 0
    else AttemptLeft(workers[..|workers| - 1], id) + StepsLeft(workers[|workers| - 1], id)
  }

  /** An upper bound on the worker steps a message can still take. */
  ghost function Rank(cfg: Config, s: State, id: string): int
    requires id in s.rows && id in s.history
  {
    if Settled(s.rows[id]) then 0
    else 5 * (cfg.maxAttempts + s.history[id].recoveries - s.rows[id].attempts) + AttemptLeft(s.workers, id)
  }

  ghost predicate NoOrphans(s: State) {
    forall id :: id in s.rows && s.rows[id].status.Processing? ==> AttemptLeft(s.workers, id) > 0
  }

  /** The end of year 9999 is more than one retry delay away. */
  ghost predicate TimeLeft(cfg: Config, s: State) {
    forall w :: 0 <= w < |s.workers| && s.workers[w].Busy? ==> IsInstant(s.workers[w].claimedAt + cfg.max)
  }

  function Subject(s: State, e: Event): string
    requires PoolStep(e) && (!e.Claim? ==> e.w < |s.workers| && s.workers[e.w].Busy?)
  {
    if e.Claim? then e.id else s.workers[e.w].id
  }

  lemma {:induction false} AttemptLeftUpdate(workers: seq<Worker>, w: nat, worker: Worker, id: string)
    requires w < |workers|
    ensures AttemptLeft(workers[w := worker], id) + StepsLeft(workers[w], id)
         == AttemptLeft(workers, id) + StepsLeft(worker, id)
    ensures AttemptLeft(workers, id) >= StepsLeft(workers[w], id)
  {
    var n := |workers| - 1;
    if w < n {
      AttemptLeftUpdate(workers[..n], w, worker, id);
      assert workers[w := worker][..n] == workers[..n][w := worker];
    } else {
      assert workers[w := worker][..n] == workers[..n];
    }
  }

  lemma RankIsNatural(cfg: Config, s: State, id: string)
    requires Inv(cfg, s) && id in s.rows
    ensures 0 <= Rank(cfg, s, id)
    ensures Rank(cfg, s, id) == 0 && NoOrphans(s) ==> Settled(s.rows[id])
  {
    assert RowInv(cfg, s.rows[id], s.history[id]);
  }

  lemma WithinBound(cfg: Config, s: State, id: string)
    requires Inv(cfg, s) && id in s.rows
    ensures s.rows[id].attempts <= cfg.maxAttempts + s.history[id].recoveries
    ensures forall w :: 0 <= w < |s.workers| && s.workers[w].Busy? ==> s.workers[w].attempt >= 1
  {
    hide Before, Delay;
    assert RowInv(cfg, s.rows[id], s.history[id]);
    forall w | 0 <= w < |s.workers| && s.workers[w].Busy? ensures s.workers[w].attempt >= 1 {
      var owned := s.workers[w].id;
      assert RowInv(cfg, s.rows[owned], s.history[owned]);
    }
  }

  /** What a step of worker `w` does to its own message `x` and leaves of the others. */
  ghost predicate MovesOn(s: State, s': State, w: nat, x: string, claim: bool) {
    && w < |s.workers| && |s'.workers| == |s.workers| && s'.workers == s.workers[w := s'.workers[w]]
    && s'.rows.Keys == s.rows.Keys == s.history.Keys == s'.history.Keys && x in s.rows
    && (forall id :: id in s.rows && id != x ==> s'.rows[id] == s.rows[id])
    && (forall id :: id in s.rows ==> s'.history[id].recoveries == s.history[id].recoveries)
    && var row, row', worker, worker' := s.rows[x], s'.rows[x], s.workers[w], s'.workers[w];
    && (worker.Idle? || worker.id == x) && (worker'.Idle? || worker'.id == x)
    && !Settled(row)
    && (if claim
        then row'.attempts == row.attempts + 1 && StepsLeft(worker, x) == 0 && StepsLeft(worker', x) == 4
        else row'.attempts == row.attempts && StepsLeft(worker, x) > StepsLeft(worker', x))
  }

  /** After the step the message is processing exactly when the worker still has it. */
  ghost predicate StillOwned(s': State, w: nat, x: string) {
    w < |s'.workers| && x in s'.rows && (s'.rows[x].status.Processing? <==> s'.workers[w].Busy?)
  }

  lemma ClaimMovesOn(cfg: Config, s: State, e: Event)
    requires Inv(cfg, s) && Enabled(cfg, s, e) && e.Claim?
    ensures MovesOn(s, Apply(cfg, s, e), e.w, e.id, true)
    ensures StillOwned(Apply(cfg, s, e), e.w, e.id)
  {
    hide Before, Delay, StageInv, RowInv, CountersInv;
  }

  lemma MarkMovesOn(cfg: Config, s: State, e: Event)
    requires Inv(cfg, s) && Enabled(cfg, s, e) && e.Mark?
    ensures MovesOn(s, Apply(cfg, s, e), e.w, s.workers[e.w].id, false)
    ensures StillOwned(Apply(cfg, s, e), e.w, s.workers[e.w].id)
  {
    hide Before, Delay, StageInv, RowInv, CountersInv;
  }

  lemma SendMovesOn(cfg: Config, s: State, e: Event)
    requires Inv(cfg, s) && Enabled(cfg, s, e) && e.SendReturns?
    ensures MovesOn(s, Apply(cfg, s, e), e.w, s.workers[e.w].id, false)
    ensures StillOwned(Apply(cfg, s, e), e.w, s.workers[e.w].id)
  {
    hide Before, Delay, StageInv, RowInv, CountersInv;
  }

  lemma DecideMovesOn(cfg: Config, s: State, e: Event)
    requires Inv(cfg, s) && Enabled(cfg, s, e) && e.Decide?
    ensures MovesOn(s, Apply(cfg, s, e), e.w, s.workers[e.w].id, false)
    ensures StillOwned(Apply(cfg, s, e), e.w, s.workers[e.w].id)
  {
    hide Before, Delay, StageInv, RowInv, CountersInv;
  }

  lemma CountMovesOn(cfg: Config, s: State, e: Event)
    requires Inv(cfg, s) && Enabled(cfg, s, e) && e.Record?
    ensures MovesOn(s, Apply(cfg, s, e), e.w, s.workers[e.w].id, false)
    ensures StillOwned(Apply(cfg, s, e), e.w, s.workers[e.w].id)
  {
    hide Before, Delay, StageInv, RowInv, CountersInv;
  }

  lemma LossMovesOn(cfg: Config, s: State, e: Event)
    requires Inv(cfg, s) && Enabled(cfg, s, e) && LosesRow(e)
    ensures MovesOn(s, Apply(cfg, s, e), e.w, s.workers[e.w].id, false)
  {
    hide Before, Delay, StageInv, RowInv, CountersInv;
  }

  lemma WorkerStepEffect(cfg: Config, s: State, e: Event)
    requires Inv(cfg, s) && Enabled(cfg, s, e) && PoolStep(e)
    ensures !e.Claim? ==> e.w < |s.workers| && s.workers[e.w].Busy?
    ensures MovesOn(s, Apply(cfg, s, e), e.w, Subject(s, e), e.Claim?)
    ensures WorkerStep(e) ==> StillOwned(Apply(cfg, s, e), e.w, Subject(s, e))
  {
    hide Apply, Inv, MovesOn, StillOwned, FirstEligible;
    if LosesRow(e) {
      LossMovesOn(cfg, s, e);
    } else if e.Claim? {
      ClaimMovesOn(cfg, s, e);
    } else if e.Mark? {
      MarkMovesOn(cfg, s, e);
    } else if e.SendReturns? {
      SendMovesOn(cfg, s, e);
    } else if e.Decide? {
      DecideMovesOn(cfg, s, e);
    } else {
      CountMovesOn(cfg, s, e);
    }
  }

  /** Every step of a worker, failing ones included, moves its own message down and no
      other message up. */
  lemma StepLowersRank(cfg: Config, s: State, e: Event, id: string)
    requires Inv(cfg, s) && Enabled(cfg, s, e) && PoolStep(e)
    requires id in s.rows && id in s.history
    ensures var s' := Apply(cfg, s, e);
      && (!e.Claim? ==> e.w < |s.workers| && s.workers[e.w].Busy?)
      && id in s'.rows && id in s'.history
      && Rank(cfg, s', id) <= Rank(cfg, s, id) - (if id == Subject(s, e) then 1 else 0)
  {
    hide Enabled, Apply, Inv;
    WorkerStepEffect(cfg, s, e);
    WithinBound(cfg, s, id);
    var s' := Apply(cfg, s, e);
    AttemptLeftUpdate(s.workers, e.w, s'.workers[e.w], id);
    if id != Subject(s, e) {
      NotMine(s.workers[e.w], id);
      NotMine(s'.workers[e.w], id);
    }
  }

  lemma LifeRaisesNoRank(cfg: Config, s: State, e: Event, id: string)
    requires Inv(cfg, s) && Enabled(cfg, s, e) && (e.Crash? || e.Restart?) && !Recovers(s, e)
    requires id in s.rows && id in s.history
    ensures var s' := Apply(cfg, s, e);
      id in s'.rows && id in s'.history && Rank(cfg, s', id) <= Rank(cfg, s, id)
  {
    hide Inv, Before;
    WithinBound(cfg, s, id);
    if e.Crash? {
      NobodyWorks(IdleWorkers(|s.workers|), id);
    } else {
      assert id !in StuckIds(s.rows, e.olderThan);
    }
  }

  lemma NotMine(worker: Worker, id: string)
    requires worker.Idle? || worker.id != id
    ensures StepsLeft(worker, id) == 0
  {}

  lemma StepLeavesNoOrphan(cfg: Config, s: State, e: Event)
    requires Inv(cfg, s) && Enabled(cfg, s, e) && WorkerStep(e) && NoOrphans(s)
    ensures NoOrphans(Apply(cfg, s, e))
  {
    hide Enabled, Apply, Inv;
    WorkerStepEffect(cfg, s, e);
    var s' := Apply(cfg, s, e);
    forall id | id in s'.rows && s'.rows[id].status.Processing? ensures AttemptLeft(s'.workers, id) > 0 {
      AttemptLeftUpdate(s.workers, e.w, s'.workers[e.w], id);
      AttemptLeftUpdate(s'.workers, e.w, s'.workers[e.w], id);
    }
  }

  // ---- All messages together ----

  ghost function Total(cfg: Config, s: State, ids: set<string>): int
    requires ids <= s.rows.Keys && ids <= s.history.Keys
  {
    if ids == {} then 0 else
      var id :| id in ids;
      Rank(cfg, s, id) + Total(cfg, s, ids - {id})
  }

  lemma {:induction false} TotalWithout(cfg: Config, s: State, ids: set<string>, id: string)
    requires ids <= s.rows.Keys && ids <= s.history.Keys && id in ids
    ensures Total(cfg, s, ids) == Rank(cfg, s, id) + Total(cfg, s, ids - {id})
  {
    hide Rank;
    var x :| x in ids && Total(cfg, s, ids) == Rank(cfg, s, x) + Total(cfg, s, ids - {x});
    if x != id {
      TotalWithout(cfg, s, ids - {x}, id);
      TotalWithout(cfg, s, ids - {id}, x);
      assert ids - {x} - {id} == ids - {id} - {x};
    }
  }

  lemma {:induction false} TotalFalls(cfg: Config, s: State, s': State, ids: set<string>, id: string)
    requires ids <= s.rows.Keys && ids <= s.history.Keys && ids <= s'.rows.Keys && ids <= s'.history.Keys
    requires forall x :: x in ids ==> Rank(cfg, s', x) <= Rank(cfg, s, x) - (if x == id then 1 else 0)
    ensures Total(cfg, s', ids) <= Total(cfg, s, ids) - (if id in ids then 1 else 0)
  {
    hide Rank;
    if ids != {} {
      var x :| x in ids;
      TotalWithout(cfg, s, ids, x);
      TotalWithout(cfg, s', ids, x);
      TotalFalls(cfg, s, s', ids - {x}, id);
    }
  }

  lemma {:induction false} TotalIsNatural(cfg: Config, s: State, ids: set<string>)
    requires Inv(cfg, s) && ids <= s.rows.Keys
    ensures Total(cfg, s, ids) >= 0
  {
    hide Rank, Inv;
    assert s.rows.Keys == s.history.Keys by { InvKeys(cfg, s); }
    if ids != {} {
      var x :| x in ids;
      TotalWithout(cfg, s, ids, x);
      RankIsNatural(cfg, s, x);
      TotalIsNatural(cfg, s, ids - {x});
    }
  }

  lemma InvKeys(cfg: Config, s: State)
    requires Inv(cfg, s)
    ensures s.rows.Keys == s.history.Keys
  {}

  /** Pool steps lower the total; crashes and start-ups that recover nothing do not raise it. */
  lemma DrainStepFalls(cfg: Config, s: State, e: Event)
    requires Inv(cfg, s) && Enabled(cfg, s, e) && s.rows.Keys == s.history.Keys
    requires !e.Insert? && !Recovers(s, e)
    ensures var s' := Apply(cfg, s, e);
      && s'.rows.Keys == s.rows.Keys == s'.history.Keys
      && Total(cfg, s', s.rows.Keys) <= Total(cfg, s, s.rows.Keys) - (if PoolStep(e) then 1 else 0)
  {
    hide Inv, Rank, FirstEligible, Delay, Recovered, MovesOn, Total, InterruptionsCounted, RecoveriesCounted;
    var s' := Apply(cfg, s, e);
    if PoolStep(e) {
      WorkerKeys(cfg, s, e);
      forall x | x in s.rows
        ensures Rank(cfg, s', x) <= Rank(cfg, s, x) - (if x == Subject(s, e) then 1 else 0)
      {
        StepLowersRank(cfg, s, e, x);
      }
      TotalFalls(cfg, s, s', s.rows.Keys, Subject(s, e));
    } else {
      forall x | x in s.rows ensures x in s'.rows && x in s'.history && Rank(cfg, s', x) <= Rank(cfg, s, x) {
        LifeRaisesNoRank(cfg, s, e, x);
      }
      LifeKeepsKeys(cfg, s, e);
      NotRaised(cfg, s, s', s.rows.Keys);
    }
  }

  lemma LifeKeepsKeys(cfg: Config, s: State, e: Event)
    requires Enabled(cfg, s, e) && (e.Crash? || e.Restart?)
    ensures Apply(cfg, s, e).rows.Keys == s.rows.Keys && Apply(cfg, s, e).history.Keys == s.history.Keys
  {
    hide Before;
  }

  lemma WorkerKeys(cfg: Config, s: State, e: Event)
    requires Inv(cfg, s) && Enabled(cfg, s, e) && PoolStep(e)
    ensures var s' := Apply(cfg, s, e);
      && s'.rows.Keys == s.rows.Keys == s.history.Keys == s'.history.Keys && s'.up == s.up
      && (!e.Claim? ==> e.w < |s.workers| && s.workers[e.w].Busy?) && Subject(s, e) in s.rows
  {
    WorkerStepEffect(cfg, s, e);
    hide Inv, FirstEligible, Delay;
  }

  lemma NotRaised(cfg: Config, s: State, s': State, ids: set<string>)
    requires ids <= s.rows.Keys && ids <= s.history.Keys && ids <= s'.rows.Keys && ids <= s'.history.Keys
    requires forall x :: x in ids ==> Rank(cfg, s', x) <= Rank(cfg, s, x)
    ensures Total(cfg, s', ids) <= Total(cfg, s, ids)
  {
    hide Rank;
    if ids != {} {
      var x :| x in ids;
      TotalWithout(cfg, s, ids, x);
      TotalWithout(cfg, s', ids, x);
      NotRaised(cfg, s, s', ids - {x});
    }
  }

  /** Nothing arrives and no start-up recovers anything. */
  ghost predicate Undisturbed(cfg: Config, s: State, es: seq<Event>)
    requires CanRun(cfg, s, es)
  {
    es == [] ||
    var n := |es| - 1;
    Undisturbed(cfg, s, es[..n]) && !es[n].Insert? && !Recovers(After(cfg, s, es[..n]), es[n])
  }

  function PoolSteps(es: seq<Event>): nat {
    if es == [] then 0 else PoolSteps(es[..|es| - 1]) + (if PoolStep(es[|es| - 1]) then 1 else 0)
  }

  /** From any state, with orphans or without, whatever fails and however often the process
      dies and comes back: without inserts and recoveries the workers take at most Total
      steps. */
  lemma {:induction false} DrainIsBounded(cfg: Config, s: State, es: seq<Event>)
    requires cfg.maxAttempts > 0 && Inv(cfg, s) && s.rows.Keys == s.history.Keys
    requires CanRun(cfg, s, es) && Undisturbed(cfg, s, es)
    ensures var s' := After(cfg, s, es);
      && Inv(cfg, s') && s'.rows.Keys == s.rows.Keys == s'.history.Keys
      && PoolSteps(es) <= PoolSteps(es) + Total(cfg, s', s.rows.Keys) <= Total(cfg, s, s.rows.Keys)
  {
    hide Enabled, Apply, Inv, Rank, Total, Recovers, PoolStep;
    if es == [] {
      TotalIsNatural(cfg, s, s.rows.Keys);
    } else {
      var n := |es| - 1;
      var t := After(cfg, s, es[..n]);
      DrainIsBounded(cfg, s, es[..n]);
      StepKeeps(cfg, t, es[n]);
      DrainStepFalls(cfg, t, es[n]);
      TotalIsNatural(cfg, Apply(cfg, t, es[n]), s.rows.Keys);
    }
  }

  lemma {:induction false} WorkersDisturbNothing(cfg: Config, s: State, es: seq<Event>)
    requires CanRun(cfg, s, es) && forall e :: e in es ==> WorkerStep(e)
    ensures Undisturbed(cfg, s, es)
  {
    hide Enabled, Apply;
    if es != [] {
      WorkersDisturbNothing(cfg, s, es[..|es| - 1]);
      assert WorkerStep(es[|es| - 1]);
    }
  }

  lemma {:induction false} NoOrphansLeft(cfg: Config, s: State, es: seq<Event>)
    requires cfg.maxAttempts > 0 && Inv(cfg, s) && NoOrphans(s)
    requires CanRun(cfg, s, es) && forall e :: e in es ==> WorkerStep(e)
    ensures Inv(cfg, After(cfg, s, es)) && NoOrphans(After(cfg, s, es))
  {
    hide Enabled, Apply, Inv, NoOrphans;
    if es != [] {
      var n := |es| - 1;
      NoOrphansLeft(cfg, s, es[..n]);
      assert WorkerStep(es[n]);
      StepKeeps(cfg, After(cfg, s, es[..n]), es[n]);
      StepLeavesNoOrphan(cfg, After(cfg, s, es[..n]), es[n]);
    }
  }

  /** While some message is not settled, some worker can take a step. */
  lemma NotDoneCanStep(cfg: Config, s: State, id: string) returns (e: Event)
    requires Inv(cfg, s) && NoOrphans(s) && TimeLeft(cfg, s) && s.up && cfg.concurrency > 0
    requires 0 < cfg.base <= cfg.max && CapFits(cfg.base, cfg.max)
    requires id in s.rows && !Settled(s.rows[id])
    ensures WorkerStep(e) && Enabled(cfg, s, e)
  {
    hide Before, Delay, RowInv, StageInv, FirstEligible;
    if w :| 0 <= w < |s.workers| && s.workers[w].Busy? {
      var worker := s.workers[w];
      match worker.stage
      case Sending => e := SendReturns(w, Delivered);
      case Returned(_) => e := Record(w);
      case Marking(_) => e := Mark(w, worker.claimedAt);
      case Recorded(_) =>
        WithinBound(cfg, s, id);
        DelayMonotone(cfg.base, cfg.max, worker.attempt, worker.attempt);
        e := Decide(w, worker.claimedAt);
    } else {
      NobodyWorks(s.workers, id);
      var now := s.rows[id].nextAttemptAt;
      BeforeWithinASecond(now, now);
      assert Eligible(s.rows, id, now);
      FirstEligibleExists(s.rows, now);
      var first :| first in s.rows && FirstEligible(s.rows, first, now);
      e := Claim(0, now, first);
    }
  }

  lemma {:induction false} NobodyWorks(workers: seq<Worker>, id: string)
    requires forall w :: 0 <= w < |workers| ==> workers[w].Idle?
    ensures AttemptLeft(workers, id) == 0
  {
    if workers != [] {
      NobodyWorks(workers[..|workers| - 1], id);
    }
  }

  /** A drain that cannot be continued has settled every message. */
  lemma DrainEndsSettled(cfg: Config, s: State, es: seq<Event>)
    requires cfg.maxAttempts > 0 && cfg.concurrency > 0
    requires 0 < cfg.base <= cfg.max && CapFits(cfg.base, cfg.max)
    requires Inv(cfg, s) && NoOrphans(s)
    requires CanRun(cfg, s, es) && forall e :: e in es ==> WorkerStep(e)
    requires After(cfg, s, es).up && TimeLeft(cfg, After(cfg, s, es))
    requires forall e :: WorkerStep(e) ==> !Enabled(cfg, After(cfg, s, es), e)
    ensures var s' := After(cfg, s, es);
      s'.rows.Keys == s.rows.Keys && forall id :: id in s'.rows ==> Settled(s'.rows[id])
  {
    hide Enabled, Apply, Inv, NoOrphans, Rank, Settled;
    InvKeys(cfg, s);
    WorkersDisturbNothing(cfg, s, es);
    DrainIsBounded(cfg, s, es);
    NoOrphansLeft(cfg, s, es);
    var s' := After(cfg, s, es);
    forall id | id in s'.rows ensures Settled(s'.rows[id]) {
      if !Settled(s'.rows[id]) {
        var e := NotDoneCanStep(cfg, s', id);
      }
    }
  }

  lemma FreshRank(cfg: Config, s: State, id: string)
    requires Inv(cfg, s) && id in s.rows && s.rows[id].status.Pending? && s.history[id].recoveries == 0
    ensures Rank(cfg, s, id) <= 5 * cfg.maxAttempts
  {
    hide Before, Delay, RowInv, StageInv;
    PendingIsUnowned(cfg, s, id, |s.workers|);
  }

  /** The bound in numbers: five steps for each attempt still allowed. */
  lemma {:induction false} FreshTotal(cfg: Config, s: State, ids: set<string>)
    requires Inv(cfg, s) && ids <= s.rows.Keys && ids <= s.history.Keys
    requires forall id :: id in ids ==> s.rows[id].status.Pending? && s.history[id].recoveries == 0
    ensures Total(cfg, s, ids) <= 5 * cfg.maxAttempts * |ids|
  {
    hide Inv, Rank;
    if ids != {} {
      var x :| x in ids;
      TotalWithout(cfg, s, ids, x);
      FreshRank(cfg, s, x);
      FreshTotal(cfg, s, ids - {x});
      var k := |ids - {x}|;
      assert |ids| == k + 1;
      assert 5 * cfg.maxAttempts * (k + 1) == 5 * cfg.maxAttempts * k + 5 * cfg.maxAttempts;
    }
  }

  lemma {:induction false} PendingIsUnowned(cfg: Config, s: State, id: string, n: nat)
    requires Inv(cfg, s) && id in s.rows && s.rows[id].status.Pending? && n <= |s.workers|
    ensures AttemptLeft(s.workers[..n], id) == 0
    ensures n == |s.workers| ==> AttemptLeft(s.workers, id) == 0
  {
    hide Before, Delay, RowInv, StageInv, CountersInv;
    assert s.workers[..|s.workers|] == s.workers;
    if n > 0 {
      PendingIsUnowned(cfg, s, id, n - 1);
      assert s.workers[..n][..n - 1] == s.workers[..n - 1];
    }
  }

  // ---- Orphans ----

  /** A processing row nobody works on. */
  ghost predicate Orphan(s: State, id: string) {
    id in s.rows && s.rows[id].status.Processing? && AttemptLeft(s.workers, id) == 0
  }

  lemma OrphanRowStays(cfg: Config, s: State, e: Event, id: string)
    requires Inv(cfg, s) && Enabled(cfg, s, e)
    requires id in s.rows && s.rows[id].status.Processing? && (e.Restart? ==> !Stuck(s.rows[id], e.olderThan))
    requires forall w :: 0 <= w < |s.workers| ==> s.workers[w].Idle? || s.workers[w].id != id
    ensures var s' := Apply(cfg, s, e);
      && id in s'.rows && s'.rows[id] == s.rows[id]
      && (forall w :: 0 <= w < |s'.workers| ==> s'.workers[w].Idle? || s'.workers[w].id != id)
  {
    hide Before, Delay, RowInv, StageInv, CountersInv;
  }

  /** Nobody owns the row: the same thing said about the sum and about each worker. */
  lemma {:induction false} NobodyOwns(workers: seq<Worker>, id: string)
    ensures AttemptLeft(workers, id) == 0
       <==> forall w :: 0 <= w < |workers| ==> workers[w].Idle? || workers[w].id != id
  {
    if workers != [] {
      NobodyOwns(workers[..|workers| - 1], id);
    }
  }

  lemma OrphanStep(cfg: Config, s: State, e: Event, id: string)
    requires Inv(cfg, s) && Enabled(cfg, s, e) && Orphan(s, id) && (e.Restart? ==> !Stuck(s.rows[id], e.olderThan))
    ensures var s' := Apply(cfg, s, e); Orphan(s', id) && s'.rows[id] == s.rows[id]
  {
    hide Inv, Enabled, Apply, AttemptLeft, Stuck;
    NobodyOwns(s.workers, id);
    OrphanRowStays(cfg, s, e, id);
    NobodyOwns(Apply(cfg, s, e).workers, id);
  }

  /** A row whose mark failed stays processing and untouched, through crashes and start-ups
      too, as long as no start-up finds it stuck: nothing else ever looks at it again. */
  lemma {:induction false} OrphanWaitsForRecovery(cfg: Config, s: State, es: seq<Event>, id: string)
    requires cfg.maxAttempts > 0 && Inv(cfg, s) && CanRun(cfg, s, es) && Orphan(s, id)
    requires forall e :: e in es && e.Restart? ==> !Stuck(s.rows[id], e.olderThan)
    ensures var s' := After(cfg, s, es); Orphan(s', id) && s'.rows[id] == s.rows[id]
  {
    hide Enabled, Apply, Inv, Orphan, Stuck;
    if es != [] {
      var n := |es| - 1;
      OrphanWaitsForRecovery(cfg, s, es[..n], id);
      RunKeeps(cfg, s, es[..n]);
      assert es[n] in es;
      OrphanStep(cfg, After(cfg, s, es[..n]), es[n], id);
    }
  }

  /** `row` is due at once, and its message may be tried once more. */
  ghost predicate Freed(cfg: Config, row: Row, s: State, id: string, now: Instant) {
    && id in s.rows && id in s.history
    && s.rows[id] == row.(status := Pending, nextAttemptAt := now, updatedAt := now)
    && row.attempts < cfg.maxAttempts + s.history[id].recoveries
  }

  /** And the first start-up that finds it stuck frees it. */
  lemma RecoveryFreesOrphan(cfg: Config, s: State, es: seq<Event>, e: Event, id: string)
    requires cfg.maxAttempts > 0 && Inv(cfg, s) && CanRun(cfg, s, es + [e]) && Orphan(s, id)
    requires forall x :: x in es && x.Restart? ==> !Stuck(s.rows[id], x.olderThan)
    requires e.Restart? && Stuck(s.rows[id], e.olderThan)
    ensures Freed(cfg, s.rows[id], After(cfg, s, es + [e]), id, e.now)
  {
    hide Inv, Enabled, Apply, AttemptLeft, Stuck, Freed;
    assert (es + [e])[..|es|] == es;
    OrphanWaitsForRecovery(cfg, s, es, id);
    RunKeeps(cfg, s, es);
    RestartFrees(cfg, After(cfg, s, es), e, id);
  }

  lemma RestartFrees(cfg: Config, s: State, e: Event, id: string)
    requires cfg.maxAttempts > 0 && Inv(cfg, s) && Enabled(cfg, s, e) && id in s.rows
    requires e.Restart? && Stuck(s.rows[id], e.olderThan)
    ensures Freed(cfg, s.rows[id], Apply(cfg, s, e), id, e.now)
  {
    hide Before, Delay, OwnersInv, CountersInv;
    assert RowInv(cfg, s.rows[id], s.history[id]);
  }
}
