/** What the invariant says about whole runs, with sends, claims and recoveries counted
    on the run itself. */
module DeliveryRuns {
  import opened Timestamps
  import opened TimestampOrder
  import opened Backoff
  import opened Queue
  import opened Delivery
  import opened DeliveryInvariant

  // ---- Counting what happens in a run ----

  predicate SendsFor(s: State, e: Event, id: string) {
    e.SendReturns? && InStage(s, e.w) && s.workers[e.w].id == id
  }

  predicate DeliversTo(s: State, e: Event, id: string) {
    SendsFor(s, e, id) && e.outcome.Delivered?
  }

  /** The process dies while a worker is sending the message. */
  predicate InterruptsSend(s: State, e: Event, id: string) {
    e.Crash? && SendingFor(s.workers, id)
  }

  predicate ClaimsRow(s: State, e: Event, id: string) {
    e.Claim? && e.id == id
  }

  predicate RecoversRow(s: State, e: Event, id: string) {
    e.Restart? && id in s.rows && Stuck(s.rows[id], e.olderThan)
  }

  /** A worker decides to try the message again later. */
  predicate RetriesLater(cfg: Config, s: State, e: Event, id: string) {
    && e.Decide? && InStage(s, e.w) && s.workers[e.w].id == id && s.workers[e.w].stage.Recorded?
    && s.workers[e.w].stage.outcome.Transient? && s.workers[e.w].attempt < cfg.maxAttempts
  }

  ghost function Count(cfg: Config, s: State, es: seq<Event>, what: (State, Event) -> bool): nat
    requires CanRun(cfg, s, es)
  {
    if es == [] then 0 else
      var n := |es| - 1;
      Count(cfg, s, es[..n], what) + (if what(After(cfg, s, es[..n]), es[n]) then 1 else 0)
  }

  ghost function Sends(cfg: Config, es: seq<Event>, id: string): nat
    requires CanRun(cfg, Start(cfg), es)
  {
    Count(cfg, Start(cfg), es, (s, e) => DeliversTo(s, e, id))
  }

  ghost function Interruptions(cfg: Config, es: seq<Event>, id: string): nat
    requires CanRun(cfg, Start(cfg), es)
  {
    Count(cfg, Start(cfg), es, (s, e) => InterruptsSend(s, e, id))
  }

  ghost function Claims(cfg: Config, es: seq<Event>, id: string): nat
    requires CanRun(cfg, Start(cfg), es)
  {
    Count(cfg, Start(cfg), es, (s, e) => ClaimsRow(s, e, id))
  }

  ghost function Recoveries(cfg: Config, es: seq<Event>, id: string): nat
    requires CanRun(cfg, Start(cfg), es)
  {
    Count(cfg, Start(cfg), es, (s, e) => RecoversRow(s, e, id))
  }

  /** When each claim of the message was made and how often its row had been recovered. */
  ghost function ClaimLog(cfg: Config, es: seq<Event>, id: string): seq<ClaimRecord>
    requires CanRun(cfg, Start(cfg), es)
  {
    if es == [] then [] else
      var n := |es| - 1;
      ClaimLog(cfg, es[..n], id) +
      (if ClaimsRow(After(cfg, Start(cfg), es[..n]), es[n], id)
       then [ClaimRecord(es[n].now, Recoveries(cfg, es[..n], id))] else [])
  }

  /** Every returned call to Send for the message: its outcome, the content the worker
      passed to it, and the attempt it was. */
  ghost function SendLog(cfg: Config, es: seq<Event>, id: string): seq<SendRecord>
    requires CanRun(cfg, Start(cfg), es)
  {
    if es == [] then [] else
      var n := |es| - 1;
      SendLog(cfg, es[..n], id) + SentBy(After(cfg, Start(cfg), es[..n]), es[n], id)
  }

  ghost function SentBy(s: State, e: Event, id: string): seq<SendRecord> {
    if SendsFor(s, e, id)
    then [SendRecord(e.outcome, s.workers[e.w].content, s.workers[e.w].attempt)] else []
  }

  /** When it was decided to try the message again. */
  ghost function RetryLog(cfg: Config, es: seq<Event>, id: string): seq<Instant>
    requires CanRun(cfg, Start(cfg), es)
  {
    if es == [] then [] else
      var n := |es| - 1;
      RetryLog(cfg, es[..n], id) + RetryBy(cfg, After(cfg, Start(cfg), es[..n]), es[n], id)
  }

  ghost function RetryBy(cfg: Config, s: State, e: Event, id: string): seq<Instant> {
    if RetriesLater(cfg, s, e, id) then [e.now] else []
  }

  lemma Reached(cfg: Config, es: seq<Event>)
    requires cfg.maxAttempts > 0 && CanRun(cfg, Start(cfg), es)
    ensures Inv(cfg, After(cfg, Start(cfg), es))
  {
    StartInv(cfg);
    RunKeeps(cfg, Start(cfg), es);
  }

  predicate Concerns(s: State, e: Event, id: string) {
    SendsFor(s, e, id) || InterruptsSend(s, e, id) || ClaimsRow(s, e, id) || RecoversRow(s, e, id)
  }

  /** The history grows by exactly what the step did to the message. */
  ghost predicate Followed(cfg: Config, s: State, s': State, e: Event, id: string) {
    if id in s.history then
      && id in s'.history
      && var h, h' := s.history[id], s'.history[id];
      && h'.sends == h.sends + SentBy(s, e, id)
      && h'.retries == h.retries + RetryBy(cfg, s, e, id)
      && h'.claims == h.claims + (if ClaimsRow(s, e, id) then [ClaimRecord(e.now, h.recoveries)] else [])
      && h'.recoveries == h.recoveries + (if RecoversRow(s, e, id) then 1 else 0)
      && h'.interrupted == h.interrupted + (if InterruptsSend(s, e, id) then 1 else 0)
    else
      && !Concerns(s, e, id) && !RetriesLater(cfg, s, e, id)
      && (id in s'.history ==>
            var h := s'.history[id];
            h.claims == [] && h.sends == [] && h.retries == [] && h.recoveries == 0 && h.interrupted == 0)
  }

  lemma LifeFollowed(cfg: Config, s: State, e: Event, id: string)
    requires Inv(cfg, s) && Enabled(cfg, s, e) && (e.Crash? || e.Restart?)
    ensures Followed(cfg, s, Apply(cfg, s, e), e, id)
  {
    hide Before, Delay, RowInv, StageInv;
  }

  lemma WorkFollowed(cfg: Config, s: State, e: Event, id: string)
    requires Inv(cfg, s) && Enabled(cfg, s, e) && !e.Crash? && !e.Restart?
    ensures Followed(cfg, s, Apply(cfg, s, e), e, id)
  {
    hide Before, Delay, RowInv, StageInv, Marked, InterruptionsCounted, RecoveriesCounted, SendingFor, Stuck;
  }

  lemma StepCounts(cfg: Config, s: State, e: Event, id: string)
    requires Inv(cfg, s) && Enabled(cfg, s, e)
    ensures Followed(cfg, s, Apply(cfg, s, e), e, id)
    ensures id in s.history ==>
      && id in Apply(cfg, s, e).history
      && Deliveries(Apply(cfg, s, e).history[id].sends)
           == Deliveries(s.history[id].sends) + (if DeliversTo(s, e, id) then 1 else 0)
  {
    hide Inv, Enabled, Apply, InterruptsSend, ClaimsRow, RecoversRow;
    if e.Crash? || e.Restart? {
      LifeFollowed(cfg, s, e, id);
    } else {
      WorkFollowed(cfg, s, e, id);
    }
    if id in s.history {
      if SendsFor(s, e, id) {
        DeliveriesSnoc(s.history[id].sends, SentBy(s, e, id)[0]);
      } else {
        assert s.history[id].sends + [] == s.history[id].sends;
      }
    }
  }

  /** The recorded history of a message is exactly what happened in the run. */
  lemma {:induction false} HistoryIsTrue(cfg: Config, es: seq<Event>, id: string)
    requires cfg.maxAttempts > 0 && CanRun(cfg, Start(cfg), es)
    ensures var s := After(cfg, Start(cfg), es);
      && (id in s.history ==>
            && s.history[id].sends == SendLog(cfg, es, id)
            && s.history[id].retries == RetryLog(cfg, es, id)
            && Deliveries(s.history[id].sends) == Sends(cfg, es, id)
            && |s.history[id].claims| == Claims(cfg, es, id)
            && s.history[id].claims == ClaimLog(cfg, es, id)
            && s.history[id].recoveries == Recoveries(cfg, es, id)
            && s.history[id].interrupted == Interruptions(cfg, es, id))
      && (id !in s.history ==>
            && Sends(cfg, es, id) == 0 && Interruptions(cfg, es, id) == 0 && Claims(cfg, es, id) == 0
            && SendLog(cfg, es, id) == [] && RetryLog(cfg, es, id) == []
            && ClaimLog(cfg, es, id) == [] && Recoveries(cfg, es, id) == 0)
  {
    hide Enabled, Apply, Inv, ClaimsRow, RecoversRow, InterruptsSend, Deliveries;
    if es != [] {
      var n := |es| - 1;
      HistoryIsTrue(cfg, es[..n], id);
      Reached(cfg, es[..n]);
      StepCounts(cfg, After(cfg, Start(cfg), es[..n]), es[n], id);
      NoSends();
    }
  }

  lemma NoSends()
    ensures Deliveries([]) == 0
  {}

  // ---- Theorems ----

  /** At most one delivery per message, plus one for each recovery of its row, even if every
      Send that the process died in went through. */
  lemma AtMostOneDeliveryPerRecovery(cfg: Config, es: seq<Event>, id: string)
    requires cfg.maxAttempts > 0 && CanRun(cfg, Start(cfg), es)
    ensures Sends(cfg, es, id) + Interruptions(cfg, es, id) <= 1 + Recoveries(cfg, es, id)
  {
    hide Enabled, Apply, Sends, Interruptions, Recoveries, Claims;
    Reached(cfg, es);
    HistoryIsTrue(cfg, es, id);
  }

  /** attempts counts the claims; it stays within the limit plus the recoveries, strictly
      below while there is still something to try. */
  lemma AttemptsAreClaims(cfg: Config, es: seq<Event>, id: string)
    requires cfg.maxAttempts > 0 && CanRun(cfg, Start(cfg), es) && id in After(cfg, Start(cfg), es).rows
    ensures var row := After(cfg, Start(cfg), es).rows[id];
      && row.attempts == Claims(cfg, es, id) <= cfg.maxAttempts + Recoveries(cfg, es, id)
      && (row.status.Pending? ==> row.attempts < cfg.maxAttempts + Recoveries(cfg, es, id))
  {
    hide Enabled, Apply, Sends, Interruptions, Recoveries, Claims;
    Reached(cfg, es);
    HistoryIsTrue(cfg, es, id);
  }

  /** A processing row has at most one owner, any other row has none. */
  lemma OneOwner(cfg: Config, es: seq<Event>, v: nat, w: nat)
    requires cfg.maxAttempts > 0 && CanRun(cfg, Start(cfg), es)
    requires var s := After(cfg, Start(cfg), es); v < |s.workers| && w < |s.workers|
    requires var s := After(cfg, Start(cfg), es); s.workers[v].Busy? && s.workers[w].Busy?
    ensures var s := After(cfg, Start(cfg), es);
      && (v != w ==> s.workers[v].id != s.workers[w].id)
      && s.workers[v].id in s.rows && s.rows[s.workers[v].id].status.Processing?
  {
    hide Enabled, Apply;
    Reached(cfg, es);
  }

  predicate Settled(row: Row) {
    row.status.Sent? || row.status.Failed?
  }

  lemma SettledStep(cfg: Config, s: State, e: Event, id: string)
    requires Inv(cfg, s) && Enabled(cfg, s, e) && id in s.rows && Settled(s.rows[id])
    ensures var s' := Apply(cfg, s, e); id in s'.rows && s'.rows[id] == s.rows[id]
    ensures !SendsFor(s, e, id) && !ClaimsRow(s, e, id) && !InterruptsSend(s, e, id)
  {
    hide Before, Delay, RowInv, StageInv;
  }

  /** Sent and failed are final although no mark looks at the status it overwrites: the
      whole row is frozen, and its message is never claimed or sent again. */
  lemma {:induction false} SettledForever(cfg: Config, s: State, es: seq<Event>, id: string)
    requires cfg.maxAttempts > 0 && Inv(cfg, s) && CanRun(cfg, s, es) && id in s.rows && Settled(s.rows[id])
    ensures var s' := After(cfg, s, es); id in s'.rows && s'.rows[id] == s.rows[id]
    ensures Count(cfg, s, es, (t, e) => SendsFor(t, e, id)) == 0
    ensures Count(cfg, s, es, (t, e) => ClaimsRow(t, e, id)) == 0
    ensures Count(cfg, s, es, (t, e) => InterruptsSend(t, e, id)) == 0
  {
    hide Enabled, Apply, Inv, SendsFor, ClaimsRow, InterruptsSend;
    if es != [] {
      var n := |es| - 1;
      SettledForever(cfg, s, es[..n], id);
      RunKeeps(cfg, s, es[..n]);
      SettledStep(cfg, After(cfg, s, es[..n]), es[n], id);
    }
  }

  /** A sent message was delivered, a failed one was refused for good or tried often
      enough, and every call to Send got the content that was inserted. */
  lemma SettledForAReason(cfg: Config, es: seq<Event>, id: string)
    requires cfg.maxAttempts > 0 && CanRun(cfg, Start(cfg), es) && id in After(cfg, Start(cfg), es).rows
    ensures var s := After(cfg, Start(cfg), es);
      && (s.rows[id].status.Sent? ==>
            && SendLog(cfg, es, id) != [] && SendLog(cfg, es, id)[|SendLog(cfg, es, id)| - 1].outcome.Delivered?
            && Sends(cfg, es, id) >= 1)
      && (s.rows[id].status.Failed? ==> GivenUp(cfg, SendLog(cfg, es, id)))
      && (forall r :: r in SendLog(cfg, es, id) ==> r.content == s.rows[id].content)
  {
    hide Enabled, Apply, Sends, Interruptions, SendLog, Recoveries, Claims;
    Reached(cfg, es);
    HistoryIsTrue(cfg, es, id);
  }

  /** A row never claimed is still as it was inserted: pending, untried, due at its creation. */
  lemma UnclaimedIsDue(cfg: Config, es: seq<Event>, id: string)
    requires cfg.maxAttempts > 0 && CanRun(cfg, Start(cfg), es) && id in After(cfg, Start(cfg), es).rows
    requires Claims(cfg, es, id) == 0
    ensures var row := After(cfg, Start(cfg), es).rows[id];
      row == Row(row.content, Pending, 0, row.createdAt, row.createdAt, row.createdAt)
  {
    hide Enabled, Apply, Sends, Interruptions, SendLog, Recoveries, Claims;
    Reached(cfg, es);
    HistoryIsTrue(cfg, es, id);
    assert RowInv(cfg, After(cfg, Start(cfg), es).rows[id], After(cfg, Start(cfg), es).history[id]);
  }

  /** A pending row that was claimed, and not recovered since, failed for the moment only
      and has an attempt left. */
  lemma RetriedForAReason(cfg: Config, es: seq<Event>, id: string)
    requires cfg.maxAttempts > 0 && CanRun(cfg, Start(cfg), es) && id in After(cfg, Start(cfg), es).rows
    requires After(cfg, Start(cfg), es).rows[id].status.Pending? && Claims(cfg, es, id) > 0
    requires var claims := ClaimLog(cfg, es, id);
      claims != [] && claims[|claims| - 1].recoveries == Recoveries(cfg, es, id)
    ensures var row, sends := After(cfg, Start(cfg), es).rows[id], SendLog(cfg, es, id);
      && row.attempts < cfg.maxAttempts && sends != []
      && sends[|sends| - 1].outcome.Transient? && sends[|sends| - 1].attempt == row.attempts
  {
    hide Enabled, Apply, Sends, Interruptions, SendLog, Recoveries, Claims, ClaimLog;
    Reached(cfg, es);
    HistoryIsTrue(cfg, es, id);
    assert RowInv(cfg, After(cfg, Start(cfg), es).rows[id], After(cfg, Start(cfg), es).history[id]);
  }

  /** Such a row is due the capped delay after the last decision to try again. */
  lemma RetriesAreDueOnTime(cfg: Config, es: seq<Event>, id: string)
    requires cfg.maxAttempts > 0 && CanRun(cfg, Start(cfg), es) && id in After(cfg, Start(cfg), es).rows
    requires 0 < cfg.base <= cfg.max && CapFits(cfg.base, cfg.max)
    requires After(cfg, Start(cfg), es).rows[id].status.Pending? && Claims(cfg, es, id) > 0
    requires var claims := ClaimLog(cfg, es, id);
      claims != [] && claims[|claims| - 1].recoveries == Recoveries(cfg, es, id)
    ensures var row, times := After(cfg, Start(cfg), es).rows[id], RetryLog(cfg, es, id);
      times != [] && row.nextAttemptAt == times[|times| - 1] + Capped(cfg.base, Claims(cfg, es, id) - 1, cfg.max)
  {
    hide Enabled, Apply, Sends, Interruptions, SendLog, RetryLog, Recoveries, Claims, ClaimLog, Delay, Capped;
    Reached(cfg, es);
    HistoryIsTrue(cfg, es, id);
    DelayCorrectExactlyWhen(cfg.base, cfg.max);
    var row := After(cfg, Start(cfg), es).rows[id];
    assert RowInv(cfg, row, After(cfg, Start(cfg), es).history[id]);
    assert Delay(row.attempts, cfg.base, cfg.max) == Capped(cfg.base, row.attempts - 1, cfg.max);
  }

  /** A start-up recovers only rows whose last claim lies in a second no later than the
      cutoff's. */
  lemma RecoveredOnlyWhenOld(cfg: Config, es: seq<Event>, e: Event, id: string)
    requires cfg.maxAttempts > 0 && CanRun(cfg, Start(cfg), es)
    requires Enabled(cfg, After(cfg, Start(cfg), es), e) && RecoversRow(After(cfg, Start(cfg), es), e, id)
    ensures var claims := ClaimLog(cfg, es, id);
      claims != [] && SecondOf(claims[|claims| - 1].at) <= SecondOf(e.olderThan)
  {
    hide Enabled, Apply, Sends, Interruptions, SendLog, Recoveries, Claims, ClaimLog, Before;
    Reached(cfg, es);
    HistoryIsTrue(cfg, es, id);
    var row := After(cfg, Start(cfg), es).rows[id];
    assert RowInv(cfg, row, After(cfg, Start(cfg), es).history[id]);
    BeforeWithinASecond(row.updatedAt, e.olderThan);
  }

  /** No step of any kind removes a row or touches its content. */
  lemma {:induction false} ContentNeverChanges(cfg: Config, s: State, es: seq<Event>, id: string)
    requires CanRun(cfg, s, es) && id in s.rows
    ensures var s' := After(cfg, s, es);
      id in s'.rows && s'.rows[id].content == s.rows[id].content && s'.rows[id].createdAt == s.rows[id].createdAt
  {
    hide Enabled, Apply;
    if es != [] {
      var n := |es| - 1;
      ContentNeverChanges(cfg, s, es[..n], id);
      ContentStep(cfg, After(cfg, s, es[..n]), es[n], id);
    }
  }

  lemma ContentStep(cfg: Config, s: State, e: Event, id: string)
    requires Enabled(cfg, s, e) && id in s.rows
    ensures var s' := Apply(cfg, s, e);
      id in s'.rows && s'.rows[id].content == s.rows[id].content && s'.rows[id].createdAt == s.rows[id].createdAt
  {
    hide Before, Delay;
  }

  /** Without a recovery in between, claim k + 1 of a message comes more than
      min(base * 2^(k-1), max) less one second after claim k. */
  lemma ClaimsAreSpaced(cfg: Config, es: seq<Event>, id: string, k: nat)
    requires cfg.maxAttempts > 0 && CanRun(cfg, Start(cfg), es)
    requires 0 < cfg.base <= cfg.max && CapFits(cfg.base, cfg.max)
    requires var claims := ClaimLog(cfg, es, id);
      1 <= k < |claims| && claims[k - 1].recoveries == claims[k].recoveries
    ensures var claims := ClaimLog(cfg, es, id);
      claims[k].at - claims[k - 1].at > Capped(cfg.base, k - 1, cfg.max) - NANOS
  {
    hide Enabled, Apply, Delay, Capped, ClaimLog;
    Reached(cfg, es);
    HistoryIsTrue(cfg, es, id);
    DelayCorrectExactlyWhen(cfg.base, cfg.max);
    var s := After(cfg, Start(cfg), es);
    assert RowInv(cfg, s.rows[id], s.history[id]);
    var claims := s.history[id].claims;
    assert claims[k - 1].recoveries == claims[k - 1 + 1].recoveries;
    assert Delay(k, cfg.base, cfg.max) == Capped(cfg.base, k - 1, cfg.max);
  }

  // ---- Counters and conservation ----

  /** The four counters differ only by the workers between two of their updates. */
  lemma CountersAddUp(cfg: Config, es: seq<Event>)
    requires cfg.maxAttempts > 0 && CanRun(cfg, Start(cfg), es)
    ensures var s := After(cfg, Start(cfg), es);
      s.counters.processed == s.counters.sent + s.counters.retried + s.counters.failed + InBetween(s.workers)
  {
    hide Enabled, Apply;
    Reached(cfg, es);
  }

  /** How often something happened since the process last died. */
  ghost function InThisLife(cfg: Config, es: seq<Event>, what: (State, Event) -> bool): nat
    requires CanRun(cfg, Start(cfg), es)
  {
    if es == [] then 0 else
      var n := |es| - 1;
      if es[n].Crash? then 0
      else InThisLife(cfg, es[..n], what) + (if what(After(cfg, Start(cfg), es[..n]), es[n]) then 1 else 0)
  }

  /** A worker decides what comes of a message whose last Send ended in this way. */
  predicate Settles(s: State, e: Event, outcome: Outcome) {
    e.Decide? && InStage(s, e.w) && s.workers[e.w].stage == Recorded(outcome)
  }

  predicate LastTry(cfg: Config, s: State, e: Event) {
    e.Decide? && InStage(s, e.w) && s.workers[e.w].attempt >= cfg.maxAttempts
  }

  /** Each counter counts what it says since the process started. */
  lemma {:induction false} CountersAreTrue(cfg: Config, es: seq<Event>)
    requires CanRun(cfg, Start(cfg), es)
    ensures var c := After(cfg, Start(cfg), es).counters;
      && c.processed == InThisLife(cfg, es, (s, e: Event) => e.Record?)
      && c.sent == InThisLife(cfg, es, (s, e) => Settles(s, e, Delivered))
      && c.retried == InThisLife(cfg, es, (s, e) => Settles(s, e, Transient) && !LastTry(cfg, s, e))
      && c.failed == InThisLife(cfg, es,
           (s, e) => Settles(s, e, Permanent) || (Settles(s, e, Transient) && LastTry(cfg, s, e)))
  {
    hide Enabled, Apply, Settles, LastTry;
    if es != [] {
      var n := |es| - 1;
      CountersAreTrue(cfg, es[..n]);
      CountersStep(cfg, After(cfg, Start(cfg), es[..n]), es[n]);
    }
  }

  lemma CountersStep(cfg: Config, s: State, e: Event)
    requires Enabled(cfg, s, e)
    ensures var c, c' := s.counters, Apply(cfg, s, e).counters;
      if e.Crash? then c' == Counters(0, 0, 0, 0) else
        && c'.processed == c.processed + (if e.Record? then 1 else 0)
        && c'.sent == c.sent + (if Settles(s, e, Delivered) then 1 else 0)
        && c'.retried == c.retried + (if Settles(s, e, Transient) && !LastTry(cfg, s, e) then 1 else 0)
        && c'.failed == c.failed +
             (if Settles(s, e, Permanent) || (Settles(s, e, Transient) && LastTry(cfg, s, e)) then 1 else 0)
  {
    hide Before, Delay, Recovered, InterruptionsCounted, RecoveriesCounted;
  }

  lemma {:induction false} RowsAreInserts(cfg: Config, es: seq<Event>)
    requires CanRun(cfg, Start(cfg), es)
    ensures |After(cfg, Start(cfg), es).rows| == Count(cfg, Start(cfg), es, (s, e: Event) => e.Insert?)
  {
    hide Enabled, Apply;
    if es != [] {
      var n := |es| - 1;
      RowsAreInserts(cfg, es[..n]);
      RowsStep(cfg, After(cfg, Start(cfg), es[..n]), es[n]);
    }
  }

  lemma KeysStep(cfg: Config, s: State, e: Event)
    requires Enabled(cfg, s, e)
    ensures e.Insert? ==> e.id !in s.rows
    ensures Apply(cfg, s, e).rows.Keys == s.rows.Keys + (if e.Insert? then {e.id} else {})
  {
    hide Before, Delay, InterruptionsCounted, RecoveriesCounted;
  }

  lemma RowsStep(cfg: Config, s: State, e: Event)
    requires Enabled(cfg, s, e)
    ensures |Apply(cfg, s, e).rows| == |s.rows| + (if e.Insert? then 1 else 0)
  {
    hide Enabled, Apply;
    KeysStep(cfg, s, e);
    assert |Apply(cfg, s, e).rows| == |Apply(cfg, s, e).rows.Keys| && |s.rows| == |s.rows.Keys|;
  }

  /** Rows are conserved: by status they add up to the inserts of the run. */
  lemma RowsConserved(cfg: Config, es: seq<Event>)
    requires CanRun(cfg, Start(cfg), es)
    ensures var rows := After(cfg, Start(cfg), es).rows;
      |WithStatusIds(rows, Pending)| + |WithStatusIds(rows, Processing)|
      + |WithStatusIds(rows, Sent)| + |WithStatusIds(rows, Failed)|
      == Count(cfg, Start(cfg), es, (s, e: Event) => e.Insert?)
  {
    hide Enabled, Apply;
    RowsAreInserts(cfg, es);
    StatusesPartition(After(cfg, Start(cfg), es).rows);
  }
}
