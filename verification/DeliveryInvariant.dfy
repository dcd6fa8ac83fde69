/** The global invariant of the delivery machine: who owns which row, and how each row
    relates to what happened to its message. */
module DeliveryInvariant {
  import opened Timestamps
  import opened TimestampOrder
  import opened Backoff
  import opened Queue
  import opened Delivery

  ghost function Deliveries(sends: seq<SendRecord>): nat {
    if sends == [] then 0
    else Deliveries(sends[..|sends| - 1]) + (if sends[|sends| - 1].outcome.Delivered? then 1 else 0)
  }

  /** The message may have been delivered this often: once for each Send that said so, and
      once for each that the process died in. */
  ghost function MayBeDelivered(h: History): nat {
    Deliveries(h.sends) + h.interrupted
  }

  lemma DeliveriesSnoc(sends: seq<SendRecord>, r: SendRecord)
    ensures Deliveries(sends + [r]) == Deliveries(sends) + (if r.outcome.Delivered? then 1 else 0)
  {
    assert (sends + [r])[..|sends|] == sends;
  }

  ghost predicate LastSend(h: History, outcome: Outcome, attempt: nat) {
    h.sends != [] && h.sends[|h.sends| - 1].outcome == outcome && h.sends[|h.sends| - 1].attempt == attempt
  }

  /** The last Send failed for good, or failed once too often. */
  ghost predicate GivenUp(cfg: Config, sends: seq<SendRecord>) {
    sends != [] &&
    var last := sends[|sends| - 1];
    last.outcome.Permanent? || (last.outcome.Transient? && last.attempt >= cfg.maxAttempts)
  }

  /** Two claims with no recovery between them are a whole delay apart, up to a second. */
  ghost predicate Spaced(cfg: Config, claims: seq<ClaimRecord>) {
    forall k :: 0 <= k < |claims| - 1 && claims[k].recoveries == claims[k + 1].recoveries ==>
      claims[k].at + Delay(k + 1, cfg.base, cfg.max) < claims[k + 1].at + NANOS
  }

  ghost predicate DueLateEnough(cfg: Config, row: Row, h: History) {
    h.claims != [] && h.claims[|h.claims| - 1].recoveries == h.recoveries ==>
      h.claims[|h.claims| - 1].at + Delay(|h.claims|, cfg.base, cfg.max) <= row.nextAttemptAt
  }

  /** The time decided on is the delay after the last decision to retry. */
  ghost predicate DueAfterLastRetry(cfg: Config, h: History, attempt: nat, at: Instant) {
    h.retries != [] && at == h.retries[|h.retries| - 1] + Delay(attempt, cfg.base, cfg.max)
  }

  /** What holds of a row whoever owns it. */
  ghost predicate RowInv(cfg: Config, row: Row, h: History) {
    && row.content == h.content
    && (forall r :: r in h.sends ==> r.content == h.content)
    && row.attempts == |h.claims| <= cfg.maxAttempts + h.recoveries
    && |h.sends| + h.interrupted <= |h.claims|
    && (forall c :: c in h.claims ==> c.recoveries <= h.recoveries)
    && MayBeDelivered(h) <= h.recoveries + 1
    && Spaced(cfg, h.claims)
    && (h.claims == [] ==>
          row.status.Pending? && row.nextAttemptAt == row.createdAt && row.updatedAt == row.createdAt)
    && (row.status.Processing? ==> h.claims != [] && row.updatedAt == h.claims[|h.claims| - 1].at)
    && (row.status.Pending? && h.claims != [] && h.claims[|h.claims| - 1].recoveries == h.recoveries ==>
          && row.attempts < cfg.maxAttempts && LastSend(h, Transient, row.attempts)
          && DueAfterLastRetry(cfg, h, row.attempts, row.nextAttemptAt))
    && (row.status.Pending? ==>
          && row.attempts < cfg.maxAttempts + h.recoveries
          && MayBeDelivered(h) <= h.recoveries
          && DueLateEnough(cfg, row, h))
    && (row.status.Sent? ==> h.sends != [] && h.sends[|h.sends| - 1].outcome.Delivered?)
    && (row.status.Failed? ==> GivenUp(cfg, h.sends) && MayBeDelivered(h) <= h.recoveries)
  }

  ghost predicate StageInv(cfg: Config, worker: Worker, h: History)
    requires worker.Busy?
  {
    match worker.stage
    case Sending => MayBeDelivered(h) <= h.recoveries && |h.sends| + h.interrupted < |h.claims|
    case Returned(o) => LastSend(h, o, worker.attempt) && (!o.Delivered? ==> MayBeDelivered(h) <= h.recoveries)
    case Recorded(o) => LastSend(h, o, worker.attempt) && (!o.Delivered? ==> MayBeDelivered(h) <= h.recoveries)
    case Marking(d) =>
      match d
      case ToSent => LastSend(h, Delivered, worker.attempt)
      case ToFailed => GivenUp(cfg, h.sends) && MayBeDelivered(h) <= h.recoveries
      case ToRetry(at) =>
        && worker.attempt < cfg.maxAttempts && MayBeDelivered(h) <= h.recoveries
        && LastSend(h, Transient, worker.attempt)
        && worker.claimedAt + Delay(worker.attempt, cfg.base, cfg.max) <= at
        && DueAfterLastRetry(cfg, h, worker.attempt, at)
  }

  /** A busy worker owns the processing row it claimed last. */
  ghost predicate Owns(cfg: Config, worker: Worker, rows: Table, history: map<string, History>)
    requires worker.Busy?
  {
    && worker.id in rows && worker.id in history
    && var row, h := rows[worker.id], history[worker.id];
    && row.status.Processing? && row.attempts == worker.attempt && row.content == worker.content
    && h.claims != [] && h.claims[|h.claims| - 1] == ClaimRecord(worker.claimedAt, h.recoveries)
    && StageInv(cfg, worker, h)
  }

  /** Workers between recordProcessed and their outcome counter. */
  ghost function InBetween(workers: seq<Worker>): nat {
    if workers == [] then 0
    else InBetween(workers[..|workers| - 1]) + (if Between(workers[|workers| - 1]) then 1 else 0)
  }

  ghost predicate Between(worker: Worker) {
    worker.Busy? && worker.stage.Recorded?
  }

  ghost predicate RowsInv(cfg: Config, s: State) {
    && s.rows.Keys == s.history.Keys
    && forall id :: id in s.rows ==> RowInv(cfg, s.rows[id], s.history[id])
  }

  ghost predicate OwnersInv(cfg: Config, s: State) {
    && |s.workers| == cfg.concurrency
    && (forall w :: 0 <= w < |s.workers| && s.workers[w].Busy? ==>
          s.up && Owns(cfg, s.workers[w], s.rows, s.history))
    && (forall v, w :: 0 <= v < w < |s.workers| && s.workers[v].Busy? && s.workers[w].Busy? ==>
          s.workers[v].id != s.workers[w].id)
  }

  ghost predicate CountersInv(s: State) {
    s.counters.processed == s.counters.sent + s.counters.retried + s.counters.failed + InBetween(s.workers)
  }

  ghost predicate Inv(cfg: Config, s: State) {
    RowsInv(cfg, s) && OwnersInv(cfg, s) && CountersInv(s)
  }

  // ---- Counting workers ----

  lemma {:induction false} InBetweenUpdate(workers: seq<Worker>, w: nat, worker: Worker)
    requires w < |workers|
    ensures InBetween(workers[w := worker]) + (if Between(workers[w]) then 1 else 0)
         == InBetween(workers) + (if Between(worker) then 1 else 0)
  {
    var n := |workers| - 1;
    if w < n {
      InBetweenUpdate(workers[..n], w, worker);
      assert workers[w := worker][..n] == workers[..n][w := worker];
    } else {
      assert workers[w := worker][..n] == workers[..n];
    }
  }

  lemma {:induction false} NobodyInBetween(n: nat)
    ensures InBetween(IdleWorkers(n)) == 0
  {
    if n > 0 {
      NobodyInBetween(n - 1);
      assert IdleWorkers(n)[..n - 1] == IdleWorkers(n - 1);
    }
  }

  // ---- The invariant holds at the start and every step keeps it ----

  lemma StartInv(cfg: Config)
    ensures Inv(cfg, Start(cfg))
  {
    NobodyInBetween(cfg.concurrency);
  }

  lemma InsertKeeps(cfg: Config, s: State, e: Event)
    requires Inv(cfg, s) && Enabled(cfg, s, e) && e.Insert? && cfg.maxAttempts > 0
    ensures Inv(cfg, Apply(cfg, s, e))
  {
    hide Before, Delay, RowInv, StageInv;
    var s' := Apply(cfg, s, e);
    NewRowInv(cfg, e.content, e.createdAt);
    assert RowsInv(cfg, s');
    assert OwnersInv(cfg, s');
  }

  lemma NewRowInv(cfg: Config, content: Content, createdAt: Instant)
    requires cfg.maxAttempts > 0
    ensures RowInv(cfg, NewRow(content, createdAt, createdAt), History(content, [], [], [], 0, 0))
  {}

  lemma ClaimKeepsRow(cfg: Config, row: Row, h: History, now: Instant)
    requires RowInv(cfg, row, h) && row.status.Pending? && !Before(now, row.nextAttemptAt)
    ensures RowInv(cfg, row.(status := Processing, attempts := row.attempts + 1, updatedAt := now),
                   h.(claims := h.claims + [ClaimRecord(now, h.recoveries)]))
    ensures StageInv(cfg, Busy("", row.content, row.attempts + 1, now, Sending),
                     h.(claims := h.claims + [ClaimRecord(now, h.recoveries)]))
  {
    hide Before, Delay;
    BeforeWithinASecond(row.nextAttemptAt, now);
  }

  lemma ClaimKeeps(cfg: Config, s: State, e: Event)
    requires Inv(cfg, s) && Enabled(cfg, s, e) && e.Claim?
    ensures Inv(cfg, Apply(cfg, s, e))
  {
    hide Before, Delay, RowInv;
    var s' := Apply(cfg, s, e);
    ClaimKeepsRow(cfg, s.rows[e.id], s.history[e.id], e.now);
    assert RowsInv(cfg, s');
    InBetweenUpdate(s.workers, e.w, s'.workers[e.w]);
    assert Owns(cfg, s'.workers[e.w], s'.rows, s'.history);
    assert OwnersInv(cfg, s');
  }

  lemma LoseKeeps(cfg: Config, s: State, e: Event)
    requires Inv(cfg, s) && Enabled(cfg, s, e) && (e.LoseClaim? || e.MarkFails?)
    ensures Inv(cfg, Apply(cfg, s, e))
  {
    InBetweenUpdate(s.workers, e.w, Idle);
  }

  lemma SendKeepsRow(cfg: Config, row: Row, worker: Worker, h: History, outcome: Outcome)
    requires RowInv(cfg, row, h) && row.status.Processing? && worker.Busy? && worker.content == row.content
    requires worker.stage.Sending? && StageInv(cfg, worker, h)
    ensures var h' := h.(sends := h.sends + [SendRecord(outcome, worker.content, worker.attempt)]);
            RowInv(cfg, row, h') && StageInv(cfg, worker.(stage := Returned(outcome)), h')
  {
    hide Before, Delay;
    DeliveriesSnoc(h.sends, SendRecord(outcome, worker.content, worker.attempt));
  }

  lemma SendKeeps(cfg: Config, s: State, e: Event)
    requires Inv(cfg, s) && Enabled(cfg, s, e) && e.SendReturns?
    ensures Inv(cfg, Apply(cfg, s, e))
  {
    hide Before, Delay, RowInv, StageInv;
    var s' := Apply(cfg, s, e);
    var worker := s.workers[e.w];
    SendKeepsRow(cfg, s.rows[worker.id], worker, s.history[worker.id], e.outcome);
    assert RowsInv(cfg, s');
    InBetweenUpdate(s.workers, e.w, s'.workers[e.w]);
    assert OwnersInv(cfg, s');
  }

  lemma RecordKeeps(cfg: Config, s: State, e: Event)
    requires Inv(cfg, s) && Enabled(cfg, s, e) && e.Record?
    ensures Inv(cfg, Apply(cfg, s, e))
  {
    hide Before, Delay, RowInv, LastSend, GivenUp;
    var s' := Apply(cfg, s, e);
    InBetweenUpdate(s.workers, e.w, s'.workers[e.w]);
    assert OwnersInv(cfg, s');
  }

  /** A decision follows from the last Send, and its row stays as good as it was. */
  lemma DecideKeepsRow(cfg: Config, row: Row, worker: Worker, h: History, now: Instant)
    requires RowInv(cfg, row, h) && row.status.Processing?
    requires worker.Busy? && worker.stage.Recorded? && StageInv(cfg, worker, h) && worker.claimedAt <= now
    ensures var o, later := worker.stage.outcome, h.(retries := h.retries + [now]);
      && RowInv(cfg, row, later)
      && (o.Delivered? ==> StageInv(cfg, worker.(stage := Marking(ToSent)), h))
      && (!o.Delivered? && !Retries(cfg, worker.attempt, o) ==> StageInv(cfg, worker.(stage := Marking(ToFailed)), h))
      && (Retries(cfg, worker.attempt, o) ==>
            var at := now + Delay(worker.attempt, cfg.base, cfg.max);
            IsInstant(at) ==> StageInv(cfg, worker.(stage := Marking(ToRetry(at))), later))
  {
    hide Before, Delay;
  }

  lemma DecideKeeps(cfg: Config, s: State, e: Event)
    requires Inv(cfg, s) && Enabled(cfg, s, e) && e.Decide?
    ensures Inv(cfg, Apply(cfg, s, e))
  {
    hide Before, Delay, RowInv, StageInv;
    var s' := Apply(cfg, s, e);
    var worker := s.workers[e.w];
    DecideKeepsRow(cfg, s.rows[worker.id], worker, s.history[worker.id], e.now);
    InBetweenUpdate(s.workers, e.w, s'.workers[e.w]);
    assert RowsInv(cfg, s');
    assert Owns(cfg, s'.workers[e.w], s'.rows, s'.history);
    assert OwnersInv(cfg, s');
  }

  lemma MarkKeepsRow(cfg: Config, s: State, worker: Worker, now: Instant)
    requires worker.Busy? && Owns(cfg, worker, s.rows, s.history) && worker.stage.Marking?
    requires RowInv(cfg, s.rows[worker.id], s.history[worker.id])
    ensures var rows' := Marked(s.rows, worker.id, worker.stage.decision, now);
      && rows'.Keys == s.rows.Keys
      && RowInv(cfg, rows'[worker.id], s.history[worker.id])
      && (forall id :: id in s.rows && id != worker.id ==> rows'[id] == s.rows[id])
  {
    hide Before, Delay;
  }

  lemma MarkKeeps(cfg: Config, s: State, e: Event)
    requires Inv(cfg, s) && Enabled(cfg, s, e) && e.Mark?
    ensures Inv(cfg, Apply(cfg, s, e))
  {
    hide Before, Delay, RowInv, StageInv, Marked;
    var s' := Apply(cfg, s, e);
    MarkKeepsRow(cfg, s, s.workers[e.w], e.now);
    assert RowsInv(cfg, s');
    InBetweenUpdate(s.workers, e.w, Idle);
    assert OwnersInv(cfg, s');
  }

  lemma CrashKeepsRow(cfg: Config, s: State, id: string)
    requires RowsInv(cfg, s) && OwnersInv(cfg, s) && id in s.rows
    ensures RowInv(cfg, s.rows[id], InterruptionsCounted(s)[id])
  {
    hide Before, Delay;
    assert RowInv(cfg, s.rows[id], s.history[id]);
  }

  lemma CrashKeeps(cfg: Config, s: State, e: Event)
    requires Inv(cfg, s) && Enabled(cfg, s, e) && e.Crash?
    ensures Inv(cfg, Apply(cfg, s, e))
  {
    hide RowInv;
    NobodyInBetween(|s.workers|);
    forall id | id in s.rows ensures RowInv(cfg, s.rows[id], InterruptionsCounted(s)[id]) {
      CrashKeepsRow(cfg, s, id);
    }
  }

  lemma RecoveryKeepsRow(cfg: Config, row: Row, h: History, now: Instant)
    requires RowInv(cfg, row, h) && row.status.Processing?
    ensures RowInv(cfg, row.(status := Pending, nextAttemptAt := now, updatedAt := now),
                   h.(recoveries := h.recoveries + 1))
  {
    hide Before, Delay;
  }

  lemma RestartKeeps(cfg: Config, s: State, e: Event)
    requires Inv(cfg, s) && Enabled(cfg, s, e) && e.Restart?
    ensures Inv(cfg, Apply(cfg, s, e))
  {
    hide Before, Delay, RowInv, StageInv;
    var s' := Apply(cfg, s, e);
    forall id | id in s'.rows ensures RowInv(cfg, s'.rows[id], s'.history[id]) {
      assert RowInv(cfg, s.rows[id], s.history[id]);
      if Stuck(s.rows[id], e.olderThan) {
        RecoveryKeepsRow(cfg, s.rows[id], s.history[id], e.now);
      }
    }
  }

  lemma StepKeeps(cfg: Config, s: State, e: Event)
    requires Inv(cfg, s) && Enabled(cfg, s, e) && cfg.maxAttempts > 0
    ensures Inv(cfg, Apply(cfg, s, e))
  {
    hide Enabled, Apply, Inv;
    match e
    case Insert(_, _, _) => InsertKeeps(cfg, s, e);
    case Claim(_, _, _) => ClaimKeeps(cfg, s, e);
    case LoseClaim(_) => LoseKeeps(cfg, s, e);
    case SendReturns(_, _) => SendKeeps(cfg, s, e);
    case Record(_) => RecordKeeps(cfg, s, e);
    case Decide(_, _) => DecideKeeps(cfg, s, e);
    case Mark(_, _) => MarkKeeps(cfg, s, e);
    case MarkFails(_) => LoseKeeps(cfg, s, e);
    case Crash => CrashKeeps(cfg, s, e);
    case Restart(_, _) => RestartKeeps(cfg, s, e);
  }

  lemma {:induction false} RunKeeps(cfg: Config, s: State, es: seq<Event>)
    requires Inv(cfg, s) && CanRun(cfg, s, es) && cfg.maxAttempts > 0
    ensures Inv(cfg, After(cfg, s, es))
  {
    hide Enabled, Apply, Inv;
    if es != [] {
      var n := |es| - 1;
      RunKeeps(cfg, s, es[..n]);
      StepKeeps(cfg, After(cfg, s, es[..n]), es[n]);
    }
  }
}
