/** The queue and the worker pool of one relay process as a state machine.  Each SQL
    statement, the claim transaction and each counter update is one atomic step; the
    steps of the workers, of inserts, of crashes and of restarts interleave freely. */
module Delivery {
  import opened Timestamps
  import opened Backoff
  import opened Queue

  datatype Config = Config(concurrency: nat, maxAttempts: nat, base: Duration, max: Duration)

  /** The result of one call to Send: nil, a transient error, any other error. */
  datatype Outcome = Delivered | Transient | Permanent

  datatype Decision = ToSent | ToFailed | ToRetry(at: Instant)

  /** Where a worker stands between its claim and its mark. */
  datatype Stage = Sending | Returned(outcome: Outcome) | Recorded(outcome: Outcome) | Marking(decision: Decision)

  datatype Worker = Idle | Busy(id: string, content: Content, attempt: nat, claimedAt: Instant, stage: Stage)

  datatype Counters = Counters(processed: nat, sent: nat, retried: nat, failed: nat)

  /** What happened to one message since it was inserted; no code reads this. */
  datatype ClaimRecord = ClaimRecord(at: Instant, recoveries: nat)
  datatype SendRecord = SendRecord(outcome: Outcome, content: Content, attempt: nat)
  datatype History = History(
    content: Content, claims: seq<ClaimRecord>, sends: seq<SendRecord>,
    retries: seq<Instant>,                      // when a retry was decided on
    recoveries: nat, interrupted: nat)          // interrupted: Sends the process died in

  datatype State = State(
    up: bool, rows: Table, workers: seq<Worker>, counters: Counters, history: map<string, History>)

  datatype Event =
    | Insert(id: string, content: Content, createdAt: Instant)
    | Claim(w: nat, now: Instant, id: string)
    | LoseClaim(w: nat)                       // the claim committed, but its caller got an error
    | SendReturns(w: nat, outcome: Outcome)
    | Record(w: nat)                          // recordProcessed
    | Decide(w: nat, now: Instant)            // outcome counter, next attempt time
    | Mark(w: nat, now: Instant)
    | MarkFails(w: nat)                       // the mark reports an error and changes nothing
    | Crash
    | Restart(olderThan: Instant, now: Instant)

  function IdleWorkers(n: nat): seq<Worker> {
    seq(n, _ => Idle)
  }

  function Start(cfg: Config): State {
    State(false, map[], IdleWorkers(cfg.concurrency), Counters(0, 0, 0, 0), map[])
  }

  predicate IsInstant(t: int) {
    0 <= t < DAYS_TO_YEAR_10000 * SECONDS_PER_DAY * NANOS
  }

  predicate Retries(cfg: Config, attempt: nat, outcome: Outcome) {
    outcome.Transient? && attempt < cfg.maxAttempts
  }

  predicate InStage(s: State, w: nat) {
    s.up && w < |s.workers| && s.workers[w].Busy?
  }

  predicate Enabled(cfg: Config, s: State, e: Event) {
    match e
    case Insert(id, content, _) =>
      s.up && id !in s.rows && id != "" && content.mailFrom != "" && content.recipients != [] && content.data != ""
    case Claim(w, now, id) => s.up && w < |s.workers| && s.workers[w].Idle? && FirstEligible(s.rows, id, now)
    case LoseClaim(w) => InStage(s, w) && s.workers[w].stage.Sending?
    case SendReturns(w, _) => InStage(s, w) && s.workers[w].stage.Sending?
    case Record(w) => InStage(s, w) && s.workers[w].stage.Returned?
    case Decide(w, now) =>
      && InStage(s, w) && s.workers[w].stage.Recorded? && s.workers[w].claimedAt <= now
      && (Retries(cfg, s.workers[w].attempt, s.workers[w].stage.outcome) ==>
            IsInstant(now + Delay(s.workers[w].attempt, cfg.base, cfg.max)))
    case Mark(w, _) => InStage(s, w) && s.workers[w].stage.Marking?
    case MarkFails(w) => InStage(s, w) && s.workers[w].stage.Marking?
    case Crash => s.up
    case Restart(_, _) => !s.up
  }

  function AtStage(s: State, w: nat, stage: Stage): State
    requires InStage(s, w)
  {
    s.(workers := s.workers[w := s.workers[w].(stage := stage)])
  }

  function Decided(cfg: Config, s: State, w: nat, now: Instant): State
    requires Enabled(cfg, s, Decide(w, now))
  {
    var worker := s.workers[w];
    var c := s.counters;
    if worker.stage.outcome.Delivered? then
      AtStage(s, w, Marking(ToSent)).(counters := c.(sent := c.sent + 1))
    else if !Retries(cfg, worker.attempt, worker.stage.outcome) then
      AtStage(s, w, Marking(ToFailed)).(counters := c.(failed := c.failed + 1))
    else
      AtStage(s, w, Marking(ToRetry(now + Delay(worker.attempt, cfg.base, cfg.max))))
        .(counters := c.(retried := c.retried + 1), history := RetryCounted(s.history, worker.id, now))
  }

  function RetryCounted(history: map<string, History>, id: string, now: Instant): map<string, History> {
    if id in history then history[id := history[id].(retries := history[id].retries + [now])] else history
  }

  function Marked(rows: Table, id: string, decision: Decision, now: Instant): Table {
    match decision
    case ToSent => WithStatus(rows, id, Sent, now)
    case ToFailed => WithStatus(rows, id, Failed, now)
    case ToRetry(at) => Rescheduled(rows, id, at, now)
  }

  predicate SendingFor(workers: seq<Worker>, id: string) {
    exists w :: 0 <= w < |workers| && workers[w].Busy? && workers[w].stage.Sending? && workers[w].id == id
  }

  function InterruptionsCounted(s: State): map<string, History> {
    map id | id in s.history ::
      var h := s.history[id];
      if SendingFor(s.workers, id) then h.(interrupted := h.interrupted + 1) else h
  }

  function RecoveriesCounted(s: State, olderThan: Instant): map<string, History> {
    map id | id in s.history ::
      var h := s.history[id];
      if id in s.rows && Stuck(s.rows[id], olderThan) then h.(recoveries := h.recoveries + 1) else h
  }

  function Apply(cfg: Config, s: State, e: Event): State
    requires Enabled(cfg, s, e)
  {
    match e
    case Insert(id, content, createdAt) =>
      s.(rows := s.rows[id := NewRow(content, createdAt, createdAt)],
         history := s.history[id := History(content, [], [], [], 0, 0)])
    case Claim(w, now, id) =>
      var row := s.rows[id];
      var claimed := s.(
        rows := Claimed(s.rows, id, now),
        workers := s.workers[w := Busy(id, row.content, row.attempts + 1, now, Sending)]);
      if id in s.history then
        var h := s.history[id];
        claimed.(history := s.history[id := h.(claims := h.claims + [ClaimRecord(now, h.recoveries)])])
      else claimed
    case LoseClaim(w) => s.(workers := s.workers[w := Idle])
    case SendReturns(w, outcome) =>
      var worker := s.workers[w];
      var s' := AtStage(s, w, Returned(outcome));
      if worker.id in s.history then
        var h := s.history[worker.id];
        s'.(history := s.history[worker.id :=
              h.(sends := h.sends + [SendRecord(outcome, worker.content, worker.attempt)])])
      else s'
    case Record(w) =>
      AtStage(s, w, Recorded(s.workers[w].stage.outcome))
        .(counters := s.counters.(processed := s.counters.processed + 1))
    case Decide(w, now) => Decided(cfg, s, w, now)
    case Mark(w, now) =>
      s.(rows := Marked(s.rows, s.workers[w].id, s.workers[w].stage.decision, now),
         workers := s.workers[w := Idle])
    case MarkFails(w) => s.(workers := s.workers[w := Idle])
    case Crash =>
      s.(up := false, workers := IdleWorkers(|s.workers|), counters := Counters(0, 0, 0, 0),
         history := InterruptionsCounted(s))
    case Restart(olderThan, now) =>
      s.(up := true, rows := Recovered(s.rows, olderThan, now), history := RecoveriesCounted(s, olderThan))
  }

  // ---- Runs ----

  ghost predicate CanRun(cfg: Config, s: State, es: seq<Event>)
    decreases |es|, 0
  {
    es == [] ||
    var n := |es| - 1;
    CanRun(cfg, s, es[..n]) && Enabled(cfg, After(cfg, s, es[..n]), es[n])
  }

  ghost function After(cfg: Config, s: State, es: seq<Event>): State
    requires CanRun(cfg, s, es)
    decreases |es|, 1
  {
    if es == [] then s else
      var n := |es| - 1;
      Apply(cfg, After(cfg, s, es[..n]), es[n])
  }

  lemma OneMore(cfg: Config, s: State, es: seq<Event>, e: Event)
    requires CanRun(cfg, s, es) && Enabled(cfg, After(cfg, s, es), e)
    ensures CanRun(cfg, s, es + [e]) && After(cfg, s, es + [e]) == Apply(cfg, After(cfg, s, es), e)
  {
    hide Enabled, Apply;
    assert (es + [e])[..|es|] == es;
  }
}
