/** The whole relay: many connections racing for the same queue, the connection slots,
    the worker pool, crashes and restarts. */
module Relay {
  import opened Timestamps
  import opened Queue
  import D = Delivery
  import opened DeliveryInvariant
  import R = DeliveryRuns
  import DataReader
  import opened Session

  datatype RelayConfig = RelayConfig(queue: D.Config, smtp: Config, maxConnections: nat)

  predicate ValidConfig(cfg: RelayConfig) {
    cfg.queue.maxAttempts > 0 && cfg.smtp.maxBacklog > 0 && cfg.maxConnections > 0
  }

  /** A body whose row is in the table and whose reply is not written yet. */
  datatype Insertion = Insertion(text: string, id: string, errored: bool)

  /** Live handlers by number, those between insert and reply, the slots taken, and every
      sender vouched for so far. */
  datatype State = State(
    queue: D.State, conns: map<nat, Session>, inserted: map<nat, Insertion>, slots: nat, approved: set<string>)

  datatype Event =
    | Accept(c: nat, implicitTls: bool)
    | Receive(c: nat, text: string, answers: Answers)
    | Insert(c: nat, text: string, id: string, createdAt: Instant, errored: bool)
    | Answer(c: nat)                          // the reply that follows the insert
    | Disconnect(c: nat)
    | Work(step: D.Event)
    | Crash
    | Restart(olderThan: Instant, now: Instant)

  function Start(cfg: RelayConfig): State {
    State(D.Start(cfg.queue), map[], map[], 0, {})
  }

  // ---- Connection slots ----

  predicate HasFreeSlot(used: nat, capacity: nat) {
    used < capacity
  }

  function OneReleased(used: nat): nat {
    if used > 0 then used - 1 else 0
  }

  /** The buffered channel that counts connections; both operations never block. */
  class ConnSlots {
    const capacity: nat
    var used: nat

    ghost predicate Valid()
      reads this
    {
      used <= capacity
    }

    constructor (capacity: nat)
      ensures Valid() && this.capacity == capacity && used == 0
    {
      this.capacity := capacity;
      used := 0;
    }

    method TryAcquireConnectionSlot() returns (acquired: bool)
      requires Valid()
      modifies this
      ensures Valid() && (acquired <==> old(used) < capacity)
      ensures used == old(used) + (if acquired then 1 else 0)
    {
      if used == capacity {
        return false;
      }
      used := used + 1;
      return true;
    }

    method ReleaseConnectionSlot()
      requires Valid()
      modifies this
      ensures Valid() && (if old(used) == 0 then used == 0 else used == old(used) - 1)
    {
      if used != 0 {
        used := used - 1;
      }
    }
  }

  // ---- Steps ----

  predicate OwnStep(e: D.Event) {
    !e.Insert? && !e.Crash? && !e.Restart?
  }

  function Reacts(cfg: RelayConfig, s: State, e: Event): Reaction
    requires e.Receive? && e.c in s.conns
  {
    React(cfg.smtp, s.conns[e.c], e.text, e.answers)
  }

  function Approves(cfg: RelayConfig, s: State, e: Event): set<string>
    requires e.Receive? && e.c in s.conns
  {
    Vouched(s.conns[e.c], Reacts(cfg, s, e).session, e.answers)
  }

  /** What the session makes of a body once the insert has been reported. */
  function OnInserted(cfg: RelayConfig, session: Session, text: string, errored: bool): Reaction {
    React(cfg.smtp, session, text, NOT_ASKED.(insertError := errored))
  }

  predicate Enabled(cfg: RelayConfig, s: State, e: Event) {
    match e
    case Accept(c, _) => s.queue.up && c !in s.conns
    case Receive(c, text, answers) =>
      && s.queue.up && c in s.conns && c !in s.inserted && !s.conns[c].mode.Closed?
      && (answers.backlog.Some? ==> answers.backlog.value == |Backlog(s.queue.rows)|)
      && !Reacts(cfg, s, e).effect.Queued?
    case Insert(c, text, id, createdAt, _) =>
      && c in s.conns && c !in s.inserted && s.conns[c].mode.Data?
      && OnInserted(cfg, s.conns[c], text, false).effect.Queued?
      && D.Enabled(cfg.queue, s.queue, D.Insert(id, OnInserted(cfg, s.conns[c], text, false).effect.content, createdAt))
    case Answer(c) => s.queue.up && c in s.conns && c in s.inserted
    case Disconnect(c) => c in s.conns
    case Work(step) => OwnStep(step) && D.Enabled(cfg.queue, s.queue, step)
    case Crash => D.Enabled(cfg.queue, s.queue, D.Crash)
    case Restart(olderThan, now) => D.Enabled(cfg.queue, s.queue, D.Restart(olderThan, now))
  }

  /** The queue's part of a step. */
  function QueueSteps(cfg: RelayConfig, s: State, e: Event): seq<D.Event>
    requires Enabled(cfg, s, e)
  {
    match e
    case Insert(c, text, id, createdAt, _) =>
      [D.Insert(id, OnInserted(cfg, s.conns[c], text, false).effect.content, createdAt)]
    case Work(step) => [step]
    case Crash => [D.Crash]
    case Restart(olderThan, now) => [D.Restart(olderThan, now)]
    case _ => []
  }

  function QueueAfter(cfg: RelayConfig, s: State, e: Event): D.State
    requires Enabled(cfg, s, e)
  {
    var steps := QueueSteps(cfg, s, e);
    if steps == [] then s.queue else D.Apply(cfg.queue, s.queue, steps[0])
  }

  function Answered(cfg: RelayConfig, s: State, c: nat): Reaction
    requires c in s.conns && c in s.inserted
  {
    OnInserted(cfg, s.conns[c], s.inserted[c].text, s.inserted[c].errored)
  }

  function Apply(cfg: RelayConfig, s: State, e: Event): State
    requires Enabled(cfg, s, e)
  {
    var s' := s.(queue := QueueAfter(cfg, s, e));
    match e
    case Accept(c, implicitTls) =>
      // without a free slot the connection is turned away
      if HasFreeSlot(s.slots, cfg.maxConnections)
      then s'.(conns := s.conns[c := Greeted(implicitTls)], slots := s.slots + 1)
      else s'
    case Receive(c, _, answers) =>
      s'.(conns := s.conns[c := Reacts(cfg, s, e).session], approved := s.approved + Approves(cfg, s, e))
    case Insert(c, text, id, _, errored) =>
      s'.(inserted := s.inserted[c := Insertion(text, id, errored)])
    case Answer(c) =>
      s'.(conns := s.conns[c := Answered(cfg, s, c).session], inserted := s.inserted - {c})
    case Disconnect(c) =>
      s'.(conns := s.conns - {c}, inserted := s.inserted - {c}, slots := OneReleased(s.slots))
    case Work(_) => s'
    case Crash => s'.(conns := map[], inserted := map[], slots := 0)
    case Restart(_, _) => s'
  }

  // ---- The invariant ----

  /** Connections between the 354 reply and the insert. */
  function InFlight(s: State): set<nat> {
    set c | c in s.conns && s.conns[c].mode.Data? && c !in s.inserted
  }

  ghost predicate FrontInv(cfg: RelayConfig, s: State) {
    && s.slots == |s.conns| <= cfg.maxConnections
    && (!s.queue.up ==> s.conns == map[])
    && (forall c :: c in s.conns ==> SessionInv(cfg.smtp, s.approved, s.conns[c]))
    && (forall c :: c in s.inserted ==> c in s.conns && s.conns[c].mode.Data?)
  }

  /** The row of an insertion holds what its session received. */
  ghost predicate InsertedInv(cfg: RelayConfig, s: State) {
    forall c :: c in s.inserted ==> c in s.conns && RowHolds(cfg, s, c)
  }

  ghost predicate RowHolds(cfg: RelayConfig, s: State, c: nat)
    requires c in s.inserted && c in s.conns
  {
    && s.conns[c].mode.Data?
    && var i, r := s.inserted[c], OnInserted(cfg, s.conns[c], s.inserted[c].text, false);
    && r.effect.Queued? && i.id in s.queue.rows && s.queue.rows[i.id].content == r.effect.content
  }

  ghost predicate MailInv(cfg: RelayConfig, s: State) {
    forall id :: id in s.queue.rows ==> ContentOk(cfg.smtp, s.approved, s.queue.rows[id].content)
  }

  function Bound(cfg: RelayConfig): int {
    cfg.smtp.maxBacklog + cfg.maxConnections - 1
  }

  ghost predicate BacklogWithin(s: State, bound: int) {
    |Backlog(s.queue.rows)| + |InFlight(s)| <= bound
  }

  ghost predicate RelayInv(cfg: RelayConfig, s: State) {
    && Inv(cfg.queue, s.queue) && FrontInv(cfg, s) && InsertedInv(cfg, s)
    && MailInv(cfg, s) && BacklogWithin(s, Bound(cfg))
  }

  lemma QueueKeeps(cfg: RelayConfig, s: State, e: Event)
    requires ValidConfig(cfg) && Inv(cfg.queue, s.queue) && Enabled(cfg, s, e)
    ensures Inv(cfg.queue, Apply(cfg, s, e).queue)
  {
    hide Inv, D.Enabled, D.Apply, React, OnInserted;
    var steps := QueueSteps(cfg, s, e);
    if steps != [] {
      StepKeeps(cfg.queue, s.queue, steps[0]);
    }
  }

  lemma QueueUp(cfg: RelayConfig, s: State, e: Event)
    requires Enabled(cfg, s, e)
    ensures QueueAfter(cfg, s, e).up == (if e.Crash? then false else if e.Restart? then true else s.queue.up)
    ensures e.Accept? || e.Receive? || e.Insert? || e.Answer? ==> s.queue.up
  {
    hide React, OnInserted, Before, FirstEligible;
  }

  /** A connection is served, with a session of its own, exactly while a slot is free. */
  lemma ServedOrTurnedAway(cfg: RelayConfig, s: State, e: Event)
    requires FrontInv(cfg, s) && Enabled(cfg, s, e) && e.Accept?
    ensures var s' := Apply(cfg, s, e);
      if |s.conns| < cfg.maxConnections then
        s' == s.(conns := s.conns[e.c := Session(e.implicitTls, false, false, 0, "", [], 0, Command)],
                 slots := s.slots + 1)
      else s' == s
  {
    hide D.Enabled, D.Apply, React, OnInserted, SessionInv, Backlog;
  }

  lemma HandlerCount(conns: map<nat, Session>, c: nat, session: Session)
    ensures |conns[c := session]| == |conns| + (if c in conns then 0 else 1)
    ensures |conns - {c}| == |conns| - (if c in conns then 1 else 0)
  {
    assert |conns| == |conns.Keys|;
    assert conns[c := session].Keys == conns.Keys + {c} && |conns[c := session]| == |conns[c := session].Keys|;
    assert (conns - {c}).Keys == conns.Keys - {c} && |conns - {c}| == |(conns - {c}).Keys|;
  }

  /** Slots taken and live handlers are the same number. */
  lemma SlotsKeep(cfg: RelayConfig, s: State, e: Event)
    requires FrontInv(cfg, s) && Enabled(cfg, s, e)
    ensures var s' := Apply(cfg, s, e);
      s'.slots == |s'.conns| <= cfg.maxConnections && (!s'.queue.up ==> s'.conns == map[])
  {
    hide D.Enabled, D.Apply, Reacts, React, OnInserted, SessionInv, QueueAfter, Backlog, Vouched;
    QueueUp(cfg, s, e);
    match e
    case Accept(c, implicitTls) => HandlerCount(s.conns, c, Greeted(implicitTls));
    case Receive(c, _, _) => HandlerCount(s.conns, c, Reacts(cfg, s, e).session);
    case Answer(c) => HandlerCount(s.conns, c, Answered(cfg, s, c).session);
    case Disconnect(c) => HandlerCount(s.conns, c, s.conns[c]);
    case _ =>
  }

  lemma SessionsKeep(cfg: RelayConfig, s: State, e: Event, c: nat)
    requires FrontInv(cfg, s) && Enabled(cfg, s, e) && c in Apply(cfg, s, e).conns
    ensures var s' := Apply(cfg, s, e); SessionInv(cfg.smtp, s'.approved, s'.conns[c])
  {
    hide D.Enabled, D.Apply, React, SessionInv, QueueAfter;
    match e
    case Accept(_, implicitTls) => FreshIsSafe(cfg.smtp, s.approved, implicitTls);
    case Receive(d, text, answers) =>
      ReactKeeps(cfg.smtp, s.approved, s.conns[d], text, answers);
      if c != d {
        MoreApproved(cfg.smtp, s.approved, Approves(cfg, s, e), s.conns[c]);
      }
    case Answer(d) =>
      var i := s.inserted[d];
      ReactKeeps(cfg.smtp, s.approved, s.conns[d], i.text, NOT_ASKED.(insertError := i.errored));
      assert s.approved + {} == s.approved;
    case _ =>
  }

  lemma FrontKeeps(cfg: RelayConfig, s: State, e: Event)
    requires FrontInv(cfg, s) && Enabled(cfg, s, e)
    ensures FrontInv(cfg, Apply(cfg, s, e))
  {
    hide Enabled, Apply, SessionInv;
    SlotsKeep(cfg, s, e);
    forall c | c in Apply(cfg, s, e).conns
      ensures SessionInv(cfg.smtp, Apply(cfg, s, e).approved, Apply(cfg, s, e).conns[c])
    {
      SessionsKeep(cfg, s, e, c);
    }
    InsertedInData(cfg, s, e);
  }

  lemma InsertedInData(cfg: RelayConfig, s: State, e: Event)
    requires FrontInv(cfg, s) && Enabled(cfg, s, e)
    ensures var s' := Apply(cfg, s, e); forall c :: c in s'.inserted ==> c in s'.conns && s'.conns[c].mode.Data?
  {
    hide D.Enabled, D.Apply, React, OnInserted, SessionInv, QueueAfter;
  }

  lemma ContentStays(cfg: D.Config, s: D.State, e: D.Event, id: string)
    requires D.Enabled(cfg, s, e)
    ensures var s' := D.Apply(cfg, s, e); id in s'.rows ==>
      (id in s.rows && s'.rows[id].content == s.rows[id].content)
      || (e.Insert? && e.id == id && s'.rows[id].content == e.content)
  {
    hide Before;
  }

  lemma MailKeeps(cfg: RelayConfig, s: State, e: Event)
    requires FrontInv(cfg, s) && MailInv(cfg, s) && Enabled(cfg, s, e)
    ensures MailInv(cfg, Apply(cfg, s, e))
  {
    hide D.Enabled, D.Apply, React, SessionInv, ContentOk;
    var s' := Apply(cfg, s, e);
    if e.Insert? {
      ReactKeeps(cfg.smtp, s.approved, s.conns[e.c], e.text, NOT_ASKED.(insertError := false));
    }
    forall id | id in s'.queue.rows ensures ContentOk(cfg.smtp, s'.approved, s'.queue.rows[id].content) {
      var steps := QueueSteps(cfg, s, e);
      if steps != [] {
        ContentStays(cfg.queue, s.queue, steps[0], id);
      }
      StillOk(cfg.smtp, s.approved, if e.Receive? then Approves(cfg, s, e) else {}, s'.queue.rows[id].content);
    }
  }

  lemma RowsStay(cfg: RelayConfig, s: State, e: Event, id: string)
    requires Enabled(cfg, s, e) && id in s.queue.rows
    ensures var s' := Apply(cfg, s, e);
      id in s'.queue.rows && s'.queue.rows[id].content == s.queue.rows[id].content
  {
    hide D.Enabled, D.Apply, React, OnInserted;
    var steps := QueueSteps(cfg, s, e);
    if steps != [] {
      R.ContentStep(cfg.queue, s.queue, steps[0], id);
    }
  }

  lemma InsertedKeeps(cfg: RelayConfig, s: State, e: Event)
    requires InsertedInv(cfg, s) && Enabled(cfg, s, e)
    ensures InsertedInv(cfg, Apply(cfg, s, e))
  {
    hide D.Enabled, D.Apply, OnInserted, React;
    var s' := Apply(cfg, s, e);
    forall c | c in s'.inserted ensures c in s'.conns && RowHolds(cfg, s', c) {
      if e.Insert? && e.c == c {
        InsertedRow(cfg, s, e);
      } else {
        assert RowHolds(cfg, s, c);
        RowsStay(cfg, s, e, s.inserted[c].id);
      }
    }
  }

  lemma InsertedRow(cfg: RelayConfig, s: State, e: Event)
    requires Enabled(cfg, s, e) && e.Insert?
    ensures e.id !in s.queue.rows && e.id in Apply(cfg, s, e).queue.rows
    ensures Apply(cfg, s, e).queue.rows[e.id].content == OnInserted(cfg, s.conns[e.c], e.text, false).effect.content
  {
    hide OnInserted, FirstEligible, Stuck;
  }

  // ---- The backlog bound ----

  /** Only an insert makes the backlog grow: the marks would, were it not for ownership. */
  lemma BacklogGrowsByInserts(cfg: D.Config, s: D.State, e: D.Event)
    requires Inv(cfg, s) && D.Enabled(cfg, s, e)
    ensures var s' := D.Apply(cfg, s, e);
      if e.Insert? then Backlog(s'.rows) == Backlog(s.rows) + {e.id} && e.id !in Backlog(s.rows)
      else Backlog(s'.rows) <= Backlog(s.rows)
  {
    hide Before, RowInv, StageInv;
  }

  lemma SubsetSize<T>(a: set<T>, b: set<T>)
    requires a <= b
    ensures |a| <= |b|
  {
    assert b == a + (b - a);
  }

  /** No step passes limit plus connections minus one, or what was stored if that is more. */
  lemma BacklogKeeps(cfg: RelayConfig, s: State, e: Event, bound: int)
    requires Inv(cfg.queue, s.queue) && FrontInv(cfg, s) && Enabled(cfg, s, e)
    requires BacklogWithin(s, bound) && Bound(cfg) <= bound
    ensures BacklogWithin(Apply(cfg, s, e), bound)
  {
    hide Inv, D.Enabled, D.Apply, React, OnInserted, SessionInv, Backlog;
    var s' := Apply(cfg, s, e);
    var steps := QueueSteps(cfg, s, e);
    if steps != [] {
      BacklogGrowsByInserts(cfg.queue, s.queue, steps[0]);
      if !steps[0].Insert? {
        SubsetSize(Backlog(s'.queue.rows), Backlog(s.queue.rows));
      }
    }
    if e.Receive? {
      ReceiveBacklog(cfg, s, e, bound);
    } else if e.Insert? {
      assert InFlight(s') == InFlight(s) - {e.c};
    } else {
      AnswerOpensNothing(cfg, s, e);
      SubsetSize(InFlight(s'), InFlight(s));
    }
  }

  lemma AnswerOpensNothing(cfg: RelayConfig, s: State, e: Event)
    requires FrontInv(cfg, s) && Enabled(cfg, s, e) && !e.Receive? && !e.Insert?
    ensures InFlight(Apply(cfg, s, e)) <= InFlight(s)
  {
    hide D.Enabled, D.Apply, React, SessionInv, QueueAfter;
    if e.Answer? {
      var i := s.inserted[e.c];
      ReplyToBody(cfg.smtp, s.conns[e.c], i.text, NOT_ASKED.(insertError := i.errored));
    }
  }

  lemma ReplyToBody(cfg: Config, s: Session, text: string, a: Answers)
    requires s.mode.Data?
    ensures React(cfg, s, text, a).session.mode.Command?
  {
    hide DataReader.SplitBody, DataReader.Unstuffed;
  }

  lemma ReceiveBacklog(cfg: RelayConfig, s: State, e: Event, bound: int)
    requires FrontInv(cfg, s) && Enabled(cfg, s, e) && e.Receive?
    requires BacklogWithin(s, bound) && Bound(cfg) <= bound
    ensures BacklogWithin(Apply(cfg, s, e), bound)
  {
    hide D.Enabled, D.Apply, React, SessionInv, Backlog;
    var s' := Apply(cfg, s, e);
    if Reacts(cfg, s, e).session.mode.Data? {
      DataStarts(cfg.smtp, s.conns[e.c], e.text, e.answers);
      SubsetSize(InFlight(s'), s'.conns.Keys);
      assert s'.conns.Keys == s.conns.Keys;
      assert |s.conns| == |s.conns.Keys|;
    } else {
      SubsetSize(InFlight(s'), InFlight(s));
    }
  }

  lemma RelayStepKeeps(cfg: RelayConfig, s: State, e: Event)
    requires ValidConfig(cfg) && RelayInv(cfg, s) && Enabled(cfg, s, e)
    ensures RelayInv(cfg, Apply(cfg, s, e))
  {
    hide Enabled, Apply, Inv, FrontInv, InsertedInv, MailInv, BacklogWithin;
    QueueKeeps(cfg, s, e);
    FrontKeeps(cfg, s, e);
    InsertedKeeps(cfg, s, e);
    MailKeeps(cfg, s, e);
    BacklogKeeps(cfg, s, e, Bound(cfg));
  }
}
