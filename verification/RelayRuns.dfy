/** Whole runs of the relay, from the first start-up to any later moment. */
module RelayRuns {
  import opened Queue
  import D = Delivery
  import opened DeliveryInvariant
  import R = DeliveryRuns
  import opened DataReader
  import opened Session
  import opened Relay

  ghost predicate CanRun(cfg: RelayConfig, s: State, es: seq<Event>)
    decreases |es|, 0
  {
    es == [] ||
    var n := |es| - 1;
    CanRun(cfg, s, es[..n]) && Enabled(cfg, After(cfg, s, es[..n]), es[n])
  }

  ghost function After(cfg: RelayConfig, s: State, es: seq<Event>): State
    requires CanRun(cfg, s, es)
    decreases |es|, 1
  {
    if es == [] then s else
      var n := |es| - 1;
      Apply(cfg, After(cfg, s, es[..n]), es[n])
  }

  lemma StartIsSafe(cfg: RelayConfig)
    requires ValidConfig(cfg)
    ensures RelayInv(cfg, Start(cfg))
  {
    StartInv(cfg.queue);
    assert Backlog(map[]) == {} && InFlight(Start(cfg)) == {};
  }

  lemma {:induction false} RelayRunKeeps(cfg: RelayConfig, s: State, es: seq<Event>)
    requires ValidConfig(cfg) && RelayInv(cfg, s) && CanRun(cfg, s, es)
    ensures RelayInv(cfg, After(cfg, s, es))
  {
    hide Enabled, Apply, RelayInv;
    if es != [] {
      var n := |es| - 1;
      RelayRunKeeps(cfg, s, es[..n]);
      RelayStepKeeps(cfg, After(cfg, s, es[..n]), es[n]);
    }
  }

  lemma Reached(cfg: RelayConfig, es: seq<Event>)
    requires ValidConfig(cfg) && CanRun(cfg, Start(cfg), es)
    ensures RelayInv(cfg, After(cfg, Start(cfg), es))
  {
    hide Enabled, Apply, RelayInv;
    StartIsSafe(cfg);
    RelayRunKeeps(cfg, Start(cfg), es);
  }

  // ---- The queue inside a run of the relay is a run of the delivery machine ----

  ghost function QueueTrace(cfg: RelayConfig, es: seq<Event>): seq<D.Event>
    requires CanRun(cfg, Start(cfg), es)
  {
    if es == [] then [] else
      var n := |es| - 1;
      QueueTrace(cfg, es[..n]) + QueueSteps(cfg, After(cfg, Start(cfg), es[..n]), es[n])
  }

  lemma StepsAreEnabled(cfg: RelayConfig, s: State, e: Event)
    requires Enabled(cfg, s, e)
    ensures var steps := QueueSteps(cfg, s, e);
      && |steps| <= 1
      && (steps != [] ==>
            && D.Enabled(cfg.queue, s.queue, steps[0])
            && Apply(cfg, s, e).queue == D.Apply(cfg.queue, s.queue, steps[0]))
      && (steps == [] ==> Apply(cfg, s, e).queue == s.queue)
  {
    hide D.Enabled, D.Apply, React;
  }

  lemma {:induction false} QueueRuns(cfg: RelayConfig, es: seq<Event>)
    requires CanRun(cfg, Start(cfg), es)
    ensures D.CanRun(cfg.queue, D.Start(cfg.queue), QueueTrace(cfg, es))
    ensures D.After(cfg.queue, D.Start(cfg.queue), QueueTrace(cfg, es)) == After(cfg, Start(cfg), es).queue
  {
    hide Enabled, Apply, D.Enabled, D.Apply, QueueSteps;
    if es != [] {
      var n := |es| - 1;
      QueueRuns(cfg, es[..n]);
      var s := After(cfg, Start(cfg), es[..n]);
      StepsAreEnabled(cfg, s, es[n]);
      var steps := QueueSteps(cfg, s, es[n]);
      if steps == [] {
        assert QueueTrace(cfg, es[..n]) + [] == QueueTrace(cfg, es[..n]);
      } else {
        D.OneMore(cfg.queue, D.Start(cfg.queue), QueueTrace(cfg, es[..n]), steps[0]);
        assert steps == [steps[0]];
      }
    }
  }

  // ---- The states along a run ----

  lemma {:induction false} PrefixRuns(cfg: RelayConfig, es: seq<Event>, k: nat)
    requires CanRun(cfg, Start(cfg), es) && k <= |es|
    ensures CanRun(cfg, Start(cfg), es[..k])
    ensures k < |es| ==> Enabled(cfg, After(cfg, Start(cfg), es[..k]), es[k])
    decreases |es|
  {
    hide Enabled, Apply;
    if k == |es| {
      assert es[..k] == es;
    } else if k < |es| - 1 {
      var n := |es| - 1;
      assert es[..n][..k] == es[..k];
      PrefixRuns(cfg, es[..n], k);
    }
  }

  /** The state before event `k` of the run. */
  ghost function At(cfg: RelayConfig, es: seq<Event>, k: nat): State
    requires CanRun(cfg, Start(cfg), es) && k <= |es|
  {
    PrefixRuns(cfg, es, k);
    After(cfg, Start(cfg), es[..k])
  }

  lemma AtEnds(cfg: RelayConfig, es: seq<Event>)
    requires CanRun(cfg, Start(cfg), es)
    ensures At(cfg, es, 0) == Start(cfg) && At(cfg, es, |es|) == After(cfg, Start(cfg), es)
  {
    hide Enabled, Apply;
    assert es[..|es|] == es;
  }

  lemma AtStep(cfg: RelayConfig, es: seq<Event>, k: nat)
    requires CanRun(cfg, Start(cfg), es) && k < |es|
    ensures Enabled(cfg, At(cfg, es, k), es[k])
    ensures At(cfg, es, k + 1) == Apply(cfg, At(cfg, es, k), es[k])
  {
    hide Enabled, Apply;
    PrefixRuns(cfg, es, k);
    PrefixRuns(cfg, es, k + 1);
    assert es[..k + 1][..k] == es[..k];
  }

  lemma AtSafe(cfg: RelayConfig, es: seq<Event>, k: nat)
    requires ValidConfig(cfg) && CanRun(cfg, Start(cfg), es) && k <= |es|
    ensures RelayInv(cfg, At(cfg, es, k))
  {
    hide Enabled, Apply, RelayInv;
    PrefixRuns(cfg, es, k);
    Reached(cfg, es[..k]);
  }

  lemma {:induction false} RowsPersist(cfg: RelayConfig, es: seq<Event>, j: nat, k: nat, id: string)
    requires CanRun(cfg, Start(cfg), es) && j <= k <= |es| && id in At(cfg, es, j).queue.rows
    ensures id in At(cfg, es, k).queue.rows
    ensures At(cfg, es, k).queue.rows[id].content == At(cfg, es, j).queue.rows[id].content
    decreases k
  {
    hide Enabled, Apply, At;
    if j < k {
      RowsPersist(cfg, es, j, k - 1, id);
      AtStep(cfg, es, k - 1);
      RowsStay(cfg, At(cfg, es, k - 1), es[k - 1], id);
    }
  }

  // ---- Limits ----

  /** However many sessions race between the backlog check and the insert, messages
      waiting plus bodies being received stay below limit plus connections, or within the
      backlog the run started with if that was more. */
  lemma {:induction false} BacklogIsBounded(cfg: RelayConfig, s: State, es: seq<Event>, bound: int)
    requires ValidConfig(cfg) && Inv(cfg.queue, s.queue) && FrontInv(cfg, s) && CanRun(cfg, s, es)
    requires cfg.smtp.maxBacklog + cfg.maxConnections - 1 <= bound
    requires |Backlog(s.queue.rows)| + |InFlight(s)| <= bound
    ensures var s' := After(cfg, s, es);
      && Inv(cfg.queue, s'.queue) && FrontInv(cfg, s')
      && |Backlog(s'.queue.rows)| + |InFlight(s')| <= bound
  {
    hide Enabled, Apply, Inv, FrontInv, Backlog, InFlight;
    if es != [] {
      var n := |es| - 1;
      BacklogIsBounded(cfg, s, es[..n], bound);
      var t := After(cfg, s, es[..n]);
      QueueKeeps(cfg, t, es[n]);
      FrontKeeps(cfg, t, es[n]);
      BacklogKeeps(cfg, t, es[n], bound);
    }
  }

  /** Whatever an earlier life left in the table, within the limit. */
  lemma StoredBacklogIsBounded(cfg: RelayConfig, queue: D.State, approved: set<string>, es: seq<Event>)
    requires ValidConfig(cfg) && Inv(cfg.queue, queue) && |Backlog(queue.rows)| <= cfg.smtp.maxBacklog
    requires CanRun(cfg, State(queue, map[], map[], 0, approved), es)
    ensures |Backlog(After(cfg, State(queue, map[], map[], 0, approved), es).queue.rows)|
         <= cfg.smtp.maxBacklog + cfg.maxConnections - 1
  {
    hide Enabled, Apply, Inv, Backlog;
    var s := State(queue, map[], map[], 0, approved);
    assert InFlight(s) == {};
    BacklogIsBounded(cfg, s, es, cfg.smtp.maxBacklog + cfg.maxConnections - 1);
  }

  /** Never more handlers than slots, and the slot count is exact. */
  lemma HandlersAreBounded(cfg: RelayConfig, es: seq<Event>)
    requires ValidConfig(cfg) && CanRun(cfg, Start(cfg), es)
    ensures var s := After(cfg, Start(cfg), es); s.slots == |s.conns| <= cfg.maxConnections
  {
    hide Enabled, Apply;
    Reached(cfg, es);
  }

  /** Every session of every run is safe, even while the others interfere. */
  lemma SessionsAreSafe(cfg: RelayConfig, es: seq<Event>, c: nat)
    requires ValidConfig(cfg) && CanRun(cfg, Start(cfg), es) && c in After(cfg, Start(cfg), es).conns
    ensures var s := After(cfg, Start(cfg), es); SessionInv(cfg.smtp, s.approved, s.conns[c])
  {
    hide Enabled, Apply;
    Reached(cfg, es);
  }

  // ---- Acknowledged mail ----

  /** The reply 250 to a body. */
  ghost predicate Acknowledges(cfg: RelayConfig, s: State, e: Event) {
    e.Answer? && e.c in s.conns && e.c in s.inserted && Answered(cfg, s, e.c).code == 250
  }

  /** What a session has received when this body is complete. */
  function Received(session: Session, text: string): Content
    requires SplitBody(text).Body?
  {
    Content(session.mailFrom, session.rcptTo, Unstuffed(SplitBody(text).lines))
  }

  lemma InsertedBody(cfg: Config, session: Session, text: string, errored: bool)
    requires session.mode.Data? && React(cfg, session, text, NOT_ASKED).effect.Queued?
    ensures SplitBody(text).Body? && React(cfg, session, text, NOT_ASKED).effect.content == Received(session, text)
    ensures React(cfg, session, text, NOT_ASKED.(insertError := errored)).code == (if errored then 451 else 250)
  {
    hide SplitBody, Unstuffed;
  }

  /** The row holds the content; it passed every check; only that was ever sent, at most
      once and once more per recovery; and it is closed only for a reason. */
  ghost predicate Kept(cfg: RelayConfig, es: seq<Event>, id: string, content: Content)
    requires CanRun(cfg, Start(cfg), es) && D.CanRun(cfg.queue, D.Start(cfg.queue), QueueTrace(cfg, es))
  {
    var s, trace := After(cfg, Start(cfg), es), QueueTrace(cfg, es);
    && id in s.queue.rows && s.queue.rows[id].content == content
    && ContentOk(cfg.smtp, s.approved, content)
    && (forall r :: r in R.SendLog(cfg.queue, trace, id) ==> r.content == content)
    && R.Sends(cfg.queue, trace, id) + R.Interruptions(cfg.queue, trace, id)
         <= 1 + R.Recoveries(cfg.queue, trace, id)
    && (s.queue.rows[id].status.Sent? ==> R.Sends(cfg.queue, trace, id) >= 1)
    && (s.queue.rows[id].status.Failed? ==> GivenUp(cfg.queue, R.SendLog(cfg.queue, trace, id)))
  }

  lemma RowIsKept(cfg: RelayConfig, es: seq<Event>, id: string)
    requires ValidConfig(cfg) && CanRun(cfg, Start(cfg), es) && id in After(cfg, Start(cfg), es).queue.rows
    ensures D.CanRun(cfg.queue, D.Start(cfg.queue), QueueTrace(cfg, es))
    ensures Kept(cfg, es, id, After(cfg, Start(cfg), es).queue.rows[id].content)
  {
    hide Enabled, Apply, D.Enabled, D.Apply, D.CanRun, D.After, QueueTrace;
    hide R.Sends, R.Interruptions, R.SendLog, R.Recoveries, Inv, ContentOk, GivenUp;
    Reached(cfg, es);
    QueueRuns(cfg, es);
    R.AtMostOneDeliveryPerRecovery(cfg.queue, QueueTrace(cfg, es), id);
    R.SettledForAReason(cfg.queue, QueueTrace(cfg, es), id);
  }

  /** End to end: a 250 after DATA is a promise.  From then on, through every crash and
      restart, the row holds exactly what the session received, and is kept. */
  lemma AcknowledgedMailIsKept(cfg: RelayConfig, es: seq<Event>, k: nat)
    requires ValidConfig(cfg) && CanRun(cfg, Start(cfg), es) && k < |es|
    requires Acknowledges(cfg, At(cfg, es, k), es[k])
    ensures D.CanRun(cfg.queue, D.Start(cfg.queue), QueueTrace(cfg, es))
    ensures var before := At(cfg, es, k); var i := before.inserted[es[k].c];
      SplitBody(i.text).Body? && Kept(cfg, es, i.id, Received(before.conns[es[k].c], i.text))
  {
    hide Enabled, Apply, React, Kept, QueueTrace, D.CanRun, At, SplitBody, Received;
    AtSafe(cfg, es, k);
    var before := At(cfg, es, k);
    var i := before.inserted[es[k].c];
    assert RowHolds(cfg, before, es[k].c);
    InsertedBody(cfg.smtp, before.conns[es[k].c], i.text, i.errored);
    AtEnds(cfg, es);
    RowsPersist(cfg, es, k, |es|, i.id);
    RowIsKept(cfg, es, i.id);
  }

  // ---- And conversely ----

  ghost predicate InsertsRow(e: Event, id: string) {
    e.Insert? && e.id == id
  }

  /** What ends the time between the insert of connection `c` and its reply. */
  ghost predicate Ends(e: Event, c: nat) {
    (e.Answer? && e.c == c) || (e.Disconnect? && e.c == c) || e.Crash?
  }

  /** The first event from `k` on that ends it, or the end of the run. */
  ghost function FirstEnd(es: seq<Event>, c: nat, k: nat): (j: nat)
    requires k <= |es|
    ensures k <= j <= |es| && (j < |es| ==> Ends(es[j], c))
    ensures forall i :: k <= i < j ==> !Ends(es[i], c)
    decreases |es| - k
  {
    if k == |es| || Ends(es[k], c) then k else FirstEnd(es, c, k + 1)
  }

  ghost predicate AcknowledgesRow(cfg: RelayConfig, s: State, e: Event, id: string) {
    Acknowledges(cfg, s, e) && s.inserted[e.c].id == id
  }

  lemma InsertedStep(cfg: RelayConfig, s: State, e: Event, c: nat)
    requires Enabled(cfg, s, e)
    ensures c in Apply(cfg, s, e).inserted <==> (c in s.inserted && !Ends(e, c)) || (e.Insert? && e.c == c)
    ensures c in s.inserted && !Ends(e, c) ==> Apply(cfg, s, e).inserted[c] == s.inserted[c]
    ensures e.Insert? && e.c == c ==> Apply(cfg, s, e).inserted[c] == Insertion(e.text, e.id, e.errored)
  {
    hide D.Enabled, D.Apply, React, OnInserted, QueueAfter;
  }

  lemma {:induction false} InsertionStays(cfg: RelayConfig, es: seq<Event>, k: nat, j: nat)
    requires CanRun(cfg, Start(cfg), es) && k < j <= |es| && es[k].Insert?
    requires forall i :: k < i < j ==> !Ends(es[i], es[k].c)
    ensures es[k].c in At(cfg, es, j).inserted
    ensures At(cfg, es, j).inserted[es[k].c] == Insertion(es[k].text, es[k].id, es[k].errored)
    decreases j
  {
    hide Enabled, Apply, At;
    AtStep(cfg, es, j - 1);
    InsertedStep(cfg, At(cfg, es, j - 1), es[j - 1], es[k].c);
    if k < j - 1 {
      InsertionStays(cfg, es, k, j - 1);
    }
  }

  lemma {:induction false} InsertionCameFrom(cfg: RelayConfig, es: seq<Event>, j: nat, c: nat) returns (k: nat)
    requires CanRun(cfg, Start(cfg), es) && j <= |es| && c in At(cfg, es, j).inserted
    ensures k < j && es[k].Insert? && es[k].c == c
    ensures At(cfg, es, j).inserted[c] == Insertion(es[k].text, es[k].id, es[k].errored)
    ensures forall i :: k < i < j ==> !Ends(es[i], c)
    decreases j
  {
    hide Enabled, Apply, At;
    AtEnds(cfg, es);
    AtStep(cfg, es, j - 1);
    InsertedStep(cfg, At(cfg, es, j - 1), es[j - 1], c);
    if es[j - 1].Insert? && es[j - 1].c == c {
      k := j - 1;
    } else {
      k := InsertionCameFrom(cfg, es, j - 1, c);
    }
  }

  lemma NewRowIsInserted(cfg: RelayConfig, s: State, e: Event, id: string)
    requires Enabled(cfg, s, e) && id !in s.queue.rows && id in Apply(cfg, s, e).queue.rows
    ensures InsertsRow(e, id)
  {
    hide D.Enabled, D.Apply, React, OnInserted;
    ContentStays(cfg.queue, s.queue, QueueSteps(cfg, s, e)[0], id);
  }

  lemma {:induction false} RowCameFrom(cfg: RelayConfig, es: seq<Event>, j: nat, id: string) returns (k: nat)
    requires CanRun(cfg, Start(cfg), es) && j <= |es| && id in At(cfg, es, j).queue.rows
    ensures k < j && InsertsRow(es[k], id)
    decreases j
  {
    hide Enabled, Apply, At, InsertsRow;
    AtEnds(cfg, es);
    AtStep(cfg, es, j - 1);
    if id in At(cfg, es, j - 1).queue.rows {
      k := RowCameFrom(cfg, es, j - 1, id);
    } else {
      NewRowIsInserted(cfg, At(cfg, es, j - 1), es[j - 1], id);
      k := j - 1;
    }
  }

  lemma OneInsert(cfg: RelayConfig, es: seq<Event>, j: nat, k: nat, id: string)
    requires CanRun(cfg, Start(cfg), es) && j <= k < |es| && InsertsRow(es[j], id) && InsertsRow(es[k], id)
    ensures j == k
  {
    hide Enabled, Apply, At;
    if j < k {
      AtStep(cfg, es, j);
      InsertedRow(cfg, At(cfg, es, j), es[j]);
      RowsPersist(cfg, es, j + 1, k, id);
      AtStep(cfg, es, k);
      InsertedRow(cfg, At(cfg, es, k), es[k]);
    }
  }

  /** An answer at `j` to the row inserted at `k` is the first thing to end its wait, and
      says 250 exactly when the insert reported no error. */
  lemma AnswerToRow(cfg: RelayConfig, es: seq<Event>, k: nat, j: nat)
    requires ValidConfig(cfg) && CanRun(cfg, Start(cfg), es) && k < j < |es| && es[k].Insert?
    requires j == FirstEnd(es, es[k].c, k + 1) && es[j].Answer?
    ensures AcknowledgesRow(cfg, At(cfg, es, j), es[j], es[k].id) <==> !es[k].errored
  {
    hide Enabled, Apply, At, React;
    InsertionStays(cfg, es, k, j);
    AtSafe(cfg, es, j);
    var s := At(cfg, es, j);
    assert RowHolds(cfg, s, es[j].c);
    InsertedBody(cfg.smtp, s.conns[es[j].c], es[k].text, es[k].errored);
  }

  lemma AnswerIsFirst(cfg: RelayConfig, es: seq<Event>, k: nat, j: nat)
    requires CanRun(cfg, Start(cfg), es) && k < |es| && j < |es| && es[k].Insert?
    requires AcknowledgesRow(cfg, At(cfg, es, j), es[j], es[k].id)
    ensures k < j && es[j].Answer? && j == FirstEnd(es, es[k].c, k + 1)
  {
    hide Enabled, Apply, At, React, OnInserted;
    var from := InsertionCameFrom(cfg, es, j, es[j].c);
    if from <= k {
      OneInsert(cfg, es, from, k, es[k].id);
    } else {
      OneInsert(cfg, es, k, from, es[k].id);
    }
  }

  /** The insert of a complete body that passed every check. */
  ghost predicate InsertsBody(cfg: RelayConfig, s: State, e: Event, content: Content) {
    && e.Insert? && e.c in s.conns && s.conns[e.c].mode.Data? && SplitBody(e.text).Body?
    && content == Received(s.conns[e.c], e.text) && ContentOk(cfg.smtp, s.approved, content)
  }

  /** The insert at `k` reported no error, and the reply came before anything that would
      have prevented it. */
  ghost predicate RepliedInTime(es: seq<Event>, k: nat)
    requires k < |es|
  {
    es[k].Insert? && !es[k].errored &&
    var end := FirstEnd(es, es[k].c, k + 1);
    end < |es| && es[end].Answer?
  }

  /** Every row goes back to exactly one checked body.  It was acknowledged if and only if
      the insert reported no error and the reply came before a crash or a disconnection. */
  lemma EveryRowIsOneBody(cfg: RelayConfig, es: seq<Event>, id: string) returns (k: nat)
    requires ValidConfig(cfg) && CanRun(cfg, Start(cfg), es) && id in After(cfg, Start(cfg), es).queue.rows
    ensures k < |es| && forall j :: 0 <= j < |es| ==> (InsertsRow(es[j], id) <==> j == k)
    ensures InsertsBody(cfg, At(cfg, es, k), es[k], After(cfg, Start(cfg), es).queue.rows[id].content)
    ensures (exists j :: 0 <= j < |es| && AcknowledgesRow(cfg, At(cfg, es, j), es[j], id)) <==> RepliedInTime(es, k)
  {
    hide Enabled, Apply, At, AcknowledgesRow, Ends, InsertsBody;
    AtEnds(cfg, es);
    k := RowCameFrom(cfg, es, |es|, id);
    forall j | 0 <= j < |es| && InsertsRow(es[j], id) ensures j == k {
      if j <= k {
        OneInsert(cfg, es, j, k, id);
      } else {
        OneInsert(cfg, es, k, j, id);
      }
    }
    BodyOfRow(cfg, es, k, id);
    var end := FirstEnd(es, es[k].c, k + 1);
    if end < |es| && es[end].Answer? {
      AnswerToRow(cfg, es, k, end);
    }
    forall j | 0 <= j < |es| && AcknowledgesRow(cfg, At(cfg, es, j), es[j], id)
      ensures j == end && es[end].Answer?
    {
      AnswerIsFirst(cfg, es, k, j);
    }
  }

  lemma BodyOfRow(cfg: RelayConfig, es: seq<Event>, k: nat, id: string)
    requires ValidConfig(cfg) && CanRun(cfg, Start(cfg), es) && k < |es| && InsertsRow(es[k], id)
    ensures id in After(cfg, Start(cfg), es).queue.rows
    ensures InsertsBody(cfg, At(cfg, es, k), es[k], After(cfg, Start(cfg), es).queue.rows[id].content)
  {
    hide Apply, At, React, D.Enabled, ContentOk, SessionInv, SplitBody, Received;
    var s, e := At(cfg, es, k), es[k];
    AtStep(cfg, es, k);
    AtSafe(cfg, es, k);
    InsertedRow(cfg, s, e);
    InsertedBody(cfg.smtp, s.conns[e.c], e.text, false);
    ReactKeeps(cfg.smtp, s.approved, s.conns[e.c], e.text, NOT_ASKED);
    RowsPersist(cfg, es, k + 1, |es|, id);
    AtEnds(cfg, es);
  }
}
