/** When the backlog limit fails: sessions that all pass the check at the last free place
    push the queue past its limit by one message for every other connection.  The run that
    does it is built from the first start-up on. */
module BacklogRace {
  import opened Queue
  import D = Delivery
  import opened Session
  import opened Conversation
  import opened PlainClient
  import opened Opening
  import opened Relay
  import opened RelayRuns

  // ---- Runs of the relay, put together ----

  lemma RelayOneMore(cfg: RelayConfig, s: State, es: seq<Event>, e: Event)
    requires CanRun(cfg, s, es) && Enabled(cfg, After(cfg, s, es), e)
    ensures CanRun(cfg, s, es + [e]) && After(cfg, s, es + [e]) == Apply(cfg, After(cfg, s, es), e)
  {
    hide Enabled, Apply;
    assert (es + [e])[..|es|] == es;
  }

  lemma NoEvents(cfg: RelayConfig, s: State)
    ensures CanRun(cfg, s, []) && After(cfg, s, []) == s
  {}

  lemma RunUnfolds(cfg: RelayConfig, s: State, es: seq<Event>)
    requires CanRun(cfg, s, es)
    ensures es == [] ==> After(cfg, s, es) == s
    ensures es != [] ==> var n := |es| - 1;
      && CanRun(cfg, s, es[..n]) && Enabled(cfg, After(cfg, s, es[..n]), es[n])
      && After(cfg, s, es) == Apply(cfg, After(cfg, s, es[..n]), es[n])
  {
    hide Enabled, Apply;
  }

  lemma {:induction false} RelayRunsCompose(cfg: RelayConfig, s: State, es: seq<Event>, more: seq<Event>)
    requires CanRun(cfg, s, es) && CanRun(cfg, After(cfg, s, es), more)
    ensures CanRun(cfg, s, es + more) && After(cfg, s, es + more) == After(cfg, After(cfg, s, es), more)
  {
    hide Enabled, Apply, CanRun, After;
    RunUnfolds(cfg, After(cfg, s, es), more);
    if more == [] {
      assert es + more == es;
    } else {
      var n := |more| - 1;
      RelayRunsCompose(cfg, s, es, more[..n]);
      RelayOneMore(cfg, s, es + more[..n], more[n]);
      assert es + more == es + more[..n] + [more[n]];
    }
  }

  /** One piece for connection `c`, answered without a look at the queue. */
  lemma OnePiece(cfg: RelayConfig, s: State, es: seq<Event>, c: nat, text: string, a: Answers)
    requires CanRun(cfg, s, es)
    requires var t := After(cfg, s, es); t.queue.up && c in t.conns && c !in t.inserted && !t.conns[c].mode.Closed?
    requires a.backlog.None? && !React(cfg.smtp, After(cfg, s, es).conns[c], text, a).effect.Queued?
    ensures CanRun(cfg, s, es + [Receive(c, text, a)])
    ensures var t, t' := After(cfg, s, es), After(cfg, s, es + [Receive(c, text, a)]);
      && t'.queue == t.queue && t'.inserted == t.inserted && t'.slots == t.slots
      && t'.conns == t.conns[c := React(cfg.smtp, t.conns[c], text, a).session]
  {
    hide React, D.Enabled, D.Apply, CanRun, After;
    RelayOneMore(cfg, s, es, Receive(c, text, a));
  }

  /** A new connection takes a slot and holds the conversation `o`. */
  lemma {:induction false} OneTalks(cfg: RelayConfig, s: State, c: nat, o: Opening, ready: Session)
    returns (es: seq<Event>)
    requires Leads(cfg.smtp, o, ready) && Unasked(o.log)
    requires s.queue.up && c !in s.conns && c !in s.inserted && s.slots < cfg.maxConnections
    ensures CanRun(cfg, s, es) && !ready.mode.Data?
    ensures var s' := After(cfg, s, es);
      && s'.queue == s.queue && s'.inserted == s.inserted && s'.slots == s.slots + 1
      && s'.conns == s.conns[c := ready]
    decreases |o.log|
  {
    hide React, D.Enabled, D.Apply, CanRun, After;
    if o.log == [] {
      es := Arrives(cfg, s, c, o.tls);
    } else {
      var n := |o.log| - 1;
      var before := Replayed(cfg.smtp, Greeted(o.tls), o.log[..n]).value;
      assert o.log[n] in o.log && forall e :: e in o.log[..n] ==> e in o.log;
      es := OneTalks(cfg, s, c, Opening(o.tls, o.log[..n]), before);
      NothingQueued(cfg.smtp, before, o.log[n].text, o.log[n].answers);
      OnePiece(cfg, s, es, c, o.log[n].text, o.log[n].answers);
      if ready.mode.Data? {
        DataStarts(cfg.smtp, before, o.log[n].text, o.log[n].answers);
      }
      es := es + [Receive(c, o.log[n].text, o.log[n].answers)];
    }
  }

  lemma Arrives(cfg: RelayConfig, s: State, c: nat, tls: bool) returns (es: seq<Event>)
    requires s.queue.up && c !in s.conns && s.slots < cfg.maxConnections
    ensures CanRun(cfg, s, es)
    ensures After(cfg, s, es) == s.(conns := s.conns[c := Greeted(tls)], slots := s.slots + 1)
  {
    hide React, D.Enabled, D.Apply;
    RelayOneMore(cfg, s, [], Accept(c, tls));
    es := [] + [Accept(c, tls)];
  }

  // ---- Everyone passes the check ----

  lemma OnePassesCheck(cfg: RelayConfig, s: State, c: nat) returns (e: Event)
    requires s.queue.up && c in s.conns && c !in s.inserted && MaySendData(cfg.smtp, s.conns[c])
    requires |Backlog(s.queue.rows)| < cfg.smtp.maxBacklog
    ensures Enabled(cfg, s, e)
    ensures var s' := Apply(cfg, s, e);
      && c in s'.conns && s'.queue == s.queue && s'.inserted == s.inserted && s'.slots == s.slots
      && s'.conns == s.conns[c := s'.conns[c]]
      && s'.conns[c].mode.Data? && HasEnvelope(s'.conns[c])
  {
    hide React, Backlog;
    var a := NOT_ASKED.(backlog := Some(|Backlog(s.queue.rows)|));
    PlainLines();
    DataAccepted(cfg.smtp, s.conns[c], DATA_LINE, "", a);
    e := Receive(c, DATA_LINE, a);
  }

  lemma {:induction false} EveryonePassesCheck(cfg: RelayConfig, s: State, who: set<nat>) returns (es: seq<Event>)
    requires s.queue.up && who <= s.conns.Keys && who !! s.inserted.Keys
    requires |Backlog(s.queue.rows)| < cfg.smtp.maxBacklog
    requires forall c :: c in who ==> MaySendData(cfg.smtp, s.conns[c])
    ensures CanRun(cfg, s, es)
    ensures var s' := After(cfg, s, es);
      && s'.queue == s.queue && s'.inserted == s.inserted && s'.conns.Keys == s.conns.Keys
      && (forall c :: c in s.conns && c !in who ==> s'.conns[c] == s.conns[c])
      && (forall c :: c in who ==> s'.conns[c].mode.Data? && HasEnvelope(s'.conns[c]))
    decreases |who|
  {
    hide Enabled, Apply, CanRun, After, Backlog;
    es := [];
    NoEvents(cfg, s);
    if who != {} {
      var c :| c in who;
      es := EveryonePassesCheck(cfg, s, who - {c});
      var e := OnePassesCheck(cfg, After(cfg, s, es), c);
      RelayOneMore(cfg, s, es, e);
      es := es + [e];
    }
  }

  // ---- Everyone inserts ----

  lemma {:induction false} LongestId(ids: set<string>) returns (n: nat)
    ensures forall id :: id in ids ==> |id| <= n
  {
    n := 0;
    if ids != {} {
      var x :| x in ids;
      n := LongestId(ids - {x});
      n := if |x| > n then |x| else n;
    }
  }

  lemma FreshId(ids: set<string>) returns (id: string)
    ensures id !in ids && id != ""
  {
    var n := LongestId(ids);
    id := seq(n + 1, _ => 'x');
  }

  lemma InsertGrowsBacklog(rows: Table, id: string, content: Content)
    requires id !in rows
    ensures |Backlog(rows[id := NewRow(content, 0, 0)])| == |Backlog(rows)| + 1
  {
    assert Backlog(rows[id := NewRow(content, 0, 0)]) == Backlog(rows) + {id};
  }

  lemma OneInserts(cfg: RelayConfig, s: State, c: nat) returns (e: Event)
    requires s.queue.up && c in s.conns && c !in s.inserted && s.conns[c].mode.Data? && HasEnvelope(s.conns[c])
    requires cfg.smtp.maxMessageBytes >= 1
    ensures Enabled(cfg, s, e)
    ensures var s' := Apply(cfg, s, e);
      && s'.queue.up && s'.conns == s.conns && s'.slots == s.slots && s'.inserted.Keys == s.inserted.Keys + {c}
      && |Backlog(s'.queue.rows)| == |Backlog(s.queue.rows)| + 1
  {
    hide React, Backlog, FirstEligible, Stuck;
    var id := FreshId(s.queue.rows.Keys);
    BodyAccepted(cfg.smtp, s.conns[c]);
    InsertGrowsBacklog(s.queue.rows, id, Content(s.conns[c].mailFrom, s.conns[c].rcptTo, "\n"));
    assert NOT_ASKED.(insertError := false) == NOT_ASKED;
    e := Insert(c, SMALL_BODY, id, 0, false);
  }

  ghost predicate ReadyToInsert(s: State, who: set<nat>) {
    && s.queue.up && who <= s.conns.Keys && who !! s.inserted.Keys
    && forall c :: c in who ==> s.conns[c].mode.Data? && HasEnvelope(s.conns[c])
  }

  ghost predicate AllInserted(s: State, s': State, who: set<nat>) {
    && s'.queue.up && s'.conns == s.conns && s'.inserted.Keys == s.inserted.Keys + who
    && |Backlog(s'.queue.rows)| == |Backlog(s.queue.rows)| + |who|
  }

  lemma NextInserts(cfg: RelayConfig, s: State, t: State, done: set<nat>, c: nat) returns (e: Event)
    requires c !in done && ReadyToInsert(s, done + {c}) && AllInserted(s, t, done) && cfg.smtp.maxMessageBytes >= 1
    ensures Enabled(cfg, t, e) && AllInserted(s, Apply(cfg, t, e), done + {c})
  {
    hide Enabled, Apply, Backlog, HasEnvelope;
    assert c in done + {c};
    e := OneInserts(cfg, t, c);
  }

  lemma {:induction false} EveryoneInserts(cfg: RelayConfig, s: State, who: set<nat>) returns (es: seq<Event>)
    requires ReadyToInsert(s, who) && cfg.smtp.maxMessageBytes >= 1
    ensures CanRun(cfg, s, es) && AllInserted(s, After(cfg, s, es), who)
    decreases |who|
  {
    hide Enabled, Apply, CanRun, After, Backlog, HasEnvelope;
    es := [];
    NoEvents(cfg, s);
    if who != {} {
      var c :| c in who;
      var done := who - {c};
      assert who == done + {c};
      es := EveryoneInserts(cfg, s, done);
      var e := NextInserts(cfg, s, After(cfg, s, es), done, c);
      RelayOneMore(cfg, s, es, e);
      es := es + [e];
    }
  }

  /** From one free place in the queue and every connection ready to send DATA, the queue
      reaches limit + connections - 1. */
  lemma RaceIsLost(cfg: RelayConfig, s: State) returns (es: seq<Event>)
    requires s.queue.up && cfg.smtp.maxMessageBytes >= 1 && s.inserted == map[]
    requires |s.conns| == cfg.maxConnections && |Backlog(s.queue.rows)| == cfg.smtp.maxBacklog - 1
    requires forall c :: c in s.conns ==> MaySendData(cfg.smtp, s.conns[c])
    ensures CanRun(cfg, s, es)
    ensures |Backlog(After(cfg, s, es).queue.rows)| == Bound(cfg)
  {
    hide Enabled, Apply, Backlog;
    es := EveryonePassesCheck(cfg, s, s.conns.Keys);
    var t := After(cfg, s, es);
    var more := EveryoneInserts(cfg, t, s.conns.Keys);
    RelayRunsCompose(cfg, s, es, more);
    assert |s.conns.Keys| == |s.conns|;
    es := es + more;
  }

  // ---- From the first start-up to the last free place ----

  /** Up, no connection, and `n` messages waiting. */
  ghost predicate Quiet(s: State, n: nat) {
    s.queue.up && s.conns == map[] && s.inserted == map[] && s.slots == 0 && |Backlog(s.queue.rows)| == n
  }

  lemma StartsQuiet(cfg: RelayConfig)
    ensures CanRun(cfg, Start(cfg), [Restart(0, 0)]) && Quiet(After(cfg, Start(cfg), [Restart(0, 0)]), 0)
  {
    hide React;
    RelayOneMore(cfg, Start(cfg), [], Restart(0, 0));
    assert [] + [Restart(0, 0)] == [Restart(0, 0)];
    assert Recovered(map[], 0, 0) == map[] && Backlog(map[]) == {};
  }

  /** The reply, and the client leaves. */
  lemma OneLeaves(cfg: RelayConfig, s: State, es: seq<Event>, c: nat) returns (longer: seq<Event>)
    requires CanRun(cfg, s, es)
    requires var t := After(cfg, s, es);
      t.queue.up && t.conns.Keys == {c} && t.inserted.Keys == {c} && t.slots == 1
    ensures CanRun(cfg, s, longer)
    ensures Quiet(After(cfg, s, longer), |Backlog(After(cfg, s, es).queue.rows)|)
  {
    hide React, OnInserted, D.Enabled, D.Apply, CanRun, After, Backlog;
    RelayOneMore(cfg, s, es, Answer(c));
    RelayOneMore(cfg, s, es + [Answer(c)], Disconnect(c));
    longer := es + [Answer(c)] + [Disconnect(c)];
  }

  lemma OneMoreMessage(cfg: RelayConfig, s: State, n: nat, o: Opening, ready: Session) returns (es: seq<Event>)
    requires ValidConfig(cfg) && Opens(cfg.smtp, o, ready) && cfg.smtp.maxMessageBytes >= 1
    requires Quiet(s, n) && n < cfg.smtp.maxBacklog
    ensures CanRun(cfg, s, es) && Quiet(After(cfg, s, es), n + 1)
  {
    hide Enabled, Apply, CanRun, After, Backlog, Leads;
    es := OneTalks(cfg, s, 0, o, ready);
    var e := OnePassesCheck(cfg, After(cfg, s, es), 0);
    RelayOneMore(cfg, s, es, e);
    es := es + [e];
    e := OneInserts(cfg, After(cfg, s, es), 0);
    RelayOneMore(cfg, s, es, e);
    es := OneLeaves(cfg, s, es + [e], 0);
  }

  lemma {:induction false} FillQueue(cfg: RelayConfig, n: nat, o: Opening, ready: Session) returns (es: seq<Event>)
    requires ValidConfig(cfg) && Opens(cfg.smtp, o, ready) && cfg.smtp.maxMessageBytes >= 1 && n <= cfg.smtp.maxBacklog
    ensures CanRun(cfg, Start(cfg), es) && Quiet(After(cfg, Start(cfg), es), n)
  {
    hide Enabled, Apply, CanRun, After, Opens, Quiet;
    if n == 0 {
      StartsQuiet(cfg);
      es := [Restart(0, 0)];
    } else {
      es := FillQueue(cfg, n - 1, o, ready);
      var more := OneMoreMessage(cfg, After(cfg, Start(cfg), es), n - 1, o, ready);
      RelayRunsCompose(cfg, Start(cfg), es, more);
      es := es + more;
    }
  }

  /** `n` connections have held their conversation. */
  ghost predicate Waiting(s: State, n: nat, ready: Session) {
    && s.queue.up && s.inserted == map[] && s.slots == n == |s.conns|
    && (forall c :: c in s.conns ==> c < n && s.conns[c] == ready)
  }

  lemma OneMoreWaits(s: State, s': State, n: nat, ready: Session)
    requires Waiting(s, n, ready)
    requires s'.queue == s.queue && s'.inserted == s.inserted && s'.slots == s.slots + 1
    requires s'.conns == s.conns[n := ready]
    ensures Waiting(s', n + 1, ready)
  {
    HandlerCount(s.conns, n, ready);
  }

  lemma {:induction false} EveryoneTalks(cfg: RelayConfig, s: State, n: nat, o: Opening, ready: Session)
    returns (es: seq<Event>)
    requires Opens(cfg.smtp, o, ready) && cfg.smtp.maxMessageBytes >= 1 && n <= cfg.maxConnections
    requires s.queue.up && s.conns == map[] && s.inserted == map[] && s.slots == 0
    ensures CanRun(cfg, s, es)
    ensures After(cfg, s, es).queue == s.queue && Waiting(After(cfg, s, es), n, ready)
  {
    hide Enabled, Apply, Leads, MaySendData;
    es := [];
    if n > 0 {
      es := EveryoneTalks(cfg, s, n - 1, o, ready);
      var t := After(cfg, s, es);
      var more := OneTalks(cfg, t, n - 1, o, ready);
      RelayRunsCompose(cfg, s, es, more);
      OneMoreWaits(t, After(cfg, t, more), n - 1, ready);
      es := es + more;
    }
  }

  /** The bound is reached from the first start-up by every configuration that takes any
      mail: it cannot be lowered. */
  lemma BoundIsReached(cfg: RelayConfig) returns (es: seq<Event>)
    requires ValidConfig(cfg) && TakesMail(cfg.smtp)
    ensures CanRun(cfg, Start(cfg), es)
    ensures |Backlog(After(cfg, Start(cfg), es).queue.rows)| == cfg.smtp.maxBacklog + cfg.maxConnections - 1
  {
    hide Enabled, Apply, CanRun, After, Backlog, Leads, MaySendData;
    var o, ready := MailHasOpening(cfg.smtp);
    es := FillQueue(cfg, cfg.smtp.maxBacklog - 1, o, ready);
    var full := After(cfg, Start(cfg), es);
    var arrivals := EveryoneTalks(cfg, full, cfg.maxConnections, o, ready);
    RelayRunsCompose(cfg, Start(cfg), es, arrivals);
    es := es + arrivals;
    var race := RaceIsLost(cfg, After(cfg, Start(cfg), es));
    RelayRunsCompose(cfg, Start(cfg), es, race);
    es := es + race;
  }

  // ---- Without mail there is no backlog ----

  /** Every session has got where it is by a conversation, and nothing was ever queued. */
  ghost predicate NoMail(cfg: RelayConfig, s: State) {
    && s.queue.rows == map[] && s.inserted == map[]
    && forall c :: c in s.conns ==> Talked(cfg.smtp, s.conns[c])
  }

  ghost predicate Talked(cfg: Config, s: Session) {
    exists o :: Leads(cfg, o, s)
  }

  lemma TalksOn(cfg: Config, s: Session, text: string, a: Answers)
    requires Talked(cfg, s) && !s.mode.Closed?
    ensures Talked(cfg, React(cfg, s, text, a).session)
  {
    hide React, Leads;
    var o :| Leads(cfg, o, s);
    var o' := Said(cfg, o, s, text, a);
  }

  lemma NoBodyQueued(cfg: Config, s: Session, text: string)
    requires !TakesMail(cfg) && Talked(cfg, s) && s.mode.Data?
    ensures !React(cfg, s, text, NOT_ASKED).effect.Queued?
  {
    hide Leads, DataReader.SplitBody, DataReader.Unstuffed;
    var o :| Leads(cfg, o, s);
    assert exists o', s' :: Leads(cfg, o', s') && s'.mode.Data?;
  }

  lemma NoMailStep(cfg: RelayConfig, s: State, e: Event)
    requires !TakesMail(cfg.smtp) && NoMail(cfg, s) && Enabled(cfg, s, e)
    ensures NoMail(cfg, Apply(cfg, s, e))
  {
    hide D.Enabled, D.Apply, React, OnInserted, Talked, TakesMail;
    if e.Insert? {
      NoBodyQueued(cfg.smtp, s.conns[e.c], e.text);
      NotErrored(cfg, s.conns[e.c], e.text);
    }
    var steps, s' := QueueSteps(cfg, s, e), Apply(cfg, s, e);
    forall id | id in s'.queue.rows ensures id in s.queue.rows {
      if steps != [] {
        ContentStays(cfg.queue, s.queue, steps[0], id);
      }
    }
    match e
    case Accept(_, tls) => TalksFirst(cfg.smtp, tls);
    case Receive(c, text, answers) => TalksOn(cfg.smtp, s.conns[c], text, answers);
    case _ =>
  }

  lemma TalksFirst(cfg: Config, tls: bool)
    ensures Talked(cfg, Greeted(tls))
  {
    hide Leads;
    JustGreeted(cfg, tls);
  }

  lemma NotErrored(cfg: RelayConfig, s: Session, text: string)
    ensures OnInserted(cfg, s, text, false) == React(cfg.smtp, s, text, NOT_ASKED)
  {
    hide React;
    assert NOT_ASKED.(insertError := false) == NOT_ASKED;
  }

  lemma {:induction false} NoMailEver(cfg: RelayConfig, es: seq<Event>)
    requires !TakesMail(cfg.smtp) && CanRun(cfg, Start(cfg), es)
    ensures NoMail(cfg, After(cfg, Start(cfg), es))
  {
    hide Enabled, Apply, TakesMail, Talked;
    if es != [] {
      var n := |es| - 1;
      NoMailEver(cfg, es[..n]);
      NoMailStep(cfg, After(cfg, Start(cfg), es[..n]), es[n]);
    }
  }

  // ---- The limit as the configuration states it ----

  ghost predicate LimitHolds(cfg: RelayConfig) {
    forall es :: CanRun(cfg, Start(cfg), es) ==>
      |Backlog(After(cfg, Start(cfg), es).queue.rows)| <= cfg.smtp.maxBacklog
  }

  /** A single connection keeps the limit, and so does a relay that takes no mail; every
      other configuration breaks it. */
  lemma LimitHoldsExactlyWhen(cfg: RelayConfig)
    requires ValidConfig(cfg)
    ensures LimitHolds(cfg) <==> cfg.maxConnections == 1 || !TakesMail(cfg.smtp)
  {
    hide Enabled, Apply, CanRun, After, TakesMail, RelayInv;
    if cfg.maxConnections == 1 || !TakesMail(cfg.smtp) {
      forall es | CanRun(cfg, Start(cfg), es)
        ensures |Backlog(After(cfg, Start(cfg), es).queue.rows)| <= cfg.smtp.maxBacklog
      {
        Reached(cfg, es);
        AtMostBound(cfg, After(cfg, Start(cfg), es));
        if !TakesMail(cfg.smtp) {
          NoMailEver(cfg, es);
          assert Backlog(map[]) == {};
        }
      }
    } else {
      var es := BoundIsReached(cfg);
    }
  }

  lemma AtMostBound(cfg: RelayConfig, s: State)
    requires RelayInv(cfg, s)
    ensures |Backlog(s.queue.rows)| <= Bound(cfg)
  {}
}
