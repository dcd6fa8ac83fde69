/** Each session of a run of the relay is a conversation, whatever the others do meanwhile. */
module Talks {
  import opened Queue
  import D = Delivery
  import opened Session
  import opened Conversation
  import opened Logins
  import opened Relay
  import opened RelayRuns

  /** What one connection has sent since it was accepted. */
  datatype Talk = Talk(implicitTls: bool, log: seq<Entry>)

  function More(talk: Talk, text: string, a: Answers, code: int): Talk {
    talk.(log := talk.log + [Entry(text, a, code)])
  }

  /** One more event of the run, as connection `c` sees it. */
  function Heard(cfg: RelayConfig, s: State, e: Event, c: nat, talk: Talk): Talk
    requires Enabled(cfg, s, e)
  {
    match e
    case Accept(d, implicitTls) => if c == d then Talk(implicitTls, []) else talk
    case Receive(d, text, a) =>
      if c == d then More(talk, text, a, React(cfg.smtp, s.conns[c], text, a).code) else talk
    case Answer(d) =>
      if c == d then
        var i := s.inserted[c];
        var a := NOT_ASKED.(insertError := i.errored);
        More(talk, i.text, a, React(cfg.smtp, s.conns[c], i.text, a).code)
      else talk
    case _ => talk
  }

  ghost function TalkOf(cfg: RelayConfig, es: seq<Event>, c: nat): Talk
    requires CanRun(cfg, Start(cfg), es)
  {
    if es == [] then Talk(false, []) else
      var n := |es| - 1;
      Heard(cfg, After(cfg, Start(cfg), es[..n]), es[n], c, TalkOf(cfg, es[..n], c))
  }

  ghost predicate IsTalk(cfg: Config, talk: Talk, s: Session) {
    Replayed(cfg, Session(talk.implicitTls, false, false, 0, "", [], 0, Command), talk.log) == Some(s)
  }

  lemma HeardStep(cfg: RelayConfig, s: State, e: Event, c: nat, talk: Talk)
    requires FrontInv(cfg, s) && Enabled(cfg, s, e) && c in Apply(cfg, s, e).conns
    requires c in s.conns ==> IsTalk(cfg.smtp, talk, s.conns[c])
    ensures IsTalk(cfg.smtp, Heard(cfg, s, e, c, talk), Apply(cfg, s, e).conns[c])
  {
    hide D.Enabled, D.Apply, React, SessionInv, QueueAfter;
    var start := Session(talk.implicitTls, false, false, 0, "", [], 0, Command);
    var heard := Heard(cfg, s, e, c, talk);
    if |heard.log| > |talk.log| {
      Appended(cfg.smtp, start, "", talk.log, heard.log[|talk.log|]);
    }
  }

  /** The session of a connection is where its own talk leads from a fresh session. */
  lemma {:induction false} SessionsAreConversations(cfg: RelayConfig, es: seq<Event>, c: nat)
    requires ValidConfig(cfg) && CanRun(cfg, Start(cfg), es) && c in After(cfg, Start(cfg), es).conns
    ensures IsTalk(cfg.smtp, TalkOf(cfg, es, c), After(cfg, Start(cfg), es).conns[c])
  {
    hide Enabled, Apply, Heard, IsTalk, RelayInv;
    var n := |es| - 1;
    var s := After(cfg, Start(cfg), es[..n]);
    if c in s.conns {
      SessionsAreConversations(cfg, es[..n], c);
    }
    Reached(cfg, es[..n]);
    assert FrontInv(cfg, s) by { FrontOf(cfg, s); }
    HeardStep(cfg, s, es[n], c, TalkOf(cfg, es[..n], c));
  }

  lemma FrontOf(cfg: RelayConfig, s: State)
    requires RelayInv(cfg, s)
    ensures FrontInv(cfg, s)
  {}

  /** So nobody is logged in who did not present a configured pair on that connection. */
  lemma RelayLogins(cfg: RelayConfig, es: seq<Event>, c: nat)
    requires ValidConfig(cfg) && CanRun(cfg, Start(cfg), es) && c in After(cfg, Start(cfg), es).conns
    requires After(cfg, Start(cfg), es).conns[c].authed
    ensures var talk := TalkOf(cfg, es, c);
      LoggedIn(cfg.smtp, Session(talk.implicitTls, false, false, 0, "", [], 0, Command), talk.log)
  {
    hide Enabled, Apply, LoggedIn;
    var talk := TalkOf(cfg, es, c);
    SessionsAreConversations(cfg, es, c);
    AuthedByLogin(cfg.smtp, Session(talk.implicitTls, false, false, 0, "", [], 0, Command), talk.log);
  }
}
