/** What must have happened in a conversation for its session to be greeted or logged in. */
module Logins {
  import opened Queue
  import opened Text
  import opened Session
  import opened SessionRules
  import opened Conversation

  /** The session before piece `k`. */
  ghost predicate Before(cfg: Config, start: Session, log: seq<Entry>, k: nat, s: Session) {
    k < |log| && Replayed(cfg, start, log[..k]) == Some(s)
  }

  ghost predicate LoginAt(cfg: Config, start: Session, log: seq<Entry>, k: nat) {
    exists s :: Before(cfg, start, log, k, s) && LogsIn(cfg, s, log[k].text, log[k].answers)
  }

  ghost predicate GreetingAt(cfg: Config, start: Session, log: seq<Entry>, k: nat) {
    exists s :: Before(cfg, start, log, k, s) && Greets(cfg, s, log[k].text)
  }

  ghost predicate HandshakeAt(cfg: Config, start: Session, log: seq<Entry>, k: nat) {
    exists s :: Before(cfg, start, log, k, s) && TurnsTls(cfg, s, log[k].text, log[k].answers)
  }

  /** Some piece presented credentials in `cfg.users`, and no handshake came after it. */
  ghost predicate LoggedIn(cfg: Config, start: Session, log: seq<Entry>) {
    exists k :: 0 <= k < |log| && LoginAt(cfg, start, log, k) &&
      forall j :: k < j < |log| ==> !HandshakeAt(cfg, start, log, j)
  }

  ghost predicate WasGreeted(cfg: Config, start: Session, log: seq<Entry>) {
    exists k :: 0 <= k < |log| && GreetingAt(cfg, start, log, k) &&
      forall j :: k < j < |log| ==> !HandshakeAt(cfg, start, log, j)
  }

  /** Some piece was STARTTLS on plaintext and led to a handshake. */
  ghost predicate TlsBegan(cfg: Config, start: Session, log: seq<Entry>) {
    exists k :: 0 <= k < |log| && HandshakeAt(cfg, start, log, k)
  }

  lemma PrefixSame(cfg: Config, start: Session, log: seq<Entry>, k: nat)
    requires k < |log| - 1
    ensures LoginAt(cfg, start, log, k) <==> LoginAt(cfg, start, log[..|log| - 1], k)
    ensures GreetingAt(cfg, start, log, k) <==> GreetingAt(cfg, start, log[..|log| - 1], k)
    ensures HandshakeAt(cfg, start, log, k) <==> HandshakeAt(cfg, start, log[..|log| - 1], k)
  {
    hide Replayed, LogsIn, Greets, TurnsTls;
    assert log[..|log| - 1][..k] == log[..k];
  }

  /** A session is authenticated only after right credentials, later than any STARTTLS. */
  lemma {:induction false} AuthedByLogin(cfg: Config, start: Session, log: seq<Entry>)
    requires Replayed(cfg, start, log).Some? && Replayed(cfg, start, log).value.authed && !start.authed
    ensures LoggedIn(cfg, start, log)
  {
    hide React, LogsIn, TurnsTls, LoginAt, HandshakeAt;
    var n := |log| - 1;
    var s := Replayed(cfg, start, log[..n]).value;
    var text, a := log[n].text, log[n].answers;
    StateRules(cfg, s, text, a);
    HandshakeIsLast(cfg, start, log, s);
    if s.authed {
      AuthedByLogin(cfg, start, log[..n]);
      var k :| 0 <= k < n && LoginAt(cfg, start, log[..n], k) &&
        forall j :: k < j < n ==> !HandshakeAt(cfg, start, log[..n], j);
      Extended(cfg, start, log, k);
      forall j | k < j < |log| ensures !HandshakeAt(cfg, start, log, j) {
        if j < n {
          PrefixSame(cfg, start, log, j);
        }
      }
    } else {
      LoginRule(cfg, s, text, a);
      assert Before(cfg, start, log, n, s);
      assert LoginAt(cfg, start, log, n) by { LastLogin(cfg, start, log, s); }
    }
  }

  lemma Extended(cfg: Config, start: Session, log: seq<Entry>, k: nat)
    requires k < |log| - 1 && LoginAt(cfg, start, log[..|log| - 1], k)
    ensures LoginAt(cfg, start, log, k)
  {
    hide LoginAt;
    PrefixSame(cfg, start, log, k);
  }

  lemma LastLogin(cfg: Config, start: Session, log: seq<Entry>, s: Session)
    requires log != [] && Before(cfg, start, log, |log| - 1, s)
    requires LogsIn(cfg, s, log[|log| - 1].text, log[|log| - 1].answers)
    ensures LoginAt(cfg, start, log, |log| - 1)
  {}

  /** And greeted only after EHLO or HELO, later than any STARTTLS. */
  lemma {:induction false} GreetedByEhlo(cfg: Config, start: Session, log: seq<Entry>)
    requires Replayed(cfg, start, log).Some? && Replayed(cfg, start, log).value.greeted && !start.greeted
    ensures WasGreeted(cfg, start, log)
  {
    hide React, TurnsTls, Greets, GreetingAt, HandshakeAt;
    var n := |log| - 1;
    var s := Replayed(cfg, start, log[..n]).value;
    var text, a := log[n].text, log[n].answers;
    StateRules(cfg, s, text, a);
    HandshakeIsLast(cfg, start, log, s);
    if Greets(cfg, s, text) {
      assert GreetingAt(cfg, start, log, n) by { LastGreeting(cfg, start, log, s); }
    } else {
      GreetedByEhlo(cfg, start, log[..n]);
      var k :| 0 <= k < n && GreetingAt(cfg, start, log[..n], k) &&
        forall j :: k < j < n ==> !HandshakeAt(cfg, start, log[..n], j);
      PrefixSame(cfg, start, log, k);
      forall j | k < j < |log| ensures !HandshakeAt(cfg, start, log, j) {
        if j < n {
          PrefixSame(cfg, start, log, j);
        }
      }
    }
  }

  lemma LastGreeting(cfg: Config, start: Session, log: seq<Entry>, s: Session)
    requires log != [] && Before(cfg, start, log, |log| - 1, s) && Greets(cfg, s, log[|log| - 1].text)
    ensures GreetingAt(cfg, start, log, |log| - 1)
  {}

  /** And on TLS exactly after a handshake, or when it began on TLS. */
  lemma {:induction false} TlsByHandshake(cfg: Config, start: Session, log: seq<Entry>)
    requires Replayed(cfg, start, log).Some?
    ensures Replayed(cfg, start, log).value.tls <==> start.tls || TlsBegan(cfg, start, log)
  {
    hide React, TurnsTls, HandshakeAt;
    if log != [] {
      var n := |log| - 1;
      var s := Replayed(cfg, start, log[..n]).value;
      StateRules(cfg, s, log[n].text, log[n].answers);
      TlsByHandshake(cfg, start, log[..n]);
      HandshakeIsLast(cfg, start, log, s);
      forall k | 0 <= k < n ensures HandshakeAt(cfg, start, log, k) <==> HandshakeAt(cfg, start, log[..n], k) {
        PrefixSame(cfg, start, log, k);
      }
    }
  }

  lemma HandshakeIsLast(cfg: Config, start: Session, log: seq<Entry>, s: Session)
    requires log != [] && Before(cfg, start, log, |log| - 1, s)
    ensures HandshakeAt(cfg, start, log, |log| - 1)
       <==> TurnsTls(cfg, s, log[|log| - 1].text, log[|log| - 1].answers)
  {
    hide TurnsTls, Replayed;
  }

  /** Until then MAIL is answered 503, and AUTH 503, or 530 where TLS is missing. */
  lemma UngreetedRefused(cfg: Config, s: Session, text: string, args: string, a: Answers)
    requires !s.greeted
    ensures Orders(cfg, s, text, "MAIL", args) ==> React(cfg, s, text, a).code == 503
    ensures Orders(cfg, s, text, "AUTH", args) ==>
      React(cfg, s, text, a).code == (if !s.tls && cfg.requireTls then 530 else 503)
  {
    hide React, Says, Begins, ExtractAddress;
    if Orders(cfg, s, text, "MAIL", args) {
      MailReply(cfg, s, text, args, a);
    }
    if Orders(cfg, s, text, "AUTH", args) {
      ClosedGatesReply(cfg, s, text, args, a);
    }
  }

  /** The user name that a password line is checked with was the line before it. */
  lemma PasswordFollowsName(cfg: Config, start: Session, log: seq<Entry>, user: string)
    requires start.mode.Command? && Replayed(cfg, start, log).Some?
    requires Replayed(cfg, start, log).value.mode == LoginPassword(user)
    ensures log != [] && cfg.decode(TrimSpace(log[|log| - 1].text)) == Some(user)
    ensures Replayed(cfg, start, log[..|log| - 1]).Some?
    ensures Replayed(cfg, start, log[..|log| - 1]).value.mode.LoginUser?
  {
    hide React, TrimSpace;
    var n := |log| - 1;
    NameRule(cfg, Replayed(cfg, start, log[..n]).value, log[n].text, log[n].answers, user);
  }
}
