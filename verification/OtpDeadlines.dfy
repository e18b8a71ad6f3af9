/** Exactly when no run verifies a request after its deadline. */
module OtpDeadlines {
  import opened Prelude
  import opened Money
  import opened OtpSystem
  import opened Ledger
  import Store = OtpStore
  import Worker = OtpWorker
  import Life = OtpLifecycle

  /* ---- Reachable states ---- */

  predicate RunsTo(cfg: Config, now: int, steps: seq<Step>, s: Sys) {
    Run(cfg, Initial(now), steps, |steps|) == s
  }

  ghost predicate Reachable(cfg: Config, now: int, s: Sys) {
    exists steps :: RunsTo(cfg, now, steps, s)
  }

  lemma {:induction false} RunPrefix(cfg: Config, s: Sys, steps: seq<Step>, more: seq<Step>, n: nat)
    requires n <= |steps|
    ensures Run(cfg, s, steps + more, n) == Run(cfg, s, steps, n)
  {
    if n == 0 {
    } else {
      RunPrefix(cfg, s, steps, more, n - 1);
    }
  }

  lemma InitialReachable(cfg: Config, now: int)
    ensures Reachable(cfg, now, Initial(now))
  {
    assert RunsTo(cfg, now, [], Initial(now));
  }

  lemma NextReachable(cfg: Config, now: int, s: Sys, step: Step, s': Sys)
    requires Reachable(cfg, now, s) && s' == Next(cfg, s, step)
    ensures Reachable(cfg, now, s')
  {
    var steps :| RunsTo(cfg, now, steps, s);
    RunPrefix(cfg, Initial(now), steps, [step], |steps|);
    assert RunsTo(cfg, now, steps + [step], s');
  }

  lemma TickReachable(cfg: Config, now: int, s: Sys, ms: nat)
    requires Reachable(cfg, now, s)
    ensures Reachable(cfg, now, s.(now := s.now + ms))
  {
    NextReachable(cfg, now, s, Tick(ms), s.(now := s.now + ms));
  }

  lemma VerifyReachable(cfg: Config, now: int, s: Sys, app: App, phone: string, code: string)
    requires Reachable(cfg, now, s)
    ensures Reachable(cfg, now, Verify(cfg, s, app, phone, code))
  {
    NextReachable(cfg, now, s, DoVerify(app, phone, code), Verify(cfg, s, app, phone, code));
  }

  /* ---- A late run ---- */

  const REQUEST: Request := "req_0"

  const SEND: SendCall :=
    SendCall(0, "+1", "1", 60, REQUEST, "", None, 0, false, false, true, true, true, true, Worker.Throws)

  /** The state has no request yet, and nothing holds a send back. */
  predicate Fresh(cfg: Config, s: Sys) {
    s.rows == map[] && s.cache == map[] && s.cooldowns == map[] && s.blocked == map[] &&
    cfg.cooldown <= s.now && 0 <= s.now
  }

  /** After the send: its row and its entry have the same deadline. */
  predicate Sent(s: Sys) {
    REQUEST in s.rows && (0, "+1") in s.cache &&
    var e := s.cache[(0, "+1")];
    e.hash == "1" && e.request == REQUEST && e.attempts == 0 &&
    e.expires == s.rows[REQUEST].expiresAt == s.now + 60 * 1000
  }

  lemma TopUpPays(cfg: Config, s: Sys, s': Sys)
    requires ConfigOk(cfg) && s.wallets == map[]
    requires s' == Next(cfg, s, DoTopUp(cfg.owner(0), cfg.cost + 1.0, ""))
    ensures s' == s.(wallets := s'.wallets) && OutcomeOf(s'.wallets, SendDebit(cfg, SEND)).Posted?
  {
    var op := TopUpOp(cfg.owner(0), cfg.cost + 1.0, "");
    RoundNonNegative(GRANT + op.amount);
    var after := RoundTo4(GRANT + op.amount);
    assert s'.wallets[cfg.owner(0)].balance == after;
    RoundNonNegative(after - cfg.cost);
  }

  lemma FreshSends(cfg: Config, s: Sys, s': Sys)
    requires Fresh(cfg, s) && OutcomeOf(s.wallets, SendDebit(cfg, SEND)).Posted?
    requires s' == Next(cfg, s, DoSend(SEND))
    ensures Sent(s') && s'.now == s.now
  {
    assert SendGate(cfg, s, SEND) == None;
    var s1 := WithCharge(cfg, WithNewRow(cfg, s, SEND), SEND);
    assert s' == SendDispatch(cfg, s1, SEND);
  }

  lemma SentIsReachable(cfg: Config, now: int) returns (s: Sys)
    requires ConfigOk(cfg)
    ensures Reachable(cfg, now, s) && Sent(s)
  {
    var wait := cfg.cooldown + if now < 0 then -now else now;
    var s1 := Initial(now).(now := now + wait);
    InitialReachable(cfg, now);
    TickReachable(cfg, now, Initial(now), wait);
    var topUp := DoTopUp(cfg.owner(0), cfg.cost + 1.0, "");
    var s2 := Next(cfg, s1, topUp);
    NextReachable(cfg, now, s1, topUp, s2);
    TopUpPays(cfg, s1, s2);
    s := Next(cfg, s2, DoSend(SEND));
    NextReachable(cfg, now, s2, DoSend(SEND), s);
    FreshSends(cfg, s2, s);
  }

  predicate InTime(s: Sys) {
    forall r :: r in s.rows && s.rows[r].verifiedAt.Some? ==> s.rows[r].verifiedAt.value <= s.rows[r].expiresAt
  }

  lemma IsLate(s: Sys, r: Request)
    requires r in s.rows && s.rows[r].verifiedAt == Some(s.rows[r].expiresAt + 1)
    ensures !InTime(s)
  {
  }

  /** Half a second after the send a wrong try, and just after the deadline the right one. */
  lemma LateFrom(cfg: Config, sent: Sys, s: Sys, s1: Sys, s2: Sys)
    requires ConfigOk(cfg) && cfg.mode == Store.Redis(Store.Nearest) && 2 <= cfg.max
    requires Sent(sent) && s == sent.(now := sent.now + 500) && Life.LifecycleInv(cfg, s)
    requires s1 == Verify(cfg, s, 0, "+1", "2") && s2 == Verify(cfg, s1.(now := s.now + 59501), 0, "+1", "1")
    ensures !InTime(s2)
  {
    Life.LateVerification(cfg, s, 0, "+1", "2", s1, s2);
    IsLate(s2, REQUEST);
  }

  lemma LateIsReachable(cfg: Config, now: int) returns (s: Sys)
    requires ConfigOk(cfg) && cfg.mode == Store.Redis(Store.Nearest) && 2 <= cfg.max
    ensures Reachable(cfg, now, s) && !InTime(s)
  {
    var sent := SentIsReachable(cfg, now);
    TickReachable(cfg, now, sent, 500);
    var s1 := sent.(now := sent.now + 500);
    ReachableInv(cfg, now, s1);
    s := TryTwice(cfg, now, s1, "2", 59501, "1");
    LateFrom(cfg, sent, s1, Verify(cfg, s1, 0, "+1", "2"), s);
  }

  lemma TryTwice(cfg: Config, now: int, s: Sys, first: string, ms: nat, second: string) returns (s': Sys)
    requires Reachable(cfg, now, s)
    ensures Reachable(cfg, now, s')
    ensures var s1 := Verify(cfg, s, 0, "+1", first); s' == Verify(cfg, s1.(now := s.now + ms), 0, "+1", second)
  {
    var s1 := Verify(cfg, s, 0, "+1", first);
    VerifyReachable(cfg, now, s, 0, "+1", first);
    TickReachable(cfg, now, s1, ms);
    s' := Verify(cfg, s1.(now := s.now + ms), 0, "+1", second);
    VerifyReachable(cfg, now, s1.(now := s.now + ms), 0, "+1", second);
  }

  lemma ReachableInv(cfg: Config, now: int, s: Sys)
    requires ConfigOk(cfg) && Reachable(cfg, now, s)
    ensures Life.LifecycleInv(cfg, s)
  {
    var steps :| RunsTo(cfg, now, steps, s);
    Life.LifecycleHolds(cfg, now, steps, |steps|);
  }

  lemma ReachableInTime(cfg: Config, now: int, s: Sys)
    requires ConfigOk(cfg) && Reachable(cfg, now, s)
    requires cfg.mode != Store.Redis(Store.Nearest) || cfg.max == 1
    ensures InTime(s)
  {
    var steps :| RunsTo(cfg, now, steps, s);
    forall r | r in s.rows && s.rows[r].verifiedAt.Some? ensures s.rows[r].verifiedAt.value <= s.rows[r].expiresAt {
      Life.VerifiedInTime(cfg, now, steps, |steps|, r);
    }
  }

  /** All runs verify in time if and only if `TTL` does not round to the nearest second, or
      a single wrong try ends a code. */
  lemma AlwaysInTimeIff(cfg: Config, now: int)
    requires ConfigOk(cfg)
    ensures (forall s :: Reachable(cfg, now, s) ==> InTime(s)) <==>
            (cfg.mode != Store.Redis(Store.Nearest) || cfg.max == 1)
  {
    if cfg.mode == Store.Redis(Store.Nearest) && 2 <= cfg.max {
      var s := LateIsReachable(cfg, now);
      assert Reachable(cfg, now, s) && !InTime(s);
    } else {
      forall s | Reachable(cfg, now, s) ensures InTime(s) {
        ReachableInTime(cfg, now, s);
      }
    }
  }
}
