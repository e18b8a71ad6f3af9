/** What every run of the OTP system keeps: the cache agrees with the request table, so
    that verification by the cache alone meets deadlines and attempt limits, verified
    requests stay verified, and repeated sends are answered without effect. */
module OtpLifecycle {
  import opened Prelude
  import opened Messages
  import opened OtpSystem
  import Store = OtpStore
  import Worker = OtpWorker
  import Hook = WebhookWorker
  import Idem = Idempotency
  import Ledger

  const MAX_TTL_MS: int := 3600 * 1000

  predicate RowOk(cfg: Config, now: int, row: OtpRow)
    requires ConfigOk(cfg)
  {
    row.attempts <= row.maxAttempts == cfg.max &&
    row.expiresAt <= now + MAX_TTL_MS &&
    (row.status == Verified ==> row.verifiedAt.Some?) &&
    (row.verifiedAt.Some? ==> row.verifiedAt.value <= row.expiresAt + Store.Gain(cfg.mode, cfg.max - 1))
  }

  /** The cache entry of a key names a request of that application and phone, which is not
      verified and has the same hash, and expires less than a second before the request's
      deadline and never after it, but for the drift of recorded wrong tries. */
  predicate EntryOk(cfg: Config, rows: map<Request, OtpRow>, key: Store.Key, e: Store.Entry) {
    e.attempts < cfg.max && e.request in rows &&
    var row := rows[e.request];
    row.app == key.0 && row.phone == key.1 && row.hash == e.hash && row.status != Verified &&
    row.expiresAt - 1000 - Store.Loss(cfg.mode, e.attempts) < e.expires <=
      row.expiresAt + Store.Gain(cfg.mode, e.attempts)
  }

  predicate RowsOk(cfg: Config, s: Sys)
    requires ConfigOk(cfg)
  {
    forall r :: r in s.rows ==> RowOk(cfg, s.now, s.rows[r])
  }

  predicate CacheOk(cfg: Config, s: Sys) {
    forall k :: k in s.cache ==> EntryOk(cfg, s.rows, k, s.cache[k])
  }

  predicate LifecycleInv(cfg: Config, s: Sys) {
    ConfigOk(cfg) && RowsOk(cfg, s) && CacheOk(cfg, s)
  }

  /* ---- Steps that change at most statuses, and mark nothing verified ---- */

  predicate StatusChange(row: OtpRow, row': OtpRow) {
    row' == row.(status := row'.status) && (row'.status == Verified ==> row.status == Verified)
  }

  predicate OnlyStatuses(s: Sys, s': Sys) {
    s'.now == s.now && s'.cache == s.cache && s'.rows.Keys == s.rows.Keys &&
    forall r :: r in s.rows ==> StatusChange(s.rows[r], s'.rows[r])
  }

  lemma StatusesKeepInv(cfg: Config, s: Sys, s': Sys)
    requires LifecycleInv(cfg, s) && OnlyStatuses(s, s')
    ensures LifecycleInv(cfg, s')
  {
    forall r | r in s'.rows ensures RowOk(cfg, s'.now, s'.rows[r]) {
      assert RowOk(cfg, s.now, s.rows[r]) && StatusChange(s.rows[r], s'.rows[r]);
    }
    forall k | k in s'.cache ensures EntryOk(cfg, s'.rows, k, s'.cache[k]) {
      assert EntryOk(cfg, s.rows, k, s.cache[k]) && StatusChange(s.rows[s.cache[k].request], s'.rows[s.cache[k].request]);
    }
  }

  lemma RunJobOnlyStatuses(s: Sys, i: nat, a: Worker.Attempt)
    ensures OnlyStatuses(s, RunJob(s, i, a))
  {
    if i < |s.jobs| && s.jobs[i].waiting && s.jobs[i].job.request in s.rows {
      var q := s.jobs[i];
      Worker.StatusAfterAttempt(q.job, WorldOf(s, s.rows[q.job.request].status), q.attemptsMade, MAX_RETRIES, a);
    }
  }

  /* ---- Sends ---- */

  lemma NewCodeKeepsInv(cfg: Config, s: Sys, s': Sys, key: Store.Key, request: Request, row: OtpRow, ttl: nat)
    requires LifecycleInv(cfg, s) && s'.now == s.now
    requires s'.rows == s.rows[request := row] && RowOk(cfg, s.now, row) && row.status != Verified
    requires s'.cache == s.cache[key := Store.StoreOtp(row.hash, request, ttl, s.now)]
    requires key == (row.app, row.phone) && row.expiresAt - 1000 < s.now + ttl * 1000 <= row.expiresAt
    requires request in s.rows ==> s.rows[request].app == row.app && s.rows[request].phone == row.phone
    ensures LifecycleInv(cfg, s')
  {
    forall r | r in s'.rows ensures RowOk(cfg, s'.now, s'.rows[r]) {
      assert r != request ==> RowOk(cfg, s.now, s.rows[r]);
    }
    forall k | k in s'.cache ensures EntryOk(cfg, s'.rows, k, s'.cache[k]) {
      assert k != key ==> EntryOk(cfg, s.rows, k, s.cache[k]);
    }
  }

  lemma NewRowKeepsInv(cfg: Config, s: Sys, c: SendCall)
    requires LifecycleInv(cfg, s) && c.request !in s.rows && c.ttl <= 3600
    ensures LifecycleInv(cfg, WithNewRow(cfg, s, c))
  {
    var s' := WithNewRow(cfg, s, c);
    forall r | r in s'.rows ensures RowOk(cfg, s'.now, s'.rows[r]) {
      assert r != c.request ==> RowOk(cfg, s.now, s.rows[r]);
    }
    forall k | k in s'.cache ensures EntryOk(cfg, s'.rows, k, s'.cache[k]) {
      assert EntryOk(cfg, s.rows, k, s.cache[k]);
    }
  }

  lemma ChargeKeepsInv(cfg: Config, s: Sys, c: SendCall)
    requires LifecycleInv(cfg, s) && c.request in s.rows
    requires var row := s.rows[c.request];
             row.app == c.app && row.phone == c.phone && row.hash == c.code && row.status != Verified &&
             row.expiresAt == s.now + c.ttl * 1000
    ensures LifecycleInv(cfg, WithCharge(cfg, s, c))
  {
    assert RowOk(cfg, s.now, s.rows[c.request]);
    assert s.rows == s.rows[c.request := s.rows[c.request]];
    NewCodeKeepsInv(cfg, s, WithCharge(cfg, s, c), (c.app, c.phone), c.request, s.rows[c.request], c.ttl);
  }

  lemma DispatchOnlyStatuses(cfg: Config, s: Sys, c: SendCall)
    ensures OnlyStatuses(s, SendDispatch(cfg, s, c))
  {
  }

  lemma SendKeepsInv(cfg: Config, s: Sys, c: SendCall)
    requires LifecycleInv(cfg, s)
    ensures LifecycleInv(cfg, Send(cfg, s, c).0)
  {
    if SendGate(cfg, s, c) == None {
      var s1 := WithNewRow(cfg, s, c);
      NewRowKeepsInv(cfg, s, c);
      if OutcomeOf(s1.wallets, SendDebit(cfg, c)).Posted? {
        ChargeKeepsInv(cfg, s1, c);
        FinishKeepsInv(cfg, WithCharge(cfg, s1, c), c);
      }
    }
  }

  lemma FinishKeepsInv(cfg: Config, s: Sys, c: SendCall)
    requires LifecycleInv(cfg, s)
    ensures LifecycleInv(cfg, FinishSend(cfg, s, c).0)
  {
    DispatchOnlyStatuses(cfg, s, c);
    StatusesKeepInv(cfg, s, FinishSend(cfg, s, c).0);
  }

  function OutcomeOf(db: Ledger.Db, op: Ledger.Op): Ledger.Outcome {
    Ledger.OutcomeOf(db, op)
  }

  /** A send or a resend that is charged caches its code with a time to live between 60 and
      3600 seconds, less than a second short of the row's deadline and never past it; a
      resend never moves a deadline earlier, and never revives one that has passed. */
  lemma ResendTimes(cfg: Config, s: Sys, c: ResendCall)
    requires LifecycleInv(cfg, s) && ResendGate(cfg, s, c) == None
    ensures var row := s.rows[c.request]; var ttl, deadline := ResendTtl(s, row), ResendDeadline(s, row);
            60 <= ttl <= 3600 && deadline - 1000 < s.now + ttl * 1000 <= deadline &&
            s.now <= row.expiresAt <= deadline <= s.now + MAX_TTL_MS
  {
    assert RowOk(cfg, s.now, s.rows[c.request]);
  }

  lemma ResendKeepsInv(cfg: Config, s: Sys, c: ResendCall)
    requires LifecycleInv(cfg, s)
    ensures LifecycleInv(cfg, Resend(cfg, s, c).0)
  {
    var gate := ResendGate(cfg, s, c);
    if gate == Some(OtpExpired) {
      StatusesKeepInv(cfg, s, WithStatus(s, c.request, OtpStatus.Expired));
    } else if gate == None && OutcomeOf(s.wallets, ResendDebit(cfg, c)).Posted? {
      var row := s.rows[c.request];
      ResendTimes(cfg, s, c);
      assert RowOk(cfg, s.now, row);
      var s1 := WithNewCode(cfg, s, c);
      NewCodeKeepsInv(cfg, s, s1, (c.app, row.phone), c.request,
                      row.(hash := c.code, expiresAt := ResendDeadline(s, row)), ResendTtl(s, row));
      assert OnlyStatuses(s1, ResendDispatch(cfg, s1, c));
      StatusesKeepInv(cfg, s1, ResendDispatch(cfg, s1, c));
    }
  }

  /* ---- Verification ---- */

  /** What a verification that finds its entry does to the row the entry names. */
  lemma VerifyRow(cfg: Config, s: Sys, app: App, phone: string, code: string)
    requires (app, phone) in s.cache && EntryOk(cfg, s.rows, (app, phone), s.cache[(app, phone)])
    requires Store.Live(cfg.mode, s.cache[(app, phone)], s.now)
    ensures var e := s.cache[(app, phone)]; var row := s.rows[e.request];
            var s' := Verify(cfg, s, app, phone, code);
            s'.now == s.now &&
            s'.rows == s.rows[e.request := row.(attempts := e.attempts + 1,
              status := if code == e.hash then Verified
                        else if e.attempts + 1 >= cfg.max then OtpStatus.Expired else row.status,
              verifiedAt := if code == e.hash then Some(s.now) else row.verifiedAt)] &&
            s'.cache == if code == e.hash || e.attempts + 1 >= cfg.max then s.cache - {(app, phone)}
                        else s.cache[(app, phone) := Store.AfterWrongTry(cfg.mode, e, s.now)]
  {
  }

  lemma VerifyMissing(cfg: Config, s: Sys, app: App, phone: string, code: string)
    requires (app, phone) in s.cache ==> !Store.Live(cfg.mode, s.cache[(app, phone)], s.now)
    ensures Verify(cfg, s, app, phone, code) == s
  {
  }

  lemma VerifyKeepsRows(cfg: Config, s: Sys, key: Store.Key, code: string, s': Sys)
    requires LifecycleInv(cfg, s) && key in s.cache && Store.Live(cfg.mode, s.cache[key], s.now) && s'.now == s.now
    requires var e := s.cache[key]; var row := s.rows[e.request];
             s'.rows == s.rows[e.request := row.(attempts := e.attempts + 1,
               status := if code == e.hash then Verified
                         else if e.attempts + 1 >= cfg.max then OtpStatus.Expired else row.status,
               verifiedAt := if code == e.hash then Some(s.now) else row.verifiedAt)]
    ensures RowsOk(cfg, s')
  {
    var e := s.cache[key];
    assert EntryOk(cfg, s.rows, key, e);
    assert RowOk(cfg, s.now, s.rows[e.request]);
    forall r | r in s'.rows ensures RowOk(cfg, s'.now, s'.rows[r]) {
      assert r != e.request ==> RowOk(cfg, s.now, s.rows[r]);
    }
  }

  lemma VerifyKeepsCache(cfg: Config, s: Sys, key: Store.Key, code: string, s': Sys)
    requires LifecycleInv(cfg, s) && key in s.cache && Store.Live(cfg.mode, s.cache[key], s.now)
    requires var e := s.cache[key];
             e.request in s.rows && s'.rows.Keys == s.rows.Keys &&
             (forall r :: r in s.rows && r != e.request ==> s'.rows[r] == s.rows[r]) &&
             (if code == e.hash || e.attempts + 1 >= cfg.max then s'.cache == s.cache - {key}
              else s'.cache == s.cache[key := Store.AfterWrongTry(cfg.mode, e, s.now)] &&
                   s'.rows[e.request] == s.rows[e.request].(attempts := e.attempts + 1))
    ensures CacheOk(cfg, s')
  {
    var e := s.cache[key];
    assert EntryOk(cfg, s.rows, key, e);
    Store.WrongTryDrift(cfg.mode, e, s.now);
    forall k | k in s'.cache ensures EntryOk(cfg, s'.rows, k, s'.cache[k]) {
      assert EntryOk(cfg, s.rows, k, s.cache[k]);
      if k != key {
        assert s.cache[k].request != e.request;
      }
    }
  }

  lemma VerifyKeepsInv(cfg: Config, s: Sys, app: App, phone: string, code: string)
    requires LifecycleInv(cfg, s)
    ensures LifecycleInv(cfg, Verify(cfg, s, app, phone, code))
  {
    var key := (app, phone);
    if key in s.cache && Store.Live(cfg.mode, s.cache[key], s.now) {
      assert EntryOk(cfg, s.rows, key, s.cache[key]);
      VerifyRow(cfg, s, app, phone, code);
      VerifyKeepsRows(cfg, s, key, code, Verify(cfg, s, app, phone, code));
      VerifyKeepsCache(cfg, s, key, code, Verify(cfg, s, app, phone, code));
    } else {
      VerifyMissing(cfg, s, app, phone, code);
    }
  }

  /* ---- Every run ---- */

  lemma ReflectVerifiesNothing(status: OtpStatus, statusStr: string)
    ensures Hook.Reflect(status, statusStr) == Verified <==> status == Verified
  {
  }

  lemma RunWebhookOnlyStatuses(s: Sys, wamid: string, statusStr: string, faults: Hook.Faults)
    ensures OnlyStatuses(s, RunWebhook(s, wamid, statusStr, faults))
  {
    var found := Hook.FindMessage(s.messages, wamid);
    if found.Some? {
      var request := s.messages[found.value].request;
      if request in s.rows {
        ReflectVerifiesNothing(s.rows[request].status, statusStr);
      }
    }
  }

  lemma ClockKeepsInv(cfg: Config, s: Sys, ms: nat)
    requires LifecycleInv(cfg, s)
    ensures LifecycleInv(cfg, s.(now := s.now + ms))
  {
    forall r | r in s.rows ensures RowOk(cfg, s.now + ms, s.rows[r]) {
      assert RowOk(cfg, s.now, s.rows[r]);
    }
  }

  /** Nothing happens to rows and clock, and codes may be lost. */
  predicate OnlyLoses(s: Sys, s': Sys) {
    s'.now == s.now && s'.rows == s.rows && forall k :: k in s'.cache ==> k in s.cache && s'.cache[k] == s.cache[k]
  }

  lemma LossKeepsInv(cfg: Config, s: Sys, s': Sys)
    requires LifecycleInv(cfg, s) && OnlyLoses(s, s')
    ensures LifecycleInv(cfg, s')
  {
    forall k | k in s'.cache ensures EntryOk(cfg, s'.rows, k, s'.cache[k]) {
      assert EntryOk(cfg, s.rows, k, s.cache[k]);
    }
  }

  lemma SendsKeepInv(cfg: Config, s: Sys, step: Step, s': Sys)
    requires LifecycleInv(cfg, s) && s' == Next(cfg, s, step) && (step.DoSend? || step.DoResend?)
    ensures LifecycleInv(cfg, s')
  {
    match step
    case DoSend(c) => SendKeepsInv(cfg, s, c);
    case DoResend(c) => ResendKeepsInv(cfg, s, c);
  }

  lemma StatusStep(cfg: Config, s: Sys, step: Step, s': Sys)
    requires s' == Next(cfg, s, step) && (step.DoStatus? || step.DoJob? || step.DoWebhook?)
    ensures OnlyStatuses(s, s')
  {
    if step.DoJob? {
      RunJobOnlyStatuses(s, step.i, step.attempt);
    } else if step.DoWebhook? {
      RunWebhookOnlyStatuses(s, step.wamid, step.statusStr, step.webhookFaults);
    }
  }

  predicate LosesAtMost(step: Step) {
    step.Redeliver? || step.DoTopUp? || step.LoseCode? || step.LoseCooldown? || step.LoseBlock? || step.LoseReply? ||
    step.RestartNode?
  }

  lemma OthersOnlyLose(cfg: Config, s: Sys, step: Step)
    requires LosesAtMost(step)
    ensures OnlyLoses(s, Next(cfg, s, step))
  {
  }

  lemma NextKeepsInv(cfg: Config, s: Sys, step: Step, s': Sys)
    requires LifecycleInv(cfg, s) && s' == Next(cfg, s, step)
    ensures LifecycleInv(cfg, s')
  {
    if step.DoSend? || step.DoResend? {
      SendsKeepInv(cfg, s, step, s');
    } else if step.DoVerify? {
      VerifyKeepsInv(cfg, s, step.app, step.phone, step.code);
    } else if step.DoStatus? || step.DoJob? || step.DoWebhook? {
      StatusStep(cfg, s, step, s');
      StatusesKeepInv(cfg, s, s');
    } else if step.Tick? {
      ClockKeepsInv(cfg, s, step.ms);
    } else {
      OthersOnlyLose(cfg, s, step);
      LossKeepsInv(cfg, s, s');
    }
  }

  lemma {:induction false} RunKeepsInv(cfg: Config, s: Sys, steps: seq<Step>, n: nat)
    requires LifecycleInv(cfg, s) && n <= |steps|
    ensures LifecycleInv(cfg, Run(cfg, s, steps, n))
  {
    if n == 0 {
    } else {
      RunKeepsInv(cfg, s, steps, n - 1);
      NextKeepsInv(cfg, Run(cfg, s, steps, n - 1), steps[n - 1], Run(cfg, s, steps, n));
    }
  }

  /** In every reachable state every cache entry agrees with the request it names, and every
      row keeps its attempts within its maximum. */
  lemma LifecycleHolds(cfg: Config, now: int, steps: seq<Step>, n: nat)
    requires ConfigOk(cfg) && n <= |steps|
    ensures LifecycleInv(cfg, Run(cfg, Initial(now), steps, n))
  {
    RunKeepsInv(cfg, Initial(now), steps, n);
  }

  /** Deadline by the cache alone: although verification never reads a deadline, no request
      is ever verified after it, in memory or with a `TTL` that rounds down; with one that
      rounds to the nearest second, by at most half a second for each wrong try allowed. */
  lemma VerifiedInTime(cfg: Config, now: int, steps: seq<Step>, n: nat, request: Request)
    requires ConfigOk(cfg) && n <= |steps|
    ensures var s := Run(cfg, Initial(now), steps, n);
            request in s.rows && s.rows[request].verifiedAt.Some? ==>
              s.rows[request].verifiedAt.value <= s.rows[request].expiresAt +
                (if cfg.mode == Store.Redis(Store.Nearest) then 500 * (cfg.max - 1) else 0)
  {
    LifecycleHolds(cfg, now, steps, n);
    var s := Run(cfg, Initial(now), steps, n);
    if request in s.rows {
      assert RowOk(cfg, s.now, s.rows[request]);
    }
  }

  lemma WrongTryMovesPast(cfg: Config, s: Sys, app: App, phone: string, wrong: string, s1: Sys)
    requires LifecycleInv(cfg, s) && cfg.mode == Store.Redis(Store.Nearest) && (app, phone) in s.cache
    requires var e := s.cache[(app, phone)];
             wrong != e.hash && e.attempts + 1 < cfg.max && s.now < e.expires && 500 <= (e.expires - s.now) % 1000 <= 998
    requires s1 == Verify(cfg, s, app, phone, wrong)
    ensures (app, phone) in s1.cache &&
            var e, e1 := s.cache[(app, phone)], s1.cache[(app, phone)];
            e1.hash == e.hash && e1.request == e.request && e.expires + 1 < e1.expires &&
            e.request in s.rows && e.request in s1.rows && s1.rows[e.request].app == app &&
            s1.rows[e.request].expiresAt == s.rows[e.request].expiresAt
  {
    assert EntryOk(cfg, s.rows, (app, phone), s.cache[(app, phone)]);
    VerifyRow(cfg, s, app, phone, wrong);
  }

  lemma RightCodeVerifies(cfg: Config, s: Sys, app: App, phone: string, s': Sys)
    requires (app, phone) in s.cache && Store.Live(cfg.mode, s.cache[(app, phone)], s.now)
    requires var e := s.cache[(app, phone)];
             e.request in s.rows && s.rows[e.request].app == app && s' == Verify(cfg, s, app, phone, e.hash)
    ensures var r := s.cache[(app, phone)].request;
            r in s'.rows && s'.rows[r].status == Verified && s'.rows[r].verifiedAt == Some(s.now) &&
            s'.rows[r].expiresAt == s.rows[r].expiresAt
  {
  }

  /** That excess is real: with a `TTL` that rounds to the nearest second, a wrong try made
      at a good moment lets the right code be accepted after the deadline. */
  lemma LateVerification(cfg: Config, s: Sys, app: App, phone: string, wrong: string, s1: Sys, s2: Sys)
    requires LifecycleInv(cfg, s) && cfg.mode == Store.Redis(Store.Nearest) && (app, phone) in s.cache
    requires var e := s.cache[(app, phone)];
             wrong != e.hash && e.attempts + 1 < cfg.max &&
             s.now < e.expires && 500 <= (e.expires - s.now) % 1000 <= 998 &&
             e.request in s.rows && e.expires == s.rows[e.request].expiresAt &&
             s1 == Verify(cfg, s, app, phone, wrong) &&
             s2 == Verify(cfg, s1.(now := e.expires + 1), app, phone, e.hash)
    ensures var e := s.cache[(app, phone)];
            e.request in s2.rows && s2.rows[e.request].status == Verified &&
            s2.rows[e.request].verifiedAt == Some(s2.rows[e.request].expiresAt + 1)
  {
    WrongTryMovesPast(cfg, s, app, phone, wrong, s1);
    RightCodeVerifies(cfg, s1.(now := s.cache[(app, phone)].expires + 1), app, phone, s2);
  }

  /* ---- Deadlines ---- */

  /** Requests stay; a deadline never moves earlier, and never at all once it has passed. */
  predicate DeadlinesExtend(s: Sys, s': Sys) {
    s.now <= s'.now &&
    forall r :: r in s.rows ==> (
      r in s'.rows && s.rows[r].expiresAt <= s'.rows[r].expiresAt &&
      (s.now > s.rows[r].expiresAt ==> s'.rows[r].expiresAt == s.rows[r].expiresAt))
  }

  lemma SendExtends(cfg: Config, s: Sys, c: SendCall)
    ensures DeadlinesExtend(s, Send(cfg, s, c).0)
  {
    var s' := Send(cfg, s, c).0;
    forall r | r in s.rows ensures r in s'.rows && s'.rows[r] == s.rows[r] {
      RowsStayUnderSend(cfg, s, c, r);
    }
  }

  lemma ResendExtends(cfg: Config, s: Sys, c: ResendCall)
    ensures DeadlinesExtend(s, Resend(cfg, s, c).0)
  {
    var gate := ResendGate(cfg, s, c);
    if gate == Some(OtpExpired) {
      StatusesExtend(s, WithStatus(s, c.request, OtpStatus.Expired));
    } else if gate == None && OutcomeOf(s.wallets, ResendDebit(cfg, c)).Posted? {
      var s1 := WithNewCode(cfg, s, c);
      assert DeadlinesExtend(s, s1);
      StatusesExtend(s1, ResendDispatch(cfg, s1, c));
      DeadlinesCompose(s, s1, ResendDispatch(cfg, s1, c));
    }
  }

  lemma VerifyExtends(cfg: Config, s: Sys, app: App, phone: string, code: string)
    ensures DeadlinesExtend(s, Verify(cfg, s, app, phone, code))
  {
  }

  lemma StatusesExtend(s: Sys, s': Sys)
    requires OnlyStatuses(s, s')
    ensures DeadlinesExtend(s, s')
  {
    forall r | r in s.rows ensures s'.rows[r].expiresAt == s.rows[r].expiresAt {
      assert StatusChange(s.rows[r], s'.rows[r]);
    }
  }

  lemma NextExtends(cfg: Config, s: Sys, step: Step, s': Sys)
    requires s' == Next(cfg, s, step)
    ensures DeadlinesExtend(s, s')
  {
    if step.DoSend? {
      SendExtends(cfg, s, step.send);
    } else if step.DoResend? {
      ResendExtends(cfg, s, step.resend);
    } else if step.DoVerify? {
      VerifyExtends(cfg, s, step.app, step.phone, step.code);
    } else if step.DoStatus? || step.DoJob? || step.DoWebhook? {
      StatusStep(cfg, s, step, s');
      StatusesExtend(s, s');
    } else if !step.Tick? {
      OthersOnlyLose(cfg, s, step);
    }
  }

  /** Over any run, no deadline moves earlier, and none that has passed is revived. */
  lemma {:induction false} DeadlinesOnlyExtend(cfg: Config, s: Sys, steps: seq<Step>, n: nat)
    requires n <= |steps|
    ensures DeadlinesExtend(s, Run(cfg, s, steps, n))
  {
    if n == 0 {
    } else {
      var mid := Run(cfg, s, steps, n - 1);
      DeadlinesOnlyExtend(cfg, s, steps, n - 1);
      NextExtends(cfg, mid, steps[n - 1], Run(cfg, s, steps, n));
      DeadlinesCompose(s, mid, Run(cfg, s, steps, n));
    }
  }

  lemma DeadlinesCompose(s: Sys, mid: Sys, s': Sys)
    requires DeadlinesExtend(s, mid) && DeadlinesExtend(mid, s')
    ensures DeadlinesExtend(s, s')
  {
  }

  /* ---- Verified is absorbing ---- */

  lemma VerifiedStaysUnderVerify(cfg: Config, s: Sys, app: App, phone: string, code: string, request: Request)
    requires LifecycleInv(cfg, s) && request in s.rows && s.rows[request].status == Verified
    ensures request in Verify(cfg, s, app, phone, code).rows &&
            Verify(cfg, s, app, phone, code).rows[request] == s.rows[request]
  {
    if (app, phone) in s.cache && Store.Live(cfg.mode, s.cache[(app, phone)], s.now) {
      assert EntryOk(cfg, s.rows, (app, phone), s.cache[(app, phone)]);
      VerifyRow(cfg, s, app, phone, code);
    } else {
      VerifyMissing(cfg, s, app, phone, code);
    }
  }

  lemma DispatchKeepsOthers(cfg: Config, s: Sys, c: SendCall, request: Request)
    requires request in s.rows && request != c.request
    ensures var s' := SendDispatch(cfg, s, c); request in s'.rows && s'.rows[request] == s.rows[request]
  {
  }

  lemma RowsStayUnderSend(cfg: Config, s: Sys, c: SendCall, request: Request)
    requires request in s.rows
    ensures request in Send(cfg, s, c).0.rows && Send(cfg, s, c).0.rows[request] == s.rows[request]
  {
    if SendGate(cfg, s, c) == None {
      DispatchKeepsOthers(cfg, WithCharge(cfg, WithNewRow(cfg, s, c), c), c, request);
    }
  }

  lemma VerifiedStaysUnderResend(cfg: Config, s: Sys, c: ResendCall, request: Request)
    requires request in s.rows && s.rows[request].status == Verified
    ensures request in Resend(cfg, s, c).0.rows && Resend(cfg, s, c).0.rows[request] == s.rows[request]
  {
  }

  lemma VerifiedStaysUnderWebhook(s: Sys, wamid: string, statusStr: string, faults: Hook.Faults, request: Request)
    requires request in s.rows && s.rows[request].status == Verified
    ensures var s' := RunWebhook(s, wamid, statusStr, faults); request in s'.rows && s'.rows[request] == s.rows[request]
  {
  }

  lemma VerifiedStaysUnderOthers(cfg: Config, s: Sys, step: Step, request: Request)
    requires request in s.rows && s.rows[request].status == Verified
    requires !step.DoSend? && !step.DoResend? && !step.DoVerify? && !step.DoJob? && !step.DoWebhook?
    ensures var s' := Next(cfg, s, step); request in s'.rows && s'.rows[request] == s.rows[request]
  {
  }

  /** No step but an attempt of the delivery worker changes a verified request. */
  lemma VerifiedStays(cfg: Config, s: Sys, step: Step, request: Request)
    requires LifecycleInv(cfg, s) && request in s.rows && s.rows[request].status == Verified
    requires !step.DoJob?
    ensures request in Next(cfg, s, step).rows && Next(cfg, s, step).rows[request] == s.rows[request]
  {
    if step.DoSend? {
      RowsStayUnderSend(cfg, s, step.send, request);
    } else if step.DoResend? {
      VerifiedStaysUnderResend(cfg, s, step.resend, request);
    } else if step.DoVerify? {
      VerifiedStaysUnderVerify(cfg, s, step.app, step.phone, step.code, request);
    } else if step.DoWebhook? {
      VerifiedStaysUnderWebhook(s, step.wamid, step.statusStr, step.webhookFaults, request);
    } else {
      VerifiedStaysUnderOthers(cfg, s, step, request);
    }
  }

  /** The step is an attempt of the worker that writes a status for that request. */
  predicate WritesStatus(s: Sys, step: Step, request: Request) {
    step.DoJob? && step.i < |s.jobs| && s.jobs[step.i].waiting && s.jobs[step.i].job.request == request &&
    Worker.StatusWritten(step.attempt, s.jobs[step.i].attemptsMade, MAX_RETRIES).Some?
  }

  /** An attempt of the worker keeps a request verified exactly when it writes no status for
      it: a delivery report that arrives late undoes the verification. */
  lemma VerifiedStaysUnderWorkerIff(s: Sys, i: nat, a: Worker.Attempt, request: Request)
    requires request in s.rows && s.rows[request].status == Verified
    ensures var s' := RunJob(s, i, a);
            request in s'.rows &&
            (s'.rows[request] == s.rows[request] <==> !WritesStatus(s, DoJob(i, a), request))
  {
    if i < |s.jobs| && s.jobs[i].waiting && s.jobs[i].job.request == request {
      Worker.StatusAfterAttempt(s.jobs[i].job, WorldOf(s, Verified), s.jobs[i].attemptsMade, MAX_RETRIES, a);
    }
  }

  lemma VerifiedStaysIff(cfg: Config, s: Sys, step: Step, request: Request, s': Sys)
    requires LifecycleInv(cfg, s) && request in s.rows && s.rows[request].status == Verified
    requires s' == Next(cfg, s, step)
    ensures request in s'.rows && (s'.rows[request] == s.rows[request] <==> !WritesStatus(s, step, request))
  {
    if step.DoJob? {
      VerifiedStaysUnderWorkerIff(s, step.i, step.attempt, request);
    } else {
      VerifiedStays(cfg, s, step, request);
    }
  }

  predicate RowIs(s: Sys, request: Request, row: OtpRow) {
    request in s.rows && s.rows[request] == row
  }

  predicate StaysTo(cfg: Config, s: Sys, steps: seq<Step>, i: nat, request: Request, row: OtpRow)
    requires i <= |steps|
  {
    RowIs(Run(cfg, s, steps, i), request, row)
  }

  predicate WritesAt(cfg: Config, s: Sys, steps: seq<Step>, i: nat, request: Request)
    requires i < |steps|
  {
    WritesStatus(Run(cfg, s, steps, i), steps[i], request)
  }

  /** Over every run, a verified request never changes if and only if no attempt of the
      worker writes a status for it. */
  lemma {:induction false} VerifiedForGoodIff(cfg: Config, s: Sys, steps: seq<Step>, n: nat, request: Request, row: OtpRow)
    requires LifecycleInv(cfg, s) && n <= |steps| && RowIs(s, request, row) && row.status == Verified
    ensures (forall i :: 0 <= i <= n ==> StaysTo(cfg, s, steps, i, request, row)) <==>
            (forall i :: 0 <= i < n ==> !WritesAt(cfg, s, steps, i, request))
  {
    if n == 0 {
      assert StaysTo(cfg, s, steps, 0, request, row);
    } else {
      VerifiedForGoodIff(cfg, s, steps, n - 1, request, row);
      if StaysTo(cfg, s, steps, n - 1, request, row) {
        RunKeepsInv(cfg, s, steps, n - 1);
        VerifiedStaysIff(cfg, Run(cfg, s, steps, n - 1), steps[n - 1], request, Run(cfg, s, steps, n));
        assert StaysTo(cfg, s, steps, n, request, row) <==> !WritesAt(cfg, s, steps, n - 1, request);
      }
    }
  }

  /* ---- Idempotent sends ---- */

  /** c names the client's key k. */
  predicate Uses(c: SendCall, k: Idem.Key) {
    c.idemKey.Some? && (c.app, c.idemKey.value) == k
  }

  /** The lookup of c can read the table, or a cache still has its key. */
  predicate CanAnswer(s: Sys, c: SendCall)
    requires c.idemKey.Some?
  {
    c.tableReadUp || Idem.InCaches(s.idem, c.node, (c.app, c.idemKey.value), s.now, c.redisUp)
  }

  lemma ReplayHasNoEffect(cfg: Config, s: Sys, c: SendCall, r: Idem.Response)
    requires c.idemKey.Some? && ReachesLookup(s, c) && CanAnswer(s, c)
    requires Idem.Settled(s.idem, (c.app, c.idemKey.value), SEND_ENDPOINT, r)
    ensures Send(cfg, s, c) == (s, Replayed(r))
  {
    Idem.SettledAnswers(s.idem, (c.app, c.idemKey.value), SEND_ENDPOINT, r, c.node, s.now, c.redisUp, c.tableReadUp);
  }

  /** A send that is not accepted saves nothing; an accepted one at most its own reply. */
  lemma SendSavesOwnReply(cfg: Config, s: Sys, c: SendCall)
    ensures var (s', reply) := Send(cfg, s, c);
            (!reply.Accepted? || c.idemKey == None ==> s'.idem == s.idem) &&
            (reply.Accepted? && c.idemKey.Some? ==>
              CachedReply(s, c) == None &&
              s'.idem == Idem.Save(s.idem, c.node, (c.app, c.idemKey.value), SEND_ENDPOINT, reply.response,
                                   s.now, c.redisUp, c.tableSaveUp))
  {
    if SendGate(cfg, s, c) == None {
      FinishSavesOwnReply(cfg, WithCharge(cfg, WithNewRow(cfg, s, c), c), c);
    }
  }

  lemma FinishSavesOwnReply(cfg: Config, s: Sys, c: SendCall)
    ensures var (s', reply) := FinishSend(cfg, s, c);
            s'.idem == (if !reply.Accepted? || c.idemKey == None then s.idem
                        else Idem.Save(s.idem, c.node, (c.app, c.idemKey.value), SEND_ENDPOINT, reply.response,
                                       s.now, c.redisUp, c.tableSaveUp))
  {
    assert SendDispatch(cfg, s, c).idem == s.idem;
  }

  /** A send under key k finds an answer, or is not accepted for another reason. */
  predicate NoSecondAnswer(cfg: Config, s: Sys, c: SendCall, k: Idem.Key) {
    Uses(c, k) ==> CanAnswer(s, c) || !Send(cfg, s, c).1.Accepted?
  }

  lemma SendKeepsSettled(cfg: Config, s: Sys, c: SendCall, k: Idem.Key, r: Idem.Response)
    requires Idem.Settled(s.idem, k, SEND_ENDPOINT, r) && NoSecondAnswer(cfg, s, c, k)
    ensures Idem.Settled(Send(cfg, s, c).0.idem, k, SEND_ENDPOINT, r)
  {
    SendSavesOwnReply(cfg, s, c);
    if Send(cfg, s, c).1.Accepted? && c.idemKey.Some? {
      if Uses(c, k) {
        Idem.SettledAnswers(s.idem, k, SEND_ENDPOINT, r, c.node, s.now, c.redisUp, c.tableReadUp);
      } else {
        Idem.OtherSaveKeepsSettled(s.idem, k, SEND_ENDPOINT, r, c.node, (c.app, c.idemKey.value),
          Send(cfg, s, c).1.response, s.now, c.redisUp, c.tableSaveUp);
      }
    }
  }

  lemma ResendSavesNothing(cfg: Config, s: Sys, c: ResendCall)
    ensures Resend(cfg, s, c).0.idem == s.idem
  {
  }

  lemma OthersSaveNothing(cfg: Config, s: Sys, step: Step)
    requires !step.DoSend? && !step.LoseReply? && !step.RestartNode?
    ensures Next(cfg, s, step).idem == s.idem
  {
    if step.DoResend? {
      ResendSavesNothing(cfg, s, step.resend);
    }
  }

  lemma NextKeepsSettled(cfg: Config, s: Sys, step: Step, k: Idem.Key, r: Idem.Response, s': Sys)
    requires Idem.Settled(s.idem, k, SEND_ENDPOINT, r) && s' == Next(cfg, s, step)
    requires step.DoSend? ==> NoSecondAnswer(cfg, s, step.send, k)
    ensures Idem.Settled(s'.idem, k, SEND_ENDPOINT, r)
  {
    if step.DoSend? {
      SendKeepsSettled(cfg, s, step.send, k, r);
    } else if step.LoseReply? {
      Idem.LossKeepsSettled(s.idem, k, SEND_ENDPOINT, r, step.lostReply, 0);
    } else if step.RestartNode? {
      Idem.LossKeepsSettled(s.idem, k, SEND_ENDPOINT, r, k, step.node);
    } else {
      OthersSaveNothing(cfg, s, step);
    }
  }

  predicate NoSecondAnswerAt(cfg: Config, s: Sys, steps: seq<Step>, i: nat, k: Idem.Key)
    requires i < |steps|
  {
    steps[i].DoSend? ==> NoSecondAnswer(cfg, Run(cfg, s, steps, i), steps[i].send, k)
  }

  /** Over any run whose sends under a settled key each find an answer or are not accepted,
      the key stays settled, whatever the caches lose. */
  lemma {:induction false} SettledForGood(cfg: Config, s: Sys, steps: seq<Step>, n: nat, k: Idem.Key, r: Idem.Response)
    requires n <= |steps| && Idem.Settled(s.idem, k, SEND_ENDPOINT, r)
    requires forall i :: 0 <= i < n ==> NoSecondAnswerAt(cfg, s, steps, i, k)
    ensures Idem.Settled(Run(cfg, s, steps, n).idem, k, SEND_ENDPOINT, r)
  {
    if n == 0 {
    } else {
      SettledForGood(cfg, s, steps, n - 1, k, r);
      assert NoSecondAnswerAt(cfg, s, steps, n - 1, k);
      NextKeepsSettled(cfg, Run(cfg, s, steps, n - 1), steps[n - 1], k, r, Run(cfg, s, steps, n));
    }
  }

  /** The step is a send under key k that is accepted. */
  predicate AcceptsUnder(cfg: Config, s: Sys, step: Step, k: Idem.Key) {
    step.DoSend? && Uses(step.send, k) && Send(cfg, s, step.send).1.Accepted?
  }

  /** Under a settled key only a send that finds no answer can be accepted. */
  lemma AcceptedIsUnanswered(cfg: Config, s: Sys, step: Step, k: Idem.Key, r: Idem.Response)
    requires Idem.Settled(s.idem, k, SEND_ENDPOINT, r) && AcceptsUnder(cfg, s, step, k)
    ensures !CanAnswer(s, step.send)
  {
    var c := step.send;
    SendSavesOwnReply(cfg, s, c);
    Idem.SettledAnswers(s.idem, k, SEND_ENDPOINT, r, c.node, s.now, c.redisUp, c.tableReadUp);
  }

  lemma AcceptedIsNew(cfg: Config, s: Sys, c: SendCall)
    requires Send(cfg, s, c).1.Accepted?
    ensures Send(cfg, s, c).1.response.requestId == c.request && c.request !in s.rows
  {
  }

  /** Such a send answers with a request of its own, and unsettles the key. */
  lemma AcceptedUnsettles(cfg: Config, s: Sys, c: SendCall, k: Idem.Key, r: Idem.Response)
    requires r.requestId in s.rows && Uses(c, k) && Send(cfg, s, c).1.Accepted?
    ensures !Idem.Settled(Send(cfg, s, c).0.idem, k, SEND_ENDPOINT, r)
  {
    SendSavesOwnReply(cfg, s, c);
    AcceptedIsNew(cfg, s, c);
    assert (c.node, k) in Send(cfg, s, c).0.idem.memory;
  }

  lemma NextSettledIff(cfg: Config, s: Sys, step: Step, k: Idem.Key, r: Idem.Response, s': Sys)
    requires Idem.Settled(s.idem, k, SEND_ENDPOINT, r) && r.requestId in s.rows && s' == Next(cfg, s, step)
    ensures Idem.Settled(s'.idem, k, SEND_ENDPOINT, r) <==> !AcceptsUnder(cfg, s, step, k)
  {
    if AcceptsUnder(cfg, s, step, k) {
      AcceptedUnsettles(cfg, s, step.send, k, r);
    } else {
      NextKeepsSettled(cfg, s, step, k, r, s');
    }
  }

  ghost predicate SettledAt(cfg: Config, s: Sys, steps: seq<Step>, i: nat, k: Idem.Key, r: Idem.Response)
    requires i <= |steps|
  {
    Idem.Settled(Run(cfg, s, steps, i).idem, k, SEND_ENDPOINT, r)
  }

  predicate AcceptsAt(cfg: Config, s: Sys, steps: seq<Step>, i: nat, k: Idem.Key)
    requires i < |steps|
  {
    AcceptsUnder(cfg, Run(cfg, s, steps, i), steps[i], k)
  }

  lemma StaysSettledIff(cfg: Config, s: Sys, steps: seq<Step>, n: nat, k: Idem.Key, r: Idem.Response)
    requires n < |steps| && SettledAt(cfg, s, steps, n, k, r) && r.requestId in s.rows
    ensures SettledAt(cfg, s, steps, n + 1, k, r) <==> !AcceptsAt(cfg, s, steps, n, k)
  {
    DeadlinesOnlyExtend(cfg, s, steps, n);
    NextSettledIff(cfg, Run(cfg, s, steps, n), steps[n], k, r, Run(cfg, s, steps, n + 1));
  }

  lemma StaysSettled(cfg: Config, s: Sys, steps: seq<Step>, i: nat, n: nat, k: Idem.Key, r: Idem.Response)
    requires n == i + 1 <= |steps| && SettledAt(cfg, s, steps, i, k, r) && r.requestId in s.rows
    requires !AcceptsAt(cfg, s, steps, i, k)
    ensures SettledAt(cfg, s, steps, n, k, r)
  {
    StaysSettledIff(cfg, s, steps, i, k, r);
  }

  lemma {:induction false} SettledWhile(cfg: Config, s: Sys, steps: seq<Step>, n: nat, k: Idem.Key, r: Idem.Response)
    requires n <= |steps| && SettledAt(cfg, s, steps, 0, k, r) && r.requestId in s.rows
    requires forall i :: 0 <= i < n ==> !AcceptsAt(cfg, s, steps, i, k)
    ensures SettledAt(cfg, s, steps, n, k, r)
  {
    if n == 0 {
    } else {
      SettledWhile(cfg, s, steps, n - 1, k, r);
      StaysSettled(cfg, s, steps, n - 1, n, k, r);
    }
  }

  /** Over every run, a settled key stays settled if and only if no send under it is
      accepted; which takes a send that finds no answer (`AcceptedIsUnanswered`). */
  lemma SettledForGoodIff(cfg: Config, s: Sys, steps: seq<Step>, n: nat, k: Idem.Key, r: Idem.Response)
    requires n <= |steps| && SettledAt(cfg, s, steps, 0, k, r) && r.requestId in s.rows
    ensures (forall i :: 0 <= i <= n ==> SettledAt(cfg, s, steps, i, k, r)) <==>
            (forall i :: 0 <= i < n ==> !AcceptsAt(cfg, s, steps, i, k))
  {
    if forall i :: 0 <= i < n ==> !AcceptsAt(cfg, s, steps, i, k) {
      forall i | 0 <= i <= n ensures SettledAt(cfg, s, steps, i, k, r) {
        SettledWhile(cfg, s, steps, i, k, r);
      }
    } else {
      var i :| 0 <= i < n && AcceptsAt(cfg, s, steps, i, k);
      if SettledAt(cfg, s, steps, i, k, r) {
        StaysSettledIff(cfg, s, steps, i, k, r);
        assert !SettledAt(cfg, s, steps, i + 1, k, r);
      }
    }
  }

  lemma FirstSendSettles(cfg: Config, s: Sys, c: SendCall)
    requires c.idemKey.Some? && Idem.Unused(s.idem, (c.app, c.idemKey.value))
    requires Send(cfg, s, c).1.Accepted? && c.tableSaveUp
    ensures Idem.Settled(Send(cfg, s, c).0.idem, (c.app, c.idemKey.value), SEND_ENDPOINT, Send(cfg, s, c).1.response)
  {
    SendSavesOwnReply(cfg, s, c);
    Idem.SaveSettlesIff(s.idem, c.node, (c.app, c.idemKey.value), SEND_ENDPOINT, Send(cfg, s, c).1.response,
                        s.now, c.redisUp, true);
  }

  /** After a first send under a key whose response has reached the table, whatever runs and
      whatever the caches lose, a later send under the key that reaches the lookup, and can
      read the table or finds the key in a cache, gets that response and changes nothing at
      all: no wallet, row, code or job. */
  lemma SendIsIdempotent(cfg: Config, s: Sys, first: SendCall, s1: Sys, steps: seq<Step>, n: nat, again: SendCall)
    requires n <= |steps| && first.idemKey.Some? && Uses(again, (first.app, first.idemKey.value))
    requires Idem.Unused(s.idem, (first.app, first.idemKey.value))
    requires s1 == Send(cfg, s, first).0 && Send(cfg, s, first).1.Accepted? && first.tableSaveUp
    requires forall i :: 0 <= i < n ==> NoSecondAnswerAt(cfg, s1, steps, i, (first.app, first.idemKey.value))
    requires ReachesLookup(Run(cfg, s1, steps, n), again) && CanAnswer(Run(cfg, s1, steps, n), again)
    ensures Send(cfg, Run(cfg, s1, steps, n), again) == (Run(cfg, s1, steps, n), Replayed(Send(cfg, s, first).1.response))
  {
    var r := Send(cfg, s, first).1.response;
    FirstSendSettles(cfg, s, first);
    SettledForGood(cfg, s1, steps, n, (first.app, first.idemKey.value), r);
    ReplayHasNoEffect(cfg, Run(cfg, s1, steps, n), again, r);
  }
}
