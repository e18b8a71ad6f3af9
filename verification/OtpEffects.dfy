/** What each handler and worker leaves behind, stated from the fields of the call and of
    the state before it. */
module OtpEffects {
  import opened Prelude
  import opened References
  import opened Messages
  import opened Ledger
  import opened OtpSystem
  import Store = OtpStore
  import Worker = OtpWorker
  import Hook = WebhookWorker
  import Idem = Idempotency

  function TimeAt(m: map<string, int>, phone: string): int {
    if phone in m then m[phone] else 0
  }

  /** The wallets after a debit that posts. */
  function Debited(db: Db, owner: Customer, cost: real, refType: string, reference: string): Db {
    var a := AccountOf(db, owner);
    var left := Moved(a.balance, -cost);
    db[owner := Account(left, a.rows + [Row(Debit, cost, a.balance, left, refType, StoredReference(reference))])]
  }

  predicate Covers(db: Db, owner: Customer, cost: real) {
    cost <= AccountOf(db, owner).balance
  }

  /* ---- Send ---- */

  /** Every check of a send before the debit passes. */
  predicate Admitted(cfg: Config, s: Sys, c: SendCall) {
    60 <= c.ttl <= 3600 && !c.customerBlocked && TimeAt(s.blocked, c.phone) <= s.now &&
    (c.idemKey.Some? ==>
      Idem.Lookup(s.idem, c.node, (c.app, c.idemKey.value), "/v1/otp/send", s.now, c.redisUp, c.tableReadUp) == None) &&
    !c.limited && TimeAt(s.cooldowns, c.phone) + cfg.cooldown <= s.now && c.request !in s.rows
  }

  lemma AdmittedIff(cfg: Config, s: Sys, c: SendCall)
    ensures Admitted(cfg, s, c) <==> SendGate(cfg, s, c) == None
  {
  }

  /** The first check that fails decides the reply, and a send that is stopped there has no
      effect. */
  lemma SendStopped(cfg: Config, s: Sys, c: SendCall)
    requires !Admitted(cfg, s, c)
    ensures Send(cfg, s, c).0 == s && !Send(cfg, s, c).1.Accepted?
    ensures var reply := Send(cfg, s, c).1;
            var valid := 60 <= c.ttl <= 3600;
            var blocked := s.now < TimeAt(s.blocked, c.phone);
            (reply == Rejected(ValidationError) <==> !valid) &&
            (reply == Rejected(CustomerBlocked) <==> valid && c.customerBlocked) &&
            (reply == Rejected(PhoneBlocked) <==> valid && !c.customerBlocked && blocked) &&
            (reply.Replayed? <==> valid && !c.customerBlocked && !blocked && CachedReply(s, c).Some?) &&
            (reply.Replayed? ==> reply.response == CachedReply(s, c).value) &&
            (reply == Rejected(RateLimited) <==>
              valid && !c.customerBlocked && !blocked && CachedReply(s, c) == None && c.limited) &&
            (reply == Rejected(CooldownActive) <==>
              valid && !c.customerBlocked && !blocked && CachedReply(s, c) == None && !c.limited &&
              s.now < TimeAt(s.cooldowns, c.phone) + cfg.cooldown)
  {
    AdmittedIff(cfg, s, c);
  }

  function NewOtpRow(cfg: Config, s: Sys, c: SendCall, status: OtpStatus): OtpRow {
    OtpRow(c.app, c.phone, c.code, status, s.now + c.ttl * 1000, 0, cfg.max, None)
  }

  /** An admitted send that the wallet does not cover is refused with its balance, and leaves
      an unpaid row and nothing else. */
  lemma SendUnpaid(cfg: Config, s: Sys, c: SendCall)
    requires DbOk(s.wallets) && Admitted(cfg, s, c) && !Covers(s.wallets, cfg.owner(c.app), cfg.cost)
    ensures var (s', reply) := Send(cfg, s, c);
            s' == s.(rows := s.rows[c.request := NewOtpRow(cfg, s, c, Created)]) &&
            reply == Rejected(NotPaid(InsufficientFunds(AccountOf(s.wallets, cfg.owner(c.app)).balance, cfg.cost)))
  {
    AdmittedIff(cfg, s, c);
    DebitPostsIff(s.wallets, SendDebit(cfg, c));
  }

  lemma PaidSendIsFinished(cfg: Config, s: Sys, c: SendCall)
    requires DbOk(s.wallets) && Admitted(cfg, s, c) && Covers(s.wallets, cfg.owner(c.app), cfg.cost)
    ensures WithCharge(cfg, WithNewRow(cfg, s, c), c) == s.(
              rows := s.rows[c.request := NewOtpRow(cfg, s, c, Created)],
              wallets := Debited(s.wallets, cfg.owner(c.app), cfg.cost, "otp_request", c.dbId),
              charged := s.charged + {c.request},
              cache := s.cache[(c.app, c.phone) := Store.Entry(c.code, c.request, 0, s.now + c.ttl * 1000)],
              cooldowns := s.cooldowns[c.phone := s.now])
    ensures Send(cfg, s, c) == FinishSend(cfg, WithCharge(cfg, WithNewRow(cfg, s, c), c), c)
  {
    AdmittedIff(cfg, s, c);
    DebitPostsIff(s.wallets, SendDebit(cfg, c));
  }

  /** The status of a paid send's row. */
  function StatusOfSend(c: SendCall): OtpStatus {
    if c.queueUp || c.delivery.Throws? then Created
    else if c.delivery.Success? then OtpStatus.Sent
    else OtpStatus.Failed
  }

  lemma FinishEffect(cfg: Config, s: Sys, c: SendCall, s': Sys, reply: Reply)
    requires c.request in s.rows && s.rows[c.request].status == Created && (s', reply) == FinishSend(cfg, s, c)
    ensures s'.rows == s.rows[c.request := s.rows[c.request].(status := StatusOfSend(c))]
    ensures s'.jobs == if c.queueUp then s.jobs + [QueuedJob(Worker.Job(c.request, cfg.owner(c.app), cfg.cost), 0, true)]
                       else s.jobs
    ensures s'.wallets ==
      if !c.queueUp && (c.delivery.Temporary? || c.delivery.Permanent?)
      then Apply(s.wallets, RefundOp(cfg.owner(c.app), cfg.cost, "otp_request_failure", c.request)) else s.wallets
    ensures var r := Idem.Response(c.request, c.phone, s.now + c.ttl * 1000, cfg.cost);
            if !c.queueUp && c.delivery.Throws? then reply == Rejected(DispatchError) && s'.idem == s.idem
            else reply == Accepted(r) &&
                 s'.idem == (if c.idemKey == None then s.idem
                             else Idem.Save(s.idem, c.node, (c.app, c.idemKey.value), "/v1/otp/send", r, s.now,
                                            c.redisUp, c.tableSaveUp))
    ensures s' == s.(rows := s'.rows, jobs := s'.jobs, wallets := s'.wallets, idem := s'.idem)
  {
    assert s.rows == s.rows[c.request := s.rows[c.request]];
  }

  /** An admitted send that the wallet covers: its row, its debit, its code, its cooldown,
      and then exactly one of a waiting job at the end of the queue (broker up), a message
      sent at once, a failure with its refund applied, or an exception with nothing more. */
  lemma PaidSendLeaves(cfg: Config, s: Sys, c: SendCall, s': Sys, reply: Reply)
    requires DbOk(s.wallets) && Admitted(cfg, s, c) && Covers(s.wallets, cfg.owner(c.app), cfg.cost)
    requires (s', reply) == Send(cfg, s, c)
    ensures s'.rows == s.rows[c.request := NewOtpRow(cfg, s, c, StatusOfSend(c))]
    ensures s'.jobs == if c.queueUp then s.jobs + [QueuedJob(Worker.Job(c.request, cfg.owner(c.app), cfg.cost), 0, true)]
                       else s.jobs
    ensures var debited := Debited(s.wallets, cfg.owner(c.app), cfg.cost, "otp_request", c.dbId);
            s'.wallets ==
              if !c.queueUp && (c.delivery.Temporary? || c.delivery.Permanent?)
              then Apply(debited, RefundOp(cfg.owner(c.app), cfg.cost, "otp_request_failure", c.request)) else debited
    ensures s'.cache == s.cache[(c.app, c.phone) := Store.Entry(c.code, c.request, 0, s.now + c.ttl * 1000)]
    ensures s'.cooldowns == s.cooldowns[c.phone := s.now]
    ensures s'.now == s.now && s'.blocked == s.blocked && s'.messages == s.messages && s'.deadLetters == s.deadLetters
    ensures reply == if !c.queueUp && c.delivery.Throws? then Rejected(DispatchError)
                     else Accepted(Idem.Response(c.request, c.phone, s.now + c.ttl * 1000, cfg.cost))
    ensures s'.idem == if c.idemKey == None || !reply.Accepted? then s.idem
                       else Idem.Save(s.idem, c.node, (c.app, c.idemKey.value), "/v1/otp/send", reply.response, s.now,
                                      c.redisUp, c.tableSaveUp)
  {
    PaidSendIsFinished(cfg, s, c);
    var s1 := WithCharge(cfg, WithNewRow(cfg, s, c), c);
    FinishEffect(cfg, s1, c, s', reply);
  }

  /* ---- Resend ---- */

  /** Every check of a resend before the debit passes. */
  predicate ResendAdmitted(cfg: Config, s: Sys, c: ResendCall) {
    c.request in s.rows &&
    var row := s.rows[c.request];
    row.app == c.app && row.status != Verified && s.now <= row.expiresAt &&
    TimeAt(s.cooldowns, row.phone) + cfg.cooldown <= s.now
  }

  lemma ResendAdmittedIff(cfg: Config, s: Sys, c: ResendCall)
    ensures ResendAdmitted(cfg, s, c) <==> ResendGate(cfg, s, c) == None
  {
  }

  /** A resend that is stopped has no effect, but that an overdue request, of that
      application and not verified, is marked expired. */
  lemma ResendStopped(cfg: Config, s: Sys, c: ResendCall)
    requires !ResendAdmitted(cfg, s, c)
    ensures var (s', reply) := Resend(cfg, s, c);
            var known := c.request in s.rows && s.rows[c.request].app == c.app;
            (reply == Rejected(OtpNotFound) <==> !known) &&
            (reply == Rejected(AlreadyVerified) <==> known && s.rows[c.request].status == Verified) &&
            (reply == Rejected(OtpExpired) <==>
              known && s.rows[c.request].status != Verified && s.rows[c.request].expiresAt < s.now) &&
            (reply != Rejected(OtpExpired) ==> s' == s) &&
            (reply == Rejected(OtpExpired) ==>
              s' == s.(rows := s.rows[c.request := s.rows[c.request].(status := OtpStatus.Expired)])) &&
            !reply.Accepted?
  {
    ResendAdmittedIff(cfg, s, c);
  }

  lemma ResendUnpaid(cfg: Config, s: Sys, c: ResendCall)
    requires DbOk(s.wallets) && ResendAdmitted(cfg, s, c) && !Covers(s.wallets, cfg.owner(c.app), cfg.cost)
    ensures Resend(cfg, s, c) ==
      (s, Rejected(NotPaid(InsufficientFunds(AccountOf(s.wallets, cfg.owner(c.app)).balance, cfg.cost))))
  {
    ResendAdmittedIff(cfg, s, c);
    DebitPostsIff(s.wallets, ResendDebit(cfg, c));
  }

  /** The life a resent code gets, in seconds: what is left, or five minutes when that is
      less than one. */
  function LifeLeft(s: Sys, row: OtpRow): int {
    var seconds := (row.expiresAt - s.now) / 1000;
    if 60 <= seconds then seconds else 300
  }

  function NewDeadline(s: Sys, row: OtpRow): int {
    if 60 * 1000 <= row.expiresAt - s.now then row.expiresAt else s.now + 300 * 1000
  }

  lemma PaidResendIsFinished(cfg: Config, s: Sys, c: ResendCall)
    requires DbOk(s.wallets) && ResendAdmitted(cfg, s, c) && Covers(s.wallets, cfg.owner(c.app), cfg.cost)
    ensures var row := s.rows[c.request];
            WithNewCode(cfg, s, c) == s.(
              rows := s.rows[c.request := row.(hash := c.code, expiresAt := NewDeadline(s, row))],
              wallets := Debited(s.wallets, cfg.owner(c.app), cfg.cost, "otp_resend", c.request),
              charged := s.charged + {c.request},
              cache := s.cache[(c.app, row.phone) := Store.Entry(c.code, c.request, 0, s.now + LifeLeft(s, row) * 1000)],
              cooldowns := s.cooldowns[row.phone := s.now])
    ensures Resend(cfg, s, c) == FinishResend(cfg, WithNewCode(cfg, s, c), c)
  {
    ResendAdmittedIff(cfg, s, c);
    DebitPostsIff(s.wallets, ResendDebit(cfg, c));
  }

  lemma FinishResendEffect(cfg: Config, s: Sys, c: ResendCall, s': Sys, reply: Reply)
    requires c.request in s.rows && (s', reply) == FinishResend(cfg, s, c)
    ensures var row := s.rows[c.request];
            s'.rows == s.rows[c.request := if !c.queueUp && c.delivery.Success? then row.(status := OtpStatus.Sent) else row] &&
            reply == if !c.queueUp && c.delivery.Throws? then Rejected(DispatchError)
                     else Accepted(Idem.Response(c.request, row.phone, row.expiresAt, cfg.cost))
    ensures s'.jobs == if c.queueUp then s.jobs + [QueuedJob(Worker.Job(c.request, cfg.owner(c.app), cfg.cost), 0, true)]
                       else s.jobs
    ensures s' == s.(rows := s'.rows, jobs := s'.jobs)
  {
    assert s.rows == s.rows[c.request := s.rows[c.request]];
  }

  /** An admitted resend that the wallet covers: the row's new code and deadline, its debit,
      the stored code, the cooldown, and a waiting job at the end of the queue or, with the
      broker down, a row marked sent on success alone; and never a refund. */
  lemma PaidResendLeaves(cfg: Config, s: Sys, c: ResendCall, s': Sys, reply: Reply)
    requires DbOk(s.wallets) && ResendAdmitted(cfg, s, c) && Covers(s.wallets, cfg.owner(c.app), cfg.cost)
    requires (s', reply) == Resend(cfg, s, c)
    ensures var row := s.rows[c.request];
            s'.rows == s.rows[c.request := row.(hash := c.code, expiresAt := NewDeadline(s, row),
              status := if !c.queueUp && c.delivery.Success? then OtpStatus.Sent else row.status)] &&
            s'.cache == s.cache[(c.app, row.phone) := Store.Entry(c.code, c.request, 0, s.now + LifeLeft(s, row) * 1000)] &&
            s'.cooldowns == s.cooldowns[row.phone := s.now] &&
            reply == if !c.queueUp && c.delivery.Throws? then Rejected(DispatchError)
                     else Accepted(Idem.Response(c.request, row.phone, NewDeadline(s, row), cfg.cost))
    ensures s'.jobs == if c.queueUp then s.jobs + [QueuedJob(Worker.Job(c.request, cfg.owner(c.app), cfg.cost), 0, true)]
                       else s.jobs
    ensures s'.wallets == Debited(s.wallets, cfg.owner(c.app), cfg.cost, "otp_resend", c.request)
    ensures s'.now == s.now && s'.blocked == s.blocked && s'.messages == s.messages && s'.deadLetters == s.deadLetters &&
            s'.idem == s.idem
  {
    PaidResendIsFinished(cfg, s, c);
    FinishResendEffect(cfg, WithNewCode(cfg, s, c), c, s', reply);
  }

  /* ---- Verify and status ---- */

  /** The entry a verification finds: stored for that application and phone, and not past
      its expiry; at the very instant of it, in memory only. */
  predicate Stored(cfg: Config, s: Sys, app: App, phone: string) {
    (app, phone) in s.cache &&
    var e := s.cache[(app, phone)];
    s.now < e.expires || (cfg.mode.Memory? && s.now == e.expires)
  }

  predicate OwnRow(s: Sys, request: Request, app: App) {
    request in s.rows && s.rows[request].app == app
  }

  lemma NothingStored(cfg: Config, s: Sys, app: App, phone: string, code: string)
    requires !Stored(cfg, s, app, phone)
    ensures VerdictOf(cfg, s, app, phone, code) == Store.NotFound && Verify(cfg, s, app, phone, code) == s
  {
  }

  /** The right code is accepted whatever was tried before; it ends the code, and marks the
      row of its request verified now. */
  lemma RightCode(cfg: Config, s: Sys, app: App, phone: string)
    requires Stored(cfg, s, app, phone)
    ensures var e := s.cache[(app, phone)];
            VerdictOf(cfg, s, app, phone, e.hash) == Store.Correct(e.request, e.attempts + 1) &&
            Verify(cfg, s, app, phone, e.hash) == s.(
              cache := s.cache - {(app, phone)},
              rows := if OwnRow(s, e.request, app)
                      then s.rows[e.request := s.rows[e.request].(
                        status := Verified, attempts := e.attempts + 1, verifiedAt := Some(s.now))]
                      else s.rows)
  {
  }

  /** A wrong code counts in the row. Below the maximum the code stays, under the same hash;
      at the maximum it ends, the row is expired, and the number blocked for an hour. */
  lemma WrongCode(cfg: Config, s: Sys, app: App, phone: string, code: string)
    requires Stored(cfg, s, app, phone) && code != s.cache[(app, phone)].hash
    ensures var e := s.cache[(app, phone)];
            var s' := Verify(cfg, s, app, phone, code);
            var last := cfg.max <= e.attempts + 1;
            VerdictOf(cfg, s, app, phone, code) ==
              (if last then Store.Exceeded(e.request, e.attempts + 1)
               else Store.Incorrect(e.request, e.attempts + 1, cfg.max - (e.attempts + 1))) &&
            s'.rows == (if !OwnRow(s, e.request, app) then s.rows
                        else s.rows[e.request := s.rows[e.request].(
                          attempts := e.attempts + 1,
                          status := if last then OtpStatus.Expired else s.rows[e.request].status)]) &&
            (last ==> s'.cache == s.cache - {(app, phone)} && s'.blocked == s.blocked[phone := s.now + 3600 * 1000]) &&
            (!last ==> (app, phone) in s'.cache && s'.cache[(app, phone)].hash == e.hash &&
                       s'.cache == s.cache[(app, phone) := s'.cache[(app, phone)]] && s'.blocked == s.blocked) &&
            s' == s.(rows := s'.rows, cache := s'.cache, blocked := s'.blocked)
  {
  }

  /** What a wrong try below the maximum leaves of the entry: counted in memory; in Redis
      counted under a whole number of seconds, unless `TTL` answers zero. */
  lemma WrongCodeEntry(cfg: Config, s: Sys, app: App, phone: string, code: string)
    requires Stored(cfg, s, app, phone) && code != s.cache[(app, phone)].hash
    requires s.cache[(app, phone)].attempts + 1 < cfg.max
    ensures var e, s' := s.cache[(app, phone)], Verify(cfg, s, app, phone, code);
            (app, phone) in s'.cache &&
            s'.cache[(app, phone)] ==
              match cfg.mode
              case Memory => e.(attempts := e.attempts + 1)
              case Redis(Down) =>
                if e.expires - s.now < 1000 then e
                else e.(attempts := e.attempts + 1, expires := s.now + (e.expires - s.now) / 1000 * 1000)
              case Redis(Nearest) =>
                if e.expires - s.now < 500 then e
                else e.(attempts := e.attempts + 1, expires := s.now + (e.expires - s.now + 500) / 1000 * 1000)
  {
  }

  /** A status query marks exactly the overdue requests that are still open. */
  lemma QueryExpires(s: Sys, app: App, request: Request)
    ensures var open := OwnRow(s, request, app) && s.rows[request].expiresAt < s.now &&
                        s.rows[request].status in {Created, Queued, OtpStatus.Sent, OtpStatus.Delivered, Blocked};
            QueryStatus(s, app, request) ==
              if open then s.(rows := s.rows[request := s.rows[request].(status := OtpStatus.Expired)]) else s
  {
  }

  /* ---- The workers ---- */

  predicate Runnable(s: Sys, i: nat) {
    i < |s.jobs| && s.jobs[i].waiting && s.jobs[i].job.request in s.rows
  }

  /** The attempt is the last, and fails. */
  predicate GivesUp(s: Sys, i: nat, a: Worker.Attempt)
    requires i < |s.jobs|
  {
    a.delivery.Permanent? || ((a.delivery.Temporary? || a.delivery.Throws?) && 3 <= s.jobs[i].attemptsMade + 1)
  }

  /** An attempt without failing calls: delivered and done; or given up, with the request
      failed, refunded and dead-lettered; or left waiting, one attempt on. */
  lemma JobLeaves(s: Sys, i: nat, a: Worker.Attempt, s': Sys)
    requires Runnable(s, i) && a.faults == map[] && s' == RunJob(s, i, a)
    ensures var q := s.jobs[i]; var request := q.job.request; var row := s.rows[request];
            var failed := a.delivery.Temporary? || a.delivery.Throws?;
            s'.rows == s.rows[request := row.(status :=
              if a.delivery.Success? then OtpStatus.Sent else if GivesUp(s, i, a) then OtpStatus.Failed else row.status)] &&
            s'.jobs == s.jobs[i := q.(attemptsMade := if failed then q.attemptsMade + 1 else q.attemptsMade,
                                      waiting := failed && !GivesUp(s, i, a))] &&
            s'.wallets == (if GivesUp(s, i, a)
              then Apply(s.wallets, RefundOp(q.job.customer, q.job.cost, "otp_request_failure", request)) else s.wallets) &&
            s'.deadLetters == if GivesUp(s, i, a) then s.deadLetters + [request] else s.deadLetters
  {
    var q := s.jobs[i];
    Worker.FaultFreeAttempt(q.job, WorldOf(s, s.rows[q.job.request].status), q.attemptsMade, MAX_RETRIES, a);
  }

  /** A webhook job without failing calls, for the first message with its id: the status and
      its event when the type is new, and the request unless it is verified. */
  lemma WebhookLeaves(s: Sys, i: nat, statusStr: string, s': Sys)
    requires i < |s.messages| && s.messages[i].wamid.Some?
    requires forall k :: 0 <= k < i ==> s.messages[k].wamid != s.messages[i].wamid
    requires s' == RunWebhook(s, s.messages[i].wamid.value, statusStr, map[])
    ensures var m := s.messages[i]; var state := Hook.StateOf(statusStr);
            s'.messages == s.messages[i := if state in m.events then m
                                           else m.(status := state, events := m.events + [state])] &&
            s'.rows == (if m.request !in s.rows then s.rows
                        else s.rows[m.request := s.rows[m.request].(
                          status := Hook.Reflect(s.rows[m.request].status, statusStr))]) &&
            s' == s.(messages := s'.messages, rows := s'.rows)
  {
    assert Hook.FindMessage(s.messages, s.messages[i].wamid.value) == Some(i);
  }

  lemma UnknownWebhook(s: Sys, wamid: string, statusStr: string, faults: Hook.Faults)
    requires forall k :: 0 <= k < |s.messages| ==> s.messages[k].wamid != Some(wamid)
    ensures RunWebhook(s, wamid, statusStr, faults) == s
  {
  }

  /** A job handed out again waits, with the attempts it has made. */
  lemma RedeliveredWaits(cfg: Config, s: Sys, i: nat)
    requires i < |s.jobs|
    ensures Next(cfg, s, Redeliver(i)) == s.(jobs := s.jobs[i := QueuedJob(s.jobs[i].job, s.jobs[i].attemptsMade, true)])
  {
  }
}
