/** The OTP lifecycle as one state machine over the shared tables and caches: the send,
    resend, verify and status handlers, the delivery worker, the webhook worker and
    top-ups. Each handler call is one step with one reading of a monotone clock, in
    milliseconds. */
module OtpSystem {
  import opened Prelude
  import opened Messages
  import opened Ledger
  import Store = OtpStore
  import Worker = OtpWorker
  import Hook = WebhookWorker
  import Idem = Idempotency

  type App = nat
  type Request = string

  /** mode: where codes, cooldowns and blocks are kept. In Redis the API processes share
      them; the memory form is that of a single process, lost when it restarts.
      owner: the customer of an application, both taken from the same API key. */
  datatype Config = Config(mode: Store.Mode, max: nat, cost: real, cooldown: nat, owner: App -> Customer)

  predicate ConfigOk(cfg: Config) {
    1 <= cfg.max && 0.0 <= cfg.cost
  }

  /** A row of `otp_requests`, by request id. */
  datatype OtpRow = OtpRow(app: App, phone: string, hash: string, status: OtpStatus, expiresAt: int,
                           attempts: nat, maxAttempts: nat, verifiedAt: Option<int>)

  datatype QueuedJob = QueuedJob(job: Worker.Job, attemptsMade: nat, waiting: bool)

  /** charged: the requests with a posted debit, kept for the statements only. */
  datatype Sys = Sys(now: int, rows: map<Request, OtpRow>, cache: map<Store.Key, Store.Entry>,
                     cooldowns: map<string, int>, blocked: map<string, int>, wallets: Db,
                     jobs: seq<QueuedJob>, messages: seq<Message>, deadLetters: seq<string>,
                     idem: Idem.Tiers, charged: set<Request>)

  /** A send. request and dbId are the generated ids; the verdicts of the checks that other
      components make, and the answers of the broker, provider and tiers, are parameters. */
  datatype SendCall = SendCall(app: App, phone: string, code: string, ttl: nat, request: Request, dbId: string,
                               idemKey: Option<string>, node: nat, customerBlocked: bool, limited: bool,
                               redisUp: bool, tableReadUp: bool, tableSaveUp: bool,
                               queueUp: bool, delivery: Worker.Delivery)

  datatype ResendCall = ResendCall(app: App, request: Request, code: string, queueUp: bool, delivery: Worker.Delivery)

  datatype Rejection =
    | ValidationError | CustomerBlocked | PhoneBlocked | RateLimited | CooldownActive | DuplicateId
    | NotPaid(outcome: Outcome) | OtpNotFound | AlreadyVerified | OtpExpired | DispatchError

  datatype Reply =
    | Accepted(response: Idem.Response)
    | Replayed(response: Idem.Response)
    | Rejected(reason: Rejection)

  const SEND_ENDPOINT: string := "/v1/otp/send"
  const BLOCK_MS: int := 3600 * 1000
  const MAX_RETRIES: nat := 3

  /* ---- Send ---- */

  function At(m: map<string, int>, k: string): int {
    if k in m then m[k] else 0
  }

  predicate InCooldown(cfg: Config, s: Sys, phone: string) {
    s.now - At(s.cooldowns, phone) < cfg.cooldown
  }

  function CachedReply(s: Sys, c: SendCall): Option<Idem.Response> {
    if c.idemKey == None then None
    else Idem.Lookup(s.idem, c.node, (c.app, c.idemKey.value), SEND_ENDPOINT, s.now, c.redisUp, c.tableReadUp)
  }

  /** The checks before the idempotency lookup pass. */
  predicate ReachesLookup(s: Sys, c: SendCall) {
    60 <= c.ttl <= 3600 && !c.customerBlocked && At(s.blocked, c.phone) <= s.now
  }

  /** The checks of a send in their order: the reply of the first that stops it. */
  function SendGate(cfg: Config, s: Sys, c: SendCall): Option<Reply> {
    if !(60 <= c.ttl <= 3600) then Some(Rejected(ValidationError))
    else if c.customerBlocked then Some(Rejected(CustomerBlocked))
    else if s.now < At(s.blocked, c.phone) then Some(Rejected(PhoneBlocked))
    else if CachedReply(s, c).Some? then Some(Replayed(CachedReply(s, c).value))
    else if c.limited then Some(Rejected(RateLimited))
    else if InCooldown(cfg, s, c.phone) then Some(Rejected(CooldownActive))
    else if c.request in s.rows then Some(Rejected(DuplicateId))
    else None
  }

  function SendDebit(cfg: Config, c: SendCall): Op {
    DeductOp(cfg.owner(c.app), cfg.cost, "otp_request", c.dbId)
  }

  function JobOf(cfg: Config, app: App, request: Request): Worker.Job {
    Worker.Job(request, cfg.owner(app), cfg.cost)
  }

  /** The row is created before the debit, and stays when the debit fails. */
  function WithNewRow(cfg: Config, s: Sys, c: SendCall): Sys {
    s.(rows := s.rows[c.request := OtpRow(c.app, c.phone, c.code, Created, s.now + c.ttl * 1000, 0, cfg.max, None)])
  }

  /** Debit posted, code stored, cooldown set. */
  function WithCharge(cfg: Config, s: Sys, c: SendCall): Sys {
    s.(wallets := Apply(s.wallets, SendDebit(cfg, c)),
       charged := s.charged + {c.request},
       cache := s.cache[(c.app, c.phone) := Store.StoreOtp(c.code, c.request, c.ttl, s.now)],
       cooldowns := s.cooldowns[c.phone := s.now])
  }

  function Mark(rows: map<Request, OtpRow>, request: Request, status: OtpStatus): map<Request, OtpRow> {
    if request in rows then rows[request := rows[request].(status := status)] else rows
  }

  function WithStatus(s: Sys, request: Request, status: OtpStatus): Sys {
    s.(rows := Mark(s.rows, request, status))
  }

  function Enqueue(jobs: seq<QueuedJob>, job: Worker.Job): seq<QueuedJob> {
    jobs + [QueuedJob(job, 0, true)]
  }

  /** The provider, called directly because the broker is down, says that nothing was sent. */
  predicate NotSent(queueUp: bool, d: Worker.Delivery) {
    !queueUp && (d.Temporary? || d.Permanent?)
  }

  predicate SentAtOnce(queueUp: bool, d: Worker.Delivery) {
    !queueUp && d.Success?
  }

  /** Queue the job; with the broker down, call the provider at once, and refund a failure. */
  function SendDispatch(cfg: Config, s: Sys, c: SendCall): Sys {
    var job := JobOf(cfg, c.app, c.request);
    s.(jobs := if c.queueUp then Enqueue(s.jobs, job) else s.jobs,
       rows := if SentAtOnce(c.queueUp, c.delivery) then Mark(s.rows, c.request, OtpStatus.Sent)
               else if NotSent(c.queueUp, c.delivery) then Mark(s.rows, c.request, OtpStatus.Failed)
               else s.rows,
       wallets := if NotSent(c.queueUp, c.delivery) then Apply(s.wallets, Worker.RefundOf(job)) else s.wallets)
  }

  function WithSavedReply(s: Sys, c: SendCall, r: Idem.Response): Sys {
    if c.idemKey == None then s
    else s.(idem := Idem.Save(s.idem, c.node, (c.app, c.idemKey.value), SEND_ENDPOINT, r, s.now, c.redisUp, c.tableSaveUp))
  }

  /** What is left to do once the send is paid for. */
  function FinishSend(cfg: Config, s: Sys, c: SendCall): (Sys, Reply) {
    var s' := SendDispatch(cfg, s, c);
    if !c.queueUp && c.delivery.Throws? then (s', Rejected(DispatchError)) else
    var r := Idem.Response(c.request, c.phone, s.now + c.ttl * 1000, cfg.cost);
    (WithSavedReply(s', c, r), Accepted(r))
  }

  function Send(cfg: Config, s: Sys, c: SendCall): (Sys, Reply) {
    if SendGate(cfg, s, c).Some? then (s, SendGate(cfg, s, c).value) else
    var s1 := WithNewRow(cfg, s, c);
    var paid := OutcomeOf(s1.wallets, SendDebit(cfg, c));
    if !paid.Posted? then (s1, Rejected(NotPaid(paid)))
    else FinishSend(cfg, WithCharge(cfg, s1, c), c)
  }

  /* ---- Resend ---- */

  predicate HasRow(s: Sys, request: Request, app: App) {
    request in s.rows && s.rows[request].app == app
  }

  function ResendGate(cfg: Config, s: Sys, c: ResendCall): Option<Rejection> {
    if !HasRow(s, c.request, c.app) then Some(OtpNotFound)
    else if s.rows[c.request].status == Verified then Some(AlreadyVerified)
    else if s.now > s.rows[c.request].expiresAt then Some(OtpExpired)
    else if InCooldown(cfg, s, s.rows[c.request].phone) then Some(CooldownActive)
    else None
  }

  function ResendDebit(cfg: Config, c: ResendCall): Op {
    DeductOp(cfg.owner(c.app), cfg.cost, "otp_resend", c.request)
  }

  /** What is left of the request's life in whole seconds, or 300 when under a minute. */
  function ResendTtl(s: Sys, row: OtpRow): int {
    var left := (row.expiresAt - s.now) / 1000;
    if left < 60 then 300 else left
  }

  function ResendDeadline(s: Sys, row: OtpRow): int {
    if (row.expiresAt - s.now) / 1000 < 60 then s.now + 300 * 1000 else row.expiresAt
  }

  /** Debit posted, new code in the row and in the store, cooldown set. */
  function WithNewCode(cfg: Config, s: Sys, c: ResendCall): Sys
    requires c.request in s.rows && s.now <= s.rows[c.request].expiresAt
  {
    var row := s.rows[c.request];
    s.(wallets := Apply(s.wallets, ResendDebit(cfg, c)),
       charged := s.charged + {c.request},
       rows := s.rows[c.request := row.(hash := c.code, expiresAt := ResendDeadline(s, row))],
       cache := s.cache[(c.app, row.phone) := Store.StoreOtp(c.code, c.request, ResendTtl(s, row), s.now)],
       cooldowns := s.cooldowns[row.phone := s.now])
  }

  /** Unlike a send, a failed direct dispatch neither marks the request nor refunds it. */
  function ResendDispatch(cfg: Config, s: Sys, c: ResendCall): Sys {
    s.(jobs := if c.queueUp then Enqueue(s.jobs, JobOf(cfg, c.app, c.request)) else s.jobs,
       rows := if SentAtOnce(c.queueUp, c.delivery) then Mark(s.rows, c.request, OtpStatus.Sent) else s.rows)
  }

  /** What is left to do once the new code is stored. */
  function FinishResend(cfg: Config, s: Sys, c: ResendCall): (Sys, Reply)
    requires c.request in s.rows
  {
    var s' := ResendDispatch(cfg, s, c);
    var row := s.rows[c.request];
    (s', if !c.queueUp && c.delivery.Throws? then Rejected(DispatchError)
         else Accepted(Idem.Response(c.request, row.phone, row.expiresAt, cfg.cost)))
  }

  function Resend(cfg: Config, s: Sys, c: ResendCall): (Sys, Reply) {
    var gate := ResendGate(cfg, s, c);
    if gate == Some(OtpExpired) then (WithStatus(s, c.request, OtpStatus.Expired), Rejected(OtpExpired))
    else if gate.Some? then (s, Rejected(gate.value)) else
    var paid := OutcomeOf(s.wallets, ResendDebit(cfg, c));
    if !paid.Posted? then (s, Rejected(NotPaid(paid)))
    else FinishResend(cfg, WithNewCode(cfg, s, c), c)
  }

  /* ---- Verify and status ---- */

  function SlotOf(s: Sys, app: App, phone: string): Option<Store.Entry> {
    if (app, phone) in s.cache then Some(s.cache[(app, phone)]) else None
  }

  function VerdictOf(cfg: Config, s: Sys, app: App, phone: string, code: string): Store.Verdict {
    Store.VerdictOn(cfg.mode, cfg.max, SlotOf(s, app, phone), code, s.now)
  }

  function PutSlot(cache: map<Store.Key, Store.Entry>, key: Store.Key, slot: Option<Store.Entry>): map<Store.Key, Store.Entry> {
    if slot.Some? then cache[key := slot.value] else cache - {key}
  }

  /** What a verification writes to the row of the request it names. */
  function RowAfter(row: OtpRow, v: Store.Verdict, now: int): OtpRow {
    match v
    case NotFound => row
    case Incorrect(_, attempts, _) => row.(attempts := attempts)
    case Exceeded(_, attempts) => row.(attempts := attempts, status := OtpStatus.Expired)
    case Correct(_, attempts) => row.(status := Verified, attempts := attempts, verifiedAt := Some(now))
  }

  /** The rows are looked up and updated only through the request the cache entry names. */
  function Verify(cfg: Config, s: Sys, app: App, phone: string, code: string): Sys {
    var v := VerdictOf(cfg, s, app, phone, code);
    if v.NotFound? then s
    else s.(
      cache := PutSlot(s.cache, (app, phone), Store.SlotAfter(cfg.mode, cfg.max, SlotOf(s, app, phone), code, s.now)),
      rows := if HasRow(s, v.request, app) then s.rows[v.request := RowAfter(s.rows[v.request], v, s.now)] else s.rows,
      blocked := if v.Exceeded? then s.blocked[phone := s.now + BLOCK_MS] else s.blocked)
  }

  predicate ExpiresOnQuery(s: Sys, row: OtpRow) {
    row.status != Verified && row.status != OtpStatus.Expired && row.status != OtpStatus.Failed && s.now > row.expiresAt
  }

  function QueryStatus(s: Sys, app: App, request: Request): Sys {
    if HasRow(s, request, app) && ExpiresOnQuery(s, s.rows[request])
    then WithStatus(s, request, OtpStatus.Expired) else s
  }

  /* ---- The workers ---- */

  function WorldOf(s: Sys, status: OtpStatus): Worker.World {
    Worker.World(status, s.wallets, s.messages, s.deadLetters)
  }

  function WithWorld(s: Sys, request: Request, w: Worker.World): Sys {
    WithStatus(s, request, w.status).(wallets := w.wallets, messages := w.messages, deadLetters := w.deadLetters)
  }

  function RunJob(s: Sys, i: nat, a: Worker.Attempt): Sys {
    if i >= |s.jobs| || !s.jobs[i].waiting || s.jobs[i].job.request !in s.rows then s else
    var q := s.jobs[i];
    var f := Worker.Process(q.job, WorldOf(s, s.rows[q.job.request].status), q.attemptsMade, MAX_RETRIES, a);
    var q' := if f.threw then QueuedJob(q.job, q.attemptsMade + 1, q.attemptsMade + 1 < MAX_RETRIES)
              else q.(waiting := false);
    WithWorld(s, q.job.request, f.w).(jobs := s.jobs[i := q'])
  }

  /** A webhook job, any of whose calls may fail: it may stop between its two writes of the
      message, or before the request's. The queue may run it again, or never get it through. */
  function RunWebhook(s: Sys, wamid: string, statusStr: string, faults: Hook.Faults): Sys {
    match Hook.FindMessage(s.messages, wamid)
    case None => s
    case Some(i) =>
      var m := s.messages[i];
      s.(messages := s.messages[i := Hook.Record(m, statusStr, Hook.EffectOf(faults))],
         rows := if m.request in s.rows && Hook.Reflects(m, statusStr, faults)
                 then Mark(s.rows, m.request, Hook.Reflect(s.rows[m.request].status, statusStr))
                 else s.rows)
  }

  /* ---- The machine ---- */

  datatype Step =
    | DoSend(send: SendCall)
    | DoResend(resend: ResendCall)
    | DoVerify(app: App, phone: string, code: string)
    | DoStatus(app: App, request: Request)
    | DoJob(i: nat, attempt: Worker.Attempt)
    | Redeliver(i: nat)                    // the queue hands out a job again
    | DoWebhook(wamid: string, statusStr: string, webhookFaults: Hook.Faults)
    | DoTopUp(customer: Customer, amount: real, reference: string)
    | Tick(ms: nat)
    | LoseCode(lostCode: Store.Key)             // Redis evicts a key
    | LoseCooldown(phone: string)
    | LoseBlock(phone: string)
    | LoseReply(lostReply: Idem.Key)
    | RestartNode(node: nat)               // an API process restarts, with empty memory

  function Next(cfg: Config, s: Sys, step: Step): Sys {
    match step
    case DoSend(c) => Send(cfg, s, c).0
    case DoResend(c) => Resend(cfg, s, c).0
    case DoVerify(app, phone, code) => Verify(cfg, s, app, phone, code)
    case DoStatus(app, request) => QueryStatus(s, app, request)
    case DoJob(i, a) => RunJob(s, i, a)
    case Redeliver(i) => if i < |s.jobs| then s.(jobs := s.jobs[i := s.jobs[i].(waiting := true)]) else s
    case DoWebhook(wamid, statusStr, faults) => RunWebhook(s, wamid, statusStr, faults)
    case DoTopUp(customer, amount, reference) =>
      if amount <= 0.0 then s else s.(wallets := Apply(s.wallets, TopUpOp(customer, amount, reference)))
    case Tick(ms) => s.(now := s.now + ms)
    case LoseCode(key) => s.(cache := s.cache - {key})
    case LoseReply(key) => s.(idem := Idem.Evict(s.idem, key))
    case LoseCooldown(phone) => s.(cooldowns := s.cooldowns - {phone})
    case LoseBlock(phone) => s.(blocked := s.blocked - {phone})
    case RestartNode(node) =>
      s.(idem := Idem.Restart(s.idem, node),
         cache := if cfg.mode.Memory? then map[] else s.cache,
         cooldowns := if cfg.mode.Memory? then map[] else s.cooldowns,
         blocked := if cfg.mode.Memory? then map[] else s.blocked)
  }

  function Initial(now: int): Sys {
    Sys(now, map[], map[], map[], map[], map[], [], [], [], Idem.EMPTY, {})
  }

  /** The state after the first n steps. */
  function Run(cfg: Config, s: Sys, steps: seq<Step>, n: nat): Sys
    requires n <= |steps|
  {
    if n == 0 then s else Next(cfg, Run(cfg, s, steps, n - 1), steps[n - 1])
  }
}
