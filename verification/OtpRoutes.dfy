/** The OTP handlers as the API runs them, one statement after another over the tables and
    caches, and the machine of OtpSystem as their specification. */
module OtpRoutes {
  import opened Prelude
  import opened Messages
  import opened Ledger
  import opened OtpSystem
  import opened WalletService
  import Store = OtpStore
  import Worker = OtpWorker
  import Idem = Idempotency

  class OtpApi {
    const cfg: Config
    var clock: int
    var otpRequests: map<Request, OtpRow>
    var otpStore: map<Store.Key, Store.Entry>
    var cooldownStore: map<string, int>
    var blockedPhones: map<string, int>
    var queue: seq<QueuedJob>
    const wallet: WalletService
    const idempotency: Idem.IdempotencyMiddleware

    // Written by the workers only.
    var messages: seq<Message>
    var deadLetters: seq<string>

    ghost var charged: set<Request>

    ghost predicate Valid() reads this, wallet {
      wallet.Valid()
    }

    ghost function View(): Sys
      requires Valid()
      reads this, wallet, idempotency
    {
      Sys(clock, otpRequests, otpStore, cooldownStore, blockedPhones, wallet.View(), queue, messages, deadLetters,
          idempotency.View(), charged)
    }

    constructor (cfg: Config, now: int)
      ensures Valid() && this.cfg == cfg && View() == Initial(now)
      ensures fresh(wallet) && fresh(idempotency)
    {
      this.cfg := cfg;
      clock := now;
      otpRequests, otpStore, cooldownStore, blockedPhones := map[], map[], map[], map[];
      queue, messages, deadLetters, charged := [], [], [], {};
      wallet := new WalletService();
      idempotency := new Idem.IdempotencyMiddleware();
    }

    /* ---- The code store and the cooldown ---- */

    method CheckPhoneCooldown(phone: string) returns (active: bool)
      requires Valid()
      ensures active == InCooldown(cfg, View(), phone)
    {
      var lastTime := 0;
      if phone in cooldownStore {
        lastTime := cooldownStore[phone];
      }
      return clock - lastTime < cfg.cooldown;
    }

    method StoreOtp(app: App, phone: string, code: string, request: Request, ttlSeconds: nat)
      requires Valid()
      modifies this
      ensures Valid()
      ensures View() == old(View()).(cache := old(View()).cache[(app, phone) := Store.StoreOtp(code, request, ttlSeconds, clock)])
    {
      otpStore := otpStore[(app, phone) := Store.Entry(code, request, 0, clock + ttlSeconds * 1000)];
    }

    method SetPhoneCooldown(phone: string)
      requires Valid()
      modifies this
      ensures Valid() && View() == old(View()).(cooldowns := old(View()).cooldowns[phone := clock])
    {
      cooldownStore := cooldownStore[phone := clock];
    }

    method UpdateStatus(request: Request, status: OtpStatus)
      requires Valid()
      modifies this
      ensures Valid() && View() == WithStatus(old(View()), request, status)
    {
      if request in otpRequests {
        otpRequests := otpRequests[request := otpRequests[request].(status := status)];
      }
    }

    /* ---- Send ---- */

    /** The checks, in order. */
    method CheckSend(c: SendCall) returns (stop: Option<Reply>)
      requires Valid()
      ensures stop == SendGate(cfg, View(), c)
    {
      if c.ttl < 60 || 3600 < c.ttl {
        return Some(Rejected(ValidationError));
      }
      if c.customerBlocked {
        return Some(Rejected(CustomerBlocked));
      }
      var unblockTime := 0;
      if c.phone in blockedPhones {
        unblockTime := blockedPhones[c.phone];
      }
      if clock < unblockTime {
        return Some(Rejected(PhoneBlocked));
      }
      if c.idemKey.Some? {
        var cached := idempotency.GetIdempotentResponse(c.node, (c.app, c.idemKey.value), SEND_ENDPOINT, clock,
                                                        c.redisUp, c.tableReadUp);
        if cached.Some? {
          return Some(Replayed(cached.value));
        }
      }
      if c.limited {
        return Some(Rejected(RateLimited));
      }
      var inCooldown := CheckPhoneCooldown(c.phone);
      if inCooldown {
        return Some(Rejected(CooldownActive));
      }
      if c.request in otpRequests {
        return Some(Rejected(DuplicateId));
      }
      return None;
    }

    /** The row is created before the debit; a refused debit leaves it. */
    method CreateAndCharge(c: SendCall) returns (paid: Outcome)
      requires Valid()
      modifies this, wallet
      ensures Valid()
      ensures var s1 := WithNewRow(cfg, old(View()), c);
              paid == OutcomeOf(s1.wallets, SendDebit(cfg, c)) &&
              View() == if paid.Posted? then WithCharge(cfg, s1, c) else s1
    {
      var expiresAt := clock + c.ttl * 1000;
      otpRequests := otpRequests[c.request := OtpRow(c.app, c.phone, c.code, Created, expiresAt, 0, cfg.max, None)];
      paid := wallet.DeductCreditsAtomic(cfg.owner(c.app), cfg.cost, "otp_request", c.dbId);
      if paid.Posted? {
        charged := charged + {c.request};
        StoreOtp(c.app, c.phone, c.code, c.request, c.ttl);
        SetPhoneCooldown(c.phone);
      }
    }

    method DispatchSend(c: SendCall) returns (threw: bool)
      requires Valid()
      modifies this, wallet
      ensures Valid() && View() == SendDispatch(cfg, old(View()), c)
      ensures threw == (!c.queueUp && c.delivery.Throws?)
    {
      if c.queueUp {
        queue := queue + [QueuedJob(Worker.Job(c.request, cfg.owner(c.app), cfg.cost), 0, true)];
        return false;
      }
      match c.delivery {
        case Success(_) =>
          UpdateStatus(c.request, OtpStatus.Sent);
        case Throws =>
          return true;
        case _ =>
          UpdateStatus(c.request, OtpStatus.Failed);
          var _ := wallet.RefundCredits(cfg.owner(c.app), cfg.cost, "otp_request_failure", c.request);
      }
      return false;
    }

    method SaveReply(c: SendCall, r: Idem.Response)
      requires Valid()
      modifies idempotency
      ensures Valid() && View() == WithSavedReply(old(View()), c, r)
    {
      if c.idemKey.Some? {
        idempotency.SaveIdempotentResponse(c.node, (c.app, c.idemKey.value), SEND_ENDPOINT, r, clock,
                                           c.redisUp, c.tableSaveUp);
      }
    }

    method FinishSend(c: SendCall) returns (reply: Reply)
      requires Valid()
      modifies this, wallet, idempotency
      ensures Valid() && (View(), reply) == OtpSystem.FinishSend(cfg, old(View()), c)
    {
      var threw := DispatchSend(c);
      if threw {
        return Rejected(DispatchError);
      }
      var responseData := Idem.Response(c.request, c.phone, clock + c.ttl * 1000, cfg.cost);
      SaveReply(c, responseData);
      return Accepted(responseData);
    }

    method Send(c: SendCall) returns (reply: Reply)
      requires Valid()
      modifies this, wallet, idempotency
      ensures Valid() && (View(), reply) == OtpSystem.Send(cfg, old(View()), c)
    {
      var stop := CheckSend(c);
      if stop.Some? {
        return stop.value;
      }
      var paid := CreateAndCharge(c);
      if !paid.Posted? {
        return Rejected(NotPaid(paid));
      }
      reply := FinishSend(c);
    }

    /* ---- Resend ---- */

    method CheckResend(c: ResendCall) returns (stop: Option<Rejection>)
      requires Valid()
      ensures stop == ResendGate(cfg, View(), c)
    {
      if c.request !in otpRequests || otpRequests[c.request].app != c.app {
        return Some(OtpNotFound);
      }
      var otpRecord := otpRequests[c.request];
      if otpRecord.status == Verified {
        return Some(AlreadyVerified);
      }
      if clock > otpRecord.expiresAt {
        return Some(OtpExpired);
      }
      var inCooldown := CheckPhoneCooldown(otpRecord.phone);
      return if inCooldown then Some(CooldownActive) else None;
    }

    /** The debit of a resend and, once it is paid, its writes: row, store, cooldown. */
    method ChargeNewCode(c: ResendCall) returns (paid: Outcome)
      requires Valid() && c.request in otpRequests && clock <= otpRequests[c.request].expiresAt
      modifies this, wallet
      ensures Valid() && paid == OutcomeOf(old(View()).wallets, ResendDebit(cfg, c))
      ensures View() == if paid.Posted? then WithNewCode(cfg, old(View()), c) else old(View())
    {
      paid := wallet.DeductCreditsAtomic(cfg.owner(c.app), cfg.cost, "otp_resend", c.request);
      if paid.Posted? {
        charged := charged + {c.request};
        var otpRecord := otpRequests[c.request];
        var ttlSeconds := (otpRecord.expiresAt - clock) / 1000;
        var newExpiresAt := otpRecord.expiresAt;
        if ttlSeconds < 60 {
          ttlSeconds := 300;
          newExpiresAt := clock + 300 * 1000;
        }
        otpRequests := otpRequests[c.request := otpRecord.(hash := c.code, expiresAt := newExpiresAt)];
        StoreOtp(c.app, otpRecord.phone, c.code, c.request, ttlSeconds);
        SetPhoneCooldown(otpRecord.phone);
      } else {
        assert Apply(old(View()).wallets, ResendDebit(cfg, c)) == old(View()).wallets;
      }
    }

    method FinishResend(c: ResendCall) returns (reply: Reply)
      requires Valid() && c.request in otpRequests
      modifies this
      ensures Valid() && (View(), reply) == OtpSystem.FinishResend(cfg, old(View()), c)
    {
      var otpRecord := otpRequests[c.request];
      if c.queueUp {
        queue := queue + [QueuedJob(Worker.Job(c.request, cfg.owner(c.app), cfg.cost), 0, true)];
      } else if c.delivery.Throws? {
        return Rejected(DispatchError);
      } else if c.delivery.Success? {
        UpdateStatus(c.request, OtpStatus.Sent);
      }
      return Accepted(Idem.Response(c.request, otpRecord.phone, otpRecord.expiresAt, cfg.cost));
    }

    method Resend(c: ResendCall) returns (reply: Reply)
      requires Valid()
      modifies this, wallet
      ensures Valid() && (View(), reply) == OtpSystem.Resend(cfg, old(View()), c)
    {
      var stop := CheckResend(c);
      if stop.Some? {
        if stop.value.OtpExpired? {
          UpdateStatus(c.request, OtpStatus.Expired);
        }
        return Rejected(stop.value);
      }
      var paid := ChargeNewCode(c);
      if !paid.Posted? {
        return Rejected(NotPaid(paid));
      }
      reply := FinishResend(c);
    }

    /* ---- Verify and status ---- */

    method UpdateRow(request: Request, row: OtpRow)
      requires Valid() && request in otpRequests
      modifies this`otpRequests
      ensures Valid() && otpRequests == old(otpRequests)[request := row]
    {
      otpRequests := otpRequests[request := row];
    }

    /** What a wrong try does: the row, and past the maximum its status, the block and the
        end of the code; below it the entry's own count. */
    method CountWrongTry(app: App, phone: string, code: string) returns (v: Store.Verdict)
      requires Valid() && (app, phone) in otpStore && Store.Live(cfg.mode, otpStore[(app, phone)], clock)
      requires code != otpStore[(app, phone)].hash
      modifies this
      ensures Valid() && View() == OtpSystem.Verify(cfg, old(View()), app, phone, code)
      ensures v == VerdictOf(cfg, old(View()), app, phone, code)
    {
      var storedData := otpStore[(app, phone)];
      var request, attempts := storedData.request, storedData.attempts + 1;
      var found := request in otpRequests && otpRequests[request].app == app;
      if found {
        UpdateRow(request, otpRequests[request].(attempts := attempts));
      }
      if attempts >= cfg.max {
        if found {
          UpdateRow(request, otpRequests[request].(status := OtpStatus.Expired));
        }
        blockedPhones := blockedPhones[phone := clock + BLOCK_MS];
        otpStore := otpStore - {(app, phone)};
        v := Store.Exceeded(request, attempts);
        assert found ==> otpRequests == old(otpRequests)[request := RowAfter(old(otpRequests)[request], v, clock)];
        return;
      }
      otpStore := otpStore[(app, phone) := Store.AfterWrongTry(cfg.mode, storedData, clock)];
      return Store.Incorrect(request, attempts, cfg.max - attempts);
    }

    method Verify(app: App, phone: string, code: string) returns (v: Store.Verdict)
      requires Valid()
      modifies this
      ensures Valid() && View() == OtpSystem.Verify(cfg, old(View()), app, phone, code)
      ensures v == VerdictOf(cfg, old(View()), app, phone, code)
    {
      if (app, phone) !in otpStore || !Store.Live(cfg.mode, otpStore[(app, phone)], clock) {
        return Store.NotFound;
      }
      var storedData := otpStore[(app, phone)];
      if code != storedData.hash {
        v := CountWrongTry(app, phone, code);
        return;
      }
      var request, attempts := storedData.request, storedData.attempts + 1;
      otpStore := otpStore - {(app, phone)};
      if request in otpRequests && otpRequests[request].app == app {
        UpdateRow(request, otpRequests[request].(status := Verified, attempts := attempts, verifiedAt := Some(clock)));
      }
      return Store.Correct(request, attempts);
    }

    /** The status reported, when the request is known: an overdue one is expired first. */
    method GetOtpStatus(app: App, request: Request) returns (status: Option<OtpStatus>)
      requires Valid()
      modifies this
      ensures Valid() && View() == QueryStatus(old(View()), app, request)
      ensures status == if HasRow(View(), request, app) then Some(View().rows[request].status) else None
    {
      if request !in otpRequests || otpRequests[request].app != app {
        return None;
      }
      var otpRecord := otpRequests[request];
      var currentStatus := otpRecord.status;
      if currentStatus != Verified && currentStatus != OtpStatus.Expired && currentStatus != OtpStatus.Failed &&
         clock > otpRecord.expiresAt {
        currentStatus := OtpStatus.Expired;
        UpdateStatus(request, OtpStatus.Expired);
      }
      return Some(currentStatus);
    }
  }
}
