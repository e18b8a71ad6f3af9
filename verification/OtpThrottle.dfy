/** The two timers of a phone number: the cooldown after a paid send or resend, and the
    hour's block after a code's last wrong try. Each holds exactly from the history of the
    run: a start, and no loss of that timer since. In memory a restart loses all timers; in
    Redis a key may be evicted. */
module OtpThrottle {
  import opened Prelude
  import opened Messages
  import opened Ledger
  import opened OtpSystem
  import Worker = OtpWorker
  import Hook = WebhookWorker

  datatype Timer = Cooldown | Block

  function TimersOf(s: Sys, t: Timer): map<string, int> {
    match t
    case Cooldown => s.cooldowns
    case Block => s.blocked
  }

  function Slot(s: Sys, t: Timer, phone: string): Option<int> {
    if phone in TimersOf(s, t) then Some(TimersOf(s, t)[phone]) else None
  }

  /** What a timer is set to: the time of the send, or the end of the block. */
  function SetTo(t: Timer, now: int): int {
    match t
    case Cooldown => now
    case Block => now + BLOCK_MS
  }

  /* ---- What starts and what loses a timer ---- */

  /** All checks pass, and the debit posts. */
  predicate SendPaid(cfg: Config, s: Sys, c: SendCall) {
    SendGate(cfg, s, c) == None && OutcomeOf(s.wallets, SendDebit(cfg, c)).Posted?
  }

  predicate ResendPaid(cfg: Config, s: Sys, c: ResendCall) {
    ResendGate(cfg, s, c) == None && OutcomeOf(s.wallets, ResendDebit(cfg, c)).Posted?
  }

  predicate Starts(cfg: Config, s: Sys, step: Step, t: Timer, phone: string) {
    match t
    case Cooldown =>
      (step.DoSend? && step.send.phone == phone && SendPaid(cfg, s, step.send)) ||
      (step.DoResend? && ResendPaid(cfg, s, step.resend) && s.rows[step.resend.request].phone == phone)
    case Block =>
      step.DoVerify? && step.phone == phone && VerdictOf(cfg, s, step.app, phone, step.code).Exceeded?
  }

  predicate Loses(cfg: Config, step: Step, t: Timer, phone: string) {
    (step.RestartNode? && cfg.mode.Memory?) || step == (if t.Cooldown? then LoseCooldown(phone) else LoseBlock(phone))
  }

  /** A send or resend is paid for exactly when it is accepted, or fails in a dispatch. */
  lemma PaidIff(cfg: Config, s: Sys, send: SendCall, resend: ResendCall)
    ensures SendPaid(cfg, s, send) <==>
      Send(cfg, s, send).1.Accepted? || Send(cfg, s, send).1 == Rejected(DispatchError)
    ensures ResendPaid(cfg, s, resend) <==>
      Resend(cfg, s, resend).1.Accepted? || Resend(cfg, s, resend).1 == Rejected(DispatchError)
  {
  }

  /* ---- One step ---- */

  predicate SameTimers(s: Sys, s': Sys) {
    s'.now == s.now && s'.cooldowns == s.cooldowns && s'.blocked == s.blocked
  }

  lemma FinishTimers(cfg: Config, s: Sys, c: SendCall)
    ensures SameTimers(s, FinishSend(cfg, s, c).0)
  {
    assert SameTimers(s, SendDispatch(cfg, s, c));
  }

  lemma SendTimers(cfg: Config, s: Sys, c: SendCall)
    ensures var s' := Send(cfg, s, c).0;
            s'.now == s.now && s'.blocked == s.blocked &&
            s'.cooldowns == if SendPaid(cfg, s, c) then s.cooldowns[c.phone := s.now] else s.cooldowns
  {
    if SendPaid(cfg, s, c) {
      FinishTimers(cfg, WithCharge(cfg, WithNewRow(cfg, s, c), c), c);
    }
  }

  lemma ResendTimers(cfg: Config, s: Sys, c: ResendCall)
    ensures var s' := Resend(cfg, s, c).0;
            s'.now == s.now && s'.blocked == s.blocked &&
            s'.cooldowns == if ResendPaid(cfg, s, c) then s.cooldowns[s.rows[c.request].phone := s.now] else s.cooldowns
  {
  }

  lemma VerifyTimers(cfg: Config, s: Sys, app: App, phone: string, code: string)
    ensures var s' := Verify(cfg, s, app, phone, code);
            s'.now == s.now && s'.cooldowns == s.cooldowns &&
            s'.blocked == if VerdictOf(cfg, s, app, phone, code).Exceeded?
                          then s.blocked[phone := s.now + BLOCK_MS] else s.blocked
  {
  }

  lemma JobTimers(s: Sys, i: nat, a: Worker.Attempt)
    ensures SameTimers(s, RunJob(s, i, a))
  {
  }

  lemma WebhookTimers(s: Sys, wamid: string, statusStr: string, faults: Hook.Faults)
    ensures SameTimers(s, RunWebhook(s, wamid, statusStr, faults))
  {
  }

  lemma OtherTimers(cfg: Config, s: Sys, step: Step)
    requires step.DoStatus? || step.Redeliver? || step.DoTopUp? || step.LoseCode? || step.LoseReply?
    ensures SameTimers(s, Next(cfg, s, step))
  {
  }

  /** What a step makes of a timer, by its start and its loss alone. */
  function TimerAfter(cfg: Config, s: Sys, step: Step, t: Timer, phone: string): Option<int> {
    if Starts(cfg, s, step, t, phone) then Some(SetTo(t, s.now))
    else if Loses(cfg, step, t, phone) then None
    else Slot(s, t, phone)
  }

  lemma HandlerTimer(cfg: Config, s: Sys, step: Step, s': Sys, t: Timer, phone: string)
    requires (step.DoSend? || step.DoResend? || step.DoVerify?) && s' == Next(cfg, s, step)
    ensures s'.now == s.now && Slot(s', t, phone) == TimerAfter(cfg, s, step, t, phone)
  {
    match step
    case DoSend(c) => SendTimers(cfg, s, c);
    case DoResend(c) => ResendTimers(cfg, s, c);
    case DoVerify(app, p, code) => VerifyTimers(cfg, s, app, p, code);
  }

  lemma LossTimer(cfg: Config, s: Sys, step: Step, s': Sys, t: Timer, phone: string)
    requires (step.LoseCooldown? || step.LoseBlock? || step.RestartNode? || step.Tick?) && s' == Next(cfg, s, step)
    ensures s.now <= s'.now && Slot(s', t, phone) == TimerAfter(cfg, s, step, t, phone)
  {
  }

  lemma NextTimer(cfg: Config, s: Sys, step: Step, s': Sys, t: Timer, phone: string)
    requires s' == Next(cfg, s, step)
    ensures s.now <= s'.now && Slot(s', t, phone) == TimerAfter(cfg, s, step, t, phone)
  {
    if step.DoSend? || step.DoResend? || step.DoVerify? {
      HandlerTimer(cfg, s, step, s', t, phone);
    } else if step.LoseCooldown? || step.LoseBlock? || step.RestartNode? || step.Tick? {
      LossTimer(cfg, s, step, s', t, phone);
    } else {
      if step.DoJob? {
        JobTimers(s, step.i, step.attempt);
      } else if step.DoWebhook? {
        WebhookTimers(s, step.wamid, step.statusStr, step.webhookFaults);
      } else {
        OtherTimers(cfg, s, step);
      }
    }
  }

  /* ---- Runs ---- */

  /** Step i starts the timer, and none of the steps from there to n loses it. */
  predicate HeldSince(cfg: Config, s: Sys, steps: seq<Step>, i: nat, n: nat, t: Timer, phone: string)
    requires i < n <= |steps|
  {
    Starts(cfg, Run(cfg, s, steps, i), steps[i], t, phone) &&
    forall j :: i < j < n ==> !Loses(cfg, steps[j], t, phone)
  }

  /** No timer of the number is set ahead of the clock. */
  predicate BehindClock(s: Sys, t: Timer, phone: string) {
    Slot(s, t, phone).Some? ==> Slot(s, t, phone).value <= SetTo(t, s.now)
  }

  /** The timer is set, to `from` or later. */
  predicate SetFrom(s: Sys, t: Timer, phone: string, from: int) {
    Slot(s, t, phone).Some? && from <= Slot(s, t, phone).value
  }

  lemma TimerStep(cfg: Config, s: Sys, step: Step, s': Sys, t: Timer, phone: string, from: int)
    requires s' == Next(cfg, s, step) && BehindClock(s, t, phone)
    ensures s.now <= s'.now && BehindClock(s', t, phone)
    ensures SetFrom(s, t, phone, from) && !Loses(cfg, step, t, phone) ==> SetFrom(s', t, phone, from)
  {
    NextTimer(cfg, s, step, s', t, phone);
  }

  lemma {:induction false} TimerBehindClock(cfg: Config, s: Sys, steps: seq<Step>, n: nat, t: Timer, phone: string)
    requires n <= |steps| && Slot(s, t, phone) == None
    ensures s.now <= Run(cfg, s, steps, n).now && BehindClock(Run(cfg, s, steps, n), t, phone)
  {
    if n == 0 {
    } else {
      TimerBehindClock(cfg, s, steps, n - 1, t, phone);
      TimerStep(cfg, Run(cfg, s, steps, n - 1), steps[n - 1], Run(cfg, s, steps, n), t, phone, 0);
    }
  }

  lemma HeldOneMore(cfg: Config, s: Sys, steps: seq<Step>, i: nat, n: nat, t: Timer, phone: string)
    requires i < n < |steps|
    ensures HeldSince(cfg, s, steps, i, n + 1, t, phone) <==>
            HeldSince(cfg, s, steps, i, n, t, phone) && !Loses(cfg, steps[n], t, phone)
  {
  }

  lemma SetBefore(cfg: Config, s: Sys, steps: seq<Step>, n: nat, t: Timer, phone: string)
    requires n < |steps| && Slot(Run(cfg, s, steps, n + 1), t, phone).Some?
    ensures if Starts(cfg, Run(cfg, s, steps, n), steps[n], t, phone)
            then Slot(Run(cfg, s, steps, n + 1), t, phone) == Some(SetTo(t, Run(cfg, s, steps, n).now))
            else !Loses(cfg, steps[n], t, phone) &&
                 Slot(Run(cfg, s, steps, n + 1), t, phone) == Slot(Run(cfg, s, steps, n), t, phone)
  {
    NextTimer(cfg, Run(cfg, s, steps, n), steps[n], Run(cfg, s, steps, n + 1), t, phone);
  }

  lemma HeldFromStart(cfg: Config, s: Sys, steps: seq<Step>, i: nat, t: Timer, phone: string)
    requires i < |steps| && Starts(cfg, Run(cfg, s, steps, i), steps[i], t, phone)
    ensures HeldSince(cfg, s, steps, i, i + 1, t, phone)
  {
  }

  /** A timer that is set has been held since the step whose time it shows. */
  lemma {:induction false} SetTimerWasStarted(cfg: Config, s: Sys, steps: seq<Step>, n: nat, t: Timer, phone: string)
      returns (i: nat)
    requires n <= |steps| && Slot(s, t, phone) == None && Slot(Run(cfg, s, steps, n), t, phone).Some?
    ensures i < n && HeldSince(cfg, s, steps, i, n, t, phone)
    ensures Slot(Run(cfg, s, steps, n), t, phone) == Some(SetTo(t, Run(cfg, s, steps, i).now))
  {
    i := n - 1;
    SetBefore(cfg, s, steps, i, t, phone);
    if Starts(cfg, Run(cfg, s, steps, i), steps[i], t, phone) {
      HeldFromStart(cfg, s, steps, i, t, phone);
    } else {
      i := SetTimerWasStarted(cfg, s, steps, n - 1, t, phone);
      HeldOneMore(cfg, s, steps, i, n - 1, t, phone);
    }
  }

  lemma StartSets(cfg: Config, s: Sys, steps: seq<Step>, i: nat, t: Timer, phone: string)
    requires i < |steps| && Starts(cfg, Run(cfg, s, steps, i), steps[i], t, phone)
    ensures SetFrom(Run(cfg, s, steps, i + 1), t, phone, SetTo(t, Run(cfg, s, steps, i).now))
  {
    NextTimer(cfg, Run(cfg, s, steps, i), steps[i], Run(cfg, s, steps, i + 1), t, phone);
  }

  lemma StaysSet(cfg: Config, s: Sys, steps: seq<Step>, n: nat, t: Timer, phone: string, from: int)
    requires n < |steps| && Slot(s, t, phone) == None
    requires SetFrom(Run(cfg, s, steps, n), t, phone, from) && !Loses(cfg, steps[n], t, phone)
    ensures SetFrom(Run(cfg, s, steps, n + 1), t, phone, from)
  {
    TimerBehindClock(cfg, s, steps, n, t, phone);
    TimerStep(cfg, Run(cfg, s, steps, n), steps[n], Run(cfg, s, steps, n + 1), t, phone, from);
  }

  /** A timer held since some step is set, and shows the time of that step or a later one. */
  lemma {:induction false} HeldTimerIsSet(cfg: Config, s: Sys, steps: seq<Step>, i: nat, n: nat, t: Timer, phone: string)
    requires i < n <= |steps| && Slot(s, t, phone) == None && HeldSince(cfg, s, steps, i, n, t, phone)
    ensures SetFrom(Run(cfg, s, steps, n), t, phone, SetTo(t, Run(cfg, s, steps, i).now))
  {
    if n == i + 1 {
      StartSets(cfg, s, steps, i, t, phone);
    } else {
      HeldOneMore(cfg, s, steps, i, n - 1, t, phone);
      HeldTimerIsSet(cfg, s, steps, i, n - 1, t, phone);
      StaysSet(cfg, s, steps, n - 1, t, phone, SetTo(t, Run(cfg, s, steps, i).now));
    }
  }

  /** The timer has been held since a step no more than `length` ago. */
  predicate HeldWithin(cfg: Config, s: Sys, steps: seq<Step>, n: nat, t: Timer, phone: string, length: int)
    requires n <= |steps|
  {
    exists i: nat :: i < n && HeldSince(cfg, s, steps, i, n, t, phone) &&
                     Run(cfg, s, steps, n).now < Run(cfg, s, steps, i).now + length
  }

  /** In every reachable state a number is in its cooldown if and only if a send or resend
      to it was paid for less than the cooldown ago, and that timer has not been lost since. */
  lemma InCooldownIff(cfg: Config, now: int, steps: seq<Step>, n: nat, phone: string)
    requires n <= |steps| && cfg.cooldown <= now
    ensures InCooldown(cfg, Run(cfg, Initial(now), steps, n), phone) <==>
            HeldWithin(cfg, Initial(now), steps, n, Cooldown, phone, cfg.cooldown)
  {
    var s := Initial(now);
    var later := Run(cfg, s, steps, n);
    TimerBehindClock(cfg, s, steps, n, Cooldown, phone);
    if InCooldown(cfg, later, phone) {
      var i := SetTimerWasStarted(cfg, s, steps, n, Cooldown, phone);
      assert HeldSince(cfg, s, steps, i, n, Cooldown, phone);
    }
    if HeldWithin(cfg, s, steps, n, Cooldown, phone, cfg.cooldown) {
      var i: nat :| i < n && HeldSince(cfg, s, steps, i, n, Cooldown, phone) &&
                    later.now < Run(cfg, s, steps, i).now + cfg.cooldown;
      HeldTimerIsSet(cfg, s, steps, i, n, Cooldown, phone);
    }
  }

  /** ... and it is blocked if and only if a code of it had its last wrong try less than an
      hour ago, and that timer has not been lost since. */
  lemma BlockedIff(cfg: Config, now: int, steps: seq<Step>, n: nat, phone: string)
    requires n <= |steps| && 0 <= now
    ensures var later := Run(cfg, Initial(now), steps, n);
            later.now < At(later.blocked, phone) <==> HeldWithin(cfg, Initial(now), steps, n, Block, phone, BLOCK_MS)
  {
    var s := Initial(now);
    var later := Run(cfg, s, steps, n);
    TimerBehindClock(cfg, s, steps, n, Block, phone);
    if later.now < At(later.blocked, phone) {
      var i := SetTimerWasStarted(cfg, s, steps, n, Block, phone);
      assert HeldSince(cfg, s, steps, i, n, Block, phone);
    }
    if HeldWithin(cfg, s, steps, n, Block, phone, BLOCK_MS) {
      var i: nat :| i < n && HeldSince(cfg, s, steps, i, n, Block, phone) &&
                    later.now < Run(cfg, s, steps, i).now + BLOCK_MS;
      HeldTimerIsSet(cfg, s, steps, i, n, Block, phone);
    }
  }

  /* ---- What the timers prevent ---- */

  lemma CoolingSend(cfg: Config, s: Sys, c: SendCall)
    ensures InCooldown(cfg, s, c.phone) ==> Send(cfg, s, c).0 == s && !Send(cfg, s, c).1.Accepted?
    ensures Send(cfg, s, c).1 == Rejected(CooldownActive) ==> InCooldown(cfg, s, c.phone)
  {
  }

  lemma CoolingResend(cfg: Config, s: Sys, c: ResendCall)
    requires c.request in s.rows
    ensures InCooldown(cfg, s, s.rows[c.request].phone) ==>
      Resend(cfg, s, c).1.Rejected? &&
      Resend(cfg, s, c).0 ==
        if Resend(cfg, s, c).1.reason == OtpExpired then WithStatus(s, c.request, OtpStatus.Expired) else s
    ensures Resend(cfg, s, c).1 == Rejected(CooldownActive) ==> InCooldown(cfg, s, s.rows[c.request].phone)
  {
  }

  /** From a paid send or resend until the cooldown has passed, unless that timer is lost,
      no send to the number has any effect, by whichever application. Only then is one
      refused for the cooldown. */
  lemma CooldownHolds(cfg: Config, now: int, steps: seq<Step>, n: nat, c: SendCall, s: Sys)
    requires n <= |steps| && cfg.cooldown <= now && s == Run(cfg, Initial(now), steps, n)
    ensures HeldWithin(cfg, Initial(now), steps, n, Cooldown, c.phone, cfg.cooldown) ==>
      Send(cfg, s, c).0 == s && !Send(cfg, s, c).1.Accepted?
    ensures Send(cfg, s, c).1 == Rejected(CooldownActive) ==>
      HeldWithin(cfg, Initial(now), steps, n, Cooldown, c.phone, cfg.cooldown)
  {
    InCooldownIff(cfg, now, steps, n, c.phone);
    CoolingSend(cfg, s, c);
  }

  /** Nor has a resend to the number, but to mark an overdue request expired. */
  lemma CooldownHoldsForResend(cfg: Config, now: int, steps: seq<Step>, n: nat, c: ResendCall, s: Sys)
    requires n <= |steps| && cfg.cooldown <= now && s == Run(cfg, Initial(now), steps, n) && c.request in s.rows
    ensures HeldWithin(cfg, Initial(now), steps, n, Cooldown, s.rows[c.request].phone, cfg.cooldown) ==>
      Resend(cfg, s, c).1.Rejected? &&
      (Resend(cfg, s, c).0 == s || Resend(cfg, s, c).0 == WithStatus(s, c.request, OtpStatus.Expired))
    ensures Resend(cfg, s, c).1 == Rejected(CooldownActive) ==>
      HeldWithin(cfg, Initial(now), steps, n, Cooldown, s.rows[c.request].phone, cfg.cooldown)
  {
    InCooldownIff(cfg, now, steps, n, s.rows[c.request].phone);
    CoolingResend(cfg, s, c);
  }

  predicate BlockReason(r: Reply) {
    r == Rejected(ValidationError) || r == Rejected(CustomerBlocked) || r == Rejected(PhoneBlocked)
  }

  lemma BlockedSend(cfg: Config, s: Sys, c: SendCall)
    ensures s.now < At(s.blocked, c.phone) ==> Send(cfg, s, c).0 == s && BlockReason(Send(cfg, s, c).1)
    ensures Send(cfg, s, c).1 == Rejected(PhoneBlocked) ==> s.now < At(s.blocked, c.phone)
  {
  }

  /** For an hour after a code's last wrong try, unless that timer is lost, every send to
      the number is refused without effect, even one that repeats a known key. Only then
      is one refused for the block. */
  lemma BlockHolds(cfg: Config, now: int, steps: seq<Step>, n: nat, c: SendCall, s: Sys)
    requires n <= |steps| && 0 <= now && s == Run(cfg, Initial(now), steps, n)
    ensures HeldWithin(cfg, Initial(now), steps, n, Block, c.phone, BLOCK_MS) ==>
      Send(cfg, s, c).0 == s && BlockReason(Send(cfg, s, c).1)
    ensures Send(cfg, s, c).1 == Rejected(PhoneBlocked) ==>
      HeldWithin(cfg, Initial(now), steps, n, Block, c.phone, BLOCK_MS)
  {
    BlockedIff(cfg, now, steps, n, c.phone);
    BlockedSend(cfg, s, c);
  }

  /** After a loss the check passes, however recent the send or the wrong try. */
  lemma LossLifts(cfg: Config, s: Sys, step: Step, s': Sys, phone: string)
    requires s' == Next(cfg, s, step)
    ensures Loses(cfg, step, Cooldown, phone) && cfg.cooldown <= s.now ==> !InCooldown(cfg, s', phone)
    ensures Loses(cfg, step, Block, phone) && 0 <= s.now ==> At(s'.blocked, phone) <= s'.now
  {
    NextTimer(cfg, s, step, s', Cooldown, phone);
    NextTimer(cfg, s, step, s', Block, phone);
  }
}
