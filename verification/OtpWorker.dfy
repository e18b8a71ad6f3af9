/** The delivery worker: one attempt at a job, with a failure possible at every call it
    makes, and the retried run of a job. */
module OtpWorker {
  import opened Prelude
  import opened References
  import opened Messages
  import opened Ledger

  datatype Job = Job(request: string, customer: Customer, cost: real)

  /** What the provider answers; Throws stands for an exception. */
  datatype Delivery = Success(wamid: string) | Temporary | Permanent | Throws

  /** The calls an attempt may make, in order. The last three are made by the handler that
      runs when the final attempt has failed. */
  datatype Call =
    | CreateMessage | CreateEvent | MarkSent | MarkFailed | RefundCall | AddDeadLetter
    | FinalMarkFailed | FinalRefund | FinalDeadLetter

  /** One attempt: the provider's answer, and the calls that throw. A throwing call maps to
      whether its effect landed all the same. */
  datatype Attempt = Attempt(delivery: Delivery, faults: map<Call, bool>)

  /** What an attempt reads and writes: the request's status, the wallets, the message
      rows and the dead-letter queue. */
  datatype World = World(status: OtpStatus, wallets: Db, messages: seq<Message>, deadLetters: seq<string>)

  /** The world, and whether an exception is on its way out. */
  datatype Flow = Flow(w: World, threw: bool)

  function RefundOf(job: Job): Op {
    RefundOp(job.customer, job.cost, "otp_request_failure", job.request)
  }

  function WithMessage(w: World, job: Job, d: Delivery): World {
    w.(messages := w.messages +
      [Message(job.request, if d.Success? then Some(d.wamid) else None, if d.Success? then MsgSent else MsgFailed, [])])
  }

  function WithEvent(w: World): World {
    if w.messages == [] then w
    else
      var m := w.messages[|w.messages| - 1];
      w.(messages := w.messages[|w.messages| - 1 := m.(events := m.events + [m.status])])
  }

  function Refunded(w: World, job: Job): World {
    w.(wallets := Apply(w.wallets, RefundOf(job)))
  }

  function DeadLettered(w: World, job: Job): World {
    w.(deadLetters := w.deadLetters + [job.request])
  }

  /** Make a call whose effect is `after`, unless an exception is already out. */
  function Do(f: Flow, faults: map<Call, bool>, call: Call, after: World): Flow {
    if f.threw then f
    else if call in faults then Flow(if faults[call] then after else f.w, true)
    else Flow(after, false)
  }

  /** The body of the try. */
  function Try(job: Job, w: World, a: Attempt): Flow {
    if a.delivery.Throws? then Flow(w, true) else
    var f1 := Do(Flow(w, false), a.faults, CreateMessage, WithMessage(w, job, a.delivery));
    var f2 := Do(f1, a.faults, CreateEvent, WithEvent(f1.w));
    match a.delivery
    case Success(_) => Do(f2, a.faults, MarkSent, f2.w.(status := Sent))
    case Permanent =>
      var f3 := Do(f2, a.faults, MarkFailed, f2.w.(status := Failed));
      var f4 := Do(f3, a.faults, RefundCall, Refunded(f3.w, job));
      Do(f4, a.faults, AddDeadLetter, DeadLettered(f4.w, job))
    case _ => Flow(f2.w, true)
  }

  /** A call of the handler: its failure is swallowed. */
  function Quietly(w: World, faults: map<Call, bool>, call: Call, after: World): World {
    Do(Flow(w, false), faults, call, after).w
  }

  function Handler(job: Job, w: World, a: Attempt): World {
    var w1 := Quietly(w, a.faults, FinalMarkFailed, w.(status := Failed));
    var w2 := Quietly(w1, a.faults, FinalRefund, Refunded(w1, job));
    Quietly(w2, a.faults, FinalDeadLetter, DeadLettered(w2, job))
  }

  /** One attempt: the try, and its handler when the attempt was the last. */
  function Process(job: Job, w: World, attemptsMade: nat, maxRetries: nat, a: Attempt): Flow {
    var f := Try(job, w, a);
    if f.threw && attemptsMade + 1 >= maxRetries then Flow(Handler(job, f.w, a), true) else f
  }

  /* ---- The status an attempt writes ---- */

  /** The call takes effect: it does not throw, or it throws after its effect. */
  predicate Lands(a: Attempt, call: Call) {
    call !in a.faults || a.faults[call]
  }

  /** The provider answered and the answer was recorded. */
  predicate Answered(a: Attempt) {
    !a.delivery.Throws? && CreateMessage !in a.faults && CreateEvent !in a.faults
  }

  predicate TryThrows(a: Attempt) {
    !Answered(a) || a.delivery.Temporary? ||
    (a.delivery.Success? && MarkSent in a.faults) ||
    (a.delivery.Permanent? && (MarkFailed in a.faults || RefundCall in a.faults || AddDeadLetter in a.faults))
  }

  function WrittenByTry(a: Attempt): Option<OtpStatus> {
    if Answered(a) && a.delivery.Success? && Lands(a, MarkSent) then Some(Sent)
    else if Answered(a) && a.delivery.Permanent? && Lands(a, MarkFailed) then Some(Failed)
    else None
  }

  /** The status that an attempt leaves in the row, if it writes one. */
  function StatusWritten(a: Attempt, attemptsMade: nat, maxRetries: nat): Option<OtpStatus> {
    if TryThrows(a) && attemptsMade + 1 >= maxRetries && Lands(a, FinalMarkFailed) then Some(Failed)
    else WrittenByTry(a)
  }

  lemma TryOutcome(job: Job, w: World, a: Attempt)
    ensures var f := Try(job, w, a);
            f.threw == TryThrows(a) &&
            f.w.status == if WrittenByTry(a).Some? then WrittenByTry(a).value else w.status
  {
  }

  /** An attempt overwrites whatever status it finds, a verified one included. */
  lemma StatusAfterAttempt(job: Job, w: World, attemptsMade: nat, maxRetries: nat, a: Attempt)
    ensures var written := StatusWritten(a, attemptsMade, maxRetries);
            Process(job, w, attemptsMade, maxRetries, a).w.status == if written.Some? then written.value else w.status
  {
    TryOutcome(job, w, a);
    HandlerStatus(job, Try(job, w, a).w, a);
  }

  lemma HandlerStatus(job: Job, w: World, a: Attempt)
    ensures Handler(job, w, a).status == if Lands(a, FinalMarkFailed) then Failed else w.status
  {
  }

  /* ---- The run of a job ---- */

  datatype Phase = Waiting | Completed(delivered: bool) | Exhausted

  /** attemptsMade counts the attempts that have failed, calls the calls to the provider. */
  datatype Run = Run(w: World, attemptsMade: nat, calls: nat, phase: Phase)

  /** The queue runs a waiting job; a throwing attempt is tried again until maxRetries. */
  function Continue(job: Job, r: Run, maxRetries: nat, a: Attempt): Run {
    if !r.phase.Waiting? then r else
    var f := Process(job, r.w, r.attemptsMade, maxRetries, a);
    if !f.threw then Run(f.w, r.attemptsMade, r.calls + 1, Completed(a.delivery.Success?))
    else Run(f.w, r.attemptsMade + 1, r.calls + 1, if r.attemptsMade + 1 >= maxRetries then Exhausted else Waiting)
  }

  /** The run after the first n attempts of the script. */
  function RunJob(job: Job, w: World, maxRetries: nat, script: seq<Attempt>, n: nat): Run
    requires n <= |script|
  {
    if n == 0 then Run(w, 0, 0, Waiting)
    else Continue(job, RunJob(job, w, maxRetries, script, n - 1), maxRetries, script[n - 1])
  }

  /** However the provider answers and whatever fails, the provider is called at most
      maxRetries times: once for each failed attempt, and once more when the job completes. */
  lemma {:induction false} ProviderCallsBounded(job: Job, w: World, maxRetries: nat, script: seq<Attempt>, n: nat)
    requires n <= |script| && 1 <= maxRetries
    ensures var r := RunJob(job, w, maxRetries, script, n);
            r.calls <= maxRetries &&
            match r.phase
            case Waiting => r.calls == r.attemptsMade < maxRetries
            case Completed(_) => r.calls == r.attemptsMade + 1
            case Exhausted => r.calls == r.attemptsMade == maxRetries
  {
    if n == 0 {
    } else {
      ProviderCallsBounded(job, w, maxRetries, script, n - 1);
    }
  }

  /** The wallets are as they were, or one refund of the job has been applied to them. */
  predicate OneRefundAtMost(db: Db, db': Db, job: Job) {
    db' == db || db' == Apply(db, RefundOf(job))
  }

  /** A second refund of the same job changes nothing. */
  lemma RefundTwice(db: Db, job: Job)
    ensures Apply(Apply(db, RefundOf(job)), RefundOf(job)) == Apply(db, RefundOf(job))
  {
    if Commits(OutcomeOf(db, RefundOf(job))) {
      RefundAtMostOnce(db, RefundOf(job), [], RefundOf(job));
    }
  }

  lemma TryRefundsOnce(job: Job, w: World, a: Attempt)
    ensures OneRefundAtMost(w.wallets, Try(job, w, a).w.wallets, job)
  {
    if Answered(a) && a.delivery.Permanent? && MarkFailed !in a.faults && Lands(a, RefundCall) {
      assert Try(job, w, a).w.wallets == Refunded(w, job).wallets;
    } else {
      assert Try(job, w, a).w.wallets == w.wallets;
    }
  }

  lemma HandlerRefundsOnce(job: Job, w: World, a: Attempt)
    ensures OneRefundAtMost(w.wallets, Handler(job, w, a).wallets, job)
  {
  }

  lemma ProcessRefundsOnce(job: Job, w: World, attemptsMade: nat, maxRetries: nat, a: Attempt)
    ensures OneRefundAtMost(w.wallets, Process(job, w, attemptsMade, maxRetries, a).w.wallets, job)
  {
    TryRefundsOnce(job, w, a);
    HandlerRefundsOnce(job, Try(job, w, a).w, a);
    RefundTwice(w.wallets, job);
  }

  /** However the provider answers and whatever fails, over a whole run at most one refund
      is applied. */
  lemma {:induction false} RunRefundsOnce(job: Job, w: World, maxRetries: nat, script: seq<Attempt>, n: nat)
    requires n <= |script|
    ensures OneRefundAtMost(w.wallets, RunJob(job, w, maxRetries, script, n).w.wallets, job)
  {
    if n == 0 {
    } else {
      var before := RunJob(job, w, maxRetries, script, n - 1);
      RunRefundsOnce(job, w, maxRetries, script, n - 1);
      ProcessRefundsOnce(job, before.w, before.attemptsMade, maxRetries, script[n - 1]);
      RefundTwice(w.wallets, job);
    }
  }

  /** What the run has come to, when no call failed. */
  predicate DecidedByOutcome(job: Job, w: World, r: Run) {
    match r.phase
    case Waiting => Untouched(w, r.w) && r.w.status == w.status
    case Completed(delivered) =>
      if delivered then Untouched(w, r.w) && r.w.status == Sent else FailedWithRefund(job, w, r.w)
    case Exhausted => FailedWithRefund(job, w, r.w)
  }

  lemma FaultFreeAttempt(job: Job, w: World, attemptsMade: nat, maxRetries: nat, a: Attempt)
    requires a.faults == map[]
    ensures var f := Process(job, w, attemptsMade, maxRetries, a);
            (a.delivery.Success? ==> !f.threw && Untouched(w, f.w) && f.w.status == Sent) &&
            (a.delivery.Permanent? ==> !f.threw && FailedWithRefund(job, w, f.w)) &&
            (a.delivery.Temporary? || a.delivery.Throws? ==>
              f.threw &&
              (if attemptsMade + 1 >= maxRetries then FailedWithRefund(job, w, f.w)
               else Untouched(w, f.w) && f.w.status == w.status))
  {
  }

  lemma {:induction false} FaultFreeRunFrom(job: Job, w: World, maxRetries: nat, script: seq<Attempt>, n: nat)
    requires n <= |script| && forall i :: 0 <= i < n ==> script[i].faults == map[]
    ensures DecidedByOutcome(job, w, RunJob(job, w, maxRetries, script, n))
  {
    if n == 0 {
    } else {
      var before := RunJob(job, w, maxRetries, script, n - 1);
      FaultFreeRunFrom(job, w, maxRetries, script, n - 1);
      if before.phase.Waiting? {
        FaultFreeAttempt(job, before.w, before.attemptsMade, maxRetries, script[n - 1]);
      }
    }
  }

  /** With no failing calls the outcome decides everything: success leaves the request sent
      and the wallets untouched; permanent failure and exhausted retries leave it failed and
      one refund applied, which with an unused key is exactly one row and the cost returned. */
  lemma FaultFreeRun(job: Job, w: World, maxRetries: nat, script: seq<Attempt>, n: nat)
    requires n <= |script| && forall i :: 0 <= i < n ==> script[i].faults == map[]
    requires DbOk(w.wallets) && 0.0 <= job.cost
    ensures var r := RunJob(job, w, maxRetries, script, n);
            var a, a' := AccountOf(w.wallets, job.customer), AccountOf(r.w.wallets, job.customer);
            var unused := !HasRefund(a.rows, "otp_request_failure", StoredReference(job.request));
            DecidedByOutcome(job, w, r) &&
            (r.phase == Exhausted || r.phase == Completed(false) ==>
              a'.rows == if unused then a.rows + [NewRow(a.balance, RefundOf(job))] else a.rows)
  {
    FaultFreeRunFrom(job, w, maxRetries, script, n);
    RefundPostsIff(w.wallets, RefundOf(job));
  }

  predicate Untouched(w: World, w': World) {
    w'.wallets == w.wallets && w'.deadLetters == w.deadLetters
  }

  predicate FailedWithRefund(job: Job, w: World, w': World) {
    w'.status == Failed && w'.wallets == Apply(w.wallets, RefundOf(job)) &&
    w'.deadLetters == w.deadLetters + [job.request]
  }

  /* ---- Refunds of a run, exactly ---- */

  /** The attempt refunds a permanent failure and then throws, so that it is tried again. */
  predicate RefundsThenThrows(a: Attempt) {
    Answered(a) && a.delivery.Permanent? && MarkFailed !in a.faults && Lands(a, RefundCall) &&
    (RefundCall in a.faults || AddDeadLetter in a.faults)
  }

  /** One of the first n attempts of the script does. */
  predicate RefundedEarlier(script: seq<Attempt>, n: nat) {
    exists i :: 0 <= i < n <= |script| && RefundsThenThrows(script[i])
  }

  /** The run has refunded: a retried attempt did, or the job ended in permanent failure, or
      the handler of the last attempt did. */
  predicate RunRefunds(script: seq<Attempt>, r: Run) {
    RefundedEarlier(script, r.attemptsMade) ||
    r.phase == Completed(false) ||
    (r.phase.Exhausted? && 1 <= r.attemptsMade <= |script| && Lands(script[r.attemptsMade - 1], FinalRefund))
  }

  function RefundedIf(db: Db, job: Job, refunded: bool): Db {
    if refunded then Apply(db, RefundOf(job)) else db
  }

  lemma TryWallets(job: Job, w: World, a: Attempt)
    ensures var f := Try(job, w, a);
            f.threw == TryThrows(a) &&
            f.w.wallets == RefundedIf(w.wallets, job, RefundsThenThrows(a) || (!TryThrows(a) && a.delivery.Permanent?))
  {
  }

  lemma HandlerWallets(job: Job, w: World, a: Attempt)
    ensures Handler(job, w, a).wallets == RefundedIf(w.wallets, job, Lands(a, FinalRefund))
  {
  }

  lemma RefundedTwice(db: Db, job: Job, first: bool, second: bool)
    ensures RefundedIf(RefundedIf(db, job, first), job, second) == RefundedIf(db, job, first || second)
  {
    RefundTwice(db, job);
  }

  predicate AttemptRefunds(a: Attempt, last: bool) {
    RefundsThenThrows(a) || (!TryThrows(a) && a.delivery.Permanent?) || (TryThrows(a) && last && Lands(a, FinalRefund))
  }

  lemma ProcessWallets(job: Job, w: World, attemptsMade: nat, maxRetries: nat, a: Attempt)
    ensures var f := Process(job, w, attemptsMade, maxRetries, a);
            f.threw == TryThrows(a) &&
            f.w.wallets == RefundedIf(w.wallets, job, AttemptRefunds(a, attemptsMade + 1 >= maxRetries))
  {
    TryWallets(job, w, a);
    var f := Try(job, w, a);
    if TryThrows(a) && attemptsMade + 1 >= maxRetries {
      HandlerWallets(job, f.w, a);
      RefundedTwice(w.wallets, job, RefundsThenThrows(a), Lands(a, FinalRefund));
    }
  }

  /** A waiting run has used up its script so far. */
  lemma {:induction false} WaitingCounts(job: Job, w: World, maxRetries: nat, script: seq<Attempt>, n: nat)
    requires n <= |script|
    ensures var r := RunJob(job, w, maxRetries, script, n);
            r.attemptsMade <= n && (r.phase.Waiting? ==> r.attemptsMade == n)
  {
    if n == 0 {
    } else {
      WaitingCounts(job, w, maxRetries, script, n - 1);
    }
  }

  lemma RefundedEarlierLast(script: seq<Attempt>, n: nat)
    requires n < |script|
    ensures RefundedEarlier(script, n + 1) <==> RefundedEarlier(script, n) || RefundsThenThrows(script[n])
  {
    if RefundsThenThrows(script[n]) {
      assert 0 <= n < n + 1 <= |script| && RefundsThenThrows(script[n]);
    }
    if RefundedEarlier(script, n) {
      var i :| 0 <= i < n <= |script| && RefundsThenThrows(script[i]);
      assert 0 <= i < n + 1 <= |script| && RefundsThenThrows(script[i]);
    }
  }

  lemma ContinueRefunds(job: Job, w: World, maxRetries: nat, script: seq<Attempt>, n: nat, r: Run, r': Run)
    requires n < |script| && r.phase.Waiting? && r.attemptsMade == n && r' == Continue(job, r, maxRetries, script[n])
    requires r.w.wallets == RefundedIf(w.wallets, job, RefundedEarlier(script, n))
    ensures r'.w.wallets == RefundedIf(w.wallets, job, RunRefunds(script, r'))
  {
    var a := script[n];
    ProcessWallets(job, r.w, n, maxRetries, a);
    RefundedTwice(w.wallets, job, RefundedEarlier(script, n), AttemptRefunds(a, n + 1 >= maxRetries));
    RefundedEarlierLast(script, n);
  }

  /** For every script of answers and faults, a run's wallets are those it found, with its
      one refund applied if and only if `RunRefunds`. */
  lemma {:induction false} RunWallets(job: Job, w: World, maxRetries: nat, script: seq<Attempt>, n: nat)
    requires n <= |script|
    ensures var r := RunJob(job, w, maxRetries, script, n);
            r.w.wallets == RefundedIf(w.wallets, job, RunRefunds(script, r))
  {
    if n == 0 {
    } else {
      var before := RunJob(job, w, maxRetries, script, n - 1);
      RunWallets(job, w, maxRetries, script, n - 1);
      WaitingCounts(job, w, maxRetries, script, n - 1);
      if before.phase.Waiting? {
        ContinueRefunds(job, w, maxRetries, script, n - 1, before, RunJob(job, w, maxRetries, script, n));
      }
    }
  }

  lemma {:induction false} DeliveredIsSent(job: Job, w: World, maxRetries: nat, script: seq<Attempt>, n: nat)
    requires n <= |script|
    ensures var r := RunJob(job, w, maxRetries, script, n); r.phase == Completed(true) ==> r.w.status == Sent
  {
    if n == 0 {
    } else {
      var before := RunJob(job, w, maxRetries, script, n - 1);
      DeliveredIsSent(job, w, maxRetries, script, n - 1);
      if before.phase.Waiting? {
        StatusAfterAttempt(job, before.w, before.attemptsMade, maxRetries, script[n - 1]);
        TryOutcome(job, before.w, script[n - 1]);
      }
    }
  }

  /** A delivered job has been refunded as well if and only if an earlier attempt refunded
      a permanent failure and then threw. Its request is sent in either case. */
  lemma DeliveredAndRefundedIff(job: Job, w: World, maxRetries: nat, script: seq<Attempt>, n: nat)
    requires n <= |script| && RunJob(job, w, maxRetries, script, n).phase == Completed(true)
    requires OutcomeOf(w.wallets, RefundOf(job)).Posted?
    ensures var r := RunJob(job, w, maxRetries, script, n);
            r.w.status == Sent &&
            (r.w.wallets == Apply(w.wallets, RefundOf(job)) <==> RefundedEarlier(script, r.attemptsMade)) &&
            (r.w.wallets == w.wallets <==> !RefundedEarlier(script, r.attemptsMade))
  {
    RunWallets(job, w, maxRetries, script, n);
    DeliveredIsSent(job, w, maxRetries, script, n);
    PostedRefundShows(w.wallets, job);
  }

  lemma PostedRefundShows(db: Db, job: Job)
    requires OutcomeOf(db, RefundOf(job)).Posted?
    ensures Apply(db, RefundOf(job)) != db
  {
    assert |Apply(db, RefundOf(job))[job.customer].rows| == |AccountOf(db, job.customer).rows| + 1;
  }

  /** It does occur: when the dead-letter queue is down after a permanent failure has been
      refunded, the job is retried, and may be delivered after all. */
  lemma RefundedYetSent(job: Job, w: World, wamid: string)
    requires OutcomeOf(w.wallets, RefundOf(job)).Posted?
    ensures var script := [Attempt(Permanent, map[AddDeadLetter := false]), Attempt(Success(wamid), map[])];
            var r := RunJob(job, w, 3, script, 2);
            r.phase == Completed(true) && r.w.status == Sent &&
            r.w.wallets == Apply(w.wallets, RefundOf(job)) != w.wallets
  {
    var script := [Attempt(Permanent, map[AddDeadLetter := false]), Attempt(Success(wamid), map[])];
    var one := RunJob(job, w, 3, script, 1);
    assert one == Continue(job, RunJob(job, w, 3, script, 0), 3, script[0]);
    assert one.phase == Waiting && one.attemptsMade == 1;
    assert RefundsThenThrows(script[0]);
    DeliveredAndRefundedIff(job, w, 3, script, 2);
    PostedRefundShows(w.wallets, job);
  }

  /** Without failing calls each delivered attempt adds one message row with its one event,
      whose type is the message's status. */
  lemma AttemptRecordsMessage(job: Job, w: World, attemptsMade: nat, maxRetries: nat, a: Attempt)
    requires a.faults == map[] && !a.delivery.Throws?
    ensures var w' := Process(job, w, attemptsMade, maxRetries, a).w;
            |w'.messages| == |w.messages| + 1 && w'.messages[..|w.messages|] == w.messages &&
            var m := w'.messages[|w.messages|];
            m.request == job.request && m.events == [m.status] &&
            (m.status == MsgSent <==> m.wamid.Some?) && (m.wamid.Some? <==> a.delivery.Success?)
  {
  }

  /* ---- The worker ---- */

  class OtpWorker {
    var otpStatus: OtpStatus
    var wallets: Db
    var messages: seq<Message>
    var deadLetterQueue: seq<string>

    function View(): World
      reads this
    {
      World(otpStatus, wallets, messages, deadLetterQueue)
    }

    constructor (w: World)
      ensures View() == w
    {
      otpStatus, wallets, messages, deadLetterQueue := w.status, w.wallets, w.messages, w.deadLetters;
    }

    /** The body of the try; the result says whether it threw. */
    method TryDelivery(job: Job, a: Attempt) returns (threw: bool)
      modifies this
      ensures Flow(View(), threw) == Try(job, old(View()), a)
    {
      if a.delivery.Throws? {
        return true;
      }
      var success := a.delivery.Success?;
      if Lands(a, CreateMessage) {
        messages := messages + [Message(job.request, if success then Some(a.delivery.wamid) else None,
                                        if success then MsgSent else MsgFailed, [])];
      }
      if CreateMessage in a.faults {
        return true;
      }
      if Lands(a, CreateEvent) {
        var m := messages[|messages| - 1];
        messages := messages[|messages| - 1 := m.(events := m.events + [if success then MsgSent else MsgFailed])];
      }
      if CreateEvent in a.faults {
        return true;
      }
      if success {
        if Lands(a, MarkSent) {
          otpStatus := Sent;
        }
        return MarkSent in a.faults;
      }
      if a.delivery.Temporary? {
        return true;
      }
      if Lands(a, MarkFailed) {
        otpStatus := Failed;
      }
      if MarkFailed in a.faults {
        return true;
      }
      if Lands(a, RefundCall) {
        wallets := Apply(wallets, RefundOf(job));
      }
      if RefundCall in a.faults {
        return true;
      }
      if Lands(a, AddDeadLetter) {
        deadLetterQueue := deadLetterQueue + [job.request];
      }
      return AddDeadLetter in a.faults;
    }

    method ProcessSendOtpJob(job: Job, attemptsMade: nat, maxRetries: nat, a: Attempt) returns (threw: bool)
      modifies this
      ensures Flow(View(), threw) == Process(job, old(View()), attemptsMade, maxRetries, a)
    {
      threw := TryDelivery(job, a);
      if threw {
        var currentAttempt := attemptsMade + 1;
        if currentAttempt >= maxRetries {
          if Lands(a, FinalMarkFailed) {
            otpStatus := Failed;
          }
          if Lands(a, FinalRefund) {
            wallets := Apply(wallets, RefundOf(job));
          }
          if Lands(a, FinalDeadLetter) {
            deadLetterQueue := deadLetterQueue + [job.request];
          }
        }
      }
    }
  }
}
