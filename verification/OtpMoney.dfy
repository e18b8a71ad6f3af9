/** No run of the OTP system mints credits: every refund is matched by a debit. */
module OtpMoney {
  import opened Prelude
  import opened Money
  import opened References
  import opened Ledger
  import opened OtpSystem
  import Worker = OtpWorker
  import Hook = WebhookWorker
  import Life = OtpLifecycle

  /* ---- Counting and adding up rows ---- */

  function CountOf(rows: seq<Row>, kind: Kind): nat {
    if rows == [] then 0
    else CountOf(rows[..|rows| - 1], kind) + (if rows[|rows| - 1].kind == kind then 1 else 0)
  }

  function SumOf(rows: seq<Row>, kind: Kind): real {
    if rows == [] then 0.0
    else SumOf(rows[..|rows| - 1], kind) + (if rows[|rows| - 1].kind == kind then rows[|rows| - 1].amount else 0.0)
  }

  lemma CountLast(rows: seq<Row>, row: Row, kind: Kind)
    ensures CountOf(rows + [row], kind) == CountOf(rows, kind) + if row.kind == kind then 1 else 0
  {
    assert (rows + [row])[..|rows|] == rows;
  }

  /** n times the cost. */
  function Times(cost: real, n: nat): real {
    if n == 0 then 0.0 else Times(cost, n - 1) + cost
  }

  lemma {:induction false} TimesMonotone(cost: real, m: nat, n: nat)
    requires 0.0 <= cost && m <= n
    ensures Times(cost, m) <= Times(cost, n)
  {
    if m == n {
    } else {
      TimesMonotone(cost, m, n - 1);
    }
  }

  lemma {:induction false} SumOfEqualAmounts(rows: seq<Row>, kind: Kind, cost: real)
    requires forall i :: 0 <= i < |rows| && rows[i].kind == kind ==> rows[i].amount == cost
    ensures SumOf(rows, kind) == Times(cost, CountOf(rows, kind))
  {
    if rows == [] {
    } else {
      SumOfEqualAmounts(rows[..|rows| - 1], kind, cost);
    }
  }

  lemma {:induction false} SignedSumByKind(rows: seq<Row>)
    ensures SignedSum(rows) == SumOf(rows, Credit) + SumOf(rows, Refund) - SumOf(rows, Debit)
  {
    if rows == [] {
    } else {
      SignedSumByKind(rows[..|rows| - 1]);
    }
  }

  /* ---- Refund keys ---- */

  function RefundKeys(rows: seq<Row>): set<Option<string>> {
    set i | 0 <= i < |rows| && rows[i].kind == Refund :: rows[i].refId
  }

  const FAILURE: string := "otp_request_failure"

  lemma RefundKeysLast(rows: seq<Row>)
    requires rows != []
    ensures var init, last := rows[..|rows| - 1], rows[|rows| - 1];
            RefundKeys(rows) == RefundKeys(init) + (if last.kind == Refund then {last.refId} else {})
  {
    var init, last := rows[..|rows| - 1], rows[|rows| - 1];
    forall k | k in RefundKeys(init) ensures k in RefundKeys(rows) {
      var i :| 0 <= i < |init| && init[i].kind == Refund && init[i].refId == k;
      assert rows[i].kind == Refund && rows[i].refId == k;
    }
    forall k | k in RefundKeys(rows) ensures k in RefundKeys(init) || (last.kind == Refund && k == last.refId) {
      var i :| 0 <= i < |rows| && rows[i].kind == Refund && rows[i].refId == k;
      assert i < |init| ==> init[i].kind == Refund && init[i].refId == k;
    }
  }

  predicate RefundsAreFailures(rows: seq<Row>) {
    forall i :: 0 <= i < |rows| && rows[i].kind == Refund ==> rows[i].refType == FAILURE
  }

  lemma LastKeyIsNew(rows: seq<Row>)
    requires rows != [] && RefundsDistinct(rows) && RefundsAreFailures(rows) && rows[|rows| - 1].kind == Refund
    ensures rows[|rows| - 1].refId !in RefundKeys(rows[..|rows| - 1])
  {
    var n := |rows| - 1;
    forall i | 0 <= i < n && rows[i].kind == Refund ensures rows[i].refId != rows[n].refId {
      assert !IsRefund(rows[n], rows[i].refType, rows[i].refId);
    }
  }

  /** Refunds of one type have distinct keys, so there are as many keys as refunds. */
  lemma {:induction false} KeysCountRefunds(rows: seq<Row>)
    requires RefundsDistinct(rows) && RefundsAreFailures(rows)
    ensures |RefundKeys(rows)| == CountOf(rows, Refund)
  {
    if rows == [] {
    } else {
      KeysCountRefunds(rows[..|rows| - 1]);
      RefundKeysLast(rows);
      if rows[|rows| - 1].kind == Refund {
        LastKeyIsNew(rows);
      }
    }
  }

  lemma {:induction false} KeysOfRequests(requests: set<Request>, keys: set<Option<string>>)
    requires forall k :: k in keys ==> IsReferenceOf(requests, k)
    ensures |keys| <= |requests|
  {
    if keys == {} {
    } else {
      var k :| k in keys;
      var r :| r in requests && StoredReference(r) == k;
      var keys', requests' := keys - {k}, requests - {r};
      forall k' | k' in keys' ensures IsReferenceOf(requests', k') {
        var r' :| r' in requests && StoredReference(r') == k';
        assert r' in requests';
      }
      KeysOfRequests(requests', keys');
    }
  }

  /* ---- The invariant ---- */

  /** The requests of a customer with a posted debit. */
  function ChargedOf(cfg: Config, s: Sys, c: Customer): set<Request> {
    set r | r in s.charged && r in s.rows && cfg.owner(s.rows[r].app) == c
  }

  predicate IsReferenceOf(requests: set<Request>, refId: Option<string>) {
    exists r :: r in requests && StoredReference(r) == refId
  }

  /** Debits and refunds are of the fixed cost, and a refund is for a charged request. */
  predicate RowPaid(cfg: Config, row: Row, charged: set<Request>) {
    (row.kind == Debit ==> row.amount == cfg.cost) &&
    (row.kind == Refund ==> (row.amount == cfg.cost && row.refType == FAILURE && IsReferenceOf(charged, row.refId)))
  }

  /** At least one debit for each charged request. */
  predicate LedgerPaid(cfg: Config, rows: seq<Row>, charged: set<Request>) {
    (forall i :: 0 <= i < |rows| ==> RowPaid(cfg, rows[i], charged)) &&
    |charged| <= CountOf(rows, Debit)
  }

  predicate JobPaid(cfg: Config, s: Sys, q: QueuedJob) {
    q.job.request in s.charged && q.job.request in s.rows &&
    q.job == JobOf(cfg, s.rows[q.job.request].app, q.job.request)
  }

  predicate JobsPaid(cfg: Config, s: Sys) {
    s.charged <= s.rows.Keys && forall i :: 0 <= i < |s.jobs| ==> JobPaid(cfg, s, s.jobs[i])
  }

  predicate AccountPaid(cfg: Config, s: Sys, c: Customer) {
    LedgerPaid(cfg, AccountOf(s.wallets, c).rows, ChargedOf(cfg, s, c))
  }

  ghost predicate MoneyInv(cfg: Config, s: Sys) {
    JobsPaid(cfg, s) && DbOk(s.wallets) && forall c: Customer :: AccountPaid(cfg, s, c)
  }

  /* ---- One wallet transaction ---- */

  lemma AppendPaid(cfg: Config, rows: seq<Row>, row: Row, charged: set<Request>, charged': set<Request>)
    requires LedgerPaid(cfg, rows, charged) && RowPaid(cfg, row, charged') && charged <= charged'
    requires |charged'| <= |charged| + if row.kind == Debit then 1 else 0
    ensures LedgerPaid(cfg, rows + [row], charged')
  {
    CountLast(rows, row, Debit);
    forall i | 0 <= i < |rows + [row]| ensures RowPaid(cfg, (rows + [row])[i], charged') {
      assert i < |rows| ==> RowPaid(cfg, rows[i], charged);
    }
  }

  lemma SettlePaid(cfg: Config, a: Account, op: Op, charged: set<Request>)
    requires LedgerPaid(cfg, a.rows, charged)
    requires Decide(a, op).Posted? ==> RowPaid(cfg, NewRow(a.balance, op), charged)
    ensures LedgerPaid(cfg, Settle(a, op).rows, charged)
  {
    if Decide(a, op).Posted? {
      AppendPaid(cfg, a.rows, NewRow(a.balance, op), charged, charged);
    }
  }

  /** s' is s after a wallet transaction, and steps that touch neither wallets nor charges. */
  predicate WalletStep(cfg: Config, s: Sys, s': Sys, op: Op) {
    s'.wallets == Apply(s.wallets, op) && SameCharges(s, s')
  }

  predicate SameCharges(s: Sys, s': Sys) {
    s'.charged == s.charged && SameRows(s, s')
  }

  /** Rows may be added and changed, but keep their application. */
  predicate SameRows(s: Sys, s': Sys) {
    s.charged <= s.rows.Keys <= s'.rows.Keys && forall r :: r in s.rows ==> s'.rows[r].app == s.rows[r].app
  }

  lemma SameChargesOf(cfg: Config, s: Sys, s': Sys, c: Customer)
    requires SameCharges(s, s')
    ensures ChargedOf(cfg, s', c) == ChargedOf(cfg, s, c)
  {
  }

  lemma WalletStepKeepsAccounts(cfg: Config, s: Sys, s': Sys, op: Op)
    requires MoneyInv(cfg, s) && WalletStep(cfg, s, s', op)
    requires var a := AccountOf(s.wallets, op.customer);
             Decide(a, op).Posted? ==> RowPaid(cfg, NewRow(a.balance, op), ChargedOf(cfg, s, op.customer))
    ensures DbOk(s'.wallets) && forall c: Customer :: AccountPaid(cfg, s', c)
  {
    ApplyKeepsOk(s.wallets, op);
    forall c: Customer ensures AccountPaid(cfg, s', c) {
      assert AccountPaid(cfg, s, c);
      SameChargesOf(cfg, s, s', c);
      ApplyAccount(s.wallets, op, c);
      if c == op.customer {
        SettlePaid(cfg, AccountOf(s.wallets, c), op, ChargedOf(cfg, s, c));
      }
    }
  }

  lemma JobsStayPaid(cfg: Config, s: Sys, s': Sys)
    requires JobsPaid(cfg, s) && SameCharges(s, s')
    requires forall i :: 0 <= i < |s'.jobs| ==> JobPaid(cfg, s', s'.jobs[i]) || (i < |s.jobs| && s'.jobs[i].job == s.jobs[i].job)
    ensures JobsPaid(cfg, s')
  {
    forall i | 0 <= i < |s'.jobs| ensures JobPaid(cfg, s', s'.jobs[i]) {
      if i < |s.jobs| && s'.jobs[i].job == s.jobs[i].job {
        assert JobPaid(cfg, s, s.jobs[i]);
      }
    }
  }

  /** A step that moves no money and adds no job. */
  predicate Quiet(s: Sys, s': Sys) {
    s'.charged == s.charged && s'.wallets == s.wallets && |s'.jobs| == |s.jobs| &&
    (forall i :: 0 <= i < |s.jobs| ==> s'.jobs[i].job == s.jobs[i].job) &&
    s.rows.Keys <= s'.rows.Keys && forall r :: r in s.rows ==> s'.rows[r].app == s.rows[r].app
  }

  lemma QuietKeepsMoney(cfg: Config, s: Sys, s': Sys)
    requires MoneyInv(cfg, s) && Quiet(s, s')
    ensures MoneyInv(cfg, s')
  {
    JobsStayPaid(cfg, s, s');
    forall c: Customer ensures AccountPaid(cfg, s', c) {
      assert AccountPaid(cfg, s, c);
      SameChargesOf(cfg, s, s', c);
    }
  }

  lemma RefundKeepsMoney(cfg: Config, s: Sys, s': Sys, job: Worker.Job)
    requires MoneyInv(cfg, s) && WalletStep(cfg, s, s', Worker.RefundOf(job))
    requires job.request in s.charged && job.request in s.rows && job == JobOf(cfg, s.rows[job.request].app, job.request)
    requires |s'.jobs| == |s.jobs| && forall i :: 0 <= i < |s.jobs| ==> s'.jobs[i].job == s.jobs[i].job
    ensures MoneyInv(cfg, s')
  {
    JobsStayPaid(cfg, s, s');
    assert job.request in ChargedOf(cfg, s, job.customer);
    WalletStepKeepsAccounts(cfg, s, s', Worker.RefundOf(job));
  }

  lemma AddJobKeepsMoney(cfg: Config, s: Sys, request: Request)
    requires MoneyInv(cfg, s) && request in s.charged && request in s.rows
    ensures MoneyInv(cfg, s.(jobs := Enqueue(s.jobs, JobOf(cfg, s.rows[request].app, request))))
  {
    var s' := s.(jobs := Enqueue(s.jobs, JobOf(cfg, s.rows[request].app, request)));
    JobsStayPaid(cfg, s, s');
    forall c: Customer ensures AccountPaid(cfg, s', c) {
      assert AccountPaid(cfg, s, c);
      SameChargesOf(cfg, s, s', c);
    }
  }

  /* ---- The steps ---- */

  /** A posted debit charges its request, for the first time or once more. */
  lemma ChargeKeepsMoney(cfg: Config, s: Sys, s': Sys, request: Request, op: Op)
    requires MoneyInv(cfg, s) && request in s.rows && SameRows(s, s') && s'.jobs == s.jobs
    requires op.DeductOp? && op.amount == cfg.cost && op.customer == cfg.owner(s.rows[request].app)
    requires OutcomeOf(s.wallets, op).Posted?
    requires s'.wallets == Apply(s.wallets, op) && s'.charged == s.charged + {request}
    ensures MoneyInv(cfg, s')
  {
    ApplyKeepsOk(s.wallets, op);
    forall i | 0 <= i < |s'.jobs| ensures JobPaid(cfg, s', s'.jobs[i]) {
      assert JobPaid(cfg, s, s.jobs[i]);
    }
    forall d: Customer ensures AccountPaid(cfg, s', d) {
      assert AccountPaid(cfg, s, d);
      ApplyAccount(s.wallets, op, d);
      var before := ChargedOf(cfg, s, d);
      if d == op.customer {
        assert ChargedOf(cfg, s', d) == before + {request};
        var a := AccountOf(s.wallets, d);
        AppendPaid(cfg, a.rows, NewRow(a.balance, op), before, before + {request});
      } else {
        assert ChargedOf(cfg, s', d) == before;
      }
    }
  }

  lemma SendDispatchKeepsMoney(cfg: Config, s: Sys, c: SendCall)
    requires MoneyInv(cfg, s) && c.request in s.charged && c.request in s.rows && s.rows[c.request].app == c.app
    ensures MoneyInv(cfg, SendDispatch(cfg, s, c))
  {
    if c.queueUp {
      AddJobKeepsMoney(cfg, s, c.request);
    } else if c.delivery.Success? || c.delivery.Throws? {
      QuietKeepsMoney(cfg, s, SendDispatch(cfg, s, c));
    } else {
      RefundKeepsMoney(cfg, s, SendDispatch(cfg, s, c), JobOf(cfg, c.app, c.request));
    }
  }

  lemma FinishSendKeepsMoney(cfg: Config, s: Sys, c: SendCall)
    requires MoneyInv(cfg, s) && c.request in s.charged && c.request in s.rows && s.rows[c.request].app == c.app
    ensures MoneyInv(cfg, FinishSend(cfg, s, c).0)
  {
    SendDispatchKeepsMoney(cfg, s, c);
    var s' := SendDispatch(cfg, s, c);
    QuietKeepsMoney(cfg, s', FinishSend(cfg, s, c).0);
  }

  lemma SendKeepsMoney(cfg: Config, s: Sys, c: SendCall)
    requires MoneyInv(cfg, s)
    ensures MoneyInv(cfg, Send(cfg, s, c).0)
  {
    if SendGate(cfg, s, c) == None {
      var s1 := WithNewRow(cfg, s, c);
      QuietKeepsMoney(cfg, s, s1);
      if OutcomeOf(s1.wallets, SendDebit(cfg, c)).Posted? {
        var s2 := WithCharge(cfg, s1, c);
        ChargeKeepsMoney(cfg, s1, s2, c.request, SendDebit(cfg, c));
        FinishSendKeepsMoney(cfg, s2, c);
      }
    }
  }

  lemma ResendKeepsMoney(cfg: Config, s: Sys, c: ResendCall)
    requires MoneyInv(cfg, s)
    ensures MoneyInv(cfg, Resend(cfg, s, c).0)
  {
    var gate := ResendGate(cfg, s, c);
    if gate == Some(OtpExpired) {
      QuietKeepsMoney(cfg, s, Resend(cfg, s, c).0);
    } else if gate == None && OutcomeOf(s.wallets, ResendDebit(cfg, c)).Posted? {
      var s1 := WithNewCode(cfg, s, c);
      ChargeKeepsMoney(cfg, s, s1, c.request, ResendDebit(cfg, c));
      if c.queueUp {
        AddJobKeepsMoney(cfg, s1, c.request);
      } else {
        QuietKeepsMoney(cfg, s1, Resend(cfg, s, c).0);
      }
    }
  }

  lemma JobKeepsMoney(cfg: Config, s: Sys, i: nat, a: Worker.Attempt)
    requires MoneyInv(cfg, s)
    ensures MoneyInv(cfg, RunJob(s, i, a))
  {
    if i < |s.jobs| && s.jobs[i].waiting && s.jobs[i].job.request in s.rows {
      var q := s.jobs[i];
      var s' := RunJob(s, i, a);
      assert JobPaid(cfg, s, q);
      Worker.ProcessRefundsOnce(q.job, WorldOf(s, s.rows[q.job.request].status), q.attemptsMade, MAX_RETRIES, a);
      assert Worker.OneRefundAtMost(s.wallets, s'.wallets, q.job);
      if s'.wallets == s.wallets {
        QuietKeepsMoney(cfg, s, s');
      } else {
        RefundKeepsMoney(cfg, s, s', q.job);
      }
    }
  }

  lemma TopUpKeepsMoney(cfg: Config, s: Sys, op: Op)
    requires MoneyInv(cfg, s) && op.TopUpOp?
    ensures MoneyInv(cfg, s.(wallets := Apply(s.wallets, op)))
  {
    var s' := s.(wallets := Apply(s.wallets, op));
    JobsStayPaid(cfg, s, s');
    WalletStepKeepsAccounts(cfg, s, s', op);
  }

  lemma VerifyIsQuiet(cfg: Config, s: Sys, app: App, phone: string, code: string)
    ensures Quiet(s, Verify(cfg, s, app, phone, code))
  {
  }

  lemma WebhookIsQuiet(s: Sys, wamid: string, statusStr: string, faults: Hook.Faults)
    ensures Quiet(s, RunWebhook(s, wamid, statusStr, faults))
  {
  }

  lemma StatusIsQuiet(s: Sys, app: App, request: Request)
    ensures Quiet(s, QueryStatus(s, app, request))
  {
  }

  lemma OtherStepsAreQuiet(cfg: Config, s: Sys, step: Step)
    requires step.DoStatus? || step.Redeliver? || step.DoWebhook? || step.Tick? || step.LoseCode? || step.LoseReply? ||
             step.RestartNode? || step.LoseCooldown? || step.LoseBlock?
    ensures Quiet(s, Next(cfg, s, step))
  {
    if step.DoWebhook? {
      WebhookIsQuiet(s, step.wamid, step.statusStr, step.webhookFaults);
    } else if step.DoStatus? {
      StatusIsQuiet(s, step.app, step.request);
    }
  }

  lemma NextKeepsMoney(cfg: Config, s: Sys, step: Step)
    requires MoneyInv(cfg, s)
    ensures MoneyInv(cfg, Next(cfg, s, step))
  {
    match step
    case DoSend(c) => SendKeepsMoney(cfg, s, c);
    case DoResend(c) => ResendKeepsMoney(cfg, s, c);
    case DoVerify(app, phone, code) =>
      VerifyIsQuiet(cfg, s, app, phone, code);
      QuietKeepsMoney(cfg, s, Verify(cfg, s, app, phone, code));
    case DoJob(i, a) => JobKeepsMoney(cfg, s, i, a);
    case DoTopUp(customer, amount, reference) =>
      if 0.0 < amount {
        TopUpKeepsMoney(cfg, s, TopUpOp(customer, amount, reference));
      }
    case _ =>
      OtherStepsAreQuiet(cfg, s, step);
      QuietKeepsMoney(cfg, s, Next(cfg, s, step));
  }

  lemma {:induction false} MoneyHolds(cfg: Config, now: int, steps: seq<Step>, n: nat)
    requires n <= |steps|
    ensures MoneyInv(cfg, Run(cfg, Initial(now), steps, n))
  {
    if n > 0 {
      MoneyHolds(cfg, now, steps, n - 1);
      NextKeepsMoney(cfg, Run(cfg, Initial(now), steps, n - 1), steps[n - 1]);
    } else {
      forall c: Customer ensures AccountPaid(cfg, Initial(now), c) {
        assert AccountOf(Initial(now).wallets, c).rows == [];
        assert ChargedOf(cfg, Initial(now), c) == {};
      }
    }
  }

  /* ---- No credits are minted ---- */

  /** As many debits as refunds at least, and of the same amount each. */
  lemma RefundsCovered(cfg: Config, a: Account, charged: set<Request>)
    requires AccountOk(a) && LedgerPaid(cfg, a.rows, charged) && 0.0 <= cfg.cost
    ensures CountOf(a.rows, Refund) <= CountOf(a.rows, Debit)
    ensures SumOf(a.rows, Refund) <= SumOf(a.rows, Debit)
  {
    forall i | 0 <= i < |a.rows| ensures RowPaid(cfg, a.rows[i], charged) {
    }
    KeysCountRefunds(a.rows);
    forall k | k in RefundKeys(a.rows) ensures IsReferenceOf(charged, k) {
      var i :| 0 <= i < |a.rows| && a.rows[i].kind == Refund && a.rows[i].refId == k;
      assert RowPaid(cfg, a.rows[i], charged);
    }
    KeysOfRequests(charged, RefundKeys(a.rows));
    RefundSumCovered(a.rows, cfg.cost);
  }

  lemma RefundSumCovered(rows: seq<Row>, cost: real)
    requires forall i :: 0 <= i < |rows| && rows[i].kind != Credit ==> rows[i].amount == cost
    requires 0.0 <= cost && CountOf(rows, Refund) <= CountOf(rows, Debit)
    ensures SumOf(rows, Refund) <= SumOf(rows, Debit)
  {
    SumOfEqualAmounts(rows, Refund, cost);
    SumOfEqualAmounts(rows, Debit, cost);
    TimesMonotone(cost, CountOf(rows, Refund), CountOf(rows, Debit));
  }

  /* ---- Credits come from top-ups alone ---- */

  predicate CreditsOnGrid(rows: seq<Row>) {
    forall i :: 0 <= i < |rows| && rows[i].kind == Credit ==> OnGrid(rows[i].amount)
  }

  predicate SameCredits(rows: seq<Row>, rows': seq<Row>) {
    SumOf(rows', Credit) == SumOf(rows, Credit) && (CreditsOnGrid(rows) ==> CreditsOnGrid(rows'))
  }

  ghost predicate NoCredit(db: Db, db': Db) {
    forall c: Customer :: SameCredits(AccountOf(db, c).rows, AccountOf(db', c).rows)
  }

  lemma SumLast(rows: seq<Row>, row: Row, kind: Kind)
    ensures SumOf(rows + [row], kind) == SumOf(rows, kind) + if row.kind == kind then row.amount else 0.0
  {
    assert (rows + [row])[..|rows|] == rows;
  }

  lemma AppendCreditsNothing(rows: seq<Row>, row: Row)
    requires row.kind != Credit
    ensures SameCredits(rows, rows + [row])
  {
    SumLast(rows, row, Credit);
  }

  lemma SettleCreditsNothing(a: Account, op: Op)
    requires !op.TopUpOp?
    ensures SameCredits(a.rows, Settle(a, op).rows)
  {
    if Decide(a, op).Posted? {
      AppendCreditsNothing(a.rows, NewRow(a.balance, op));
    }
  }

  lemma OnlyTopUpsCredit(db: Db, op: Op)
    requires !op.TopUpOp?
    ensures NoCredit(db, Apply(db, op))
  {
    forall c: Customer ensures SameCredits(AccountOf(db, c).rows, AccountOf(Apply(db, op), c).rows) {
      ApplyAccount(db, op, c);
      SettleCreditsNothing(AccountOf(db, c), op);
    }
  }

  lemma NoCreditTwice(db: Db, db1: Db, db2: Db)
    requires NoCredit(db, db1) && NoCredit(db1, db2)
    ensures NoCredit(db, db2)
  {
    forall c: Customer ensures SameCredits(AccountOf(db, c).rows, AccountOf(db2, c).rows) {
      assert SameCredits(AccountOf(db, c).rows, AccountOf(db1, c).rows);
      assert SameCredits(AccountOf(db1, c).rows, AccountOf(db2, c).rows);
    }
  }

  function SendRefund(cfg: Config, c: SendCall): Op {
    Worker.RefundOf(JobOf(cfg, c.app, c.request))
  }

  /** A send debits at most once, and then refunds at most once. */
  lemma SendMoves(cfg: Config, s: Sys, c: SendCall)
    ensures var w := Send(cfg, s, c).0.wallets; var debited := Apply(s.wallets, SendDebit(cfg, c));
            w == s.wallets || w == debited || w == Apply(debited, SendRefund(cfg, c))
  {
    if SendGate(cfg, s, c) == None && OutcomeOf(s.wallets, SendDebit(cfg, c)).Posted? {
      var s1 := WithCharge(cfg, WithNewRow(cfg, s, c), c);
      assert s1.wallets == Apply(s.wallets, SendDebit(cfg, c));
      assert FinishSend(cfg, s1, c).0.wallets == SendDispatch(cfg, s1, c).wallets;
    }
  }

  lemma SendCreditsNothing(cfg: Config, s: Sys, c: SendCall)
    ensures NoCredit(s.wallets, Send(cfg, s, c).0.wallets)
  {
    var debited := Apply(s.wallets, SendDebit(cfg, c));
    OnlyTopUpsCredit(s.wallets, SendDebit(cfg, c));
    OnlyTopUpsCredit(debited, SendRefund(cfg, c));
    NoCreditTwice(s.wallets, debited, Apply(debited, SendRefund(cfg, c)));
    SendMoves(cfg, s, c);
  }

  /** A resend debits at most once, and never refunds. */
  lemma ResendMoves(cfg: Config, s: Sys, c: ResendCall)
    ensures var w := Resend(cfg, s, c).0.wallets; w == s.wallets || w == Apply(s.wallets, ResendDebit(cfg, c))
  {
    if ResendGate(cfg, s, c) == None && OutcomeOf(s.wallets, ResendDebit(cfg, c)).Posted? {
      assert Resend(cfg, s, c).0 == ResendDispatch(cfg, WithNewCode(cfg, s, c), c);
    }
  }

  lemma ResendCreditsNothing(cfg: Config, s: Sys, c: ResendCall)
    ensures NoCredit(s.wallets, Resend(cfg, s, c).0.wallets)
  {
    OnlyTopUpsCredit(s.wallets, ResendDebit(cfg, c));
    ResendMoves(cfg, s, c);
  }

  lemma JobCreditsNothing(s: Sys, i: nat, a: Worker.Attempt)
    ensures NoCredit(s.wallets, RunJob(s, i, a).wallets)
  {
    if i < |s.jobs| && s.jobs[i].waiting && s.jobs[i].job.request in s.rows {
      var q := s.jobs[i];
      Worker.ProcessRefundsOnce(q.job, WorldOf(s, s.rows[q.job.request].status), q.attemptsMade, MAX_RETRIES, a);
      OnlyTopUpsCredit(s.wallets, Worker.RefundOf(q.job));
    }
  }

  lemma OtherStepsCreditNothing(cfg: Config, s: Sys, step: Step)
    requires !step.DoTopUp?
    ensures NoCredit(s.wallets, Next(cfg, s, step).wallets)
  {
    if step.DoSend? {
      SendCreditsNothing(cfg, s, step.send);
    } else if step.DoResend? {
      ResendCreditsNothing(cfg, s, step.resend);
    } else if step.DoJob? {
      JobCreditsNothing(s, step.i, step.attempt);
    } else if step.DoVerify? {
      VerifyIsQuiet(cfg, s, step.app, step.phone, step.code);
    } else {
      OtherStepsAreQuiet(cfg, s, step);
    }
  }

  /** What a step pays into a customer's wallet. */
  function PaidIn(step: Step, c: Customer): real {
    if step.DoTopUp? && step.customer == c && 0.0 < step.amount then step.amount else 0.0
  }

  function TopUps(steps: seq<Step>, n: nat, c: Customer): real
    requires n <= |steps|
  {
    if n == 0 then 0.0 else TopUps(steps, n - 1, c) + PaidIn(steps[n - 1], c)
  }

  predicate TopUpsOnGrid(steps: seq<Step>) {
    forall i :: 0 <= i < |steps| && steps[i].DoTopUp? ==> OnGrid(steps[i].amount)
  }

  /** A top-up of a positive amount always posts. */
  lemma SettleCredits(a: Account, op: Op)
    requires AccountOk(a) && op.TopUpOp? && 0.0 < op.amount
    ensures var row := NewRow(a.balance, op); Settle(a, op) == Account(row.after, a.rows + [row])
    ensures var rows := Settle(a, op).rows;
            SumOf(rows, Credit) == SumOf(a.rows, Credit) + op.amount &&
            (CreditsOnGrid(a.rows) && OnGrid(op.amount) ==> CreditsOnGrid(rows))
  {
    BalanceOnGrid(a);
    RoundNonNegative(a.balance + op.amount);
    SumLast(a.rows, NewRow(a.balance, op), Credit);
  }

  lemma TopUpCredits(cfg: Config, s: Sys, step: Step, c: Customer)
    requires DbOk(s.wallets) && step.DoTopUp?
    ensures var rows := AccountOf(s.wallets, c).rows;
            var rows' := AccountOf(Next(cfg, s, step).wallets, c).rows;
            SumOf(rows', Credit) == SumOf(rows, Credit) + PaidIn(step, c) &&
            (CreditsOnGrid(rows) && OnGrid(step.amount) ==> CreditsOnGrid(rows'))
  {
    if 0.0 < step.amount {
      var op := TopUpOp(step.customer, step.amount, step.reference);
      ApplyAccount(s.wallets, op, c);
      if c == op.customer {
        NewAccountOk();
        SettleCredits(AccountOf(s.wallets, c), op);
      }
    }
  }

  lemma NextCredits(cfg: Config, s: Sys, step: Step, c: Customer)
    requires DbOk(s.wallets)
    ensures var rows := AccountOf(s.wallets, c).rows;
            var rows' := AccountOf(Next(cfg, s, step).wallets, c).rows;
            SumOf(rows', Credit) == SumOf(rows, Credit) + PaidIn(step, c) &&
            (CreditsOnGrid(rows) && (step.DoTopUp? ==> OnGrid(step.amount)) ==> CreditsOnGrid(rows'))
  {
    if step.DoTopUp? {
      TopUpCredits(cfg, s, step, c);
    } else {
      OtherStepsCreditNothing(cfg, s, step);
      assert SameCredits(AccountOf(s.wallets, c).rows, AccountOf(Next(cfg, s, step).wallets, c).rows);
    }
  }

  /** The credit rows of a wallet are the top-ups made to it. */
  lemma {:induction false} CreditsAreTopUps(cfg: Config, now: int, steps: seq<Step>, n: nat, c: Customer)
    requires n <= |steps|
    ensures var rows := AccountOf(Run(cfg, Initial(now), steps, n).wallets, c).rows;
            SumOf(rows, Credit) == TopUps(steps, n, c) && (TopUpsOnGrid(steps) ==> CreditsOnGrid(rows))
  {
    if n == 0 {
    } else {
      CreditsAreTopUps(cfg, now, steps, n - 1, c);
      MoneyHolds(cfg, now, steps, n - 1);
      NextCredits(cfg, Run(cfg, Initial(now), steps, n - 1), steps[n - 1], c);
    }
  }

  /** In every reachable state every wallet holds at most the grant and the top-ups made
      to it: exactly, when the cost and the top-ups are on the grid, and to within the
      rounding of its rows otherwise. Its refunds never exceed its debits, in number and in
      total. */
  lemma NoCreditsMinted(cfg: Config, now: int, steps: seq<Step>, n: nat, c: Customer)
    requires ConfigOk(cfg) && n <= |steps|
    ensures var a := AccountOf(Run(cfg, Initial(now), steps, n).wallets, c);
            CountOf(a.rows, Refund) <= CountOf(a.rows, Debit) &&
            SumOf(a.rows, Refund) <= SumOf(a.rows, Debit) &&
            0.0 <= a.balance <= GRANT + TopUps(steps, n, c) + 0.00005 * |a.rows| as real &&
            (OnGrid(cfg.cost) && TopUpsOnGrid(steps) ==> a.balance <= GRANT + TopUps(steps, n, c))
  {
    MoneyHolds(cfg, now, steps, n);
    CreditsAreTopUps(cfg, now, steps, n, c);
    var s := Run(cfg, Initial(now), steps, n);
    var a := AccountOf(s.wallets, c);
    NewAccountOk();
    assert AccountPaid(cfg, s, c);
    RefundsCovered(cfg, a, ChargedOf(cfg, s, c));
    SignedSumByKind(a.rows);
    RoundingBound(a.rows);
    BalanceOnGrid(a);
    if OnGrid(cfg.cost) && TopUpsOnGrid(steps) {
      forall i | 0 <= i < |a.rows| ensures OnGrid(a.rows[i].amount) {
        assert RowPaid(cfg, a.rows[i], ChargedOf(cfg, s, c));
      }
    }
  }

  /* ---- Refunds of generated request ids ---- */

  predicate IdsGenerated(requests: set<Request>) {
    forall r :: r in requests ==> "req_" <= r
  }

  lemma SendRequests(cfg: Config, s: Sys, c: SendCall)
    ensures Send(cfg, s, c).0.rows.Keys <= s.rows.Keys + {c.request}
  {
    if SendGate(cfg, s, c) == None {
      var s1 := WithCharge(cfg, WithNewRow(cfg, s, c), c);
      Life.DispatchOnlyStatuses(cfg, s1, c);
      assert FinishSend(cfg, s1, c).0.rows == SendDispatch(cfg, s1, c).rows;
    }
  }

  lemma ResendRequests(cfg: Config, s: Sys, c: ResendCall)
    ensures Resend(cfg, s, c).0.rows.Keys == s.rows.Keys
  {
  }

  lemma VerifyRequests(cfg: Config, s: Sys, app: App, phone: string, code: string)
    ensures Verify(cfg, s, app, phone, code).rows.Keys == s.rows.Keys
  {
  }

  lemma NextRequests(cfg: Config, s: Sys, step: Step)
    ensures Next(cfg, s, step).rows.Keys <= s.rows.Keys + if step.DoSend? then {step.send.request} else {}
  {
    match step
    case DoSend(c) => SendRequests(cfg, s, c);
    case DoResend(c) => ResendRequests(cfg, s, c);
    case DoVerify(app, phone, code) => VerifyRequests(cfg, s, app, phone, code);
    case DoJob(i, a) => Life.RunJobOnlyStatuses(s, i, a);
    case DoWebhook(wamid, statusStr, faults) => Life.RunWebhookOnlyStatuses(s, wamid, statusStr, faults);
    case _ =>
  }

  lemma {:induction false} RequestsAreGenerated(cfg: Config, now: int, steps: seq<Step>, n: nat)
    requires n <= |steps| && forall i :: 0 <= i < n && steps[i].DoSend? ==> "req_" <= steps[i].send.request
    ensures IdsGenerated(Run(cfg, Initial(now), steps, n).rows.Keys)
  {
    if n == 0 {
    } else {
      RequestsAreGenerated(cfg, now, steps, n - 1);
      NextRequests(cfg, Run(cfg, Initial(now), steps, n - 1), steps[n - 1]);
    }
  }

  /** The price of the shared refund key: with request ids as they are generated, over a
      whole run, however many deliveries fail, each wallet gets at most one refund. */
  lemma OneRefundPerWallet(cfg: Config, now: int, steps: seq<Step>, n: nat, c: Customer)
    requires n <= |steps| && forall i :: 0 <= i < n && steps[i].DoSend? ==> "req_" <= steps[i].send.request
    ensures CountOf(AccountOf(Run(cfg, Initial(now), steps, n).wallets, c).rows, Refund) <= 1
  {
    MoneyHolds(cfg, now, steps, n);
    RequestsAreGenerated(cfg, now, steps, n);
    var s := Run(cfg, Initial(now), steps, n);
    var a := AccountOf(s.wallets, c);
    NewAccountOk();
    assert AccountPaid(cfg, s, c);
    RefundsOfGeneratedIds(cfg, a, ChargedOf(cfg, s, c));
  }

  lemma RefundsOfGeneratedIds(cfg: Config, a: Account, charged: set<Request>)
    requires AccountOk(a) && LedgerPaid(cfg, a.rows, charged) && IdsGenerated(charged)
    ensures CountOf(a.rows, Refund) <= 1
  {
    forall k | k in RefundKeys(a.rows) ensures k == None {
      var i :| 0 <= i < |a.rows| && a.rows[i].kind == Refund && a.rows[i].refId == k;
      assert RowPaid(cfg, a.rows[i], charged);
      var r :| r in charged && StoredReference(r) == k;
      RequestIdsStoreNull(r);
    }
    forall i | 0 <= i < |a.rows| ensures RowPaid(cfg, a.rows[i], charged) {
    }
    KeysCountRefunds(a.rows);
    SubsetOfOne(RefundKeys(a.rows), None);
  }

  lemma SubsetOfOne(keys: set<Option<string>>, k: Option<string>)
    requires forall x :: x in keys ==> x == k
    ensures |keys| <= 1
  {
    assert keys == {} || keys == {k};
  }
}
