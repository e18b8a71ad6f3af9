/** The wallet ledger: what one committed wallet transaction does to an account, and what
    every sequence of committed transactions keeps. The interleaved form, with locks and
    aborts, is in LedgerConcurrency. */
module Ledger {
  import opened Prelude
  import opened Money
  import opened References

  type Customer = nat

  datatype Kind = Credit | Debit | Refund

  /** A row of `wallet_transactions`, without its id, description and timestamp. */
  datatype Row = Row(kind: Kind, amount: real, before: real, after: real,
                     refType: string, refId: Option<string>)

  /** A wallet and its ledger rows, oldest first. */
  datatype Account = Account(balance: real, rows: seq<Row>)

  type Db = map<Customer, Account>

  datatype Op =
    | DeductOp(customer: Customer, amount: real, refType: string, reference: string)
    | RefundOp(customer: Customer, amount: real, refType: string, reference: string)
    | TopUpOp(customer: Customer, amount: real, reference: string)

  /** How a wallet transaction ends. Posted and Duplicate commit; the others roll back. */
  datatype Outcome =
    | Posted(balance: real)
    | Duplicate(balance: real)
    | InsufficientFunds(current: real, required: real)
    | CheckViolation
    | WalletNotFound

  predicate Commits(o: Outcome) {
    o.Posted? || o.Duplicate?
  }

  /** The free credits a wallet is created with. */
  const GRANT: real := 100.0

  const NEW_ACCOUNT: Account := Account(GRANT, [])

  function AccountOf(db: Db, c: Customer): Account {
    if c in db then db[c] else NEW_ACCOUNT
  }

  function KindOf(op: Op): Kind {
    match op
    case DeductOp(_, _, _, _) => Debit
    case RefundOp(_, _, _, _) => Refund
    case TopUpOp(_, _, _) => Credit
  }

  function RefTypeOf(op: Op): string {
    if op.TopUpOp? then "payment" else op.refType
  }

  function Signed(kind: Kind, amount: real): real {
    if kind == Debit then -amount else amount
  }

  predicate IsRefund(row: Row, refType: string, refId: Option<string>) {
    row.kind == Refund && row.refType == refType && row.refId == refId
  }

  predicate HasRefund(rows: seq<Row>, refType: string, refId: Option<string>) {
    exists i :: 0 <= i < |rows| && IsRefund(rows[i], refType, refId)
  }

  /** The row a transaction inserts when it finds balance `before` under its lock. */
  function NewRow(before: real, op: Op): Row {
    Row(KindOf(op), op.amount, before, RoundTo4(before + Signed(KindOf(op), op.amount)),
        RefTypeOf(op), StoredReference(op.reference))
  }

  /** How a transaction ends that holds the lock on account a. The last case is the
      database's check that no balance is negative. */
  function Decide(a: Account, op: Op): Outcome {
    if op.DeductOp? && a.balance < op.amount then
      InsufficientFunds(a.balance, op.amount)
    else if op.RefundOp? && HasRefund(a.rows, op.refType, StoredReference(op.reference)) then
      Duplicate(a.balance)
    else if NewRow(a.balance, op).after < 0.0 then
      CheckViolation
    else
      Posted(NewRow(a.balance, op).after)
  }

  /** The account after the transaction, when it commits. */
  function Settle(a: Account, op: Op): Account {
    if Decide(a, op).Posted?
    then var row := NewRow(a.balance, op); Account(row.after, a.rows + [row])
    else a
  }

  /** One whole transaction. A rolled-back one also undoes the creation of the wallet. */
  function Apply(db: Db, op: Op): Db {
    var a := AccountOf(db, op.customer);
    if Commits(Decide(a, op)) then db[op.customer := Settle(a, op)] else db
  }

  function OutcomeOf(db: Db, op: Op): Outcome {
    Decide(AccountOf(db, op.customer), op)
  }

  /** What a transaction does to each account. */
  lemma ApplyAccount(db: Db, op: Op, c: Customer)
    ensures AccountOf(Apply(db, op), c) ==
      if c == op.customer then Settle(AccountOf(db, c), op) else AccountOf(db, c)
  {
  }

  /** Transactions one at a time, in order. */
  function Serial(db: Db, ops: seq<Op>): Db {
    if ops == [] then db else Apply(Serial(db, ops[..|ops| - 1]), ops[|ops| - 1])
  }

  /* ---- What every account keeps ---- */

  function BalanceAt(rows: seq<Row>, i: nat): real
    requires i <= |rows|
  {
    if i == 0 then GRANT else rows[i - 1].after
  }

  /** Row i starts where row i - 1 ended, moves by its amount rounded to the grid, never
      goes below zero, and as a debit never exceeds the balance it found. */
  predicate LinkedAt(rows: seq<Row>, i: nat)
    requires i < |rows|
  {
    var row := rows[i];
    row.before == BalanceAt(rows, i) &&
    row.after == RoundTo4(row.before + Signed(row.kind, row.amount)) &&
    0.0 <= row.after &&
    (row.kind == Debit ==> row.amount <= row.before)
  }

  predicate Linked(rows: seq<Row>) {
    forall i :: 0 <= i < |rows| ==> LinkedAt(rows, i)
  }

  predicate RefundsDistinct(rows: seq<Row>) {
    forall i, j :: 0 <= i < j < |rows| && rows[i].kind == Refund ==>
      !IsRefund(rows[j], rows[i].refType, rows[i].refId)
  }

  predicate AccountOk(a: Account) {
    Linked(a.rows) && RefundsDistinct(a.rows) && a.balance == BalanceAt(a.rows, |a.rows|)
  }

  predicate DbOk(db: Db) {
    forall c :: c in db ==> AccountOk(db[c])
  }

  lemma NewAccountOk()
    ensures AccountOk(NEW_ACCOUNT)
  {
  }

  lemma BalanceOnGrid(a: Account)
    requires AccountOk(a)
    ensures OnGrid(a.balance) && 0.0 <= a.balance
  {
    if a.rows != [] {
      assert LinkedAt(a.rows, |a.rows| - 1);
    } else {
      assert GRANT * 10000.0 == 1000000 as real;
    }
  }

  lemma SettleKeepsOk(a: Account, op: Op)
    requires AccountOk(a)
    ensures AccountOk(Settle(a, op))
  {
    var b := Settle(a, op);
    if Decide(a, op).Posted? {
      forall i | 0 <= i < |b.rows| ensures LinkedAt(b.rows, i) {
        assert i < |a.rows| ==> LinkedAt(a.rows, i);
      }
    }
  }

  lemma ApplyKeepsOk(db: Db, op: Op)
    requires DbOk(db)
    ensures DbOk(Apply(db, op))
  {
    SettleKeepsOk(AccountOf(db, op.customer), op);
  }

  /** Every sequence of transactions leaves every account linked from the grant to its
      balance, with at most one refund row for each key. */
  lemma {:induction false} SerialKeepsOk(db: Db, ops: seq<Op>)
    requires DbOk(db)
    ensures DbOk(Serial(db, ops))
  {
    if ops == [] {
    } else {
      SerialKeepsOk(db, ops[..|ops| - 1]);
      ApplyKeepsOk(Serial(db, ops[..|ops| - 1]), ops[|ops| - 1]);
    }
  }

  /* ---- Conservation, up to rounding ---- */

  function SignedSum(rows: seq<Row>): real {
    if rows == [] then 0.0
    else SignedSum(rows[..|rows| - 1]) + Signed(rows[|rows| - 1].kind, rows[|rows| - 1].amount)
  }

  predicate AmountsOnGrid(rows: seq<Row>) {
    forall i :: 0 <= i < |rows| ==> OnGrid(rows[i].amount)
  }

  lemma PrefixLinked(rows: seq<Row>, n: nat)
    requires Linked(rows) && n <= |rows|
    ensures Linked(rows[..n])
  {
    forall i | 0 <= i < n ensures LinkedAt(rows[..n], i) {
      assert LinkedAt(rows, i);
    }
  }

  /** After n rows the balance is the grant plus the signed amounts, to within n/20000,
      and exactly that when every amount is on the grid. */
  lemma {:induction false} RoundingBound(rows: seq<Row>)
    requires Linked(rows)
    ensures var drift := BalanceAt(rows, |rows|) - (GRANT + SignedSum(rows));
            -0.00005 * |rows| as real <= drift <= 0.00005 * |rows| as real &&
            (AmountsOnGrid(rows) ==> drift == 0.0)
    ensures OnGrid(BalanceAt(rows, |rows|))
  {
    if rows == [] {
      assert GRANT * 10000.0 == 1000000 as real;
    } else {
      var n := |rows| - 1;
      PrefixLinked(rows, n);
      RoundingBound(rows[..n]);
      assert LinkedAt(rows, n);
      assert BalanceAt(rows, n) == BalanceAt(rows[..n], n);
      if AmountsOnGrid(rows) {
        assert AmountsOnGrid(rows[..n]);
        GridSum(rows[n].before, rows[n].amount);
        RoundKeepsGrid(rows[n].before + Signed(rows[n].kind, rows[n].amount));
      }
    }
  }

  /* ---- When an operation posts, and what it writes ---- */

  /** The balance after a row of this signed amount. */
  function Moved(balance: real, amount: real): real {
    RoundTo4(balance + amount)
  }

  /** A debit posts if and only if the balance covers the amount, down to the last credit.
      Then it adds one row with what it found and left; otherwise it changes nothing. */
  lemma DebitPostsIff(db: Db, op: Op)
    requires DbOk(db) && op.DeductOp?
    ensures var a := AccountOf(db, op.customer);
            var left := Moved(a.balance, -op.amount);
            if op.amount <= a.balance then
              OutcomeOf(db, op) == Posted(left) && 0.0 <= left &&
              Apply(db, op) == db[op.customer := Account(left,
                a.rows + [Row(Debit, op.amount, a.balance, left, op.refType, StoredReference(op.reference))])]
            else
              OutcomeOf(db, op) == InsufficientFunds(a.balance, op.amount) && Apply(db, op) == db
  {
    var a := AccountOf(db, op.customer);
    if op.amount <= a.balance {
      RoundNonNegative(a.balance - op.amount);
    }
  }

  /** A top-up posts if and only if it does not drive the balance below zero. */
  lemma TopUpPostsIff(db: Db, op: Op)
    requires op.TopUpOp?
    ensures var a := AccountOf(db, op.customer);
            var left := Moved(a.balance, op.amount);
            if 0.0 <= left then
              OutcomeOf(db, op) == Posted(left) &&
              Apply(db, op) == db[op.customer := Account(left,
                a.rows + [Row(Credit, op.amount, a.balance, left, "payment", StoredReference(op.reference))])]
            else
              OutcomeOf(db, op) == CheckViolation && Apply(db, op) == db
  {
  }

  /** What a refund writes: one row when its key is unused, nothing when it has been used. */
  lemma RefundWrites(db: Db, op: Op)
    requires op.RefundOp?
    ensures var a := AccountOf(db, op.customer);
            var left := Moved(a.balance, op.amount);
            if HasRefund(a.rows, op.refType, StoredReference(op.reference)) then
              OutcomeOf(db, op) == Duplicate(a.balance) && Apply(db, op) == db
            else if 0.0 <= left then
              OutcomeOf(db, op) == Posted(left) &&
              Apply(db, op) == db[op.customer := Account(left,
                a.rows + [Row(Refund, op.amount, a.balance, left, op.refType, StoredReference(op.reference))])]
            else
              OutcomeOf(db, op) == CheckViolation && Apply(db, op) == db
  {
    var a := AccountOf(db, op.customer);
    if HasRefund(a.rows, op.refType, StoredReference(op.reference)) {
      assert op.customer in db && db[op.customer] == a;
    }
  }

  /** A customer without a wallet can spend a hundred credits at once, and no more. */
  lemma NewWalletHoldsHundred(db: Db, op: Op)
    requires DbOk(db) && op.DeductOp? && op.customer !in db
    ensures OutcomeOf(db, op).Posted? <==> op.amount <= 100.0
    ensures op.amount == 100.0 ==> OutcomeOf(db, op) == Posted(0.0)
  {
    DebitPostsIff(db, op);
    if op.amount == 100.0 {
      WholeIsOnGrid(0.0, 0);
      RoundKeepsGrid(0.0);
    }
  }

  /* ---- Refunds ---- */

  /** A refund posts exactly when its key is unused and it does not drive the balance
      below zero; a non-negative one never does. */
  lemma RefundPostsIff(db: Db, op: Op)
    requires DbOk(db) && op.RefundOp?
    ensures var a := AccountOf(db, op.customer);
            OutcomeOf(db, op).Posted? <==>
              !HasRefund(a.rows, op.refType, StoredReference(op.reference)) &&
              0.0 <= RoundTo4(a.balance + op.amount)
    ensures 0.0 <= op.amount ==> 0.0 <= RoundTo4(AccountOf(db, op.customer).balance + op.amount)
  {
    NewAccountOk();
    BalanceOnGrid(AccountOf(db, op.customer));
    if 0.0 <= op.amount {
      RoundNonNegative(AccountOf(db, op.customer).balance + op.amount);
    }
  }

  predicate RefundedIn(db: Db, c: Customer, refType: string, refId: Option<string>) {
    c in db && HasRefund(db[c].rows, refType, refId)
  }

  lemma {:induction false} RefundStays(db: Db, ops: seq<Op>, c: Customer, refType: string, refId: Option<string>)
    requires RefundedIn(db, c, refType, refId)
    ensures RefundedIn(Serial(db, ops), c, refType, refId)
  {
    if ops == [] {
    } else {
      var before := Serial(db, ops[..|ops| - 1]);
      RefundStays(db, ops[..|ops| - 1], c, refType, refId);
      var i :| 0 <= i < |before[c].rows| && IsRefund(before[c].rows[i], refType, refId);
      assert IsRefund(Serial(db, ops)[c].rows[i], refType, refId);
    }
  }

  /** Once a refund call with some key has committed, whatever ran in between, every later
      call with that key reports the balance of that moment and changes nothing. */
  lemma RefundAtMostOnce(db: Db, first: Op, between: seq<Op>, again: Op)
    requires first.RefundOp? && again.RefundOp?
    requires first.customer == again.customer && first.refType == again.refType
    requires StoredReference(first.reference) == StoredReference(again.reference)
    requires Commits(OutcomeOf(db, first))
    ensures var now := Serial(Apply(db, first), between);
            again.customer in now &&
            OutcomeOf(now, again) == Duplicate(now[again.customer].balance) &&
            Apply(now, again) == now
  {
    var key := StoredReference(first.reference);
    var after := Apply(db, first);
    var a := AccountOf(db, first.customer);
    if OutcomeOf(db, first).Posted? {
      assert IsRefund(after[first.customer].rows[|a.rows|], first.refType, key);
    }
    assert RefundedIn(after, first.customer, first.refType, key);
    RefundStays(after, between, first.customer, first.refType, key);
  }

  /** A refund does not always land: any two request ids that are not UUIDs share one key,
      so of two failed requests of a customer the second is never refunded. */
  lemma SecondRequestIdIsNotRefunded(c: Customer, cost: real, refType: string, id1: string, id2: string)
    requires 0.0 <= cost && "req_" <= id1 && "req_" <= id2 && id1 != id2
    ensures var one := Apply(map[], RefundOp(c, cost, refType, id1));
            c in one && HasRefund(one[c].rows, refType, StoredReference(id2)) &&
            OutcomeOf(map[], RefundOp(c, cost, refType, id1)).Posted? &&
            OutcomeOf(one, RefundOp(c, cost, refType, id2)) == Duplicate(one[c].balance)
  {
    RequestIdsStoreNull(id1);
    RequestIdsStoreNull(id2);
    RefundPostsIff(map[], RefundOp(c, cost, refType, id1));
    RefundAtMostOnce(map[], RefundOp(c, cost, refType, id1), [], RefundOp(c, cost, refType, id2));
  }

  /** A top-up has no duplicate check: repeating one with the same reference posts again. */
  lemma TopUpRepeats(db: Db, op: Op)
    requires DbOk(db) && op.TopUpOp? && 0.0 <= op.amount
    ensures var once := Apply(db, op); var twice := Apply(once, op);
            op.customer in twice &&
            |twice[op.customer].rows| == |AccountOf(db, op.customer).rows| + 2
  {
    NewAccountOk();
    BalanceOnGrid(AccountOf(db, op.customer));
    RoundNonNegative(AccountOf(db, op.customer).balance + op.amount);
    ApplyKeepsOk(db, op);
    BalanceOnGrid(Apply(db, op)[op.customer]);
    RoundNonNegative(Apply(db, op)[op.customer].balance + op.amount);
  }
}
