/** Wallet transactions interleaved statement by statement, under row locks, with
    roll-backs anywhere: the committed ledger is that of the committed transactions run
    one at a time, in the order in which they acquired their locks. */
module LedgerConcurrency {
  import opened Prelude
  import opened References
  import opened Ledger

  type TxnId = nat

  /** Where a transaction stands. Each phase names the statement it has completed. */
  datatype Phase =
    | Begun                     // nothing yet
    | NoWallet                  // findUnique returned nothing
    | Ensured                   // a wallet exists, or this transaction created one
    | Locked                    // SELECT ... FOR UPDATE returned the wallet
    | Checked                   // funds suffice, and there is no earlier refund
    | Updated                   // the new balance is written
    | Ready(outcome: Outcome)   // the row is inserted, or there was nothing to write
    | Committed(outcome: Outcome)
    | Aborted(reason: Option<Outcome>)

  /** A transaction, with the writes it has buffered. */
  datatype Txn = Txn(op: Op, phase: Phase, created: bool, before: real, after: real, row: Option<Row>)

  /** The committed tables, the transactions, who holds the lock on each wallet, and the
      order in which locks were acquired (a record kept for the statement only). */
  datatype State = State(db: Db, txns: map<TxnId, Txn>, locks: map<Customer, TxnId>, order: seq<TxnId>)

  datatype Step =
    | Begin(id: TxnId, op: Op)
    | Advance(id: TxnId)        // run the next statement
    | Rollback(id: TxnId)       // timeout, lost connection, crash

  function Initial(db: Db): State {
    State(db, map[], map[], [])
  }

  predicate Final(t: Txn) {
    t.phase.Committed? || t.phase.Aborted?
  }

  predicate Holds(s: State, id: TxnId) {
    id in s.txns && s.txns[id].op.customer in s.locks && s.locks[s.txns[id].op.customer] == id
  }

  function Set(s: State, id: TxnId, t: Txn): State {
    s.(txns := s.txns[id := t])
  }

  /** Roll back: the buffered writes are dropped and the lock, if held, released. */
  function Abort(s: State, id: TxnId, reason: Option<Outcome>): State
    requires id in s.txns
  {
    var t := s.txns[id];
    Set(s, id, t.(phase := Aborted(reason))).(
      locks := if Holds(s, id) then s.locks - {t.op.customer} else s.locks)
  }

  function Acquire(s: State, id: TxnId): State
    requires id in s.txns
  {
    s.(locks := s.locks[s.txns[id].op.customer := id], order := s.order + [id])
  }

  /** `findUnique`: sees committed wallets only. */
  function FindWallet(s: State, id: TxnId): State
    requires id in s.txns
  {
    var t := s.txns[id];
    Set(s, id, t.(phase := if t.op.customer in s.db then Ensured else NoWallet))
  }

  /** `create`: the unique key on customer_id makes it fail beside a committed wallet and
      wait beside an uncommitted one; otherwise the new row is locked by its creator. */
  function CreateWallet(s: State, id: TxnId): State
    requires id in s.txns
  {
    var t := s.txns[id];
    if t.op.customer in s.db then Abort(s, id, None)
    else if t.op.customer in s.locks then s
    else Set(Acquire(s, id), id, t.(phase := Ensured, created := true))
  }

  /** `SELECT ... FOR UPDATE`: waits for the lock, then reads the committed balance. */
  function SelectForUpdate(s: State, id: TxnId): State
    requires id in s.txns
  {
    var t := s.txns[id];
    var c := t.op.customer;
    if t.created then Set(s, id, t.(phase := Locked, before := GRANT))
    else if c in s.locks then s
    else if c !in s.db then Abort(s, id, Some(WalletNotFound))
    else Set(Acquire(s, id), id, t.(phase := Locked, before := s.db[c].balance))
  }

  /** The funds check of a debit, the duplicate check of a refund; a top-up has neither. */
  function Check(s: State, id: TxnId): State
    requires id in s.txns
  {
    var t := s.txns[id];
    var rows := if t.op.customer in s.db then s.db[t.op.customer].rows else [];
    match t.op
    case DeductOp(_, cost, _, _) =>
      if t.before < cost then Abort(s, id, Some(InsufficientFunds(t.before, cost)))
      else Set(s, id, t.(phase := Checked))
    case RefundOp(_, _, refType, reference) =>
      if HasRefund(rows, refType, StoredReference(reference))
      then Set(s, id, t.(phase := Ready(Duplicate(t.before))))
      else Set(s, id, t.(phase := Checked))
    case TopUpOp(_, _, _) => Set(s, id, t.(phase := Checked))
  }

  function UpdateBalance(s: State, id: TxnId): State
    requires id in s.txns
  {
    var t := s.txns[id];
    var after := NewRow(t.before, t.op).after;
    if after < 0.0 then Abort(s, id, Some(CheckViolation))
    else Set(s, id, t.(phase := Updated, after := after))
  }

  function InsertRow(s: State, id: TxnId): State
    requires id in s.txns
  {
    var t := s.txns[id];
    Set(s, id, t.(phase := Ready(Posted(t.after)), row := Some(NewRow(t.before, t.op).(after := t.after))))
  }

  /** Commit: the buffered writes reach the tables and the lock is released. */
  function Commit(s: State, id: TxnId): State
    requires id in s.txns && s.txns[id].phase.Ready?
  {
    var t := s.txns[id];
    var c := t.op.customer;
    var base := AccountOf(s.db, c);
    var account := if t.row.Some? then Account(t.after, base.rows + [t.row.value]) else base;
    State(s.db[c := account], s.txns[id := t.(phase := Committed(t.phase.outcome))], s.locks - {c}, s.order)
  }

  /** A step that cannot run (unknown or finished transaction, lock taken) changes nothing. */
  function Next(s: State, step: Step): State {
    match step
    case Begin(id, op) =>
      if id in s.txns then s else Set(s, id, Txn(op, Begun, false, 0.0, 0.0, None))
    case Rollback(id) =>
      if id !in s.txns || Final(s.txns[id]) then s else Abort(s, id, None)
    case Advance(id) =>
      if id !in s.txns then s else
      match s.txns[id].phase
      case Begun => FindWallet(s, id)
      case NoWallet => CreateWallet(s, id)
      case Ensured => SelectForUpdate(s, id)
      case Locked => Check(s, id)
      case Checked => UpdateBalance(s, id)
      case Updated => InsertRow(s, id)
      case Ready(_) => Commit(s, id)
      case Committed(_) => s
      case Aborted(_) => s
  }

  function Run(s: State, steps: seq<Step>): State {
    if steps == [] then s else Next(Run(s, steps[..|steps| - 1]), steps[|steps| - 1])
  }

  /** The operations of the committed transactions, in lock-acquisition order. */
  function CommittedOps(txns: map<TxnId, Txn>, order: seq<TxnId>): seq<Op> {
    if order == [] then []
    else
      var id := order[|order| - 1];
      CommittedOps(txns, order[..|order| - 1]) +
      if id in txns && txns[id].phase.Committed? then [txns[id].op] else []
  }

  /* ---- The invariant of the locking protocol ---- */

  /** What a transaction has established about the account it works on. */
  predicate ProgressOk(t: Txn, db: Db) {
    var c := t.op.customer;
    var base := AccountOf(db, c);
    match t.phase
    case Begun => !t.created && t.row == None
    case NoWallet => !t.created && t.row == None
    case Ensured => t.row == None && (t.created <==> c !in db)
    case Locked => t.row == None && (t.created <==> c !in db) && t.before == base.balance
    case Checked => t.row == None && (t.created <==> c !in db) && t.before == base.balance &&
      !Decide(base, t.op).InsufficientFunds? && !Decide(base, t.op).Duplicate?
    case Updated => t.row == None && (t.created <==> c !in db) && t.before == base.balance &&
      Decide(base, t.op) == Posted(t.after)
    case Ready(o) => (t.created <==> c !in db) && Commits(o) && Decide(base, t.op) == o &&
      (if o.Posted? then t.after == o.balance && t.row == Some(NewRow(base.balance, t.op)) else t.row == None)
    case Committed(o) => Commits(o)
    case Aborted(reason) => reason != Some(WalletNotFound)
  }

  /** Exactly the transactions between their lock and their end hold a lock. */
  predicate HasAcquired(t: Txn) {
    match t.phase
    case Begun => false
    case NoWallet => false
    case Ensured => t.created
    case _ => !Final(t)
  }

  /** What a transaction that has ended by itself has answered: a roll-back from outside
      answers nothing. */
  function Answer(phase: Phase): Option<Outcome> {
    match phase
    case Committed(o) => Some(o)
    case Aborted(reason) => reason
    case _ => None
  }

  predicate TxnOk(s: State, id: TxnId)
    requires id in s.txns
  {
    var t := s.txns[id];
    ProgressOk(t, s.db) &&
    (HasAcquired(t) <==> Holds(s, id)) &&
    (HasAcquired(t) ==> id in s.order) &&
    (Answer(t.phase).Some? ==> id in s.order) &&
    (!HasAcquired(t) && !Final(t) ==> id !in s.order)
  }

  predicate LocksOk(s: State) {
    forall c :: c in s.locks ==>
      s.locks[c] in s.txns && s.txns[s.locks[c]].op.customer == c
  }

  predicate OrderKnown(s: State) {
    forall p :: 0 <= p < |s.order| ==> s.order[p] in s.txns
  }

  /** No lock is acquired twice, and never while an earlier holder is still running. */
  predicate OrderOk(s: State) {
    OrderKnown(s) &&
    (forall p, q :: 0 <= p < q < |s.order| ==> s.order[p] != s.order[q]) &&
    (forall p, q :: 0 <= p < q < |s.order| && !Final(s.txns[s.order[p]]) ==>
      s.txns[s.order[p]].op.customer != s.txns[s.order[q]].op.customer)
  }

  predicate Inv(s: State) {
    (forall id :: id in s.txns ==> TxnOk(s, id)) && LocksOk(s) && OrderOk(s)
  }

  lemma AbortKeepsInv(s: State, id: TxnId, reason: Option<Outcome>)
    requires Inv(s) && id in s.txns && !Final(s.txns[id]) && reason != Some(WalletNotFound)
    requires reason.Some? ==> HasAcquired(s.txns[id])
    ensures Inv(Abort(s, id, reason))
  {
    var s' := Abort(s, id, reason);
    forall x | x in s'.txns ensures TxnOk(s', x) {
      assert TxnOk(s, x) && TxnOk(s, id);
    }
  }

  lemma AcquireKeepsInv(s: State, id: TxnId, t: Txn)
    requires Inv(s) && id in s.txns && t.op == s.txns[id].op && t.op.customer !in s.locks
    requires !HasAcquired(s.txns[id]) && !Final(s.txns[id]) && HasAcquired(t) && ProgressOk(t, s.db)
    ensures Inv(Set(Acquire(s, id), id, t))
  {
    var s' := Set(Acquire(s, id), id, t);
    assert TxnOk(s, id);
    forall x | x in s'.txns ensures TxnOk(s', x) {
      assert TxnOk(s, x);
      assert x != id ==> (x in s'.order <==> x in s.order);
      assert s'.order[|s.order|] == id;
    }
    AcquireKeepsOrder(s, id, t);
  }

  lemma AcquireKeepsOrder(s: State, id: TxnId, t: Txn)
    requires Inv(s) && id in s.txns && t.op == s.txns[id].op && t.op.customer !in s.locks
    requires !HasAcquired(s.txns[id]) && !Final(s.txns[id])
    ensures OrderOk(Set(Acquire(s, id), id, t))
  {
    var s' := Set(Acquire(s, id), id, t);
    assert TxnOk(s, id);
    forall p, q | 0 <= p < q < |s'.order| && !Final(s'.txns[s'.order[p]])
      ensures s'.txns[s'.order[p]].op.customer != s'.txns[s'.order[q]].op.customer
    {
      assert TxnOk(s, s.order[p]);
    }
  }

  /** Moving on within a transaction, without touching tables, locks or order. */
  lemma MoveKeepsInv(s: State, id: TxnId, t: Txn)
    requires Inv(s) && id in s.txns && t.op == s.txns[id].op && ProgressOk(t, s.db)
    requires !Final(s.txns[id]) && !Final(t) && HasAcquired(t) == HasAcquired(s.txns[id])
    ensures Inv(Set(s, id, t))
  {
    var s' := Set(s, id, t);
    forall x | x in s'.txns ensures TxnOk(s', x) {
      assert TxnOk(s, x);
    }
  }

  lemma CommitKeepsInv(s: State, id: TxnId)
    requires Inv(s) && id in s.txns && s.txns[id].phase.Ready?
    ensures Inv(Commit(s, id))
    ensures Commit(s, id).db == Apply(s.db, s.txns[id].op)
  {
    var s' := Commit(s, id);
    CommitApplies(s, id);
    forall x | x in s'.txns ensures TxnOk(s', x) {
      assert TxnOk(s, x) && TxnOk(s, id);
    }
  }

  lemma CommitApplies(s: State, id: TxnId)
    requires id in s.txns && s.txns[id].phase.Ready? && TxnOk(s, id)
    ensures Commit(s, id).db == Apply(s.db, s.txns[id].op)
  {
  }

  lemma CheckKeepsInv(s: State, id: TxnId)
    requires Inv(s) && id in s.txns && s.txns[id].phase == Locked
    ensures Inv(Check(s, id))
  {
    assert TxnOk(s, id);
    var t' := Check(s, id).txns[id];
    if t'.phase.Aborted? {
      AbortKeepsInv(s, id, t'.phase.reason);
    } else {
      MoveKeepsInv(s, id, t');
    }
  }

  lemma UpdateBalanceKeepsInv(s: State, id: TxnId)
    requires Inv(s) && id in s.txns && s.txns[id].phase == Checked
    ensures Inv(UpdateBalance(s, id))
  {
    assert TxnOk(s, id);
    var t' := UpdateBalance(s, id).txns[id];
    if t'.phase.Aborted? {
      AbortKeepsInv(s, id, t'.phase.reason);
    } else {
      MoveKeepsInv(s, id, t');
    }
  }

  lemma EnsureKeepsInv(s: State, id: TxnId)
    requires Inv(s) && id in s.txns
    ensures s.txns[id].phase == Begun ==> Inv(FindWallet(s, id))
    ensures s.txns[id].phase == NoWallet ==> Inv(CreateWallet(s, id))
  {
    assert TxnOk(s, id);
    var t := s.txns[id];
    if t.phase == Begun {
      MoveKeepsInv(s, id, FindWallet(s, id).txns[id]);
    } else if t.phase == NoWallet {
      if t.op.customer in s.db {
        AbortKeepsInv(s, id, None);
      } else if t.op.customer !in s.locks {
        AcquireKeepsInv(s, id, t.(phase := Ensured, created := true));
      }
    }
  }

  lemma SelectForUpdateKeepsInv(s: State, id: TxnId)
    requires Inv(s) && id in s.txns && s.txns[id].phase == Ensured
    ensures Inv(SelectForUpdate(s, id))
  {
    assert TxnOk(s, id);
    var t := s.txns[id];
    if t.created {
      MoveKeepsInv(s, id, t.(phase := Locked, before := GRANT));
    } else if t.op.customer !in s.locks {
      AcquireKeepsInv(s, id, t.(phase := Locked, before := s.db[t.op.customer].balance));
    }
  }

  lemma NextKeepsInv(s: State, step: Step)
    requires Inv(s)
    ensures Inv(Next(s, step))
  {
    if step.Begin? {
      if step.id !in s.txns {
        var s' := Next(s, step);
        forall x | x in s'.txns ensures TxnOk(s', x) {
          assert x in s.txns ==> TxnOk(s, x);
        }
      }
    } else if step.id in s.txns && !Final(s.txns[step.id]) {
      var id := step.id;
      if step.Rollback? {
        AbortKeepsInv(s, id, None);
      } else {
        match s.txns[id].phase
        case Begun => EnsureKeepsInv(s, id);
        case NoWallet => EnsureKeepsInv(s, id);
        case Ensured => SelectForUpdateKeepsInv(s, id);
        case Locked => CheckKeepsInv(s, id);
        case Checked => UpdateBalanceKeepsInv(s, id);
        case Updated =>
          assert TxnOk(s, id);
          MoveKeepsInv(s, id, InsertRow(s, id).txns[id]);
        case Ready(_) => CommitKeepsInv(s, id);
      }
    }
  }

  /* ---- Serial order ---- */

  lemma ApplyCommutes(db: Db, a: Op, b: Op)
    requires a.customer != b.customer
    ensures Apply(Apply(db, a), b) == Apply(Apply(db, b), a)
  {
  }

  lemma SerialLast(db: Db, ops: seq<Op>, op: Op)
    ensures Serial(db, ops + [op]) == Apply(Serial(db, ops), op)
  {
    assert (ops + [op])[..|ops|] == ops;
  }

  lemma SerialSwap(db: Db, longer: seq<Op>, shorter: seq<Op>, op: Op, last: Op)
    requires op.customer != last.customer
    requires Serial(db, longer) == Apply(Serial(db, shorter), op)
    ensures Serial(db, longer + [last]) == Apply(Serial(db, shorter + [last]), op)
  {
    SerialLast(db, longer, last);
    SerialLast(db, shorter, last);
    ApplyCommutes(Serial(db, shorter), op, last);
  }

  lemma LastApart(a: seq<Op>, b: seq<Op>)
    requires b != []
    ensures a + b == (a + b[..|b| - 1]) + [b[|b| - 1]]
  {
  }

  /** Inserting an operation before others of other customers is running it last. */
  lemma {:induction false} SerialInsert(db: Db, pre: seq<Op>, op: Op, post: seq<Op>)
    requires forall o :: o in post ==> o.customer != op.customer
    ensures Serial(db, pre + [op] + post) == Apply(Serial(db, pre + post), op)
  {
    if post == [] {
      assert pre + [op] + post == pre + [op] && pre + post == pre;
      SerialLast(db, pre, op);
    } else {
      var init, last := post[..|post| - 1], post[|post| - 1];
      SerialInsert(db, pre, op, init);
      LastApart(pre + [op], post);
      LastApart(pre, post);
      SerialSwap(db, pre + [op] + init, pre + init, op, last);
    }
  }

  /** What one more operation does to each account. */
  lemma SerialLastAccount(db: Db, ops: seq<Op>, op: Op, c: Customer)
    ensures AccountOf(Serial(db, ops + [op]), c) ==
      if c == op.customer then Settle(AccountOf(Serial(db, ops), c), op) else AccountOf(Serial(db, ops), c)
  {
    SerialLast(db, ops, op);
    ApplyAccount(Serial(db, ops), op, c);
  }

  /** Inserting an operation of one customer is not seen by another. */
  lemma {:induction false} SerialInsertElsewhere(db: Db, pre: seq<Op>, op: Op, post: seq<Op>, c: Customer)
    requires op.customer != c
    ensures AccountOf(Serial(db, pre + [op] + post), c) == AccountOf(Serial(db, pre + post), c)
  {
    if post == [] {
      assert pre + [op] + post == pre + [op] && pre + post == pre;
      SerialLastAccount(db, pre, op, c);
    } else {
      var init, last := post[..|post| - 1], post[|post| - 1];
      SerialInsertElsewhere(db, pre, op, init, c);
      LastApart(pre + [op], post);
      LastApart(pre, post);
      SerialLastAccount(db, pre + [op] + init, last, c);
      SerialLastAccount(db, pre + init, last, c);
    }
  }

  lemma {:induction false} SerialElsewhere(db: Db, pre: seq<Op>, post: seq<Op>, c: Customer)
    requires forall op :: op in post ==> op.customer != c
    ensures AccountOf(Serial(db, pre + post), c) == AccountOf(Serial(db, pre), c)
  {
    if post == [] {
      assert pre + post == pre;
    } else {
      var init, last := post[..|post| - 1], post[|post| - 1];
      SerialElsewhere(db, pre, init, c);
      LastApart(pre, post);
      SerialLastAccount(db, pre + init, last, c);
    }
  }

  lemma {:induction false} CommittedOpsConcat(txns: map<TxnId, Txn>, a: seq<TxnId>, b: seq<TxnId>)
    ensures CommittedOps(txns, a + b) == CommittedOps(txns, a) + CommittedOps(txns, b)
  {
    if b == [] {
      assert a + b == a;
    } else {
      assert (a + b)[..|a + b| - 1] == a + b[..|b| - 1];
      CommittedOpsConcat(txns, a, b[..|b| - 1]);
    }
  }

  predicate SameCommits(txns: map<TxnId, Txn>, txns': map<TxnId, Txn>, order: seq<TxnId>) {
    forall i {:trigger order[i]} :: 0 <= i < |order| ==>
      order[i] in txns && order[i] in txns' && txns[order[i]].op == txns'[order[i]].op &&
      txns[order[i]].phase.Committed? == txns'[order[i]].phase.Committed?
  }

  lemma {:induction false} CommittedOpsFrame(txns: map<TxnId, Txn>, txns': map<TxnId, Txn>, order: seq<TxnId>)
    requires SameCommits(txns, txns', order)
    ensures CommittedOps(txns, order) == CommittedOps(txns', order)
  {
    if order == [] {
    } else {
      CommittedOpsFrame(txns, txns', order[..|order| - 1]);
    }
  }

  lemma {:induction false} CommittedOpsOthers(txns: map<TxnId, Txn>, order: seq<TxnId>, c: Customer)
    requires forall i :: 0 <= i < |order| ==> order[i] in txns && txns[order[i]].op.customer != c
    ensures forall i :: 0 <= i < |CommittedOps(txns, order)| ==> CommittedOps(txns, order)[i].customer != c
  {
    if order == [] {
    } else {
      CommittedOpsOthers(txns, order[..|order| - 1], c);
    }
  }

  /** Committing the transaction at place k inserts its operation there. */
  lemma CommittedOpsAtCommit(txns: map<TxnId, Txn>, txns': map<TxnId, Txn>, order: seq<TxnId>, k: nat)
    requires k < |order| && order[k] in txns && order[k] in txns'
    requires txns[order[k]].op == txns'[order[k]].op
    requires !txns[order[k]].phase.Committed? && txns'[order[k]].phase.Committed?
    requires SameCommits(txns, txns', order[..k]) && SameCommits(txns, txns', order[k + 1..])
    ensures var pre, post := CommittedOps(txns, order[..k]), CommittedOps(txns, order[k + 1..]);
            CommittedOps(txns, order) == pre + post &&
            CommittedOps(txns', order) == pre + [txns[order[k]].op] + post
  {
    var id := order[k];
    assert order == order[..k] + ([id] + order[k + 1..]);
    CommittedOpsConcat(txns, order[..k], [id] + order[k + 1..]);
    CommittedOpsConcat(txns, [id], order[k + 1..]);
    CommittedOpsConcat(txns', order[..k], [id] + order[k + 1..]);
    CommittedOpsConcat(txns', [id], order[k + 1..]);
    CommittedOpsFrame(txns, txns', order[..k]);
    CommittedOpsFrame(txns, txns', order[k + 1..]);
    assert CommittedOps(txns, [id]) == [] && CommittedOps(txns', [id]) == [txns[id].op];
  }

  /** The answer of the transaction at place p, whether it committed or rolled itself back,
      is the one it has in serial order; and it has committed exactly when that commits. */
  predicate OutcomeSerial(db: Db, s: State, p: nat)
    requires p < |s.order| && s.order[p] in s.txns
  {
    var t := s.txns[s.order[p]];
    Answer(t.phase).Some? ==>
      Answer(t.phase).value == OutcomeOf(Serial(db, CommittedOps(s.txns, s.order[..p])), t.op) &&
      (t.phase.Committed? <==> Commits(Answer(t.phase).value))
  }

  predicate SerialInv(db: Db, s: State) {
    OrderKnown(s) &&
    s.db == Serial(db, CommittedOps(s.txns, s.order)) &&
    forall p :: 0 <= p < |s.order| ==> OutcomeSerial(db, s, p)
  }

  /** s' is s with the transaction at place k committed. */
  predicate CommittedAt(s: State, s': State, k: nat)
    requires OrderKnown(s) && k < |s.order|
  {
    var t := s.txns[s.order[k]];
    t.phase.Ready? && t.phase.outcome == OutcomeOf(s.db, t.op) && Commits(t.phase.outcome) && s'.order == s.order &&
    s'.txns == s.txns[s.order[k] := t.(phase := Committed(t.phase.outcome))]
  }

  /** Committing at place k runs the operation last, and gives it the result it has there. */
  lemma CommitHere(db: Db, s: State, s': State, k: nat)
    requires OrderOk(s) && OrderKnown(s') && k < |s.order| && CommittedAt(s, s', k)
    requires s.db == Serial(db, CommittedOps(s.txns, s.order))
    ensures Serial(db, CommittedOps(s'.txns, s'.order)) == Apply(s.db, s.txns[s.order[k]].op)
    ensures OutcomeSerial(db, s', k)
  {
    var op := s.txns[s.order[k]].op;
    var pre, post := CommittedOps(s.txns, s.order[..k]), CommittedOps(s.txns, s.order[k + 1..]);
    CommitAround(s, s', k);
    SerialInsert(db, pre, op, post);
    SerialElsewhere(db, pre, post, op.customer);
  }

  /** The committed operations around place k: those after it, of other customers. */
  lemma CommitAround(s: State, s': State, k: nat)
    requires OrderOk(s) && OrderKnown(s') && k < |s.order| && CommittedAt(s, s', k)
    ensures var op := s.txns[s.order[k]].op;
            var pre, post := CommittedOps(s.txns, s.order[..k]), CommittedOps(s.txns, s.order[k + 1..]);
            CommittedOps(s.txns, s.order) == pre + post && CommittedOps(s'.txns, s.order) == pre + [op] + post &&
            CommittedOps(s'.txns, s.order[..k]) == pre && forall o :: o in post ==> o.customer != op.customer
  {
    CommittedOpsAtCommit(s.txns, s'.txns, s.order, k);
    CommittedOpsOthers(s.txns, s.order[k + 1..], s.txns[s.order[k]].op.customer);
    CommittedOpsFrame(s.txns, s'.txns, s.order[..k]);
  }

  /** ... and leaves the result of every other committed transaction as it was. */
  lemma CommitElsewhere(db: Db, s: State, s': State, k: nat, p: nat)
    requires OrderOk(s) && OrderKnown(s') && k < |s.order| && CommittedAt(s, s', k)
    requires p < |s.order| && p != k && OutcomeSerial(db, s, p)
    ensures OutcomeSerial(db, s', p)
  {
    var o := s.order[..p];
    if p < k {
      CommittedOpsFrame(s.txns, s'.txns, o);
    } else {
      CommittedOpsAtCommit(s.txns, s'.txns, o, k);
      SerialInsertElsewhere(db, CommittedOps(s.txns, o[..k]), s.txns[s.order[k]].op,
                            CommittedOps(s.txns, o[k + 1..]), s.txns[s.order[p]].op.customer);
    }
  }

  lemma CommitIsSerial(db: Db, s: State, id: TxnId)
    requires Inv(s) && SerialInv(db, s) && id in s.txns && s.txns[id].phase.Ready?
    ensures SerialInv(db, Commit(s, id))
  {
    assert TxnOk(s, id);
    var k :| 0 <= k < |s.order| && s.order[k] == id;
    CommitKeepsInv(s, id);
    CommitHere(db, s, Commit(s, id), k);
    forall p | 0 <= p < |s.order| && p != k ensures OutcomeSerial(db, Commit(s, id), p) {
      assert OutcomeSerial(db, s, p);
      CommitElsewhere(db, s, Commit(s, id), k, p);
    }
  }

  /** s' differs from s by something that commits nothing: the transaction id may have
      moved, or joined the end of the order. */
  predicate Quiet(s: State, s': State, id: TxnId) {
    s'.db == s.db && id in s'.txns && Answer(s'.txns[id].phase) == None &&
    s'.txns == s.txns[id := s'.txns[id]] &&
    (id in s.txns ==> !s.txns[id].phase.Committed? && s.txns[id].op == s'.txns[id].op) &&
    (s'.order == s.order || s'.order == s.order + [id])
  }

  /** s' is s with transaction id rolled back by itself, with the answer it has on the
      committed tables. */
  predicate Refuses(s: State, s': State, id: TxnId) {
    id in s.txns && HasAcquired(s.txns[id]) && s' == Abort(s, id, Some(OutcomeOf(s.db, s.txns[id].op))) &&
    !Commits(OutcomeOf(s.db, s.txns[id].op))
  }

  lemma CheckCases(s: State, id: TxnId)
    requires Inv(s) && id in s.txns && s.txns[id].phase == Locked
    ensures Quiet(s, Check(s, id), id) || Refuses(s, Check(s, id), id)
  {
    assert TxnOk(s, id);
  }

  lemma UpdateCases(s: State, id: TxnId)
    requires Inv(s) && id in s.txns && s.txns[id].phase == Checked
    ensures Quiet(s, UpdateBalance(s, id), id) || Refuses(s, UpdateBalance(s, id), id)
  {
    assert TxnOk(s, id);
  }

  /** Every step but a commit changes nothing, is quiet, or is a refusal. */
  lemma QuietStep(s: State, step: Step)
    requires Inv(s) && !(step.Advance? && step.id in s.txns && s.txns[step.id].phase.Ready?)
    ensures var s' := Next(s, step); s' == s || Quiet(s, s', step.id) || Refuses(s, s', step.id)
  {
    if step.Advance? && step.id in s.txns {
      assert TxnOk(s, step.id);
      match s.txns[step.id].phase
      case Locked => CheckCases(s, step.id);
      case Checked => UpdateCases(s, step.id);
      case _ =>
    }
  }

  lemma QuietOutcome(db: Db, s: State, s': State, id: TxnId, p: nat)
    requires OrderKnown(s) && OrderKnown(s') && Quiet(s, s', id) && p < |s'.order|
    requires p < |s.order| ==> OutcomeSerial(db, s, p)
    ensures OutcomeSerial(db, s', p)
  {
    if p < |s.order| {
      assert s'.order[..p] == s.order[..p];
      CommittedOpsFrame(s.txns, s'.txns, s.order[..p]);
    }
  }

  lemma QuietIsSerial(db: Db, s: State, s': State, id: TxnId)
    requires OrderKnown(s') && SerialInv(db, s) && Quiet(s, s', id)
    ensures SerialInv(db, s')
  {
    CommittedOpsFrame(s.txns, s'.txns, s.order);
    if s'.order != s.order {
      CommittedOpsConcat(s'.txns, s.order, [id]);
      assert CommittedOps(s'.txns, [id]) == [];
      assert CommittedOps(s.txns, s.order) + [] == CommittedOps(s.txns, s.order);
    }
    forall p | 0 <= p < |s'.order| ensures OutcomeSerial(db, s', p) {
      QuietOutcome(db, s, s', id, p);
    }
  }

  /** The committed operations around place k, whose transaction is still running. */
  lemma RunningAround(s: State, k: nat)
    requires OrderOk(s) && k < |s.order| && !Final(s.txns[s.order[k]])
    ensures var pre, post := CommittedOps(s.txns, s.order[..k]), CommittedOps(s.txns, s.order[k + 1..]);
            CommittedOps(s.txns, s.order) == pre + post &&
            forall o :: o in post ==> o.customer != s.txns[s.order[k]].op.customer
  {
    var rest := s.order[k + 1..];
    assert s.order == s.order[..k] + ([s.order[k]] + rest);
    CommittedOpsConcat(s.txns, s.order[..k], [s.order[k]] + rest);
    CommittedOpsConcat(s.txns, [s.order[k]], rest);
    assert CommittedOps(s.txns, [s.order[k]]) == [];
    assert [] + CommittedOps(s.txns, rest) == CommittedOps(s.txns, rest);
    CommittedOpsOthers(s.txns, rest, s.txns[s.order[k]].op.customer);
  }

  /** While a transaction holds its lock, its account is as it was at its place. */
  lemma AccountAtPlace(db: Db, s: State, k: nat)
    requires OrderOk(s) && k < |s.order| && !Final(s.txns[s.order[k]])
    requires s.db == Serial(db, CommittedOps(s.txns, s.order))
    ensures var c := s.txns[s.order[k]].op.customer;
            AccountOf(s.db, c) == AccountOf(Serial(db, CommittedOps(s.txns, s.order[..k])), c)
  {
    RunningAround(s, k);
    SerialElsewhere(db, CommittedOps(s.txns, s.order[..k]), CommittedOps(s.txns, s.order[k + 1..]),
                    s.txns[s.order[k]].op.customer);
  }

  lemma RefusalOutcome(db: Db, s: State, s': State, id: TxnId, k: nat, p: nat)
    requires OrderKnown(s) && OrderKnown(s') && Refuses(s, s', id) && p < |s.order| && OutcomeSerial(db, s, p)
    requires k < |s.order| && s.order[k] == id && (p != k ==> s.order[p] != id)
    requires OutcomeOf(s.db, s.txns[id].op) == OutcomeOf(Serial(db, CommittedOps(s.txns, s.order[..k])), s.txns[id].op)
    ensures OutcomeSerial(db, s', p)
  {
    CommittedOpsFrame(s.txns, s'.txns, s.order[..p]);
  }

  lemma RefusalIsSerial(db: Db, s: State, s': State, id: TxnId)
    requires Inv(s) && SerialInv(db, s) && OrderKnown(s') && Refuses(s, s', id)
    ensures SerialInv(db, s')
  {
    assert TxnOk(s, id);
    var k :| 0 <= k < |s.order| && s.order[k] == id;
    AccountAtPlace(db, s, k);
    CommittedOpsFrame(s.txns, s'.txns, s.order);
    forall p | 0 <= p < |s'.order| ensures OutcomeSerial(db, s', p) {
      assert OutcomeSerial(db, s, p);
      RefusalOutcome(db, s, s', id, k, p);
    }
  }

  predicate CommitsStep(s: State, s': State, id: TxnId) {
    id in s.txns && s.txns[id].phase.Ready? && s' == Commit(s, id)
  }

  lemma StepCases(s: State, step: Step)
    requires Inv(s)
    ensures var s' := Next(s, step);
            s' == s || CommitsStep(s, s', step.id) || Quiet(s, s', step.id) || Refuses(s, s', step.id)
  {
    if step.Advance? && step.id in s.txns && s.txns[step.id].phase.Ready? {
      assert Next(s, step) == Commit(s, step.id);
    } else {
      QuietStep(s, step);
    }
  }

  lemma NextIsSerial(db: Db, s: State, s': State, id: TxnId)
    requires Inv(s) && SerialInv(db, s) && OrderKnown(s')
    requires s' == s || CommitsStep(s, s', id) || Quiet(s, s', id) || Refuses(s, s', id)
    ensures SerialInv(db, s')
  {
    if CommitsStep(s, s', id) {
      CommitIsSerial(db, s, id);
    } else if Refuses(s, s', id) {
      RefusalIsSerial(db, s, s', id);
    } else if s' != s {
      QuietIsSerial(db, s, s', id);
    }
  }

  /** Serialisability: in every reachable state the committed wallets and ledger are those
      of the committed operations run one at a time in lock-acquisition order, and every
      committed call has returned what it returns there. */
  lemma {:induction false} Serialisable(db: Db, steps: seq<Step>)
    ensures var s := Run(Initial(db), steps);
            Inv(s) && SerialInv(db, s)
  {
    if steps == [] {
    } else {
      var before, step := Run(Initial(db), steps[..|steps| - 1]), steps[|steps| - 1];
      Serialisable(db, steps[..|steps| - 1]);
      NextKeepsInv(before, step);
      StepCases(before, step);
      NextIsSerial(db, before, Next(before, step), step.id);
    }
  }

  /** Hence what serial runs keep, every interleaving keeps: rows linked from one grant of
      100 credits to a balance that is never negative, and one refund row for each key. */
  lemma InterleavingsKeepLedger(db: Db, steps: seq<Step>)
    requires DbOk(db)
    ensures DbOk(Run(Initial(db), steps).db)
  {
    Serialisable(db, steps);
    var s := Run(Initial(db), steps);
    SerialKeepsOk(db, CommittedOps(s.txns, s.order));
  }

  lemma {:induction false} SerialSplit(db: Db, pre: seq<Op>, op: Op, post: seq<Op>)
    ensures Serial(db, pre + [op] + post) == Serial(Apply(Serial(db, pre), op), post)
  {
    if post == [] {
      assert pre + [op] + post == pre + [op];
      SerialLast(db, pre, op);
    } else {
      SerialSplit(db, pre, op, post[..|post| - 1]);
      LastApart(pre + [op], post);
      SerialLast(db, pre + [op] + post[..|post| - 1], post[|post| - 1]);
    }
  }

  predicate SameRefundKey(a: Op, b: Op) {
    a.RefundOp? && b.RefundOp? && a.customer == b.customer && a.refType == b.refType &&
    StoredReference(a.reference) == StoredReference(b.reference)
  }

  predicate CommittedPlace(s: State, p: nat) {
    p < |s.order| && s.order[p] in s.txns && s.txns[s.order[p]].phase.Committed?
  }

  /** The operations committed before place q, with the one at place p apart. */
  lemma CommittedBefore(s: State, p: nat, q: nat)
    requires OrderKnown(s) && CommittedPlace(s, p) && p < q < |s.order|
    ensures CommittedOps(s.txns, s.order[..q]) ==
      CommittedOps(s.txns, s.order[..p]) + [s.txns[s.order[p]].op] + CommittedOps(s.txns, s.order[p + 1..q])
  {
    var id := s.order[p];
    assert s.order[..q] == s.order[..p] + ([id] + s.order[p + 1..q]);
    CommittedOpsConcat(s.txns, s.order[..p], [id] + s.order[p + 1..q]);
    CommittedOpsConcat(s.txns, [id], s.order[p + 1..q]);
    assert CommittedOps(s.txns, [id]) == [s.txns[id].op];
  }

  /** At most one effective refund, in every interleaving: of two committed refund calls of
      one key, the one that acquired its lock later was answered with the balance it found,
      and changed nothing. */
  lemma OneRefundInterleaved(db: Db, steps: seq<Step>, p: nat, q: nat)
    requires var s := Run(Initial(db), steps);
             p < q && CommittedPlace(s, p) && CommittedPlace(s, q) &&
             SameRefundKey(s.txns[s.order[p]].op, s.txns[s.order[q]].op)
    ensures var s := Run(Initial(db), steps);
            var later := s.txns[s.order[q]];
            var found := Serial(db, CommittedOps(s.txns, s.order[..q]));
            later.op.customer in found &&
            later.phase.outcome == Duplicate(found[later.op.customer].balance) && Apply(found, later.op) == found
  {
    var s := Run(Initial(db), steps);
    Serialisable(db, steps);
    LaterIsDuplicate(db, s, p, q);
  }

  lemma LaterIsDuplicate(db: Db, s: State, p: nat, q: nat)
    requires Inv(s) && SerialInv(db, s) && p < q && CommittedPlace(s, p) && CommittedPlace(s, q)
    requires SameRefundKey(s.txns[s.order[p]].op, s.txns[s.order[q]].op)
    ensures var later := s.txns[s.order[q]];
            var found := Serial(db, CommittedOps(s.txns, s.order[..q]));
            later.op.customer in found &&
            later.phase.outcome == Duplicate(found[later.op.customer].balance) && Apply(found, later.op) == found
  {
    assert OutcomeSerial(db, s, p) && OutcomeSerial(db, s, q);
    assert TxnOk(s, s.order[p]);
    var pre, between := CommittedOps(s.txns, s.order[..p]), CommittedOps(s.txns, s.order[p + 1..q]);
    var first, again := s.txns[s.order[p]].op, s.txns[s.order[q]].op;
    CommittedBefore(s, p, q);
    SerialSplit(db, pre, first, between);
    RefundAtMostOnce(Serial(db, pre), first, between, again);
  }

  lemma NextGrows(s: State, step: Step, c: Customer)
    requires Inv(s) && c in s.db
    ensures c in Next(s, step).db && s.db[c].rows <= Next(s, step).db[c].rows
  {
    StepCases(s, step);
    if CommitsStep(s, Next(s, step), step.id) {
      assert TxnOk(s, step.id);
      CommitApplies(s, step.id);
      ApplyAccount(s.db, s.txns[step.id].op, c);
    }
  }

  /** A committed wallet is never created again and never loses a row, whatever runs, fails
      or is rolled back: with the link above, the grant is paid at most once to a customer. */
  lemma {:induction false} HistoryGrows(s: State, steps: seq<Step>, c: Customer)
    requires Inv(s) && c in s.db
    ensures Inv(Run(s, steps)) && c in Run(s, steps).db && s.db[c].rows <= Run(s, steps).db[c].rows
  {
    if steps == [] {
    } else {
      var before, step := Run(s, steps[..|steps| - 1]), steps[|steps| - 1];
      HistoryGrows(s, steps[..|steps| - 1], c);
      NextKeepsInv(before, step);
      NextGrows(before, step, c);
    }
  }

  /** In every reachable state, a transaction that has rolled itself back answered what its
      operation answers on the serial ledger at its place, and that is a refusal. */
  lemma RefusalsAreSerial(db: Db, steps: seq<Step>, id: TxnId)
    requires id in Run(Initial(db), steps).txns && Run(Initial(db), steps).txns[id].phase.Aborted?
    requires Run(Initial(db), steps).txns[id].phase.reason.Some?
    ensures var s := Run(Initial(db), steps);
            var t := s.txns[id];
            exists p :: 0 <= p < |s.order| && s.order[p] == id &&
              t.phase.reason.value == OutcomeOf(Serial(db, CommittedOps(s.txns, s.order[..p])), t.op) &&
              !Commits(t.phase.reason.value)
  {
    Serialisable(db, steps);
    var s := Run(Initial(db), steps);
    assert TxnOk(s, id);
    var p :| 0 <= p < |s.order| && s.order[p] == id;
    assert OutcomeSerial(db, s, p);
  }

  /** The "Wallet not found" branch is unreachable: no transaction ever ends there. */
  lemma WalletAlwaysFound(db: Db, steps: seq<Step>, id: TxnId)
    ensures var s := Run(Initial(db), steps);
            id in s.txns ==> s.txns[id].phase != Aborted(Some(WalletNotFound))
  {
    Serialisable(db, steps);
    var s := Run(Initial(db), steps);
    assert id in s.txns ==> TxnOk(s, id);
  }

  /* ---- One transaction alone ---- */

  /** From place i of the trace, transaction id runs its next statement. */
  predicate StepAt(trace: seq<State>, id: TxnId, i: nat)
    requires i + 1 < |trace|
  {
    trace[i + 1] == Next(trace[i], Advance(id))
  }

  /** Transaction id alone, statement by statement, and nothing once it has ended. */
  predicate Alone(trace: seq<State>, id: TxnId) {
    trace != [] && forall i: nat :: i + 1 < |trace| ==> StepAt(trace, id, i)
  }

  function Last(trace: seq<State>): State
    requires trace != []
  {
    trace[|trace| - 1]
  }

  /** The transaction has ended with the outcome of its operation on db, and the tables are
      those after that operation. */
  predicate Ends(db: Db, op: Op, s: State, id: TxnId) {
    id in s.txns && s.db == Apply(db, op) &&
    s.txns[id].phase == if Commits(OutcomeOf(db, op)) then Committed(OutcomeOf(db, op)) else Aborted(Some(OutcomeOf(db, op)))
  }

  lemma {:induction false} FinalStays(trace: seq<State>, id: TxnId, i: nat)
    requires Alone(trace, id) && i < |trace| && id in trace[i].txns && Final(trace[i].txns[id])
    ensures Last(trace) == trace[i]
    decreases |trace| - i
  {
    if i == |trace| - 1 {
    } else {
      assert StepAt(trace, id, i);
      FinalStays(trace, id, i + 1);
    }
  }

  /** A statement that leaves the tables and the operation alone. */
  predicate Moves(s: State, s': State, id: TxnId) {
    Inv(s') && id in s.txns && id in s'.txns && s'.db == s.db && s'.txns[id].op == s.txns[id].op
  }

  lemma RefusalEnds(s: State, s': State, id: TxnId)
    requires Refuses(s, s', id)
    ensures id in s'.txns && Final(s'.txns[id]) && Ends(s.db, s.txns[id].op, s', id)
  {
  }

  lemma ReadyEnds(trace: seq<State>, id: TxnId, i: nat)
    requires Alone(trace, id) && i + 1 < |trace| && Inv(trace[i]) && id in trace[i].txns && trace[i].txns[id].phase.Ready?
    ensures Ends(trace[i].db, trace[i].txns[id].op, Last(trace), id)
  {
    assert StepAt(trace, id, i);
    assert TxnOk(trace[i], id);
    CommitApplies(trace[i], id);
    FinalStays(trace, id, i + 1);
  }

  lemma UpdatedNext(s: State, id: TxnId, s': State)
    requires Inv(s) && id in s.txns && s.txns[id].phase == Updated && s' == Next(s, Advance(id))
    ensures Moves(s, s', id) && s'.txns[id].phase.Ready?
  {
    assert TxnOk(s, id);
    MoveKeepsInv(s, id, InsertRow(s, id).txns[id]);
  }

  lemma UpdatedEnds(trace: seq<State>, id: TxnId, i: nat)
    requires Alone(trace, id) && i + 2 < |trace| && Inv(trace[i]) && id in trace[i].txns && trace[i].txns[id].phase == Updated
    ensures Ends(trace[i].db, trace[i].txns[id].op, Last(trace), id)
  {
    assert StepAt(trace, id, i);
    UpdatedNext(trace[i], id, trace[i + 1]);
    ReadyEnds(trace, id, i + 1);
  }

  lemma CheckedNext(s: State, id: TxnId, s': State)
    requires Inv(s) && id in s.txns && s.txns[id].phase == Checked && s' == Next(s, Advance(id))
    ensures Moves(s, s', id) && (s'.txns[id].phase == Updated || Refuses(s, s', id))
  {
    UpdateCases(s, id);
    UpdateBalanceKeepsInv(s, id);
  }

  lemma CheckedEnds(trace: seq<State>, id: TxnId, i: nat)
    requires Alone(trace, id) && i + 3 < |trace| && Inv(trace[i]) && id in trace[i].txns && trace[i].txns[id].phase == Checked
    ensures Ends(trace[i].db, trace[i].txns[id].op, Last(trace), id)
  {
    assert StepAt(trace, id, i);
    CheckedNext(trace[i], id, trace[i + 1]);
    if Refuses(trace[i], trace[i + 1], id) {
      RefusalEnds(trace[i], trace[i + 1], id);
      FinalStays(trace, id, i + 1);
    } else {
      UpdatedEnds(trace, id, i + 1);
    }
  }

  lemma CheckPhases(s: State, id: TxnId)
    requires id in s.txns
    ensures var s' := Check(s, id); var t := s'.txns[id];
            s'.db == s.db && t.op == s.txns[id].op && (t.phase == Checked || t.phase.Ready? || t.phase.Aborted?)
  {
  }

  lemma LockedNext(s: State, id: TxnId, s': State)
    requires Inv(s) && id in s.txns && s.txns[id].phase == Locked && s' == Check(s, id)
    ensures Moves(s, s', id) && (s'.txns[id].phase == Checked || s'.txns[id].phase.Ready? || Refuses(s, s', id))
  {
    CheckKeepsInv(s, id);
    CheckCases(s, id);
    CheckPhases(s, id);
  }

  lemma LockedEnds(trace: seq<State>, id: TxnId, i: nat)
    requires Alone(trace, id) && i + 4 < |trace| && Inv(trace[i]) && id in trace[i].txns && trace[i].txns[id].phase == Locked
    ensures Ends(trace[i].db, trace[i].txns[id].op, Last(trace), id)
  {
    assert StepAt(trace, id, i);
    LockedNext(trace[i], id, trace[i + 1]);
    if Refuses(trace[i], trace[i + 1], id) {
      RefusalEnds(trace[i], trace[i + 1], id);
      FinalStays(trace, id, i + 1);
    } else if trace[i + 1].txns[id].phase.Ready? {
      ReadyEnds(trace, id, i + 1);
    } else {
      CheckedEnds(trace, id, i + 1);
    }
  }

  lemma EnsuredNext(s: State, id: TxnId, s': State)
    requires Inv(s) && id in s.txns && s.txns[id].phase == Ensured && s' == Next(s, Advance(id))
    requires s.txns[id].created || s.txns[id].op.customer !in s.locks
    ensures Moves(s, s', id) && s'.txns[id].phase == Locked
  {
    assert TxnOk(s, id);
    SelectForUpdateKeepsInv(s, id);
  }

  lemma EnsuredEnds(trace: seq<State>, id: TxnId, i: nat)
    requires Alone(trace, id) && i + 5 < |trace| && Inv(trace[i]) && id in trace[i].txns && trace[i].txns[id].phase == Ensured
    requires trace[i].txns[id].created || trace[i].txns[id].op.customer !in trace[i].locks
    ensures Ends(trace[i].db, trace[i].txns[id].op, Last(trace), id)
  {
    assert StepAt(trace, id, i);
    EnsuredNext(trace[i], id, trace[i + 1]);
    LockedEnds(trace, id, i + 1);
  }

  predicate Free(s: State, id: TxnId) {
    id in s.txns && s.txns[id].op.customer !in s.locks
  }

  lemma BegunNext(s: State, id: TxnId, s': State)
    requires Inv(s) && Free(s, id) && s.txns[id].phase == Begun && s' == Next(s, Advance(id))
    ensures Moves(s, s', id) && Free(s', id) && (s'.txns[id].phase == Ensured || s'.txns[id].phase == NoWallet)
    ensures s'.txns[id].phase == NoWallet ==> s'.txns[id].op.customer !in s'.db
  {
    EnsureKeepsInv(s, id);
  }

  lemma NoWalletNext(s: State, id: TxnId, s': State)
    requires Inv(s) && Free(s, id) && s.txns[id].phase == NoWallet && s' == Next(s, Advance(id))
    requires s.txns[id].op.customer !in s.db
    ensures Moves(s, s', id) && s'.txns[id].phase == Ensured && s'.txns[id].created
  {
    EnsureKeepsInv(s, id);
  }

  lemma BegunEnds(trace: seq<State>, id: TxnId)
    requires Alone(trace, id) && 7 < |trace| && Inv(trace[0]) && Free(trace[0], id) && trace[0].txns[id].phase == Begun
    ensures Ends(trace[0].db, trace[0].txns[id].op, Last(trace), id)
  {
    assert StepAt(trace, id, 0);
    BegunNext(trace[0], id, trace[1]);
    if trace[1].txns[id].phase == Ensured {
      EnsuredEnds(trace, id, 1);
    } else {
      assert StepAt(trace, id, 1);
      NoWalletNext(trace[1], id, trace[2]);
      EnsuredEnds(trace, id, 2);
    }
  }

  /** From any reachable state, an operation whose wallet nobody holds, begun and run alone
      without a roll-back from outside, ends within seven statements with the outcome and
      the tables of the whole operation. */
  lemma AloneEnds(db: Db, steps: seq<Step>, id: TxnId, op: Op, trace: seq<State>)
    requires var s := Run(Initial(db), steps);
             id !in s.txns && op.customer !in s.locks && Alone(trace, id) && trace[0] == Next(s, Begin(id, op))
    requires 7 < |trace|
    ensures Ends(Run(Initial(db), steps).db, op, Last(trace), id)
  {
    Serialisable(db, steps);
    NextKeepsInv(Run(Initial(db), steps), Begin(id, op));
    BegunEnds(trace, id);
  }
}
