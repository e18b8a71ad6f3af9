/** The wallet service over its two tables, each call run without interruption. Every
    method is one database transaction: it works on the tables statement by statement and
    puts them back when it throws. */
module WalletService {
  import opened Prelude
  import opened Money
  import opened References
  import opened Ledger

  class WalletService {
    var wallets: map<Customer, real>                 // wallets.balance by customer_id
    var walletTransactions: map<Customer, seq<Row>>  // rows by the wallet's customer

    ghost predicate Valid() reads this {
      wallets.Keys == walletTransactions.Keys
    }

    ghost function View(): (db: Db)
      requires Valid()
      reads this
    {
      map c | c in wallets :: Account(wallets[c], walletTransactions[c])
    }

    constructor ()
      ensures Valid() && View() == map[]
    {
      wallets, walletTransactions := map[], map[];
    }

    method GetOrCreateWallet(customerId: Customer) returns (balance: real)
      requires Valid()
      modifies this
      ensures Valid() && customerId in wallets && balance == wallets[customerId]
      ensures Account(balance, walletTransactions[customerId]) == AccountOf(old(View()), customerId)
      ensures View() == old(View())[customerId := AccountOf(old(View()), customerId)]
    {
      if customerId !in wallets {
        wallets := wallets[customerId := GRANT];
        walletTransactions := walletTransactions[customerId := []];
      }
      balance := wallets[customerId];
    }

    /** The duplicate check of `refundCredits`: a scan of the wallet's rows. */
    method FindRefund(customerId: Customer, refType: string, refId: Option<string>) returns (found: bool)
      requires Valid() && customerId in wallets
      ensures found == HasRefund(walletTransactions[customerId], refType, refId)
    {
      var rows := walletTransactions[customerId];
      for i := 0 to |rows|
        invariant forall j :: 0 <= j < i ==> !IsRefund(rows[j], refType, refId)
      {
        if IsRefund(rows[i], refType, refId) {
          return true;
        }
      }
      return false;
    }

    /** The last two statements of every posting transaction: update the balance, refused
        by the check constraint when negative, and insert the row. */
    method UpdateAndInsert(customerId: Customer, kind: Kind, amount: real, before: real, after: real,
                           refType: string, refId: Option<string>)
      returns (ok: bool)
      requires Valid() && customerId in wallets
      modifies this
      ensures Valid() && ok == (0.0 <= after)
      ensures ok ==> View() == old(View())[customerId :=
        Account(after, old(walletTransactions)[customerId] + [Row(kind, amount, before, after, refType, refId)])]
      ensures !ok ==> wallets == old(wallets) && walletTransactions == old(walletTransactions)
    {
      if after < 0.0 {
        return false;
      }
      wallets := wallets[customerId := after];
      walletTransactions := walletTransactions[customerId :=
        walletTransactions[customerId] + [Row(kind, amount, before, after, refType, refId)]];
      return true;
    }

    method DeductCreditsAtomic(customerId: Customer, cost: real, referenceType: string, referenceId: string)
      returns (r: Outcome)
      requires Valid()
      modifies this
      ensures Valid() && View() == Apply(old(View()), DeductOp(customerId, cost, referenceType, referenceId))
      ensures r == OutcomeOf(old(View()), DeductOp(customerId, cost, referenceType, referenceId))
    {
      var wallets0, rows0 := wallets, walletTransactions;
      ghost var db := View();
      var balanceBefore := GetOrCreateWallet(customerId);
      if balanceBefore < cost {
        wallets, walletTransactions := wallets0, rows0;
        assert View() == db;
        return InsufficientFunds(balanceBefore, cost);
      }
      var balanceAfter := RoundTo4(balanceBefore - cost);
      RoundNonNegative(balanceBefore - cost);
      var _ := UpdateAndInsert(customerId, Debit, cost, balanceBefore, balanceAfter,
                               referenceType, StoredReference(referenceId));
      return Posted(balanceAfter);
    }

    method RefundCredits(customerId: Customer, cost: real, referenceType: string, referenceId: string)
      returns (r: Outcome)
      requires Valid()
      modifies this
      ensures Valid() && View() == Apply(old(View()), RefundOp(customerId, cost, referenceType, referenceId))
      ensures r == OutcomeOf(old(View()), RefundOp(customerId, cost, referenceType, referenceId))
    {
      var wallets0, rows0 := wallets, walletTransactions;
      ghost var db := View();
      var balanceBefore := GetOrCreateWallet(customerId);
      var validRefId := StoredReference(referenceId);
      var existingRefund := FindRefund(customerId, referenceType, validRefId);
      if existingRefund {
        return Duplicate(balanceBefore);
      }
      var balanceAfter := RoundTo4(balanceBefore + cost);
      var ok := UpdateAndInsert(customerId, Refund, cost, balanceBefore, balanceAfter, referenceType, validRefId);
      if !ok {
        wallets, walletTransactions := wallets0, rows0;
        assert View() == db;
        return CheckViolation;
      }
      return Posted(balanceAfter);
    }

    method TopupWallet(customerId: Customer, amount: real, referenceId: string) returns (r: Outcome)
      requires Valid()
      modifies this
      ensures Valid() && View() == Apply(old(View()), TopUpOp(customerId, amount, referenceId))
      ensures r == OutcomeOf(old(View()), TopUpOp(customerId, amount, referenceId))
    {
      var wallets0, rows0 := wallets, walletTransactions;
      ghost var db := View();
      var balanceBefore := GetOrCreateWallet(customerId);
      var balanceAfter := RoundTo4(balanceBefore + amount);
      var ok := UpdateAndInsert(customerId, Credit, amount, balanceBefore, balanceAfter,
                                "payment", StoredReference(referenceId));
      if !ok {
        wallets, walletTransactions := wallets0, rows0;
        assert View() == db;
        return CheckViolation;
      }
      return Posted(balanceAfter);
    }
  }
}
