/** The wallet shared by every screen: one balance, seeded at 100000, and a
    transaction history kept newest first. Credits always succeed; debits
    (expenses and transfers) succeed only when the balance covers them. */
module WalletContext {

  datatype Kind = Income | Expense | Transfer

  /** `id` and `timestamp` come from the clock (`Date.now()`, `new Date()`)
      and are supplied by the caller. */
  datatype Transaction = Transaction(id: string, kind: Kind, amount: real, description: string, timestamp: int)

  const StartingBalance: real := 100000.0

  /** What one transaction does to the balance. */
  function Effect(t: Transaction): real
  {
    if t.kind == Income then t.amount else -t.amount
  }

  /** Total effect of a history on the balance. */
  function Net(h: seq<Transaction>): real
  {
    if h == [] then 0.0 else Effect(h[0]) + Net(h[1..])
  }

  /** The balance after a history, when the wallet started at the seed. */
  function BalanceAfter(h: seq<Transaction>): real
  {
    StartingBalance + Net(h)
  }

  function IncomeTotal(h: seq<Transaction>): real
  {
    if h == [] then 0.0 else (if h[0].kind == Income then h[0].amount else 0.0) + IncomeTotal(h[1..])
  }

  function OutflowTotal(h: seq<Transaction>): real
  {
    if h == [] then 0.0 else (if h[0].kind != Income then h[0].amount else 0.0) + OutflowTotal(h[1..])
  }

  /** A history the wallet can produce: every debit, when it was recorded,
      was covered by the balance at that moment (the newest entry is h[0]). */
  ghost predicate Reachable(h: seq<Transaction>)
  {
    h == [] ||
    (Reachable(h[1..]) && (h[0].kind == Income || BalanceAfter(h[1..]) >= h[0].amount))
  }

  ghost predicate CreditsNonNegative(h: seq<Transaction>)
  {
    forall i :: 0 <= i < |h| && h[i].kind == Income ==> h[i].amount >= 0.0
  }

  /** The balance is the seed plus all income minus all expenses and transfers. */
  lemma {:induction false} NetIsIncomeMinusOutflow(h: seq<Transaction>)
    ensures BalanceAfter(h) == StartingBalance + IncomeTotal(h) - OutflowTotal(h)
  {
    if h != [] {
      NetIsIncomeMinusOutflow(h[1..]);
    }
  }

  /** When no credited amount is negative, no balance the wallet ever held
      is negative: every earlier state h[k..] is covered, not just the last. */
  lemma {:induction false} BalanceNeverNegative(h: seq<Transaction>)
    requires Reachable(h)
    requires CreditsNonNegative(h)
    ensures forall k :: 0 <= k <= |h| ==> BalanceAfter(h[k..]) >= 0.0
  {
    if h != [] {
      assert CreditsNonNegative(h[1..]) by {
        forall i | 0 <= i < |h[1..]| && h[1..][i].kind == Income
          ensures h[1..][i].amount >= 0.0
        {
          assert h[1..][i] == h[i + 1];
        }
      }
      BalanceNeverNegative(h[1..]);
      forall k | 1 <= k <= |h|
        ensures BalanceAfter(h[k..]) >= 0.0
      {
        assert h[k..] == h[1..][k - 1..];
      }
      assert h[0..] == h;
      assert BalanceAfter(h) == Effect(h[0]) + BalanceAfter(h[1..]);
    }
  }

  /** Whatever the credits, a balance right after a successful debit is never negative. */
  lemma DebitLeavesNonNegative(h: seq<Transaction>)
    requires Reachable(h) && h != [] && h[0].kind != Income
    ensures BalanceAfter(h) >= 0.0
  {
    assert BalanceAfter(h) == BalanceAfter(h[1..]) - h[0].amount;
  }

  class WalletAccount {
    var balance: real
    var transactions: seq<Transaction>

    /** The balance is always the one the history explains, and the history
        is one the guarded operations can produce. */
    ghost predicate Valid()
      reads this
    {
      Reachable(transactions) && balance == BalanceAfter(transactions)
    }

    constructor ()
      ensures Valid()
      ensures balance == StartingBalance && transactions == []
    {
      balance := StartingBalance;
      transactions := [];
    }

    /** Records one transaction at the head of the history. */
    method AddTransaction(kind: Kind, amount: real, description: string, id: string, timestamp: int)
      modifies this`transactions
      ensures transactions == [Transaction(id, kind, amount, description, timestamp)] + old(transactions)
    {
      var transaction := Transaction(id, kind, amount, description, timestamp);
      transactions := [transaction] + transactions;
    }

    method AddIncome(amount: real, description: string, id: string, timestamp: int)
      requires Valid()
      modifies this
      ensures Valid()
      ensures balance == old(balance) + amount
      ensures transactions == [Transaction(id, Income, amount, description, timestamp)] + old(transactions)
      ensures amount >= 0.0 && old(balance) >= 0.0 ==> balance >= 0.0
    {
      balance := balance + amount;
      AddTransaction(Income, amount, description, id, timestamp);
    }

    /** The guarded debit shared by `deductExpense` and `transferMoney`. */
    method Debit(kind: Kind, amount: real, description: string, id: string, timestamp: int) returns (success: bool)
      requires Valid()
      requires kind != Income
      modifies this
      ensures Valid()
      ensures success <==> old(balance) >= amount
      ensures success ==> balance == old(balance) - amount && balance >= 0.0
      ensures success ==> transactions == [Transaction(id, kind, amount, description, timestamp)] + old(transactions)
      ensures !success ==> balance == old(balance) && transactions == old(transactions)
    {
      if balance >= amount {
        balance := balance - amount;
        AddTransaction(kind, amount, description, id, timestamp);
        return true;
      }
      return false;
    }

    method DeductExpense(amount: real, description: string, id: string, timestamp: int) returns (success: bool)
      requires Valid()
      modifies this
      ensures Valid()
      ensures success <==> old(balance) >= amount
      ensures success ==> balance == old(balance) - amount && balance >= 0.0
      ensures success ==> transactions == [Transaction(id, Expense, amount, description, timestamp)] + old(transactions)
      ensures !success ==> balance == old(balance) && transactions == old(transactions)
    {
      success := Debit(Expense, amount, description, id, timestamp);
    }

    method TransferMoney(amount: real, description: string, id: string, timestamp: int) returns (success: bool)
      requires Valid()
      modifies this
      ensures Valid()
      ensures success <==> old(balance) >= amount
      ensures success ==> balance == old(balance) - amount && balance >= 0.0
      ensures success ==> transactions == [Transaction(id, Transfer, amount, description, timestamp)] + old(transactions)
      ensures !success ==> balance == old(balance) && transactions == old(transactions)
    {
      success := Debit(Transfer, amount, description, id, timestamp);
    }
  }

  /** Scenario: on a fresh wallet, an expense larger than the seed is
      refused, and the balance and the (empty) history stay as they were. */
  method ScenarioOverdraftRefused() returns (ok: bool, balance: real, history: seq<Transaction>)
    ensures !ok && balance == StartingBalance && history == []
  {
    var w := new WalletAccount();
    ok := w.DeductExpense(150000.0, "Rent", "t0", 0);
    balance, history := w.balance, w.transactions;
  }

  /** Scenario: income of 5000 and then an expense of 2000 leave 103000,
      with the expense newest and the income below it. */
  method ScenarioIncomeThenExpense() returns (ok: bool, balance: real, history: seq<Transaction>)
    ensures ok && balance == 103000.0
    ensures history == [Transaction("t2", Expense, 2000.0, "Food", 2), Transaction("t1", Income, 5000.0, "Salary", 1)]
  {
    var w := new WalletAccount();
    w.AddIncome(5000.0, "Salary", "t1", 1);
    ok := w.DeductExpense(2000.0, "Food", "t2", 2);
    balance, history := w.balance, w.transactions;
  }
}
