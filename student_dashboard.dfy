/** The student dashboard's savings goals and its quick expense entry, which
    spends from the shared wallet and keeps a local expense list beside it. */
module StudentDashboard {
  import opened Seqs
  import W = WalletContext

  /** `target` is whatever `parseInt` made of the typed target: `None`
      stands for `NaN`. */
  datatype Goal = Goal(id: string, name: string, target: Option<int>, current: int, category: string)

  /** `date` is the `YYYY-MM-DD` part of the clock's ISO timestamp. */
  datatype Expense = Expense(id: string, amount: int, category: string, date: string, description: string)

  datatype GoalForm = GoalForm(name: string, target: string, category: string)

  datatype ExpenseForm = ExpenseForm(amount: string, category: string, description: string)

  const EmptyGoalForm := GoalForm("", "", "")

  const EmptyExpenseForm := ExpenseForm("", "Food", "")

  const DefaultCategory := "General"

  function CategoryOrDefault(category: string): string
  {
    if category == "" then DefaultCategory else category
  }

  /** Adds a goal with nothing saved yet when the name and the target were
      both typed, and clears the form; otherwise nothing changes. */
  function AddGoal(goals: seq<Goal>, form: GoalForm, freshId: string, target: Option<int>): (r: (seq<Goal>, GoalForm))
    ensures form.name == "" || form.target == "" ==> r == (goals, form)
    ensures form.name != "" && form.target != "" ==>
              |r.0| == |goals| + 1 && r.0[..|goals|] == goals && r.1 == EmptyGoalForm &&
              r.0[|goals|].id == freshId && r.0[|goals|].name == form.name &&
              r.0[|goals|].target == target && r.0[|goals|].current == 0 &&
              (form.category == "" ==> r.0[|goals|].category == DefaultCategory) &&
              (form.category != "" ==> r.0[|goals|].category == form.category)
  {
    if form.name != "" && form.target != "" then
      var goals' := goals + [Goal(freshId, form.name, target, 0, CategoryOrDefault(form.category))];
      assert goals'[..|goals|] == goals;
      (goals', EmptyGoalForm)
    else (goals, form)
  }

  lemma HalfOfPositive(c: real, t: real)
    requires t > 0.0
    ensures c / t > 0.5 <==> 2.0 * c > t
  {
    var q := c / t;
    assert q * t == c;
    if q > 0.5 {
      assert (q - 0.5) * t > 0.0;
    } else {
      assert (0.5 - q) * t >= 0.0;
    }
  }

  lemma HalfOfNegative(c: real, t: real)
    requires t < 0.0
    ensures c / t > 0.5 <==> 2.0 * c < t
  {
    var q := c / t;
    assert q * t == c;
    if q > 0.5 {
      assert (q - 0.5) * -t > 0.0;
    } else {
      assert (0.5 - q) * -t >= 0.0;
    }
  }

  /** Whether more than half of the target is saved, as `current / target
      > 0.5` comes out under JavaScript's number rules: a `NaN` target
      compares false; a zero target gives plus infinity when something is
      saved, `NaN` when nothing is, minus infinity below zero; and a negative
      target flips the comparison. */
  predicate NearlyDone(g: Goal)
    ensures NearlyDone(g) ==> g.target.Some?
    ensures g.target == Some(0) ==> (NearlyDone(g) <==> g.current > 0)
    ensures g.target.Some? && g.target.value > 0 ==> (NearlyDone(g) <==> 2 * g.current > g.target.value)
    ensures g.target.Some? && g.target.value < 0 ==> (NearlyDone(g) <==> 2 * g.current < g.target.value)
  {
    match g.target
    case None => false
    case Some(t) =>
      if t == 0 then g.current > 0
      else if t > 0 then
        HalfOfPositive(g.current as real, t as real);
        (g.current as real) / (t as real) > 0.5
      else
        HalfOfNegative(g.current as real, t as real);
        (g.current as real) / (t as real) > 0.5
  }

  /** The number of goals that are nearly done, counted one goal at a
      time: the reference for the count on the goals card. */
  function CountNearlyDone(goals: seq<Goal>): nat
  {
    if goals == [] then 0 else (if NearlyDone(goals[0]) then 1 else 0) + CountNearlyDone(goals[1..])
  }

  lemma {:induction false} FilterCountsNearlyDone(goals: seq<Goal>)
    ensures |Filter(goals, NearlyDone)| == CountNearlyDone(goals)
  {
    if goals != [] {
      FilterCountsNearlyDone(goals[1..]);
    }
  }

  /** The "near completion" count on the goals card: every goal that is
      nearly done, duplicates included, and no other. */
  function NearCompletion(goals: seq<Goal>): (n: nat)
    ensures n == CountNearlyDone(goals)
    ensures n <= |goals|
  {
    FilterCountsNearlyDone(goals);
    |Filter(goals, NearlyDone)|
  }

  /** A goal just added has nothing saved, so it never changes the count. */
  lemma AddGoalKeepsNearCompletion(goals: seq<Goal>, form: GoalForm, freshId: string, target: Option<int>)
    ensures NearCompletion(AddGoal(goals, form, freshId, target).0) == NearCompletion(goals)
  {
    if form.name != "" && form.target != "" {
      var g := Goal(freshId, form.name, target, 0, CategoryOrDefault(form.category));
      assert !NearlyDone(g);
      FilterConcat(goals, [g], NearlyDone);
      assert Filter([g], NearlyDone) == [] + Filter([g][1..], NearlyDone);
      assert [g][1..] == [];
    }
  }

  /** Total of the local expense list. */
  function Spent(es: seq<Expense>): int
  {
    if es == [] then 0 else es[0].amount + Spent(es[1..])
  }

  function WalletNote(form: ExpenseForm): string
  {
    form.category + ": " + form.description
  }

  /** The quick expense entry. Nothing happens unless an amount and a
      description were typed. The parsed amount is then debited from the
      wallet (a `NaN` amount compares false and is refused); only when the
      debit goes through is the expense put at the head of the local list
      and the form reset, so the local total and the wallet balance move
      by the same amount. */
  method AddExpense(wallet: W.WalletAccount, expenses: seq<Expense>, form: ExpenseForm,
                    parsed: Option<int>, txId: string, expenseId: string, timestamp: int, today: string)
    returns (expenses': seq<Expense>, form': ExpenseForm, success: bool)
    requires wallet.Valid()
    modifies wallet
    ensures wallet.Valid()
    ensures success ==> form.amount != "" && form.description != "" && parsed.Some?
    ensures form.amount != "" && form.description != "" && parsed.Some? ==>
              (success <==> old(wallet.balance) >= parsed.value as real)
    ensures success ==>
              wallet.balance == old(wallet.balance) - parsed.value as real &&
              wallet.transactions == [W.Transaction(txId, W.Expense, parsed.value as real, WalletNote(form), timestamp)] + old(wallet.transactions) &&
              expenses' == [Expense(expenseId, parsed.value, form.category, today, form.description)] + expenses &&
              form' == EmptyExpenseForm
    ensures !success ==>
              wallet.balance == old(wallet.balance) && wallet.transactions == old(wallet.transactions) &&
              expenses' == expenses && form' == form
    ensures (Spent(expenses') - Spent(expenses)) as real == old(wallet.balance) - wallet.balance
  {
    expenses', form', success := expenses, form, false;
    if form.amount != "" && form.description != "" {
      if parsed.Some? {
        var amount := parsed.value;
        success := wallet.DeductExpense(amount as real, WalletNote(form), txId, timestamp);
        if success {
          var expense := Expense(expenseId, amount, form.category, today, form.description);
          expenses' := [expense] + expenses;
          form' := EmptyExpenseForm;
          assert expenses'[1..] == expenses;
        }
      }
    }
  }
}
