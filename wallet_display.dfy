/** The wallet card: the five newest transactions and today's inflow and
    outflow. Whether a transaction is from today depends on the clock, so it
    is a predicate the caller supplies. */
module WalletDisplay {
  import opened Seqs
  import opened WalletContext

  const RecentCount: nat := 5

  function Amount(t: Transaction): real { t.amount }
  predicate IsIncome(t: Transaction) { t.kind == Income }
  predicate IsOutflow(t: Transaction) { t.kind == Expense || t.kind == Transfer }

  /** The five newest transactions (the history is kept newest first), or
      all of them when there are fewer. */
  function RecentTransactions(h: seq<Transaction>): (r: seq<Transaction>)
    ensures |r| == if |h| < RecentCount then |h| else RecentCount
    ensures forall i :: 0 <= i < |r| ==> r[i] == h[i]
  {
    if |h| < RecentCount then h else h[..RecentCount]
  }

  /** The transactions dated today: each one is from the history and from
      today, and every transaction of today is there. */
  function TodayTransactions(h: seq<Transaction>, isToday: Transaction -> bool): (r: seq<Transaction>)
    ensures |r| <= |h|
    ensures forall i :: 0 <= i < |r| ==> r[i] in h && isToday(r[i])
    ensures forall i :: 0 <= i < |h| && isToday(h[i]) ==> h[i] in r
  {
    Filter(h, isToday)
  }

  /** Today's income counts exactly the same-day `income` transactions. */
  function TodayIncome(h: seq<Transaction>, isToday: Transaction -> bool): (r: real)
    ensures r == TodayAmount(h, isToday, IsIncome)
  {
    FilteredSumIsTodayAmount(h, isToday, IsIncome);
    Sum(Filter(TodayTransactions(h, isToday), IsIncome), Amount)
  }

  /** Today's outflow counts exactly the same-day expenses and transfers. */
  function TodayExpenses(h: seq<Transaction>, isToday: Transaction -> bool): (r: real)
    ensures r == TodayAmount(h, isToday, IsOutflow)
  {
    FilteredSumIsTodayAmount(h, isToday, IsOutflow);
    Sum(Filter(TodayTransactions(h, isToday), IsOutflow), Amount)
  }

  /** Sum of the amounts of today's transactions whose kind satisfies `k`,
      written directly over the history: the reference for the two sums. */
  function TodayAmount(h: seq<Transaction>, isToday: Transaction -> bool, k: Transaction -> bool): real
  {
    if h == [] then 0.0
    else (if isToday(h[0]) && k(h[0]) then h[0].amount else 0.0) + TodayAmount(h[1..], isToday, k)
  }

  lemma {:induction false} FilteredSumIsTodayAmount(h: seq<Transaction>, isToday: Transaction -> bool, k: Transaction -> bool)
    ensures Sum(Filter(Filter(h, isToday), k), Amount) == TodayAmount(h, isToday, k)
  {
    if h != [] {
      FilteredSumIsTodayAmount(h[1..], isToday, k);
      var x := h[0];
      var rest := Filter(h[1..], isToday);
      assert Filter(h, isToday) == (if isToday(x) then [x] else []) + rest;
      FilterConcat(if isToday(x) then [x] else [], rest, k);
      if isToday(x) {
        assert Filter([x], k) == (if k(x) then [x] else []) + Filter([x][1..], k);
        assert [x][1..] == [];
        SumConcatHead(x, k(x), Filter(rest, k), Amount);
      } else {
        assert Filter([], k) == [];
        assert [] + Filter(rest, k) == Filter(rest, k);
      }
    }
  }

  /** Every same-day transaction lands in exactly one of the two sums. */
  lemma TodaySumsPartitionToday(h: seq<Transaction>, isToday: Transaction -> bool)
    ensures TodayIncome(h, isToday) + TodayExpenses(h, isToday) == Sum(TodayTransactions(h, isToday), Amount)
  {
    SumPartition(TodayTransactions(h, isToday), IsIncome, IsOutflow, Amount);
  }

  /** Today's income minus today's outflow is what today's transactions did
      to the balance. */
  lemma {:induction false} TodayNetIsBalanceChange(h: seq<Transaction>, isToday: Transaction -> bool)
    ensures TodayIncome(h, isToday) - TodayExpenses(h, isToday) == Net(TodayTransactions(h, isToday))
  {
    TodayAmountNet(h, isToday);
  }

  lemma {:induction false} TodayAmountNet(h: seq<Transaction>, isToday: Transaction -> bool)
    ensures TodayAmount(h, isToday, IsIncome) - TodayAmount(h, isToday, IsOutflow) == Net(Filter(h, isToday))
  {
    if h != [] {
      TodayAmountNet(h[1..], isToday);
      var x := h[0];
      if isToday(x) {
        assert Filter(h, isToday) == [x] + Filter(h[1..], isToday);
        assert ([x] + Filter(h[1..], isToday))[1..] == Filter(h[1..], isToday);
      } else {
        assert Filter(h, isToday) == [] + Filter(h[1..], isToday) == Filter(h[1..], isToday);
      }
    }
  }
}
