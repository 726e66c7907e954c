# Budget buddy: wallet ledger and group settlement, in Dafny

This project models the logic at the heart of a personal and group finance
dashboard, and proves what that logic promises.

- **The wallet** (`WalletContext`) is shared by every screen. It holds one
  balance, seeded at 100000, and a history of transactions, newest first.
  - Income is always credited.
  - Expenses and transfers go through only when the balance covers them.
    Otherwise they change nothing and report failure.
  - It is a class, `WalletAccount`, whose invariant `Valid()` says two
    things: the balance is the seed plus the net effect of the history, and
    every debit in the history was covered when it was made.
- **The group expense splitter** (`GroupExpenseSplit`) keeps a roster of
  members and the expenses each member paid for the whole group.
  - Adding a member trims the typed name.
  - Removing a member also removes every expense that member paid.
  - `CalculateSplit` gives everyone an equal share and computes each net as
    paid minus share. It then runs the greedy matching: each creditor in
    turn collects `min(remaining, |debt|)` from each debtor, in order.
  - The matching is written as the source writes it: loops over a mutable
    array of debtor balances. It is proved equal to the specification
    function `SettlementPlan.Settle`. The lemmas about that function cover
    direction, totals, count and order.
  - A settlement is paid through the wallet's transfer.
- **The wallet card** (`WalletDisplay`) shows the five newest transactions
  and today's income and outflow.
- **The student dashboard** (`StudentDashboard`) adds savings goals and
  counts the goals near completion. Its quick expense entry records a local
  expense only when the wallet debit succeeds.
- **The professional dashboard** (`ProfessionalDashboard`) pays a bill
  through the wallet, marks it paid, and lists the bills still unpaid.

Notes on the modelling:

- **Amounts** are `real`, and the settlement properties hold in exact
  arithmetic. Amounts the source parses with `parseInt` are `int`.
- **Clock values are parameters.** Ids and timestamps come from the clock
  (`Date.now()`, `new Date()`). The caller supplies them, as it does "is
  this transaction from today" and the add-expense date.
- **Parsed numbers are parameters too.** The raw form text decides only
  the source's "was anything typed" checks.
  - The student screens take the parsed number as an `Option<int>`, with
    `None` for `NaN`.
  - The group screen takes it as a `real`.
- **Member order is insertion order.** The source keys a JavaScript object
  by member id. Those ids are `Date.now()` strings, too large to be array
  indices, so `Object.entries` returns them in insertion order.
- **Member ids are assumed distinct.** `CalculateSplit` therefore requires
  `UniqueIds` on the roster; adding a member under a fresh id preserves it.
  - The zero-sum and totals lemmas also need the cascade invariant: every
    expense was paid by a current member. `AddMember`, `RemoveMember`,
    `AddExpense` and `RemoveExpense` preserve it.

## Model

| member | source | states |
|---|---|---|
| WalletContext.WalletAccount.constructor | src/contexts/WalletContext.tsx:22-23 | The wallet starts with balance 100000 and an empty history, which satisfies the invariant. |
| WalletContext.WalletAccount.AddTransaction | src/contexts/WalletContext.tsx:25-34 | Puts exactly one transaction with the given kind, amount, description, id and time at the head. The old history is left as an unchanged suffix. |
| WalletContext.WalletAccount.AddIncome | src/contexts/WalletContext.tsx:36-39 | Raises the balance by exactly the amount and puts one income transaction at the head. The invariant is kept. A non-negative credit to a non-negative balance leaves it non-negative. |
| WalletContext.WalletAccount.Debit | src/contexts/WalletContext.tsx:41-57 | Succeeds iff the old balance is at least the amount. On success, the balance drops by the amount, one transaction of the requested kind is put at the head, and the balance stays non-negative. On failure, balance and history are unchanged. |
| WalletContext.WalletAccount.DeductExpense | src/contexts/WalletContext.tsx:41-48 | The guarded debit, recorded as an expense. It returns true iff the balance covered the amount. |
| WalletContext.WalletAccount.TransferMoney | src/contexts/WalletContext.tsx:50-57 | Exactly the guarded debit of `DeductExpense`, except that the recorded kind is transfer. |
| WalletContext.NetIsIncomeMinusOutflow | src/contexts/WalletContext.tsx:22-57 | For any history, the balance explained by it is 100000 + (sum of income) - (sum of expenses and transfers). |
| WalletContext.BalanceNeverNegative | src/contexts/WalletContext.tsx:41-57 | Take a history the guarded operations can produce, with no negative credit. Every balance the wallet held along it was non-negative, the current one included. |
| WalletContext.ScenarioOverdraftRefused | src/contexts/WalletContext.tsx:22-48 | On a fresh wallet, an expense of 150000 is refused, the balance stays 100000 and nothing is recorded. |
| WalletContext.ScenarioIncomeThenExpense | src/contexts/WalletContext.tsx:25-48 | On a fresh wallet, income of 5000 and then an expense of 2000 both go through. The balance is 103000, and the history is exactly the expense followed by the income. |
| WalletContext.DebitLeavesNonNegative | src/contexts/WalletContext.tsx:42-46 | Right after a successful debit, the balance is non-negative whatever the earlier credits were. |
| WalletDisplay.RecentTransactions | src/components/WalletDisplay.tsx:16 | The recent list has min(5, history length) entries, and they are the newest ones in history order. |
| WalletDisplay.FilteredSumIsTodayAmount | src/components/WalletDisplay.tsx:17-25 | Filtering for today, then filtering by kind, then summing the amounts equals a direct sum, over the history, of today's transactions of that kind. |
| WalletDisplay.TodayTransactions | src/components/WalletDisplay.tsx:17-19 | Every listed transaction is from the history and from today, and every transaction of today is listed. |
| WalletDisplay.TodayIncome | src/components/WalletDisplay.tsx:20-22 | Today's income is the sum of the amounts of today's income transactions only, as summed directly over the history. |
| WalletDisplay.TodayExpenses | src/components/WalletDisplay.tsx:23-25 | Today's expenses are the sum of the amounts of today's expense and transfer transactions, as summed directly over the history. |
| WalletDisplay.TodaySumsPartitionToday | src/components/WalletDisplay.tsx:20-25 | Today's income plus today's expenses equals the sum of all of today's amounts. Each of today's transactions lands in exactly one of the two sums. |
| WalletDisplay.TodayNetIsBalanceChange | src/components/WalletDisplay.tsx:17-25 | Today's income minus today's expenses is exactly what today's transactions did to the balance. |
| Text.Trim | src/components/GroupExpenseSplit.tsx:55-58 | The result is the input with whitespace removed at both ends. It is empty iff the input is blank, and otherwise starts and ends with a non-whitespace character. The whitespace set is JavaScript's. |
| Text.TrimIdempotent | src/components/GroupExpenseSplit.tsx:55-58 | Trimming a trimmed name changes nothing. |
| GroupExpenseSplit.AddMember | src/components/GroupExpenseSplit.tsx:54-67 | A blank name changes nothing. Otherwise, exactly one member with the new id and the trimmed name is appended, the name field is cleared, and nothing else changes. Unique ids and the cascade invariant are kept when the id is new. |
| GroupExpenseSplit.RemoveMember | src/components/GroupExpenseSplit.tsx:69-72 | Removes exactly the members with that id, and exactly the expenses that member paid. Everything else stays, and the group invariant is kept. |
| GroupExpenseSplit.RemoveMemberKeepsOrder | src/components/GroupExpenseSplit.tsx:69-72 | Both removals keep the survivors in their original relative order. |
| GroupExpenseSplit.FindMember | src/components/GroupExpenseSplit.tsx:76-77 | Finds nothing iff no member has the id. Otherwise it returns the first member in the roster with that id. |
| GroupExpenseSplit.AddExpense | src/components/GroupExpenseSplit.tsx:74-93 | Does nothing when the title, the amount text or the payer is empty, or when the payer is not a member. Otherwise it appends one expense that carries the form's title and payer, the parsed amount, and the payer's current name, then resets the form. The group invariant is kept. |
| GroupExpenseSplit.RemoveExpense | src/components/GroupExpenseSplit.tsx:95-97 | Removes exactly the expenses with that id, and nothing else changes. The group invariant is kept. |
| GroupExpenseSplit.RemoveExpenseKeepsOrder | src/components/GroupExpenseSplit.tsx:95-97 | The remaining expenses keep their original relative order. |
| GroupExpenseSplit.Positions | src/components/GroupExpenseSplit.tsx:102-128 | One position per member, in roster order, with the member's id and name and the net "paid minus total/count". |
| GroupExpenseSplit.Creditors | src/components/GroupExpenseSplit.tsx:132 | Every creditor has a positive net and comes from the positions, and every position with a positive net is a creditor. |
| GroupExpenseSplit.Debtors | src/components/GroupExpenseSplit.tsx:133 | Every debtor has a negative net and comes from the positions, and every position with a negative net is a debtor. |
| GroupExpenseSplit.CreditorsKeepOrder | src/components/GroupExpenseSplit.tsx:132 | The creditor list keeps the positions' order, and so the roster order, duplicates included: it distributes over any split of the positions. |
| GroupExpenseSplit.DebtorsKeepOrder | src/components/GroupExpenseSplit.tsx:133 | The debtor list keeps the positions' order, and so the roster order, duplicates included: it distributes over any split of the positions. |
| GroupExpenseSplit.Plan | src/components/GroupExpenseSplit.tsx:99-157 | With no creditor and no debtor the plan is empty. Otherwise it has at most #creditors + #debtors - 1 settlements, so fewer than the members, each of a positive amount. |
| GroupExpenseSplit.NetsSumToZero | src/components/GroupExpenseSplit.tsx:102-128 | Assume ids are distinct and every expense was paid by a member. Then the nets (paid minus total/count) of all members sum to zero. |
| GroupExpenseSplit.PlanDirected | src/components/GroupExpenseSplit.tsx:132-154 | Every settlement has a positive amount. It runs from a member with a negative net to a member with a positive net, under their ids and names. A member whose net is exactly zero is in no settlement. |
| GroupExpenseSplit.MemberSettled | src/components/GroupExpenseSplit.tsx:135-154 | For one member, what it receives minus what it pays is its net. A creditor only receives, and a debtor only pays its whole debt. |
| GroupExpenseSplit.PlanSettlesEveryone | src/components/GroupExpenseSplit.tsx:135-154 | Under the group invariant, every creditor receives exactly its net, every debtor pays exactly the absolute value of its net, and every member's received minus sent is its net. |
| GroupExpenseSplit.PlanDebtsStayBetween | src/components/GroupExpenseSplit.tsx:148-151 | While the plan is built, every debtor's remaining balance stays between its starting debt and zero. |
| GroupExpenseSplit.PlanOrdered | src/components/GroupExpenseSplit.tsx:135-154 | Settlements come out creditor-major and debtor-minor. |
| GroupExpenseSplit.ScenarioTwoMembers | src/components/GroupExpenseSplit.tsx:99-157 | Alice and Bob, with Alice paying 100: the plan is exactly "Bob pays Alice 50". |
| GroupExpenseSplit.ScenarioThreeMembers | src/components/GroupExpenseSplit.tsx:99-157 | A, B and C, with A paying 60 and B paying 30: the plan is exactly "C pays A 30", and B is in no settlement. |
| GroupExpenseSplit.PaidPerMember | src/components/GroupExpenseSplit.tsx:108-122 | The balance-filling loops credit each expense to its payer's slot, so each member ends with exactly the sum that member paid. |
| GroupExpenseSplit.Greedy | src/components/GroupExpenseSplit.tsx:135-154 | The nested loops over the mutable debtor balances emit exactly `SettlementPlan.Settle` of the creditors and debtors. |
| GroupExpenseSplit.CalculateSplit | src/components/GroupExpenseSplit.tsx:99-157 | No members or no expenses: nothing changes. Otherwise the settlement list is replaced wholesale by `Plan` of the members and expenses, and shown. It is a function of those two lists, so recomputing gives the same list. |
| GroupExpenseSplit.HandlePayment | src/components/GroupExpenseSplit.tsx:165-179 | Transfers exactly the settlement's amount, described as "Group expense payment to" plus the payee. It succeeds iff the balance covered the amount, and on failure leaves the wallet unchanged. The group and its settlements are not touched. |
| SettlementPlan.Step | src/components/GroupExpenseSplit.tsx:139-152 | One creditor meets one debtor. Only that debtor's balance moves, by exactly what the creditor collects, and it stays between its old value and zero. The claim never goes below zero. At most one settlement is emitted, from that debtor to the creditor for the collected amount, and after it the claim or the debt is used up. |
| SettlementPlan.Sweep | src/components/GroupExpenseSplit.tsx:136-153 | One creditor after meeting the first debtors: the debtors not yet met are untouched, the claim stays between zero and the creditor's net, and the earlier settlements are kept as a prefix with at most one new settlement per debtor met. |
| SettlementPlan.SettleOnlyAppends | src/components/GroupExpenseSplit.tsx:135-154 | Serving more creditors only appends settlements: the plan for the first creditors is a prefix of the plan for more of them. |
| SettlementPlan.Settle | src/components/GroupExpenseSplit.tsx:135-154 | With N creditors plus debtors, at most N - 1 settlements are emitted, and none when N = 0, each of a positive amount. No zero-sum assumption is needed. |
| SettlementPlan.SettleDirected | src/components/GroupExpenseSplit.tsx:135-154 | Every emitted settlement is positive, comes from a debtor in the list and goes to a creditor in the list. |
| SettlementPlan.SettleKeepsInv | src/components/GroupExpenseSplit.tsx:135-154 | After each creditor: every served creditor has received its net, later creditors nothing. Each debtor has paid what its balance moved, and the remaining debt equals the remaining claims. |
| SettlementPlan.DebtStaysBetween | src/components/GroupExpenseSplit.tsx:148-151 | For debtors that start at or below zero, a debtor's remaining balance never rises above zero and never falls below its starting debt, after any number of creditors. |
| SettlementPlan.SettleTotals | src/components/GroupExpenseSplit.tsx:135-154 | With claims and debts in balance and distinct ids, every creditor receives its net, every debtor pays its debt, and every debtor ends at zero. |
| SettlementPlan.SettleOrdered | src/components/GroupExpenseSplit.tsx:135-154 | Settlements are ordered by creditor position, then by debtor position. |
| StudentDashboard.AddGoal | src/pages/StudentDashboard.tsx:92-108 | Does nothing unless both the name and the target were typed. Otherwise it appends one goal with the new id, the name, the parsed target and nothing saved, in category "General" when none was given, and clears the form. |
| StudentDashboard.NearCompletion | src/pages/StudentDashboard.tsx:220 | The near-completion count is exactly the number of goals, duplicates included, that are nearly done, counted one goal at a time. So it never exceeds the number of goals. |
| StudentDashboard.NearlyDone | src/pages/StudentDashboard.tsx:220 | A goal with an unparsable target never counts. A zero target counts iff something is saved. With a positive target, a goal counts iff more than half of it is saved; a negative target flips the comparison. |
| StudentDashboard.AddGoalKeepsNearCompletion | src/pages/StudentDashboard.tsx:96-101 | A goal just added has nothing saved, so it never changes the near-completion count. |
| StudentDashboard.AddExpense | src/pages/StudentDashboard.tsx:110-136 | With no amount or no description typed, nothing happens. Otherwise the wallet is debited with the parsed amount and the note "category: description". The debit succeeds iff the balance covers it, and a `NaN` amount always fails. Only on success is the expense put at the head of the local list and the form reset; on failure the list and the form are unchanged. The local total and the balance move together. |
| ProfessionalDashboard.MarkPaid | src/pages/ProfessionalDashboard.tsx:108-110 | Same bills in the same order. A bill ends up paid iff it was paid or has that id, and no other field changes. |
| ProfessionalDashboard.UpcomingAfterMarkPaid | src/pages/ProfessionalDashboard.tsx:398 | Marking a bill paid takes exactly the bills with that id off the unpaid list. The rest stay, in order. |
| ProfessionalDashboard.MarkPaidIdempotent | src/pages/ProfessionalDashboard.tsx:108-110 | Marking the same id twice is the same as marking it once. |
| ProfessionalDashboard.Upcoming | src/pages/ProfessionalDashboard.tsx:398 | Every upcoming bill is one of the bills and unpaid, and every unpaid bill is upcoming. |
| ProfessionalDashboard.UpcomingKeepsOrder | src/pages/ProfessionalDashboard.tsx:398 | The upcoming list keeps the bills' original order and duplicates: it distributes over any split of the bill list. |
| ProfessionalDashboard.FindBill | src/pages/ProfessionalDashboard.tsx:104 | Finds nothing iff no bill has the id. Otherwise it returns the first bill in the list with that id. |
| ProfessionalDashboard.MarkBillPaid | src/pages/ProfessionalDashboard.tsx:103-122 | An unknown id debits nothing and changes no bill. Otherwise the found bill's amount is debited with the note "Bill payment: " plus its name; the debit succeeds iff the balance covers it. On success the matching bills are marked paid and leave the upcoming list. On failure the bills and the wallet are unchanged. |

## Left out

- Rendering is not modelled: the JSX, animations, charts, badges and toasts. So are the group name field and the static mock data (the leaderboard, the charts, the salary figures, and the initial goals, expenses and bills). The role-selection page is not part of this model.
- The EMI calculator, savings and investment rates, category percentages, `toFixed` and `toLocaleString` are not modelled: they are floating-point displays.
- `daysToRunOut` and `daysUntilDue` are not modelled: they are clock-dependent displays.
- The clock is not modelled: `Date.now()` ids, `new Date()` timestamps and the "same calendar day" test are caller-supplied parameters.
- `parseInt` and `parseFloat` are not modelled: the parsed value is a parameter.
- GroupExpenseSplit.AddExpense: a `NaN` amount from `parseFloat` is not representable, because amounts are `real`.
- GroupExpenseSplit.AddExpense: the source accepts any non-empty amount text, so a zero or negative amount is recorded as typed, and the model follows the code. The settlement lemmas do not need positive amounts.
- JavaScript doubles are not modelled: amounts are exact reals, so the rounding behind a spurious tiny settlement is not captured.
- The UPI payment link (`generateUPILink`, `window.open`) is not modelled: it is an opaque formatter.
- React scheduling is not modelled. The stale-closure `balance` read inside `useCallback`, the functional `setBalance` updates and the `useEffect` copy of the balance on the student dashboard are all replaced by sequential, atomic state changes on one `WalletAccount`.
- GroupExpenseSplit.CalculateSplit: requires distinct member ids. With duplicate ids, the source's keyed object would merge members, and that merge is not modelled.
- ProfessionalDashboard.MarkBillPaid: the paid flag is not checked, so an already paid bill is charged again, exactly as the source does. The screen only offers the button for unpaid bills.
- Paying a settlement does not mark it resolved, as in the source. Recomputing shows it again.
