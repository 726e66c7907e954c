/** The group expense splitter: a roster of members, the expenses each of
    them paid for the whole group, and the settlement plan computed from
    them. Every expense is split equally among all current members. */
module GroupExpenseSplit {
  import opened Seqs
  import opened Text
  import opened SettlementPlan
  import W = WalletContext

  datatype Member = Member(id: string, name: string)

  /** `paidByName` is the payer's name when the expense was added. */
  datatype Expense = Expense(id: string, title: string, amount: real, paidBy: string, paidByName: string)

  /** The add-expense form as typed: `amount` is the raw text; its parsed
      value is supplied separately to `AddExpense`. */
  datatype ExpenseForm = ExpenseForm(title: string, amount: string, paidBy: string)

  datatype Group = Group(
    members: seq<Member>,
    newMemberName: string,
    expenses: seq<Expense>,
    newExpense: ExpenseForm,
    settlements: seq<Settlement>,
    showSettlements: bool)

  const EmptyForm := ExpenseForm("", "", "")

  const InitialGroup := Group([], "", [], EmptyForm, [], false)

  ghost function MemberIds(ms: seq<Member>): set<string>
  {
    set m | m in ms :: m.id
  }

  function MemberId(m: Member): string { m.id }

  /** No two members share an id. */
  ghost predicate UniqueIds(ms: seq<Member>)
  {
    DistinctKeys(ms, MemberId)
  }

  /** The cascade invariant: every expense was paid by a current member. */
  ghost predicate PaidByMembers(ms: seq<Member>, es: seq<Expense>)
  {
    forall e :: e in es ==> e.paidBy in MemberIds(ms)
  }

  ghost predicate Consistent(g: Group)
  {
    UniqueIds(g.members) && PaidByMembers(g.members, g.expenses)
  }

  // ---------------------------------------------------------------------
  // Roster and expenses

  /** Adds the typed name, trimmed, under a fresh id; a blank name is ignored. */
  function AddMember(g: Group, freshId: string): (r: Group)
    ensures IsBlank(g.newMemberName) ==> r == g
    ensures !IsBlank(g.newMemberName) ==>
              r.members == g.members + [Member(freshId, Trim(g.newMemberName))] &&
              r.newMemberName == "" &&
              r.expenses == g.expenses && r.newExpense == g.newExpense &&
              r.settlements == g.settlements && r.showSettlements == g.showSettlements
    ensures Consistent(g) && freshId !in MemberIds(g.members) ==> Consistent(r)
  {
    var name := Trim(g.newMemberName);
    if name != "" then
      var r := g.(members := g.members + [Member(freshId, name)], newMemberName := "");
      assert MemberIds(r.members) == MemberIds(g.members) + {freshId};
      r
    else g
  }

  predicate Keeps(id: string, m: Member) { m.id != id }

  predicate NotPaidBy(id: string, e: Expense) { e.paidBy != id }

  predicate NotExpense(id: string, e: Expense) { e.id != id }

  /** Removes the member and, in cascade, every expense that member paid. */
  function RemoveMember(g: Group, id: string): (r: Group)
    ensures forall m :: m in r.members <==> m in g.members && m.id != id
    ensures forall e :: e in r.expenses <==> e in g.expenses && e.paidBy != id
    ensures r.newMemberName == g.newMemberName && r.newExpense == g.newExpense
    ensures r.settlements == g.settlements && r.showSettlements == g.showSettlements
    ensures Consistent(g) ==> Consistent(r)
  {
    var r := g.(members := Filter(g.members, m => Keeps(id, m)),
                expenses := Filter(g.expenses, e => NotPaidBy(id, e)));
    DistinctAfterFilter(g.members, MemberId, m => Keeps(id, m));
    r
  }

  /** Both removals keep the survivors in their original order: they
      distribute over any split of the lists. */
  lemma RemoveMemberKeepsOrder(g: Group, id: string, front: seq<Member>, back: seq<Member>,
                               early: seq<Expense>, late: seq<Expense>)
    requires g.members == front + back && g.expenses == early + late
    ensures RemoveMember(g, id).members == Filter(front, m => Keeps(id, m)) + Filter(back, m => Keeps(id, m))
    ensures RemoveMember(g, id).expenses == Filter(early, e => NotPaidBy(id, e)) + Filter(late, e => NotPaidBy(id, e))
  {
    FilterConcat(front, back, m => Keeps(id, m));
    FilterConcat(early, late, e => NotPaidBy(id, e));
  }

  predicate HasId(id: string, m: Member) { m.id == id }

  /** The first member with this id, if there is one. */
  function FindMember(ms: seq<Member>, id: string): (r: Option<Member>)
    ensures r.None? <==> id !in MemberIds(ms)
    ensures r.Some? ==> r.value.id == id
    ensures r.Some? ==> exists i :: 0 <= i < |ms| && ms[i] == r.value &&
                                    forall k :: 0 <= k < i ==> ms[k].id != id
  {
    var r := Find(ms, m => HasId(id, m));
    assert r.None? ==> forall m :: m in ms ==> m.id != id;
    r
  }

  /** Whether the form passes the handler's checks: all three fields filled
      in and the payer a current member. */
  ghost predicate Accepts(g: Group)
  {
    g.newExpense.title != "" && g.newExpense.amount != "" && g.newExpense.paidBy != "" &&
    g.newExpense.paidBy in MemberIds(g.members)
  }

  /** Records the form's expense under a fresh id, with the parsed `amount`
      and a snapshot of the payer's name, and clears the form. */
  function AddExpense(g: Group, freshId: string, amount: real): (r: Group)
    ensures !Accepts(g) ==> r == g
    ensures Accepts(g) ==>
              |r.expenses| == |g.expenses| + 1 && r.expenses[..|g.expenses|] == g.expenses &&
              r.expenses[|g.expenses|].id == freshId &&
              r.expenses[|g.expenses|].title == g.newExpense.title &&
              r.expenses[|g.expenses|].amount == amount &&
              r.expenses[|g.expenses|].paidBy == g.newExpense.paidBy &&
              Member(g.newExpense.paidBy, r.expenses[|g.expenses|].paidByName) in g.members &&
              r.newExpense == EmptyForm &&
              r.members == g.members && r.newMemberName == g.newMemberName &&
              r.settlements == g.settlements && r.showSettlements == g.showSettlements
    ensures Consistent(g) ==> Consistent(r)
  {
    var form := g.newExpense;
    if form.title != "" && form.amount != "" && form.paidBy != "" then
      match FindMember(g.members, form.paidBy)
      case None => g
      case Some(payer) =>
        var expense := Expense(freshId, form.title, amount, form.paidBy, payer.name);
        var r := g.(expenses := g.expenses + [expense], newExpense := EmptyForm);
        assert r.expenses[..|g.expenses|] == g.expenses;
        r
    else g
  }

  /** Removes the expense with this id; nothing else changes. */
  function RemoveExpense(g: Group, id: string): (r: Group)
    ensures forall e :: e in r.expenses <==> e in g.expenses && e.id != id
    ensures r.(expenses := g.expenses) == g
    ensures Consistent(g) ==> Consistent(r)
  {
    g.(expenses := Filter(g.expenses, e => NotExpense(id, e)))
  }

  /** Removing an expense keeps the other expenses in their order: both
      halves of the list keep theirs. */
  lemma RemoveExpenseKeepsOrder(g: Group, id: string, early: seq<Expense>, late: seq<Expense>)
    requires g.expenses == early + late
    ensures RemoveExpense(g, id).expenses == Filter(early, e => NotExpense(id, e)) + Filter(late, e => NotExpense(id, e))
  {
    FilterConcat(early, late, e => NotExpense(id, e));
  }

  // ---------------------------------------------------------------------
  // Net positions

  function ExpenseAmount(e: Expense): real { e.amount }

  /** The amount of all the group's expenses together. */
  function TotalAmount(es: seq<Expense>): real
  {
    Sum(es, ExpenseAmount)
  }

  /** What the member with this id paid. */
  function Paid(es: seq<Expense>, id: string): real
  {
    if es == [] then 0.0 else (if es[0].paidBy == id then es[0].amount else 0.0) + Paid(es[1..], id)
  }

  lemma {:induction false} PaidAppend(es: seq<Expense>, e: Expense, id: string)
    ensures Paid(es + [e], id) == Paid(es, id) + (if e.paidBy == id then e.amount else 0.0)
  {
    if es != [] {
      assert (es + [e])[1..] == es[1..] + [e];
      PaidAppend(es[1..], e, id);
    }
  }

  function Share(ms: seq<Member>, es: seq<Expense>): real
    requires |ms| > 0
  {
    TotalAmount(es) / (|ms| as real)
  }

  /** Paid minus the equal share: positive when owed money, negative when owing. */
  function NetOf(ms: seq<Member>, es: seq<Expense>, id: string): real
    requires |ms| > 0
  {
    Paid(es, id) - Share(ms, es)
  }

  function PositionsWith(ms: seq<Member>, es: seq<Expense>, share: real): seq<Party>
  {
    seq(|ms|, i requires 0 <= i < |ms| => Party(ms[i].id, ms[i].name, Paid(es, ms[i].id) - share))
  }

  /** Every member's net position, in roster order: what they paid minus
      the equal share. */
  function Positions(ms: seq<Member>, es: seq<Expense>): (ps: seq<Party>)
    requires |ms| > 0
    ensures |ps| == |ms|
    ensures forall i :: 0 <= i < |ms| ==>
              ps[i].id == ms[i].id && ps[i].name == ms[i].name && ps[i].net == NetOf(ms, es, ms[i].id)
  {
    PositionsWith(ms, es, Share(ms, es))
  }

  predicate IsCreditor(p: Party) { p.net > 0.0 }

  predicate IsDebtor(p: Party) { p.net < 0.0 }

  /** The parties owed money: each has a positive net, and every party with
      a positive net is among them. */
  function Creditors(ps: seq<Party>): (r: seq<Party>)
    ensures forall i :: 0 <= i < |r| ==> r[i] in ps && r[i].net > 0.0
    ensures forall i :: 0 <= i < |ps| && ps[i].net > 0.0 ==> ps[i] in r
  {
    Filter(ps, IsCreditor)
  }

  /** The parties owing money: each has a negative net, and every party with
      a negative net is among them. */
  function Debtors(ps: seq<Party>): (r: seq<Party>)
    ensures forall i :: 0 <= i < |r| ==> r[i] in ps && r[i].net < 0.0
    ensures forall i :: 0 <= i < |ps| && ps[i].net < 0.0 ==> ps[i] in r
  {
    Filter(ps, IsDebtor)
  }

  /** The creditors keep the order of the positions, and so the roster
      order: the list distributes over any split of the positions. */
  lemma CreditorsKeepOrder(a: seq<Party>, b: seq<Party>)
    ensures Creditors(a + b) == Creditors(a) + Creditors(b)
  {
    FilterConcat(a, b, IsCreditor);
  }

  /** The debtors keep the order of the positions, and so the roster
      order. */
  lemma DebtorsKeepOrder(a: seq<Party>, b: seq<Party>)
    ensures Debtors(a + b) == Debtors(a) + Debtors(b)
  {
    FilterConcat(a, b, IsDebtor);
  }

  /** The settlement plan for a non-empty roster: nothing to pay when every
      net is zero, otherwise fewer settlements than there are members with
      a non-zero net, every one of a positive amount. */
  function Plan(ms: seq<Member>, es: seq<Expense>): (r: seq<Settlement>)
    requires |ms| > 0
    ensures var ps := Positions(ms, es);
            var n := |Creditors(ps)| + |Debtors(ps)|;
            (n == 0 ==> r == []) && (n > 0 ==> |r| <= n - 1)
    ensures |r| < |ms|
    ensures forall k :: 0 <= k < |r| ==> r[k].amount > 0.0
  {
    var ps := Positions(ms, es);
    DisjointFiltersFit(ps, IsCreditor, IsDebtor);
    Settle(Creditors(ps), Debtors(ps))
  }

  // ---------------------------------------------------------------------
  // Zero sum

  function SumPaid(ms: seq<Member>, es: seq<Expense>): real
  {
    if ms == [] then 0.0 else Paid(es, ms[0].id) + SumPaid(ms[1..], es)
  }

  /** `a` once for every member with this id. */
  function Hits(ms: seq<Member>, id: string, a: real): real
  {
    if ms == [] then 0.0 else (if ms[0].id == id then a else 0.0) + Hits(ms[1..], id, a)
  }

  lemma {:induction false} HitsOnce(ms: seq<Member>, id: string, a: real)
    requires UniqueIds(ms)
    ensures Hits(ms, id, a) == if id in MemberIds(ms) then a else 0.0
  {
    if ms != [] {
      DistinctTail(ms, MemberId);
      HitsOnce(ms[1..], id, a);
      assert MemberIds(ms) == {ms[0].id} + MemberIds(ms[1..]);
      if ms[0].id == id {
        assert id !in MemberIds(ms[1..]) by {
          forall m | m in ms[1..] ensures m.id != id {
            var k :| 0 <= k < |ms[1..]| && ms[1..][k] == m;
            assert MemberId(ms[1..][k]) != MemberId(ms[0]);
          }
        }
      }
    }
  }

  lemma {:induction false} SumPaidHead(ms: seq<Member>, es: seq<Expense>)
    requires es != []
    ensures SumPaid(ms, es) == Hits(ms, es[0].paidBy, es[0].amount) + SumPaid(ms, es[1..])
  {
    if ms != [] {
      SumPaidHead(ms[1..], es);
    }
  }

  lemma {:induction false} SumPaidNothing(ms: seq<Member>)
    ensures SumPaid(ms, []) == 0.0
  {
    if ms != [] {
      SumPaidNothing(ms[1..]);
    }
  }

  /** Under the cascade invariant, what the members paid adds up to the total. */
  lemma {:induction false} SumPaidIsTotal(ms: seq<Member>, es: seq<Expense>)
    requires UniqueIds(ms) && PaidByMembers(ms, es)
    ensures SumPaid(ms, es) == TotalAmount(es)
  {
    if es == [] {
      SumPaidNothing(ms);
    } else {
      assert PaidByMembers(ms, es[1..]) by {
        forall e | e in es[1..] ensures e.paidBy in MemberIds(ms) { assert e in es; }
      }
      SumPaidIsTotal(ms, es[1..]);
      SumPaidHead(ms, es);
      assert TotalAmount(es) == es[0].amount + TotalAmount(es[1..]);
      HitsOnce(ms, es[0].paidBy, es[0].amount);
      assert es[0] in es;
    }
  }

  lemma {:induction false} SumOfPositions(ms: seq<Member>, es: seq<Expense>, share: real)
    ensures SumNets(PositionsWith(ms, es, share)) == SumPaid(ms, es) - (|ms| as real) * share
  {
    if ms != [] {
      assert PositionsWith(ms, es, share)[1..] == PositionsWith(ms[1..], es, share);
      SumOfPositions(ms[1..], es, share);
      assert (|ms| as real) * share == share + ((|ms| - 1) as real) * share;
    }
  }

  /** Under the cascade invariant the net positions of all members sum to zero. */
  lemma NetsSumToZero(ms: seq<Member>, es: seq<Expense>)
    requires |ms| > 0
    requires UniqueIds(ms) && PaidByMembers(ms, es)
    ensures SumNets(Positions(ms, es)) == 0.0
  {
    SumOfPositions(ms, es, Share(ms, es));
    SumPaidIsTotal(ms, es);
    var n := |ms| as real;
    assert n * (TotalAmount(es) / n) == TotalAmount(es);
  }

  // ---------------------------------------------------------------------
  // What the plan achieves

  lemma PositionOf(ms: seq<Member>, es: seq<Expense>, p: Party)
    requires |ms| > 0
    requires p in Positions(ms, es)
    ensures Member(p.id, p.name) in ms && p.net == NetOf(ms, es, p.id)
  {
    var i :| 0 <= i < |ms| && Positions(ms, es)[i] == p;
    assert ms[i] == Member(p.id, p.name);
  }

  /** Every settlement moves a positive amount from a member whose net is
      negative to a member whose net is positive, under their names and ids;
      so a member whose net is exactly zero appears in no settlement. */
  lemma PlanDirected(ms: seq<Member>, es: seq<Expense>)
    requires |ms| > 0
    ensures forall s :: s in Plan(ms, es) ==>
              s.amount > 0.0 &&
              Member(s.from, s.fromName) in ms && NetOf(ms, es, s.from) < 0.0 &&
              Member(s.to, s.toName) in ms && NetOf(ms, es, s.to) > 0.0
    ensures forall s, m :: s in Plan(ms, es) && m in ms && NetOf(ms, es, m.id) == 0.0 ==>
              s.from != m.id && s.to != m.id
  {
    var ps := Positions(ms, es);
    var cs, ds := Creditors(ps), Debtors(ps);
    SettleDirected(cs, ds, |cs|);
    forall s | s in Plan(ms, es)
      ensures s.amount > 0.0 &&
              Member(s.from, s.fromName) in ms && NetOf(ms, es, s.from) < 0.0 &&
              Member(s.to, s.toName) in ms && NetOf(ms, es, s.to) > 0.0
    {
      var n :| 0 <= n < |Plan(ms, es)| && Plan(ms, es)[n] == s;
      assert FromDebtor(s, ds) && ToCreditor(s, cs);
      var j :| 0 <= j < |ds| && s.from == ds[j].id && s.fromName == ds[j].name;
      var k :| 0 <= k < |cs| && s.to == cs[k].id && s.toName == cs[k].name;
      PositionOf(ms, es, ds[j]);
      PositionOf(ms, es, cs[k]);
    }
  }

  lemma {:induction false} SentByNobody(out: seq<Settlement>, id: string)
    requires forall s :: s in out ==> s.from != id
    ensures Sent(out, id) == 0.0
  {
    if out != [] {
      assert out[|out| - 1] in out;
      assert forall s :: s in out[..|out| - 1] ==> s in out;
      SentByNobody(out[..|out| - 1], id);
    }
  }

  lemma {:induction false} ReceivedByNobody(out: seq<Settlement>, id: string)
    requires forall s :: s in out ==> s.to != id
    ensures Received(out, id) == 0.0
  {
    if out != [] {
      assert out[|out| - 1] in out;
      assert forall s :: s in out[..|out| - 1] ==> s in out;
      ReceivedByNobody(out[..|out| - 1], id);
    }
  }

  lemma UniquePositions(ms: seq<Member>, es: seq<Expense>)
    requires |ms| > 0 && UniqueIds(ms)
    ensures DistinctIds(Creditors(Positions(ms, es))) && DistinctIds(Debtors(Positions(ms, es)))
  {
    var ps := Positions(ms, es);
    assert DistinctIds(ps) by {
      forall a, b | 0 <= a < b < |ps| ensures PartyId(ps[a]) != PartyId(ps[b]) {
        assert MemberId(ms[a]) != MemberId(ms[b]);
      }
    }
    DistinctAfterFilter(ps, PartyId, IsCreditor);
    DistinctAfterFilter(ps, PartyId, IsDebtor);
  }

  /** The facts the plan's totals rest on: the creditors and debtors have
      distinct ids and their nets cancel out. */
  lemma PlanTotals(ms: seq<Member>, es: seq<Expense>)
    requires |ms| > 0
    requires UniqueIds(ms) && PaidByMembers(ms, es)
    ensures var ps := Positions(ms, es);
            (forall k :: 0 <= k < |Creditors(ps)| ==> Received(Plan(ms, es), Creditors(ps)[k].id) == Creditors(ps)[k].net) &&
            (forall j :: 0 <= j < |Debtors(ps)| ==> Sent(Plan(ms, es), Debtors(ps)[j].id) == -Debtors(ps)[j].net)
  {
    var ps := Positions(ms, es);
    NetsSumToZero(ms, es);
    SumPartition(ps, IsCreditor, IsDebtor, PartyNet);
    UniquePositions(ms, es);
    SettleTotals(Creditors(ps), Debtors(ps));
  }

  /** One member's accounts after the plan. */
  lemma MemberSettled(ms: seq<Member>, es: seq<Expense>, i: nat)
    requires i < |ms|
    requires UniqueIds(ms) && PaidByMembers(ms, es)
    ensures var plan, id, net := Plan(ms, es), ms[i].id, NetOf(ms, es, ms[i].id);
            Received(plan, id) - Sent(plan, id) == net &&
            (net > 0.0 ==> Received(plan, id) == net && Sent(plan, id) == 0.0) &&
            (net < 0.0 ==> Sent(plan, id) == -net && Received(plan, id) == 0.0)
  {
    var ps := Positions(ms, es);
    var cs, ds := Creditors(ps), Debtors(ps);
    var plan, id := Plan(ms, es), ms[i].id;
    var p := ps[i];
    assert p.id == id && p.net == NetOf(ms, es, id);
    PlanDirected(ms, es);
    if p.net > 0.0 {
      assert p in cs;
      var k :| 0 <= k < |cs| && cs[k] == p;
      PlanTotals(ms, es);
      SentByNobody(plan, id);
    } else if p.net < 0.0 {
      assert p in ds;
      var j :| 0 <= j < |ds| && ds[j] == p;
      PlanTotals(ms, es);
      ReceivedByNobody(plan, id);
    } else {
      SentByNobody(plan, id);
      ReceivedByNobody(plan, id);
    }
  }

  /** Under the cascade invariant the plan settles everybody: what each
      member receives minus what it pays is exactly its net position.
      Creditors only receive, debtors only pay. */
  lemma PlanSettlesEveryone(ms: seq<Member>, es: seq<Expense>)
    requires |ms| > 0
    requires UniqueIds(ms) && PaidByMembers(ms, es)
    ensures forall i :: 0 <= i < |ms| ==>
              Received(Plan(ms, es), ms[i].id) - Sent(Plan(ms, es), ms[i].id) == NetOf(ms, es, ms[i].id)
    ensures forall i :: 0 <= i < |ms| && NetOf(ms, es, ms[i].id) > 0.0 ==>
              Received(Plan(ms, es), ms[i].id) == NetOf(ms, es, ms[i].id) && Sent(Plan(ms, es), ms[i].id) == 0.0
    ensures forall i :: 0 <= i < |ms| && NetOf(ms, es, ms[i].id) < 0.0 ==>
              Sent(Plan(ms, es), ms[i].id) == -NetOf(ms, es, ms[i].id) && Received(Plan(ms, es), ms[i].id) == 0.0
  {
    forall i | 0 <= i < |ms|
      ensures var plan, id, net := Plan(ms, es), ms[i].id, NetOf(ms, es, ms[i].id);
              Received(plan, id) - Sent(plan, id) == net &&
              (net > 0.0 ==> Received(plan, id) == net && Sent(plan, id) == 0.0) &&
              (net < 0.0 ==> Sent(plan, id) == -net && Received(plan, id) == 0.0)
    {
      MemberSettled(ms, es, i);
    }
  }

  /** While the plan is built, every debtor's remaining balance stays
      between its starting debt and zero. */
  lemma PlanDebtsStayBetween(ms: seq<Member>, es: seq<Expense>, i: nat)
    requires |ms| > 0
    requires i <= |Creditors(Positions(ms, es))|
    ensures var ps := Positions(ms, es);
            var ds := Debtors(ps);
            forall j :: 0 <= j < |ds| ==> ds[j].net <= SettleUpTo(Creditors(ps), ds, i).owed[j] <= 0.0
  {
    var ps := Positions(ms, es);
    DebtStaysBetween(Creditors(ps), Debtors(ps), i);
  }

  /** Settlements come out creditor-major and debtor-minor, by the positions
      of the parties in the creditor and debtor lists. */
  lemma PlanOrdered(ms: seq<Member>, es: seq<Expense>)
    requires |ms| > 0 && UniqueIds(ms)
    ensures Ordered(Creditors(Positions(ms, es)), Debtors(Positions(ms, es)), Plan(ms, es))
  {
    var ps := Positions(ms, es);
    UniquePositions(ms, es);
    SettleOrdered(Creditors(ps), Debtors(ps), |Creditors(ps)|);
  }

  /** Two members, Alice paying 100 for both: Bob owes Alice 50. */
  lemma ScenarioTwoMembers()
    ensures var alice, bob := Member("a", "Alice"), Member("b", "Bob");
            Plan([alice, bob], [Expense("e", "dinner", 100.0, "a", "Alice")]) == [Settlement("b", "Bob", "a", "Alice", 50.0)]
  {
    var ms := [Member("a", "Alice"), Member("b", "Bob")];
    var es := [Expense("e", "dinner", 100.0, "a", "Alice")];
    assert TotalAmount(es) == 100.0;
    assert Paid(es, "a") == 100.0 && Paid(es, "b") == 0.0;
    var ps := [Party("a", "Alice", 50.0), Party("b", "Bob", -50.0)];
    assert Positions(ms, es) == ps;
    assert Creditors(ps) == [ps[0]] + Filter(ps[1..], IsCreditor);
    assert Filter(ps[1..], IsCreditor) == [] + Filter(ps[2..], IsCreditor);
    assert Creditors(ps) == [ps[0]];
    assert Debtors(ps) == [] + Filter(ps[1..], IsDebtor);
    assert Filter(ps[1..], IsDebtor) == [ps[1]] + Filter(ps[2..], IsDebtor);
    assert Debtors(ps) == [ps[1]];
    assert Owed([ps[1]]) == [-50.0];
  }

  lemma ThreeMemberPositions()
    ensures Positions([Member("a", "A"), Member("b", "B"), Member("c", "C")],
                      [Expense("e1", "rent", 60.0, "a", "A"), Expense("e2", "food", 30.0, "b", "B")]) ==
            [Party("a", "A", 30.0), Party("b", "B", 0.0), Party("c", "C", -30.0)]
  {
    var ms := [Member("a", "A"), Member("b", "B"), Member("c", "C")];
    var es := [Expense("e1", "rent", 60.0, "a", "A"), Expense("e2", "food", 30.0, "b", "B")];
    assert TotalAmount(es) == 90.0;
    assert Share(ms, es) == 30.0;
    assert Paid(es, "a") == 60.0 && Paid(es, "b") == 30.0 && Paid(es, "c") == 0.0;
  }

  lemma ThreeMemberSides()
    ensures var ps := [Party("a", "A", 30.0), Party("b", "B", 0.0), Party("c", "C", -30.0)];
            Creditors(ps) == [ps[0]] && Debtors(ps) == [ps[2]]
  {
    var ps := [Party("a", "A", 30.0), Party("b", "B", 0.0), Party("c", "C", -30.0)];
    assert ps[1..] == [ps[1], ps[2]] && ps[2..] == [ps[2]] && ps[3..] == [];
    assert Filter(ps[2..], IsCreditor) == [] + Filter(ps[3..], IsCreditor);
    assert Filter(ps[1..], IsCreditor) == [] + Filter(ps[2..], IsCreditor);
    assert Creditors(ps) == [ps[0]] + Filter(ps[1..], IsCreditor);
    assert Filter(ps[2..], IsDebtor) == [ps[2]] + Filter(ps[3..], IsDebtor);
    assert Filter(ps[1..], IsDebtor) == [] + Filter(ps[2..], IsDebtor);
    assert Debtors(ps) == [] + Filter(ps[1..], IsDebtor);
  }

  lemma OneCreditorOneDebtor()
    ensures Settle([Party("a", "A", 30.0)], [Party("c", "C", -30.0)]) == [Settlement("c", "C", "a", "A", 30.0)]
  {
    var c, ds := Party("a", "A", 30.0), [Party("c", "C", -30.0)];
    var start := Progress([-30.0], []);
    assert Owed(ds) == start.owed;
    assert Min(30.0, Abs(start.owed[0])) == 30.0;
    var step := Step(c, ds, 30.0, start, 0);
    assert step.1.out == [Settlement("c", "C", "a", "A", 30.0)];
    assert Sweep(c, ds, start, 1) == step;
  }

  /** A pays 60, B pays 30, C nothing: C owes A 30 and B, at zero, is in no
      settlement. */
  lemma ScenarioThreeMembers()
    ensures var a, b, c := Member("a", "A"), Member("b", "B"), Member("c", "C");
            Plan([a, b, c], [Expense("e1", "rent", 60.0, "a", "A"), Expense("e2", "food", 30.0, "b", "B")]) ==
            [Settlement("c", "C", "a", "A", 30.0)]
  {
    ThreeMemberPositions();
    ThreeMemberSides();
    OneCreditorOneDebtor();
  }

  // ---------------------------------------------------------------------
  // The handlers that compute and pay

  /** The first pass of `calculateSplit`: one balance slot per member id,
      then every expense credited to its payer's slot. */
  method PaidPerMember(members: seq<Member>, expenses: seq<Expense>) returns (paid: seq<real>)
    requires UniqueIds(members)
    ensures |paid| == |members|
    ensures forall i :: 0 <= i < |members| ==> paid[i] == Paid(expenses, members[i].id)
  {
    var n := |members|;
    var slot: map<string, nat> := map[];
    for i := 0 to n
      invariant forall k :: 0 <= k < i ==> members[k].id in slot && slot[members[k].id] == k
      invariant forall id :: id in slot ==> slot[id] < i && members[slot[id]].id == id
    {
      slot := slot[members[i].id := i];
    }
    var balances := new real[n](_ => 0.0);
    for k := 0 to |expenses|
      invariant forall i :: 0 <= i < n ==> balances[i] == Paid(expenses[..k], members[i].id)
    {
      var expense := expenses[k];
      if expense.paidBy in slot {
        var i := slot[expense.paidBy];
        balances[i] := balances[i] + expense.amount;
      }
      assert expenses[..k + 1] == expenses[..k] + [expense];
      forall i | 0 <= i < n
        ensures balances[i] == Paid(expenses[..k + 1], members[i].id)
      {
        PaidAppend(expenses[..k], expense, members[i].id);
      }
    }
    assert expenses[..|expenses|] == expenses;
    paid := balances[..];
  }

  /** The greedy pass of `calculateSplit`: each creditor in turn collects
      from the debtors in order, against a mutable copy of what they owe. */
  method Greedy(creditors: seq<Party>, debtors: seq<Party>) returns (settlements: seq<Settlement>)
    ensures settlements == Settle(creditors, debtors)
  {
    var owed := new real[|debtors|](j => if 0 <= j < |debtors| then debtors[j].net else 0.0);
    assert owed[..] == Owed(debtors);
    settlements := [];
    for i := 0 to |creditors|
      invariant Progress(owed[..], settlements) == SettleUpTo(creditors, debtors, i)
    {
      var creditor := creditors[i];
      var remaining := creditor.net;
      ghost var before := Progress(owed[..], settlements);
      for j := 0 to |debtors|
        invariant (remaining, Progress(owed[..], settlements)) == Sweep(creditor, debtors, before, j)
      {
        if remaining > 0.0 && owed[j] < 0.0 {
          var amount := Min(remaining, Abs(owed[j]));
          settlements := settlements + [Settlement(debtors[j].id, debtors[j].name, creditor.id, creditor.name, amount)];
          remaining := remaining - amount;
          owed[j] := owed[j] + amount;
        }
      }
    }
  }

  /** Computes the nets and the greedy plan with the loops the component
      runs, and replaces the settlement list wholesale; with no members or no
      expenses nothing changes. */
  method CalculateSplit(g: Group) returns (r: Group)
    requires UniqueIds(g.members)
    ensures |g.members| == 0 || |g.expenses| == 0 ==> r == g
    ensures |g.members| > 0 && |g.expenses| > 0 ==>
              r == g.(settlements := Plan(g.members, g.expenses), showSettlements := true)
  {
    if |g.members| == 0 || |g.expenses| == 0 {
      return g;
    }
    var members, expenses := g.members, g.expenses;
    var n := |members|;
    var sharePerPerson := TotalAmount(expenses) / (n as real);
    var paid := PaidPerMember(members, expenses);
    var positions: seq<Party> := [];
    for i := 0 to n
      invariant |positions| == i
      invariant forall k :: 0 <= k < i ==> positions[k] == Party(members[k].id, members[k].name, paid[k] - sharePerPerson)
    {
      positions := positions + [Party(members[i].id, members[i].name, paid[i] - sharePerPerson)];
    }
    assert positions == Positions(members, expenses);
    var settlements := Greedy(Creditors(positions), Debtors(positions));
    r := g.(settlements := settlements, showSettlements := true);
  }

  function PaymentNote(s: Settlement): string
  {
    "Group expense payment to " + s.toName
  }

  /** Pays a settlement from the wallet as a transfer of exactly its amount.
      The group, and so its settlement list, is not touched. */
  method HandlePayment(wallet: W.WalletAccount, settlement: Settlement, id: string, timestamp: int)
    returns (success: bool)
    requires wallet.Valid()
    modifies wallet
    ensures wallet.Valid()
    ensures success <==> old(wallet.balance) >= settlement.amount
    ensures success ==>
              wallet.balance == old(wallet.balance) - settlement.amount &&
              wallet.transactions == [W.Transaction(id, W.Transfer, settlement.amount, PaymentNote(settlement), timestamp)] + old(wallet.transactions)
    ensures !success ==> wallet.balance == old(wallet.balance) && wallet.transactions == old(wallet.transactions)
  {
    success := wallet.TransferMoney(settlement.amount, PaymentNote(settlement), id, timestamp);
  }
}
