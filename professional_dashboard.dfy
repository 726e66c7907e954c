/** The professional dashboard's bills: paying one from the shared wallet
    and the list of bills still to pay. */
module ProfessionalDashboard {
  import opened Seqs
  import W = WalletContext

  datatype Bill = Bill(id: string, name: string, amount: real, dueDate: string, category: string, paid: bool)

  predicate IsUnpaid(b: Bill) { !b.paid }

  predicate HasId(id: string, b: Bill) { b.id == id }

  predicate OtherBill(id: string, b: Bill) { b.id != id }

  /** Marks every bill with this id paid and leaves the others as they
      were, in place. */
  function MarkPaid(bills: seq<Bill>, id: string): (r: seq<Bill>)
    ensures |r| == |bills|
    ensures forall i :: 0 <= i < |r| ==> r[i].paid == (bills[i].paid || bills[i].id == id)
    ensures forall i :: 0 <= i < |r| ==> r[i].(paid := bills[i].paid) == bills[i]
  {
    if bills == [] then []
    else [if bills[0].id == id then bills[0].(paid := true) else bills[0]] + MarkPaid(bills[1..], id)
  }

  /** The "Upcoming Bills" list: the unpaid bills, in order. */
  function Upcoming(bills: seq<Bill>): (r: seq<Bill>)
    ensures |r| <= |bills|
    ensures forall i :: 0 <= i < |r| ==> r[i] in bills && !r[i].paid
    ensures forall i :: 0 <= i < |bills| && !bills[i].paid ==> bills[i] in r
  {
    Filter(bills, IsUnpaid)
  }

  /** The upcoming list keeps the bills' order: it distributes over any
      split of the bill list. */
  lemma UpcomingKeepsOrder(a: seq<Bill>, b: seq<Bill>)
    ensures Upcoming(a + b) == Upcoming(a) + Upcoming(b)
  {
    FilterConcat(a, b, IsUnpaid);
  }

  /** Marking a bill paid takes exactly the bills with its id off the
      upcoming list and leaves the others, in order. */
  lemma {:induction false} UpcomingAfterMarkPaid(bills: seq<Bill>, id: string)
    ensures Upcoming(MarkPaid(bills, id)) == Filter(Upcoming(bills), b => OtherBill(id, b))
  {
    if bills != [] {
      UpcomingAfterMarkPaid(bills[1..], id);
      var b := bills[0];
      var rest := Upcoming(bills[1..]);
      var marked := MarkPaid(bills, id);
      assert marked[1..] == MarkPaid(bills[1..], id);
      assert Upcoming(marked) == (if IsUnpaid(marked[0]) then [marked[0]] else []) + Upcoming(marked[1..]);
      assert Upcoming(bills) == (if IsUnpaid(b) then [b] else []) + rest;
      FilterConcat(if IsUnpaid(b) then [b] else [], rest, c => OtherBill(id, c));
      if IsUnpaid(b) {
        assert Filter([b], c => OtherBill(id, c)) == (if OtherBill(id, b) then [b] else []) + Filter([b][1..], c => OtherBill(id, c));
        assert [b][1..] == [];
      } else {
        assert Filter([], c => OtherBill(id, c)) == [];
      }
    }
  }

  /** Marking the same bill twice is marking it once. */
  lemma {:induction false} MarkPaidIdempotent(bills: seq<Bill>, id: string)
    ensures MarkPaid(MarkPaid(bills, id), id) == MarkPaid(bills, id)
  {
    if bills != [] {
      var marked := MarkPaid(bills, id);
      assert marked[1..] == MarkPaid(bills[1..], id);
      MarkPaidIdempotent(bills[1..], id);
    }
  }

  /** The first bill with this id, if there is one. */
  function FindBill(bills: seq<Bill>, id: string): (r: Option<Bill>)
    ensures r.None? <==> forall i :: 0 <= i < |bills| ==> bills[i].id != id
    ensures r.Some? ==> r.value.id == id
    ensures r.Some? ==> exists i :: 0 <= i < |bills| && bills[i] == r.value &&
                                    forall k :: 0 <= k < i ==> bills[k].id != id
  {
    Find(bills, b => HasId(id, b))
  }

  function PaymentNote(b: Bill): string
  {
    "Bill payment: " + b.name
  }

  /** Pays the first bill with this id from the wallet and, when the debit
      goes through, marks every bill with that id paid. An unknown id or a
      refused debit changes nothing. The paid flag is not consulted: a bill
      already paid is charged again. */
  method MarkBillPaid(wallet: W.WalletAccount, bills: seq<Bill>, billId: string, txId: string, timestamp: int)
    returns (bills': seq<Bill>, success: bool)
    requires wallet.Valid()
    modifies wallet
    ensures wallet.Valid()
    ensures FindBill(bills, billId).None? ==> !success
    ensures FindBill(bills, billId).Some? ==>
              (success <==> old(wallet.balance) >= FindBill(bills, billId).value.amount)
    ensures success ==>
              wallet.balance == old(wallet.balance) - FindBill(bills, billId).value.amount &&
              wallet.transactions ==
                [W.Transaction(txId, W.Expense, FindBill(bills, billId).value.amount, PaymentNote(FindBill(bills, billId).value), timestamp)] +
                old(wallet.transactions) &&
              bills' == MarkPaid(bills, billId) &&
              Upcoming(bills') == Filter(Upcoming(bills), b => OtherBill(billId, b))
    ensures !success ==>
              wallet.balance == old(wallet.balance) && wallet.transactions == old(wallet.transactions) &&
              bills' == bills
  {
    bills', success := bills, false;
    var found := FindBill(bills, billId);
    if found.Some? {
      var bill := found.value;
      success := wallet.DeductExpense(bill.amount, PaymentNote(bill), txId, timestamp);
      if success {
        bills' := MarkPaid(bills, billId);
        UpcomingAfterMarkPaid(bills, billId);
      }
    }
  }
}
