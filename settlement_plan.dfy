/** The greedy settlement of a group's net positions. Creditors (owed money)
    are visited in order; each one meets the debtors in order and takes
    `min(remaining, |debtor balance|)` from every debtor that still owes,
    until its claim is met. The debtor balances are shared by all creditors:
    what one creditor collects is no longer owed to the next.

    The algorithm is written as "the state after j steps" so that the
    imperative loops in `GroupExpenseSplit.CalculateSplit` can be proved equal
    to it, and the lemmas below state what the plan achieves. */
module SettlementPlan {
  import opened Seqs

  /** A member's identity with its net position (paid minus share). */
  datatype Party = Party(id: string, name: string, net: real)

  /** `from` pays `to` the amount. */
  datatype Settlement = Settlement(from: string, fromName: string, to: string, toName: string, amount: real)

  /** The debtors' current (non-positive) balances, aligned with the debtor
      list, and the settlements emitted so far. */
  datatype Progress = Progress(owed: seq<real>, out: seq<Settlement>)

  function Min(a: real, b: real): real { if a <= b then a else b }

  function Abs(a: real): real { if a < 0.0 then -a else a }

  function PartyNet(p: Party): real { p.net }

  function SumNets(ps: seq<Party>): real { Sum(ps, PartyNet) }

  function Owed(ds: seq<Party>): seq<real>
  {
    seq(|ds|, j requires 0 <= j < |ds| => ds[j].net)
  }

  function Start(ds: seq<Party>): Progress
  {
    Progress(Owed(ds), [])
  }

  /** Creditor `c`, with `r` still to collect, meets debtor `j`. Only that
      debtor's balance moves, by exactly what the creditor collects; it stays
      between its old value and zero; the claim never goes negative; and at
      most one settlement, from that debtor to `c` for the collected amount,
      is emitted, after which the claim or the debt is used up. */
  function Step(c: Party, ds: seq<Party>, r: real, p: Progress, j: nat): (res: (real, Progress))
    requires j < |ds| == |p.owed|
    ensures |res.1.owed| == |ds|
    ensures forall k :: 0 <= k < |ds| && k != j ==> res.1.owed[k] == p.owed[k]
    ensures r - res.0 == res.1.owed[j] - p.owed[j]
    ensures p.owed[j] <= 0.0 ==> p.owed[j] <= res.1.owed[j] <= 0.0
    ensures r >= 0.0 ==> 0.0 <= res.0 <= r
    ensures res.1.out == p.out ||
            (r - res.0 > 0.0 && (res.0 == 0.0 || res.1.owed[j] == 0.0) &&
             res.1.out == p.out + [Settlement(ds[j].id, ds[j].name, c.id, c.name, r - res.0)])
  {
    if r > 0.0 && p.owed[j] < 0.0 then
      var a := Min(r, Abs(p.owed[j]));
      (r - a, Progress(p.owed[j := p.owed[j] + a], p.out + [Settlement(ds[j].id, ds[j].name, c.id, c.name, a)]))
    else
      (r, p)
  }

  /** Creditor `c` after meeting the first `j` debtors, starting from `p`;
      the first component is what it still has to collect. The debtors not
      yet met are untouched, the claim stays between zero and the creditor's
      net, and the settlements so far are extended by at most one per debtor
      met. */
  function Sweep(c: Party, ds: seq<Party>, p: Progress, j: nat): (res: (real, Progress))
    requires j <= |ds| == |p.owed|
    ensures |res.1.owed| == |ds|
    ensures forall k :: j <= k < |ds| ==> res.1.owed[k] == p.owed[k]
    ensures c.net >= 0.0 ==> 0.0 <= res.0 <= c.net
    ensures |p.out| <= |res.1.out| <= |p.out| + j && res.1.out[..|p.out|] == p.out
  {
    if j == 0 then (c.net, p)
    else
      var prev := Sweep(c, ds, p, j - 1);
      Step(c, ds, prev.0, prev.1, j - 1)
  }

  /** The state after the first `i` creditors have been served: serving
      one more creditor only appends settlements. */
  function SettleUpTo(cs: seq<Party>, ds: seq<Party>, i: nat): (p: Progress)
    requires i <= |cs|
    ensures |p.owed| == |ds|
  {
    if i == 0 then Start(ds) else Sweep(cs[i - 1], ds, SettleUpTo(cs, ds, i - 1), |ds|).1
  }

  /** The whole plan: positive amounts only, and with N creditors plus
      debtors at most N - 1 settlements (none when N = 0). The count needs
      no assumption that claims and debts balance. */
  function Settle(cs: seq<Party>, ds: seq<Party>): (out: seq<Settlement>)
    ensures |cs| + |ds| == 0 ==> out == []
    ensures |cs| + |ds| > 0 ==> |out| <= |cs| + |ds| - 1
    ensures forall n :: 0 <= n < |out| ==> out[n].amount > 0.0
  {
    SettleCount(cs, ds, |cs|);
    SettleDirected(cs, ds, |cs|);
    SettleUpTo(cs, ds, |cs|).out
  }

  // ---------------------------------------------------------------------
  // Aggregates over a plan

  /** Total received by `id`. */
  function Received(out: seq<Settlement>, id: string): real
  {
    if out == [] then 0.0
    else Received(out[..|out| - 1], id) + (if out[|out| - 1].to == id then out[|out| - 1].amount else 0.0)
  }

  /** Total paid by `id`. */
  function Sent(out: seq<Settlement>, id: string): real
  {
    if out == [] then 0.0
    else Sent(out[..|out| - 1], id) + (if out[|out| - 1].from == id then out[|out| - 1].amount else 0.0)
  }

  /** Number of debtors that still owe something. */
  function Alive(xs: seq<real>): (n: nat)
    ensures n <= |xs|
  {
    if xs == [] then 0 else (if xs[0] < 0.0 then 1 else 0) + Alive(xs[1..])
  }

  ghost predicate Signed(cs: seq<Party>, ds: seq<Party>)
  {
    (forall k :: 0 <= k < |cs| ==> cs[k].net > 0.0) &&
    (forall j :: 0 <= j < |ds| ==> ds[j].net < 0.0)
  }

  function PartyId(p: Party): string { p.id }

  ghost predicate DistinctIds(ps: seq<Party>)
  {
    DistinctKeys(ps, PartyId)
  }

  // ---------------------------------------------------------------------
  // Direction: every settlement runs from a debtor to a creditor and is positive

  ghost predicate FromDebtor(s: Settlement, ds: seq<Party>)
  {
    exists j :: 0 <= j < |ds| && s.from == ds[j].id && s.fromName == ds[j].name
  }

  ghost predicate ToCreditor(s: Settlement, cs: seq<Party>)
  {
    exists k :: 0 <= k < |cs| && s.to == cs[k].id && s.toName == cs[k].name
  }

  ghost predicate Directed(out: seq<Settlement>, cs: seq<Party>, ds: seq<Party>)
  {
    forall n :: 0 <= n < |out| ==> out[n].amount > 0.0 && FromDebtor(out[n], ds) && ToCreditor(out[n], cs)
  }

  lemma {:induction false} SweepDirected(cs: seq<Party>, ds: seq<Party>, i: nat, p: Progress, j: nat)
    requires i < |cs| && j <= |ds| == |p.owed|
    requires Directed(p.out, cs, ds)
    ensures Directed(Sweep(cs[i], ds, p, j).1.out, cs, ds)
  {
    if j > 0 {
      SweepDirected(cs, ds, i, p, j - 1);
      var prev := Sweep(cs[i], ds, p, j - 1);
      var r, q := prev.0, prev.1;
      if r > 0.0 && q.owed[j - 1] < 0.0 {
        var a := Min(r, Abs(q.owed[j - 1]));
        var x := Settlement(ds[j - 1].id, ds[j - 1].name, cs[i].id, cs[i].name, a);
        assert FromDebtor(x, ds) && ToCreditor(x, cs);
        var out' := q.out + [x];
        forall n | 0 <= n < |out'|
          ensures out'[n].amount > 0.0 && FromDebtor(out'[n], ds) && ToCreditor(out'[n], cs)
        {
          if n < |q.out| { assert out'[n] == q.out[n]; }
        }
      }
    }
  }

  /** Every settlement has a positive amount, is paid by a debtor and is
      received by a creditor (with the names of those parties). */
  lemma {:induction false} SettleDirected(cs: seq<Party>, ds: seq<Party>, i: nat)
    requires i <= |cs|
    ensures Directed(SettleUpTo(cs, ds, i).out, cs, ds)
  {
    if i > 0 {
      SettleDirected(cs, ds, i - 1);
      SweepDirected(cs, ds, i - 1, SettleUpTo(cs, ds, i - 1), |ds|);
    }
  }

  // ---------------------------------------------------------------------
  // Count: at most one settlement fewer than the number of parties

  lemma {:induction false} AliveUpdate(xs: seq<real>, j: nat, v: real)
    requires j < |xs|
    ensures Alive(xs[j := v]) == Alive(xs) - (if xs[j] < 0.0 then 1 else 0) + (if v < 0.0 then 1 else 0)
  {
    if j == 0 {
      assert xs[j := v][1..] == xs[1..];
    } else {
      assert xs[j := v][1..] == xs[1..][j - 1 := v];
      AliveUpdate(xs[1..], j - 1, v);
    }
  }

  function Live(r: real): nat { if r > 0.0 then 1 else 0 }

  /** `phi` counts the parties still able to take part in a settlement; each
      settlement retires at least one of them and needs two. */
  ghost predicate CountInv(n: int, count: int, phi: int)
  {
    count + phi <= n && (count > 0 ==> count < n)
  }

  lemma {:induction false} SweepCount(cs: seq<Party>, ds: seq<Party>, i: nat, p: Progress, j: nat)
    requires i < |cs| && j <= |ds| == |p.owed|
    requires CountInv(|cs| + |ds|, |p.out|, Alive(p.owed) + |cs| - i)
    ensures CountInv(|cs| + |ds|, |Sweep(cs[i], ds, p, j).1.out|,
                     Live(Sweep(cs[i], ds, p, j).0) + Alive(Sweep(cs[i], ds, p, j).1.owed) + |cs| - i - 1)
  {
    if j > 0 {
      SweepCount(cs, ds, i, p, j - 1);
      var prev := Sweep(cs[i], ds, p, j - 1);
      var r, q := prev.0, prev.1;
      if r > 0.0 && q.owed[j - 1] < 0.0 {
        var a := Min(r, Abs(q.owed[j - 1]));
        AliveUpdate(q.owed, j - 1, q.owed[j - 1] + a);
        AliveUpdate(q.owed, j - 1, 0.0);
      }
    }
  }

  lemma {:induction false} SettleCount(cs: seq<Party>, ds: seq<Party>, i: nat)
    requires i <= |cs|
    ensures CountInv(|cs| + |ds|, |SettleUpTo(cs, ds, i).out|, Alive(SettleUpTo(cs, ds, i).owed) + |cs| - i)
  {
    if i > 0 {
      SettleCount(cs, ds, i - 1);
      SweepCount(cs, ds, i - 1, SettleUpTo(cs, ds, i - 1), |ds|);
    }
  }

  // ---------------------------------------------------------------------
  // Totals: every creditor receives its net, every debtor pays its debt

  lemma {:induction false} TotalOfOwed(ds: seq<Party>)
    ensures Total(Owed(ds)) == SumNets(ds)
  {
    if ds != [] {
      assert Owed(ds)[1..] == Owed(ds[1..]);
      TotalOfOwed(ds[1..]);
    }
  }

  lemma {:induction false} SumNetsOfPositive(ps: seq<Party>)
    requires forall k :: 0 <= k < |ps| ==> ps[k].net > 0.0
    ensures SumNets(ps) >= 0.0
  {
    if ps != [] {
      SumNetsOfPositive(ps[1..]);
    }
  }

  lemma {:induction false} TotalOfZeros(xs: seq<real>)
    requires forall j :: 0 <= j < |xs| ==> xs[j] == 0.0
    ensures Total(xs) == 0.0
  {
    if xs != [] {
      TotalOfZeros(xs[1..]);
    }
  }

  /** Debtor balances stay between the debtor's net and zero, and what each
      debtor has paid so far is the distance it moved. */
  ghost predicate DebtorsInv(ds: seq<Party>, p: Progress)
  {
    |p.owed| == |ds| &&
    (forall j :: 0 <= j < |ds| ==> ds[j].net <= p.owed[j] <= 0.0) &&
    (forall j :: 0 <= j < |ds| ==> Sent(p.out, ds[j].id) == p.owed[j] - ds[j].net)
  }

  /** After `i` creditors: those served received exactly their net, the rest
      nothing, and the remaining debt equals the remaining claims. */
  ghost predicate SettledInv(cs: seq<Party>, ds: seq<Party>, i: nat, p: Progress)
    requires i <= |cs|
  {
    DebtorsInv(ds, p) &&
    (forall k :: 0 <= k < |cs| ==> Received(p.out, cs[k].id) == (if k < i then cs[k].net else 0.0)) &&
    Total(p.owed) + SumNets(cs[i..]) == 0.0
  }

  /** Within the sweep of creditor `i` that has `r` left after `j` debtors. */
  ghost predicate SweepInv(cs: seq<Party>, ds: seq<Party>, i: nat, r: real, p: Progress, j: nat)
    requires i < |cs| && j <= |ds|
  {
    DebtorsInv(ds, p) &&
    (forall k :: 0 <= k < |cs| ==>
       Received(p.out, cs[k].id) == (if k < i then cs[k].net else if k == i then cs[i].net - r else 0.0)) &&
    Total(p.owed) + r + SumNets(cs[i + 1..]) == 0.0 &&
    r >= 0.0 &&
    (r > 0.0 ==> forall j' :: 0 <= j' < j ==> p.owed[j'] == 0.0)
  }

  lemma SentAppend(out: seq<Settlement>, x: Settlement, id: string)
    ensures Sent(out + [x], id) == Sent(out, id) + (if x.from == id then x.amount else 0.0)
  {
    assert (out + [x])[..|out|] == out;
  }

  lemma ReceivedAppend(out: seq<Settlement>, x: Settlement, id: string)
    ensures Received(out + [x], id) == Received(out, id) + (if x.to == id then x.amount else 0.0)
  {
    assert (out + [x])[..|out|] == out;
  }

  /** Collecting `a` from debtor `j` moves its balance by `a` and adds `a`
      to what it has sent, and to nobody else's. */
  lemma CollectKeepsDebtorsInv(ds: seq<Party>, p: Progress, j: nat, x: Settlement)
    requires j < |ds| && DistinctIds(ds) && DebtorsInv(ds, p)
    requires 0.0 < x.amount <= -p.owed[j] && x.from == ds[j].id
    ensures DebtorsInv(ds, Progress(p.owed[j := p.owed[j] + x.amount], p.out + [x]))
  {
    var p' := Progress(p.owed[j := p.owed[j] + x.amount], p.out + [x]);
    forall j' | 0 <= j' < |ds|
      ensures Sent(p'.out, ds[j'].id) == p'.owed[j'] - ds[j'].net
    {
      SentAppend(p.out, x, ds[j'].id);
      if j' != j { assert ds[j'].id != ds[j].id; }
    }
  }

  /** Paying `a` to creditor `i` lowers what it still has to collect by `a`
      and changes nobody else's receipts. */
  lemma CollectKeepsReceipts(cs: seq<Party>, i: nat, r: real, out: seq<Settlement>, x: Settlement)
    requires i < |cs| && DistinctIds(cs) && x.to == cs[i].id
    requires forall k :: 0 <= k < |cs| ==>
               Received(out, cs[k].id) == (if k < i then cs[k].net else if k == i then cs[i].net - r else 0.0)
    ensures forall k :: 0 <= k < |cs| ==>
              Received(out + [x], cs[k].id) ==
              (if k < i then cs[k].net else if k == i then cs[i].net - (r - x.amount) else 0.0)
  {
    forall k | 0 <= k < |cs|
      ensures Received(out + [x], cs[k].id) ==
              (if k < i then cs[k].net else if k == i then cs[i].net - (r - x.amount) else 0.0)
    {
      ReceivedAppend(out, x, cs[k].id);
      if k != i { assert cs[k].id != cs[i].id; }
    }
  }

  lemma StepKeepsSweepInv(cs: seq<Party>, ds: seq<Party>, i: nat, r: real, p: Progress, j: nat)
    requires i < |cs| && j < |ds|
    requires DistinctIds(cs) && DistinctIds(ds)
    requires SweepInv(cs, ds, i, r, p, j)
    ensures SweepInv(cs, ds, i, Step(cs[i], ds, r, p, j).0, Step(cs[i], ds, r, p, j).1, j + 1)
  {
    var c := cs[i];
    if r > 0.0 && p.owed[j] < 0.0 {
      var a := Min(r, Abs(p.owed[j]));
      assert 0.0 < a <= r && a <= -p.owed[j];
      assert a == r || a == -p.owed[j];
      var x := Settlement(ds[j].id, ds[j].name, c.id, c.name, a);
      var p' := Progress(p.owed[j := p.owed[j] + a], p.out + [x]);
      var r' := r - a;
      assert Step(c, ds, r, p, j) == (r', p');
      CollectKeepsDebtorsInv(ds, p, j, x);
      CollectKeepsReceipts(cs, i, r, p.out, x);
      TotalUpdate(p.owed, j, p.owed[j] + a);
      assert Total(p'.owed) + r' + SumNets(cs[i + 1..]) == 0.0;
      assert r' > 0.0 ==> forall j' :: 0 <= j' < j + 1 ==> p'.owed[j'] == 0.0;
    } else {
      assert r > 0.0 ==> p.owed[j] == 0.0;
    }
  }

  lemma {:induction false} SweepKeepsInv(cs: seq<Party>, ds: seq<Party>, i: nat, p: Progress, j: nat)
    requires i < |cs| && j <= |ds|
    requires Signed(cs, ds) && DistinctIds(cs) && DistinctIds(ds)
    requires SettledInv(cs, ds, i, p)
    ensures SweepInv(cs, ds, i, Sweep(cs[i], ds, p, j).0, Sweep(cs[i], ds, p, j).1, j)
  {
    if j == 0 {
      assert cs[i..][1..] == cs[i + 1..];
    } else {
      SweepKeepsInv(cs, ds, i, p, j - 1);
      var prev := Sweep(cs[i], ds, p, j - 1);
      StepKeepsSweepInv(cs, ds, i, prev.0, prev.1, j - 1);
    }
  }

  /** The invariant of the greedy: it holds before the first creditor and
      after each one. In particular every served creditor received exactly
      its net and no debtor balance ever rises above zero. */
  lemma {:induction false} SettleKeepsInv(cs: seq<Party>, ds: seq<Party>, i: nat)
    requires i <= |cs|
    requires Signed(cs, ds) && DistinctIds(cs) && DistinctIds(ds)
    requires SumNets(cs) + SumNets(ds) == 0.0
    ensures SettledInv(cs, ds, i, SettleUpTo(cs, ds, i))
  {
    if i == 0 {
      TotalOfOwed(ds);
      assert cs[0..] == cs;
    } else {
      SettleKeepsInv(cs, ds, i - 1);
      var p := SettleUpTo(cs, ds, i - 1);
      SweepKeepsInv(cs, ds, i - 1, p, |ds|);
      var res := Sweep(cs[i - 1], ds, p, |ds|);
      var r, q := res.0, res.1;
      if r > 0.0 {
        TotalOfZeros(q.owed);
        SumNetsOfPositive(cs[i..]);
        assert false;
      }
    }
  }

  /** Each debtor balance lies between the debtor's net and zero. */
  ghost predicate DebtsBetween(ds: seq<Party>, owed: seq<real>)
  {
    |owed| == |ds| && forall j :: 0 <= j < |ds| ==> ds[j].net <= owed[j] <= 0.0
  }

  lemma {:induction false} SweepKeepsDebtsBetween(c: Party, ds: seq<Party>, p: Progress, j: nat)
    requires j <= |ds| == |p.owed|
    requires DebtsBetween(ds, p.owed)
    ensures DebtsBetween(ds, Sweep(c, ds, p, j).1.owed)
  {
    if j > 0 {
      SweepKeepsDebtsBetween(c, ds, p, j - 1);
      var prev := Sweep(c, ds, p, j - 1);
      var r, q := prev.0, prev.1;
      assert Sweep(c, ds, p, j) == Step(c, ds, r, q, j - 1);
      if r > 0.0 && q.owed[j - 1] < 0.0 {
        var a := Min(r, Abs(q.owed[j - 1]));
        assert 0.0 < a <= -q.owed[j - 1];
      }
    }
  }

  /** After any number of creditors, no debtor's remaining balance has risen
      above zero or fallen below its starting debt: each step takes at most
      what the debtor still owes. */
  lemma {:induction false} DebtStaysBetween(cs: seq<Party>, ds: seq<Party>, i: nat)
    requires i <= |cs|
    requires forall j :: 0 <= j < |ds| ==> ds[j].net <= 0.0
    ensures forall j :: 0 <= j < |ds| ==> ds[j].net <= SettleUpTo(cs, ds, i).owed[j] <= 0.0
  {
    if i > 0 {
      DebtStaysBetween(cs, ds, i - 1);
      SweepKeepsDebtsBetween(cs[i - 1], ds, SettleUpTo(cs, ds, i - 1), |ds|);
    }
  }

  /** Serving more creditors only appends settlements: what was emitted for
      the first `i` creditors is a prefix of what is emitted for the first
      `k`, and so of the whole plan. */
  lemma {:induction false} SettleOnlyAppends(cs: seq<Party>, ds: seq<Party>, i: nat, k: nat)
    requires i <= k <= |cs|
    ensures SettleUpTo(cs, ds, i).out <= SettleUpTo(cs, ds, k).out
  {
    if i < k {
      SettleOnlyAppends(cs, ds, i, k - 1);
      var p := SettleUpTo(cs, ds, k - 1);
      var q := Sweep(cs[k - 1], ds, p, |ds|).1;
      assert p.out == q.out[..|p.out|];
    }
  }

  /** With claims and debts in balance, the plan pays every creditor exactly
      its net and collects from every debtor exactly its debt, leaving no
      debtor owing anything. */
  lemma SettleTotals(cs: seq<Party>, ds: seq<Party>)
    requires Signed(cs, ds) && DistinctIds(cs) && DistinctIds(ds)
    requires SumNets(cs) + SumNets(ds) == 0.0
    ensures forall k :: 0 <= k < |cs| ==> Received(Settle(cs, ds), cs[k].id) == cs[k].net
    ensures forall j :: 0 <= j < |ds| ==> Sent(Settle(cs, ds), ds[j].id) == -ds[j].net
    ensures forall j :: 0 <= j < |ds| ==> SettleUpTo(cs, ds, |cs|).owed[j] == 0.0
  {
    SettleKeepsInv(cs, ds, |cs|);
    var p := SettleUpTo(cs, ds, |cs|);
    assert cs[|cs|..] == [];
    ZeroTotalOfNonPositive(p.owed);
  }

  // ---------------------------------------------------------------------
  // Order: creditor-major, debtor-minor

  /** Position of the first party with this id (|ps| when there is none). */
  function IndexOf(ps: seq<Party>, id: string): (k: nat)
    ensures k <= |ps|
    ensures k < |ps| ==> ps[k].id == id
    ensures forall a :: 0 <= a < k ==> ps[a].id != id
  {
    if ps == [] then 0
    else if ps[0].id == id then 0
    else 1 + IndexOf(ps[1..], id)
  }

  ghost predicate Precedes(cs: seq<Party>, ds: seq<Party>, x: Settlement, y: Settlement)
  {
    IndexOf(cs, x.to) < IndexOf(cs, y.to) ||
    (IndexOf(cs, x.to) == IndexOf(cs, y.to) && IndexOf(ds, x.from) < IndexOf(ds, y.from))
  }

  ghost predicate Ordered(cs: seq<Party>, ds: seq<Party>, out: seq<Settlement>)
  {
    forall a, b :: 0 <= a < b < |out| ==> Precedes(cs, ds, out[a], out[b])
  }

  /** Within creditor `i`'s sweep after `j` debtors: everything so far was
      emitted for an earlier creditor, or for this one and an earlier debtor. */
  ghost predicate EmittedBefore(cs: seq<Party>, ds: seq<Party>, out: seq<Settlement>, i: nat, j: nat)
  {
    forall a :: 0 <= a < |out| ==>
      IndexOf(cs, out[a].to) < i || (IndexOf(cs, out[a].to) == i && IndexOf(ds, out[a].from) < j)
  }

  /** A settlement for creditor `i` and debtor `j` may follow everything
      emitted before it. */
  lemma AppendOrdered(cs: seq<Party>, ds: seq<Party>, out: seq<Settlement>, x: Settlement, i: nat, j: nat)
    requires Ordered(cs, ds, out) && EmittedBefore(cs, ds, out, i, j)
    requires IndexOf(cs, x.to) == i && IndexOf(ds, x.from) == j
    ensures Ordered(cs, ds, out + [x]) && EmittedBefore(cs, ds, out + [x], i, j + 1)
  {
    var out' := out + [x];
    forall a', b | 0 <= a' < b < |out'|
      ensures Precedes(cs, ds, out'[a'], out'[b])
    {
      assert out'[a'] == out[a'];
      if b < |out| { assert out'[b] == out[b]; } else { assert out'[b] == x; }
    }
    forall a' | 0 <= a' < |out'|
      ensures IndexOf(cs, out'[a'].to) < i || (IndexOf(cs, out'[a'].to) == i && IndexOf(ds, out'[a'].from) < j + 1)
    {
      if a' < |out| { assert out'[a'] == out[a']; }
    }
  }

  lemma {:induction false} SweepOrdered(cs: seq<Party>, ds: seq<Party>, i: nat, p: Progress, j: nat)
    requires i < |cs| && j <= |ds| == |p.owed|
    requires DistinctIds(cs) && DistinctIds(ds)
    requires Ordered(cs, ds, p.out) && EmittedBefore(cs, ds, p.out, i, 0)
    ensures Ordered(cs, ds, Sweep(cs[i], ds, p, j).1.out)
    ensures EmittedBefore(cs, ds, Sweep(cs[i], ds, p, j).1.out, i, j)
  {
    if j > 0 {
      SweepOrdered(cs, ds, i, p, j - 1);
      var prev := Sweep(cs[i], ds, p, j - 1);
      var r, q := prev.0, prev.1;
      assert Sweep(cs[i], ds, p, j) == Step(cs[i], ds, r, q, j - 1);
      if r > 0.0 && q.owed[j - 1] < 0.0 {
        var a := Min(r, Abs(q.owed[j - 1]));
        var x := Settlement(ds[j - 1].id, ds[j - 1].name, cs[i].id, cs[i].name, a);
        assert Step(cs[i], ds, r, q, j - 1).1.out == q.out + [x];
        AppendOrdered(cs, ds, q.out, x, i, j - 1);
      }
    }
  }

  /** Settlements come out grouped by creditor in creditor order, and within
      one creditor in debtor order. */
  lemma {:induction false} SettleOrdered(cs: seq<Party>, ds: seq<Party>, i: nat)
    requires i <= |cs|
    requires DistinctIds(cs) && DistinctIds(ds)
    ensures Ordered(cs, ds, SettleUpTo(cs, ds, i).out)
    ensures forall a :: 0 <= a < |SettleUpTo(cs, ds, i).out| ==> IndexOf(cs, SettleUpTo(cs, ds, i).out[a].to) < i
  {
    if i > 0 {
      SettleOrdered(cs, ds, i - 1);
      var p := SettleUpTo(cs, ds, i - 1);
      SweepOrdered(cs, ds, i - 1, p, |ds|);
    }
  }
}
