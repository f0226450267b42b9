/** `recalculateSettlementInternal` (src/services/settlement.ts) end to end:
    accrue the balances, list and sort creditors and debtors, net them, and
    return the settlement with only its transfer list replaced. */
module Recalculation {
  import opened Lists
  import opened Settlement
  import opened Accrual
  import opened Netting

  /** The creditors in the order the netting loop visits them (lines 264, 269). */
  function CreditorOrder(ps: seq<string>, b: Balances): (r: seq<string>)
    ensures forall x :: x in r <==> x in ps && Get(b, x) > Tolerance
    ensures SortedDesc(r, b)
    ensures forall v :: WithKey(r, b, v) == if v > Tolerance then WithKey(ps, b, v) else []
  {
    SortDescProperties(Creditors(ps, b), b);
    CreditorsKeepTies(ps, b);
    SortDesc(Creditors(ps, b), b)
  }

  /** The debtors in the order the netting loop visits them (lines 265, 270):
      the most indebted first. */
  function DebtorOrder(ps: seq<string>, b: Balances): (r: seq<string>)
    ensures forall x :: x in r <==> x in ps && Get(b, x) < -Tolerance
    ensures forall i, j | 0 <= i < j < |r| :: Get(b, r[i]) <= Get(b, r[j])
    ensures forall v :: WithKey(r, b, v) == if v < -Tolerance then WithKey(ps, b, v) else []
  {
    SortDescProperties(Debtors(ps, b), Negate(b));
    DebtorOrderTies(ps, b);
    SortDesc(Debtors(ps, b), Negate(b))
  }

  /** The debtor sort runs on the negated balances; its stability carries
      over to the balances themselves. */
  lemma DebtorOrderTies(ps: seq<string>, b: Balances)
    ensures forall v :: WithKey(SortDesc(Debtors(ps, b), Negate(b)), b, v) ==
              if v < -Tolerance then WithKey(ps, b, v) else []
  {
    var ds := Debtors(ps, b);
    var r := SortDesc(ds, Negate(b));
    SortDescProperties(ds, Negate(b));
    DebtorsKeepTies(ps, b);
    forall v
      ensures WithKey(r, b, v) == if v < -Tolerance then WithKey(ps, b, v) else []
    {
      WithKeyNegate(r, b, v);
      WithKeyNegate(ds, b, v);
    }
  }

  /** The whole recomputation. `flows` are the exact amounts the netting
      loop moved, those of the greedy walk over the accrued balances with the
      creditors and debtors in sorted order; the returned transfers carry
      their rounded values. */
  method Recalculate(s: Settlement) returns (r: Settlement, ghost flows: seq<Transfer>)
    ensures r == s.(optimizedTransfers := r.optimizedTransfers)
    ensures |r.optimizedTransfers| <= |s.participants|
    ensures var b := Accrued(s.participants, s.payments);
            var cs := CreditorOrder(s.participants, b);
            var ds := DebtorOrder(s.participants, b);
            var rest := Settle(b, flows);
            Signed(b, cs, ds) && flows == GreedyFlows(b, cs, ds, 0, 0) &&
            Recorded(r.optimizedTransfers, flows, cs, ds) &&
            Bounded(b, rest, cs, ds) &&
            ((forall c | c in cs :: Get(rest, c) <= Tolerance) || (forall d | d in ds :: Get(rest, d) >= -Tolerance))
  {
    var balances := Accrue(s.participants, s.payments);
    var payers := Creditors(s.participants, balances);
    var receivers := Debtors(s.participants, balances);
    SidesFit(s.participants, balances);
    payers := SortDesc(payers, balances);
    receivers := SortDesc(receivers, Negate(balances));
    var newOptimizedTransfers;
    ghost var rest;
    newOptimizedTransfers, flows, rest := Net(balances, payers, receivers);
    r := s.(optimizedTransfers := newOptimizedTransfers);
  }

  /** What the netting leaves still adds up to zero over the participants
      (each counted once): accrual and every flow both keep the sum. */
  lemma RemainderSumsToZero(ps: seq<string>, pays: seq<Payment>, flows: seq<Transfer>, ks: seq<string>)
    requires Distinct(ks) && forall k :: k in ks <==> k in ps
    requires forall n | 0 <= n < |flows| :: flows[n].from in ps && flows[n].to in ps
    ensures Total(Settle(Accrued(ps, pays), flows), ks) == 0.0
  {
    AccruedSumsToZero(ps, pays, ks);
    SettleKeepsTotal(Accrued(ps, pays), flows, ks);
  }
}
