/** Phase 1 of `recalculateSettlementInternal` (src/services/settlement.ts):
    every participant starts at 0; each payment credits its payer with the
    full amount and debits the payment's valid targets, by ratio when the
    ratio list fits the valid targets and sums to something positive, else
    in equal shares. A positive balance is money owed to that participant. */
module Accrual {
  import opened Lists
  import opened Settlement

  type Balances = map<string, real>

  /** The balance of `k`; a key that was never written reads as 0. */
  function Get(b: Balances, k: string): real
  {
    if k in b then b[k] else 0.0
  }

  /** `balances[k] += d`. */
  function Adjust(b: Balances, k: string, d: real): (r: Balances)
    ensures r.Keys == b.Keys + {k}
    ensures Get(r, k) == Get(b, k) + d
    ensures forall j | j != k :: Get(r, j) == Get(b, j)
  {
    b[k := Get(b, k) + d]
  }

  /** The sum of the balances of the keys listed in `ks`. */
  function Total(b: Balances, ks: seq<string>): real
  {
    if ks == [] then 0.0 else Total(b, ks[..|ks| - 1]) + Get(b, ks[|ks| - 1])
  }

  /** Adding `d` to one balance adds `d` to the total over a duplicate-free
      key list that holds that key, and nothing otherwise. */
  lemma {:induction false} TotalAdjust(b: Balances, k: string, d: real, ks: seq<string>)
    requires Distinct(ks)
    ensures Total(Adjust(b, k, d), ks) == Total(b, ks) + (if k in ks then d else 0.0)
  {
    if ks != [] {
      var init := ks[..|ks| - 1];
      assert Distinct(init);
      TotalAdjust(b, k, d, init);
      assert k in ks <==> k in init || k == ks[|ks| - 1];
      assert k == ks[|ks| - 1] ==> k !in init;
    }
  }

  lemma {:induction false} TotalOfZeros(b: Balances, ks: seq<string>)
    requires forall k :: Get(b, k) == 0.0
    ensures Total(b, ks) == 0.0
  {
    if ks != [] {
      TotalOfZeros(b, ks[..|ks| - 1]);
    }
  }

  /** `participants.forEach(p => balances[p] = 0)`. */
  function Initial(ps: seq<string>): (b: Balances)
    ensures b.Keys == set p | p in ps
    ensures forall k :: Get(b, k) == 0.0
  {
    map p | p in ps :: 0.0
  }

  /** `payment.target.filter(t => participants.includes(t))`: order and
      repetitions of `target` are kept. */
  function ValidTargets(target: seq<string>, ps: seq<string>): (r: seq<string>)
    ensures forall t :: t in r <==> t in target && t in ps
    ensures |r| <= |target|
  {
    if target == [] then []
    else
      var t := target[|target| - 1];
      ValidTargets(target[..|target| - 1], ps) + (if t in ps then [t] else [])
  }

  /** When every target is a participant, the filter keeps the whole list. */
  lemma {:induction false} ValidTargetsAllKept(target: seq<string>, ps: seq<string>)
    requires forall t | t in target :: t in ps
    ensures ValidTargets(target, ps) == target
  {
    if target != [] {
      var n := |target| - 1;
      ValidTargetsAllKept(target[..n], ps);
      SplitLast(target);
    }
  }

  /** Every target of a fetched payment survives the filter at line 232:
      the fetched participant list is built from the same records. */
  lemma FetchedTargetsAllValid(calculateId: string, data: seq<Record>, transfers: seq<RawTransfer>, i: int)
    requires 0 <= i < |data|
    ensures var s := Shape(calculateId, data, transfers);
            ValidTargets(s.payments[i].target, s.participants) == s.payments[i].target
  {
    var s := Shape(calculateId, data, transfers);
    ShapedPaymentFits(calculateId, data, transfers, i);
    ValidTargetsAllKept(s.payments[i].target, s.participants);
  }

  /** A target that is a participant is kept as often as it is listed, so
      a repeated target is debited once per listing. */
  lemma {:induction false} ValidTargetsCount(target: seq<string>, ps: seq<string>)
    ensures forall t :: multiset(ValidTargets(target, ps))[t] == if t in ps then multiset(target)[t] else 0
  {
    if target != [] {
      var n := |target| - 1;
      ValidTargetsCount(target[..n], ps);
      assert target == target[..n] + [target[n]];
    }
  }

  lemma ValidTargetsSnoc(s: seq<string>, t: string, ps: seq<string>)
    ensures ValidTargets(s + [t], ps) == ValidTargets(s, ps) + (if t in ps then [t] else [])
  {
    assert (s + [t])[..|s|] == s;
  }

  /** The filter works piecewise, so valid targets keep their order. */
  lemma {:induction false} ValidTargetsAppend(a: seq<string>, b: seq<string>, ps: seq<string>)
    ensures ValidTargets(a + b, ps) == ValidTargets(a, ps) + ValidTargets(b, ps)
  {
    if b == [] {
      assert a + b == a;
    } else {
      var n := |b| - 1;
      assert a + b == (a + b[..n]) + [b[n]];
      assert b == b[..n] + [b[n]];
      ValidTargetsSnoc(a + b[..n], b[n], ps);
      ValidTargetsSnoc(b[..n], b[n], ps);
      ValidTargetsAppend(a, b[..n], ps);
    }
  }

  /** The ratio branch is taken when there is one ratio per valid target and
      the ratios add up to something positive. */
  predicate SplitsByRatio(p: Payment, vts: seq<string>)
  {
    |p.ratio| == |vts| && Sum(p.ratio) > 0.0
  }

  function Scaled(r: seq<real>, c: real): (s: seq<real>)
    ensures |s| == |r|
    ensures forall i | 0 <= i < |r| :: s[i] == r[i] * c
  {
    if r == [] then [] else Scaled(r[..|r| - 1], c) + [r[|r| - 1] * c]
  }

  lemma {:induction false} SumScaled(r: seq<real>, c: real)
    ensures Sum(Scaled(r, c)) == Sum(r) * c
  {
    if r != [] {
      SumScaled(r[..|r| - 1], c);
      assert Scaled(r, c)[..|r| - 1] == Scaled(r[..|r| - 1], c);
    }
  }

  function Repeat(x: real, n: nat): (s: seq<real>)
    ensures |s| == n
    ensures forall i | 0 <= i < n :: s[i] == x
  {
    if n == 0 then [] else Repeat(x, n - 1) + [x]
  }

  lemma {:induction false} SumRepeat(x: real, n: nat)
    ensures Sum(Repeat(x, n)) == x * n as real
  {
    if n > 0 {
      SumRepeat(x, n - 1);
      assert Repeat(x, n)[..n - 1] == Repeat(x, n - 1);
    }
  }

  /** What each valid target is debited: `ratio[i] * (amount / totalRatio)`
      in the ratio branch, `amount / validTargets.length` otherwise. Either
      way the shares add up to the full amount. */
  function Shares(p: Payment, vts: seq<string>): (sh: seq<real>)
    requires vts != []
    ensures |sh| == |vts|
    ensures SplitsByRatio(p, vts) ==> sh == Scaled(p.ratio, p.amount / Sum(p.ratio))
    ensures !SplitsByRatio(p, vts) ==> sh == Repeat(p.amount / |vts| as real, |vts|)
    ensures Sum(sh) == p.amount
  {
    if SplitsByRatio(p, vts) then
      RatioSharesAddUp(p.ratio, p.amount);
      Scaled(p.ratio, p.amount / Sum(p.ratio))
    else
      EqualSharesAddUp(p.amount, |vts|);
      Repeat(p.amount / |vts| as real, |vts|)
  }

  lemma RatioSharesAddUp(ratio: seq<real>, amount: real)
    requires Sum(ratio) != 0.0
    ensures Sum(Scaled(ratio, amount / Sum(ratio))) == amount
  {
    var total := Sum(ratio);
    SumScaled(ratio, amount / total);
    assert total * (amount / total) == amount;
  }

  lemma EqualSharesAddUp(amount: real, n: nat)
    requires n > 0
    ensures Sum(Repeat(amount / n as real, n)) == amount
  {
    SumRepeat(amount / n as real, n);
    assert (amount / n as real) * n as real == amount;
  }

  /** Debits `sh[i]` from `vts[i]`, in order. */
  function Debit(b: Balances, vts: seq<string>, sh: seq<real>): (r: Balances)
    requires |sh| == |vts|
  {
    if vts == [] then b
    else Adjust(Debit(b, vts[..|vts| - 1], sh[..|vts| - 1]), vts[|vts| - 1], -sh[|vts| - 1])
  }

  /** The debits write exactly the targets' keys. */
  lemma {:induction false} DebitKeys(b: Balances, vts: seq<string>, sh: seq<real>)
    requires |sh| == |vts|
    ensures Debit(b, vts, sh).Keys == b.Keys + set t | t in vts
  {
    if vts != [] {
      var n := |vts| - 1;
      DebitKeys(b, vts[..n], sh[..n]);
      assert vts == vts[..n] + [vts[n]];
    }
  }

  lemma DebitStep(b: Balances, vts: seq<string>, sh: seq<real>, k: nat)
    requires |sh| == |vts| && k < |vts|
    ensures Debit(b, vts[..k + 1], sh[..k + 1]) == Adjust(Debit(b, vts[..k], sh[..k]), vts[k], -sh[k])
  {
    assert vts[..k + 1][..k] == vts[..k] && sh[..k + 1][..k] == sh[..k];
  }

  /** What the debits take from one key, independent of the starting balances. */
  function DebitOf(vts: seq<string>, sh: seq<real>, k: string): real
    requires |sh| == |vts|
  {
    if vts == [] then 0.0
    else DebitOf(vts[..|vts| - 1], sh[..|vts| - 1], k) + (if vts[|vts| - 1] == k then sh[|vts| - 1] else 0.0)
  }

  lemma {:induction false} DebitAt(b: Balances, vts: seq<string>, sh: seq<real>, k: string)
    requires |sh| == |vts|
    ensures Get(Debit(b, vts, sh), k) == Get(b, k) - DebitOf(vts, sh, k)
  {
    if vts != [] {
      DebitAt(b, vts[..|vts| - 1], sh[..|vts| - 1], k);
    }
  }

  /** The debits take exactly the sum of the shares out of a duplicate-free
      key list that holds every target. */
  lemma {:induction false} TotalDebit(b: Balances, vts: seq<string>, sh: seq<real>, ks: seq<string>)
    requires |sh| == |vts| && Distinct(ks)
    requires forall t | t in vts :: t in ks
    ensures Total(Debit(b, vts, sh), ks) == Total(b, ks) - Sum(sh)
  {
    if vts != [] {
      var n := |vts| - 1;
      TotalDebit(b, vts[..n], sh[..n], ks);
      TotalAdjust(Debit(b, vts[..n], sh[..n]), vts[n], -sh[n], ks);
      assert sh[..n] + [sh[n]] == sh;
    }
  }

  /** A payment is skipped when its payer is not a participant or none of its
      targets is. */
  predicate Skipped(ps: seq<string>, p: Payment)
  {
    p.payer !in ps || ValidTargets(p.target, ps) == []
  }

  /** The effect of one payment on the balances (lines 228-259). */
  function Apply(b: Balances, ps: seq<string>, p: Payment): Balances
  {
    if Skipped(ps, p) then b
    else
      var vts := ValidTargets(p.target, ps);
      Debit(Adjust(b, p.payer, p.amount), vts, Shares(p, vts))
  }

  /** The change a payment makes to the balance of `k`: its amount if `k`
      paid, less every share debited to `k`. */
  function Effect(ps: seq<string>, p: Payment, k: string): real
  {
    if Skipped(ps, p) then 0.0
    else
      var vts := ValidTargets(p.target, ps);
      (if k == p.payer then p.amount else 0.0) - DebitOf(vts, Shares(p, vts), k)
  }

  /** The keys a payment writes. */
  function Touched(ps: seq<string>, p: Payment): set<string>
  {
    if Skipped(ps, p) then {} else {p.payer} + set t | t in ValidTargets(p.target, ps)
  }

  /** A payment shifts every balance by its own effect, whatever the
      balances were before. */
  lemma ApplyShifts(b: Balances, ps: seq<string>, p: Payment)
    ensures Apply(b, ps, p).Keys == b.Keys + Touched(ps, p)
    ensures forall k :: Get(Apply(b, ps, p), k) == Get(b, k) + Effect(ps, p, k)
  {
    if !Skipped(ps, p) {
      var vts := ValidTargets(p.target, ps);
      DebitKeys(Adjust(b, p.payer, p.amount), vts, Shares(p, vts));
      forall k
        ensures Get(Apply(b, ps, p), k) == Get(b, k) + Effect(ps, p, k)
      {
        DebitAt(Adjust(b, p.payer, p.amount), vts, Shares(p, vts), k);
      }
    }
  }

  /** Each processed payment credits and debits the same total, so the sum
      of the balances over the participants does not move. */
  lemma ApplyKeepsTotal(b: Balances, ps: seq<string>, p: Payment, ks: seq<string>)
    requires Distinct(ks) && forall k :: k in ks <==> k in ps
    ensures Total(Apply(b, ps, p), ks) == Total(b, ks)
  {
    if !Skipped(ps, p) {
      var vts := ValidTargets(p.target, ps);
      TotalAdjust(b, p.payer, p.amount, ks);
      TotalDebit(Adjust(b, p.payer, p.amount), vts, Shares(p, vts), ks);
    }
  }

  /** The balances after the first payments, in list order. */
  function Accrued(ps: seq<string>, pays: seq<Payment>): (b: Balances)
    ensures b.Keys == set p | p in ps
  {
    if pays == [] then Initial(ps)
    else
      var b := Accrued(ps, pays[..|pays| - 1]);
      ApplyShifts(b, ps, pays[|pays| - 1]);
      Apply(b, ps, pays[|pays| - 1])
  }

  /** Zero-sum: whatever the payments, the balances of the participants add
      up to 0 (counting each participant once). */
  lemma {:induction false} AccruedSumsToZero(ps: seq<string>, pays: seq<Payment>, ks: seq<string>)
    requires Distinct(ks) && forall k :: k in ks <==> k in ps
    ensures Total(Accrued(ps, pays), ks) == 0.0
  {
    if pays == [] {
      TotalOfZeros(Initial(ps), ks);
    } else {
      AccruedSumsToZero(ps, pays[..|pays| - 1], ks);
      ApplyKeepsTotal(Accrued(ps, pays[..|pays| - 1]), ps, pays[|pays| - 1], ks);
    }
  }

  lemma BalancesEqual(a: Balances, b: Balances)
    requires a.Keys == b.Keys && forall k :: Get(a, k) == Get(b, k)
    ensures a == b
  {
    forall k | k in a
      ensures a[k] == b[k]
    {
      assert Get(a, k) == Get(b, k);
    }
  }

  /** Two payments applied in either order give the same balances. */
  lemma ApplyCommutes(b: Balances, ps: seq<string>, p: Payment, q: Payment)
    ensures Apply(Apply(b, ps, p), ps, q) == Apply(Apply(b, ps, q), ps, p)
  {
    ApplyShifts(b, ps, p);
    ApplyShifts(b, ps, q);
    ApplyShifts(Apply(b, ps, p), ps, q);
    ApplyShifts(Apply(b, ps, q), ps, p);
    BalancesEqual(Apply(Apply(b, ps, p), ps, q), Apply(Apply(b, ps, q), ps, p));
  }

  lemma AccruedSnoc(ps: seq<string>, xs: seq<Payment>, p: Payment)
    ensures Accrued(ps, xs + [p]) == Apply(Accrued(ps, xs), ps, p)
  {
    assert (xs + [p])[..|xs|] == xs;
  }

  /** Payment order does not matter: swapping two neighbouring payments
      leaves every final balance as it was. */
  lemma {:induction false} AccruedSwap(ps: seq<string>, xs: seq<Payment>, p: Payment, q: Payment, ys: seq<Payment>)
    ensures Accrued(ps, xs + [p, q] + ys) == Accrued(ps, xs + [q, p] + ys)
  {
    if ys == [] {
      assert xs + [p, q] + ys == (xs + [p]) + [q];
      assert xs + [q, p] + ys == (xs + [q]) + [p];
      AccruedSnoc(ps, xs + [p], q);
      AccruedSnoc(ps, xs + [q], p);
      AccruedSnoc(ps, xs, p);
      AccruedSnoc(ps, xs, q);
      ApplyCommutes(Accrued(ps, xs), ps, p, q);
    } else {
      var n := |ys| - 1;
      AccruedSwap(ps, xs, p, q, ys[..n]);
      assert xs + [p, q] + ys == (xs + [p, q] + ys[..n]) + [ys[n]];
      assert xs + [q, p] + ys == (xs + [q, p] + ys[..n]) + [ys[n]];
      AccruedSnoc(ps, xs + [p, q] + ys[..n], ys[n]);
      AccruedSnoc(ps, xs + [q, p] + ys[..n], ys[n]);
    }
  }

  /** A skipped payment leaves every balance as it was, wherever it sits in
      the list. */
  lemma {:induction false} SkippedPaymentIsInvisible(ps: seq<string>, xs: seq<Payment>, p: Payment, ys: seq<Payment>)
    requires Skipped(ps, p)
    ensures Accrued(ps, xs + [p] + ys) == Accrued(ps, xs + ys)
  {
    if ys == [] {
      assert (xs + [p] + ys)[..|xs|] == xs;
      assert xs + ys == xs;
    } else {
      var n := |ys| - 1;
      SkippedPaymentIsInvisible(ps, xs, p, ys[..n]);
      SplitLast(ys);
      AppendAssoc(xs + [p], ys[..n], [ys[n]]);
      AppendAssoc(xs, ys[..n], [ys[n]]);
      AccruedSnoc(ps, xs + [p] + ys[..n], ys[n]);
      AccruedSnoc(ps, xs + ys[..n], ys[n]);
    }
  }

  /** The ratio branch's inner `forEach`: each valid target is debited its
      ratio times the amount per ratio unit. */
  method DebitByRatio(b0: Balances, vts: seq<string>, ratio: seq<real>, amountPerRatio: real)
    returns (b: Balances)
    requires |ratio| == |vts|
    ensures b == Debit(b0, vts, Scaled(ratio, amountPerRatio))
  {
    ghost var sh := Scaled(ratio, amountPerRatio);
    b := b0;
    assert vts[..0] == [] && sh[..0] == [];
    for k := 0 to |vts|
      invariant b == Debit(b0, vts[..k], sh[..k])
    {
      DebitStep(b0, vts, sh, k);
      var costShare := ratio[k] * amountPerRatio;
      b := Adjust(b, vts[k], -costShare);
    }
    assert vts[..|vts|] == vts && sh[..|vts|] == sh;
  }

  /** The equal-split branch's `forEach`: each valid target is debited the
      same share. */
  method DebitEqually(b0: Balances, vts: seq<string>, equalShare: real) returns (b: Balances)
    ensures b == Debit(b0, vts, Repeat(equalShare, |vts|))
  {
    ghost var sh := Repeat(equalShare, |vts|);
    b := b0;
    assert vts[..0] == [] && sh[..0] == [];
    for k := 0 to |vts|
      invariant b == Debit(b0, vts[..k], sh[..k])
    {
      DebitStep(b0, vts, sh, k);
      b := Adjust(b, vts[k], -equalShare);
    }
    assert vts[..|vts|] == vts && sh[..|vts|] == sh;
  }

  /** The `forEach` callback of phase 1: one payment. */
  method ApplyPayment(b0: Balances, ps: seq<string>, p: Payment) returns (b: Balances)
    ensures b == Apply(b0, ps, p)
  {
    b := b0;
    if p.payer !in ps {
      return;
    }
    var validTargets := ValidTargets(p.target, ps);
    if |validTargets| == 0 {
      return;
    }
    var totalRatio := Sum(p.ratio);
    b := Adjust(b, p.payer, p.amount);
    if |p.ratio| == |validTargets| && totalRatio > 0.0 {
      var amountPerRatio := p.amount / totalRatio;
      b := DebitByRatio(b, validTargets, p.ratio, amountPerRatio);
    } else {
      var equalShare := p.amount / |validTargets| as real;
      b := DebitEqually(b, validTargets, equalShare);
    }
  }

  /** Phase 1 as the source runs it: every participant set to 0, then one
      pass over the payments. */
  method Accrue(ps: seq<string>, pays: seq<Payment>) returns (b: Balances)
    ensures b == Accrued(ps, pays)
  {
    b := map[];
    for i := 0 to |ps|
      invariant b == Initial(ps[..i])
    {
      b := b[ps[i] := 0.0];
      assert ps[..i + 1] == ps[..i] + [ps[i]];
    }
    assert ps[..|ps|] == ps;
    for j := 0 to |pays|
      invariant b == Accrued(ps, pays[..j])
    {
      assert pays[..j + 1] == pays[..j] + [pays[j]];
      AccruedSnoc(ps, pays[..j], pays[j]);
      b := ApplyPayment(b, ps, pays[j]);
    }
    assert pays[..|pays|] == pays;
  }
}
