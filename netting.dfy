/** Phase 2 of `recalculateSettlementInternal` (src/services/settlement.ts):
    the participants owed more than the tolerance and those owing more than
    it are sorted by the size of their balance, and a two-cursor greedy walk
    pairs the current creditor with the current debtor, moving the smaller of
    the two amounts and recording it, rounded, as a transfer. */
module Netting {
  import opened JsNumber
  import opened Lists
  import opened Settlement
  import opened Accrual

  /** `tolerance`: balances within one hundredth of zero count as settled. */
  const Tolerance: real := 0.01

  /** Nobody is both owed and owing, so the two lists together are no longer
      than the participant list. */
  lemma {:induction false} SidesFit(ps: seq<string>, b: Balances)
    ensures |Creditors(ps, b)| + |Debtors(ps, b)| <= |ps|
  {
    if ps != [] {
      SidesFit(ps[..|ps| - 1], b);
    }
  }

  /** The balances with every sign flipped: debtors are the creditors of
      this map, and sorting them ascending by balance is sorting them
      descending by it. */
  function Negate(b: Balances): (r: Balances)
    ensures forall k :: Get(r, k) == -Get(b, k)
  {
    map k | k in b :: -b[k]
  }

  /** `participants.filter(p => balances[p] > tolerance)`: the participants
      owed money, in order, repetitions kept (the source names this list
      `payers`). */
  function Creditors(ps: seq<string>, b: Balances): (r: seq<string>)
    ensures forall x :: x in r <==> x in ps && Get(b, x) > Tolerance
    ensures forall x :: multiset(r)[x] == if Get(b, x) > Tolerance then multiset(ps)[x] else 0
  {
    if ps == [] then []
    else
      var n := |ps| - 1;
      assert ps == ps[..n] + [ps[n]];
      Creditors(ps[..n], b) + (if Get(b, ps[n]) > Tolerance then [ps[n]] else [])
  }

  /** `participants.filter(p => balances[p] < -tolerance)`: the participants
      who owe money (the source names this list `receivers`). */
  function Debtors(ps: seq<string>, b: Balances): (r: seq<string>)
    ensures forall x :: x in r <==> x in ps && Get(b, x) < -Tolerance
    ensures forall x :: multiset(r)[x] == if Get(b, x) < -Tolerance then multiset(ps)[x] else 0
  {
    Creditors(ps, Negate(b))
  }

  predicate SortedDesc(s: seq<string>, key: Balances)
  {
    forall i, j | 0 <= i < j < |s| :: Get(key, s[i]) >= Get(key, s[j])
  }

  /** Places `x` before the first element whose key does not exceed its own. */
  function Insert(x: string, s: seq<string>, key: Balances): (r: seq<string>)
    ensures multiset(r) == multiset(s) + multiset{x}
    ensures forall y | y in r :: y == x || y in s
  {
    if s == [] || Get(key, x) >= Get(key, s[0]) then [x] + s
    else
      assert s == [s[0]] + s[1..];
      [s[0]] + Insert(x, s[1..], key)
  }

  /** `Array.prototype.sort` with the comparator `(a, b) => key[b] - key[a]`:
      a stable sort, largest key first. */
  function SortDesc(s: seq<string>, key: Balances): (r: seq<string>)
    ensures multiset(r) == multiset(s)
    ensures |r| == |s| && forall x :: x in r <==> x in s
  {
    if s == [] then []
    else
      assert s == [s[0]] + s[1..];
      var r := Insert(s[0], SortDesc(s[1..], key), key);
      assert forall x :: (x in r <==> x in multiset(r)) && (x in s <==> x in multiset(s));
      r
  }

  /** The elements of `s` whose key is `v`, in order. */
  function WithKey(s: seq<string>, key: Balances, v: real): seq<string>
  {
    if s == [] then [] else (if Get(key, s[0]) == v then [s[0]] else []) + WithKey(s[1..], key, v)
  }

  lemma WithKeyOne(x: string, key: Balances, v: real)
    ensures WithKey([x], key, v) == if Get(key, x) == v then [x] else []
  {
    assert [x][1..] == [];
  }

  lemma {:induction false} WithKeyAppend(a: seq<string>, c: seq<string>, key: Balances, v: real)
    ensures WithKey(a + c, key, v) == WithKey(a, key, v) + WithKey(c, key, v)
  {
    if a == [] {
      assert a + c == c;
    } else {
      WithKeyAppend(a[1..], c, key, v);
      TailAppend(a, c);
    }
  }

  /** Selecting by balance `v` is selecting by `-v` in the negated map. */
  lemma {:induction false} WithKeyNegate(s: seq<string>, b: Balances, v: real)
    ensures WithKey(s, Negate(b), -v) == WithKey(s, b, v)
  {
    if s != [] {
      WithKeyNegate(s[1..], b, v);
    }
  }

  lemma {:induction false} CreditorsKeepTiesAt(ps: seq<string>, b: Balances, v: real)
    ensures WithKey(Creditors(ps, b), b, v) == if v > Tolerance then WithKey(ps, b, v) else []
  {
    if ps != [] {
      var n := |ps| - 1;
      var x := ps[n];
      var last := if Get(b, x) > Tolerance then [x] else [];
      CreditorsKeepTiesAt(ps[..n], b, v);
      assert Creditors(ps, b) == Creditors(ps[..n], b) + last;
      SplitLast(ps);
      WithKeyAppend(Creditors(ps[..n], b), last, b, v);
      WithKeyAppend(ps[..n], [x], b, v);
      WithKeyOne(x, b, v);
    }
  }

  /** The filter keeps participants of equal balance in participant order:
      for a balance above the tolerance the creditors holding it are those
      participants, in order; for any other balance there are none. */
  lemma CreditorsKeepTies(ps: seq<string>, b: Balances)
    ensures forall v :: WithKey(Creditors(ps, b), b, v) == if v > Tolerance then WithKey(ps, b, v) else []
  {
    forall v
      ensures WithKey(Creditors(ps, b), b, v) == if v > Tolerance then WithKey(ps, b, v) else []
    {
      CreditorsKeepTiesAt(ps, b, v);
    }
  }

  /** The same for the debtors and balances below minus the tolerance. */
  lemma DebtorsKeepTies(ps: seq<string>, b: Balances)
    ensures forall v :: WithKey(Debtors(ps, b), b, v) == if v < -Tolerance then WithKey(ps, b, v) else []
  {
    CreditorsKeepTies(ps, Negate(b));
    forall v
      ensures WithKey(Debtors(ps, b), b, v) == if v < -Tolerance then WithKey(ps, b, v) else []
    {
      WithKeyNegate(Debtors(ps, b), b, v);
      WithKeyNegate(ps, b, v);
    }
  }

  lemma {:induction false} InsertSorted(x: string, s: seq<string>, key: Balances)
    requires SortedDesc(s, key)
    ensures SortedDesc(Insert(x, s, key), key)
  {
    if s != [] && Get(key, x) < Get(key, s[0]) {
      InsertSorted(x, s[1..], key);
      var r := Insert(x, s, key);
      forall i, j | 0 <= i < j < |r|
        ensures Get(key, r[i]) >= Get(key, r[j])
      {
        if i == 0 {
          assert r[j] in Insert(x, s[1..], key);
        }
      }
    }
  }

  lemma WithKeyCons(y: string, s: seq<string>, key: Balances, v: real)
    ensures WithKey([y] + s, key, v) == (if Get(key, y) == v then [y] else []) + WithKey(s, key, v)
  {
    assert ([y] + s)[1..] == s;
  }

  lemma {:induction false} InsertStable(x: string, s: seq<string>, key: Balances, v: real)
    ensures WithKey(Insert(x, s, key), key, v) == WithKey([x] + s, key, v)
  {
    if s != [] && Get(key, x) < Get(key, s[0]) {
      var t := s[1..];
      assert s == [s[0]] + t;
      InsertStable(x, t, key, v);
      WithKeyCons(s[0], Insert(x, t, key), key, v);
      WithKeyCons(x, t, key, v);
      WithKeyCons(x, s, key, v);
      WithKeyCons(s[0], t, key, v);
      if Get(key, x) == v {
        assert Get(key, s[0]) != v;
      }
    }
  }

  /** The sort keeps every element, puts the larger keys first, and keeps
      elements of equal key in their original order. */
  lemma {:induction false} SortDescProperties(s: seq<string>, key: Balances)
    ensures multiset(SortDesc(s, key)) == multiset(s)
    ensures SortedDesc(SortDesc(s, key), key)
    ensures forall v :: WithKey(SortDesc(s, key), key, v) == WithKey(s, key, v)
  {
    if s != [] {
      SortDescProperties(s[1..], key);
      InsertSorted(s[0], SortDesc(s[1..], key), key);
      forall v
        ensures WithKey(SortDesc(s, key), key, v) == WithKey(s, key, v)
      {
        InsertStable(s[0], SortDesc(s[1..], key), key, v);
        assert ([s[0]] + SortDesc(s[1..], key))[1..] == SortDesc(s[1..], key);
      }
    }
  }

  /** One recorded flow: `balances[to] -= amount; balances[from] += amount`. */
  function Move(b: Balances, t: Transfer): (r: Balances)
    ensures t.from != t.to ==> Get(r, t.to) == Get(b, t.to) - t.amount
    ensures t.from != t.to ==> Get(r, t.from) == Get(b, t.from) + t.amount
    ensures forall k | k != t.from && k != t.to :: Get(r, k) == Get(b, k)
  {
    Adjust(Adjust(b, t.to, -t.amount), t.from, t.amount)
  }

  /** The balances after the flows, in order. */
  function Settle(b: Balances, flows: seq<Transfer>): Balances
  {
    if flows == [] then b else Move(Settle(b, flows[..|flows| - 1]), flows[|flows| - 1])
  }

  lemma MoveKeepsTotal(b: Balances, t: Transfer, ks: seq<string>)
    requires Distinct(ks) && t.from in ks && t.to in ks
    ensures Total(Move(b, t), ks) == Total(b, ks)
  {
    TotalAdjust(b, t.to, -t.amount, ks);
    TotalAdjust(Adjust(b, t.to, -t.amount), t.from, t.amount, ks);
  }

  /** Every flow takes from one balance what it adds to another, so the sum
      over a duplicate-free key list holding both ends does not move. */
  lemma {:induction false} SettleKeepsTotal(b: Balances, flows: seq<Transfer>, ks: seq<string>)
    requires Distinct(ks)
    requires forall n | 0 <= n < |flows| :: flows[n].from in ks && flows[n].to in ks
    ensures Total(Settle(b, flows), ks) == Total(b, ks)
  {
    if flows != [] {
      var n := |flows| - 1;
      var t := flows[n];
      assert forall m | 0 <= m < n :: flows[..n][m] == flows[m];
      SettleKeepsTotal(b, flows[..n], ks);
      MoveKeepsTotal(Settle(b, flows[..n]), t, ks);
    }
  }

  /** Creditors never go below zero nor above where they started, debtors
      never above zero nor below where they started, and everybody else is
      untouched. */
  ghost predicate Bounded(b0: Balances, b: Balances, cs: seq<string>, ds: seq<string>)
  {
    (forall c | c in cs :: 0.0 <= Get(b, c) <= Get(b0, c)) &&
    (forall d | d in ds :: Get(b0, d) <= Get(b, d) <= 0.0) &&
    (forall k | k !in cs && k !in ds :: Get(b, k) == Get(b0, k))
  }

  /** The first `n` creditors are settled. */
  predicate CreditorsSettled(b: Balances, cs: seq<string>, n: nat)
    requires n <= |cs|
  {
    forall k | 0 <= k < n :: Get(b, cs[k]) <= Tolerance
  }

  /** The first `n` debtors are settled. */
  predicate DebtorsSettled(b: Balances, ds: seq<string>, n: nat)
    requires n <= |ds|
  {
    forall k | 0 <= k < n :: Get(b, ds[k]) >= -Tolerance
  }

  /** Each transfer goes from a debtor to a creditor, for an exact amount
      above the tolerance of which it records the rounded value. */
  ghost predicate Recorded(ts: seq<Transfer>, flows: seq<Transfer>, cs: seq<string>, ds: seq<string>)
  {
    |flows| == |ts| &&
    forall n | 0 <= n < |ts| ::
      ts[n].from == flows[n].from && ts[n].from in ds &&
      ts[n].to == flows[n].to && ts[n].to in cs &&
      flows[n].amount > Tolerance && ts[n].amount == Round(flows[n].amount) as real
  }

  /** A flow from a debtor to a creditor of no more than either can bear
      keeps every balance on its side of zero, and settled cursors settled. */
  lemma MoveKeepsBounds(b0: Balances, b: Balances, cs: seq<string>, ds: seq<string>, i: nat, j: nat, t: Transfer)
    requires forall c | c in cs :: Get(b0, c) > Tolerance
    requires forall d | d in ds :: Get(b0, d) < -Tolerance
    requires i <= |cs| && j <= |ds|
    requires Bounded(b0, b, cs, ds) && CreditorsSettled(b, cs, i) && DebtorsSettled(b, ds, j)
    requires t.to in cs && t.from in ds
    requires 0.0 <= t.amount <= Get(b, t.to) && t.amount <= -Get(b, t.from)
    ensures Bounded(b0, Move(b, t), cs, ds)
    ensures CreditorsSettled(Move(b, t), cs, i) && DebtorsSettled(Move(b, t), ds, j)
  {
    var r := Move(b, t);
    assert t.from != t.to;
    forall c | c in cs
      ensures 0.0 <= Get(r, c) <= Get(b, c)
    {
      assert c != t.from;
    }
    forall d | d in ds
      ensures Get(b, d) <= Get(r, d) <= 0.0
    {
      assert d != t.to;
    }
  }

  /** Recording one more flow above the tolerance, from a debtor to a
      creditor, keeps the record well formed and the balances in step. */
  lemma RecordKeeps(b0: Balances, ts: seq<Transfer>, flows: seq<Transfer>, cs: seq<string>, ds: seq<string>,
                    flow: Transfer)
    requires Recorded(ts, flows, cs, ds)
    requires flow.from in ds && flow.to in cs && flow.amount > Tolerance
    ensures Recorded(ts + [Transfer(flow.from, flow.to, Round(flow.amount) as real)], flows + [flow], cs, ds)
    ensures Settle(b0, flows + [flow]) == Move(Settle(b0, flows), flow)
  {
    assert (flows + [flow])[..|flows|] == flows;
  }

  /** The flow of the smaller amount leaves one of the two cursors at zero. */
  lemma MoveSettlesOne(b: Balances, payer: string, receiver: string)
    requires payer != receiver
    ensures var r := Move(b, Transfer(receiver, payer, Min(Get(b, payer), -Get(b, receiver))));
            Abs(Get(r, payer)) <= Tolerance || Abs(Get(r, receiver)) <= Tolerance
  {
  }

  /** When the smaller of the two amounts is within the tolerance, so is
      the balance of one of the two cursors. */
  lemma SmallAmountSettlesOne(b: Balances, cs: seq<string>, ds: seq<string>, i: nat, j: nat)
    requires i < |cs| && j < |ds| && Signed(b, cs, ds)
    requires Min(Get(b, cs[i]), -Get(b, ds[j])) <= Tolerance
    ensures Abs(Get(b, cs[i])) <= Tolerance || Abs(Get(b, ds[j])) <= Tolerance
  {
    assert cs[i] in cs && ds[j] in ds;
  }

  /** A cursor whose balance is within the tolerance may move past it. */
  lemma AdvanceKeeps(b: Balances, cs: seq<string>, ds: seq<string>, i: nat, j: nat)
    requires i < |cs| && j < |ds|
    requires CreditorsSettled(b, cs, i) && DebtorsSettled(b, ds, j)
    ensures Abs(Get(b, cs[i])) <= Tolerance ==> CreditorsSettled(b, cs, i + 1)
    ensures Abs(Get(b, ds[j])) <= Tolerance ==> DebtorsSettled(b, ds, j + 1)
  {
  }

  /** When a cursor has run off the end of its list, that whole side is settled. */
  lemma OneSideSettled(b: Balances, cs: seq<string>, ds: seq<string>, i: nat, j: nat)
    requires i <= |cs| && j <= |ds| && (i == |cs| || j == |ds|)
    requires CreditorsSettled(b, cs, i) && DebtorsSettled(b, ds, j)
    ensures (forall c | c in cs :: Get(b, c) <= Tolerance) || (forall d | d in ds :: Get(b, d) >= -Tolerance)
  {
    if i == |cs| {
      forall c | c in cs
        ensures Get(b, c) <= Tolerance
      {
        var k :| 0 <= k < |cs| && cs[k] == c;
      }
    } else {
      forall d | d in ds
        ensures Get(b, d) >= -Tolerance
      {
        var k :| 0 <= k < |ds| && ds[k] == d;
      }
    }
  }

  /** Creditors are owed nothing negative and debtors owe nothing negative. */
  predicate Signed(b: Balances, cs: seq<string>, ds: seq<string>)
  {
    (forall c | c in cs :: Get(b, c) >= 0.0) && (forall d | d in ds :: Get(b, d) <= 0.0)
  }

  /** Moving the smaller of a creditor's and a debtor's open amounts keeps
      every creditor and debtor on its side of zero. */
  lemma MoveKeepsSigned(b: Balances, cs: seq<string>, ds: seq<string>, c: string, d: string)
    requires c in cs && d in ds && Signed(b, cs, ds)
    requires Min(Get(b, c), -Get(b, d)) > Tolerance
    ensures Signed(Move(b, Transfer(d, c, Min(Get(b, c), -Get(b, d)))), cs, ds)
  {
    var r := Move(b, Transfer(d, c, Min(Get(b, c), -Get(b, d))));
    assert c != d;
    forall x | x in cs
      ensures Get(r, x) >= 0.0
    {
      assert x != d;
    }
    forall x | x in ds
      ensures Get(r, x) <= 0.0
    {
      assert x != c;
    }
  }

  /** One pass of the loop body, with a cursor advancing once its balance is
      within the tolerance: the balances after it, the two cursors, and the
      exact flow moved, if any. Every pass moves at least one cursor. */
  function Step(b: Balances, cs: seq<string>, ds: seq<string>, i: nat, j: nat)
    : (r: (Balances, nat, nat, seq<Transfer>))
    requires i < |cs| && j < |ds| && Signed(b, cs, ds)
    ensures Signed(r.0, cs, ds)
    ensures i <= r.1 <= i + 1 && j <= r.2 <= j + 1 && i + j < r.1 + r.2
    ensures |r.3| <= 1
  {
    var payer := cs[i];
    var receiver := ds[j];
    var amountToTransfer := Min(Get(b, payer), -Get(b, receiver));
    var flow := Transfer(receiver, payer, amountToTransfer);
    var moved := amountToTransfer > Tolerance;
    var after := if moved then Move(b, flow) else b;
    if moved then
      MoveKeepsSigned(b, cs, ds, payer, receiver);
      MoveSettlesOne(b, payer, receiver);
      (after,
       if Abs(Get(after, payer)) <= Tolerance then i + 1 else i,
       if Abs(Get(after, receiver)) <= Tolerance then j + 1 else j,
       [flow])
    else
      SmallAmountSettlesOne(b, cs, ds, i, j);
      (b,
       if Abs(Get(b, payer)) <= Tolerance then i + 1 else i,
       if Abs(Get(b, receiver)) <= Tolerance then j + 1 else j,
       [])
  }

  /** The flows the greedy walk moves from cursors `i` and `j` on: it pairs
      the current creditor with the current debtor, moves the smaller of the
      two open amounts when that exceeds the tolerance, and passes over every
      party left within it. */
  function GreedyFlows(b: Balances, cs: seq<string>, ds: seq<string>, i: nat, j: nat): (flows: seq<Transfer>)
    requires i <= |cs| && j <= |ds| && Signed(b, cs, ds)
    ensures |flows| <= |cs| + |ds| - i - j
    decreases |cs| + |ds| - i - j
  {
    if i == |cs| || j == |ds| then []
    else
      var s := Step(b, cs, ds, i, j);
      s.3 + GreedyFlows(s.0, cs, ds, s.1, s.2)
  }

  /** `Step` spelled out: the flow it moves, the balances it leaves, and
      which cursors pass over a party left within the tolerance. */
  lemma StepIs(b: Balances, cs: seq<string>, ds: seq<string>, i: nat, j: nat)
    requires i < |cs| && j < |ds| && Signed(b, cs, ds)
    ensures var s := Step(b, cs, ds, i, j);
            var flow := Transfer(ds[j], cs[i], Min(Get(b, cs[i]), -Get(b, ds[j])));
            var moved := flow.amount > Tolerance;
            s.3 == (if moved then [flow] else []) &&
            s.0 == (if moved then Move(b, flow) else b) &&
            s.1 == (if Abs(Get(s.0, cs[i])) <= Tolerance then i + 1 else i) &&
            s.2 == (if Abs(Get(s.0, ds[j])) <= Tolerance then j + 1 else j)
  {
  }

  /** One pass of the walk, written out: the first flow, if any, then the
      walk from the balances and cursors that pass leaves. */
  lemma GreedyUnfold(b: Balances, cs: seq<string>, ds: seq<string>, i: nat, j: nat)
    requires i < |cs| && j < |ds| && Signed(b, cs, ds)
    ensures var flow := Transfer(ds[j], cs[i], Min(Get(b, cs[i]), -Get(b, ds[j])));
            var moved := flow.amount > Tolerance;
            var after := if moved then Move(b, flow) else b;
            var i' := if Abs(Get(after, cs[i])) <= Tolerance then i + 1 else i;
            var j' := if Abs(Get(after, ds[j])) <= Tolerance then j + 1 else j;
            i' <= |cs| && j' <= |ds| && Signed(after, cs, ds) &&
            GreedyFlows(b, cs, ds, i, j) == (if moved then [flow] else []) + GreedyFlows(after, cs, ds, i', j')
  {
    StepIs(b, cs, ds, i, j);
  }

  /** `GreedyUnfold` for a pass that moves `amount`, with the balances and
      cursors it leaves named. */
  lemma GreedyMoves(b: Balances, cs: seq<string>, ds: seq<string>, i: nat, j: nat,
                    amount: real, after: Balances, i': nat, j': nat)
    requires i < |cs| && j < |ds| && Signed(b, cs, ds)
    requires amount == Min(Get(b, cs[i]), -Get(b, ds[j])) && amount > Tolerance
    requires after == Move(b, Transfer(ds[j], cs[i], amount))
    requires i' == (if Abs(Get(after, cs[i])) <= Tolerance then i + 1 else i)
    requires j' == (if Abs(Get(after, ds[j])) <= Tolerance then j + 1 else j)
    ensures i' <= |cs| && j' <= |ds| && Signed(after, cs, ds)
    ensures GreedyFlows(b, cs, ds, i, j) == [Transfer(ds[j], cs[i], amount)] + GreedyFlows(after, cs, ds, i', j')
  {
    GreedyUnfold(b, cs, ds, i, j);
  }

  /** The example of a group where A is owed 100 and B 60, and C owes 70
      and D 90: D pays A 90, C pays A the remaining 10, and C pays B 60. */
  lemma GreedyExample(a: string, b: string, c: string, d: string)
    requires a != b && a != c && a != d && b != c && b != d && c != d
    ensures GreedyFlows(map[a := 100.0, b := 60.0, c := -70.0, d := -90.0], [a, b], [d, c], 0, 0) ==
              [Transfer(d, a, 90.0), Transfer(c, a, 10.0), Transfer(c, b, 60.0)]
  {
    ExampleFirstPass(map[a := 100.0, b := 60.0, c := -70.0, d := -90.0], a, b, c, d);
  }

  /** The example from its start. */
  lemma ExampleFirstPass(b0: Balances, a: string, b: string, c: string, d: string)
    requires a != b && a != c && a != d && b != c && b != d && c != d
    requires Get(b0, a) == 100.0 && Get(b0, b) == 60.0 && Get(b0, c) == -70.0 && Get(b0, d) == -90.0
    ensures Signed(b0, [a, b], [d, c])
    ensures GreedyFlows(b0, [a, b], [d, c], 0, 0) ==
              [Transfer(d, a, 90.0), Transfer(c, a, 10.0), Transfer(c, b, 60.0)]
  {
    var t := Transfer(d, a, 90.0);
    var rest := [Transfer(c, a, 10.0), Transfer(c, b, 60.0)];
    ConsDisplay(t, rest[0], rest[1]);
    var b1 := Move(b0, t);
    assert Get(b1, a) == 10.0 && Get(b1, d) == 0.0;
    assert GreedyFlows(b1, [a, b], [d, c], 0, 1) == rest by {
      assert Get(b1, b) == 60.0 && Get(b1, c) == -70.0;
      ExampleSecondPass(b1, a, b, c, d);
    }
    GreedyMoves(b0, [a, b], [d, c], 0, 0, 90.0, b1, 0, 1);
  }

  /** The example after its first pass: A is owed 10, B 60, C owes 70. */
  lemma ExampleSecondPass(b1: Balances, a: string, b: string, c: string, d: string)
    requires a != b && a != c && a != d && b != c && b != d && c != d
    requires Get(b1, a) == 10.0 && Get(b1, b) == 60.0 && Get(b1, c) == -70.0 && Get(b1, d) == 0.0
    ensures Signed(b1, [a, b], [d, c])
    ensures GreedyFlows(b1, [a, b], [d, c], 0, 1) == [Transfer(c, a, 10.0), Transfer(c, b, 60.0)]
  {
    var t, last := Transfer(c, a, 10.0), Transfer(c, b, 60.0);
    ConsDisplay(t, last, last);
    var b2 := Move(b1, t);
    assert Get(b2, a) == 0.0 && Get(b2, c) == -60.0;
    assert GreedyFlows(b2, [a, b], [d, c], 1, 1) == [last] by {
      assert Get(b2, b) == 60.0 && Get(b2, d) == 0.0;
      ExampleLastPass(b2, a, b, c, d);
    }
    GreedyMoves(b1, [a, b], [d, c], 0, 1, 10.0, b2, 1, 1);
  }

  /** The example before its last pass: B is owed 60 and C owes 60. */
  lemma ExampleLastPass(b2: Balances, a: string, b: string, c: string, d: string)
    requires a != b && a != c && a != d && b != c && b != d && c != d
    requires Get(b2, a) == 0.0 && Get(b2, b) == 60.0 && Get(b2, c) == -60.0 && Get(b2, d) == 0.0
    ensures Signed(b2, [a, b], [d, c])
    ensures GreedyFlows(b2, [a, b], [d, c], 1, 1) == [Transfer(c, b, 60.0)]
  {
    var b3 := Move(b2, Transfer(c, b, 60.0));
    assert Get(b3, b) == 0.0 && Get(b3, c) == 0.0;
    GreedyMoves(b2, [a, b], [d, c], 1, 1, 60.0, b3, 2, 2);
  }

  /** What holds between passes of the loop: `ts` records `flows`, the
      balances are `b0` settled by them and stay bounded by `b0`, the
      parties before each cursor are settled, and the flows still to come
      are those of the greedy walk from the current cursors. */
  ghost predicate NetInvariant(b0: Balances, cs: seq<string>, ds: seq<string>,
                               ts: seq<Transfer>, flows: seq<Transfer>, b: Balances, i: nat, j: nat)
  {
    i <= |cs| && j <= |ds| && |flows| <= i + j &&
    Recorded(ts, flows, cs, ds) && b == Settle(b0, flows) && Bounded(b0, b, cs, ds) &&
    CreditorsSettled(b, cs, i) && DebtorsSettled(b, ds, j) &&
    GreedyFlows(b0, cs, ds, 0, 0) == flows + GreedyFlows(b, cs, ds, i, j)
  }

  /** One pass of the loop body keeps `NetInvariant` and moves a cursor. */
  lemma NetPassKeeps(b0: Balances, cs: seq<string>, ds: seq<string>,
                     ts: seq<Transfer>, flows: seq<Transfer>, b: Balances, i: nat, j: nat,
                     amount: real, ts': seq<Transfer>, flows': seq<Transfer>, b': Balances, i': nat, j': nat)
    requires forall c | c in cs :: Get(b0, c) > Tolerance
    requires forall d | d in ds :: Get(b0, d) < -Tolerance
    requires i < |cs| && j < |ds| && NetInvariant(b0, cs, ds, ts, flows, b, i, j)
    requires amount == Min(Get(b, cs[i]), -Get(b, ds[j]))
    requires amount > Tolerance ==>
               ts' == ts + [Transfer(ds[j], cs[i], Round(amount) as real)] &&
               flows' == flows + [Transfer(ds[j], cs[i], amount)] &&
               b' == Move(b, Transfer(ds[j], cs[i], amount))
    requires amount <= Tolerance ==> ts' == ts && flows' == flows && b' == b
    requires i' == (if Abs(Get(b', cs[i])) <= Tolerance then i + 1 else i)
    requires j' == (if Abs(Get(b', ds[j])) <= Tolerance then j + 1 else j)
    ensures NetInvariant(b0, cs, ds, ts', flows', b', i', j') && i + j < i' + j'
  {
    var payer, receiver := cs[i], ds[j];
    var flow := Transfer(receiver, payer, amount);
    GreedyUnfold(b, cs, ds, i, j);
    var first := if amount > Tolerance then [flow] else [];
    AppendAssoc(flows, first, GreedyFlows(b', cs, ds, i', j'));
    if amount > Tolerance {
      MoveKeepsBounds(b0, b, cs, ds, i, j, flow);
      RecordKeeps(b0, ts, flows, cs, ds, flow);
      MoveSettlesOne(b, payer, receiver);
    } else {
      SmallAmountSettlesOne(b, cs, ds, i, j);
    }
    AdvanceKeeps(b', cs, ds, i, j);
    assert flows' == flows + first;
  }

  /** The loop of lines 276-300, with a cursor advancing once its balance is
      within the tolerance (inclusive; see `StepAsWritten`). `rest` is the
      balances map the loop leaves behind and `flows` the exact amounts
      moved, of which `ts` records the rounded values. */
  method Net(b0: Balances, cs: seq<string>, ds: seq<string>)
    returns (ts: seq<Transfer>, ghost flows: seq<Transfer>, ghost rest: Balances)
    requires forall c | c in cs :: Get(b0, c) > Tolerance
    requires forall d | d in ds :: Get(b0, d) < -Tolerance
    ensures flows == GreedyFlows(b0, cs, ds, 0, 0)
    ensures Recorded(ts, flows, cs, ds) && |ts| <= |cs| + |ds|
    ensures rest == Settle(b0, flows)
    ensures Bounded(b0, rest, cs, ds)
    ensures (forall c | c in cs :: Get(rest, c) <= Tolerance) || (forall d | d in ds :: Get(rest, d) >= -Tolerance)
  {
    var balances := b0;
    ts, flows := [], [];
    var payerIndex, receiverIndex := 0, 0;
    while payerIndex < |cs| && receiverIndex < |ds|
      invariant NetInvariant(b0, cs, ds, ts, flows, balances, payerIndex, receiverIndex)
      decreases |cs| + |ds| - payerIndex - receiverIndex
    {
      ghost var ts0, flows0, balances0, i0, j0 := ts, flows, balances, payerIndex, receiverIndex;
      var payer := cs[payerIndex];
      var receiver := ds[receiverIndex];
      var amountToTransfer := Min(Get(balances, payer), -Get(balances, receiver));
      if amountToTransfer > Tolerance {
        ts := ts + [Transfer(receiver, payer, Round(amountToTransfer) as real)];
        flows := flows + [Transfer(receiver, payer, amountToTransfer)];
        balances := Move(balances, Transfer(receiver, payer, amountToTransfer));
      }
      if Abs(Get(balances, payer)) <= Tolerance {
        payerIndex := payerIndex + 1;
      }
      if Abs(Get(balances, receiver)) <= Tolerance {
        receiverIndex := receiverIndex + 1;
      }
      NetPassKeeps(b0, cs, ds, ts0, flows0, balances0, i0, j0, amountToTransfer,
                   ts, flows, balances, payerIndex, receiverIndex);
    }
    rest := balances;
    OneSideSettled(rest, cs, ds, payerIndex, receiverIndex);
  }

  /** One pass of the loop body exactly as lines 277-299 write it: a transfer
      only when the amount exceeds the tolerance, but a cursor advances only
      when its balance is strictly inside it. The result is the balances, the
      two cursors and the transfers recorded by the pass. */
  function StepAsWritten(b: Balances, cs: seq<string>, ds: seq<string>, i: nat, j: nat)
    : (r: (Balances, nat, nat, seq<Transfer>))
    requires i < |cs| && j < |ds|
    ensures i <= r.1 <= i + 1 && j <= r.2 <= j + 1
    ensures |r.3| <= 1 && (r.3 == [] ==> r.0 == b)
  {
    var payer := cs[i];
    var receiver := ds[j];
    var amountToTransfer := Min(Get(b, payer), -Get(b, receiver));
    var moved := amountToTransfer > Tolerance;
    var after := if moved then Move(b, Transfer(receiver, payer, amountToTransfer)) else b;
    var recorded := if moved then [Transfer(receiver, payer, Round(amountToTransfer) as real)] else [];
    (after,
     if Abs(Get(after, payer)) < Tolerance then i + 1 else i,
     if Abs(Get(after, receiver)) < Tolerance then j + 1 else j,
     recorded)
  }

  /** With the strict comparison the loop can reach a state that its body
      maps to itself while both cursors are still in range. From the
      balances "1": 10.01, "3": 5, "2": -10, "4": -5.01 the first pass moves
      10 from "2" to "1" and passes over "2"; "1" is then owed exactly 0.01,
      which is neither moved (not above the tolerance) nor passed over (not
      below it), so every later pass changes nothing. */
  lemma AsWrittenStalls()
    ensures var b0 := map["1" := 10.01, "2" := -10.0, "3" := 5.0, "4" := -5.01];
            var cs := ["1", "3"];
            var ds := ["2", "4"];
            var s1 := StepAsWritten(b0, cs, ds, 0, 0);
            s1.1 == 0 && s1.2 == 1 && s1.3 == [Transfer("2", "1", 10.0)] &&
            StepAsWritten(s1.0, cs, ds, 0, 1) == (s1.0, 0, 1, [])
  {
    var b0 := map["1" := 10.01, "2" := -10.0, "3" := 5.0, "4" := -5.01];
    var b1 := Move(b0, Transfer("2", "1", 10.0));
    assert Get(b1, "1") == 0.01 && Get(b1, "2") == 0.0 && Get(b1, "4") == -5.01;
  }
}
