/** The summary card, src/components/SettlementSummary.tsx: the net flow of
    every participant under the optimized transfers, and the display name
    looked up among the group's members. */
module SettlementSummary {
  import opened Optional
  import opened Lists
  import opened JsNumber
  import opened Settlement
  import opened Accrual
  import opened Netting

  /** A JavaScript number as far as the fold can produce one: arithmetic on
      a key the map does not hold reads `undefined`, which yields NaN. */
  datatype Num = Finite(value: real) | NaN

  function Plus(a: Num, d: real): (r: Num)
    ensures r.NaN? <==> a.NaN?
    ensures a.Finite? ==> r.value == a.value + d
  {
    if a.NaN? then NaN else Finite(a.value + d)
  }

  function Minus(a: Num, d: real): (r: Num)
    ensures r.NaN? <==> a.NaN?
    ensures a.Finite? ==> r.value == a.value - d
  {
    if a.NaN? then NaN else Finite(a.value - d)
  }

  /** The `balances` object. */
  type View = map<string, Num>

  /** `balances[k]` used as a number: a missing key gives NaN. */
  function Read(v: View, k: string): Num
  {
    if k in v then v[k] else NaN
  }

  /** `participants.forEach(p => balances[p] = 0)`. */
  function Zeros(ps: seq<string>): (v: View)
    ensures v.Keys == set p | p in ps
    ensures forall k | k in v :: v[k] == Finite(0.0)
  {
    map p | p in ps :: Finite(0.0)
  }

  /** One transfer: `balances[from] -= amount`, then `balances[to] += amount`. */
  function Shift(v: View, t: Transfer): (r: View)
    ensures r.Keys == v.Keys + {t.from, t.to}
    ensures t.from != t.to ==> r[t.from] == Minus(Read(v, t.from), t.amount)
    ensures t.from != t.to ==> r[t.to] == Plus(Read(v, t.to), t.amount)
    ensures t.from == t.to ==> r[t.to] == Plus(Minus(Read(v, t.to), t.amount), t.amount)
    ensures forall k | k in v && k != t.from && k != t.to :: r[k] == v[k]
  {
    var w := v[t.from := Minus(Read(v, t.from), t.amount)];
    w[t.to := Plus(Read(w, t.to), t.amount)]
  }

  /** The endpoints of the transfers. */
  function Endpoints(ts: seq<Transfer>): set<string>
  {
    if ts == [] then {} else Endpoints(ts[..|ts| - 1]) + {ts[|ts| - 1].from, ts[|ts| - 1].to}
  }

  lemma {:induction false} EndpointsHas(ts: seq<Transfer>, n: nat)
    requires n < |ts|
    ensures ts[n].from in Endpoints(ts) && ts[n].to in Endpoints(ts)
  {
    if n < |ts| - 1 {
      EndpointsHas(ts[..|ts| - 1], n);
    }
  }

  /** The balance map after the fold over `ts`. */
  function Fold(ps: seq<string>, ts: seq<Transfer>): (v: View)
  {
    if ts == [] then Zeros(ps) else Shift(Fold(ps, ts[..|ts| - 1]), ts[|ts| - 1])
  }

  /** The fold's keys are the participants and the endpoints; an endpoint
      that is not a participant ends as NaN; with no transfers every balance
      is 0. */
  lemma {:induction false} FoldDomain(ps: seq<string>, ts: seq<Transfer>)
    ensures Fold(ps, ts).Keys == (set p | p in ps) + Endpoints(ts)
    ensures forall k | k in Fold(ps, ts) && k !in ps :: Fold(ps, ts)[k] == NaN
    ensures ts == [] ==> forall k | k in Fold(ps, ts) :: Fold(ps, ts)[k] == Finite(0.0)
  {
    if ts != [] {
      FoldDomain(ps, ts[..|ts| - 1]);
    }
  }

  /** The sum of the listed balances, as JavaScript would add them. */
  function NumTotal(v: View, ks: seq<string>): (r: Num)
  {
    if ks == [] then Finite(0.0)
    else
      var s := NumTotal(v, ks[..|ks| - 1]);
      var x := Read(v, ks[|ks| - 1]);
      if s.NaN? || x.NaN? then NaN else Finite(s.value + x.value)
  }

  /** Every participant's summary entry is the number minus their netting
      balance. */
  predicate Mirrors(v: View, b: Balances, ps: seq<string>)
  {
    forall k | k in ps :: Read(v, k) == Finite(-Get(b, k))
  }

  lemma ZerosMirrorInitial(ps: seq<string>)
    ensures Mirrors(Zeros(ps), Initial(ps), ps)
  {
    forall k | k in ps
      ensures Read(Zeros(ps), k) == Finite(-Get(Initial(ps), k))
    {
      assert k in Zeros(ps);
    }
  }

  /** One transfer keeps the summary entries the negation of the netting
      balances. */
  lemma ShiftMatchesMove(v: View, b: Balances, t: Transfer, ps: seq<string>)
    requires t.from in ps && t.to in ps && Mirrors(v, b, ps)
    ensures Mirrors(Shift(v, t), Move(b, t), ps)
  {
    forall k | k in ps
      ensures Read(Shift(v, t), k) == Finite(-Get(Move(b, t), k))
    {
      if t.from == t.to && k == t.from {
        assert Get(Move(b, t), k) == Get(b, k);
      }
    }
  }

  /** When every endpoint is a participant, the fold is the netting's
      `Settle` seen from the other side: each participant's entry is finite
      and equals minus what the flows leave of a zero balance. */
  lemma {:induction false} FoldMatchesSettle(ps: seq<string>, ts: seq<Transfer>)
    requires forall n | 0 <= n < |ts| :: ts[n].from in ps && ts[n].to in ps
    ensures Mirrors(Fold(ps, ts), Settle(Initial(ps), ts), ps)
  {
    if ts == [] {
      ZerosMirrorInitial(ps);
    } else {
      var init := ts[..|ts| - 1];
      assert forall n | 0 <= n < |init| :: init[n] == ts[n];
      FoldMatchesSettle(ps, init);
      ShiftMatchesMove(Fold(ps, init), Settle(Initial(ps), init), ts[|ts| - 1], ps);
    }
  }

  /** Pointwise equal entries give equal totals. */
  lemma {:induction false} NumTotalOfNegation(v: View, b: Balances, ks: seq<string>)
    requires forall k | k in ks :: Read(v, k) == Finite(-Get(b, k))
    ensures NumTotal(v, ks) == Finite(-Total(b, ks))
  {
    if ks != [] {
      NumTotalOfNegation(v, b, ks[..|ks| - 1]);
    }
  }

  /** When every endpoint is a participant, every participant's balance is a
      number and they add up to 0 over the participants, each counted once. */
  lemma FoldSumsToZero(ps: seq<string>, ts: seq<Transfer>, ks: seq<string>)
    requires forall n | 0 <= n < |ts| :: ts[n].from in ps && ts[n].to in ps
    requires Distinct(ks) && forall k :: k in ks <==> k in ps
    ensures forall k | k in ps :: Read(Fold(ps, ts), k).Finite?
    ensures NumTotal(Fold(ps, ts), ks) == Finite(0.0)
  {
    FoldMatchesSettle(ps, ts);
    assert forall n | 0 <= n < |ts| :: ts[n].from in ks && ts[n].to in ks;
    NumTotalOfNegation(Fold(ps, ts), Settle(Initial(ps), ts), ks);
    SettleKeepsTotal(Initial(ps), ts, ks);
    TotalOfZeros(Initial(ps), ks);
  }

  /** A transfer naming someone outside the participant list makes that
      entry NaN: `undefined - amount`. */
  lemma OutsiderIsNaN(ps: seq<string>, ts: seq<Transfer>, n: nat)
    requires n < |ts| && ts[n].from !in ps
    ensures Read(Fold(ps, ts), ts[n].from) == NaN
  {
    FoldDomain(ps, ts);
    EndpointsHas(ts, n);
  }

  /** The two loops of lines 50-55. */
  method ComputeBalances(ps: seq<string>, ts: seq<Transfer>) returns (v: View)
    ensures v == Fold(ps, ts)
  {
    v := map[];
    for i := 0 to |ps|
      invariant v == Zeros(ps[..i])
    {
      assert ps[..i + 1] == ps[..i] + [ps[i]];
      v := v[ps[i] := Finite(0.0)];
    }
    assert ps[..|ps|] == ps;
    for i := 0 to |ts|
      invariant v == Fold(ps, ts[..i])
    {
      assert ts[..i + 1][..i] == ts[..i];
      v := v[ts[i].from := Minus(Read(v, ts[i].from), ts[i].amount)];
      v := v[ts[i].to := Plus(Read(v, ts[i].to), ts[i].amount)];
    }
    assert ts[..|ts|] == ts;
  }

  /** A group member as the member list returns it. */
  datatype Member = Member(memberId: int, nickname: string)

  /** The first index from `start` on whose member id reads as `id`. */
  function FindFrom(members: seq<Member>, id: string, start: nat): (r: Option<nat>)
    requires start <= |members|
    decreases |members| - start
    ensures r.None? ==> forall i | start <= i < |members| :: ToDecimal(members[i].memberId) != id
    ensures r.Some? ==> start <= r.value < |members| && ToDecimal(members[r.value].memberId) == id
    ensures r.Some? ==> forall i | start <= i < r.value :: ToDecimal(members[i].memberId) != id
  {
    if start == |members| then None
    else if ToDecimal(members[start].memberId) == id then Some(start)
    else FindFrom(members, id, start + 1)
  }

  /** `members.find(m => m.memberId.toString() === id)`, as an index. */
  function FindMember(members: seq<Member>, id: string): (r: Option<nat>)
    ensures r.None? <==> forall i | 0 <= i < |members| :: ToDecimal(members[i].memberId) != id
    ensures r.Some? ==> r.value < |members| && ToDecimal(members[r.value].memberId) == id
    ensures r.Some? ==> forall i | 0 <= i < r.value :: ToDecimal(members[i].memberId) != id
  {
    FindFrom(members, id, 0)
  }

  /** `member?.nickname || id`: the first matching member's nickname, unless
      there is none or it is empty. */
  function GetNickname(members: seq<Member>, id: string): (name: string)
    ensures FindMember(members, id).None? ==> name == id
    ensures FindMember(members, id).Some? ==>
              var m := members[FindMember(members, id).value];
              name == if m.nickname == "" then id else m.nickname
  {
    var found := FindMember(members, id);
    if found.Some? && members[found.value].nickname != "" then members[found.value].nickname else id
  }

  /** With member ids unique, a member's own id string shows that member's
      nickname, or the id when the nickname is empty. */
  lemma NicknameOfMember(members: seq<Member>, i: nat)
    requires i < |members|
    requires forall a, b | 0 <= a < b < |members| :: members[a].memberId != members[b].memberId
    ensures GetNickname(members, ToDecimal(members[i].memberId)) ==
            if members[i].nickname == "" then ToDecimal(members[i].memberId) else members[i].nickname
  {
    var id := ToDecimal(members[i].memberId);
    var f := FindMember(members, id);
    assert f.Some?;
    if f.value != i {
      ToDecimalInjective(members[f.value].memberId, members[i].memberId);
      assert false;
    }
  }
}
