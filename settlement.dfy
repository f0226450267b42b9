/** The records of src/services/settlement.ts (`Payment`, `OptimizedTransfer`,
    `Settlement`, `RawTransfer`) and the pure data shaping done on fetched
    JSON: `computeConstant` and the participant / payment / transfer lists
    built by `getSettlement`. */
module Settlement {
  import opened JsNumber
  import opened Lists

  /** One slot of a payment's per-person `constant` array: a number, or
      anything else a JavaScript array slot can hold (an empty slot left by
      writing past the end, `undefined`, a non-number). */
  datatype Cell = Num(value: real) | NotNum

  datatype Payment = Payment(
    id: int,
    payer: string,
    target: seq<string>,
    ratio: seq<real>,
    constant: seq<Cell>,
    amount: real,
    item: string,
    imageUrl: string)

  datatype Transfer = Transfer(from: string, to: string, amount: real)

  datatype Settlement = Settlement(
    settlementId: string,
    title: string,
    createdAt: string,
    participants: seq<string>,
    payments: seq<Payment>,
    optimizedTransfers: seq<Transfer>,
    isCompleted: bool)

  /** One element of the backend's `settlements` array. */
  datatype Record = Record(
    settlementId: int,
    payerId: int,
    participantIds: seq<int>,
    ratios: seq<real>,
    constants: seq<Cell>,
    amount: real,
    item: string)

  /** One element of the backend's `transfers` array. */
  datatype RawTransfer = RawTransfer(payerId: int, payeeId: int, amount: real)

  /** `computeConstant`: each ratio times the amount, rounded as `Math.round` does. */
  function ComputeConstant(ratio: seq<real>, amount: real): (r: seq<int>)
    ensures |r| == |ratio|
    ensures forall i | 0 <= i < |r| ::
              ratio[i] * amount - 0.5 < r[i] as real <= ratio[i] * amount + 0.5
  {
    if ratio == [] then []
    else ComputeConstant(ratio[..|ratio| - 1], amount) + [Round(ratio[|ratio| - 1] * amount)]
  }

  /** `data.settlements.flatMap(s => s.participantIds)`. */
  function AllParticipantIds(data: seq<Record>): seq<int>
  {
    if data == [] then [] else AllParticipantIds(data[..|data| - 1]) + data[|data| - 1].participantIds
  }

  lemma {:induction false} AllParticipantIdsMembership(data: seq<Record>, n: int)
    ensures n in AllParticipantIds(data) <==> exists k | 0 <= k < |data| :: n in data[k].participantIds
  {
    if data != [] {
      AllParticipantIdsMembership(data[..|data| - 1], n);
      if n in AllParticipantIds(data[..|data| - 1]) {
        var k :| 0 <= k < |data| - 1 && n in data[..|data| - 1][k].participantIds;
        assert n in data[k].participantIds;
      }
      if exists k | 0 <= k < |data| :: n in data[k].participantIds {
        var k :| 0 <= k < |data| && n in data[k].participantIds;
        if k < |data| - 1 {
          assert n in data[..|data| - 1][k].participantIds;
        }
      }
    }
  }

  function IdStrings(ids: seq<int>): (r: seq<string>)
    ensures |r| == |ids| && forall i | 0 <= i < |ids| :: r[i] == ToDecimal(ids[i])
  {
    if ids == [] then [] else IdStrings(ids[..|ids| - 1]) + [ToDecimal(ids[|ids| - 1])]
  }

  /** The participant list of `getSettlement`: every participant id of every
      record, de-duplicated at first occurrence, rendered as a string. */
  function Participants(data: seq<Record>): seq<string>
  {
    IdStrings(FirstOccurrences(AllParticipantIds(data)))
  }

  /** An id string is a participant exactly when some record lists the id. */
  lemma ParticipantsMembership(data: seq<Record>)
    ensures forall n: int :: ToDecimal(n) in Participants(data) <==>
              exists k | 0 <= k < |data| :: n in data[k].participantIds
  {
    var flat := AllParticipantIds(data);
    var firsts := FirstOccurrences(flat);
    var r := Participants(data);
    FirstOccurrencesProperties(flat);
    forall n: int
      ensures ToDecimal(n) in r <==> exists k | 0 <= k < |data| :: n in data[k].participantIds
    {
      AllParticipantIdsMembership(data, n);
      if ToDecimal(n) in r {
        var i :| 0 <= i < |r| && r[i] == ToDecimal(n);
        ToDecimalInjective(firsts[i], n);
        assert n in firsts;
      }
      if n in flat {
        var i :| 0 <= i < |firsts| && firsts[i] == n;
        assert r[i] == ToDecimal(n);
      }
    }
  }

  /** Every participant string is the rendering of a listed id. */
  lemma ParticipantsAreIds(data: seq<Record>)
    ensures forall s | s in Participants(data) :: exists n: int :: s == ToDecimal(n) && n in AllParticipantIds(data)
  {
    var flat := AllParticipantIds(data);
    var firsts := FirstOccurrences(flat);
    var r := Participants(data);
    FirstOccurrencesProperties(flat);
    forall s | s in r
      ensures exists n: int :: s == ToDecimal(n) && n in flat
    {
      var i :| 0 <= i < |r| && r[i] == s;
      assert firsts[i] in flat;
    }
  }

  /** No participant appears twice, and they come in the order in which
      their ids first appear in the records. */
  lemma ParticipantsOrder(data: seq<Record>)
    ensures Distinct(Participants(data))
    ensures forall i, j | 0 <= i < j < |Participants(data)| ::
              IndexOf(AllParticipantIds(data), ParseDecimal(Participants(data)[i]))
              < IndexOf(AllParticipantIds(data), ParseDecimal(Participants(data)[j]))
  {
    var flat := AllParticipantIds(data);
    var firsts := FirstOccurrences(flat);
    var r := Participants(data);
    FirstOccurrencesProperties(flat);
    forall i, j | 0 <= i < j < |r|
      ensures r[i] != r[j]
      ensures IndexOf(flat, ParseDecimal(r[i])) < IndexOf(flat, ParseDecimal(r[j]))
    {
      ToDecimalInjective(firsts[i], firsts[j]);
      ToDecimalRoundTrip(firsts[i]);
      ToDecimalRoundTrip(firsts[j]);
    }
  }

  /** The payment `getSettlement` builds from one backend record. */
  function ToPayment(rec: Record): (p: Payment)
    ensures p.id == rec.settlementId
    ensures p.payer == ToDecimal(rec.payerId) && p.target == IdStrings(rec.participantIds)
    ensures ParseDecimal(p.payer) == rec.payerId
    ensures |p.target| == |rec.participantIds|
    ensures forall i | 0 <= i < |p.target| :: ParseDecimal(p.target[i]) == rec.participantIds[i]
    ensures p.amount == rec.amount && p.ratio == rec.ratios && p.constant == rec.constants
    ensures p.item == rec.item && p.imageUrl == ""
  {
    ToDecimalRoundTrip(rec.payerId);
    forall i | 0 <= i < |rec.participantIds| {
      ToDecimalRoundTrip(rec.participantIds[i]);
    }
    Payment(rec.settlementId, ToDecimal(rec.payerId), IdStrings(rec.participantIds),
            rec.ratios, rec.constants, rec.amount, rec.item, "")
  }

  function ToTransfer(t: RawTransfer): (r: Transfer)
    ensures r.from == ToDecimal(t.payerId) && r.to == ToDecimal(t.payeeId) && r.amount == t.amount
    ensures ParseDecimal(r.from) == t.payerId && ParseDecimal(r.to) == t.payeeId
  {
    ToDecimalRoundTrip(t.payerId);
    ToDecimalRoundTrip(t.payeeId);
    Transfer(ToDecimal(t.payerId), ToDecimal(t.payeeId), t.amount)
  }

  /** The settlement `getSettlement` returns once both responses are in. */
  function Shape(calculateId: string, data: seq<Record>, transfers: seq<RawTransfer>): (s: Settlement)
    ensures s.settlementId == calculateId && s.title == "정산 " + calculateId && s.createdAt == ""
    ensures !s.isCompleted
    ensures s.participants == Participants(data)
    ensures |s.payments| == |data| && forall i | 0 <= i < |data| :: s.payments[i] == ToPayment(data[i])
    ensures |s.optimizedTransfers| == |transfers|
    ensures forall i | 0 <= i < |transfers| :: s.optimizedTransfers[i] == ToTransfer(transfers[i])
  {
    Settlement(calculateId, "정산 " + calculateId, "", Participants(data),
               seq(|data|, i requires 0 <= i < |data| => ToPayment(data[i])),
               seq(|transfers|, i requires 0 <= i < |transfers| => ToTransfer(transfers[i])),
               false)
  }

  /** A fetched payment names its people the way the participant list does:
      every target is a participant, and the payer is one exactly when some
      record lists the payer's id. */
  lemma ShapedPaymentFits(calculateId: string, data: seq<Record>, transfers: seq<RawTransfer>, i: int)
    requires 0 <= i < |data|
    ensures var s := Shape(calculateId, data, transfers);
            forall t | t in s.payments[i].target :: t in s.participants
    ensures var s := Shape(calculateId, data, transfers);
            s.payments[i].payer in s.participants <==>
              exists k | 0 <= k < |data| :: data[i].payerId in data[k].participantIds
  {
    var s := Shape(calculateId, data, transfers);
    var p := s.payments[i];
    ParticipantsMembership(data);
    forall t | t in p.target
      ensures t in s.participants
    {
      var j :| 0 <= j < |p.target| && p.target[j] == t;
      assert data[i].participantIds[j] in data[i].participantIds;
    }
  }
}
