/** The payment-list editing of src/components/SettlementDetail.tsx: adding,
    replacing and deleting payments by id, and which payment is being edited,
    every change refused once the settlement is completed. */
module SettlementDetail {
  import opened Optional
  import opened Lists
  import opened Settlement
  import opened Accrual

  /** The payment `handleAddPayment` creates: paid by the first participant
      (or nobody), aimed at all participants in equal ratios, for nothing.
      The source gives it no `constant` list; it is empty here. */
  function NewPayment(id: int, participants: seq<string>): (p: Payment)
    ensures p.id == id && p.target == participants && |p.ratio| == |participants|
    ensures p.payer == (if participants == [] then "" else participants[0])
    ensures p.amount == 0.0 && p.item == "" && p.imageUrl == "" && p.constant == []
  {
    var n := |participants|;
    Payment(id, if n > 0 then participants[0] else "", participants,
            if n > 0 then Repeat(1.0 / n as real, n) else [], [], 0.0, "", "")
  }

  /** The default ratios split a payment equally: they are all the same and
      add up to one whenever there is somebody to split it among. */
  lemma NewPaymentRatiosAddUp(id: int, participants: seq<string>)
    requires participants != []
    ensures Sum(NewPayment(id, participants).ratio) == 1.0
    ensures forall i, j | 0 <= i < j < |participants| ::
              NewPayment(id, participants).ratio[i] == NewPayment(id, participants).ratio[j]
  {
    var n := |participants|;
    SumRepeat(1.0 / n as real, n);
  }

  /** `payments.map(p => p.id === u.id ? u : p)`. */
  function ReplaceById(payments: seq<Payment>, u: Payment): (r: seq<Payment>)
    ensures |r| == |payments|
    ensures forall i | 0 <= i < |r| :: r[i] == if payments[i].id == u.id then u else payments[i]
  {
    if payments == [] then []
    else
      var n := |payments| - 1;
      ReplaceById(payments[..n], u) + [if payments[n].id == u.id then u else payments[n]]
  }

  /** `payments.filter(p => p.id !== id)`. */
  function RemoveById(payments: seq<Payment>, id: int): (r: seq<Payment>)
    ensures |r| <= |payments|
    ensures forall i | 0 <= i < |r| :: r[i].id != id
  {
    if payments == [] then []
    else
      var n := |payments| - 1;
      RemoveById(payments[..n], id) + (if payments[n].id != id then [payments[n]] else [])
  }

  /** The filter keeps exactly the payments under other ids. */
  lemma {:induction false} RemoveByIdKeeps(payments: seq<Payment>, id: int)
    ensures forall q :: q in RemoveById(payments, id) <==> q in payments && q.id != id
  {
    if payments != [] {
      var n := |payments| - 1;
      RemoveByIdKeeps(payments[..n], id);
      assert payments == payments[..n] + [payments[n]];
    }
  }

  predicate HasId(payments: seq<Payment>, id: int)
  {
    exists i | 0 <= i < |payments| :: payments[i].id == id
  }

  /** Replacing twice with the same payment is replacing once. */
  lemma ReplaceIdempotent(payments: seq<Payment>, u: Payment)
    ensures ReplaceById(ReplaceById(payments, u), u) == ReplaceById(payments, u)
  {
  }

  /** Replacing changes nothing when no payment carries the id. */
  lemma ReplaceMissing(payments: seq<Payment>, u: Payment)
    requires !HasId(payments, u.id)
    ensures ReplaceById(payments, u) == payments
  {
  }

  /** Filtering distributes over concatenation. */
  lemma {:induction false} RemoveAppend(xs: seq<Payment>, ys: seq<Payment>, id: int)
    ensures RemoveById(xs + ys, id) == RemoveById(xs, id) + RemoveById(ys, id)
  {
    if ys != [] {
      var n := |ys| - 1;
      RemoveAppend(xs, ys[..n], id);
      assert (xs + ys)[..|xs| + n] == xs + ys[..n];
    } else {
      assert xs + ys == xs;
    }
  }

  /** Removing an id nobody has changes nothing. */
  lemma {:induction false} RemoveMissing(payments: seq<Payment>, id: int)
    requires !HasId(payments, id)
    ensures RemoveById(payments, id) == payments
  {
    if payments != [] {
      var n := |payments| - 1;
      var init := payments[..n];
      assert !HasId(init, id) by {
        forall i | 0 <= i < n
          ensures init[i].id != id
        {
          assert init[i] == payments[i];
        }
      }
      RemoveMissing(init, id);
      assert payments[n].id != id;
      assert RemoveById(payments, id) == RemoveById(init, id) + [payments[n]];
      assert init + [payments[n]] == payments;
    }
  }

  /** Adding a payment under a fresh id and then deleting that id gives the
      original list back. */
  lemma AddThenDelete(payments: seq<Payment>, id: int, participants: seq<string>)
    requires !HasId(payments, id)
    ensures RemoveById(payments + [NewPayment(id, participants)], id) == payments
  {
    RemoveAppend(payments, [NewPayment(id, participants)], id);
    RemoveMissing(payments, id);
    assert [NewPayment(id, participants)][..0] == [];
  }

  /** Deleting an id after replacing under it is deleting it outright. */
  lemma {:induction false} ReplaceThenDelete(payments: seq<Payment>, u: Payment)
    ensures RemoveById(ReplaceById(payments, u), u.id) == RemoveById(payments, u.id)
  {
    if payments != [] {
      var n := |payments| - 1;
      ReplaceThenDelete(payments[..n], u);
      assert ReplaceById(payments, u)[..n] == ReplaceById(payments[..n], u);
    }
  }

  /** The component's state: the payment list it hands to its parent through
      `onPaymentsChange` (held here as a field the handlers reassign) and the
      id of the payment being edited. */
  class PaymentList {
    var payments: seq<Payment>
    var editingItemId: Option<int>
    const participants: seq<string>
    const isCompleted: bool

    constructor(payments: seq<Payment>, participants: seq<string>, isCompleted: bool)
      ensures this.payments == payments && this.participants == participants
      ensures this.isCompleted == isCompleted && editingItemId == None
    {
      this.payments := payments;
      this.participants := participants;
      this.isCompleted := isCompleted;
      editingItemId := None;
    }

    /** `handleAddPayment`; `now` stands for `Date.now()`. */
    method HandleAddPayment(now: int)
      modifies this
      ensures isCompleted ==> payments == old(payments) && editingItemId == old(editingItemId)
      ensures !isCompleted ==> payments == old(payments) + [NewPayment(now, participants)]
      ensures !isCompleted ==> editingItemId == Some(now)
    {
      if isCompleted {
        return;
      }
      var newPayment := NewPayment(now, participants);
      payments := payments + [newPayment];
      editingItemId := Some(newPayment.id);
    }

    /** `handleUpdatePayment`. */
    method HandleUpdatePayment(updatedPayment: Payment)
      modifies this
      ensures isCompleted ==> payments == old(payments) && editingItemId == old(editingItemId)
      ensures !isCompleted ==> payments == ReplaceById(old(payments), updatedPayment)
      ensures !isCompleted ==> editingItemId == None
    {
      if isCompleted {
        return;
      }
      payments := ReplaceById(payments, updatedPayment);
      editingItemId := None;
    }

    /** `handleDeletePayment`: the edit mode ends only if the deleted payment
        was the one being edited. */
    method HandleDeletePayment(paymentId: int)
      modifies this
      ensures isCompleted ==> payments == old(payments) && editingItemId == old(editingItemId)
      ensures !isCompleted ==> payments == RemoveById(old(payments), paymentId)
      ensures !isCompleted ==> editingItemId == if old(editingItemId) == Some(paymentId) then None else old(editingItemId)
    {
      if isCompleted {
        return;
      }
      payments := RemoveById(payments, paymentId);
      if editingItemId == Some(paymentId) {
        editingItemId := None;
      }
    }

    /** `handleEditClick`. */
    method HandleEditClick(paymentId: int)
      modifies this
      ensures payments == old(payments)
      ensures editingItemId == if isCompleted then old(editingItemId) else Some(paymentId)
    {
      if isCompleted {
        return;
      }
      editingItemId := Some(paymentId);
    }

    /** `handleCancelEdit`: not guarded by the completion lock. */
    method HandleCancelEdit()
      modifies this
      ensures payments == old(payments) && editingItemId == None
    {
      editingItemId := None;
    }
  }
}
