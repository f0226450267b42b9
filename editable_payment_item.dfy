/** The edit form of one payment, src/components/EditablePaymentItem.tsx:
    field edits that clear their own error, the target checkboxes and the
    per-person amounts that keep `amount` equal to the sum of the selected
    people's amounts, validation, and saving. */
module EditablePaymentItem {
  import opened Optional
  import opened Lists
  import opened Settlement

  const ItemRequired: string := "항목명을 입력해주세요."
  const AmountNotPositive: string := "금액은 0보다 큰 숫자여야 합니다."
  const TargetRequired: string := "정산 대상자를 1명 이상 선택해주세요."

  /** The longest item name the name input passes on. */
  const MaxItemLength: nat := 30
  /** The longest text the per-person amount input accepts. */
  const MaxConstantInputLength: nat := 8

  /** The `errors` state: one optional message per checked field. */
  datatype Errors = Errors(amount: Option<string>, item: Option<string>, target: Option<string>)

  const NoErrors: Errors := Errors(None, None, None)

  /** The characters `String.prototype.trim` removes: the ECMAScript
      WhiteSpace and LineTerminator code points. */
  predicate IsWhitespace(c: char)
  {
    c == '\t' || c == '\n' || c == '\U{B}' || c == '\U{C}' || c == '\r' || c == ' ' ||
    c == '\U{A0}' || c == '\U{1680}' || ('\U{2000}' <= c <= '\U{200A}') ||
    c == '\U{2028}' || c == '\U{2029}' || c == '\U{202F}' || c == '\U{205F}' ||
    c == '\U{3000}' || c == '\U{FEFF}'
  }

  function TrimStart(s: string): (r: string)
    ensures |r| <= |s| && r == s[|s| - |r|..]
    ensures r != [] ==> !IsWhitespace(r[0])
    ensures forall i | 0 <= i < |s| - |r| :: IsWhitespace(s[i])
  {
    if s != [] && IsWhitespace(s[0]) then TrimStart(s[1..]) else s
  }

  function TrimEnd(s: string): (r: string)
    ensures |r| <= |s| && r == s[..|r|]
    ensures r != [] ==> !IsWhitespace(r[|r| - 1])
    ensures forall i | |r| <= i < |s| :: IsWhitespace(s[i])
  {
    if s != [] && IsWhitespace(s[|s| - 1]) then TrimEnd(s[..|s| - 1]) else s
  }

  /** `s.trim()`: `s` without its leading and trailing whitespace. */
  function Trim(s: string): (r: string)
  {
    TrimEnd(TrimStart(s))
  }

  /** Trimming leaves a slice of the input that neither starts nor ends with
      whitespace. */
  lemma TrimIsInnerSlice(s: string)
    ensures exists i, j | 0 <= i <= j <= |s| :: Trim(s) == s[i..j]
    ensures Trim(s) != [] ==> !IsWhitespace(Trim(s)[0]) && !IsWhitespace(Trim(s)[|Trim(s)| - 1])
  {
    var t := TrimStart(s);
    var r := TrimEnd(t);
    var i := |s| - |t|;
    assert Trim(s) == r;
    assert r == s[i..i + |r|];
  }

  /** Trimming leaves nothing exactly when every character is whitespace. */
  lemma TrimEmptyIff(s: string)
    ensures Trim(s) == [] <==> forall i | 0 <= i < |s| :: IsWhitespace(s[i])
  {
    var t := TrimStart(s);
    var r := TrimEnd(t);
  }

  /** `validate`'s checks, one message per failing field. */
  function ValidationErrors(p: Payment): (e: Errors)
    ensures e.item == (if Trim(p.item) == "" then Some(ItemRequired) else None)
    ensures e.amount == (if p.amount <= 0.0 then Some(AmountNotPositive) else None)
    ensures e.target == (if p.target == [] then Some(TargetRequired) else None)
  {
    Errors(if p.amount <= 0.0 then Some(AmountNotPositive) else None,
           if p.item == "" || Trim(p.item) == "" then Some(ItemRequired) else None,
           if |p.target| == 0 then Some(TargetRequired) else None)
  }

  /** A payment passes validation exactly when its name has a
      non-whitespace character, its amount is positive and it has a target. */
  lemma ValidIff(p: Payment)
    ensures ValidationErrors(p) == NoErrors <==>
              (exists i | 0 <= i < |p.item| :: !IsWhitespace(p.item[i])) && p.amount > 0.0 && p.target != []
  {
    TrimEmptyIff(p.item);
  }

  /** The fields `handleChange` is called with, each with the value the
      input passes on. */
  datatype Field = ItemField(item: string) | AmountField(amount: real) | PayerField(payer: string)

  /** The name input: `handleChange('item', value.slice(0, 30))`. */
  function ItemInput(raw: string): (f: Field)
    ensures f.ItemField? && |f.item| <= MaxItemLength && |f.item| <= |raw|
    ensures f.item == raw[..|f.item|]
    ensures |raw| <= MaxItemLength ==> f.item == raw
    ensures |raw| > MaxItemLength ==> f.item == raw[..MaxItemLength]
  {
    ItemField(if |raw| <= MaxItemLength then raw else raw[..MaxItemLength])
  }

  /** The amount input: `handleChange('amount', parseInt(value) || 0)`,
      `parsed` standing for what `parseInt` returns (`None` for NaN). */
  function AmountInput(parsed: Option<int>): (f: Field)
    ensures f.AmountField?
    ensures parsed.None? ==> f.amount == 0.0
    ensures parsed.Some? ==> f.amount == parsed.value as real
  {
    AmountField(if parsed.Some? then parsed.value as real else 0.0)
  }

  /** `{ ...prev, [field]: value }`. */
  function WithField(p: Payment, f: Field): (r: Payment)
    ensures r.id == p.id && r.target == p.target && r.ratio == p.ratio
    ensures r.constant == p.constant && r.imageUrl == p.imageUrl
    ensures r.item == (if f.ItemField? then f.item else p.item)
    ensures r.amount == (if f.AmountField? then f.amount else p.amount)
    ensures r.payer == (if f.PayerField? then f.payer else p.payer)
  {
    match f
    case ItemField(v) => p.(item := v)
    case AmountField(v) => p.(amount := v)
    case PayerField(v) => p.(payer := v)
  }

  /** The error of the edited field is cleared; the payer has none. */
  function ClearError(e: Errors, f: Field): (r: Errors)
    ensures f.ItemField? ==> r == e.(item := None)
    ensures f.AmountField? ==> r == e.(amount := None)
    ensures f.PayerField? ==> r == e
  {
    match f
    case ItemField(_) => if e.item.Some? then e.(item := None) else e
    case AmountField(_) => if e.amount.Some? then e.(amount := None) else e
    case PayerField(_) => e
  }

  /** `editedPayment.target.filter(t => t !== p)`. */
  function Without(targets: seq<string>, p: string): (r: seq<string>)
    ensures p !in r && |r| <= |targets|
    ensures forall x | x != p :: x in r <==> x in targets
    ensures forall x :: multiset(r)[x] == if x == p then 0 else multiset(targets)[x]
  {
    if targets == [] then []
    else
      var n := |targets| - 1;
      assert targets == targets[..n] + [targets[n]];
      Without(targets[..n], p) + (if targets[n] != p then [targets[n]] else [])
  }

  /** The filter works piecewise, so the other targets keep their order. */
  lemma {:induction false} WithoutAppend(a: seq<string>, b: seq<string>, p: string)
    ensures Without(a + b, p) == Without(a, p) + Without(b, p)
  {
    if b == [] {
      assert a + b == a;
    } else {
      var n := |b| - 1;
      WithoutAppend(a, b[..n], p);
      FrontAppend(a, b);
    }
  }

  /** The target list after the checkbox of `p` changes: checking appends
      `p` (even when already there), unchecking drops every occurrence. */
  function ToggleTarget(targets: seq<string>, p: string, checked: bool): (r: seq<string>)
    ensures checked ==> r == targets + [p]
    ensures !checked ==> r == Without(targets, p)
  {
    if checked then targets + [p] else Without(targets, p)
  }

  /** Without an occurrence to drop, unchecking keeps the list as it is. */
  lemma {:induction false} WithoutAbsent(targets: seq<string>, p: string)
    requires p !in targets
    ensures Without(targets, p) == targets
  {
    if targets != [] {
      WithoutAbsent(targets[..|targets| - 1], p);
    }
  }

  /** Checking a person who was not a target and unchecking them again
      restores the target list. */
  lemma ToggleRoundTrip(targets: seq<string>, p: string)
    requires p !in targets
    ensures ToggleTarget(ToggleTarget(targets, p, true), p, false) == targets
  {
    var t := targets + [p];
    assert t[..|t| - 1] == targets;
    WithoutAbsent(targets, p);
  }

  /** The amount reduce of lines 137-142 and 300-306 over the first `n`
      cells: the numeric cells whose participant is among the targets. */
  function SumSelected(constant: seq<Cell>, participants: seq<string>, targets: seq<string>, n: nat): real
    requires n <= |constant|
  {
    if n == 0 then 0.0
    else
      var i := n - 1;
      SumSelected(constant, participants, targets, i) +
      (if i < |participants| && participants[i] in targets && constant[i].Num? then constant[i].value else 0.0)
  }

  /** The amount a target list gets from the per-person amounts. */
  function ConstantSum(constant: seq<Cell>, participants: seq<string>, targets: seq<string>): real
  {
    SumSelected(constant, participants, targets, |constant|)
  }

  /** The per-person amounts of `p` alone, over the first `n` cells. */
  function ShareOf(constant: seq<Cell>, participants: seq<string>, p: string, n: nat): real
    requires n <= |constant|
  {
    if n == 0 then 0.0
    else
      var i := n - 1;
      ShareOf(constant, participants, p, i) +
      (if i < |participants| && participants[i] == p && constant[i].Num? then constant[i].value else 0.0)
  }

  /** Only membership in the target list matters, not order or repetition. */
  lemma {:induction false} SumSelectedByMembership(constant: seq<Cell>, participants: seq<string>,
                                                    t1: seq<string>, t2: seq<string>, n: nat)
    requires n <= |constant| && forall x :: x in t1 <==> x in t2
    ensures SumSelected(constant, participants, t1, n) == SumSelected(constant, participants, t2, n)
  {
    if n > 0 {
      SumSelectedByMembership(constant, participants, t1, t2, n - 1);
    }
  }

  /** Dropping a target takes exactly their per-person amounts out of the sum. */
  lemma {:induction false} SumSelectedWithout(constant: seq<Cell>, participants: seq<string>,
                                              targets: seq<string>, p: string, n: nat)
    requires n <= |constant| && p in targets
    ensures SumSelected(constant, participants, targets, n) ==
            SumSelected(constant, participants, Without(targets, p), n) + ShareOf(constant, participants, p, n)
  {
    if n > 0 {
      SumSelectedWithout(constant, participants, targets, p, n - 1);
    }
  }

  /** The amount after a checkbox change: unchecking a target subtracts their
      per-person amounts, checking a non-target adds them, and checking a
      target again changes nothing. */
  lemma ToggleAmount(constant: seq<Cell>, participants: seq<string>, targets: seq<string>, p: string, checked: bool)
    ensures var after := ConstantSum(constant, participants, ToggleTarget(targets, p, checked));
            var before := ConstantSum(constant, participants, targets);
            var share := ShareOf(constant, participants, p, |constant|);
            (checked && p in targets ==> after == before) &&
            (checked && p !in targets ==> after == before + share) &&
            (!checked && p in targets ==> after == before - share) &&
            (!checked && p !in targets ==> after == before)
  {
    var n := |constant|;
    if checked {
      if p in targets {
        SumSelectedByMembership(constant, participants, targets + [p], targets, n);
      } else {
        var t := targets + [p];
        SumSelectedWithout(constant, participants, t, p, n);
        assert t[..|t| - 1] == targets;
        WithoutAbsent(targets, p);
        assert Without(t, p) == targets;
      }
    } else {
      if p in targets {
        SumSelectedWithout(constant, participants, targets, p, n);
      } else {
        WithoutAbsent(targets, p);
      }
    }
  }

  /** Non-negative per-person amounts give a non-negative total. */
  lemma {:induction false} SumSelectedNonNegative(constant: seq<Cell>, participants: seq<string>, targets: seq<string>, n: nat)
    requires n <= |constant|
    requires forall i | 0 <= i < |constant| :: constant[i].Num? ==> constant[i].value >= 0.0
    ensures SumSelected(constant, participants, targets, n) >= 0.0
  {
    if n > 0 {
      SumSelectedNonNegative(constant, participants, targets, n - 1);
    }
  }

  /** `newConst[index] = value` on a copy: past the end, the array grows with
      empty slots up to `index`. */
  function SetCell(constant: seq<Cell>, index: nat, v: Cell): (r: seq<Cell>)
    ensures |r| == if index < |constant| then |constant| else index + 1
    ensures r[index] == v
    ensures forall k | 0 <= k < |r| && k != index ::
              r[k] == if k < |constant| then constant[k] else NotNum
  {
    if index < |constant| then constant[index := v]
    else constant + seq(index - |constant|, _ => NotNum) + [v]
  }

  /** Summing cells the participant list does not reach changes nothing. */
  lemma {:induction false} SumSelectedBeyond(constant: seq<Cell>, participants: seq<string>, targets: seq<string>, n: nat)
    requires |participants| <= n <= |constant|
    ensures SumSelected(constant, participants, targets, n) == SumSelected(constant, participants, targets, |participants|)
  {
    if n > |participants| {
      SumSelectedBeyond(constant, participants, targets, n - 1);
    }
  }

  /** The form's state: the payment being edited and the error messages,
      for fixed `participants` and completion flag. */
  class PaymentEditor {
    var edited: Payment
    var errors: Errors
    const participants: seq<string>
    const isCompleted: bool

    constructor(payment: Payment, participants: seq<string>, isCompleted: bool)
      ensures edited == payment && errors == NoErrors
      ensures this.participants == participants && this.isCompleted == isCompleted
    {
      edited := payment;
      errors := NoErrors;
      this.participants := participants;
      this.isCompleted := isCompleted;
    }

    /** `handleChange`. */
    method HandleChange(f: Field)
      modifies this
      ensures isCompleted ==> edited == old(edited) && errors == old(errors)
      ensures !isCompleted ==> edited == WithField(old(edited), f) && errors == ClearError(old(errors), f)
    {
      if isCompleted {
        return;
      }
      edited := WithField(edited, f);
      errors := ClearError(errors, f);
    }

    /** `handleTargetChange`: the checkbox is disabled once completed, but
        the handler itself has no guard. */
    method HandleTargetChange(participant: string, checked: bool)
      modifies this
      ensures edited == old(edited).(target := ToggleTarget(old(edited).target, participant, checked),
                                     amount := ConstantSum(old(edited).constant, participants, edited.target))
      ensures errors == old(errors)
    {
      var newTargets := if checked then edited.target + [participant] else Without(edited.target, participant);
      var newAmount := ConstantSum(edited.constant, participants, newTargets);
      edited := edited.(target := newTargets, amount := newAmount);
    }

    /** `validate`: the messages are collected field by field. */
    method Validate() returns (valid: bool)
      modifies this
      ensures edited == old(edited) && errors == ValidationErrors(edited)
      ensures valid <==> errors == NoErrors
    {
      var newErrors := NoErrors;
      if edited.item == "" || Trim(edited.item) == "" {
        newErrors := newErrors.(item := Some(ItemRequired));
      }
      if edited.amount <= 0.0 {
        newErrors := newErrors.(amount := Some(AmountNotPositive));
      }
      if |edited.target| == 0 {
        newErrors := newErrors.(target := Some(TargetRequired));
      }
      errors := newErrors;
      valid := newErrors == NoErrors;
    }

    /** `handleSave`: the payment handed to `onUpdate`, if any. */
    method HandleSave() returns (saved: Option<Payment>)
      modifies this
      ensures edited == old(edited)
      ensures isCompleted ==> saved == None && errors == old(errors)
      ensures !isCompleted ==> errors == ValidationErrors(edited)
      ensures !isCompleted ==> (saved == if errors == NoErrors then Some(edited) else None)
    {
      if isCompleted {
        return None;
      }
      var valid := Validate();
      saved := if valid then Some(edited) else None;
    }

    /** The per-person amount input of participant `index`: `raw` is the
        text typed and `parsed` what `parseInt` makes of it (`None` for
        NaN). Text longer than eight characters, NaN and negative values
        are ignored; otherwise the cell is set and the amount becomes the sum
        over the current targets. */
    method HandleConstantInput(index: nat, raw: string, parsed: Option<int>)
      requires index < |participants|
      modifies this
      ensures |raw| > MaxConstantInputLength || parsed.None? || parsed.value < 0 ==> edited == old(edited)
      ensures !(|raw| > MaxConstantInputLength || parsed.None? || parsed.value < 0) ==>
                edited == old(edited).(constant := SetCell(old(edited).constant, index, Num(parsed.value as real)),
                                      amount := ConstantSum(edited.constant, participants, old(edited).target))
      ensures errors == old(errors)
    {
      if |raw| > MaxConstantInputLength {
        return;
      }
      if parsed.None? || parsed.value < 0 {
        return;
      }
      var value := parsed.value;
      var newConst := SetCell(edited.constant, index, Num(value as real));
      var total := ConstantSum(newConst, participants, edited.target);
      edited := edited.(constant := newConst, amount := total);
    }
  }
}
