# Settlement splitting and netting, modelled in Dafny

The system is a web front end for splitting shared expenses in a group. A
*settlement* holds a participant list, a list of *payments* and a list of
*optimized transfers*. Each payment has a payer, an amount, the people it
was for (targets), split ratios and per-person amounts ("constants"). The
project models these parts:

- **Recalculation** (`src/services/settlement.ts`). Balances are accrued
  from the payments: the payer is credited and the valid targets are debited
  by ratio or in equal shares. Creditors and debtors are then selected and
  stably sorted. A greedy loop then pairs the largest creditor with the
  largest debtor and records rounded transfers. The shaping of a fetched
  settlement (`getSettlement`) and `computeConstant` are modelled as well.
- **Payment-list editing** (`src/components/SettlementDetail.tsx`): add,
  update, delete, start editing and cancel. All but cancel are locked once
  the settlement is completed.
- **The payment edit form** (`src/components/EditablePaymentItem.tsx`):
  - field edits that clear their own error;
  - target checkboxes, with the amount kept equal to the sum of the
    selected people's per-person amounts;
  - the per-person amount input;
  - validation and saving.
- **The summary** (`src/components/SettlementSummary.tsx`): the net flow of
  each participant under the transfers, the nickname lookup and the avatar
  initial.
- **The toast store** (`src/hooks/use-toast.ts`): the reducer, the id
  counter, the set of ids with a pending removal timer, and `dispatch`.

Amounts are exact reals. `Math.round` is modelled explicitly as
`Floor(x + 1/2)`. JavaScript's `undefined` arithmetic in the summary fold is
modelled as a `NaN` value. State that the components keep in React hooks
becomes the fields of a class whose methods are the handlers.

Where the code changes things step by step, the model is imperative:
- the accrual loops (`Accrual.Accrue`, `Accrual.ApplyPayment`);
- the netting loop (`Netting.Net`);
- the summary fold (`SettlementSummary.ComputeBalances`);
- the dismiss-all enqueuing (`Toast.ToastStore.Dispatch`);
- the handlers, which are class methods.

Each of these is proved against a function that specifies it, and the
properties are proved about those functions.

## Model

| member | source | states |
|---|---|---|
| JsNumber.DigitChar | src/services/settlement.ts:117 | each digit is written as a character from '0' to '9' that reads back as that digit |
| JsNumber.Digits | src/services/settlement.ts:117 | the decimal rendering of a natural number is a non-empty string of digits; numbers from 10 up have at least two digits |
| JsNumber.DigitsRoundTrip | src/services/settlement.ts:117 | reading the digits of `n` back gives `n` |
| JsNumber.ToDecimalRoundTrip | src/services/settlement.ts:117 | `toString` of an integer parses back to the same integer, sign included |
| JsNumber.ToDecimalInjective | src/services/settlement.ts:114-117 | two different ids never render as the same string |
| JsNumber.Round | src/services/settlement.ts:285 | `Math.round(x)` is the integer within one half of `x`, with halves going up |
| JsNumber.Abs | src/services/settlement.ts:293 | `Math.abs` is non-negative and is `x` or `-x` |
| JsNumber.Min | src/services/settlement.ts:279 | `Math.min` is below both arguments and equals one of them |
| Lists.IndexOf | src/services/settlement.ts:116 | `indexOf` is -1 exactly when the value is absent; otherwise it is the first position holding the value |
| Lists.KeepFirstProperties | src/services/settlement.ts:116 | the `indexOf(v) === i` filter over a prefix keeps exactly that prefix's values, each once, ordered by first position |
| Lists.FirstOccurrencesProperties | src/services/settlement.ts:116 | de-duplication keeps exactly the values of the list, without repeats, in order of first appearance |
| Lists.SumAppend | src/services/settlement.ts:235 | the `reduce` sum of a concatenation is the sum of the two parts |
| Settlement.ComputeConstant | src/services/settlement.ts:105-107 | one entry per ratio, each the rounding of ratio times amount |
| Settlement.AllParticipantIdsMembership | src/services/settlement.ts:114-115 | the flattened id list holds an id exactly when some record lists it |
| Settlement.IdStrings | src/services/settlement.ts:117 | the id strings are the ids' decimal renderings, position by position |
| Settlement.ParticipantsMembership | src/services/settlement.ts:114-117 | an id's string is a participant exactly when some record lists that id |
| Settlement.ParticipantsAreIds | src/services/settlement.ts:114-117 | every participant is the rendering of a listed id |
| Settlement.ParticipantsOrder | src/services/settlement.ts:114-117 | participants have no duplicates and appear in order of their ids' first appearance |
| Settlement.ToPayment | src/services/settlement.ts:119-127 | a payment keeps the record's id. Its payer and targets are the ids' `toString` renderings, the same as the participant list uses. It also keeps the amount, the ratio list, the per-person amounts and the item name, and it has no image |
| Settlement.ToTransfer | src/services/settlement.ts:132-136 | a transfer's ends are the `toString` renderings of the raw payer and payee ids, which read back as those ids; the amount is kept |
| Settlement.ShapedPaymentFits | src/services/settlement.ts:114-127 | every target of a fetched payment is a participant, and its payer is a participant exactly when some record lists the payer's id |
| Settlement.Shape | src/services/settlement.ts:138-146 | the fetched settlement has the given id, the title "정산 " plus the id, is not completed, and holds the derived participants, the payments and the transfers in order |
| Accrual.Adjust | src/services/settlement.ts:238 | `balances[k] += d` changes only `k`, by `d`; an unset key counts as 0 |
| Accrual.TotalAdjust | src/services/settlement.ts:238 | adding `d` to one key adds `d` to the total over a duplicate-free key list that holds it, and nothing otherwise |
| Accrual.TotalOfZeros | src/services/settlement.ts:225 | all-zero balances total zero |
| Accrual.Initial | src/services/settlement.ts:225 | every participant starts at 0 and nobody else has an entry |
| Accrual.ValidTargets | src/services/settlement.ts:232 | the valid targets are exactly the targets that are participants |
| Accrual.ValidTargetsAllKept | src/services/settlement.ts:232 | when every target is a participant the filter keeps the whole list |
| Accrual.FetchedTargetsAllValid | src/services/settlement.ts:114-127 | a fetched payment loses no target to the participant filter at line 232 |
| Accrual.ValidTargetsCount | src/services/settlement.ts:232 | the filter keeps every participant target as often as it occurs and drops every other target |
| Accrual.ValidTargetsAppend | src/services/settlement.ts:232 | the filter of a concatenation is the concatenation of the filters, so it keeps order |
| Accrual.Scaled | src/services/settlement.ts:243-245 | the i-th ratio share is `ratio[i] * amountPerRatio` |
| Accrual.SumScaled | src/services/settlement.ts:243-245 | the ratio shares sum to the ratio sum times the amount per ratio unit |
| Accrual.Repeat | src/services/settlement.ts:254-256 | every valid target gets the same share |
| Accrual.SumRepeat | src/services/settlement.ts:254-256 | `n` equal shares sum to `n` times the share |
| Accrual.Shares | src/services/settlement.ts:235-258 | the ratio branch is taken exactly when the ratio list fits the valid targets and sums above 0; the shares always add up to the amount |
| Accrual.RatioSharesAddUp | src/services/settlement.ts:243-252 | the ratio shares add up to the amount |
| Accrual.EqualSharesAddUp | src/services/settlement.ts:254-257 | the equal shares add up to the amount |
| Accrual.DebitKeys | src/services/settlement.ts:244-257 | the debits write exactly the targets' keys |
| Accrual.DebitStep | src/services/settlement.ts:244-257 | debiting one more target extends the debit of the targets before it |
| Accrual.DebitAt | src/services/settlement.ts:244-257 | each key loses exactly the shares of the target positions it occupies |
| Accrual.TotalDebit | src/services/settlement.ts:244-257 | the debits take exactly the sum of the shares out of the participants' total |
| Accrual.ApplyShifts | src/services/settlement.ts:228-259 | one payment writes only the payer and the valid targets, and shifts every balance by the same amount whatever the balances were |
| Accrual.ApplyKeepsTotal | src/services/settlement.ts:228-259 | each payment credits and debits the same total, so the sum over the participants stays put |
| Accrual.Accrued | src/services/settlement.ts:224-259 | the accrued balances have an entry for exactly the participants |
| Accrual.AccruedSumsToZero | src/services/settlement.ts:224-259 | whatever the payments, the participants' balances add up to 0, each participant counted once |
| Accrual.BalancesEqual | src/services/settlement.ts:224 | two balance maps with the same keys and the same readings are equal |
| Accrual.ApplyCommutes | src/services/settlement.ts:228-259 | two payments applied in either order give the same balances |
| Accrual.AccruedSwap | src/services/settlement.ts:228-259 | swapping two neighbouring payments leaves every final balance unchanged |
| Accrual.SkippedPaymentIsInvisible | src/services/settlement.ts:230-233 | a payment whose payer is not a participant, or with no valid target, leaves every balance unchanged wherever it sits in the list |
| Accrual.DebitByRatio | src/services/settlement.ts:243-252 | the ratio loop debits each valid target its ratio share |
| Accrual.DebitEqually | src/services/settlement.ts:253-258 | the equal-split loop debits each valid target the same share |
| Accrual.ApplyPayment | src/services/settlement.ts:228-259 | the loop body for one payment gives that payment's effect on the balances |
| Accrual.Accrue | src/services/settlement.ts:224-259 | the accrual loops produce the accrued balances |
| Netting.SidesFit | src/services/settlement.ts:264-265 | creditors plus debtors are at most the participants |
| Netting.Negate | src/services/settlement.ts:270 | the negated map reads as minus each balance |
| Netting.Creditors | src/services/settlement.ts:264 | the creditors are exactly the participants owed more than the tolerance, with their multiplicity in the participant list |
| Netting.Debtors | src/services/settlement.ts:265 | the debtors are exactly the participants owing more than the tolerance, with their multiplicity |
| Netting.WithKeyAppend | src/services/settlement.ts:269-270 | selecting by key value distributes over a concatenation |
| Netting.WithKeyNegate | src/services/settlement.ts:270 | selecting by `-v` under the negated balances is selecting by `v` under the balances |
| Netting.CreditorsKeepTiesAt | src/services/settlement.ts:264 | for one balance value, the creditor filter keeps the participants with that balance in their order when the value is above the tolerance, and none otherwise |
| Netting.CreditorsKeepTies | src/services/settlement.ts:264 | the same for every balance value at once |
| Netting.DebtorsKeepTies | src/services/settlement.ts:265 | the debtor filter keeps the participants with any one balance below minus the tolerance in their order, and none with any other balance |
| Netting.Insert | src/services/settlement.ts:269-270 | inserting adds exactly one element to the list |
| Netting.SortDesc | src/services/settlement.ts:269-270 | sorting keeps the same elements with the same multiplicities |
| Netting.InsertSorted | src/services/settlement.ts:269-270 | inserting into a list sorted by descending key keeps it sorted |
| Netting.InsertStable | src/services/settlement.ts:269-270 | insertion puts the new element before its equal-keyed elements, as the stable sort keeps them |
| Netting.SortDescProperties | src/services/settlement.ts:269-270 | the sort is a permutation, is ordered by descending key, and keeps equal-keyed elements in their original order |
| Netting.Move | src/services/settlement.ts:288-289 | a transfer takes its amount from the creditor's balance and adds it to the debtor's; nobody else changes |
| Netting.MoveKeepsTotal | src/services/settlement.ts:288-289 | one netting step keeps the sum of the balances |
| Netting.SettleKeepsTotal | src/services/settlement.ts:276-300 | the whole netting keeps the sum of the balances over the participants |
| Netting.MoveKeepsBounds | src/services/settlement.ts:279-289 | a step keeps creditors within [0, start] and debtors within [start, 0], and keeps settled parties settled |
| Netting.RecordKeeps | src/services/settlement.ts:281-286 | the recorded transfer goes from a debtor to a creditor, carries the rounded amount, and has a raw amount above the tolerance |
| Netting.MoveSettlesOne | src/services/settlement.ts:279-289 | moving the smaller of the two open amounts zeroes the creditor or the debtor |
| Netting.SmallAmountSettlesOne | src/services/settlement.ts:279-281 | when creditors are owed nothing negative and debtors owe nothing negative, an amount within the tolerance means one of the two parties is already within it |
| Netting.AdvanceKeeps | src/services/settlement.ts:292-299 | a cursor moves past a party only once that party is settled |
| Netting.OneSideSettled | src/services/settlement.ts:276 | when one cursor reaches its end, every creditor or every debtor is settled |
| Netting.MoveKeepsSigned | src/services/settlement.ts:279-289 | moving the smaller open amount keeps every creditor at or above 0 and every debtor at or below 0 |
| Netting.Step | src/services/settlement.ts:277-299 | one pass, with the corrected advance test, keeps creditors and debtors on their sides of zero. It moves at least one cursor, each by at most one, and moves at most one flow |
| Netting.GreedyFlows | src/services/settlement.ts:276-300 | the flows of the greedy walk from two cursors are at most as many as the parties still ahead of the cursors |
| Netting.GreedyExample | src/services/settlement.ts:264-300 | with A owed 100, B owed 60, C owing 70 and D owing 90, the walk gives D to A 90, then C to A 10, then C to B 60 |
| Netting.NetPassKeeps | src/services/settlement.ts:277-299 | one pass of the loop body keeps the loop invariant and moves a cursor |
| Netting.Net | src/services/settlement.ts:272-300 | the loop, with the corrected advance test, ends. Its exact flows are the greedy walk from the first creditor and first debtor. Every transfer goes debtor to creditor with the rounded amount of a raw amount above the tolerance. There are at most as many transfers as parties. The balances stay bounded, and one side ends fully settled |
| Netting.StepAsWritten | src/services/settlement.ts:277-299 | one pass of the loop as written moves each cursor by at most one, records at most one transfer, and leaves the balances alone when it records none |
| Netting.AsWrittenStalls | src/services/settlement.ts:281-298 | from a concrete state, the loop as written reaches a pass that maps the state to itself with both cursors in range |
| Recalculation.CreditorOrder | src/services/settlement.ts:264-269 | the creditor list holds exactly the participants owed more than the tolerance, by descending balance. Participants with equal balances keep their participant-list order |
| Recalculation.DebtorOrder | src/services/settlement.ts:265-270 | the debtor list holds exactly the participants owing more than the tolerance, by ascending balance. Participants with equal balances keep their participant-list order |
| Recalculation.DebtorOrderTies | src/services/settlement.ts:265-270 | sorting the debtors by negated balance keeps equal balances in participant-list order |
| Recalculation.Recalculate | src/services/settlement.ts:220-308 | the settlement is returned unchanged except for its transfers. There are no more transfers than participants. The exact flows are the greedy walk over the accrued balances, with the creditors and debtors in their sorted orders. The transfers are their rounded amounts, with the bounds and the settled side of `Netting.Net` |
| Recalculation.RemainderSumsToZero | src/services/settlement.ts:224-300 | what the netting leaves still adds up to zero over the participants |
| SettlementDetail.NewPayment | src/components/SettlementDetail.tsx:46-54 | the new payment has the given id and amount 0. Its payer is the first participant, or empty. Its targets are all participants, with one ratio per participant, and it has an empty name, image and per-person amounts |
| SettlementDetail.NewPaymentRatiosAddUp | src/components/SettlementDetail.tsx:50 | the default ratios are all equal and sum to 1 |
| SettlementDetail.ReplaceById | src/components/SettlementDetail.tsx:70-72 | every payment with the updated id is replaced and the others stay in place; the length is unchanged |
| SettlementDetail.RemoveById | src/components/SettlementDetail.tsx:88 | no payment with the id is left and the list does not grow |
| SettlementDetail.RemoveByIdKeeps | src/components/SettlementDetail.tsx:88 | a payment survives deletion exactly when its id differs |
| SettlementDetail.ReplaceIdempotent | src/components/SettlementDetail.tsx:70-72 | updating twice with the same payment is updating once |
| SettlementDetail.ReplaceMissing | src/components/SettlementDetail.tsx:70-72 | an update whose id is unknown changes nothing |
| SettlementDetail.RemoveAppend | src/components/SettlementDetail.tsx:88 | deletion works piecewise, so survivors keep their order |
| SettlementDetail.RemoveMissing | src/components/SettlementDetail.tsx:88 | deleting an unknown id changes nothing |
| SettlementDetail.AddThenDelete | src/components/SettlementDetail.tsx:42-95 | deleting a freshly added payment restores the list |
| SettlementDetail.ReplaceThenDelete | src/components/SettlementDetail.tsx:66-95 | deleting an id after updating it is the same as deleting it directly |
| SettlementDetail.PaymentList.constructor | src/components/SettlementDetail.tsx:42 | the list starts from the given payments, with no item being edited |
| SettlementDetail.PaymentList.HandleAddPayment | src/components/SettlementDetail.tsx:42-59 | when completed nothing changes; otherwise one new payment is appended at the end and becomes the edited item |
| SettlementDetail.PaymentList.HandleUpdatePayment | src/components/SettlementDetail.tsx:66-77 | when completed nothing changes; otherwise matching payments are replaced and editing ends |
| SettlementDetail.PaymentList.HandleDeletePayment | src/components/SettlementDetail.tsx:84-95 | when completed nothing changes. Otherwise matching payments are removed, and editing ends only if the deleted id was being edited |
| SettlementDetail.PaymentList.HandleEditClick | src/components/SettlementDetail.tsx:102-105 | when not completed, the clicked item becomes the edited one; payments never change |
| SettlementDetail.PaymentList.HandleCancelEdit | src/components/SettlementDetail.tsx:111-114 | editing ends, even when completed, and payments are untouched |
| Avatar.Initials | src/components/SettlementSummary.tsx:17-20 | one character: '?' for an empty name, else the name's first character (the same function appears at src/components/EditablePaymentItem.tsx:57-60) |
| EditablePaymentItem.TrimStart | src/components/EditablePaymentItem.tsx:157 | leading whitespace is dropped: the result is a suffix that does not start with whitespace, and everything cut is whitespace |
| EditablePaymentItem.TrimEnd | src/components/EditablePaymentItem.tsx:157 | trailing whitespace is dropped: the result is a prefix that does not end with whitespace, and everything cut is whitespace |
| EditablePaymentItem.TrimIsInnerSlice | src/components/EditablePaymentItem.tsx:157 | `trim()` leaves a slice of the name that neither starts nor ends with whitespace |
| EditablePaymentItem.TrimEmptyIff | src/components/EditablePaymentItem.tsx:157 | `trim()` leaves nothing exactly when every character is whitespace |
| EditablePaymentItem.ValidationErrors | src/components/EditablePaymentItem.tsx:155-166 | a blank name, an amount of at most 0 and an empty target list each give their own message |
| EditablePaymentItem.ValidIff | src/components/EditablePaymentItem.tsx:155-169 | validation passes exactly when the name has a non-whitespace character, the amount is above 0 and there is a target |
| EditablePaymentItem.ItemInput | src/components/EditablePaymentItem.tsx:209 | the name passed on is the typed text when it has at most 30 characters, and its first 30 characters otherwise |
| EditablePaymentItem.AmountInput | src/components/EditablePaymentItem.tsx:224 | the amount is the parsed integer, or 0 when parsing fails |
| EditablePaymentItem.WithField | src/components/EditablePaymentItem.tsx:120 | only the named field takes the new value |
| EditablePaymentItem.ClearError | src/components/EditablePaymentItem.tsx:122-124 | the edited field's error is cleared; the payer has none to clear |
| EditablePaymentItem.Without | src/components/EditablePaymentItem.tsx:135 | unchecking drops every occurrence of the person and keeps every other target as often as it occurs |
| EditablePaymentItem.WithoutAppend | src/components/EditablePaymentItem.tsx:135 | the filter works piecewise over a concatenation, so the kept targets keep their order |
| EditablePaymentItem.ToggleTarget | src/components/EditablePaymentItem.tsx:133-135 | checking appends the person even when already present; unchecking removes every occurrence |
| EditablePaymentItem.WithoutAbsent | src/components/EditablePaymentItem.tsx:135 | unchecking someone who is not a target keeps the list as it is |
| EditablePaymentItem.ToggleRoundTrip | src/components/EditablePaymentItem.tsx:133-135 | checking a non-target and unchecking them again restores the target list |
| EditablePaymentItem.SumSelectedByMembership | src/components/EditablePaymentItem.tsx:137-142 | the amount depends only on who is a target, not on order or repeats |
| EditablePaymentItem.SumSelectedWithout | src/components/EditablePaymentItem.tsx:137-142 | dropping a target takes exactly their per-person amounts out of the sum |
| EditablePaymentItem.ToggleAmount | src/components/EditablePaymentItem.tsx:132-148 | after a checkbox change the amount loses the person's per-person amounts on uncheck. It gains them on a check of a non-target. Otherwise it is unchanged |
| EditablePaymentItem.SumSelectedNonNegative | src/components/EditablePaymentItem.tsx:137-142 | non-negative per-person amounts give a non-negative amount |
| EditablePaymentItem.SetCell | src/components/EditablePaymentItem.tsx:298-299 | the cell is set. Past the end the array grows with empty slots up to the index, and all other cells are unchanged |
| EditablePaymentItem.SumSelectedBeyond | src/components/EditablePaymentItem.tsx:301-307 | cells past the participant list add nothing to the amount |
| EditablePaymentItem.PaymentEditor.constructor | src/components/EditablePaymentItem.tsx:99-101 | the form starts from the payment, with no errors |
| EditablePaymentItem.PaymentEditor.HandleChange | src/components/EditablePaymentItem.tsx:118-125 | when completed nothing changes; otherwise only the named field changes and its error is cleared |
| EditablePaymentItem.PaymentEditor.HandleTargetChange | src/components/EditablePaymentItem.tsx:132-149 | the targets are toggled, and the amount becomes the sum of the per-person amounts of the new targets |
| EditablePaymentItem.PaymentEditor.Validate | src/components/EditablePaymentItem.tsx:155-169 | the errors become the validation messages, and the result is true exactly when there are none |
| EditablePaymentItem.PaymentEditor.HandleSave | src/components/EditablePaymentItem.tsx:175-180 | a payment is handed on only when not completed and validation passes, and then it is the edited one |
| EditablePaymentItem.PaymentEditor.HandleConstantInput | src/components/EditablePaymentItem.tsx:291-313 | text over 8 characters, a failed parse or a negative value changes nothing. Otherwise the cell is set and the amount becomes the sum over the current targets |
| SettlementSummary.Plus | src/components/SettlementSummary.tsx:54 | adding to NaN stays NaN; otherwise the number grows by the amount |
| SettlementSummary.Minus | src/components/SettlementSummary.tsx:53 | subtracting from NaN stays NaN; otherwise the number shrinks by the amount |
| SettlementSummary.Zeros | src/components/SettlementSummary.tsx:50-51 | every participant starts at 0 and nobody else has an entry |
| SettlementSummary.Shift | src/components/SettlementSummary.tsx:52-55 | a transfer lowers `from` by its amount and raises `to` by the same amount; a missing key turns NaN; nobody else changes |
| SettlementSummary.EndpointsHas | src/components/SettlementSummary.tsx:52-55 | every transfer's ends are among the endpoints |
| SettlementSummary.FoldDomain | src/components/SettlementSummary.tsx:50-55 | the map has entries for the participants and the endpoints. An endpoint that is not a participant ends as NaN. With no transfers every balance stays 0 |
| SettlementSummary.ZerosMirrorInitial | src/components/SettlementSummary.tsx:50-51 | the starting zeros are minus the netting's starting zeros |
| SettlementSummary.ShiftMatchesMove | src/components/SettlementSummary.tsx:52-55 | one transfer moves each participant's entry by minus what `Netting.Move` does to their balance |
| SettlementSummary.FoldMatchesSettle | src/components/SettlementSummary.tsx:50-55 | when every endpoint is a participant, each participant's entry is a number. It equals minus what the same transfers leave of a zero balance under `Netting.Settle` |
| SettlementSummary.NumTotalOfNegation | src/components/SettlementSummary.tsx:50-55 | entries that mirror a balance map add up to minus its total |
| SettlementSummary.FoldSumsToZero | src/components/SettlementSummary.tsx:50-55 | when every endpoint is a participant, all participants' entries are numbers and add up to 0, each participant counted once |
| SettlementSummary.OutsiderIsNaN | src/components/SettlementSummary.tsx:53 | a transfer from someone outside the participant list leaves that entry NaN |
| SettlementSummary.ComputeBalances | src/components/SettlementSummary.tsx:50-55 | the two loops produce the fold |
| SettlementSummary.FindFrom | src/components/SettlementSummary.tsx:46 | the search from a start index finds the first member whose id string matches, or none |
| SettlementSummary.FindMember | src/components/SettlementSummary.tsx:46 | `find` gives the first member whose id string is the id, or none when no member matches |
| SettlementSummary.GetNickname | src/components/SettlementSummary.tsx:45-48 | the first matching member's nickname; the id itself when nobody matches or the nickname is empty |
| SettlementSummary.NicknameOfMember | src/components/SettlementSummary.tsx:45-48 | with unique member ids, a member's own id shows that member's nickname, or the id if the nickname is empty |
| Toast.Add | src/hooks/use-toast.ts:93-98 | the new toast comes first; the list keeps at most `TOAST_LIMIT` toasts, the front of the old ones |
| Toast.Update | src/hooks/use-toast.ts:100-107 | only toasts whose id is the patch's get the patch merged in; length and order are kept |
| Toast.Dismiss | src/hooks/use-toast.ts:126-133 | matching toasts, or all toasts when no id is given, are closed; length and order are kept |
| Toast.Remove | src/hooks/use-toast.ts:146 | removal never lengthens the list |
| Toast.Reduce | src/hooks/use-toast.ts:136-141 | removal without an id empties the list |
| Toast.Enqueued | src/hooks/use-toast.ts:114-120 | a non-empty id queues just that id; no id, or the empty string, queues every toast's id |
| Toast.RemoveKeeps | src/hooks/use-toast.ts:146 | a toast survives removal exactly when its id differs |
| Toast.RemoveAppend | src/hooks/use-toast.ts:146 | removal works piecewise, so survivors keep their order |
| Toast.RemoveAbsent | src/hooks/use-toast.ts:146 | removing an id no toast carries changes nothing |
| Toast.DismissIdempotent | src/hooks/use-toast.ts:109-134 | dismissing twice is dismissing once |
| Toast.UpdateUnknown | src/hooks/use-toast.ts:100-107 | a patch that matches no toast changes nothing |
| Toast.AddThenRemove | src/hooks/use-toast.ts:91-149 | with the limit at one, adding shows only the new toast, and removing it by its id empties the list |
| Toast.NextCount | src/hooks/use-toast.ts:35 | the counter stays below `MAX_SAFE_INTEGER`, going up by one and wrapping to 0 |
| Toast.CountAfter | src/hooks/use-toast.ts:35 | the counter after any number of calls stays in range |
| Toast.ModSucc | src/hooks/use-toast.ts:35 | one step of the counter is one step of the value modulo `MAX_SAFE_INTEGER` |
| Toast.CountAfterIsModular | src/hooks/use-toast.ts:35 | after `k` calls the counter is the start plus `k`, modulo `MAX_SAFE_INTEGER` |
| Toast.GenIdDistinct | src/hooks/use-toast.ts:34-37 | two calls fewer than `MAX_SAFE_INTEGER` calls apart return different ids |
| Toast.ToastStore.constructor | src/hooks/use-toast.ts:155 | the counter is 0, with no toasts and no timers |
| Toast.ToastStore.GenId | src/hooks/use-toast.ts:34-37 | the counter steps and the id is its decimal string; nothing else changes |
| Toast.ToastStore.AddToRemoveQueue | src/hooks/use-toast.ts:73-88 | a timer is started only for an id without one; the id is pending afterwards either way |
| Toast.ToastStore.Dispatch | src/hooks/use-toast.ts:109-167 | the state becomes the reducer's result; a dismiss first queues the ids it names |
| Toast.ToastStore.TimerFires | src/hooks/use-toast.ts:79-85 | a firing timer forgets its id and removes the toasts with that id |
| Toast.ToastStore.MakeToast | src/hooks/use-toast.ts:177-207 | `toast()` takes a fresh id and puts a new open toast in front |
| Toast.ToastStore.UpdateById | src/hooks/use-toast.ts:181-185 | the returned `update` merges the patch into the toast with this id only |
| Toast.ToastStore.DismissById | src/hooks/use-toast.ts:186-187 | `dismiss` closes the named toasts, or all of them, and queues their removal |

## Left out

- Network I/O and the backend: the `fetch` calls in `src/services/settlement.ts` and the proxy routes. `getSettlement` is modelled from the decoded records onwards (`Settlement.Shape`). The lock and async wrapper around the recalculation are not modelled.
- React rendering, `useState`/`useEffect` syncing, the listener broadcast in `use-toast.ts`, `TransferGraph.tsx`, `SettlementList.tsx`, `use-mobile.tsx`, `cn` and `stringToColor`. All are cosmetic or browser plumbing.
- Timers: `setTimeout` and the `toastTimeouts` map are modelled only as the set of ids with a pending timer. A timer firing is the call `Toast.ToastStore.TimerFires`.
- Ids are exact unbounded integers. In JavaScript they are doubles, exact only below 2^53, and `toString` switches to exponent notation from 10^21. The model does not capture either limit.
- Environment values are parameters: `Date.now()` (the new payment id) and `parseInt`, whose result is an `Option<int>`.
- Toast `action`, `variant` and `onOpenChange` are not modelled. The toast model has only id, title, description and open.
- IEEE doubles: amounts are exact reals. The `isNaN(costShare)` fallback at `src/services/settlement.ts:246-250` cannot be reached in exact arithmetic and is not modelled. The `isNaN(amount)` test of `validate` is not modelled either.
- Strings are sequences of characters, not UTF-16 code units. The 30-character cut of the item name and the 8-character limit on per-person input count characters.
- `handleTargetChange` takes the summed amount only when `splitMethod === 'custom'`. That constant is fixed to `'custom'` at `src/components/EditablePaymentItem.tsx:102`, so the model always takes it.
- Netting.Net: the loop advances a cursor when the party's absolute balance is at most the tolerance. The source advances only when it is strictly below. See Findings.
- Netting.SortDesc: the in-place stable sort is modelled as an insertion sort over a sequence, and is specified by its permutation, order and stability properties.
- Recalculation.Recalculate: the creditor and debtor lists are kept as sequences rather than arrays sorted in place.
- Settlement.ToPayment: the fetched record has no image field, so the model gives the payment the empty image `""`. The source leaves the field absent.
- Settlement.ToPayment: `Object.values(s.ratios)` and `Object.values(s.constants)` are taken as lists already in order. JavaScript's own key ordering of those objects is not modelled.
- SettlementDetail.NewPayment: the new payment's per-person amounts are the empty list. The source leaves the field undefined.
- SettlementDetail.ReplaceIdempotent, SettlementDetail.ReplaceMissing, EditablePaymentItem.TrimEmptyIff: these follow from their functions' contracts without further proof steps.

## Findings

| source | as written | input that shows it | evidently intended | confidence | as-written member | corrected member |
|---|---|---|---|---|---|---|
| src/services/settlement.ts:281-298 | a transfer is made only when the amount is above 0.01, but a cursor moves on only when the balance is strictly below 0.01 | balances "1": 10.01, "3": 5, "2": -10, "4": -5.01. The first pass moves 10 from "2" to "1", leaving "1" owed exactly 0.01, and every later pass changes nothing, so the `while` loop never ends | a party within the tolerance (at most 0.01) counts as settled, so the loop always ends | low; not executed; in binary doubles a residual of exactly 0.01 may never arise | Netting.StepAsWritten, Netting.AsWrittenStalls | Netting.Net |
