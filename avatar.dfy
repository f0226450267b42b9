/** `getInitials`, written identically in src/components/EditablePaymentItem.tsx
    and src/components/SettlementSummary.tsx: the avatar fallback letter. */
module Avatar {
  /** '?' for an empty name, else the name's first character. */
  function Initials(name: string): (r: string)
    ensures |r| == 1
    ensures name == "" ==> r == "?"
    ensures name != "" ==> r == name[..1] && r[0] == name[0]
  {
    if name == "" then "?" else name[..1]
  }
}
