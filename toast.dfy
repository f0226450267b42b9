/** The toast store of src/hooks/use-toast.ts: the reducer over the toast
    list, the id counter, the set of toasts waiting for removal, and the
    dispatch that runs the reducer on the module-level state. Timers,
    listeners and rendering are outside the model; a timer that fires is a
    method call. */
module Toast {
  import opened Optional
  import opened JsNumber

  /** At most this many toasts are kept. */
  const ToastLimit: nat := 1

  datatype Toast = Toast(id: string, title: Option<string>, description: Option<string>, open: bool)

  /** `Partial<ToasterToast>`: `None` is an absent key, which the spread
      leaves alone. */
  datatype ToastPatch = ToastPatch(id: Option<string>, title: Option<string>,
                                   description: Option<string>, open: Option<bool>)

  datatype Action =
    | AddToast(toast: Toast)
    | UpdateToast(patch: ToastPatch)
    | DismissToast(toastId: Option<string>)
    | RemoveToast(toastId: Option<string>)

  /** `[toast, ...toasts].slice(0, TOAST_LIMIT)`. */
  function Add(toasts: seq<Toast>, t: Toast): (r: seq<Toast>)
    ensures |r| == if |toasts| + 1 <= ToastLimit then |toasts| + 1 else ToastLimit
    ensures r[0] == t && r == ([t] + toasts)[..|r|]
  {
    var all := [t] + toasts;
    if |all| <= ToastLimit then all else all[..ToastLimit]
  }

  /** `{ ...t, ...patch }`. */
  function Merge(t: Toast, p: ToastPatch): (r: Toast)
  {
    Toast(if p.id.Some? then p.id.value else t.id,
          if p.title.Some? then p.title else t.title,
          if p.description.Some? then p.description else t.description,
          if p.open.Some? then p.open.value else t.open)
  }

  /** The toasts `UPDATE_TOAST` changes: those whose id is the patch's. */
  predicate Matches(t: Toast, p: ToastPatch)
  {
    p.id == Some(t.id)
  }

  /** `toasts.map(t => t.id === patch.id ? { ...t, ...patch } : t)`. */
  function Update(toasts: seq<Toast>, p: ToastPatch): (r: seq<Toast>)
    ensures |r| == |toasts|
    ensures forall i | 0 <= i < |r| :: r[i] == if Matches(toasts[i], p) then Merge(toasts[i], p) else toasts[i]
  {
    if toasts == [] then []
    else
      var n := |toasts| - 1;
      Update(toasts[..n], p) + [if Matches(toasts[n], p) then Merge(toasts[n], p) else toasts[n]]
  }

  /** The toasts `DISMISS_TOAST` closes: all without an id, else those
      whose id equals it. */
  predicate Closes(t: Toast, toastId: Option<string>)
  {
    toastId.None? || t.id == toastId.value
  }

  /** The map of lines 126-133: matching toasts get `open: false`. */
  function Dismiss(toasts: seq<Toast>, toastId: Option<string>): (r: seq<Toast>)
    ensures |r| == |toasts|
    ensures forall i | 0 <= i < |r| :: r[i] == if Closes(toasts[i], toastId) then toasts[i].(open := false) else toasts[i]
  {
    if toasts == [] then []
    else
      var n := |toasts| - 1;
      Dismiss(toasts[..n], toastId) + [if Closes(toasts[n], toastId) then toasts[n].(open := false) else toasts[n]]
  }

  /** `toasts.filter(t => t.id !== toastId)`. */
  function Remove(toasts: seq<Toast>, toastId: string): (r: seq<Toast>)
    ensures |r| <= |toasts|
  {
    if toasts == [] then []
    else
      var n := |toasts| - 1;
      Remove(toasts[..n], toastId) + (if toasts[n].id != toastId then [toasts[n]] else [])
  }

  /** `reducer`: the new toast list. */
  function Reduce(toasts: seq<Toast>, a: Action): (r: seq<Toast>)
    ensures a.RemoveToast? && a.toastId.None? ==> r == []
  {
    match a
    case AddToast(t) => Add(toasts, t)
    case UpdateToast(p) => Update(toasts, p)
    case DismissToast(id) => Dismiss(toasts, id)
    case RemoveToast(id) => if id.None? then [] else Remove(toasts, id.value)
  }

  /** The ids a `DISMISS_TOAST` puts on the removal queue: its id when it is
      a non-empty string, every toast's id otherwise (`if (toastId)` treats
      the empty string as absent, although the map below it does not). */
  function Enqueued(toasts: seq<Toast>, toastId: Option<string>): (s: set<string>)
    ensures toastId.Some? && toastId.value != "" ==> s == {toastId.value}
    ensures !(toastId.Some? && toastId.value != "") ==> forall k :: k in s <==> exists t | t in toasts :: t.id == k
  {
    if toastId.Some? && toastId.value != "" then {toastId.value} else set t | t in toasts :: t.id
  }

  /** Removal keeps exactly the toasts whose id differs. */
  lemma {:induction false} RemoveKeeps(toasts: seq<Toast>, toastId: string)
    ensures forall t :: t in Remove(toasts, toastId) <==> t in toasts && t.id != toastId
  {
    if toasts != [] {
      var n := |toasts| - 1;
      RemoveKeeps(toasts[..n], toastId);
      assert forall t :: t in toasts <==> t in toasts[..n] || t == toasts[n] by {
        assert toasts == toasts[..n] + [toasts[n]];
      }
    }
  }

  /** Removal keeps the survivors in their order: it works piecewise. */
  lemma {:induction false} RemoveAppend(a: seq<Toast>, b: seq<Toast>, toastId: string)
    ensures Remove(a + b, toastId) == Remove(a, toastId) + Remove(b, toastId)
  {
    if b == [] {
      assert a + b == a;
    } else {
      var n := |b| - 1;
      assert (a + b)[..|a + b| - 1] == a + b[..n];
      assert (a + b)[|a + b| - 1] == b[n];
      RemoveAppend(a, b[..n], toastId);
    }
  }

  /** A toast whose id is not being removed survives, and nothing is removed
      when no toast carries the id. */
  lemma {:induction false} RemoveAbsent(toasts: seq<Toast>, toastId: string)
    requires forall i | 0 <= i < |toasts| :: toasts[i].id != toastId
    ensures Remove(toasts, toastId) == toasts
  {
    if toasts != [] {
      var n := |toasts| - 1;
      assert forall i | 0 <= i < n :: toasts[..n][i] == toasts[i];
      RemoveAbsent(toasts[..n], toastId);
      assert toasts[..n] + [toasts[n]] == toasts;
    }
  }

  /** Dismissing twice is dismissing once. */
  lemma DismissIdempotent(toasts: seq<Toast>, toastId: Option<string>)
    ensures Dismiss(Dismiss(toasts, toastId), toastId) == Dismiss(toasts, toastId)
  {
    var once := Dismiss(toasts, toastId);
    var twice := Dismiss(once, toastId);
    forall i | 0 <= i < |toasts|
      ensures twice[i] == once[i]
    {
      assert once[i].id == toasts[i].id;
    }
  }

  /** A patch without a matching toast changes nothing. */
  lemma UpdateUnknown(toasts: seq<Toast>, p: ToastPatch)
    requires forall t | t in toasts :: !Matches(t, p)
    ensures Update(toasts, p) == toasts
  {
    var r := Update(toasts, p);
    forall i | 0 <= i < |toasts|
      ensures r[i] == toasts[i]
    {
      assert toasts[i] in toasts;
    }
  }

  /** With the limit at one, adding shows the new toast alone, and removing
      it by its id empties the list. */
  lemma AddThenRemove(toasts: seq<Toast>, t: Toast)
    ensures Add(toasts, t) == [t]
    ensures Reduce(Reduce(toasts, AddToast(t)), RemoveToast(Some(t.id))) == []
  {
    var r := Add(toasts, t);
    assert r == [t];
    assert r[..0] == [];
  }

  /** `(count + 1) % Number.MAX_SAFE_INTEGER`. */
  function NextCount(count: int): (r: int)
    requires 0 <= count < MaxSafeInteger
    ensures 0 <= r < MaxSafeInteger
    ensures r == if count + 1 == MaxSafeInteger then 0 else count + 1
  {
    (count + 1) % MaxSafeInteger
  }

  /** The counter after `k` calls. */
  function CountAfter(count: int, k: nat): (r: int)
    requires 0 <= count < MaxSafeInteger
    ensures 0 <= r < MaxSafeInteger
  {
    if k == 0 then count else NextCount(CountAfter(count, k - 1))
  }

  lemma ModSucc(a: nat)
    ensures (a + 1) % MaxSafeInteger == NextCount(a % MaxSafeInteger)
  {
    var q, r := a / MaxSafeInteger, a % MaxSafeInteger;
    assert a == q * MaxSafeInteger + r;
    if r + 1 == MaxSafeInteger {
      assert a + 1 == (q + 1) * MaxSafeInteger;
    } else {
      assert a + 1 == q * MaxSafeInteger + (r + 1);
    }
  }

  lemma {:induction false} CountAfterIsModular(count: int, k: nat)
    requires 0 <= count < MaxSafeInteger
    ensures CountAfter(count, k) == (count + k) % MaxSafeInteger
  {
    if k > 0 {
      var prev := CountAfter(count, k - 1);
      CountAfterIsModular(count, k - 1);
      ModSucc(count + k - 1);
      assert CountAfter(count, k) == NextCount(prev);
    }
  }

  /** `genId` repeats an id only after `MAX_SAFE_INTEGER` calls: the ids of
      calls `i` and `j` differ when they are fewer than that many calls apart. */
  lemma GenIdDistinct(count: int, i: nat, j: nat)
    requires 0 <= count < MaxSafeInteger
    requires i < j < i + MaxSafeInteger
    ensures ToDecimal(CountAfter(count, i)) != ToDecimal(CountAfter(count, j))
  {
    CountAfterIsModular(count, i);
    CountAfterIsModular(count, j);
    var a, b := CountAfter(count, i), CountAfter(count, j);
    ToDecimalInjective(a, b);
  }

  /** The module-level state: the counter, `memoryState.toasts`, and the
      ids that have a removal timer running (the keys of `toastTimeouts`). */
  class ToastStore {
    var count: int
    var toasts: seq<Toast>
    var pending: set<string>

    ghost predicate Valid()
      reads this
    {
      0 <= count < MaxSafeInteger
    }

    constructor()
      ensures Valid() && count == 0 && toasts == [] && pending == {}
    {
      count := 0;
      toasts := [];
      pending := {};
    }

    /** `genId`. */
    method GenId() returns (id: string)
      requires Valid()
      modifies this
      ensures Valid() && count == NextCount(old(count)) && id == ToDecimal(count)
      ensures toasts == old(toasts) && pending == old(pending)
    {
      count := (count + 1) % MaxSafeInteger;
      id := ToDecimal(count);
    }

    /** `addToRemoveQueue`: a timer is started only for an id without one;
        `started` tells whether it was. */
    method AddToRemoveQueue(toastId: string) returns (started: bool)
      modifies this
      ensures started <==> toastId !in old(pending)
      ensures pending == old(pending) + {toastId}
      ensures count == old(count) && toasts == old(toasts)
    {
      if toastId in pending {
        return false;
      }
      pending := pending + {toastId};
      started := true;
    }

    /** `dispatch`: the reducer's side effect for `DISMISS_TOAST`, then the
        new state. */
    method Dispatch(a: Action)
      modifies this
      ensures toasts == Reduce(old(toasts), a)
      ensures pending == old(pending) + (if a.DismissToast? then Enqueued(old(toasts), a.toastId) else {})
      ensures count == old(count)
    {
      if a.DismissToast? {
        if a.toastId.Some? && a.toastId.value != "" {
          var _ := AddToRemoveQueue(a.toastId.value);
        } else {
          ghost var before := pending;
          var all := toasts;
          for i := 0 to |all|
            invariant toasts == all && count == old(count)
            invariant pending == before + set t | t in all[..i] :: t.id
          {
            var _ := AddToRemoveQueue(all[i].id);
            assert all[..i + 1] == all[..i] + [all[i]];
          }
          assert all[..|all|] == all;
        }
      }
      toasts := Reduce(toasts, a);
    }

    /** The removal timer of `toastId` fires: it forgets the timer and
        dispatches `REMOVE_TOAST` for that id. */
    method TimerFires(toastId: string)
      requires toastId in pending
      modifies this
      ensures pending == old(pending) - {toastId}
      ensures toasts == Remove(old(toasts), toastId)
      ensures count == old(count)
    {
      pending := pending - {toastId};
      Dispatch(RemoveToast(Some(toastId)));
    }

    /** `toast(props)`: a fresh id, and the new open toast in front. */
    method MakeToast(title: Option<string>, description: Option<string>) returns (id: string)
      requires Valid()
      modifies this
      ensures Valid() && count == NextCount(old(count)) && id == ToDecimal(count)
      ensures toasts == Add(old(toasts), Toast(id, title, description, true))
      ensures pending == old(pending)
    {
      id := GenId();
      Dispatch(AddToast(Toast(id, title, description, true)));
    }

    /** The `update` that `toast` returns: the patch is pinned to its id. */
    method UpdateById(id: string, p: ToastPatch)
      modifies this
      ensures toasts == Update(old(toasts), p.(id := Some(id)))
      ensures pending == old(pending) && count == old(count)
    {
      Dispatch(UpdateToast(p.(id := Some(id))));
    }

    /** The `dismiss` of `useToast` (and, with an id, of `toast`). */
    method DismissById(toastId: Option<string>)
      modifies this
      ensures toasts == Dismiss(old(toasts), toastId)
      ensures pending == old(pending) + Enqueued(old(toasts), toastId)
      ensures count == old(count)
    {
      Dispatch(DismissToast(toastId));
    }
  }
}
