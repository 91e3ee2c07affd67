/** The toast store of `src/hooks/use-toast.ts`: a pure reducer over a bounded
    list of toasts, the id counter, and the `toast`/`update` entry points. */
module Toasts {
  import opened Wrappers
  import ListQuery

  /** `TOAST_LIMIT`. */
  const TOAST_LIMIT: int := 20

  /** `ToasterToast`, reduced to the fields the reducer reads or writes;
      `isOpen` is the `open` prop. */
  datatype Toast = Toast(
    id: string,
    title: Option<string>,
    description: Option<string>,
    variant: Option<string>,
    isOpen: Option<bool>)

  /** `Partial<ToasterToast>`: every field may be absent. */
  datatype ToastPatch = ToastPatch(
    id: Option<string>,
    title: Option<string>,
    description: Option<string>,
    variant: Option<string>,
    isOpen: Option<bool>)

  /** The four action types; `UnknownAction` stands for any other `type`, which
      reaches the reducer's `default` branch. */
  datatype Action =
    | AddToast(toast: Toast)
    | UpdateToast(patch: ToastPatch)
    | DismissToast(toastId: Option<string>)
    | RemoveToast(toastId: Option<string>)
    | UnknownAction(kind: string)

  datatype State = State(toasts: seq<Toast>)

  function Override<T>(current: Option<T>, patched: Option<T>): Option<T> {
    if patched.Some? then patched else current
  }

  /** `{ ...t, ...patch }`: the fields present in the patch win. */
  function Merge(t: Toast, p: ToastPatch): Toast {
    Toast(
      if p.id.Some? then p.id.value else t.id,
      Override(t.title, p.title),
      Override(t.description, p.description),
      Override(t.variant, p.variant),
      Override(t.isOpen, p.isOpen))
  }

  /** `t` shows every field the patch supplies. */
  predicate Carries(t: Toast, p: ToastPatch) {
    && (p.title.Some? ==> t.title == p.title)
    && (p.description.Some? ==> t.description == p.description)
    && (p.variant.Some? ==> t.variant == p.variant)
    && (p.isOpen.Some? ==> t.isOpen == p.isOpen)
  }

  /** `after` kept from `before` every field the patch leaves out. */
  predicate KeepsUnpatched(before: Toast, after: Toast, p: ToastPatch) {
    && (p.title.None? ==> after.title == before.title)
    && (p.description.None? ==> after.description == before.description)
    && (p.variant.None? ==> after.variant == before.variant)
    && (p.isOpen.None? ==> after.isOpen == before.isOpen)
  }

  /** `a` and `b` agree on every field except `open`. */
  predicate SameExceptOpen(a: Toast, b: Toast) {
    a.(isOpen := b.isOpen) == b
  }

  /** ADD_TOAST: `[toast, ...toasts].slice(0, TOAST_LIMIT)`. */
  function AddToList(toasts: seq<Toast>, t: Toast): (r: seq<Toast>)
    ensures |r| == ListQuery.Min(|toasts| + 1, TOAST_LIMIT)
    ensures r[0] == t
    ensures forall i :: 1 <= i < |r| ==> r[i] == toasts[i - 1]
  {
    ([t] + toasts)[..ListQuery.Min(|toasts| + 1, TOAST_LIMIT)]
  }

  /** UPDATE_TOAST: merge the patch into the toasts whose id equals the
      patch's id. A patch without an id matches nothing. */
  function UpdateList(toasts: seq<Toast>, p: ToastPatch): (r: seq<Toast>)
    ensures |r| == |toasts|
    ensures forall i :: 0 <= i < |r| ==> r[i].id == toasts[i].id
    ensures forall i :: 0 <= i < |r| && p.id != Some(toasts[i].id) ==> r[i] == toasts[i]
    ensures forall i :: 0 <= i < |r| && p.id == Some(toasts[i].id) ==>
      Carries(r[i], p) && KeepsUnpatched(toasts[i], r[i], p)
  {
    seq(|toasts|, i requires 0 <= i < |toasts| =>
      if p.id == Some(toasts[i].id) then Merge(toasts[i], p) else toasts[i])
  }

  /** DISMISS_TOAST: close the toast with the given id, or every toast when no
      id is given. */
  function DismissList(toasts: seq<Toast>, toastId: Option<string>): (r: seq<Toast>)
    ensures |r| == |toasts|
    ensures forall i :: 0 <= i < |r| ==> SameExceptOpen(toasts[i], r[i])
    ensures forall i :: 0 <= i < |r| && (toastId.None? || toastId == Some(toasts[i].id)) ==>
      r[i].isOpen == Some(false)
    ensures forall i :: 0 <= i < |r| && toastId.Some? && toastId != Some(toasts[i].id) ==>
      r[i] == toasts[i]
  {
    seq(|toasts|, i requires 0 <= i < |toasts| =>
      if toastId == Some(toasts[i].id) || toastId.None? then toasts[i].(isOpen := Some(false))
      else toasts[i])
  }

  /** REMOVE_TOAST: drop every toast, or only those with the given id. */
  function RemoveList(toasts: seq<Toast>, toastId: Option<string>): (r: seq<Toast>)
    ensures toastId.None? ==> r == []
    ensures toastId.Some? ==> forall i :: 0 <= i < |r| ==> r[i].id != toastId.value
    ensures toastId.Some? ==>
      forall i :: 0 <= i < |toasts| && toasts[i].id != toastId.value ==> toasts[i] in r
    ensures toastId.Some? ==>
      forall i {:trigger multiset(r)[toasts[i]]} :: 0 <= i < |toasts| && toasts[i].id != toastId.value ==>
        multiset(r)[toasts[i]] == multiset(toasts)[toasts[i]]
    ensures ListQuery.SubsequenceOf(r, toasts)
  {
    if toastId.None? then []
    else ListQuery.Filter(toasts, (t: Toast) => t.id != toastId.value)
  }

  /** The `reducer`. */
  function Reduce(s: State, a: Action): (r: State)
    ensures |s.toasts| <= TOAST_LIMIT ==> |r.toasts| <= TOAST_LIMIT
    ensures !a.AddToast? ==> |r.toasts| <= |s.toasts|
    ensures a.UnknownAction? ==> r == s
  {
    match a
    case AddToast(t) => State(AddToList(s.toasts, t))
    case UpdateToast(p) => State(UpdateList(s.toasts, p))
    case DismissToast(id) => State(DismissList(s.toasts, id))
    case RemoveToast(id) => State(RemoveList(s.toasts, id))
    case UnknownAction(_) => s
  }

  /** The state after dispatching `actions` in order. */
  function Replay(s: State, actions: seq<Action>): State
    decreases |actions|
  {
    if actions == [] then s else Replay(Reduce(s, actions[0]), actions[1..])
  }

  /** Starting from `useReducer(reducer, { toasts: [] })`, no sequence of
      dispatches ever holds more than TOAST_LIMIT toasts. */
  lemma {:induction false} ReplayWithinLimit(s: State, actions: seq<Action>)
    requires |s.toasts| <= TOAST_LIMIT
    ensures |Replay(s, actions).toasts| <= TOAST_LIMIT
    decreases |actions|
  {
    if actions != [] {
      ReplayWithinLimit(Reduce(s, actions[0]), actions[1..]);
    }
  }

  /** Applying the same update twice is the same as applying it once. */
  lemma UpdateIdempotent(toasts: seq<Toast>, p: ToastPatch)
    ensures UpdateList(UpdateList(toasts, p), p) == UpdateList(toasts, p)
  {
  }

  /** Dismissing twice is dismissing once. */
  lemma DismissIdempotent(toasts: seq<Toast>, toastId: Option<string>)
    ensures DismissList(DismissList(toasts, toastId), toastId) == DismissList(toasts, toastId)
  {
  }

  /** Removing twice is removing once. */
  lemma {:induction false} RemoveIdempotent(toasts: seq<Toast>, toastId: Option<string>)
    ensures RemoveList(RemoveList(toasts, toastId), toastId) == RemoveList(toasts, toastId)
  {
    if toastId.Some? {
      var r := RemoveList(toasts, toastId);
      ListQuery.FilterKeepsAll(r, (t: Toast) => t.id != toastId.value);
    }
  }

  // ---------------------------------------------------------------- ids

  function DigitChar(d: nat): char
    requires d < 10
  {
    ['0', '1', '2', '3', '4', '5', '6', '7', '8', '9'][d]
  }

  function DigitValue(c: char): nat {
    if '0' <= c <= '9' then c as int - '0' as int else 0
  }

  /** `n.toString()` for a natural number. */
  function DecimalString(n: nat): (r: string)
    ensures |r| >= 1
    ensures forall i :: 0 <= i < |r| ==> '0' <= r[i] <= '9'
    ensures |r| > 1 ==> r[0] != '0'
  {
    if n < 10 then [DigitChar(n)] else DecimalString(n / 10) + [DigitChar(n % 10)]
  }

  /** Reads a string of decimal digits back as a number. */
  function ParseDecimal(s: string): nat
    decreases |s|
  {
    if s == [] then 0 else ParseDecimal(s[..|s| - 1]) * 10 + DigitValue(s[|s| - 1])
  }

  lemma {:induction false} DecimalRoundTrip(n: nat)
    ensures ParseDecimal(DecimalString(n)) == n
  {
    var s := DecimalString(n);
    if n < 10 {
      assert s[..|s| - 1] == [];
    } else {
      DecimalRoundTrip(n / 10);
      assert s[..|s| - 1] == DecimalString(n / 10);
      assert DigitValue(DigitChar(n % 10)) == n % 10;
    }
  }

  /** `generateId`: pre-increments the module counter and returns the new value
      as a string; the id reads back as the new counter. */
  function GenerateId(count: nat): (r: (nat, string))
    ensures r.0 == count + 1
    ensures ParseDecimal(r.1) == r.0
  {
    DecimalRoundTrip(count + 1);
    (count + 1, DecimalString(count + 1))
  }

  /** Different counter values never produce the same id. */
  lemma GeneratedIdsDistinct(c1: nat, c2: nat)
    requires c1 != c2
    ensures GenerateId(c1).1 != GenerateId(c2).1
  {
  }

  /** Successive calls, each seeing the previous call's counter, never repeat
      an id. */
  lemma SuccessiveIdsDistinct(count: nat, k: nat)
    requires k > 0
    ensures GenerateId(count).1 != GenerateId(count + k).1
  {
    GeneratedIdsDistinct(count, count + k);
  }

  // ------------------------------------------------------- toast, update

  /** What a page passes to `toast({ title, description, variant })`;
      `destructive` is `variant: "destructive"`. */
  datatype Notice = Notice(title: string, description: string, destructive: bool)

  /** The argument of `toast(props)`: a toast whose id may be absent. */
  datatype ToastProps = ToastProps(
    id: Option<string>,
    title: Option<string>,
    description: Option<string>,
    variant: Option<string>,
    isOpen: Option<bool>)

  /** The id counter after the call, the id `toast` returns, and the store. */
  datatype ToastCall = ToastCall(counter: nat, id: string, state: State)

  /** `toast(props)` as written: `id` is `props.id || generateId()`, but the
      dispatched toast is `{ id, ...props }`, in which a present `props.id`
      (even `""`) overrides `id`. */
  function ToastAsWritten(counter: nat, s: State, props: ToastProps): (r: ToastCall)
    ensures Truthy(props.id) ==> r.counter == counter && r.id == props.id.value
    ensures !Truthy(props.id) ==> r.counter == counter + 1 && ParseDecimal(r.id) == counter + 1
    ensures |r.state.toasts| >= 1
    ensures r.state.toasts[0].id == (if props.id.Some? then props.id.value else r.id)
    ensures r.state.toasts[0].title == props.title
    ensures r.state.toasts[1..] == s.toasts[..ListQuery.Min(|s.toasts|, TOAST_LIMIT - 1)]
  {
    var (next, id) := if Truthy(props.id) then (counter, props.id.value) else GenerateId(counter);
    var dispatchedId := if props.id.Some? then props.id.value else id;
    var t := Toast(dispatchedId, props.title, props.description, props.variant, props.isOpen);
    ToastCall(next, id, Reduce(s, AddToast(t)))
  }

  /** With `props.id == ""` the caller is handed a fresh id while the toast in
      the store carries `""`, so `dismiss` of the returned id misses it. */
  lemma ToastAsWrittenLosesEmptyId(counter: nat, s: State, props: ToastProps)
    requires props.id == Some("")
    ensures ToastAsWritten(counter, s, props).state.toasts[0].id == ""
    ensures ToastAsWritten(counter, s, props).id != ""
  {
  }

  /** `toast(props)` as it is evidently meant: the dispatched toast carries the
      id that is returned. */
  function ShowToast(counter: nat, s: State, props: ToastProps): (r: ToastCall)
    ensures |r.state.toasts| >= 1
    ensures r.state.toasts[0].id == r.id
    ensures Truthy(props.id) ==> r.counter == counter && r.id == props.id.value
    ensures !Truthy(props.id) ==> r.counter == counter + 1 && ParseDecimal(r.id) == counter + 1
    ensures r.state.toasts[0].title == props.title
    ensures r.state.toasts[1..] == s.toasts[..ListQuery.Min(|s.toasts|, TOAST_LIMIT - 1)]
  {
    var (next, id) := if Truthy(props.id) then (counter, props.id.value) else GenerateId(counter);
    var t := Toast(id, props.title, props.description, props.variant, props.isOpen);
    ToastCall(next, id, Reduce(s, AddToast(t)))
  }

  /** `update(props)`: without a (truthy) id nothing is dispatched. */
  function Update(s: State, p: ToastPatch): (r: State)
    ensures !Truthy(p.id) ==> r == s
    ensures Truthy(p.id) ==> r.toasts == UpdateList(s.toasts, p)
    ensures |r.toasts| == |s.toasts|
    ensures forall i :: 0 <= i < |r.toasts| ==> r.toasts[i].id == s.toasts[i].id
  {
    if !Truthy(p.id) then s else Reduce(s, UpdateToast(p))
  }
}
