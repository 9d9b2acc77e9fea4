/** The toast list (components/ui/ToastProvider/ToastProvider.tsx): a reducer
    over the list of visible notifications, and the provider that dispatches
    to it. */
module ToastProvider {
  import opened JsValues

  datatype ToastType = Success | Error | Warning | Info

  /** A toast's display time in milliseconds; `Forever` is `Infinity`. */
  datatype Duration = Millis(ms: int) | Forever

  datatype Toast = Toast(id: string, title: Option<string>, message: string,
                         kind: ToastType, duration: Option<Duration>)

  /** What `addToast` receives: a toast without its id. */
  datatype ToastDraft = ToastDraft(title: Option<string>, message: string,
                                   kind: ToastType, duration: Option<Duration>)

  datatype Action =
    | AddToast(payload: Toast)
    | RemoveToast(id: string)
    | ClearToasts
    | OtherAction   // any action type the reducer does not know

  /** The toasts whose id differs from `id`, in their order. */
  function WithoutToast(state: seq<Toast>, id: string): seq<Toast> {
    Filter(state, (t: Toast) => t.id != id)
  }

  /** toastReducer. */
  function ToastReducer(state: seq<Toast>, action: Action): (r: seq<Toast>)
    ensures action.AddToast? ==> |r| == |state| + 1 && r[..|state|] == state && r[|state|] == action.payload
    ensures action.RemoveToast? ==> forall i :: 0 <= i < |r| ==> r[i].id != action.id && r[i] in state
    ensures action.RemoveToast? ==> forall i :: 0 <= i < |state| && state[i].id != action.id ==> state[i] in r
    ensures action.ClearToasts? ==> r == []
    ensures action.OtherAction? ==> r == state
  {
    match action
    case AddToast(t) =>
      assert (state + [t])[..|state|] == state;
      state + [t]
    case RemoveToast(id) => WithoutToast(state, id)
    case ClearToasts => []
    case OtherAction => state
  }

  predicate HasToast(state: seq<Toast>, id: string) {
    exists i :: 0 <= i < |state| && state[i].id == id
  }

  /** Removing an id no toast carries leaves the list as it was. */
  lemma RemoveAbsent(state: seq<Toast>, id: string)
    requires !HasToast(state, id)
    ensures ToastReducer(state, RemoveToast(id)) == state
  {
  }

  /** Removal keeps the survivors in their order: it works piecewise on
      any split of the list. */
  lemma RemoveKeepsOrder(a: seq<Toast>, b: seq<Toast>, id: string)
    ensures ToastReducer(a + b, RemoveToast(id)) ==
            ToastReducer(a, RemoveToast(id)) + ToastReducer(b, RemoveToast(id))
  {
    FilterAppend(a, b, (t: Toast) => t.id != id);
  }

  /** Removal drops every copy of the toasts with that id and keeps every
      copy of the others. */
  lemma RemoveCounts(state: seq<Toast>, id: string, t: Toast)
    ensures multiset(ToastReducer(state, RemoveToast(id)))[t] ==
            if t.id == id then 0 else multiset(state)[t]
  {
    FilterCount(state, (x: Toast) => x.id != id, t);
  }

  /** Adding a toast with a fresh id and then removing that id restores the
      list. */
  lemma AddThenRemove(state: seq<Toast>, t: Toast)
    requires !HasToast(state, t.id)
    ensures ToastReducer(ToastReducer(state, AddToast(t)), RemoveToast(t.id)) == state
  {
    RemoveKeepsOrder(state, [t], t.id);
    RemoveAbsent(state, t.id);
  }

  /** Removing the same id twice is removing it once. */
  lemma RemoveTwice(state: seq<Toast>, id: string)
    ensures ToastReducer(ToastReducer(state, RemoveToast(id)), RemoveToast(id)) ==
            ToastReducer(state, RemoveToast(id))
  {
    var once := ToastReducer(state, RemoveToast(id));
    assert !HasToast(once, id);
    RemoveAbsent(once, id);
  }

  const DefaultDuration := 5000

  /** `toast.duration || 5000`: an absent or zero duration becomes 5000 ms. */
  function EffectiveDuration(d: Option<Duration>): (r: Duration)
    ensures d.None? || d == Some(Millis(0)) ==> r == Millis(DefaultDuration)
    ensures d.Some? && d != Some(Millis(0)) ==> r == d.value
    ensures r != Millis(0)
  {
    match d
    case None => Millis(DefaultDuration)
    case Some(Millis(0)) => Millis(DefaultDuration)
    case Some(v) => v
  }

  /** The toast `addToast` dispatches. */
  function NewToast(draft: ToastDraft, id: string): (t: Toast)
    ensures t.id == id && t.message == draft.message && t.kind == draft.kind && t.title == draft.title
    ensures t.duration == Some(EffectiveDuration(draft.duration))
  {
    Toast(id, draft.title, draft.message, draft.kind, Some(EffectiveDuration(draft.duration)))
  }

  /** The delay of the removal timer `addToast` starts: none for a toast
      shown forever. */
  function RemovalDelay(t: Toast): (delay: Option<int>)
    requires t.duration.Some?
    ensures delay.None? <==> t.duration.value == Forever
    ensures delay.Some? ==> Millis(delay.value) == t.duration.value
  {
    match t.duration.value
    case Forever => None
    case Millis(ms) => Some(ms)
  }

  /** The provider's `toasts` state and its three operations. The toast id
      (random in the source) is a parameter, and the removal timer is
      returned as a request rather than run. */
  class ToastList {
    var toasts: seq<Toast>

    constructor ()
      ensures toasts == []
    {
      toasts := [];
    }

    method Add(draft: ToastDraft, id: string) returns (timer: Option<int>)
      modifies this
      ensures toasts == ToastReducer(old(toasts), AddToast(NewToast(draft, id)))
      ensures timer == RemovalDelay(NewToast(draft, id))
      ensures draft.duration.None? ==> timer == Some(DefaultDuration)
    {
      var t := NewToast(draft, id);
      toasts := ToastReducer(toasts, AddToast(t));
      timer := RemovalDelay(t);
    }

    method Remove(id: string)
      modifies this
      ensures toasts == ToastReducer(old(toasts), RemoveToast(id))
    {
      toasts := ToastReducer(toasts, RemoveToast(id));
    }

    method Clear()
      modifies this
      ensures toasts == ToastReducer(old(toasts), ClearToasts)
      ensures toasts == []
    {
      toasts := ToastReducer(toasts, ClearToasts);
    }
  }
}
