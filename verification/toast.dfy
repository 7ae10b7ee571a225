/**
 * The toast list of src/components/Toast.tsx: `addToast` appends one toast,
 * `removeToast` drops every toast with an id. Ids are taken as given: the
 * clock-and-random id and the timed removal are outside the model.
 */
module Toast {
  import opened Wrappers

  datatype ToastType = Success | Error | Warning | Info

  datatype Toast = Toast(id: int, message: string, kind: ToastType)

  /** `addToast(message, type = "info")` with `id` the freshly drawn id: the list gains one toast at the end. */
  function AddToast(toasts: seq<Toast>, message: string, kind: Option<ToastType>, id: int): (r: seq<Toast>)
    ensures |r| == |toasts| + 1
    ensures r[..|toasts|] == toasts
    ensures r[|toasts|] == Toast(id, message, kind.GetOr(Info))
  {
    toasts + [Toast(id, message, kind.GetOr(Info))]
  }

  /** `s.filter(t => t.id !== id)`. */
  function RemoveToast(toasts: seq<Toast>, id: int): (r: seq<Toast>)
    ensures |r| <= |toasts|
    ensures forall t :: t in r <==> t in toasts && t.id != id
  {
    if |toasts| == 0 then []
    else (if toasts[0].id == id then [] else [toasts[0]]) + RemoveToast(toasts[1..], id)
  }

  /** Filtering a concatenation filters each part: the survivors keep their order. */
  lemma {:induction false} RemoveDistributes(a: seq<Toast>, b: seq<Toast>, id: int)
    ensures RemoveToast(a + b, id) == RemoveToast(a, id) + RemoveToast(b, id)
    decreases |a|
  {
    if |a| == 0 {
      assert a + b == b;
    } else {
      assert (a + b)[1..] == a[1..] + b;
      RemoveDistributes(a[1..], b, id);
    }
  }

  /** Removing an id no toast carries changes nothing. */
  lemma {:induction false} RemoveAbsent(toasts: seq<Toast>, id: int)
    requires forall t :: t in toasts ==> t.id != id
    ensures RemoveToast(toasts, id) == toasts
    decreases |toasts|
  {
    if |toasts| > 0 {
      assert forall t :: t in toasts[1..] ==> t in toasts;
      RemoveAbsent(toasts[1..], id);
      assert toasts == [toasts[0]] + toasts[1..];
    }
  }

  /** A toast added under a fresh id and then removed leaves the list as it was. */
  lemma AddThenRemove(toasts: seq<Toast>, message: string, kind: Option<ToastType>, id: int)
    requires forall t :: t in toasts ==> t.id != id
    ensures RemoveToast(AddToast(toasts, message, kind, id), id) == toasts
  {
    RemoveDistributes(toasts, [Toast(id, message, kind.GetOr(Info))], id);
    RemoveAbsent(toasts, id);
    assert RemoveToast([Toast(id, message, kind.GetOr(Info))], id) == [];
  }

  /** Removing twice is removing once. */
  lemma RemoveIdempotent(toasts: seq<Toast>, id: int)
    ensures RemoveToast(RemoveToast(toasts, id), id) == RemoveToast(toasts, id)
  {
    RemoveAbsent(RemoveToast(toasts, id), id);
  }
}
