// The toast queue: notifications appended by addToast and removed by id,
// either by the user or by an auto-dismiss timer.

module Toasts {
  import opened Wrappers

  const DefaultKind: string := "info"
  const DefaultDuration: int := 3000

  datatype Toast = Toast(id: string, title: string, description: string, kind: string, duration: int)

  /** The argument of addToast; None stands for a property left undefined. */
  datatype ToastOptions = ToastOptions(title: string, description: string, kind: Option<string>, duration: Option<int>)

  /** The toast addToast builds: type defaults to "info", duration to 3000 ms. */
  function MakeToast(id: string, o: ToastOptions): (t: Toast)
    ensures t.id == id && t.title == o.title && t.description == o.description
    ensures t.kind == (if o.kind.Some? then o.kind.value else DefaultKind)
    ensures t.duration == (if o.duration.Some? then o.duration.value else DefaultDuration)
  {
    Toast(id, o.title, o.description,
      if o.kind.None? then DefaultKind else o.kind.value,
      if o.duration.None? then DefaultDuration else o.duration.value)
  }

  /** The list after removeToast(id): `prev.filter(t => t.id !== id)`. */
  function Removed(ts: seq<Toast>, id: string): (r: seq<Toast>)
    ensures |r| <= |ts|
    decreases |ts|
  {
    if ts == [] then []
    else (if ts[0].id != id then [ts[0]] else []) + Removed(ts[1..], id)
  }

  /** Removing keeps exactly the toasts with another id. */
  lemma {:induction false} RemovedMembers(ts: seq<Toast>, id: string, t: Toast)
    ensures t in Removed(ts, id) <==> t in ts && t.id != id
    decreases |ts|
  {
    if ts != [] {
      RemovedMembers(ts[1..], id, t);
      assert t in ts <==> t == ts[0] || t in ts[1..];
    }
  }

  /** Removing works piecewise, so the kept toasts stay in their order. */
  lemma {:induction false} RemovedOfConcat(a: seq<Toast>, b: seq<Toast>, id: string)
    ensures Removed(a + b, id) == Removed(a, id) + Removed(b, id)
    decreases |a|
  {
    if a == [] {
      assert a + b == b;
    } else {
      var c := a + b;
      assert c[0] == a[0] && c[1..] == a[1..] + b;
      RemovedOfConcat(a[1..], b, id);
      if a[0].id != id {
        assert Removed(c, id) == [a[0]] + Removed(c[1..], id);
        assert Removed(a, id) == [a[0]] + Removed(a[1..], id);
      } else {
        assert Removed(c, id) == Removed(c[1..], id);
        assert Removed(a, id) == Removed(a[1..], id);
      }
    }
  }

  /** An id that no toast has leaves the list as it was. */
  lemma {:induction false} RemovedUnknown(ts: seq<Toast>, id: string)
    requires forall k :: 0 <= k < |ts| ==> ts[k].id != id
    ensures Removed(ts, id) == ts
    decreases |ts|
  {
    if ts != [] {
      RemovedUnknown(ts[1..], id);
    }
  }

  /** A toast added with a fresh id and later dismissed leaves the list as
      it was before the add. */
  lemma AddThenRemove(ts: seq<Toast>, t: Toast)
    requires forall k :: 0 <= k < |ts| ==> ts[k].id != t.id
    ensures Removed(ts + [t], t.id) == ts
  {
    RemovedOfConcat(ts, [t], t.id);
    RemovedUnknown(ts, t.id);
    assert Removed([t], t.id) == [];
  }

  /** A scheduled auto-dismiss: remove `id` after `delay` milliseconds. */
  datatype Timer = Timer(id: string, delay: int)

  /** The state of ToastProvider and its pending timers. */
  class ToastProvider {
    var toasts: seq<Toast>
    var timers: seq<Timer>

    constructor()
      ensures toasts == [] && timers == []
    {
      toasts := [];
      timers := [];
    }

    /** addToast: appends one toast at the end; an auto-dismiss is scheduled
        only for a positive duration. The random id is a parameter. */
    method AddToast(o: ToastOptions, id: string)
      modifies this
      ensures toasts == old(toasts) + [MakeToast(id, o)]
      ensures MakeToast(id, o).duration > 0 ==> timers == old(timers) + [Timer(id, MakeToast(id, o).duration)]
      ensures MakeToast(id, o).duration <= 0 ==> timers == old(timers)
    {
      var kind := if o.kind.None? then DefaultKind else o.kind.value;
      var duration := if o.duration.None? then DefaultDuration else o.duration.value;
      toasts := toasts + [Toast(id, o.title, o.description, kind, duration)];
      if duration > 0 {
        timers := timers + [Timer(id, duration)];
      }
    }

    /** removeToast, as the dismiss button calls it. */
    method RemoveToast(id: string)
      modifies this
      ensures toasts == Removed(old(toasts), id)
      ensures timers == old(timers)
    {
      toasts := Removed(toasts, id);
    }

    /** The k-th pending timer fires and removes its toast. */
    method TimerFired(k: nat)
      requires k < |timers|
      modifies this
      ensures toasts == Removed(old(toasts), old(timers[k].id))
      ensures timers == old(timers[..k] + timers[k + 1..])
    {
      var id := timers[k].id;
      timers := timers[..k] + timers[k + 1..];
      RemoveToast(id);
    }
  }
}
