/**
 * useToaster (src/hooks/useToaster.ts): the list of notifications on screen and
 * the removals scheduled for them. A scheduled removal is a `Removal(due, id)`
 * that `Expire(now)` carries out once the clock reaches `due`.
 */
module Toaster {
  import opened Wrappers

  datatype ToastType = Success | Error | Info | Warning

  datatype Toast = Toast(id: string, kind: ToastType, message: string)

  datatype Removal = Removal(due: int, id: string)

  /** `customDuration ?? (type === 'error' || type === 'warning' ? 8000 : 4000)` */
  function Duration(kind: ToastType, customDuration: Option<int>): (d: int)
    ensures customDuration.Some? ==> d == customDuration.value
    ensures customDuration.None? ==> (d == 8000 <==> kind == Error || kind == Warning)
    ensures customDuration.None? ==> d == 8000 || d == 4000
  {
    if customDuration.Some? then customDuration.value
    else if kind == Error || kind == Warning then 8000 else 4000
  }

  /** `toasts.filter(t => t.id !== id)` */
  function Removed(ts: seq<Toast>, id: string): (r: seq<Toast>)
    ensures forall t :: t in r <==> t in ts && t.id != id
    ensures |r| <= |ts|
  {
    if ts == [] then []
    else if ts[0].id == id then Removed(ts[1..], id)
    else [ts[0]] + Removed(ts[1..], id)
  }

  /** Removing keeps the other toasts in their order: it distributes over concatenation. */
  lemma {:induction false} RemovedAppend(a: seq<Toast>, b: seq<Toast>, id: string)
    ensures Removed(a + b, id) == Removed(a, id) + Removed(b, id)
    decreases |a|
  {
    if a == [] {
      assert a + b == b;
    } else {
      assert (a + b)[0] == a[0] && (a + b)[1..] == a[1..] + b;
      RemovedAppend(a[1..], b, id);
    }
  }

  /** A list without that id is left exactly as it was. */
  lemma {:induction false} RemovedAbsent(ts: seq<Toast>, id: string)
    requires forall i :: 0 <= i < |ts| ==> ts[i].id != id
    ensures Removed(ts, id) == ts
    decreases |ts|
  {
    if ts != [] {
      RemovedAbsent(ts[1..], id);
    }
  }

  /** Removing a toast just added under a fresh id restores the list. */
  lemma AddThenRemove(ts: seq<Toast>, t: Toast)
    requires forall i :: 0 <= i < |ts| ==> ts[i].id != t.id
    ensures Removed(ts + [t], t.id) == ts
  {
    RemovedAppend(ts, [t], t.id);
    RemovedAbsent(ts, t.id);
    assert Removed([t], t.id) == [];
  }

  /** The ids whose removal is due at `now`. */
  function DueIds(rs: seq<Removal>, now: int): set<string>
  {
    set i | 0 <= i < |rs| && rs[i].due <= now :: rs[i].id
  }

  function WithoutIds(ts: seq<Toast>, ids: set<string>): (r: seq<Toast>)
    ensures forall t :: t in r <==> t in ts && t.id !in ids
  {
    if ts == [] then []
    else if ts[0].id in ids then WithoutIds(ts[1..], ids)
    else [ts[0]] + WithoutIds(ts[1..], ids)
  }

  function NotDue(rs: seq<Removal>, now: int): (r: seq<Removal>)
    ensures forall x :: x in r <==> x in rs && x.due > now
  {
    if rs == [] then []
    else if rs[0].due <= now then NotDue(rs[1..], now)
    else [rs[0]] + NotDue(rs[1..], now)
  }

  class Toasts {
    var toasts: seq<Toast>
    var removals: seq<Removal>

    constructor ()
      ensures toasts == [] && removals == []
    {
      toasts := [];
      removals := [];
    }

    /** addToast (useToaster.ts:12-24); `freshId` is what generateId returned and `now` the clock. */
    method AddToast(kind: ToastType, message: string, customDuration: Option<int>, freshId: string, now: int)
      modifies this
      ensures toasts == old(toasts) + [Toast(freshId, kind, message)]
      ensures Duration(kind, customDuration) > 0 ==>
        removals == old(removals) + [Removal(now + Duration(kind, customDuration), freshId)]
      ensures Duration(kind, customDuration) <= 0 ==> removals == old(removals)
    {
      toasts := toasts + [Toast(freshId, kind, message)];
      var duration := Duration(kind, customDuration);
      if duration > 0 {
        removals := removals + [Removal(now + duration, freshId)];
      }
    }

    /** removeToast (useToaster.ts:8-10) */
    method RemoveToast(id: string)
      modifies this`toasts
      ensures toasts == Removed(old(toasts), id)
    {
      toasts := Removed(toasts, id);
    }

    /** The scheduled removals whose time has come fire. */
    method Expire(now: int)
      modifies this
      ensures toasts == WithoutIds(old(toasts), DueIds(old(removals), now))
      ensures removals == NotDue(old(removals), now)
    {
      toasts := WithoutIds(toasts, DueIds(removals, now));
      removals := NotDue(removals, now);
    }
  }
}
