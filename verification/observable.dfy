/**
 * What the two observable containers (the render log and the validity store)
 * share: listeners are identified by ids, one `emit` calls every registered
 * listener once, and a snapshot is a value tagged with the version of the
 * reference that held it, so that "the same reference" can be stated.
 */
module Observable {

  /** A listener callback, identified by an id (its JavaScript identity). */
  type ListenerId = nat

  /** A snapshot reference: two snapshots of the same container are the identical object iff their versions agree. */
  datatype Ref<T> = Ref(version: nat, value: T)

  /** How many times listener `l` has been called so far. */
  function Times(calls: map<ListenerId, nat>, l: ListenerId): nat {
    if l in calls then calls[l] else 0
  }

  /** The call counts after one notification of every listener in `ls`. */
  function Delivered(calls: map<ListenerId, nat>, ls: set<ListenerId>): (r: map<ListenerId, nat>)
    ensures forall l :: Times(r, l) == Times(calls, l) + (if l in ls then 1 else 0)
  {
    map l | l in calls.Keys + ls :: Times(calls, l) + (if l in ls then 1 else 0)
  }

  /** Notifying one more listener extends a partial notification by one call. */
  lemma DeliveredStep(calls: map<ListenerId, nat>, done: set<ListenerId>, l: ListenerId)
    requires l !in done
    ensures Delivered(calls, done + {l}) == Delivered(calls, done)[l := Times(Delivered(calls, done), l) + 1]
  {
    var a := Delivered(calls, done + {l});
    var b := Delivered(calls, done)[l := Times(Delivered(calls, done), l) + 1];
    assert a.Keys == b.Keys;
    forall k | k in a ensures a[k] == b[k] {
      assert Times(a, k) == a[k];
      assert Times(b, k) == b[k];
    }
  }
}
