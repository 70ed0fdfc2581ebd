/**
 * `createValidityStore`: a closure-held validity map with listeners. The map
 * is replaced wholesale by each mutator; `version` counts replacements and so
 * stands for the identity of the object `getSnapshot` hands out.
 */
module ExternalStore {
  import opened Wrappers
  import opened Types
  import opened ValidityMaps
  import opened Observable

  class ValidityStore {
    var validityBySection: ValidityMap
    var version: nat
    var listeners: set<ListenerId>
    /** How many times each listener has been called. */
    var calls: map<ListenerId, nat>
    /** How many times `emit` has run. */
    var emits: nat

    /** `createValidityStore(sectionIds)`. */
    constructor (sectionIds: seq<SectionId>)
      ensures InitialFor(validityBySection, sectionIds)
      ensures listeners == {} && calls == map[] && emits == 0 && version == 0
    {
      validityBySection := map id | id in sectionIds :: Invalid;
      version := 0;
      listeners := {};
      calls := map[];
      emits := 0;
    }

    /** Registering a listener that is already registered leaves one registration. */
    method Subscribe(l: ListenerId)
      modifies this`listeners
      ensures listeners == old(listeners) + {l}
    {
      listeners := listeners + {l};
    }

    /** The function `subscribe` returns: `listeners.delete(l)`, which reports whether `l` was there. */
    method Unsubscribe(l: ListenerId) returns (removed: bool)
      modifies this`listeners
      ensures removed == (l in old(listeners))
      ensures listeners == old(listeners) - {l}
    {
      removed := l in listeners;
      listeners := listeners - {l};
    }

    /** Calls every registered listener exactly once. */
    method Emit()
      modifies this`calls, this`emits
      ensures calls == Delivered(old(calls), listeners)
      ensures emits == old(emits) + 1
    {
      var pending := listeners;
      while pending != {}
        invariant pending <= listeners
        invariant calls == Delivered(old(calls), listeners - pending)
        invariant emits == old(emits)
        decreases pending
      {
        var l :| l in pending;
        DeliveredStep(old(calls), listeners - pending, l);
        assert listeners - pending + {l} == listeners - (pending - {l});
        calls := calls[l := Times(calls, l) + 1];
        pending := pending - {l};
      }
      emits := emits + 1;
    }

    /** `getValidity(id)`: the snapshot's value at `id`, `undefined` when absent. */
    method GetValidity(id: SectionId) returns (v: Option<Validity>)
      ensures v.Some? <==> id in validityBySection
      ensures v.Some? ==> v.value == validityBySection[id]
    {
      v := Lookup(validityBySection, id);
    }

    /** `getSnapshot()`: the current map, by reference. */
    method GetSnapshot() returns (snapshot: Ref<ValidityMap>)
      ensures snapshot.version == version && snapshot.value == validityBySection
    {
      snapshot := Ref(version, validityBySection);
    }

    /**
     * `setOne(id, v)`: nothing happens, and nobody is told, when `v` is already
     * stored; otherwise the map is replaced with only `id` changed and the
     * listeners are told once.
     */
    method SetOne(id: SectionId, validity: Validity)
      modifies this`validityBySection, this`version, this`calls, this`emits
      ensures Lookup(old(validityBySection), id) == Some(validity) ==>
        && validityBySection == old(validityBySection) && version == old(version)
        && calls == old(calls) && emits == old(emits)
      ensures Lookup(old(validityBySection), id) != Some(validity) ==>
        && SetOneOf(validityBySection, old(validityBySection), id, validity)
        && version == old(version) + 1
        && calls == Delivered(old(calls), listeners) && emits == old(emits) + 1
    {
      if Lookup(validityBySection, id) == Some(validity) {
        return;
      }
      validityBySection := validityBySection[id := validity];
      version := version + 1;
      Emit();
    }

    /** `toggleOne(id)`: always a new map and always one notification. */
    method ToggleOne(id: SectionId)
      modifies this`validityBySection, this`version, this`calls, this`emits
      ensures ToggleOf(validityBySection, old(validityBySection), id)
      ensures version == old(version) + 1
      ensures calls == Delivered(old(calls), listeners) && emits == old(emits) + 1
    {
      var next := if Lookup(validityBySection, id) == Some(Valid) then Invalid else Valid;
      validityBySection := validityBySection[id := next];
      version := version + 1;
      Emit();
    }

    /** `setAll(v)`: a fresh map over the same keys, and a notification even when nothing changed. */
    method SetAll(validity: Validity)
      modifies this`validityBySection, this`version, this`calls, this`emits
      ensures SetAllOf(validityBySection, old(validityBySection), validity)
      ensures version == old(version) + 1
      ensures calls == Delivered(old(calls), listeners) && emits == old(emits) + 1
    {
      var next: ValidityMap := map[];
      var keys := validityBySection.Keys;
      while keys != {}
        invariant keys <= validityBySection.Keys
        invariant next.Keys == validityBySection.Keys - keys
        invariant forall k :: k in next ==> next[k] == validity
        decreases keys
      {
        var id :| id in keys;
        next := next[id := validity];
        keys := keys - {id};
      }
      validityBySection := next;
      version := version + 1;
      Emit();
    }
  }
}
