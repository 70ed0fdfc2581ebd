/**
 * What every strategy's validity-map transitions are meant to do, stated once.
 * Each strategy module writes its own transformer, as the program does, and
 * proves it meets these predicates; since each predicate determines its
 * result uniquely, strategies that meet them agree.
 */
module ValidityMaps {
  import opened Wrappers
  import opened Types

  /** The flip used by every `toggleOne`: `current === "valid" ? "invalid" : "valid"`. */
  function Flip(current: Option<Validity>): (r: Validity)
    ensures r == Valid <==> current != Some(Valid)
  {
    if current == Some(Valid) then Invalid else Valid
  }

  /** `m` holds exactly the given ids, each one "invalid". */
  ghost predicate InitialFor(m: ValidityMap, ids: seq<SectionId>) {
    && (forall id :: id in m <==> id in ids)
    && (forall id :: id in m ==> m[id] == Invalid)
  }

  /** `r` is `m` with key `id` set to `v`, every other key kept. */
  ghost predicate SetOneOf(r: ValidityMap, m: ValidityMap, id: SectionId, v: Validity) {
    && r.Keys == m.Keys + {id}
    && r[id] == v
    && (forall k :: k in m && k != id ==> r[k] == m[k])
  }

  /** `r` is `m` with key `id` flipped (an absent key becomes "valid"), every other key kept. */
  ghost predicate ToggleOf(r: ValidityMap, m: ValidityMap, id: SectionId) {
    SetOneOf(r, m, id, Flip(Lookup(m, id)))
  }

  /** `r` has exactly the keys of `m`, all mapped to `v`. */
  ghost predicate SetAllOf(r: ValidityMap, m: ValidityMap, v: Validity) {
    && r.Keys == m.Keys
    && (forall k :: k in r ==> r[k] == v)
  }

  lemma InitialDeterminate(r1: ValidityMap, r2: ValidityMap, ids: seq<SectionId>)
    requires InitialFor(r1, ids) && InitialFor(r2, ids)
    ensures r1 == r2
  {
    assert r1.Keys == r2.Keys;
  }

  lemma SetOneDeterminate(r1: ValidityMap, r2: ValidityMap, m: ValidityMap, id: SectionId, v: Validity)
    requires SetOneOf(r1, m, id, v) && SetOneOf(r2, m, id, v)
    ensures r1 == r2
  {
  }

  lemma SetAllDeterminate(r1: ValidityMap, r2: ValidityMap, m: ValidityMap, v: Validity)
    requires SetAllOf(r1, m, v) && SetAllOf(r2, m, v)
    ensures r1 == r2
  {
  }

  /** Toggling a present key twice restores the map. */
  lemma ToggleTwiceRestores(m: ValidityMap, id: SectionId, r1: ValidityMap, r2: ValidityMap)
    requires id in m
    requires ToggleOf(r1, m, id) && ToggleOf(r2, r1, id)
    ensures r2 == m
  {
    assert r2.Keys == m.Keys;
    assert r2[id] == m[id] by {
      assert m[id] == Valid || m[id] == Invalid;
    }
  }

  /** Toggling an absent key twice leaves it present and "invalid": the map is not restored. */
  lemma ToggleAbsentTwice(m: ValidityMap, id: SectionId, r1: ValidityMap, r2: ValidityMap)
    requires id !in m
    requires ToggleOf(r1, m, id) && ToggleOf(r2, r1, id)
    ensures r1[id] == Valid && r2[id] == Invalid && r2.Keys == m.Keys + {id}
  {
  }

  /** Setting every value twice to the same flag is the same as once. */
  lemma SetAllIdempotent(m: ValidityMap, v: Validity, r1: ValidityMap, r2: ValidityMap)
    requires SetAllOf(r1, m, v) && SetAllOf(r2, r1, v)
    ensures r2 == r1
  {
  }
}
