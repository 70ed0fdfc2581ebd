/**
 * The zustand strategy. `set(updater)` is taken to replace the
 * `validityBySection` field with the map the updater returns.
 */
module ZustandStore {
  import opened Wrappers
  import opened Types
  import opened ValidityMaps

  /** The store's map before `init` has run: the initial map of no sections. */
  function Initial(): (r: ValidityMap)
    ensures InitialFor(r, [])
  {
    map[]
  }

  /** `init(sectionIds)`: the map becomes exactly the ids, each "invalid"; the previous map is ignored. */
  function Init(state: ValidityMap, sectionIds: seq<SectionId>): (r: ValidityMap)
    ensures InitialFor(r, sectionIds)
  {
    map id | id in sectionIds :: Invalid
  }

  /** `toggleOne(id)`. */
  function ToggleOne(state: ValidityMap, id: SectionId): (r: ValidityMap)
    ensures ToggleOf(r, state, id)
  {
    var current := Lookup(state, id);
    var next := if current == Some(Valid) then Invalid else Valid;
    state[id := next]
  }

  /** `setAll(validity)`. */
  function SetAll(state: ValidityMap, validity: Validity): (r: ValidityMap)
    ensures SetAllOf(r, state, validity)
  {
    map id | id in state :: validity
  }

  /** Before `init`, `setAll` leaves the map empty: there are no keys to set. */
  lemma SetAllBeforeInit(validity: Validity)
    ensures SetAll(Initial(), validity) == map[]
  {
  }
}
