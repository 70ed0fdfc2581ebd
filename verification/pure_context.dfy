/** The `useState` strategy: the initial map, the reset on new ids, and the two updaters. */
module PureContext {
  import opened Wrappers
  import opened Types
  import opened ValidityMaps

  /** The lazy initial state: every section id "invalid". */
  function InitialMap(sectionIds: seq<SectionId>): (r: ValidityMap)
    ensures InitialFor(r, sectionIds)
  {
    map id | id in sectionIds :: Invalid
  }

  /** The effect run on a new id list: the previous map is replaced, not merged. */
  function Reset(prev: ValidityMap, sectionIds: seq<SectionId>): (r: ValidityMap)
    ensures InitialFor(r, sectionIds)
  {
    map id | id in sectionIds :: Invalid
  }

  /** The `toggleOne` updater applied to the previous map. */
  function ToggleOne(prev: ValidityMap, id: SectionId): (r: ValidityMap)
    ensures ToggleOf(r, prev, id)
  {
    prev[id := if Lookup(prev, id) == Some(Valid) then Invalid else Valid]
  }

  /** The `setAll` updater applied to the previous map. */
  function SetAll(prev: ValidityMap, validity: Validity): (r: ValidityMap)
    ensures SetAllOf(r, prev, validity)
  {
    map id | id in prev :: validity
  }
}
