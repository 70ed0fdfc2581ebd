/** The `useReducer` strategy: its state, actions, reducer and initial state. */
module ValidityContext {
  import opened Wrappers
  import opened Types
  import opened ValidityMaps

  /**
   * A state object. `version` stands for its identity: a state the reducer
   * builds afresh gets a version above the one it came from, and a state it
   * hands back unchanged keeps its version.
   */
  datatype State = State(version: nat, validityBySection: ValidityMap)

  datatype Action =
    | SetOne(id: SectionId, validity: Validity)
    | ToggleOne(id: SectionId)
    | SetAll(validity: Validity)

  /**
   * The reducer. `setOne` hands back the very same state object when the value
   * is already stored; every other transition builds a new object, `setAll`
   * included, even when no value changes.
   */
  function Reducer(state: State, action: Action): (r: State)
    ensures r.version == state.version <==>
      action.SetOne? && Lookup(state.validityBySection, action.id) == Some(action.validity)
    ensures r.version == state.version ==> r == state
    ensures r.version != state.version ==> r.version > state.version
    ensures action.SetOne? && Lookup(state.validityBySection, action.id) != Some(action.validity) ==>
      SetOneOf(r.validityBySection, state.validityBySection, action.id, action.validity)
    ensures action.ToggleOne? ==> ToggleOf(r.validityBySection, state.validityBySection, action.id)
    ensures action.SetAll? ==> SetAllOf(r.validityBySection, state.validityBySection, action.validity)
  {
    match action
    case SetOne(id, validity) =>
      if Lookup(state.validityBySection, id) == Some(validity) then state
      else State(state.version + 1, state.validityBySection[id := validity])
    case ToggleOne(id) =>
      var current := Lookup(state.validityBySection, id);
      var next := if current == Some(Valid) then Invalid else Valid;
      State(state.version + 1, state.validityBySection[id := next])
    case SetAll(validity) =>
      State(state.version + 1, map id | id in state.validityBySection :: validity)
  }

  /** The provider's initial state: every section id "invalid". */
  function InitialState(sectionIds: seq<SectionId>): (r: State)
    ensures InitialFor(r.validityBySection, sectionIds)
  {
    State(0, map id | id in sectionIds :: Invalid)
  }

  /**
   * What the provider does with its state when it is given a new id list:
   * `useReducer` reads its initial state on mount only, so the state object
   * stays as it was, old keys and values included.
   */
  function KeepOnNewIds(state: State, sectionIds: seq<SectionId>): (r: State)
    ensures r.version == state.version && r.validityBySection == state.validityBySection
  {
    state
  }

  /**
   * A new id list as the other strategies treat it: a fresh state object
   * holding exactly the new ids, each "invalid".
   */
  function ResetOnNewIds(state: State, sectionIds: seq<SectionId>): (r: State)
    ensures r.version > state.version
    ensures InitialFor(r.validityBySection, sectionIds)
  {
    State(state.version + 1, map id | id in sectionIds :: Invalid)
  }

  /** Toggling a present section twice gives back the state's map, in a new state object. */
  lemma ToggleTwice(state: State, id: SectionId)
    requires id in state.validityBySection
    ensures Reducer(Reducer(state, ToggleOne(id)), ToggleOne(id)).validityBySection == state.validityBySection
    ensures Reducer(Reducer(state, ToggleOne(id)), ToggleOne(id)).version > state.version
  {
    var once := Reducer(state, ToggleOne(id));
    ToggleTwiceRestores(state.validityBySection, id, once.validityBySection,
                        Reducer(once, ToggleOne(id)).validityBySection);
  }

  /** `setAll(v)` twice gives the map of `setAll(v)` once, yet the second call still builds a new object. */
  lemma SetAllIdempotent(state: State, v: Validity)
    ensures Reducer(Reducer(state, SetAll(v)), SetAll(v)).validityBySection == Reducer(state, SetAll(v)).validityBySection
    ensures Reducer(Reducer(state, SetAll(v)), SetAll(v)) != Reducer(state, SetAll(v))
  {
    var once := Reducer(state, SetAll(v));
    ValidityMaps.SetAllIdempotent(state.validityBySection, v, once.validityBySection,
                                  Reducer(once, SetAll(v)).validityBySection);
  }
}
