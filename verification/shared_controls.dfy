/**
 * The shared control panel sends each toggle and each set-all to all four
 * strategies, and a new section count hands every provider a new id list.
 * Starting from the same section ids, the reducer (reset on a new id list),
 * the `useState` updaters, the zustand updaters and the external store end
 * with the same map after any sequence of commands.
 */
module SharedControls {
  import opened Wrappers
  import opened Types
  import opened ValidityMaps
  import VC = ValidityContext
  import PC = PureContext
  import ZS = ZustandStore
  import ES = ExternalStore

  /** `handleToggle(id)`, `handleSetAll(validity)`, and a new section count giving the id list `ids`. */
  datatype Command = Toggle(id: SectionId) | SetAllTo(validity: Validity) | Resize(ids: seq<SectionId>)

  /** The reducer's step: a dispatched action, or for a new id list the reset the other strategies perform. */
  function ReducerStep(state: VC.State, c: Command): (r: VC.State)
    ensures c.Toggle? ==> ToggleOf(r.validityBySection, state.validityBySection, c.id)
    ensures c.SetAllTo? ==> SetAllOf(r.validityBySection, state.validityBySection, c.validity)
    ensures c.Resize? ==> InitialFor(r.validityBySection, c.ids)
    ensures r.version > state.version
  {
    match c
    case Toggle(id) => VC.Reducer(state, VC.ToggleOne(id))
    case SetAllTo(v) => VC.Reducer(state, VC.SetAll(v))
    case Resize(ids) => VC.ResetOnNewIds(state, ids)
  }

  /** The reducer's step with the provider as written: a new id list leaves the state alone. */
  function ReducerStepAsWritten(state: VC.State, c: Command): (r: VC.State)
    ensures c.Resize? ==> r == state
    ensures !c.Resize? ==> r == ReducerStep(state, c)
  {
    match c
    case Toggle(id) => VC.Reducer(state, VC.ToggleOne(id))
    case SetAllTo(v) => VC.Reducer(state, VC.SetAll(v))
    case Resize(ids) => VC.KeepOnNewIds(state, ids)
  }

  function RunReducer(state: VC.State, cmds: seq<Command>): VC.State
    decreases |cmds|
  {
    if cmds == [] then state else RunReducer(ReducerStep(state, cmds[0]), cmds[1..])
  }

  /** The `useState` provider's step: an updater, or the reset effect on a new id list. */
  function PureStep(m: ValidityMap, c: Command): (r: ValidityMap)
    ensures c.Toggle? ==> ToggleOf(r, m, c.id)
    ensures c.SetAllTo? ==> SetAllOf(r, m, c.validity)
    ensures c.Resize? ==> InitialFor(r, c.ids)
  {
    match c
    case Toggle(id) => PC.ToggleOne(m, id)
    case SetAllTo(v) => PC.SetAll(m, v)
    case Resize(ids) => PC.Reset(m, ids)
  }

  function RunPure(m: ValidityMap, cmds: seq<Command>): ValidityMap
    decreases |cmds|
  {
    if cmds == [] then m else RunPure(PureStep(m, cmds[0]), cmds[1..])
  }

  /** The zustand store's step: an updater, or `init` run by the column's effect on a new id list. */
  function ZustandStep(m: ValidityMap, c: Command): (r: ValidityMap)
    ensures c.Toggle? ==> ToggleOf(r, m, c.id)
    ensures c.SetAllTo? ==> SetAllOf(r, m, c.validity)
    ensures c.Resize? ==> InitialFor(r, c.ids)
  {
    match c
    case Toggle(id) => ZS.ToggleOne(m, id)
    case SetAllTo(v) => ZS.SetAll(m, v)
    case Resize(ids) => ZS.Init(m, ids)
  }

  function RunZustand(m: ValidityMap, cmds: seq<Command>): ValidityMap
    decreases |cmds|
  {
    if cmds == [] then m else RunZustand(ZustandStep(m, cmds[0]), cmds[1..])
  }

  /** How many notifications the external store sends for `cmds`: one per toggle and per set-all. */
  function Notifications(cmds: seq<Command>): nat
    decreases |cmds|
  {
    if cmds == [] then 0 else (if cmds[0].Resize? then 0 else 1) + Notifications(cmds[1..])
  }

  /** One command takes equal maps to equal maps in the three functional strategies. */
  lemma StepAgrees(state: VC.State, c: Command)
    ensures ReducerStep(state, c).validityBySection == PureStep(state.validityBySection, c)
                                                   == ZustandStep(state.validityBySection, c)
  {
    var m := state.validityBySection;
    match c
    case Toggle(id) =>
      SetOneDeterminate(ReducerStep(state, c).validityBySection, PureStep(m, c), m, id, Flip(Lookup(m, id)));
      SetOneDeterminate(PureStep(m, c), ZustandStep(m, c), m, id, Flip(Lookup(m, id)));
    case SetAllTo(v) =>
      SetAllDeterminate(ReducerStep(state, c).validityBySection, PureStep(m, c), m, v);
      SetAllDeterminate(PureStep(m, c), ZustandStep(m, c), m, v);
    case Resize(ids) =>
      InitialDeterminate(ReducerStep(state, c).validityBySection, PureStep(m, c), ids);
      InitialDeterminate(PureStep(m, c), ZustandStep(m, c), ids);
  }

  lemma {:induction false} RunsAgree(state: VC.State, cmds: seq<Command>)
    ensures RunReducer(state, cmds).validityBySection
         == RunPure(state.validityBySection, cmds)
         == RunZustand(state.validityBySection, cmds)
    decreases |cmds|
  {
    if cmds != [] {
      StepAgrees(state, cmds[0]);
      RunsAgree(ReducerStep(state, cmds[0]), cmds[1..]);
    }
  }

  /**
   * From the same section ids, the reducer's, the `useState` provider's and
   * the zustand store's maps agree after any sequence of commands.
   */
  lemma StrategiesAgree(ids: seq<SectionId>, cmds: seq<Command>)
    ensures RunReducer(VC.InitialState(ids), cmds).validityBySection
         == RunPure(PC.InitialMap(ids), cmds)
         == RunZustand(ZS.Init(ZS.Initial(), ids), cmds)
  {
    var m := VC.InitialState(ids).validityBySection;
    InitialDeterminate(m, PC.InitialMap(ids), ids);
    InitialDeterminate(m, ZS.Init(ZS.Initial(), ids), ids);
    RunsAgree(VC.InitialState(ids), cmds);
  }

  /**
   * With the provider as written, one toggle and one new section count are
   * enough for the reducer to disagree with the `useState` provider: it keeps
   * the toggled "1" as "valid" where the other shows it reset to "invalid",
   * and never learns about "2".
   */
  lemma ResizeDivergesAsWritten()
    ensures ReducerStepAsWritten(ReducerStepAsWritten(VC.InitialState(["1"]), Toggle("1")), Resize(["1", "2"])).validityBySection
         != PureStep(PureStep(PC.InitialMap(["1"]), Toggle("1")), Resize(["1", "2"]))
    ensures Lookup(ReducerStepAsWritten(ReducerStepAsWritten(VC.InitialState(["1"]), Toggle("1")), Resize(["1", "2"])).validityBySection, "1")
         == Some(Valid)
    ensures Lookup(PureStep(PureStep(PC.InitialMap(["1"]), Toggle("1")), Resize(["1", "2"])), "1") == Some(Invalid)
  {
    var written := ReducerStepAsWritten(ReducerStepAsWritten(VC.InitialState(["1"]), Toggle("1")), Resize(["1", "2"]));
    var pure := PureStep(PureStep(PC.InitialMap(["1"]), Toggle("1")), Resize(["1", "2"]));
    assert "2" in pure;
    assert written.validityBySection.Keys == {"1"};
    assert "2" !in written.validityBySection;
  }

  /**
   * The external store fed the same commands, rebuilt by its provider on
   * every new id list: it ends with the reducer's map, and its stores have
   * notified once per toggle and per set-all.
   */
  method ReplayOnExternalStore(ids: seq<SectionId>, cmds: seq<Command>) returns (final: ValidityMap, emits: nat)
    ensures final == RunReducer(VC.InitialState(ids), cmds).validityBySection
    ensures emits == Notifications(cmds)
  {
    var store := new ES.ValidityStore(ids);
    var earlier := 0;
    ghost var state := VC.InitialState(ids);
    InitialDeterminate(store.validityBySection, state.validityBySection, ids);
    var i := 0;
    while i < |cmds|
      invariant 0 <= i <= |cmds|
      invariant fresh(store)
      invariant store.validityBySection == state.validityBySection
      invariant RunReducer(state, cmds[i..]) == RunReducer(VC.InitialState(ids), cmds)
      invariant earlier + store.emits + Notifications(cmds[i..]) == Notifications(cmds)
      decreases |cmds| - i
    {
      ghost var next := ReducerStep(state, cmds[i]);
      match cmds[i] {
        case Toggle(id) =>
          store.ToggleOne(id);
          SetOneDeterminate(store.validityBySection, next.validityBySection,
                            state.validityBySection, id, Flip(Lookup(state.validityBySection, id)));
        case SetAllTo(v) =>
          store.SetAll(v);
          SetAllDeterminate(store.validityBySection, next.validityBySection, state.validityBySection, v);
        case Resize(newIds) =>
          earlier := earlier + store.emits;
          store := new ES.ValidityStore(newIds);
          InitialDeterminate(store.validityBySection, next.validityBySection, newIds);
      }
      assert cmds[i..][1..] == cmds[i + 1..];
      state := next;
      i := i + 1;
    }
    assert cmds[i..] == [];
    final := store.validityBySection;
    emits := earlier + store.emits;
  }
}
