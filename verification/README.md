# React state-patterns demo: render log, validity store and validity-map transitions

This project models the sequential core of a React demo that compares state-propagation
strategies. A grid of sections each carries a validity flag ("valid" or "invalid"). Four
strategies hold the same flags: a context with a reducer, a context with `useState`, an
external store read through `useSyncExternalStore`, and a zustand store. One control panel
sends every toggle and every set-all to all four. A render log counts, per user action,
which cells of which strategy re-rendered.

Modelled pieces:

- **Render-log aggregator** (`src/shared/logStore.ts`): module `LogStore`, class `RenderLog`.
  It holds the module state: the sealed history, the open entry, the dedup set of
  `pattern:cellId` keys, the next id, the armed close timer, listeners, and emit/call counters.
  `Valid()` ties these together:
  - the timer is armed iff an entry is open, with delay 120 or 60;
  - the open entry's id is `nextId - 1`;
  - the open entry's counts are exactly the number of distinct reported cells per pattern;
  - the history is at most 50 entries, newest first, with strictly decreasing ids below the open entry's id.

  Firing the timer is an explicit `Fire` step.
- **Observable validity store** (`src/patterns/externalStore/store.ts`): module `ExternalStore`, class `ValidityStore`.
  - Its map field is replaced wholesale.
  - `version` counts replacements and stands for the identity of the object `getSnapshot` returns.
  - `emits` counts notifications, and `calls` counts the calls each listener has received.
- **Validity-map transitions**, one module per strategy:
  - `ValidityContext`: the reducer and the initial state;
  - `PureContext`: the initial map, the reset effect and the two updaters;
  - `ZustandStore`: `init`, `toggleOne` and `setAll`.

  Each is proved against one shared specification in `ValidityMaps` (`InitialFor`, `SetOneOf`, `ToggleOf`, `SetAllOf`). Each of these predicates determines its result, so `SharedControls` proves that every strategy ends with the same map after any sequence of toggles, set-alls and section-count changes. That includes a replay on real `ValidityStore` objects, rebuilt on each change of section count as their provider does. It holds once the reducer's provider is reset on a new id list; as written it is not (see Findings).
- **Section ids** (`src/shared/types.ts`): module `Types`, with `makeSectionIds` over a decimal rendering of numbers whose round trip is proved.

JavaScript reference identity is modelled by a version tag:
- the reducer's `State` carries a `version`; returning the same state object keeps it, and every freshly built state has a larger one;
- the two stores' snapshots carry the `version` tag of `Observable.Ref`.

## Model

| member | source | states |
|---|---|---|
| Types.MakeSectionIds | src/shared/types.ts:4-5 | length is `count` (0 for a negative count); element i is a canonical decimal numeral (digits only, no leading zero) that reads back as i+1; all elements distinct; "0" never occurs; the first element is "1" |
| Types.IdsFixedByContract | src/shared/types.ts:4-5 | any id list meeting `MakeSectionIds`'s contract is exactly `String(1)`, `String(2)`, …, so that contract determines the result |
| Types.Decimal | src/shared/types.ts:5 | `String(n)` is a canonical numeral; it starts with '0' exactly when n is 0 |
| Types.CanonicalIsDecimal | src/shared/types.ts:5 | every canonical numeral is `String` of the number it reads as, so `String` is onto the canonical numerals |
| Types.DigitsValue | src/shared/types.ts:5 | a digit string reads as a number that is positive when its first digit is not '0' |
| Types.Lookup | src/patterns/externalStore/store.ts:21 | reading a key gives a value exactly when the key is present, and that value is the stored one |
| Types.DecimalRoundTrip | src/shared/types.ts:5 | the decimal string of n reads back as n |
| Types.DecimalInjective | src/shared/types.ts:5 | distinct numbers give distinct section ids |
| ValidityMaps.Flip | src/patterns/externalStore/store.ts:32-33 | (specification helper shared by every toggle) the toggled flag is "valid" exactly when the current value is not "valid" (so an absent key becomes "valid") |
| ValidityMaps.ToggleTwiceRestores | src/patterns/context/ValidityContext.tsx:24-33 | toggling a present key twice gives back the original map |
| ValidityMaps.ToggleAbsentTwice | src/patterns/externalStore/store.ts:31-36 | toggling an absent key twice leaves it present and "invalid", so the map is not restored |
| ValidityMaps.SetAllIdempotent | src/patterns/context/ValidityContext.tsx:34-40 | setting all values to v twice equals doing it once |
| ValidityContext.Reducer | src/patterns/context/ValidityContext.tsx:13-44 | the state keeps its identity (version) exactly when setOne finds the stored value, and is then the identical state; every other action builds a new state with a larger version; setOne changes only its key; toggleOne flips only its key; setAll keeps the key set and makes every value v |
| ValidityContext.InitialState | src/patterns/context/ValidityContext.tsx:60-64 | every section id maps to "invalid" and there are no other keys |
| ValidityContext.ToggleTwice | src/patterns/context/ValidityContext.tsx:24-33 | two toggles of a present id restore the map, under a new state object |
| ValidityContext.SetAllIdempotent | src/patterns/context/ValidityContext.tsx:34-40 | the reducer's setAll is idempotent on the map, yet a second setAll still yields a new state object |
| ValidityContext.KeepOnNewIds | src/patterns/context/ValidityContext.tsx:60-66 | as written: a new id list changes only the memoised initial value, which `useReducer` ignores after mount, so the state and its map survive |
| ValidityContext.ResetOnNewIds | src/patterns/context/ValidityContext.tsx:60-66 | corrected: a new id list yields a new state whose map is exactly the new ids, each "invalid" |
| PureContext.InitialMap | src/patterns/pureContext/PureContext.tsx:19-23 | every section id maps to "invalid", no other keys |
| PureContext.Reset | src/patterns/pureContext/PureContext.tsx:25-29 | the map becomes exactly the new ids, each "invalid"; keys not among them are dropped |
| PureContext.ToggleOne | src/patterns/pureContext/PureContext.tsx:31-36 | flips only id; an absent id becomes "valid"; other keys unchanged |
| PureContext.SetAll | src/patterns/pureContext/PureContext.tsx:38-44 | previous key set kept, every value the argument |
| ZustandStore.Init | src/patterns/zustand/useValidityStore.ts:13-18 | the map becomes exactly the ids, each "invalid"; earlier keys are discarded |
| ZustandStore.ToggleOne | src/patterns/zustand/useValidityStore.ts:19-26 | flips only id, other keys unchanged |
| ZustandStore.SetAll | src/patterns/zustand/useValidityStore.ts:27-33 | key set kept, every value v |
| ZustandStore.Initial | src/patterns/zustand/useValidityStore.ts:12 | the store's starting map is the initial map of no sections: empty |
| ZustandStore.SetAllBeforeInit | src/patterns/zustand/useValidityStore.ts:12-33 | on the empty map the store starts with, setAll yields the empty map |
| Observable.Delivered | src/shared/logStore.ts:20-22 | (specification helper for both emits) one emit adds exactly one call for each registered listener and none for any other |
| ExternalStore.ValidityStore.constructor | src/patterns/externalStore/store.ts:5-10 | a fresh store maps exactly the given ids, each to "invalid", and has no listeners |
| ExternalStore.ValidityStore.Subscribe | src/patterns/externalStore/store.ts:12-13 | the listener set gains the listener; subscribing twice registers it once |
| ExternalStore.ValidityStore.Unsubscribe | src/patterns/externalStore/store.ts:14 | removes the listener and reports whether it was registered |
| ExternalStore.ValidityStore.Emit | src/patterns/externalStore/store.ts:17-19 | every registered listener is called exactly once |
| ExternalStore.ValidityStore.GetValidity | src/patterns/externalStore/store.ts:21 | the value equals the snapshot's value at id, or undefined when id is absent |
| ExternalStore.ValidityStore.GetSnapshot | src/patterns/externalStore/store.ts:23 | the current map, tagged with its reference version |
| ExternalStore.ValidityStore.SetOne | src/patterns/externalStore/store.ts:25-29 | unchanged value: no emit, same map and version; otherwise only id changes, a new version, exactly one emit |
| ExternalStore.ValidityStore.ToggleOne | src/patterns/externalStore/store.ts:31-36 | flips only id (absent becomes "valid"), new version, always exactly one emit |
| ExternalStore.ValidityStore.SetAll | src/patterns/externalStore/store.ts:38-43 | key set kept, every value v, new version, exactly one emit even when nothing changed |
| LogStore.PatternName | src/shared/logStore.ts:1 | each pattern key's name is nonempty and has no ':' in it, so it can prefix a dedup key |
| LogStore.ZeroCounts | src/shared/logStore.ts:44 | a new entry's counts are those of an entry that has seen no cell |
| LogStore.CellKey | src/shared/logStore.ts:52 | the dedup key reads back both its pattern and, after the separator, its cell id |
| LogStore.Counts.Incr | src/shared/logStore.ts:55 | the pattern's count rises by one, the others stay |
| LogStore.CellKeyPattern | src/shared/logStore.ts:52 | any string made of a pattern's name, ':' and a cell id reads back that pattern |
| LogStore.CellKeyInjective | src/shared/logStore.ts:52-54 | distinct (pattern, cell) pairs have distinct dedup keys |
| LogStore.CountsOfAdd | src/shared/logStore.ts:53-55 | a newly seen key adds one to its pattern's count and nothing else |
| LogStore.CountsOfTotal | src/shared/logStore.ts:52-55 | the four counts add up to the number of distinct keys seen |
| LogStore.Take | src/shared/logStore.ts:30 | `slice(0, n)`: a prefix of length min(length, n) |
| LogStore.Sealed | src/shared/logStore.ts:30 | the sealed entry comes first, followed by a prefix of the old history; length grows by one up to 50 |
| LogStore.SealedNewestFirst | src/shared/logStore.ts:30 | sealing an entry newer than the history keeps ids strictly decreasing |
| LogStore.SealedFullDropsOldest | src/shared/logStore.ts:30 | on a full history of 50, sealing drops exactly the oldest entry |
| LogStore.SealAllKeepsNewest | src/shared/logStore.ts:30 | after any number of seals the history is the 50 most recently sealed entries, newest first, then what remains of the earlier history |
| LogStore.RenderLog.constructor | src/shared/logStore.ts:10-18 | the initial module state: empty history, no open entry, no timer, id 0 next |
| LogStore.RenderLog.OpenEntryTotal | src/shared/logStore.ts:50-58 | while an entry is open, its four counts add up to the size of the dedup set |
| LogStore.RenderLog.Emit | src/shared/logStore.ts:20-22 | every registered listener is called exactly once |
| LogStore.RenderLog.CloseEntry | src/shared/logStore.ts:24-34 | no open entry: nothing changes and nobody is notified; otherwise the entry is sealed into a new history, the open entry, dedup set and timer are cleared, one emit |
| LogStore.RenderLog.Fire | src/shared/logStore.ts:46-57 | the armed timer always finds an open entry and seals it into a new history reference |
| LogStore.RenderLog.LogAction | src/shared/logStore.ts:37-47 | seals any open entry first; opens a fresh entry with id = old next id and zero counts; next id +1; timer armed at 120; every sealed id is below the new one |
| LogStore.RenderLog.LogRender | src/shared/logStore.ts:50-58 | no open entry or an already-seen cell: nothing changes (no count, no timer re-arm, no emit); otherwise the key is recorded, only that pattern's count rises by one, and the timer is re-armed at 60 |
| LogStore.RenderLog.Subscribe | src/shared/logStore.ts:60-61 | the listener set gains the listener, once |
| LogStore.RenderLog.Unsubscribe | src/shared/logStore.ts:62-64 | the listener is removed |
| LogStore.RenderLog.GetSnapshot | src/shared/logStore.ts:67-69 | the history with its reference version; at most 50 entries, newest first |
| LogStore.RenderLog.ClearLog | src/shared/logStore.ts:71-74 | empty history under a new reference, one emit; open entry, dedup set and timer untouched |
| LogStore.DoubleFire | src/shared/logStore.ts:17-18 | a render signal fired twice raises its pattern's count by at most one and leaves the history alone |
| SharedControls.ReducerStep | src/App.tsx:40-54 | the reducer's response to a toggle, a set-all or a new id list meets the shared specification (toggle, set all, exactly the new ids "invalid") and yields a new state |
| SharedControls.ReducerStepAsWritten | src/patterns/context/ValidityContext.tsx:60-66 | as written: a new id list leaves the reducer's state untouched; toggles and set-alls are as in `ReducerStep` |
| SharedControls.PureStep | src/patterns/pureContext/PureContext.tsx:25-44 | the `useState` provider's updaters and reset effect meet the shared specification |
| SharedControls.ZustandStep | src/patterns/zustand/ZustandDemo.tsx:14-16 | the zustand store's updaters, and `init` run on a new id list, meet the shared specification |
| SharedControls.StepAgrees | src/App.tsx:40-54 | one toggle, set-all or new id list takes equal maps to equal maps in the reducer, `useState` and zustand strategies |
| SharedControls.RunsAgree | src/App.tsx:40-54 | from equal maps, those three strategies agree after any command sequence |
| SharedControls.StrategiesAgree | src/App.tsx:40-54 | from the same section ids, the reducer (reset on a new id list), `useState` and zustand maps are equal after any sequence of toggles, set-alls and new id lists |
| SharedControls.ResizeDivergesAsWritten | src/App.tsx:150-157 | as written, toggling "1" on ids ["1"] and then moving to ids ["1", "2"] keeps "1" valid in the reducer's map while the `useState` map resets it to "invalid", and leaves the reducer's map without "2" while the `useState` map has it |
| SharedControls.ReplayOnExternalStore | src/patterns/externalStore/ExternalStoreDemo.tsx:16-19 | the external store, given the same commands and rebuilt on each new id list, ends with the reducer's map, and its stores together notified exactly once per toggle and per set-all |

## Left out

- React plumbing is not modelled: providers, `useContext`, the scheduling of `useReducer`, `useState` and `useEffect`, `useSyncExternalStore`, `Profiler`, and the "must be used within provider" errors. These belong to the framework.
- The UI components are not modelled: the column and cell components, the log panel, `RenderBadge` and `WhyPanel`. They only present state.
- Real timers and wall-clock time are not modelled.
  - The close timer is only the delay it is armed with (120 or 60), and `Fire` stands for its callback running.
  - The rapid-fire burst in `App.tsx` and its `Math.random` choice are not modelled.
  - The `toLocaleTimeString` timestamp is an opaque `time` argument to `LogAction`.
- zustand's `create`/`set` internals are not modelled: `set(updater)` is taken to replace `validityBySection` with the updater's result. Shallow merging and selector subscriptions are left out.
- Per-pattern render durations are absent. `App.tsx` imports `logProfilerDuration` and reads `durationMs`, but `logStore.ts` defines neither, so the model follows `logStore.ts` and has no durations.
- `ContextMemoDemo.tsx` logs the pattern "contextMemo". `logStore.ts` does not list it among its four keys, and in JavaScript it would turn an undefined count into NaN. `PatternKey` has the four keys of `logStore.ts`, so such a call cannot be written.
- Listener callbacks are ids.
  - A call is recorded as a count per listener.
  - What a listener does is not modelled, including mutating the store or the log again during `emit`.
  - The insertion order in which a JavaScript `Set` visits listeners is not modelled either.
- `Object.keys` order is not modelled, because maps are unordered. Keys inherited from `Object.prototype` are not modelled either: for example, `getValidity("toString")` returns a function in JavaScript, where `Lookup` gives undefined.
- ValidityContext.Reducer: the `default: return state` branch is left out, because the three actions are a closed datatype.
- LogStore.RenderLog.LogAction: entry ids are unbounded `nat`. The JavaScript number `nextId` stops increasing at 2^53 and ids would then repeat; the model does not capture that, and its proofs of strictly decreasing history ids rely on ids always growing.
- SharedControls.StrategiesAgree: proved for the corrected reducer provider (`ResetOnNewIds`). As written, agreement holds only while the id list stays the same; see Findings.
- Types.MakeSectionIds: covers integer counts only. A fractional count, which `Array.from` truncates, and a count above 2^32-1, where it throws, are not modelled.
- `currentEntry.counts[pattern]++` updates the open entry in place. The model replaces the entry value instead. No sealed entry aliases the open one, so this is the same thing.

## Findings

| source | as written | input that shows it | evidently intended | confidence | as-written member | corrected member |
|---|---|---|---|---|---|---|
| src/patterns/context/ValidityContext.tsx:60-66 | the initial map is recomputed from `sectionIds`, but `useReducer` reads its initial value only on mount and the provider has no `key`, so a new section count leaves the reducer's old map in place, while the `useState` provider resets, zustand re-inits and the external store is rebuilt | ids ["1"], toggle "1", then a section count of 2 (ids ["1", "2"]): the reducer's map is {"1": valid}, the others are {"1": invalid, "2": invalid} | every strategy shows the new sections, all "invalid" | not executed | ValidityContext.KeepOnNewIds, SharedControls.ResizeDivergesAsWritten | ValidityContext.ResetOnNewIds, SharedControls.StrategiesAgree |
