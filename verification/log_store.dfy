/**
 * The render-log aggregator. One log entry is open per user action; cell
 * render signals are counted once per (pattern, cell) while it is open; the
 * entry is sealed into a newest-first history of at most 50 entries when a
 * quiet-period timer fires or the next action starts.
 */
module LogStore {
  import opened Wrappers
  import opened Observable

  /** The four strategies whose renders are counted. */
  datatype PatternKey = Context | PureContext | External | Zustand

  /** The pattern's name as it appears in dedup keys: never empty and free of the key separator. */
  function PatternName(p: PatternKey): (r: string)
    ensures |r| > 0 && ':' !in r
  {
    match p
    case Context => "context"
    case PureContext => "pureContext"
    case External => "external"
    case Zustand => "zustand"
  }

  /** Render counts, one per pattern. */
  datatype Counts = Counts(context: nat, pureContext: nat, external: nat, zustand: nat) {
    function Get(p: PatternKey): nat {
      match p
      case Context => context
      case PureContext => pureContext
      case External => external
      case Zustand => zustand
    }

    /** `counts[p]++`. */
    function Incr(p: PatternKey): (r: Counts)
      ensures r.Get(p) == Get(p) + 1
      ensures forall q :: q != p ==> r.Get(q) == Get(q)
    {
      match p
      case Context => this.(context := context + 1)
      case PureContext => this.(pureContext := pureContext + 1)
      case External => this.(external := external + 1)
      case Zustand => this.(zustand := zustand + 1)
    }

    function Total(): nat {
      context + pureContext + external + zustand
    }
  }

  /** The counts a new entry starts from: those of an entry that has seen no cell. */
  function ZeroCounts(): (r: Counts)
    ensures r == CountsOf({})
  {
    assert forall p :: Matching({}, p) == {};
    Counts(0, 0, 0, 0)
  }

  /** The timestamp is an opaque string supplied by the caller. */
  datatype LogEntry = LogEntry(id: nat, time: string, action: string, counts: Counts)

  /** History cap, and the two quiet periods (ms) after an action and after a render. */
  const HistoryCap: nat := 50
  const ActionQuietMs: nat := 120
  const RenderQuietMs: nat := 60

  // ----- Dedup keys -----

  /** The dedup key `${pattern}:${cellId}`: it reads back both the pattern and the cell id. */
  function CellKey(p: PatternKey, cellId: string): (r: string)
    ensures PatternOf(r) == Some(p)
    ensures r[|PatternName(p)| + 1..] == cellId
  {
    CellKeyPattern(p, cellId);
    PatternName(p) + ":" + cellId
  }

  /** The pattern a dedup key starts with, if any. */
  function PatternOf(key: string): Option<PatternKey> {
    if "context:" <= key then Some(Context)
    else if "pureContext:" <= key then Some(PureContext)
    else if "external:" <= key then Some(External)
    else if "zustand:" <= key then Some(Zustand)
    else None
  }

  /** A string made of a pattern's name, the separator and anything reads back that pattern. */
  lemma CellKeyPattern(p: PatternKey, cellId: string)
    ensures PatternOf(PatternName(p) + ":" + cellId) == Some(p)
  {
    var k := PatternName(p) + ":" + cellId;
    assert PatternName(p) + ":" <= k;
    match p
    case Context =>
    case PureContext => assert k[0] == 'p';
    case External => assert k[0] == 'e';
    case Zustand => assert k[0] == 'z';
  }

  /** Distinct (pattern, cell) pairs have distinct keys, so the string set dedups exactly the pairs. */
  lemma CellKeyInjective(p: PatternKey, c: string, q: PatternKey, d: string)
    ensures CellKey(p, c) == CellKey(q, d) ==> p == q && c == d
  {
    if CellKey(p, c) == CellKey(q, d) {
      assert p == q;
    }
  }

  // ----- Counts as a function of the dedup set -----

  /** Every key was built by `CellKey`. */
  ghost predicate WellFormedKeys(reported: set<string>) {
    forall k :: k in reported ==> PatternOf(k).Some?
  }

  function Matching(reported: set<string>, p: PatternKey): set<string> {
    set k | k in reported && PatternOf(k) == Some(p)
  }

  /** The counts an open entry ought to hold: the number of distinct cells seen per pattern. */
  function CountsOf(reported: set<string>): Counts {
    Counts(|Matching(reported, Context)|, |Matching(reported, PureContext)|,
           |Matching(reported, External)|, |Matching(reported, Zustand)|)
  }

  /** Adding a new key of pattern `p` grows `p`'s matching set by one and leaves the others. */
  lemma MatchingAdd(reported: set<string>, key: string, p: PatternKey, q: PatternKey)
    requires key !in reported && PatternOf(key) == Some(p)
    ensures |Matching(reported + {key}, q)| == |Matching(reported, q)| + (if q == p then 1 else 0)
  {
    if q == p {
      assert Matching(reported + {key}, q) == Matching(reported, q) + {key};
    } else {
      assert Matching(reported + {key}, q) == Matching(reported, q);
    }
  }

  /** Seeing a new key of pattern `p` adds one to `p`'s count and nothing else. */
  lemma CountsOfAdd(reported: set<string>, key: string, p: PatternKey)
    requires key !in reported && PatternOf(key) == Some(p)
    ensures CountsOf(reported + {key}) == CountsOf(reported).Incr(p)
  {
    MatchingAdd(reported, key, p, Context);
    MatchingAdd(reported, key, p, PureContext);
    MatchingAdd(reported, key, p, External);
    MatchingAdd(reported, key, p, Zustand);
  }

  /** The four counts add up to the number of distinct keys seen. */
  lemma {:induction false} CountsOfTotal(reported: set<string>)
    requires WellFormedKeys(reported)
    ensures CountsOf(reported).Total() == |reported|
    decreases |reported|
  {
    if reported != {} {
      var k :| k in reported;
      var rest := reported - {k};
      CountsOfTotal(rest);
      CountsOfAdd(rest, k, PatternOf(k).value);
      assert rest + {k} == reported;
    }
  }

  // ----- Sealing -----

  /** The first `n` elements, `slice(0, n)`. */
  function Take<T>(s: seq<T>, n: nat): (r: seq<T>)
    ensures |r| == if |s| <= n then |s| else n
    ensures r <= s
  {
    if |s| <= n then s else s[..n]
  }

  /** `[entry, ...history].slice(0, 50)`. */
  function Sealed(entry: LogEntry, history: seq<LogEntry>): (r: seq<LogEntry>)
    ensures |r| == if |history| < HistoryCap then |history| + 1 else HistoryCap
    ensures r[0] == entry
    ensures r[1..] <= history
  {
    Take([entry] + history, HistoryCap)
  }

  /** Ids strictly decrease from the front: newest first, none repeated. */
  ghost predicate NewestFirst(history: seq<LogEntry>) {
    forall i, j :: 0 <= i < j < |history| ==> history[i].id > history[j].id
  }

  /** Sealing an entry newer than the whole history keeps it newest-first. */
  lemma SealedNewestFirst(entry: LogEntry, history: seq<LogEntry>)
    requires NewestFirst(history)
    requires forall i :: 0 <= i < |history| ==> history[i].id < entry.id
    ensures NewestFirst(Sealed(entry, history))
  {
    var r := Sealed(entry, history);
    forall i, j | 0 <= i < j < |r| ensures r[i].id > r[j].id {
      assert r[j] == history[j - 1];
      if i > 0 {
        assert r[i] == history[i - 1];
      }
    }
  }

  /** On a full history, sealing drops exactly the oldest entry. */
  lemma SealedFullDropsOldest(entry: LogEntry, history: seq<LogEntry>)
    requires |history| == HistoryCap
    requires NewestFirst(history)
    requires forall i :: 0 <= i < |history| ==> history[i].id < entry.id
    ensures Sealed(entry, history) == [entry] + history[..HistoryCap - 1]
    ensures history[HistoryCap - 1] !in Sealed(entry, history)
  {
    var r := Sealed(entry, history);
    assert r == [entry] + history[..HistoryCap - 1];
    var oldest := history[HistoryCap - 1];
    forall i | 0 <= i < |r| ensures r[i].id != oldest.id {
      if i > 0 {
        assert r[i] == history[i - 1];
      }
    }
  }

  /** The history after sealing `sealed` in order, oldest first, onto `history`. */
  function SealAll(history: seq<LogEntry>, sealed: seq<LogEntry>): seq<LogEntry>
    decreases |sealed|
  {
    if sealed == [] then history else SealAll(Sealed(sealed[0], history), sealed[1..])
  }

  function Reversed<T>(s: seq<T>): seq<T>
    decreases |s|
  {
    if s == [] then [] else Reversed(s[1..]) + [s[0]]
  }

  lemma TakeAfterTake<T>(a: seq<T>, b: seq<T>, n: nat)
    ensures Take(a + Take(b, n), n) == Take(a + b, n)
  {
    if |b| > n {
      assert (a + b[..n])[..n] == (a + b)[..n];
    }
  }

  /**
   * Sealing many entries onto a history within the cap leaves the 50 most
   * recently sealed ones, newest first, followed by what is left of the old history.
   */
  lemma {:induction false} SealAllKeepsNewest(history: seq<LogEntry>, sealed: seq<LogEntry>)
    requires |history| <= HistoryCap
    ensures SealAll(history, sealed) == Take(Reversed(sealed) + history, HistoryCap)
    decreases |sealed|
  {
    if sealed != [] {
      var e, rest := sealed[0], sealed[1..];
      SealAllKeepsNewest(Sealed(e, history), rest);
      TakeAfterTake(Reversed(rest), [e] + history, HistoryCap);
      assert Reversed(sealed) == Reversed(rest) + [e];
      assert Reversed(rest) + ([e] + history) == Reversed(sealed) + history;
    }
  }

  // ----- The aggregator's module state -----

  class RenderLog {
    /** The sealed history, newest first. */
    var entries: seq<LogEntry>
    /** Counts the reassignments of `entries`: the identity of the array `getSnapshot` returns. */
    var entriesVersion: nat
    var current: Option<LogEntry>
    /** The delay of the armed close timer, if one is armed. */
    var timer: Option<nat>
    var nextId: nat
    /** Dedup keys of the cells already counted in the open entry. */
    var reported: set<string>
    var listeners: set<ListenerId>
    var calls: map<ListenerId, nat>
    var emits: nat

    /** The id every sealed entry lies below: the open entry's id, or the next id. */
    function OpenBound(): nat
      reads this
    {
      if current.Some? then current.value.id else nextId
    }

    ghost predicate Valid()
      reads this
    {
      && |entries| <= HistoryCap
      && NewestFirst(entries)
      && (forall i :: 0 <= i < |entries| ==> entries[i].id < OpenBound())
      && (current.Some? <==> timer.Some?)
      && (timer.Some? ==> timer.value == ActionQuietMs || timer.value == RenderQuietMs)
      && (current.None? ==> reported == {})
      && (current.Some? ==> current.value.id + 1 == nextId && current.value.counts == CountsOf(reported))
      && WellFormedKeys(reported)
    }

    /** The open entry has counted each distinct cell once: its counts add up to the dedup set's size. */
    lemma OpenEntryTotal()
      requires Valid() && current.Some?
      ensures current.value.counts.Total() == |reported|
    {
      CountsOfTotal(reported);
    }

    /** The module's initial state. */
    constructor ()
      ensures Valid()
      ensures entries == [] && current == None && timer == None && nextId == 0 && reported == {}
      ensures listeners == {} && calls == map[] && emits == 0 && entriesVersion == 0
    {
      entries := [];
      entriesVersion := 0;
      current := None;
      timer := None;
      nextId := 0;
      reported := {};
      listeners := {};
      calls := map[];
      emits := 0;
    }

    /** Calls every registered listener exactly once. */
    method Emit()
      modifies this`calls, this`emits
      ensures calls == Delivered(old(calls), listeners)
      ensures emits == old(emits) + 1
    {
      var pending := listeners;
      while pending != {}
        invariant pending <= listeners
        invariant calls == Delivered(old(calls), listeners - pending)
        invariant emits == old(emits)
        decreases pending
      {
        var l :| l in pending;
        DeliveredStep(old(calls), listeners - pending, l);
        assert listeners - pending + {l} == listeners - (pending - {l});
        calls := calls[l := Times(calls, l) + 1];
        pending := pending - {l};
      }
      emits := emits + 1;
    }

    /**
     * `closeEntry`: with no open entry, nothing happens. Otherwise the timer is
     * cancelled, the entry is sealed into the history, the dedup set is
     * emptied and the listeners are told once.
     */
    method CloseEntry()
      requires Valid()
      modifies this
      ensures Valid()
      ensures old(current).None? ==> unchanged(this)
      ensures old(current).Some? ==>
        && entries == Sealed(old(current).value, old(entries))
        && entriesVersion == old(entriesVersion) + 1
        && current == None && timer == None && reported == {}
        && calls == Delivered(old(calls), listeners) && emits == old(emits) + 1
      ensures nextId == old(nextId) && listeners == old(listeners)
    {
      if current.None? {
        return;
      }
      timer := None;
      SealedNewestFirst(current.value, entries);
      entries := Sealed(current.value, entries);
      entriesVersion := entriesVersion + 1;
      current := None;
      reported := {};
      Emit();
    }

    /** The armed timer goes off: the open entry is sealed. */
    method Fire()
      requires Valid() && timer.Some?
      modifies this
      ensures Valid()
      ensures old(current).Some?
      ensures entries == Sealed(old(current).value, old(entries)) && entriesVersion == old(entriesVersion) + 1
      ensures current == None && timer == None && reported == {}
      ensures calls == Delivered(old(calls), listeners) && emits == old(emits) + 1
      ensures nextId == old(nextId) && listeners == old(listeners)
    {
      CloseEntry();
    }

    /**
     * `logAction(action)`: seals any open entry, then opens a fresh one with
     * the next id and zero counts and arms the 120 ms timer. `time` is the
     * caller's timestamp.
     */
    method LogAction(action: string, time: string)
      requires Valid()
      modifies this
      ensures Valid()
      ensures entries == if old(current).Some? then Sealed(old(current).value, old(entries)) else old(entries)
      ensures current == Some(LogEntry(old(nextId), time, action, ZeroCounts()))
      ensures forall i :: 0 <= i < |entries| ==> entries[i].id < current.value.id
      ensures nextId == old(nextId) + 1
      ensures reported == {} && timer == Some(ActionQuietMs)
      ensures old(current).Some? ==> calls == Delivered(old(calls), listeners) && emits == old(emits) + 1
      ensures old(current).None? ==> calls == old(calls) && emits == old(emits)
      ensures entriesVersion == old(entriesVersion) + (if old(current).Some? then 1 else 0)
      ensures listeners == old(listeners)
    {
      if current.Some? {
        CloseEntry();
      }
      reported := {};
      current := Some(LogEntry(nextId, time, action, ZeroCounts()));
      nextId := nextId + 1;
      timer := Some(ActionQuietMs);
    }

    /**
     * `logRender(pattern, cellId)`: ignored with no open entry and for a cell
     * already counted; otherwise the cell is counted under its pattern and the
     * timer is re-armed at 60 ms. Never notifies.
     */
    method LogRender(pattern: PatternKey, cellId: string)
      requires Valid()
      modifies this
      ensures Valid()
      ensures old(current).None? || CellKey(pattern, cellId) in old(reported) ==> unchanged(this)
      ensures old(current).Some? && CellKey(pattern, cellId) !in old(reported) ==>
        && reported == old(reported) + {CellKey(pattern, cellId)}
        && current == Some(old(current).value.(counts := old(current).value.counts.Incr(pattern)))
        && timer == Some(RenderQuietMs)
      ensures entries == old(entries) && entriesVersion == old(entriesVersion) && nextId == old(nextId)
      ensures calls == old(calls) && emits == old(emits) && listeners == old(listeners)
    {
      if current.None? {
        return;
      }
      var key := CellKey(pattern, cellId);
      if key in reported {
        return;
      }
      CellKeyPattern(pattern, cellId);
      CountsOfAdd(reported, key, pattern);
      reported := reported + {key};
      current := Some(current.value.(counts := current.value.counts.Incr(pattern)));
      timer := Some(RenderQuietMs);
    }

    method Subscribe(l: ListenerId)
      modifies this`listeners
      ensures listeners == old(listeners) + {l}
    {
      listeners := listeners + {l};
    }

    /** The function `subscribe` returns. */
    method Unsubscribe(l: ListenerId)
      modifies this`listeners
      ensures listeners == old(listeners) - {l}
    {
      listeners := listeners - {l};
    }

    /** `getSnapshot()`: the history array, by reference; newest first and within the cap. */
    method GetSnapshot() returns (snapshot: Ref<seq<LogEntry>>)
      requires Valid()
      ensures snapshot.version == entriesVersion && snapshot.value == entries
      ensures |snapshot.value| <= HistoryCap && NewestFirst(snapshot.value)
    {
      snapshot := Ref(entriesVersion, entries);
    }

    /** `clearLog()`: a new empty history and one notification; the open entry is left alone. */
    method ClearLog()
      requires Valid()
      modifies this
      ensures Valid()
      ensures entries == [] && entriesVersion == old(entriesVersion) + 1
      ensures current == old(current) && reported == old(reported) && timer == old(timer)
      ensures nextId == old(nextId) && listeners == old(listeners)
      ensures calls == Delivered(old(calls), listeners) && emits == old(emits) + 1
    {
      entries := [];
      entriesVersion := entriesVersion + 1;
      Emit();
    }
  }

  /**
   * A render signal fired twice for one commit (StrictMode runs effects
   * twice): the pattern's count rises by one at most, other counts stay, and
   * the history is not touched.
   */
  method DoubleFire(log: RenderLog, pattern: PatternKey, cellId: string)
    requires log.Valid() && log.current.Some?
    modifies log
    ensures log.Valid() && log.current.Some?
    ensures log.current.value.counts.Get(pattern)
         == old(log.current.value.counts.Get(pattern)) + (if CellKey(pattern, cellId) in old(log.reported) then 0 else 1)
    ensures forall q :: q != pattern ==> log.current.value.counts.Get(q) == old(log.current.value.counts.Get(q))
    ensures log.entries == old(log.entries) && log.emits == old(log.emits)
  {
    log.LogRender(pattern, cellId);
    log.LogRender(pattern, cellId);
  }
}
