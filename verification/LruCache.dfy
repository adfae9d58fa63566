/**
 The expiring cache: a concurrent map, a separate atomic item counter, and a cleaner goroutine that
 the insert taking the counter from 0 to 1 starts and that stops itself when it sees 0.

 A run is any interleaving of the atomic operations of all callers and all cleaners.  The fields of
 `State` say which threads stand between which two atomic operations.  Which entries a sweep finds
 expired is left open, so every sweep the clock and the acquire counts allow is covered.
 */
module LruCache {
  import opened Common

  type Key = nat
  type Entry = nat
  type Ticker = nat

  /** A caller of the cache, or the cleaner goroutine that listens to a ticker. */
  datatype Thread = Caller(id: nat) | Cleaner(ticker: Ticker)

  /** A caller that has put its ticker into the cache: first it stops the one it replaced, then it
      starts the goroutine. */
  datatype Launch = Swapped(ticker: Ticker, prev: Option<Ticker>) | Spawning(ticker: Ticker)

  datatype Phase = Waiting | Sweeping | Checking | Leaving | Stopping

  datatype State = State(
    resident: map<Key, Entry>,        // the concurrent map
    count: int,                       // itemCount
    cleanup: Option<Ticker>,          // cleanupTicker
    running: set<Ticker>,             // tickers not stopped yet
    fired: set<Ticker>,               // a tick waits in the channel, also of a ticker stopped since
    nextTicker: nat,
    inserted: set<Thread>,            // stored a new key, counter not yet incremented
    removed: map<Thread, Entry>,      // removed a key, counter not yet decremented
    evicting: map<Thread, Entry>,     // about to call Evict
    starting: set<Thread>,            // saw the counter become 1, ticker not yet swapped in
    launching: map<Thread, Launch>,
    cleaners: map<Ticker, Phase>,
    stored: set<Entry>,               // every entry ever put into the map
    evicted: seq<Entry>)              // every call of Evict

  /** Operations on the map and their consequences. */
  datatype MapEvent =
    | LoadOrStore(caller: nat, key: Key, entry: Entry)
    | Swap(caller: nat, key: Key, entry: Entry)
    | LoadAndDelete(caller: nat, key: Key)
    | CompareAndDelete(ticker: Ticker, key: Key, entry: Entry)
    | Decrement(thread: Thread)
    | Evict(thread: Thread)

  /** The increment after an insert, and the life of the cleaner. */
  datatype CleanerEvent =
    | Increment(thread: Thread)
    | SwapTicker(thread: Thread)
    | StopPrevious(thread: Thread)
    | Go(thread: Thread)
    | Fire(ticker: Ticker)
    | Tick(ticker: Ticker)
    | SweepDone(ticker: Ticker)
    | LoadCount(ticker: Ticker)
    | ClearTicker(ticker: Ticker)
    | StopTicker(ticker: Ticker)

  datatype Event = OnMap(m: MapEvent) | OnCleaner(c: CleanerEvent)

  const INITIAL := State(map[], 0, None, {}, {}, 0, {}, map[], map[], {}, map[], map[], {}, [])

  predicate Busy(s: State, t: Thread) {
    t in s.inserted || t in s.removed || t in s.evicting || t in s.starting || t in s.launching
  }

  /** Store under a key that is not present: the increment follows. */
  function StoreNew(s: State, t: Thread, k: Key, e: Entry): State {
    s.(resident := s.resident[k := e], stored := s.stored + {e}, inserted := s.inserted + {t})
  }

  /** Take a present key out of the map: decrement and Evict follow. */
  function TakeOut(s: State, t: Thread, k: Key): State
    requires k in s.resident
  {
    s.(resident := s.resident - {k}, removed := s.removed[t := s.resident[k]])
  }

  predicate InPhase(s: State, t: Ticker, p: Phase) {
    t in s.cleaners && s.cleaners[t] == p
  }

  /** An event that the thread named in it cannot take at this point leaves the state as it is;
      stored entries are fresh. */
  function MapStep(s: State, event: MapEvent): State {
    match event
    case LoadOrStore(c, k, e) =>
      if Busy(s, Caller(c)) || e in s.stored || k in s.resident then s
      else StoreNew(s, Caller(c), k, e)
    case Swap(c, k, e) =>
      if Busy(s, Caller(c)) || e in s.stored then s
      else if k !in s.resident then StoreNew(s, Caller(c), k, e)
      else s.(resident := s.resident[k := e], stored := s.stored + {e},
              evicting := s.evicting[Caller(c) := s.resident[k]])
    case LoadAndDelete(c, k) =>
      if Busy(s, Caller(c)) || k !in s.resident then s else TakeOut(s, Caller(c), k)
    case CompareAndDelete(t, k, e) =>
      if InPhase(s, t, Sweeping) && !Busy(s, Cleaner(t)) && k in s.resident && s.resident[k] == e
      then TakeOut(s, Cleaner(t), k) else s
    case Decrement(t) =>
      if t !in s.removed then s
      else s.(removed := s.removed - {t}, count := s.count - 1, evicting := s.evicting[t := s.removed[t]])
    case Evict(t) =>
      if t !in s.evicting then s
      else s.(evicting := s.evicting - {t}, evicted := s.evicted + [s.evicting[t]])
  }

  /** `sweeps` says whether CleanupInterval is positive. */
  function CleanerStep(sweeps: bool, s: State, event: CleanerEvent): State {
    match event
    case Increment(t) =>
      if t !in s.inserted then s
      else
        s.(inserted := s.inserted - {t}, count := s.count + 1,
           starting := if s.count + 1 == 1 && sweeps then s.starting + {t} else s.starting)
    case SwapTicker(t) =>
      if t !in s.starting then s
      else
        s.(starting := s.starting - {t}, cleanup := Some(s.nextTicker),
           running := s.running + {s.nextTicker}, nextTicker := s.nextTicker + 1,
           launching := s.launching[t := Swapped(s.nextTicker, s.cleanup)])
    case StopPrevious(t) =>
      if t !in s.launching || !s.launching[t].Swapped? then s
      else
        var Swapped(ticker, prev) := s.launching[t];
        s.(running := if prev.Some? then s.running - {prev.value} else s.running,
           launching := s.launching[t := Spawning(ticker)])
    case Go(t) =>
      if t !in s.launching || !s.launching[t].Spawning? then s
      else s.(launching := s.launching - {t}, cleaners := s.cleaners[s.launching[t].ticker := Waiting])
    case Fire(t) =>
      if t in s.running then s.(fired := s.fired + {t}) else s
    case Tick(t) =>
      if InPhase(s, t, Waiting) && t in s.fired
      then s.(cleaners := s.cleaners[t := Sweeping], fired := s.fired - {t}) else s
    case SweepDone(t) =>
      if InPhase(s, t, Sweeping) && !Busy(s, Cleaner(t)) then s.(cleaners := s.cleaners[t := Checking]) else s
    case LoadCount(t) =>
      if InPhase(s, t, Checking)
      then s.(cleaners := s.cleaners[t := if s.count == 0 then Leaving else Waiting]) else s
    case ClearTicker(t) =>
      if InPhase(s, t, Leaving)
      then s.(cleanup := if s.cleanup == Some(t) then None else s.cleanup, cleaners := s.cleaners[t := Stopping])
      else s
    case StopTicker(t) =>
      if InPhase(s, t, Stopping) then s.(running := s.running - {t}, cleaners := s.cleaners - {t}) else s
  }

  /** One atomic operation. */
  function Step(sweeps: bool, s: State, event: Event): State {
    match event
    case OnMap(m) => MapStep(s, m)
    case OnCleaner(c) => CleanerStep(sweeps, s, c)
  }

  function Run(sweeps: bool, es: seq<Event>): State {
    if es == [] then INITIAL
    else Step(sweeps, Run(sweeps, es[..|es| - 1]), es[|es| - 1])
  }

  // ----- conservation ------------------------------------------------------------------------

  /** The counter is off by exactly the increments and decrements still to come. */
  predicate CountOk(s: State) {
    s.count == |s.resident| - |s.inserted| + |s.removed|
  }

  predicate IsResident(s: State, e: Entry) {
    exists k :: k in s.resident && s.resident[k] == e
  }

  predicate IsRemoved(s: State, e: Entry) {
    exists t :: t in s.removed && s.removed[t] == e
  }

  predicate IsEvicting(s: State, e: Entry) {
    exists t :: t in s.evicting && s.evicting[t] == e
  }

  /** Every place holds an entry at most once. */
  predicate Injective(s: State) {
    && (forall j, k :: j in s.resident && k in s.resident && j != k ==> s.resident[j] != s.resident[k])
    && (forall t, u :: t in s.removed && u in s.removed && t != u ==> s.removed[t] != s.removed[u])
    && (forall t, u :: t in s.evicting && u in s.evicting && t != u ==> s.evicting[t] != s.evicting[u])
    && (forall i, j :: 0 <= i < j < |s.evicted| ==> s.evicted[i] != s.evicted[j])
  }

  /** No entry is in two places. */
  predicate Disjoint(s: State) {
    && (forall k, t :: k in s.resident && t in s.removed ==> s.resident[k] != s.removed[t])
    && (forall k, t :: k in s.resident && t in s.evicting ==> s.resident[k] != s.evicting[t])
    && (forall k :: k in s.resident ==> s.resident[k] !in s.evicted)
    && (forall t, u :: t in s.removed && u in s.evicting ==> s.removed[t] != s.evicting[u])
    && (forall t :: t in s.removed ==> s.removed[t] !in s.evicted)
    && (forall t :: t in s.evicting ==> s.evicting[t] !in s.evicted)
  }

  /** The places together hold exactly the entries ever stored. */
  ghost predicate Complete(s: State) {
    forall e: Entry :: e in s.stored <==> IsResident(s, e) || IsRemoved(s, e) || IsEvicting(s, e) || e in s.evicted
  }

  predicate ThreadsApart(s: State) {
    && s.inserted !! s.removed.Keys
    && s.removed.Keys !! s.evicting.Keys
    && s.inserted !! s.evicting.Keys
    && (s.inserted + s.removed.Keys + s.evicting.Keys) !! (s.starting + s.launching.Keys)
    && s.starting !! s.launching.Keys
  }

  ghost predicate Conserved(s: State) {
    CountOk(s) && Injective(s) && Disjoint(s) && Complete(s) && ThreadsApart(s)
  }

  lemma StoreStepCounts(s: State, s': State, t: Thread, k: Key, e: Entry)
    requires CountOk(s) && k !in s.resident && t !in s.inserted && s' == StoreNew(s, t, k, e)
    ensures CountOk(s')
  {
  }

  lemma SwapStepCounts(s: State, s': State, k: Key, e: Entry)
    requires CountOk(s) && k in s.resident && s'.resident == s.resident[k := e]
    requires s'.count == s.count && s'.inserted == s.inserted && s'.removed == s.removed
    ensures CountOk(s')
  {
  }

  lemma TakeOutStepCounts(s: State, t: Thread, k: Key)
    requires CountOk(s) && k in s.resident && t !in s.removed
    ensures CountOk(TakeOut(s, t, k))
  {
  }

  lemma DecrementCounts(s: State, t: Thread)
    requires CountOk(s) && t in s.removed
    ensures CountOk(MapStep(s, Decrement(t)))
  {
  }

  lemma CountStep(s: State, event: MapEvent)
    requires CountOk(s)
    ensures CountOk(MapStep(s, event))
  {
    var s' := MapStep(s, event);
    if s' != s {
      match event
      case LoadOrStore(c, k, e) => StoreStepCounts(s, s', Caller(c), k, e);
      case Swap(c, k, e) =>
        if k in s.resident {
          SwapStepCounts(s, s', k, e);
        } else {
          StoreStepCounts(s, s', Caller(c), k, e);
        }
      case LoadAndDelete(c, k) => TakeOutStepCounts(s, Caller(c), k);
      case CompareAndDelete(t, k, e) => TakeOutStepCounts(s, Cleaner(t), k);
      case Decrement(t) => DecrementCounts(s, t);
      case Evict(t) => assert s'.resident == s.resident && s'.inserted == s.inserted && s'.removed == s.removed;
    }
  }

  lemma ApartMap(s: State, event: MapEvent)
    requires ThreadsApart(s)
    ensures ThreadsApart(MapStep(s, event))
  {
  }

  /** Nothing in the four places is unknown to `stored`. */
  predicate Known(s: State) {
    && (forall k :: k in s.resident ==> s.resident[k] in s.stored)
    && (forall t :: t in s.removed ==> s.removed[t] in s.stored)
    && (forall t :: t in s.evicting ==> s.evicting[t] in s.stored)
    && (forall i :: 0 <= i < |s.evicted| ==> s.evicted[i] in s.stored)
  }

  lemma CompleteIsKnown(s: State)
    requires Complete(s)
    ensures Known(s)
  {
  }

  lemma StorePlaces(s: State, t: Thread, k: Key, e: Entry)
    requires Injective(s) && Disjoint(s) && Known(s) && e !in s.stored && k !in s.resident
    ensures Injective(StoreNew(s, t, k, e)) && Disjoint(StoreNew(s, t, k, e))
  {
  }

  lemma ReplacePlaces(s: State, s': State, t: Thread, k: Key, e: Entry)
    requires Injective(s) && Disjoint(s) && Known(s) && e !in s.stored && k in s.resident && t !in s.evicting
    requires s'.resident == s.resident[k := e] && s'.evicting == s.evicting[t := s.resident[k]]
    requires s'.removed == s.removed && s'.evicted == s.evicted
    ensures Injective(s') && Disjoint(s')
  {
  }

  lemma TakeOutPlaces(s: State, t: Thread, k: Key)
    requires Injective(s) && Disjoint(s) && k in s.resident && t !in s.removed
    ensures Injective(TakeOut(s, t, k)) && Disjoint(TakeOut(s, t, k))
  {
  }

  lemma DecrementPlaces(s: State, s': State, t: Thread)
    requires Injective(s) && Disjoint(s) && t in s.removed && t !in s.evicting
    requires s'.resident == s.resident && s'.evicted == s.evicted
    requires s'.removed == s.removed - {t} && s'.evicting == s.evicting[t := s.removed[t]]
    ensures Injective(s') && Disjoint(s')
  {
  }

  lemma EvictPlaces(s: State, s': State, t: Thread)
    requires Injective(s) && Disjoint(s) && t in s.evicting
    requires s'.resident == s.resident && s'.removed == s.removed
    requires s'.evicting == s.evicting - {t} && s'.evicted == s.evicted + [s.evicting[t]]
    ensures Injective(s') && Disjoint(s')
  {
  }

  lemma CallerPlaces(s: State, event: MapEvent)
    requires Injective(s) && Disjoint(s) && Known(s) && ThreadsApart(s)
    requires event.LoadOrStore? || event.Swap?
    ensures Injective(MapStep(s, event)) && Disjoint(MapStep(s, event))
  {
    var s' := MapStep(s, event);
    if s' != s {
      if event.key in s.resident {
        ReplacePlaces(s, s', Caller(event.caller), event.key, event.entry);
      } else {
        StorePlaces(s, Caller(event.caller), event.key, event.entry);
      }
    }
  }

  lemma PlacesStep(s: State, event: MapEvent)
    requires Injective(s) && Disjoint(s) && Known(s) && ThreadsApart(s)
    ensures Injective(MapStep(s, event)) && Disjoint(MapStep(s, event))
  {
    var s' := MapStep(s, event);
    if event.LoadOrStore? || event.Swap? {
      CallerPlaces(s, event);
    } else if s' != s {
      match event
      case LoadAndDelete(c, k) => TakeOutPlaces(s, Caller(c), k);
      case CompareAndDelete(t, k, e) => TakeOutPlaces(s, Cleaner(t), k);
      case Decrement(t) => DecrementPlaces(s, s', t);
      case Evict(t) => EvictPlaces(s, s', t);
    }
  }

  /** A store adds its entry and moves the one it replaces, if any, towards Evict. */
  lemma StoreComplete(s: State, s': State, k: Key, e: Entry, t: Thread)
    requires Complete(s) && e !in s.stored
    requires s'.resident == s.resident[k := e] && s'.stored == s.stored + {e}
    requires s'.removed == s.removed && s'.evicted == s.evicted && t !in s.evicting
    requires s'.evicting == if k in s.resident then s.evicting[t := s.resident[k]] else s.evicting
    ensures Complete(s')
  {
    forall x: Entry
      ensures x in s'.stored <==> IsResident(s', x) || IsRemoved(s', x) || IsEvicting(s', x) || x in s'.evicted
    {
      assert s'.resident[k] == e;
      if j :| j in s.resident && s.resident[j] == x {
        if j == k {
          assert s'.evicting[t] == x;
        } else {
          assert s'.resident[j] == x;
        }
      }
      if j :| j in s'.resident && s'.resident[j] == x && j != k {
        assert s.resident[j] == x;
      }
      if u :| u in s.evicting && s.evicting[u] == x {
        assert s'.evicting[u] == x;
      }
      if u :| u in s'.evicting && s'.evicting[u] == x {
        assert u in s.evicting || s.resident[k] == x;
      }
    }
  }

  lemma TakeOutComplete(s: State, t: Thread, k: Key)
    requires Complete(s) && k in s.resident && t !in s.removed
    ensures Complete(TakeOut(s, t, k))
  {
    var s' := TakeOut(s, t, k);
    forall x: Entry
      ensures x in s'.stored <==> IsResident(s', x) || IsRemoved(s', x) || IsEvicting(s', x) || x in s'.evicted
    {
      assert s'.removed[t] == s.resident[k];
      if j :| j in s.resident && s.resident[j] == x && j != k {
        assert s'.resident[j] == x;
      }
      if u :| u in s.removed && s.removed[u] == x {
        assert s'.removed[u] == x;
      }
      if u :| u in s'.removed && s'.removed[u] == x && u != t {
        assert s.removed[u] == x;
      }
    }
  }

  lemma DecrementComplete(s: State, t: Thread)
    requires Complete(s) && t in s.removed && t !in s.evicting
    ensures Complete(MapStep(s, Decrement(t)))
  {
    var s' := MapStep(s, Decrement(t));
    forall x: Entry
      ensures x in s'.stored <==> IsResident(s', x) || IsRemoved(s', x) || IsEvicting(s', x) || x in s'.evicted
    {
      assert s'.evicting[t] == s.removed[t];
      if u :| u in s.removed && s.removed[u] == x && u != t {
        assert s'.removed[u] == x;
      }
      if u :| u in s.evicting && s.evicting[u] == x {
        assert s'.evicting[u] == x;
      }
      if u :| u in s'.evicting && s'.evicting[u] == x && u != t {
        assert s.evicting[u] == x;
      }
    }
  }

  lemma EvictComplete(s: State, t: Thread)
    requires Complete(s) && t in s.evicting
    ensures Complete(MapStep(s, Evict(t)))
  {
    var s' := MapStep(s, Evict(t));
    forall x: Entry
      ensures x in s'.stored <==> IsResident(s', x) || IsRemoved(s', x) || IsEvicting(s', x) || x in s'.evicted
    {
      if u :| u in s.evicting && s.evicting[u] == x && u != t {
        assert s'.evicting[u] == x;
      }
      if u :| u in s'.evicting && s'.evicting[u] == x {
        assert s.evicting[u] == x;
      }
    }
  }

  lemma CompleteStep(s: State, event: MapEvent)
    requires Complete(s) && ThreadsApart(s)
    ensures Complete(MapStep(s, event))
  {
    var s' := MapStep(s, event);
    if s' != s {
      match event
      case LoadOrStore(c, k, e) => StoreComplete(s, s', k, e, Caller(c));
      case Swap(c, k, e) => StoreComplete(s, s', k, e, Caller(c));
      case LoadAndDelete(c, k) => TakeOutComplete(s, Caller(c), k);
      case CompareAndDelete(t, k, e) => TakeOutComplete(s, Cleaner(t), k);
      case Decrement(t) => DecrementComplete(s, t);
      case Evict(t) => EvictComplete(s, t);
    }
  }

  predicate SamePlaces(s: State, s': State) {
    && s'.resident == s.resident && s'.removed == s.removed && s'.evicting == s.evicting
    && s'.stored == s.stored && s'.evicted == s.evicted
  }

  lemma CleanerKeepsMap(sweeps: bool, s: State, event: CleanerEvent)
    ensures CleanerStep(sweeps, s, event).resident == s.resident
    ensures CleanerStep(sweeps, s, event).removed == s.removed
  {
    hide InPhase, Busy;
  }

  lemma CleanerKeepsEvictions(sweeps: bool, s: State, event: CleanerEvent)
    ensures CleanerStep(sweeps, s, event).evicting == s.evicting
    ensures CleanerStep(sweeps, s, event).evicted == s.evicted
  {
    hide InPhase, Busy;
  }

  lemma CleanerKeepsStored(sweeps: bool, s: State, event: CleanerEvent)
    ensures CleanerStep(sweeps, s, event).stored == s.stored
  {
    hide InPhase, Busy;
  }

  lemma CleanerKeepsPlaces(sweeps: bool, s: State, event: CleanerEvent)
    ensures SamePlaces(s, CleanerStep(sweeps, s, event))
  {
    hide CleanerStep;
    CleanerKeepsMap(sweeps, s, event);
    CleanerKeepsEvictions(sweeps, s, event);
    CleanerKeepsStored(sweeps, s, event);
  }

  lemma SameComplete(s: State, s': State)
    requires Complete(s) && SamePlaces(s, s')
    ensures Complete(s')
  {
  }

  lemma SameInjective(s: State, s': State)
    requires Injective(s) && Disjoint(s) && SamePlaces(s, s')
    ensures Injective(s') && Disjoint(s')
  {
  }

  /** Apart from the pending increments, the cleaner's own operations touch none of it. */
  lemma CleanerConserves(sweeps: bool, s: State, event: CleanerEvent)
    ensures Conserved(s) ==> Conserved(CleanerStep(sweeps, s, event))
  {
    if Conserved(s) {
      var s' := CleanerStep(sweeps, s, event);
      CleanerKeepsPlaces(sweeps, s, event);
      SameComplete(s, s');
      SameInjective(s, s');
      CleanerCount(sweeps, s, event);
      ApartCleaner(sweeps, s, event);
    }
  }

  lemma CleanerCount(sweeps: bool, s: State, event: CleanerEvent)
    requires CountOk(s)
    ensures CountOk(CleanerStep(sweeps, s, event))
  {
  }

  lemma ApartCleaner(sweeps: bool, s: State, event: CleanerEvent)
    requires ThreadsApart(s)
    ensures ThreadsApart(CleanerStep(sweeps, s, event))
  {
  }

  lemma MapConserves(s: State, event: MapEvent)
    ensures Conserved(s) ==> Conserved(MapStep(s, event))
  {
    if Conserved(s) {
      CountStep(s, event);
      ApartMap(s, event);
      CompleteIsKnown(s);
      PlacesStep(s, event);
      CompleteStep(s, event);
    }
  }

  lemma {:induction false} RunConserves(sweeps: bool, es: seq<Event>)
    ensures Conserved(Run(sweeps, es))
  {
    if es == [] {
    } else {
      var s := Run(sweeps, es[..|es| - 1]);
      RunConserves(sweeps, es[..|es| - 1]);
      match es[|es| - 1]
      case OnMap(m) => MapConserves(s, m);
      case OnCleaner(c) => CleanerConserves(sweeps, s, c);
    }
  }

  /** No caller and no sweep stands between two of its atomic operations. */
  predicate Quiescent(s: State) {
    s.inserted == {} && s.removed == map[] && s.evicting == map[] && s.starting == {} && s.launching == map[]
  }

  /** In every run the counter differs from the map size by exactly the pending increments and
      decrements, and no entry is handed to Evict twice or while it can still be found. */
  lemma CounterAndEvictions(sweeps: bool, es: seq<Event>)
    ensures
      var s := Run(sweeps, es);
      && s.count == |s.resident| - |s.inserted| + |s.removed|
      && (forall i, j :: 0 <= i < j < |s.evicted| ==> s.evicted[i] != s.evicted[j])
      && (forall k :: k in s.resident ==> s.resident[k] !in s.evicted)
  {
    RunConserves(sweeps, es);
  }

  /** With no operation in flight the counter is the map size, and the entries ever stored are
      exactly those resident and those evicted. */
  lemma QuiescentConservation(sweeps: bool, es: seq<Event>)
    requires Quiescent(Run(sweeps, es))
    ensures
      var s := Run(sweeps, es);
      && s.count == |s.resident|
      && (forall e: Entry :: e in s.stored <==> IsResident(s, e) || e in s.evicted)
      && |s.stored| == |s.resident| + |s.evicted|
  {
    RunConserves(sweeps, es);
    StoredCount(Run(sweeps, es));
  }

  lemma StoredCount(s: State)
    requires Injective(s) && Disjoint(s) && Complete(s)
    requires s.removed == map[] && s.evicting == map[]
    ensures forall e: Entry :: e in s.stored <==> IsResident(s, e) || e in s.evicted
    ensures |s.stored| == |s.resident| + |s.evicted|
  {
    forall e: Entry ensures e in s.stored <==> IsResident(s, e) || e in s.evicted {
    }
    StoredIsUnion(s);
    EvictedApart(s);
    DistinctCount(s.evicted);
    ValuesCount(s.resident);
  }

  lemma StoredIsUnion(s: State)
    requires forall e: Entry :: e in s.stored <==> IsResident(s, e) || e in s.evicted
    ensures s.stored == s.resident.Values + Elements(s.evicted)
  {
  }

  lemma EvictedApart(s: State)
    requires forall k :: k in s.resident ==> s.resident[k] !in s.evicted
    ensures s.resident.Values !! Elements(s.evicted)
  {
  }

  function Elements(es: seq<Entry>): (r: set<Entry>)
    ensures forall e :: e in r <==> e in es
  {
    if es == [] then {} else {es[0]} + Elements(es[1..])
  }

  lemma {:induction false} DistinctCount(es: seq<Entry>)
    requires forall i, j :: 0 <= i < j < |es| ==> es[i] != es[j]
    ensures |Elements(es)| == |es|
  {
    if es == [] {
    } else {
      DistinctCount(es[1..]);
      assert es[0] !in es[1..];
    }
  }

  lemma {:induction false} ValuesCount(m: map<Key, Entry>)
    requires forall j, k :: j in m && k in m && j != k ==> m[j] != m[k]
    ensures |m.Values| == |m|
    decreases |m|
  {
    if m == map[] {
      assert m.Values == {};
    } else {
      var k :| k in m;
      var rest := m - {k};
      assert rest.Keys == m.Keys - {k};
      ValuesCount(rest);
      forall e ensures e in m.Values <==> e == m[k] || e in rest.Values {
        if j :| j in m && m[j] == e && j != k {
          assert j in rest && rest[j] == e;
        }
      }
      assert m.Values == rest.Values + {m[k]};
    }
  }

  // ----- the cleaner -------------------------------------------------------------------------

  predicate Launches(s: State, ticker: Ticker) {
    exists t :: t in s.launching && s.launching[t].ticker == ticker
  }

  predicate Loops(s: State, ticker: Ticker) {
    ticker in s.cleaners && !s.cleaners[ticker].Leaving? && !s.cleaners[ticker].Stopping?
  }

  /** Some thread is about to install a cleaner, or the installed ticker runs and its goroutine is
      being launched or has not decided to exit. */
  predicate Attended(s: State) {
    || s.starting != {}
    || (s.cleanup.Some? && s.cleanup.value in s.running
        && (Launches(s, s.cleanup.value) || Loops(s, s.cleanup.value)))
  }

  /** The installed ticker runs, and at worst its goroutine has just seen the counter at 0. */
  predicate InstalledOk(s: State) {
    s.cleanup.Some? ==>
      && s.cleanup.value in s.running
      && (Launches(s, s.cleanup.value) || Loops(s, s.cleanup.value) || InPhase(s, s.cleanup.value, Leaving))
  }

  /** Every goroutine has a ticker of its own, and none is reused. */
  predicate TickersApart(s: State) {
    && (s.cleanup.Some? ==> s.cleanup.value < s.nextTicker)
    && (forall t :: t in s.running ==> t < s.nextTicker)
    && (forall t :: t in s.cleaners ==> t < s.nextTicker)
    && (forall t :: t in s.launching ==>
          s.launching[t].ticker < s.nextTicker && s.launching[t].ticker !in s.cleaners)
    && (forall t, u :: t in s.launching && u in s.launching && t != u ==>
          s.launching[t].ticker != s.launching[u].ticker)
  }

  predicate StopsTicker(s: State, t: Thread, ticker: Ticker) {
    t in s.launching && s.launching[t].Swapped? && s.launching[t].prev == Some(ticker)
  }

  /** Only tickers that are no longer installed are about to be stopped. */
  ghost predicate StopsOk(s: State) {
    && (forall t, ticker: Ticker :: StopsTicker(s, t, ticker) ==> s.cleanup != Some(ticker) && ticker < s.nextTicker)
    && (forall t: Ticker :: InPhase(s, t, Stopping) ==> s.cleanup != Some(t))
  }

  /** Every running ticker is installed or about to be stopped by someone. */
  ghost predicate RunningOk(s: State) {
    forall ticker :: ticker in s.running ==>
      || s.cleanup == Some(ticker)
      || InPhase(s, ticker, Stopping)
      || exists t :: StopsTicker(s, t, ticker)
  }

  ghost predicate CleanerInv(sweeps: bool, s: State) {
    && TickersApart(s) && StopsOk(s) && RunningOk(s) && InstalledOk(s)
    && (sweeps && 1 <= s.count ==> Attended(s))
  }

  predicate SameCleaner(s: State, s': State) {
    && s'.cleanup == s.cleanup && s'.running == s.running && s'.nextTicker == s.nextTicker
    && s'.launching == s.launching && s'.cleaners == s.cleaners && s.starting <= s'.starting
  }

  lemma MapKeepsCleaner(s: State, event: MapEvent)
    ensures SameCleaner(s, MapStep(s, event)) && MapStep(s, event).count <= s.count
    ensures MapStep(s, event).fired == s.fired
  {
  }

  lemma SameCleanerKeepsInv(sweeps: bool, s: State, s': State)
    requires CleanerInv(sweeps, s) && SameCleaner(s, s')
    requires sweeps && s.count < s'.count && s'.count == 1 ==> s'.starting != {}
    requires s'.count <= s.count + 1
    ensures CleanerInv(sweeps, s')
  {
    forall ticker: Ticker | Launches(s, ticker) ensures Launches(s', ticker) {
    }
    forall t, ticker: Ticker | StopsTicker(s, t, ticker) ensures StopsTicker(s', t, ticker) {
    }
    forall t, ticker: Ticker | StopsTicker(s', t, ticker) ensures StopsTicker(s, t, ticker) {
    }
  }

  lemma IncrementKeepsCleaner(sweeps: bool, s: State, t: Thread)
    requires CleanerInv(sweeps, s)
    ensures CleanerInv(sweeps, CleanerStep(sweeps, s, Increment(t)))
  {
    SameCleanerKeepsInv(sweeps, s, CleanerStep(sweeps, s, Increment(t)));
  }

  lemma SwapTickerKeepsCleaner(sweeps: bool, s: State, t: Thread)
    requires CleanerInv(sweeps, s) && ThreadsApart(s) && t in s.starting
    ensures CleanerInv(sweeps, CleanerStep(sweeps, s, SwapTicker(t)))
  {
    var s' := CleanerStep(sweeps, s, SwapTicker(t));
    assert s'.launching[t] == Swapped(s.nextTicker, s.cleanup);
    assert Launches(s', s.nextTicker);
    forall u, ticker: Ticker | StopsTicker(s', u, ticker)
      ensures s'.cleanup != Some(ticker) && ticker < s'.nextTicker
    {
      assert u == t || StopsTicker(s, u, ticker);
    }
    forall ticker | ticker in s'.running && s'.cleanup != Some(ticker) && !InPhase(s', ticker, Stopping)
      ensures exists u :: StopsTicker(s', u, ticker)
    {
      if s.cleanup == Some(ticker) {
        assert StopsTicker(s', t, ticker);
      } else {
        var u :| StopsTicker(s, u, ticker);
        assert StopsTicker(s', u, ticker);
      }
    }
  }

  lemma StopPreviousKeepsCleaner(sweeps: bool, s: State, t: Thread)
    requires CleanerInv(sweeps, s) && t in s.launching && s.launching[t].Swapped?
    ensures CleanerInv(sweeps, CleanerStep(sweeps, s, StopPrevious(t)))
  {
    var s' := CleanerStep(sweeps, s, StopPrevious(t));
    assert forall ticker: Ticker :: s.launching[t].prev == Some(ticker) ==> StopsTicker(s, t, ticker);
    forall ticker: Ticker | Launches(s, ticker) ensures Launches(s', ticker) {
      var u :| u in s.launching && s.launching[u].ticker == ticker;
      assert s'.launching[u].ticker == ticker;
    }
    forall u, ticker: Ticker | StopsTicker(s', u, ticker) ensures StopsTicker(s, u, ticker) {
    }
    forall u, ticker: Ticker | StopsTicker(s, u, ticker) && u != t ensures StopsTicker(s', u, ticker) {
    }
  }

  lemma GoKeepsCleaner(sweeps: bool, s: State, t: Thread)
    requires CleanerInv(sweeps, s) && t in s.launching && s.launching[t].Spawning?
    ensures CleanerInv(sweeps, CleanerStep(sweeps, s, Go(t)))
  {
    var s' := CleanerStep(sweeps, s, Go(t));
    assert Loops(s', s.launching[t].ticker);
    forall ticker: Ticker | Launches(s, ticker) && ticker != s.launching[t].ticker ensures Launches(s', ticker) {
      var u :| u in s.launching && s.launching[u].ticker == ticker;
      assert u in s'.launching;
    }
    forall u, ticker: Ticker | StopsTicker(s', u, ticker) ensures StopsTicker(s, u, ticker) {
    }
    forall u, ticker: Ticker | StopsTicker(s, u, ticker) ensures StopsTicker(s', u, ticker) {
    }
  }

  /** Moving one goroutine from a phase to the next. */
  lemma PhaseKeepsCleaner(sweeps: bool, s: State, s': State, t: Ticker, p: Phase)
    requires CleanerInv(sweeps, s) && t in s.cleaners
    requires s' == s.(cleaners := s.cleaners[t := p], fired := s'.fired)
    requires !s.cleaners[t].Leaving? && !s.cleaners[t].Stopping? && !p.Stopping?
    requires p.Leaving? ==> s.count == 0
    ensures CleanerInv(sweeps, s')
  {
    forall ticker: Ticker | Launches(s, ticker) ensures Launches(s', ticker) {
    }
    forall u, ticker: Ticker | StopsTicker(s', u, ticker) ensures StopsTicker(s, u, ticker) {
    }
    forall u, ticker: Ticker | StopsTicker(s, u, ticker) ensures StopsTicker(s', u, ticker) {
    }
  }

  lemma ClearKeepsCleaner(sweeps: bool, s: State, t: Ticker)
    requires CleanerInv(sweeps, s) && InPhase(s, t, Leaving)
    ensures CleanerInv(sweeps, CleanerStep(sweeps, s, ClearTicker(t)))
  {
    var s' := CleanerStep(sweeps, s, ClearTicker(t));
    forall ticker: Ticker | Launches(s, ticker) ensures Launches(s', ticker) {
    }
    forall u, ticker: Ticker | StopsTicker(s', u, ticker) ensures StopsTicker(s, u, ticker) {
    }
    forall u, ticker: Ticker | StopsTicker(s, u, ticker) ensures StopsTicker(s', u, ticker) {
    }
  }

  lemma StopKeepsCleaner(sweeps: bool, s: State, t: Ticker)
    requires CleanerInv(sweeps, s) && InPhase(s, t, Stopping)
    ensures CleanerInv(sweeps, CleanerStep(sweeps, s, StopTicker(t)))
  {
    var s' := CleanerStep(sweeps, s, StopTicker(t));
    forall ticker: Ticker | Launches(s, ticker) ensures Launches(s', ticker) {
    }
    forall u, ticker: Ticker | StopsTicker(s', u, ticker) ensures StopsTicker(s, u, ticker) {
    }
    forall u, ticker: Ticker | StopsTicker(s, u, ticker) ensures StopsTicker(s', u, ticker) {
    }
  }

  lemma CleanerStepKeepsInv(sweeps: bool, s: State, event: CleanerEvent)
    requires CleanerInv(sweeps, s) && ThreadsApart(s)
    ensures CleanerInv(sweeps, CleanerStep(sweeps, s, event))
  {
    var s' := CleanerStep(sweeps, s, event);
    if s' != s {
      match event
      case Increment(t) => IncrementKeepsCleaner(sweeps, s, t);
      case SwapTicker(t) => SwapTickerKeepsCleaner(sweeps, s, t);
      case StopPrevious(t) => StopPreviousKeepsCleaner(sweeps, s, t);
      case Go(t) => GoKeepsCleaner(sweeps, s, t);
      case Fire(t) => SameCleanerKeepsInv(sweeps, s, s');
      case Tick(t) => PhaseKeepsCleaner(sweeps, s, s', t, Sweeping);
      case SweepDone(t) => PhaseKeepsCleaner(sweeps, s, s', t, Checking);
      case LoadCount(t) => PhaseKeepsCleaner(sweeps, s, s', t, if s.count == 0 then Leaving else Waiting);
      case ClearTicker(t) => ClearKeepsCleaner(sweeps, s, t);
      case StopTicker(t) => StopKeepsCleaner(sweeps, s, t);
    }
  }

  lemma {:induction false} RunKeepsCleaner(sweeps: bool, es: seq<Event>)
    ensures CleanerInv(sweeps, Run(sweeps, es))
  {
    if es == [] {
    } else {
      var before := es[..|es| - 1];
      var s := Run(sweeps, before);
      RunKeepsCleaner(sweeps, before);
      RunConserves(sweeps, before);
      match es[|es| - 1]
      case OnMap(m) =>
        MapKeepsCleaner(s, m);
        SameCleanerKeepsInv(sweeps, s, MapStep(s, m));
      case OnCleaner(c) => CleanerStepKeepsInv(sweeps, s, c);
    }
  }

  /** In every run in which the counter is positive, either some thread is about to install a
      cleaner, or the installed ticker runs and its goroutine is being launched or still looping. */
  lemma CountedItemsAreAttended(es: seq<Event>)
    requires 1 <= Run(true, es).count
    ensures Attended(Run(true, es))
  {
    RunKeepsCleaner(true, es);
  }

  /** With no operation in flight, a cache that holds anything has a looping cleaner whose ticker
      runs, and no other ticker runs except of goroutines that are stopping it. */
  lemma QuiescentCacheIsSwept(es: seq<Event>)
    requires Quiescent(Run(true, es))
    ensures
      var s := Run(true, es);
      && (s.resident != map[] ==>
            s.cleanup.Some? && s.cleanup.value in s.running && Loops(s, s.cleanup.value))
      && (forall t :: t in s.running ==> s.cleanup == Some(t) || InPhase(s, t, Stopping))
  {
    var s := Run(true, es);
    RunKeepsCleaner(true, es);
    QuiescentConservation(true, es);
    if s.resident != map[] {
      var k :| k in s.resident;
      assert |s.resident| != 0;
    }
  }

  // ----- cleaners that never end -------------------------------------------------------------------

  /** The goroutine waits for a tick that cannot come: its ticker was stopped, and none is in the channel. */
  predicate Stuck(s: State, t: Ticker) {
    && InPhase(s, t, Waiting) && t !in s.running && t !in s.fired && t < s.nextTicker
    && forall u :: u in s.launching ==> s.launching[u].ticker != t
  }

  function RunFrom(sweeps: bool, s: State, es: seq<Event>): State
    decreases |es|
  {
    if es == [] then s else RunFrom(sweeps, Step(sweeps, s, es[0]), es[1..])
  }

  lemma StuckOnMap(s: State, event: MapEvent, t: Ticker)
    requires Stuck(s, t)
    ensures Stuck(MapStep(s, event), t)
  {
    MapKeepsCleaner(s, event);
    hide MapStep;
  }

  /** A new ticker is none of those about; no other event gives a goroutine its tick. */
  lemma StuckOnCleaner(sweeps: bool, s: State, event: CleanerEvent, t: Ticker)
    requires Stuck(s, t)
    ensures Stuck(CleanerStep(sweeps, s, event), t)
  {
  }

  lemma {:induction false} StuckForEver(sweeps: bool, s: State, es: seq<Event>, t: Ticker)
    requires Stuck(s, t)
    ensures Stuck(RunFrom(sweeps, s, es), t)
    decreases |es|
  {
    if es != [] {
      match es[0] {
        case OnMap(m) => StuckOnMap(s, m, t);
        case OnCleaner(c) => StuckOnCleaner(sweeps, s, c, t);
      }
      hide Stuck;
      StuckForEver(sweeps, Step(sweeps, s, es[0]), es[1..], t);
    }
  }

  lemma MovesOn(sweeps: bool, s: State, t: Ticker) returns (es: seq<Event>)
    requires InPhase(s, t, Waiting) && (t in s.running || t in s.fired)
    ensures !InPhase(RunFrom(sweeps, s, es), t, Waiting)
  {
    var tick := OnCleaner(Tick(t));
    if t in s.fired {
      es := [tick];
      assert RunFrom(sweeps, s, es) == Step(sweeps, s, tick);
    } else {
      var fire := OnCleaner(Fire(t));
      es := [fire, tick];
      assert es[1..] == [tick];
      var s' := Step(sweeps, s, fire);
      assert RunFrom(sweeps, s', [tick]) == Step(sweeps, s', tick);
    }
  }

  /** In every run, a waiting goroutine ever moves on in some continuation exactly when its ticker still runs or
      has left a tick in the channel; otherwise it waits for ever. */
  lemma CleanerMovesOnIff(sweeps: bool, before: seq<Event>, t: Ticker)
    requires InPhase(Run(sweeps, before), t, Waiting)
    ensures
      var s := Run(sweeps, before);
      (exists es :: !InPhase(RunFrom(sweeps, s, es), t, Waiting)) <==> t in s.running || t in s.fired
  {
    var s := Run(sweeps, before);
    RunKeepsCleaner(sweeps, before);
    if t in s.running || t in s.fired {
      var es := MovesOn(sweeps, s, t);
      assert !InPhase(RunFrom(sweeps, s, es), t, Waiting);
    } else {
      forall es ensures InPhase(RunFrom(sweeps, s, es), t, Waiting) {
        StuckForEver(sweeps, s, es, t);
      }
    }
  }

  lemma RunUnfolds(sweeps: bool, es: seq<Event>, e: Event)
    ensures Run(sweeps, es + [e]) == Step(sweeps, Run(sweeps, es), e)
  {
  }

  lemma RunThree(es: seq<Event>, a: Event, b: Event, c: Event)
    ensures Run(true, es + [a, b, c]) == Step(true, Step(true, Step(true, Run(true, es), a), b), c)
  {
    hide Step;
    RunUnfolds(true, es, a);
    RunUnfolds(true, es + [a], b);
    RunUnfolds(true, es + [a] + [b], c);
    assert es + [a, b, c] == es + [a] + [b] + [c];
  }

  // ----- a cache left alone comes to rest ------------------------------------------------------------

  /** The event begins no operation: it goes on with one, or with the cleaner. */
  predicate GoesOn(e: Event) {
    e.OnCleaner? || e.m.CompareAndDelete? || e.m.Decrement? || e.m.Evict?
  }

  predicate AllGoOn(es: seq<Event>) {
    forall i :: 0 <= i < |es| ==> GoesOn(es[i])
  }

  lemma Extends(es: seq<Event>, e: Event, rest: seq<Event>)
    ensures es + ([e] + rest) == es + [e] + rest
    ensures GoesOn(e) && AllGoOn(rest) ==> AllGoOn([e] + rest)
    ensures Run(true, es + [e]) == Step(true, Run(true, es), e)
  {
    hide Run, Step, GoesOn;
    RunUnfolds(true, es, e);
    Joins(es, [e], rest);
  }

  lemma Joins(es: seq<Event>, a: seq<Event>, b: seq<Event>)
    ensures es + (a + b) == es + a + b
    ensures AllGoOn(a) && AllGoOn(b) ==> AllGoOn(a + b)
    ensures es + [] == es
  {
    hide GoesOn;
  }

  /** Every removed entry is counted. */
  lemma {:induction false} DrainRemoved(es: seq<Event>) returns (more: seq<Event>)
    ensures AllGoOn(more)
    ensures var s, s' := Run(true, es), Run(true, es + more);
      s'.removed == map[] && s'.resident == s.resident
    decreases |Run(true, es).removed|
  {
    hide Run;
    var s := Run(true, es);
    more := [];
    Joins(es, [], []);
    if s.removed != map[] {
      var t :| t in s.removed;
      var e := OnMap(Decrement(t));
      Extends(es, e, []);
      assert |s.removed - {t}| < |s.removed|;
      var rest := DrainRemoved(es + [e]);
      Extends(es, e, rest);
      more := [e] + rest;
    }
  }

  /** Every entry on its way is handed to Evict. */
  lemma {:induction false} DrainEvicting(es: seq<Event>) returns (more: seq<Event>)
    requires var s := Run(true, es); s.removed == map[]
    ensures AllGoOn(more)
    ensures var s, s' := Run(true, es), Run(true, es + more);
      s'.removed == map[] && s'.evicting == map[] && s'.resident == s.resident
    decreases |Run(true, es).evicting|
  {
    hide Run;
    var s := Run(true, es);
    more := [];
    Joins(es, [], []);
    if s.evicting != map[] {
      var t :| t in s.evicting;
      var e := OnMap(Evict(t));
      Extends(es, e, []);
      assert |s.evicting - {t}| < |s.evicting|;
      var rest := DrainEvicting(es + [e]);
      Extends(es, e, rest);
      more := [e] + rest;
    }
  }

  /** Every stored entry is counted. */
  lemma {:induction false} DrainInserted(es: seq<Event>) returns (more: seq<Event>)
    requires var s := Run(true, es); s.removed == map[] && s.evicting == map[]
    ensures AllGoOn(more)
    ensures var s, s' := Run(true, es), Run(true, es + more);
      s'.removed == map[] && s'.evicting == map[] && s'.inserted == {} && s'.resident == s.resident
    decreases |Run(true, es).inserted|
  {
    hide Run;
    var s := Run(true, es);
    more := [];
    Joins(es, [], []);
    if s.inserted != {} {
      var t :| t in s.inserted;
      var e := OnCleaner(Increment(t));
      Extends(es, e, []);
      assert |s.inserted - {t}| < |s.inserted|;
      var rest := DrainInserted(es + [e]);
      Extends(es, e, rest);
      more := [e] + rest;
    }
  }

  /** Every cleaner that is to be started gets its ticker. */
  lemma {:induction false} DrainStarting(es: seq<Event>) returns (more: seq<Event>)
    requires var s := Run(true, es); s.removed == map[] && s.evicting == map[] && s.inserted == {}
    ensures AllGoOn(more)
    ensures var s, s' := Run(true, es), Run(true, es + more);
      s'.removed == map[] && s'.evicting == map[] && s'.inserted == {} && s'.starting == {} && s'.resident == s.resident
    decreases |Run(true, es).starting|
  {
    hide Run;
    var s := Run(true, es);
    more := [];
    Joins(es, [], []);
    if s.starting != {} {
      var t :| t in s.starting;
      var e := OnCleaner(SwapTicker(t));
      Extends(es, e, []);
      assert |s.starting - {t}| < |s.starting|;
      var rest := DrainStarting(es + [e]);
      Extends(es, e, rest);
      more := [e] + rest;
    }
  }

  lemma Launched(s: State, t: Thread)
    requires s.removed == map[] && s.evicting == map[] && s.inserted == {} && s.starting == {} && t in s.launching
    ensures
      var s1 := Step(true, s, OnCleaner(StopPrevious(t)));
      var s2 := Step(true, s1, OnCleaner(Go(t)));
      && s2.removed == map[] && s2.evicting == map[] && s2.inserted == {} && s2.starting == {}
      && s2.resident == s.resident && t !in s2.launching && s2.launching == s.launching - {t}
  {
  }

  /** Every cleaner that has its ticker is started, and nothing is in flight any more. */
  lemma {:induction false} DrainLaunching(es: seq<Event>) returns (more: seq<Event>)
    requires var s := Run(true, es);
      s.removed == map[] && s.evicting == map[] && s.inserted == {} && s.starting == {}
    ensures AllGoOn(more)
    ensures Quiescent(Run(true, es + more)) && Run(true, es + more).resident == Run(true, es).resident
    decreases |Run(true, es).launching|
  {
    hide Run, Step;
    var s := Run(true, es);
    more := [];
    Joins(es, [], []);
    if s.launching != map[] {
      var t :| t in s.launching;
      Launched(s, t);
      var stop, go := OnCleaner(StopPrevious(t)), OnCleaner(Go(t));
      Extends(es, stop, []);
      Extends(es + [stop], go, []);
      assert |s.launching - {t}| < |s.launching|;
      var rest := DrainLaunching(es + [stop] + [go]);
      Extends(es + [stop], go, rest);
      Extends(es, stop, [go] + rest);
      more := [stop] + ([go] + rest);
    }
  }

  /** Every operation in flight can be completed, and that changes nothing in the map. */
  lemma Drains(es: seq<Event>) returns (more: seq<Event>)
    ensures AllGoOn(more)
    ensures Quiescent(Run(true, es + more)) && Run(true, es + more).resident == Run(true, es).resident
  {
    hide Run, Quiescent;
    more := DrainRemoved(es);
    var next := DrainEvicting(es + more);
    Joins(es, more, next);
    more := more + next;
    next := DrainInserted(es + more);
    Joins(es, more, next);
    more := more + next;
    next := DrainStarting(es + more);
    Joins(es, more, next);
    more := more + next;
    next := DrainLaunching(es + more);
    Joins(es, more, next);
    more := more + next;
  }

  /** The goroutine of a running ticker comes to sweep. */
  lemma Sweeps(s: State, t: Ticker)
    requires Quiescent(s) && t in s.running && Loops(s, t) && s.count != 0
    ensures
      var s1 := if InPhase(s, t, Checking) then Step(true, s, OnCleaner(LoadCount(t))) else s;
      var s2 := Step(true, Step(true, s1, OnCleaner(Fire(t))), OnCleaner(Tick(t)));
      Quiescent(s2) && InPhase(s2, t, Sweeping) && s2.resident == s.resident
    ensures !InPhase(s, t, Checking) ==> Step(true, s, OnCleaner(LoadCount(t))) == s
  {
  }

  lemma StartsSweep(es: seq<Event>, t: Ticker) returns (more: seq<Event>)
    requires var s := Run(true, es); Quiescent(s) && t in s.running && Loops(s, t) && s.count != 0
    ensures AllGoOn(more)
    ensures var s, s' := Run(true, es), Run(true, es + more);
      Quiescent(s') && InPhase(s', t, Sweeping) && s'.resident == s.resident
  {
    hide Run, Step, Quiescent, InPhase, Loops;
    Sweeps(Run(true, es), t);
    var load, fire, tick := OnCleaner(LoadCount(t)), OnCleaner(Fire(t)), OnCleaner(Tick(t));
    RunThree(es, load, fire, tick);
    more := [load, fire, tick];
  }

  /** Entry by entry, the sweep takes everything out of the map. */
  lemma SweepsOut(s: State, t: Ticker, k: Key)
    requires Quiescent(s) && InPhase(s, t, Sweeping) && k in s.resident
    ensures
      var s' := Step(true, Step(true, Step(true, s, OnMap(CompareAndDelete(t, k, s.resident[k]))),
                                OnMap(Decrement(Cleaner(t)))), OnMap(Evict(Cleaner(t))));
      && Quiescent(s') && InPhase(s', t, Sweeping) && s'.resident == s.resident - {k}
      && s'.count == s.count - 1 && s'.evicted == s.evicted + [s.resident[k]]
  {
  }

  lemma {:induction false} SweepsAll(es: seq<Event>, t: Ticker) returns (more: seq<Event>)
    requires var s := Run(true, es); Quiescent(s) && InPhase(s, t, Sweeping)
    ensures AllGoOn(more)
    ensures var s' := Run(true, es + more); Quiescent(s') && s'.resident == map[]
    decreases |Run(true, es).resident|
  {
    hide Run, Step, Quiescent, InPhase;
    var s := Run(true, es);
    more := [];
    Joins(es, [], []);
    if s.resident != map[] {
      var k :| k in s.resident;
      SweepsOut(s, t, k);
      var take := OnMap(CompareAndDelete(t, k, s.resident[k]));
      var count, evict := OnMap(Decrement(Cleaner(t))), OnMap(Evict(Cleaner(t)));
      RunThree(es, take, count, evict);
      assert |s.resident - {k}| < |s.resident|;
      var rest := SweepsAll(es + [take, count, evict], t);
      Joins(es, [take, count, evict], rest);
      more := [take, count, evict] + rest;
    }
  }

  /** The goroutine can still come to an end: it is past its wait, or a tick can reach it. */
  predicate CanEnd(s: State, t: Ticker) {
    t in s.cleaners && (!s.cleaners[t].Waiting? || t in s.running || t in s.fired)
  }

  /** The rest of its loop, on an empty cache. */
  function Ending(t: Ticker): seq<Event> {
    [OnCleaner(Fire(t)), OnCleaner(Tick(t)), OnCleaner(SweepDone(t)),
     OnCleaner(LoadCount(t)), OnCleaner(ClearTicker(t)), OnCleaner(StopTicker(t))]
  }

  lemma ComesToCheck(s: State, t: Ticker)
    requires Quiescent(s) && s.count == 0 && CanEnd(s, t)
    ensures
      var s' := Step(true, Step(true, Step(true, s, OnCleaner(Fire(t))), OnCleaner(Tick(t))), OnCleaner(SweepDone(t)));
      && s' == s.(fired := s'.fired, cleaners := s'.cleaners) && s'.fired - {t} == s.fired - {t}
      && t in s'.cleaners && !s'.cleaners[t].Waiting? && !s'.cleaners[t].Sweeping?
      && s'.cleaners == s.cleaners[t := s'.cleaners[t]]
  {
  }

  /** The last three steps of a goroutine that has come to leave. */
  function Gone(s: State, t: Ticker): State {
    s.(cleaners := s.cleaners - {t}, running := s.running - {t},
       cleanup := if s.cleanup == Some(t) then None else s.cleanup)
  }

  lemma LeavesAndStops(s: State, t: Ticker)
    requires InPhase(s, t, Leaving)
    ensures Step(true, Step(true, s, OnCleaner(ClearTicker(t))), OnCleaner(StopTicker(t))) == Gone(s, t)
    ensures Step(true, s, OnCleaner(LoadCount(t))) == s
  {
    assert s.cleaners[t := Stopping] - {t} == s.cleaners - {t};
  }

  lemma StopsItself(s: State, t: Ticker)
    requires Quiescent(s) && s.count == 0 && t in s.cleaners
    requires !s.cleaners[t].Waiting? && !s.cleaners[t].Sweeping? && (s.cleaners[t].Stopping? ==> s.cleanup != Some(t))
    ensures Step(true, Step(true, Step(true, s, OnCleaner(LoadCount(t))), OnCleaner(ClearTicker(t))),
                 OnCleaner(StopTicker(t))) == Gone(s, t)
  {
    if s.cleaners[t].Stopping? {
      StoppingStops(s, t);
    } else {
      var s' := Step(true, s, OnCleaner(LoadCount(t)));
      LeavesAndStops(s', t);
      assert s'.cleaners - {t} == s.cleaners - {t};
    }
  }

  lemma StoppingStops(s: State, t: Ticker)
    requires InPhase(s, t, Stopping) && s.cleanup != Some(t)
    ensures Step(true, s, OnCleaner(LoadCount(t))) == s && Step(true, s, OnCleaner(ClearTicker(t))) == s
    ensures Step(true, s, OnCleaner(StopTicker(t))) == Gone(s, t)
  {
  }

  /** Once the counter is 0 the goroutine, if it can end at all, stops its ticker and is gone. */
  lemma CleanerEnds(es: seq<Event>, t: Ticker)
    requires var s := Run(true, es); Quiescent(s) && s.count == 0 && CanEnd(s, t)
    ensures
      var s, s' := Run(true, es), Run(true, es + Ending(t));
      && s' == s.(fired := s'.fired, cleaners := s.cleaners - {t}, running := s.running - {t},
                  cleanup := if s.cleanup == Some(t) then None else s.cleanup)
      && s'.fired - {t} == s.fired - {t}
  {
    hide Run, Step, CleanerInv, Quiescent;
    var s := Run(true, es);
    ComesToCheck(s, t);
    RunThree(es, OnCleaner(Fire(t)), OnCleaner(Tick(t)), OnCleaner(SweepDone(t)));
    var half := es + [OnCleaner(Fire(t)), OnCleaner(Tick(t)), OnCleaner(SweepDone(t))];
    RunThree(half, OnCleaner(LoadCount(t)), OnCleaner(ClearTicker(t)), OnCleaner(StopTicker(t)));
    assert half + [OnCleaner(LoadCount(t)), OnCleaner(ClearTicker(t)), OnCleaner(StopTicker(t))] == es + Ending(t);
    RunKeepsCleaner(true, half);
    StoppingIsNotInstalled(Run(true, half), t);
    SameQuiescent(s, Run(true, half));
    StopsItself(Run(true, half), t);
    assert Run(true, half).cleaners - {t} == s.cleaners - {t};
  }

  lemma StoppingIsNotInstalled(s: State, t: Ticker)
    requires CleanerInv(true, s)
    ensures InPhase(s, t, Stopping) ==> s.cleanup != Some(t)
  {
  }

  lemma SameQuiescent(s: State, s': State)
    requires Quiescent(s) && s' == s.(fired := s'.fired, cleaners := s'.cleaners)
    ensures Quiescent(s')
  {
  }

  /** At rest: nothing is in flight, installed or running, and what goroutines are left wait for ever. */
  predicate AtRest(s: State) {
    && Quiescent(s) && s.resident == map[] && s.count == 0
    && s.cleanup == None && s.running == {}
    && forall t :: t in s.cleaners ==> Stuck(s, t)
  }

  lemma RunningHasCleaner(es: seq<Event>, t: Ticker)
    requires Quiescent(Run(true, es))
    ensures var s := Run(true, es);
      (t in s.running || s.cleanup == Some(t)) ==> CanEnd(s, t)
  {
    RunKeepsCleaner(true, es);
    hide Run;
  }

  lemma NothingRuns(es: seq<Event>)
    requires var s := Run(true, es);
      Quiescent(s) && s.resident == map[] && forall t :: t in s.cleaners ==> !CanEnd(s, t)
    ensures AtRest(Run(true, es))
  {
    var s := Run(true, es);
    RunKeepsCleaner(true, es);
    QuiescentConservation(true, es);
    hide Run;
    forall t ensures t !in s.running && s.cleanup != Some(t) {
      RunningHasCleaner(es, t);
    }
  }

  lemma {:induction false} AllEnd(es: seq<Event>) returns (more: seq<Event>)
    requires var s := Run(true, es); Quiescent(s) && s.resident == map[]
    ensures AllGoOn(more) && AtRest(Run(true, es + more))
    decreases |Run(true, es).cleaners|
  {
    hide Run, AtRest, CanEnd;
    var s := Run(true, es);
    QuiescentConservation(true, es);
    if t :| t in s.cleaners && CanEnd(s, t) {
      CleanerEnds(es, t);
      assert |s.cleaners - {t}| < |s.cleaners|;
      var rest := AllEnd(es + Ending(t));
      Joins(es, Ending(t), rest);
      more := Ending(t) + rest;
    } else {
      more := [];
      Joins(es, [], []);
      NothingRuns(es);
    }
  }

  /** From every reachable state, without any new operation, the cache can come to rest: what is in flight is
      completed, the cleaner sweeps everything out and stops itself and its ticker, and every entry ever stored has
      been handed to Evict once.  Only goroutines whose ticker was stopped under them stay, and wait for ever. */
  lemma CacheComesToRest(es: seq<Event>) returns (more: seq<Event>)
    ensures AllGoOn(more) && AtRest(Run(true, es + more))
    ensures
      var s := Run(true, es + more);
      && (forall e: Entry :: e in s.stored <==> e in s.evicted)
      && (forall i, j :: 0 <= i < j < |s.evicted| ==> s.evicted[i] != s.evicted[j])
  {
    hide Run, AtRest, Quiescent, Loops;
    more := Drains(es);
    var s := Run(true, es + more);
    QuiescentConservation(true, es + more);
    if s.resident != map[] {
      QuiescentCacheIsSwept(es + more);
      var t := s.cleanup.value;
      assert s.count != 0;
      var next := StartsSweep(es + more, t);
      Joins(es, more, next);
      more := more + next;
      next := SweepsAll(es + more, t);
      Joins(es, more, next);
      more := more + next;
    }
    var last := AllEnd(es + more);
    Joins(es, more, last);
    more := more + last;
    RestIsEmpty(Run(true, es + more));
    QuiescentConservation(true, es + more);
    CounterAndEvictions(true, es + more);
  }

  lemma RestIsEmpty(s: State)
    requires AtRest(s)
    ensures Quiescent(s) && s.resident == map[] && forall e :: !IsResident(s, e)
  {
  }

  // ----- operations that nobody disturbs -------------------------------------------------------------

  /** A new key is stored and counted, and the insert that takes the counter to 1 goes on to start a cleaner. */
  lemma InsertIs(s: State, c: nat, k: Key, e: Entry, replacing: bool)
    requires Quiescent(s) && e !in s.stored && k !in s.resident
    ensures
      var op := if replacing then Swap(c, k, e) else LoadOrStore(c, k, e);
      var s' := Step(true, Step(true, s, OnMap(op)), OnCleaner(Increment(Caller(c))));
      && s'.resident == s.resident[k := e] && s'.stored == s.stored + {e} && s'.count == s.count + 1
      && s'.starting == (if s.count == 0 then {Caller(c)} else {}) && s'.evicted == s.evicted
      && Quiescent(s'.(starting := {}))
  {
  }

  /** Under a key that is present, storing keeps the entry, and replacing hands the old one to Evict. */
  lemma ReplaceIs(s: State, c: nat, k: Key, e: Entry)
    requires Quiescent(s) && e !in s.stored && k in s.resident
    ensures Step(true, s, OnMap(LoadOrStore(c, k, e))) == s
    ensures
      var s' := Step(true, Step(true, s, OnMap(Swap(c, k, e))), OnMap(Evict(Caller(c))));
      && s'.resident == s.resident[k := e] && s'.evicted == s.evicted + [s.resident[k]]
      && s'.count == s.count && Quiescent(s')
  {
  }

  /** A delete takes the key out, counts it and hands its entry to Evict. */
  lemma DeleteIs(s: State, c: nat, k: Key)
    requires Quiescent(s)
    ensures
      var s' := Step(true, Step(true, Step(true, s, OnMap(LoadAndDelete(c, k))), OnMap(Decrement(Caller(c)))),
                     OnMap(Evict(Caller(c))));
      if k !in s.resident then s' == s
      else
        && s'.resident == s.resident - {k} && s'.evicted == s.evicted + [s.resident[k]]
        && s'.count == s.count - 1 && Quiescent(s')
  {
  }

  predicate NoCleaner(s: State) {
    s.starting == {} && s.launching == map[] && s.cleaners == map[] && s.running == {} && s.cleanup == None
  }

  /** Without a cleanup interval nothing is ever started. */
  lemma {:induction false} NoIntervalNoCleaner(es: seq<Event>)
    ensures NoCleaner(Run(false, es))
  {
    if es != [] {
      var s := Run(false, es[..|es| - 1]);
      NoIntervalNoCleaner(es[..|es| - 1]);
      match es[|es| - 1]
      case OnMap(m) => MapStartsNothing(s, m);
      case OnCleaner(c) => NothingToStart(s, c);
    }
  }

  lemma MapStartsNothing(s: State, event: MapEvent)
    requires NoCleaner(s)
    ensures NoCleaner(MapStep(s, event))
  {
  }

  lemma NothingToStart(s: State, event: CleanerEvent)
    requires NoCleaner(s)
    ensures NoCleaner(CleanerStep(false, s, event))
  {
  }

  /** A goroutine that has swept leaves its loop exactly when it finds the counter at 0. */
  lemma CleanerLeavesIff(sweeps: bool, s: State, t: Ticker)
    requires InPhase(s, t, Checking)
    ensures var s' := Step(sweeps, s, OnCleaner(LoadCount(t)));
      && (InPhase(s', t, Leaving) <==> s.count == 0) && (InPhase(s', t, Waiting) <==> s.count != 0)
  {
  }

  // ----- a leaked cleaner ----------------------------------------------------------------------------

  /** One entry is counted, and a ticker was just put into the cache. */
  function Installed(ticker: Ticker, resident: map<Key, Entry>, stored: set<Entry>,
                     launching: map<Thread, Launch>, cleaners: map<Ticker, Phase>): State {
    INITIAL.(resident := resident, stored := stored, count := 1, cleanup := Some(ticker), running := {ticker},
             nextTicker := ticker + 1, launching := launching, cleaners := cleaners)
  }

  const FILLED := Installed(0, map[0 := 0], {0}, map[], map[0 := Waiting])
  const REFILLED := FILLED.(resident := map[0 := 1], stored := {0, 1}, count := 0, evicting := map[Caller(0) := 0],
                            inserted := {Caller(1)})

  lemma Inserts()
    ensures Step(true, Step(true, Step(true, INITIAL, OnMap(LoadOrStore(0, 0, 0))), OnCleaner(Increment(Caller(0)))),
                 OnCleaner(SwapTicker(Caller(0))))
            == Installed(0, map[0 := 0], {0}, map[Caller(0) := Swapped(0, None)], map[])
  {
  }

  lemma FirstLaunch()
    ensures Step(true, Step(true, Installed(0, map[0 := 0], {0}, map[Caller(0) := Swapped(0, None)], map[]),
                            OnCleaner(StopPrevious(Caller(0)))), OnCleaner(Go(Caller(0)))) == FILLED
  {
  }

  lemma FirstInsert() returns (es: seq<Event>)
    ensures Run(true, es) == FILLED
  {
    hide Step;
    Inserts();
    FirstLaunch();
    RunThree([], OnMap(LoadOrStore(0, 0, 0)), OnCleaner(Increment(Caller(0))), OnCleaner(SwapTicker(Caller(0))));
    es := [] + [OnMap(LoadOrStore(0, 0, 0)), OnCleaner(Increment(Caller(0))), OnCleaner(SwapTicker(Caller(0)))];
    RunUnfolds(true, es, OnCleaner(StopPrevious(Caller(0))));
    es := es + [OnCleaner(StopPrevious(Caller(0)))];
    RunUnfolds(true, es, OnCleaner(Go(Caller(0))));
    es := es + [OnCleaner(Go(Caller(0)))];
  }

  lemma Refills()
    ensures Step(true, Step(true, Step(true, FILLED, OnMap(LoadAndDelete(0, 0))), OnMap(Decrement(Caller(0)))),
                 OnMap(LoadOrStore(1, 0, 1))) == REFILLED
  {
  }

  const RECOUNTED := REFILLED.(count := 1, inserted := {}, starting := {Caller(1)})
  const REPLACED := Installed(1, map[0 := 1], {0, 1}, map[Caller(1) := Swapped(1, Some(0))], map[0 := Waiting])
                    .(running := {0, 1}, evicting := map[Caller(0) := 0])
  const STOPPED := Installed(1, map[0 := 1], {0, 1}, map[Caller(1) := Spawning(1)], map[0 := Waiting])
                   .(evicting := map[Caller(0) := 0])

  lemma Recounts()
    ensures Step(true, REFILLED, OnCleaner(Increment(Caller(1)))) == RECOUNTED
  {
  }

  lemma Replaces()
    ensures Step(true, RECOUNTED, OnCleaner(SwapTicker(Caller(1)))) == REPLACED
  {
  }

  lemma Stops()
    ensures Step(true, REPLACED, OnCleaner(StopPrevious(Caller(1)))) == STOPPED
  {
  }

  /** A goroutine is leaked when the cache runs empty and is filled again before its ticker fires: the insert
      starts a second cleaner and stops the ticker of the first. */
  lemma LeakedCleaner() returns (es: seq<Event>)
    ensures Stuck(Run(true, es), 0)
    ensures forall more :: InPhase(RunFrom(true, Run(true, es), more), 0, Waiting)
  {
    hide Step, RunFrom, Run;
    es := FirstInsert();
    Refills();
    Recounts();
    Replaces();
    Stops();
    RunThree(es, OnMap(LoadAndDelete(0, 0)), OnMap(Decrement(Caller(0))), OnMap(LoadOrStore(1, 0, 1)));
    es := es + [OnMap(LoadAndDelete(0, 0)), OnMap(Decrement(Caller(0))), OnMap(LoadOrStore(1, 0, 1))];
    RunThree(es, OnCleaner(Increment(Caller(1))), OnCleaner(SwapTicker(Caller(1))), OnCleaner(StopPrevious(Caller(1))));
    es := es + [OnCleaner(Increment(Caller(1))), OnCleaner(SwapTicker(Caller(1))), OnCleaner(StopPrevious(Caller(1)))];
    forall more ensures InPhase(RunFrom(true, Run(true, es), more), 0, Waiting) {
      StuckForEver(true, Run(true, es), more, 0);
    }
  }
}
