/**
 * The serial service inside the interleaved one: a call that nothing disturbs, played access by access,
 * does what the whole call does, so that every serial run is a run without a fault.
 */
module Serial {
  import opened Prelude
  import opened CacheKeys
  import opened Listings
  import opened Query
  import opened SearchKeys
  import opened Service
  import opened Interleaving
  import opened Discipline
  import opened Reaching
  import R = ServiceRuns
  import C = Cache

  type Slots = C.Store<seq<Entry>>

  /** What the serial service sees of a world. */
  function StateOf(w: World): ServiceState
    requires w.past.commits != []
  {
    ServiceState(Current(w), C.CacheState(w.store, w.past.now))
  }

  function Later(past: Past, d: nat): Past {
    past.(now := past.now + d)
  }

  function Solo(past: Past, store: Slots, q: Phase): World {
    World(past, store, map[0 := q])
  }

  // ----- runs joined -----

  lemma {:induction false} LeadsJoin(env: Env, a: World, acts: seq<Act>, b: World, more: seq<Act>, tolerated: set<Fault>, c: World)
    requires Leads(env, a, acts, tolerated, b) && Leads(env, b, more, tolerated, c)
    ensures Leads(env, a, acts + more, tolerated, c)
    decreases |acts|
  {
    if acts == [] {
      assert acts + more == more;
    } else {
      hide Enabled, After, Commits;
      LeadsJoin(env, After(env, a, acts[0]), acts[1..], b, more, tolerated, c);
      assert (acts + more)[1..] == acts[1..] + more;
    }
  }

  lemma ReachesJoin(env: Env, a: World, b: World, tolerated: set<Fault>, c: World)
    requires Reaches(env, a, tolerated, b) && Reaches(env, b, tolerated, c)
    ensures Reaches(env, a, tolerated, c)
  {
    hide Leads;
    var acts :| Leads(env, a, acts, tolerated, b);
    var more :| Leads(env, b, more, tolerated, c);
    LeadsJoin(env, a, acts, b, more, tolerated, c);
  }

  // ----- one process, act by act -----

  /** One act of a lone process that commits no fault. */
  lemma SoloGoes(env: Env, from: World, w: World, act: Act, w': World)
    requires Reaches(env, from, {}, w) && Enabled(env, w, act) && w' == After(env, w, act)
    requires w'.procs.Keys <= {0}
    requires !act.Direct? && !act.Evict? && (act.Stop? ==> !w.procs[act.p].Unregistered? && !w.procs[act.p].Registering?)
    requires act.ReadIndex? || act.WriteIndex? || act.ReadForClear? || act.DeleteNext? ==> !act.fails
    ensures Reaches(env, from, {}, w')
  {
    AloneIsCalm(w');
    hide Reaches, Overlapping, RegisteringTwice, After, Enabled;
    Goes(env, from, {}, w, act, w');
  }

  lemma IdleTicks(env: Env, from: World, past: Past, store: Slots, d: nat)
    requires Reaches(env, from, {}, Idle(past, store)) && past.commits != []
    ensures Reaches(env, from, {}, Idle(Later(past, d), store))
  {
    hide Reaches;
    SoloGoes(env, from, Idle(past, store), Tick(d), Idle(Later(past, d), store));
  }

  lemma SoloTicks(env: Env, from: World, past: Past, store: Slots, q: Phase, d: nat)
    requires Reaches(env, from, {}, Solo(past, store, q)) && past.commits != []
    ensures Reaches(env, from, {}, Solo(Later(past, d), store, q))
  {
    hide Reaches;
    SoloGoes(env, from, Solo(past, store, q), Tick(d), Solo(Later(past, d), store, q));
  }

  lemma SoloLooksUp(env: Env, from: World, past: Past, store: Slots, f: Filters) returns (q: Phase)
    requires Reaches(env, from, {}, Idle(past, store)) && past.commits != []
    ensures q == match C.ValueAt(store, SearchKey(env, f), past.now)
      case Some(entries) => Found(f, entries, past.now)
      case None => Missed(f, |past.commits|)
    ensures Reaches(env, from, {}, Solo(past, C.Touched(store, SearchKey(env, f), past.now), q))
  {
    hide Reaches, SearchKey, C.ValueAt, C.Touched;
    var w' := After(env, Idle(past, store), Lookup(0, f, false));
    q := w'.procs[0];
    assert w' == Solo(past, C.Touched(store, SearchKey(env, f), past.now), q);
    SoloGoes(env, from, Idle(past, store), Lookup(0, f, false), w');
  }

  lemma SoloStops(env: Env, from: World, past: Past, store: Slots, q: Phase)
    requires Reaches(env, from, {}, Solo(past, store, q)) && past.commits != [] && !q.Unregistered? && !q.Registering?
    ensures Reaches(env, from, {}, Idle(past, store))
  {
    hide Reaches;
    assert Solo(past, store, q).procs - {0} == map[];
    SoloGoes(env, from, Solo(past, store, q), Stop(0), Idle(past, store));
  }

  lemma SoloAsks(env: Env, from: World, past: Past, store: Slots, f: Filters, seen: nat, hits: seq<Hit>)
    requires Reaches(env, from, {}, Solo(past, store, Missed(f, seen))) && past.commits != []
    requires ValidAnswer(env.dist, past.commits[|past.commits| - 1].db, f, hits)
    ensures Reaches(env, from, {}, Solo(past, store, Queried(f, hits, |past.commits| - 1, seen, past.now)))
  {
    hide Reaches, ValidAnswer;
    var w' := Solo(past, store, Queried(f, hits, |past.commits| - 1, seen, past.now));
    assert Solo(past, store, Missed(f, seen)).procs[0 := w'.procs[0]] == w'.procs;
    SoloGoes(env, from, Solo(past, store, Missed(f, seen)), Ask(0, hits), w');
  }

  lemma SoloStores(env: Env, from: World, past: Past, store: Slots, q: Phase) returns (past': Past)
    requires q.Queried? && Reaches(env, from, {}, Solo(past, store, q)) && past.commits != []
    ensures past' == past.(log := past'.log)
    ensures Reaches(env, from, {},
      Solo(past', store[SearchKey(env, q.f) := SearchSlot(q.hits, past.now)], Unregistered(SearchKey(env, q.f))))
  {
    hide Reaches, SearchKey, SearchSlot;
    var w' := After(env, Solo(past, store, q), Store(0, false));
    past' := w'.past;
    assert w'.procs == map[0 := Unregistered(SearchKey(env, q.f))];
    SoloGoes(env, from, Solo(past, store, q), Store(0, false), w');
  }

  lemma SoloReadsIndex(env: Env, from: World, past: Past, store: Slots, key: string)
    requires Reaches(env, from, {}, Solo(past, store, Unregistered(key))) && past.commits != []
    ensures Reaches(env, from, {}, Solo(past, store, Registering(key, C.KeysAt(store, NamespaceOf(key), past.now))))
  {
    hide Reaches, C.KeysAt, NamespaceOf;
    var w' := Solo(past, store, Registering(key, C.KeysAt(store, NamespaceOf(key), past.now)));
    assert Solo(past, store, Unregistered(key)).procs[0 := w'.procs[0]] == w'.procs;
    SoloGoes(env, from, Solo(past, store, Unregistered(key)), ReadIndex(0, false), w');
  }

  lemma SoloWritesIndex(env: Env, from: World, past: Past, store: Slots, key: string, keys: seq<string>)
    requires Reaches(env, from, {}, Solo(past, store, Registering(key, keys))) && past.commits != []
    ensures var slot := C.Slot(C.Index(if key in keys then keys else keys + [key]), past.now + C.INDEX_TTL);
      Reaches(env, from, {}, Idle(past, store[IndexKey(NamespaceOf(key)) := slot]))
  {
    hide Reaches, IndexKey, NamespaceOf;
    var w := Solo(past, store, Registering(key, keys));
    var w' := After(env, w, WriteIndex(0, false));
    assert w'.procs == map[];
    SoloGoes(env, from, w, WriteIndex(0, false), w');
  }

  // ----- a search -----

  /** Storing and registering, with the pauses of a call, is the `set` of the cache manager. */
  lemma SoloSets(env: Env, from: World, past: Past, store: Slots, q: Phase, d2: nat, d3: nat) returns (w': World)
    requires q.Queried? && Reaches(env, from, {}, Solo(past, store, q)) && past.commits != []
    ensures Reaches(env, from, {}, w') && w' == Idle(w'.past, w'.store) && w'.past.commits == past.commits
    ensures C.CacheState(w'.store, w'.past.now)
      == C.Apply(C.CacheState(store, past.now), C.Set(SearchKey(env, q.f), Some(EntriesOf(q.hits)), SEARCH_TTL, d2, d3))
  {
    hide Reaches, SearchKey, IndexKey, NamespaceOf, C.KeysAt, EntriesOf;
    var key := SearchKey(env, q.f);
    var stored := store[key := SearchSlot(q.hits, past.now)];
    var past1 := SoloStores(env, from, past, store, q);
    SoloTicks(env, from, past1, stored, Unregistered(key), d2);
    var past2 := Later(past1, d2);
    SoloReadsIndex(env, from, past2, stored, key);
    var keys := C.KeysAt(stored, NamespaceOf(key), past2.now);
    SoloTicks(env, from, past2, stored, Registering(key, keys), d3);
    SoloWritesIndex(env, from, Later(past2, d3), stored, key, keys);
    w' := Idle(Later(past2, d3), C.Registered(stored, key, past2.now, past2.now + d3));
  }

  /** The world shows that a search has this outcome: it answers, or holds the reply, or is about to raise. */
  ghost predicate Shows(env: Env, w: World, f: Filters, r: Result<seq<Hit>, Error>) {
    && 0 in w.procs
    && match r
       case Ok(hits) => w.procs[0] == Answered(f, hits) || (w.procs[0].Queried? && w.procs[0].f == f && w.procs[0].hits == hits)
       case Err(e) => w.procs[0].Missed? && w.procs[0].f == f && SearchError(f) == Some(e)
  }

  lemma HitIsPlayed(env: Env, from: World, past: Past, store: Slots, f: Filters, entries: seq<Entry>) returns (w: World, w': World)
    requires past.commits != [] && C.ValueAt(store, SearchKey(env, f), past.now) == Some(entries)
    requires Reaches(env, from, {}, Idle(past, store))
    ensures Reaches(env, from, {}, w) && Reaches(env, w, {}, w')
    ensures w == Solo(past, store, Answered(f, Materialised(past.commits[|past.commits| - 1].db, entries)))
    ensures w' == Idle(past, C.Touched(store, SearchKey(env, f), past.now))
  {
    var q := SoloLooksUp(env, from, past, store, f);
    assert C.Touched(store, SearchKey(env, f), past.now) == store;
    hide Reaches, SearchKey, Materialised, C.ValueAt, C.Touched;
    var found := Solo(past, store, Found(f, entries, past.now));
    w := Solo(past, store, Answered(f, Materialised(past.commits[|past.commits| - 1].db, entries)));
    assert found.procs[0 := w.procs[0]] == w.procs;
    SoloGoes(env, from, found, Rebuild(0), w);
    w' := Idle(past, store);
    ReachesItself(env, w, {});
    SoloStops(env, w, past, store, w.procs[0]);
  }

  lemma MissAloneIsPlayed(env: Env, from: World, past: Past, store: Slots, f: Filters) returns (w: World, w': World)
    requires past.commits != [] && C.ValueAt(store, SearchKey(env, f), past.now) == None
    requires Reaches(env, from, {}, Idle(past, store))
    ensures Reaches(env, from, {}, w) && Reaches(env, w, {}, w')
    ensures w == Solo(past, C.Touched(store, SearchKey(env, f), past.now), Missed(f, |past.commits|))
    ensures w' == Idle(past, C.Touched(store, SearchKey(env, f), past.now))
  {
    var q := SoloLooksUp(env, from, past, store, f);
    hide Reaches, SearchKey, C.ValueAt, C.Touched;
    w := Solo(past, C.Touched(store, SearchKey(env, f), past.now), q);
    w' := Idle(w.past, w.store);
    ReachesItself(env, w, {});
    SoloStops(env, w, w.past, w.store, q);
  }

  /** The three outcomes of a search of the serial service, in terms of the table and the store. */
  ghost predicate Outcome(env: Env, past: Past, store: Slots, f: Filters, d: Delays, s': ServiceState, r: Result<seq<Hit>, Error>)
    requires past.commits != []
  {
    var key, now, db := SearchKey(env, f), past.now + d.d0, past.commits[|past.commits| - 1].db;
    var looked := C.Touched(store, key, now);
    if C.ValueAt(store, key, now).Some? then
      r == Ok(Materialised(db, C.ValueAt(store, key, now).value)) && s' == ServiceState(db, C.CacheState(looked, now))
    else if SearchError(f).Some? then
      r == Err(SearchError(f).value) && s' == ServiceState(db, C.CacheState(looked, now))
    else
      r.Ok? && ValidAnswer(env.dist, db, f, r.value) && s' == ServiceState(db,
        C.Apply(C.CacheState(looked, now + d.d1), C.Set(key, Some(EntriesOf(r.value)), SEARCH_TTL, d.d2, d.d3)))
  }

  lemma SearchOutcomes(env: Env, past: Past, store: Slots, f: Filters, d: Delays, s': ServiceState, r: Result<seq<Hit>, Error>)
    requires past.commits != [] && SearchStep(env, StateOf(Idle(past, store)), f, d, s', r)
    ensures Outcome(env, past, store, f, d, s', r)
  {
    hide SearchKey, Materialised, ValidAnswer, EntriesOf, SearchError, C.ValueAt, C.Touched, C.Stored;
  }

  /** A search that nothing disturbs is one search of the serial service. */
  lemma SearchIsPlayed(env: Env, past: Past, store: Slots, f: Filters, d: Delays, s': ServiceState, r: Result<seq<Hit>, Error>)
      returns (w: World, w': World)
    requires past.commits != [] && SearchStep(env, StateOf(Idle(past, store)), f, d, s', r)
    ensures Reaches(env, Idle(past, store), {}, w) && Shows(env, w, f, r)
    ensures Reaches(env, w, {}, w') && w' == Idle(w'.past, w'.store) && w'.past.commits != [] && StateOf(w') == s'
  {
    SearchOutcomes(env, past, store, f, d, s', r);
    var from := Idle(past, store);
    ReachesItself(env, from, {});
    IdleTicks(env, from, past, store, d.d0);
    hide SearchStep, Reaches, Outcome, Shows, SearchKey, SearchError, C.ValueAt;
    if C.ValueAt(store, SearchKey(env, f), past.now + d.d0).Some? {
      w, w' := HitOutcomeIsPlayed(env, from, past, store, f, d, s', r);
    } else if SearchError(f).Some? {
      w, w' := RefusalOutcomeIsPlayed(env, from, past, store, f, d, s', r);
    } else {
      w, w' := MissOutcomeIsPlayed(env, from, past, store, f, d, s', r);
    }
  }

  lemma HitOutcomeIsPlayed(
      env: Env, from: World, past: Past, store: Slots, f: Filters, d: Delays, s': ServiceState, r: Result<seq<Hit>, Error>)
      returns (w: World, w': World)
    requires past.commits != [] && Outcome(env, past, store, f, d, s', r)
    requires C.ValueAt(store, SearchKey(env, f), past.now + d.d0).Some?
    requires Reaches(env, from, {}, Idle(Later(past, d.d0), store))
    ensures Reaches(env, from, {}, w) && Shows(env, w, f, r)
    ensures Reaches(env, w, {}, w') && w' == Idle(w'.past, w'.store) && w'.past.commits != [] && StateOf(w') == s'
  {
    hide Reaches, SearchKey, Materialised, ValidAnswer, EntriesOf, SearchError, C.ValueAt, C.Touched, C.Apply;
    w, w' := HitIsPlayed(env, from, Later(past, d.d0), store, f, C.ValueAt(store, SearchKey(env, f), past.now + d.d0).value);
  }

  lemma RefusalOutcomeIsPlayed(
      env: Env, from: World, past: Past, store: Slots, f: Filters, d: Delays, s': ServiceState, r: Result<seq<Hit>, Error>)
      returns (w: World, w': World)
    requires past.commits != [] && Outcome(env, past, store, f, d, s', r)
    requires C.ValueAt(store, SearchKey(env, f), past.now + d.d0).None? && SearchError(f).Some?
    requires Reaches(env, from, {}, Idle(Later(past, d.d0), store))
    ensures Reaches(env, from, {}, w) && Shows(env, w, f, r)
    ensures Reaches(env, w, {}, w') && w' == Idle(w'.past, w'.store) && w'.past.commits != [] && StateOf(w') == s'
  {
    hide Reaches, SearchKey, Materialised, ValidAnswer, EntriesOf, SearchError, C.ValueAt, C.Touched, C.Apply;
    w, w' := MissAloneIsPlayed(env, from, Later(past, d.d0), store, f);
  }

  lemma MissOutcomeIsPlayed(
      env: Env, from: World, past: Past, store: Slots, f: Filters, d: Delays, s': ServiceState, r: Result<seq<Hit>, Error>)
      returns (w: World, w': World)
    requires past.commits != [] && Outcome(env, past, store, f, d, s', r)
    requires C.ValueAt(store, SearchKey(env, f), past.now + d.d0).None? && SearchError(f).None?
    requires Reaches(env, from, {}, Idle(Later(past, d.d0), store))
    ensures Reaches(env, from, {}, w) && Shows(env, w, f, r)
    ensures Reaches(env, w, {}, w') && w' == Idle(w'.past, w'.store) && w'.past.commits != [] && StateOf(w') == s'
  {
    hide Reaches, SearchKey, Materialised, ValidAnswer, EntriesOf, SearchError, C.ValueAt, C.Touched, C.Apply;
    w, w' := FullMissIsPlayed(env, from, Later(past, d.d0), store, f, r.value, d);
  }

  lemma FullMissIsPlayed(env: Env, from: World, past: Past, store: Slots, f: Filters, hits: seq<Hit>, d: Delays)
      returns (w: World, w': World)
    requires past.commits != [] && ValidAnswer(env.dist, past.commits[|past.commits| - 1].db, f, hits)
    requires C.ValueAt(store, SearchKey(env, f), past.now) == None && Reaches(env, from, {}, Idle(past, store))
    ensures Reaches(env, from, {}, w) && Shows(env, w, f, Ok(hits))
    ensures Reaches(env, w, {}, w') && w' == Idle(w'.past, w'.store) && w'.past.commits == past.commits
    ensures C.CacheState(w'.store, w'.past.now)
      == C.Apply(C.CacheState(C.Touched(store, SearchKey(env, f), past.now), past.now + d.d1),
                 C.Set(SearchKey(env, f), Some(EntriesOf(hits)), SEARCH_TTL, d.d2, d.d3))
  {
    var missed, gone := MissAloneIsPlayed(env, from, past, store, f);
    hide Reaches, SearchKey, ValidAnswer, EntriesOf, C.Apply, C.ValueAt, C.Touched;
    w, w' := MissIsPlayed(env, from, past, missed.store, f, hits, d);
  }

  lemma MissIsPlayed(env: Env, from: World, past: Past, looked: Slots, f: Filters, hits: seq<Hit>, d: Delays)
      returns (w: World, w': World)
    requires past.commits != [] && ValidAnswer(env.dist, past.commits[|past.commits| - 1].db, f, hits)
    requires Reaches(env, from, {}, Solo(past, looked, Missed(f, |past.commits|)))
    ensures Reaches(env, from, {}, w) && w.procs == map[0 := Queried(f, hits, |past.commits| - 1, |past.commits|, past.now + d.d1)]
    ensures Reaches(env, w, {}, w') && w' == Idle(w'.past, w'.store) && w'.past.commits == past.commits
    ensures C.CacheState(w'.store, w'.past.now)
      == C.Apply(C.CacheState(looked, past.now + d.d1), C.Set(SearchKey(env, f), Some(EntriesOf(hits)), SEARCH_TTL, d.d2, d.d3))
  {
    hide Reaches, SearchKey, ValidAnswer, EntriesOf, C.Apply;
    var past1 := Later(past, d.d1);
    SoloTicks(env, from, past, looked, Missed(f, |past.commits|), d.d1);
    SoloAsks(env, from, past1, looked, f, |past.commits|, hits);
    var q := Queried(f, hits, |past.commits| - 1, |past.commits|, past1.now);
    w := Solo(past1, looked, q);
    ReachesItself(env, w, {});
    w' := SoloSets(env, w, past1, looked, q, d.d2, d.d3);
  }

  // ----- a write -----

  lemma {:induction false} SoloDeletes(env: Env, from: World, past: Past, store: Slots, id: Id, row: Listing, keys: seq<string>)
    requires Reaches(env, from, {}, Solo(past, store, Clearing(id, row, keys))) && past.commits != []
    ensures Reaches(env, from, {}, Solo(past, store - SetOf(keys), Clearing(id, row, [])))
    decreases |keys|
  {
    hide Reaches;
    if keys == [] {
      assert store - SetOf(keys) == store;
    } else {
      var w := Solo(past, store, Clearing(id, row, keys));
      var w' := Solo(past, store - {keys[0]}, Clearing(id, row, keys[1..]));
      assert w.procs[0 := w'.procs[0]] == w'.procs;
      SoloGoes(env, from, w, DeleteNext(0, false), w');
      SoloDeletes(env, from, past, store - {keys[0]}, id, row, keys[1..]);
      assert SetOf(keys) == {keys[0]} + SetOf(keys[1..]);
      assert store - SetOf(keys) == store - {keys[0]} - SetOf(keys[1..]);
    }
  }

  /** Clearing and committing, undisturbed. */
  lemma ClearIsPlayed(env: Env, from: World, past: Past, store: Slots, id: Id, row: Listing) returns (w': World)
    requires Reaches(env, from, {}, Idle(past, store)) && past.commits != []
    ensures w' == Idle(Committed(past, id, row), C.Cleared(store, LISTING_SEARCH, past.now))
    ensures Reaches(env, from, {}, w')
  {
    hide Reaches, C.KeysAt, IndexKey;
    var keys := C.KeysAt(store, LISTING_SEARCH, past.now);
    WriteReads(env, from, {}, past, store, id, row, keys, false);
    SoloDeletes(env, from, past, store, id, row, keys);
    w' := WriteCommits(env, from, {}, past, store - SetOf(keys), id, row);
  }

  /** A write that nothing disturbs, refused or not, is one write of the serial service. */
  lemma WriteIsPlayed(env: Env, past: Past, store: Slots, w: Write, d0: nat, d1: nat, d2: nat) returns (w': World)
    requires past.commits != []
    ensures Reaches(env, Idle(past, store), {}, w') && w' == Idle(w'.past, w'.store) && w'.past.commits != []
    ensures StateOf(w') == AfterWrite(StateOf(Idle(past, store)), w, d0, d1, d2).0
  {
    var from := Idle(past, store);
    ReachesItself(env, from, {});
    hide Reaches, Written, C.KeysAt, IndexKey;
    var r := AfterWrite(StateOf(from), w, d0, d1, d2).1;
    if r.Err? {
      IdleTicks(env, from, past, store, d0);
      w' := Idle(Later(past, d0), store);
    } else {
      IdleTicks(env, from, past, store, d0 + d1 + d2);
      w' := ClearIsPlayed(env, from, Later(past, d0 + d1 + d2), store, w.id, r.value);
    }
  }

  // ----- whole runs -----

  lemma EventIsPlayed(env: Env, past: Past, store: Slots, e: R.Event, s': ServiceState) returns (w': World)
    requires past.commits != [] && R.Step(env, StateOf(Idle(past, store)), e, s')
    ensures Reaches(env, Idle(past, store), {}, w') && w' == Idle(w'.past, w'.store) && w'.past.commits != [] && StateOf(w') == s'
  {
    var from := Idle(past, store);
    hide Reaches, SearchStep, AfterWrite;
    match e {
      case Tick(d) =>
        ReachesItself(env, from, {});
        IdleTicks(env, from, past, store, d);
        w' := Idle(Later(past, d), store);
      case Wrote(w, d0, d1, d2, _) => w' := WriteIsPlayed(env, past, store, w, d0, d1, d2);
      case Searched(f, d, r) =>
        var shown;
        shown, w' := SearchIsPlayed(env, past, store, f, d, s', r);
        ReachesJoin(env, from, shown, {}, w');
    }
  }

  /** Every serial run from an empty cache is a run of single accesses without a fault, ending in the same state. */
  lemma {:induction false} SerialRunsAreFaultless(env: Env, states: seq<ServiceState>, events: seq<R.Event>, n: nat)
      returns (w: World)
    requires R.Run(env, states, events) && n <= |events| && states[0].cache.store == map[]
    ensures Reaches(env, Start(states[0].db), {}, w)
    ensures w == Idle(w.past, w.store) && w.past.commits != [] && StateOf(w) == states[n]
  {
    hide Reaches, R.Step;
    var start := Start(states[0].db);
    if n == 0 {
      ReachesItself(env, start, {});
      assert start == Idle(start.past, map[]);
      IdleTicks(env, start, start.past, map[], states[0].cache.now);
      w := Idle(Later(start.past, states[0].cache.now), map[]);
    } else {
      var before := SerialRunsAreFaultless(env, states, events, n - 1);
      R.StepOf(env, states, events, n - 1);
      w := EventIsPlayed(env, before.past, before.store, events[n - 1], states[n]);
      ReachesJoin(env, start, before, {}, w);
    }
  }

  // ----- the work of a query -----

  /**
   * The spatial work is not done at most once: without any fault, of two searches for the same filters
   * that overlap each other both may miss, and both ask the database.
   */
  lemma BothMissesAsk(env: Env, db: Table, f: Filters, hits: seq<Hit>) returns (w: World)
    requires ValidAnswer(env.dist, db, f, hits)
    ensures Reaches(env, Start(db), {}, w) && w.past == Start(db).past
    ensures w.procs == map[1 := Queried(f, hits, 0, 1, 0), 2 := Queried(f, hits, 0, 1, 0)]
  {
    var start := Start(db);
    ReachesItself(env, start, {});
    hide Reaches, ValidAnswer, SearchKey;
    var w1 := SearchAsks(env, start, {}, start, 1, f, hits);
    w := SearchAsks(env, start, {}, w1, 2, f, hits);
    assert w.procs == map[1 := Queried(f, hits, 0, 1, 0), 2 := Queried(f, hits, 0, 1, 0)];
  }
}
