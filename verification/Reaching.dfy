/** Runs put together act by act, and the stretches of them that one search or one write makes. */
module Reaching {
  import opened Prelude
  import opened CacheKeys
  import opened Listings
  import opened Query
  import opened SearchKeys
  import opened Service
  import opened Staleness
  import opened Interleaving
  import opened Discipline
  import C = Cache

  ghost predicate Reaches(env: Env, w: World, tolerated: set<Fault>, w': World) {
    exists acts :: Leads(env, w, acts, tolerated, w')
  }

  // ----- runs, act by act -----

  lemma {:induction false} LeadsSnoc(env: Env, w: World, acts: seq<Act>, tolerated: set<Fault>, w': World, act: Act)
    requires Leads(env, w, acts, tolerated, w') && Permitted(env, w', act, tolerated)
    ensures Leads(env, w, acts + [act], tolerated, After(env, w', act))
    decreases |acts|
  {
    hide Enabled, After, Commits;
    if acts == [] {
      assert [act][1..] == [];
      assert Leads(env, After(env, w, act), [], tolerated, After(env, w, act));
    } else {
      LeadsSnoc(env, After(env, w, acts[0]), acts[1..], tolerated, w', act);
      assert (acts + [act])[1..] == acts[1..] + [act];
    }
  }

  lemma {:induction false} LeadsWider(env: Env, w: World, acts: seq<Act>, tolerated: set<Fault>, more: set<Fault>, w': World)
    requires Leads(env, w, acts, tolerated, w') && tolerated <= more
    ensures Leads(env, w, acts, more, w')
    decreases |acts|
  {
    if acts != [] {
      hide Enabled, After, Commits;
      LeadsWider(env, After(env, w, acts[0]), acts[1..], tolerated, more, w');
    }
  }

  lemma ReachesItself(env: Env, w: World, tolerated: set<Fault>)
    ensures Reaches(env, w, tolerated, w)
  {
    assert Leads(env, w, [], tolerated, w);
  }

  lemma ReachesWider(env: Env, w: World, tolerated: set<Fault>, more: set<Fault>, w': World)
    requires Reaches(env, w, tolerated, w') && tolerated <= more
    ensures Reaches(env, w, more, w')
  {
    hide Leads;
    var acts :| Leads(env, w, acts, tolerated, w');
    LeadsWider(env, w, acts, tolerated, more, w');
  }

  /** One act more, with the faults it may commit named. */
  lemma Goes(env: Env, from: World, tolerated: set<Fault>, w: World, act: Act, w': World)
    requires Reaches(env, from, tolerated, w)
    requires Enabled(env, w, act) && After(env, w, act) == w'
    requires Overlap in tolerated || !Overlapping(w')
    requires LostUpdate in tolerated || !RegisteringTwice(w')
    requires forall fault: Fault | fault != Overlap && fault != LostUpdate && Commits(env, w, act, fault) :: fault in tolerated
    ensures Reaches(env, from, tolerated, w')
  {
    hide Leads, Enabled, After;
    var acts :| Leads(env, from, acts, tolerated, w);
    LeadsSnoc(env, from, acts, tolerated, w, act);
  }

  // ----- stretches of runs -----

  ghost predicate NobodyChanging(procs: map<nat, Phase>) {
    forall p | p in procs :: !Changing(procs[p])
  }

  ghost predicate NobodyRegistering(procs: map<nat, Phase>) {
    forall p | p in procs :: !procs[p].Registering?
  }

  ghost predicate Calm(tolerated: set<Fault>, procs: map<nat, Phase>) {
    && (Overlap in tolerated || NobodyChanging(procs))
    && (LostUpdate in tolerated || NobodyRegistering(procs))
  }

  /** A search adds no fault of its own to a world that is calm, whatever it is at. */
  lemma SearchIsCalm(tolerated: set<Fault>, w: World, p: nat, q: Phase)
    requires Calm(tolerated, w.procs - {p}) && !Changing(q)
    ensures Overlap in tolerated || !Overlapping(At(w, p, q))
    ensures LostUpdate in tolerated || !RegisteringTwice(At(w, p, q))
    ensures !q.Registering? ==> Calm(tolerated, At(w, p, q).procs)
  {
    var procs := At(w, p, q).procs;
    assert forall r | r in procs && r != p :: r in w.procs - {p} && procs[r] == (w.procs - {p})[r];
  }

  function StoredNow(past: Past, f: Filters, hits: seq<Hit>): Past
    requires past.commits != []
  {
    past.(log := past.log + [StoredBy(f, hits, |past.commits| - 1, |past.commits|, past.now, past.now)])
  }

  lemma SearchAsks(env: Env, from: World, tolerated: set<Fault>, w: World, p: nat, f: Filters, hits: seq<Hit>) returns (w': World)
    requires Reaches(env, from, tolerated, w) && w.past.commits != [] && p !in w.procs && Calm(tolerated, w.procs)
    requires ValidAnswer(env.dist, Current(w), f, hits) && C.ValueAt(w.store, SearchKey(env, f), w.past.now) == None
    ensures w' == At(LookedUp(w, SearchKey(env, f)), p, Queried(f, hits, |w.past.commits| - 1, |w.past.commits|, w.past.now))
    ensures Reaches(env, from, tolerated, w')
  {
    hide SearchKey, ValidAnswer, Reaches, Overlapping, RegisteringTwice, Calm;
    var n := |w.past.commits|;
    var looked := LookedUp(w, SearchKey(env, f));
    var w1 := At(looked, p, Missed(f, n));
    w' := At(looked, p, Queried(f, hits, n - 1, n, w.past.now));
    assert w.procs - {p} == w.procs;
    SearchIsCalm(tolerated, looked, p, w1.procs[p]);
    SearchIsCalm(tolerated, looked, p, w'.procs[p]);
    assert w1.procs[p := w'.procs[p]] == w'.procs;
    Goes(env, from, tolerated, w, Lookup(p, f, false), w1);
    Goes(env, from, tolerated, w1, Ask(p, hits), w');
  }

  /** A search that misses: it asks and stores. */
  lemma SearchStores(env: Env, from: World, tolerated: set<Fault>, w: World, p: nat, f: Filters, hits: seq<Hit>) returns (w': World)
    requires Reaches(env, from, tolerated, w) && w.past.commits != [] && p !in w.procs && Calm(tolerated, w.procs)
    requires ValidAnswer(env.dist, Current(w), f, hits) && C.ValueAt(w.store, SearchKey(env, f), w.past.now) == None
    ensures var key := SearchKey(env, f);
      w' == World(StoredNow(w.past, f, hits), w.store[key := SearchSlot(hits, w.past.now)], w.procs[p := Unregistered(key)])
    ensures Reaches(env, from, tolerated, w')
  {
    hide SearchKey, ValidAnswer, SearchSlot, Reaches, Overlapping, RegisteringTwice, Calm, C.ValueAt;
    var key := SearchKey(env, f);
    var w1 := SearchAsks(env, from, tolerated, w, p, f, hits);
    w' := World(StoredNow(w.past, f, hits), w.store[key := SearchSlot(hits, w.past.now)], w.procs[p := Unregistered(key)]);
    assert w.procs - {p} == w.procs && w1.procs[p := w'.procs[p]] == w'.procs;
    assert w1.store[key := SearchSlot(hits, w.past.now)] == w'.store;
    SearchIsCalm(tolerated, w.(past := w'.past, store := w'.store), p, w'.procs[p]);
    Goes(env, from, tolerated, w1, Store(p, false), w');
  }

  /** The store once an index that was read as `keys` has been written back with the key. */
  function Indexed(store: C.Store<seq<Entry>>, key: string, keys: seq<string>, now: nat): C.Store<seq<Entry>> {
    store[INDEX := C.Slot(C.Index(if key in keys then keys else keys + [key]), now + C.INDEX_TTL)]
  }

  lemma IndexedStore(store: C.Store<seq<Entry>>, key: string, keys: seq<string>, now: nat)
    requires key !in keys
    ensures C.KeysAt(Indexed(store, key, keys, now), LISTING_SEARCH, now) == keys + [key]
    ensures forall k | k != INDEX ::
      && (k in Indexed(store, key, keys, now) <==> k in store)
      && (k in store ==> Indexed(store, key, keys, now)[k] == store[k])
  {
    hide IndexKey;
  }

  lemma SearchReadsIndex(env: Env, from: World, tolerated: set<Fault>, w: World, p: nat, key: string, fails: bool)
      returns (w': World)
    requires Reaches(env, from, tolerated, w) && w.past.commits != [] && NamespaceOf(key) == LISTING_SEARCH
    requires p in w.procs && w.procs[p] == Unregistered(key) && Calm(tolerated, w.procs - {p})
    requires fails ==> IndexReadFailed in tolerated
    ensures w' == At(w, p, Registering(key, if fails then [] else C.KeysAt(w.store, LISTING_SEARCH, w.past.now)))
    ensures Reaches(env, from, tolerated, w')
  {
    hide NamespaceOf, IndexKey, Reaches, Overlapping, RegisteringTwice, Calm;
    w' := At(w, p, Registering(key, if fails then [] else C.KeysAt(w.store, LISTING_SEARCH, w.past.now)));
    SearchIsCalm(tolerated, w, p, w'.procs[p]);
    Goes(env, from, tolerated, w, ReadIndex(p, fails), w');
  }

  lemma SearchWritesIndex(env: Env, from: World, tolerated: set<Fault>, w: World, p: nat, fails: bool) returns (w': World)
    requires Reaches(env, from, tolerated, w) && w.past.commits != [] && Calm(tolerated, w.procs - {p})
    requires p in w.procs && w.procs[p].Registering? && NamespaceOf(w.procs[p].key) == LISTING_SEARCH
    requires fails ==> IndexWriteFailed in tolerated
    ensures var written := Indexed(w.store, w.procs[p].key, w.procs[p].keys, w.past.now);
      w' == World(w.past, if fails then w.store else written, w.procs - {p})
    ensures Reaches(env, from, tolerated, w')
  {
    hide NamespaceOf, IndexKey, Reaches;
    w' := World(w.past, if fails then w.store else Indexed(w.store, w.procs[p].key, w.procs[p].keys, w.past.now), w.procs - {p});
    Goes(env, from, tolerated, w, WriteIndex(p, fails), w');
  }

  function Idle(past: Past, store: C.Store<seq<Entry>>): World {
    World(past, store, map[])
  }

  lemma SearchRegisters(env: Env, from: World, tolerated: set<Fault>, past: Past, store: C.Store<seq<Entry>>, key: string,
                        readFails: bool, writeFails: bool) returns (w': World)
    requires Reaches(env, from, tolerated, World(past, store, map[1 := Unregistered(key)]))
    requires past.commits != [] && NamespaceOf(key) == LISTING_SEARCH
    requires (readFails ==> IndexReadFailed in tolerated) && (writeFails ==> IndexWriteFailed in tolerated)
    ensures var keys := if readFails then [] else C.KeysAt(store, LISTING_SEARCH, past.now);
      w' == Idle(past, if writeFails then store else Indexed(store, key, keys, past.now))
    ensures Reaches(env, from, tolerated, w')
  {
    hide NamespaceOf, IndexKey, Reaches, Calm, Indexed, C.KeysAt;
    var w := World(past, store, map[1 := Unregistered(key)]);
    NobodyIsCalm(tolerated);
    assert w.procs - {1} == map[];
    var w1 := SearchReadsIndex(env, from, tolerated, w, 1, key, readFails);
    assert w1.procs - {1} == map[];
    w' := SearchWritesIndex(env, from, tolerated, w1, 1, writeFails);
  }

  lemma SameIndex(store: C.Store<seq<Entry>>, key: string, slot: C.Slot<seq<Entry>>, now: nat)
    requires key != INDEX
    ensures C.KeysAt(store[key := slot], LISTING_SEARCH, now) == C.KeysAt(store, LISTING_SEARCH, now)
  {
    hide IndexKey;
  }

  /** A whole search that misses, alone in the world. */
  lemma SearchRuns(env: Env, from: World, tolerated: set<Fault>, past: Past, store: C.Store<seq<Entry>>,
                   f: Filters, hits: seq<Hit>, readFails: bool, writeFails: bool) returns (w': World)
    requires EnvOk(env) && Reaches(env, from, tolerated, Idle(past, store)) && past.commits != []
    requires ValidAnswer(env.dist, Current(Idle(past, store)), f, hits)
    requires C.ValueAt(store, SearchKey(env, f), past.now) == None
    requires (readFails ==> IndexReadFailed in tolerated) && (writeFails ==> IndexWriteFailed in tolerated)
    ensures var key := SearchKey(env, f);
      var filled := store[key := SearchSlot(hits, past.now)];
      var keys := if readFails then [] else C.KeysAt(store, LISTING_SEARCH, past.now);
      w' == Idle(StoredNow(past, f, hits), if writeFails then filled else Indexed(filled, key, keys, past.now))
    ensures Reaches(env, from, tolerated, w')
  {
    var key := SearchKey(env, f);
    StoredKeyShape(env, f);
    NobodyIsCalm(tolerated);
    hide SearchKey, NamespaceOf, IndexKey, ValidAnswer, SearchError, SearchSlot, Reaches, EnvOk, Calm, Indexed;
    var w1 := SearchStores(env, from, tolerated, Idle(past, store), 1, f, hits);
    SameIndex(store, key, SearchSlot(hits, past.now), past.now);
    hide C.KeysAt, StoredNow;
    assert w1.procs == map[1 := Unregistered(key)];
    w' := SearchRegisters(env, from, tolerated, w1.past, w1.store, key, readFails, writeFails);
  }

  lemma NobodyIsCalm(tolerated: set<Fault>)
    ensures Calm(tolerated, map[])
  {
  }

  /** What a write deletes besides the index. */
  function Gone(keys: seq<string>, deleteFails: bool): set<string> {
    if deleteFails then {} else SetOf(keys)
  }

  function Committed(past: Past, id: Id, row: Listing): Past
    requires past.commits != []
  {
    past.(commits := past.commits + [Commit(past.commits[|past.commits| - 1].db[id := row], past.now)])
  }

  lemma WriteReads(env: Env, from: World, tolerated: set<Fault>, past: Past, store: C.Store<seq<Entry>>, id: Id, row: Listing,
                   keys: seq<string>, fails: bool)
    requires Reaches(env, from, tolerated, Idle(past, store)) && past.commits != []
    requires keys == (if fails then [] else C.KeysAt(store, LISTING_SEARCH, past.now))
    requires fails ==> ClearReadFailed in tolerated
    ensures Reaches(env, from, tolerated, World(past, store, map[0 := Clearing(id, row, keys)]))
  {
    hide IndexKey, Reaches, Overlapping, RegisteringTwice, C.KeysAt;
    var w1 := World(past, store, map[0 := Writing(id, row)]);
    var w2 := World(past, store, map[0 := Clearing(id, row, keys)]);
    AloneIsCalm(w1);
    AloneIsCalm(w2);
    assert Idle(past, store).procs[0 := w1.procs[0]] == w1.procs && w1.procs[0 := w2.procs[0]] == w2.procs;
    Goes(env, from, tolerated, Idle(past, store), Begin(0, id, row), w1);
    Goes(env, from, tolerated, w1, ReadForClear(0, fails), w2);
  }

  lemma WriteDeletes(env: Env, from: World, tolerated: set<Fault>, past: Past, store: C.Store<seq<Entry>>, id: Id, row: Listing,
                     keys: seq<string>, fails: bool)
    requires Reaches(env, from, tolerated, World(past, store, map[0 := Clearing(id, row, keys)])) && past.commits != []
    requires |keys| == 1 && (fails ==> DeleteFailed in tolerated)
    ensures Reaches(env, from, tolerated, World(past, store - Gone(keys, fails), map[0 := Clearing(id, row, [])]))
  {
    hide Reaches, Overlapping, RegisteringTwice;
    var w := World(past, store, map[0 := Clearing(id, row, keys)]);
    var w' := World(past, store - Gone(keys, fails), map[0 := Clearing(id, row, [])]);
    AloneIsCalm(w');
    assert fails ==> store - Gone(keys, fails) == store;
    assert keys[1..] == [] && SetOf(keys) == {keys[0]};
    assert w.procs[0 := w'.procs[0]] == w'.procs;
    Goes(env, from, tolerated, w, DeleteNext(0, fails), w');
  }

  lemma WriteCommits(env: Env, from: World, tolerated: set<Fault>, past: Past, store: C.Store<seq<Entry>>, id: Id, row: Listing)
      returns (w': World)
    requires Reaches(env, from, tolerated, World(past, store, map[0 := Clearing(id, row, [])])) && past.commits != []
    ensures w' == Idle(Committed(past, id, row), store - {INDEX})
    ensures Reaches(env, from, tolerated, w')
  {
    hide IndexKey, Reaches, Overlapping, RegisteringTwice;
    var w := World(past, store, map[0 := Clearing(id, row, [])]);
    var w1 := World(past, store - {INDEX}, map[0 := Committing(id, row)]);
    w' := Idle(Committed(past, id, row), store - {INDEX});
    AloneIsCalm(w1);
    AloneIsCalm(w');
    assert w.procs[0 := w1.procs[0]] == w1.procs;
    Goes(env, from, tolerated, w, DeleteIndex(0, false), w1);
    assert w1.procs - {0} == map[];
    Goes(env, from, tolerated, w1, CommitWrite(0), w');
  }

  /** A write, alone in the world, that finds at most one key in the index. */
  lemma WriteRuns(env: Env, from: World, tolerated: set<Fault>, past: Past, store: C.Store<seq<Entry>>, id: Id, row: Listing,
                  keys: seq<string>, readFails: bool, deleteFails: bool) returns (w': World)
    requires Reaches(env, from, tolerated, Idle(past, store)) && past.commits != []
    requires keys == (if readFails then [] else C.KeysAt(store, LISTING_SEARCH, past.now)) && |keys| <= 1
    requires (readFails ==> ClearReadFailed in tolerated) && (deleteFails ==> DeleteFailed in tolerated)
    ensures w' == Idle(Committed(past, id, row), store - Gone(keys, deleteFails) - {INDEX})
    ensures Reaches(env, from, tolerated, w')
  {
    assert keys == [] ==> store - Gone(keys, deleteFails) == store;
    hide IndexKey, Reaches, C.KeysAt, Gone;
    WriteReads(env, from, tolerated, past, store, id, row, keys, readFails);
    if keys != [] {
      WriteDeletes(env, from, tolerated, past, store, id, row, keys, deleteFails);
    }
    w' := WriteCommits(env, from, tolerated, past, store - Gone(keys, deleteFails), id, row);
  }

  lemma AloneIsCalm(w: World)
    requires w.procs.Keys <= {0}
    ensures !Overlapping(w) && !RegisteringTwice(w)
  {
  }
}
