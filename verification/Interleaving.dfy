/**
 * Searches and writes as processes whose single accesses to the cache and the database interleave
 * (apps/listings/services/listing_service.py, core/cache.py). Rows may also change behind the
 * service, slots may be evicted, accesses may fail, index updates may be lost, and a process may stop.
 */
module Interleaving {
  import opened Prelude
  import opened CacheKeys
  import opened Listings
  import opened Query
  import opened SearchKeys
  import opened Service
  import opened Staleness
  import C = Cache

  /**
   * Where a process stands inside its call. `seen` counts the commits made before a search began,
   * `version` is the snapshot it asked, at time `asked`.
   */
  datatype Phase =
    | Missed(f: Filters, seen: nat)
    | Queried(f: Filters, hits: seq<Hit>, version: nat, seen: nat, asked: nat)
    | Unregistered(key: string)
    | Registering(key: string, keys: seq<string>)
    | Found(f: Filters, entries: seq<Entry>, at: nat)
    | Answered(f: Filters, hits: seq<Hit>)
    | Writing(id: Id, row: Listing)
    | Clearing(id: Id, row: Listing, rest: seq<string>)
    | Committing(id: Id, row: Listing)

  datatype Commit = Commit(db: Table, at: nat)

  /** A value that some search stored, and where its rows came from. */
  datatype StoredBy = StoredBy(f: Filters, hits: seq<Hit>, version: nat, seen: nat, asked: nat, at: nat)

  /** The clock, the committed snapshots and the values stored so far. */
  datatype Past = Past(now: nat, commits: seq<Commit>, log: seq<StoredBy>)

  datatype World = World(past: Past, store: C.Store<seq<Entry>>, procs: map<nat, Phase>)

  /** `fails` stands for a cache access that raises inside the backend and is ignored. */
  datatype Act =
    | Tick(d: nat)
    | Direct(db: Table)                              // admin actions, restores, seeding
    | Evict(key: string)                             // culling, or a cache that drops a slot
    | Lookup(p: nat, f: Filters, fails: bool)        // cache.get in search
    | Ask(p: nat, hits: seq<Hit>)                    // the uncached query
    | Store(p: nat, fails: bool)                     // cache.set
    | ReadIndex(p: nat, fails: bool)                 // _register_key reads
    | WriteIndex(p: nat, fails: bool)                // _register_key writes
    | Rebuild(p: nat)                                // the primary key query of a hit
    | Begin(p: nat, id: Id, row: Listing)            // a write inside its transaction
    | ReadForClear(p: nat, fails: bool)
    | DeleteNext(p: nat, fails: bool)
    | DeleteIndex(p: nat, fails: bool)
    | CommitWrite(p: nat)
    | Stop(p: nat)                                   // an exception, a rollback, a worker that ends

  function Current(w: World): Table
    requires w.past.commits != []
  {
    w.past.commits[|w.past.commits| - 1].db
  }

  ghost predicate Enabled(env: Env, w: World, act: Act) {
    w.past.commits != [] &&
    match act
    case Tick(_) => true
    case Direct(_) => true
    case Evict(_) => true
    case Lookup(p, _, _) => p !in w.procs
    case Begin(p, _, _) => p !in w.procs
    case Ask(p, hits) => p in w.procs && w.procs[p].Missed? && ValidAnswer(env.dist, Current(w), w.procs[p].f, hits)
    case Store(p, _) => p in w.procs && w.procs[p].Queried?
    case ReadIndex(p, _) => p in w.procs && w.procs[p].Unregistered?
    case WriteIndex(p, _) => p in w.procs && w.procs[p].Registering?
    case Rebuild(p) => p in w.procs && w.procs[p].Found?
    case ReadForClear(p, _) => p in w.procs && w.procs[p].Writing?
    case DeleteNext(p, _) => p in w.procs && w.procs[p].Clearing? && w.procs[p].rest != []
    case DeleteIndex(p, _) => p in w.procs && w.procs[p].Clearing? && w.procs[p].rest == []
    case CommitWrite(p) => p in w.procs && w.procs[p].Committing?
    case Stop(p) => p in w.procs
  }

  function At(w: World, p: nat, phase: Phase): World {
    w.(procs := w.procs[p := phase])
  }

  /** A lookup drops a slot that it finds expired. */
  function LookedUp(w: World, key: string): World {
    w.(store := C.Touched(w.store, key, w.past.now))
  }

  function SearchSlot(hits: seq<Hit>, at: nat): C.Slot<seq<Entry>> {
    C.Slot(C.Data(Some(EntriesOf(hits))), at + SEARCH_TTL)
  }

  ghost function After(env: Env, w: World, act: Act): World
    requires Enabled(env, w, act)
  {
    match act
    case Tick(d) => w.(past := w.past.(now := w.past.now + d))
    case Direct(db) => w.(past := w.past.(commits := w.past.commits + [Commit(db, w.past.now)]))
    case Evict(key) => w.(store := w.store - {key})
    case Lookup(p, f, fails) =>
      var key := SearchKey(env, f);
      if fails then At(w, p, Missed(f, |w.past.commits|)) else
        LookedUp(w, key).(procs := w.procs[p :=
          match C.ValueAt(w.store, key, w.past.now)
          case Some(entries) => Found(f, entries, w.past.now)
          case None => Missed(f, |w.past.commits|)])
    case Ask(p, hits) =>
      At(w, p, Queried(w.procs[p].f, hits, |w.past.commits| - 1, w.procs[p].seen, w.past.now))
    case Store(p, fails) =>
      var q := w.procs[p];
      var key := SearchKey(env, q.f);
      var next := At(w, p, Unregistered(key));
      if fails then next else
        next.(store := w.store[key := SearchSlot(q.hits, w.past.now)],
              past := w.past.(log := w.past.log + [StoredBy(q.f, q.hits, q.version, q.seen, q.asked, w.past.now)]))
    case ReadIndex(p, fails) =>
      var key := w.procs[p].key;
      At(w, p, Registering(key, if fails then [] else C.KeysAt(w.store, NamespaceOf(key), w.past.now)))
    case WriteIndex(p, fails) =>
      var Registering(key, keys) := w.procs[p];
      var next := w.(procs := w.procs - {p});
      if fails then next else
        next.(store := w.store[IndexKey(NamespaceOf(key)) :=
          C.Slot(C.Index(if key in keys then keys else keys + [key]), w.past.now + C.INDEX_TTL)])
    case Rebuild(p) =>
      At(w, p, Answered(w.procs[p].f, Materialised(Current(w), w.procs[p].entries)))
    case Begin(p, id, row) => At(w, p, Writing(id, row))
    case ReadForClear(p, fails) =>
      At(w, p, Clearing(w.procs[p].id, w.procs[p].row,
                        if fails then [] else C.KeysAt(w.store, LISTING_SEARCH, w.past.now)))
    case DeleteNext(p, fails) =>
      var Clearing(id, row, rest) := w.procs[p];
      At(w, p, Clearing(id, row, rest[1..])).(store := if fails then w.store else w.store - {rest[0]})
    case DeleteIndex(p, fails) =>
      At(w, p, Committing(w.procs[p].id, w.procs[p].row)).(
        store := if fails then w.store else w.store - {IndexKey(LISTING_SEARCH)})
    case CommitWrite(p) =>
      w.(procs := w.procs - {p},
         past := w.past.(commits := w.past.commits + [Commit(Current(w)[w.procs[p].id := w.procs[p].row], w.past.now)]))
    case Stop(p) => w.(procs := w.procs - {p})
  }

  function Start(db: Table): World {
    World(Past(0, [Commit(db, 0)], []), map[], map[])
  }

  // ----- faults and runs -----

  /** What may come between a write and a later search. */
  datatype Fault =
    | Overlap            // a search holds rows while a write is clearing or not yet committed
    | LostUpdate         // two searches are between reading the index and writing it back
    | DirectChange       // rows change behind the service in a way a search can notice
    | IndexEvicted       // the cache drops the index
    | IndexReadFailed    // _register_key cannot read the index and starts a new one
    | IndexWriteFailed   // _register_key cannot write the index, or a search ends before it does
    | ClearReadFailed    // clear_namespace cannot read the index
    | DeleteFailed       // clear_namespace cannot delete an entry

  predicate HoldsRows(q: Phase) {
    q.Queried? || q.Unregistered? || q.Registering? || q.Found?
  }

  predicate Changing(q: Phase) {
    q.Clearing? || q.Committing?
  }

  ghost predicate Overlapping(w: World) {
    (exists p :: p in w.procs && HoldsRows(w.procs[p])) && (exists p :: p in w.procs && Changing(w.procs[p]))
  }

  ghost predicate RegisteringTwice(w: World) {
    exists p, q :: p in w.procs && q in w.procs && p != q && w.procs[p].Registering? && w.procs[q].Registering?
  }

  ghost predicate Commits(env: Env, w: World, act: Act, fault: Fault)
    requires Enabled(env, w, act)
  {
    match fault
    case Overlap => Overlapping(After(env, w, act))
    case LostUpdate => RegisteringTwice(After(env, w, act))
    case DirectChange => act.Direct? && !OnlyDeleted(Current(w), act.db)
    case IndexEvicted => act == Evict(IndexKey(LISTING_SEARCH))
    case IndexReadFailed => act.ReadIndex? && act.fails
    case IndexWriteFailed =>
      (act.WriteIndex? && act.fails) || (act.Stop? && (w.procs[act.p].Unregistered? || w.procs[act.p].Registering?))
    case ClearReadFailed => act.ReadForClear? && act.fails
    case DeleteFailed => act.DeleteNext? && act.fails
  }

  ghost predicate Permitted(env: Env, w: World, act: Act, tolerated: set<Fault>) {
    Enabled(env, w, act) && forall fault :: Commits(env, w, act, fault) ==> fault in tolerated
  }

  /** The acts lead from one world to another and commit tolerated faults only. */
  ghost predicate Leads(env: Env, w: World, acts: seq<Act>, tolerated: set<Fault>, w': World)
    decreases |acts|
  {
    if acts == [] then w == w'
    else Permitted(env, w, acts[0], tolerated) && Leads(env, After(env, w, acts[0]), acts[1..], tolerated, w')
  }

  const ALL_FAULTS: set<Fault> := {
    Overlap, LostUpdate, DirectChange, IndexEvicted, IndexReadFailed, IndexWriteFailed, ClearReadFailed, DeleteFailed }

  // ----- where cached values come from -----

  /**
   * The stored rows answered their query on the snapshot that was current when the search asked: it was
   * committed by then, whatever was committed after it was committed no earlier than that, and nothing
   * that was committed before the search began is missing from it.
   */
  ghost predicate Honest(env: Env, past: Past, s: StoredBy) {
    && s.asked <= s.at <= past.now
    && s.version < |past.commits|
    && past.commits[s.version].at <= s.asked
    && (forall i | s.version < i < |past.commits| :: s.asked <= past.commits[i].at)
    && s.seen <= s.version + 1
    && ValidAnswer(env.dist, past.commits[s.version].db, s.f, s.hits)
  }

  ghost predicate Caches(env: Env, s: StoredBy, key: string, entries: seq<Entry>) {
    SearchKey(env, s.f) == key && EntriesOf(s.hits) == entries
  }

  /** A data slot holds what some search stored, for sixty seconds from its storing. */
  ghost predicate SlotTraced(env: Env, past: Past, key: string, slot: C.Slot<seq<Entry>>) {
    slot.cell.Data? ==>
      && slot.cell.value.Some?
      && exists s :: s in past.log && Caches(env, s, key, slot.cell.value.value) && slot.expiry == s.at + SEARCH_TTL
  }

  ghost predicate PhaseTraced(env: Env, past: Past, q: Phase) {
    match q
    case Missed(_, seen) => seen <= |past.commits|
    case Queried(f, hits, version, seen, asked) => Honest(env, past, StoredBy(f, hits, version, seen, asked, past.now))
    case Found(f, entries, at) =>
      exists s :: s in past.log && Caches(env, s, SearchKey(env, f), entries) && s.at <= at < s.at + SEARCH_TTL
    case _ => true
  }

  ghost predicate PastTraced(env: Env, past: Past) {
    && (forall i | 0 <= i < |past.commits| :: past.commits[i].at <= past.now)
    && (forall s | s in past.log :: Honest(env, past, s))
  }

  ghost predicate Traced(env: Env, w: World) {
    && PastTraced(env, w.past)
    && (forall key | key in w.store :: SlotTraced(env, w.past, key, w.store[key]))
    && (forall p | p in w.procs :: PhaseTraced(env, w.past, w.procs[p]))
  }

  ghost predicate Continues(past: Past, past': Past) {
    && past.now <= past'.now && past.commits <= past'.commits && past.log <= past'.log
    && forall i | |past.commits| <= i < |past'.commits| :: past.now <= past'.commits[i].at <= past'.now
  }

  /** What was traced stays traced when time passes, commits are added and values are logged. */
  lemma TracesPersist(env: Env, past: Past, past': Past)
    requires Continues(past, past')
    ensures forall s :: Honest(env, past, s) ==> Honest(env, past', s)
    ensures forall key, slot :: SlotTraced(env, past, key, slot) ==> SlotTraced(env, past', key, slot)
    ensures forall q :: PhaseTraced(env, past, q) ==> PhaseTraced(env, past', q)
  {
    hide ValidAnswer, Caches;
    assert forall s | s in past.log :: s in past'.log;
    forall s | Honest(env, past, s)
      ensures Honest(env, past', s)
    {
      assert past'.commits[s.version] == past.commits[s.version];
    }
    forall q | PhaseTraced(env, past, q)
      ensures PhaseTraced(env, past', q)
    {
      if q.Queried? {
        assert Honest(env, past', StoredBy(q.f, q.hits, q.version, q.seen, q.asked, past.now));
      }
    }
  }

  /** A process moves on to a phase whose rows are traced already. */
  lemma PhaseChangeKeepsTraces(env: Env, w: World, p: nat, q: Phase)
    requires Traced(env, w) && PhaseTraced(env, w.past, q)
    ensures Traced(env, At(w, p, q))
  {
    hide PastTraced, SlotTraced, PhaseTraced;
  }

  lemma StoreIsTraced(env: Env, w: World, p: nat)
    requires Traced(env, w) && Enabled(env, w, Store(p, false))
    ensures Traced(env, After(env, w, Store(p, false)))
  {
    hide ValidAnswer, SearchKey, EntriesOf;
    var w' := After(env, w, Store(p, false));
    var q := w.procs[p];
    var s := StoredBy(q.f, q.hits, q.version, q.seen, q.asked, w.past.now);
    TracesPersist(env, w.past, w'.past);
    assert PhaseTraced(env, w.past, q);
    assert Honest(env, w'.past, s);
    assert s in w'.past.log && Caches(env, s, SearchKey(env, q.f), EntriesOf(q.hits));
    assert SlotTraced(env, w'.past, SearchKey(env, q.f), w'.store[SearchKey(env, q.f)]);
    hide Honest, SlotTraced, PhaseTraced, Caches;
  }

  lemma LookupIsTraced(env: Env, w: World, p: nat, f: Filters, fails: bool)
    requires Traced(env, w) && Enabled(env, w, Lookup(p, f, fails))
    ensures Traced(env, After(env, w, Lookup(p, f, fails)))
  {
    hide ValidAnswer, SearchKey, EntriesOf;
    var key := SearchKey(env, f);
    if fails {
      PhaseChangeKeepsTraces(env, w, p, Missed(f, |w.past.commits|));
    } else {
      var looked := LookedUp(w, key);
      assert Traced(env, looked) by {
        hide PastTraced, SlotTraced, PhaseTraced;
      }
      var q := After(env, w, Lookup(p, f, fails)).procs[p];
      assert PhaseTraced(env, w.past, q) by {
        assert q.Found? ==> SlotTraced(env, w.past, key, w.store[key]);
      }
      PhaseChangeKeepsTraces(env, looked, p, q);
    }
  }

  lemma AskIsTraced(env: Env, w: World, p: nat, hits: seq<Hit>)
    requires Traced(env, w) && Enabled(env, w, Ask(p, hits))
    ensures Traced(env, After(env, w, Ask(p, hits)))
  {
    hide ValidAnswer;
    var q := Queried(w.procs[p].f, hits, |w.past.commits| - 1, w.procs[p].seen, w.past.now);
    assert PhaseTraced(env, w.past, w.procs[p]);
    assert PhaseTraced(env, w.past, q);
    PhaseChangeKeepsTraces(env, w, p, q);
  }

  /** Nothing stored, looked up or asked: slots stay, go, or hold an index; phases stay or carry no rows. */
  ghost predicate Unremarkable(w: World, w': World) {
    && Continues(w.past, w'.past) && w'.past.log == w.past.log
    && (forall key | key in w'.store :: w'.store[key].cell.Index? || (key in w.store && w'.store[key] == w.store[key]))
    && (forall p | p in w'.procs ::
          || (p in w.procs && w'.procs[p] == w.procs[p])
          || (!w'.procs[p].Queried? && !w'.procs[p].Found? && !w'.procs[p].Missed?))
  }

  lemma UnremarkableKeepsTraces(env: Env, w: World, w': World)
    requires Traced(env, w) && Unremarkable(w, w')
    ensures Traced(env, w')
  {
    TracesPersist(env, w.past, w'.past);
    forall i | 0 <= i < |w'.past.commits|
      ensures w'.past.commits[i].at <= w'.past.now
    {
      if i < |w.past.commits| {
        assert w'.past.commits[i] == w.past.commits[i];
      }
    }
    hide Honest, Caches;
  }

  lemma OtherActsAreUnremarkable(env: Env, w: World, act: Act)
    requires Enabled(env, w, act) && !(act.Store? && !act.fails) && !act.Lookup? && !act.Ask?
    ensures Unremarkable(w, After(env, w, act))
  {
    hide ValidAnswer, SearchKey, EntriesOf, NamespaceOf, IndexKey, C.KeysAt, Materialised;
  }

  lemma StepKeepsTraces(env: Env, w: World, act: Act)
    requires Traced(env, w) && Enabled(env, w, act)
    ensures Traced(env, After(env, w, act))
  {
    hide Traced, Enabled, After, Unremarkable;
    if act.Store? && !act.fails {
      StoreIsTraced(env, w, act.p);
    } else if act.Lookup? {
      LookupIsTraced(env, w, act.p, act.f, act.fails);
    } else if act.Ask? {
      AskIsTraced(env, w, act.p, act.hits);
    } else {
      OtherActsAreUnremarkable(env, w, act);
      UnremarkableKeepsTraces(env, w, After(env, w, act));
    }
  }

  lemma {:induction false} LeadsKeepsTraces(env: Env, w: World, acts: seq<Act>, tolerated: set<Fault>, w': World)
    requires Traced(env, w) && Leads(env, w, acts, tolerated, w')
    ensures Traced(env, w')
    decreases |acts|
  {
    if acts != [] {
      hide Traced, Enabled, After, Commits;
      StepKeepsTraces(env, w, acts[0]);
      LeadsKeepsTraces(env, After(env, w, acts[0]), acts[1..], tolerated, w');
    }
  }

  lemma ReachedIsTraced(env: Env, db: Table, acts: seq<Act>, tolerated: set<Fault>, w: World)
    requires Leads(env, Start(db), acts, tolerated, w)
    ensures Traced(env, w)
  {
    LeadsKeepsTraces(env, Start(db), acts, tolerated, w);
  }

  /**
   * The staleness bound, under every interleaving and with every fault: the rows a hit answers with come
   * from a value stored less than sixty seconds before the lookup, for a query with the same key, on the
   * snapshot that was current when the storing search asked; they are rebuilt from the current table.
   */
  lemma HitsAreAtMostAMinuteOld(env: Env, db: Table, acts: seq<Act>, w: World, p: nat) returns (s: StoredBy)
    requires Leads(env, Start(db), acts, ALL_FAULTS, w)
    requires Enabled(env, w, Rebuild(p))
    ensures var Found(f, entries, at) := w.procs[p];
      && s in w.past.log && Honest(env, w.past, s) && Caches(env, s, SearchKey(env, f), entries)
      && s.at <= at < s.at + 60_000_000
      && After(env, w, Rebuild(p)).procs[p] == Answered(f, Materialised(Current(w), EntriesOf(s.hits)))
  {
    ReachedIsTraced(env, db, acts, ALL_FAULTS, w);
    hide Honest, SearchKey, ValidAnswer, EntriesOf, Leads;
    var q := w.procs[p];
    assert PhaseTraced(env, w.past, q);
    s :| s in w.past.log && Caches(env, s, SearchKey(env, q.f), q.entries) && s.at <= q.at < s.at + SEARCH_TTL;
  }

  /**
   * When a hit is exact nevertheless: if rows have only been deleted since the snapshots of the values
   * stored in the last minute before the lookup, the hit is a correct answer on the current table.
   */
  lemma HitIsExactAfterDeletionsOnly(env: Env, db: Table, acts: seq<Act>, w: World, p: nat)
    requires EnvOk(env)
    requires Leads(env, Start(db), acts, ALL_FAULTS, w)
    requires Enabled(env, w, Rebuild(p))
    requires forall s | s in w.past.log && w.procs[p].at < s.at + 60_000_000 ::
      && s.version < |w.past.commits|
      && OnlyDeleted(w.past.commits[s.version].db, Current(w))
      && !Collide(env, s.f, w.procs[p].f)
    ensures ValidAnswer(env.dist, Current(w), w.procs[p].f, Materialised(Current(w), w.procs[p].entries))
  {
    var s := HitsAreAtMostAMinuteOld(env, db, acts, w, p);
    hide ValidAnswer, SearchKey, EntriesOf, Collide, Materialised, Leads, EnvOk, OnlyDeleted;
    var snapshot := w.past.commits[s.version].db;
    SharedKeyAnswer(env, snapshot, s.f, w.procs[p].f, s.hits);
    DeletionsDoNotMakeStale(env.dist, snapshot, Current(w), w.procs[p].f, s.hits);
  }
}
