/** Runs without a fault: a hit always answers its query on the current table. */
module Discipline {
  import opened Prelude
  import opened CacheKeys
  import opened Listings
  import opened Query
  import opened SearchKeys
  import opened Service
  import opened Staleness
  import opened Interleaving
  import C = Cache

  /** Every hit, rebuilt now, is a correct answer, unless the digest of its payload collides with that of a stored one. */
  ghost predicate AnswersRight(env: Env, w: World)
    requires w.past.commits != []
  {
    forall p | p in w.procs && w.procs[p].Found? && NoCollision(env, w.past, w.procs[p].f) ::
      ValidAnswer(env.dist, Current(w), w.procs[p].f, Materialised(Current(w), w.procs[p].entries))
  }

  ghost predicate NoCollision(env: Env, past: Past, f: Filters) {
    forall s | s in past.log :: !Collide(env, s.f, f)
  }

  // ----- the invariant -----

  const INDEX: string := IndexKey(LISTING_SEARCH)

  predicate LiveData(w: World, key: string) {
    C.Live(w.store, key, w.past.now) && w.store[key].cell.Data?
  }

  /** Since the snapshot, rows were deleted at most. */
  ghost predicate Fresh(past: Past, version: nat) {
    version < |past.commits| && OnlyDeleted(past.commits[version].db, past.commits[|past.commits| - 1].db)
  }

  ghost predicate FreshSource(env: Env, past: Past, key: string, entries: seq<Entry>) {
    exists s :: s in past.log && Caches(env, s, key, entries) && Fresh(past, s.version)
  }

  /** Some search is about to register the key. */
  predicate Registers(q: Phase, key: string) {
    (q.Unregistered? || q.Registering?) && q.key == key
  }

  predicate Listed(w: World, key: string)
    requires key in w.store
  {
    && C.Live(w.store, INDEX, w.past.now)
    && w.store[INDEX].cell.Index?
    && key in w.store[INDEX].cell.keys
    && w.store[key].expiry <= w.store[INDEX].expiry
  }

  ghost predicate DataSound(env: Env, w: World, key: string)
    requires key in w.store && w.store[key].cell.Data?
  {
    && w.store[key].cell.value.Some?
    && FreshSource(env, w.past, key, w.store[key].cell.value.value)
    && w.store[key].expiry <= w.past.now + SEARCH_TTL
    && ((exists p :: p in w.procs && Registers(w.procs[p], key)) || Listed(w, key))
  }

  predicate Registrable(key: string) {
    NamespaceOf(key) == LISTING_SEARCH && key != INDEX
  }

  ghost predicate PhaseSound(env: Env, w: World, q: Phase) {
    match q
    case Queried(_, _, version, _, _) => Fresh(w.past, version)
    case Found(f, entries, _) => FreshSource(env, w.past, SearchKey(env, f), entries)
    case Unregistered(key) => Registrable(key)
    case Registering(key, keys) =>
      Registrable(key) && INDEX !in keys && forall x | x in C.KeysAt(w.store, LISTING_SEARCH, w.past.now) :: x in keys
    case Clearing(_, _, rest) => INDEX !in rest && forall key | LiveData(w, key) :: key in rest
    case Committing(_, _) => forall key :: !LiveData(w, key)
    case _ => true
  }

  ghost predicate Sound(env: Env, w: World) {
    && w.past.commits != []
    && !Overlapping(w) && !RegisteringTwice(w)
    && INDEX !in C.KeysAt(w.store, LISTING_SEARCH, 0)
    && (forall key | LiveData(w, key) :: DataSound(env, w, key))
    && (forall p | p in w.procs :: PhaseSound(env, w, w.procs[p]))
  }

  lemma StartIsSound(env: Env, db: Table)
    ensures Sound(env, Start(db))
  {
    hide IndexKey;
  }

  // ----- what soundness gives -----

  /** Deletions on deletions are deletions. */
  lemma FreshLonger(past: Past, past': Past, version: nat)
    requires Fresh(past, version) && past.commits <= past'.commits
    requires OnlyDeleted(past.commits[|past.commits| - 1].db, past'.commits[|past'.commits| - 1].db)
    ensures Fresh(past', version)
  {
    assert past'.commits[version] == past.commits[version];
  }

  lemma FreshSourceAnswersRight(env: Env, w: World, f: Filters, entries: seq<Entry>)
    requires EnvOk(env) && PastTraced(env, w.past) && w.past.commits != [] && NoCollision(env, w.past, f)
    requires FreshSource(env, w.past, SearchKey(env, f), entries)
    ensures ValidAnswer(env.dist, Current(w), f, Materialised(Current(w), entries))
  {
    hide ValidAnswer, SearchKey, EntriesOf, Collide, Materialised, EnvOk, OnlyDeleted;
    var s :| s in w.past.log && Caches(env, s, SearchKey(env, f), entries) && Fresh(w.past, s.version);
    assert Honest(env, w.past, s) && !Collide(env, s.f, f);
    hide PastTraced, NoCollision;
    var snapshot := w.past.commits[s.version].db;
    SharedKeyAnswer(env, snapshot, s.f, f, s.hits);
    DeletionsDoNotMakeStale(env.dist, snapshot, Current(w), f, s.hits);
  }

  lemma SoundAnswersRight(env: Env, w: World)
    requires EnvOk(env) && Traced(env, w) && Sound(env, w)
    ensures AnswersRight(env, w)
  {
    hide ValidAnswer, SearchKey, NoCollision, Materialised, EnvOk, PastTraced, FreshSource;
    forall p | p in w.procs && w.procs[p].Found? && NoCollision(env, w.past, w.procs[p].f)
      ensures ValidAnswer(env.dist, Current(w), w.procs[p].f, Materialised(Current(w), w.procs[p].entries))
    {
      assert PhaseSound(env, w, w.procs[p]);
      FreshSourceAnswersRight(env, w, w.procs[p].f, w.procs[p].entries);
    }
  }

  // ----- every permitted act keeps it -----

  /** A process moves on; if it was about to register a key, it still is. */
  lemma PhaseChangeKeepsSound(env: Env, w: World, p: nat, q: Phase)
    requires Sound(env, w) && PhaseSound(env, w, q)
    requires !Overlapping(At(w, p, q)) && !RegisteringTwice(At(w, p, q))
    requires p in w.procs ==> forall key :: Registers(w.procs[p], key) ==> Registers(q, key)
    ensures Sound(env, At(w, p, q))
  {
    var w' := At(w, p, q);
    hide IndexKey, FreshSource, Overlapping, RegisteringTwice, Registrable, NamespaceOf, Registers;
    forall key | LiveData(w', key)
      ensures DataSound(env, w', key)
    {
      assert LiveData(w, key) && DataSound(env, w, key);
      if r :| r in w.procs && Registers(w.procs[r], key) {
        assert r in w'.procs && Registers(w'.procs[r], key);
      }
    }
    forall r | r in w'.procs
      ensures PhaseSound(env, w', w'.procs[r])
    {
      assert forall key :: LiveData(w', key) == LiveData(w, key);
      assert PhaseSound(env, w, w'.procs[r]);
    }
  }

  /** Time passes, rows are deleted behind the service, or slots go, but not a live index of live values. */
  ghost predicate Fades(w: World, w': World) {
    && w'.procs == w.procs
    && w.past.now <= w'.past.now && w.past.commits <= w'.past.commits && w.past.log == w'.past.log
    && w.past.commits != []
    && OnlyDeleted(Current(w), w'.past.commits[|w'.past.commits| - 1].db)
    && (forall key | key in w'.store :: key in w.store && w'.store[key] == w.store[key])
    && (C.Live(w.store, INDEX, w'.past.now) && INDEX !in w'.store ==> forall key :: !LiveData(w', key))
  }

  lemma FadingKeepsSound(env: Env, w: World, w': World)
    requires Sound(env, w) && Fades(w, w')
    ensures Sound(env, w')
  {
    hide IndexKey, Caches, OnlyDeleted, Registrable, NamespaceOf, Registers, Fresh;
    assert forall version :: Fresh(w.past, version) ==> Fresh(w'.past, version) by {
      forall version | Fresh(w.past, version)
        ensures Fresh(w'.past, version)
      {
        FreshLonger(w.past, w'.past, version);
      }
    }
    assert forall key, entries :: FreshSource(env, w.past, key, entries) ==> FreshSource(env, w'.past, key, entries);
    hide FreshSource;
    assert forall key :: LiveData(w', key) ==> LiveData(w, key);
    forall key | LiveData(w', key)
      ensures DataSound(env, w', key)
    {
      assert DataSound(env, w, key);
    }
    forall r | r in w'.procs
      ensures PhaseSound(env, w', w'.procs[r])
    {
      assert PhaseSound(env, w, w.procs[r]);
    }
  }

  /** The key of an answer that is about to be stored, or was not, can be registered. */
  lemma QueriedKeyIsRegistrable(env: Env, past: Past, q: Phase)
    requires EnvOk(env) && q.Queried? && PhaseTraced(env, past, q)
    ensures Registrable(SearchKey(env, q.f))
  {
    hide SearchKey, IndexKey, NamespaceOf, EnvOk, Ordering;
    StoredKeyShape(env, q.f);
  }

  /** A slot is filled with fresh entries and its key is about to be registered. */
  ghost predicate Fills(env: Env, w: World, p: nat, key: string, s: StoredBy, w': World) {
    && w' == World(w.past.(log := w.past.log + [s]), w.store[key := SearchSlot(s.hits, w.past.now)], w.procs[p := Unregistered(key)])
    && w.past.commits != [] && p in w.procs && w.procs[p].Queried?
    && Registrable(key) && Caches(env, s, key, EntriesOf(s.hits)) && Fresh(w.past, s.version)
  }

  lemma SourcesRemain(env: Env, w: World, p: nat, key: string, s: StoredBy, w': World)
    requires Fills(env, w, p, key, s, w')
    ensures FreshSource(env, w'.past, key, EntriesOf(s.hits))
    ensures forall version :: Fresh(w.past, version) ==> Fresh(w'.past, version)
    ensures forall k, entries :: FreshSource(env, w.past, k, entries) ==> FreshSource(env, w'.past, k, entries)
  {
    hide Caches, EntriesOf, OnlyDeleted, Registrable, SearchSlot;
    assert s in w'.past.log && Fresh(w'.past, s.version);
    assert forall s | s in w.past.log :: s in w'.past.log && (Fresh(w.past, s.version) ==> Fresh(w'.past, s.version));
  }

  lemma FilledSlotIsSound(env: Env, w: World, p: nat, key: string, s: StoredBy, w': World)
    requires Fills(env, w, p, key, s, w')
    ensures key in w'.store && w'.store[key].cell.Data? && DataSound(env, w', key)
  {
    SourcesRemain(env, w, p, key, s, w');
    hide Caches, EntriesOf, Fresh, FreshSource, IndexKey, NamespaceOf, Listed;
    assert p in w'.procs && Registers(w'.procs[p], key);
  }

  /** A slot that stays is as sound as before when its key is still awaited or listed. */
  lemma KeptSlotIsSound(env: Env, w: World, w': World, k: string)
    requires k in w.store && w.store[k].cell.Data? && DataSound(env, w, k)
    requires k in w'.store && w'.store[k] == w.store[k] && w'.past.now == w.past.now
    requires INDEX in w.store ==> INDEX in w'.store && w'.store[INDEX] == w.store[INDEX]
    requires forall key, entries :: FreshSource(env, w.past, key, entries) ==> FreshSource(env, w'.past, key, entries)
    requires forall r | r in w.procs && Registers(w.procs[r], k) :: r in w'.procs && Registers(w'.procs[r], k)
    ensures DataSound(env, w', k)
  {
    hide IndexKey, FreshSource, Registers;
  }

  lemma FilledDataIsSound(env: Env, w: World, p: nat, key: string, s: StoredBy, w': World, k: string)
    requires Sound(env, w) && Fills(env, w, p, key, s, w') && LiveData(w', k)
    ensures DataSound(env, w', k)
  {
    if k == key {
      FilledSlotIsSound(env, w, p, key, s, w');
    } else {
      SourcesRemain(env, w, p, key, s, w');
      OtherSlotsStay(env, w, p, key, s, w', k);
      hide Sound, DataSound, Fills, FreshSource, LiveData, Registers;
      SoundData(env, w, k);
      KeptSlotIsSound(env, w, w', k);
    }
  }

  lemma OtherSlotsStay(env: Env, w: World, p: nat, key: string, s: StoredBy, w': World, k: string)
    requires Fills(env, w, p, key, s, w') && LiveData(w', k) && k != key
    ensures LiveData(w, k) && k in w.store && k in w'.store && w'.store[k] == w.store[k] && w'.past.now == w.past.now
    ensures INDEX in w.store ==> INDEX in w'.store && w'.store[INDEX] == w.store[INDEX]
    ensures forall r | r in w.procs && Registers(w.procs[r], k) :: r in w'.procs && Registers(w'.procs[r], k)
  {
    hide Caches, EntriesOf, Fresh, IndexKey, NamespaceOf, SearchSlot;
  }

  lemma SoundData(env: Env, w: World, k: string)
    requires Sound(env, w) && LiveData(w, k)
    ensures DataSound(env, w, k)
  {
  }

  lemma OtherPhasesStaySound(env: Env, w: World, w': World, q: Phase)
    requires PhaseSound(env, w, q) && !Changing(q)
    requires forall version :: Fresh(w.past, version) ==> Fresh(w'.past, version)
    requires forall key, entries :: FreshSource(env, w.past, key, entries) ==> FreshSource(env, w'.past, key, entries)
    requires C.KeysAt(w'.store, LISTING_SEARCH, w'.past.now) == C.KeysAt(w.store, LISTING_SEARCH, w.past.now)
    ensures PhaseSound(env, w', q)
  {
    hide FreshSource, Fresh, C.KeysAt, IndexKey, Registrable;
  }

  lemma FilledPhasesAreSound(env: Env, w: World, p: nat, key: string, s: StoredBy, w': World, q: Phase)
    requires Fills(env, w, p, key, s, w')
    requires PhaseSound(env, w, q) && !Changing(q)
    ensures PhaseSound(env, w', q)
  {
    SourcesRemain(env, w, p, key, s, w');
    FilledIndexStays(env, w, p, key, s, w');
    hide C.KeysAt, Fills, Fresh, FreshSource, PhaseSound;
    OtherPhasesStaySound(env, w, w', q);
  }

  lemma FilledIndexStays(env: Env, w: World, p: nat, key: string, s: StoredBy, w': World)
    requires Fills(env, w, p, key, s, w')
    ensures C.KeysAt(w'.store, LISTING_SEARCH, w'.past.now) == C.KeysAt(w.store, LISTING_SEARCH, w.past.now)
  {
    hide IndexKey, SearchSlot, NamespaceOf, Caches, Fresh;
  }

  lemma FillingKeepsSound(env: Env, w: World, p: nat, key: string, s: StoredBy, w': World)
    requires Sound(env, w) && Fills(env, w, p, key, s, w') && !Overlapping(w')
    ensures Sound(env, w')
  {
    NobodyChanges(w', p);
    hide Caches, EntriesOf, FreshSource, Fresh, IndexKey, NamespaceOf, DataSound, Overlapping, PhaseSound, LiveData, SearchSlot;
    assert C.KeysAt(w'.store, LISTING_SEARCH, 0) == C.KeysAt(w.store, LISTING_SEARCH, 0);
    forall k | LiveData(w', k)
      ensures DataSound(env, w', k)
    {
      FilledDataIsSound(env, w, p, key, s, w', k);
    }
    forall r | r in w'.procs
      ensures PhaseSound(env, w', w'.procs[r])
    {
      if r == p {
        RegistrableIsSound(env, w', key);
      } else {
        FilledPhasesAreSound(env, w, p, key, s, w', w.procs[r]);
      }
    }
  }

  lemma RegistrableIsSound(env: Env, w: World, key: string)
    requires Registrable(key)
    ensures PhaseSound(env, w, Unregistered(key))
  {
  }

  lemma StoringKeepsSound(env: Env, w: World, p: nat)
    requires EnvOk(env) && Traced(env, w) && Sound(env, w) && Enabled(env, w, Store(p, false))
    requires !Overlapping(After(env, w, Store(p, false)))
    ensures Sound(env, After(env, w, Store(p, false)))
  {
    var q := w.procs[p];
    assert PhaseTraced(env, w.past, q) && PhaseSound(env, w, q);
    hide Sound, Traced, SearchKey, IndexKey, NamespaceOf, EntriesOf, SearchSlot;
    QueriedKeyIsRegistrable(env, w.past, q);
    hide ValidAnswer, EnvOk, PhaseTraced, Registrable;
    var s := StoredBy(q.f, q.hits, q.version, q.seen, q.asked, w.past.now);
    assert Fills(env, w, p, SearchKey(env, q.f), s, After(env, w, Store(p, false)));
    FillingKeepsSound(env, w, p, SearchKey(env, q.f), s, After(env, w, Store(p, false)));
  }

  lemma NobodyChanges(w: World, p: nat)
    requires !Overlapping(w) && p in w.procs && HoldsRows(w.procs[p])
    ensures forall r | r in w.procs :: !Changing(w.procs[r])
  {
  }

  lemma NobodyHoldsRows(w: World, p: nat)
    requires !Overlapping(w) && p in w.procs && Changing(w.procs[p])
    ensures forall r | r in w.procs :: !HoldsRows(w.procs[r])
  {
  }

  lemma ListedIsRead(w: World, key: string)
    requires key in w.store && Listed(w, key)
    ensures key in C.KeysAt(w.store, LISTING_SEARCH, w.past.now)
  {
    hide IndexKey;
  }

  /** The index is written with the key of the process and at least the keys that are listed. */
  ghost predicate Indexes(env: Env, w: World, p: nat, keys: seq<string>, w': World) {
    && w' == World(w.past, w.store[INDEX := C.Slot(C.Index(keys), w.past.now + C.INDEX_TTL)], w.procs - {p})
    && p in w.procs && w.procs[p].Registering? && w.procs[p].key in keys && INDEX !in keys
    && forall x | x in C.KeysAt(w.store, LISTING_SEARCH, w.past.now) :: x in keys
  }

  lemma IndexedDataIsSound(env: Env, w: World, p: nat, keys: seq<string>, w': World, k: string)
    requires Sound(env, w) && Indexes(env, w, p, keys, w') && LiveData(w', k)
    ensures DataSound(env, w', k)
  {
    hide IndexKey, NamespaceOf, FreshSource, Overlapping, RegisteringTwice, PhaseSound, C.KeysAt;
    assert LiveData(w, k) && DataSound(env, w, k);
    hide Sound;
    if k in keys {
      assert Listed(w', k);
    } else {
      assert !Listed(w, k) by {
        if Listed(w, k) {
          ListedIsRead(w, k);
        }
      }
      var r :| r in w.procs && Registers(w.procs[r], k);
      assert r in w'.procs && Registers(w'.procs[r], k);
    }
  }

  lemma IndexingKeepsSound(env: Env, w: World, p: nat, keys: seq<string>, w': World)
    requires Sound(env, w) && Indexes(env, w, p, keys, w')
    ensures Sound(env, w')
  {
    NobodyChanges(w, p);
    assert C.KeysAt(w'.store, LISTING_SEARCH, 0) == keys && INDEX !in keys by {
      hide IndexKey;
    }
    assert !Overlapping(w') && !RegisteringTwice(w') && NobodyElseRegisters(w, p);
    hide IndexKey, NamespaceOf, FreshSource, Fresh, DataSound, LiveData, C.KeysAt, Overlapping, RegisteringTwice;
    forall k | LiveData(w', k)
      ensures DataSound(env, w', k)
    {
      IndexedDataIsSound(env, w, p, keys, w', k);
    }
    forall r | r in w'.procs
      ensures PhaseSound(env, w', w'.procs[r])
    {
      assert PhaseSound(env, w, w.procs[r]);
    }
  }

  ghost predicate NobodyElseRegisters(w: World, p: nat) {
    forall r | r in w.procs && r != p :: !w.procs[r].Registering?
  }

  lemma WritingIndexKeepsSound(env: Env, w: World, p: nat)
    requires Sound(env, w) && Enabled(env, w, WriteIndex(p, false))
    ensures Sound(env, After(env, w, WriteIndex(p, false)))
  {
    var Registering(key, keys) := w.procs[p];
    assert PhaseSound(env, w, w.procs[p]);
    var all := if key in keys then keys else keys + [key];
    hide Sound, IndexKey, C.KeysAt;
    assert Indexes(env, w, p, all, After(env, w, WriteIndex(p, false))) by {
      hide NamespaceOf;
      assert NamespaceOf(key) == LISTING_SEARCH;
    }
    IndexingKeepsSound(env, w, p, all, After(env, w, WriteIndex(p, false)));
  }

  lemma CommittingKeepsSound(env: Env, w: World, p: nat)
    requires Sound(env, w) && Enabled(env, w, CommitWrite(p))
    ensures Sound(env, After(env, w, CommitWrite(p)))
  {
    var w' := After(env, w, CommitWrite(p));
    assert PhaseSound(env, w, w.procs[p]);
    NobodyHoldsRows(w, p);
    hide IndexKey, NamespaceOf, FreshSource, Fresh, HoldsRows, DataSound;
    assert forall k :: LiveData(w', k) == LiveData(w, k);
    forall r | r in w'.procs
      ensures PhaseSound(env, w', w'.procs[r])
    {
      assert PhaseSound(env, w, w.procs[r]) && !HoldsRows(w.procs[r]);
    }
  }

  /** Whatever a process had done when it stopped, unless it owed the index a key. */
  lemma StoppingKeepsSound(env: Env, w: World, p: nat)
    requires Sound(env, w) && Enabled(env, w, Stop(p)) && !w.procs[p].Unregistered? && !w.procs[p].Registering?
    ensures Sound(env, After(env, w, Stop(p)))
  {
    var w' := After(env, w, Stop(p));
    hide IndexKey, NamespaceOf, FreshSource, Fresh, Registrable;
    forall key | LiveData(w', key)
      ensures DataSound(env, w', key)
    {
      assert LiveData(w, key) && DataSound(env, w, key);
      if r :| r in w.procs && Registers(w.procs[r], key) {
        assert r in w'.procs && Registers(w'.procs[r], key);
      }
    }
    assert forall key :: LiveData(w', key) == LiveData(w, key);
    hide DataSound, LiveData;
    forall r | r in w'.procs
      ensures PhaseSound(env, w', w'.procs[r])
    {
      assert PhaseSound(env, w, w.procs[r]);
    }
  }

  lemma DeletionFades(w: World, gone: set<string>)
    requires w.past.commits != [] && (INDEX in gone ==> forall key :: !LiveData(w, key))
    ensures Fades(w, w.(store := w.store - gone))
    ensures forall key :: LiveData(w.(store := w.store - gone), key) <==> LiveData(w, key) && key !in gone
  {
    hide IndexKey;
    var mid := w.(store := w.store - gone);
    forall key
      ensures LiveData(mid, key) <==> LiveData(w, key) && key !in gone
    {
    }
  }

  lemma ClearingFades(env: Env, w: World, act: Act)
    requires Sound(env, w) && Enabled(env, w, act) && (act.DeleteNext? || act.DeleteIndex?)
    requires act.DeleteNext? ==> !act.fails
    ensures var mid := w.(store := After(env, w, act).store);
      Fades(w, mid) && PhaseSound(env, mid, After(env, w, act).procs[act.p])
  {
    assert PhaseSound(env, w, w.procs[act.p]);
    hide IndexKey, Sound, LiveData, Fades;
    if act.DeleteNext? {
      DeletionFades(w, {w.procs[act.p].rest[0]});
    } else {
      DeletionFades(w, {INDEX});
      DeletionFades(w, {});
      assert w.store - {} == w.store;
    }
  }

  /** One key of the clear, or the index after the last one. */
  lemma ClearingKeepsSound(env: Env, w: World, act: Act)
    requires Sound(env, w) && Enabled(env, w, act) && (act.DeleteNext? || act.DeleteIndex?)
    requires act.DeleteNext? ==> !act.fails
    requires !Overlapping(After(env, w, act))
    ensures Sound(env, After(env, w, act))
  {
    var w' := After(env, w, act);
    var mid := w.(store := w'.store);
    ClearingFades(env, w, act);
    hide IndexKey, NamespaceOf, DataSound, PhaseSound, Fades, Sound, Overlapping, LiveData;
    FadingKeepsSound(env, w, mid);
    SoundIsCalm(env, mid);
    assert w' == At(mid, act.p, w'.procs[act.p]);
    assert !RegisteringTwice(w');
    hide RegisteringTwice;
    PhaseChangeKeepsSound(env, mid, act.p, w'.procs[act.p]);
  }

  lemma FoundIsFresh(env: Env, w: World, p: nat, f: Filters)
    requires Sound(env, w) && Enabled(env, w, Lookup(p, f, false))
    ensures PhaseSound(env, LookedUp(w, SearchKey(env, f)), After(env, w, Lookup(p, f, false)).procs[p])
  {
    hide SearchKey, FreshSource, IndexKey;
    var key := SearchKey(env, f);
    if C.ValueAt(w.store, key, w.past.now).Some? {
      assert LiveData(w, key) && DataSound(env, w, key);
    }
  }

  lemma LookingKeepsSound(env: Env, w: World, p: nat, f: Filters)
    requires Sound(env, w) && Enabled(env, w, Lookup(p, f, false))
    requires !Overlapping(After(env, w, Lookup(p, f, false)))
    ensures Sound(env, After(env, w, Lookup(p, f, false)))
  {
    var w' := After(env, w, Lookup(p, f, false));
    var looked := LookedUp(w, SearchKey(env, f));
    FoundIsFresh(env, w, p, f);
    hide SearchKey, IndexKey, Sound, PhaseSound;
    assert Fades(w, looked);
    FadingKeepsSound(env, w, looked);
    assert w' == At(looked, p, w'.procs[p]);
    assert !RegisteringTwice(w') by {
      hide PhaseSound, DataSound;
      SoundIsCalm(env, looked);
    }
    PhaseChangeKeepsSound(env, looked, p, w'.procs[p]);
  }

  lemma SoundIsCalm(env: Env, w: World)
    requires Sound(env, w)
    ensures !Overlapping(w) && !RegisteringTwice(w)
  {
  }

  lemma ReadForClearSeesAll(env: Env, w: World, p: nat)
    requires Sound(env, w) && Enabled(env, w, ReadForClear(p, false))
    requires !Overlapping(After(env, w, ReadForClear(p, false)))
    ensures PhaseSound(env, w, After(env, w, ReadForClear(p, false)).procs[p])
  {
    hide IndexKey, FreshSource;
    var w' := After(env, w, ReadForClear(p, false));
    NobodyHoldsRows(w', p);
    assert forall r | r in w.procs && r != p :: w'.procs[r] == w.procs[r];
    assert forall r | r in w.procs :: !HoldsRows(w.procs[r]);
    forall key | LiveData(w, key)
      ensures key in w'.procs[p].rest
    {
      assert DataSound(env, w, key);
    }
  }

  predicate ChangesPhaseOnly(act: Act) {
    || (act.Store? && act.fails) || (act.Lookup? && act.fails)
    || act.Ask? || act.ReadIndex? || act.Begin? || act.Rebuild? || act.ReadForClear?
  }

  lemma ReadIndexSeesAll(env: Env, w: World, p: nat)
    requires Sound(env, w) && Enabled(env, w, ReadIndex(p, false))
    ensures PhaseSound(env, w, After(env, w, ReadIndex(p, false)).procs[p])
  {
    hide IndexKey, NamespaceOf, DataSound, Overlapping, RegisteringTwice;
    assert PhaseSound(env, w, w.procs[p]);
  }

  lemma AskedIsFresh(env: Env, w: World, p: nat, hits: seq<Hit>)
    requires Enabled(env, w, Ask(p, hits))
    ensures PhaseSound(env, w, After(env, w, Ask(p, hits)).procs[p])
  {
    hide ValidAnswer;
  }

  lemma UnstoredIsRegistrable(env: Env, w: World, p: nat)
    requires EnvOk(env) && Traced(env, w) && Enabled(env, w, Store(p, true))
    ensures PhaseSound(env, w, After(env, w, Store(p, true)).procs[p])
  {
    hide SearchKey, EnvOk, PastTraced, SlotTraced, PhaseTraced, Registrable;
    QueriedKeyIsRegistrable(env, w.past, w.procs[p]);
  }

  lemma NextPhaseIsSound(env: Env, w: World, act: Act)
    requires EnvOk(env) && Traced(env, w) && Sound(env, w) && Permitted(env, w, act, {})
    requires ChangesPhaseOnly(act)
    ensures PhaseSound(env, w, After(env, w, act).procs[act.p])
  {
    hide IndexKey, SearchKey, ValidAnswer, Materialised, EnvOk, Traced, Sound, Overlapping, C.KeysAt, C.ValueAt;
    assert !Commits(env, w, act, Overlap) && !Commits(env, w, act, ClearReadFailed) && !Commits(env, w, act, IndexReadFailed);
    match act {
      case Store(p, _) => UnstoredIsRegistrable(env, w, p);
      case Ask(p, hits) => AskedIsFresh(env, w, p, hits);
      case ReadForClear(p, fails) => ReadForClearSeesAll(env, w, p);
      case ReadIndex(p, fails) => ReadIndexSeesAll(env, w, p);
      case _ =>
    }
  }

  lemma StepKeepsSound(env: Env, w: World, act: Act)
    requires EnvOk(env) && Traced(env, w) && Sound(env, w) && Permitted(env, w, act, {})
    ensures Sound(env, After(env, w, act))
  {
    hide EnvOk, Traced, Sound, After, Enabled, Overlapping, RegisteringTwice;
    assert !Commits(env, w, act, Overlap) && !Commits(env, w, act, LostUpdate);
    if act.Tick? || act.Direct? || act.Evict? {
      UnaidedFading(env, w, act);
      FadingKeepsSound(env, w, After(env, w, act));
    } else if act.DeleteNext? || act.DeleteIndex? {
      assert !Commits(env, w, act, DeleteFailed);
      ClearingKeepsSound(env, w, act);
    } else if act.CommitWrite? {
      CommittingKeepsSound(env, w, act.p);
    } else if act.WriteIndex? {
      assert !Commits(env, w, act, IndexWriteFailed);
      WritingIndexKeepsSound(env, w, act.p);
    } else if act.Store? && !act.fails {
      StoringKeepsSound(env, w, act.p);
    } else if act.Lookup? && !act.fails {
      LookingKeepsSound(env, w, act.p, act.f);
    } else if act.Stop? {
      assert !Commits(env, w, act, IndexWriteFailed);
      StoppingKeepsSound(env, w, act.p);
    } else {
      NextPhaseIsSound(env, w, act);
      AnotherPhase(env, w, act);
      PhaseChangeKeepsSound(env, w, act.p, After(env, w, act).procs[act.p]);
    }
  }

  lemma UnaidedFading(env: Env, w: World, act: Act)
    requires Permitted(env, w, act, {}) && (act.Tick? || act.Direct? || act.Evict?)
    ensures Fades(w, After(env, w, act))
  {
    assert !Commits(env, w, act, DirectChange) && !Commits(env, w, act, IndexEvicted);
    hide IndexKey;
  }

  lemma AnotherPhase(env: Env, w: World, act: Act)
    requires Enabled(env, w, act)
    requires ChangesPhaseOnly(act)
    ensures var w' := After(env, w, act);
      && act.p in w'.procs && w' == At(w, act.p, w'.procs[act.p])
      && (act.p in w.procs ==> forall key :: Registers(w.procs[act.p], key) ==> Registers(w'.procs[act.p], key))
  {
    hide IndexKey, NamespaceOf, SearchKey, ValidAnswer, Materialised;
  }

  lemma {:induction false} RunKeepsSound(env: Env, w: World, acts: seq<Act>, w': World)
    requires EnvOk(env) && Traced(env, w) && Sound(env, w) && Leads(env, w, acts, {}, w')
    ensures Traced(env, w') && Sound(env, w')
    decreases |acts|
  {
    if acts != [] {
      hide EnvOk, Traced, Sound, Enabled, After, Commits;
      StepKeepsTraces(env, w, acts[0]);
      StepKeepsSound(env, w, acts[0]);
      RunKeepsSound(env, After(env, w, acts[0]), acts[1..], w');
    }
  }

  /** Without a fault every hit is exact. */
  lemma FaultlessHitsAreExact(env: Env, db: Table, acts: seq<Act>, w: World)
    requires EnvOk(env) && Leads(env, Start(db), acts, {}, w)
    ensures w.past.commits != [] && AnswersRight(env, w)
  {
    StartIsSound(env, db);
    RunKeepsSound(env, Start(db), acts, w);
    hide EnvOk, Traced, AnswersRight;
    SoundAnswersRight(env, w);
  }
}
