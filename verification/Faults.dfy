/** Each fault alone makes some hit wrong: hits are exact in every run if and only if no fault is tolerated. */
module Faults {
  import opened Prelude
  import opened CacheKeys
  import opened Listings
  import opened Query
  import opened SearchKeys
  import opened Service
  import opened Staleness
  import opened Interleaving
  import opened Discipline
  import opened Reaching
  import C = Cache

  /** Whatever run with tolerated faults one looks at, every hit in it is right. */
  ghost predicate HitsAreExact(env: Env, tolerated: set<Fault>) {
    forall db, w | Reaches(env, Start(db), tolerated, w) :: w.past.commits != [] && AnswersRight(env, w)
  }

  // ----- a listing that is no longer for rent -----

  function OfKind(kind: ListingType): Filters {
    Filters(Some(kind), None, None, None, None, None, None, None, None, None)
  }

  function Flat(kind: ListingType): Listing {
    Listing(Details("flat", 100, kind, 1, "Lekki", Point(0, 0)), 1, 0, 0, None, Some(1), Some(1), None)
  }

  function Market(kind: ListingType): Table {
    map[0 := Flat(kind)]
  }

  const RENTED: seq<Hit> := [Hit(0, Flat(Rent), None)]

  lemma FlatIsFound(dist: Metric)
    ensures ValidAnswer(dist, Market(Rent), OfKind(Rent), RENTED)
    ensures ValidAnswer(dist, Market(Rent), OfKind(Sale), [])
  {
    ChainMeansConjunction(dist, Market(Rent), OfKind(Rent));
    ChainMeansConjunction(dist, Market(Rent), OfKind(Sale));
    assert Selected(dist, Market(Rent), OfKind(Rent)) == {0};
    assert Selected(dist, Market(Rent), OfKind(Sale)) == {};
  }

  lemma SoldFlatIsNot(dist: Metric)
    ensures Materialised(Market(Sale), EntriesOf(RENTED)) == [Hit(0, Flat(Sale), None)]
    ensures !ValidAnswer(dist, Market(Sale), OfKind(Rent), [Hit(0, Flat(Sale), None)])
  {
    var hit := Hit(0, Flat(Sale), None);
    ChainMeansConjunction(dist, Market(Sale), OfKind(Rent));
    assert hit in [hit] && 0 in IdsOf([hit]);
    var entries := [Entry(0, None)];
    assert EntriesOf(RENTED) == entries && entries[..0] == [];
    assert LiveOrder(Market(Sale), entries) == [0];
  }

  lemma {:induction false} LonePart(names: seq<string>, values: seq<Option<string>>, i: nat)
    requires |names| == |values| && i < |names| && values[i].Some?
    requires forall j | 0 <= j < |names| && j != i :: values[j].None?
    ensures Assignments(names, values) == [names[i] + "=" + values[i].value]
  {
    if i > 0 {
      LonePart(names[1..], values[1..], i - 1);
    } else {
      NoParts(names[1..], values[1..]);
    }
  }

  lemma {:induction false} NoParts(names: seq<string>, values: seq<Option<string>>)
    requires |names| == |values| && forall j | 0 <= j < |names| :: values[j].None?
    ensures Assignments(names, values) == []
  {
    if names != [] {
      NoParts(names[1..], values[1..]);
    }
  }

  lemma KindPart(env: Env, kind: ListingType)
    ensures Verbatim(Parts(env, OfKind(kind)))
  {
    LonePart(NAMES, Values(env, OfKind(kind)), 9);
    assert NAMES[9] == "type";
    hide Assignments;
  }

  function KeyOf(env: Env, kind: ListingType): string {
    SearchKey(env, OfKind(kind))
  }

  lemma TwoKeys(env: Env)
    requires EnvOk(env)
    ensures KeyOf(env, Rent) != KeyOf(env, Sale)
    ensures KeyOf(env, Rent) != INDEX && NamespaceOf(KeyOf(env, Rent)) == LISTING_SEARCH
    ensures KeyOf(env, Sale) != INDEX && NamespaceOf(KeyOf(env, Sale)) == LISTING_SEARCH
  {
    KindPart(env, Rent);
    KeySoundness(env, OfKind(Rent), OfKind(Sale));
    assert SearchError(OfKind(Rent)).None? && SearchError(OfKind(Sale)).None?;
    hide SearchKey, NamespaceOf, IndexKey, Parts, EnvOk, SearchError;
    StoredKeyShape(env, OfKind(Rent));
    StoredKeyShape(env, OfKind(Sale));
  }

  /** All is done, the flat is for sale, and the answer that it is for rent is still cached. */
  ghost predicate Stale(env: Env, w: World) {
    && w.procs == map[] && w.past.commits != [] && Current(w) == Market(Sale)
    && C.ValueAt(w.store, KeyOf(env, Rent), w.past.now) == Some(EntriesOf(RENTED))
  }

  lemma StaleHitIsWrong(env: Env, tolerated: set<Fault>, w: World)
    requires EnvOk(env) && Reaches(env, Start(Market(Rent)), tolerated, w) && Stale(env, w)
    ensures !HitsAreExact(env, tolerated)
  {
    KindPart(env, Rent);
    hide SearchKey, EntriesOf, Reaches, ValidAnswer, Materialised, Start, Market, EnvOk, Verbatim, Parts;
    SoldFlatIsNot(env.dist);
    var f := OfKind(Rent);
    var w' := At(w, 0, Found(f, EntriesOf(RENTED), w.past.now));
    AloneIsCalm(w');
    Goes(env, Start(Market(Rent)), tolerated, w, Lookup(0, f, false), w');
    assert Current(w') == Market(Sale);
    assert !AnswersRight(env, w') by {
      assert NoCollision(env, w'.past, f) && w'.procs[0].Found?;
    }
  }

  /** The write of the runs below is one that the service accepts: the owner's partial update of the kind. */
  lemma SaleIsAccepted()
    ensures var owner, sale := User(1, false, false, Agent), Patch(None, None, Some(Sale), None, None, None, None);
      Written(Market(Rent), Update(0, sale, owner, true), 0, 0) == Ok(Flat(Sale))
  {
  }

  // ----- one run for each fault -----

  /** Nothing is under way, the flat is for rent, a search has stored so, and the index lists these keys. */
  ghost predicate Rented(env: Env, w: World, keys: seq<string>) {
    && w == Idle(w.past, w.store) && w.past.now == 0 && w.past.commits == [Commit(Market(Rent), 0)]
    && KeyOf(env, Rent) in w.store && w.store[KeyOf(env, Rent)] == SearchSlot(RENTED, 0)
    && C.KeysAt(w.store, LISTING_SEARCH, 0) == keys
  }

  function RentStored(env: Env): C.Store<seq<Entry>> {
    map[KeyOf(env, Rent) := SearchSlot(RENTED, 0)]
  }

  lemma RentIsListed(env: Env, past: Past, writeFails: bool)
    requires EnvOk(env) && past.now == 0 && past.commits == [Commit(Market(Rent), 0)]
    ensures var store := if writeFails then RentStored(env) else Indexed(RentStored(env), KeyOf(env, Rent), [], 0);
      && Rented(env, Idle(past, store), if writeFails then [] else [KeyOf(env, Rent)])
      && KeyOf(env, Sale) !in store
  {
    TwoKeys(env);
    NoIndexNoKeys(map[], 0);
    hide KeyOf, SearchSlot, Market, EnvOk, IndexKey, NamespaceOf;
    SameIndex(map[], KeyOf(env, Rent), SearchSlot(RENTED, 0), 0);
    hide C.KeysAt;
    IndexedStore(RentStored(env), KeyOf(env, Rent), [], 0);
  }

  lemma FlatIsRented(env: Env, tolerated: set<Fault>, writeFails: bool) returns (w: World)
    requires EnvOk(env) && (writeFails ==> IndexWriteFailed in tolerated)
    ensures Reaches(env, Start(Market(Rent)), tolerated, w)
    ensures Rented(env, w, if writeFails then [] else [KeyOf(env, Rent)]) && KeyOf(env, Sale) !in w.store
  {
    var begun := Start(Market(Rent));
    ReachesItself(env, begun, tolerated);
    FlatIsFound(env.dist);
    NoIndexNoKeys(map[], 0);
    hide SearchSlot, SearchKey, Reaches, ValidAnswer, Market, EnvOk, IndexKey, Indexed, Rented, NamespaceOf, C.KeysAt;
    assert begun == Idle(begun.past, map[]);
    w := SearchRuns(env, begun, tolerated, begun.past, map[], OfKind(Rent), RENTED, false, writeFails);
    assert w.store == if writeFails then RentStored(env) else Indexed(RentStored(env), KeyOf(env, Rent), [], 0);
    RentIsListed(env, w.past, writeFails);
  }

  lemma NoIndexNoKeys(store: C.Store<seq<Entry>>, now: nat)
    requires INDEX !in store
    ensures C.KeysAt(store, LISTING_SEARCH, now) == []
  {
    hide IndexKey;
  }

  lemma StillCached(env: Env, past: Past, store: C.Store<seq<Entry>>, keys: seq<string>, deleteFails: bool)
    requires past.now == 0 && past.commits == [Commit(Market(Rent), 0)]
    requires KeyOf(env, Rent) in store && store[KeyOf(env, Rent)] == SearchSlot(RENTED, 0) && KeyOf(env, Rent) != INDEX
    requires deleteFails || KeyOf(env, Rent) !in keys
    ensures Stale(env, Idle(Committed(past, 0, Flat(Sale)), store - Gone(keys, deleteFails) - {INDEX}))
  {
    assert Market(Rent)[0 := Flat(Sale)] == Market(Sale);
    hide KeyOf, Market, EntriesOf, IndexKey, Flat;
  }

  /** A write turns the flat into one for sale and leaves the cached answer where it is. */
  lemma FlatIsSold(env: Env, from: World, tolerated: set<Fault>, w: World, listed: seq<string>,
                   readFails: bool, deleteFails: bool) returns (w': World)
    requires EnvOk(env) && Reaches(env, from, tolerated, w) && Rented(env, w, listed) && |listed| <= 1
    requires (readFails ==> ClearReadFailed in tolerated) && (deleteFails ==> DeleteFailed in tolerated)
    requires readFails || deleteFails || KeyOf(env, Rent) !in listed
    ensures Reaches(env, from, tolerated, w') && Stale(env, w')
  {
    TwoKeys(env);
    hide KeyOf, Reaches, EnvOk, IndexKey, C.KeysAt, Flat, Market, EntriesOf, NamespaceOf, Stale, SearchSlot, Gone, Committed;
    var keys := if readFails then [] else listed;
    w' := WriteRuns(env, from, tolerated, w.past, w.store, 0, Flat(Sale), keys, readFails, deleteFails);
    StillCached(env, w.past, w.store, keys, deleteFails);
  }

  lemma GoesDirectly(env: Env, begun: World, w: World, db: Table) returns (w': World)
    requires Reaches(env, begun, {DirectChange}, w) && w.procs == map[] && w.past.commits != []
    ensures Reaches(env, begun, {DirectChange}, w')
    ensures w' == w.(past := w.past.(commits := w.past.commits + [Commit(db, w.past.now)]))
  {
    w' := w.(past := w.past.(commits := w.past.commits + [Commit(db, w.past.now)]));
    hide Reaches, OnlyDeleted, Overlapping, RegisteringTwice;
    AloneIsCalm(w');
    Goes(env, begun, {DirectChange}, w, Direct(db), w');
  }

  lemma RowsChangeDirectly(env: Env) returns (w: World)
    requires EnvOk(env)
    ensures Reaches(env, Start(Market(Rent)), {DirectChange}, w) && Stale(env, w)
  {
    hide KeyOf, Reaches, EnvOk, C.KeysAt, EntriesOf, Market, Start;
    var w1 := FlatIsRented(env, {DirectChange}, false);
    w := GoesDirectly(env, Start(Market(Rent)), w1, Market(Sale));
  }

  lemma GoesWithoutIndex(env: Env, begun: World, w: World) returns (w': World)
    requires Reaches(env, begun, {IndexEvicted}, w) && w.procs == map[] && w.past.commits != []
    ensures Reaches(env, begun, {IndexEvicted}, w')
    ensures w' == w.(store := w.store - {INDEX})
  {
    w' := w.(store := w.store - {INDEX});
    hide Reaches, IndexKey, Overlapping, RegisteringTwice;
    AloneIsCalm(w');
    Goes(env, begun, {IndexEvicted}, w, Evict(INDEX), w');
  }

  lemma RentIsUnlisted(env: Env, w: World, listed: seq<string>)
    requires EnvOk(env) && Rented(env, w, listed)
    ensures Rented(env, w.(store := w.store - {INDEX}), [])
  {
    TwoKeys(env);
    hide KeyOf, EnvOk, IndexKey, NamespaceOf, Market, SearchSlot;
  }

  lemma IndexIsEvicted(env: Env) returns (w: World)
    requires EnvOk(env)
    ensures Reaches(env, Start(Market(Rent)), {IndexEvicted}, w) && Stale(env, w)
  {
    hide KeyOf, Reaches, EnvOk, IndexKey, Market, Start, Stale;
    var w1 := FlatIsRented(env, {IndexEvicted}, false);
    RentIsUnlisted(env, w1, [KeyOf(env, Rent)]);
    var w2 := GoesWithoutIndex(env, Start(Market(Rent)), w1);
    hide Rented;
    w := FlatIsSold(env, Start(Market(Rent)), {IndexEvicted}, w2, [], false, false);
  }

  lemma IndexCannotBeWritten(env: Env) returns (w: World)
    requires EnvOk(env)
    ensures Reaches(env, Start(Market(Rent)), {IndexWriteFailed}, w) && Stale(env, w)
  {
    hide KeyOf, Reaches, EnvOk, Rented, Stale, Start, Market;
    var w1 := FlatIsRented(env, {IndexWriteFailed}, true);
    w := FlatIsSold(env, Start(Market(Rent)), {IndexWriteFailed}, w1, [], false, false);
  }

  lemma ClearCannotReadIndex(env: Env) returns (w: World)
    requires EnvOk(env)
    ensures Reaches(env, Start(Market(Rent)), {ClearReadFailed}, w) && Stale(env, w)
  {
    hide KeyOf, Reaches, EnvOk, Rented, Stale, Start, Market;
    var w1 := FlatIsRented(env, {ClearReadFailed}, false);
    w := FlatIsSold(env, Start(Market(Rent)), {ClearReadFailed}, w1, [KeyOf(env, Rent)], true, false);
  }

  lemma EntryCannotBeDeleted(env: Env) returns (w: World)
    requires EnvOk(env)
    ensures Reaches(env, Start(Market(Rent)), {DeleteFailed}, w) && Stale(env, w)
  {
    hide KeyOf, Reaches, EnvOk, Rented, Stale, Start, Market;
    var w1 := FlatIsRented(env, {DeleteFailed}, false);
    w := FlatIsSold(env, Start(Market(Rent)), {DeleteFailed}, w1, [KeyOf(env, Rent)], false, true);
  }

  /** A search for flats on sale cannot read the index and starts a new one. */
  lemma SaleStartsNewIndex(env: Env, begun: World, w: World, listed: seq<string>) returns (w': World)
    requires EnvOk(env) && Reaches(env, begun, {IndexReadFailed}, w) && Rented(env, w, listed)
    requires KeyOf(env, Sale) !in w.store
    ensures Reaches(env, begun, {IndexReadFailed}, w') && Rented(env, w', [KeyOf(env, Sale)])
  {
    TwoKeys(env);
    FlatIsFound(env.dist);
    hide SearchKey, SearchSlot, Reaches, ValidAnswer, Market, EnvOk, IndexKey, NamespaceOf;
    hide Indexed, C.KeysAt;
    w' := SearchRuns(env, begun, {IndexReadFailed}, w.past, w.store, OfKind(Sale), [], true, false);
    IndexedStore(w.store[KeyOf(env, Sale) := SearchSlot([], 0)], KeyOf(env, Sale), [], 0);
  }

  lemma IndexCannotBeRead(env: Env) returns (w: World)
    requires EnvOk(env)
    ensures Reaches(env, Start(Market(Rent)), {IndexReadFailed}, w) && Stale(env, w)
  {
    TwoKeys(env);
    hide KeyOf, Reaches, EnvOk, Rented, Stale, Start, Market, IndexKey, NamespaceOf;
    var w1 := FlatIsRented(env, {IndexReadFailed}, false);
    var w2 := SaleStartsNewIndex(env, Start(Market(Rent)), w1, [KeyOf(env, Rent)]);
    w := FlatIsSold(env, Start(Market(Rent)), {IndexReadFailed}, w2, [KeyOf(env, Sale)], false, false);
  }

  function BothStored(env: Env): C.Store<seq<Entry>> {
    map[KeyOf(env, Rent) := SearchSlot(RENTED, 0), KeyOf(env, Sale) := SearchSlot([], 0)]
  }

  /** Two searches overlap and have both stored. */
  lemma TwoSearchesStore(env: Env) returns (past: Past)
    requires EnvOk(env)
    ensures past.now == 0 && past.commits == [Commit(Market(Rent), 0)]
    ensures Reaches(env, Start(Market(Rent)), {LostUpdate},
      World(past, BothStored(env), map[1 := Unregistered(KeyOf(env, Rent)), 2 := Unregistered(KeyOf(env, Sale))]))
  {
    var begun, tolerated := Start(Market(Rent)), {LostUpdate};
    ReachesItself(env, begun, tolerated);
    TwoKeys(env);
    FlatIsFound(env.dist);
    assert Calm(tolerated, map[]) && Calm(tolerated, map[1 := Unregistered(KeyOf(env, Rent))]);
    hide Calm, SearchKey, Reaches, EnvOk, IndexKey, NamespaceOf, EntriesOf, Market, ValidAnswer, SearchSlot;
    var w1 := SearchStores(env, begun, tolerated, begun, 1, OfKind(Rent), RENTED);
    var w2 := SearchStores(env, begun, tolerated, w1, 2, OfKind(Sale), []);
    past := w2.past;
    assert w2.store == BothStored(env);
    assert w2.procs == map[1 := Unregistered(KeyOf(env, Rent)), 2 := Unregistered(KeyOf(env, Sale))];
  }

  /** Both read the same index before either writes it, so that the one written last lists one key only. */
  lemma BothRegister(env: Env, begun: World, past: Past, store: C.Store<seq<Entry>>, key: string, other: string)
    requires Reaches(env, begun, {LostUpdate}, World(past, store, map[1 := Unregistered(key), 2 := Unregistered(other)]))
    requires past.commits != [] && INDEX !in store
    requires NamespaceOf(key) == LISTING_SEARCH && NamespaceOf(other) == LISTING_SEARCH
    ensures Reaches(env, begun, {LostUpdate}, Idle(past, Indexed(Indexed(store, key, [], past.now), other, [], past.now)))
  {
    NoIndexNoKeys(store, past.now);
    hide Reaches, IndexKey, NamespaceOf, Indexed, Calm, C.KeysAt;
    var w := World(past, store, map[1 := Unregistered(key), 2 := Unregistered(other)]);
    assert w.procs - {2} == map[1 := Unregistered(key)];
    SearchersAreCalm(map[1 := Unregistered(key)]);
    var w1 := SearchReadsIndex(env, begun, {LostUpdate}, w, 2, other, false);
    assert w1.procs == map[1 := Unregistered(key), 2 := Registering(other, [])];
    OneReads(env, begun, past, store, key, other);
    BothWrite(env, begun, past, store, key, other);
  }

  lemma OneReads(env: Env, begun: World, past: Past, store: C.Store<seq<Entry>>, key: string, other: string)
    requires Reaches(env, begun, {LostUpdate}, World(past, store, map[1 := Unregistered(key), 2 := Registering(other, [])]))
    requires past.commits != [] && C.KeysAt(store, LISTING_SEARCH, past.now) == [] && NamespaceOf(key) == LISTING_SEARCH
    ensures Reaches(env, begun, {LostUpdate}, World(past, store, map[1 := Registering(key, []), 2 := Registering(other, [])]))
  {
    hide Reaches, NamespaceOf, Calm, C.KeysAt;
    var w := World(past, store, map[1 := Unregistered(key), 2 := Registering(other, [])]);
    assert w.procs - {1} == map[2 := Registering(other, [])];
    SearchersAreCalm(map[2 := Registering(other, [])]);
    var w1 := SearchReadsIndex(env, begun, {LostUpdate}, w, 1, key, false);
    assert w1.procs == map[1 := Registering(key, []), 2 := Registering(other, [])];
  }

  lemma BothWrite(env: Env, begun: World, past: Past, store: C.Store<seq<Entry>>, key: string, other: string)
    requires Reaches(env, begun, {LostUpdate}, World(past, store, map[1 := Registering(key, []), 2 := Registering(other, [])]))
    requires past.commits != [] && NamespaceOf(key) == LISTING_SEARCH && NamespaceOf(other) == LISTING_SEARCH
    ensures Reaches(env, begun, {LostUpdate}, Idle(past, Indexed(Indexed(store, key, [], past.now), other, [], past.now)))
  {
    hide Reaches, NamespaceOf, Indexed, Calm;
    var w := World(past, store, map[1 := Registering(key, []), 2 := Registering(other, [])]);
    assert w.procs - {1} == map[2 := Registering(other, [])];
    SearchersAreCalm(map[2 := Registering(other, [])]);
    var w1 := SearchWritesIndex(env, begun, {LostUpdate}, w, 1, false);
    assert w1.procs - {2} == map[];
    SearchersAreCalm(map[]);
    var w2 := SearchWritesIndex(env, begun, {LostUpdate}, w1, 2, false);
  }

  lemma SearchersAreCalm(procs: map<nat, Phase>)
    requires NobodyChanging(procs)
    ensures Calm({LostUpdate}, procs)
  {
  }

  lemma LastIndexWins(env: Env, past: Past)
    requires EnvOk(env) && past.now == 0 && past.commits == [Commit(Market(Rent), 0)]
    ensures INDEX !in BothStored(env)
    ensures Rented(env, Idle(past, Indexed(Indexed(BothStored(env), KeyOf(env, Rent), [], 0), KeyOf(env, Sale), [], 0)),
                   [KeyOf(env, Sale)])
  {
    TwoKeys(env);
    hide KeyOf, EnvOk, IndexKey, NamespaceOf, Market, SearchSlot, Indexed, C.KeysAt;
    IndexedStore(BothStored(env), KeyOf(env, Rent), [], 0);
    IndexedStore(Indexed(BothStored(env), KeyOf(env, Rent), [], 0), KeyOf(env, Sale), [], 0);
  }

  lemma IndexUpdateIsLost(env: Env) returns (w: World)
    requires EnvOk(env)
    ensures Reaches(env, Start(Market(Rent)), {LostUpdate}, w) && Stale(env, w)
  {
    TwoKeys(env);
    hide KeyOf, Reaches, EnvOk, IndexKey, NamespaceOf, Market, BothStored, Indexed, Stale, Start, Rented;
    var begun := Start(Market(Rent));
    var past := TwoSearchesStore(env);
    LastIndexWins(env, past);
    BothRegister(env, begun, past, BothStored(env), KeyOf(env, Rent), KeyOf(env, Sale));
    var rented := Idle(past, Indexed(Indexed(BothStored(env), KeyOf(env, Rent), [], 0), KeyOf(env, Sale), [], 0));
    w := FlatIsSold(env, begun, {LostUpdate}, rented, [KeyOf(env, Sale)], false, false);
  }

  // ----- a write does not reach a search that overlaps it -----

  /** A write has cleared the namespace inside its transaction; a search asks and stores before the commit. */
  lemma SearchOverlapsWrite(env: Env, db: Table, f: Filters, hits: seq<Hit>, id: Id, row: Listing) returns (w: World)
    requires EnvOk(env) && ValidAnswer(env.dist, db, f, hits)
    ensures Reaches(env, Start(db), {Overlap}, w)
    ensures w.past.now == 0 && w.past.commits == [Commit(db, 0), Commit(db[id := row], 0)]
    ensures w.procs == map[1 := Unregistered(SearchKey(env, f))] && w.store == map[SearchKey(env, f) := SearchSlot(hits, 0)]
  {
    hide SearchKey, Reaches, EnvOk, IndexKey, EntriesOf, ValidAnswer, SearchSlot, Overlapping, RegisteringTwice;
    var begun, tolerated := Start(db), {Overlap};
    ReachesItself(env, begun, tolerated);
    WriteReads(env, begun, tolerated, begun.past, map[], id, row, [], false);
    var w1 := World(begun.past, map[], map[0 := Clearing(id, row, [])]);
    var w2 := World(begun.past, map[], map[0 := Committing(id, row)]);
    AloneIsCalm(w2);
    assert w1.procs[0 := w2.procs[0]] == w2.procs && w1.store - {INDEX} == map[];
    Goes(env, begun, tolerated, w1, DeleteIndex(0, false), w2);
    var w3 := SearchStores(env, begun, tolerated, w2, 1, f, hits);
    w := World(Committed(w3.past, id, row), w3.store, w3.procs - {0});
    assert w.procs == map[1 := Unregistered(SearchKey(env, f))];
    assert !RegisteringTwice(w) by {
      NobodyElseRegisters(w, 1);
    }
    Goes(env, begun, tolerated, w3, CommitWrite(0), w);
  }

  lemma NobodyElseRegisters(w: World, p: nat)
    requires w.procs.Keys == {p}
    ensures !RegisteringTwice(w)
  {
  }

  /**
   * For every table, query and written row: with no failure and no time passing, a search that begins
   * after the write has committed and cleared the namespace may still be answered from before it.
   */
  lemma SearchMayMissAWrite(env: Env, db: Table, f: Filters, hits: seq<Hit>, id: Id, row: Listing)
      returns (done: World, answered: World)
    requires EnvOk(env) && ValidAnswer(env.dist, db, f, hits)
    ensures Reaches(env, Start(db), {Overlap}, done) && Reaches(env, done, {}, answered)
    ensures done.procs == map[] && done.past.commits != [] && Current(done) == db[id := row] && done.past.now == 0
    ensures SearchKey(env, f) in done.store && done.store[SearchKey(env, f)] == SearchSlot(hits, 0)
    ensures answered.procs == map[2 := Answered(f, Materialised(db[id := row], EntriesOf(hits)))]
  {
    StoredKeyShape(env, f);
    hide SearchKey, Reaches, EnvOk, IndexKey, NamespaceOf, EntriesOf, ValidAnswer, Materialised, SearchError;
    var begun, tolerated := Start(db), {Overlap};
    var w1 := SearchOverlapsWrite(env, db, f, hits, id, row);
    assert w1.procs - {1} == map[];
    var w2 := SearchReadsIndex(env, begun, tolerated, w1, 1, SearchKey(env, f), false);
    assert w2.procs - {1} == map[];
    done := SearchWritesIndex(env, begun, tolerated, w2, 1, false);
    answered := ReaderHits(env, done, f, hits);
  }

  lemma ReaderHits(env: Env, w: World, f: Filters, hits: seq<Hit>) returns (w': World)
    requires w.procs == map[] && w.past.commits != [] && w.past.now == 0
    requires SearchKey(env, f) in w.store && w.store[SearchKey(env, f)] == SearchSlot(hits, 0)
    ensures Reaches(env, w, {}, w')
    ensures w'.procs == map[2 := Answered(f, Materialised(Current(w), EntriesOf(hits)))]
  {
    ReachesItself(env, w, {});
    hide SearchKey, Reaches, EntriesOf, Materialised;
    var found := w.(procs := map[2 := Found(f, EntriesOf(hits), 0)]);
    w' := w.(procs := map[2 := Answered(f, Materialised(Current(w), EntriesOf(hits)))]);
    assert found.procs[2 := w'.procs[2]] == w'.procs;
    NobodyElseChanges(found, 2);
    NobodyElseChanges(w', 2);
    Goes(env, w, {}, w, Lookup(2, f, false), found);
    Goes(env, w, {}, found, Rebuild(2), w');
  }

  lemma NobodyElseChanges(w: World, p: nat)
    requires w.procs.Keys == {p} && !Changing(w.procs[p])
    ensures !Overlapping(w) && !RegisteringTwice(w)
  {
  }

  lemma OverlapCanBeWrong(env: Env) returns (w: World)
    requires EnvOk(env)
    ensures Reaches(env, Start(Market(Rent)), {Overlap}, w) && Stale(env, w)
  {
    FlatIsFound(env.dist);
    assert Market(Rent)[0 := Flat(Sale)] == Market(Sale);
    hide SearchKey, Reaches, EnvOk, EntriesOf, ValidAnswer, Materialised, Market, Flat;
    var answered;
    w, answered := SearchMayMissAWrite(env, Market(Rent), OfKind(Rent), RENTED, 0, Flat(Sale));
  }

  // ----- the discipline is exact -----

  lemma EachFaultHurts(env: Env, fault: Fault) returns (w: World)
    requires EnvOk(env)
    ensures Reaches(env, Start(Market(Rent)), {fault}, w) && Stale(env, w)
  {
    hide Reaches, Stale, EnvOk, Start, Market;
    match fault
    case Overlap => w := OverlapCanBeWrong(env);
    case LostUpdate => w := IndexUpdateIsLost(env);
    case DirectChange => w := RowsChangeDirectly(env);
    case IndexEvicted => w := IndexIsEvicted(env);
    case IndexReadFailed => w := IndexCannotBeRead(env);
    case IndexWriteFailed => w := IndexCannotBeWritten(env);
    case ClearReadFailed => w := ClearCannotReadIndex(env);
    case DeleteFailed => w := EntryCannotBeDeleted(env);
  }

  /**
   * Cached answers cannot outlive a write exactly when no fault is tolerated: in runs without any, every
   * hit is a correct answer on the current table; with any one of them, some hit in some run is wrong.
   */
  lemma HitsAreExactIff(env: Env, tolerated: set<Fault>)
    requires EnvOk(env)
    ensures HitsAreExact(env, tolerated) <==> tolerated == {}
  {
    hide EnvOk, Stale, AnswersRight, Leads, Start, Market;
    if fault :| fault in tolerated {
      var w := EachFaultHurts(env, fault);
      ReachesWider(env, Start(Market(Rent)), {fault}, tolerated, w);
      StaleHitIsWrong(env, tolerated, w);
    } else {
      assert tolerated == {};
      forall db, w | Reaches(env, Start(db), {}, w)
        ensures w.past.commits != [] && AnswersRight(env, w)
      {
        var acts :| Leads(env, Start(db), acts, {}, w);
        FaultlessHitsAreExact(env, db, acts, w);
      }
    }
  }
}
