/**
 * What holds over whole serial runs of `ListingService`: each call is one step, time passes between
 * and inside calls, and the table is written through the service only.
 */
module ServiceRuns {
  import opened Prelude
  import opened CacheKeys
  import opened Listings
  import opened SoftDelete
  import opened Query
  import opened SearchKeys
  import opened Service
  import C = Cache

  datatype Event =
    | Tick(d: nat)
    | Wrote(w: Write, d0: nat, d1: nat, d2: nat, written: Result<Listing, Error>)
    | Searched(f: Filters, delays: Delays, found: Result<seq<Hit>, Error>)

  ghost predicate Step(env: Env, s: ServiceState, e: Event, s': ServiceState) {
    match e
    case Tick(d) => s' == s.(cache := C.Apply(s.cache, C.Wait(d)))
    case Wrote(w, d0, d1, d2, r) => (w.Create? ==> w.id !in s.db) && (s', r) == AfterWrite(s, w, d0, d1, d2)
    case Searched(f, delays, r) => SearchStep(env, s, f, delays, s', r)
  }

  ghost predicate Run(env: Env, states: seq<ServiceState>, events: seq<Event>) {
    && |states| == |events| + 1
    && forall i | 0 <= i < |events| :: Step(env, states[i], events[i], states[i + 1])
  }

  lemma StepOf(env: Env, states: seq<ServiceState>, events: seq<Event>, i: nat)
    requires Run(env, states, events) && i < |events|
    ensures |states| == |events| + 1 && Step(env, states[i], events[i], states[i + 1])
  {
    hide Step;
  }

  lemma OneStateMore(env: Env, states: seq<ServiceState>, events: seq<Event>)
    requires Run(env, states, events)
    ensures |states| == |events| + 1
  {
  }

  // ----- the service without a cache -----

  /** The same calls answered by the database alone, at the given time. */
  ghost predicate UncachedStep(dist: Metric, db: Table, now: nat, e: Event, db': Table) {
    match e
    case Tick(_) => db' == db
    case Wrote(w, d0, d1, _, r) =>
      && r == Written(db, w, now + d0, now + d0 + d1)
      && db' == (if r.Ok? then db[w.id := r.value] else db)
    case Searched(f, _, r) =>
      && db' == db
      && match SearchError(f)
         case Some(e) => r == Err(e)
         case None => r.Ok? && ValidAnswer(dist, db, f, r.value)
  }

  // ----- coherence of the cache -----

  function SearchedFilters(events: seq<Event>): set<Filters> {
    set e | e in events && e.Searched? :: e.f
  }

  /** SHA-256, cut to 32 digits, tells apart the payloads that the run asks it about. */
  ghost predicate NoCollision(env: Env, asked: set<Filters>) {
    forall f, g | f in asked && g in asked :: !Collide(env, f, g)
  }

  /** The value under a key is made of the entries of an answer to some asked query with that key. */
  ghost predicate Backed(env: Env, db: Table, asked: set<Filters>, key: string, v: Option<seq<Entry>>) {
    exists g, hits :: g in asked && SearchKey(env, g) == key && ValidAnswer(env.dist, db, g, hits) && v == Some(EntriesOf(hits))
  }

  ghost predicate Coherent(env: Env, s: ServiceState, asked: set<Filters>) {
    && C.WellIndexed(s.cache)
    && forall k | C.Live(s.cache.store, k, s.cache.now) && !IsIndexKey(k) ::
         && NamespaceOf(k) == LISTING_SEARCH
         && s.cache.store[k].cell.Data?
         && Backed(env, s.db, asked, k, s.cache.store[k].cell.value)
  }

  /** Waiting and looking up leave nothing live that was not live with the same content. */
  lemma QuietStepsKeepCoherence(env: Env, s: ServiceState, asked: set<Filters>, op: C.Op<seq<Entry>>)
    requires Coherent(env, s, asked) && (op.Wait? || op.Get?)
    ensures Coherent(env, s.(cache := C.Apply(s.cache, op)), asked)
  {
    hide IsIndexKey, NamespaceOf, Backed;
    assert C.Allowed(op);
    C.StepKeepsIndex(s.cache, op);
    hide C.WellIndexed;
    var s' := s.(cache := C.Apply(s.cache, op));
    assert forall k | C.Live(s'.cache.store, k, s'.cache.now) ::
      C.Live(s.cache.store, k, s.cache.now) && s'.cache.store[k] == s.cache.store[k];
  }

  /** After a clear there is nothing left that could be out of date. */
  lemma ClearMakesCoherent(env: Env, s: ServiceState, asked: set<Filters>, db: Table)
    requires Coherent(env, s, asked)
    ensures Coherent(env, ServiceState(db, C.Apply(s.cache, C.Clear(LISTING_SEARCH))), asked)
  {
    hide IsIndexKey, NamespaceOf, Backed;
    var op: C.Op<seq<Entry>> := C.Clear(LISTING_SEARCH);
    assert C.Allowed(op);
    C.StepKeepsIndex(s.cache, op);
    C.ClearIsExact(s.cache, LISTING_SEARCH);
    hide C.WellIndexed;
    var c' := C.Apply(s.cache, op);
    assert forall k | C.Live(c'.store, k, c'.now) ::
      NamespaceOf(k) != LISTING_SEARCH && C.Live(s.cache.store, k, s.cache.now);
  }

  /** A write to one data key leaves every other live data entry as it was. */
  lemma SetLeavesOthers(c: CachedSearches, key: string, v: Option<seq<Entry>>, d2: nat, d3: nat, other: string)
    requires other != key && !IsIndexKey(other)
    ensures var c' := C.Apply(c, C.Set(key, v, SEARCH_TTL, d2, d3));
      C.Live(c'.store, other, c'.now) ==> C.Live(c.store, other, c.now) && c'.store[other] == c.store[other]
  {
    NamespaceOfIndexKey(NamespaceOf(key));
    hide IsIndexKey, NamespaceOf, IndexKey;
  }

  lemma SetStores(c: CachedSearches, key: string, v: Option<seq<Entry>>, d2: nat, d3: nat)
    requires !IsIndexKey(key)
    ensures var c' := C.Apply(c, C.Set(key, v, SEARCH_TTL, d2, d3));
      key in c'.store && c'.store[key].cell == C.Data(v)
  {
    NamespaceOfIndexKey(NamespaceOf(key));
    hide IsIndexKey, NamespaceOf, IndexKey;
  }

  lemma StoreKeepsCoherence(env: Env, s: ServiceState, asked: set<Filters>, f: Filters, hits: seq<Hit>, d2: nat, d3: nat)
    requires EnvOk(env) && Coherent(env, s, asked) && f in asked
    requires ValidAnswer(env.dist, s.db, f, hits)
    ensures Coherent(env,
      s.(cache := C.Apply(s.cache, C.Set(SearchKey(env, f), Some(EntriesOf(hits)), SEARCH_TTL, d2, d3))), asked)
  {
    StoredKeyShape(env, f);
    var key, value := SearchKey(env, f), Some(EntriesOf(hits));
    hide IsIndexKey, NamespaceOf, IndexKey, SearchKey, ValidAnswer, EntriesOf;
    var op := C.Set(key, value, SEARCH_TTL, d2, d3);
    assert C.Allowed(op);
    C.StepKeepsIndex(s.cache, op);
    SetStores(s.cache, key, value, d2, d3);
    assert Backed(env, s.db, asked, key, value);
    hide C.WellIndexed, C.Apply, C.Live, Backed;
    var c' := C.Apply(s.cache, op);
    forall k | C.Live(c'.store, k, c'.now) && !IsIndexKey(k) && k != key
      ensures C.Live(s.cache.store, k, s.cache.now) && k in c'.store && k in s.cache.store && c'.store[k] == s.cache.store[k]
    {
      SetLeavesOthers(s.cache, key, value, d2, d3, k);
    }
  }

  /** A live entry answers its query: the rebuilt rows are a correct answer to the record that was asked. */
  lemma HitIsCorrect(env: Env, s: ServiceState, asked: set<Filters>, f: Filters, now: nat)
    requires EnvOk(env) && Coherent(env, s, asked) && forall g | g in asked :: !Collide(env, g, f)
    requires s.cache.now <= now
    requires C.ValueAt(s.cache.store, SearchKey(env, f), now).Some?
    ensures SearchError(f).None?
    ensures ValidAnswer(env.dist, s.db, f, Materialised(s.db, C.ValueAt(s.cache.store, SearchKey(env, f), now).value))
  {
    var key := SearchKey(env, f);
    assert C.Live(s.cache.store, key, s.cache.now) && !IsIndexKey(key) by {
      hide IsIndexKey, SearchKey;
    }
    hide IsIndexKey, SearchKey, NamespaceOf, ValidAnswer, SearchError, Collide;
    assert Backed(env, s.db, asked, key, s.cache.store[key].cell.value);
    var g, hits :| g in asked && SearchKey(env, g) == key && ValidAnswer(env.dist, s.db, g, hits)
      && s.cache.store[key].cell.value == Some(EntriesOf(hits));
    SharedKeyAnswer(env, s.db, g, f, hits);
  }

  lemma WriteStep(env: Env, s: ServiceState, e: Event, s': ServiceState, asked: set<Filters>)
    requires Coherent(env, s, asked) && e.Wrote? && Step(env, s, e, s')
    ensures Coherent(env, s', asked)
    ensures UncachedStep(env.dist, s.db, s.cache.now, e, s'.db)
  {
    hide Coherent, Written;
    var waited := s.(cache := C.Apply(s.cache, C.Wait(e.d0)));
    QuietStepsKeepCoherence(env, s, asked, C.Wait(e.d0));
    if e.written.Ok? {
      var saved := waited.(cache := C.Apply(waited.cache, C.Wait(e.d1)));
      QuietStepsKeepCoherence(env, waited, asked, C.Wait(e.d1));
      var later := saved.(cache := C.Apply(saved.cache, C.Wait(e.d2)));
      QuietStepsKeepCoherence(env, saved, asked, C.Wait(e.d2));
      ClearMakesCoherent(env, later, asked, s'.db);
    }
  }

  lemma SearchedStep(env: Env, s: ServiceState, e: Event, s': ServiceState, asked: set<Filters>)
    requires EnvOk(env) && NoCollision(env, asked)
    requires Coherent(env, s, asked) && e.Searched? && e.f in asked && Step(env, s, e, s')
    ensures Coherent(env, s', asked)
    ensures UncachedStep(env.dist, s.db, s.cache.now, e, s'.db)
  {
    assert forall g | g in asked :: !Collide(env, g, e.f) by {
      hide Collide, Step, Coherent;
    }
    hide Collide;
    hide Coherent, SearchKey, ValidAnswer, SearchError, Materialised, EntriesOf, EnvOk, NoCollision;
    var key, d := SearchKey(env, e.f), e.delays;
    var waited := s.(cache := C.Apply(s.cache, C.Wait(d.d0)));
    QuietStepsKeepCoherence(env, s, asked, C.Wait(d.d0));
    var looked := waited.(cache := C.Apply(waited.cache, C.Get(key)));
    QuietStepsKeepCoherence(env, waited, asked, C.Get(key));
    if C.ValueAt(waited.cache.store, key, waited.cache.now).Some? {
      HitIsCorrect(env, waited, asked, e.f, waited.cache.now);
    } else if SearchError(e.f).None? {
      var later := looked.(cache := C.Apply(looked.cache, C.Wait(d.d1)));
      QuietStepsKeepCoherence(env, looked, asked, C.Wait(d.d1));
      StoreKeepsCoherence(env, later, asked, e.f, e.found.value, d.d2, d.d3);
    }
  }

  lemma {:induction false} CoherentAt(env: Env, states: seq<ServiceState>, events: seq<Event>, n: nat)
    requires EnvOk(env) && Run(env, states, events) && n <= |events|
    requires states[0].cache.store == map[]
    requires NoCollision(env, SearchedFilters(events))
    ensures Coherent(env, states[n], SearchedFilters(events))
    ensures forall i | 0 <= i < n :: UncachedStep(env.dist, states[i].db, states[i].cache.now, events[i], states[i + 1].db)
  {
    hide Run, Coherent, UncachedStep, Step, NoCollision, EnvOk, SearchedFilters;
    OneStateMore(env, states, events);
    if n == 0 {
      NothingCachedIsCoherent(env, states[0], SearchedFilters(events));
    } else {
      StepOf(env, states, events, n - 1);
      CoherentAt(env, states, events, n - 1);
      EventStep(env, states[n - 1], events, n - 1, states[n]);
    }
  }

  lemma NothingCachedIsCoherent(env: Env, s: ServiceState, asked: set<Filters>)
    requires s.cache.store == map[]
    ensures Coherent(env, s, asked)
  {
  }

  lemma EventStep(env: Env, s: ServiceState, events: seq<Event>, i: nat, s': ServiceState)
    requires EnvOk(env) && NoCollision(env, SearchedFilters(events))
    requires i < |events| && Coherent(env, s, SearchedFilters(events)) && Step(env, s, events[i], s')
    ensures Coherent(env, s', SearchedFilters(events))
    ensures UncachedStep(env.dist, s.db, s.cache.now, events[i], s'.db)
  {
    hide Coherent, UncachedStep, Step, NoCollision, EnvOk;
    var e, asked := events[i], SearchedFilters(events);
    match e {
      case Tick(_) => TickStep(env, s, e, s', asked);
      case Wrote(_, _, _, _, _) => WriteStep(env, s, e, s', asked);
      case Searched(_, _, _) => SearchedStep(env, s, e, s', asked);
    }
  }

  lemma TickStep(env: Env, s: ServiceState, e: Event, s': ServiceState, asked: set<Filters>)
    requires Coherent(env, s, asked) && e.Tick? && Step(env, s, e, s')
    ensures Coherent(env, s', asked)
    ensures UncachedStep(env.dist, s.db, s.cache.now, e, s'.db)
  {
    QuietStepsKeepCoherence(env, s, asked, C.Wait(e.d));
  }

  /**
   * Every serial run that starts from an empty cache is, call by call, a run of the service without
   * a cache: hits and misses alike answer from the current table, and errors do not depend on the cache.
   */
  lemma CachedRunRefinesUncached(env: Env, states: seq<ServiceState>, events: seq<Event>)
    requires EnvOk(env) && Run(env, states, events)
    requires states[0].cache.store == map[]
    requires NoCollision(env, SearchedFilters(events))
    ensures forall i | 0 <= i < |events| ::
      UncachedStep(env.dist, states[i].db, states[i].cache.now, events[i], states[i + 1].db)
  {
    CoherentAt(env, states, events, |events|);
  }

  /**
   * Errors do not depend on the cache: in no state of a run is there a live value under the key of a
   * query that the uncached service refuses, so whoever asks it then is refused as well.
   */
  lemma RefusedQueriesAreNeverCached(env: Env, states: seq<ServiceState>, events: seq<Event>, n: nat, f: Filters, now: nat)
    requires EnvOk(env) && Run(env, states, events) && n <= |events|
    requires states[0].cache.store == map[]
    requires NoCollision(env, SearchedFilters(events)) && forall g | g in SearchedFilters(events) :: !Collide(env, g, f)
    requires SearchError(f).Some? && states[n].cache.now <= now
    ensures C.ValueAt(states[n].cache.store, SearchKey(env, f), now).None?
  {
    CoherentAt(env, states, events, n);
    hide Run, Coherent, SearchError, SearchKey, Collide, EnvOk, SearchedFilters, NoCollision;
    if C.ValueAt(states[n].cache.store, SearchKey(env, f), now).Some? {
      HitIsCorrect(env, states[n], SearchedFilters(events), f, now);
    }
  }

  /**
   * Two searches by distance that find the same table return the same list, whatever was cached
   * in between and whether either was a hit.
   */
  lemma DistanceSearchesAgree(env: Env, states: seq<ServiceState>, events: seq<Event>, i: nat, j: nat)
    requires EnvOk(env) && Run(env, states, events)
    requires states[0].cache.store == map[]
    requires NoCollision(env, SearchedFilters(events))
    requires i < |events| && j < |events| && events[i].Searched? && events[j].Searched?
    requires events[i].f == events[j].f && ByDistance(events[i].f)
    requires states[i].db == states[j].db
    ensures events[i].found == events[j].found
  {
    CachedRunRefinesUncached(env, states, events);
    var f := events[i].f;
    assert UncachedStep(env.dist, states[i].db, states[i].cache.now, events[i], states[i + 1].db);
    assert UncachedStep(env.dist, states[j].db, states[j].cache.now, events[j], states[j + 1].db);
    if SearchError(f).None? {
      DistanceAnswerIsUnique(env.dist, states[i].db, f, events[i].found.value, events[j].found.value);
    }
  }

  // ----- single writes -----

  /** The three kinds of user that may write for others; everybody else may not. */
  predicate ForPlatform(user: User) {
    user.superuser || user.staff || user.role == Admin
  }

  predicate Succeeds(db: Table, w: Write) {
    match w
    case Create(_, _, agent, actor) => agent.None? || agent.value.id == actor.id || ForPlatform(actor)
    case Update(id, p, actor, partial) =>
      && id in db && db[id].deletedAt.None?
      && (db[id].agent == actor.id || ForPlatform(actor))
      && (partial || p.location.Some?)
      && (p.agent.None? || p.agent.value.id == db[id].agent || ForPlatform(actor))
    case Delete(id, actor) =>
      id in db && db[id].deletedAt.None? && (db[id].agent == actor.id || ForPlatform(actor))
  }

  /** A write goes through exactly when its rules allow it; otherwise table and cache content stay as they are. */
  lemma WriteOutcome(s: ServiceState, w: Write, d0: nat, d1: nat, d2: nat)
    ensures var (s', r) := AfterWrite(s, w, d0, d1, d2);
      && (r.Ok? <==> Succeeds(s.db, w))
      && (r.Err? ==> s'.db == s.db && s'.cache.store == s.cache.store)
      && (r.Ok? ==> s'.db == s.db[w.id := r.value])
  {
  }

  /** A write that goes through leaves no search cached and every other namespace as it was. */
  lemma WriteClearsSearches(s: ServiceState, w: Write, d0: nat, d1: nat, d2: nat)
    requires C.WellIndexed(s.cache) && Succeeds(s.db, w)
    ensures var s' := AfterWrite(s, w, d0, d1, d2).0;
      && C.WellIndexed(s'.cache)
      && (forall k | C.Live(s'.cache.store, k, s'.cache.now) :: NamespaceOf(k) != LISTING_SEARCH)
      && (forall k | NamespaceOf(k) != LISTING_SEARCH ::
            (k in s'.cache.store <==> k in s.cache.store) && (k in s.cache.store ==> s'.cache.store[k] == s.cache.store[k]))
  {
    WriteOutcome(s, w, d0, d1, d2);
    var wait0: C.Op<seq<Entry>>, wait1: C.Op<seq<Entry>>, wait2: C.Op<seq<Entry>> := C.Wait(d0), C.Wait(d1), C.Wait(d2);
    var clear: C.Op<seq<Entry>> := C.Clear(LISTING_SEARCH);
    assert C.Allowed(wait0) && C.Allowed(wait1) && C.Allowed(wait2) && C.Allowed(clear);
    hide C.WellIndexed, NamespaceOf, IndexKey, IsIndexKey, Written;
    C.StepKeepsIndex(s.cache, wait0);
    C.StepKeepsIndex(C.Apply(s.cache, wait0), wait1);
    C.StepKeepsIndex(C.Apply(C.Apply(s.cache, wait0), wait1), wait2);
    var before := C.Apply(C.Apply(C.Apply(s.cache, wait0), wait1), wait2);
    C.StepKeepsIndex(before, clear);
    C.ClearIsExact(before, LISTING_SEARCH);
  }

  /** A created listing is live, stamped by its actor, and belongs to the actor or to the agent an administrator chose. */
  lemma CreateFrame(db: Table, id: Id, details: Details, agent: Option<User>, actor: User, now: nat, saved: nat)
    requires Written(db, Create(id, details, agent, actor), now, saved).Ok?
    ensures var row := Written(db, Create(id, details, agent, actor), now, saved).value;
      && row.details == details
      && row.agent == (if agent.Some? then agent.value.id else actor.id)
      && (row.agent == actor.id || ForPlatform(actor))
      && row.createdBy == row.updatedBy == Some(actor.id) && row.createdAt == now && row.updatedAt == saved
      && row.deletedAt.None? && row.deletedBy.None?
  {
  }

  /** A deleted listing keeps everything but its deletion markers and the time of its last update. */
  lemma DeleteFrame(db: Table, id: Id, actor: User, now: nat, saved: nat)
    requires Written(db, Delete(id, actor), now, saved).Ok?
    ensures id in db && Written(db, Delete(id, actor), now, saved).value
      == db[id].(deletedAt := Some(now), deletedBy := Some(actor.id), updatedAt := saved)
  {
  }

  /** Who may touch a row is asked before what the payload holds; a missing row before either. */
  lemma UpdateErrors(db: Table, id: Id, p: Patch, actor: User, partial: bool, now: nat, saved: nat)
    ensures var r := Written(db, Update(id, p, actor, partial), now, saved);
      var live := id in db && db[id].deletedAt.None?;
      var mine := live && (db[id].agent == actor.id || ForPlatform(actor));
      && (r == Err(NotFound) <==> !live)
      && (r == Err(NotOwner) <==> live && !mine)
      && (r == Err(LocationRequired) <==> mine && !partial && p.location.None?)
      && (r == Err(CannotReassign) <==>
            (mine && (partial || p.location.Some?) && p.agent.Some? && p.agent.value.id != db[id].agent && !ForPlatform(actor)))
      && r != Err(CannotAssign)
  {
  }

  /**
   * An agent who is neither superuser nor staff is refused on a live row of another; each of the three
   * kinds of administrator, and the owner, may delete it. A missing or deleted row is not found by anyone.
   */
  lemma DeleteErrors(db: Table, id: Id, actor: User, now: nat, saved: nat)
    ensures var r := Written(db, Delete(id, actor), now, saved);
      var live := id in db && db[id].deletedAt.None?;
      && (r == Err(NotFound) <==> !live)
      && (r == Err(NotOwner) <==>
            live && db[id].agent != actor.id && !actor.superuser && !actor.staff && actor.role == Agent)
      && (r.Err? ==> r.error in {NotFound, NotOwner})
  {
  }

  /** Creating fails only when somebody other than an administrator names another agent. */
  lemma CreateErrors(db: Table, id: Id, details: Details, agent: Option<User>, actor: User, now: nat, saved: nat)
    ensures var r := Written(db, Create(id, details, agent, actor), now, saved);
      && (r == Err(CannotAssign) <==>
            agent.Some? && agent.value.id != actor.id && !actor.superuser && !actor.staff && actor.role == Agent)
      && (r.Err? ==> r.error == CannotAssign)
  {
  }

  /** Past the ownership and reassignment checks, resolving the agent answers the requested one and never raises. */
  lemma ResolveNeverRaises(row: Listing, requested: User, actor: User)
    requires MayMutate(row, actor)
    requires requested.id == row.agent || ForPlatform(actor)
    ensures ResolveAgent(actor, Some(requested)).Ok?
    ensures ResolveAgent(actor, Some(requested)).value.id == requested.id
  {
  }

  /** What a successful update changes: the supplied fields, the owner if supplied, and the update stamps. */
  lemma UpdateFrame(db: Table, id: Id, p: Patch, actor: User, partial: bool, now: nat, saved: nat)
    requires Written(db, Update(id, p, actor, partial), now, saved).Ok?
    ensures var was, row := db[id], Written(db, Update(id, p, actor, partial), now, saved).value;
      && row.details.title == (if p.title.Some? then p.title.value else was.details.title)
      && row.details.price == (if p.price.Some? then p.price.value else was.details.price)
      && row.details.kind == (if p.kind.Some? then p.kind.value else was.details.kind)
      && row.details.bedrooms == (if p.bedrooms.Some? then p.bedrooms.value else was.details.bedrooms)
      && row.details.locationName == (if p.locationName.Some? then p.locationName.value else was.details.locationName)
      && row.details.location == (if p.location.Some? then p.location.value else was.details.location)
      && row.agent == (if p.agent.Some? then p.agent.value.id else was.agent)
      && row.updatedBy == Some(actor.id) && row.updatedAt == saved
      && row.createdAt == was.createdAt && row.createdBy == was.createdBy
      && row.deletedAt == was.deletedAt && row.deletedBy == was.deletedBy
  {
  }

  /** A successful update is the full save of a copy that was read just before. */
  lemma UpdateIsFullSave(db: Table, id: Id, p: Patch, actor: User, partial: bool, now: nat, saved: nat)
    requires Written(db, Update(id, p, actor, partial), now, saved).Ok?
    ensures var loaded := SoftDelete.World(db, map[0 := (id, db[id])]);
      SoftDelete.Step(loaded, SoftDelete.Save(0, p, actor.id, saved)).db
        == db[id := Written(db, Update(id, p, actor, partial), now, saved).value]
  {
  }

  // ----- ownership over runs -----

  ghost predicate ByOthers(events: seq<Event>, u: UserId) {
    forall e | e in events && e.Wrote? :: !ForPlatform(e.w.actor) && e.w.actor.id != u
  }

  /** No row is lost, owners stay, and what user `u` owns keeps every field. */
  ghost predicate OwnersKept(db: Table, db': Table, u: UserId) {
    forall id | id in db :: id in db' && db'[id].agent == db[id].agent && (db[id].agent == u ==> db'[id] == db[id])
  }

  lemma OwnersKeptByStep(env: Env, s: ServiceState, e: Event, s': ServiceState, u: UserId)
    requires Step(env, s, e, s')
    requires e.Wrote? ==> !ForPlatform(e.w.actor) && e.w.actor.id != u
    ensures OwnersKept(s.db, s'.db, u)
    ensures e.Wrote? && e.w.Create? && e.written.Ok? ==>
      e.w.id !in s.db && e.w.id in s'.db && s'.db[e.w.id].agent == e.w.actor.id
  {
    if e.Wrote? {
      WriteOutcome(s, e.w, e.d0, e.d1, e.d2);
      hide C.Apply;
      if e.w.Update? && e.written.Ok? {
        UpdateFrame(s.db, e.w.id, e.w.patch, e.w.actor, e.w.partial, s.cache.now + e.d0, s.cache.now + e.d0 + e.d1);
      }
    }
  }

  /** In a run by non-administrators other than `u`: whatever `u` owns at any point keeps every field from then on. */
  lemma {:induction false} OthersCannotTouch(
      env: Env, states: seq<ServiceState>, events: seq<Event>, u: UserId, i: nat, j: nat)
    requires Run(env, states, events) && ByOthers(events, u) && i <= j <= |events|
    ensures OwnersKept(states[i].db, states[j].db, u)
    decreases j
  {
    if i < j {
      OthersCannotTouch(env, states, events, u, i, j - 1);
      assert events[j - 1] in events;
      OwnersKeptByStep(env, states[j - 1], events[j - 1], states[j], u);
    }
  }

  /** A listing that a non-administrator creates belongs to its creator to the end of the run. */
  lemma CreatedBelongsToActor(env: Env, states: seq<ServiceState>, events: seq<Event>, u: UserId, i: nat, j: nat)
    requires Run(env, states, events) && ByOthers(events, u) && i < j <= |events|
    requires events[i].Wrote? && events[i].w.Create? && events[i].written.Ok?
    ensures events[i].w.id !in states[i].db
    ensures events[i].w.id in states[j].db && states[j].db[events[i].w.id].agent == events[i].w.actor.id
  {
    assert events[i] in events;
    OwnersKeptByStep(env, states[i], events[i], states[i + 1], u);
    OthersCannotTouch(env, states, events, u, i + 1, j);
  }

  // ----- soft deletion over runs -----

  function Creates(events: seq<Event>): nat {
    if events == [] then 0 else
      var e := events[|events| - 1];
      Creates(events[..|events| - 1]) + if e.Wrote? && e.w.Create? && e.written.Ok? then 1 else 0
  }

  function Deletes(events: seq<Event>): nat {
    if events == [] then 0 else
      var e := events[|events| - 1];
      Deletes(events[..|events| - 1]) + if e.Wrote? && e.w.Delete? && e.written.Ok? then 1 else 0
  }

  /** Live and deleted rows are all the rows, and none is both. */
  lemma ViewsPartition(db: Table)
    ensures LiveIds(db) + DeletedIds(db) == db.Keys && LiveIds(db) !! DeletedIds(db)
    ensures |LiveIds(db)| + |DeletedIds(db)| == |db|
  {
    assert LiveIds(db) + DeletedIds(db) == db.Keys;
  }

  /**
   * A deleted row stays deleted and unchanged, no row is lost, the number of rows grows by the
   * creates, and the number of live ones changes by creates minus deletes.
   */
  ghost predicate Conserved(db: Table, db': Table, creates: nat, deletes: nat) {
    && (forall id | id in DeletedIds(db) :: id in db' && db'[id] == db[id])
    && db.Keys <= db'.Keys
    && |db'| == |db| + creates
    && |LiveIds(db')| + deletes == |LiveIds(db)| + creates
  }

  lemma ConservedChains(a: Table, b: Table, c: Table, n: nat, m: nat, n': nat, m': nat)
    requires Conserved(a, b, n, m) && Conserved(b, c, n', m')
    ensures Conserved(a, c, n + n', m + m')
  {
    assert forall id | id in DeletedIds(a) :: id in DeletedIds(b);
  }

  lemma InsertConserves(db: Table, id: Id, row: Listing)
    requires id !in db && row.deletedAt.None?
    ensures Conserved(db, db[id := row], 1, 0)
  {
    var db' := db[id := row];
    assert db'.Keys == db.Keys + {id} && |db'.Keys| == |db.Keys| + 1;
    assert LiveIds(db') == LiveIds(db) + {id};
  }

  lemma ReplaceConserves(db: Table, id: Id, row: Listing)
    requires id in db && db[id].deletedAt.None?
    ensures Conserved(db, db[id := row], 0, if row.deletedAt.Some? then 1 else 0)
  {
    var db' := db[id := row];
    assert db'.Keys == db.Keys;
    assert |db'| == |db'.Keys| && |db| == |db.Keys|;
    if row.deletedAt.Some? {
      assert LiveIds(db) == LiveIds(db') + {id} && id !in LiveIds(db');
    } else {
      assert LiveIds(db') == LiveIds(db);
    }
  }

  lemma DeletionStep(env: Env, s: ServiceState, e: Event, s': ServiceState)
    requires Step(env, s, e, s')
    ensures Conserved(s.db, s'.db, Creates([e]), Deletes([e]))
  {
    assert [e][..0] == [];
    if e.Wrote? && e.written.Ok? {
      WriteOutcome(s, e.w, e.d0, e.d1, e.d2);
      hide C.Apply, Conserved;
      if e.w.Create? {
        InsertConserves(s.db, e.w.id, e.written.value);
      } else {
        ReplaceConserves(s.db, e.w.id, e.written.value);
      }
    }
  }

  lemma OneMoreEvent(events: seq<Event>, i: nat, j: nat)
    requires i < j <= |events|
    ensures Creates(events[i..j]) == Creates(events[i..j - 1]) + Creates([events[j - 1]])
    ensures Deletes(events[i..j]) == Deletes(events[i..j - 1]) + Deletes([events[j - 1]])
  {
    var part, last := events[i..j], [events[j - 1]];
    assert part[..|part| - 1] == events[i..j - 1] && part[|part| - 1] == events[j - 1];
    assert last[..0] == [];
  }

  lemma NothingHappened(db: Table)
    ensures Conserved(db, db, 0, 0)
  {
  }

  /** Conservation over any stretch of a run, whoever acts in it. */
  lemma {:induction false} DeletionIsFinal(env: Env, states: seq<ServiceState>, events: seq<Event>, i: nat, j: nat)
    requires Run(env, states, events) && i <= j <= |events|
    ensures Conserved(states[i].db, states[j].db, Creates(events[i..j]), Deletes(events[i..j]))
    decreases j
  {
    hide Run, Step, Conserved;
    OneStateMore(env, states, events);
    if i == j {
      assert events[i..j] == [];
      NothingHappened(states[i].db);
    } else {
      DeletionIsFinal(env, states, events, i, j - 1);
      StepOf(env, states, events, j - 1);
      DeletionStep(env, states[j - 1], events[j - 1], states[j]);
      hide Creates, Deletes;
      OneMoreEvent(events, i, j);
      ConservedChains(states[i].db, states[j - 1].db, states[j].db,
        Creates(events[i..j - 1]), Deletes(events[i..j - 1]), Creates([events[j - 1]]), Deletes([events[j - 1]]));
    }
  }
}
