/**
 * The cache answers: in a serial run the work of a query is done at most once per time to live, unless a
 * write succeeds in between (`search` in apps/listings/services/listing_service.py).
 */
module Windows {
  import opened Prelude
  import opened CacheKeys
  import opened Listings
  import opened Query
  import opened SearchKeys
  import opened Service
  import opened ServiceRuns
  import C = Cache

  ghost predicate Cached(s: ServiceState, key: string, entries: seq<Entry>, expiry: nat) {
    key in s.cache.store && s.cache.store[key] == C.Slot(C.Data(Some(entries)), expiry)
  }

  predicate Changes(e: Event) {
    e.Wrote? && e.written.Ok?
  }

  lemma ClockAdvances(env: Env, s: ServiceState, e: Event, s': ServiceState)
    requires Step(env, s, e, s')
    ensures s.cache.now <= s'.cache.now
    ensures e.Searched? ==> s.cache.now + e.delays.d0 <= s'.cache.now
    ensures !Changes(e) ==> s'.db == s.db
  {
    hide SearchKey, SearchError, ValidAnswer, Materialised, EntriesOf, Written, C.Touched, C.Stored, C.Cleared, C.ValueAt;
  }

  lemma SetLeavesSlot(c: CachedSearches, asked: string, v: Option<seq<Entry>>, d2: nat, d3: nat, key: string)
    requires key in c.store && key != asked && forall ns :: IndexKey(ns) != key
    ensures var c' := C.Apply(c, C.Set(asked, v, SEARCH_TTL, d2, d3));
      key in c'.store && c'.store[key] == c.store[key]
  {
    hide IndexKey, NamespaceOf, C.KeysAt;
  }

  /** A search leaves the slot alone, and so does the index it writes; with the same key it is answered from the slot. */
  lemma SearchKeepsSlot(env: Env, s: ServiceState, e: Event, s': ServiceState, key: string, entries: seq<Entry>, expiry: nat)
    requires e.Searched? && Step(env, s, e, s') && Cached(s, key, entries, expiry) && s'.cache.now < expiry
    requires forall ns :: IndexKey(ns) != key
    ensures Cached(s', key, entries, expiry)
    ensures SearchKey(env, e.f) == key ==> s'.cache.store == s.cache.store && e.found == Ok(Materialised(s.db, entries))
  {
    ClockAdvances(env, s, e, s');
    hide SearchKey, IndexKey, NamespaceOf, ValidAnswer, Materialised, EntriesOf, SearchError, C.Stored;
    var asked, now := SearchKey(env, e.f), s.cache.now + e.delays.d0;
    assert asked == key ==> C.ValueAt(s.cache.store, asked, now) == Some(entries);
    var looked := C.CacheState(C.Touched(s.cache.store, asked, now), now + e.delays.d1);
    assert key in looked.store && looked.store[key] == s.cache.store[key];
    if asked != key && e.found.Ok? {
      SetLeavesSlot(looked, asked, Some(EntriesOf(e.found.value)), e.delays.d2, e.delays.d3, key);
    }
  }

  /** A search with this key is answered from these entries and leaves the store as it is. */
  ghost predicate AnsweredFrom(env: Env, s: ServiceState, e: Event, s': ServiceState, key: string, entries: seq<Entry>) {
    e.Searched? && SearchKey(env, e.f) == key ==>
      s'.cache.store == s.cache.store && e.found == Ok(Materialised(s.db, entries))
  }

  lemma StepKeepsSlot(env: Env, s: ServiceState, e: Event, s': ServiceState, key: string, entries: seq<Entry>, expiry: nat)
    requires Step(env, s, e, s') && !Changes(e) && Cached(s, key, entries, expiry) && s'.cache.now < expiry
    requires forall ns :: IndexKey(ns) != key
    ensures Cached(s', key, entries, expiry)
    ensures AnsweredFrom(env, s, e, s', key, entries)
  {
    if e.Searched? {
      hide Step, Cached;
      SearchKeepsSlot(env, s, e, s', key, entries, expiry);
    } else {
      hide Written, SearchStep, SearchKey, IndexKey;
    }
  }

  /** No write succeeds from the one event to the other. */
  ghost predicate NothingChanges(events: seq<Event>, i: nat, j: nat)
    requires i <= j <= |events|
  {
    forall k | i <= k < j :: !Changes(events[k])
  }

  lemma {:induction false} SlotLasts(env: Env, states: seq<ServiceState>, events: seq<Event>, i: nat, j: nat,
                                     key: string, entries: seq<Entry>, expiry: nat)
    requires Run(env, states, events) && i <= j <= |events| && |states| == |events| + 1
    requires Cached(states[i], key, entries, expiry) && forall ns :: IndexKey(ns) != key
    requires NothingChanges(events, i, j) && states[j].cache.now < expiry
    ensures Cached(states[j], key, entries, expiry) && states[j].db == states[i].db
    decreases j
  {
    hide Run, Step, SearchKey, IndexKey, Cached, AnsweredFrom;
    if i < j {
      StepOf(env, states, events, j - 1);
      assert !Changes(events[j - 1]);
      ClockAdvances(env, states[j - 1], events[j - 1], states[j]);
      SlotLasts(env, states, events, i, j - 1, key, entries, expiry);
      StepKeepsSlot(env, states[j - 1], events[j - 1], states[j], key, entries, expiry);
    }
  }

  /**
   * While a value is cached and no write succeeds, every search with its key is answered from it, with one
   * and the same list, and leaves the cache as it is.
   */
  lemma CachedValueAnswers(env: Env, states: seq<ServiceState>, events: seq<Event>, i: nat, j: nat, f: Filters,
                           entries: seq<Entry>, expiry: nat)
    requires EnvOk(env) && Run(env, states, events) && i <= j < |events| && |states| == |events| + 1
    requires SearchError(f).None? && Cached(states[i], SearchKey(env, f), entries, expiry)
    requires NothingChanges(events, i, j) && states[j + 1].cache.now < expiry
    requires events[j].Searched? && SearchKey(env, events[j].f) == SearchKey(env, f)
    ensures events[j].found == Ok(Materialised(states[i].db, entries))
    ensures states[j + 1].cache.store == states[j].cache.store
  {
    StoredKeyShape(env, f);
    hide Run, Step, SearchKey, SearchError, IndexKey, NamespaceOf, Cached, EnvOk, Materialised, NothingChanges;
    StepOf(env, states, events, j);
    ClockAdvances(env, states[j], events[j], states[j + 1]);
    SlotLasts(env, states, events, i, j, SearchKey(env, f), entries, expiry);
    StepKeepsSlot(env, states[j], events[j], states[j + 1], SearchKey(env, f), entries, expiry);
  }

  // ----- at most once -----

  /** The search misses and has the database do the work. */
  ghost predicate Asks(env: Env, s: ServiceState, e: Event) {
    && e.Searched? && SearchError(e.f).None?
    && C.ValueAt(s.cache.store, SearchKey(env, e.f), s.cache.now + e.delays.d0).None?
  }

  lemma AskingCaches(env: Env, s: ServiceState, e: Event, s': ServiceState)
    requires EnvOk(env) && Asks(env, s, e) && Step(env, s, e, s')
    ensures e.found.Ok?
    ensures Cached(s', SearchKey(env, e.f), EntriesOf(e.found.value), s.cache.now + e.delays.d0 + e.delays.d1 + 60_000_000)
  {
    StoredKeyShape(env, e.f);
    hide SearchKey, SearchError, IndexKey, NamespaceOf, EntriesOf, ValidAnswer, Materialised, EnvOk, C.KeysAt, C.ValueAt;
  }

  /**
   * Of two searches with one key that both have the database do the work, with no successful write
   * between them, the second looks up no sooner than the first one's entry expires.
   */
  lemma WorkIsDoneOncePerWindow(env: Env, states: seq<ServiceState>, events: seq<Event>, i: nat, j: nat)
    requires EnvOk(env) && Run(env, states, events) && i < j < |events| && |states| == |events| + 1
    requires Asks(env, states[i], events[i]) && Asks(env, states[j], events[j])
    requires SearchKey(env, events[i].f) == SearchKey(env, events[j].f)
    requires NothingChanges(events, i + 1, j)
    ensures states[j].cache.now + events[j].delays.d0
      >= states[i].cache.now + events[i].delays.d0 + events[i].delays.d1 + 60_000_000
  {
    var expiry := states[i].cache.now + events[i].delays.d0 + events[i].delays.d1 + 60_000_000;
    StepOf(env, states, events, i);
    AskingCaches(env, states[i], events[i], states[i + 1]);
    hide Run, Step, SearchKey, SearchError, EntriesOf, EnvOk, NothingChanges;
    if states[j].cache.now + events[j].delays.d0 < expiry {
      StoredKeyShape(env, events[i].f);
      hide IndexKey, NamespaceOf;
      SlotLasts(env, states, events, i + 1, j, SearchKey(env, events[i].f), EntriesOf(events[i].found.value), expiry);
    }
  }
}
