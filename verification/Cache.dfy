/** `CacheManager` (core/cache.py): a store with expiries and the key index kept inside that same store. */
module Cache {
  import opened Prelude
  import opened CacheKeys

  /** The clock counts microseconds. */
  const SECOND: nat := 1_000_000
  const INDEX_TTL: nat := 3600 * SECOND
  const DEFAULT_TTL: nat := 300 * SECOND

  /** What a slot holds: a cached value, Python's `None` included, or the index of a namespace. */
  datatype Cell<V> = Data(value: Option<V>) | Index(keys: seq<string>)
  datatype Slot<V> = Slot(cell: Cell<V>, expiry: nat)
  type Store<V> = map<string, Slot<V>>

  // ----- single accesses -----

  predicate Live<V>(store: Store<V>, key: string, now: nat) {
    key in store && now < store[key].expiry
  }

  /** A read drops a slot that it finds expired. */
  function Touched<V>(store: Store<V>, key: string, now: nat): Store<V> {
    if Live(store, key, now) then store else store - {key}
  }

  /** What `cache.get` answers for a data key. */
  function ValueAt<V>(store: Store<V>, key: string, now: nat): Option<V> {
    if Live(store, key, now) && store[key].cell.Data? then store[key].cell.value else None
  }

  /** The registered keys of a namespace, as `cache.get(index_key) or []` answers them. */
  function KeysAt<V>(store: Store<V>, namespace: string, now: nat): seq<string> {
    var k := IndexKey(namespace);
    if Live(store, k, now) && store[k].cell.Index? then store[k].cell.keys else []
  }

  /** The index is read at one instant and written back at another. */
  function Registered<V>(store: Store<V>, key: string, readAt: nat, writeAt: nat): Store<V> {
    var namespace := NamespaceOf(key);
    var keys := KeysAt(store, namespace, readAt);
    store[IndexKey(namespace) := Slot(Index(if key in keys then keys else keys + [key]), writeAt + INDEX_TTL)]
  }

  function Stored<V>(store: Store<V>, key: string, value: Option<V>, ttl: nat, at: nat, readAt: nat, writeAt: nat): Store<V> {
    Registered(store[key := Slot(Data(value), at + ttl)], key, readAt, writeAt)
  }

  function Cleared<V>(store: Store<V>, namespace: string, now: nat): Store<V> {
    store - SetOf(KeysAt(store, namespace, now)) - {IndexKey(namespace)}
  }

  /** The registered keys that a clear finds in the store, and counts. */
  function RemovedKeys<V>(store: Store<V>, namespace: string, now: nat): set<string> {
    Present(store, KeysAt(store, namespace, now))
  }

  function Present<V>(store: Store<V>, keys: seq<string>): set<string> {
    set k | k in keys && k in store
  }

  lemma OneMorePresent<V>(store: Store<V>, keys: seq<string>, i: nat)
    requires i < |keys|
    ensures SetOf(keys[..i + 1]) == SetOf(keys[..i]) + {keys[i]}
    ensures Present(store, keys[..i + 1]) == Present(store, keys[..i]) + if keys[i] in store then {keys[i]} else {}
    ensures keys[i] in store && keys[i] !in SetOf(keys[..i]) <==> keys[i] in store - SetOf(keys[..i])
  {
  }

  // ----- runs -----

  datatype CacheState<V> = CacheState(store: Store<V>, now: nat)

  datatype Op<V> =
    | Wait(d: nat)
    | Get(key: string)
    | Set(key: string, value: Option<V>, ttl: nat, d1: nat, d2: nat)
    | Delete(key: string)
    | Clear(namespace: string)

  function Apply<V>(st: CacheState<V>, op: Op<V>): CacheState<V> {
    match op
    case Wait(d) => st.(now := st.now + d)
    case Get(key) => st.(store := Touched(st.store, key, st.now))
    case Set(key, value, ttl, d1, d2) =>
      CacheState(Stored(st.store, key, value, ttl, st.now, st.now + d1, st.now + d1 + d2), st.now + d1 + d2)
    case Delete(key) => st.(store := st.store - {key})
    case Clear(namespace) => st.(store := Cleared(st.store, namespace, st.now))
  }

  function Run<V>(st: CacheState<V>, ops: seq<Op<V>>): CacheState<V> {
    if ops == [] then st else Apply(Run(st, ops[..|ops| - 1]), ops[|ops| - 1])
  }

  function Empty<V>(): CacheState<V> {
    CacheState(map[], 0)
  }

  /** Values are cached under data keys only, for no longer than an index lives. */
  predicate Allowed<V>(op: Op<V>) {
    match op
    case Set(key, _, ttl, _, _) => !IsIndexKey(key) && ttl <= INDEX_TTL
    case Delete(key) => !IsIndexKey(key)
    case _ => true
  }

  // ----- the index is complete -----

  /** Index keys hold indexes, and an index lists data keys of its own namespace, each once. */
  ghost predicate Typed<V>(store: Store<V>) {
    && (forall k | k in store :: IsIndexKey(k) <==> store[k].cell.Index?)
    && (forall k | k in store && store[k].cell.Index? ::
          && Distinct(store[k].cell.keys)
          && forall x | x in store[k].cell.keys :: !IsIndexKey(x) && NamespaceOf(x) == NamespaceOf(k))
  }

  /** No index was written in the future. */
  ghost predicate Dated<V>(store: Store<V>, now: nat) {
    forall k | k in store && store[k].cell.Index? :: store[k].expiry <= now + INDEX_TTL
  }

  /** The live index of the key's namespace lists the key and outlives it. */
  ghost predicate Indexed<V>(store: Store<V>, key: string, now: nat)
    requires key in store
  {
    var k := IndexKey(NamespaceOf(key));
    && Live(store, k, now)
    && store[k].cell.Index?
    && key in store[k].cell.keys
    && store[key].expiry <= store[k].expiry
  }

  ghost predicate WellIndexed<V>(st: CacheState<V>) {
    && Typed(st.store)
    && Dated(st.store, st.now)
    && (forall k | Live(st.store, k, st.now) && !IsIndexKey(k) :: Indexed(st.store, k, st.now))
  }

  lemma RegisteredIsTyped<V>(store: Store<V>, key: string, readAt: nat, writeAt: nat)
    requires Typed(store) && !IsIndexKey(key)
    ensures Typed(Registered(store, key, readAt, writeAt))
  {
    var ns := NamespaceOf(key);
    NamespaceOfIndexKey(ns);
    hide NamespaceOf, IndexKey;
    var keys := KeysAt(store, ns, readAt);
    var slot := Registered(store, key, readAt, writeAt)[IndexKey(ns)];
    assert slot.cell.keys == if key in keys then keys else keys + [key];
  }

  /** Registering a key keeps every live entry indexed that was indexed when the index was read. */
  lemma RegisteredKeepsOthers<V>(store: Store<V>, key: string, other: string, readAt: nat, writeAt: nat)
    requires other in store && !IsIndexKey(other) && other != key
    requires readAt <= writeAt && Live(store, other, writeAt)
    requires Indexed(store, other, readAt) && Dated(store, readAt)
    ensures Indexed(Registered(store, key, readAt, writeAt), other, writeAt)
  {
    NamespaceOfIndexKey(NamespaceOf(other));
    NamespaceOfIndexKey(NamespaceOf(key));
    if NamespaceOf(other) == NamespaceOf(key) {
      assert other in KeysAt(store, NamespaceOf(key), readAt);
    }
  }

  lemma StoredIsTyped<V>(store: Store<V>, key: string, value: Option<V>, ttl: nat, at: nat, readAt: nat, writeAt: nat)
    requires Typed(store) && Dated(store, at) && at <= writeAt && !IsIndexKey(key)
    ensures Typed(Stored(store, key, value, ttl, at, readAt, writeAt))
    ensures Dated(Stored(store, key, value, ttl, at, readAt, writeAt), writeAt)
  {
    var mid := store[key := Slot(Data(value), at + ttl)];
    assert Typed(mid) by {
      hide IsIndexKey, NamespaceOf;
    }
    RegisteredIsTyped(mid, key, readAt, writeAt);
    hide IsIndexKey, NamespaceOf;
  }

  lemma SetKeepsOthers<V>(st: CacheState<V>, key: string, value: Option<V>, ttl: nat, d1: nat, d2: nat, other: string)
    requires WellIndexed(st) && !IsIndexKey(key)
    requires !IsIndexKey(other) && other != key
    requires Live(st.store, other, st.now + d1 + d2)
    ensures Indexed(Stored(st.store, key, value, ttl, st.now, st.now + d1, st.now + d1 + d2), other, st.now + d1 + d2)
  {
    NamespaceOfIndexKey(NamespaceOf(other));
    hide NamespaceOf, IndexKey;
    var mid := st.store[key := Slot(Data(value), st.now + ttl)];
    assert Live(st.store, other, st.now);
    assert Indexed(mid, other, st.now + d1);
    RegisteredKeepsOthers(mid, key, other, st.now + d1, st.now + d1 + d2);
  }

  lemma SetIndexesKey<V>(store: Store<V>, key: string, value: Option<V>, ttl: nat, at: nat, readAt: nat, writeAt: nat)
    requires !IsIndexKey(key)
    ensures Indexed(Stored(store, key, value, ttl, at, readAt, writeAt), key, writeAt) <==> at + ttl <= writeAt + INDEX_TTL
  {
    NamespaceOfIndexKey(NamespaceOf(key));
    hide NamespaceOf, IndexKey;
  }

  /** A write keeps the index complete exactly when the entry does not outlive the index written after it. */
  lemma SetKeepsIndex<V>(st: CacheState<V>, key: string, value: Option<V>, ttl: nat, d1: nat, d2: nat)
    requires WellIndexed(st) && !IsIndexKey(key)
    ensures WellIndexed(Apply(st, Set(key, value, ttl, d1, d2))) <==> ttl <= d1 + d2 + 3_600_000_000
  {
    hide NamespaceOf, IndexKey, IsIndexKey, Typed, Dated, Indexed;
    var st' := Apply(st, Set(key, value, ttl, d1, d2));
    StoredIsTyped(st.store, key, value, ttl, st.now, st.now + d1, st'.now);
    SetIndexesKey(st.store, key, value, ttl, st.now, st.now + d1, st'.now);
    forall k | Live(st'.store, k, st'.now) && !IsIndexKey(k) && k != key
      ensures Indexed(st'.store, k, st'.now)
    {
      NamespaceOfIndexKey(NamespaceOf(key));
      SetKeepsOthers(st, key, value, ttl, d1, d2, k);
    }
    if ttl > d1 + d2 + INDEX_TTL {
      assert Live(st'.store, key, st'.now);
    }
  }

  lemma ClearIsExact<V>(st: CacheState<V>, namespace: string)
    requires WellIndexed(st)
    ensures var st' := Apply(st, Clear(namespace));
      && (forall k | Live(st'.store, k, st'.now) :: NamespaceOf(k) != namespace)
      && (forall k | NamespaceOf(k) != namespace ::
            (k in st'.store <==> k in st.store) && (k in st.store ==> st'.store[k] == st.store[k]))
      && (forall k | Live(st.store, k, st.now) && !IsIndexKey(k) && NamespaceOf(k) == namespace ::
            k in RemovedKeys(st.store, namespace, st.now))
      && (forall k | k in RemovedKeys(st.store, namespace, st.now) ::
            k in st.store && !IsIndexKey(k) && NamespaceOf(k) == namespace && k !in st'.store)
  {
    var ik := IndexKey(namespace);
    NamespaceOfIndexKey(namespace);
    forall k | Live(st.store, k, st.now) && !IsIndexKey(k) && NamespaceOf(k) == namespace
      ensures k in KeysAt(st.store, namespace, st.now)
    {
      assert Indexed(st.store, k, st.now);
    }
  }

  lemma StepKeepsIndex<V>(st: CacheState<V>, op: Op<V>)
    requires WellIndexed(st) && Allowed(op)
    ensures WellIndexed(Apply(st, op))
  {
    var st' := Apply(st, op);
    match op {
      case Set(key, value, ttl, d1, d2) =>
        SetKeepsIndex(st, key, value, ttl, d1, d2);
      case Clear(namespace) =>
        ClearIsExact(st, namespace);
        forall k | Live(st'.store, k, st'.now) && !IsIndexKey(k)
          ensures Indexed(st'.store, k, st'.now)
        {
          assert Indexed(st.store, k, st.now);
          NamespaceOfIndexKey(NamespaceOf(k));
        }
      case _ =>
        forall k | Live(st'.store, k, st'.now) && !IsIndexKey(k)
          ensures Indexed(st'.store, k, st'.now)
        {
          assert Indexed(st.store, k, st.now);
          NamespaceOfIndexKey(NamespaceOf(k));
        }
    }
  }

  /** Index completeness in every state reachable from an empty cache, across all expiries. */
  lemma {:induction false} ReachableIsWellIndexed<V>(ops: seq<Op<V>>)
    requires forall op | op in ops :: Allowed(op)
    ensures WellIndexed(Run(Empty<V>(), ops))
  {
    if ops != [] {
      var init := ops[..|ops| - 1];
      assert forall op | op in init :: op in ops;
      ReachableIsWellIndexed(init);
      StepKeepsIndex(Run(Empty<V>(), init), ops[|ops| - 1]);
    }
  }

  /** A value is answered until its time to live is over. */
  lemma ValueLivesItsTime<V>(st: CacheState<V>, key: string, value: V, ttl: nat, d1: nat, d2: nat, d: nat)
    requires !IsIndexKey(key)
    ensures var st' := Apply(Apply(st, Set(key, Some(value), ttl, d1, d2)), Wait(d));
      ValueAt(st'.store, key, st'.now) == if d1 + d2 + d < ttl then Some(value) else None
  {
    hide NamespaceOf, IndexKey;
    assert IndexKey(NamespaceOf(key)) != key;
  }

  /** Set one value, wait, and clear its namespace. */
  function SetWaitClear<V>(st: CacheState<V>, key: string, value: V, ttl: nat, d1: nat, d2: nat, d: nat): CacheState<V> {
    Apply(Apply(Apply(st, Set(key, Some(value), ttl, d1, d2)), Wait(d)), Clear(NamespaceOf(key)))
  }

  /** Between a write and the expiry of the index it writes, a clear removes the entry; afterwards it does not. */
  lemma ClearAfterSet<V>(st: CacheState<V>, key: string, value: V, ttl: nat, d1: nat, d2: nat, d: nat)
    requires !IsIndexKey(key)
    ensures var st' := SetWaitClear(st, key, value, ttl, d1, d2, d);
      ValueAt(st'.store, key, st'.now) == None <==> ttl <= d1 + d2 + d || d < INDEX_TTL
  {
    var ns := NamespaceOf(key);
    NamespaceOfIndexKey(ns);
    hide NamespaceOf, IndexKey, IsIndexKey;
    var one := Apply(st, Set(key, Some(value), ttl, d1, d2));
    assert one.store[key] == Slot(Data(Some(value)), st.now + ttl);
    var index := one.store[IndexKey(ns)];
    assert index.cell.Index? && key in index.cell.keys && index.expiry == one.now + INDEX_TTL;
    hide Stored;
    var waited := Apply(one, Wait(d));
    assert key in KeysAt(waited.store, ns, waited.now) <==> d < INDEX_TTL;
  }

  /**
   * Why values may not outlive the index: from any state, whatever the wait, clearing removes the entry
   * just written, if and only if it does not outlive the index written with it.
   */
  lemma ClearReachesEntryIffShortLived<V>(st: CacheState<V>, key: string, value: V, ttl: nat, d1: nat, d2: nat)
    requires !IsIndexKey(key)
    ensures (forall d: nat {:trigger SetWaitClear(st, key, value, ttl, d1, d2, d)} ::
        var st' := SetWaitClear(st, key, value, ttl, d1, d2, d); ValueAt(st'.store, key, st'.now) == None)
      <==> ttl <= d1 + d2 + 3_600_000_000
  {
    hide NamespaceOf, IndexKey, IsIndexKey, SetWaitClear, ValueAt;
    forall d: nat
      ensures var st' := SetWaitClear(st, key, value, ttl, d1, d2, d);
        ValueAt(st'.store, key, st'.now) == None <==> ttl <= d1 + d2 + d || d < INDEX_TTL
    {
      ClearAfterSet(st, key, value, ttl, d1, d2, d);
    }
    if ttl > d1 + d2 + INDEX_TTL {
      var st' := SetWaitClear(st, key, value, ttl, d1, d2, INDEX_TTL);
      assert ValueAt(st'.store, key, st'.now) != None;
    }
  }

  // ----- the class -----

  class CacheManager<V(==)> {
    var store: Store<V>
    var now: nat

    ghost function State(): CacheState<V>
      reads this
    {
      CacheState(store, now)
    }

    constructor ()
      ensures State() == Empty<V>()
    {
      store, now := map[], 0;
    }

    /** Time passes. */
    method Tick(d: nat)
      modifies this
      ensures State() == Apply(old(State()), Wait(d))
    {
      now := now + d;
    }

    method Get(key: string) returns (value: Option<V>)
      modifies this
      ensures State() == Apply(old(State()), Op.Get(key))
      ensures value == ValueAt(old(store), key, now)
      ensures store == if key in old(store) && old(store)[key].expiry <= now then old(store) - {key} else old(store)
    {
      value := None;
      if key in store {
        if now >= store[key].expiry {
          store := store - {key};
        } else if store[key].cell.Data? {
          value := store[key].cell.value;
        }
      }
      assert key !in store ==> Touched(old(store), key, now) == store;
    }

    /** Without a time to live of its own a value lives for five minutes. */
    method Set(key: string, value: Option<V>, d1: nat, d2: nat, ttl: Option<nat> := None)
      modifies this
      ensures State() == Apply(old(State()), Op.Set(key, value, ttl.GetOr(300_000_000), d1, d2))
    {
      store := store[key := Slot(Data(value), now + ttl.GetOr(DEFAULT_TTL))];
      RegisterKey(key, d1, d2);
    }

    method RegisterKey(key: string, d1: nat, d2: nat)
      modifies this
      ensures store == Registered(old(store), key, old(now) + d1, old(now) + d1 + d2)
      ensures var listed := KeysAt(old(store), NamespaceOf(key), old(now) + d1);
        store == old(store)[IndexKey(NamespaceOf(key)) :=
          Slot(Index(if key in listed then listed else listed + [key]), old(now) + d1 + d2 + 3_600_000_000)]
      ensures now == old(now) + d1 + d2
    {
      var namespace := NamespaceOf(key);
      var indexKey := IndexKey(namespace);
      now := now + d1;
      var registered := KeysAt(store, namespace, now);
      if key !in registered {
        registered := registered + [key];
      }
      now := now + d2;
      store := store[indexKey := Slot(Index(registered), now + INDEX_TTL)];
    }

    /** The factory answers `made` after `d0`; it is asked on a miss only. */
    method GetOrSet(key: string, made: Option<V>, d0: nat, d1: nat, d2: nat, ttl: Option<nat> := None)
        returns (value: Option<V>)
      modifies this
      ensures var hit := ValueAt(old(store), key, old(now));
        && value == (if hit.Some? then hit else made)
        && State() == if hit.Some? then Apply(old(State()), Op.Get(key))
             else Apply(Apply(Apply(old(State()), Op.Get(key)), Wait(d0)), Op.Set(key, made, ttl.GetOr(300_000_000), d1, d2))
    {
      value := Get(key);
      if value == None {
        value := made;
        Tick(d0);
        Set(key, value, d1, d2, ttl);
      }
    }

    method Delete(key: string) returns (found: bool)
      modifies this
      ensures State() == Apply(old(State()), Op.Delete(key))
      ensures found == (key in old(store))
    {
      found := key in store;
      store := store - {key};
    }

    method ClearNamespace(namespace: string) returns (removed: nat)
      modifies this
      ensures State() == Apply(old(State()), Clear(namespace))
      ensures removed == |RemovedKeys(old(store), namespace, now)|
    {
      var registered := KeysAt(store, namespace, now);
      removed := 0;
      ghost var before := store;
      hide KeysAt, IndexKey;
      for i := 0 to |registered|
        invariant now == old(now)
        invariant store == before - SetOf(registered[..i])
        invariant removed == |Present(before, registered[..i])|
      {
        OneMorePresent(before, registered, i);
        var found := Delete(registered[i]);
        if found {
          removed := removed + 1;
        }
      }
      assert registered[..|registered|] == registered;
      var _ := Delete(IndexKey(namespace));
    }
  }
}
