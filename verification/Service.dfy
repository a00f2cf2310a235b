/** `ListingService` (apps/listings/services/listing_service.py): permission-checked writes and the cached search. */
module Service {
  import opened Prelude
  import opened CacheKeys
  import opened Listings
  import opened SoftDelete
  import opened Query
  import opened SearchKeys
  import C = Cache

  const SEARCH_TTL: nat := 60 * C.SECOND

  // ----- writes, as functions of the table -----

  datatype Write =
    | Create(id: Id, details: Details, agent: Option<User>, actor: User)
    | Update(id: Id, patch: Patch, actor: User, partial: bool)
    | Delete(id: Id, actor: User)

  function ResolveAgent(actor: User, requested: Option<User>): Result<User, Error> {
    if requested.None? || requested.value.id == actor.id then Ok(actor)
    else if IsAdmin(actor) then Ok(requested.value)
    else Err(CannotAssign)
  }

  predicate MayMutate(row: Listing, actor: User) {
    row.agent == actor.id || IsAdmin(actor)
  }

  function UpdatedAgent(row: Listing, p: Patch, actor: User): Result<UserId, Error> {
    if p.agent.None? then Ok(row.agent)
    else if p.agent.value.id != row.agent && !IsAdmin(actor) then Err(CannotReassign)
    else match ResolveAgent(actor, p.agent)
      case Ok(user) => Ok(user.id)
      case Err(e) => Err(e)
  }

  /**
   * The row that a write leaves under its identifier, or the exception it raises. The clock is read for
   * the time of creation or deletion (`now`) and again for the time of the last update (`saved`).
   */
  function Written(db: Table, w: Write, now: nat, saved: nat): Result<Listing, Error> {
    match w
    case Create(_, details, agent, actor) => (
      match ResolveAgent(actor, agent)
      case Err(e) => Err(e)
      case Ok(user) =>
        Ok(Listing(details, user.id, now, saved, None, Some(actor.id), Some(actor.id), None)))
    case Update(id, p, actor, partial) => (
      if id !in LiveIds(db) then Err(NotFound)
      else if !MayMutate(db[id], actor) then Err(NotOwner)
      else if !partial && p.location.None? then Err(LocationRequired)
      else match UpdatedAgent(db[id], p, actor)
        case Err(e) => Err(e)
        case Ok(agent) =>
          Ok(db[id].(details := Patched(db[id].details, p), agent := agent, updatedBy := Some(actor.id), updatedAt := saved)))
    case Delete(id, actor) => (
      if id !in LiveIds(db) then Err(NotFound)
      else if !MayMutate(db[id], actor) then Err(NotOwner)
      else Ok(SoftDeleted(db, id, db[id], Some(actor.id), now, saved).held))
  }

  // ----- states and whole calls -----

  type CachedSearches = C.CacheState<seq<Entry>>

  datatype ServiceState = ServiceState(db: Table, cache: CachedSearches)

  /** The first clock reading comes after `d0`, the second `d1` later, and the clearing another `d2` later. */
  function AfterWrite(s: ServiceState, w: Write, d0: nat, d1: nat, d2: nat): (ServiceState, Result<Listing, Error>) {
    var waited := C.Apply(s.cache, C.Wait(d0));
    match Written(s.db, w, waited.now, waited.now + d1)
    case Err(e) => (ServiceState(s.db, waited), Err(e))
    case Ok(row) =>
      var later := C.Apply(C.Apply(waited, C.Wait(d1)), C.Wait(d2));
      (ServiceState(s.db[w.id := row], C.Apply(later, C.Clear(LISTING_SEARCH))), Ok(row))
  }

  /** Time before the lookup, for the query, before reading the index and before writing it. */
  datatype Delays = Delays(d0: nat, d1: nat, d2: nat, d3: nat)

  ghost predicate SearchStep(env: Env, s: ServiceState, f: Filters, d: Delays, s': ServiceState, r: Result<seq<Hit>, Error>) {
    var key := SearchKey(env, f);
    var waited := C.Apply(s.cache, C.Wait(d.d0));
    var looked := C.Apply(waited, C.Get(key));
    && s'.db == s.db
    && match C.ValueAt(waited.store, key, waited.now)
       case Some(entries) =>
         s'.cache == looked && r == Ok(Materialised(s.db, entries))
       case None =>
         match SearchError(f)
         case Some(e) => s'.cache == looked && r == Err(e)
         case None =>
           && r.Ok? && ValidAnswer(env.dist, s.db, f, r.value)
           && s'.cache == C.Apply(C.Apply(looked, C.Wait(d.d1)),
                                  C.Set(key, Some(EntriesOf(r.value)), 60_000_000, d.d2, d.d3))
  }

  // ----- the class -----

  class ListingService {
    const env: Env
    const table: ListingTable
    const cache: C.CacheManager<seq<Entry>>

    ghost function State(): ServiceState
      reads table, cache
    {
      ServiceState(table.rows, cache.State())
    }

    constructor (env: Env, table: ListingTable, cache: C.CacheManager<seq<Entry>>)
      ensures this.env == env && this.table == table && this.cache == cache
    {
      this.env, this.table, this.cache := env, table, cache;
    }

    method Get(id: Id) returns (r: Result<Instance, Error>)
      ensures id in LiveIds(table.rows) ==> r.Ok? && fresh(r.value) && r.value.id == id && r.value.row == table.rows[id]
      ensures id !in LiveIds(table.rows) ==> r == Err(NotFound)
    {
      if id in table.rows && table.rows[id].deletedAt == None {
        var listing := new Instance(table, id);
        r := Ok(listing);
      } else {
        r := Err(NotFound);
      }
    }

    /** `id` is the identifier drawn by `uuid4`, which no row has. */
    method Create(id: Id, details: Details, agent: Option<User>, actor: User, d0: nat, d1: nat, d2: nat)
        returns (r: Result<Listing, Error>)
      requires id !in table.rows
      modifies table, cache
      ensures (State(), r) == AfterWrite(old(State()), Write.Create(id, details, agent, actor), d0, d1, d2)
    {
      cache.Tick(d0);
      var now := cache.now;
      match ResolveAgent(actor, agent) {
        case Err(e) =>
          r := Err(e);
        case Ok(user) =>
          cache.Tick(d1);
          var saved := cache.now;
          var listing := Listing(details, user.id, now, saved, None, Some(actor.id), Some(actor.id), None);
          table.rows := table.rows[id := listing];
          cache.Tick(d2);
          var _ := cache.ClearNamespace(LISTING_SEARCH);
          r := Ok(listing);
      }
    }

    method Update(id: Id, patch: Patch, actor: User, partial: bool, d0: nat, d1: nat, d2: nat)
        returns (r: Result<Listing, Error>)
      modifies table, cache
      ensures (State(), r) == AfterWrite(old(State()), Write.Update(id, patch, actor, partial), d0, d1, d2)
    {
      cache.Tick(d0);
      var found := Get(id);
      if found.Err? {
        return Err(found.error);
      }
      var listing := found.value;
      if !MayMutate(listing.row, actor) {
        return Err(NotOwner);
      }
      if !partial && patch.location == None {
        return Err(LocationRequired);
      }
      if patch.agent.Some? {
        var requested := patch.agent.value;
        if requested.id != listing.row.agent && !IsAdmin(actor) {
          return Err(CannotReassign);
        }
        match ResolveAgent(actor, Some(requested)) {
          case Err(e) => return Err(e);
          case Ok(user) => listing.row := listing.row.(agent := user.id);
        }
      }
      AssignFields(listing, patch);
      listing.row := listing.row.(updatedBy := Some(actor.id));
      cache.Tick(d1);
      listing.row := listing.row.(updatedAt := cache.now);
      table.rows := table.rows[id := listing.row];
      cache.Tick(d2);
      var _ := cache.ClearNamespace(LISTING_SEARCH);
      r := Ok(listing.row);
    }

    /** One assignment for each supplied field. */
    method AssignFields(listing: Instance, patch: Patch)
      modifies listing
      ensures listing.row == old(listing.row).(details := Patched(old(listing.row.details), patch))
    {
      var d := listing.row.details;
      if patch.title.Some? { d := d.(title := patch.title.value); }
      if patch.price.Some? { d := d.(price := patch.price.value); }
      if patch.kind.Some? { d := d.(kind := patch.kind.value); }
      if patch.bedrooms.Some? { d := d.(bedrooms := patch.bedrooms.value); }
      if patch.locationName.Some? { d := d.(locationName := patch.locationName.value); }
      if patch.location.Some? { d := d.(location := patch.location.value); }
      listing.row := listing.row.(details := d);
    }

    method Delete(id: Id, actor: User, d0: nat, d1: nat, d2: nat)
        returns (r: Result<Listing, Error>)
      modifies table, cache
      ensures (State(), r) == AfterWrite(old(State()), Write.Delete(id, actor), d0, d1, d2)
    {
      cache.Tick(d0);
      var now := cache.now;
      var found := Get(id);
      if found.Err? {
        return Err(found.error);
      }
      var listing := found.value;
      if !MayMutate(listing.row, actor) {
        return Err(NotOwner);
      }
      cache.Tick(d1);
      var _ := listing.SoftDelete(table, Some(actor.id), now, cache.now);
      cache.Tick(d2);
      var _ := cache.ClearNamespace(LISTING_SEARCH);
      r := Ok(listing.row);
    }

    /** `reply` is what the database would answer the uncached query with. */
    method Search(f: Filters, reply: seq<Hit>, d: Delays) returns (r: Result<seq<Hit>, Error>)
      requires SearchError(f).None? ==> ValidAnswer(env.dist, table.rows, f, reply)
      modifies cache
      ensures SearchStep(env, old(State()), f, d, State(), r)
    {
      var key := SearchKey(env, f);
      cache.Tick(d.d0);
      var cached := cache.Get(key);
      if cached.Some? {
        var rows := Materialise(cached.value);
        return Ok(rows);
      }
      match SearchError(f) {
        case Some(e) =>
          return Err(e);
        case None =>
          cache.Tick(d.d1);
          cache.Set(key, Some(EntriesOf(reply)), d.d2, d.d3, Some(SEARCH_TTL));
          return Ok(reply);
      }
    }

    /** Row objects are shared by identifier: assigning a distance shows wherever the row was appended. */
    method Materialise(entries: seq<Entry>) returns (hits: seq<Hit>)
      ensures hits == Materialised(table.rows, entries)
    {
      var db := table.rows;
      var listings: seq<Id> := [];
      var distances: map<Id, nat> := map[];
      for i := 0 to |entries|
        invariant listings == LiveOrder(db, entries[..i])
        invariant forall id | id in LiveIds(db) ::
            LastDistance(entries[..i], id) == if id in distances then Some(distances[id]) else None
      {
        assert entries[..i + 1][..i] == entries[..i];
        var entry := entries[i];
        if entry.id in LiveIds(db) {
          if entry.distance.Some? {
            distances := distances[entry.id := entry.distance.value];
          }
          listings := listings + [entry.id];
        }
      }
      assert entries[..|entries|] == entries;
      hits := seq(|listings|, i requires 0 <= i < |listings| && listings[i] in db =>
        Hit(listings[i], db[listings[i]],
            if listings[i] in distances then Some(distances[listings[i]]) else None));
    }
  }
}
