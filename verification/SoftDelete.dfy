/**
 * `BaseAbstractModel.soft_delete`, `restore`, `delete` (core/models.py) and the bulk forms of the
 * managers (core/managers.py). An instance is a copy of a row held in memory; it may be stale.
 */
module SoftDelete {
  import opened Prelude
  import opened Listings

  /** The outcome of an operation on an instance: the table, the instance, and whether the save found its row. */
  datatype Saved = Saved(db: Table, held: Listing, ok: bool)

  /** `save(update_fields=...)` writes the markers of the instance into its row. */
  function SaveMarkers(db: Table, id: Id, held: Listing, withUpdatedBy: bool): Saved {
    if id !in db then Saved(db, held, false) else
      var row := db[id].(deletedAt := held.deletedAt, deletedBy := held.deletedBy, updatedAt := held.updatedAt);
      Saved(db[id := if withUpdatedBy then row.(updatedBy := held.updatedBy) else row], held, true)
  }

  /** A `user` of `None` stands for no user or an unauthenticated one; the clock is read again on saving. */
  function SoftDeleted(db: Table, id: Id, held: Listing, user: Option<UserId>, now: nat, saved: nat): Saved {
    if held.deletedAt.Some? then Saved(db, held, true) else
      SaveMarkers(db, id, held.(deletedAt := Some(now), deletedBy := user, updatedAt := saved), false)
  }

  function Restored(db: Table, id: Id, held: Listing, user: Option<UserId>, now: nat): Saved {
    if held.deletedAt.None? then Saved(db, held, true) else
      SaveMarkers(db, id,
        held.(deletedAt := None, deletedBy := None, updatedAt := now,
              updatedBy := if user.Some? then user else held.updatedBy),
        true)
  }

  /** The queryset behind a bulk delete holds live rows only. */
  function BulkDeleted(db: Table, ids: set<Id>, user: Option<UserId>, now: nat): Table {
    map id | id in db ::
      if id in ids && db[id].deletedAt.None? then db[id].(deletedAt := Some(now), deletedBy := user) else db[id]
  }

  function BulkRestored(db: Table, ids: set<Id>): Table {
    map id | id in db :: if id in ids then db[id].(deletedAt := None, deletedBy := None) else db[id]
  }

  // ----- the classes -----

  class Instance {
    const id: Id
    var row: Listing

    constructor (table: ListingTable, id: Id)
      requires id in table.rows
      ensures this.id == id && row == table.rows[id]
    {
      this.id := id;
      row := table.rows[id];
    }

    method Save(table: ListingTable, withUpdatedBy: bool) returns (ok: bool)
      modifies table
      ensures Saved(table.rows, row, ok) == SaveMarkers(old(table.rows), id, row, withUpdatedBy)
    {
      ok := id in table.rows;
      if ok {
        var stored := table.rows[id];
        stored := stored.(deletedAt := row.deletedAt, deletedBy := row.deletedBy, updatedAt := row.updatedAt);
        if withUpdatedBy {
          stored := stored.(updatedBy := row.updatedBy);
        }
        table.rows := table.rows[id := stored];
      }
    }

    method SoftDelete(table: ListingTable, user: Option<UserId>, now: nat, saved: nat) returns (ok: bool)
      modifies this, table
      ensures Saved(table.rows, row, ok) == SoftDeleted(old(table.rows), id, old(row), user, now, saved)
    {
      ok := true;
      if row.deletedAt == None {
        row := row.(deletedAt := Some(now));
        row := row.(deletedBy := user);
        row := row.(updatedAt := saved);
        ok := Save(table, false);
      }
    }

    method Restore(table: ListingTable, user: Option<UserId>, now: nat) returns (ok: bool)
      modifies this, table
      ensures Saved(table.rows, row, ok) == Restored(old(table.rows), id, old(row), user, now)
    {
      ok := true;
      if row.deletedAt != None {
        row := row.(deletedAt := None);
        row := row.(deletedBy := None);
        if user.Some? {
          row := row.(updatedBy := user);
        }
        row := row.(updatedAt := now);
        ok := Save(table, true);
      }
    }

    /** The count is that of the rows deleted; a soft delete answers one even if it had nothing to do. */
    method Delete(table: ListingTable, user: Option<UserId>, now: nat, saved: nat, hard: bool)
        returns (ok: bool, count: nat)
      modifies this, table
      ensures if hard then ok && table.rows == old(table.rows) - {id} && row == old(row)
        else Saved(table.rows, row, ok) == SoftDeleted(old(table.rows), id, old(row), user, now, saved)
      ensures ok ==> count == if hard && id !in old(table.rows) then 0 else 1
    {
      if hard {
        count := if id in table.rows then 1 else 0;
        table.rows := table.rows - {id};
        ok := true;
      } else {
        ok := SoftDelete(table, user, now, saved);
        count := 1;
      }
    }
  }

  lemma BulkDeleteNone(db: Table, ids: set<Id>, user: Option<UserId>, now: nat)
    ensures BulkDeleted(db, ids - ids * LiveIds(db), user, now) == db
  {
  }

  lemma BulkDeleteOneMore(db: Table, ids: set<Id>, rest: set<Id>, id: Id, user: Option<UserId>, now: nat)
    requires rest <= ids * LiveIds(db) && id in rest
    ensures id in BulkDeleted(db, ids - rest, user, now)
    ensures BulkDeleted(db, ids - (rest - {id}), user, now)
      == BulkDeleted(db, ids - rest, user, now)[id := BulkDeleted(db, ids - rest, user, now)[id].(deletedAt := Some(now), deletedBy := user)]
  {
  }

  lemma BulkDeleteLive(db: Table, ids: set<Id>, user: Option<UserId>, now: nat)
    ensures LiveIds(BulkDeleted(db, ids, user, now)) == LiveIds(db) - ids
    ensures |LiveIds(db) - ids| + |ids * LiveIds(db)| == |LiveIds(db)|
  {
    assert LiveIds(db) == (LiveIds(db) - ids) + ids * LiveIds(db);
  }

  lemma HardDeleteNone(db: Table, ids: set<Id>)
    ensures db - (ids - ids * db.Keys) == db
  {
    assert (db - (ids - ids * db.Keys)).Keys == db.Keys;
  }

  lemma HardDeleteOneMore(db: Table, ids: set<Id>, rest: set<Id>, id: Id)
    requires id in rest && rest <= ids
    ensures db - (ids - rest) - {id} == db - (ids - (rest - {id}))
  {
    assert ids - (rest - {id}) == ids - rest + {id};
  }

  /** Updates of many rows at once, row by row. */
  class QuerySet {
    const table: ListingTable

    constructor (table: ListingTable)
      ensures this.table == table
    {
      this.table := table;
    }

    /** The queryset is one of live rows; as many rows leave the live view as are counted. */
    method Delete(ids: set<Id>, user: Option<UserId>, now: nat) returns (count: nat)
      modifies table
      ensures table.rows == BulkDeleted(old(table.rows), ids, user, now)
      ensures LiveIds(table.rows) == LiveIds(old(table.rows)) - ids
      ensures |LiveIds(table.rows)| + count == |LiveIds(old(table.rows))|
    {
      ghost var before := table.rows;
      var rest := ids * LiveIds(table.rows);
      count := 0;
      BulkDeleteNone(before, ids, user, now);
      while rest != {}
        invariant rest <= ids * LiveIds(before)
        invariant table.rows == BulkDeleted(before, ids - rest, user, now)
        invariant |rest| + count == |ids * LiveIds(before)|
        decreases rest
      {
        var id :| id in rest;
        BulkDeleteOneMore(before, ids, rest, id, user, now);
        table.rows := table.rows[id := table.rows[id].(deletedAt := Some(now), deletedBy := user)];
        rest := rest - {id};
        count := count + 1;
      }
      assert ids - {} == ids;
      BulkDeleteLive(before, ids, user, now);
    }

    /** Every selected row is counted, deleted or not. */
    method Restore(ids: set<Id>) returns (count: nat)
      modifies table
      ensures table.rows == BulkRestored(old(table.rows), ids)
      ensures DeletedIds(table.rows) == DeletedIds(old(table.rows)) - ids
      ensures count == |ids * table.rows.Keys|
    {
      ghost var before := table.rows;
      var rest := ids * table.rows.Keys;
      count := 0;
      while rest != {}
        invariant rest <= ids * before.Keys
        invariant table.rows == BulkRestored(before, ids - rest)
        invariant |rest| + count == |ids * before.Keys|
        decreases rest
      {
        var id :| id in rest;
        table.rows := table.rows[id := table.rows[id].(deletedAt := None, deletedBy := None)];
        rest := rest - {id};
        count := count + 1;
      }
      assert table.rows == BulkRestored(before, ids);
    }

    method HardDelete(ids: set<Id>) returns (count: nat)
      modifies table
      ensures table.rows == old(table.rows) - ids
      ensures count == |ids * old(table.rows).Keys|
    {
      ghost var before := table.rows;
      var rest := ids * table.rows.Keys;
      count := 0;
      HardDeleteNone(before, ids);
      while rest != {}
        invariant rest <= ids * before.Keys
        invariant table.rows == before - (ids - rest)
        invariant |rest| + count == |ids * before.Keys|
        decreases rest
      {
        var id :| id in rest;
        HardDeleteOneMore(before, ids, rest, id);
        table.rows := table.rows - {id};
        rest := rest - {id};
        count := count + 1;
      }
      assert ids - {} == ids;
    }
  }

  // ----- every sequence of operations, with any number of instances held in memory -----

  datatype World = World(db: Table, held: map<nat, (Id, Listing)>)

  /** The instance of an update when it saves: what was not supplied is as it was when the instance was loaded. */
  function Edited(held: Listing, p: Patch, actor: UserId, saved: nat): Listing {
    held.(details := Patched(held.details, p), agent := if p.agent.Some? then p.agent.value.id else held.agent,
          updatedBy := Some(actor), updatedAt := saved)
  }

  /** `Save` is the full save of an update: every column of the instance is written, its markers included. */
  datatype Op =
    | Load(handle: nat, id: Id)
    | Save(handle: nat, patch: Patch, actor: UserId, saved: nat)
    | One(handle: nat, user: Option<UserId>, now: nat, saved: nat)
    | OneBack(handle: nat, user: Option<UserId>, now: nat)
    | Many(ids: set<Id>, user: Option<UserId>, now: nat)
    | ManyBack(ids: set<Id>)
    | Gone(ids: set<Id>)

  function Step(w: World, op: Op): World {
    match op
    case Load(h, id) => if id in w.db then w.(held := w.held[h := (id, w.db[id])]) else w
    case Save(h, p, actor, saved) =>
      if h !in w.held then w else
        var (id, held) := w.held[h];
        var edited := Edited(held, p, actor, saved);
        World(w.db[id := edited], w.held[h := (id, edited)])
    case One(h, user, now, saved) =>
      if h !in w.held then w else
        var s := SoftDeleted(w.db, w.held[h].0, w.held[h].1, user, now, saved);
        World(s.db, w.held[h := (w.held[h].0, s.held)])
    case OneBack(h, user, now) =>
      if h !in w.held then w else
        var s := Restored(w.db, w.held[h].0, w.held[h].1, user, now);
        World(s.db, w.held[h := (w.held[h].0, s.held)])
    case Many(ids, user, now) => w.(db := BulkDeleted(w.db, ids, user, now))
    case ManyBack(ids) => w.(db := BulkRestored(w.db, ids))
    case Gone(ids) => w.(db := w.db - ids)
  }

  function Run(w: World, ops: seq<Op>): World
    decreases |ops|
  {
    if ops == [] then w else Run(Step(w, ops[0]), ops[1..])
  }

  predicate MarkersAgree(row: Listing) {
    row.deletedBy.Some? ==> row.deletedAt.Some?
  }

  ghost predicate AllAgree(w: World) {
    && (forall id | id in w.db :: MarkersAgree(w.db[id]))
    && (forall h | h in w.held :: MarkersAgree(w.held[h].1))
  }

  /** However stale the instances, a row never names a deleter without a time of deletion. */
  lemma {:induction false} MarkersAgreeForever(w: World, ops: seq<Op>)
    requires AllAgree(w)
    ensures AllAgree(Run(w, ops))
    decreases |ops|
  {
    if ops != [] {
      assert AllAgree(Step(w, ops[0]));
      MarkersAgreeForever(Step(w, ops[0]), ops[1..]);
    }
  }

  /**
   * Deleting an already deleted row keeps its first actor and time exactly when the instance knows
   * of the deletion, or would write the very same stamp; a stale instance overwrites the stamp.
   */
  lemma FirstStampKeptIff(db: Table, id: Id, held: Listing, user: Option<UserId>, now: nat, saved: nat)
    requires id in db && db[id].deletedAt.Some?
    ensures var row := SoftDeleted(db, id, held, user, now, saved).db[id];
      (row.deletedAt == db[id].deletedAt && row.deletedBy == db[id].deletedBy)
        <==> (held.deletedAt.Some? || (db[id].deletedAt == Some(now) && db[id].deletedBy == user))
  {
  }

  /** A stale instance: loaded while the row was live, used after somebody else deleted the row. */
  lemma StaleInstanceOverwrites(row: Listing, first: UserId, second: UserId)
    requires row.deletedAt.None? && first != second
    ensures var w := Run(World(map[0 := row], map[]),
                         [Load(1, 0), Load(2, 0), One(1, Some(first), 10, 10), One(2, Some(second), 20, 20)]);
      0 in w.db && w.db[0].deletedAt == Some(20) && w.db[0].deletedBy == Some(second)
  {
    var w0 := World(map[0 := row], map[]);
    var ops := [Load(1, 0), Load(2, 0), One(1, Some(first), 10, 10), One(2, Some(second), 20, 20)];
    var w1 := Step(w0, ops[0]);
    var w2 := Step(w1, ops[1]);
    var w3 := Step(w2, ops[2]);
    assert ops[1..][1..] == ops[2..] && ops[2..][1..] == ops[3..] && ops[3..][1..] == [];
    assert Run(w3, ops[3..]) == Run(Step(w3, ops[3]), []);
    assert Run(w2, ops[2..]) == Run(w3, ops[3..]);
    assert Run(w1, ops[1..]) == Run(w2, ops[2..]);
  }

  /** However stale the instance, only the markers and the update stamps of its row are written, and no row is created. */
  lemma OnlyMarkersSaved(db: Table, id: Id, held: Listing, user: Option<UserId>, now: nat, saved: nat)
    ensures held.deletedAt.None? ==> var s := SoftDeleted(db, id, held, user, now, saved);
      && s.ok == (id in db)
      && s.db == (if id in db then db[id := db[id].(deletedAt := Some(now), deletedBy := user, updatedAt := saved)] else db)
    ensures held.deletedAt.Some? ==> var s := Restored(db, id, held, user, saved);
      && s.ok == (id in db)
      && s.db == if id in db then
           db[id := db[id].(deletedAt := None, deletedBy := None, updatedAt := saved,
                            updatedBy := if user.Some? then user else held.updatedBy)]
         else db
    ensures held.deletedAt.Some? ==> SoftDeleted(db, id, held, user, now, saved) == Saved(db, held, true)
    ensures held.deletedAt.None? ==> Restored(db, id, held, user, saved) == Saved(db, held, true)
  {
  }

  /** A row deleted and restored through one fresh instance differs from before in its update stamps only. */
  lemma RestoreUndoesDelete(
      db: Table, id: Id, user: Option<UserId>, back: Option<UserId>, now: nat, saved: nat, later: nat)
    requires id in db && db[id].deletedAt.None? && MarkersAgree(db[id])
    ensures var gone := SoftDeleted(db, id, db[id], user, now, saved);
      var s := Restored(gone.db, id, gone.held, back, later);
      && s.ok
      && s.db == db[id := db[id].(updatedAt := later, updatedBy := if back.Some? then back else db[id].updatedBy)]
      && id !in LiveIds(gone.db) && id in LiveIds(s.db)
  {
  }

  // ----- when a deletion lasts -----

  /** The steps that bring a deleted row back or remove it; a full save does if the instance was loaded while the row was live. */
  predicate Undeletes(w: World, op: Op, id: Id) {
    match op
    case Save(h, _, _, _) => h in w.held && w.held[h].0 == id && w.held[h].1.deletedAt.None?
    case OneBack(h, _, _) => h in w.held && w.held[h].0 == id && w.held[h].1.deletedAt.Some?
    case ManyBack(ids) => id in ids
    case Gone(ids) => id in ids
    case _ => false
  }

  lemma DeletionSurvivesStepIff(w: World, op: Op, id: Id)
    requires id in DeletedIds(w.db)
    ensures id in DeletedIds(Step(w, op).db) <==> !Undeletes(w, op, id)
  {
  }

  ghost predicate DeletedThroughout(w: World, ops: seq<Op>, id: Id)
    decreases |ops|
  {
    id in DeletedIds(w.db) && (ops != [] ==> DeletedThroughout(Step(w, ops[0]), ops[1..], id))
  }

  predicate NoneUndeletes(w: World, ops: seq<Op>, id: Id)
    decreases |ops|
  {
    ops != [] ==> !Undeletes(w, ops[0], id) && NoneUndeletes(Step(w, ops[0]), ops[1..], id)
  }

  /** A deletion lasts through a run exactly when no step restores or removes the row or saves it from a live copy. */
  lemma {:induction false} DeletionLastsIff(w: World, ops: seq<Op>, id: Id)
    requires id in DeletedIds(w.db)
    ensures DeletedThroughout(w, ops, id) <==> NoneUndeletes(w, ops, id)
    decreases |ops|
  {
    if ops != [] {
      DeletionSurvivesStepIff(w, ops[0], id);
      hide Step, Undeletes;
      if id in DeletedIds(Step(w, ops[0]).db) {
        DeletionLastsIff(Step(w, ops[0]), ops[1..], id);
      }
    }
  }

  // ----- when an owner or a description lasts -----

  /** The steps that remove a row, or save it with something else in view. */
  predicate Overwrites<T(==)>(w: World, op: Op, id: Id, view: (Details, UserId) -> T, v: T) {
    match op
    case Save(h, p, actor, saved) =>
      && h in w.held && w.held[h].0 == id
      && var edited := Edited(w.held[h].1, p, actor, saved); view(edited.details, edited.agent) != v
    case Gone(ids) => id in ids
    case _ => false
  }

  predicate Shows<T(==)>(db: Table, id: Id, view: (Details, UserId) -> T, v: T) {
    id in db && view(db[id].details, db[id].agent) == v
  }

  lemma ViewSurvivesStepIff<T>(w: World, op: Op, id: Id, view: (Details, UserId) -> T, v: T)
    requires Shows(w.db, id, view, v)
    ensures Shows(Step(w, op).db, id, view, v) <==> !Overwrites(w, op, id, view, v)
  {
  }

  ghost predicate ShownThroughout<T>(w: World, ops: seq<Op>, id: Id, view: (Details, UserId) -> T, v: T)
    decreases |ops|
  {
    Shows(w.db, id, view, v) && (ops != [] ==> ShownThroughout(Step(w, ops[0]), ops[1..], id, view, v))
  }

  predicate NoneOverwrites<T(==)>(w: World, ops: seq<Op>, id: Id, view: (Details, UserId) -> T, v: T)
    decreases |ops|
  {
    ops != [] ==> !Overwrites(w, ops[0], id, view, v) && NoneOverwrites(Step(w, ops[0]), ops[1..], id, view, v)
  }

  /**
   * Whatever one looks at in a row, its owner, its price or all of it: a value lasts through a run exactly
   * when no step removes the row or saves it from a copy that, after its own changes, shows another value.
   */
  lemma {:induction false} ViewLastsIff<T>(w: World, ops: seq<Op>, id: Id, view: (Details, UserId) -> T, v: T)
    requires Shows(w.db, id, view, v)
    ensures ShownThroughout(w, ops, id, view, v) <==> NoneOverwrites(w, ops, id, view, v)
    decreases |ops|
  {
    if ops != [] {
      ViewSurvivesStepIff(w, ops[0], id, view, v);
      hide Step, Overwrites, Shows;
      if Shows(Step(w, ops[0]).db, id, view, v) {
        ViewLastsIff(Step(w, ops[0]), ops[1..], id, view, v);
      }
    }
  }

  function OwnerOf(details: Details, agent: UserId): UserId {
    agent
  }

  /** The steps that remove a row, or save it for another owner: one supplied, or one from before. */
  predicate Disowns(w: World, op: Op, id: Id, u: UserId) {
    match op
    case Save(h, p, _, _) =>
      h in w.held && w.held[h].0 == id && (if p.agent.Some? then p.agent.value.id else w.held[h].1.agent) != u
    case Gone(ids) => id in ids
    case _ => false
  }

  predicate NoneDisowns(w: World, ops: seq<Op>, id: Id, u: UserId)
    decreases |ops|
  {
    ops != [] ==> !Disowns(w, ops[0], id, u) && NoneDisowns(Step(w, ops[0]), ops[1..], id, u)
  }

  lemma {:induction false} OwnerLastsIff(w: World, ops: seq<Op>, id: Id, u: UserId)
    requires id in w.db && w.db[id].agent == u
    ensures ShownThroughout(w, ops, id, OwnerOf, u) <==> NoneDisowns(w, ops, id, u)
    decreases |ops|
  {
    if ops != [] {
      ViewSurvivesStepIff(w, ops[0], id, OwnerOf, u);
      assert Overwrites(w, ops[0], id, OwnerOf, u) <==> Disowns(w, ops[0], id, u);
      hide Step, Overwrites, Disowns;
      if Shows(Step(w, ops[0]).db, id, OwnerOf, u) {
        OwnerLastsIff(Step(w, ops[0]), ops[1..], id, u);
      }
    }
  }

  /**
   * An update that read its row before other transactions changed it leaves the row as if they had not
   * happened: their deletion, their reassignment and their edits of columns it was not given are lost.
   */
  lemma LateSaveTakesBack(row: Listing, patch: Patch, theirs: Patch, actor: UserId, other: UserId, now: nat)
    requires row.deletedAt.None? && patch.agent.None? && theirs.agent.Some?
    ensures var loaded := World(map[0 := row], map[1 := (0, row), 2 := (0, row)]);
      var late := Save(1, patch, actor, now);
      var deleted, saved := Step(loaded, One(2, Some(other), now, now)), Step(loaded, Save(2, theirs, other, now));
      && 0 in DeletedIds(deleted.db) && 0 in LiveIds(Step(deleted, late).db)
      && saved.db[0].agent == theirs.agent.value.id && Step(saved, late).db[0].agent == row.agent
      && Step(deleted, late).db == Step(saved, late).db == Step(loaded, late).db
  {
  }

  // ----- bulk forms against loops of instance forms -----

  /** Bulk forms touch the markers and nothing else; the update stamps stay, unlike those of the instance forms. */
  lemma BulkTouchesMarkersOnly(db: Table, ids: set<Id>, user: Option<UserId>, now: nat)
    ensures BulkDeleted(db, ids, user, now).Keys == BulkRestored(db, ids).Keys == db.Keys
    ensures forall id | id in db ::
      && BulkDeleted(db, ids, user, now)[id].(deletedAt := db[id].deletedAt, deletedBy := db[id].deletedBy) == db[id]
      && BulkRestored(db, ids)[id].(deletedAt := db[id].deletedAt, deletedBy := db[id].deletedBy) == db[id]
      && (id !in ids ==> BulkDeleted(db, ids, user, now)[id] == BulkRestored(db, ids)[id] == db[id])
  {
  }

  /** Soft delete row after row, each through a fresh instance. */
  function DeleteEach(db: Table, ids: seq<Id>, user: Option<UserId>, now: nat, saved: nat): Table {
    if ids == [] then db
    else if ids[0] !in db then DeleteEach(db, ids[1..], user, now, saved)
    else DeleteEach(SoftDeleted(db, ids[0], db[ids[0]], user, now, saved).db, ids[1..], user, now, saved)
  }

  function RestoreEach(db: Table, ids: seq<Id>, now: nat): Table {
    if ids == [] then db
    else if ids[0] !in db then RestoreEach(db, ids[1..], now)
    else RestoreEach(Restored(db, ids[0], db[ids[0]], None, now).db, ids[1..], now)
  }

  /** Equal up to the time of the last update. */
  ghost predicate SameButUpdated(a: Table, b: Table) {
    && a.Keys == b.Keys
    && forall id | id in a :: a[id].(updatedAt := 0) == b[id].(updatedAt := 0)
  }

  lemma BulkDeleteStep(db: Table, id: Id, rest: set<Id>, user: Option<UserId>, now: nat, saved: nat)
    requires id in db
    ensures SameButUpdated(BulkDeleted(SoftDeleted(db, id, db[id], user, now, saved).db, rest, user, now),
                           BulkDeleted(db, rest + {id}, user, now))
  {
    var next := SoftDeleted(db, id, db[id], user, now, saved).db;
    var a, b := BulkDeleted(next, rest, user, now), BulkDeleted(db, rest + {id}, user, now);
    assert a.Keys == db.Keys == b.Keys;
    forall x | x in a
      ensures a[x].(updatedAt := 0) == b[x].(updatedAt := 0)
    {
      if x != id {
        assert next[x] == db[x];
      }
    }
  }

  lemma {:induction false} BulkDeleteIsLoop(db: Table, ids: seq<Id>, user: Option<UserId>, now: nat, saved: nat)
    ensures SameButUpdated(DeleteEach(db, ids, user, now, saved), BulkDeleted(db, SetOf(ids), user, now))
    decreases |ids|
  {
    if ids != [] {
      var rest := ids[1..];
      assert SetOf(ids) == SetOf(rest) + {ids[0]};
      if ids[0] in db {
        BulkDeleteStep(db, ids[0], SetOf(rest), user, now, saved);
        hide BulkDeleted, SoftDeleted;
        BulkDeleteIsLoop(SoftDeleted(db, ids[0], db[ids[0]], user, now, saved).db, rest, user, now, saved);
      } else {
        BulkDeleteIsLoop(db, rest, user, now, saved);
        assert BulkDeleted(db, SetOf(rest), user, now) == BulkDeleted(db, SetOf(ids), user, now);
      }
    }
  }

  lemma {:induction false} BulkRestoreIsLoop(db: Table, ids: seq<Id>, now: nat)
    requires forall id | id in db :: MarkersAgree(db[id])
    ensures SameButUpdated(RestoreEach(db, ids, now), BulkRestored(db, SetOf(ids)))
    decreases |ids|
  {
    if ids != [] {
      var rest := ids[1..];
      assert SetOf(ids) == SetOf(rest) + {ids[0]};
      var next := if ids[0] in db then Restored(db, ids[0], db[ids[0]], None, now).db else db;
      BulkRestoreIsLoop(next, rest, now);
      assert SameButUpdated(BulkRestored(next, SetOf(rest)), BulkRestored(db, SetOf(ids)));
    }
  }
}
