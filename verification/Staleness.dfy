/**
 * Entries computed on one table and rebuilt against a later one: when the rebuilt rows are still a
 * correct answer (`_materialise_search_results` in apps/listings/services/listing_service.py).
 */
module Staleness {
  import opened Prelude
  import opened Listings
  import opened Query

  /** The rows of an old answer that are still live, as they are now, with their old distances. */
  function Kept(db: Table, hits: seq<Hit>): seq<Hit> {
    if hits == [] then [] else
      var last := hits[|hits| - 1];
      Kept(db, hits[..|hits| - 1]) + if last.id in LiveIds(db) then [Hit(last.id, db[last.id], last.distance)] else []
  }

  lemma {:induction false} KeptComesFrom(db: Table, hits: seq<Hit>)
    ensures forall k | k in Kept(db, hits) ::
      k.id in LiveIds(db) && k.row == db[k.id] && exists h :: h in hits && h.id == k.id && h.distance == k.distance
    ensures forall h | h in hits && h.id in LiveIds(db) :: Hit(h.id, db[h.id], h.distance) in Kept(db, hits)
  {
    if hits != [] {
      var init, last := hits[..|hits| - 1], hits[|hits| - 1];
      KeptComesFrom(db, init);
      assert hits == init + [last];
      forall k | k in Kept(db, hits)
        ensures k.id in LiveIds(db) && k.row == db[k.id] && exists h :: h in hits && h.id == k.id && h.distance == k.distance
      {
        if k in Kept(db, init) {
          var h :| h in init && h.id == k.id && h.distance == k.distance;
          assert h in hits;
        } else {
          assert last in hits;
        }
      }
    }
  }

  lemma {:induction false} KeptEntries(db: Table, hits: seq<Hit>)
    ensures EntriesOf(Kept(db, hits)) == LiveEntries(db, EntriesOf(hits))
  {
    if hits != [] {
      KeptEntries(db, hits[..|hits| - 1]);
      assert EntriesOf(hits)[..|hits| - 1] == EntriesOf(hits[..|hits| - 1]);
    }
  }

  lemma RebuildKeeps(db: Table, hits: seq<Hit>)
    requires DistinctIds(hits)
    ensures Materialised(db, EntriesOf(hits)) == Kept(db, hits)
  {
    RebuildIsLiveSubsequence(db, EntriesOf(hits));
    KeptEntries(db, hits);
    KeptComesFrom(db, hits);
    hide EntriesOf, LiveEntries, Materialised, Kept;
    assert EntriesOf(Materialised(db, EntriesOf(hits))) == EntriesOf(Kept(db, hits));
    SameEntriesSameRows(db, Materialised(db, EntriesOf(hits)), Kept(db, hits));
  }

  lemma {:induction false} KeptDistinct(db: Table, hits: seq<Hit>)
    requires DistinctIds(hits)
    ensures DistinctIds(Kept(db, hits))
  {
    if hits != [] {
      var init := hits[..|hits| - 1];
      KeptDistinct(db, init);
      KeptComesFrom(db, init);
      forall k | k in Kept(db, init)
        ensures k.id != hits[|hits| - 1].id
      {
        var h :| h in init && h.id == k.id && h.distance == k.distance;
      }
      assert forall i | 0 <= i < |Kept(db, init)| :: Kept(db, init)[i] in Kept(db, init);
    }
  }

  lemma KeptIds(db: Table, hits: seq<Hit>)
    ensures IdsOf(Kept(db, hits)) == IdsOf(hits) * LiveIds(db)
  {
    KeptComesFrom(db, hits);
    forall id | id in IdsOf(hits) * LiveIds(db)
      ensures id in IdsOf(Kept(db, hits))
    {
      var h :| h in hits && h.id == id;
      assert Hit(h.id, db[h.id], h.distance) in Kept(db, hits);
    }
    forall id | id in IdsOf(Kept(db, hits))
      ensures id in IdsOf(hits) * LiveIds(db)
    {
      var k :| k in Kept(db, hits) && k.id == id;
      var h :| h in hits && h.id == k.id && h.distance == k.distance;
    }
  }

  /**
   * Exactly when the rebuilt rows answer the query on the later table: no row has begun to match, none
   * that is live has ceased to, the distances are the same, and the old order still respects the terms.
   */
  lemma StaleHitCorrectIff(dist: Metric, db: Table, db': Table, f: Filters, hits: seq<Hit>)
    requires ValidAnswer(dist, db, f, hits)
    ensures Selected(dist, db', f) <= db'.Keys && Selected(dist, db, f) <= db.Keys
    ensures ValidAnswer(dist, db', f, Materialised(db', EntriesOf(hits))) <==>
      && Selected(dist, db', f) == Selected(dist, db, f) * LiveIds(db')
      && (forall id | id in Selected(dist, db', f) && id in db ::
            HitFor(dist, db', f, id).distance == HitFor(dist, db, f, id).distance)
      && Sorted(Ordering(f).value, Kept(db', hits))
  {
    SelectedAreRows(dist, db', f);
    SelectedAreRows(dist, db, f);
    RebuildKeeps(db', hits);
    KeptDistinct(db', hits);
    KeptIds(db', hits);
    KeptComesFrom(db', hits);
    hide Clauses, Selected, Ordering, Kept, Materialised, EntriesOf, Sorted;
    var kept := Kept(db', hits);
    forall k | k in kept
      ensures k.id in db && k.distance == HitFor(dist, db, f, k.id).distance && k.id in db' && k.row == db'[k.id]
    {
      var h :| h in hits && h.id == k.id && h.distance == k.distance;
      assert h == HitFor(dist, db, f, h.id);
    }
    assert forall id | id in IdsOf(kept) :: exists k :: k in kept && k.id == id;
  }

  // ----- deletions -----

  /** Every live row was live before, with the same description and time of creation. */
  ghost predicate OnlyDeleted(db: Table, db': Table) {
    forall id | id in LiveIds(db') ::
      id in LiveIds(db) && db'[id].details == db[id].details && db'[id].createdAt == db[id].createdAt
  }

  ghost predicate SameSortKeys(a: Hit, b: Hit) {
    && a.id == b.id && a.distance == b.distance
    && a.row.createdAt == b.row.createdAt && a.row.details.price == b.row.details.price
  }

  lemma {:induction false} BeforeReadsSortKeys(terms: seq<Term>, a: Hit, b: Hit, a': Hit, b': Hit)
    requires SameSortKeys(a, a') && SameSortKeys(b, b')
    ensures Before(terms, a, b) == Before(terms, a', b')
  {
    if terms != [] {
      BeforeReadsSortKeys(terms[1..], a, b, a', b');
    }
  }

  lemma {:induction false} KeptSorted(terms: seq<Term>, db: Table, hits: seq<Hit>)
    requires Sorted(terms, hits)
    requires forall h | h in hits && h.id in LiveIds(db) ::
      h.row.createdAt == db[h.id].createdAt && h.row.details.price == db[h.id].details.price
    ensures Sorted(terms, Kept(db, hits))
  {
    if hits != [] {
      var init, last := hits[..|hits| - 1], hits[|hits| - 1];
      assert hits == init + [last];
      assert last in hits;
      KeptSorted(terms, db, init);
      KeptFrom(db, init);
      if last.id in LiveIds(db) {
        var now := Hit(last.id, db[last.id], last.distance);
        forall k | k in Kept(db, init)
          ensures !Before(terms, now, k)
        {
          var h :| h in init && h.id == k.id && h.distance == k.distance && SameSortKeys(h, k);
          var i :| 0 <= i < |init| && init[i] == h;
          assert hits[i] == h && !Before(terms, last, h);
          BeforeReadsSortKeys(terms, last, h, now, k);
        }
        hide Before;
        assert forall i | 0 <= i < |Kept(db, init)| :: Kept(db, init)[i] in Kept(db, init);
      }
    }
  }

  lemma KeptFrom(db: Table, hits: seq<Hit>)
    requires forall h | h in hits && h.id in LiveIds(db) ::
      h.row.createdAt == db[h.id].createdAt && h.row.details.price == db[h.id].details.price
    ensures forall k | k in Kept(db, hits) ::
      exists h :: h in hits && h.id == k.id && h.distance == k.distance && SameSortKeys(h, k)
  {
    KeptComesFrom(db, hits);
    forall k | k in Kept(db, hits)
      ensures exists h :: h in hits && h.id == k.id && h.distance == k.distance && SameSortKeys(h, k)
    {
      var h :| h in hits && h.id == k.id && h.distance == k.distance;
      assert SameSortKeys(h, k);
    }
  }

  /** Deleting rows, and rewriting rows without changing what a search reads, never makes an entry stale. */
  lemma DeletionsDoNotMakeStale(dist: Metric, db: Table, db': Table, f: Filters, hits: seq<Hit>)
    requires ValidAnswer(dist, db, f, hits) && OnlyDeleted(db, db')
    ensures ValidAnswer(dist, db', f, Materialised(db', EntriesOf(hits)))
  {
    StaleHitCorrectIff(dist, db, db', f, hits);
    ChainMeansConjunction(dist, db, f);
    ChainMeansConjunction(dist, db', f);
    assert Selected(dist, db', f) == Selected(dist, db, f) * LiveIds(db') by {
      hide Selected, Clauses;
      forall id
        ensures id in Selected(dist, db', f) <==> id in Selected(dist, db, f) && id in LiveIds(db')
      {
        if id in LiveIds(db') {
          assert Matches(dist, f, db'[id]) <==> Matches(dist, f, db[id]);
        }
      }
    }
    hide Selected, Clauses, Matches, Ordering, ValidAnswer;
    assert forall h | h in hits :: h.id in db && h.row == db[h.id] by {
      HitsAreRows(dist, db, f, hits);
    }
    assert Sorted(Ordering(f).value, hits) by {
      HitsAreRows(dist, db, f, hits);
    }
    KeptSorted(Ordering(f).value, db', hits);
  }

  lemma HitsAreRows(dist: Metric, db: Table, f: Filters, hits: seq<Hit>)
    requires ValidAnswer(dist, db, f, hits)
    ensures forall h | h in hits :: h.id in db && h.row == db[h.id]
    ensures Sorted(Ordering(f).value, hits)
  {
  }
}
