/**
 * The uncached listing search: the filter chain, the orderings and what counts as a correct answer
 * (`_search_queryset` and `_apply_ordering` in apps/listings/services/listing_service.py).
 */
module Query {
  import opened Prelude
  import opened Listings

  /** The distance between two points in millimetres, as the database computes it. */
  type Metric = (Point, Point) -> nat

  /** Query parameters. Prices and the radius in kilometres count hundredths. */
  datatype Filters = Filters(
    kind: Option<ListingType>, minPrice: Option<nat>, maxPrice: Option<nat>,
    bedrooms: Option<nat>, bedroomsMin: Option<nat>,
    lat: Option<Coord>, lng: Option<Coord>, radius: Option<nat>,
    ordering: Option<string>, hasGeo: Option<bool>)

  datatype Error =
    | NotFound | NotOwner | CannotAssign | CannotReassign | LocationRequired
    | MissingCentre | DistanceNeedsCentre | UnknownOrdering(name: string)

  const DEFAULT_RADIUS: nat := 500
  const MM_PER_RADIUS_UNIT: nat := 10_000

  predicate HasGeo(f: Filters) {
    f.hasGeo == Some(true)
  }

  predicate CentreGiven(f: Filters) {
    f.lat.Some? && f.lng.Some?
  }

  function Centre(f: Filters): Point
    requires CentreGiven(f)
  {
    Point(f.lng.value, f.lat.value)
  }

  /** A missing radius, and a radius of zero, mean the default. */
  function Radius(f: Filters): nat {
    if f.radius.Some? && f.radius.value != 0 then f.radius.value else DEFAULT_RADIUS
  }

  // ----- filters -----

  datatype Clause =
    | KindIs(kind: ListingType)
    | PriceAtLeast(price: nat)
    | PriceAtMost(price: nat)
    | BedroomsAre(count: nat)
    | BedroomsAtLeast(count: nat)
    | Within(centre: Point, millimetres: nat)

  predicate Holds(dist: Metric, c: Clause, d: Details) {
    match c
    case KindIs(k) => d.kind == k
    case PriceAtLeast(p) => d.price >= p
    case PriceAtMost(p) => d.price <= p
    case BedroomsAre(n) => d.bedrooms == n
    case BedroomsAtLeast(n) => d.bedrooms >= n
    case Within(centre, mm) => dist(d.location, centre) <= mm
  }

  /** The filters in the order in which the source chains them. */
  function Clauses(f: Filters): seq<Clause>
    requires HasGeo(f) ==> CentreGiven(f)
  {
    (if f.kind.Some? then [KindIs(f.kind.value)] else [])
    + (if f.minPrice.Some? then [PriceAtLeast(f.minPrice.value)] else [])
    + (if f.maxPrice.Some? then [PriceAtMost(f.maxPrice.value)] else [])
    + (if f.bedrooms.Some? then [BedroomsAre(f.bedrooms.value)] else [])
    + (if f.bedroomsMin.Some? then [BedroomsAtLeast(f.bedroomsMin.value)] else [])
    + (if HasGeo(f) then [Within(Centre(f), Radius(f) * MM_PER_RADIUS_UNIT)] else [])
  }

  function Narrow(dist: Metric, db: Table, ids: set<Id>, c: Clause): set<Id> {
    set id | id in ids && id in db && Holds(dist, c, db[id].details)
  }

  /** Each `filter` narrows the queryset left by the one before. */
  function Chain(dist: Metric, db: Table, ids: set<Id>, clauses: seq<Clause>): set<Id>
    decreases |clauses|
  {
    if clauses == [] then ids
    else Chain(dist, db, Narrow(dist, db, ids, clauses[0]), clauses[1..])
  }

  function Selected(dist: Metric, db: Table, f: Filters): set<Id>
    requires HasGeo(f) ==> CentreGiven(f)
  {
    Chain(dist, db, LiveIds(db), Clauses(f))
  }

  /** The meaning of a query, without any chain. A point has its longitude first; distances are in millimetres. */
  predicate Matches(dist: Metric, f: Filters, row: Listing)
    requires f.hasGeo == Some(true) ==> f.lat.Some? && f.lng.Some?
  {
    && row.deletedAt.None?
    && (f.kind.Some? ==> row.details.kind == f.kind.value)
    && (f.minPrice.Some? ==> f.minPrice.value <= row.details.price)
    && (f.maxPrice.Some? ==> row.details.price <= f.maxPrice.value)
    && (f.bedrooms.Some? ==> row.details.bedrooms == f.bedrooms.value)
    && (f.bedroomsMin.Some? ==> f.bedroomsMin.value <= row.details.bedrooms)
    && (f.hasGeo == Some(true) ==>
          dist(row.details.location, Point(f.lng.value, f.lat.value))
            <= if f.radius.GetOr(0) == 0 then 5_000_000 else f.radius.value * 10_000)
  }

  lemma {:induction false} ChainKeepsAll(dist: Metric, db: Table, ids: set<Id>, clauses: seq<Clause>)
    requires ids <= db.Keys
    ensures Chain(dist, db, ids, clauses)
         == set id | id in ids && forall c | c in clauses :: Holds(dist, c, db[id].details)
    decreases |clauses|
  {
    if clauses != [] {
      ChainKeepsAll(dist, db, Narrow(dist, db, ids, clauses[0]), clauses[1..]);
      assert forall c :: c in clauses <==> c == clauses[0] || c in clauses[1..];
    }
  }

  /** Applying the same filters in any other order, even repeatedly, selects the same rows. */
  lemma FilterOrderIsIrrelevant(dist: Metric, db: Table, f: Filters, clauses: seq<Clause>)
    requires HasGeo(f) ==> CentreGiven(f)
    requires SetOf(clauses) == SetOf(Clauses(f))
    ensures Chain(dist, db, LiveIds(db), clauses) == Selected(dist, db, f)
  {
    ChainKeepsAll(dist, db, LiveIds(db), clauses);
    ChainKeepsAll(dist, db, LiveIds(db), Clauses(f));
    hide Clauses, Holds;
    assert forall c :: c in clauses <==> c in SetOf(clauses);
    assert forall c :: c in Clauses(f) <==> c in SetOf(Clauses(f));
  }

  lemma ClausesMeanMatches(dist: Metric, f: Filters, row: Listing)
    requires HasGeo(f) ==> CentreGiven(f)
    ensures Matches(dist, f, row)
       <==> row.deletedAt.None? && forall c | c in Clauses(f) :: Holds(dist, c, row.details)
  {
    var cs := Clauses(f);
    assert f.kind.Some? ==> KindIs(f.kind.value) in cs;
    assert f.minPrice.Some? ==> PriceAtLeast(f.minPrice.value) in cs;
    assert f.maxPrice.Some? ==> PriceAtMost(f.maxPrice.value) in cs;
    assert f.bedrooms.Some? ==> BedroomsAre(f.bedrooms.value) in cs;
    assert f.bedroomsMin.Some? ==> BedroomsAtLeast(f.bedroomsMin.value) in cs;
    assert HasGeo(f) ==> Within(Centre(f), Radius(f) * MM_PER_RADIUS_UNIT) in cs;
  }

  /** The chain selects exactly the live rows that satisfy every supplied filter. */
  lemma ChainMeansConjunction(dist: Metric, db: Table, f: Filters)
    requires HasGeo(f) ==> CentreGiven(f)
    ensures Selected(dist, db, f) == set id | id in db && Matches(dist, f, db[id])
  {
    ChainKeepsAll(dist, db, LiveIds(db), Clauses(f));
    forall id | id in db
      ensures id in Selected(dist, db, f) <==> Matches(dist, f, db[id])
    {
      ClausesMeanMatches(dist, f, db[id]);
    }
  }

  // ----- orderings -----

  datatype Field = CreatedAt | Price | Distance | PrimaryKey
  datatype Term = Term(field: Field, descending: bool)

  function OrderingMap(name: string): Option<seq<Term>> {
    if name == "newest" then Some([Term(CreatedAt, true)])
    else if name == "price_asc" then Some([Term(Price, false), Term(CreatedAt, true)])
    else if name == "price_desc" then Some([Term(Price, true), Term(CreatedAt, true)])
    else None
  }

  /** An absent or empty ordering means nearest first when there is a centre, newest first otherwise. */
  function OrderingName(f: Filters): string {
    if f.ordering.Some? && f.ordering.value != "" then f.ordering.value
    else if HasGeo(f) then "distance" else "newest"
  }

  function Ordering(f: Filters): Result<seq<Term>, Error> {
    var name := OrderingName(f);
    if name == "distance" then
      if HasGeo(f) then Ok([Term(Distance, false), Term(PrimaryKey, false)]) else Err(DistanceNeedsCentre)
    else match OrderingMap(name)
      case Some(terms) => Ok(terms)
      case None => Err(UnknownOrdering(name))
  }

  /** The exception an uncached search raises, if any; the coordinates are looked up first. */
  function SearchError(f: Filters): Option<Error> {
    if HasGeo(f) && !CentreGiven(f) then Some(MissingCentre)
    else match Ordering(f)
      case Ok(_) => None
      case Err(e) => Some(e)
  }

  /** A row of a result, with its distance in millimetres when there is a centre. */
  datatype Hit = Hit(id: Id, row: Listing, distance: Option<nat>)

  function HitFor(dist: Metric, db: Table, f: Filters, id: Id): Hit
    requires id in db && (HasGeo(f) ==> CentreGiven(f))
  {
    Hit(id, db[id], if HasGeo(f) then Some(dist(db[id].details.location, Centre(f))) else None)
  }

  function SortKey(t: Term, h: Hit): int {
    var k := match t.field
      case CreatedAt => h.row.createdAt
      case Price => h.row.details.price
      case Distance => if h.distance.Some? then h.distance.value else 0
      case PrimaryKey => h.id;
    if t.descending then -k else k
  }

  /** `ORDER BY`: the first term on which two rows differ decides. */
  predicate Before(terms: seq<Term>, a: Hit, b: Hit) {
    terms != [] &&
    (SortKey(terms[0], a) < SortKey(terms[0], b)
     || (SortKey(terms[0], a) == SortKey(terms[0], b) && Before(terms[1..], a, b)))
  }

  ghost predicate Sorted(terms: seq<Term>, hits: seq<Hit>) {
    forall i, j | 0 <= i < j < |hits| :: !Before(terms, hits[j], hits[i])
  }

  function IdsOf(hits: seq<Hit>): set<Id> {
    set h | h in hits :: h.id
  }

  ghost predicate DistinctIds(hits: seq<Hit>) {
    forall i, j | 0 <= i < j < |hits| :: hits[i].id != hits[j].id
  }

  ghost predicate Arranged(dist: Metric, db: Table, f: Filters, ids: set<Id>, terms: seq<Term>, hits: seq<Hit>)
    requires HasGeo(f) ==> CentreGiven(f)
  {
    && DistinctIds(hits)
    && IdsOf(hits) == ids
    && (forall h | h in hits :: h.id in db && h == HitFor(dist, db, f, h.id))
    && Sorted(terms, hits)
  }

  /** What the database may answer: every selected row once, in an order that the terms allow. */
  ghost predicate ValidAnswer(dist: Metric, db: Table, f: Filters, hits: seq<Hit>) {
    && SearchError(f).None?
    && Arranged(dist, db, f, Selected(dist, db, f), Ordering(f).value, hits)
  }

  // ----- the orderings are total preorders -----

  lemma {:induction false} BeforeIsAsymmetric(terms: seq<Term>, a: Hit, b: Hit)
    requires Before(terms, a, b)
    ensures !Before(terms, b, a)
  {
    if SortKey(terms[0], a) == SortKey(terms[0], b) {
      BeforeIsAsymmetric(terms[1..], a, b);
    }
  }

  lemma {:induction false} NotBeforeIsTransitive(terms: seq<Term>, a: Hit, b: Hit, c: Hit)
    requires !Before(terms, b, a) && !Before(terms, c, b)
    ensures !Before(terms, c, a)
  {
    if terms != [] && SortKey(terms[0], c) == SortKey(terms[0], a) {
      NotBeforeIsTransitive(terms[1..], a, b, c);
    }
  }

  function Insert(terms: seq<Term>, hits: seq<Hit>, h: Hit): seq<Hit> {
    if hits == [] then [h]
    else if Before(terms, h, hits[0]) then [h] + hits
    else [hits[0]] + Insert(terms, hits[1..], h)
  }

  lemma {:induction false} InsertAdds(terms: seq<Term>, hits: seq<Hit>, h: Hit)
    ensures |Insert(terms, hits, h)| == |hits| + 1
    ensures forall x :: x in Insert(terms, hits, h) <==> x in hits || x == h
  {
    if hits != [] && !Before(terms, h, hits[0]) {
      InsertAdds(terms, hits[1..], h);
      assert hits == [hits[0]] + hits[1..];
    }
  }

  lemma {:induction false} InsertKeepsSorted(terms: seq<Term>, hits: seq<Hit>, h: Hit)
    requires Sorted(terms, hits)
    ensures Sorted(terms, Insert(terms, hits, h))
  {
    if hits == [] {
    } else if Before(terms, h, hits[0]) {
      BeforeIsAsymmetric(terms, h, hits[0]);
      TiedToItself(terms, hits[0]);
      hide Before;
      forall j | 0 <= j < |hits|
        ensures !Before(terms, hits[j], h)
      {
        NotBeforeIsTransitive(terms, h, hits[0], hits[j]);
      }
    } else {
      var rest := Insert(terms, hits[1..], h);
      InsertKeepsSorted(terms, hits[1..], h);
      InsertAdds(terms, hits[1..], h);
      TiedToItself(terms, hits[0]);
      hide Before;
      forall j | 0 <= j < |rest|
        ensures !Before(terms, rest[j], hits[0])
      {
        assert rest[j] in rest;
        assert rest[j] == h || rest[j] in hits[1..];
      }
    }
  }

  lemma Arrange(dist: Metric, db: Table, f: Filters, ids: set<Id>, terms: seq<Term>) returns (hits: seq<Hit>)
    requires HasGeo(f) ==> CentreGiven(f)
    requires ids <= db.Keys
    ensures Arranged(dist, db, f, ids, terms, hits)
    ensures |hits| == |ids|
  {
    if ids == {} {
      hits := [];
    } else {
      var id :| id in ids;
      var rest := Arrange(dist, db, f, ids - {id}, terms);
      var h := HitFor(dist, db, f, id);
      hits := Insert(terms, rest, h);
      InsertKeepsSorted(terms, rest, h);
      InsertAdds(terms, rest, h);
      hide Insert, Sorted, HitFor;
      assert IdsOf(hits) == IdsOf(rest) + {h.id} by {
        hide Arranged;
      }
      assert IdsOf(hits) == ids;
      AllIdsDistinct(hits);
    }
  }

  /** As many rows as identifiers: no identifier occurs twice. */
  lemma {:induction false} AllIdsDistinct(hits: seq<Hit>)
    requires |IdsOf(hits)| == |hits|
    ensures DistinctIds(hits)
  {
    if hits != [] {
      var n := |hits| - 1;
      var init := hits[..n];
      OneMoreId(hits);
      AtMostAsMany(init);
      assert hits[n].id !in IdsOf(init) && |IdsOf(init)| == |init|;
      hide IdsOf;
      AllIdsDistinct(init);
      forall i, j | 0 <= i < j <= n
        ensures hits[i].id != hits[j].id
      {
        assert hits[i] == init[i] && (j < n ==> hits[j] == init[j]);
      }
    }
  }

  lemma OneMoreId(hits: seq<Hit>)
    requires hits != []
    ensures var n := |hits| - 1;
      && IdsOf(hits) == IdsOf(hits[..n]) + {hits[n].id}
      && forall i | 0 <= i < n :: hits[i].id in IdsOf(hits[..n])
  {
    var n := |hits| - 1;
    assert forall i | 0 <= i < n :: hits[..n][i] == hits[i];
    assert hits == hits[..n] + [hits[n]];
  }

  lemma {:induction false} AtMostAsMany(hits: seq<Hit>)
    ensures |IdsOf(hits)| <= |hits|
  {
    if hits != [] {
      var init := hits[..|hits| - 1];
      assert IdsOf(hits) == IdsOf(init) + {hits[|hits| - 1].id};
      AtMostAsMany(init);
    }
  }

  lemma SelectedAreRows(dist: Metric, db: Table, f: Filters)
    requires HasGeo(f) ==> CentreGiven(f)
    ensures Selected(dist, db, f) <= LiveIds(db) <= db.Keys
  {
    ChainKeepsAll(dist, db, LiveIds(db), Clauses(f));
  }

  /** Every query that raises no error has an answer. */
  lemma AnswerExists(dist: Metric, db: Table, f: Filters)
    requires SearchError(f).None?
    ensures exists hits :: ValidAnswer(dist, db, f, hits)
  {
    SelectedAreRows(dist, db, f);
    var hits := Arrange(dist, db, f, Selected(dist, db, f), Ordering(f).value);
    assert ValidAnswer(dist, db, f, hits);
  }

  // ----- when the answer is unique -----

  /** Some two selected rows agree on every term of the ordering. */
  ghost predicate HasTie(dist: Metric, db: Table, f: Filters)
    requires SearchError(f).None?
  {
    SelectedAreRows(dist, db, f);
    exists x, y | x in Selected(dist, db, f) && y in Selected(dist, db, f) && x != y ::
      Tied(Ordering(f).value, HitFor(dist, db, f, x), HitFor(dist, db, f, y))
  }

  predicate Tied(terms: seq<Term>, a: Hit, b: Hit) {
    !Before(terms, a, b) && !Before(terms, b, a)
  }

  ghost predicate SameElements<T(!new)>(a: seq<T>, b: seq<T>) {
    forall x :: x in a <==> x in b
  }

  ghost predicate TieFree(terms: seq<Term>, hits: seq<Hit>) {
    forall x, y | x in hits && y in hits && x != y :: !Tied(terms, x, y)
  }

  lemma FirstIsLeast(terms: seq<Term>, a: seq<Hit>, b: seq<Hit>)
    requires Sorted(terms, a) && Sorted(terms, b) && SameElements(a, b) && TieFree(terms, a)
    requires a != [] && b != []
    ensures a[0] == b[0]
  {
    hide Before;
    assert a[0] in b && b[0] in a;
    var i :| 0 <= i < |b| && b[i] == a[0];
    var j :| 0 <= j < |a| && a[j] == b[0];
    if i > 0 && j > 0 {
      assert !Before(terms, b[i], b[0]) && !Before(terms, a[j], a[0]);
      assert Tied(terms, a[0], b[0]);
    }
  }

  lemma {:induction false} SameRowsSameOrder(terms: seq<Term>, a: seq<Hit>, b: seq<Hit>)
    requires Sorted(terms, a) && Sorted(terms, b)
    requires Distinct(a) && Distinct(b)
    requires SameElements(a, b) && TieFree(terms, a)
    ensures a == b
  {
    hide Before, Tied;
    assert a == [] || a[0] in a;
    if b != [] {
      assert b[0] in a;
      FirstIsLeast(terms, a, b);
      var c, d := a[1..], b[1..];
      assert a == [a[0]] + c && b == [b[0]] + d;
      assert a[0] !in c && b[0] !in d;
      assert forall x :: x in a <==> x == a[0] || x in c;
      assert forall x :: x in b <==> x == b[0] || x in d;
      SameRowsSameOrder(terms, c, d);
    }
  }

  /** Exchanging two tied rows of an answer gives another answer. */
  lemma SwapTied(dist: Metric, db: Table, f: Filters, hits: seq<Hit>, i: nat, j: nat) returns (other: seq<Hit>)
    requires ValidAnswer(dist, db, f, hits)
    requires i < j < |hits| && Tied(Ordering(f).value, hits[i], hits[j])
    ensures ValidAnswer(dist, db, f, other) && other != hits
  {
    hide Clauses, Selected, Ordering;
    var terms := Ordering(f).value;
    other := hits[i := hits[j]][j := hits[i]];
    forall p, q | 0 <= p < q < |other|
      ensures !Before(terms, other[q], other[p])
    {
      TiedToItself(terms, hits[p]);
      TiedToItself(terms, hits[q]);
      assert Tied(terms, other[p], hits[p]) && Tied(terms, other[q], hits[q]);
      NotBeforeIsTransitive(terms, other[p], hits[p], hits[q]);
      NotBeforeIsTransitive(terms, other[p], hits[q], other[q]);
    }
    forall x
      ensures x in other <==> x in hits
    {
      if x in hits {
        var p :| 0 <= p < |hits| && hits[p] == x;
        assert x == other[if p == i then j else if p == j then i else p];
      }
    }
    assert IdsOf(other) == IdsOf(hits);
    assert other[i] != hits[i];
  }

  lemma TiedToItself(terms: seq<Term>, a: Hit)
    ensures Tied(terms, a, a)
  {
    if Before(terms, a, a) {
      BeforeIsAsymmetric(terms, a, a);
    }
  }

  lemma AnswersHoldTheSameRows(dist: Metric, db: Table, f: Filters, a: seq<Hit>, b: seq<Hit>)
    requires ValidAnswer(dist, db, f, a) && ValidAnswer(dist, db, f, b)
    ensures SameElements(a, b) && Distinct(a) && Distinct(b)
  {
    hide Clauses, Selected, Ordering;
    forall x | x in a || x in b
      ensures x in a && x in b
    {
      assert x.id in IdsOf(a) && x.id in IdsOf(b);
      var y :| y in a && y.id == x.id;
      var z :| z in b && z.id == x.id;
      assert y == z == HitFor(dist, db, f, x.id);
    }
  }

  lemma NoTieNoChoice(dist: Metric, db: Table, f: Filters, a: seq<Hit>, b: seq<Hit>)
    requires ValidAnswer(dist, db, f, a) && ValidAnswer(dist, db, f, b)
    requires !HasTie(dist, db, f)
    ensures a == b
  {
    SelectedAreRows(dist, db, f);
    AnswersHoldTheSameRows(dist, db, f, a, b);
    hide Clauses, Selected, Ordering;
    forall x, y | x in a && y in a && x != y
      ensures !Tied(Ordering(f).value, x, y)
    {
      assert x.id in IdsOf(a) && y.id in IdsOf(a);
      assert x == HitFor(dist, db, f, x.id) && y == HitFor(dist, db, f, y.id);
    }
    SameRowsSameOrder(Ordering(f).value, a, b);
  }

  lemma TieGivesChoice(dist: Metric, db: Table, f: Filters, x: Id, y: Id, hits: seq<Hit>) returns (other: seq<Hit>)
    requires ValidAnswer(dist, db, f, hits)
    requires x in Selected(dist, db, f) && y in Selected(dist, db, f) && x != y && x in db && y in db
    requires Tied(Ordering(f).value, HitFor(dist, db, f, x), HitFor(dist, db, f, y))
    ensures ValidAnswer(dist, db, f, other) && other != hits
  {
    hide Clauses, Selected, Ordering;
    assert x in IdsOf(hits) && y in IdsOf(hits);
    var a :| a in hits && a.id == x;
    var b :| b in hits && b.id == y;
    var i :| 0 <= i < |hits| && hits[i] == a;
    var j :| 0 <= j < |hits| && hits[j] == b;
    other := SwapTied(dist, db, f, hits, if i < j then i else j, if i < j then j else i);
  }

  /** The database has no freedom exactly when no two selected rows tie. */
  lemma AnswerUniqueIff(dist: Metric, db: Table, f: Filters)
    requires SearchError(f).None?
    ensures (forall a, b :: ValidAnswer(dist, db, f, a) && ValidAnswer(dist, db, f, b) ==> a == b)
       <==> !HasTie(dist, db, f)
  {
    if HasTie(dist, db, f) {
      SelectedAreRows(dist, db, f);
      AnswerExists(dist, db, f);
      hide Clauses, Selected, Ordering, ValidAnswer, Tied;
      var x, y :| x in Selected(dist, db, f) && y in Selected(dist, db, f) && x != y &&
        Tied(Ordering(f).value, HitFor(dist, db, f, x), HitFor(dist, db, f, y));
      var hits: seq<Hit> :| ValidAnswer(dist, db, f, hits);
      var other := TieGivesChoice(dist, db, f, x, y, hits);
    } else {
      hide Clauses, Selected, Ordering, ValidAnswer, Tied;
      forall a, b | ValidAnswer(dist, db, f, a) && ValidAnswer(dist, db, f, b)
        ensures a == b
      {
        NoTieNoChoice(dist, db, f, a, b);
      }
    }
  }

  // ----- what each ordering means -----

  /** Nearest first is asked for, or it is what a search around a point does unasked. */
  predicate ByDistance(f: Filters) {
    f.ordering == Some("distance") || (f.ordering in {None, Some("")} && f.hasGeo == Some(true))
  }

  /** What is promised about two rows in result order, read off the request, without names of orderings or terms. */
  ghost predicate InOrder(f: Filters, a: Hit, b: Hit) {
    if f.ordering == Some("price_asc") then
      a.row.details.price < b.row.details.price
      || (a.row.details.price == b.row.details.price && a.row.createdAt >= b.row.createdAt)
    else if f.ordering == Some("price_desc") then
      a.row.details.price > b.row.details.price
      || (a.row.details.price == b.row.details.price && a.row.createdAt >= b.row.createdAt)
    else if ByDistance(f) then
      a.distance.Some? && b.distance.Some? &&
      (a.distance.value < b.distance.value || (a.distance == b.distance && a.id < b.id))
    else
      a.row.createdAt >= b.row.createdAt
  }

  /** A query is refused for exactly three reasons, the first of which is looked for first. */
  lemma RefusedIff(f: Filters)
    ensures var geo := f.hasGeo == Some(true);
      && (SearchError(f) == Some(MissingCentre) <==> geo && (f.lat.None? || f.lng.None?))
      && (SearchError(f) == Some(DistanceNeedsCentre) <==> !geo && f.ordering == Some("distance"))
      && (forall name :: SearchError(f) == Some(UnknownOrdering(name)) <==>
            && (geo ==> f.lat.Some? && f.lng.Some?)
            && f.ordering == Some(name) && name !in {"", "newest", "price_asc", "price_desc", "distance"})
      && (SearchError(f).None? <==>
            && (geo ==> f.lat.Some? && f.lng.Some?)
            && (f.ordering in {None, Some(""), Some("newest"), Some("price_asc"), Some("price_desc")}
                || (geo && f.ordering == Some("distance"))))
  {
  }

  lemma TermsMeanOrder(f: Filters, a: Hit, b: Hit)
    requires SearchError(f).None? && a.id != b.id
    requires HasGeo(f) ==> a.distance.Some? && b.distance.Some?
    ensures InOrder(f, a, b) <==> !Before(Ordering(f).value, b, a)
  {
    var terms := Ordering(f).value;
    assert Before(terms, b, a) <==>
      SortKey(terms[0], b) < SortKey(terms[0], a)
      || (SortKey(terms[0], b) == SortKey(terms[0], a) && Before(terms[1..], b, a));
    if |terms| == 1 {
      assert !Before(terms[1..], b, a);
    } else {
      assert terms[1..] == [terms[1]];
      assert Before([terms[1]], b, a) <==> SortKey(terms[1], b) < SortKey(terms[1], a);
    }
  }

  /** A row of the current table, with its distance from the requested point when there is one. */
  ghost predicate IsHitOf(dist: Metric, db: Table, f: Filters, h: Hit)
    requires f.hasGeo == Some(true) ==> f.lat.Some? && f.lng.Some?
  {
    && h.id in db && h.row == db[h.id]
    && h.distance == if f.hasGeo == Some(true) then Some(dist(h.row.details.location, Point(f.lng.value, f.lat.value))) else None
  }

  /**
   * The uncached search, said without chains and terms: a list of rows is a possible answer
   * exactly when it holds each live matching row once, in the promised order and with its distance.
   */
  lemma AnswerMeaning(dist: Metric, db: Table, f: Filters, hits: seq<Hit>)
    requires SearchError(f).None?
    ensures ValidAnswer(dist, db, f, hits) <==>
      && DistinctIds(hits)
      && (forall id :: (exists h :: h in hits && h.id == id) <==> id in db && Matches(dist, f, db[id]))
      && (forall h | h in hits :: IsHitOf(dist, db, f, h))
      && (forall i, j | 0 <= i < j < |hits| :: InOrder(f, hits[i], hits[j]))
  {
    ChainMeansConjunction(dist, db, f);
    var ids := Selected(dist, db, f);
    assert forall id :: id in ids <==> id in db && Matches(dist, f, db[id]);
    assert forall id :: id in IdsOf(hits) <==> exists h :: h in hits && h.id == id;
    forall h
      ensures IsHitOf(dist, db, f, h) <==> h.id in db && h == HitFor(dist, db, f, h.id)
    {
    }
    hide Clauses, Selected, Ordering, Matches, OrderingName, InOrder, Before, IsHitOf;
    if DistinctIds(hits) && (forall h | h in hits :: IsHitOf(dist, db, f, h)) {
      assert forall i | 0 <= i < |hits| :: hits[i] in hits;
      forall i, j | 0 <= i < j < |hits|
        ensures InOrder(f, hits[i], hits[j]) <==> !Before(Ordering(f).value, hits[j], hits[i])
      {
        TermsMeanOrder(f, hits[i], hits[j]);
      }
    }
  }

  /** The row meets every filter but the one for the distance. */
  predicate MeetsOthers(f: Filters, row: Listing) {
    && row.deletedAt.None?
    && (f.kind.Some? ==> row.details.kind == f.kind.value)
    && (f.minPrice.Some? ==> f.minPrice.value <= row.details.price)
    && (f.maxPrice.Some? ==> row.details.price <= f.maxPrice.value)
    && (f.bedrooms.Some? ==> row.details.bedrooms == f.bedrooms.value)
    && (f.bedroomsMin.Some? ==> f.bedroomsMin.value <= row.details.bedrooms)
  }

  /**
   * A search around a point answers with exactly those of the rows meeting the other filters that lie
   * within the radius, five kilometres unless another was given, each with its own distance.
   */
  lemma GeoHitsAreNear(dist: Metric, db: Table, f: Filters, hits: seq<Hit>)
    requires ValidAnswer(dist, db, f, hits) && f.hasGeo == Some(true)
    ensures f.lat.Some? && f.lng.Some?
    ensures var p := Point(f.lng.value, f.lat.value);
      var reach := if f.radius.GetOr(0) == 0 then 5_000_000 else f.radius.value * 10_000;
      && (forall id | id in db && MeetsOthers(f, db[id]) ::
            (exists h :: h in hits && h.id == id) <==> dist(db[id].details.location, p) <= reach)
      && (forall h | h in hits :: h.id in db && h.row == db[h.id] && h.distance == Some(dist(h.row.details.location, p)))
    ensures f.ordering in {None, Some(""), Some("distance")} ==> forall i, j | 0 <= i < j < |hits| ::
      && hits[i].distance.Some? && hits[j].distance.Some?
      && (hits[i].distance.value < hits[j].distance.value
          || (hits[i].distance == hits[j].distance && hits[i].id < hits[j].id))
  {
    AnswerMeaning(dist, db, f, hits);
    hide ValidAnswer, Ordering;
    var p := Point(f.lng.value, f.lat.value);
    var reach := if f.radius.GetOr(0) == 0 then 5_000_000 else f.radius.value * 10_000;
    assert forall id | id in db && MeetsOthers(f, db[id]) ::
      Matches(dist, f, db[id]) <==> dist(db[id].details.location, p) <= reach;
    hide Matches, MeetsOthers;
    assert forall h | h in hits :: IsHitOf(dist, db, f, h);
    hide IsHitOf;
    assert forall i, j | 0 <= i < j < |hits| :: InOrder(f, hits[i], hits[j]);
  }

  /** Without a centre no row carries a distance, and the newest come first unless prices are asked for. */
  lemma PlainHitsAreNewestFirst(dist: Metric, db: Table, f: Filters, hits: seq<Hit>)
    requires ValidAnswer(dist, db, f, hits) && f.hasGeo != Some(true)
    ensures forall h | h in hits :: h.distance.None?
    ensures f.ordering in {None, Some("")} ==>
      forall i, j | 0 <= i < j < |hits| :: hits[i].row.createdAt >= hits[j].row.createdAt
  {
    AnswerMeaning(dist, db, f, hits);
    assert forall h | h in hits :: IsHitOf(dist, db, f, h);
    hide ValidAnswer, Matches;
    assert forall i, j | 0 <= i < j < |hits| :: InOrder(f, hits[i], hits[j]);
    assert SearchError(f).None?;
  }

  /** Each ordering that can be requested, as what it does to prices and times of creation, with or without a centre. */
  lemma RequestedOrder(dist: Metric, db: Table, f: Filters, hits: seq<Hit>, i: nat, j: nat)
    requires ValidAnswer(dist, db, f, hits) && i < j < |hits|
    ensures f.ordering == Some("price_asc") ==> hits[i].row.details.price <= hits[j].row.details.price
    ensures f.ordering == Some("price_desc") ==> hits[i].row.details.price >= hits[j].row.details.price
    ensures f.ordering in {Some("price_asc"), Some("price_desc")} && hits[i].row.details.price == hits[j].row.details.price ==>
      hits[i].row.createdAt >= hits[j].row.createdAt
    ensures f.ordering == Some("newest") ==> hits[i].row.createdAt >= hits[j].row.createdAt
    ensures f.ordering == Some("distance") ==>
      && hits[i].distance.Some? && hits[j].distance.Some? && hits[i].distance.value <= hits[j].distance.value
      && (hits[i].distance == hits[j].distance ==> hits[i].id < hits[j].id)
  {
    AnswerMeaning(dist, db, f, hits);
    hide ValidAnswer, Matches, IsHitOf;
    assert InOrder(f, hits[i], hits[j]);
  }

  /** Ordering by distance leaves the database no freedom. */
  lemma DistanceAnswerIsUnique(dist: Metric, db: Table, f: Filters, a: seq<Hit>, b: seq<Hit>)
    requires ByDistance(f)
    requires ValidAnswer(dist, db, f, a) && ValidAnswer(dist, db, f, b)
    ensures a == b
  {
    SelectedAreRows(dist, db, f);
    if HasTie(dist, db, f) {
      var x, y :| x in Selected(dist, db, f) && y in Selected(dist, db, f) && x != y &&
        Tied(Ordering(f).value, HitFor(dist, db, f, x), HitFor(dist, db, f, y));
      TermsMeanOrder(f, HitFor(dist, db, f, x), HitFor(dist, db, f, y));
      TermsMeanOrder(f, HitFor(dist, db, f, y), HitFor(dist, db, f, x));
      assert false;
    }
    NoTieNoChoice(dist, db, f, a, b);
  }

  // ----- cache entries -----

  datatype Entry = Entry(id: Id, distance: Option<nat>)

  function EntriesOf(hits: seq<Hit>): (es: seq<Entry>)
    ensures |es| == |hits|
  {
    seq(|hits|, i requires 0 <= i < |hits| => Entry(hits[i].id, hits[i].distance))
  }

  /** Entries with the same identifier share one row object, so the last distance assigned is the one it keeps. */
  function LastDistance(entries: seq<Entry>, id: Id): Option<nat> {
    if entries == [] then None else
      var last := entries[|entries| - 1];
      if last.id == id && last.distance.Some? then last.distance
      else LastDistance(entries[..|entries| - 1], id)
  }

  /** The identifiers of the entries whose rows are still live, in order. */
  function LiveOrder(db: Table, entries: seq<Entry>): (ids: seq<Id>)
    ensures forall i | 0 <= i < |ids| :: ids[i] in LiveIds(db)
  {
    if entries == [] then [] else
      var last := entries[|entries| - 1];
      LiveOrder(db, entries[..|entries| - 1]) + if last.id in LiveIds(db) then [last.id] else []
  }

  function Materialised(db: Table, entries: seq<Entry>): seq<Hit> {
    var ids := LiveOrder(db, entries);
    seq(|ids|, i requires 0 <= i < |ids| && ids[i] in db => Hit(ids[i], db[ids[i]], LastDistance(entries, ids[i])))
  }

  /** The entries whose rows are live, kept in order. */
  function LiveEntries(db: Table, entries: seq<Entry>): seq<Entry> {
    if entries == [] then [] else
      var last := entries[|entries| - 1];
      LiveEntries(db, entries[..|entries| - 1]) + if last.id in LiveIds(db) then [last] else []
  }

  ghost predicate DistinctEntries(entries: seq<Entry>) {
    forall i, j | 0 <= i < j < |entries| :: entries[i].id != entries[j].id
  }

  /** The distance of an identifier is that of its last entry that has one, and none if no entry has. */
  lemma {:induction false} LastDistanceMeaning(entries: seq<Entry>, id: Id)
    ensures match LastDistance(entries, id)
      case None => forall i | 0 <= i < |entries| && entries[i].id == id :: entries[i].distance.None?
      case Some(d) => exists i | 0 <= i < |entries| && entries[i] == Entry(id, Some(d)) ::
        forall j | i < j < |entries| && entries[j].id == id :: entries[j].distance.None?
  {
    if entries != [] {
      var n := |entries| - 1;
      LastDistanceMeaning(entries[..n], id);
      if entries[n].id != id || entries[n].distance.None? {
        if LastDistance(entries, id).Some? {
          var d := LastDistance(entries, id).value;
          var i :| 0 <= i < n && entries[..n][i] == Entry(id, Some(d)) &&
            forall j | i < j < n && entries[..n][j].id == id :: entries[..n][j].distance.None?;
          assert entries[i] == Entry(id, Some(d));
          assert forall j | i < j < |entries| && entries[j].id == id :: entries[j] == entries[n] || entries[j] == entries[..n][j];
        }
      } else {
        assert entries[n] == Entry(id, Some(entries[n].distance.value));
      }
    }
  }

  lemma {:induction false} LastDistanceOfDistinct(entries: seq<Entry>, i: nat)
    requires DistinctEntries(entries) && i < |entries|
    ensures LastDistance(entries, entries[i].id) == entries[i].distance
  {
    var n := |entries| - 1;
    if i < n {
      LastDistanceOfDistinct(entries[..n], i);
    } else if entries[n].distance.None? {
      NoDistance(entries[..n], entries[n].id);
    }
  }

  lemma {:induction false} NoDistance(entries: seq<Entry>, id: Id)
    requires forall i | 0 <= i < |entries| :: entries[i].id != id
    ensures LastDistance(entries, id) == None
  {
    if entries != [] {
      NoDistance(entries[..|entries| - 1], id);
    }
  }

  lemma {:induction false} LiveEntriesAreEntries(db: Table, entries: seq<Entry>)
    ensures |LiveOrder(db, entries)| == |LiveEntries(db, entries)|
    ensures forall i | 0 <= i < |LiveOrder(db, entries)| :: LiveOrder(db, entries)[i] == LiveEntries(db, entries)[i].id
    ensures forall e | e in LiveEntries(db, entries) :: e in entries && e.id in LiveIds(db)
  {
    if entries != [] {
      LiveEntriesAreEntries(db, entries[..|entries| - 1]);
    }
  }

  /** Against any table, however stale the entries: the entries whose rows are live, in order, with their own distances. */
  lemma RebuildIsLiveSubsequence(db: Table, entries: seq<Entry>)
    requires DistinctEntries(entries)
    ensures EntriesOf(Materialised(db, entries)) == LiveEntries(db, entries)
    ensures forall h | h in Materialised(db, entries) :: h.id in LiveIds(db) && h.row == db[h.id]
  {
    LiveEntriesAreEntries(db, entries);
    var live := LiveEntries(db, entries);
    forall i | 0 <= i < |live|
      ensures LastDistance(entries, live[i].id) == live[i].distance
    {
      assert live[i] in entries;
      var j :| 0 <= j < |entries| && entries[j] == live[i];
      LastDistanceOfDistinct(entries, j);
    }
  }

  lemma {:induction false} AllLive(db: Table, entries: seq<Entry>)
    requires forall e | e in entries :: e.id in LiveIds(db)
    ensures LiveEntries(db, entries) == entries
  {
    if entries != [] {
      AllLive(db, entries[..|entries| - 1]);
    }
  }

  /** Entry round trip: an answer comes back from its entries as it was. */
  lemma EntryRoundTrip(dist: Metric, db: Table, f: Filters, hits: seq<Hit>)
    requires ValidAnswer(dist, db, f, hits)
    ensures Materialised(db, EntriesOf(hits)) == hits
  {
    SelectedAreRows(dist, db, f);
    var entries := EntriesOf(hits);
    hide Clauses, Selected, Ordering, Sorted;
    forall i | 0 <= i < |hits|
      ensures entries[i].id in LiveIds(db)
    {
      assert hits[i] in hits && hits[i].id in IdsOf(hits);
    }
    AllLive(db, entries);
    RebuildIsLiveSubsequence(db, entries);
    SameEntriesSameRows(db, hits, Materialised(db, entries));
  }

  lemma SameEntriesSameRows(db: Table, a: seq<Hit>, b: seq<Hit>)
    requires EntriesOf(a) == EntriesOf(b)
    requires forall h | h in a || h in b :: h.id in db && h.row == db[h.id]
    ensures a == b
  {
    assert |a| == |EntriesOf(a)| == |EntriesOf(b)| == |b|;
    forall i | 0 <= i < |a|
      ensures a[i] == b[i]
    {
      assert EntriesOf(a)[i] == EntriesOf(b)[i];
      assert a[i] in a && b[i] in b;
    }
  }
}
