/** `_search_cache_key` (apps/listings/services/listing_service.py): the cache key of a filter record. */
module SearchKeys {
  import opened Prelude
  import opened Text
  import opened JsonText
  import opened CacheKeys
  import opened Listings
  import opened Query

  /** What the model takes from outside: SHA-256, the text of a float, and the database's distances. */
  datatype Env = Env(hash: string -> string, repr: Coord -> string, dist: Metric)

  /** The text of a float determines it and holds no colon. */
  ghost predicate EnvOk(env: Env) {
    && HexDigests(env.hash)
    && (forall a, b :: env.repr(a) == env.repr(b) ==> a == b)
    && (forall a :: ':' !in env.repr(a))
  }

  lemma ReprInjective(env: Env, a: Coord, b: Coord)
    requires EnvOk(env) && env.repr(a) == env.repr(b)
    ensures a == b
  {
  }

  lemma ReprWithoutColon(env: Env, a: Coord)
    requires EnvOk(env)
    ensures ':' !in env.repr(a)
  {
  }

  // ----- name=value parts -----

  /** The parameter names in sorted order. */
  const NAMES: seq<string> := [
    "bedrooms", "bedrooms_min", "has_geo_filter", "lat", "lng",
    "max_price", "min_price", "ordering", "radius_km", "type"]

  function KindName(k: ListingType): string {
    match k
    case Rent => "rent"
    case Sale => "sale"
    case Shortlet => "shortlet"
  }

  function Rendered<T>(v: Option<T>, text: T -> string): Option<string> {
    match v
    case None => None
    case Some(x) => Some(text(x))
  }

  /** The text of each parameter, in the order of the names; `None` and `False` are left out. */
  function Values(env: Env, f: Filters): seq<Option<string>> {
    [ Rendered(f.bedrooms, Digits),
      Rendered(f.bedroomsMin, Digits),
      if HasGeo(f) then Some("True") else None,
      Rendered(f.lat, env.repr),
      Rendered(f.lng, env.repr),
      Rendered(f.maxPrice, Hundredths),
      Rendered(f.minPrice, Hundredths),
      f.ordering,
      Rendered(f.radius, Hundredths),
      Rendered(f.kind, KindName) ]
  }

  function Assignments(names: seq<string>, values: seq<Option<string>>): seq<string>
    requires |names| == |values|
  {
    if names == [] then []
    else (if values[0].Some? then [names[0] + "=" + values[0].value] else []) + Assignments(names[1..], values[1..])
  }

  function Parts(env: Env, f: Filters): seq<string> {
    Assignments(NAMES, Values(env, f))
  }

  function SearchKey(env: Env, f: Filters): string {
    MakeKey(env.hash, LISTING_SEARCH, Parts(env, f))
  }

  /** A filter record up to what its key leaves out. */
  function Normalised(f: Filters): Filters {
    f.(hasGeo := if HasGeo(f) then Some(true) else None)
  }

  function One(name: string, text: Option<string>): seq<string> {
    if text.Some? then [name + "=" + text.value] else []
  }

  function Joined(lists: seq<seq<string>>): seq<string> {
    if lists == [] then [] else lists[0] + Joined(lists[1..])
  }

  lemma {:induction false} AssignmentsJoin(names: seq<string>, values: seq<Option<string>>)
    requires |names| == |values|
    ensures Assignments(names, values) == Joined(seq(|names|, i requires 0 <= i < |names| => One(names[i], values[i])))
  {
    var lists := seq(|names|, i requires 0 <= i < |names| => One(names[i], values[i]));
    if names != [] {
      AssignmentsJoin(names[1..], values[1..]);
      var rest := seq(|names| - 1, i requires 0 <= i < |names| - 1 => One(names[1..][i], values[1..][i]));
      assert lists[1..] == rest;
    }
  }

  /** The parts of a record: its supplied parameters by name, in alphabetical order; the key starts with the namespace. */
  lemma PartsMeaning(env: Env, f: Filters)
    ensures Parts(env, f) == Joined([
      One("bedrooms", Rendered(f.bedrooms, Digits)),
      One("bedrooms_min", Rendered(f.bedroomsMin, Digits)),
      One("has_geo_filter", if f.hasGeo == Some(true) then Some("True") else None),
      One("lat", Rendered(f.lat, env.repr)),
      One("lng", Rendered(f.lng, env.repr)),
      One("max_price", Rendered(f.maxPrice, Hundredths)),
      One("min_price", Rendered(f.minPrice, Hundredths)),
      One("ordering", f.ordering),
      One("radius_km", Rendered(f.radius, Hundredths)),
      One("type", if f.kind == Some(Rent) then Some("rent") else if f.kind == Some(Sale) then Some("sale")
                  else if f.kind == Some(Shortlet) then Some("shortlet") else None)])
    ensures SearchKey(env, f)[..16] == "listings:search:"
  {
    TenParts(NAMES, Values(env, f));
    assert SearchKey(env, f)[..16] == "listings:search:" by {
      hide Parts;
    }
    hide Assignments, Joined, One, Rendered;
  }

  lemma TenParts(n: seq<string>, v: seq<Option<string>>)
    requires |n| == |v| == 10
    ensures Assignments(n, v) == Joined([One(n[0], v[0]), One(n[1], v[1]), One(n[2], v[2]), One(n[3], v[3]), One(n[4], v[4]),
                                         One(n[5], v[5]), One(n[6], v[6]), One(n[7], v[7]), One(n[8], v[8]), One(n[9], v[9])])
  {
    AssignmentsJoin(n, v);
    hide Assignments, Joined, One;
    assert seq(10, i requires 0 <= i < 10 => One(n[i], v[i]))
      == [One(n[0], v[0]), One(n[1], v[1]), One(n[2], v[2]), One(n[3], v[3]), One(n[4], v[4]),
          One(n[5], v[5]), One(n[6], v[6]), One(n[7], v[7]), One(n[8], v[8]), One(n[9], v[9])];
  }

  // ----- the parts determine the values -----

  ghost predicate ProperNames(names: seq<string>) {
    Distinct(names) && forall n | n in names :: '=' !in n
  }

  lemma {:induction false} EachPartNamed(names: seq<string>, values: seq<Option<string>>)
    requires |names| == |values|
    ensures forall p | p in Assignments(names, values) ::
      exists i :: 0 <= i < |names| && values[i].Some? && p == names[i] + "=" + values[i].value
  {
    if names != [] {
      EachPartNamed(names[1..], values[1..]);
      forall p | p in Assignments(names, values)
        ensures exists i :: 0 <= i < |names| && values[i].Some? && p == names[i] + "=" + values[i].value
      {
        if p in Assignments(names[1..], values[1..]) {
          var i :| 0 <= i < |names| - 1 && values[1..][i].Some? && p == names[1..][i] + "=" + values[1..][i].value;
          assert names[i + 1] == names[1..][i] && values[i + 1] == values[1..][i];
        }
      }
    }
  }

  /** The first part of a list of assignments does not carry a name that is not among the names. */
  lemma OtherName(names: seq<string>, values: seq<Option<string>>, name: string, value: string)
    requires |names| == |values|
    requires '=' !in name && name !in names && forall n | n in names :: '=' !in n
    ensures name + "=" + value !in Assignments(names, values)
  {
    EachPartNamed(names, values);
    if name + "=" + value in Assignments(names, values) {
      var i :| 0 <= i < |names| && values[i].Some? && name + "=" + value == names[i] + "=" + values[i].value;
      assert names[i] in names;
      FirstSplit(name, value, names[i], values[i].value, '=');
    }
  }

  lemma {:induction false} AssignmentsInjective(names: seq<string>, v: seq<Option<string>>, w: seq<Option<string>>)
    requires |names| == |v| == |w| && ProperNames(names)
    requires Assignments(names, v) == Assignments(names, w)
    ensures v == w
  {
    if names != [] {
      var a, b := Assignments(names, v), Assignments(names, w);
      var c, d := Assignments(names[1..], v[1..]), Assignments(names[1..], w[1..]);
      assert a == if v[0].Some? then [names[0] + "=" + v[0].value] + c else c;
      assert b == if w[0].Some? then [names[0] + "=" + w[0].value] + d else d;
      assert names[0] in names && names[0] !in names[1..];
      if v[0].Some? {
        OtherName(names[1..], w[1..], names[0], v[0].value);
        assert a[0] in b;
      }
      if w[0].Some? {
        OtherName(names[1..], v[1..], names[0], w[0].value);
        assert b[0] in a;
      }
      assert v[0].Some? == w[0].Some?;
      if v[0].Some? {
        FirstSplit(names[0], v[0].value, names[0], w[0].value, '=');
        assert c == a[1..] && d == b[1..];
      }
      AssignmentsInjective(names[1..], v[1..], w[1..]);
      assert v == [v[0]] + v[1..] && w == [w[0]] + w[1..];
    }
  }

  /** Where a name stands in the list, told from its length and its first two letters. */
  function Position(name: string): nat {
    match |name|
    case 3 => if name[1] == 'a' then 3 else 4
    case 4 => 9
    case 8 => if name[0] == 'b' then 0 else 7
    case 9 => if name[0] == 'r' then 8 else if name[1] == 'a' then 5 else 6
    case 12 => 1
    case _ => 2
  }

  lemma NamePosition(i: nat)
    requires i < |NAMES|
    ensures Position(NAMES[i]) == i
  {
  }

  lemma NameChars(i: nat)
    requires i < |NAMES|
    ensures '=' !in NAMES[i] && ':' !in NAMES[i]
  {
  }

  lemma NamesAreProper()
    ensures ProperNames(NAMES)
    ensures forall n | n in NAMES :: '=' !in n && ':' !in n
  {
    forall i: nat | i < |NAMES|
      ensures Position(NAMES[i]) == i && '=' !in NAMES[i] && ':' !in NAMES[i]
    {
      NamePosition(i);
      NameChars(i);
    }
  }

  lemma KindNameInjective(a: ListingType, b: ListingType)
    requires KindName(a) == KindName(b)
    ensures a == b
  {
    assert |KindName(Rent)| == 4 && |KindName(Shortlet)| == 8 && KindName(Rent)[0] == 'r' && KindName(Sale)[0] == 's';
  }

  /** The parts determine the normalised record, and the other way round. */
  lemma PartsDetermineFilters(env: Env, f: Filters, g: Filters)
    requires EnvOk(env)
    ensures Parts(env, f) == Parts(env, g) <==> Normalised(f) == Normalised(g)
  {
    if Normalised(f) == Normalised(g) {
      assert Values(env, f) == Values(env, g);
    }
    if Parts(env, f) == Parts(env, g) {
      NamesAreProper();
      var v, w := Values(env, f), Values(env, g);
      AssignmentsInjective(NAMES, v, w);
      assert v[0] == w[0] && v[1] == w[1] && v[2] == w[2] && v[3] == w[3] && v[4] == w[4];
      assert v[5] == w[5] && v[6] == w[6] && v[7] == w[7] && v[8] == w[8] && v[9] == w[9];
      hide Values;
      RenderedNat(f.bedrooms, g.bedrooms);
      RenderedNat(f.bedroomsMin, g.bedroomsMin);
      RenderedDecimal(f.maxPrice, g.maxPrice);
      RenderedDecimal(f.minPrice, g.minPrice);
      RenderedDecimal(f.radius, g.radius);
      RenderedCoord(env, f.lat, g.lat);
      RenderedCoord(env, f.lng, g.lng);
      if f.kind.Some? { KindNameInjective(f.kind.value, g.kind.value); }
    }
  }

  lemma RenderedNat(v: Option<nat>, w: Option<nat>)
    requires Rendered(v, Digits) == Rendered(w, Digits)
    ensures v == w
  {
    if v.Some? { DigitsInjective(v.value, w.value); }
  }

  lemma RenderedDecimal(v: Option<nat>, w: Option<nat>)
    requires Rendered(v, Hundredths) == Rendered(w, Hundredths)
    ensures v == w
  {
    if v.Some? { HundredthsInjective(v.value, w.value); }
  }

  lemma RenderedCoord(env: Env, v: Option<Coord>, w: Option<Coord>)
    requires EnvOk(env)
    requires Rendered(v, env.repr) == Rendered(w, env.repr)
    ensures v == w
  {
    if v.Some? { ReprInjective(env, v.value, w.value); }
  }

  // ----- key soundness -----

  /** Two different payloads have the same truncated digest. */
  ghost predicate Collide(env: Env, f: Filters, g: Filters) {
    && !Verbatim(Parts(env, f)) && !Verbatim(Parts(env, g))
    && JsonDumps(Parts(env, f)) != JsonDumps(Parts(env, g))
    && Digest(env.hash, Parts(env, f)) == Digest(env.hash, Parts(env, g))
  }

  lemma PartsHoldEquals(env: Env, f: Filters)
    ensures forall p | p in Parts(env, f) :: '=' in p
  {
    var values := Values(env, f);
    EachPartNamed(NAMES, values);
    hide Values;
    forall p | p in Parts(env, f)
      ensures '=' in p
    {
      var i :| 0 <= i < |NAMES| && values[i].Some? && p == NAMES[i] + "=" + values[i].value;
      assert p[|NAMES[i]|] == '=';
    }
  }

  /** Two records share a cache key exactly when they agree up to dropped values, or SHA-256 collides on their payloads. */
  lemma KeySoundness(env: Env, f: Filters, g: Filters)
    requires EnvOk(env)
    ensures SearchKey(env, f) == SearchKey(env, g) <==> Normalised(f) == Normalised(g) || Collide(env, f, g)
  {
    PartsHoldEquals(env, f);
    PartsHoldEquals(env, g);
    PartsDetermineFilters(env, f, g);
    JsonInjective(Parts(env, f), Parts(env, g));
    hide Parts, Normalised;
    KeyEquality(env.hash, LISTING_SEARCH, Parts(env, f), Parts(env, g));
  }

  /** Records that agree up to dropped values ask the same question. */
  lemma NormalisedMeaning(dist: Metric, db: Table, f: Filters, g: Filters)
    requires Normalised(f) == Normalised(g)
    ensures SearchError(f) == SearchError(g)
    ensures forall hits :: ValidAnswer(dist, db, f, hits) <==> ValidAnswer(dist, db, g, hits)
  {
    assert HasGeo(f) == HasGeo(g);
    assert Ordering(f) == Ordering(g);
    if SearchError(f).None? {
      assert Clauses(f) == Clauses(g);
      assert forall id | id in db :: HitFor(dist, db, f, id) == HitFor(dist, db, g, id);
    }
  }

  /** Without a collision, what was stored for one record answers any record with the same key. */
  lemma SharedKeyAnswer(env: Env, db: Table, g: Filters, f: Filters, hits: seq<Hit>)
    requires EnvOk(env) && SearchKey(env, g) == SearchKey(env, f) && !Collide(env, g, f)
    requires ValidAnswer(env.dist, db, g, hits)
    ensures SearchError(f).None?
    ensures Materialised(db, EntriesOf(hits)) == hits && ValidAnswer(env.dist, db, f, hits)
  {
    KeySoundness(env, g, f);
    NormalisedMeaning(env.dist, db, g, f);
    hide EntriesOf, Materialised, SearchKey, Normalised, Collide, EnvOk;
    EntryRoundTrip(env.dist, db, g, hits);
  }

  // ----- namespace recovery -----

  lemma OrderingWithoutColon(f: Filters)
    requires SearchError(f).None? && f.ordering.Some?
    ensures ':' !in f.ordering.value
  {
    assert f.ordering.value in ["", "distance", "newest", "price_asc", "price_desc"];
  }

  /** Only an ordering can bring a colon into a value. */
  lemma ValuesWithoutColon(env: Env, f: Filters, i: nat)
    requires EnvOk(env) && i < 10 && i != 7 && Values(env, f)[i].Some?
    ensures ':' !in Values(env, f)[i].value
  {
    match i
    case 3 => ReprWithoutColon(env, f.lat.value);
    case 4 => ReprWithoutColon(env, f.lng.value);
    case 5 => HundredthsChars(f.maxPrice.value);
    case 6 => HundredthsChars(f.minPrice.value);
    case 8 => HundredthsChars(f.radius.value);
    case 9 => assert forall k: ListingType :: ':' !in KindName(k);
    case _ =>
  }

  /** A part with a colon is the ordering. */
  lemma PartWithColon(env: Env, f: Filters, part: string)
    requires EnvOk(env) && part in Parts(env, f) && ':' in part
    ensures f.ordering.Some? && part == "ordering=" + f.ordering.value && ':' in f.ordering.value
  {
    var values := Values(env, f);
    EachPartNamed(NAMES, values);
    assert values[7] == f.ordering && NAMES[7] == "ordering";
    hide Values, Assignments, EnvOk;
    var i :| 0 <= i < |NAMES| && values[i].Some? && part == NAMES[i] + "=" + values[i].value;
    NameChars(i);
    if i != 7 {
      ValuesWithoutColon(env, f, i);
    }
  }

  /**
   * `_register_key` recovers the search namespace from the key of a record, validated or not, unless
   * the record holds nothing but a short ordering with a colon in it; then the key is no index key either.
   */
  lemma SearchKeyShape(env: Env, f: Filters)
    requires EnvOk(env)
    ensures NamespaceOf(SearchKey(env, f)) == LISTING_SEARCH
       <==> !(Verbatim(Parts(env, f)) && f.ordering.Some? && ':' in f.ordering.value)
    ensures NamespaceOf(SearchKey(env, f)) == LISTING_SEARCH ==>
      !IsIndexKey(SearchKey(env, f)) && forall ns :: IndexKey(ns) != SearchKey(env, f)
  {
    hide NamespaceOf, IndexKey, EndsInReserved, Parts;
    var parts := Parts(env, f);
    NamespaceRecovery(env.hash, LISTING_SEARCH, parts);
    IndexKeyClash(env.hash, LISTING_SEARCH, parts);
    if Verbatim(parts) {
      SinglePart(env, f);
    }
  }

  lemma SinglePart(env: Env, f: Filters)
    requires EnvOk(env) && Verbatim(Parts(env, f))
    ensures ':' in Parts(env, f)[0] <==> f.ordering.Some? && ':' in f.ordering.value
    ensures EndsInReserved(Parts(env, f)[0]) ==> ':' in Parts(env, f)[0]
  {
    PartsHoldEquals(env, f);
    hide Parts, EndsInReserved;
    var part := Parts(env, f)[0];
    assert part in Parts(env, f);
    if ':' in part {
      PartWithColon(env, f, part);
    }
    if f.ordering.Some? && ':' in f.ordering.value {
      OrderingIsAPart(env, f);
    }
    if EndsInReserved(part) {
      ReservedHasColon(part);
    }
  }

  lemma {:induction false} EachValuePart(names: seq<string>, values: seq<Option<string>>, i: nat)
    requires |names| == |values| && i < |names| && values[i].Some?
    ensures names[i] + "=" + values[i].value in Assignments(names, values)
  {
    if i > 0 {
      EachValuePart(names[1..], values[1..], i - 1);
    }
  }

  lemma OrderingIsAPart(env: Env, f: Filters)
    requires f.ordering.Some?
    ensures "ordering=" + f.ordering.value in Parts(env, f)
  {
    var values := Values(env, f);
    EachValuePart(NAMES, values, 7);
    assert values[7] == f.ordering && NAMES[7] + "=" == "ordering=";
    hide Assignments;
  }

  /** In particular every record whose search raises no error, the only kind whose answers are stored, has such a key. */
  lemma StoredKeyShape(env: Env, f: Filters)
    requires EnvOk(env) && SearchError(f).None?
    ensures NamespaceOf(SearchKey(env, f)) == LISTING_SEARCH
    ensures !IsIndexKey(SearchKey(env, f))
    ensures forall ns :: IndexKey(ns) != SearchKey(env, f)
  {
    if f.ordering.Some? {
      OrderingWithoutColon(f);
    }
    hide NamespaceOf, SearchKey, IndexKey, IsIndexKey, SearchError;
    SearchKeyShape(env, f);
  }

  // ----- the assumptions can be met -----

  function SignedDigits(n: int): string {
    if n >= 0 then Digits(n) else "-" + Digits(-n)
  }

  function SomeDigest(payload: string): string {
    seq(64, _ => '0')
  }

  lemma SignOf(n: int)
    ensures n < 0 <==> SignedDigits(n)[0] == '-'
  {
    if n >= 0 {
      assert Digits(n)[0] in Digits(n);
    }
  }

  lemma SignedDigitsInjective(a: int, b: int)
    requires SignedDigits(a) == SignedDigits(b)
    ensures a == b
  {
    SignOf(a);
    SignOf(b);
    hide Digits;
    if a < 0 {
      assert SignedDigits(a)[1..] == Digits(-a) && SignedDigits(b)[1..] == Digits(-b);
      DigitsInjective(-a, -b);
    } else {
      DigitsInjective(a, b);
    }
  }

  lemma SomeDigestIsHex(payload: string)
    ensures |SomeDigest(payload)| == 64 && IsHex(SomeDigest(payload))
  {
  }

  lemma EnvExists(dist: Metric)
    ensures EnvOk(Env(SomeDigest, SignedDigits, dist))
  {
    forall payload ensures |SomeDigest(payload)| == 64 && IsHex(SomeDigest(payload)) {
      SomeDigestIsHex(payload);
    }
    forall a, b | SignedDigits(a) == SignedDigits(b) ensures a == b {
      SignedDigitsInjective(a, b);
    }
    hide SomeDigest, IsHex;
  }
}
