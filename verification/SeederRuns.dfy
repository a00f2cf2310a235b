/** What repeated runs of the seeder leave behind. */
module SeederRuns {
  import opened Prelude
  import opened Text
  import opened Listings
  import opened Seeder

  // ----- titles -----

  lemma TitleIndex(p: string, b: nat, s: string, q: string, i: nat, p': string, b': nat, s': string, q': string, j: nat)
    requires Title(p, b, s, q, i) == Title(p', b', s', q', j)
    ensures i == j
  {
    var front := p + " " + Digits(b) + "-bedroom " + s + " in " + q + " ";
    var front' := p' + " " + Digits(b') + "-bedroom " + s' + " in " + q' + " ";
    assert Title(p, b, s, q, i) == front + ['#'] + Digits(i);
    assert Title(p', b', s', q', j) == front' + ['#'] + Digits(j);
    LastSplit(front, Digits(i), front', Digits(j), '#');
    DigitsInjective(i, j);
  }

  lemma PriceBounds(kind: ListingType)
    ensures PriceRange(kind) == match kind
      case Rent => (150_000, 4_500_000)
      case Sale => (25_000_000, 650_000_000)
      case Shortlet => (2_000_000, 15_000_000)
  {
  }

  lemma PlacesInLagos(place: Place)
    requires place in NEIGHBOURHOODS
    ensures 64_000_000 <= place.lat <= 67_000_000 && 33_000_000 <= place.lng <= 36_000_000
  {
  }

  /**
   * Whatever the generator: between one and five bedrooms, a whole price within the range of the kind,
   * and one neighbourhood named by the title and the location name, whose coordinates the listing has.
   */
  lemma DrawnIsConsistent(gen: Generator, s: nat, index: nat)
      returns (place: Place, street: string, units: nat, prefix: string, suffix: string)
    ensures place in NEIGHBOURHOODS && street in STREETS
    ensures var d := Drawn(gen, s, index).0;
      && 1 <= d.bedrooms <= 5
      && d.price == units * 100
      && (d.kind == Rent ==> 150_000 <= units <= 4_500_000)
      && (d.kind == Sale ==> 25_000_000 <= units <= 650_000_000)
      && (d.kind == Shortlet ==> 2_000_000 <= units <= 15_000_000)
      && d.location == Point(place.lng, place.lat)
      && 64_000_000 <= d.location.lat <= 67_000_000 && 33_000_000 <= d.location.lng <= 36_000_000
      && d.locationName == street + ", " + place.name
      && prefix in TITLE_PREFIXES && suffix in TitleSuffixes(d.kind)
      && d.title == Title(prefix, d.bedrooms, suffix, place.name, index)
  {
    assert |NEIGHBOURHOODS| == 12 && |TITLE_PREFIXES| == 8 && |STREETS| == 5 && |KINDS| == 3;
    hide Title, Digits, NEIGHBOURHOODS, TITLE_PREFIXES, STREETS, KINDS, TitleSuffixes, PriceRange;
    var (k, s1) := Below(gen, s, |KINDS|);
    var (n, s2) := Below(gen, s1, |NEIGHBOURHOODS|);
    var (_, s3) := Below(gen, s2, 5);
    var (low, high) := PriceRange(KINDS[k]);
    var (p, s4) := Below(gen, s3, high - low + 1);
    var (x, s5) := Below(gen, s4, |TITLE_PREFIXES|);
    var (y, s6) := Below(gen, s5, |TitleSuffixes(KINDS[k])|);
    var (z, _) := Below(gen, s6, |STREETS|);
    place, street, units := NEIGHBOURHOODS[n], STREETS[z], low + p;
    PlacesInLagos(place);
    PriceBounds(KINDS[k]);
    prefix, suffix := TITLE_PREFIXES[x], TitleSuffixes(KINDS[k])[y];
  }

  /** Whatever is drawn, listings with different indices have different titles. */
  lemma TitlesDiffer(gen: Generator, i: nat, j: nat)
    requires 0 < i && 0 < j && i != j
    ensures DetailsOf(gen, i).title != DetailsOf(gen, j).title
  {
    hide Drawn, Title;
    var place, _, _, p, t := DrawnIsConsistent(gen, StateAfter(gen, i - 1), i);
    var place', _, _, p', t' := DrawnIsConsistent(gen, StateAfter(gen, j - 1), j);
    var d, d' := DetailsOf(gen, i), DetailsOf(gen, j);
    if d.title == d'.title {
      TitleIndex(p, d.bedrooms, t, place.name, i, p', d'.bedrooms, t', place'.name, j);
    }
  }

  // ----- the stream -----

  /** The generator reads its numbers off a tape, and its state is the position there. */
  ghost predicate Plays(gen: Generator, tape: nat -> nat) {
    forall s, n :: gen(s, n) == (tape(s), s + 1)
  }

  /** Seven numbers are drawn for each listing, from position 42 of the tape on. */
  lemma {:induction false} StreamPosition(gen: Generator, tape: nat -> nat, index: nat)
    requires Plays(gen, tape)
    ensures StateAfter(gen, index) == 42 + 7 * index
  {
    hide Drawn, Plays;
    if index > 0 {
      StreamPosition(gen, tape, index - 1);
      SevenDraws(gen, tape, StateAfter(gen, index - 1), index);
    }
  }

  lemma SevenDraws(gen: Generator, tape: nat -> nat, s: nat, index: nat)
    requires Plays(gen, tape)
    ensures Drawn(gen, s, index).1 == s + 7
  {
    assert |NEIGHBOURHOODS| == 12 && |TITLE_PREFIXES| == 8 && |STREETS| == 5 && |KINDS| == 3;
    hide NEIGHBOURHOODS, TITLE_PREFIXES, STREETS, KINDS, Title, PriceRange, TitleSuffixes, Digits;
  }

  /** The price in whole units, and the word of the title, that a kind and a number make. */
  function UnitsOf(kind: ListingType, n: nat): nat {
    match kind
    case Rent => 150_000 + n % 4_350_001
    case Sale => 25_000_000 + n % 625_000_001
    case Shortlet => 2_000_000 + n % 13_000_001
  }

  function SuffixOf(kind: ListingType, n: nat): string {
    match kind
    case Rent => ["Apartment", "Duplex", "Studio", "Bungalow"][n % 4]
    case Sale => ["Mansion", "Terrace", "Semi-detached", "Penthouse"][n % 4]
    case Shortlet => ["Shortlet", "Furnished Suite", "Service Apartment"][n % 3]
  }

  lemma KindTables(kind: ListingType, n: nat, m: nat)
    ensures var (low, high) := PriceRange(kind); low + n % (high - low + 1) == UnitsOf(kind, n)
    ensures TitleSuffixes(kind)[m % |TitleSuffixes(kind)|] == SuffixOf(kind, m)
  {
  }

  lemma TitleText(prefix: string, bedrooms: nat, suffix: string, place: string, index: nat)
    ensures Title(prefix, bedrooms, suffix, place, index)
      == prefix + " " + Digits(bedrooms) + "-bedroom " + suffix + " in " + place + " #" + Digits(index)
  {
    assert " #" == " " + "#";
  }

  /** What seven numbers make: kind, neighbourhood, bedrooms, price, the two words of the title and the street, in this order. */
  function Made(n0: nat, n1: nat, n2: nat, n3: nat, n4: nat, n5: nat, n6: nat, index: nat): Details {
    assert |NEIGHBOURHOODS| == 12 && |TITLE_PREFIXES| == 8 && |STREETS| == 5;
    var kind, place, bedrooms := [Rent, Sale, Shortlet][n0 % 3], NEIGHBOURHOODS[n1 % 12], 1 + n2 % 5;
    Details(TITLE_PREFIXES[n4 % 8] + " " + Digits(bedrooms) + "-bedroom " + SuffixOf(kind, n5) + " in " + place.name
              + " #" + Digits(index),
            100 * UnitsOf(kind, n3), kind, bedrooms, STREETS[n6 % 5] + ", " + place.name, Point(place.lng, place.lat))
  }

  lemma DrawnIsMade(gen: Generator, tape: nat -> nat, k: nat, index: nat)
    requires Plays(gen, tape)
    ensures Drawn(gen, k, index).0
      == Made(tape(k), tape(k + 1), tape(k + 2), tape(k + 3), tape(k + 4), tape(k + 5), tape(k + 6), index)
  {
    DrawsAt(gen, tape, k, index);
    hide Drawn, NEIGHBOURHOODS, TITLE_PREFIXES, STREETS, Title, Digits, PriceRange, TitleSuffixes, UnitsOf, SuffixOf;
    var kind, place := KINDS[tape(k) % 3], NEIGHBOURHOODS[tape(k + 1) % 12];
    assert kind == [Rent, Sale, Shortlet][tape(k) % 3];
    hide KINDS;
    KindTables(kind, tape(k + 3), tape(k + 5));
    TitleText(TITLE_PREFIXES[tape(k + 4) % 8], 1 + tape(k + 2) % 5, SuffixOf(kind, tape(k + 5)), place.name, index);
  }

  lemma DrawsAt(gen: Generator, tape: nat -> nat, k: nat, index: nat)
    requires Plays(gen, tape)
    ensures |NEIGHBOURHOODS| == 12 && |TITLE_PREFIXES| == 8 && |STREETS| == 5 && |KINDS| == 3
    ensures var kind, place := KINDS[tape(k) % 3], NEIGHBOURHOODS[tape(k + 1) % 12];
      var (low, high), suffixes := PriceRange(kind), TitleSuffixes(kind);
      Drawn(gen, k, index).0 == Details(
        Title(TITLE_PREFIXES[tape(k + 4) % 8], 1 + tape(k + 2) % 5, suffixes[tape(k + 5) % |suffixes|], place.name, index),
        (low + tape(k + 3) % (high - low + 1)) * 100, kind, 1 + tape(k + 2) % 5,
        STREETS[tape(k + 6) % 5] + ", " + place.name, Point(place.lng, place.lat))
  {
    assert |NEIGHBOURHOODS| == 12 && |TITLE_PREFIXES| == 8 && |STREETS| == 5 && |KINDS| == 3;
    hide NEIGHBOURHOODS, TITLE_PREFIXES, STREETS, KINDS, Title, PriceRange, TitleSuffixes, Digits;
  }

  /** The description of a listing is made of its seven numbers, each read once and none of them by another listing. */
  lemma DrawsInOrder(gen: Generator, tape: nat -> nat, index: nat)
    requires index > 0 && Plays(gen, tape)
    ensures var k := 42 + 7 * (index - 1);
      DetailsOf(gen, index)
        == Made(tape(k), tape(k + 1), tape(k + 2), tape(k + 3), tape(k + 4), tape(k + 5), tape(k + 6), index)
  {
    hide Drawn, Made, Plays;
    StreamPosition(gen, tape, index - 1);
    DrawnIsMade(gen, tape, 42 + 7 * (index - 1), index);
  }

  // ----- which rows a run adds -----

  /** The rows of the indices whose titles are missing from the table to begin with. */
  function NewRows(gen: Generator, rows: seq<SeedRow>, agents: seq<UserId>, n: nat): seq<SeedRow>
    requires agents != []
  {
    if n == 0 then [] else
      NewRows(gen, rows, agents, n - 1) + if HasTitle(rows, DetailsOf(gen, n).title) then [] else [RowOf(gen, agents, n)]
  }

  lemma HasTitleAppend(rows: seq<SeedRow>, more: seq<SeedRow>, title: string)
    ensures HasTitle(rows + more, title) <==> HasTitle(rows, title) || HasTitle(more, title)
  {
    var all := rows + more;
    if HasTitle(rows, title) {
      var i :| 0 <= i < |rows| && rows[i].details.title == title;
      assert all[i].details.title == title;
    }
    if HasTitle(more, title) {
      var i :| 0 <= i < |more| && more[i].details.title == title;
      assert all[|rows| + i].details.title == title;
    }
  }

  lemma OneRow(gen: Generator, agents: seq<UserId>, n: nat, title: string)
    requires agents != [] && n > 0
    ensures RowOf(gen, agents, n).agent == agents[(n - 1) % |agents|]
    ensures HasTitle([RowOf(gen, agents, n)], title) <==> DetailsOf(gen, n).title == title
  {
    hide DetailsOf;
    assert [RowOf(gen, agents, n)][0].details == DetailsOf(gen, n);
  }

  lemma {:induction false} NewRowsHaveOtherTitles(
      gen: Generator, rows: seq<SeedRow>, agents: seq<UserId>, n: nat, index: nat)
    requires agents != [] && index > n
    ensures !HasTitle(NewRows(gen, rows, agents, n), DetailsOf(gen, index).title)
  {
    hide DetailsOf, RowOf;
    if n > 0 {
      NewRowsHaveOtherTitles(gen, rows, agents, n - 1, index);
      TitlesDiffer(gen, n, index);
      var title, prev := DetailsOf(gen, index).title, NewRows(gen, rows, agents, n - 1);
      OneRow(gen, agents, n, title);
      HasTitleAppend(prev, [RowOf(gen, agents, n)], title);
      assert prev + [] == prev;
      hide HasTitle;
    }
  }

  /** A run adds exactly the rows whose titles the table did not hold before the run, in order. */
  lemma {:induction false} SeededAppends(gen: Generator, rows: seq<SeedRow>, agents: seq<UserId>, n: nat)
    requires agents != []
    ensures Seeded(gen, rows, agents, n) == rows + NewRows(gen, rows, agents, n)
  {
    hide DetailsOf, RowOf, HasTitle;
    if n > 0 {
      SeededAppends(gen, rows, agents, n - 1);
      NewRowsHaveOtherTitles(gen, rows, agents, n - 1, n);
      HasTitleAppend(rows, NewRows(gen, rows, agents, n - 1), DetailsOf(gen, n).title);
    }
  }

  // ----- idempotence and confluence -----

  /** After a run the titles of all its indices are there. */
  lemma {:induction false} SeededHasTitles(gen: Generator, rows: seq<SeedRow>, agents: seq<UserId>, n: nat, index: nat)
    requires agents != [] && 0 < index <= n
    ensures HasTitle(Seeded(gen, rows, agents, n), DetailsOf(gen, index).title)
  {
    hide DetailsOf;
    hide RowOf, HasTitle;
    var before := Seeded(gen, rows, agents, n - 1);
    var title := DetailsOf(gen, index).title;
    OneRow(gen, agents, n, title);
    HasTitleAppend(before, [RowOf(gen, agents, n)], title);
    if index < n {
      SeededHasTitles(gen, rows, agents, n - 1, index);
    }
  }

  /** Indices already seeded are passed over. */
  lemma {:induction false} SeedingAgain(gen: Generator, rows: seq<SeedRow>, agents: seq<UserId>, n: nat, m: nat)
    requires agents != []
    ensures Seeded(gen, Seeded(gen, rows, agents, n), agents, m) == Seeded(gen, rows, agents, if n < m then m else n)
    decreases m
  {
    hide DetailsOf, RowOf, HasTitle;
    if m > 0 {
      SeedingAgain(gen, rows, agents, n, m - 1);
      if m <= n {
        SeededHasTitles(gen, rows, agents, n, m);
      }
    }
  }

  // ----- when the command succeeds -----

  /** A demo user can be had: found live, or its name and its email are free among all users. */
  predicate Available(site: Site, d: Demo) {
    (d.name in site.users && !site.users[d.name].deleted)
    || (d.name !in site.users && forall name | name in site.users :: site.users[name].email != d.email)
  }

  ghost predicate DistinctDemos(demos: seq<Demo>) {
    forall i, j | 0 <= i < j < |demos| :: demos[i].name != demos[j].name && demos[i].email != demos[j].email
  }

  /** Having one demo user does not change whether another can be had. */
  lemma AvailableStays(site: Site, d: Demo, other: Demo)
    requires Available(site, d) && d.name != other.name && d.email != other.email
    ensures WithDemo(site, d).Ok? && (Available(WithDemo(site, d).value, other) <==> Available(site, other))
  {
    var next := WithDemo(site, d).value;
    if name :| name in site.users && site.users[name].email == other.email {
      assert name in next.users && next.users[name].email == other.email;
    }
    if name :| name in next.users && next.users[name].email == other.email {
      assert name in site.users && site.users[name].email == other.email;
    }
  }

  lemma {:induction false} DemosOutcome(site: Site, demos: seq<Demo>)
    requires DistinctDemos(demos)
    ensures WithDemos(site, demos).Ok? <==> forall d | d in demos :: Available(site, d)
    decreases |demos|
  {
    if demos != [] && Available(site, demos[0]) {
      var next := WithDemo(site, demos[0]).value;
      forall d | d in demos[1..]
        ensures Available(next, d) <==> Available(site, d)
      {
        AvailableStays(site, demos[0], d);
      }
      DemosOutcome(next, demos[1..]);
      hide Available, WithDemo;
      assert forall d :: d in demos <==> d == demos[0] || d in demos[1..];
    } else if demos != [] {
      assert demos[0] in demos;
    }
  }

  lemma DemosAreDistinct()
    ensures DistinctDemos([ADMIN] + AGENTS)
  {
    var demos := [ADMIN] + AGENTS;
    assert |ADMIN.name| == 5 && |ADMIN.email| == 19;
    forall i | 1 <= i < 4
      ensures |demos[i].name| == 6 && |demos[i].email| == 20
      ensures demos[i].name[5] == demos[i].email[5] == if i == 1 then '1' else if i == 2 then '2' else '3'
    {
    }
  }

  /**
   * The command succeeds exactly when the count is positive and, after any flush, every demo user is
   * found live or has its name and its email free among all users, the soft-deleted ones included.
   */
  lemma HandledIff(gen: Generator, site: Site, count: int, flush: bool)
    ensures Handled(gen, site, count, flush).Ok? <==>
      && count >= 1
      && forall d | d in [ADMIN] + AGENTS :: Available(if flush then Flushed(site) else site, d)
  {
    var start := if flush then Flushed(site) else site;
    DemosAreDistinct();
    hide Seeded, AgentIds, Flushed, Available, AGENTS, ADMIN, WithDemo;
    DemosOutcome(start, [ADMIN] + AGENTS);
    OneDemoFirst(start, ADMIN, AGENTS);
    hide WithDemos;
  }

  lemma OneDemoFirst(site: Site, d: Demo, demos: seq<Demo>)
    ensures WithDemos(site, [d] + demos).Ok? <==> WithDemo(site, d).Ok? && WithDemos(WithDemo(site, d).value, demos).Ok?
  {
    hide WithDemo;
    assert ([d] + demos)[1..] == demos;
  }

  /** Otherwise the error names the first demo user, in their order, that cannot be had. */
  lemma HandledError(gen: Generator, site: Site, count: int, flush: bool) returns (i: nat)
    requires Handled(gen, site, count, flush).Err?
    ensures count < 1 ==> Handled(gen, site, count, flush) == Err(CountTooSmall)
    ensures count >= 1 ==>
      var start, demos := if flush then Flushed(site) else site, [ADMIN] + AGENTS;
      && i < 4 && Handled(gen, site, count, flush) == Err(Taken(demos[i]))
      && !Available(start, demos[i]) && forall j | 0 <= j < i :: Available(start, demos[j])
  {
    i := 0;
    if count >= 1 {
      var start := if flush then Flushed(site) else site;
      DemosAreDistinct();
      assert |AGENTS| == 3;
      hide Seeded, AgentIds, Flushed, Available, AGENTS, ADMIN, WithDemo;
      OneDemoFirst(start, ADMIN, AGENTS);
      i := FirstTaken(start, [ADMIN] + AGENTS);
    }
  }

  lemma {:induction false} FirstTaken(site: Site, demos: seq<Demo>) returns (i: nat)
    requires DistinctDemos(demos) && WithDemos(site, demos).Err?
    ensures i < |demos| && WithDemos(site, demos) == Err(Taken(demos[i]))
    ensures !Available(site, demos[i]) && forall j | 0 <= j < i :: Available(site, demos[j])
    decreases |demos|
  {
    if demos == [] || !Available(site, demos[0]) {
      i := 0;
    } else {
      var next := WithDemo(site, demos[0]).value;
      var rest := FirstTaken(next, demos[1..]);
      i := rest + 1;
      forall j | 1 <= j < |demos|
        ensures Available(next, demos[j]) <==> Available(site, demos[j])
      {
        AvailableStays(site, demos[0], demos[j]);
      }
      hide Available, WithDemo;
      assert forall j | 0 <= j < |demos| - 1 :: demos[1..][j] == demos[j + 1];
    }
  }

  lemma NewDemo(site: Site, d: Demo)
    requires d.name !in site.users && forall name | name in site.users :: site.users[name].email != d.email
    ensures WithDemo(site, d)
      == Ok(Site(site.users[d.name := SeedUser(site.nextUser, d.email, d.admin, false)], site.nextUser + 1, site.rows))
  {
  }

  function UsersOf(a: Demo, b: Demo, c: Demo, d: Demo): map<string, SeedUser> {
    map[a.name := SeedUser(0, a.email, a.admin, false), b.name := SeedUser(1, b.email, b.admin, false),
        c.name := SeedUser(2, c.email, c.admin, false), d.name := SeedUser(3, d.email, d.admin, false)]
  }

  ghost predicate AllDiffer(a: Demo, b: Demo, c: Demo, d: Demo) {
    && a.name != b.name && a.name != c.name && a.name != d.name && b.name != c.name && b.name != d.name && c.name != d.name
    && a.email != b.email && a.email != c.email && a.email != d.email
    && b.email != c.email && b.email != d.email && c.email != d.email
  }

  lemma FourDemos(a: Demo, b: Demo, c: Demo, d: Demo)
    requires AllDiffer(a, b, c, d)
    ensures WithDemos(Site(map[], 0, []), [a, b, c, d]) == Ok(Site(UsersOf(a, b, c, d), 4, []))
  {
    hide WithDemo, WithDemos;
    var s1 := Site(map[a.name := SeedUser(0, a.email, a.admin, false)], 1, []);
    var s2 := Site(s1.users[b.name := SeedUser(1, b.email, b.admin, false)], 2, []);
    var s3 := Site(s2.users[c.name := SeedUser(2, c.email, c.admin, false)], 3, []);
    NewDemo(Site(map[], 0, []), a);
    NewDemo(s1, b);
    NewDemo(s2, c);
    NewDemo(s3, d);
    assert s3.users[d.name := SeedUser(3, d.email, d.admin, false)] == UsersOf(a, b, c, d);
    FourSteps(Site(map[], 0, []), a, b, c, d);
  }

  lemma FourSteps(site: Site, a: Demo, b: Demo, c: Demo, d: Demo)
    requires WithDemo(site, a).Ok? && WithDemo(WithDemo(site, a).value, b).Ok?
    requires var s2 := WithDemo(WithDemo(site, a).value, b).value;
      WithDemo(s2, c).Ok? && WithDemo(WithDemo(s2, c).value, d).Ok?
    ensures var s2 := WithDemo(WithDemo(site, a).value, b).value;
      WithDemos(site, [a, b, c, d]) == WithDemo(WithDemo(s2, c).value, d)
  {
    hide WithDemo, WithDemos;
    var s1 := WithDemo(site, a).value;
    var s2 := WithDemo(s1, b).value;
    var s3 := WithDemo(s2, c).value;
    OneDemoMore(site, a, [b, c, d]);
    OneDemoMore(s1, b, [c, d]);
    OneDemoMore(s2, c, [d]);
    OneDemoMore(s3, d, []);
    assert [a] + [b, c, d] == [a, b, c, d] && [b] + [c, d] == [b, c, d] && [c] + [d] == [c, d] && [d] + [] == [d];
    NoDemos(WithDemo(s3, d).value);
  }

  lemma OnlyAdminSpared(a: Demo, b: Demo, c: Demo, d: Demo)
    requires AllDiffer(a, b, c, d) && a.admin && !b.admin && !c.admin && !d.admin
    ensures Flushed(Site(UsersOf(a, b, c, d), 4, [])).users == map[a.name := SeedUser(0, a.email, true, false)]
  {
  }

  lemma NoDemos(site: Site)
    ensures WithDemos(site, []) == Ok(site)
  {
  }

  lemma OneDemoMore(site: Site, d: Demo, demos: seq<Demo>)
    requires WithDemo(site, d).Ok?
    ensures WithDemos(site, [d] + demos) == WithDemos(WithDemo(site, d).value, demos)
  {
    hide WithDemo;
    assert ([d] + demos)[1..] == demos;
  }

  lemma UsersOfDemos(site: Site, d: Demo, demos: seq<Demo>, flush: bool)
    requires d == ADMIN && demos == AGENTS && WithDemos(site, [d] + demos).Ok? && Flushed(site) == site
    ensures Prepared(site, flush) == WithDemos(site, [d] + demos)
  {
    hide WithDemo, ADMIN, AGENTS, Flushed;
    OneDemoFirst(site, d, demos);
    OneDemoMore(site, d, demos);
  }

  /** On an empty site the command creates one administrator and three agents; a flush later spares the administrator alone. */
  lemma UsersFromNothing(gen: Generator, count: int, flush: bool)
    requires count >= 1
    ensures var r := Handled(gen, Site(map[], 0, []), count, flush);
      && r.Ok? && r.value.nextUser == 4
      && r.value.users == map[
           "admin" := SeedUser(0, "admin@elisting.test", true, false),
           "agent1" := SeedUser(1, "agent1@elisting.test", false, false),
           "agent2" := SeedUser(2, "agent2@elisting.test", false, false),
           "agent3" := SeedUser(3, "agent3@elisting.test", false, false)]
      && Flushed(r.value).users == map["admin" := SeedUser(0, "admin@elisting.test", true, false)]
  {
    var nothing := Site(map[], 0, []);
    assert Flushed(nothing) == nothing;
    DemosAreDistinct();
    var demos := [ADMIN, AGENTS[0], AGENTS[1], AGENTS[2]];
    assert [ADMIN] + AGENTS == demos;
    assert AllDiffer(demos[0], demos[1], demos[2], demos[3]);
    hide Seeded, AgentIds, WithDemos, WithDemo, Prepared, Flushed, DistinctDemos, AllDiffer;
    FourDemos(ADMIN, AGENTS[0], AGENTS[1], AGENTS[2]);
    OnlyAdminSpared(ADMIN, AGENTS[0], AGENTS[1], AGENTS[2]);
    UsersOfDemos(nothing, ADMIN, AGENTS, flush);
    var r := Handled(gen, nothing, count, flush);
    assert r.Ok? && r.value.users == UsersOf(ADMIN, AGENTS[0], AGENTS[1], AGENTS[2]);
    assert Flushed(r.value).users == map[ADMIN.name := SeedUser(0, ADMIN.email, true, false)] by {
      FlushReadsUsers(r.value, Site(r.value.users, 4, []));
    }
  }

  lemma FlushReadsUsers(site: Site, other: Site)
    requires site.users == other.users
    ensures Flushed(site).users == Flushed(other).users
  {
  }

  /** A soft-deleted `agent1` is not found and cannot be created again; flushing removes it. */
  lemma HiddenAgentStopsSeeding(gen: Generator, id: UserId)
    ensures var hidden := Site(map["agent1" := SeedUser(id, "agent1@elisting.test", false, true)], id + 1, []);
      Handled(gen, hidden, 1, false).Err? && Handled(gen, hidden, 1, true).Ok?
  {
    var hidden := Site(map["agent1" := SeedUser(id, "agent1@elisting.test", false, true)], id + 1, []);
    assert AGENTS[0] in [ADMIN] + AGENTS && AGENTS[0].name == "agent1";
    assert !Available(hidden, AGENTS[0]);
    HandledIff(gen, hidden, 1, false);
    HandledIff(gen, hidden, 1, true);
    hide AGENTS, ADMIN;
    assert Flushed(hidden).users == map[];
  }

  /** A soft-deleted administrator named `admin` stops even a flushed run. */
  lemma HiddenAdminStopsFlushedSeeding(gen: Generator, id: UserId)
    ensures Handled(gen, Site(map["admin" := SeedUser(id, "admin@elisting.test", true, true)], id + 1, []), 1, true).Err?
  {
    var hidden := Site(map["admin" := SeedUser(id, "admin@elisting.test", true, true)], id + 1, []);
    assert ADMIN in [ADMIN] + AGENTS && !Available(Flushed(hidden), ADMIN);
    HandledIff(gen, hidden, 1, true);
  }

  // ----- confluence of the command -----

  lemma {:induction false} DemosAgain(site: Site, demos: seq<Demo>)
    requires forall d | d in demos :: LiveUser(site, d.name)
    ensures WithDemos(site, demos) == Ok(site)
    decreases |demos|
  {
    if demos != [] {
      assert demos[0] in demos;
      DemosAgain(site, demos[1..]);
    }
  }

  /** Preparing a prepared site changes nothing: the same administrator and agents are found again. */
  lemma PreparedAgain(site: Site, flush: bool, rows: seq<SeedRow>)
    requires Prepared(site, flush).Ok?
    ensures var ready := Prepared(site, flush).value.(rows := rows);
      Prepared(ready, false) == Ok(ready) && AgentIds(ready) == AgentIds(Prepared(site, flush).value)
  {
    var first := Prepared(site, flush).value;
    var ready := first.(rows := rows);
    assert LiveUser(first, ADMIN.name);
    DemosAgain(ready, AGENTS);
  }

  /**
   * Seeding is idempotent and confluent: two runs leave what one run with the larger count leaves,
   * users, owners and order included, whatever the generator and whatever was there before. Where the
   * first run fails, so does the other, with the same error.
   */
  lemma SeedingIsConfluent(gen: Generator, site: Site, n: int, m: int, flush: bool)
    requires n >= 1 && m >= 1
    ensures var first, most := Handled(gen, site, n, flush), Handled(gen, site, if n < m then m else n, flush);
      if first.Ok? then Handled(gen, first.value, m, false) == most else most == first
  {
    var prepared := Prepared(site, flush);
    if prepared.Ok? {
      var ready := prepared.value;
      var rows := Seeded(gen, ready.rows, AgentIds(ready), n);
      PreparedAgain(site, flush, rows);
      SeedingAgain(gen, ready.rows, AgentIds(ready), n, m);
      hide Prepared, Seeded, AgentIds;
    }
  }

  // ----- the shares of the agents -----

  function Owned(rows: seq<SeedRow>, agent: UserId): nat {
    if rows == [] then 0 else Owned(rows[..|rows| - 1], agent) + if rows[|rows| - 1].agent == agent then 1 else 0
  }

  /** `(q*k + x) div k` for a remainder or a little more. */
  lemma Quotient(q: nat, k: nat, x: nat)
    requires 0 < k && x < 2 * k
    ensures (q * k + x) / k == q + if x < k then 0 else 1
  {
    var y := if x < k then x else x - k;
    var q' := q + if x < k then 0 else 1;
    assert q * k + x == q' * k + y;
    assert (q' * k + y) / k == q' by {
      QuotientOf(q', k, y);
    }
  }

  lemma Multiples(a: nat, b: nat, k: nat)
    requires a <= b
    ensures a * k <= b * k
  {
  }

  lemma QuotientOf(q: nat, k: nat, y: nat)
    requires y < k
    ensures (q * k + y) / k == q
  {
    var d := (q * k + y) / k;
    assert d * k <= q * k + y < (d + 1) * k;
    if d < q {
      Multiples(d + 1, q, k);
    } else if d > q {
      Multiples(q + 1, d, k);
    }
  }

  /** The share of agent `j` among `k` after `n` listings. */
  function Share(n: nat, k: nat, j: nat): nat
    requires j < k
  {
    (n + k - 1 - j) / k
  }

  /** One more listing adds to the share of the agent whose turn it is, and to no other. */
  lemma ShareGrows(n: nat, k: nat, j: nat)
    requires 0 < n && j < k
    ensures Share(n, k, j) == Share(n - 1, k, j) + if (n - 1) % k == j then 1 else 0
  {
    var q, r := (n - 1) / k, (n - 1) % k;
    assert n - 1 == q * k + r;
    Quotient(q, k, r + k - 1 - j);
    Quotient(q, k, r + k - j);
  }

  lemma OneMoreSeeded(gen: Generator, agents: seq<UserId>, n: nat)
    requires agents != [] && n > 0
    ensures Seeded(gen, [], agents, n) == Seeded(gen, [], agents, n - 1) + [RowOf(gen, agents, n)]
  {
    hide DetailsOf, RowOf, HasTitle;
    NewRowsHaveOtherTitles(gen, [], agents, n - 1, n);
    SeededAppends(gen, [], agents, n - 1);
    assert [] + NewRows(gen, [], agents, n - 1) == NewRows(gen, [], agents, n - 1);
  }

  /**
   * Seeding an empty table creates one listing for each index, and agent `j` owns `(n + k - 1 - j) div k`
   * of them, so that no two agents differ by more than one.
   */
  lemma {:induction false} RoundRobinShares(gen: Generator, agents: seq<UserId>, n: nat, j: nat)
    requires agents != [] && Distinct(agents) && j < |agents|
    ensures |Seeded(gen, [], agents, n)| == n
    ensures Owned(Seeded(gen, [], agents, n), agents[j]) == Share(n, |agents|, j)
  {
    hide Seeded, RowOf, Share, Owned;
    var k := |agents|;
    if n == 0 {
      NothingSeeded(gen, agents, j);
    } else {
      RoundRobinShares(gen, agents, n - 1, j);
      var before, row, turn := Seeded(gen, [], agents, n - 1), RowOf(gen, agents, n), (n - 1) % k;
      OneMoreSeeded(gen, agents, n);
      assert row.agent == agents[turn] by {
        OneRow(gen, agents, n, "");
      }
      SamePlace(agents, turn, j);
      OwnedAppend(before, row, agents[j]);
      ShareGrows(n, k, j);
    }
  }

  lemma NothingSeeded(gen: Generator, agents: seq<UserId>, j: nat)
    requires j < |agents|
    ensures Seeded(gen, [], agents, 0) == [] && Owned([], agents[j]) == 0 == Share(0, |agents|, j)
  {
    hide Drawn, DetailsOf, RowOf, HasTitle;
    QuotientOf(0, |agents|, |agents| - 1 - j);
  }

  lemma SamePlace(agents: seq<UserId>, i: nat, j: nat)
    requires Distinct(agents) && i < |agents| && j < |agents|
    ensures agents[i] == agents[j] <==> i == j
  {
  }

  lemma OwnedAppend(rows: seq<SeedRow>, row: SeedRow, agent: UserId)
    ensures Owned(rows + [row], agent) == Owned(rows, agent) + if row.agent == agent then 1 else 0
  {
    assert (rows + [row])[..|rows|] == rows;
  }

  /** Any two agents differ by at most one listing, and the earlier one owns the more. */
  lemma SharesAreFair(n: nat, k: nat, i: nat, j: nat)
    requires i <= j < k
    ensures Share(n, k, j) <= Share(n, k, i) <= Share(n, k, j) + 1
  {
    var q, r := n / k, n % k;
    assert n == q * k + r;
    Quotient(q, k, r + k - 1 - i);
    Quotient(q, k, r + k - 1 - j);
  }

  /** No two users share an identifier. */
  ghost predicate UsersDistinct(site: Site) {
    && (forall a, b | a in site.users && b in site.users && a != b :: site.users[a].id != site.users[b].id)
    && (forall a | a in site.users :: site.users[a].id < site.nextUser)
  }

  lemma {:induction false} UsersStayDistinct(site: Site, demos: seq<Demo>)
    requires UsersDistinct(site) && WithDemos(site, demos).Ok?
    ensures UsersDistinct(WithDemos(site, demos).value)
    decreases |demos|
  {
    if demos != [] {
      OneUserMore(site, demos[0]);
      hide UsersDistinct, WithDemo;
      UsersStayDistinct(WithDemo(site, demos[0]).value, demos[1..]);
    }
  }

  lemma OneUserMore(site: Site, d: Demo)
    requires UsersDistinct(site) && WithDemo(site, d).Ok?
    ensures UsersDistinct(WithDemo(site, d).value)
  {
  }

  /** A flushed command that succeeds leaves as many listings as asked for, a third of them to each agent. */
  lemma FlushedShares(gen: Generator, site: Site, n: int, j: nat)
    requires UsersDistinct(site) && j < 3
    requires Handled(gen, site, n, true).Ok?
    ensures var done := Handled(gen, site, n, true).value;
      && |done.rows| == n
      && Owned(done.rows, AgentIds(Prepared(site, true).value)[j]) == (n + 2 - j) / 3
  {
    FlushedSite(site);
    hide AgentIds, Prepared, Seeded, Owned, AGENTS, UsersDistinct;
    RoundRobinShares(gen, AgentIds(Prepared(site, true).value), n, j);
  }

  lemma FlushedSite(site: Site)
    requires UsersDistinct(site) && Prepared(site, true).Ok?
    ensures Prepared(site, true).value.rows == [] && Distinct(AgentIds(Prepared(site, true).value))
    ensures |AgentIds(Prepared(site, true).value)| == 3
  {
    assert UsersDistinct(Flushed(site));
    OneUserMore(Flushed(site), ADMIN);
    hide AGENTS, ADMIN, UsersDistinct, WithDemo, LiveUser;
    UsersStayDistinct(WithDemo(Flushed(site), ADMIN).value, AGENTS);
    AgentIdsDistinct(Prepared(site, true).value);
  }

  lemma AgentIdsDistinct(site: Site)
    requires UsersDistinct(site) && forall d | d in AGENTS :: LiveUser(site, d.name)
    ensures Distinct(AgentIds(site)) && |AgentIds(site)| == 3
  {
    assert AGENTS[0].name[5] == '1' && AGENTS[1].name[5] == '2' && AGENTS[2].name[5] == '3';
    assert AGENTS[0] in AGENTS && AGENTS[1] in AGENTS && AGENTS[2] in AGENTS;
  }
}
