/** The demo seeder (apps/listings/management/commands/seed_demo.py): a loop over a seeded random stream. */
module Seeder {
  import opened Prelude
  import opened Text
  import opened Listings

  /** A generator takes a state and a bound to a number and the next state. */
  type Generator = (nat, nat) -> (nat, nat)

  const SEED: nat := 42

  function Below(gen: Generator, state: nat, n: nat): (r: (nat, nat))
    requires n > 0
    ensures r.0 < n
  {
    (gen(state, n).0 % n, gen(state, n).1)
  }

  class Random {
    const gen: Generator
    var state: nat

    constructor (gen: Generator, seed: nat)
      ensures this.gen == gen && state == seed
    {
      this.gen, state := gen, seed;
    }

    method Draw(n: nat) returns (k: nat)
      requires n > 0
      modifies this
      ensures (k, state) == Below(gen, old(state), n)
    {
      var (drawn, next) := gen(state, n);
      k := drawn % n;
      state := next;
    }
  }

  // ----- the vocabulary -----

  datatype Place = Place(name: string, lat: Coord, lng: Coord)

  const NEIGHBOURHOODS: seq<Place> := [
    Place("Lekki Phase 1", 64474000, 34735000), Place("Lekki Phase 2", 64580000, 34800000),
    Place("Victoria Island", 64281000, 34219000), Place("Banana Island", 64340000, 34370000),
    Place("Ikeja GRA", 65833000, 33833000), Place("Ikeja Ogosa", 66010000, 33510000),
    Place("Yaba", 65095000, 33711000), Place("Maryland", 65545000, 33780000),
    Place("Surulere", 65054000, 33566000), Place("Ajah", 64698000, 35852000),
    Place("Ikorodu", 64500000, 34200000), Place("Agege", 66200000, 33200000)]

  const KINDS: seq<ListingType> := [Rent, Sale, Shortlet]

  const TITLE_PREFIXES: seq<string> :=
    ["Bright", "Modern", "Spacious", "Serviced", "Luxury", "Compact", "Executive", "Family"]

  function TitleSuffixes(kind: ListingType): (r: seq<string>)
    ensures r != []
  {
    match kind
    case Rent => ["Apartment", "Duplex", "Studio", "Bungalow"]
    case Sale => ["Mansion", "Terrace", "Semi-detached", "Penthouse"]
    case Shortlet => ["Shortlet", "Furnished Suite", "Service Apartment"]
  }

  function PriceRange(kind: ListingType): (r: (nat, nat))
    ensures r.0 <= r.1
  {
    match kind
    case Rent => (150_000, 4_500_000)
    case Sale => (25_000_000, 650_000_000)
    case Shortlet => (2_000_000, 15_000_000)
  }

  const STREETS: seq<string> := ["Ocean View", "Admiralty Way", "Awolowo Road", "Herbert Macaulay", "Bourdillon"]

  /** A demo user the command finds by name or creates. */
  datatype Demo = Demo(name: string, email: string, admin: bool)

  const ADMIN := Demo("admin", "admin@elisting.test", true)

  const AGENTS: seq<Demo> := [
    Demo("agent1", "agent1@elisting.test", false),
    Demo("agent2", "agent2@elisting.test", false),
    Demo("agent3", "agent3@elisting.test", false)]

  function Title(prefix: string, bedrooms: nat, suffix: string, place: string, index: nat): string {
    prefix + " " + Digits(bedrooms) + "-bedroom " + suffix + " in " + place + " " + "#" + Digits(index)
  }

  // ----- draws -----

  /** The description drawn for an index from a generator state, and the state after all its draws. */
  function Drawn(gen: Generator, s0: nat, index: nat): (Details, nat) {
    var (k, s1) := Below(gen, s0, |KINDS|);
    var kind := KINDS[k];
    var (n, s2) := Below(gen, s1, |NEIGHBOURHOODS|);
    var place := NEIGHBOURHOODS[n];
    var (b, s3) := Below(gen, s2, 5);
    var bedrooms := 1 + b;
    var (low, high) := PriceRange(kind);
    var (p, s4) := Below(gen, s3, high - low + 1);
    var (x, s5) := Below(gen, s4, |TITLE_PREFIXES|);
    var (y, s6) := Below(gen, s5, |TitleSuffixes(kind)|);
    var (z, s7) := Below(gen, s6, |STREETS|);
    (Details(Title(TITLE_PREFIXES[x], bedrooms, TitleSuffixes(kind)[y], place.name, index),
             (low + p) * 100, kind, bedrooms, STREETS[z] + ", " + place.name, Point(place.lng, place.lat)), s7)
  }

  /** The generator state with which the listing after `index` starts; the rows play no part in it. */
  function StateAfter(gen: Generator, index: nat): nat {
    if index == 0 then SEED else Drawn(gen, StateAfter(gen, index - 1), index).1
  }

  function DetailsOf(gen: Generator, index: nat): Details
    requires index > 0
  {
    Drawn(gen, StateAfter(gen, index - 1), index).0
  }

  // ----- rows -----

  /** A listing without its identifier and time stamps; the agent is also its creator. */
  datatype SeedRow = SeedRow(details: Details, agent: UserId)

  predicate HasTitle(rows: seq<SeedRow>, title: string) {
    exists i :: 0 <= i < |rows| && rows[i].details.title == title
  }

  function RowOf(gen: Generator, agents: seq<UserId>, index: nat): SeedRow
    requires agents != [] && index > 0
  {
    SeedRow(DetailsOf(gen, index), agents[(index - 1) % |agents|])
  }

  /** The rows after the loop has run to `n`. */
  function Seeded(gen: Generator, rows: seq<SeedRow>, agents: seq<UserId>, n: nat): seq<SeedRow>
    requires agents != []
  {
    if n == 0 then rows else
      var before := Seeded(gen, rows, agents, n - 1);
      if HasTitle(before, DetailsOf(gen, n).title) then before else before + [RowOf(gen, agents, n)]
  }

  // ----- users and the command -----

  /** `deleted` is a soft deletion: the row is still there, and still holds its name and its email. */
  datatype SeedUser = SeedUser(id: UserId, email: string, admin: bool, deleted: bool)

  /** Users by name, which is unique over all of them, deleted or not; so is the email. */
  datatype Site = Site(users: map<string, SeedUser>, nextUser: UserId, rows: seq<SeedRow>)

  datatype SeedError = CountTooSmall | Taken(demo: Demo)

  /** What `User.objects.filter(username=...)` finds. */
  predicate LiveUser(site: Site, name: string) {
    name in site.users && !site.users[name].deleted
  }

  predicate EmailHeld(site: Site, email: string) {
    exists name :: name in site.users && site.users[name].email == email
  }

  /** Insertion fails on the unique constraints, which count soft-deleted users too. */
  function WithDemo(site: Site, d: Demo): (r: Result<Site, SeedError>)
    ensures r.Ok? ==> LiveUser(r.value, d.name)
    ensures r.Ok? ==> forall name | name in site.users :: name in r.value.users && r.value.users[name] == site.users[name]
  {
    if LiveUser(site, d.name) then Ok(site)
    else if d.name in site.users || EmailHeld(site, d.email) then Err(Taken(d))
    else Ok(site.(users := site.users[d.name := SeedUser(site.nextUser, d.email, d.admin, false)], nextUser := site.nextUser + 1))
  }

  function WithDemos(site: Site, demos: seq<Demo>): (r: Result<Site, SeedError>)
    ensures r.Ok? ==> forall d | d in demos :: LiveUser(r.value, d.name)
    ensures r.Ok? ==> forall name | name in site.users :: name in r.value.users && r.value.users[name] == site.users[name]
    ensures r.Ok? ==> r.value.rows == site.rows
    decreases |demos|
  {
    if demos == [] then Ok(site)
    else match WithDemo(site, demos[0])
      case Err(e) => Err(e)
      case Ok(next) => WithDemos(next, demos[1..])
  }

  /** All listings and all users but administrators are hard deleted. */
  function Flushed(site: Site): Site {
    site.(rows := [], users := map name | name in site.users && site.users[name].admin :: site.users[name])
  }

  /** The site as the loop finds it, if the demo users can be had. */
  function Prepared(site: Site, flush: bool): (r: Result<Site, SeedError>)
    ensures r.Ok? ==> forall d | d in AGENTS :: LiveUser(r.value, d.name)
  {
    match WithDemo(if flush then Flushed(site) else site, ADMIN)
    case Err(e) => Err(e)
    case Ok(next) => WithDemos(next, AGENTS)
  }

  function DemoIds(site: Site, demos: seq<Demo>): (r: seq<UserId>)
    requires forall d | d in demos :: LiveUser(site, d.name)
    ensures |r| == |demos|
    ensures forall i | 0 <= i < |demos| :: demos[i].name in site.users && r[i] == site.users[demos[i].name].id
  {
    if demos == [] then [] else
      assert LiveUser(site, demos[0].name) by { assert demos[0] in demos; }
      [site.users[demos[0].name].id] + DemoIds(site, demos[1..])
  }

  function AgentIds(site: Site): (r: seq<UserId>)
    requires forall d | d in AGENTS :: LiveUser(site, d.name)
    ensures r != []
  {
    DemoIds(site, AGENTS)
  }

  function Handled(gen: Generator, site: Site, count: int, flush: bool): Result<Site, SeedError> {
    if count < 1 then Err(CountTooSmall) else
      match Prepared(site, flush)
      case Err(e) => Err(e)
      case Ok(ready) => Ok(ready.(rows := Seeded(gen, ready.rows, AgentIds(ready), count)))
  }

  class Command {
    const gen: Generator
    var site: Site

    constructor (gen: Generator, site: Site)
      ensures this.gen == gen && this.site == site
    {
      this.gen, this.site := gen, site;
    }

    /** All draws of one listing, in the order in which they are made. */
    method DrawDetails(index: nat, rng: Random) returns (details: Details)
      modifies rng
      ensures (details, rng.state) == Drawn(rng.gen, old(rng.state), index)
    {
      hide Title, Digits;
      var k := rng.Draw(|KINDS|);
      var kind := KINDS[k];
      var n := rng.Draw(|NEIGHBOURHOODS|);
      var place := NEIGHBOURHOODS[n];
      var b := rng.Draw(5);
      var bedrooms := 1 + b;
      var (low, high) := PriceRange(kind);
      var p := rng.Draw(high - low + 1);
      var x := rng.Draw(|TITLE_PREFIXES|);
      var y := rng.Draw(|TitleSuffixes(kind)|);
      var title := Title(TITLE_PREFIXES[x], bedrooms, TitleSuffixes(kind)[y], place.name, index);
      var z := rng.Draw(|STREETS|);
      details := Details(title, (low + p) * 100, kind, bedrooms, STREETS[z] + ", " + place.name, Point(place.lng, place.lat));
    }

    /** The draws come before the check for a duplicate, so the stream advances either way. */
    method CreateListing(index: nat, agent: UserId, rng: Random) returns (created: bool)
      requires index > 0
      modifies this, rng
      ensures var (details, next) := Drawn(rng.gen, old(rng.state), index);
        && rng.state == next
        && created == !HasTitle(old(site).rows, details.title)
        && site == if created then old(site).(rows := old(site).rows + [SeedRow(details, agent)]) else old(site)
    {
      hide Drawn;
      var details := DrawDetails(index, rng);
      if HasTitle(site.rows, details.title) {
        return false;
      }
      site := site.(rows := site.rows + [SeedRow(details, agent)]);
      created := true;
    }

    /** Find the demo user or create it. */
    method FindOrCreate(d: Demo) returns (r: Result<UserId, SeedError>)
      modifies this
      ensures match WithDemo(old(site), d)
        case Err(e) => r == Err(e) && site == old(site)
        case Ok(next) => site == next && r == Ok(site.users[d.name].id)
    {
      if d.name in site.users && !site.users[d.name].deleted {
        return Ok(site.users[d.name].id);
      }
      if d.name in site.users || EmailHeld(site, d.email) {
        return Err(Taken(d));
      }
      site := site.(users := site.users[d.name := SeedUser(site.nextUser, d.email, d.admin, false)], nextUser := site.nextUser + 1);
      r := Ok(site.users[d.name].id);
    }

    method CreateAgents() returns (r: Result<seq<UserId>, SeedError>)
      modifies this
      ensures match WithDemos(old(site), AGENTS)
        case Err(e) => r == Err(e)
        case Ok(next) => site == next && r == Ok(AgentIds(site))
    {
      var agents: seq<UserId> := [];
      for i := 0 to |AGENTS|
        invariant WithDemos(old(site), AGENTS) == WithDemos(site, AGENTS[i..])
        invariant |agents| == i
        invariant forall j | 0 <= j < i :: LiveUser(site, AGENTS[j].name) && agents[j] == site.users[AGENTS[j].name].id
      {
        assert AGENTS[i..][0] == AGENTS[i] && AGENTS[i..][1..] == AGENTS[i + 1..];
        var found := FindOrCreate(AGENTS[i]);
        match found {
          case Err(e) => return Err(e);
          case Ok(id) => agents := agents + [id];
        }
      }
      assert agents == AgentIds(site);
      r := Ok(agents);
    }

    method CreateListings(count: nat, agents: seq<UserId>) returns (created: nat)
      requires agents != []
      modifies this
      ensures site == old(site).(rows := Seeded(gen, old(site).rows, agents, count))
      ensures created == |site.rows| - |old(site).rows|
    {
      hide HasTitle, Drawn;
      var rng := new Random(gen, SEED);
      created := 0;
      for index := 1 to count + 1
        invariant rng.gen == gen && rng.state == StateAfter(gen, index - 1)
        invariant site == old(site).(rows := Seeded(gen, old(site).rows, agents, index - 1))
        invariant created == |site.rows| - |old(site).rows|
      {
        var agent := agents[(index - 1) % |agents|];
        assert RowOf(gen, agents, index) == SeedRow(DetailsOf(gen, index), agent);
        var added := CreateListing(index, agent, rng);
        if added {
          created := created + 1;
        }
      }
    }

    /** The whole command is one transaction: whatever is raised leaves the site as it was. */
    method Handle(count: int, flush: bool) returns (r: Result<nat, SeedError>)
      modifies this
      ensures match Handled(gen, old(site), count, flush)
        case Err(e) => r == Err(e) && site == old(site)
        case Ok(done) => site == done && r == Ok(|site.rows| - if flush then 0 else |old(site).rows|)
    {
      hide AGENTS, ADMIN, AgentIds, Seeded;
      if count < 1 {
        return Err(CountTooSmall);
      }
      var before := site;
      if flush {
        site := Flushed(site);
      }
      var admin := FindOrCreate(ADMIN);
      if admin.Err? {
        site := before;
        return Err(admin.error);
      }
      var made := CreateAgents();
      if made.Err? {
        site := before;
        return Err(made.error);
      }
      var created := CreateListings(count, made.value);
      r := Ok(created);
    }
  }
}
