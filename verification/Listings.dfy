/** Users, listings and the table of listings (apps/listings/models.py, apps/accounts). */
module Listings {
  import opened Prelude

  type Id = nat
  type UserId = nat

  datatype Role = Agent | Admin
  datatype User = User(id: UserId, superuser: bool, staff: bool, role: Role)

  predicate IsAdmin(user: User) {
    user.superuser || user.staff || user.role == Admin
  }

  datatype ListingType = Rent | Sale | Shortlet

  /** A coordinate counts ten-millionths of a degree. */
  type Coord = int
  datatype Point = Point(lng: Coord, lat: Coord)

  /** What a client describes. Prices count hundredths. */
  datatype Details = Details(
    title: string, price: nat, kind: ListingType, bedrooms: nat, locationName: string, location: Point)

  datatype Listing = Listing(
    details: Details, agent: UserId,
    createdAt: nat, updatedAt: nat, deletedAt: Option<nat>,
    createdBy: Option<UserId>, updatedBy: Option<UserId>, deletedBy: Option<UserId>)

  /** The payload of an update; a field that was not supplied is `None`. */
  datatype Patch = Patch(
    title: Option<string>, price: Option<nat>, kind: Option<ListingType>, bedrooms: Option<nat>,
    locationName: Option<string>, location: Option<Point>, agent: Option<User>)

  function Patched(d: Details, p: Patch): Details {
    Details(p.title.GetOr(d.title), p.price.GetOr(d.price), p.kind.GetOr(d.kind),
            p.bedrooms.GetOr(d.bedrooms), p.locationName.GetOr(d.locationName), p.location.GetOr(d.location))
  }

  type Table = map<Id, Listing>

  /** `Listing.objects`. */
  function LiveIds(db: Table): set<Id> {
    set id | id in db && db[id].deletedAt.None?
  }

  /** `Listing.deleted_objects`. */
  function DeletedIds(db: Table): set<Id> {
    set id | id in db && db[id].deletedAt.Some?
  }

  class ListingTable {
    var rows: Table

    constructor ()
      ensures rows == map[]
    {
      rows := map[];
    }
  }
}
