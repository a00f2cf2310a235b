/** The cross-field checks of the serializers in front of the service (apps/listings/serializers.py). */
module Requests {
  import opened Prelude
  import opened Listings
  import opened Query
  import opened Service

  datatype FieldError = LatMissing | LngMissing | RadiusNeedsCentre | MaxBelowMin | CoordinatesTogether

  // ----- search parameters -----

  /** What the single fields guarantee before the cross-field check. */
  predicate SearchFieldsOk(attrs: Filters) {
    && (attrs.ordering.Some? ==> attrs.ordering.value in ["distance", "newest", "price_asc", "price_desc"])
    && (attrs.radius.Some? ==> attrs.radius.value >= 10)
  }

  function SearchProblem(attrs: Filters): Option<FieldError> {
    if attrs.lat.None? != attrs.lng.None? then Some(if attrs.lat.Some? then LngMissing else LatMissing)
    else if attrs.lat.None? && attrs.radius.Some? then Some(RadiusNeedsCentre)
    else if attrs.minPrice.Some? && attrs.maxPrice.Some? && attrs.minPrice.value > attrs.maxPrice.value then Some(MaxBelowMin)
    else None
  }

  function Validated(attrs: Filters): Filters {
    attrs.(hasGeo := Some(attrs.lat.Some?))
  }

  class ListingSearchQuerySerializer {
    var attrs: Filters

    constructor (attrs: Filters)
      ensures this.attrs == attrs
    {
      this.attrs := attrs;
    }

    method Validate() returns (problem: Option<FieldError>)
      modifies this
      ensures problem == SearchProblem(old(attrs))
      ensures attrs == if problem.None? then old(attrs).(hasGeo := Some(old(attrs).lat.Some?)) else old(attrs)
    {
      if attrs.lat.None? != attrs.lng.None? {
        return Some(if attrs.lat.Some? then LngMissing else LatMissing);
      }
      if attrs.lat.None? && attrs.radius.Some? {
        return Some(RadiusNeedsCentre);
      }
      if attrs.minPrice.Some? && attrs.maxPrice.Some? {
        if attrs.minPrice.value > attrs.maxPrice.value {
          return Some(MaxBelowMin);
        }
      }
      attrs := attrs.(hasGeo := Some(attrs.lat.Some?));
      problem := None;
    }
  }

  /**
   * Validated parameters never fault for a missing coordinate; they hold a radius only with a centre
   * and a price interval that is not reversed, and the one error left is an ordering by distance without a centre.
   */
  lemma ValidatedSearchFaults(attrs: Filters)
    requires SearchFieldsOk(attrs) && SearchProblem(attrs).None?
    ensures var f := Validated(attrs);
      && f == attrs.(hasGeo := Some(attrs.lat.Some?))
      && (HasGeo(f) <==> CentreGiven(f)) && (f.lat.Some? <==> f.lng.Some?)
      && (f.radius.Some? ==> CentreGiven(f) && Radius(f) == f.radius.value)
      && (f.minPrice.Some? && f.maxPrice.Some? ==> f.minPrice.value <= f.maxPrice.value)
      && SearchError(f) == (if f.ordering == Some("distance") && f.lat.None? then Some(DistanceNeedsCentre) else None)
  {
  }

  /** The check refuses nothing else, and names the field that is missing or wrong. */
  lemma SearchAcceptedIff(attrs: Filters)
    ensures SearchProblem(attrs).None? <==>
      && (attrs.lat.Some? <==> attrs.lng.Some?)
      && (attrs.radius.Some? ==> attrs.lat.Some?)
      && (attrs.minPrice.Some? && attrs.maxPrice.Some? ==> attrs.minPrice.value <= attrs.maxPrice.value)
    ensures SearchProblem(attrs) == Some(LngMissing) <==> attrs.lat.Some? && attrs.lng.None?
    ensures SearchProblem(attrs) == Some(LatMissing) <==> attrs.lat.None? && attrs.lng.Some?
    ensures SearchProblem(attrs) == Some(RadiusNeedsCentre) <==> attrs.lat.None? && attrs.lng.None? && attrs.radius.Some?
    ensures SearchProblem(attrs) != Some(CoordinatesTogether)
  {
  }

  // ----- write payloads -----

  /** The declared fields; `fields.location` is filled in by the check. */
  datatype WriteAttrs = WriteAttrs(fields: Patch, latitude: Option<Coord>, longitude: Option<Coord>)

  class ListingWriteSerializer {
    var attrs: WriteAttrs

    constructor (attrs: WriteAttrs)
      ensures this.attrs == attrs
    {
      this.attrs := attrs;
    }

    /** Both coordinates are popped in any case; a point is put in their place when both were there. */
    method Validate() returns (problem: Option<FieldError>)
      modifies this
      ensures problem == if old(attrs).latitude.Some? != old(attrs).longitude.Some? then Some(CoordinatesTogether) else None
      ensures attrs.latitude.None? && attrs.longitude.None?
      ensures attrs.fields == if old(attrs).latitude.Some? && old(attrs).longitude.Some?
        then old(attrs).fields.(location := Some(Point(old(attrs).longitude.value, old(attrs).latitude.value)))
        else old(attrs).fields
    {
      var latitude := attrs.latitude;
      attrs := attrs.(latitude := None);
      var longitude := attrs.longitude;
      attrs := attrs.(longitude := None);
      if latitude.None? && longitude.None? {
        return None;
      }
      if latitude.None? || longitude.None? {
        return Some(CoordinatesTogether);
      }
      attrs := attrs.(fields := attrs.fields.(location := Some(Point(longitude.value, latitude.value))));
      problem := None;
    }

    /**
     * The view's update helper. A full update requires both coordinate fields, so the service never asks
     * it for a location; a payload that is refused here reaches neither table nor cache.
     */
    method PerformUpdate(service: ListingService, id: Id, actor: User, partial: bool, d0: nat, d1: nat, d2: nat)
        returns (r: Result<Result<Listing, Error>, FieldError>)
      requires !partial ==> attrs.latitude.Some? && attrs.longitude.Some?
      requires attrs.fields.location.None?
      modifies this, service.table, service.cache
      ensures r.Err? <==> old(attrs).latitude.Some? != old(attrs).longitude.Some?
      ensures r.Err? ==> service.State() == old(service.State())
      ensures r.Ok? ==>
        (service.State(), r.value) == AfterWrite(old(service.State()), Update(id, attrs.fields, actor, partial), d0, d1, d2)
      ensures r.Ok? ==> r.value != Err(LocationRequired)
      ensures r.Ok? && r.value.Ok? ==>
        (r.value.value.details.location ==
          if old(attrs).latitude.Some? then Point(old(attrs).longitude.value, old(attrs).latitude.value)
          else old(service.table.rows)[id].details.location)
    {
      var problem := Validate();
      if problem.Some? {
        return Err(problem.value);
      }
      var outcome := service.Update(id, attrs.fields, actor, partial, d0, d1, d2);
      r := Ok(outcome);
    }
  }
}
