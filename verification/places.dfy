/** The entities the destination pipeline passes around: raw text-search
    candidates, stored place rows and the listings sent back to the app. */
module Places {
  import opened Options

  /** The provider category that removes a candidate from every result. */
  const TravelAgency := "travel_agency"

  /** Coordinates of a candidate; only their presence matters to the model. */
  datatype LatLng = LatLng(lat: int, lng: int)

  /** One element of a text-search page's `results` array. A `NullEntry` is an
      element that is `null`. `types` is `[]` when the field is absent, and
      `photoRefs` lists each photo's `photo_reference` ("" when it has none). */
  datatype RawPlace =
    | NullEntry
    | Candidate(placeId: Option<string>, name: Option<string>, location: Option<LatLng>,
                types: seq<string>, photoRefs: seq<string>)

  /** `photos?.[0]?.photo_reference`, with "" for "absent". */
  function FirstPhotoRef(refs: seq<string>): string {
    if |refs| > 0 then refs[0] else ""
  }

  /** A row of the place-details table, keyed by `spotId`; `parentId` is the
      destination it was fetched for. Ratings are in tenths of a star. */
  datatype Row = Row(
    spotId: string,
    parentId: string,
    name: string,
    description: string,
    address: string,
    businessStatus: string,
    rating: Option<nat>,
    types: seq<string>,
    totalUserRating: Option<nat>,
    timing: seq<string>,
    phone: string,
    website: string,
    photoUrl: string)

  /** One element of the `data` array returned to the app. The cached read
      does not select the address, so it is `None` there. */
  datatype Listing = Listing(
    placeId: string,
    placeName: string,
    description: string,
    address: Option<string>,
    ratings: Option<nat>,
    types: seq<string>,
    totalUserRating: Option<nat>,
    phone: string,
    website: string,
    photoUrl: string)

  /** The object a freshly enriched candidate resolves to. */
  function FreshListing(r: Row): (l: Listing)
    ensures l.placeId == r.spotId && l.placeName == r.name && l.address == Some(r.address)
    ensures l.ratings == r.rating && l.totalUserRating == r.totalUserRating
    ensures l.phone == r.phone && l.website == r.website && l.types == r.types
    ensures l.description == r.description && l.photoUrl == r.photoUrl
  {
    Listing(r.spotId, r.name, r.description, Some(r.address), r.rating, r.types,
            r.totalUserRating, r.phone, r.website, r.photoUrl)
  }

  /** The columns the cached read selects for a stored row. */
  function CachedListing(r: Row): (l: Listing)
    ensures l == FreshListing(r).(address := None)
  {
    Listing(r.spotId, r.name, r.description, None, r.rating, r.types,
            r.totalUserRating, r.phone, r.website, r.photoUrl)
  }
}
