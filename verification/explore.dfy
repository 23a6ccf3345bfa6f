/** The build-destination-result route: request validation, the cache gate,
    and on a miss the destination write, the paginated fetch, the enrichment
    tasks, the null filter and the ranking. The outcome of every store query
    and outbound call is part of the `World` the request meets. */
module Explore {
  import opened Options
  import opened Places
  import opened Ranking
  import opened Fetch
  import opened Enrichment
  import opened Store

  /** A scalar configuration value, as `USE_CACHE` may hold. */
  datatype ConfigValue = Absent | Null | Bool(b: bool) | Number(n: int) | Text(s: string)

  function DigitChar(d: nat): char
    requires d < 10
  {
    "0123456789"[d]
  }

  /** Decimal digits of a natural number. */
  function Digits(n: nat): (r: string)
    ensures |r| > 0
  {
    if n < 10 then [DigitChar(n)] else Digits(n / 10) + [DigitChar(n % 10)]
  }

  /** The string a template literal `${v}` produces. */
  function Render(v: ConfigValue): string {
    match v
    case Absent => "undefined"
    case Null => "null"
    case Bool(b) => if b then "true" else "false"
    case Number(n) => if n < 0 then "-" + Digits(-n) else Digits(n)
    case Text(s) => s
  }

  /** The route's cache guard: the rendered template string is truthy. */
  predicate CacheGuard(v: ConfigValue): (b: bool)
    ensures b <==> v != Text("")
  {
    Render(v) != ""
  }

  /** The request body fields. */
  datatype Request = Request(cityName: Option<string>, placeId: Option<string>)

  /** A 400, a 500 with no data, or `{data: [...]}`. */
  datatype Response = BadRequest | ServerError | Data(items: seq<Listing>)

  /** How the store and the providers answer this request: whether either
      cache read rejects, whether the destination insert rejects, the
      text-search pages, and the answers to the task of candidate `k`. */
  datatype World = World(
    readFails: bool,
    parentWriteFails: bool,
    pages: nat -> PageOutcome,
    responses: nat -> Responses)

  /** The response together with the store it leaves behind. */
  datatype Reply = Reply(response: Response, store: Store)

  /** The listing of each row under `view`, one per row, in row order. */
  function ListingsOf(rows: seq<Row>, view: Row -> Listing): (r: seq<Listing>)
    ensures |r| == |rows|
    ensures forall i :: 0 <= i < |rows| ==> r[i] == view(rows[i])
  {
    seq(|rows|, i requires 0 <= i < |rows| => view(rows[i]))
  }

  /** Membership in the listings is membership of some row's view. */
  lemma ListingsOfMembers(rows: seq<Row>, view: Row -> Listing)
    ensures forall l :: l in ListingsOf(rows, view) <==> exists x :: x in rows && l == view(x)
  {
    var listings := ListingsOf(rows, view);
    forall l | l in listings
      ensures exists x :: x in rows && l == view(x)
    {
      var i :| 0 <= i < |listings| && listings[i] == l;
      assert rows[i] in rows;
    }
    forall x | x in rows
      ensures view(x) in listings
    {
      var i :| 0 <= i < |rows| && rows[i] == x;
      assert listings[i] == view(x);
    }
  }

  /** A ranked list has the same members as what was ranked. */
  lemma RankMembers(s: seq<Listing>)
    ensures forall l :: l in Rank(s) <==> l in s
  {
    forall l
      ensures l in Rank(s) <==> l in s
    {
      assert l in Rank(s) <==> l in multiset(Rank(s));
      assert l in s <==> l in multiset(s);
    }
  }

  /** Every full key's listings leave the ranking in the order they came in. */
  lemma RankStableAll(s: seq<Listing>)
    ensures forall k :: WithKey(Rank(s), k) == WithKey(s, k)
  {
    forall k
      ensures WithKey(Rank(s), k) == WithKey(s, k)
    {
      RankStable(s, k);
    }
  }

  /** The cached answer: the destination's selected rows, each once, ordered
      like the read's ORDER BY (ties in table order). */
  function CachedResult(s: Store, parentId: string): (r: seq<Listing>)
    ensures Sorted(r)
    ensures multiset(r) == multiset(ListingsOf(CachedRows(s.children, parentId), CachedListing))
    ensures forall k :: WithKey(r, k) == WithKey(ListingsOf(CachedRows(s.children, parentId), CachedListing), k)
    ensures forall l :: l in r <==>
              exists x :: x in s.children && x.parentId == parentId && TravelAgency !in x.types
                          && l == CachedListing(x)
  {
    var rows := CachedRows(s.children, parentId);
    var listings := ListingsOf(rows, CachedListing);
    RankMembers(listings);
    ListingsOfMembers(rows, CachedListing);
    RankStableAll(listings);
    Rank(listings)
  }

  /** The freshly built answer: the cleaned rows' listings, each once, ranked. */
  function FreshResult(rows: seq<Row>): (r: seq<Listing>)
    ensures Sorted(r)
    ensures multiset(r) == multiset(ListingsOf(rows, FreshListing))
    ensures forall k :: WithKey(r, k) == WithKey(ListingsOf(rows, FreshListing), k)
    ensures forall l :: l in r <==> exists x :: x in rows && l == FreshListing(x)
  {
    var listings := ListingsOf(rows, FreshListing);
    RankMembers(listings);
    ListingsOfMembers(rows, FreshListing);
    RankStableAll(listings);
    Rank(listings)
  }

  /** Both request fields are truthy. */
  predicate WellFormed(req: Request): (b: bool)
    ensures !b <==> || req.placeId == None || req.placeId == Some("")
                    || req.cityName == None || req.cityName == Some("")
  {
    Present(req.placeId) && Present(req.cityName)
  }

  /** The cache branch answers this request from the store. */
  predicate AnsweredFromCache(useCache: ConfigValue, s: Store, w: World, parentId: string) {
    CacheGuard(useCache) && !w.readFails && CacheHit(s, parentId)
  }

  /** The request goes through the fetch-and-enrich path. */
  predicate Refetches(useCache: ConfigValue, s: Store, w: World, parentId: string) {
    !(CacheGuard(useCache) && w.readFails) && !AnsweredFromCache(useCache, s, w, parentId)
    && !w.parentWriteFails
  }

  /** The route handler. */
  function Handle(useCache: ConfigValue, req: Request, s: Store, w: World): (r: Reply)
    ensures !WellFormed(req) ==> r == Reply(BadRequest, s)
    ensures WellFormed(req) ==> r.response != BadRequest
    ensures r.response == ServerError <==>
              && WellFormed(req)
              && (|| (CacheGuard(useCache) && w.readFails)
                  || (!AnsweredFromCache(useCache, s, w, req.placeId.value) && w.parentWriteFails))
    ensures !r.response.Data? ==> r.store == s
    ensures r.response.Data? ==> Sorted(r.response.items)
    ensures r.response.Data? ==>
              forall l :: l in r.response.items ==> TravelAgency !in l.types
    ensures s.children <= r.store.children
    ensures forall id :: id in s.parents ==> id in r.store.parents && r.store.parents[id] == s.parents[id]
    ensures WellFormed(req) ==> r.store.parents.Keys <= s.parents.Keys + {req.placeId.value}
    ensures WellFormed(req) ==>
              forall id :: id in r.store.parents && id !in s.parents ==> r.store.parents[id] == req.cityName.value
    ensures WellFormed(req) ==>
              forall x :: x in r.store.children ==> x in s.children || x.parentId == req.placeId.value
    ensures Valid(s) ==> Valid(r.store)
  {
    if !WellFormed(req) then Reply(BadRequest, s)
    else
      var parentId, cityName := req.placeId.value, req.cityName.value;
      if CacheGuard(useCache) && w.readFails then Reply(ServerError, s)
      else if CacheGuard(useCache) && CacheHit(s, parentId) then
        Reply(Data(CachedResult(s, parentId)), s)
      else if w.parentWriteFails then Reply(ServerError, s)
      else
        var parents := InsertParent(s.parents, parentId, cityName);
        var rows := Cleaned(parentId, FetchAllPlaces(w.pages), w.responses);
        var children := InsertAll(s.children, rows);
        assert Valid(s) ==> Valid(Store(parents, children)) by {
          if Valid(s) {
            forall i | 0 <= i < |children|
              ensures children[i].parentId in parents
            {
              assert children[i] in children;
              if children[i] in s.children {
                var j :| 0 <= j < |s.children| && s.children[j] == children[i];
              }
            }
          }
        }
        Reply(Data(FreshResult(rows)), Store(parents, children))
  }

  /** A cache hit answers with the stored rows alone: the same reply whatever
      the providers would have said, and the store is left as it was. */
  lemma CacheHitMakesNoCalls(useCache: ConfigValue, req: Request, s: Store, w: World, other: World)
    requires WellFormed(req) && AnsweredFromCache(useCache, s, w, req.placeId.value)
    requires !other.readFails
    ensures Handle(useCache, req, s, w) == Reply(Data(CachedResult(s, req.placeId.value)), s)
    ensures Handle(useCache, req, s, other) == Handle(useCache, req, s, w)
  {
  }

  /** A miss writes the destination under the request's city name, stores
      every cleaned row whose spot id is new, and answers with exactly the
      cleaned rows, ranked. */
  lemma MissBuildsFreshResult(useCache: ConfigValue, req: Request, s: Store, w: World)
    requires WellFormed(req) && Refetches(useCache, s, w, req.placeId.value)
    ensures var parentId := req.placeId.value;
            var rows := Cleaned(parentId, FetchAllPlaces(w.pages), w.responses);
            var r := Handle(useCache, req, s, w);
            && r.response == Data(FreshResult(rows))
            && r.store.parents.Keys == s.parents.Keys + {parentId}
            && (parentId !in s.parents ==> r.store.parents[parentId] == req.cityName.value)
            && (forall x :: x in r.store.children ==> x in s.children || x in rows)
            && (forall x :: x in rows ==> x.spotId in ChildMap(r.store.children))
            && (forall x :: x in rows && x.spotId !in ChildMap(s.children) ==>
                  ChildMap(r.store.children)[x.spotId] in rows)
  {
    var parentId := req.placeId.value;
    var rows := Cleaned(parentId, FetchAllPlaces(w.pages), w.responses);
    var u := InsertAll(s.children, rows);
    assert Handle(useCache, req, s, w)
           == Reply(Data(FreshResult(rows)), Store(InsertParent(s.parents, parentId, req.cityName.value), u));
    InsertAllKeys(s.children, rows);
    InsertAllNewIds(s.children, rows);
  }

  /** After a miss that stored a row under a new spot id, the same request
      is a cache hit (as long as the store can be read). */
  lemma MissThenHit(useCache: ConfigValue, req: Request, s: Store, w: World, x: Row)
    requires WellFormed(req) && Refetches(useCache, s, w, req.placeId.value)
    requires x in Cleaned(req.placeId.value, FetchAllPlaces(w.pages), w.responses)
    requires x.spotId !in ChildMap(s.children)
    ensures CacheHit(Handle(useCache, req, s, w).store, req.placeId.value)
  {
    var parentId := req.placeId.value;
    var rows := Cleaned(parentId, FetchAllPlaces(w.pages), w.responses);
    var u := InsertAll(s.children, rows);
    MissBuildsFreshResult(useCache, req, s, w);
    ChildMapContents(u);
    var y := ChildMap(u)[x.spotId];
    assert y in rows && y in u;
    assert y in CachedRows(u, parentId);
  }

  /** Two stored places of destination "city-42"; the lake has more reviews. */
  const Fort := Row("a", "city-42", "Fort", "", "", "", Some(41), [], Some(10), [], "", "", "")
  const Lake := Row("b", "city-42", "Lake", "", "", "", Some(47), [], Some(90), [], "", "", "")
  const City42 := Store(map["city-42" := "Springfield"], [Fort, Lake])

  /** The cached read of "city-42" selects both places, in table order. */
  lemma City42Rows()
    ensures CachedRows(City42.children, "city-42") == [Fort, Lake]
  {
    CachedRowsAppend([Fort], [Lake], "city-42");
    CachedRowsSingle(Fort, "city-42");
    CachedRowsSingle(Lake, "city-42");
    assert [Fort] + [Lake] == City42.children;
  }

  /** Ranking the two places puts the lake, with more reviews, first. */
  lemma City42Order()
    ensures Rank([CachedListing(Fort), CachedListing(Lake)]) == [CachedListing(Lake), CachedListing(Fort)]
  {
    assert [CachedListing(Fort), CachedListing(Lake)][1..] == [CachedListing(Lake)];
  }

  lemma City42Ranked()
    ensures CacheHit(City42, "city-42")
    ensures CachedResult(City42, "city-42") == [CachedListing(Lake), CachedListing(Fort)]
  {
    City42Rows();
    City42Order();
    assert ListingsOf([Fort, Lake], CachedListing) == [CachedListing(Fort), CachedListing(Lake)];
  }

  /** Scenario: destination "city-42" with two stored places is a hit, and
      the answer is those two places ranked by review count, whatever the
      providers would say (the cache flag set to `false` does not matter). */
  lemma CachedCityScenario(w: World)
    requires !w.readFails
    ensures Handle(Bool(false), Request(Some("Springfield"), Some("city-42")), City42, w)
            == Reply(Data([CachedListing(Lake), CachedListing(Fort)]), City42)
  {
    City42Ranked();
    CacheHitMakesNoCalls(Bool(false), Request(Some("Springfield"), Some("city-42")), City42, w, w);
  }

  /** Scenario: a city name without a destination id is refused with a 400
      and touches nothing. */
  lemma MissingIdScenario(useCache: ConfigValue, s: Store, w: World)
    ensures Handle(useCache, Request(Some("Paris"), None), s, w) == Reply(BadRequest, s)
  {
  }
}
