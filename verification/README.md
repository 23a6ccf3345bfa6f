# Destination results pipeline: a Dafny model

This project models the core of the travel guide backend: the
`buildExploreDestinationResult` route of `backend/routes/explore.js`. Given a
destination id and a city name, the route does the following:

- It answers from the store when the destination is cached.
- Otherwise it records the destination and runs a paginated text search (at
  most three pages).
- It enriches every candidate with a place-details call and a best-effort
  encyclopedia lookup, and stores each enriched place with insert-if-absent.
- It drops the candidates that failed and returns the rest ranked by a
  four-key stable sort.

Every outcome of an outside call is an input value: store queries and
inserts, text-search pages, place details, encyclopedia search, nearby
lookup and page summary. The model is a set of pure functions over
immutable datatypes.

Modules:

- `Options`: optional values and the JavaScript truthiness tests the route
  applies (`x || ""`, `!x`). Also the order-preserving null filter.
- `Places`: raw candidates, stored rows and returned listings.
- `Ranking`: the comparator and the stable insertion sort that ranks
  listings.
- `Fetch`: the paginated fetch. It is written both as a recursive function
  and as the route's request-by-request loop, and the two are proved equal.
- `Enrichment`: the per-candidate task and the fan-out over all candidates.
- `Store`: the destination map, the place table with its keyed view,
  insert-if-absent, and the cache gate.
- `Explore`: the route handler. It covers validation, the cache guard, the
  hit and miss paths and failures.

Behaviour worth noting:

- A place insert that rejects (line 217) throws inside the task's `try`, so
  the candidate is dropped from the response even though its details were
  fetched.
- The cache guard is the template string `` `${USE_CACHE}` ``. Every scalar
  configuration value renders to a non-empty string except the empty string
  itself. So `false`, `null` and a missing key all leave the cache on. The
  model renders the value and tests the string
  (`Explore.CacheGuard`).
- The cached read does not select `address`, but a fresh listing carries it.
  So `Listing.address` is `None` on the cache path.

## Model

| member | source | states |
|---|---|---|
| `Options.DropNulls` | backend/routes/explore.js:264 | the cleaned list holds exactly the values of the non-null task results, and is no longer than the task list |
| `Options.DropNullsAppend` | backend/routes/explore.js:264 | the null filter distributes over concatenation, so surviving results keep their relative order |
| `Options.DropNullsSkipNull` | backend/routes/explore.js:264 | removing a null task result leaves the cleaned list unchanged |
| `Ranking.NullRanksLast` | backend/routes/explore.js:270-275 | a null review count or rating counts as -1, so any real value ranks above it when the earlier keys tie |
| `Ranking.Compare` | backend/routes/explore.js:266-288 | the comparator is negative exactly when the first listing is ahead in the lexicographic order (reviews desc, rating desc, has phone, has website), zero exactly when all four keys agree, positive exactly when the second is ahead |
| `Ranking.Insert` | backend/routes/explore.js:266-288 | inserting into a sorted list keeps it sorted and adds exactly the one element |
| `Ranking.Rank` | backend/routes/explore.js:266-288 | the ranked list is sorted by the comparator and is a permutation of the cleaned list |
| `Ranking.RankStable` | backend/routes/explore.js:287 | for every full key, the listings with that key leave in the order they came in |
| `Ranking.RankIsTheStableSort` | backend/routes/explore.js:266-288 | any sequence that is sorted by the comparator and stable for the input equals the ranker's output |
| `Ranking.SortedStableUnique` | backend/routes/explore.js:266-288 | two sorted sequences that agree, key by key, on their listings in order are equal |
| `Ranking.RankOfSorted` | backend/routes/explore.js:266-288 | an input already in comparator order comes back unchanged |
| `Ranking.RankIdempotent` | backend/routes/explore.js:266-288 | ranking a ranked list changes nothing |
| `Ranking.InsertWithKey` | backend/routes/explore.js:266-288 | an inserted listing comes before every listing of its own key and leaves other keys' listings unchanged |
| `Ranking.ReviewCountDominatesRating` | backend/routes/explore.js:269-275 | 100 reviews at 4.5 stars rank before 50 reviews at 4.8 stars, from either input order |
| `Ranking.PhoneBeatsWebsite` | backend/routes/explore.js:277-285 | at equal reviews and rating, a listing with only a phone ranks before one with only a website |
| `Ranking.TiesKeepInputOrder` | backend/routes/explore.js:287 | two listings equal on all four keys keep their input order |
| `Fetch.FetchAllPlaces` | backend/routes/explore.js:43-77 | the fetched candidates are the accepted pages' results, in order, for the number of requests the stopping rule fixes |
| `Fetch.FetchAllPlacesLoop` | backend/routes/explore.js:47-74 | the route's loop, with its three breaks, satisfies the same stopping rule and result, and agrees with the functional definition |
| `Fetch.StopsAfterUnique` | backend/routes/explore.js:47-74 | the stopping rule determines the number of requests uniquely |
| `Enrichment.Enrich` | backend/routes/explore.js:139-258 | a candidate yields a row exactly when it has id, name and coordinates, is no travel agency by raw or detail types, the details call did not throw and the insert did not reject; the row carries the candidate's id and name, the parent id, no travel-agency type, a review count, and no zero rating |
| `Enrichment.DetailFailureKeepsCandidate` | backend/routes/explore.js:166-171 | a details reply without a result keeps the candidate, with address "", business status "", null rating, no types, 0 reviews, no opening hours, no phone and no website |
| `Enrichment.DetailStatusIgnored` | backend/routes/explore.js:166-170 | the details status only gets logged: changing it never changes the outcome |
| `Enrichment.RatingDefaults` | backend/routes/explore.js:207-209 | a zero or missing rating is stored as null and any other rating is kept; a missing review count becomes 0 |
| `Enrichment.DetailFieldDefaults` | backend/routes/explore.js:205-212 | a kept row copies the details' address, business status, types, opening hours, phone and website, each defaulting to "" or an empty list only when the details lack it |
| `Enrichment.PhotoFallback` | backend/routes/explore.js:179-196 | the photo is the details photo, else the candidate's own photo, else the encyclopedia thumbnail, else "" |
| `Enrichment.DescriptionFallback` | backend/routes/explore.js:184-197 | the description is the summary extract of the resolved title, and "" when there is no title, the summary fails or has no extract |
| `Enrichment.WikiTitle` | backend/routes/explore.js:184-193 | a title is chosen exactly when the search or the nearby lookup gives a non-empty one, and the chosen title is never empty |
| `Enrichment.WikiLookup` | backend/routes/explore.js:19-31 | the summary exists exactly when there is a title and its summary call succeeds; its description is the extract or "", and its image is the thumbnail exactly when that is a non-empty string |
| `Enrichment.TitleChain` | backend/routes/explore.js:184-197 | the summarised page is the search hit's when there is one, otherwise the nearest page's; its extract becomes the description and its thumbnail the last-resort photo; a failed summary or no title at all leaves the description "" |
| `Enrichment.NearbyOnlyWithoutSearchHit` | backend/routes/explore.js:191-193 | when the search gives a title, the nearby lookup's answer cannot affect the outcome |
| `Enrichment.SummaryOnlyWithTitle` | backend/routes/explore.js:195 | with no title from either lookup, the summary's answer cannot affect the outcome |
| `Enrichment.RawChecksNeedNoCalls` | backend/routes/explore.js:141-151 | a candidate without essentials or with a raw travel-agency type is dropped whatever any provider answers |
| `Enrichment.Essential` | backend/routes/explore.js:141 | a candidate is skipped exactly when it is null, or its id or name is missing or empty, or it has no coordinates |
| `Enrichment.EnrichAll` | backend/routes/explore.js:138-139 | one task per candidate, candidate k's result computed from its own raw data and its own responses only |
| `Enrichment.Cleaned` | backend/routes/explore.js:138-264 | a row is cleaned exactly when some candidate's task produced it; each belongs to the requested destination and is no travel agency (order and multiplicity: `Enrichment.CleanedAppend`, `Enrichment.CleanedSingle`) |
| `Enrichment.EnrichAllAppend` | backend/routes/explore.js:138-139 | the tasks of a split candidate list are the tasks of its two parts, the second part answered by the responses that follow the first |
| `Enrichment.CleanedAppend` | backend/routes/explore.js:264 | the cleaned results of a split candidate list are those of the parts, concatenated, so candidate order is kept |
| `Enrichment.CleanedSingle` | backend/routes/explore.js:264 | a single candidate contributes its row exactly once when its task keeps it, and nothing otherwise |
| `Enrichment.DroppedCandidateIsolated` | backend/routes/explore.js:254-264 | removing a dropped candidate (with its responses) leaves the cleaned results unchanged |
| `Enrichment.EnrichAllWithout` | backend/routes/explore.js:138-139 | removing one candidate removes exactly its task result and shifts the rest |
| `Store.InsertParent` | backend/routes/explore.js:133 | the destination id is present afterwards, existing destinations keep their names, and a new one gets the city name |
| `Store.InsertChild` | backend/routes/explore.js:217-223 | the keyed place view gains the row only when its spot id is new, existing rows are untouched and spot ids stay unique |
| `Store.InsertAll` | backend/routes/explore.js:217-239 | writing the cleaned rows only appends, keeps spot ids unique and adds nothing but those rows |
| `Store.InsertAllKeys` | backend/routes/explore.js:217-223 | after the writes every existing spot id keeps its row and every written row's id is stored |
| `Store.InsertAllNewIds` | backend/routes/explore.js:217-223 | an id the writes added maps to one of the written rows |
| `Store.ChildMapPrefix` | backend/routes/explore.js:223 | appending rows never changes an entry the keyed view already holds |
| `Store.ChildMapContents` | backend/routes/explore.js:223 | the keyed view holds exactly the table's spot ids, each mapped to a table row with that id |
| `Store.ParentWriteIdempotent` | backend/routes/explore.js:133 | a second destination write for the same id changes nothing, whatever its name |
| `Store.ChildWriteFirstWins` | backend/routes/explore.js:223 | a second place write for the same spot id changes nothing, whatever its content |
| `Store.InsertAllStored` | backend/routes/explore.js:223 | writing rows whose spot ids are all stored leaves the table unchanged |
| `Store.InsertAllIdempotent` | backend/routes/explore.js:217-223 | repeating a batch of place writes is a no-op |
| `Store.CachedRows` | backend/routes/explore.js:108-111 | a row is selected exactly when it belongs to this destination and its types do not contain travel_agency (order and multiplicity: `Store.CachedRowsAppend`, `Store.CachedRowsSingle`) |
| `Store.CachedRowsAppend` | backend/routes/explore.js:108-111 | the cached read distributes over concatenation, so selected rows keep table order and multiplicity |
| `Store.CachedRowsSingle` | backend/routes/explore.js:110-111 | a single row is selected once when it belongs to the destination and is no travel agency, and not at all otherwise |
| `Store.CacheHit` | backend/routes/explore.js:121 | the cache answers exactly when the destination row exists and at least one of its place rows is no travel agency |
| `Places.FreshListing` | backend/routes/explore.js:242-253 | the returned object carries the stored row's spot id, name, description, address, rating, types, review count, phone, website and photo |
| `Places.CachedListing` | backend/routes/explore.js:97-106 | a cached listing is the fresh listing of the same row without the address, which the read does not select |
| `Explore.CacheGuard` | backend/routes/explore.js:92 | the guard holds exactly when the configuration value is not the empty string |
| `Explore.WellFormed` | backend/routes/explore.js:84 | a request is refused exactly when the destination id or the city name is missing or empty |
| `Explore.CachedResult` | backend/routes/explore.js:96-123 | the cached answer is sorted by the ranking keys, is a permutation of the selected rows' listings, one per row, and keeps table order among full ties |
| `Explore.FreshResult` | backend/routes/explore.js:264-290 | the fresh answer is sorted by the ranking keys, is a permutation of the cleaned rows' listings, one per row, and keeps cleaned order among full ties (the sort is stable) |
| `Explore.Handle` | backend/routes/explore.js:79-297 | 400 exactly when the id or city is missing or empty, with the store untouched; 500 exactly when an enabled cache read fails, or a request not answered from the cache meets a failed destination insert, with the store untouched; data is always sorted and free of travel agencies; the store only grows, gains at most the requested destination, stored under the request's city name, and rows of that destination, never changes existing destinations or rows, and keeps integrity (unique ids, existing parent) |
| `Explore.CacheHitMakesNoCalls` | backend/routes/explore.js:121-125 | on a cache hit the answer is the ranked cached rows, the store is unchanged, and no provider answer affects the reply |
| `Explore.MissBuildsFreshResult` | backend/routes/explore.js:131-293 | on a miss the destinations gain exactly the requested id, a new destination is stored under the request's city name, the new place rows are cleaned rows only, every cleaned row's id is stored, new ids get the fresh rows, and the answer is the cleaned rows ranked |
| `Explore.MissThenHit` | backend/routes/explore.js:121 | after a miss that stored a row under a new spot id, the same destination is a cache hit |
| `Explore.City42Ranked` | backend/routes/explore.js:108-121 | destination city-42 with two stored places is a hit and its answer puts the more-reviewed place first |
| `Explore.CachedCityScenario` | backend/routes/explore.js:92-125 | the city-42 request is answered from the store even with the cache flag set to false |
| `Explore.MissingIdScenario` | backend/routes/explore.js:84-86 | a request with a city name but no destination id gets 400 and touches nothing |

## Left out

- Express routing, the `res.status(...).json(...)` plumbing and the server bootstrap in `backend/index.js`: transport only.
- The single-place lookup route (lines 302-329): a one-row query passed through.
- The route's own connection pool (lines 10-15), `backend/db.js` and the SQL text. Only their meaning is kept: the filter, insert-if-absent, and ordering by the comparator's keys.
- Tie order on the cache path. The database gives no order among rows tied on all four ORDER BY keys. The model breaks ties by table insertion order, which is one of the orders the database may return.
- Outbound HTTP calls, URL building, `encodeURIComponent` and the API key. Each call is an input outcome. `Enrichment.PhotoUrl` keeps the photo endpoint and reference but not the `&key=` suffix.
- The text-search query and the continuation token's use in the next URL. Page outcomes are given per request number.
- The 2000 ms wait between pages: timing only.
- `Promise.all` concurrency. The tasks share nothing except insert-if-absent, so they are modelled in candidate order. When two candidates share a spot id, the model stores the earlier one. The program stores whichever insert lands first.
- Floating-point ratings. Ratings are whole tenths of a star.
- Coordinates. They only feed the nearby lookup, whose answer is an input.
- Exceptions the code does not anticipate are not modelled. Example: a raw `types` value without an `includes` method (a number, a boolean, a plain object) throws at line 148, outside the task's `try`. That rejects `Promise.all` and gives a 500. That 500 comes after the destination insert (line 133) and possibly after sibling tasks' place inserts, so in the program it can leave the store changed. `Explore.Handle`'s "a 500 leaves the store untouched" holds only for the two 500s it models: a failed cache read and a failed destination insert. Throws inside a task are the `DetailRequestFailed` outcome or a rejected insert.
- Non-array `types` values. A string `types` does not throw: `includes` then tests for a substring. The model takes `types` as a list of strings and tests list membership.
- Array and object configuration values for the cache flag. Only JSON scalars are modelled.
- Console logging.
