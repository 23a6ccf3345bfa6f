/** The raw place fetcher: a paginated text search capped at three requests
    that never fails, only stops early. The provider is abstracted as the
    outcome of the n-th request, `pages(n)`; the query text, the continuation
    token's use in the next URL and the two-second wait are not modelled. */
module Fetch {
  import opened Options
  import opened Places

  /** At most this many page requests are made. */
  const MaxPages: nat := 3

  /** What one page request yields: a thrown error (network failure, non-2xx
      reply) or a response body with its `status`, `results` and
      `next_page_token`. */
  datatype PageOutcome =
    | RequestFailed
    | Page(status: string, results: Option<seq<RawPlace>>, nextPageToken: Option<string>)

  /** The status is one the loop accepts. */
  predicate Accepted(p: PageOutcome) {
    p.Page? && (p.status == "OK" || p.status == "ZERO_RESULTS")
  }

  /** The loop goes on after this page (if the cap allows). */
  predicate HasNext(p: PageOutcome) {
    Accepted(p) && Present(p.nextPageToken)
  }

  /** The candidates a page contributes. */
  function Gained(p: PageOutcome): seq<RawPlace> {
    if Accepted(p) && p.results.Some? then p.results.value else []
  }

  /** The number of requests made from request `i` on. */
  function RequestsFrom(pages: nat -> PageOutcome, i: nat): nat
    requires i < MaxPages
    decreases MaxPages - i
  {
    if HasNext(pages(i)) && i + 1 < MaxPages then 1 + RequestsFrom(pages, i + 1) else 1
  }

  /** The candidates collected from request `i` on. */
  function CollectFrom(pages: nat -> PageOutcome, i: nat): seq<RawPlace>
    requires i < MaxPages
    decreases MaxPages - i
  {
    Gained(pages(i))
      + if HasNext(pages(i)) && i + 1 < MaxPages then CollectFrom(pages, i + 1) else []
  }

  /** How many page requests `fetchAllPlaces` makes. */
  function Requests(pages: nat -> PageOutcome): nat {
    RequestsFrom(pages, 0)
  }

  /** What `fetchAllPlaces` returns. */
  function FetchAllPlaces(pages: nat -> PageOutcome): (r: seq<RawPlace>)
    ensures StopsAfter(pages, Requests(pages))
    ensures r == Gathered(pages, Requests(pages))
  {
    RequestsFromStops(pages, 0);
    CollectFromGathered(pages, 0);
    CollectFrom(pages, 0)
  }

  /** The candidates of the first `n` responses, concatenated in order. */
  function Gathered(pages: nat -> PageOutcome, n: nat): seq<RawPlace> {
    if n == 0 then [] else Gathered(pages, n - 1) + Gained(pages(n - 1))
  }

  /** The loop stops right after request `n`: every earlier response let it
      go on, and either the cap is reached or the `n`-th response stops it
      (failure, unaccepted status or no continuation token). */
  predicate StopsAfter(pages: nat -> PageOutcome, n: nat) {
    && 1 <= n <= MaxPages
    && (forall i :: 0 <= i < n - 1 ==> HasNext(pages(i)))
    && (n < MaxPages ==> !HasNext(pages(n - 1)))
  }

  /** Only one request count can satisfy the stopping rule. */
  lemma StopsAfterUnique(pages: nat -> PageOutcome, n: nat, m: nat)
    requires StopsAfter(pages, n) && StopsAfter(pages, m)
    ensures n == m
  {
  }

  /** From request `i` on, the requests made follow the stopping rule. */
  lemma {:induction false} RequestsFromStops(pages: nat -> PageOutcome, i: nat)
    requires i < MaxPages
    requires forall j :: 0 <= j < i ==> HasNext(pages(j))
    ensures StopsAfter(pages, i + RequestsFrom(pages, i))
    decreases MaxPages - i
  {
    if HasNext(pages(i)) && i + 1 < MaxPages {
      assert forall j :: 0 <= j < i + 1 ==> HasNext(pages(j));
      RequestsFromStops(pages, i + 1);
      assert RequestsFrom(pages, i) == 1 + RequestsFrom(pages, i + 1);
    } else {
      assert RequestsFrom(pages, i) == 1;
    }
  }

  /** From request `i` on, the results collected are those of the requests
      made, appended in order. */
  lemma {:induction false} CollectFromGathered(pages: nat -> PageOutcome, i: nat)
    requires i < MaxPages
    ensures Gathered(pages, i) + CollectFrom(pages, i) == Gathered(pages, i + RequestsFrom(pages, i))
    decreases MaxPages - i
  {
    var before := Gathered(pages, i);
    assert Gathered(pages, i + 1) == before + Gained(pages(i));
    if HasNext(pages(i)) && i + 1 < MaxPages {
      CollectFromGathered(pages, i + 1);
      var later := CollectFrom(pages, i + 1);
      var n := (i + 1) + RequestsFrom(pages, i + 1);
      assert i + RequestsFrom(pages, i) == n;
      assert Gathered(pages, i + 1) + later == Gathered(pages, n);
      assert CollectFrom(pages, i) == Gained(pages(i)) + later;
      assert before + (Gained(pages(i)) + later) == (before + Gained(pages(i))) + later;
    } else {
      assert RequestsFrom(pages, i) == 1;
      assert CollectFrom(pages, i) == Gained(pages(i)) + [];
    }
  }

  /** The `for` loop of `fetchAllPlaces`, request by request. */
  method FetchAllPlacesLoop(pages: nat -> PageOutcome) returns (places: seq<RawPlace>, requests: nat)
    ensures StopsAfter(pages, requests)
    ensures places == Gathered(pages, requests)
    ensures requests == Requests(pages) && places == FetchAllPlaces(pages)
  {
    places := [];
    requests := 0;
    var i := 0;
    while i < MaxPages
      invariant 0 <= i <= MaxPages
      invariant requests == i
      invariant places == Gathered(pages, i)
      invariant forall j :: 0 <= j < i ==> HasNext(pages(j))
    {
      var page := pages(i);
      requests := requests + 1;
      if page.RequestFailed? {
        break;
      }
      if !Accepted(page) {
        break;
      }
      if page.results.Some? {
        places := places + page.results.value;
      }
      if !Present(page.nextPageToken) {
        break;
      }
      i := i + 1;
    }
    StopsAfterUnique(pages, requests, Requests(pages));
  }
}
