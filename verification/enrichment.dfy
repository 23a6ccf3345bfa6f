/** The place enricher: the per-candidate task of the route, from a raw
    text-search candidate and the outcomes of the calls it makes to a stored
    row, or to nothing when the candidate is dropped. Every outcome of an
    outbound call (place details, encyclopedia search, nearby lookup, page
    summary, the row insert) is an input; a thrown error is its own
    constructor. */
module Enrichment {
  import opened Options
  import opened Places

  /** Fields of a place-details `result` object; `None` is an absent field.
      Ratings are in tenths of a star; `photoRefs` as in `RawPlace`. */
  datatype Details = Details(
    address: Option<string>,
    businessStatus: Option<string>,
    rating: Option<nat>,
    userRatingsTotal: Option<nat>,
    types: Option<seq<string>>,
    weekdayText: Option<seq<string>>,
    phone: Option<string>,
    website: Option<string>,
    photoRefs: seq<string>)

  /** `{}`: what the task continues with when the response has no `result`. */
  const NoDetails := Details(None, None, None, None, None, None, None, None, [])

  /** The place-details call: it throws, or answers with some status and
      possibly a `result`. */
  datatype DetailOutcome =
    | DetailRequestFailed
    | DetailReply(status: string, result: Option<Details>)

  /** An encyclopedia title lookup (full-text search or nearby search): it
      fails, or lists result titles ("" for an entry without one). */
  datatype TitleLookup = LookupFailed | Titles(titles: seq<string>)

  /** The page-summary call for a title: it fails, or gives an `extract` and
      a `thumbnail.source`. */
  datatype SummaryOutcome =
    | SummaryFailed
    | SummaryPage(extract: Option<string>, thumbnail: Option<string>)

  /** Everything the outside world answers to one candidate's task; `summary`
      gives the answer for whichever title is asked for. */
  datatype Responses = Responses(
    detail: DetailOutcome,
    search: TitleLookup,
    nearby: TitleLookup,
    summary: string -> SummaryOutcome,
    writeFails: bool)

  /** The details the task works with once the call has answered. */
  function DetailsOf(o: DetailOutcome): Details
    requires o.DetailReply?
  {
    o.result.GetOr(NoDetails)
  }

  /** `lookup?.[0]?.title`, with "" for "none". */
  function FirstTitle(l: TitleLookup): string {
    match l
    case LookupFailed => ""
    case Titles(ts) => if |ts| > 0 then ts[0] else ""
  }

  /** The title whose summary is fetched: the search hit if it has one,
      otherwise the nearest page's. */
  function WikiTitle(search: TitleLookup, nearby: TitleLookup): (t: Option<string>)
    ensures t.Some? ==> t.value != ""
    ensures t.Some? <==> FirstTitle(search) != "" || FirstTitle(nearby) != ""
  {
    if FirstTitle(search) != "" then Some(FirstTitle(search))
    else if FirstTitle(nearby) != "" then Some(FirstTitle(nearby))
    else None
  }

  /** The `{description, image}` object of the summary helper. */
  datatype WikiData = WikiData(description: string, image: Option<string>)

  /** The summary of the title, if there is a title and the call succeeds. */
  function WikiLookup(title: Option<string>, summary: string -> SummaryOutcome): (w: Option<WikiData>)
    ensures w.Some? <==> title.Some? && summary(title.value).SummaryPage?
    ensures w.Some? ==> w.value.description == OrElse(summary(title.value).extract, "")
    ensures w.Some? ==> (w.value.image.Some? <==> Present(summary(title.value).thumbnail))
    ensures w.Some? && w.value.image.Some? ==> w.value.image == summary(title.value).thumbnail
  {
    match title
    case None => None
    case Some(t) =>
      match summary(t)
      case SummaryFailed => None
      case SummaryPage(extract, thumbnail) =>
        Some(WikiData(OrElse(extract, ""), if Present(thumbnail) then thumbnail else None))
  }

  /** The fixed-size photo-serving address for a photo reference (the API key
      the route appends is left out). */
  const PhotoEndpoint := "https://maps.googleapis.com/maps/api/place/photo?maxwidth=1024&photoreference="

  function PhotoUrl(ref: string): string {
    PhotoEndpoint + ref
  }

  /** The candidate has an id, a name and coordinates. */
  predicate Essential(c: RawPlace): (b: bool)
    ensures !b <==> || c.NullEntry?
                    || c.placeId == None || c.placeId == Some("")
                    || c.name == None || c.name == Some("")
                    || c.location == None
  {
    c.Candidate? && Present(c.placeId) && Present(c.name) && c.location.Some?
  }

  /** One candidate's task: the row it stores and returns, or `None` when it
      is dropped (the task resolves to `null`). */
  function Enrich(parentId: string, c: RawPlace, rsp: Responses): (r: Option<Row>)
    ensures r.Some? <==>
              && Essential(c)
              && TravelAgency !in c.types
              && rsp.detail.DetailReply?
              && TravelAgency !in DetailsOf(rsp.detail).types.GetOr([])
              && !rsp.writeFails
    ensures r.Some? ==>
              && r.value.spotId == c.placeId.value
              && r.value.name == c.name.value
              && r.value.parentId == parentId
    ensures r.Some? ==> TravelAgency !in r.value.types
    ensures r.Some? ==> r.value.totalUserRating.Some?
    ensures r.Some? && r.value.rating.Some? ==> r.value.rating.value > 0
  {
    if !Essential(c) then None
    else if TravelAgency in c.types then None
    else
      match rsp.detail
      case DetailRequestFailed => None
      case DetailReply(_, result) =>
        var d := result.GetOr(NoDetails);
        if TravelAgency in d.types.GetOr([]) then None
        else
          var ref := if FirstPhotoRef(d.photoRefs) != "" then FirstPhotoRef(d.photoRefs)
                     else FirstPhotoRef(c.photoRefs);
          var wiki := WikiLookup(WikiTitle(rsp.search, rsp.nearby), rsp.summary);
          var photoUrl :=
            if ref != "" then PhotoUrl(ref)
            else if wiki.Some? && wiki.value.image.Some? then wiki.value.image.value
            else "";
          var description := if wiki.Some? then wiki.value.description else "";
          var row := Row(
            c.placeId.value,
            parentId,
            c.name.value,
            description,
            OrElse(d.address, ""),
            OrElse(d.businessStatus, ""),
            if d.rating.Some? && d.rating.value != 0 then d.rating else None,
            d.types.GetOr([]),
            Some(d.userRatingsTotal.GetOr(0)),
            d.weekdayText.GetOr([]),
            OrElse(d.phone, ""),
            OrElse(d.website, ""),
            photoUrl);
          if rsp.writeFails then None else Some(row)
  }

  /** A details reply, whatever its status and even without a `result`, keeps
      the candidate; absent fields take their defaults. */
  lemma DetailFailureKeepsCandidate(parentId: string, c: RawPlace, rsp: Responses, status: string)
    requires Essential(c) && TravelAgency !in c.types && !rsp.writeFails
    requires rsp.detail == DetailReply(status, None)
    ensures var r := Enrich(parentId, c, rsp);
            && r.Some?
            && r.value.address == ""
            && r.value.businessStatus == ""
            && r.value.rating == None
            && r.value.types == []
            && r.value.totalUserRating == Some(0)
            && r.value.timing == []
            && r.value.phone == ""
            && r.value.website == ""
  {
  }

  /** The details status is only logged: it never changes the outcome. */
  lemma DetailStatusIgnored(parentId: string, c: RawPlace, rsp: Responses, other: string)
    requires rsp.detail.DetailReply?
    ensures Enrich(parentId, c, rsp)
            == Enrich(parentId, c, rsp.(detail := DetailReply(other, rsp.detail.result)))
  {
  }

  /** How the stored rating and review count come from the details:
      a rating of 0 becomes null, a missing review count becomes 0. */
  lemma RatingDefaults(parentId: string, c: RawPlace, rsp: Responses)
    requires Enrich(parentId, c, rsp).Some?
    ensures var r := Enrich(parentId, c, rsp).value;
            var d := DetailsOf(rsp.detail);
            && (r.rating.None? <==> d.rating.None? || d.rating == Some(0))
            && (r.rating.Some? ==> r.rating == d.rating)
            && (d.userRatingsTotal.None? ==> r.totalUserRating == Some(0))
            && (d.userRatingsTotal.Some? ==> r.totalUserRating == d.userRatingsTotal)
  {
  }

  /** The stored row copies the details' address, business status, types,
      opening hours, phone and website, each falling back to "" or `[]` only
      when the details lack it. */
  lemma DetailFieldDefaults(parentId: string, c: RawPlace, rsp: Responses)
    requires Enrich(parentId, c, rsp).Some?
    ensures var r := Enrich(parentId, c, rsp).value;
            var d := DetailsOf(rsp.detail);
            && r.address == OrElse(d.address, "")
            && r.businessStatus == OrElse(d.businessStatus, "")
            && r.types == d.types.GetOr([])
            && r.timing == d.weekdayText.GetOr([])
            && r.phone == OrElse(d.phone, "")
            && r.website == OrElse(d.website, "")
  {
  }

  /** The photo fallback chain: the details photo, then the candidate's own
      photo, then the encyclopedia thumbnail, else "". */
  lemma PhotoFallback(parentId: string, c: RawPlace, rsp: Responses)
    requires Enrich(parentId, c, rsp).Some?
    ensures var r := Enrich(parentId, c, rsp).value;
            var detailRef := FirstPhotoRef(DetailsOf(rsp.detail).photoRefs);
            var rawRef := FirstPhotoRef(c.photoRefs);
            var wiki := WikiLookup(WikiTitle(rsp.search, rsp.nearby), rsp.summary);
            && (detailRef != "" ==> r.photoUrl == PhotoUrl(detailRef))
            && (detailRef == "" && rawRef != "" ==> r.photoUrl == PhotoUrl(rawRef))
            && (detailRef == "" && rawRef == "" ==>
                  r.photoUrl == if wiki.Some? && wiki.value.image.Some? then wiki.value.image.value else "")
  {
  }

  /** The description is the summary extract of the resolved title, or "" when
      there is no title, the summary call fails or it has no extract. */
  lemma DescriptionFallback(parentId: string, c: RawPlace, rsp: Responses)
    requires Enrich(parentId, c, rsp).Some?
    ensures var r := Enrich(parentId, c, rsp).value;
            var title := WikiTitle(rsp.search, rsp.nearby);
            && (title.None? ==> r.description == "")
            && (title.Some? && rsp.summary(title.value).SummaryFailed? ==> r.description == "")
            && (title.Some? && rsp.summary(title.value).SummaryPage? ==>
                  r.description == OrElse(rsp.summary(title.value).extract, ""))
  {
  }

  /** The title chain: the page summarised is the search hit's when the
      search gives a title, otherwise the nearest page's; its extract becomes
      the description and its thumbnail the last-resort photo. */
  lemma TitleChain(parentId: string, c: RawPlace, rsp: Responses)
    requires Enrich(parentId, c, rsp).Some?
    ensures var r := Enrich(parentId, c, rsp).value;
            var hit := FirstTitle(rsp.search);
            var near := FirstTitle(rsp.nearby);
            var noRef := FirstPhotoRef(DetailsOf(rsp.detail).photoRefs) == "" && FirstPhotoRef(c.photoRefs) == "";
            && (hit != "" && rsp.summary(hit).SummaryPage? ==>
                  && r.description == OrElse(rsp.summary(hit).extract, "")
                  && (noRef ==> r.photoUrl == OrElse(rsp.summary(hit).thumbnail, "")))
            && (hit == "" && near != "" && rsp.summary(near).SummaryPage? ==>
                  && r.description == OrElse(rsp.summary(near).extract, "")
                  && (noRef ==> r.photoUrl == OrElse(rsp.summary(near).thumbnail, "")))
            && (hit != "" && rsp.summary(hit).SummaryFailed? ==> r.description == "")
            && (hit == "" && near != "" && rsp.summary(near).SummaryFailed? ==> r.description == "")
            && (hit == "" && near == "" ==> r.description == "" && (noRef ==> r.photoUrl == ""))
  {
  }

  /** The nearby lookup only matters when the search gave no title. */
  lemma NearbyOnlyWithoutSearchHit(parentId: string, c: RawPlace, rsp: Responses, nearby: TitleLookup)
    requires FirstTitle(rsp.search) != ""
    ensures Enrich(parentId, c, rsp) == Enrich(parentId, c, rsp.(nearby := nearby))
  {
  }

  /** With no title at all, the summary call is not made. */
  lemma SummaryOnlyWithTitle(parentId: string, c: RawPlace, rsp: Responses,
                             summary: string -> SummaryOutcome)
    requires WikiTitle(rsp.search, rsp.nearby).None?
    ensures Enrich(parentId, c, rsp) == Enrich(parentId, c, rsp.(summary := summary))
  {
  }

  /** A candidate that the raw checks drop never reaches the details call:
      its outcome does not depend on any response. */
  lemma RawChecksNeedNoCalls(parentId: string, c: RawPlace, rsp: Responses, other: Responses)
    requires !Essential(c) || TravelAgency in c.types
    ensures Enrich(parentId, c, rsp) == Enrich(parentId, c, other) == None
  {
  }

  /** All tasks, candidate `k` answered by `responses(k)` (the route runs
      them concurrently; they share nothing, so in order here). */
  function EnrichAll(parentId: string, raws: seq<RawPlace>, responses: nat -> Responses): (r: seq<Option<Row>>)
    ensures |r| == |raws|
    ensures forall k :: 0 <= k < |raws| ==> r[k] == Enrich(parentId, raws[k], responses(k))
  {
    seq(|raws|, k requires 0 <= k < |raws| => Enrich(parentId, raws[k], responses(k)))
  }

  /** The cleaned results: the rows of the tasks that did not drop, in
      candidate order. */
  function Cleaned(parentId: string, raws: seq<RawPlace>, responses: nat -> Responses): (r: seq<Row>)
    ensures |r| <= |raws|
    ensures forall row :: row in r <==>
              exists k :: 0 <= k < |raws| && Enrich(parentId, raws[k], responses(k)) == Some(row)
    ensures forall row :: row in r ==> row.parentId == parentId && TravelAgency !in row.types
  {
    var all := EnrichAll(parentId, raws, responses);
    assert forall row :: Some(row) in all <==>
              exists k :: 0 <= k < |raws| && Enrich(parentId, raws[k], responses(k)) == Some(row) by {
      forall row
        ensures Some(row) in all ==>
                  exists k :: 0 <= k < |raws| && Enrich(parentId, raws[k], responses(k)) == Some(row)
      {
        if Some(row) in all {
          var k :| 0 <= k < |all| && all[k] == Some(row);
          assert Enrich(parentId, raws[k], responses(k)) == Some(row);
        }
      }
    }
    DropNulls(all)
  }

  /** The responses of the candidates that follow the first `n`. */
  function ShiftBy(responses: nat -> Responses, n: nat): nat -> Responses {
    (k: nat) => responses(n + k)
  }

  /** The tasks of a split candidate list are the tasks of its two parts. */
  lemma EnrichAllAppend(parentId: string, a: seq<RawPlace>, b: seq<RawPlace>, responses: nat -> Responses)
    ensures EnrichAll(parentId, a + b, responses)
            == EnrichAll(parentId, a, responses) + EnrichAll(parentId, b, ShiftBy(responses, |a|))
  {
    var whole := EnrichAll(parentId, a + b, responses);
    var front := EnrichAll(parentId, a, responses);
    var back := EnrichAll(parentId, b, ShiftBy(responses, |a|));
    var parts := front + back;
    assert |whole| == |parts|;
    forall k | 0 <= k < |whole|
      ensures whole[k] == parts[k]
    {
      assert whole[k] == Enrich(parentId, (a + b)[k], responses(k));
      if k < |a| {
        assert (a + b)[k] == a[k];
        assert parts[k] == front[k];
      } else {
        assert (a + b)[k] == b[k - |a|];
        assert ShiftBy(responses, |a|)(k - |a|) == responses(k);
        assert parts[k] == back[k - |a|];
      }
    }
  }

  /** The cleaned results of a split candidate list are those of its parts,
      concatenated: candidate order is kept. */
  lemma CleanedAppend(parentId: string, a: seq<RawPlace>, b: seq<RawPlace>, responses: nat -> Responses)
    ensures Cleaned(parentId, a + b, responses)
            == Cleaned(parentId, a, responses) + Cleaned(parentId, b, ShiftBy(responses, |a|))
  {
    EnrichAllAppend(parentId, a, b, responses);
    DropNullsAppend(EnrichAll(parentId, a, responses), EnrichAll(parentId, b, ShiftBy(responses, |a|)));
  }

  /** A single candidate contributes its row once, or nothing. */
  lemma CleanedSingle(parentId: string, c: RawPlace, responses: nat -> Responses)
    ensures Cleaned(parentId, [c], responses)
            == match Enrich(parentId, c, responses(0)) case None => [] case Some(row) => [row]
  {
    assert EnrichAll(parentId, [c], responses) == [Enrich(parentId, c, responses(0))];
  }

  /** The responses of the remaining candidates once candidate `j` is removed. */
  function SkipAt(responses: nat -> Responses, j: nat): nat -> Responses {
    (k: nat) => responses(SkipIndex(j, k))
  }

  /** The original position of the `k`-th remaining candidate. */
  function SkipIndex(j: nat, k: nat): (i: nat)
    ensures k < j ==> i == k
    ensures k >= j ==> i == k + 1
  {
    if k < j then k else k + 1
  }

  /** Removing candidate `j` (with its responses) removes exactly its task. */
  lemma EnrichAllWithout(parentId: string, raws: seq<RawPlace>, responses: nat -> Responses, j: nat)
    requires j < |raws|
    ensures var all := EnrichAll(parentId, raws, responses);
            EnrichAll(parentId, raws[..j] + raws[j + 1..], SkipAt(responses, j))
            == all[..j] + all[j + 1..]
  {
    var all := EnrichAll(parentId, raws, responses);
    var fewer := raws[..j] + raws[j + 1..];
    var skip := SkipAt(responses, j);
    var rest := EnrichAll(parentId, fewer, skip);
    var both := all[..j] + all[j + 1..];
    assert |rest| == |both|;
    forall k | 0 <= k < |rest|
      ensures rest[k] == both[k]
    {
      if k < j {
        assert fewer[k] == raws[k];
        assert skip(k) == responses(SkipIndex(j, k));
        assert both[k] == all[k];
      } else {
        assert fewer[k] == raws[k + 1];
        assert skip(k) == responses(SkipIndex(j, k));
        assert both[k] == all[k + 1];
      }
    }
  }

  /** Failure isolation: a candidate whose task drops (missing fields, a
      travel agency, a thrown call, a failed insert) leaves the cleaned
      results exactly as if it had never been fetched. */
  lemma DroppedCandidateIsolated(parentId: string, raws: seq<RawPlace>,
                                 responses: nat -> Responses, j: nat)
    requires j < |raws|
    requires Enrich(parentId, raws[j], responses(j)).None?
    ensures Cleaned(parentId, raws, responses)
            == Cleaned(parentId, raws[..j] + raws[j + 1..], SkipAt(responses, j))
  {
    var all := EnrichAll(parentId, raws, responses);
    EnrichAllWithout(parentId, raws, responses, j);
    DropNullsSkipNull(all, j);
  }
}
