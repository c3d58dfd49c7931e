/**
 * The read-only spot handlers: the paginated listing of all spots, the
 * listing of the caller's own spots, and one spot's details, each decorated
 * with the average star rating of the spot's reviews.
 */
module SpotQueries {
  import opened Wrappers
  import opened Domain
  import opened Ratings
  import opened Pagination

  /** A spot as a listing shows it: its row without images, its rating and a preview URL. */
  datatype SpotSummary = SpotSummary(
    id: SpotId, ownerId: UserId, listing: Listing,
    avgRating: Option<real>, previewImage: string)

  datatype SpotsResponse =
    | InvalidQuery(message: string, errors: map<string, string>)
    | SpotPage(spots: seq<SpotSummary>, page: int, size: int)
  {
    function Status(): int { if InvalidQuery? then 400 else 200 }
  }

  datatype DetailsResponse =
    | DetailsNotFound
    | Details(spot: Spot, numReviews: nat, avgStarRating: Option<real>)
  {
    function Status(): int { if DetailsNotFound? then 404 else 200 }
    function Message(): string requires DetailsNotFound? { SpotNotFoundMessage }
  }

  /** The rows `LIMIT limit OFFSET offset` selects: up to `limit` spots from position `offset` on. */
  function Window(spots: seq<Spot>, limit: nat, offset: nat): (w: seq<Spot>)
    ensures |w| <= limit
    ensures forall i | 0 <= i < |w| :: offset + i < |spots| && w[i] == spots[offset + i]
    ensures |w| == limit || offset + |w| >= |spots|
  {
    if offset >= |spots| then []
    else if offset + limit <= |spots| then spots[offset..offset + limit]
    else spots[offset..]
  }

  /** A spot in the all-spots listing: previewed by its first image. */
  function ListedSpot(spot: Spot, reviews: seq<Review>): (s: SpotSummary)
    ensures s.id == spot.id && s.ownerId == spot.ownerId && s.listing == spot.listing
    ensures s.avgRating.None? <==> forall i | 0 <= i < |reviews| :: reviews[i].spotId != spot.id
    ensures s.avgRating.Some? ==>
      s.avgRating.value == StarTotal(ReviewsOf(reviews, spot.id)) as real / |ReviewsOf(reviews, spot.id)| as real
    ensures |spot.images| == 0 ==> s.previewImage == NoPreview
    ensures |spot.images| > 0 ==> s.previewImage == spot.images[0].url
  {
    SpotSummary(spot.id, spot.ownerId, spot.listing, SpotRating(reviews, spot.id), PreviewImage(spot.images))
  }

  /** A spot in its owner's listing: previewed by its first image flagged `preview`. */
  function OwnedSpot(spot: Spot, reviews: seq<Review>): (s: SpotSummary)
    ensures s.id == spot.id && s.ownerId == spot.ownerId && s.listing == spot.listing
    ensures s.avgRating.None? <==> forall i | 0 <= i < |reviews| :: reviews[i].spotId != spot.id
    ensures s.avgRating.Some? ==>
      s.avgRating.value == StarTotal(ReviewsOf(reviews, spot.id)) as real / |ReviewsOf(reviews, spot.id)| as real
    ensures (forall i | 0 <= i < |spot.images| :: !spot.images[i].preview) ==> s.previewImage == NoPreview
    ensures (exists i | 0 <= i < |spot.images| :: spot.images[i].preview) ==>
      exists i | 0 <= i < |spot.images| :: spot.images[i].preview && s.previewImage == spot.images[i].url
  {
    SpotSummary(spot.id, spot.ownerId, spot.listing, SpotRating(reviews, spot.id), FlaggedPreviewImage(spot.images))
  }

  /** `Spot.findAll({ where: { ownerId } })`: the caller's spots, in storage order. */
  function SpotsOwnedBy(spots: seq<Spot>, userId: UserId): (r: seq<Spot>)
    ensures |r| <= |spots|
    ensures forall s :: s in r <==> s in spots && s.ownerId == userId
  {
    if |spots| == 0 then []
    else (if spots[0].ownerId == userId then [spots[0]] else []) + SpotsOwnedBy(spots[1..], userId)
  }

  /**
   * A spot stored after the others comes last among its owner's spots and is
   * absent from everyone else's; with `SpotsOwnedBy([], u) == []` this fixes the
   * owner's listing to one entry per owned spot, in storage order.
   */
  lemma {:induction false} SpotsOwnedByAppend(spots: seq<Spot>, s: Spot, userId: UserId)
    ensures SpotsOwnedBy(spots + [s], userId) == SpotsOwnedBy(spots, userId) + (if s.ownerId == userId then [s] else [])
  {
    if |spots| > 0 {
      assert (spots + [s])[1..] == spots[1..] + [s];
      SpotsOwnedByAppend(spots[1..], s, userId);
    } else {
      assert SpotsOwnedBy([s], userId) == (if s.ownerId == userId then [s] else []) + SpotsOwnedBy([], userId);
    }
  }

  /**
   * GET all spots: validate the page query, then build one summary per spot of
   * the selected window, pushed one at a time.
   */
  method ListSpots(spots: seq<Spot>, reviews: seq<Review>, page: Option<int>, size: Option<int>)
    returns (r: SpotsResponse)
    ensures r.InvalidQuery? <==> !PageInRange(PageOrDefault(page)) || !SizeInRange(SizeOrDefault(size))
    ensures r.InvalidQuery? ==>
      r.message == BadRequestMessage && r.errors != map[] && r.errors.Keys <= {"page", "size"}
    ensures r.InvalidQuery? ==>
      && ("page" in r.errors <==> !PageInRange(PageOrDefault(page)))
      && ("size" in r.errors <==> !SizeInRange(SizeOrDefault(size)))
    ensures r.InvalidQuery? && "page" in r.errors ==> r.errors["page"] == PageMessage
    ensures r.InvalidQuery? && "size" in r.errors ==> r.errors["size"] == SizeMessage
    ensures r.SpotPage? ==>
      && r.page == PageOrDefault(page) && r.size == SizeOrDefault(size)
      && PageInRange(r.page) && SizeInRange(r.size)
      && var w := Window(spots, r.size, (r.page - 1) * r.size);
         |r.spots| == |w| && forall i | 0 <= i < |w| :: r.spots[i] == ListedSpot(w[i], reviews)
  {
    var q := Paginate(page, size);
    if q.BadRequest? {
      return InvalidQuery(BadRequestMessage, q.errors);
    }
    var w := Window(spots, q.limit, q.offset);
    var out: seq<SpotSummary> := [];
    for k := 0 to |w|
      invariant |out| == k
      invariant forall j | 0 <= j < k :: out[j] == ListedSpot(w[j], reviews)
    {
      var spot := w[k];
      var avg := RateSpot(reviews, spot.id);
      var preview := if |spot.images| > 0 then spot.images[0].url else NoPreview;
      out := out + [SpotSummary(spot.id, spot.ownerId, spot.listing, avg, preview)];
    }
    r := SpotPage(out, q.page, q.size);
  }

  /** GET the current user's spots: one summary per spot they own, in order. */
  method ListOwnedSpots(spots: seq<Spot>, reviews: seq<Review>, userId: UserId)
    returns (summaries: seq<SpotSummary>)
    ensures |summaries| == |SpotsOwnedBy(spots, userId)|
    ensures forall i | 0 <= i < |summaries| ::
      summaries[i] == OwnedSpot(SpotsOwnedBy(spots, userId)[i], reviews) && summaries[i].ownerId == userId
  {
    var owned := SpotsOwnedBy(spots, userId);
    summaries := [];
    for k := 0 to |owned|
      invariant |summaries| == k
      invariant forall j | 0 <= j < k :: summaries[j] == OwnedSpot(owned[j], reviews) && summaries[j].ownerId == userId
    {
      var spot := owned[k];
      assert spot in spots;
      var avg := RateSpot(reviews, spot.id);
      summaries := summaries + [SpotSummary(spot.id, spot.ownerId, spot.listing, avg, FlaggedPreviewImage(spot.images))];
    }
  }

  /**
   * GET one spot's details: 404 for a missing spot, otherwise the spot with the
   * number of its reviews and their average, the reviews counted one at a time.
   */
  method SpotDetails(spots: seq<Spot>, reviews: seq<Review>, spotId: SpotId) returns (r: DetailsResponse)
    ensures r.DetailsNotFound? <==> !HasSpot(spots, spotId)
    ensures r.Details? ==>
      && r.spot in spots && r.spot.id == spotId
      && r.numReviews == |ReviewsOf(reviews, spotId)|
      && r.avgStarRating == SpotRating(reviews, spotId)
    ensures r.Details? ==> (r.avgStarRating.None? <==> r.numReviews == 0)
  {
    var found := SpotIndex(spots, spotId);
    if found.None? {
      return DetailsNotFound;
    }
    var ratings := ReviewsOf(reviews, spotId);
    var sum, numOfReviews := TallyStars(ratings);
    var avg := AverageRating(sum, numOfReviews);
    assert avg == SpotRating(reviews, spotId);
    r := Details(spots[found.value], numOfReviews, avg);
  }
}
