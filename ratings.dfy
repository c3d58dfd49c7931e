/**
 * Per-spot rating aggregation: the star sum and review count taken over a
 * spot's reviews, the average `sum / count` (undefined when there are no
 * reviews), and the preview image shown beside a spot in a listing.
 */
module Ratings {
  import opened Wrappers
  import opened Domain

  const NoPreview := "No preview available yet"

  /** `Review.findAll({ where: { spotId } })`: the reviews of one spot, in storage order. */
  function ReviewsOf(reviews: seq<Review>, spotId: SpotId): (r: seq<Review>)
    ensures |r| <= |reviews|
    ensures forall x :: x in r <==> x in reviews && x.spotId == spotId
  {
    if |reviews| == 0 then []
    else (if reviews[0].spotId == spotId then [reviews[0]] else []) + ReviewsOf(reviews[1..], spotId)
  }

  /** The sum of the stars of `ratings`. */
  function StarTotal(ratings: seq<Review>): int {
    if |ratings| == 0 then 0 else StarTotal(ratings[..|ratings| - 1]) + ratings[|ratings| - 1].stars
  }

  /** Every rating is a whole number of stars from 1 to 5, as review validation admits. */
  predicate StarsInRange(ratings: seq<Review>) {
    forall i | 0 <= i < |ratings| :: 1 <= ratings[i].stars <= 5
  }

  /** The loop over a spot's ratings that adds up `stars` and counts the reviews. */
  method TallyStars(ratings: seq<Review>) returns (sum: int, count: nat)
    ensures sum == StarTotal(ratings) && count == |ratings|
  {
    sum, count := 0, 0;
    for k := 0 to |ratings|
      invariant sum == StarTotal(ratings[..k]) && count == k
    {
      assert ratings[..k + 1][..k] == ratings[..k];
      sum := sum + ratings[k].stars;
      count := count + 1;
    }
    assert ratings[..|ratings|] == ratings;
  }

  /**
   * The average `sum / count`. JavaScript's 0 / 0 is NaN, modelled as None; the
   * quotient is exact (a rational), where the handler produces a float.
   */
  function AverageRating(sum: int, count: nat): (avg: Option<real>)
    ensures avg.None? <==> count == 0
    ensures avg.Some? ==> avg.value * count as real == sum as real
  {
    if count == 0 then None else Some(sum as real / count as real)
  }

  /**
   * The average star rating of one spot over the current review set: undefined
   * exactly when no review names the spot, otherwise its star total shared out
   * over its reviews.
   */
  function SpotRating(reviews: seq<Review>, spotId: SpotId): (avg: Option<real>)
    ensures avg.None? <==> forall i | 0 <= i < |reviews| :: reviews[i].spotId != spotId
    ensures avg.Some? ==>
      avg.value == StarTotal(ReviewsOf(reviews, spotId)) as real / |ReviewsOf(reviews, spotId)| as real
  {
    var ratings := ReviewsOf(reviews, spotId);
    NoReviewsOfIffUnreviewed(reviews, spotId);
    AverageRating(StarTotal(ratings), |ratings|)
  }

  /** A spot's review query comes back empty exactly when no review names the spot. */
  lemma NoReviewsOfIffUnreviewed(reviews: seq<Review>, spotId: SpotId)
    ensures |ReviewsOf(reviews, spotId)| == 0 <==> forall i | 0 <= i < |reviews| :: reviews[i].spotId != spotId
  {
    var ratings := ReviewsOf(reviews, spotId);
    if |ratings| > 0 {
      assert ratings[0] in reviews;
    }
    forall i | 0 <= i < |reviews| && reviews[i].spotId == spotId ensures |ratings| > 0 {
      assert reviews[i] in ratings;
    }
  }

  /** The rating step of a listing: query the spot's reviews, add up their stars, divide. */
  method RateSpot(reviews: seq<Review>, spotId: SpotId) returns (avg: Option<real>)
    ensures avg == SpotRating(reviews, spotId)
    ensures avg.None? <==> forall i | 0 <= i < |reviews| :: reviews[i].spotId != spotId
  {
    var ratings := ReviewsOf(reviews, spotId);
    var sum, count := TallyStars(ratings);
    avg := AverageRating(sum, count);
  }

  /** Between one and five stars per review puts the sum between `count` and `5 * count`. */
  lemma {:induction false} StarTotalBounds(ratings: seq<Review>)
    requires StarsInRange(ratings)
    ensures |ratings| <= StarTotal(ratings) <= 5 * |ratings|
  {
    if |ratings| > 0 {
      var init := ratings[..|ratings| - 1];
      assert StarsInRange(init) by {
        forall i | 0 <= i < |init| ensures 1 <= init[i].stars <= 5 {
          assert init[i] == ratings[i];
        }
      }
      StarTotalBounds(init);
    }
  }

  /** A spot with at least one valid review has an average between 1 and 5 stars. */
  lemma AverageWithinStarRange(ratings: seq<Review>)
    requires StarsInRange(ratings) && |ratings| > 0
    ensures AverageRating(StarTotal(ratings), |ratings|).Some?
    ensures 1.0 <= AverageRating(StarTotal(ratings), |ratings|).value <= 5.0
  {
    StarTotalBounds(ratings);
    QuotientBetween(StarTotal(ratings), |ratings|);
  }

  /** Dividing a sum between `n` and `5 * n` by `n` gives a value between 1 and 5. */
  lemma QuotientBetween(sum: int, n: int)
    requires 0 < n <= sum <= 5 * n
    ensures 1.0 <= sum as real / n as real <= 5.0
  {
    var q := sum as real / n as real;
    var m := n as real;
    assert q * m == sum as real;
    if q > 5.0 {
      assert (q - 5.0) * m > 0.0;
    }
  }

  /** A reviewed spot of a table whose stars are all from 1 to 5 is rated from 1 to 5. */
  lemma SpotRatingWithinStarRange(reviews: seq<Review>, spotId: SpotId)
    requires StarsInRange(reviews)
    requires exists i | 0 <= i < |reviews| :: reviews[i].spotId == spotId
    ensures SpotRating(reviews, spotId).Some?
    ensures 1.0 <= SpotRating(reviews, spotId).value <= 5.0
  {
    var ratings := ReviewsOf(reviews, spotId);
    forall k | 0 <= k < |ratings| ensures 1 <= ratings[k].stars <= 5 {
      assert ratings[k] in reviews;
    }
    AverageWithinStarRange(ratings);
  }

  /** One more review adds its stars to the sum and one to the count. */
  lemma StarTotalAppend(ratings: seq<Review>, r: Review)
    ensures StarTotal(ratings + [r]) == StarTotal(ratings) + r.stars
  {
    assert (ratings + [r])[..|ratings|] == ratings;
  }

  /** Appending a review to the table appends it to its own spot's reviews and no other's. */
  lemma {:induction false} ReviewsOfAppend(reviews: seq<Review>, r: Review, spotId: SpotId)
    ensures ReviewsOf(reviews + [r], spotId) == ReviewsOf(reviews, spotId) + (if r.spotId == spotId then [r] else [])
  {
    if |reviews| > 0 {
      assert (reviews + [r])[1..] == reviews[1..] + [r];
      ReviewsOfAppend(reviews[1..], r, spotId);
    } else {
      assert ReviewsOf([r], spotId) == (if r.spotId == spotId then [r] else []) + ReviewsOf([], spotId);
    }
  }

  /** A new review of a spot makes its count one larger and its sum larger by the new stars. */
  lemma NewReviewUpdatesRating(reviews: seq<Review>, r: Review)
    ensures |ReviewsOf(reviews + [r], r.spotId)| == |ReviewsOf(reviews, r.spotId)| + 1
    ensures StarTotal(ReviewsOf(reviews + [r], r.spotId)) == StarTotal(ReviewsOf(reviews, r.spotId)) + r.stars
  {
    ReviewsOfAppend(reviews, r, r.spotId);
    StarTotalAppend(ReviewsOf(reviews, r.spotId), r);
  }

  /** Preview in the all-spots listing: the URL of the spot's first image, or the fallback text without images. */
  function PreviewImage(images: seq<SpotImage>): (url: string)
    ensures |images| == 0 ==> url == NoPreview
    ensures |images| > 0 ==> url == images[0].url
  {
    if |images| > 0 then images[0].url else NoPreview
  }

  /**
   * Preview in the current user's listing: the URL of the first image flagged
   * `preview` (`SpotImage.findOne({ where: { preview: true, spotId } })`), if any.
   */
  function FlaggedPreviewImage(images: seq<SpotImage>): (url: string)
    ensures (forall i | 0 <= i < |images| :: !images[i].preview) ==> url == NoPreview
    ensures (exists i | 0 <= i < |images| :: images[i].preview) ==>
      exists i | 0 <= i < |images| ::
        images[i].preview && url == images[i].url && forall j | 0 <= j < i :: !images[j].preview
  {
    if |images| == 0 then NoPreview
    else if images[0].preview then images[0].url
    else
      var rest := FlaggedPreviewImage(images[1..]);
      assert forall i | 1 <= i < |images| :: images[i] == images[1..][i - 1];
      rest
  }

  /** The two listings show the same preview when the first image is the flagged one. */
  lemma PreviewsAgreeWhenFirstFlagged(images: seq<SpotImage>)
    requires |images| > 0 && images[0].preview
    ensures PreviewImage(images) == FlaggedPreviewImage(images) == images[0].url
  {
  }
}
