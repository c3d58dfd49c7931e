/**
 * Creating a review of a spot: body validation (text required, stars a whole
 * number from 1 to 5), then 404 for a missing spot, then a refusal when the
 * caller already reviewed that spot, otherwise one new review.
 */
module ReviewRules {
  import opened Domain
  import Ratings

  const ReviewTextMessage := "Review Text is required"
  const StarsMessage := "Stars must be an integer from 1 to 5"
  const DuplicateMessage := "User already has a review for this spot"

  datatype CreateReviewResponse =
    | Invalid(errors: map<string, string>)
    | ReviewSpotNotFound
    | AlreadyReviewed
    | ReviewCreated(review: Review)
  {
    function Status(): int {
      match this
      case Invalid(_) => 400
      case ReviewSpotNotFound => 404
      case AlreadyReviewed => 500
      case ReviewCreated(_) => 201
    }

    /** The `message` of a refusal by the handler; validation errors carry their own. */
    function Message(): string
      requires ReviewSpotNotFound? || AlreadyReviewed?
    {
      if ReviewSpotNotFound? then SpotNotFoundMessage else DuplicateMessage
    }
  }

  predicate ValidStars(stars: int) { 1 <= stars <= 5 }

  /** The validators of the request body, one error entry per rejected field. */
  function ReviewErrors(text: string, stars: int): (errors: map<string, string>)
    ensures errors.Keys <= {"review", "stars"}
    ensures "review" in errors <==> text == ""
    ensures "stars" in errors <==> !ValidStars(stars)
    ensures "review" in errors ==> errors["review"] == ReviewTextMessage
    ensures "stars" in errors ==> errors["stars"] == StarsMessage
  {
    var textErrors := if text == "" then map["review" := ReviewTextMessage] else map[];
    if ValidStars(stars) then textErrors else textErrors["stars" := StarsMessage]
  }

  /** `userId` has already reviewed the spot `spotId`. */
  predicate HasReviewBy(reviews: seq<Review>, userId: UserId, spotId: SpotId) {
    exists i | 0 <= i < |reviews| :: reviews[i].userId == userId && reviews[i].spotId == spotId
  }

  /** At most one review per user and spot. */
  predicate OneReviewPerUserAndSpot(reviews: seq<Review>) {
    forall i, j | 0 <= i < j < |reviews| ::
      reviews[i].userId != reviews[j].userId || reviews[i].spotId != reviews[j].spotId
  }

  /**
   * `Review.findAll({ where: { userId } })`: the caller's reviews, in storage
   * order. It is the filter of `Ratings.ReviewsOf` on the author instead of the spot.
   */
  function ReviewsBy(reviews: seq<Review>, userId: UserId): (r: seq<Review>)
    ensures |r| <= |reviews|
    ensures forall x :: x in r <==> x in reviews && x.userId == userId
  {
    if |reviews| == 0 then []
    else (if reviews[0].userId == userId then [reviews[0]] else []) + ReviewsBy(reviews[1..], userId)
  }

  /** The loop over the caller's reviews that stops at the first one for this spot. */
  method FindExistingReview(reviews: seq<Review>, userId: UserId, spotId: SpotId) returns (found: bool)
    ensures found <==> HasReviewBy(reviews, userId, spotId)
  {
    var mine := ReviewsBy(reviews, userId);
    for k := 0 to |mine|
      invariant forall j | 0 <= j < k :: mine[j].spotId != spotId
    {
      if mine[k].spotId == spotId {
        assert mine[k] in reviews;
        return true;
      }
    }
    found := false;
    forall i | 0 <= i < |reviews| && reviews[i].userId == userId
      ensures reviews[i].spotId != spotId
    {
      assert reviews[i] in mine;
    }
  }

  /**
   * The create-review handler: validation first, then the spot lookup, then the
   * one-review-per-spot rule; `newId` and `now` stand for the database's key and clock.
   */
  function DecideReview(
    spots: seq<Spot>, reviews: seq<Review>, userId: UserId, spotId: SpotId,
    text: string, stars: int, newId: nat, now: Timestamp): (r: CreateReviewResponse)
    ensures r.Invalid? <==> text == "" || !ValidStars(stars)
    ensures r.Invalid? ==> r.errors == ReviewErrors(text, stars) && r.errors != map[]
    ensures r.ReviewSpotNotFound? <==> text != "" && ValidStars(stars) && !HasSpot(spots, spotId)
    ensures r.AlreadyReviewed? <==>
      text != "" && ValidStars(stars) && HasSpot(spots, spotId) && HasReviewBy(reviews, userId, spotId)
    ensures r.ReviewCreated? ==>
      r.review == Review(newId, spotId, userId, text, stars, now, now) && ValidStars(r.review.stars)
  {
    var errors := ReviewErrors(text, stars);
    if errors != map[] then Invalid(errors)
    else if !HasSpot(spots, spotId) then ReviewSpotNotFound
    else if HasReviewBy(reviews, userId, spotId) then AlreadyReviewed
    else ReviewCreated(Review(newId, spotId, userId, text, stars, now, now))
  }

  /** A created review keeps the table at one review per user and spot. */
  lemma CreationKeepsOneReviewPerUser(
    spots: seq<Spot>, reviews: seq<Review>, userId: UserId, spotId: SpotId,
    text: string, stars: int, newId: nat, now: Timestamp)
    requires OneReviewPerUserAndSpot(reviews)
    requires DecideReview(spots, reviews, userId, spotId, text, stars, newId, now).ReviewCreated?
    ensures OneReviewPerUserAndSpot(reviews + [DecideReview(spots, reviews, userId, spotId, text, stars, newId, now).review])
  {
    var added := reviews + [DecideReview(spots, reviews, userId, spotId, text, stars, newId, now).review];
    forall i, j | 0 <= i < j < |added|
      ensures added[i].userId != added[j].userId || added[i].spotId != added[j].spotId
    {
      if j == |reviews| {
        assert added[i] == reviews[i];
      } else {
        assert added[i] == reviews[i] && added[j] == reviews[j];
      }
    }
  }

  /** A created review keeps every stored rating within 1 to 5 stars. */
  lemma CreationKeepsStarsInRange(
    spots: seq<Spot>, reviews: seq<Review>, userId: UserId, spotId: SpotId,
    text: string, stars: int, newId: nat, now: Timestamp)
    requires Ratings.StarsInRange(reviews)
    requires DecideReview(spots, reviews, userId, spotId, text, stars, newId, now).ReviewCreated?
    ensures Ratings.StarsInRange(reviews + [DecideReview(spots, reviews, userId, spotId, text, stars, newId, now).review])
  {
    var added := reviews + [DecideReview(spots, reviews, userId, spotId, text, stars, newId, now).review];
    forall i | 0 <= i < |added| ensures 1 <= added[i].stars <= 5 {
      if i < |reviews| { assert added[i] == reviews[i]; }
    }
  }

  /**
   * After a review is created, the same author is refused a second one for that
   * spot, while a different author who has not reviewed it may still add theirs.
   */
  lemma SecondReviewRefused(
    spots: seq<Spot>, reviews: seq<Review>, userId: UserId, otherUser: UserId, spotId: SpotId,
    text: string, stars: int, newId: nat, now: Timestamp,
    text2: string, stars2: int, newId2: nat, later: Timestamp)
    requires DecideReview(spots, reviews, userId, spotId, text, stars, newId, now).ReviewCreated?
    requires text2 != "" && ValidStars(stars2)
    requires otherUser != userId && !HasReviewBy(reviews, otherUser, spotId)
    ensures var added := reviews + [DecideReview(spots, reviews, userId, spotId, text, stars, newId, now).review];
      && DecideReview(spots, added, userId, spotId, text2, stars2, newId2, later) == AlreadyReviewed
      && DecideReview(spots, added, otherUser, spotId, text2, stars2, newId2, later).ReviewCreated?
  {
    var added := reviews + [DecideReview(spots, reviews, userId, spotId, text, stars, newId, now).review];
    assert added[|reviews|].userId == userId && added[|reviews|].spotId == spotId;
  }
}
