/**
 * The database behind the spot routes as one object whose tables the
 * state-changing handlers update: creating a spot, the owner-only image, edit
 * and delete handlers, and the create-review and create-booking handlers.
 */
module SpotStore {
  import opened Wrappers
  import opened Domain
  import Access
  import Bookings
  import ReviewRules
  import Ratings

  const DeletedMessage := "Successfully deleted"

  /** The answer of a handler behind the owner-only guard. */
  datatype OwnerOnly<T> =
    | NotFound
    | Forbidden
    | Done(value: T)
  {
    function Status(success: int): int {
      match this
      case NotFound => 404
      case Forbidden => 403
      case Done(_) => success
    }

    /** The `message` of a refusal by the owner guard. */
    function Message(): string
      requires !Done?
    {
      if NotFound? then SpotNotFoundMessage else ForbiddenMessage
    }
  }

  /** The bookings that survive deleting spot `spotId`. */
  function BookingsNotOf(bookings: seq<Booking>, spotId: SpotId): (r: seq<Booking>)
    ensures forall b :: b in r <==> b in bookings && b.spotId != spotId
  {
    if |bookings| == 0 then []
    else (if bookings[0].spotId != spotId then [bookings[0]] else []) + BookingsNotOf(bookings[1..], spotId)
  }

  /** The reviews that survive deleting spot `spotId`. */
  function ReviewsNotOf(reviews: seq<Review>, spotId: SpotId): (r: seq<Review>)
    ensures forall x :: x in r <==> x in reviews && x.spotId != spotId
  {
    if |reviews| == 0 then []
    else (if reviews[0].spotId != spotId then [reviews[0]] else []) + ReviewsNotOf(reviews[1..], spotId)
  }

  /**
   * A booking stored after the others survives the delete of another spot as
   * the last survivor, and is dropped with its own spot; the surviving
   * bookings keep their storage order and appear once each.
   */
  lemma {:induction false} BookingsNotOfAppend(bookings: seq<Booking>, b: Booking, spotId: SpotId)
    ensures BookingsNotOf(bookings + [b], spotId) == BookingsNotOf(bookings, spotId) + (if b.spotId != spotId then [b] else [])
  {
    if |bookings| > 0 {
      assert (bookings + [b])[1..] == bookings[1..] + [b];
      BookingsNotOfAppend(bookings[1..], b, spotId);
    } else {
      assert BookingsNotOf([b], spotId) == (if b.spotId != spotId then [b] else []) + BookingsNotOf([], spotId);
    }
  }

  /** The same for reviews: the surviving reviews keep their storage order and appear once each. */
  lemma {:induction false} ReviewsNotOfAppend(reviews: seq<Review>, x: Review, spotId: SpotId)
    ensures ReviewsNotOf(reviews + [x], spotId) == ReviewsNotOf(reviews, spotId) + (if x.spotId != spotId then [x] else [])
  {
    if |reviews| > 0 {
      assert (reviews + [x])[1..] == reviews[1..] + [x];
      ReviewsNotOfAppend(reviews[1..], x, spotId);
    } else {
      assert ReviewsNotOf([x], spotId) == (if x.spotId != spotId then [x] else []) + ReviewsNotOf([], spotId);
    }
  }

  /** Two reviews are by different users or of different spots. */
  predicate DifferentPair(a: Review, b: Review) {
    a.userId != b.userId || a.spotId != b.spotId
  }

  /** The first review of a table with one review per user and spot pairs with no later one. */
  lemma HeadPairIsUnique(reviews: seq<Review>)
    requires ReviewRules.OneReviewPerUserAndSpot(reviews) && |reviews| > 0
    ensures ReviewRules.OneReviewPerUserAndSpot(reviews[1..])
    ensures forall y | y in reviews[1..] :: DifferentPair(reviews[0], y)
  {
    var rest := reviews[1..];
    forall y | y in rest ensures DifferentPair(reviews[0], y) {
      var k :| 0 <= k < |rest| && rest[k] == y;
      assert reviews[k + 1] == y;
    }
    forall i, j | 0 <= i < j < |rest| ensures DifferentPair(rest[i], rest[j]) {
      assert rest[i] == reviews[i + 1] && rest[j] == reviews[j + 1];
    }
  }

  /** Putting a review in front of a table it pairs with nowhere keeps one review per user and spot. */
  lemma ConsKeepsOnePerUser(x: Review, tail: seq<Review>)
    requires ReviewRules.OneReviewPerUserAndSpot(tail)
    requires forall y | y in tail :: DifferentPair(x, y)
    ensures ReviewRules.OneReviewPerUserAndSpot([x] + tail)
  {
    var r := [x] + tail;
    forall i, j | 0 <= i < j < |r| ensures DifferentPair(r[i], r[j]) {
      assert r[j] == tail[j - 1];
      if i > 0 { assert r[i] == tail[i - 1]; }
      else { assert r[j] in tail; }
    }
  }

  /** Deleting a spot's reviews keeps the table at one review per user and spot. */
  lemma {:induction false} ReviewsNotOfKeepsOnePerUser(reviews: seq<Review>, spotId: SpotId)
    requires ReviewRules.OneReviewPerUserAndSpot(reviews)
    ensures ReviewRules.OneReviewPerUserAndSpot(ReviewsNotOf(reviews, spotId))
  {
    if |reviews| > 0 {
      HeadPairIsUnique(reviews);
      ReviewsNotOfKeepsOnePerUser(reviews[1..], spotId);
      if reviews[0].spotId != spotId {
        ConsKeepsOnePerUser(reviews[0], ReviewsNotOf(reviews[1..], spotId));
      }
    }
  }

  /** A spot with the same key and owner keeps every key lookup and ownership as it was. */
  lemma ReplacingSpotKeepsKeys(spots: seq<Spot>, i: nat, spot: Spot)
    requires i < |spots| && spot.id == spots[i].id
    ensures forall id :: HasSpot(spots[i := spot], id) <==> HasSpot(spots, id)
    ensures UniqueSpotIds(spots) ==> UniqueSpotIds(spots[i := spot])
  {
    forall id | HasSpot(spots, id) ensures HasSpot(spots[i := spot], id) {
      var k :| 0 <= k < |spots| && spots[k].id == id;
      assert spots[i := spot][k].id == id;
    }
  }

  /** Appending a spot keeps every existing key. */
  lemma AppendingSpotKeepsKeys(spots: seq<Spot>, spot: Spot)
    ensures forall id | HasSpot(spots, id) :: HasSpot(spots + [spot], id)
  {
    forall id | HasSpot(spots, id) ensures HasSpot(spots + [spot], id) {
      var k :| 0 <= k < |spots| && spots[k].id == id;
      assert (spots + [spot])[k].id == id;
    }
  }

  /** Removing the spot at position `i` removes its key and keeps every other one. */
  lemma RemovingSpotDropsOnlyItsKey(spots: seq<Spot>, i: nat)
    requires UniqueSpotIds(spots) && i < |spots|
    ensures UniqueSpotIds(spots[..i] + spots[i + 1..])
    ensures forall id :: HasSpot(spots[..i] + spots[i + 1..], id) <==> HasSpot(spots, id) && id != spots[i].id
  {
    var rest := spots[..i] + spots[i + 1..];
    assert forall k | 0 <= k < |rest| :: rest[k] == (if k < i then spots[k] else spots[k + 1]);
    forall id | HasSpot(spots, id) && id != spots[i].id ensures HasSpot(rest, id) {
      var k :| 0 <= k < |spots| && spots[k].id == id;
      assert rest[if k < i then k else k - 1].id == id;
    }
  }

  /** Deleting a spot together with its bookings keeps every foreign key of the bookings. */
  lemma CascadeKeepsForeignKeys(spots: seq<Spot>, users: seq<User>, bookings: seq<Booking>, i: nat)
    requires UniqueSpotIds(spots) && i < |spots| && BookingsReferToRows(spots, users, bookings)
    ensures BookingsReferToRows(spots[..i] + spots[i + 1..], users, BookingsNotOf(bookings, spots[i].id))
  {
    RemovingSpotDropsOnlyItsKey(spots, i);
  }

  /** Deleting a spot's reviews keeps every remaining rating within 1 to 5 stars. */
  lemma CascadeKeepsStarsInRange(reviews: seq<Review>, spotId: SpotId)
    requires Ratings.StarsInRange(reviews)
    ensures Ratings.StarsInRange(ReviewsNotOf(reviews, spotId))
  {
    var rest := ReviewsNotOf(reviews, spotId);
    forall k | 0 <= k < |rest| ensures 1 <= rest[k].stars <= 5 {
      assert rest[k] in reviews;
    }
  }

  /** Every stored image, of any spot, has a key below `bound`. */
  predicate ImageIdsBelow(spots: seq<Spot>, bound: nat) {
    forall i, j | 0 <= i < |spots| && 0 <= j < |spots[i].images| :: spots[i].images[j].id < bound
  }

  /** Adding an image keyed `bound` to one spot keeps every image key below `bound + 1`. */
  lemma AddingImageKeepsImageKeys(spots: seq<Spot>, i: nat, image: SpotImage, bound: nat)
    requires ImageIdsBelow(spots, bound) && i < |spots| && image.id == bound
    ensures ImageIdsBelow(spots[i := spots[i].(images := spots[i].images + [image])], bound + 1)
  {
    var updated := spots[i := spots[i].(images := spots[i].images + [image])];
    forall k, j | 0 <= k < |updated| && 0 <= j < |updated[k].images| ensures updated[k].images[j].id < bound + 1 {
      if k == i && j < |spots[i].images| {
        assert updated[k].images[j] == spots[i].images[j];
      }
    }
  }

  /** Replacing a spot by one with the same images keeps every image key. */
  lemma SameImagesKeepImageKeys(spots: seq<Spot>, i: nat, spot: Spot, bound: nat)
    requires ImageIdsBelow(spots, bound) && i < |spots| && spot.images == spots[i].images
    ensures ImageIdsBelow(spots[i := spot], bound)
  {
    var updated := spots[i := spot];
    forall k, j | 0 <= k < |updated| && 0 <= j < |updated[k].images| ensures updated[k].images[j].id < bound {
      assert updated[k].images == spots[k].images;
    }
  }

  /** Appending a spot without images keeps every image key. */
  lemma NewSpotKeepsImageKeys(spots: seq<Spot>, spot: Spot, bound: nat)
    requires ImageIdsBelow(spots, bound) && spot.images == []
    ensures ImageIdsBelow(spots + [spot], bound)
  {
    var added := spots + [spot];
    forall k, j | 0 <= k < |added| && 0 <= j < |added[k].images| ensures added[k].images[j].id < bound {
      assert added[k] == spots[k];
    }
  }

  /** The invariant of the tables: keys, foreign keys, image keys, one review per user and spot, valid stars. */
  ghost predicate TablesValid(
    spots: seq<Spot>, users: seq<User>, bookings: seq<Booking>, reviews: seq<Review>,
    nextSpotId: SpotId, nextImageId: nat, nextBookingId: nat, nextReviewId: nat)
  {
    && UniqueSpotIds(spots)
    && (forall i | 0 <= i < |spots| :: spots[i].id < nextSpotId)
    && ImageIdsBelow(spots, nextImageId)
    && BookingsReferToRows(spots, users, bookings)
    && (forall b | b in bookings :: b.id < nextBookingId)
    && (forall x | x in reviews :: x.id < nextReviewId)
    && ReviewRules.OneReviewPerUserAndSpot(reviews)
    && Ratings.StarsInRange(reviews)
  }

  /** Deleting the spot at position `i` with its bookings and reviews keeps the invariant. */
  lemma CascadeKeepsTablesValid(
    spots: seq<Spot>, users: seq<User>, bookings: seq<Booking>, reviews: seq<Review>,
    nextSpotId: SpotId, nextImageId: nat, nextBookingId: nat, nextReviewId: nat, i: nat)
    requires TablesValid(spots, users, bookings, reviews, nextSpotId, nextImageId, nextBookingId, nextReviewId)
    requires i < |spots|
    ensures TablesValid(
      spots[..i] + spots[i + 1..], users, BookingsNotOf(bookings, spots[i].id),
      ReviewsNotOf(reviews, spots[i].id), nextSpotId, nextImageId, nextBookingId, nextReviewId)
    ensures !HasSpot(spots[..i] + spots[i + 1..], spots[i].id)
  {
    RemovingSpotDropsOnlyItsKey(spots, i);
    CascadeKeepsForeignKeys(spots, users, bookings, i);
    ReviewsNotOfKeepsOnePerUser(reviews, spots[i].id);
    CascadeKeepsStarsInRange(reviews, spots[i].id);
    var rest := spots[..i] + spots[i + 1..];
    assert forall k | 0 <= k < |rest| :: rest[k] == (if k < i then spots[k] else spots[k + 1]);
  }

  class Store {
    var users: seq<User>
    var spots: seq<Spot>
    var bookings: seq<Booking>
    var reviews: seq<Review>
    var nextSpotId: SpotId
    var nextImageId: nat
    var nextBookingId: nat
    var nextReviewId: nat

    /** The database's keys and foreign keys and the review rules every stored row obeys. */
    ghost predicate Valid()
      reads this
    {
      TablesValid(spots, users, bookings, reviews, nextSpotId, nextImageId, nextBookingId, nextReviewId)
    }

    /** A database holding the registered `users` and nothing else. */
    constructor (users: seq<User>)
      ensures Valid()
      ensures this.users == users && spots == [] && bookings == [] && reviews == []
    {
      this.users := users;
      spots, bookings, reviews := [], [], [];
      nextSpotId, nextImageId, nextBookingId, nextReviewId := 1, 1, 1, 1;
    }

    /** POST a spot: a new spot owned by the caller, with the next key and no images. */
    method CreateSpot(userId: UserId, listing: Listing) returns (spot: Spot)
      requires Valid()
      modifies this
      ensures Valid()
      ensures spot == Spot(old(nextSpotId), userId, listing, []) && !HasSpot(old(spots), spot.id)
      ensures spots == old(spots) + [spot]
      ensures users == old(users) && bookings == old(bookings) && reviews == old(reviews)
      ensures nextSpotId == old(nextSpotId) + 1
      ensures nextImageId == old(nextImageId) && nextBookingId == old(nextBookingId) && nextReviewId == old(nextReviewId)
    {
      spot := Spot(nextSpotId, userId, listing, []);
      AppendingSpotKeepsKeys(spots, spot);
      NewSpotKeepsImageKeys(spots, spot, nextImageId);
      spots := spots + [spot];
      nextSpotId := nextSpotId + 1;
    }

    /** POST an image: only the owner may add one; it goes after the spot's other images. */
    method AddImage(userId: UserId, spotId: SpotId, url: string, preview: bool) returns (r: OwnerOnly<SpotImage>)
      requires Valid()
      modifies this
      ensures Valid()
      ensures r.NotFound? <==> Access.OwnerAccess(old(spots), userId, spotId).SpotMissing?
      ensures r.Forbidden? <==> Access.OwnerAccess(old(spots), userId, spotId).NotOwner?
      ensures r.Done? ==>
        var i := Access.OwnerAccess(old(spots), userId, spotId).index;
        r.value == SpotImage(old(nextImageId), url, preview) &&
        spots == old(spots)[i := old(spots)[i].(images := old(spots)[i].images + [r.value])]
      ensures r.Done? ==>
        forall k, j | 0 <= k < |old(spots)| && 0 <= j < |old(spots)[k].images| :: old(spots)[k].images[j].id != r.value.id
      ensures !r.Done? ==> spots == old(spots)
      ensures users == old(users) && bookings == old(bookings) && reviews == old(reviews)
      ensures nextImageId == if r.Done? then old(nextImageId) + 1 else old(nextImageId)
      ensures nextSpotId == old(nextSpotId) && nextBookingId == old(nextBookingId) && nextReviewId == old(nextReviewId)
    {
      var access := Access.OwnerAccess(spots, userId, spotId);
      match access
      case SpotMissing => return NotFound;
      case NotOwner => return Forbidden;
      case Owner(i) =>
        var image := SpotImage(nextImageId, url, preview);
        var spot := spots[i].(images := spots[i].images + [image]);
        ReplacingSpotKeepsKeys(spots, i, spot);
        AddingImageKeepsImageKeys(spots, i, image, nextImageId);
        spots := spots[i := spot];
        nextImageId := nextImageId + 1;
        r := Done(image);
    }

    /** PUT a spot: only the owner may replace its listing fields. */
    method EditSpot(userId: UserId, spotId: SpotId, listing: Listing) returns (r: OwnerOnly<Spot>)
      requires Valid()
      modifies this
      ensures Valid()
      ensures r.NotFound? <==> Access.OwnerAccess(old(spots), userId, spotId).SpotMissing?
      ensures r.Forbidden? <==> Access.OwnerAccess(old(spots), userId, spotId).NotOwner?
      ensures r.Done? ==>
        var i := Access.OwnerAccess(old(spots), userId, spotId).index;
        r.value == old(spots)[i].(listing := listing) && spots == old(spots)[i := r.value]
      ensures !r.Done? ==> spots == old(spots)
      ensures users == old(users) && bookings == old(bookings) && reviews == old(reviews)
      ensures nextSpotId == old(nextSpotId) && nextImageId == old(nextImageId)
      ensures nextBookingId == old(nextBookingId) && nextReviewId == old(nextReviewId)
    {
      var access := Access.OwnerAccess(spots, userId, spotId);
      match access
      case SpotMissing => return NotFound;
      case NotOwner => return Forbidden;
      case Owner(i) =>
        var spot := spots[i].(listing := listing);
        ReplacingSpotKeepsKeys(spots, i, spot);
        SameImagesKeepImageKeys(spots, i, spot, nextImageId);
        spots := spots[i := spot];
        r := Done(spot);
    }

    /** DELETE a spot: only the owner may; its bookings and reviews go with it. */
    method DeleteSpot(userId: UserId, spotId: SpotId) returns (r: OwnerOnly<string>)
      requires Valid()
      modifies this
      ensures Valid()
      ensures r.NotFound? <==> Access.OwnerAccess(old(spots), userId, spotId).SpotMissing?
      ensures r.Forbidden? <==> Access.OwnerAccess(old(spots), userId, spotId).NotOwner?
      ensures r.Done? ==>
        var i := Access.OwnerAccess(old(spots), userId, spotId).index;
        && r.value == DeletedMessage
        && spots == old(spots)[..i] + old(spots)[i + 1..]
        && bookings == BookingsNotOf(old(bookings), spotId)
        && reviews == ReviewsNotOf(old(reviews), spotId)
      ensures r.Done? ==> !HasSpot(spots, spotId)
      ensures !r.Done? ==> spots == old(spots) && bookings == old(bookings) && reviews == old(reviews)
      ensures users == old(users)
      ensures nextSpotId == old(nextSpotId) && nextImageId == old(nextImageId)
      ensures nextBookingId == old(nextBookingId) && nextReviewId == old(nextReviewId)
    {
      var access := Access.OwnerAccess(spots, userId, spotId);
      match access
      case SpotMissing => return NotFound;
      case NotOwner => return Forbidden;
      case Owner(i) =>
        CascadeKeepsTablesValid(spots, users, bookings, reviews, nextSpotId, nextImageId, nextBookingId, nextReviewId, i);
        spots, bookings, reviews := spots[..i] + spots[i + 1..], BookingsNotOf(bookings, spotId), ReviewsNotOf(reviews, spotId);
        r := Done(DeletedMessage);
    }

    /**
     * POST a review: validation, the spot lookup, the loop over the caller's
     * reviews, then one new row with the next key.
     */
    method CreateReview(userId: UserId, spotId: SpotId, text: string, stars: int, now: Timestamp)
      returns (r: ReviewRules.CreateReviewResponse)
      requires Valid()
      modifies this
      ensures Valid()
      ensures r == ReviewRules.DecideReview(old(spots), old(reviews), userId, spotId, text, stars, old(nextReviewId), now)
      ensures reviews == if r.ReviewCreated? then old(reviews) + [r.review] else old(reviews)
      ensures users == old(users) && spots == old(spots) && bookings == old(bookings)
      ensures nextSpotId == old(nextSpotId) && nextImageId == old(nextImageId) && nextBookingId == old(nextBookingId)
      ensures nextReviewId == if r.ReviewCreated? then old(nextReviewId) + 1 else old(nextReviewId)
    {
      var errors := ReviewRules.ReviewErrors(text, stars);
      if errors != map[] {
        return ReviewRules.Invalid(errors);
      }
      if SpotIndex(spots, spotId).None? {
        return ReviewRules.ReviewSpotNotFound;
      }
      var duplicate := ReviewRules.FindExistingReview(reviews, userId, spotId);
      if duplicate {
        return ReviewRules.AlreadyReviewed;
      }
      r := ReviewRules.ReviewCreated(Review(nextReviewId, spotId, userId, text, stars, now, now));
      ReviewRules.CreationKeepsOneReviewPerUser(spots, reviews, userId, spotId, text, stars, nextReviewId, now);
      ReviewRules.CreationKeepsStarsInRange(spots, reviews, userId, spotId, text, stars, nextReviewId, now);
      reviews := reviews + [r.review];
      nextReviewId := nextReviewId + 1;
    }

    /**
     * POST a booking: the spot lookup, the owner check, the conflict query, then
     * one new row with the next key. The caller is a signed-in user.
     */
    method CreateBooking(userId: UserId, spotId: SpotId, startDate: Day, endDate: Day, now: Timestamp)
      returns (r: Bookings.CreateBookingResponse)
      requires Valid() && HasUser(users, userId)
      modifies this
      ensures Valid()
      ensures r == Bookings.DecideBooking(old(spots), old(bookings), userId, spotId, startDate, endDate, old(nextBookingId), now)
      ensures bookings == if r.BookingCreated? then old(bookings) + [r.booking] else old(bookings)
      ensures users == old(users) && spots == old(spots) && reviews == old(reviews)
      ensures nextSpotId == old(nextSpotId) && nextImageId == old(nextImageId) && nextReviewId == old(nextReviewId)
      ensures nextBookingId == if r.BookingCreated? then old(nextBookingId) + 1 else old(nextBookingId)
    {
      var found := SpotIndex(spots, spotId);
      if found.None? {
        return Bookings.SpotNotFound;
      }
      var spot := spots[found.value];
      if userId == spot.ownerId {
        return Bookings.Forbidden;
      }
      var clash := Bookings.FindConflict(bookings, spotId, startDate, endDate);
      if clash.Some? {
        return Bookings.DatesConflict(Bookings.ConflictMessage, Bookings.ConflictErrors);
      }
      var booking := Booking(nextBookingId, spot.id, userId, startDate, endDate, now, now);
      bookings := bookings + [booking];
      nextBookingId := nextBookingId + 1;
      r := Bookings.BookingCreated(booking);
    }
  }
}
