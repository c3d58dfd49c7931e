/**
 * The rows of the rental database the API handlers work on: users, spots
 * (listings) with their images, bookings and reviews, and lookups by primary key.
 * The database tables are modelled as sequences in storage order.
 */
module Domain {
  import opened Wrappers

  type UserId = int
  type SpotId = int
  /** A calendar date as a day number; dates are only ever compared. */
  type Day = int
  /** A creation or update time stamp, supplied by the database clock. */
  type Timestamp = int

  /** The `message` of every 404 answered for a missing spot. */
  const SpotNotFoundMessage := "Spot couldn't be found"
  /** The `message` of every 403 answered to a caller who may not act on a spot. */
  const ForbiddenMessage := "Forbidden"

  datatype User = User(id: UserId, firstName: string, lastName: string, username: string)

  /** The descriptive fields of a spot that its owner fills in and may edit. */
  datatype Listing = Listing(
    address: string, city: string, state: string, country: string,
    lat: real, lng: real, name: string, description: string, price: real)

  datatype SpotImage = SpotImage(id: nat, url: string, preview: bool)

  /** A spot together with its images, in insertion order. */
  datatype Spot = Spot(id: SpotId, ownerId: UserId, listing: Listing, images: seq<SpotImage>)

  datatype Booking = Booking(
    id: nat, spotId: SpotId, userId: UserId,
    startDate: Day, endDate: Day,
    createdAt: Timestamp, updatedAt: Timestamp)

  datatype Review = Review(
    id: nat, spotId: SpotId, userId: UserId,
    review: string, stars: int,
    createdAt: Timestamp, updatedAt: Timestamp)

  predicate HasSpot(spots: seq<Spot>, id: SpotId) {
    exists i | 0 <= i < |spots| :: spots[i].id == id
  }

  predicate HasUser(users: seq<User>, id: UserId) {
    exists i | 0 <= i < |users| :: users[i].id == id
  }

  /** `userId` owns the spot whose primary key is `spotId`. */
  predicate IsOwner(spots: seq<Spot>, spotId: SpotId, userId: UserId) {
    exists i | 0 <= i < |spots| :: spots[i].id == spotId && spots[i].ownerId == userId
  }

  /** `id` is the primary key of the spots table. */
  predicate UniqueSpotIds(spots: seq<Spot>) {
    forall i, j | 0 <= i < j < |spots| :: spots[i].id != spots[j].id
  }

  /** Every booking refers to a stored spot and a stored user (foreign keys). */
  predicate BookingsReferToRows(spots: seq<Spot>, users: seq<User>, bookings: seq<Booking>) {
    forall b | b in bookings :: HasSpot(spots, b.spotId) && HasUser(users, b.userId)
  }

  /** Lookup by primary key (`Spot.findByPk`): the position of the first spot with `id`. */
  function SpotIndex(spots: seq<Spot>, id: SpotId): (r: Option<nat>)
    ensures r.Some? ==> r.value < |spots| && spots[r.value].id == id
    ensures r.Some? ==> forall j | 0 <= j < r.value :: spots[j].id != id
    ensures r.None? <==> !HasSpot(spots, id)
  {
    if |spots| == 0 then None
    else if spots[0].id == id then Some(0)
    else
      match SpotIndex(spots[1..], id)
      case None =>
        assert forall i | 1 <= i < |spots| :: spots[i] == spots[1..][i - 1];
        None
      case Some(j) => Some(j + 1)
  }

  /** Lookup of the user joined to a row by its `userId`. */
  function UserIndex(users: seq<User>, id: UserId): (r: Option<nat>)
    ensures r.Some? ==> r.value < |users| && users[r.value].id == id
    ensures r.None? <==> !HasUser(users, id)
  {
    if |users| == 0 then None
    else if users[0].id == id then Some(0)
    else
      match UserIndex(users[1..], id)
      case None =>
        assert forall i | 1 <= i < |users| :: users[i] == users[1..][i - 1];
        None
      case Some(j) => Some(j + 1)
  }

  /** With unique keys, the spot found by its key decides ownership. */
  lemma FoundSpotDecidesOwner(spots: seq<Spot>, id: SpotId, userId: UserId)
    requires UniqueSpotIds(spots) && HasSpot(spots, id)
    ensures SpotIndex(spots, id).Some?
    ensures IsOwner(spots, id, userId) <==> spots[SpotIndex(spots, id).value].ownerId == userId
  {
    var k := SpotIndex(spots, id).value;
    if IsOwner(spots, id, userId) {
      var i :| 0 <= i < |spots| && spots[i].id == id && spots[i].ownerId == userId;
      assert i == k;
    }
  }
}
