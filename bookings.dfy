/**
 * Booking decisions for a spot: creating a booking (404, then 403 for the
 * owner, then 403 on a date conflict, otherwise one new booking) and listing a
 * spot's bookings with an owner view or a guest view of each one.
 */
module Bookings {
  import opened Wrappers
  import opened Domain

  const ConflictMessage := "Sorry, this spot is already booked for the specified dates"
  const StartConflictMessage := "Start date conflicts with an existing booking"
  const EndConflictMessage := "End date conflicts with an existing booking"

  /** The `errors` object of a date conflict; it always names both fields. */
  const ConflictErrors: map<string, string> :=
    map["startDate" := StartConflictMessage, "endDate" := EndConflictMessage]

  datatype CreateBookingResponse =
    | SpotNotFound
    | Forbidden
    | DatesConflict(message: string, errors: map<string, string>)
    | BookingCreated(booking: Booking)
  {
    function Status(): int {
      match this
      case SpotNotFound => 404
      case Forbidden => 403
      case DatesConflict(_, _) => 403
      case BookingCreated(_) => 201
    }

    /** The `message` of a refusal. */
    function Message(): string
      requires !BookingCreated?
    {
      match this
      case SpotNotFound => SpotNotFoundMessage
      case Forbidden => ForbiddenMessage
      case DatesConflict(message, _) => message
    }
  }

  /** SQL `d BETWEEN lo AND hi`: inclusive at both ends, and empty when `lo > hi`. */
  predicate Between(d: Day, lo: Day, hi: Day) {
    lo <= d <= hi
  }

  /**
   * The filter of the conflict query. Its two `between` conditions share one
   * object inside `Op.or`, so they are joined by AND: a booking of the same spot
   * conflicts only when its start date and its end date both lie in the requested range.
   */
  predicate Conflicts(b: Booking, spotId: SpotId, startDate: Day, endDate: Day) {
    b.spotId == spotId && Between(b.startDate, startDate, endDate) && Between(b.endDate, startDate, endDate)
  }

  /** Two non-empty date ranges, inclusive at both ends, share at least one day. */
  predicate Overlap(start1: Day, end1: Day, start2: Day, end2: Day) {
    start1 <= end1 && start2 <= end2 && start1 <= end2 && start2 <= end1
  }

  /** `Booking.findOne` with the conflict filter: the first conflicting booking, if any. */
  function FindConflict(bookings: seq<Booking>, spotId: SpotId, startDate: Day, endDate: Day): (r: Option<nat>)
    ensures r.Some? ==> r.value < |bookings| && Conflicts(bookings[r.value], spotId, startDate, endDate)
    ensures r.None? <==> forall i | 0 <= i < |bookings| :: !Conflicts(bookings[i], spotId, startDate, endDate)
  {
    if |bookings| == 0 then None
    else if Conflicts(bookings[0], spotId, startDate, endDate) then Some(0)
    else
      match FindConflict(bookings[1..], spotId, startDate, endDate)
      case None =>
        assert forall i | 1 <= i < |bookings| :: bookings[i] == bookings[1..][i - 1];
        None
      case Some(j) => Some(j + 1)
  }

  /**
   * The create-booking handler: find the spot, refuse its owner, refuse a date
   * conflict, otherwise build the new row from the spot's id, the caller's id and
   * the requested dates. `newId` and `now` stand for the database's key and clock.
   */
  function DecideBooking(
    spots: seq<Spot>, bookings: seq<Booking>, userId: UserId, spotId: SpotId,
    startDate: Day, endDate: Day, newId: nat, now: Timestamp): (r: CreateBookingResponse)
    requires UniqueSpotIds(spots)
    ensures r.SpotNotFound? <==> !HasSpot(spots, spotId)
    ensures r.Forbidden? <==> IsOwner(spots, spotId, userId)
    ensures r.DatesConflict? <==>
      HasSpot(spots, spotId) && !IsOwner(spots, spotId, userId) &&
      exists i | 0 <= i < |bookings| :: Conflicts(bookings[i], spotId, startDate, endDate)
    ensures r.DatesConflict? ==> r.message == ConflictMessage && r.errors == ConflictErrors
    ensures r.DatesConflict? ==> r.errors.Keys == {"startDate", "endDate"}
    ensures r.BookingCreated? ==>
      r.booking == Booking(newId, spotId, userId, startDate, endDate, now, now)
  {
    match SpotIndex(spots, spotId)
    case None => SpotNotFound
    case Some(i) =>
      FoundSpotDecidesOwner(spots, spotId, userId);
      if userId == spots[i].ownerId then Forbidden
      else if FindConflict(bookings, spotId, startDate, endDate).Some? then
        DatesConflict(ConflictMessage, ConflictErrors)
      else BookingCreated(Booking(newId, spots[i].id, userId, startDate, endDate, now, now))
  }

  /** For a well-formed booking a conflict is exactly containment in the requested range. */
  lemma ConflictIsContainment(b: Booking, spotId: SpotId, startDate: Day, endDate: Day)
    requires b.startDate <= b.endDate
    ensures Conflicts(b, spotId, startDate, endDate) <==>
      b.spotId == spotId && startDate <= b.startDate && b.endDate <= endDate
  {
  }

  /** For a booking whose start is not after its end, every detected conflict is an overlap of the two ranges. */
  lemma ConflictIsOverlap(b: Booking, spotId: SpotId, startDate: Day, endDate: Day)
    requires b.startDate <= b.endDate && Conflicts(b, spotId, startDate, endDate)
    ensures Overlap(b.startDate, b.endDate, startDate, endDate)
  {
  }

  /**
   * A stored booking with its dates reversed holds no day, yet it blocks every
   * request of its spot whose range contains both of its dates.
   */
  lemma ReversedBookingBlocks(b: Booking, startDate: Day, endDate: Day)
    requires b.endDate < b.startDate && startDate <= b.endDate && b.startDate <= endDate
    ensures Conflicts(b, b.spotId, startDate, endDate)
    ensures !Overlap(b.startDate, b.endDate, startDate, endDate)
  {
  }

  /**
   * An overlap that does not contain the existing booking goes undetected: a
   * request that starts inside it, ends inside it, or lies strictly within it.
   */
  lemma PartialOverlapUndetected(b: Booking, spotId: SpotId, startDate: Day, endDate: Day)
    requires Overlap(b.startDate, b.endDate, startDate, endDate)
    requires b.startDate < startDate || endDate < b.endDate
    ensures !Conflicts(b, spotId, startDate, endDate)
  {
  }

  /** No start-before-end check is made: a reversed range conflicts with nothing and is booked. */
  lemma ReversedRangeIsBooked(
    spots: seq<Spot>, bookings: seq<Booking>, userId: UserId, spotId: SpotId,
    startDate: Day, endDate: Day, newId: nat, now: Timestamp)
    requires UniqueSpotIds(spots) && HasSpot(spots, spotId) && !IsOwner(spots, spotId, userId)
    requires endDate < startDate
    ensures DecideBooking(spots, bookings, userId, spotId, startDate, endDate, newId, now).BookingCreated?
  {
  }

  /** Repeating a successful request with the same dates, by anyone but the owner, conflicts. */
  lemma RepeatedRequestConflicts(
    spots: seq<Spot>, bookings: seq<Booking>, userId: UserId, otherUser: UserId, spotId: SpotId,
    startDate: Day, endDate: Day, newId: nat, otherId: nat, now: Timestamp, later: Timestamp)
    requires UniqueSpotIds(spots) && startDate <= endDate
    requires DecideBooking(spots, bookings, userId, spotId, startDate, endDate, newId, now).BookingCreated?
    requires !IsOwner(spots, spotId, otherUser)
    ensures DecideBooking(
      spots, bookings + [DecideBooking(spots, bookings, userId, spotId, startDate, endDate, newId, now).booking],
      otherUser, spotId, startDate, endDate, otherId, later).DatesConflict?
  {
    var b := DecideBooking(spots, bookings, userId, spotId, startDate, endDate, newId, now).booking;
    assert Conflicts((bookings + [b])[|bookings|], spotId, startDate, endDate);
  }

  /**
   * Spot 7 of owner 1 holds one booking by guest 2 for days 10 to 15. Another
   * guest is then refused days 9 to 16 and days 10 to 15, but is granted days
   * 12 to 20 and days 15 to 18, which overlap it; the owner is refused any dates.
   */
  lemma OverlapScenario(listing: Listing)
    ensures var spots := [Spot(7, 1, listing, [])];
      var bookings := [Booking(1, 7, 2, 10, 15, 100, 100)];
      && DecideBooking(spots, bookings, 3, 7, 9, 16, 2, 200) == DatesConflict(ConflictMessage, ConflictErrors)
      && DecideBooking(spots, bookings, 3, 7, 10, 15, 2, 200) == DatesConflict(ConflictMessage, ConflictErrors)
      && DecideBooking(spots, bookings, 3, 7, 12, 20, 2, 200) == BookingCreated(Booking(2, 7, 3, 12, 20, 200, 200))
      && DecideBooking(spots, bookings, 3, 7, 15, 18, 2, 200) == BookingCreated(Booking(2, 7, 3, 15, 18, 200, 200))
      && DecideBooking(spots, bookings, 1, 7, 30, 31, 2, 200) == Forbidden
      && DecideBooking(spots, bookings, 3, 8, 30, 31, 2, 200) == SpotNotFound
  {
    var spots := [Spot(7, 1, listing, [])];
    var bookings := [Booking(1, 7, 2, 10, 15, 100, 100)];
    assert Conflicts(bookings[0], 7, 9, 16) && Conflicts(bookings[0], 7, 10, 15);
    assert spots[0].id == 7 && spots[0].ownerId == 1;
    assert !IsOwner(spots, 7, 3) && !HasSpot(spots, 8);
  }

  /** The identity of the guest shown to the spot's owner. */
  datatype GuestSummary = GuestSummary(id: UserId, firstName: string, lastName: string)

  /** What one booking looks like to the caller of the listing. */
  datatype BookingView =
    | GuestView(spotId: SpotId, startDate: Day, endDate: Day)
    | OwnerView(
        guest: GuestSummary, id: nat, spotId: SpotId, userId: UserId,
        startDate: Day, endDate: Day, createdAt: Timestamp, updatedAt: Timestamp)

  /**
   * The per-booking projection: the spot's owner sees the whole row and the
   * guest's name, anyone else only the spot and the dates.
   */
  function Project(b: Booking, guest: User, ownerId: UserId, callerId: UserId): (v: BookingView)
    ensures v.GuestView? <==> callerId != ownerId
    ensures v.spotId == b.spotId && v.startDate == b.startDate && v.endDate == b.endDate
  {
    if callerId != ownerId then GuestView(b.spotId, b.startDate, b.endDate)
    else
      OwnerView(
        GuestSummary(guest.id, guest.firstName, guest.lastName),
        b.id, b.spotId, b.userId, b.startDate, b.endDate, b.createdAt, b.updatedAt)
  }

  /** The stored row an owner view was made from. */
  function BookingOfOwnerView(v: BookingView): Booking
    requires v.OwnerView?
  {
    Booking(v.id, v.spotId, v.userId, v.startDate, v.endDate, v.createdAt, v.updatedAt)
  }

  /** The owner view loses nothing: the booking and the guest's name can be read back from it. */
  lemma OwnerViewIsComplete(b: Booking, guest: User, ownerId: UserId)
    ensures Project(b, guest, ownerId, ownerId).OwnerView?
    ensures BookingOfOwnerView(Project(b, guest, ownerId, ownerId)) == b
    ensures Project(b, guest, ownerId, ownerId).guest == GuestSummary(guest.id, guest.firstName, guest.lastName)
  {
  }

  /**
   * The guest view depends on the spot and the dates only: bookings by different
   * guests, with different ids and time stamps, look the same to a non-owner.
   */
  lemma GuestViewHidesIdentity(b1: Booking, b2: Booking, guest1: User, guest2: User, ownerId: UserId, callerId: UserId)
    requires callerId != ownerId
    requires b1.spotId == b2.spotId && b1.startDate == b2.startDate && b1.endDate == b2.endDate
    ensures Project(b1, guest1, ownerId, callerId) == Project(b2, guest2, ownerId, callerId)
  {
  }

  datatype ListBookingsResponse =
    | NoBookings
    | BookingList(views: seq<BookingView>)
  {
    function Status(): int { if NoBookings? then 404 else 200 }
    function Message(): string requires NoBookings? { SpotNotFoundMessage }
  }

  /** `Booking.findAll({ where: { spotId } })`: the bookings of one spot, in storage order. */
  function BookingsOf(bookings: seq<Booking>, spotId: SpotId): (r: seq<Booking>)
    ensures |r| <= |bookings|
    ensures forall b :: b in r <==> b in bookings && b.spotId == spotId
  {
    if |bookings| == 0 then []
    else (if bookings[0].spotId == spotId then [bookings[0]] else []) + BookingsOf(bookings[1..], spotId)
  }

  /**
   * A booking stored after the others comes last among its own spot's bookings
   * and is absent from every other spot's; with `BookingsOf([], s) == []` this
   * fixes the listing to one entry per matching row, in storage order.
   */
  lemma {:induction false} BookingsOfAppend(bookings: seq<Booking>, b: Booking, spotId: SpotId)
    ensures BookingsOf(bookings + [b], spotId) == BookingsOf(bookings, spotId) + (if b.spotId == spotId then [b] else [])
  {
    if |bookings| > 0 {
      assert (bookings + [b])[1..] == bookings[1..] + [b];
      BookingsOfAppend(bookings[1..], b, spotId);
    } else {
      assert BookingsOf([b], spotId) == (if b.spotId == spotId then [b] else []) + BookingsOf([], spotId);
    }
  }

  /** The view of one booking, with its guest and its spot's owner joined from their tables. */
  function ViewOf(spots: seq<Spot>, users: seq<User>, b: Booking, callerId: UserId): (v: BookingView)
    requires UniqueSpotIds(spots) && HasSpot(spots, b.spotId) && HasUser(users, b.userId)
    ensures v.GuestView? <==> !IsOwner(spots, b.spotId, callerId)
    ensures v.spotId == b.spotId && v.startDate == b.startDate && v.endDate == b.endDate
    ensures v.OwnerView? ==> BookingOfOwnerView(v) == b && v.guest.id == b.userId
    ensures v.OwnerView? ==> exists j | 0 <= j < |users| ::
      users[j].id == b.userId && v.guest == GuestSummary(users[j].id, users[j].firstName, users[j].lastName)
  {
    FoundSpotDecidesOwner(spots, b.spotId, callerId);
    Project(b, users[UserIndex(users, b.userId).value], spots[SpotIndex(spots, b.spotId).value].ownerId, callerId)
  }

  /**
   * The list-bookings handler: 404 when the spot has no bookings, otherwise one
   * view per booking, in order, pushed one at a time.
   */
  method ListBookings(spots: seq<Spot>, users: seq<User>, bookings: seq<Booking>, spotId: SpotId, callerId: UserId)
    returns (r: ListBookingsResponse)
    requires UniqueSpotIds(spots) && BookingsReferToRows(spots, users, bookings)
    ensures r.NoBookings? <==> forall i | 0 <= i < |bookings| :: bookings[i].spotId != spotId
    ensures r.BookingList? ==>
      var rows := BookingsOf(bookings, spotId);
      |r.views| == |rows| &&
      forall k | 0 <= k < |rows| :: r.views[k] == ViewOf(spots, users, rows[k], callerId)
    ensures r.BookingList? ==>
      forall k | 0 <= k < |r.views| :: r.views[k].GuestView? <==> !IsOwner(spots, spotId, callerId)
  {
    var rows := BookingsOf(bookings, spotId);
    if |rows| == 0 {
      forall i | 0 <= i < |bookings| ensures bookings[i].spotId != spotId {
        assert bookings[i] in bookings;
      }
      return NoBookings;
    }
    assert rows[0] in bookings;
    var views: seq<BookingView> := [];
    for k := 0 to |rows|
      invariant |views| == k
      invariant forall j | 0 <= j < k :: views[j] == ViewOf(spots, users, rows[j], callerId)
      invariant forall j | 0 <= j < k :: views[j].GuestView? <==> !IsOwner(spots, spotId, callerId)
    {
      var b := rows[k];
      assert b in bookings;
      var guest := users[UserIndex(users, b.userId).value];
      var ownerId := spots[SpotIndex(spots, b.spotId).value].ownerId;
      views := views + [Project(b, guest, ownerId, callerId)];
    }
    r := BookingList(views);
  }

  /** A spot that does not exist has no bookings, so its listing is the same 404. */
  lemma MissingSpotListsNothing(spots: seq<Spot>, users: seq<User>, bookings: seq<Booking>, spotId: SpotId)
    requires BookingsReferToRows(spots, users, bookings) && !HasSpot(spots, spotId)
    ensures forall i | 0 <= i < |bookings| :: bookings[i].spotId != spotId
  {
  }
}
