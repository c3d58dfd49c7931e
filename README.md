# Spot booking, review and rating rules of an Airbnb-style rental API

This Dafny project models the decision logic behind the spot routes of a
rental site's Express back end (`backend/routes/api/spots.js`) and the reviews
reducer of its Redux front end (`frontend/src/store/reviews.js`).

- **Bookings.** Creating a booking answers 404 for a missing spot, 403 for the
  spot's owner, 403 with a per-field `errors` object on a date conflict, and
  otherwise adds exactly one booking. Listing a spot's bookings answers 404 when
  it has none; otherwise it gives one view per booking. The owner gets the full
  row plus the guest's name. Anyone else gets only the spot and the dates.
- **The conflict query.** Its two `between` conditions sit in one object inside
  `Op.or`, so they are joined by AND. An existing booking conflicts only when its
  start date and its end date both lie inside the inclusive requested range. The
  check is containment, not overlap. A request that starts after an existing
  booking's first day, or ends before its last day, is accepted even when the two
  ranges share days; so is one lying strictly inside it
  (`Bookings.PartialOverlapUndetected`, `Bookings.OverlapScenario`). A request
  that starts on the booking's first day or ends on its last day and covers the
  rest of it conflicts. A request whose end comes before its start
  never conflicts (`Bookings.ReversedRangeIsBooked`).
- **Ratings.** Each spot listing computes the star sum and the review count over
  the spot's reviews, and divides them. With no reviews the division is 0/0, NaN
  in JavaScript; here the average is `None`.
- **Reviews.** The body must have non-empty text and a whole number of stars
  from 1 to 5 (400). A missing spot answers 404. A second review of a spot by the
  same user answers 500. Otherwise exactly one review is added.
- **Pagination.** `page` defaults to 1 and `size` to 20. Each is range-checked
  with its own error. The result is a LIMIT/OFFSET window.
- **Owner-only handlers.** Adding an image, editing and deleting share one guard:
  404 for a missing spot, 403 for anyone but the owner.
- **Reviews reducer.** A pure `(state, action) -> state` function over a map from
  review id to review.

Dates are day numbers compared with `<=`. Tables are sequences in storage order.
The database is the class `SpotStore.Store`, whose methods are the
state-changing handlers. The read-only handlers are methods over sequence
snapshots of the tables. Row ids and time stamps come from the store's counters
and a `now` parameter.

Where a reader might expect otherwise, the code does this, and so does the model:
- Bookings are not checked for start before end.
- Conflicts are containment, with both ends inclusive, not overlap.
- A duplicate review answers 500, not 409.
- An unreviewed spot's average is NaN (`None`), not a separate sentinel value.
- Two bookings of one spot may overlap: `Bookings.OverlapScenario` books overlapping ranges.
- A stored booking with its dates reversed holds no day, yet still blocks every request whose range contains both of its dates (`Bookings.ReversedBookingBlocks`).

## Model

| member | source | states |
|---|---|---|
| `Domain.SpotIndex` | backend/routes/api/spots.js:438-441 | lookup by primary key: a found position holds the key and is the first such; none is found exactly when no spot has the key |
| `Domain.UserIndex` | backend/routes/api/spots.js:366-368 | the guest joined to a booking: a found position holds the user id; none exactly when no user has it |
| `Domain.FoundSpotDecidesOwner` | backend/routes/api/spots.js:442-443 | with unique keys, the caller owns the spot iff the looked-up spot's `ownerId` is the caller's id |
| `Access.OwnerAccess` | backend/routes/api/spots.js:236-240 | owner-only guard: missing spot iff no spot has the key; not-owner iff the spot exists and the caller does not own it; granted gives the owner's spot |
| `Pagination.PageOrDefault` | backend/routes/api/spots.js:58-61 | an absent page is page 1, which is in range; a given page is taken as it is |
| `Pagination.SizeOrDefault` | backend/routes/api/spots.js:65-68 | an absent size is 20, which is in range; a given size is taken as it is |
| `Pagination.Paginate` | backend/routes/api/spots.js:54-74 | absent page is 1 and absent size 20; the request is rejected iff page is outside 1..10 or size outside 1..20; each bad field has its own key and message and no other key appears; otherwise limit = size and offset = (page-1)*size, at most 180 |
| `Pagination.OffsetBound` | backend/routes/api/spots.js:73-74 | for any accepted page and size the offset lies between 0 and 180 |
| `Ratings.ReviewsOf` | backend/routes/api/spots.js:96-100 | the spot's reviews: exactly the reviews whose `spotId` matches, no more than the table |
| `Ratings.TallyStars` | backend/routes/api/spots.js:214-220 | the loop's sum is the total of the ratings' stars and its counter the number of ratings |
| `Ratings.AverageRating` | backend/routes/api/spots.js:221 | undefined (NaN) exactly when there are no reviews; otherwise the average times the count is the sum |
| `Ratings.SpotRating` | backend/routes/api/spots.js:96-106 | a spot's average is undefined (NaN) exactly when no review names the spot; otherwise it is the star total of the spot's reviews divided by their number |
| `Ratings.SpotRatingWithinStarRange` | backend/routes/api/spots.js:96-106 | when every stored review has 1 to 5 stars, a reviewed spot has a defined average between 1 and 5 |
| `Ratings.NoReviewsOfIffUnreviewed` | backend/routes/api/spots.js:96-100 | the spot's review query is empty exactly when no stored review names the spot |
| `Ratings.RateSpot` | backend/routes/api/spots.js:96-106 | the rating step of a listing equals the spot's average and is undefined exactly when no review names the spot |
| `Ratings.StarTotalBounds` | backend/routes/api/spots.js:214-220 | with stars from 1 to 5, the sum lies between the count and five times the count |
| `Ratings.AverageWithinStarRange` | backend/routes/api/spots.js:221-225 | a spot with valid reviews has a defined average between 1 and 5 |
| `Ratings.StarTotalAppend` | backend/routes/api/spots.js:101-104 | one more rating adds exactly its stars to the sum |
| `Ratings.ReviewsOfAppend` | backend/routes/api/spots.js:351-356 | a newly stored review joins its own spot's reviews, at the end, and no other spot's |
| `Ratings.NewReviewUpdatesRating` | backend/routes/api/spots.js:206-221 | after a new review the spot's count grows by one and its sum by the new stars |
| `Ratings.PreviewImage` | backend/routes/api/spots.js:107-111 | the all-spots preview is the first image's URL, or the fallback text when the spot has no images |
| `Ratings.FlaggedPreviewImage` | backend/routes/api/spots.js:148-161 | the owner's listing shows the URL of the first image flagged `preview`, or the fallback text when none is flagged |
| `Ratings.PreviewsAgreeWhenFirstFlagged` | backend/routes/api/spots.js:107-111 | the all-spots preview (first image, else fallback) equals the owner-listing preview when the first image is flagged |
| `Bookings.Conflicts` | backend/routes/api/spots.js:445-457 | the conflict filter: same spot, and both the start date and the end date inside the inclusive requested range |
| `Bookings.FindConflict` | backend/routes/api/spots.js:445-457 | `findOne`: a result is a conflicting booking; none is found exactly when no booking conflicts |
| `Bookings.DecideBooking` | backend/routes/api/spots.js:434-476 | 404 iff the spot is missing; 403 Forbidden iff the caller owns it, whatever the dates; a date conflict iff the spot exists, the caller is not the owner and some booking conflicts, with the source's message and both `startDate` and `endDate` named with their messages; otherwise one booking with the spot, the caller and the given dates |
| `Bookings.ConflictIsContainment` | backend/routes/api/spots.js:448-455 | for a booking whose start is not after its end, conflict is exactly containment in the requested range |
| `Bookings.ConflictIsOverlap` | backend/routes/api/spots.js:448-455 | for a booking whose start is not after its end, every detected conflict is an overlap of the two ranges |
| `Bookings.ReversedBookingBlocks` | backend/routes/api/spots.js:448-455 | a stored booking with its dates reversed overlaps nothing, yet conflicts with every request of its spot whose range contains both of its dates |
| `Bookings.PartialOverlapUndetected` | backend/routes/api/spots.js:448-455 | an overlapping request that does not contain the existing booking is not a conflict |
| `Bookings.ReversedRangeIsBooked` | backend/routes/api/spots.js:467-472 | a request whose end precedes its start conflicts with nothing and is booked: no start-before-end check |
| `Bookings.RepeatedRequestConflicts` | backend/routes/api/spots.js:445-466 | once a range with start not after end is booked, the same range requested again by any non-owner is a date conflict |
| `Bookings.OverlapScenario` | backend/routes/api/spots.js:438-474 | with days 10-15 booked: 9-16 and 10-15 conflict, 12-20 and 15-18 are booked, the owner is forbidden and an unknown spot is not found |
| `Bookings.Project` | backend/routes/api/spots.js:382-404 | the guest view is chosen exactly when the caller is not the owner; every view carries the booking's spot and dates |
| `Bookings.OwnerViewIsComplete` | backend/routes/api/spots.js:389-404 | the owner's view gives back the whole booking row and the guest's id and names |
| `Bookings.GuestViewHidesIdentity` | backend/routes/api/spots.js:382-388 | a non-owner's view depends only on spot and dates: bookings by different guests with different ids and times look the same |
| `Bookings.BookingsOf` | backend/routes/api/spots.js:365-376 | the spot's bookings: exactly the bookings with that `spotId`, no more than the table |
| `Bookings.BookingsOfAppend` | backend/routes/api/spots.js:365-376 | a booking stored last comes last in its own spot's list and in no other, so each matching row appears once, in storage order |
| `Bookings.ViewOf` | backend/routes/api/spots.js:362-404 | one booking joined with its guest and its spot's owner: a guest view exactly when the caller does not own the spot; always the booking's spot and dates; an owner view gives back the whole row and carries the id, first name and last name of the user row whose id is the booking's guest |
| `Bookings.ListBookings` | backend/routes/api/spots.js:362-407 | 404 iff no booking names the spot; otherwise one view per booking of the spot, in order, each projected with the joined guest and owner; all views are guest views iff the caller does not own the spot |
| `Bookings.MissingSpotListsNothing` | backend/routes/api/spots.js:377-378 | with foreign keys in place a missing spot has no bookings, so its listing is the same 404 |
| `ReviewRules.ReviewErrors` | backend/routes/api/spots.js:41-50 | a `review` error iff the text is empty, a `stars` error iff stars are outside 1..5, each with its message, and no other key |
| `ReviewRules.ReviewsBy` | backend/routes/api/spots.js:340-344 | the caller's reviews: exactly the reviews with the caller's `userId` |
| `ReviewRules.FindExistingReview` | backend/routes/api/spots.js:340-350 | the loop finds a review iff the caller already has a review with that `spotId` |
| `ReviewRules.DecideReview` | backend/routes/api/spots.js:334-357 | 400 iff text is empty or stars invalid, with those errors; then 404 iff the spot is missing; then "already reviewed" iff the caller has a review of the spot; otherwise one review with the spot, the caller, the text and valid stars |
| `ReviewRules.CreationKeepsOneReviewPerUser` | backend/routes/api/spots.js:345-356 | a created review keeps at most one review per user and spot |
| `ReviewRules.CreationKeepsStarsInRange` | backend/routes/api/spots.js:45-48 | a created review keeps every stored rating within 1 to 5 stars |
| `ReviewRules.SecondReviewRefused` | backend/routes/api/spots.js:345-356 | after a review is created the same author is refused another for that spot, while an author without one is still accepted |
| `SpotQueries.Window` | backend/routes/api/spots.js:73-91 | LIMIT/OFFSET: at most `limit` spots, the i-th being the spot at `offset + i`, and as many as the table holds |
| `SpotQueries.ListedSpot` | backend/routes/api/spots.js:94-114 | an all-spots summary keeps the spot's key, owner and listing; its rating is undefined exactly when no review names the spot and otherwise the star total over the review count; its preview is the first image's URL, or the fallback text without images |
| `SpotQueries.OwnedSpot` | backend/routes/api/spots.js:132-163 | an owner-listing summary keeps the spot's key, owner and listing; its rating is undefined exactly when no review names the spot and otherwise the star total over the review count; its preview is the fallback text when no image is flagged, else the URL of a flagged image |
| `SpotQueries.SpotsOwnedBy` | backend/routes/api/spots.js:125-129 | the caller's spots: exactly the spots whose `ownerId` is the caller's |
| `SpotQueries.SpotsOwnedByAppend` | backend/routes/api/spots.js:125-129 | a spot stored last comes last among its owner's spots and among no one else's, so each owned spot appears once, in storage order |
| `SpotQueries.ListSpots` | backend/routes/api/spots.js:53-116 | 400 with "bad request" iff the query is out of range, with a `page` entry iff the page is out of range and a `size` entry iff the size is, each with its message and no other key; otherwise one summary per spot of the page window, in order, with its average rating and first-image preview, and the page and size echoed |
| `SpotQueries.ListOwnedSpots` | backend/routes/api/spots.js:121-165 | one summary per spot the caller owns, in order, with its rating and flagged preview |
| `SpotQueries.SpotDetails` | backend/routes/api/spots.js:190-227 | 404 iff the spot is missing; otherwise the spot, `numReviews` equal to the number of its reviews and `avgStarRating` their average, undefined exactly when that number is 0 |
| `SpotStore.BookingsNotOf` | backend/routes/api/spots.js:288-289 | the bookings left after deleting a spot: exactly those of other spots |
| `SpotStore.BookingsNotOfAppend` | backend/routes/api/spots.js:288-289 | a booking stored last stays last after another spot is deleted and goes with its own spot, so the surviving bookings appear once each, in storage order |
| `SpotStore.ReviewsNotOfAppend` | backend/routes/api/spots.js:288-289 | a review stored last stays last after another spot is deleted and goes with its own spot, so the surviving reviews appear once each, in storage order |
| `SpotStore.ReviewsNotOf` | backend/routes/api/spots.js:288-289 | the reviews left after deleting a spot: exactly those of other spots |
| `SpotStore.ReviewsNotOfKeepsOnePerUser` | backend/routes/api/spots.js:288-289 | deleting a spot's reviews keeps at most one review per user and spot |
| `SpotStore.CascadeKeepsTablesValid` | backend/routes/api/spots.js:288-289 | deleting a spot with its bookings and reviews keeps keys, image keys, foreign keys and review rules, and removes the spot's key |
| `SpotStore.AddingImageKeepsImageKeys` | backend/routes/api/spots.js:243-247 | an image created with the next image key keeps every stored image key below the advanced counter |
| `SpotStore.SameImagesKeepImageKeys` | backend/routes/api/spots.js:262-273 | editing a spot's listing leaves every image key below the counter |
| `SpotStore.NewSpotKeepsImageKeys` | backend/routes/api/spots.js:172-183 | a new spot has no images, so every image key stays below the counter |
| `SpotStore.Store.CreateSpot` | backend/routes/api/spots.js:169-186 | appends one spot owned by the caller with a fresh key and no images and advances the spot key counter; the other tables and counters are unchanged |
| `SpotStore.Store.AddImage` | backend/routes/api/spots.js:231-252 | 404 and 403 as the owner guard says; for the owner, one image appended to that spot and returned, under a key no stored image has, and the image key counter advances exactly then; the other tables and the other key counters are unchanged |
| `SpotStore.Store.EditSpot` | backend/routes/api/spots.js:255-277 | 404 and 403 as the owner guard says; for the owner, only that spot's listing fields are replaced; no key counter moves |
| `SpotStore.Store.DeleteSpot` | backend/routes/api/spots.js:280-297 | 404 and 403 as the owner guard says; for the owner the spot is removed with its bookings and reviews and "Successfully deleted" answered; no key counter moves |
| `SpotStore.Store.CreateReview` | backend/routes/api/spots.js:334-359 | answers as `DecideReview`; exactly one review is appended when created and the tables are unchanged otherwise; the review key counter advances exactly when a review is created and no other counter moves; the store invariant is kept |
| `SpotStore.Store.CreateBooking` | backend/routes/api/spots.js:434-476 | answers as `DecideBooking`; exactly one booking is appended when created, none otherwise; the booking key counter advances exactly then; the other tables and counters are unchanged |
| `ReviewsReducer.InitialState` | frontend/src/store/reviews.js:113-124 | the initial state holds no reviews and empty `spot` and `user` parts |
| `ReviewsReducer.IndexById` | frontend/src/store/reviews.js:129-131 | every entry of the loaded map is one of the loaded reviews, filed under its own id |
| `ReviewsReducer.IndexByIdKeys` | frontend/src/store/reviews.js:128-132 | after a load the map's keys are exactly the ids in the loaded list |
| `ReviewsReducer.IndexByIdLastWins` | frontend/src/store/reviews.js:131 | under a duplicated id the later review in the list is the one kept |
| `ReviewsReducer.Reduce` | frontend/src/store/reviews.js:125-153 | `spot` and `user` never change; load replaces the map by the loaded reviews indexed by id, keyed by exactly the loaded ids; create and update set the action's id to the action's review and keep every other key and value; delete removes exactly `reviewId` and keeps the rest; an unknown action returns the state |
| `ReviewsReducer.ReduceFromStart` | frontend/src/store/reviews.js:113-125 | without a state the reducer starts from the initial state: empty reviews and the initial `spot` and `user` parts |
| `ReviewsReducer.LoadDiscardsPrevious` | frontend/src/store/reviews.js:128-132 | the result of a load does not depend on the reviews held before |
| `ReviewsReducer.ReduceIdempotent` | frontend/src/store/reviews.js:142-145 | every action, update in particular, applied twice gives what it gives once |
| `ReviewsReducer.DeleteAbsentIsNoOp` | frontend/src/store/reviews.js:146-149 | deleting an id that is not held leaves the state unchanged |
| `ReviewsReducer.DeleteUndoesCreate` | frontend/src/store/reviews.js:138-149 | creating a review under a new id and then deleting it restores the state |
| `ReviewsReducer.CreateAndUpdateAgree` | frontend/src/store/reviews.js:138-145 | create and update make the same change |

## Left out

- Express routing, `requireAuth` and the HTTP responses. The caller's id is a parameter, and each response is a datatype with its status code.
- The validation middleware's error formatting. `utils/validation` is not part of this model; each rejected field appears once in an error map.
- Sequelize queries. They are filters and appends over sequences in storage order. `findOne` returns the first match.
- The spot body validators (`validateSpot`, lines 9-39). The edit and create handlers take an already valid listing.
- The reviews-by-spot listing (lines 300-331). It is a plain join with no decision in it.
- `parseInt` of `page` and `size`. They are given as integers, or as absent, which also covers the empty string. A non-numeric value makes `NaN` in the source, and `NaN` passes both range checks; that case is not modelled.
- Booking dates are day numbers. The handler passes `startDate` and `endDate` from the request body unchecked to the conflict query and to `Booking.create` (lines 437, 450-453, 467-472); absent or malformed dates, and the database's date parsing, are not modelled.
- Review stars are whole numbers. A non-integer or non-numeric `stars` payload is not modelled.
- Floating-point division. Averages are exact rationals (`real`), and `NaN` is `None`.
- The missing `return` after the 404 at lines 205 and 259. The source then reads a null row; the model answers 404 only.
- The check-then-act race between the conflict query and `Booking.create`. The model is sequential.
- The same race between the duplicate-review loop and `Review.create` (lines 340-356). `ReviewRules.CreationKeepsOneReviewPerUser` holds only for requests handled one after another.
- Row ids and time stamps. They come from store counters and a `now` parameter. The database clock and auto-increment are not modelled.
- SpotStore.Store.DeleteSpot: assumes the schema cascades the delete to the spot's bookings and reviews. The schema is not part of this model.
- Spot details return the spot row with its images. The `Owner` join is not modelled.
- Reducer keys are integers. JavaScript object keys are strings, and the same number and its string collide there.
- The reducer thunks (`fetch`/`csrfFetch`), the React components, the review image model and the seed data. They are I/O, UI or fixtures.
