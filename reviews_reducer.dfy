/**
 * The front end's reviews slice: a reducer from (state, action) to a new state
 * whose `allReviews` maps review ids to reviews. Every case builds a new value;
 * the `spot` and `user` parts are passed through untouched.
 */
module ReviewsReducer {
  import opened Wrappers

  /** A review as the API returns it. */
  datatype ReviewEntry = ReviewEntry(id: int, spotId: int, userId: int, review: string, stars: int)

  /** The `spot` part of the slice: the reviewed spot's user and images. */
  datatype SpotPart = SpotPart(user: map<string, string>, reviewImages: seq<string>)

  /** The `user` part of the slice: the user, their spot and review images. */
  datatype UserPart = UserPart(user: map<string, string>, spot: map<string, string>, reviewImages: seq<string>)

  datatype State = State(allReviews: map<int, ReviewEntry>, spot: SpotPart, user: UserPart)

  /** An action; `Unknown` stands for every action type this reducer does not handle. */
  datatype Action =
    | LoadReviews(reviews: seq<ReviewEntry>)
    | CreateReview(review: ReviewEntry)
    | UpdateReview(review: ReviewEntry)
    | DeleteReview(reviewId: int)
    | Unknown(kind: string)

  /** The state before any action: no reviews, and empty `spot` and `user` parts. */
  function InitialState(): (s: State)
    ensures |s.allReviews| == 0
    ensures |s.spot.user| == 0 && |s.spot.reviewImages| == 0
    ensures |s.user.user| == 0 && |s.user.spot| == 0 && |s.user.reviewImages| == 0
  {
    State(map[], SpotPart(map[], []), UserPart(map[], map[], []))
  }

  /** The ids of a list of reviews. */
  function Ids(reviews: seq<ReviewEntry>): set<int> {
    set i | 0 <= i < |reviews| :: reviews[i].id
  }

  /**
   * The reviews written one after another into an empty object, keyed by id:
   * every entry is a loaded review filed under its own id.
   */
  function IndexById(reviews: seq<ReviewEntry>): (m: map<int, ReviewEntry>)
    ensures forall k | k in m :: m[k].id == k && m[k] in reviews
  {
    if |reviews| == 0 then map[]
    else
      var init := reviews[..|reviews| - 1];
      assert forall x | x in init :: x in reviews;
      IndexById(init)[reviews[|reviews| - 1].id := reviews[|reviews| - 1]]
  }

  /** Loading keys the map by exactly the ids in the list. */
  lemma {:induction false} IndexByIdKeys(reviews: seq<ReviewEntry>)
    ensures IndexById(reviews).Keys == Ids(reviews)
  {
    if |reviews| > 0 {
      var init := reviews[..|reviews| - 1];
      IndexByIdKeys(init);
      assert Ids(reviews) == Ids(init) + {reviews[|reviews| - 1].id} by {
        forall i | 0 <= i < |init| ensures init[i] == reviews[i] { }
      }
    }
  }

  /** Under a duplicated id the later review wins: each key holds its last review in the list. */
  lemma {:induction false} IndexByIdLastWins(reviews: seq<ReviewEntry>, i: nat)
    requires i < |reviews|
    requires forall j | i < j < |reviews| :: reviews[j].id != reviews[i].id
    ensures reviews[i].id in IndexById(reviews) && IndexById(reviews)[reviews[i].id] == reviews[i]
  {
    if i < |reviews| - 1 {
      var init := reviews[..|reviews| - 1];
      IndexByIdLastWins(init, i);
    }
  }

  /** The reducer; the caller's state is never written to. */
  function Reduce(state: State, action: Action): (next: State)
    ensures next.spot == state.spot && next.user == state.user
    ensures action.LoadReviews? ==>
      next.allReviews == IndexById(action.reviews) && next.allReviews.Keys == Ids(action.reviews)
    ensures action.CreateReview? || action.UpdateReview? ==>
      && next.allReviews.Keys == state.allReviews.Keys + {action.review.id}
      && next.allReviews[action.review.id] == action.review
      && forall k | k in state.allReviews && k != action.review.id :: next.allReviews[k] == state.allReviews[k]
    ensures action.DeleteReview? ==>
      && next.allReviews.Keys == state.allReviews.Keys - {action.reviewId}
      && forall k | k in next.allReviews :: next.allReviews[k] == state.allReviews[k]
    ensures action.Unknown? ==> next == state
  {
    match action
    case LoadReviews(reviews) =>
      IndexByIdKeys(reviews);
      state.(allReviews := IndexById(reviews))
    case CreateReview(review) => state.(allReviews := state.allReviews[review.id := review])
    case UpdateReview(review) => state.(allReviews := state.allReviews[review.id := review])
    case DeleteReview(reviewId) => state.(allReviews := state.allReviews - {reviewId})
    case Unknown(_) => state
  }

  /** The store's first call passes no state; the reducer starts from the initial state. */
  function ReduceFromStart(state: Option<State>, action: Action): (next: State)
    ensures state.None? ==> next.spot == InitialState().spot && next.user == InitialState().user
    ensures state.None? && action.Unknown? ==> next == InitialState()
  {
    Reduce(state.GetOr(InitialState()), action)
  }

  /** Loading throws the previous reviews away: the result does not depend on them. */
  lemma LoadDiscardsPrevious(s1: State, s2: State, reviews: seq<ReviewEntry>)
    requires s1.spot == s2.spot && s1.user == s2.user
    ensures Reduce(s1, LoadReviews(reviews)) == Reduce(s2, LoadReviews(reviews))
  {
  }

  /** Every action, applied twice, gives what it gives once. */
  lemma ReduceIdempotent(state: State, action: Action)
    ensures Reduce(Reduce(state, action), action) == Reduce(state, action)
  {
    match action
    case LoadReviews(reviews) =>
    case CreateReview(review) =>
      assert Reduce(Reduce(state, action), action).allReviews == Reduce(state, action).allReviews;
    case UpdateReview(review) =>
      assert Reduce(Reduce(state, action), action).allReviews == Reduce(state, action).allReviews;
    case DeleteReview(reviewId) =>
      assert Reduce(Reduce(state, action), action).allReviews == Reduce(state, action).allReviews;
    case Unknown(_) =>
  }

  /** Deleting an id that is not in the map leaves the state as it was. */
  lemma DeleteAbsentIsNoOp(state: State, reviewId: int)
    requires reviewId !in state.allReviews
    ensures Reduce(state, DeleteReview(reviewId)) == state
  {
    assert state.allReviews - {reviewId} == state.allReviews;
  }

  /** Deleting a review that was just created under a new id restores the state. */
  lemma DeleteUndoesCreate(state: State, review: ReviewEntry)
    requires review.id !in state.allReviews
    ensures Reduce(Reduce(state, CreateReview(review)), DeleteReview(review.id)) == state
  {
    assert state.allReviews[review.id := review] - {review.id} == state.allReviews;
  }

  /** Creating a review and updating to it are the same change. */
  lemma CreateAndUpdateAgree(state: State, review: ReviewEntry)
    ensures Reduce(state, CreateReview(review)) == Reduce(state, UpdateReview(review))
  {
  }
}
