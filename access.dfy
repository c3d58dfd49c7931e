/**
 * The owner-only guard in front of adding an image to a spot, editing a spot and
 * deleting a spot: a missing spot answers 404, a caller who is not the owner 403.
 */
module Access {
  import opened Wrappers
  import opened Domain

  datatype Access =
    | SpotMissing
    | NotOwner
    | Owner(index: nat)  // position of the caller's spot in the spots table

  /** Look the spot up by key, then compare its `ownerId` with the caller's id. */
  function OwnerAccess(spots: seq<Spot>, userId: UserId, spotId: SpotId): (a: Access)
    requires UniqueSpotIds(spots)
    ensures a.SpotMissing? <==> !HasSpot(spots, spotId)
    ensures a.NotOwner? <==> HasSpot(spots, spotId) && !IsOwner(spots, spotId, userId)
    ensures a.Owner? ==> a.index < |spots| && spots[a.index].id == spotId && spots[a.index].ownerId == userId
  {
    match SpotIndex(spots, spotId)
    case None => SpotMissing
    case Some(i) =>
      FoundSpotDecidesOwner(spots, spotId, userId);
      if userId != spots[i].ownerId then NotOwner else Owner(i)
  }
}
