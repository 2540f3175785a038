/** SetMainPhoto.Handler (Application/Profiles/Command/SetMainPhoto.cs): make
    one of the current user's photos the main image. */
module SetMainPhoto {
  import opened Wrappers
  import opened Domain
  import opened CoreResult
  import opened Persistence

  /** The user after choosing photo `photoId` (the first with that id), or
      `None` when the user has no such photo. */
  function SetMain(u: User, photoId: string): (r: Option<User>)
    ensures r.None? <==> !HasPhoto(u.photos, photoId)
    ensures r.Some? ==> exists i :: 0 <= i < |u.photos| && u.photos[i].id == photoId
                                    && (forall j :: 0 <= j < i ==> u.photos[j].id != photoId)
                                    && r.value == u.(imageUrl := Some(u.photos[i].url))
  {
    match IndexOfPhoto(u.photos, photoId)
    case None => None
    case Some(i) => Some(u.(imageUrl := Some(u.photos[i].url)))
  }

  /** Choosing the same photo again changes nothing more. */
  lemma SetMainIdempotent(u: User, photoId: string)
    requires HasPhoto(u.photos, photoId)
    ensures SetMain(SetMain(u, photoId).value, photoId) == SetMain(u, photoId)
  {
    var once := SetMain(u, photoId).value;
    assert once.photos == u.photos;
  }

  /** `Handler.Handle`. */
  method Handle(db: AppDbContext, userId: string, photoId: string, saved: bool) returns (r: Result<Unit>)
    requires db.Valid()
    requires userId in db.users
    modifies db
    ensures db.Valid()
    ensures db.activities == old(db.activities) && db.userFollowings == old(db.userFollowings)
    ensures var s := SetMain(old(db.users)[userId], photoId);
      && (s.None? ==> r == Failure("Cannot find photo", 400) && db.users == old(db.users))
      && (s.Some? ==>
            && db.users == old(db.users)[userId := s.value]
            && r == if saved then Success(Unit) else Failure("Problem updating the main photo", 400))
  {
    var user := db.users[userId];
    var found := IndexOfPhoto(user.photos, photoId);
    if found.None? {
      return Failure("Cannot find photo", 400);
    }
    user := user.(imageUrl := Some(user.photos[found.value].url));
    db.users := db.users[userId := user];
    r := if saved then Success(Unit) else Failure("Problem updating the main photo", 400);
  }
}
