/** DeletePhoto.Handler (Application/Profiles/Command/DeletePhoto.cs): remove
    one of the current user's photos, never the main one. */
module DeletePhoto {
  import opened Wrappers
  import opened Domain
  import opened CoreResult
  import opened Persistence
  import opened PhotoStorage

  /** The two guards, in the order the handler applies them. */
  datatype Check = Missing | IsMain | Removable(index: nat)

  function CheckPhoto(u: User, photoId: string): (c: Check)
    ensures c == Missing <==> !HasPhoto(u.photos, photoId)
    ensures c.Removable? ==> c.index < |u.photos| && u.photos[c.index].id == photoId
                             && (forall j :: 0 <= j < c.index ==> u.photos[j].id != photoId)
                             && Some(u.photos[c.index].url) != u.imageUrl
    ensures c == IsMain ==> exists i :: 0 <= i < |u.photos| && u.photos[i].id == photoId
                                        && (forall j :: 0 <= j < i ==> u.photos[j].id != photoId)
                                        && Some(u.photos[i].url) == u.imageUrl
  {
    match IndexOfPhoto(u.photos, photoId)
    case None => Missing
    case Some(i) => if Some(u.photos[i].url) == u.imageUrl then IsMain else Removable(i)
  }

  /** `user.Photos.Remove(photo)`. */
  function WithoutPhoto(u: User, i: nat): (r: User)
    requires i < |u.photos|
    ensures r == u.(photos := RemoveAt(u.photos, i))
  {
    u.(photos := RemoveAt(u.photos, i))
  }

  /** The main photo survives every deletion: a removable photo is never one
      whose url is the user's image, so every such photo is still there, and
      the image itself is untouched. */
  lemma MainPhotoSurvives(u: User, photoId: string, q: Photo)
    requires CheckPhoto(u, photoId).Removable?
    requires q in u.photos && Some(q.url) == u.imageUrl
    ensures var r := WithoutPhoto(u, CheckPhoto(u, photoId).index);
            q in r.photos && r.imageUrl == u.imageUrl
  {
    var i := CheckPhoto(u, photoId).index;
    var k :| 0 <= k < |u.photos| && u.photos[k] == q;
    assert k != i;
    var r := WithoutPhoto(u, i);
    if k < i {
      assert r.photos[k] == q;
    } else {
      assert r.photos[k - 1] == q;
    }
  }

  /** `Handler.Handle`: the photo service is asked to delete the stored image
      only after both guards pass. */
  method Handle(db: AppDbContext, service: PhotoService, userId: string, photoId: string, saved: bool)
    returns (r: Result<Unit>)
    requires db.Valid()
    requires userId in db.users
    modifies db, service
    ensures db.Valid()
    ensures db.activities == old(db.activities) && db.userFollowings == old(db.userFollowings)
    ensures var c := CheckPhoto(old(db.users)[userId], photoId);
      && (c == Missing ==> r == Failure("Cannot find photo", 400))
      && (c == IsMain ==> r == Failure("Cannot delete main photo", 400))
      && (!c.Removable? ==> db.users == old(db.users) && service.deletedPublicIds == old(service.deletedPublicIds))
      && (c.Removable? ==>
            && service.deletedPublicIds == old(service.deletedPublicIds) + [old(db.users)[userId].photos[c.index].publicId]
            && db.users == old(db.users)[userId := WithoutPhoto(old(db.users)[userId], c.index)]
            && r == if saved then Success(Unit) else Failure("Problem deleting photo", 400))
  {
    var user := db.users[userId];
    var found := IndexOfPhoto(user.photos, photoId);
    if found.None? {
      return Failure("Cannot find photo", 400);
    }
    var photo := user.photos[found.value];
    if Some(photo.url) == user.imageUrl {
      return Failure("Cannot delete main photo", 400);
    }
    service.DeletePhoto(photo.publicId);
    user := WithoutPhoto(user, found.value);
    db.users := db.users[userId := user];
    r := if saved then Success(Unit) else Failure("Problem deleting photo", 400);
  }
}
