/** AddPhoto.Handler (Application/Profiles/Command/AddPhoto.cs): store an
    uploaded photo for the current user, making it the main image only when
    the user has none. */
module AddPhoto {
  import opened Wrappers
  import opened Domain
  import opened CoreResult
  import opened Persistence
  import opened PhotoStorage

  /** `user.ImageUrl ??= photo.Url` and the photo's insertion for its user. */
  function WithUploadedPhoto(u: User, p: Photo): (r: User)
    ensures |r.photos| == |u.photos| + 1
    ensures r.photos[..|u.photos|] == u.photos && r.photos[|u.photos|] == p
    ensures u.imageUrl.None? ==> r.imageUrl == Some(p.url)
    ensures u.imageUrl.Some? ==> r.imageUrl == u.imageUrl
    ensures r == u.(photos := r.photos, imageUrl := r.imageUrl)
  {
    u.(imageUrl := u.imageUrl.OrSome(p.url), photos := u.photos + [p])
  }

  /** Only the first photo of a user without a main image becomes the main
      image: later uploads never replace it. */
  lemma FirstUploadStaysMain(u: User, p: Photo, q: Photo)
    requires u.imageUrl.None?
    ensures WithUploadedPhoto(WithUploadedPhoto(u, p), q).imageUrl == Some(p.url)
    ensures WithUploadedPhoto(WithUploadedPhoto(u, p), q).photos == u.photos + [p, q]
  {
  }

  /** `Handler.Handle`. `upload` is what the photo service returned for the file
      (`None`: the upload failed) and `photoId` the new photo's generated id. */
  method Handle(db: AppDbContext, userId: string, upload: Option<PhotoUploadResult>,
                photoId: string, saved: bool) returns (r: Result<Photo>)
    requires db.Valid()
    requires userId in db.users
    modifies db
    ensures db.Valid()
    ensures db.activities == old(db.activities) && db.userFollowings == old(db.userFollowings)
    ensures upload.None? ==> r == Failure("Failed to upload photo", 400) && db.users == old(db.users)
    ensures upload.Some? ==>
      var p := Photo(photoId, upload.value.url, upload.value.publicId, userId);
      && db.users == old(db.users)[userId := WithUploadedPhoto(old(db.users)[userId], p)]
      && r == if saved then Success(p) else Failure("Problem saving photo to DB", 400)
  {
    if upload.None? {
      return Failure("Failed to upload photo", 400);
    }
    var user := db.users[userId];
    var photo := Photo(photoId, upload.value.url, upload.value.publicId, user.id);
    user := WithUploadedPhoto(user, photo);
    db.users := db.users[userId := user];
    r := if saved then Success(photo) else Failure("Problem saving photo to DB", 400);
  }
}
