/** The profile side of the client cache (client/src/lib/hooks/useProfile.ts):
    the three cache entries one profile page reads (the signed-in user, the
    profile and its photos), the updaters the photo mutations apply to them,
    and the rollback of the optimistic set-main. */
module UseProfile {
  import opened Wrappers
  import opened Domain

  /** A photo as the client receives it. */
  datatype ClientPhoto = ClientPhoto(id: string, url: string, isMain: bool)

  /** The signed-in user under the `['user']` key. */
  datatype CachedUser = CachedUser(id: string, displayName: string, imageUrl: Option<string>)

  /** A profile under the `['profile', id]` key. */
  datatype Profile = Profile(id: string, displayName: string, bio: Option<string>, imageUrl: Option<string>)

  /** What `onMutate` hands to `onError`. */
  datatype Snapshot = Snapshot(
    previousUser: Option<CachedUser>,
    previousProfile: Option<Profile>,
    previousPhotos: Option<seq<ClientPhoto>>)

  // The updaters. An absent entry (`undefined`) is returned as it is.

  /** Upload success on the user: `imageUrl ?? photo.url`. */
  function UserWithUpload(user: Option<CachedUser>, url: string): (r: Option<CachedUser>)
    ensures r.None? <==> user.None?
    ensures user.Some? ==> r.value == user.value.(imageUrl := r.value.imageUrl)
    ensures user.Some? && user.value.imageUrl.Some? ==> r == user
    ensures user.Some? && user.value.imageUrl.None? ==> r.value.imageUrl == Some(url)
  {
    match user
    case None => None
    case Some(u) => Some(u.(imageUrl := u.imageUrl.OrSome(url)))
  }

  /** Upload success on the profile: `imageUrl ?? photo.url`. */
  function ProfileWithUpload(profile: Option<Profile>, url: string): (r: Option<Profile>)
    ensures r.None? <==> profile.None?
    ensures profile.Some? ==> r.value == profile.value.(imageUrl := r.value.imageUrl)
    ensures profile.Some? && profile.value.imageUrl.Some? ==> r == profile
    ensures profile.Some? && profile.value.imageUrl.None? ==> r.value.imageUrl == Some(url)
  {
    match profile
    case None => None
    case Some(p) => Some(p.(imageUrl := p.imageUrl.OrSome(url)))
  }

  /** Optimistic set-main on the user: the image becomes the chosen photo's url. */
  function UserWithMain(user: Option<CachedUser>, url: string): (r: Option<CachedUser>)
    ensures r.None? <==> user.None?
    ensures user.Some? ==> r.value == user.value.(imageUrl := Some(url))
  {
    match user
    case None => None
    case Some(u) => Some(u.(imageUrl := Some(url)))
  }

  /** Optimistic set-main on the profile: the image becomes the chosen photo's url. */
  function ProfileWithMain(profile: Option<Profile>, url: string): (r: Option<Profile>)
    ensures r.None? <==> profile.None?
    ensures profile.Some? ==> r.value == profile.value.(imageUrl := Some(url))
  {
    match profile
    case None => None
    case Some(p) => Some(p.(imageUrl := Some(url)))
  }

  /** `photos.map(p => ({...p, isMain: p.id === id}))`. */
  function MarkMain(photos: seq<ClientPhoto>, id: string): (r: seq<ClientPhoto>)
    ensures |r| == |photos|
    ensures forall i :: 0 <= i < |r| ==> r[i].id == photos[i].id && r[i].url == photos[i].url
    ensures forall i :: 0 <= i < |r| ==> (r[i].isMain <==> photos[i].id == id)
  {
    seq(|photos|, i requires 0 <= i < |photos| => photos[i].(isMain := photos[i].id == id))
  }

  function PhotosWithMain(photos: Option<seq<ClientPhoto>>, id: string): (r: Option<seq<ClientPhoto>>)
    ensures r.None? <==> photos.None?
    ensures photos.Some? ==> r.value == MarkMain(photos.value, id)
  {
    match photos
    case None => None
    case Some(ps) => Some(MarkMain(ps, id))
  }

  /** Photo ids are unique in the list. */
  predicate UniqueIds(photos: seq<ClientPhoto>) {
    forall i, j :: 0 <= i < j < |photos| ==> photos[i].id != photos[j].id
  }

  /** With unique ids and the chosen photo in the list, exactly one photo is main afterwards. */
  lemma ExactlyOneMain(photos: seq<ClientPhoto>, id: string)
    requires UniqueIds(photos)
    requires exists k :: 0 <= k < |photos| && photos[k].id == id
    ensures exists k :: 0 <= k < |photos| && MarkMain(photos, id)[k].isMain
    ensures forall i, j ::
      0 <= i < |photos| && 0 <= j < |photos| && MarkMain(photos, id)[i].isMain && MarkMain(photos, id)[j].isMain
      ==> i == j
  {
    var r := MarkMain(photos, id);
    var k :| 0 <= k < |photos| && photos[k].id == id;
    assert r[k].isMain;
  }

  /** Marking the same photo twice is marking it once, and marking keeps the ids. */
  lemma MarkMainIdempotent(photos: seq<ClientPhoto>, id: string)
    ensures MarkMain(MarkMain(photos, id), id) == MarkMain(photos, id)
    ensures UniqueIds(photos) ==> UniqueIds(MarkMain(photos, id))
  {
  }

  /** `photos.filter(x => x.id !== photoId)`. */
  function WithoutPhotoId(photos: seq<ClientPhoto>, photoId: string): (r: seq<ClientPhoto>)
    ensures |r| <= |photos|
    ensures forall x :: x in r <==> x in photos && x.id != photoId
  {
    if photos == [] then []
    else
      var rest := WithoutPhotoId(photos[1..], photoId);
      assert forall x :: x in photos <==> x == photos[0] || x in photos[1..];
      if photos[0].id != photoId then [photos[0]] + rest else rest
  }

  /** The filter commutes with concatenation, so the photos it keeps stay in order. */
  lemma {:induction false} WithoutPhotoIdConcat(s: seq<ClientPhoto>, t: seq<ClientPhoto>, photoId: string)
    ensures WithoutPhotoId(s + t, photoId) == WithoutPhotoId(s, photoId) + WithoutPhotoId(t, photoId)
  {
    if s == [] {
      assert s + t == t;
    } else {
      assert (s + t)[1..] == s[1..] + t;
      WithoutPhotoIdConcat(s[1..], t, photoId);
    }
  }

  /** A list without that id is left as it is. */
  lemma {:induction false} WithoutAbsentPhotoId(s: seq<ClientPhoto>, photoId: string)
    requires forall i :: 0 <= i < |s| ==> s[i].id != photoId
    ensures WithoutPhotoId(s, photoId) == s
  {
    if s != [] {
      WithoutAbsentPhotoId(s[1..], photoId);
    }
  }

  /** Filtering out the id of the middle element of `p + [x] + q`, which only `x` carries. */
  lemma WithoutOnlyCarrier(p: seq<ClientPhoto>, x: ClientPhoto, q: seq<ClientPhoto>)
    requires forall j :: 0 <= j < |p| ==> p[j].id != x.id
    requires forall j :: 0 <= j < |q| ==> q[j].id != x.id
    ensures WithoutPhotoId(p + ([x] + q), x.id) == p + q
  {
    WithoutPhotoIdConcat(p, [x] + q, x.id);
    assert ([x] + q)[1..] == q;
    WithoutAbsentPhotoId(p, x.id);
    WithoutAbsentPhotoId(q, x.id);
  }

  /** Deleting the photo at index `i` of a list with unique ids removes exactly that one. */
  lemma DeleteRemovesOnlyThatPhoto(s: seq<ClientPhoto>, i: nat)
    requires UniqueIds(s) && i < |s|
    ensures WithoutPhotoId(s, s[i].id) == s[..i] + s[i + 1..]
  {
    var pre, post := s[..i], s[i + 1..];
    assert forall j :: 0 <= j < |pre| ==> pre[j] == s[j];
    assert forall j :: 0 <= j < |post| ==> post[j] == s[i + 1 + j];
    SplitAround(s, i);
    WithoutOnlyCarrier(pre, s[i], post);
  }

  function PhotosWithout(photos: Option<seq<ClientPhoto>>, photoId: string): (r: Option<seq<ClientPhoto>>)
    ensures r.None? <==> photos.None?
    ensures photos.Some? ==> r.value == WithoutPhotoId(photos.value, photoId)
  {
    match photos
    case None => None
    case Some(ps) => Some(WithoutPhotoId(ps, photoId))
  }

  /** `if (context?.previousX) setQueryData(..., context.previousX)`: an object or
      an array, even an empty one, is truthy, so a snapshot that exists is written back. */
  function RestoreEntry<T>(current: Option<T>, previous: Option<T>): (r: Option<T>)
    ensures previous.Some? ==> r == previous
    ensures previous.None? ==> r == current
  {
    match previous
    case Some(_) => previous
    case None => current
  }

  /** `isCurrentUser`: `id === getQueryData(['user'])?.id`. With neither a
      profile id nor a cached user both sides are `undefined`, which compares equal. */
  function IsCurrentUser(id: Option<string>, user: Option<CachedUser>): (r: bool)
    ensures id.Some? && user.Some? ==> (r <==> id.value == user.value.id)
    ensures id.Some? != user.Some? ==> !r
    ensures id.None? && user.None? ==> r
  {
    match (id, user)
    case (Some(i), Some(u)) => i == u.id
    case (None, None) => true
    case _ => false
  }

  /** The three cache entries that one `useProfile(id)` reads and writes. */
  class ProfileCache {
    var user: Option<CachedUser>
    var profile: Option<Profile>
    var photos: Option<seq<ClientPhoto>>

    constructor (user: Option<CachedUser>, profile: Option<Profile>, photos: Option<seq<ClientPhoto>>)
      ensures this.user == user && this.profile == profile && this.photos == photos
    {
      this.user := user;
      this.profile := profile;
      this.photos := photos;
    }

    /** `uploadPhoto.onSuccess`: user and profile take the url only where they had no image. */
    method UploadPhotoSuccess(photo: ClientPhoto)
      modifies this
      ensures user == UserWithUpload(old(user), photo.url)
      ensures profile == ProfileWithUpload(old(profile), photo.url)
      ensures photos == old(photos)
    {
      user := UserWithUpload(user, photo.url);
      profile := ProfileWithUpload(profile, photo.url);
    }

    /** `setMainPhoto.onMutate`: snapshot the three entries, then apply the optimistic update. */
    method SetMainOnMutate(photo: ClientPhoto) returns (context: Snapshot)
      modifies this
      ensures context == Snapshot(old(user), old(profile), old(photos))
      ensures user == UserWithMain(old(user), photo.url)
      ensures profile == ProfileWithMain(old(profile), photo.url)
      ensures photos == PhotosWithMain(old(photos), photo.id)
    {
      context := Snapshot(user, profile, photos);
      user := UserWithMain(user, photo.url);
      profile := ProfileWithMain(profile, photo.url);
      photos := PhotosWithMain(photos, photo.id);
    }

    /** `setMainPhoto.onError`: write back every snapshot that exists. */
    method SetMainOnError(context: Option<Snapshot>)
      modifies this
      ensures context.None? ==> user == old(user) && profile == old(profile) && photos == old(photos)
      ensures context.Some? ==>
        && user == RestoreEntry(old(user), context.value.previousUser)
        && profile == RestoreEntry(old(profile), context.value.previousProfile)
        && photos == RestoreEntry(old(photos), context.value.previousPhotos)
    {
      if context.Some? {
        if context.value.previousUser.Some? {
          user := context.value.previousUser;
        }
        if context.value.previousProfile.Some? {
          profile := context.value.previousProfile;
        }
        if context.value.previousPhotos.Some? {
          photos := context.value.previousPhotos;
        }
      }
    }

    /** `deletePhoto.onSuccess`: drop the photos with that id. */
    method DeletePhotoSuccess(photoId: string)
      modifies this
      ensures photos == PhotosWithout(old(photos), photoId)
      ensures user == old(user) && profile == old(profile)
    {
      photos := PhotosWithout(photos, photoId);
    }
  }

  /** Rolling back right after the optimistic update gives the entries as they
      were: an entry that was present is written back, and one that was absent
      was left absent by the update. */
  lemma RollbackRestores(user: Option<CachedUser>, profile: Option<Profile>,
                         photos: Option<seq<ClientPhoto>>, photo: ClientPhoto)
    ensures RestoreEntry(UserWithMain(user, photo.url), user) == user
    ensures RestoreEntry(ProfileWithMain(profile, photo.url), profile) == profile
    ensures RestoreEntry(PhotosWithMain(photos, photo.id), photos) == photos
  {
  }

  /** After a set-main the upload fallback no longer changes the image. */
  lemma UploadAfterMainKeepsMain(user: Option<CachedUser>, main: string, url: string)
    ensures UserWithUpload(UserWithMain(user, main), url) == UserWithMain(user, main)
  {
  }
}
