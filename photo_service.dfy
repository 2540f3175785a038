/** The photo storage service of Application/Interfaces/IPhotoService.cs. Its
    implementation is a call to a hosted image service; the model keeps only
    what a handler asks of it. */
module PhotoStorage {

  /** What a successful upload reports. */
  datatype PhotoUploadResult = PhotoUploadResult(publicId: string, url: string)

  /** The remote side, observed as the log of deletions requested from it. */
  class PhotoService {
    var deletedPublicIds: seq<string>

    constructor ()
      ensures deletedPublicIds == []
    {
      deletedPublicIds := [];
    }

    /** `DeletePhoto(publicId)`: one more deletion request. */
    method DeletePhoto(publicId: string)
      modifies this
      ensures deletedPublicIds == old(deletedPublicIds) + [publicId]
    {
      deletedPublicIds := deletedPublicIds + [publicId];
    }
  }
}
