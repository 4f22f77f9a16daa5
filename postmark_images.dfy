/** The postmark images service: GET /api/postmark-images/ when its URL is
    configured, and an empty list otherwise. */
module PostmarkImages {
  import opened Wrappers
  import opened JsStrings
  import opened ApiClient

  /** One item of the response's `results`. */
  datatype PostmarkImageApiItem = PostmarkImageApiItem(
    postmarkImageId: int, originalFilename: string, storageFilename: string, imageUrl: string,
    mimeType: string, imageWidth: int, imageHeight: int, fileSizeBytes: int, imageView: string,
    imageStatus: string, submitterName: string, submitterEmail: string,
    imageDescription: string, displayOrder: int, uploadedBy: int, createdDate: string)

  /** The record the app uses. */
  datatype PostmarkImageRecord = PostmarkImageRecord(
    id: int, originalFilename: string, storageFilename: string, imageUrl: string,
    mimeType: string, imageWidth: int, imageHeight: int, fileSizeBytes: int, imageView: string,
    imageStatus: string, submitterName: string, submitterEmail: string,
    imageDescription: string, displayOrder: int, uploadedBy: int, createdDate: string)

  const Suffix := "/api/postmark-images"

  /** The record carries the item's fields under the record's names. */
  predicate FromItem(rec: PostmarkImageRecord, item: PostmarkImageApiItem) {
    rec.id == item.postmarkImageId
    && rec.originalFilename == item.originalFilename
    && rec.storageFilename == item.storageFilename
    && rec.imageUrl == item.imageUrl
    && rec.mimeType == item.mimeType
    && rec.imageWidth == item.imageWidth
    && rec.imageHeight == item.imageHeight
    && rec.fileSizeBytes == item.fileSizeBytes
    && rec.imageView == item.imageView
    && rec.imageStatus == item.imageStatus
    && rec.submitterName == item.submitterName
    && rec.submitterEmail == item.submitterEmail
    && rec.imageDescription == item.imageDescription
    && rec.displayOrder == item.displayOrder
    && rec.uploadedBy == item.uploadedBy
    && rec.createdDate == item.createdDate
  }

  /** The field renaming applied to each result. */
  function ToRecord(item: PostmarkImageApiItem): PostmarkImageRecord {
    PostmarkImageRecord(item.postmarkImageId, item.originalFilename, item.storageFilename, item.imageUrl,
      item.mimeType, item.imageWidth, item.imageHeight, item.fileSizeBytes, item.imageView,
      item.imageStatus, item.submitterName, item.submitterEmail, item.imageDescription,
      item.displayOrder, item.uploadedBy, item.createdDate)
  }

  /** `getPostmarkImages`: unconfigured, an empty list and no request;
      configured, the HTTP errors of `GetList`, or one record per result,
      in order, with its fields taken from the result. */
  function GetPostmarkImages(env: Option<string>, fetch: string -> Response<PostmarkImageApiItem>)
    : (r: Result<seq<PostmarkImageRecord>, ApiError>)
    ensures ApiUrl(env, Suffix).None? ==> r == Success([])
    ensures ApiUrl(env, Suffix).Some? ==>
              var res := fetch(RequestUrl(ApiUrl(env, Suffix).value));
              (r.Success? <==> res.Response? && res.ok && res.results.Some?)
              && (res.Rejected? ==> r == Failure(Rejection(res.message)))
              && (res.Response? && !res.ok ==> r == Failure(HttpError(res.status, res.statusText)))
              && (res.Response? && res.ok && res.results.None? ==> r == Failure(MissingResults))
              && (r.Success? ==> |r.value| == |res.results.value|
                                 && forall i :: 0 <= i < |r.value| ==> FromItem(r.value[i], res.results.value[i]))
  {
    GetList(env, Suffix, fetch, ToRecord)
  }

  /** The configured URL ends in "/api/postmark-images", normalising it again
      changes nothing, and the request adds exactly one slash. */
  lemma PostmarkImagesUrl(env: Option<string>)
    ensures ApiUrl(env, Suffix).None? <==> env.None? || Blank(env.value)
    ensures ApiUrl(env, Suffix).Some? ==>
              ApiUrl(ApiUrl(env, Suffix), Suffix) == ApiUrl(env, Suffix)
              && RequestUrl(ApiUrl(env, Suffix).value) == ApiUrl(env, Suffix).value + "/"
  {
    assert WellFormedSuffix(Suffix);
    ApiUrlIdempotent(env, Suffix);
    if ApiUrl(env, Suffix).Some? {
      RequestUrlOneSlash(env, Suffix);
    }
  }
}
