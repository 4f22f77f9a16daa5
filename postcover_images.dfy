/** The postcover images service: GET /api/postcover-images/ when its URL is
    configured, and an empty list otherwise. */
module PostcoverImages {
  import opened Wrappers
  import opened JsStrings
  import opened ApiClient

  /** One item of the response's `results`. */
  datatype PostcoverImageApiItem = PostcoverImageApiItem(
    postcoverImageId: int, originalFilename: string, storageFilename: string, imageUrl: string,
    mimeType: string, imageWidth: int, imageHeight: int, fileSizeBytes: int, imageView: string,
    imageDescription: string, displayOrder: int, createdDate: string)

  /** The record the app uses. */
  datatype PostcoverImageRecord = PostcoverImageRecord(
    id: int, originalFilename: string, storageFilename: string, imageUrl: string,
    mimeType: string, imageWidth: int, imageHeight: int, fileSizeBytes: int, imageView: string,
    imageDescription: string, displayOrder: int, createdDate: string)

  const Suffix := "/api/postcover-images"

  /** The record carries the item's fields under the record's names. */
  predicate FromItem(rec: PostcoverImageRecord, item: PostcoverImageApiItem) {
    rec.id == item.postcoverImageId
    && rec.originalFilename == item.originalFilename
    && rec.storageFilename == item.storageFilename
    && rec.imageUrl == item.imageUrl
    && rec.mimeType == item.mimeType
    && rec.imageWidth == item.imageWidth
    && rec.imageHeight == item.imageHeight
    && rec.fileSizeBytes == item.fileSizeBytes
    && rec.imageView == item.imageView
    && rec.imageDescription == item.imageDescription
    && rec.displayOrder == item.displayOrder
    && rec.createdDate == item.createdDate
  }

  /** The field renaming applied to each result. */
  function ToRecord(item: PostcoverImageApiItem): PostcoverImageRecord {
    PostcoverImageRecord(item.postcoverImageId, item.originalFilename, item.storageFilename, item.imageUrl,
      item.mimeType, item.imageWidth, item.imageHeight, item.fileSizeBytes, item.imageView,
      item.imageDescription, item.displayOrder, item.createdDate)
  }

  /** `getPostcoverImages`: unconfigured, an empty list and no request;
      configured, the HTTP errors of `GetList`, or one record per result,
      in order, with its fields taken from the result. */
  function GetPostcoverImages(env: Option<string>, fetch: string -> Response<PostcoverImageApiItem>)
    : (r: Result<seq<PostcoverImageRecord>, ApiError>)
    ensures ApiUrl(env, Suffix).None? ==> r == Success([])
    ensures ApiUrl(env, Suffix).Some? ==>
              var res := fetch(RequestUrl(ApiUrl(env, Suffix).value));
              (r.Success? <==> res.Response? && res.ok && res.results.Some?)
              && (res.Rejected? ==> r == Failure(Rejection(res.message)))
              && (res.Response? && !res.ok ==> r == Failure(HttpError(res.status, res.statusText)))
              && (res.Response? && res.ok && res.results.None? ==> r == Failure(MissingResults))
              && (r.Success? ==> |r.value| == |res.results.value|
                                 && forall i :: 0 <= i < |r.value| ==> FromItem(r.value[i], res.results.value[i]))
  {
    GetList(env, Suffix, fetch, ToRecord)
  }

  /** The configured URL ends in "/api/postcover-images", normalising it again
      changes nothing, and the request adds exactly one slash. */
  lemma PostcoverImagesUrl(env: Option<string>)
    ensures ApiUrl(env, Suffix).None? <==> env.None? || Blank(env.value)
    ensures ApiUrl(env, Suffix).Some? ==>
              ApiUrl(ApiUrl(env, Suffix), Suffix) == ApiUrl(env, Suffix)
              && RequestUrl(ApiUrl(env, Suffix).value) == ApiUrl(env, Suffix).value + "/"
  {
    assert WellFormedSuffix(Suffix);
    ApiUrlIdempotent(env, Suffix);
    if ApiUrl(env, Suffix).Some? {
      RequestUrlOneSlash(env, Suffix);
    }
  }
}
