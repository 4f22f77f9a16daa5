/** The postcovers service: GET /api/postcovers/ when its URL is
    configured, and an empty list otherwise. */
module Postcovers {
  import opened Wrappers
  import opened JsStrings
  import opened ApiClient

  /** One item of the response's `results`. */
  datatype PostcoverApiItem = PostcoverApiItem(
    postcoverId: int, postcoverKey: string, ownerUsername: string, postmarkCount: int,
    createdDate: string)

  /** The record the app uses. */
  datatype PostcoverRecord = PostcoverRecord(
    id: int, postcoverKey: string, ownerUsername: string, postmarkCount: int,
    createdDate: string)

  const Suffix := "/api/postcovers"

  /** The record carries the item's fields under the record's names. */
  predicate FromItem(rec: PostcoverRecord, item: PostcoverApiItem) {
    rec.id == item.postcoverId
    && rec.postcoverKey == item.postcoverKey
    && rec.ownerUsername == item.ownerUsername
    && rec.postmarkCount == item.postmarkCount
    && rec.createdDate == item.createdDate
  }

  /** The field renaming applied to each result. */
  function ToRecord(item: PostcoverApiItem): PostcoverRecord {
    PostcoverRecord(item.postcoverId, item.postcoverKey, item.ownerUsername, item.postmarkCount,
      item.createdDate)
  }

  /** `getPostcovers`: unconfigured, an empty list and no request;
      configured, the HTTP errors of `GetList`, or one record per result,
      in order, with its fields taken from the result. */
  function GetPostcovers(env: Option<string>, fetch: string -> Response<PostcoverApiItem>)
    : (r: Result<seq<PostcoverRecord>, ApiError>)
    ensures ApiUrl(env, Suffix).None? ==> r == Success([])
    ensures ApiUrl(env, Suffix).Some? ==>
              var res := fetch(RequestUrl(ApiUrl(env, Suffix).value));
              (r.Success? <==> res.Response? && res.ok && res.results.Some?)
              && (res.Rejected? ==> r == Failure(Rejection(res.message)))
              && (res.Response? && !res.ok ==> r == Failure(HttpError(res.status, res.statusText)))
              && (res.Response? && res.ok && res.results.None? ==> r == Failure(MissingResults))
              && (r.Success? ==> |r.value| == |res.results.value|
                                 && forall i :: 0 <= i < |r.value| ==> FromItem(r.value[i], res.results.value[i]))
  {
    GetList(env, Suffix, fetch, ToRecord)
  }

  /** The configured URL ends in "/api/postcovers", normalising it again
      changes nothing, and the request adds exactly one slash. */
  lemma PostcoversUrl(env: Option<string>)
    ensures ApiUrl(env, Suffix).None? <==> env.None? || Blank(env.value)
    ensures ApiUrl(env, Suffix).Some? ==>
              ApiUrl(ApiUrl(env, Suffix), Suffix) == ApiUrl(env, Suffix)
              && RequestUrl(ApiUrl(env, Suffix).value) == ApiUrl(env, Suffix).value + "/"
  {
    assert WellFormedSuffix(Suffix);
    ApiUrlIdempotent(env, Suffix);
    if ApiUrl(env, Suffix).Some? {
      RequestUrlOneSlash(env, Suffix);
    }
  }
}
