/** The postmarks service: GET /api/postmarks/ when its URL is
    configured, and an empty list otherwise. */
module Postmarks {
  import opened Wrappers
  import opened JsStrings
  import opened ApiClient

  /** One item of the response's `results`. */
  datatype PostmarkApiItem = PostmarkApiItem(
    postmarkId: int, postmarkKey: string, facilityName: string, shapeName: string,
    rateLocation: string, rateValue: string, isManuscript: bool, mainImage: Option<string>,
    responsibleGroups: Option<seq<Json>>)

  /** The record the app uses. */
  datatype PostmarkRecord = PostmarkRecord(
    id: int, postmarkKey: string, facilityName: string, shapeName: string,
    rateLocation: string, rateValue: string, isManuscript: bool, mainImage: Option<string>,
    responsibleGroups: seq<Json>)

  const Suffix := "/api/postmarks"

  /** The record carries the item's fields under the record's names. */
  predicate FromItem(rec: PostmarkRecord, item: PostmarkApiItem) {
    rec.id == item.postmarkId
    && rec.postmarkKey == item.postmarkKey
    && rec.facilityName == item.facilityName
    && rec.shapeName == item.shapeName
    && rec.rateLocation == item.rateLocation
    && rec.rateValue == item.rateValue
    && rec.isManuscript == item.isManuscript
    && rec.mainImage == item.mainImage
    && rec.responsibleGroups == (if item.responsibleGroups.Some? then item.responsibleGroups.value else [])
  }

  /** The field renaming applied to each result. */
  function ToRecord(item: PostmarkApiItem): PostmarkRecord {
    PostmarkRecord(item.postmarkId, item.postmarkKey, item.facilityName, item.shapeName,
      item.rateLocation, item.rateValue, item.isManuscript, item.mainImage,
      item.responsibleGroups.GetOr([]))
  }

  /** `getPostmarks`: unconfigured, an empty list and no request;
      configured, the HTTP errors of `GetList`, or one record per result,
      in order, with its fields taken from the result. */
  function GetPostmarks(env: Option<string>, fetch: string -> Response<PostmarkApiItem>)
    : (r: Result<seq<PostmarkRecord>, ApiError>)
    ensures ApiUrl(env, Suffix).None? ==> r == Success([])
    ensures ApiUrl(env, Suffix).Some? ==>
              var res := fetch(RequestUrl(ApiUrl(env, Suffix).value));
              (r.Success? <==> res.Response? && res.ok && res.results.Some?)
              && (res.Rejected? ==> r == Failure(Rejection(res.message)))
              && (res.Response? && !res.ok ==> r == Failure(HttpError(res.status, res.statusText)))
              && (res.Response? && res.ok && res.results.None? ==> r == Failure(MissingResults))
              && (r.Success? ==> |r.value| == |res.results.value|
                                 && forall i :: 0 <= i < |r.value| ==> FromItem(r.value[i], res.results.value[i]))
  {
    GetList(env, Suffix, fetch, ToRecord)
  }

  /** The configured URL ends in "/api/postmarks", normalising it again
      changes nothing, and the request adds exactly one slash. */
  lemma PostmarksUrl(env: Option<string>)
    ensures ApiUrl(env, Suffix).None? <==> env.None? || Blank(env.value)
    ensures ApiUrl(env, Suffix).Some? ==>
              ApiUrl(ApiUrl(env, Suffix), Suffix) == ApiUrl(env, Suffix)
              && RequestUrl(ApiUrl(env, Suffix).value) == ApiUrl(env, Suffix).value + "/"
  {
    assert WellFormedSuffix(Suffix);
    ApiUrlIdempotent(env, Suffix);
    if ApiUrl(env, Suffix).Some? {
      RequestUrlOneSlash(env, Suffix);
    }
  }
}
