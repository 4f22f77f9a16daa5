/** The postmark valuations service: GET /api/postmark-valuations/ when its URL is
    configured, and an empty list otherwise. */
module PostmarkValuations {
  import opened Wrappers
  import opened JsStrings
  import opened ApiClient

  /** One item of the response's `results`. */
  datatype PostmarkValuationApiItem = PostmarkValuationApiItem(
    postmarkValuationId: int, valuedBy: ApiUser, estimatedValue: string, valuationDate: string,
    createdDate: string)

  /** The record the app uses. */
  datatype PostmarkValuationRecord = PostmarkValuationRecord(
    id: int, valuedBy: ApiUser, estimatedValue: string, valuationDate: string,
    createdDate: string)

  const Suffix := "/api/postmark-valuations"

  /** The record carries the item's fields under the record's names. */
  predicate FromItem(rec: PostmarkValuationRecord, item: PostmarkValuationApiItem) {
    rec.id == item.postmarkValuationId
    && rec.valuedBy == item.valuedBy
    && rec.estimatedValue == item.estimatedValue
    && rec.valuationDate == item.valuationDate
    && rec.createdDate == item.createdDate
  }

  /** The field renaming applied to each result. */
  function ToRecord(item: PostmarkValuationApiItem): PostmarkValuationRecord {
    PostmarkValuationRecord(item.postmarkValuationId, item.valuedBy, item.estimatedValue, item.valuationDate,
      item.createdDate)
  }

  /** `getPostmarkValuations`: unconfigured, an empty list and no request;
      configured, the HTTP errors of `GetList`, or one record per result,
      in order, with its fields taken from the result. */
  function GetPostmarkValuations(env: Option<string>, fetch: string -> Response<PostmarkValuationApiItem>)
    : (r: Result<seq<PostmarkValuationRecord>, ApiError>)
    ensures ApiUrl(env, Suffix).None? ==> r == Success([])
    ensures ApiUrl(env, Suffix).Some? ==>
              var res := fetch(RequestUrl(ApiUrl(env, Suffix).value));
              (r.Success? <==> res.Response? && res.ok && res.results.Some?)
              && (res.Rejected? ==> r == Failure(Rejection(res.message)))
              && (res.Response? && !res.ok ==> r == Failure(HttpError(res.status, res.statusText)))
              && (res.Response? && res.ok && res.results.None? ==> r == Failure(MissingResults))
              && (r.Success? ==> |r.value| == |res.results.value|
                                 && forall i :: 0 <= i < |r.value| ==> FromItem(r.value[i], res.results.value[i]))
  {
    GetList(env, Suffix, fetch, ToRecord)
  }

  /** The configured URL ends in "/api/postmark-valuations", normalising it again
      changes nothing, and the request adds exactly one slash. */
  lemma PostmarkValuationsUrl(env: Option<string>)
    ensures ApiUrl(env, Suffix).None? <==> env.None? || Blank(env.value)
    ensures ApiUrl(env, Suffix).Some? ==>
              ApiUrl(ApiUrl(env, Suffix), Suffix) == ApiUrl(env, Suffix)
              && RequestUrl(ApiUrl(env, Suffix).value) == ApiUrl(env, Suffix).value + "/"
  {
    assert WellFormedSuffix(Suffix);
    ApiUrlIdempotent(env, Suffix);
    if ApiUrl(env, Suffix).Some? {
      RequestUrlOneSlash(env, Suffix);
    }
  }
}
