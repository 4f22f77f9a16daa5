/** The framing styles service: GET /api/framing-styles/ when its URL is
    configured, and an empty list otherwise. */
module FramingStyles {
  import opened Wrappers
  import opened JsStrings
  import opened ApiClient

  /** One item of the response's `results`. */
  datatype FramingStyleApiItem = FramingStyleApiItem(
    framingStyleId: int, createdDate: string, modifiedDate: string, framingStyleName: string,
    framingDescription: string, createdBy: int, modifiedBy: int)

  /** The record the app uses. */
  datatype FramingStyleOption = FramingStyleOption(
    id: int, name: string, description: string)

  const Suffix := "/api/framing-styles"

  /** The record carries the item's fields under the record's names. The item's `createdDate`, `modifiedDate`, `createdBy`, `modifiedBy` are not carried over. */
  predicate FromItem(rec: FramingStyleOption, item: FramingStyleApiItem) {
    rec.id == item.framingStyleId
    && rec.name == item.framingStyleName
    && rec.description == item.framingDescription
  }

  /** The field renaming applied to each result. */
  function ToRecord(item: FramingStyleApiItem): FramingStyleOption {
    FramingStyleOption(item.framingStyleId, item.framingStyleName, item.framingDescription)
  }

  /** `getFramingStyles`: unconfigured, an empty list and no request;
      configured, the HTTP errors of `GetList`, or one record per result,
      in order, with its fields taken from the result. */
  function GetFramingStyles(env: Option<string>, fetch: string -> Response<FramingStyleApiItem>)
    : (r: Result<seq<FramingStyleOption>, ApiError>)
    ensures ApiUrl(env, Suffix).None? ==> r == Success([])
    ensures ApiUrl(env, Suffix).Some? ==>
              var res := fetch(RequestUrl(ApiUrl(env, Suffix).value));
              (r.Success? <==> res.Response? && res.ok && res.results.Some?)
              && (res.Rejected? ==> r == Failure(Rejection(res.message)))
              && (res.Response? && !res.ok ==> r == Failure(HttpError(res.status, res.statusText)))
              && (res.Response? && res.ok && res.results.None? ==> r == Failure(MissingResults))
              && (r.Success? ==> |r.value| == |res.results.value|
                                 && forall i :: 0 <= i < |r.value| ==> FromItem(r.value[i], res.results.value[i]))
  {
    GetList(env, Suffix, fetch, ToRecord)
  }

  /** The configured URL ends in "/api/framing-styles", normalising it again
      changes nothing, and the request adds exactly one slash. */
  lemma FramingStylesUrl(env: Option<string>)
    ensures ApiUrl(env, Suffix).None? <==> env.None? || Blank(env.value)
    ensures ApiUrl(env, Suffix).Some? ==>
              ApiUrl(ApiUrl(env, Suffix), Suffix) == ApiUrl(env, Suffix)
              && RequestUrl(ApiUrl(env, Suffix).value) == ApiUrl(env, Suffix).value + "/"
  {
    assert WellFormedSuffix(Suffix);
    ApiUrlIdempotent(env, Suffix);
    if ApiUrl(env, Suffix).Some? {
      RequestUrlOneSlash(env, Suffix);
    }
  }
}
