/** The lettering styles service: GET /api/lettering-styles/ when its URL is
    configured, and an empty list otherwise. */
module LetteringStyles {
  import opened Wrappers
  import opened JsStrings
  import opened ApiClient

  /** One item of the response's `results`. */
  datatype LetteringStyleApiItem = LetteringStyleApiItem(
    letteringStyleId: int, createdDate: string, modifiedDate: string,
    letteringStyleName: string, letteringDescription: string, createdBy: int, modifiedBy: int)

  /** The record the app uses. */
  datatype LetteringStyleOption = LetteringStyleOption(
    id: int, name: string, description: string)

  const Suffix := "/api/lettering-styles"

  /** The record carries the item's fields under the record's names. The item's `createdDate`, `modifiedDate`, `createdBy`, `modifiedBy` are not carried over. */
  predicate FromItem(rec: LetteringStyleOption, item: LetteringStyleApiItem) {
    rec.id == item.letteringStyleId
    && rec.name == item.letteringStyleName
    && rec.description == item.letteringDescription
  }

  /** The field renaming applied to each result. */
  function ToRecord(item: LetteringStyleApiItem): LetteringStyleOption {
    LetteringStyleOption(item.letteringStyleId, item.letteringStyleName, item.letteringDescription)
  }

  /** `getLetteringStyles`: unconfigured, an empty list and no request;
      configured, the HTTP errors of `GetList`, or one record per result,
      in order, with its fields taken from the result. */
  function GetLetteringStyles(env: Option<string>, fetch: string -> Response<LetteringStyleApiItem>)
    : (r: Result<seq<LetteringStyleOption>, ApiError>)
    ensures ApiUrl(env, Suffix).None? ==> r == Success([])
    ensures ApiUrl(env, Suffix).Some? ==>
              var res := fetch(RequestUrl(ApiUrl(env, Suffix).value));
              (r.Success? <==> res.Response? && res.ok && res.results.Some?)
              && (res.Rejected? ==> r == Failure(Rejection(res.message)))
              && (res.Response? && !res.ok ==> r == Failure(HttpError(res.status, res.statusText)))
              && (res.Response? && res.ok && res.results.None? ==> r == Failure(MissingResults))
              && (r.Success? ==> |r.value| == |res.results.value|
                                 && forall i :: 0 <= i < |r.value| ==> FromItem(r.value[i], res.results.value[i]))
  {
    GetList(env, Suffix, fetch, ToRecord)
  }

  /** The configured URL ends in "/api/lettering-styles", normalising it again
      changes nothing, and the request adds exactly one slash. */
  lemma LetteringStylesUrl(env: Option<string>)
    ensures ApiUrl(env, Suffix).None? <==> env.None? || Blank(env.value)
    ensures ApiUrl(env, Suffix).Some? ==>
              ApiUrl(ApiUrl(env, Suffix), Suffix) == ApiUrl(env, Suffix)
              && RequestUrl(ApiUrl(env, Suffix).value) == ApiUrl(env, Suffix).value + "/"
  {
    assert WellFormedSuffix(Suffix);
    ApiUrlIdempotent(env, Suffix);
    if ApiUrl(env, Suffix).Some? {
      RequestUrlOneSlash(env, Suffix);
    }
  }
}
