/** The publication references service: GET /api/publication-references/ when its URL is
    configured, and an empty list otherwise. */
module PublicationReferences {
  import opened Wrappers
  import opened JsStrings
  import opened ApiClient

  /** One item of the response's `results`. */
  datatype PublicationReferenceApiItem = PublicationReferenceApiItem(
    postmarkPublicationReferenceId: int, postmarkPublication: int, publicationTitle: string,
    publishedId: string, referenceLocation: string, createdDate: string)

  /** The record the app uses. */
  datatype PublicationReferenceRecord = PublicationReferenceRecord(
    id: int, postmarkPublication: int, publicationTitle: string, publishedId: string,
    referenceLocation: string, createdDate: string)

  const Suffix := "/api/publication-references"

  /** The record carries the item's fields under the record's names. */
  predicate FromItem(rec: PublicationReferenceRecord, item: PublicationReferenceApiItem) {
    rec.id == item.postmarkPublicationReferenceId
    && rec.postmarkPublication == item.postmarkPublication
    && rec.publicationTitle == item.publicationTitle
    && rec.publishedId == item.publishedId
    && rec.referenceLocation == item.referenceLocation
    && rec.createdDate == item.createdDate
  }

  /** The field renaming applied to each result. */
  function ToRecord(item: PublicationReferenceApiItem): PublicationReferenceRecord {
    PublicationReferenceRecord(item.postmarkPublicationReferenceId, item.postmarkPublication, item.publicationTitle,
      item.publishedId, item.referenceLocation, item.createdDate)
  }

  /** `getPublicationReferences`: unconfigured, an empty list and no request;
      configured, the HTTP errors of `GetList`, or one record per result,
      in order, with its fields taken from the result. */
  function GetPublicationReferences(env: Option<string>, fetch: string -> Response<PublicationReferenceApiItem>)
    : (r: Result<seq<PublicationReferenceRecord>, ApiError>)
    ensures ApiUrl(env, Suffix).None? ==> r == Success([])
    ensures ApiUrl(env, Suffix).Some? ==>
              var res := fetch(RequestUrl(ApiUrl(env, Suffix).value));
              (r.Success? <==> res.Response? && res.ok && res.results.Some?)
              && (res.Rejected? ==> r == Failure(Rejection(res.message)))
              && (res.Response? && !res.ok ==> r == Failure(HttpError(res.status, res.statusText)))
              && (res.Response? && res.ok && res.results.None? ==> r == Failure(MissingResults))
              && (r.Success? ==> |r.value| == |res.results.value|
                                 && forall i :: 0 <= i < |r.value| ==> FromItem(r.value[i], res.results.value[i]))
  {
    GetList(env, Suffix, fetch, ToRecord)
  }

  /** The configured URL ends in "/api/publication-references", normalising it again
      changes nothing, and the request adds exactly one slash. */
  lemma PublicationReferencesUrl(env: Option<string>)
    ensures ApiUrl(env, Suffix).None? <==> env.None? || Blank(env.value)
    ensures ApiUrl(env, Suffix).Some? ==>
              ApiUrl(ApiUrl(env, Suffix), Suffix) == ApiUrl(env, Suffix)
              && RequestUrl(ApiUrl(env, Suffix).value) == ApiUrl(env, Suffix).value + "/"
  {
    assert WellFormedSuffix(Suffix);
    ApiUrlIdempotent(env, Suffix);
    if ApiUrl(env, Suffix).Some? {
      RequestUrlOneSlash(env, Suffix);
    }
  }
}
