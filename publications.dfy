/** The publications service: GET /api/publications/ when its URL is
    configured, and an empty list otherwise. */
module Publications {
  import opened Wrappers
  import opened JsStrings
  import opened ApiClient

  /** One item of the response's `results`. */
  datatype PublicationApiItem = PublicationApiItem(
    postmarkPublicationId: int, createdBy: ApiUser, modifiedBy: ApiUser, createdDate: string,
    modifiedDate: string, publicationTitle: string, author: string, publisher: string,
    publicationDate: string, isbn: string, edition: string, publicationType: string)

  /** The record the app uses. */
  datatype PublicationRecord = PublicationRecord(
    id: int, publicationTitle: string, author: string, publisher: string,
    publicationDate: string, isbn: string, edition: string, publicationType: string,
    createdDate: string, modifiedDate: string)

  const Suffix := "/api/publications"

  /** The record carries the item's fields under the record's names. The item's `createdBy`, `modifiedBy` are not carried over. */
  predicate FromItem(rec: PublicationRecord, item: PublicationApiItem) {
    rec.id == item.postmarkPublicationId
    && rec.publicationTitle == item.publicationTitle
    && rec.author == item.author
    && rec.publisher == item.publisher
    && rec.publicationDate == item.publicationDate
    && rec.isbn == item.isbn
    && rec.edition == item.edition
    && rec.publicationType == item.publicationType
    && rec.createdDate == item.createdDate
    && rec.modifiedDate == item.modifiedDate
  }

  /** The field renaming applied to each result. */
  function ToRecord(item: PublicationApiItem): PublicationRecord {
    PublicationRecord(item.postmarkPublicationId, item.publicationTitle, item.author, item.publisher,
      item.publicationDate, item.isbn, item.edition, item.publicationType, item.createdDate,
      item.modifiedDate)
  }

  /** `getPublications`: unconfigured, an empty list and no request;
      configured, the HTTP errors of `GetList`, or one record per result,
      in order, with its fields taken from the result. */
  function GetPublications(env: Option<string>, fetch: string -> Response<PublicationApiItem>)
    : (r: Result<seq<PublicationRecord>, ApiError>)
    ensures ApiUrl(env, Suffix).None? ==> r == Success([])
    ensures ApiUrl(env, Suffix).Some? ==>
              var res := fetch(RequestUrl(ApiUrl(env, Suffix).value));
              (r.Success? <==> res.Response? && res.ok && res.results.Some?)
              && (res.Rejected? ==> r == Failure(Rejection(res.message)))
              && (res.Response? && !res.ok ==> r == Failure(HttpError(res.status, res.statusText)))
              && (res.Response? && res.ok && res.results.None? ==> r == Failure(MissingResults))
              && (r.Success? ==> |r.value| == |res.results.value|
                                 && forall i :: 0 <= i < |r.value| ==> FromItem(r.value[i], res.results.value[i]))
  {
    GetList(env, Suffix, fetch, ToRecord)
  }

  /** The configured URL ends in "/api/publications", normalising it again
      changes nothing, and the request adds exactly one slash. */
  lemma PublicationsUrl(env: Option<string>)
    ensures ApiUrl(env, Suffix).None? <==> env.None? || Blank(env.value)
    ensures ApiUrl(env, Suffix).Some? ==>
              ApiUrl(ApiUrl(env, Suffix), Suffix) == ApiUrl(env, Suffix)
              && RequestUrl(ApiUrl(env, Suffix).value) == ApiUrl(env, Suffix).value + "/"
  {
    assert WellFormedSuffix(Suffix);
    ApiUrlIdempotent(env, Suffix);
    if ApiUrl(env, Suffix).Some? {
      RequestUrlOneSlash(env, Suffix);
    }
  }
}
