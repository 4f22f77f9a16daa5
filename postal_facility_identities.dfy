/** The postal facility identities (names a facility has carried over time) service: GET /api/postal-facility-identities/ when its URL is
    configured, and an empty list otherwise. */
module PostalFacilityIdentities {
  import opened Wrappers
  import opened JsStrings
  import opened ApiClient

  /** One item of the response's `results`. */
  datatype PostalFacilityIdentityApiItem = PostalFacilityIdentityApiItem(
    postalFacilityIdentityId: int, coordinates: Json, createdBy: ApiUser, modifiedBy: ApiUser,
    createdDate: string, modifiedDate: string, effectiveFromDate: string,
    effectiveToDate: Option<string>, facilityName: string, facilityType: string,
    isOperational: bool, discontinuationReason: string, latitude: Option<real>,
    longitude: Option<real>, notes: string, postalFacility: int)

  /** The record the app uses. */
  datatype PostalFacilityIdentityOption = PostalFacilityIdentityOption(
    id: int, facilityName: string, facilityType: string, effectiveFromDate: string,
    effectiveToDate: Option<string>, isOperational: bool, discontinuationReason: string,
    latitude: Option<real>, longitude: Option<real>, notes: string, postalFacility: int)

  const Suffix := "/api/postal-facility-identities"

  /** The record carries the item's fields under the record's names. The item's `coordinates`, `createdBy`, `modifiedBy`, `createdDate`, `modifiedDate` are not carried over. */
  predicate FromItem(rec: PostalFacilityIdentityOption, item: PostalFacilityIdentityApiItem) {
    rec.id == item.postalFacilityIdentityId
    && rec.facilityName == item.facilityName
    && rec.facilityType == item.facilityType
    && rec.effectiveFromDate == item.effectiveFromDate
    && rec.effectiveToDate == item.effectiveToDate
    && rec.isOperational == item.isOperational
    && rec.discontinuationReason == item.discontinuationReason
    && rec.latitude == item.latitude
    && rec.longitude == item.longitude
    && rec.notes == item.notes
    && rec.postalFacility == item.postalFacility
  }

  /** The field renaming applied to each result. */
  function ToRecord(item: PostalFacilityIdentityApiItem): PostalFacilityIdentityOption {
    PostalFacilityIdentityOption(item.postalFacilityIdentityId, item.facilityName, item.facilityType,
      item.effectiveFromDate, item.effectiveToDate, item.isOperational,
      item.discontinuationReason, item.latitude, item.longitude, item.notes,
      item.postalFacility)
  }

  /** `getPostalFacilityIdentities`: unconfigured, an empty list and no request;
      configured, the HTTP errors of `GetList`, or one record per result,
      in order, with its fields taken from the result. */
  function GetPostalFacilityIdentities(env: Option<string>, fetch: string -> Response<PostalFacilityIdentityApiItem>)
    : (r: Result<seq<PostalFacilityIdentityOption>, ApiError>)
    ensures ApiUrl(env, Suffix).None? ==> r == Success([])
    ensures ApiUrl(env, Suffix).Some? ==>
              var res := fetch(RequestUrl(ApiUrl(env, Suffix).value));
              (r.Success? <==> res.Response? && res.ok && res.results.Some?)
              && (res.Rejected? ==> r == Failure(Rejection(res.message)))
              && (res.Response? && !res.ok ==> r == Failure(HttpError(res.status, res.statusText)))
              && (res.Response? && res.ok && res.results.None? ==> r == Failure(MissingResults))
              && (r.Success? ==> |r.value| == |res.results.value|
                                 && forall i :: 0 <= i < |r.value| ==> FromItem(r.value[i], res.results.value[i]))
  {
    GetList(env, Suffix, fetch, ToRecord)
  }

  /** The configured URL ends in "/api/postal-facility-identities", normalising it again
      changes nothing, and the request adds exactly one slash. */
  lemma PostalFacilityIdentitiesUrl(env: Option<string>)
    ensures ApiUrl(env, Suffix).None? <==> env.None? || Blank(env.value)
    ensures ApiUrl(env, Suffix).Some? ==>
              ApiUrl(ApiUrl(env, Suffix), Suffix) == ApiUrl(env, Suffix)
              && RequestUrl(ApiUrl(env, Suffix).value) == ApiUrl(env, Suffix).value + "/"
  {
    assert WellFormedSuffix(Suffix);
    ApiUrlIdempotent(env, Suffix);
    if ApiUrl(env, Suffix).Some? {
      RequestUrlOneSlash(env, Suffix);
    }
  }
}
