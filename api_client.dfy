/** What every reference-data service shares: the base URL read from an
    environment variable and normalised, the request URL with one trailing
    slash, and the reading of a paginated `{ count, next, previous, results }`
    response. The environment value and the HTTP exchange are inputs. */
module ApiClient {
  import opened Wrappers
  import opened JsStrings

  /** A path suffix such as "/api/colors": non-empty, no white space at
      either end, and no "/" at the end. */
  predicate WellFormedSuffix(suffix: string) {
    suffix != [] && !IsSpace(suffix[0]) && !IsSpace(suffix[|suffix| - 1]) && suffix[|suffix| - 1] != '/'
  }

  /** The service URL: none when the variable is unset or blank; otherwise
      the trimmed value without its trailing slashes, with the suffix
      appended unless it already ends with it. */
  function ApiUrl(env: Option<string>, suffix: string): (r: Option<string>)
    ensures r.None? <==> env.None? || Blank(env.value)
    ensures r.Some? ==> EndsWith(r.value, suffix)
  {
    if env.None? then None
    else
      TrimEmptyIffBlank(env.value);
      if Trim(env.value) == [] then None
      else
        var base := StripTrailing(Trim(env.value), '/');
        if EndsWith(base, suffix) then Some(base) else Some(base + suffix)
  }

  /** A normalised URL starts and ends with neither white space nor, at the
      end, a slash. */
  lemma ApiUrlShape(env: Option<string>, suffix: string)
    requires WellFormedSuffix(suffix)
    ensures var r := ApiUrl(env, suffix);
            r.Some? ==> r.value != [] && !IsSpace(r.value[0]) && !IsSpace(r.value[|r.value| - 1])
                        && r.value[|r.value| - 1] != '/'
  {
    var r := ApiUrl(env, suffix);
    if r.Some? {
      var t := Trim(env.value);
      TrimEmptyIffBlank(env.value);
      TrimEdges(env.value);
      var base := StripTrailing(t, '/');
      assert r.value[|r.value| - 1] == suffix[|suffix| - 1];
      if base != [] {
        assert base[0] == t[0];
        assert r.value[0] == base[0];
      } else {
        assert r.value == suffix;
      }
    }
  }

  /** Normalising a normalised URL changes nothing. */
  lemma ApiUrlIdempotent(env: Option<string>, suffix: string)
    requires WellFormedSuffix(suffix)
    ensures ApiUrl(env, suffix).Some? ==> ApiUrl(ApiUrl(env, suffix), suffix) == ApiUrl(env, suffix)
  {
    var r := ApiUrl(env, suffix);
    if r.Some? {
      ApiUrlShape(env, suffix);
      var u := r.value;
      assert !Blank(u);
      TrimNoop(u);
      assert StripTrailing(u, '/') == u;
    }
  }

  /** `apiUrl.endsWith("/") ? apiUrl : apiUrl + "/"`. */
  function RequestUrl(apiUrl: string): (url: string)
    ensures EndsWith(url, "/")
    ensures EndsWith(apiUrl, "/") ==> url == apiUrl
  {
    if EndsWith(apiUrl, "/") then apiUrl else apiUrl + "/"
  }

  /** The request goes to the normalised URL followed by exactly one slash. */
  lemma RequestUrlOneSlash(env: Option<string>, suffix: string)
    requires WellFormedSuffix(suffix) && ApiUrl(env, suffix).Some?
    ensures var u := ApiUrl(env, suffix).value;
            RequestUrl(u) == u + "/" && RequestUrl(u)[|RequestUrl(u)| - 2] != '/'
  {
    ApiUrlShape(env, suffix);
  }

  /** The user object some results carry in `createdBy`, `modifiedBy` or
      `valuedBy`. */
  datatype ApiUser = ApiUser(id: int, username: string, email: string, firstName: string, lastName: string)

  /** A JSON value a service passes along or drops without looking inside
      it, kept as its text. */
  datatype Json = Json(text: string)

  /** How the exchange ends. `Rejected`: `fetch(url)` rejects (a network
      failure), or the status is ok and `res.json()` rejects (a body that is
      not JSON); the body of a status that is not ok is never read.
      `Response`: the part of an answer the services read, `res.ok`, the
      status line, and `results` when the body holds an array there. */
  datatype Response<T> =
    | Rejected(message: string)
    | Response(ok: bool, status: int, statusText: string, results: Option<seq<T>>)

  /** Why a service call throws: a rejection passed on as it is, a status
      that is not ok, or a body without a `results` array. */
  datatype ApiError = Rejection(message: string) | HttpError(status: int, statusText: string) | MissingResults

  /** `xs.map(f)`. */
  function MapAll<T, U>(xs: seq<T>, f: T -> U): (r: seq<U>)
    ensures |r| == |xs| && forall i :: 0 <= i < |xs| ==> r[i] == f(xs[i])
  {
    seq(|xs|, i requires 0 <= i < |xs| => f(xs[i]))
  }

  /** Reading a response: a rejection reaches the caller unchanged, a
      status other than ok throws, a body without a `results` array throws,
      and otherwise each result is mapped, in order. */
  function ReadResults<T, U>(res: Response<T>, f: T -> U): (r: Result<seq<U>, ApiError>)
    ensures res.Rejected? ==> r == Failure(Rejection(res.message))
    ensures res.Response? && !res.ok ==> r == Failure(HttpError(res.status, res.statusText))
    ensures res.Response? && res.ok && res.results.None? ==> r == Failure(MissingResults)
    ensures r.Success? <==> res.Response? && res.ok && res.results.Some?
    ensures r.Success? ==> |r.value| == |res.results.value|
                           && forall i :: 0 <= i < |r.value| ==> r.value[i] == f(res.results.value[i])
  {
    if res.Rejected? then Failure(Rejection(res.message))
    else if !res.ok then Failure(HttpError(res.status, res.statusText))
    else if res.results.None? then Failure(MissingResults)
    else Success(MapAll(res.results.value, f))
  }

  /** A service without a fallback: unconfigured, it returns an empty list
      and makes no request (the result does not depend on `fetch`);
      configured, it reads the response to its request URL. */
  function GetList<T, U>(env: Option<string>, suffix: string, fetch: string -> Response<T>, f: T -> U)
    : (r: Result<seq<U>, ApiError>)
    ensures ApiUrl(env, suffix).None? ==> r == Success([])
    ensures ApiUrl(env, suffix).Some? ==>
              var res := fetch(RequestUrl(ApiUrl(env, suffix).value));
              (r.Success? <==> res.Response? && res.ok && res.results.Some?)
              && (res.Rejected? ==> r == Failure(Rejection(res.message)))
              && (res.Response? && !res.ok ==> r == Failure(HttpError(res.status, res.statusText)))
              && (res.Response? && res.ok && res.results.None? ==> r == Failure(MissingResults))
              && (r.Success? ==> |r.value| == |res.results.value|
                                 && forall i :: 0 <= i < |r.value| ==> r.value[i] == f(res.results.value[i]))
  {
    match ApiUrl(env, suffix)
    case None => Success([])
    case Some(url) => ReadResults(fetch(RequestUrl(url)), f)
  }

  /** Unconfigured, no request is made: any two fetchers give the same
      (empty) result. */
  lemma UnconfiguredMakesNoRequest<T, U>(env: Option<string>, suffix: string,
                                         fetch: string -> Response<T>, other: string -> Response<T>, f: T -> U)
    requires env.None? || Blank(env.value)
    ensures GetList(env, suffix, fetch, f) == GetList(env, suffix, other, f) == Success([])
  {
  }
}
