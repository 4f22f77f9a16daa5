/** The postmark shape options: from GET /api/postmark-shapes/ when its URL is configured,
    otherwise derived from the `type` column of the local store's
    `catalog_records` and `submissions` tables. */
module PostmarkShapes {
  import opened Wrappers
  import opened JsStrings
  import opened Collections
  import opened ApiClient
  import opened StoreValues

  /** One item of the response's `results`. */
  datatype PostmarkShapeApiItem = PostmarkShapeApiItem(
    postmarkShapeId: int, createdDate: string, modifiedDate: string, shapeName: string,
    shapeDescription: string, createdBy: int, modifiedBy: int)

  /** The option the app uses. */
  datatype PostmarkShapeOption = PostmarkShapeOption(id: int, name: string, description: string)

  const Suffix := "/api/postmark-shapes"

  /** The option carries the item's id, name and description. */
  predicate FromItem(option: PostmarkShapeOption, item: PostmarkShapeApiItem) {
    option.id == item.postmarkShapeId && option.name == item.shapeName && option.description == item.shapeDescription
  }

  /** The field renaming applied to each result. */
  function ToOption(item: PostmarkShapeApiItem): PostmarkShapeOption {
    PostmarkShapeOption(item.postmarkShapeId, item.shapeName, item.shapeDescription)
  }

  /** `.map((name, index) => ...)`: ids are positions and the description is "". */
  function IndexShapes(names: seq<string>): (r: seq<PostmarkShapeOption>)
    ensures |r| == |names|
    ensures forall i :: 0 <= i < |r| ==> r[i] == PostmarkShapeOption(i, names[i], "")
  {
    seq(|names|, i requires 0 <= i < |names| => PostmarkShapeOption(i, names[i], ""))
  }

  /** The options the store fallback returns. */
  function StoreShapes(catalog: Option<seq<Option<string>>>, submissions: Option<seq<Option<string>>>,
                    le: (string, string) -> bool): seq<PostmarkShapeOption>
  {
    IndexShapes(StoreNames(catalog, submissions, le))
  }

  /** The store options are numbered 0..n-1 in comparator order, carry an
      empty description, have distinct names that are trimmed and not blank,
      and name exactly the values some row of either table holds. */
  lemma StoreShapesSpec(catalog: Option<seq<Option<string>>>, submissions: Option<seq<Option<string>>>,
                       le: (string, string) -> bool)
    requires TotalPreorder(le)
    ensures var r := StoreShapes(catalog, submissions, le);
            (forall i :: 0 <= i < |r| ==> r[i].id == i && r[i].description == [] && Trimmed(r[i].name))
            && (forall i, j :: 0 <= i < j < |r| ==> le(r[i].name, r[j].name) && r[i].name != r[j].name)
    ensures var r := StoreShapes(catalog, submissions, le);
            forall x :: (exists i :: 0 <= i < |r| && r[i].name == x)
                          <==> Holds(catalog.GetOr([]), x) || Holds(submissions.GetOr([]), x)
  {
    var names := StoreNames(catalog, submissions, le);
    var r := StoreShapes(catalog, submissions, le);
    StoreNamesSpec(catalog, submissions, le);
    forall i | 0 <= i < |r| ensures r[i].id == i && r[i].description == [] && Trimmed(r[i].name) {
      assert r[i].name == names[i];
    }
    forall i, j | 0 <= i < j < |r| ensures le(r[i].name, r[j].name) && r[i].name != r[j].name {
      assert r[i].name == names[i] && r[j].name == names[j];
    }
    forall x ensures (exists i :: 0 <= i < |r| && r[i].name == x) <==> x in names {
      if x in names {
        var i :| 0 <= i < |names| && names[i] == x;
        assert r[i].name == x;
      }
    }
  }

  /** `getPostmarkShapesFromSupabase`: the rows of both tables (`None` when a
      query fails), gathered by the loops and then sorted and numbered. */
  method ShapesFromStore(catalog: Option<seq<Option<string>>>, submissions: Option<seq<Option<string>>>,
                        le: (string, string) -> bool)
    returns (options: seq<PostmarkShapeOption>)
    ensures options == StoreShapes(catalog, submissions, le)
  {
    var names := CollectDistinct(catalog.GetOr([]), submissions.GetOr([]));
    options := IndexShapes(SortBy(names, le));
  }

  /** `getPostmarkShapes`: configured, the API's results (or its errors) and
      the store is not read; unconfigured, the store options. */
  method GetPostmarkShapes(env: Option<string>, fetch: string -> Response<PostmarkShapeApiItem>,
                    catalog: Option<seq<Option<string>>>, submissions: Option<seq<Option<string>>>,
                    le: (string, string) -> bool)
    returns (r: Result<seq<PostmarkShapeOption>, ApiError>)
    ensures ApiUrl(env, Suffix).None? ==> r == Success(StoreShapes(catalog, submissions, le))
    ensures ApiUrl(env, Suffix).Some? ==>
              var res := fetch(RequestUrl(ApiUrl(env, Suffix).value));
              (r.Success? <==> res.Response? && res.ok && res.results.Some?)
              && (res.Rejected? ==> r == Failure(Rejection(res.message)))
              && (res.Response? && !res.ok ==> r == Failure(HttpError(res.status, res.statusText)))
              && (res.Response? && res.ok && res.results.None? ==> r == Failure(MissingResults))
              && (r.Success? ==> |r.value| == |res.results.value|
                                 && forall i :: 0 <= i < |r.value| ==> FromItem(r.value[i], res.results.value[i]))
  {
    var apiUrl := ApiUrl(env, Suffix);
    if apiUrl.Some? {
      r := ReadResults(fetch(RequestUrl(apiUrl.value)), ToOption);
      return;
    }
    var options := ShapesFromStore(catalog, submissions, le);
    r := Success(options);
  }

  /** The configured URL ends in "/api/postmark-shapes", normalising it again
      changes nothing, and the request adds exactly one slash. */
  lemma PostmarkShapesUrl(env: Option<string>)
    ensures ApiUrl(env, Suffix).None? <==> env.None? || Blank(env.value)
    ensures ApiUrl(env, Suffix).Some? ==>
              ApiUrl(ApiUrl(env, Suffix), Suffix) == ApiUrl(env, Suffix)
              && RequestUrl(ApiUrl(env, Suffix).value) == ApiUrl(env, Suffix).value + "/"
  {
    assert WellFormedSuffix(Suffix);
    ApiUrlIdempotent(env, Suffix);
    if ApiUrl(env, Suffix).Some? {
      RequestUrlOneSlash(env, Suffix);
    }
  }
}
