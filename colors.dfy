/** The colour options: from GET /api/colors/ when its URL is configured,
    otherwise derived from the `color` column of the local store's
    `catalog_records` and `submissions` tables. */
module Colors {
  import opened Wrappers
  import opened JsStrings
  import opened Collections
  import opened ApiClient
  import opened StoreValues

  /** One item of the response's `results`. */
  datatype ColorsApiItem = ColorsApiItem(
    colorId: int, createdDate: string, modifiedDate: string, colorName: string,
    colorValue: string, createdBy: int, modifiedBy: int)

  /** The option the app uses. */
  datatype ColorOption = ColorOption(id: int, name: string, value: string)

  const Suffix := "/api/colors"

  /** The option carries the item's id, name and value. */
  predicate FromItem(option: ColorOption, item: ColorsApiItem) {
    option.id == item.colorId && option.name == item.colorName && option.value == item.colorValue
  }

  /** The field renaming applied to each result. */
  function ToOption(item: ColorsApiItem): ColorOption {
    ColorOption(item.colorId, item.colorName, item.colorValue)
  }

  /** `.map((name, index) => ...)`: ids are positions and the value is "" (the API gives a hex value). */
  function IndexColors(names: seq<string>): (r: seq<ColorOption>)
    ensures |r| == |names|
    ensures forall i :: 0 <= i < |r| ==> r[i] == ColorOption(i, names[i], "")
  {
    seq(|names|, i requires 0 <= i < |names| => ColorOption(i, names[i], ""))
  }

  /** The options the store fallback returns. */
  function StoreColors(catalog: Option<seq<Option<string>>>, submissions: Option<seq<Option<string>>>,
                    le: (string, string) -> bool): seq<ColorOption>
  {
    IndexColors(StoreNames(catalog, submissions, le))
  }

  /** The store options are numbered 0..n-1 in comparator order, carry an
      empty value, have distinct names that are trimmed and not blank,
      and name exactly the values some row of either table holds. */
  lemma StoreColorsSpec(catalog: Option<seq<Option<string>>>, submissions: Option<seq<Option<string>>>,
                       le: (string, string) -> bool)
    requires TotalPreorder(le)
    ensures var r := StoreColors(catalog, submissions, le);
            (forall i :: 0 <= i < |r| ==> r[i].id == i && r[i].value == [] && Trimmed(r[i].name))
            && (forall i, j :: 0 <= i < j < |r| ==> le(r[i].name, r[j].name) && r[i].name != r[j].name)
    ensures var r := StoreColors(catalog, submissions, le);
            forall x :: (exists i :: 0 <= i < |r| && r[i].name == x)
                          <==> Holds(catalog.GetOr([]), x) || Holds(submissions.GetOr([]), x)
  {
    var names := StoreNames(catalog, submissions, le);
    var r := StoreColors(catalog, submissions, le);
    StoreNamesSpec(catalog, submissions, le);
    forall i | 0 <= i < |r| ensures r[i].id == i && r[i].value == [] && Trimmed(r[i].name) {
      assert r[i].name == names[i];
    }
    forall i, j | 0 <= i < j < |r| ensures le(r[i].name, r[j].name) && r[i].name != r[j].name {
      assert r[i].name == names[i] && r[j].name == names[j];
    }
    forall x ensures (exists i :: 0 <= i < |r| && r[i].name == x) <==> x in names {
      if x in names {
        var i :| 0 <= i < |names| && names[i] == x;
        assert r[i].name == x;
      }
    }
  }

  /** `getColorsFromSupabase`: the rows of both tables (`None` when a
      query fails), gathered by the loops and then sorted and numbered. */
  method ColorsFromStore(catalog: Option<seq<Option<string>>>, submissions: Option<seq<Option<string>>>,
                        le: (string, string) -> bool)
    returns (options: seq<ColorOption>)
    ensures options == StoreColors(catalog, submissions, le)
  {
    var names := CollectDistinct(catalog.GetOr([]), submissions.GetOr([]));
    options := IndexColors(SortBy(names, le));
  }

  /** `getColors`: configured, the API's results (or its errors) and
      the store is not read; unconfigured, the store options. */
  method GetColors(env: Option<string>, fetch: string -> Response<ColorsApiItem>,
                    catalog: Option<seq<Option<string>>>, submissions: Option<seq<Option<string>>>,
                    le: (string, string) -> bool)
    returns (r: Result<seq<ColorOption>, ApiError>)
    ensures ApiUrl(env, Suffix).None? ==> r == Success(StoreColors(catalog, submissions, le))
    ensures ApiUrl(env, Suffix).Some? ==>
              var res := fetch(RequestUrl(ApiUrl(env, Suffix).value));
              (r.Success? <==> res.Response? && res.ok && res.results.Some?)
              && (res.Rejected? ==> r == Failure(Rejection(res.message)))
              && (res.Response? && !res.ok ==> r == Failure(HttpError(res.status, res.statusText)))
              && (res.Response? && res.ok && res.results.None? ==> r == Failure(MissingResults))
              && (r.Success? ==> |r.value| == |res.results.value|
                                 && forall i :: 0 <= i < |r.value| ==> FromItem(r.value[i], res.results.value[i]))
  {
    var apiUrl := ApiUrl(env, Suffix);
    if apiUrl.Some? {
      r := ReadResults(fetch(RequestUrl(apiUrl.value)), ToOption);
      return;
    }
    var options := ColorsFromStore(catalog, submissions, le);
    r := Success(options);
  }

  /** The configured URL ends in "/api/colors", normalising it again
      changes nothing, and the request adds exactly one slash. */
  lemma ColorsUrl(env: Option<string>)
    ensures ApiUrl(env, Suffix).None? <==> env.None? || Blank(env.value)
    ensures ApiUrl(env, Suffix).Some? ==>
              ApiUrl(ApiUrl(env, Suffix), Suffix) == ApiUrl(env, Suffix)
              && RequestUrl(ApiUrl(env, Suffix).value) == ApiUrl(env, Suffix).value + "/"
  {
    assert WellFormedSuffix(Suffix);
    ApiUrlIdempotent(env, Suffix);
    if ApiUrl(env, Suffix).Some? {
      RequestUrlOneSlash(env, Suffix);
    }
  }
}
