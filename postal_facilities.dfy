/** The postal facility options: from GET /api/postal-facilities/ when its
    URL is configured, otherwise derived from the distinct (town, state)
    pairs of the local store's `catalog_records` and `submissions` tables. */
module PostalFacilities {
  import opened Wrappers
  import opened JsStrings
  import opened Collections
  import opened ApiClient

  /** One item of the response's `results`. */
  datatype PostalFacilityApiItem = PostalFacilityApiItem(
    postalFacilityId: int, referenceCode: string, currentName: string, currentType: string,
    latitude: Option<real>, longitude: Option<real>)

  /** The option the app uses; `kind` is the option's `type`. */
  datatype PostalFacilityOption = PostalFacilityOption(
    id: int, referenceCode: string, name: string, kind: string,
    latitude: Option<real>, longitude: Option<real>)

  const Suffix := "/api/postal-facilities"

  /** The option carries the item's fields under the option's names. */
  predicate FromItem(option: PostalFacilityOption, item: PostalFacilityApiItem) {
    option.id == item.postalFacilityId && option.referenceCode == item.referenceCode
    && option.name == item.currentName && option.kind == item.currentType
    && option.latitude == item.latitude && option.longitude == item.longitude
  }

  /** The field renaming applied to each result. */
  function ToOption(item: PostalFacilityApiItem): PostalFacilityOption {
    PostalFacilityOption(item.postalFacilityId, item.referenceCode, item.currentName, item.currentType,
                         item.latitude, item.longitude)
  }

  // ---- the store fallback ----

  /** The `town` and `state` of one row; `None` is a null value (a missing
      row has both). */
  datatype PlaceRow = PlaceRow(town: Option<string>, state: Option<string>)

  /** A town and a state, trimmed. */
  datatype Place = Place(town: string, state: string)

  /** What `add` works with: the trimmed values of a row that reaches it
      (neither value is null) and that it does not drop at once (neither is
      blank). */
  function Entry(row: PlaceRow): Option<Place> {
    if row.town.Some? && row.state.Some? && Trim(row.town.value) != [] && Trim(row.state.value) != []
    then Some(Place(Trim(row.town.value), Trim(row.state.value)))
    else None
  }

  /** `${town.trim().toLowerCase()}|${state.trim().toLowerCase()}`, from the
      trimmed values. */
  function Key(p: Place): string {
    ToLower(p.town) + "|" + ToLower(p.state)
  }

  /** The option `add` pushes: named "<town>, <state>", with no reference
      code, type or coordinates. */
  function Facility(id: int, p: Place): (o: PostalFacilityOption)
    ensures o.id == id && o.referenceCode == [] && o.kind == [] && o.latitude.None? && o.longitude.None?
    ensures o.name == p.town + ", " + p.state
  {
    PostalFacilityOption(id, "", p.town + ", " + p.state, "", None, None)
  }

  /** What each row hands on, in order: its place, or nothing. */
  function Entries(rows: seq<PlaceRow>): (es: seq<Option<Place>>)
    ensures |es| == |rows| && forall k :: 0 <= k < |rows| ==> es[k] == Entry(rows[k])
  {
    seq(|rows|, k requires 0 <= k < |rows| => Entry(rows[k]))
  }

  lemma EntriesAppend(a: seq<PlaceRow>, b: seq<PlaceRow>)
    ensures Entries(a + b) == Entries(a) + Entries(b)
  {
    var x, y := Entries(a + b), Entries(a) + Entries(b);
    forall k | 0 <= k < |x| ensures x[k] == y[k] {
      if k < |a| { assert (a + b)[k] == a[k]; } else { assert (a + b)[k] == b[k - |a|]; }
    }
  }

  /** One more row of a table. */
  lemma EntriesSnoc(before: seq<PlaceRow>, rows: seq<PlaceRow>, i: nat)
    requires i < |rows|
    ensures Entries(before + rows[..i + 1]) == Entries(before + rows[..i]) + [Entry(rows[i])]
  {
    var prefix := before + rows[..i];
    assert before + rows[..i + 1] == prefix + [rows[i]];
  }

  /** Entry `k` reaches the key test with key `key`. */
  predicate KeyAt(es: seq<Option<Place>>, k: int, key: string) {
    0 <= k < |es| && es[k].Some? && Key(es[k].value) == key
  }

  /** The keys in `seen` after the entries have gone through `add`. */
  function Seen(es: seq<Option<Place>>): set<string> {
    if es == [] then {}
    else
      var init := Seen(es[..|es| - 1]);
      match es[|es| - 1]
      case Some(p) => init + {Key(p)}
      case None => init
  }

  /** The options pushed after the entries have gone through `add`: an
      entry is pushed, with the current length as its id, when its key is
      not yet seen. */
  function Collected(es: seq<Option<Place>>): (r: seq<PostalFacilityOption>)
    ensures |r| == |Seen(es)|
    ensures forall i :: 0 <= i < |r| ==> r[i].id == i
  {
    if es == [] then []
    else
      var init := es[..|es| - 1];
      var prev := Collected(init);
      match es[|es| - 1]
      case Some(p) =>
        if Key(p) !in Seen(init) then prev + [Facility(|prev|, p)]
        else assert Seen(es) == Seen(init); prev
      case None => prev
  }

  /** One more entry through `add`. */
  lemma AddStep(es: seq<Option<Place>>, e: Option<Place>)
    ensures if e.Some? && Key(e.value) !in Seen(es)
            then Seen(es + [e]) == Seen(es) + {Key(e.value)}
                 && Collected(es + [e]) == Collected(es) + [Facility(|Collected(es)|, e.value)]
            else Seen(es + [e]) == Seen(es) && Collected(es + [e]) == Collected(es)
  {
    assert (es + [e])[..|es|] == es;
  }

  /** Entry `j` reaches the key test and no earlier entry did with its key. */
  predicate FirstOfKey(es: seq<Option<Place>>, j: int) {
    0 <= j < |es| && es[j].Some?
    && forall k :: 0 <= k < j ==> !KeyAt(es, k, Key(es[j].value))
  }

  /** `seen` holds exactly the keys of the entries that reached the key
      test. */
  lemma {:induction false} SeenKeys(es: seq<Option<Place>>, key: string)
    ensures key in Seen(es) <==> exists k :: KeyAt(es, k, key)
  {
    if es != [] {
      var init := es[..|es| - 1];
      var last := |es| - 1;
      SeenKeys(init, key);
      assert key in Seen(es) <==> key in Seen(init) || KeyAt(es, last, key);
      if exists k :: KeyAt(init, k, key) {
        var k :| KeyAt(init, k, key);
        assert KeyAt(es, k, key);
      }
      if exists k :: KeyAt(es, k, key) {
        var k :| KeyAt(es, k, key);
        if k < last {
          assert KeyAt(init, k, key);
        } else {
          assert k == last;
        }
      }
    }
  }

  /** Whether an entry is the first of its key does not depend on later
      entries. */
  lemma FirstOfKeyPrefix(es: seq<Option<Place>>, n: nat, j: nat)
    requires j < n <= |es|
    ensures FirstOfKey(es[..n], j) <==> FirstOfKey(es, j)
  {
    var init := es[..n];
    assert init[j] == es[j];
    if es[j].Some? {
      var key := Key(es[j].value);
      forall k | 0 <= k < j ensures KeyAt(init, k, key) <==> KeyAt(es, k, key) {
        assert init[k] == es[k];
      }
    }
  }

  /** The last entry is the first of its key exactly when its key is not
      yet in `seen`. */
  lemma LastFirstOfKey(es: seq<Option<Place>>)
    requires es != [] && es[|es| - 1].Some?
    ensures FirstOfKey(es, |es| - 1) <==> Key(es[|es| - 1].value) !in Seen(es[..|es| - 1])
  {
    var init := es[..|es| - 1];
    var last := |es| - 1;
    var key := Key(es[last].value);
    SeenKeys(init, key);
    forall k | 0 <= k < last ensures KeyAt(init, k, key) <==> KeyAt(es, k, key) {
      assert init[k] == es[k];
    }
  }

  /** First occurrence wins: every option is made, with that entry's
      casing, from the first entry of its key. */
  lemma {:induction false} CollectedFromFirst(es: seq<Option<Place>>, i: nat)
    requires i < |Collected(es)|
    ensures exists j :: FirstOfKey(es, j) && Collected(es)[i] == Facility(i, es[j].value)
  {
    var init := es[..|es| - 1];
    var last := |es| - 1;
    var prev := Collected(init);
    if i < |prev| {
      assert Collected(es)[i] == prev[i];
      CollectedFromFirst(init, i);
      var j :| FirstOfKey(init, j) && prev[i] == Facility(i, init[j].value);
      FirstOfKeyPrefix(es, last, j);
      assert init[j] == es[j];
    } else {
      LastFirstOfKey(es);
    }
  }

  /** The last entry, when it is the first of its key, is pushed last. */
  lemma LastCollected(es: seq<Option<Place>>)
    requires es != [] && FirstOfKey(es, |es| - 1)
    ensures var n := |Collected(es[..|es| - 1])|;
            n < |Collected(es)| && Collected(es)[n] == Facility(n, es[|es| - 1].value)
  {
    var init := es[..|es| - 1];
    var p := es[|es| - 1].value;
    LastFirstOfKey(es);
    assert Collected(es) == Collected(init) + [Facility(|Collected(init)|, p)];
  }

  /** No key is lost: the first entry of each key gives an option. */
  lemma {:induction false} FirstCollected(es: seq<Option<Place>>, j: nat)
    requires FirstOfKey(es, j)
    ensures exists i :: 0 <= i < |Collected(es)| && Collected(es)[i] == Facility(i, es[j].value)
  {
    var init := es[..|es| - 1];
    var last := |es| - 1;
    var prev := Collected(init);
    if j < last {
      FirstOfKeyPrefix(es, last, j);
      assert init[j] == es[j];
      FirstCollected(init, j);
      var i :| 0 <= i < |prev| && prev[i] == Facility(i, init[j].value);
      assert Collected(es)[i] == prev[i];
    } else {
      LastCollected(es);
    }
  }

  /** Catalog rows go first: a catalog row is the first of its key in the
      combined rows exactly when it is the first among the catalog rows. */
  lemma CatalogRowsFirst(catalog: seq<PlaceRow>, submissions: seq<PlaceRow>, j: nat)
    requires j < |catalog|
    ensures FirstOfKey(Entries(catalog + submissions), j) <==> FirstOfKey(Entries(catalog), j)
  {
    var es := Entries(catalog + submissions);
    assert es[..|catalog|] == Entries(catalog);
    FirstOfKeyPrefix(es, |catalog|, j);
  }

  /** Without "|" in the lower-cased towns, equal keys mean equal towns and
      equal states, up to case. */
  lemma KeyInjective(p1: Place, p2: Place)
    requires '|' !in ToLower(p1.town) && '|' !in ToLower(p2.town)
    requires Key(p1) == Key(p2)
    ensures ToLower(p1.town) == ToLower(p2.town) && ToLower(p1.state) == ToLower(p2.state)
  {
    var a, b := ToLower(p1.town), ToLower(p1.state);
    var c, d := ToLower(p2.town), ToLower(p2.state);
    assert Key(p1) == a + ['|'] + b;
    assert Key(p2) == c + ['|'] + d;
    IndexOfAfterPrefix(a, '|', b);
    IndexOfAfterPrefix(c, '|', d);
    assert |a| == |c|;
    assert a == (a + ['|'] + b)[..|a|];
    assert c == (c + ['|'] + d)[..|c|];
    assert b == (a + ['|'] + b)[|a| + 1..];
    assert d == (c + ['|'] + d)[|c| + 1..];
  }

  /** With a "|" inside a value, two different places share a key, and only
      the first of them is listed. */
  lemma KeyCollision()
    ensures Place("a|b", "c") != Place("a", "b|c") && Key(Place("a|b", "c")) == Key(Place("a", "b|c"))
  {
    assert ToLower("a|b") == "a|b" && ToLower("c") == "c" && ToLower("a") == "a" && ToLower("b|c") == "b|c";
  }

  /** The comparator on options: by name. */
  function ByName(le: (string, string) -> bool): (PostalFacilityOption, PostalFacilityOption) -> bool {
    (a: PostalFacilityOption, b: PostalFacilityOption) => le(a.name, b.name)
  }

  lemma ByNamePreorder(le: (string, string) -> bool)
    requires TotalPreorder(le)
    ensures TotalPreorder(ByName(le))
  {
    var cmp := ByName(le);
    forall a, b ensures cmp(a, b) || cmp(b, a) {
      assert le(a.name, b.name) || le(b.name, a.name);
    }
    forall a, b, c | cmp(a, b) && cmp(b, c) ensures cmp(a, c) {
      assert le(a.name, b.name) && le(b.name, c.name);
    }
  }

  /** `options.map((o, i) => ({ ...o, id: i }))`. */
  function Renumber(options: seq<PostalFacilityOption>): (r: seq<PostalFacilityOption>)
    ensures |r| == |options|
    ensures forall i :: 0 <= i < |r| ==> r[i] == options[i].(id := i)
  {
    seq(|options|, i requires 0 <= i < |options| => options[i].(id := i))
  }

  /** The options the store fallback returns. */
  function StoreFacilities(catalog: Option<seq<PlaceRow>>, submissions: Option<seq<PlaceRow>>,
                           le: (string, string) -> bool): seq<PostalFacilityOption>
  {
    Renumber(SortBy(Collected(Entries(catalog.GetOr([]) + submissions.GetOr([]))), ByName(le)))
  }

  /** The store options are numbered 0..n-1 in name order, one per distinct
      key of the rows of both tables. */
  lemma StoreFacilitiesOrder(catalog: Option<seq<PlaceRow>>, submissions: Option<seq<PlaceRow>>,
                             le: (string, string) -> bool)
    requires TotalPreorder(le)
    ensures var r := StoreFacilities(catalog, submissions, le);
            |r| == |Seen(Entries(catalog.GetOr([]) + submissions.GetOr([])))|
            && (forall i :: 0 <= i < |r| ==> r[i].id == i)
            && (forall i, j :: 0 <= i < j < |r| ==> le(r[i].name, r[j].name))
  {
    var collected := Collected(Entries(catalog.GetOr([]) + submissions.GetOr([])));
    var sorted := SortBy(collected, ByName(le));
    var r := Renumber(sorted);
    SortByLength(collected, ByName(le));
    ByNamePreorder(le);
    SortBySorted(collected, ByName(le));
    forall i, j | 0 <= i < j < |r| ensures le(r[i].name, r[j].name) {
      assert ByName(le)(sorted[i], sorted[j]);
    }
  }

  /** Each store option is, apart from its id, the option of the first row
      of its key. */
  lemma StoreFacilitiesFromFirst(catalog: Option<seq<PlaceRow>>, submissions: Option<seq<PlaceRow>>,
                                 le: (string, string) -> bool, i: nat)
    requires i < |StoreFacilities(catalog, submissions, le)|
    ensures var rows := catalog.GetOr([]) + submissions.GetOr([]);
            exists j :: FirstOfKey(Entries(rows), j)
                        && StoreFacilities(catalog, submissions, le)[i] == Facility(i, Entry(rows[j]).value)
  {
    var rows := catalog.GetOr([]) + submissions.GetOr([]);
    var es := Entries(rows);
    var collected := Collected(es);
    var sorted := SortBy(collected, ByName(le));
    SortByMembers(collected, ByName(le));
    assert sorted[i] in collected;
    var m :| 0 <= m < |collected| && collected[m] == sorted[i];
    CollectedFromFirst(es, m);
    var j :| FirstOfKey(es, j) && collected[m] == Facility(m, es[j].value);
    assert StoreFacilities(catalog, submissions, le)[i] == Facility(i, Entry(rows[j]).value);
  }

  /** Sorting and renumbering keep every option, apart from its id. */
  lemma RenumberedSortKeeps(collected: seq<PostalFacilityOption>, le: (string, string) -> bool, p: Place)
    requires exists m :: 0 <= m < |collected| && collected[m] == Facility(m, p)
    ensures var r := Renumber(SortBy(collected, ByName(le)));
            exists i :: 0 <= i < |r| && r[i] == Facility(i, p)
  {
    var m :| 0 <= m < |collected| && collected[m] == Facility(m, p);
    var sorted := SortBy(collected, ByName(le));
    SortByMembers(collected, ByName(le));
    assert Facility(m, p) in collected;
    var i :| 0 <= i < |sorted| && sorted[i] == Facility(m, p);
    assert Renumber(sorted)[i] == Facility(i, p);
  }

  lemma SortedComplete(es: seq<Option<Place>>, le: (string, string) -> bool, j: nat)
    requires FirstOfKey(es, j)
    ensures var r := Renumber(SortBy(Collected(es), ByName(le)));
            exists i :: 0 <= i < |r| && r[i] == Facility(i, es[j].value)
  {
    FirstCollected(es, j);
    RenumberedSortKeeps(Collected(es), le, es[j].value);
  }

  /** The first row of each key gives a store option. */
  lemma StoreFacilitiesComplete(catalog: Option<seq<PlaceRow>>, submissions: Option<seq<PlaceRow>>,
                                le: (string, string) -> bool, j: nat)
    requires FirstOfKey(Entries(catalog.GetOr([]) + submissions.GetOr([])), j)
    ensures var rows := catalog.GetOr([]) + submissions.GetOr([]);
            var r := StoreFacilities(catalog, submissions, le);
            exists i :: 0 <= i < |r| && r[i] == Facility(i, Entry(rows[j]).value)
  {
    SortedComplete(Entries(catalog.GetOr([]) + submissions.GetOr([])), le, j);
  }

  /** `add(town, state)`: a new key pushes the option, numbered by the
      current length, and is recorded; a blank value or a key already seen
      changes nothing. */
  method Add(seen: set<string>, options: seq<PostalFacilityOption>, town: string, state: string)
    returns (seen': set<string>, options': seq<PostalFacilityOption>)
    ensures var e := Entry(PlaceRow(Some(town), Some(state)));
            if e.Some? && Key(e.value) !in seen
            then seen' == seen + {Key(e.value)} && options' == options + [Facility(|options|, e.value)]
            else seen' == seen && options' == options
  {
    var key := ToLower(Trim(town)) + "|" + ToLower(Trim(state));
    if Trim(town) == [] || Trim(state) == [] || key in seen {
      return seen, options;
    }
    seen' := seen + {key};
    options' := options + [PostalFacilityOption(|options|, "", Trim(town) + ", " + Trim(state), "", None, None)];
  }

  /** `if (row?.town != null && row?.state != null) add(...)`: a row with
      both values goes through `add`. */
  method AddRow(seen: set<string>, options: seq<PostalFacilityOption>, row: PlaceRow)
    returns (seen': set<string>, options': seq<PostalFacilityOption>)
    ensures var e := Entry(row);
            if e.Some? && Key(e.value) !in seen
            then seen' == seen + {Key(e.value)} && options' == options + [Facility(|options|, e.value)]
            else seen' == seen && options' == options
  {
    seen', options' := seen, options;
    if row.town.Some? && row.state.Some? {
      assert row == PlaceRow(Some(row.town.value), Some(row.state.value));
      seen', options' := Add(seen, options, row.town.value, row.state.value);
    }
  }

  /** `add` for one row, with the entries seen so far. */
  method AddRowStep(seen: set<string>, options: seq<PostalFacilityOption>, row: PlaceRow,
                    ghost done: seq<Option<Place>>)
    returns (seen': set<string>, options': seq<PostalFacilityOption>)
    requires seen == Seen(done) && options == Collected(done)
    ensures seen' == Seen(done + [Entry(row)]) && options' == Collected(done + [Entry(row)])
  {
    AddStep(done, Entry(row));
    seen', options' := AddRow(seen, options, row);
  }

  /** One of the two `for` loops: every row of a table through `AddRow`,
      after the rows `before` have been through it. */
  method AddRows(seen: set<string>, options: seq<PostalFacilityOption>, before: seq<PlaceRow>,
                 rows: seq<PlaceRow>)
    returns (seen': set<string>, options': seq<PostalFacilityOption>)
    requires seen == Seen(Entries(before)) && options == Collected(Entries(before))
    ensures seen' == Seen(Entries(before + rows)) && options' == Collected(Entries(before + rows))
  {
    assert before + rows[..0] == before;
    seen', options' := seen, options;
    for i := 0 to |rows|
      invariant seen' == Seen(Entries(before + rows[..i])) && options' == Collected(Entries(before + rows[..i]))
    {
      ghost var done := Entries(before + rows[..i]);
      EntriesSnoc(before, rows, i);
      seen', options' := AddRowStep(seen', options', rows[i], done);
    }
    assert rows[..|rows|] == rows;
  }

  /** `getPostalFacilitiesFromSupabase`: the rows of both tables (`None`
      when a query fails) go through `add`, catalog rows first; the options
      are then sorted by name and renumbered. */
  method FacilitiesFromStore(catalog: Option<seq<PlaceRow>>, submissions: Option<seq<PlaceRow>>,
                             le: (string, string) -> bool)
    returns (result: seq<PostalFacilityOption>)
    ensures result == StoreFacilities(catalog, submissions, le)
  {
    var options := CollectRows(catalog.GetOr([]), submissions.GetOr([]));
    result := Renumber(SortBy(options, ByName(le)));
  }

  /** The two `for` loops, from an empty `seen` and `options`: catalog rows
      first, then submission rows. */
  method CollectRows(catalog: seq<PlaceRow>, submissions: seq<PlaceRow>)
    returns (options: seq<PostalFacilityOption>)
    ensures options == Collected(Entries(catalog + submissions))
  {
    var seen: set<string> := {};
    options := [];
    assert Entries([]) == [];
    seen, options := AddRows(seen, options, [], catalog);
    assert [] + catalog == catalog;
    seen, options := AddRows(seen, options, catalog, submissions);
  }

  /** `getPostalFacilities`: configured, the API's results (or its errors)
      and the store is not read; unconfigured, the store options. */
  method GetPostalFacilities(env: Option<string>, fetch: string -> Response<PostalFacilityApiItem>,
                             catalog: Option<seq<PlaceRow>>, submissions: Option<seq<PlaceRow>>,
                             le: (string, string) -> bool)
    returns (r: Result<seq<PostalFacilityOption>, ApiError>)
    ensures ApiUrl(env, Suffix).None? ==> r == Success(StoreFacilities(catalog, submissions, le))
    ensures ApiUrl(env, Suffix).Some? ==>
              var res := fetch(RequestUrl(ApiUrl(env, Suffix).value));
              (r.Success? <==> res.Response? && res.ok && res.results.Some?)
              && (res.Rejected? ==> r == Failure(Rejection(res.message)))
              && (res.Response? && !res.ok ==> r == Failure(HttpError(res.status, res.statusText)))
              && (res.Response? && res.ok && res.results.None? ==> r == Failure(MissingResults))
              && (r.Success? ==> |r.value| == |res.results.value|
                                 && forall i :: 0 <= i < |r.value| ==> FromItem(r.value[i], res.results.value[i]))
  {
    var apiUrl := ApiUrl(env, Suffix);
    if apiUrl.Some? {
      r := ReadResults(fetch(RequestUrl(apiUrl.value)), ToOption);
      return;
    }
    var options := FacilitiesFromStore(catalog, submissions, le);
    r := Success(options);
  }

  /** The configured URL ends in "/api/postal-facilities", normalising it
      again changes nothing, and the request adds exactly one slash. */
  lemma PostalFacilitiesUrl(env: Option<string>)
    ensures ApiUrl(env, Suffix).None? <==> env.None? || Blank(env.value)
    ensures ApiUrl(env, Suffix).Some? ==>
              ApiUrl(ApiUrl(env, Suffix), Suffix) == ApiUrl(env, Suffix)
              && RequestUrl(ApiUrl(env, Suffix).value) == ApiUrl(env, Suffix).value + "/"
  {
    assert WellFormedSuffix(Suffix);
    ApiUrlIdempotent(env, Suffix);
    if ApiUrl(env, Suffix).Some? {
      RequestUrlOneSlash(env, Suffix);
    }
  }
}
