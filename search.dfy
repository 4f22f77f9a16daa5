/** The catalog search page: records fetched from `catalog_records`, ten
    filter controls combined by logical AND, and a pager of nine records per
    page whose current page returns to 1 whenever a filter changes. */
module CatalogSearch {
  import opened Wrappers
  import opened JsStrings
  import opened Collections

  /** A row of `catalog_records` as the database returns it; every text
      column may be null. `kind` is the postmark type column. */
  datatype CatalogRow = CatalogRow(
    id: string, name: Option<string>, state: Option<string>, town: Option<string>,
    dateRange: Option<string>, color: Option<string>, kind: Option<string>,
    valuation: Option<string>, imageUrl: Option<string>)

  /** A record in the shape the page filters and displays. */
  datatype SearchRecord = SearchRecord(
    id: string, name: Option<string>, state: Option<string>, town: Option<string>,
    dateRange: Option<string>, color: Option<string>, kind: Option<string>,
    valuation: Option<string>, image: string)

  /** The URL of the bundled sample postmark picture. */
  const SampleImage: string := "/assets/postmark-sample.jpg"

  /** `record.image_url || postmarkSample`: a null or empty URL falls back to
      the sample picture. */
  function Transform(row: CatalogRow): (r: SearchRecord)
    ensures r.image != []
    ensures row.imageUrl.Some? && row.imageUrl.value != [] ==> r.image == row.imageUrl.value
    ensures r.id == row.id && r.name == row.name && r.state == row.state && r.town == row.town
    ensures r.dateRange == row.dateRange && r.color == row.color && r.kind == row.kind
    ensures r.valuation == row.valuation
  {
    SearchRecord(row.id, row.name, row.state, row.town, row.dateRange, row.color, row.kind,
      row.valuation, if row.imageUrl.Some? && row.imageUrl.value != [] then row.imageUrl.value else SampleImage)
  }

  function TransformAll(rows: seq<CatalogRow>): (r: seq<SearchRecord>)
    ensures |r| == |rows| && forall i :: 0 <= i < |rows| ==> r[i] == Transform(rows[i])
  {
    seq(|rows|, i requires 0 <= i < |rows| => Transform(rows[i]))
  }

  /** The values of the ten filter controls. */
  datatype Filters = Filters(
    keyword: string, state: string, town: string, beginYear: string, endYear: string,
    kind: string, color: string, valuation: string, excludeManuscripts: bool, imagesOnly: bool)

  const DefaultFilters := Filters("", "all", "", "", "", "all", "all", "all", false, false)

  /** The query the keyword box searches for: trimmed, then lower-cased. */
  function KeywordQuery(keyword: string): (q: string)
    ensures |q| == |Trim(keyword)|
  {
    ToLower(Trim(keyword))
  }

  /** `val != null && String(val).toLowerCase().includes(q)`. */
  predicate FieldContains(v: Option<string>, q: string) {
    v.Some? && Includes(ToLower(v.value), q)
  }

  predicate KeywordMatches(r: SearchRecord, keyword: string) {
    var q := KeywordQuery(keyword);
    Trim(keyword) == [] ||
    FieldContains(r.name, q) || FieldContains(r.town, q) || FieldContains(r.state, q)
    || FieldContains(r.kind, q) || FieldContains(r.color, q)
  }

  /** The years a record covers: the date range split on "-", each piece
      read by `parseInt`; the end is the begin only when there is no second
      piece. `None` is NaN. */
  function YearSpan(dateRange: Option<string>): (Option<int>, Option<int>) {
    var parts := Split(dateRange.GetOr(""), '-');
    var begin := ParseInt(parts[0]);
    (begin, if |parts| >= 2 then ParseInt(parts[1]) else begin)
  }

  /** `x < bound` in JavaScript, where a NaN bound makes it false. */
  predicate Below(x: int, bound: Option<int>) {
    bound.Some? && x < bound.value
  }

  predicate Above(x: int, bound: Option<int>) {
    bound.Some? && x > bound.value
  }

  predicate YearsMatch(r: SearchRecord, beginYear: string, endYear: string) {
    var (begin, end) := YearSpan(r.dateRange);
    (beginYear == [] || (begin.Some? && !Below(begin.value, ParseInt(beginYear))))
    && (endYear == [] || (end.Some? && !Above(end.value, ParseInt(endYear))))
  }

  predicate StateMatches(r: SearchRecord, state: string) {
    state == "all" || r.state == Some(state)
  }

  /** The town filter, neither trimmed nor required to be non-blank; a null
      town reads as "". */
  predicate TownMatches(r: SearchRecord, town: string) {
    town == [] || Includes(ToLower(r.town.GetOr("")), ToLower(town))
  }

  predicate KindMatches(r: SearchRecord, kind: string) {
    kind == "all" || r.kind == Some(kind)
  }

  /** Only the record's colour is lower-cased; a null colour fails. */
  predicate ColorMatches(r: SearchRecord, color: string) {
    color == "all" || (r.color.Some? && ToLower(r.color.value) == color)
  }

  predicate ValuationMatches(r: SearchRecord, valuation: string) {
    valuation == "all" || r.valuation == Some(valuation)
  }

  predicate ManuscriptAllowed(r: SearchRecord, excludeManuscripts: bool) {
    !(excludeManuscripts && r.kind == Some("Manuscript"))
  }

  predicate ImageAllowed(r: SearchRecord, imagesOnly: bool) {
    !(imagesOnly && r.image == [])
  }

  /** The conjunction of the ten filters. */
  predicate Keep(r: SearchRecord, f: Filters) {
    KeywordMatches(r, f.keyword) && StateMatches(r, f.state) && TownMatches(r, f.town)
    && YearsMatch(r, f.beginYear, f.endYear) && KindMatches(r, f.kind)
    && ColorMatches(r, f.color) && ValuationMatches(r, f.valuation)
    && ManuscriptAllowed(r, f.excludeManuscripts) && ImageAllowed(r, f.imagesOnly)
  }

  /** `filteredResults`: the records every active filter accepts. */
  function FilteredResults(records: seq<SearchRecord>, f: Filters): (r: seq<SearchRecord>)
    ensures forall i :: 0 <= i < |r| ==> r[i] in records && Keep(r[i], f)
  {
    Filter(records, x => Keep(x, f))
  }

  /** Every record the filters accept appears in the result. */
  lemma FilteredComplete(records: seq<SearchRecord>, f: Filters, x: SearchRecord)
    requires x in records && Keep(x, f)
    ensures x in FilteredResults(records, f)
  {
    FilterKeepsAccepted(records, x => Keep(x, f), x);
  }

  /** The result keeps the records' order: filtering a list made of two parts
      filters each part in turn. */
  lemma FilteredKeepsOrder(a: seq<SearchRecord>, b: seq<SearchRecord>, f: Filters)
    ensures FilteredResults(a + b, f) == FilteredResults(a, f) + FilteredResults(b, f)
  {
    FilterConcat(a, b, x => Keep(x, f));
  }

  /** A record passes every filter left at its default. */
  lemma DefaultsKeepRecord(x: SearchRecord)
    ensures Keep(x, DefaultFilters)
  {
    assert DefaultFilters == Filters("", "all", "", "", "", "all", "all", "all", false, false);
    assert Trim("") == [];
    assert KeywordMatches(x, "");
    assert StateMatches(x, "all") && TownMatches(x, "") && YearsMatch(x, "", "");
    assert KindMatches(x, "all") && ColorMatches(x, "all") && ValuationMatches(x, "all");
  }

  /** With every filter at its default, every record is kept, in order. */
  lemma DefaultsKeepAll(records: seq<SearchRecord>)
    ensures FilteredResults(records, DefaultFilters) == records
  {
    forall x | x in records ensures Keep(x, DefaultFilters) {
      DefaultsKeepRecord(x);
    }
    FilterAllKept(records, x => Keep(x, DefaultFilters));
  }

  /** Surrounding white space in the keyword box changes nothing. */
  lemma KeywordIgnoresSurroundingSpace(r: SearchRecord, keyword: string)
    ensures KeywordMatches(r, Trim(keyword)) == KeywordMatches(r, keyword)
  {
    TrimIdempotent(keyword);
  }

  /** The keyword search is case-insensitive. */
  lemma KeywordIgnoresCase(r: SearchRecord, keyword: string)
    ensures KeywordMatches(r, ToLower(keyword)) == KeywordMatches(r, keyword)
  {
    TrimLowerCommute(keyword);
    ToLowerIdempotent(Trim(keyword));
    assert KeywordQuery(ToLower(keyword)) == KeywordQuery(keyword);
  }

  /** The town filter is not trimmed: a filter holding a space excludes
      every record whose town has none, such as " Bos" against "Boston". */
  lemma TownFilterNotTrimmed(r: SearchRecord, f: Filters, i: nat)
    requires i < |f.town| && IsSpace(f.town[i])
    requires forall j :: 0 <= j < |r.town.GetOr("")| ==> !IsSpace(r.town.GetOr("")[j])
    ensures !Keep(r, f)
  {
    var town := ToLower(r.town.GetOr(""));
    var q := ToLower(f.town);
    LowerCharSpace(f.town[i]);
    if Includes(town, q) {
      IncludesChar(town, q, q[i]);
      var j :| 0 <= j < |town| && town[j] == q[i];
      LowerCharSpace(r.town.GetOr("")[j]);
    }
  }

  /** A date range that does not start with a number is excluded by any
      begin-year bound, and one whose end does not parse by any end-year
      bound: NaN never satisfies a bound. */
  lemma UnparseableYearsExcluded(r: SearchRecord, f: Filters)
    ensures f.beginYear != [] && YearSpan(r.dateRange).0.None? ==> !Keep(r, f)
    ensures f.endYear != [] && YearSpan(r.dateRange).1.None? ==> !Keep(r, f)
  {
  }

  /** A record with no date range has no years. */
  lemma MissingDateRangeHasNoYears()
    ensures YearSpan(None) == (None, None)
  {
    assert Split("", '-') == [""];
    NoDigitsNaN("");
  }

  /** A single year is both the begin and the end. */
  lemma SingleYearSpan(year: string)
    requires year != [] && AllDigits(year)
    ensures YearSpan(Some(year)) == (Some(DigitsValue(year) as int), Some(DigitsValue(year) as int))
  {
    NoHyphenInDigits(year);
    ParseDigits(year);
  }

  /** "A-B" with two runs of digits spans from A to B. */
  lemma TwoYearSpan(a: string, b: string)
    requires a != [] && AllDigits(a) && b != [] && AllDigits(b)
    ensures YearSpan(Some(a + "-" + b)) == (Some(DigitsValue(a) as int), Some(DigitsValue(b) as int))
  {
    NoHyphenInDigits(a);
    NoHyphenInDigits(b);
    IndexOfAfterPrefix(a, '-', b);
    var s := a + "-" + b;
    assert s[..|a|] == a && s[|a| + 1..] == b;
    assert Split(s, '-') == [a, b];
    ParseDigits(a);
    ParseDigits(b);
  }

  lemma NoHyphenInDigits(d: string)
    requires AllDigits(d)
    ensures '-' !in d
  {
  }

  /** An open-ended range such as "1825-" has a NaN end, so it survives a
      begin-year bound but never an end-year bound. */
  lemma OpenEndedRange(d: string)
    requires d != [] && AllDigits(d)
    ensures YearSpan(Some(d + "-")) == (Some(DigitsValue(d) as int), None)
  {
    NoHyphenInDigits(d);
    IndexOfAfterPrefix(d, '-', "");
    var s := d + "-";
    assert s[..|d|] == d && s[|d| + 1..] == "";
    assert Split("", '-') == [""];
    assert Split(s, '-') == [d, ""];
    ParseDigits(d);
    NoDigitsNaN("");
  }

  /** Turning on "exclude manuscripts" drops exactly the records of type
      "Manuscript". */
  lemma ExcludeManuscriptsDropsExactlyManuscripts(r: SearchRecord, f: Filters)
    ensures Keep(r, f.(excludeManuscripts := true))
        <==> Keep(r, f.(excludeManuscripts := false)) && r.kind != Some("Manuscript")
  {
  }

  /** A colour filter holding an upper-case letter matches no record, since
      only the record's colour is lower-cased. */
  lemma UpperCaseColorMatchesNothing(r: SearchRecord, f: Filters, i: nat)
    requires f.color != "all" && i < |f.color| && 'A' <= f.color[i] <= 'Z'
    ensures !Keep(r, f)
  {
  }

  /** "Images only" keeps every record that has an image. */
  lemma ImagesOnlyKeepsImaged(r: SearchRecord, f: Filters)
    requires r.image != []
    ensures Keep(r, f.(imagesOnly := true)) == Keep(r, f.(imagesOnly := false))
  {
  }

  /** "Images only" never removes a fetched record: every transformed
      record has an image, the sample one at worst. */
  lemma ImagesOnlyKeepsFetched(rows: seq<CatalogRow>, f: Filters)
    ensures FilteredResults(TransformAll(rows), f.(imagesOnly := true))
         == FilteredResults(TransformAll(rows), f.(imagesOnly := false))
  {
    var records := TransformAll(rows);
    var on := f.(imagesOnly := true);
    var off := f.(imagesOnly := false);
    forall x | x in records ensures Keep(x, on) == Keep(x, off) {
      ImagesOnlyKeepsImaged(x, f);
    }
    FilterCongruent(records, x => Keep(x, on), x => Keep(x, off));
  }

  /** Setting one more filter never brings a record back: applying the
      state filter to the current result is the same as searching with it. */
  lemma StateFilterNarrows(records: seq<SearchRecord>, f: Filters, state: string)
    requires f.state == "all"
    ensures FilteredResults(FilteredResults(records, f), f.(state := state))
         == FilteredResults(records, f.(state := state))
  {
    var g := f.(state := state);
    FilterNarrowing(records, x => Keep(x, g), x => Keep(x, f));
  }

  /** A single-year record earlier than the begin-year bound is excluded,
      since its end year is its begin year. */
  lemma EarlierSingleYearExcluded(r: SearchRecord, f: Filters, year: string)
    requires year != [] && AllDigits(year) && r.dateRange == Some(year)
    requires f.beginYear != [] && AllDigits(f.beginYear) && DigitsValue(year) < DigitsValue(f.beginYear)
    ensures !Keep(r, f)
  {
    SingleYearSpan(year);
    ParseDigits(f.beginYear);
  }

  /** A two-year record whose range lies within both bounds passes the
      year filters. */
  lemma RangeWithinBoundsKept(r: SearchRecord, a: string, b: string, lo: string, hi: string)
    requires a != [] && AllDigits(a) && b != [] && AllDigits(b) && r.dateRange == Some(a + "-" + b)
    requires lo != [] && AllDigits(lo) && hi != [] && AllDigits(hi)
    requires DigitsValue(lo) <= DigitsValue(a) && DigitsValue(b) <= DigitsValue(hi)
    ensures YearsMatch(r, lo, hi)
  {
    TwoYearSpan(a, b);
    ParseDigits(lo);
    ParseDigits(hi);
  }

  // ---- the pager ----

  const PageSize: nat := 9

  /** `Math.ceil(n / itemsPerPage)`. */
  function TotalPages(n: nat): (pages: nat)
    ensures n <= pages * PageSize < n + PageSize
  {
    (n + PageSize - 1) / PageSize
  }

  /** `Array.prototype.slice(start, end)`: negative positions count from the
      end, and both positions are clamped to the list. */
  function JsSlice<T>(s: seq<T>, start: int, end: int): (r: seq<T>)
    ensures 0 <= start <= end ==> r == s[Clamp(start, |s|)..Clamp(end, |s|)]
  {
    var from := if start < 0 then Clamp(|s| + start, |s|) else Clamp(start, |s|);
    var to := if end < 0 then Clamp(|s| + end, |s|) else Clamp(end, |s|);
    if from < to then s[from..to] else []
  }

  function Clamp(i: int, n: nat): (r: nat)
    ensures r <= n && (0 <= i <= n ==> r == i) && (i > n ==> r == n)
  {
    if i < 0 then 0 else if i > n then n else i
  }

  /** `paginatedResults` for page `page`. */
  function PageItems<T>(s: seq<T>, page: int): seq<T> {
    JsSlice(s, (page - 1) * PageSize, (page - 1) * PageSize + PageSize)
  }

  /** Page p (from 1) holds the items from (p-1)*9 up to p*9, cut at the
      end of the list: at most nine of them, none past the last page. */
  lemma PageItemsRange<T>(s: seq<T>, page: int)
    requires page >= 1
    ensures PageItems(s, page) == s[Clamp((page - 1) * PageSize, |s|)..Clamp(page * PageSize, |s|)]
    ensures |PageItems(s, page)| <= PageSize
    ensures page > TotalPages(|s|) ==> PageItems(s, page) == []
  {
  }

  /** Pages 1 to k one after another. */
  function FirstPages<T>(s: seq<T>, k: nat): seq<T> {
    if k == 0 then [] else FirstPages(s, k - 1) + PageItems(s, k)
  }

  lemma {:induction false} FirstPagesPrefix<T>(s: seq<T>, k: nat)
    ensures FirstPages(s, k) == s[..Clamp(k * PageSize, |s|)]
  {
    if k > 0 {
      FirstPagesPrefix(s, k - 1);
      PageItemsRange(s, k);
      assert s[..Clamp(k * PageSize, |s|)]
          == s[..Clamp((k - 1) * PageSize, |s|)] + s[Clamp((k - 1) * PageSize, |s|)..Clamp(k * PageSize, |s|)];
    }
  }

  /** Pages 1 to totalPages, in order, are the whole filtered list. */
  lemma PagesPartition<T>(s: seq<T>)
    ensures FirstPages(s, TotalPages(|s|)) == s
  {
    FirstPagesPrefix(s, TotalPages(|s|));
  }

  /** An empty result has no pages and shows nothing. */
  lemma EmptyResultShowsNothing<T>(s: seq<T>, page: int)
    requires s == [] && page >= 1
    ensures TotalPages(|s|) == 0 && PageItems(s, page) == []
  {
  }

  /** The state of the search page. */
  class SearchPage {
    var records: seq<SearchRecord>
    var loading: bool
    var filters: Filters
    var currentPage: int

    /** The page number shown stays between 1 and the number of pages
        (page 1 when there are none). */
    predicate PageInRange()
      reads this
    {
      1 <= currentPage <= if PageCount() == 0 then 1 else PageCount()
    }

    function Results(): seq<SearchRecord>
      reads this
    {
      FilteredResults(records, filters)
    }

    function PageCount(): nat
      reads this
    {
      TotalPages(|Results()|)
    }

    /** The records shown on the current page. */
    function Shown(): seq<SearchRecord>
      reads this
    {
      PageItems(Results(), currentPage)
    }

    constructor ()
      ensures records == [] && loading && filters == DefaultFilters && currentPage == 1
      ensures PageInRange()
    {
      records := [];
      loading := true;
      filters := DefaultFilters;
      currentPage := 1;
    }

    /** The mount-time fetch: rows are transformed on success; on failure the
        list stays as it was. Loading ends either way. */
    method Load(outcome: Result<seq<CatalogRow>, string>)
      modifies this
      ensures records == (if outcome.Success? then TransformAll(outcome.value) else old(records))
      ensures !loading && filters == old(filters) && currentPage == old(currentPage)
    {
      if outcome.Success? {
        records := TransformAll(outcome.value);
      }
      loading := false;
    }

    /** A filter control changed: the new values take effect, and the page
        goes back to 1 only when some value actually differs. */
    method SetFilters(next: Filters)
      modifies this
      ensures filters == next && records == old(records) && loading == old(loading)
      ensures currentPage == if next != old(filters) then 1 else old(currentPage)
      ensures old(PageInRange()) ==> PageInRange()
    {
      if next != filters {
        filters := next;
        currentPage := 1;
      }
    }

    /** "Clear all filters": every control to its default, and page 1. */
    method ClearAllFilters()
      modifies this
      ensures filters == DefaultFilters && currentPage == 1 && records == old(records)
      ensures loading == old(loading)
      ensures PageInRange()
    {
      filters := DefaultFilters;
      currentPage := 1;
    }

    /** A numbered page link; only pages 1 to the page count have one. */
    method GoToPage(page: int)
      requires 1 <= page <= PageCount()
      modifies this
      ensures currentPage == page && records == old(records) && filters == old(filters)
      ensures loading == old(loading)
      ensures PageInRange()
    {
      currentPage := page;
    }

    /** "Previous": one page back, never below 1. */
    method Previous()
      modifies this
      ensures currentPage == if old(currentPage) - 1 > 1 then old(currentPage) - 1 else 1
      ensures records == old(records) && filters == old(filters) && loading == old(loading)
      ensures old(PageInRange()) ==> PageInRange()
    {
      currentPage := if currentPage - 1 > 1 then currentPage - 1 else 1;
    }

    /** "Next": one page on, never past the last page. The pager is shown
        only when there is more than one page. */
    method Next()
      requires PageCount() > 1
      modifies this
      ensures currentPage == if old(currentPage) + 1 < PageCount() then old(currentPage) + 1 else PageCount()
      ensures records == old(records) && filters == old(filters) && loading == old(loading)
      ensures old(PageInRange()) ==> PageInRange()
    {
      currentPage := if currentPage + 1 < PageCount() then currentPage + 1 else PageCount();
    }
  }
}
