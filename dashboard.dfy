/** The "My submissions" dashboard: the signed-in user's submissions, newest
    first, narrowed by a text search, a status, a state and two submission
    dates, with the distinct states offered as choices. */
module Dashboard {
  import opened Wrappers
  import opened JsStrings
  import opened Collections

  /** A row of `submissions` as far as the dashboard reads it; every text
      column may be null. `kind` is the postmark type column. */
  datatype Submission = Submission(
    id: string, name: Option<string>, town: Option<string>, state: Option<string>,
    kind: Option<string>, color: Option<string>, status: Option<string>, createdAt: string)

  /** The values of the five filter controls. */
  datatype Criteria = Criteria(query: string, status: string, state: string, dateFrom: string, dateTo: string)

  const DefaultCriteria := Criteria("", "all", "all", "", "")

  /** `val != null && String(val).toLowerCase().includes(q)`. */
  predicate FieldContains(v: Option<string>, q: string) {
    v.Some? && Includes(ToLower(v.value), q)
  }

  /** The text search: trimmed, lower-cased, looked for in the name, the
      town and the state only. */
  predicate TextMatches(s: Submission, query: string) {
    var q := ToLower(Trim(query));
    Trim(query) == [] || FieldContains(s.name, q) || FieldContains(s.town, q) || FieldContains(s.state, q)
  }

  predicate StatusMatches(s: Submission, status: string) {
    status == "all" || s.status == Some(status)
  }

  predicate StateMatches(s: Submission, state: string) {
    state == "all" || s.state == Some(state)
  }

  /** The two date bounds. `toTime` is `new Date(text).getTime()`, `None`
      for an invalid date; a comparison involving NaN is false, so an
      unreadable date never excludes anything. */
  predicate DatesMatch(s: Submission, dateFrom: string, dateTo: string, toTime: string -> Option<int>) {
    var t := toTime(s.createdAt);
    (dateFrom == [] || !(t.Some? && toTime(dateFrom).Some? && t.value < toTime(dateFrom).value))
    && (dateTo == [] || !(t.Some? && toTime(dateTo).Some? && t.value > toTime(dateTo).value))
  }

  predicate Keep(s: Submission, c: Criteria, toTime: string -> Option<int>) {
    TextMatches(s, c.query) && StatusMatches(s, c.status) && StateMatches(s, c.state)
    && DatesMatch(s, c.dateFrom, c.dateTo, toTime)
  }

  /** `filteredSubmissions`. */
  function FilteredSubmissions(subs: seq<Submission>, c: Criteria, toTime: string -> Option<int>): (r: seq<Submission>)
    ensures forall i :: 0 <= i < |r| ==> r[i] in subs && Keep(r[i], c, toTime)
  {
    Filter(subs, s => Keep(s, c, toTime))
  }

  /** Every submission the filters accept is shown. */
  lemma FilteredComplete(subs: seq<Submission>, c: Criteria, toTime: string -> Option<int>, s: Submission)
    requires s in subs && Keep(s, c, toTime)
    ensures s in FilteredSubmissions(subs, c, toTime)
  {
    FilterKeepsAccepted(subs, x => Keep(x, c, toTime), s);
  }

  /** The submissions keep their order. */
  lemma FilteredKeepsOrder(a: seq<Submission>, b: seq<Submission>, c: Criteria, toTime: string -> Option<int>)
    ensures FilteredSubmissions(a + b, c, toTime) == FilteredSubmissions(a, c, toTime) + FilteredSubmissions(b, c, toTime)
  {
    FilterConcat(a, b, x => Keep(x, c, toTime));
  }

  /** A submission passes every filter left at its default. */
  lemma DefaultsKeepSubmission(s: Submission, toTime: string -> Option<int>)
    ensures Keep(s, DefaultCriteria, toTime)
  {
    assert DefaultCriteria == Criteria("", "all", "all", "", "");
    assert Trim("") == [];
    assert TextMatches(s, "") && DatesMatch(s, "", "", toTime);
  }

  /** With every filter at its default, every submission is shown, in order. */
  lemma DefaultsKeepAll(subs: seq<Submission>, toTime: string -> Option<int>)
    ensures FilteredSubmissions(subs, DefaultCriteria, toTime) == subs
  {
    forall s | s in subs ensures Keep(s, DefaultCriteria, toTime) {
      DefaultsKeepSubmission(s, toTime);
    }
    FilterAllKept(subs, x => Keep(x, DefaultCriteria, toTime));
  }

  /** The text search does not look at the type or the colour. */
  lemma TextIgnoresKindAndColor(s: Submission, c: Criteria, toTime: string -> Option<int>,
                                kind: Option<string>, color: Option<string>)
    ensures Keep(s.(kind := kind, color := color), c, toTime) == Keep(s, c, toTime)
  {
    var t := s.(kind := kind, color := color);
    assert t.name == s.name && t.town == s.town && t.state == s.state;
    assert t.status == s.status && t.createdAt == s.createdAt;
  }

  /** A status or state filter other than "all" keeps exactly the
      submissions with that very value. */
  lemma ExactStatusAndState(s: Submission, c: Criteria, toTime: string -> Option<int>)
    ensures c.status != "all" && Keep(s, c, toTime) ==> s.status == Some(c.status)
    ensures c.state != "all" && Keep(s, c, toTime) ==> s.state == Some(c.state)
    ensures Keep(s, c, toTime) <==> Keep(s, c.(status := "all", state := "all"), toTime)
                                     && StatusMatches(s, c.status) && StateMatches(s, c.state)
  {
  }

  /** The date bounds are inclusive: with readable dates, a submission
      passes both bounds exactly when it was made between them. */
  lemma DateBoundsInclusive(s: Submission, dateFrom: string, dateTo: string, toTime: string -> Option<int>)
    requires dateFrom != [] && dateTo != []
    requires toTime(s.createdAt).Some? && toTime(dateFrom).Some? && toTime(dateTo).Some?
    ensures DatesMatch(s, dateFrom, dateTo, toTime)
        <==> toTime(dateFrom).value <= toTime(s.createdAt).value <= toTime(dateTo).value
  {
  }

  /** With only the "from" date set and readable, a submission passes
      exactly when it was made on or after it. */
  lemma DateFromOnly(s: Submission, dateFrom: string, toTime: string -> Option<int>)
    requires dateFrom != [] && toTime(s.createdAt).Some? && toTime(dateFrom).Some?
    ensures DatesMatch(s, dateFrom, "", toTime) <==> toTime(dateFrom).value <= toTime(s.createdAt).value
  {
  }

  /** With only the "to" date set and readable, a submission passes
      exactly when it was made on or before it. */
  lemma DateToOnly(s: Submission, dateTo: string, toTime: string -> Option<int>)
    requires dateTo != [] && toTime(s.createdAt).Some? && toTime(dateTo).Some?
    ensures DatesMatch(s, "", dateTo, toTime) <==> toTime(s.createdAt).value <= toTime(dateTo).value
  {
  }

  /** An unreadable date excludes nothing: a submission whose creation
      time is unreadable passes any bounds, and a bound that is set but
      unreadable filters as if it were empty. */
  lemma UnreadableDatesKeep(s: Submission, dateFrom: string, dateTo: string, toTime: string -> Option<int>)
    ensures toTime(s.createdAt).None? ==> DatesMatch(s, dateFrom, dateTo, toTime)
    ensures toTime(dateFrom).None? ==> (DatesMatch(s, dateFrom, dateTo, toTime) <==> DatesMatch(s, "", dateTo, toTime))
    ensures toTime(dateTo).None? ==> (DatesMatch(s, dateFrom, dateTo, toTime) <==> DatesMatch(s, dateFrom, "", toTime))
  {
  }

  /** `submissions.map(s => s.state).filter(Boolean)`: the states that are
      neither null nor empty, in order. */
  function TruthyStates(subs: seq<Submission>): (r: seq<string>)
    ensures forall i :: 0 <= i < |r| ==> r[i] != [] && Some(r[i]) in StatesOf(subs)
    ensures forall i :: 0 <= i < |subs| && subs[i].state.Some? && subs[i].state.value != [] ==> subs[i].state.value in r
  {
    if subs == [] then []
    else
      var rest := TruthyStates(subs[1..]);
      assert forall i :: 0 < i < |subs| ==> subs[i] == subs[1..][i - 1];
      var st := subs[0].state;
      if st.Some? && st.value != [] then [st.value] + rest else rest
  }

  /** The state column of every submission. */
  function StatesOf(subs: seq<Submission>): (r: seq<Option<string>>)
    ensures |r| == |subs| && forall i :: 0 <= i < |subs| ==> r[i] == subs[i].state
  {
    seq(|subs|, i requires 0 <= i < |subs| => subs[i].state)
  }

  /** `uniqueStates`: the distinct truthy states, without duplicates, each
      taken from some submission, every truthy state among them. */
  function UniqueStates(subs: seq<Submission>): (r: seq<string>)
    ensures NoDuplicates(r)
    ensures forall i :: 0 <= i < |r| ==> r[i] != [] && Some(r[i]) in StatesOf(subs)
    ensures forall i :: 0 <= i < |subs| && subs[i].state.Some? && subs[i].state.value != [] ==> subs[i].state.value in r
  {
    DistinctInOrder(TruthyStates(subs))
  }

  /** The states are offered in the order of their first appearance. */
  lemma UniqueStatesInFirstOccurrenceOrder(subs: seq<Submission>, i: nat, j: nat)
    requires i < j < |UniqueStates(subs)|
    ensures FirstIndex(TruthyStates(subs), UniqueStates(subs)[i]) < FirstIndex(TruthyStates(subs), UniqueStates(subs)[j])
  {
    DistinctInFirstOccurrenceOrder(TruthyStates(subs), i, j);
  }

  /** The dashboard's state. */
  class DashboardPage {
    var submissions: seq<Submission>
    var loading: bool
    var searchQuery: string
    var statusFilter: string
    var stateFilter: string
    var dateFrom: string
    var dateTo: string

    /** The filter controls' current values. */
    function Current(): Criteria
      reads this
    {
      Criteria(searchQuery, statusFilter, stateFilter, dateFrom, dateTo)
    }

    constructor ()
      ensures submissions == [] && loading && Current() == DefaultCriteria
    {
      submissions := [];
      loading := true;
      searchQuery, statusFilter, stateFilter, dateFrom, dateTo := "", "all", "all", "", "";
    }

    /** Loading the user's submissions: none without a user; `data || []`
        on success; unchanged after a failed fetch. Loading ends either way. */
    method LoadSubmissions(signedIn: bool, fetched: Result<Option<seq<Submission>>, string>)
      modifies this
      ensures !signedIn ==> submissions == []
      ensures signedIn && fetched.Success? ==> submissions == fetched.value.GetOr([])
      ensures signedIn && fetched.Failure? ==> submissions == old(submissions)
      ensures !loading && Current() == old(Current())
    {
      if !signedIn {
        submissions := [];
      } else if fetched.Success? {
        submissions := fetched.value.GetOr([]);
      }
      loading := false;
    }

    /** "Clear Filters": the five controls back to "" and "all". */
    method ClearFilters()
      modifies this
      ensures Current() == DefaultCriteria
      ensures submissions == old(submissions) && loading == old(loading)
    {
      searchQuery := "";
      statusFilter := "all";
      stateFilter := "all";
      dateFrom := "";
      dateTo := "";
    }
  }
}
