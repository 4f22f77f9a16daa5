/** The local-store fallback shared by the colour and shape services: one
    column read from `catalog_records` and from `submissions`, its trimmed
    non-blank values gathered into a `Set` (catalog rows first), then sorted
    with a `localeCompare` comparator. A query that fails yields `data` null,
    which `data ?? []` turns into no rows. */
module StoreValues {
  import opened Wrappers
  import opened JsStrings
  import opened Collections

  /** `row?.col && String(row.col).trim()`: the row exists, the value is not
      null and it is not blank. `None` stands for a missing row or a null
      value. */
  predicate Present(v: Option<string>) {
    v.Some? && Trim(v.value) != []
  }

  /** A string `trim` returns unchanged that is not empty: no white space
      at either end. */
  predicate Trimmed(s: string) {
    s != [] && !IsSpace(s[0]) && !IsSpace(s[|s| - 1])
  }

  /** Every string of `xs` is `Trimmed`. */
  predicate AllTrimmed(xs: seq<string>) {
    forall i :: 0 <= i < |xs| ==> Trimmed(xs[i])
  }

  /** What one row hands to `Set.add`: its value trimmed, when present. */
  function Added(v: Option<string>): (r: Option<string>)
    ensures r.Some? <==> Present(v)
    ensures r.Some? ==> Trimmed(r.value)
  {
    if Present(v) then TrimEdges(v.value); Some(Trim(v.value)) else None
  }

  /** What one row contributes to the sequence of added values. */
  function AddedSeq(v: Option<string>): (r: seq<string>)
    ensures |r| <= 1
    ensures forall y :: y in r <==> Added(v) == Some(y)
  {
    match Added(v)
    case Some(x) => [x]
    case None => []
  }

  /** The values the loops hand to `Set.add`, in the order they are added. */
  function PresentValues(rows: seq<Option<string>>): (r: seq<string>)
    ensures |r| <= |rows|
    ensures forall i :: 0 <= i < |r| ==> Trimmed(r[i])
  {
    if rows == [] then [] else PresentValues(rows[..|rows| - 1]) + AddedSeq(rows[|rows| - 1])
  }

  /** Some row holds the value `x`, up to the white space around it. */
  ghost predicate Holds(rows: seq<Option<string>>, x: string) {
    Occurs(rows, Added, Some(x))
  }

  /** A value is gathered exactly when some row holds it. */
  lemma {:induction false} PresentValuesMembers(rows: seq<Option<string>>, x: string)
    ensures x in PresentValues(rows) <==> Holds(rows, x)
  {
    if rows != [] {
      var init := rows[..|rows| - 1];
      PresentValuesMembers(init, x);
      OccursSnoc(rows, Added, Some(x));
      assert x in PresentValues(rows) <==> x in PresentValues(init) || x in AddedSeq(rows[|rows| - 1]);
    }
  }

  /** One more row of a table. */
  lemma PresentValuesSnoc(before: seq<Option<string>>, rows: seq<Option<string>>, i: nat)
    requires i < |rows|
    ensures PresentValues(before + rows[..i + 1]) == PresentValues(before + rows[..i]) + AddedSeq(rows[i])
  {
    var prefix := before + rows[..i];
    assert before + rows[..i + 1] == prefix + [rows[i]];
  }

  /** `set.add(String(row.col).trim())` for one row whose value is present;
      `values` is the Set, in insertion order, of the values added before. */
  method AddValue(values: seq<string>, v: Option<string>, ghost done: seq<string>) returns (values': seq<string>)
    requires values == DistinctInOrder(done)
    ensures values' == DistinctInOrder(done + AddedSeq(v))
  {
    values' := values;
    if v.Some? && Trim(v.value) != [] {
      var x := Trim(v.value);
      assert AddedSeq(v) == [x];
      DistinctSnoc(done, x);
      if x !in values {
        values' := values + [x];
      }
    } else {
      assert done + AddedSeq(v) == done;
    }
  }

  /** One `for` loop over the rows of a table, after the rows `before`. */
  method AddValues(values: seq<string>, before: seq<Option<string>>, rows: seq<Option<string>>)
    returns (values': seq<string>)
    requires values == DistinctInOrder(PresentValues(before))
    ensures values' == DistinctInOrder(PresentValues(before + rows))
  {
    assert before + rows[..0] == before;
    values' := values;
    for i := 0 to |rows|
      invariant values' == DistinctInOrder(PresentValues(before + rows[..i]))
    {
      ghost var done := PresentValues(before + rows[..i]);
      PresentValuesSnoc(before, rows, i);
      values' := AddValue(values', rows[i], done);
    }
    assert rows[..|rows|] == rows;
  }

  /** The two `for` loops over the rows of both tables, adding each present
      value, trimmed, to a `Set` (a sequence that ignores a value it already
      holds). */
  method CollectDistinct(catalog: seq<Option<string>>, submissions: seq<Option<string>>)
    returns (values: seq<string>)
    ensures values == DistinctInOrder(PresentValues(catalog + submissions))
  {
    assert [] + catalog == catalog;
    values := AddValues([], [], catalog);
    values := AddValues(values, catalog, submissions);
  }

  /** `Array.from(set).sort(...)`: the gathered values in comparator order. */
  function StoreNames(catalog: Option<seq<Option<string>>>, submissions: Option<seq<Option<string>>>,
                      le: (string, string) -> bool): seq<string>
  {
    SortBy(DistinctInOrder(PresentValues(catalog.GetOr([]) + submissions.GetOr([]))), le)
  }

  /** The derived names are sorted, each is trimmed and not blank, none
      repeats (as an exact string, so "Red" and "red" are two names), and a
      name is there exactly when some row of either table holds it. */
  lemma StoreNamesSpec(catalog: Option<seq<Option<string>>>, submissions: Option<seq<Option<string>>>,
                       le: (string, string) -> bool)
    requires TotalPreorder(le)
    ensures var names := StoreNames(catalog, submissions, le);
            SortedBy(names, le) && NoDuplicates(names) && AllTrimmed(names)
    ensures forall x :: (x in StoreNames(catalog, submissions, le)
                         <==> Holds(catalog.GetOr([]), x) || Holds(submissions.GetOr([]), x))
  {
    var c, s := catalog.GetOr([]), submissions.GetOr([]);
    var distinct := DistinctInOrder(PresentValues(c + s));
    var names := StoreNames(catalog, submissions, le);
    assert names == SortBy(distinct, le);
    SortBySorted(distinct, le);
    SortByNoDuplicates(distinct, le);
    SortedNamesTrimmed(c + s, le);
    forall x ensures x in names <==> Holds(c, x) || Holds(s, x) {
      SortByMembers(distinct, le);
      DistinctMembers(c, s, x);
    }
  }

  lemma SortedNamesTrimmed(rows: seq<Option<string>>, le: (string, string) -> bool)
    ensures AllTrimmed(SortBy(DistinctInOrder(PresentValues(rows)), le))
  {
    var values := PresentValues(rows);
    var distinct := DistinctInOrder(values);
    var names := SortBy(distinct, le);
    SortByMembers(distinct, le);
    forall i | 0 <= i < |names| ensures Trimmed(names[i]) {
      assert names[i] in distinct;
      assert names[i] in values;
      var j :| 0 <= j < |values| && values[j] == names[i];
    }
  }

  /** A value is in the Set exactly when some row of either table holds it. */
  lemma DistinctMembers(c: seq<Option<string>>, s: seq<Option<string>>, x: string)
    ensures x in DistinctInOrder(PresentValues(c + s)) <==> Holds(c, x) || Holds(s, x)
  {
    PresentValuesMembers(c + s, x);
    OccursConcat(c, s, Added, Some(x));
  }
}
