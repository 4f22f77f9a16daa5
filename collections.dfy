/** The array operations the frontend composes: `Array.prototype.filter`,
    `Array.from(new Set(xs))` (distinct values in first-insertion order) and
    `Array.prototype.sort` with a comparator (a stable sort). */
module Collections {

  /** `xs.filter(keep)`. */
  function Filter<T>(xs: seq<T>, keep: T -> bool): (r: seq<T>)
    ensures |r| <= |xs|
    ensures forall i :: 0 <= i < |r| ==> r[i] in xs && keep(r[i])
  {
    if xs == [] then []
    else (if keep(xs[0]) then [xs[0]] else []) + Filter(xs[1..], keep)
  }

  /** Filtering distributes over concatenation, so the kept elements keep
      their relative order. */
  lemma {:induction false} FilterConcat<T>(a: seq<T>, b: seq<T>, keep: T -> bool)
    ensures Filter(a + b, keep) == Filter(a, keep) + Filter(b, keep)
  {
    if a == [] {
      assert a + b == b;
    } else {
      assert (a + b)[1..] == a[1..] + b;
      FilterConcat(a[1..], b, keep);
    }
  }

  /** Filtering drops exactly the elements the predicate rejects. */
  lemma {:induction false} FilterKeepsAccepted<T>(xs: seq<T>, keep: T -> bool, x: T)
    requires x in xs && keep(x)
    ensures x in Filter(xs, keep)
  {
    if xs[0] != x { FilterKeepsAccepted(xs[1..], keep, x); }
  }

  /** A predicate that holds of every element keeps the whole list, in order. */
  lemma {:induction false} FilterAllKept<T>(xs: seq<T>, keep: T -> bool)
    requires forall x :: x in xs ==> keep(x)
    ensures Filter(xs, keep) == xs
  {
    if xs != [] { FilterAllKept(xs[1..], keep); }
  }

  /** Filtering with two predicates that agree on the list gives the same result. */
  lemma {:induction false} FilterCongruent<T>(xs: seq<T>, p: T -> bool, q: T -> bool)
    requires forall x :: x in xs ==> p(x) == q(x)
    ensures Filter(xs, p) == Filter(xs, q)
  {
    if xs != [] { FilterCongruent(xs[1..], p, q); }
  }

  /** Filtering with a stricter predicate after a looser one is the same as
      filtering with the stricter one alone. */
  lemma {:induction false} FilterNarrowing<T>(xs: seq<T>, strict: T -> bool, loose: T -> bool)
    requires forall x :: x in xs && strict(x) ==> loose(x)
    ensures Filter(Filter(xs, loose), strict) == Filter(xs, strict)
  {
    if xs != [] {
      FilterNarrowing(xs[1..], strict, loose);
      var head: seq<T> := if loose(xs[0]) then [xs[0]] else [];
      FilterConcat(head, Filter(xs[1..], loose), strict);
    }
  }

  // ---- distinct values in first-occurrence order ----

  predicate NoDuplicates<T(==)>(xs: seq<T>) {
    forall i, j :: 0 <= i < j < |xs| ==> xs[i] != xs[j]
  }

  /** `Array.from(new Set(xs))`: a `Set` remembers insertion order and
      ignores a value it already holds. */
  function DistinctInOrder<T(==)>(xs: seq<T>): (r: seq<T>)
    ensures NoDuplicates(r)
    ensures forall i :: 0 <= i < |r| ==> r[i] in xs
    ensures forall i :: 0 <= i < |xs| ==> xs[i] in r
  {
    if xs == [] then []
    else
      var d := DistinctInOrder(xs[..|xs| - 1]);
      var x := xs[|xs| - 1];
      assert xs == xs[..|xs| - 1] + [x];
      if x in d then d else d + [x]
  }

  /** The position of the first occurrence of `x` in `xs`. */
  function FirstIndex<T(==)>(xs: seq<T>, x: T): (i: nat)
    requires x in xs
    ensures i < |xs| && xs[i] == x && x !in xs[..i]
  {
    if xs[0] == x then 0 else assert xs[1..][..FirstIndex(xs[1..], x)] == xs[..FirstIndex(xs[1..], x) + 1][1..]; 1 + FirstIndex(xs[1..], x)
  }

  lemma FirstIndexInPrefix<T>(xs: seq<T>, y: T, x: T)
    requires y in xs
    ensures FirstIndex(xs + [x], y) == FirstIndex(xs, y)
  {
    var i := FirstIndex(xs, y);
    var j := FirstIndex(xs + [x], y);
    assert (xs + [x])[i] == y;
  }

  /** The distinct values come out in the order of their first occurrence. */
  lemma {:induction false} DistinctInFirstOccurrenceOrder<T>(xs: seq<T>, i: nat, j: nat)
    requires i < j < |DistinctInOrder(xs)|
    ensures FirstIndex(xs, DistinctInOrder(xs)[i]) < FirstIndex(xs, DistinctInOrder(xs)[j])
  {
    var init := xs[..|xs| - 1];
    var x := xs[|xs| - 1];
    var d := DistinctInOrder(init);
    var r := DistinctInOrder(xs);
    assert xs == init + [x];
    FirstIndexInPrefix(init, r[i], x);
    if j < |d| {
      FirstIndexInPrefix(init, r[j], x);
      DistinctInFirstOccurrenceOrder(init, i, j);
    } else {
      assert r[j] == x && x !in init;
      assert FirstIndex(xs, x) == |init| by {
        assert xs[|init|] == x;
      }
    }
  }

  /** Adding one value to the Set: appended when new, ignored otherwise. */
  lemma DistinctSnoc<T>(xs: seq<T>, x: T)
    ensures DistinctInOrder(xs + [x]) == if x in DistinctInOrder(xs) then DistinctInOrder(xs) else DistinctInOrder(xs) + [x]
  {
    assert (xs + [x])[..|xs|] == xs;
  }

  // ---- some element maps to a value ----

  /** Some element of `xs` maps to `y` under `f`. */
  ghost predicate Occurs<A, B>(xs: seq<A>, f: A -> B, y: B) {
    exists k :: 0 <= k < |xs| && f(xs[k]) == y
  }

  lemma OccursSnoc<A, B>(xs: seq<A>, f: A -> B, y: B)
    requires xs != []
    ensures Occurs(xs, f, y) <==> Occurs(xs[..|xs| - 1], f, y) || f(xs[|xs| - 1]) == y
  {
    var init := xs[..|xs| - 1];
    if Occurs(xs, f, y) {
      var k :| 0 <= k < |xs| && f(xs[k]) == y;
      if k < |init| {
        assert init[k] == xs[k];
      }
    }
    if Occurs(init, f, y) {
      var k :| 0 <= k < |init| && f(init[k]) == y;
      assert init[k] == xs[k];
    }
  }

  lemma OccursConcat<A, B>(xs: seq<A>, ys: seq<A>, f: A -> B, y: B)
    ensures Occurs(xs + ys, f, y) <==> Occurs(xs, f, y) || Occurs(ys, f, y)
  {
    if Occurs(xs + ys, f, y) {
      var k :| 0 <= k < |xs + ys| && f((xs + ys)[k]) == y;
      if k < |xs| {
        assert (xs + ys)[k] == xs[k];
      } else {
        assert (xs + ys)[k] == ys[k - |xs|];
      }
    }
    if Occurs(xs, f, y) {
      var k :| 0 <= k < |xs| && f(xs[k]) == y;
      assert (xs + ys)[k] == xs[k];
    }
    if Occurs(ys, f, y) {
      var k :| 0 <= k < |ys| && f(ys[k]) == y;
      assert (xs + ys)[|xs| + k] == ys[k];
    }
  }

  // ---- stable sort by a comparator ----

  /** The comparator `le(a, b)` ("a sorts no later than b") is a total preorder,
      which is what a `localeCompare` collation provides. */
  ghost predicate TotalPreorder<T(!new)>(le: (T, T) -> bool) {
    (forall a, b :: le(a, b) || le(b, a))
    && (forall a, b, c :: le(a, b) && le(b, c) ==> le(a, c))
  }

  predicate SortedBy<T>(xs: seq<T>, le: (T, T) -> bool) {
    forall i, j :: 0 <= i < j < |xs| ==> le(xs[i], xs[j])
  }

  /** Insert `x` before the first element it sorts no later than. */
  function Insert<T>(x: T, sorted: seq<T>, le: (T, T) -> bool): (r: seq<T>)
    ensures multiset(r) == multiset(sorted) + multiset{x}
  {
    if sorted == [] || le(x, sorted[0]) then [x] + sorted
    else
      assert sorted == [sorted[0]] + sorted[1..];
      [sorted[0]] + Insert(x, sorted[1..], le)
  }

  /** `xs.sort(cmp)`: a stable sort, so an element never overtakes an earlier
      one that compares equal. */
  function SortBy<T>(xs: seq<T>, le: (T, T) -> bool): (r: seq<T>)
    ensures multiset(r) == multiset(xs)
  {
    if xs == [] then []
    else
      assert xs == [xs[0]] + xs[1..];
      Insert(xs[0], SortBy(xs[1..], le), le)
  }

  lemma {:induction false} InsertSorted<T(!new)>(x: T, sorted: seq<T>, le: (T, T) -> bool)
    requires TotalPreorder(le) && SortedBy(sorted, le)
    ensures SortedBy(Insert(x, sorted, le), le)
  {
    if sorted != [] && !le(x, sorted[0]) {
      var tail := sorted[1..];
      InsertSorted(x, tail, le);
      var r := Insert(x, sorted, le);
      var rt := Insert(x, tail, le);
      assert r == [sorted[0]] + rt;
      forall k | 0 <= k < |rt| ensures le(sorted[0], rt[k]) {
        assert rt[k] in multiset(rt);
        assert rt[k] == x || rt[k] in multiset(tail);
        if rt[k] != x {
          var m :| 0 <= m < |tail| && tail[m] == rt[k];
          assert sorted[m + 1] == rt[k];
        }
      }
    }
  }

  /** The comparator sort yields its input, sorted. */
  lemma {:induction false} SortBySorted<T(!new)>(xs: seq<T>, le: (T, T) -> bool)
    requires TotalPreorder(le)
    ensures SortedBy(SortBy(xs, le), le)
  {
    if xs != [] {
      SortBySorted(xs[1..], le);
      InsertSorted(xs[0], SortBy(xs[1..], le), le);
    }
  }

  lemma SortByLength<T>(xs: seq<T>, le: (T, T) -> bool)
    ensures |SortBy(xs, le)| == |xs|
  {
    assert |multiset(SortBy(xs, le))| == |multiset(xs)|;
  }

  /** Sorting neither loses nor invents elements. */
  lemma SortByMembers<T>(xs: seq<T>, le: (T, T) -> bool)
    ensures forall x :: x in SortBy(xs, le) <==> x in xs
  {
    forall x ensures x in SortBy(xs, le) <==> x in xs {
      assert x in SortBy(xs, le) <==> x in multiset(SortBy(xs, le));
      assert x in xs <==> x in multiset(xs);
    }
  }

  /** The elements the comparator cannot tell apart from `k`. */
  function TiedWith<T>(le: (T, T) -> bool, k: T): T -> bool {
    y => le(y, k) && le(k, y)
  }

  /** `[x]` filtered: `[x]` when it is kept, `[]` otherwise. */
  lemma FilterSingleton<T>(x: T, keep: T -> bool)
    ensures Filter([x], keep) == if keep(x) then [x] else []
  {
    assert [x][1..] == [];
  }

  /** Of two elements out of order, at most one is tied with `k`. */
  lemma TiedExclusive<T(!new)>(le: (T, T) -> bool, k: T, x: T, y: T)
    requires TotalPreorder(le) && !le(x, y)
    ensures !(TiedWith(le, k)(x) && TiedWith(le, k)(y))
  {
    if le(x, k) {
      assert !le(k, y);
    }
  }

  /** Inserting past a head that sorts before `x`: the head's tie comes
      first, and at most one of the two is tied with `k`. */
  lemma InsertStableStep<T>(x: T, sorted: seq<T>, le: (T, T) -> bool, k: T)
    requires sorted != [] && !le(x, sorted[0])
    requires !(TiedWith(le, k)(x) && TiedWith(le, k)(sorted[0]))
    requires Filter(Insert(x, sorted[1..], le), TiedWith(le, k))
          == Filter([x], TiedWith(le, k)) + Filter(sorted[1..], TiedWith(le, k))
    ensures Filter(Insert(x, sorted, le), TiedWith(le, k))
         == Filter([x], TiedWith(le, k)) + Filter(sorted, TiedWith(le, k))
  {
    var tied := TiedWith(le, k);
    var head, tail := sorted[0], sorted[1..];
    var rest := Insert(x, tail, le);
    var fx, fh, ft := Filter([x], tied), Filter([head], tied), Filter(tail, tied);
    assert fx == [] || fh == [] by {
      FilterSingleton(x, tied);
      FilterSingleton(head, tied);
    }
    assert Filter(Insert(x, sorted, le), tied) == fh + Filter(rest, tied) by {
      assert Insert(x, sorted, le) == [head] + rest;
      FilterConcat([head], rest, tied);
    }
    assert Filter(sorted, tied) == fh + ft by {
      assert sorted == [head] + tail;
      FilterConcat([head], tail, tied);
    }
    SwapEmpty(fh, fx, ft);
  }

  lemma SwapEmpty<T>(a: seq<T>, b: seq<T>, c: seq<T>)
    requires a == [] || b == []
    ensures a + (b + c) == b + (a + c)
  {
    if a == [] {
      assert a + (b + c) == b + c == b + (a + c);
    } else {
      assert a + (b + c) == a + c == b + (a + c);
    }
  }

  lemma {:induction false} InsertStable<T(!new)>(x: T, sorted: seq<T>, le: (T, T) -> bool, k: T)
    requires TotalPreorder(le)
    ensures Filter(Insert(x, sorted, le), TiedWith(le, k))
         == Filter([x], TiedWith(le, k)) + Filter(sorted, TiedWith(le, k))
  {
    if sorted == [] || le(x, sorted[0]) {
      FilterConcat([x], sorted, TiedWith(le, k));
    } else {
      InsertStable(x, sorted[1..], le, k);
      TiedExclusive(le, k, x, sorted[0]);
      InsertStableStep(x, sorted, le, k);
    }
  }

  /** The sort is stable: the elements tied with any `k` (such as "Red" and
      "red" under a case-insensitive collation) come out in their input
      order. */
  lemma {:induction false} SortByStable<T(!new)>(xs: seq<T>, le: (T, T) -> bool, k: T)
    requires TotalPreorder(le)
    ensures Filter(SortBy(xs, le), TiedWith(le, k)) == Filter(xs, TiedWith(le, k))
  {
    if xs != [] {
      SortByStable(xs[1..], le, k);
      InsertStable(xs[0], SortBy(xs[1..], le), le, k);
      assert xs == [xs[0]] + xs[1..];
      FilterConcat([xs[0]], xs[1..], TiedWith(le, k));
    }
  }

  lemma {:induction false} NoDuplicatesCount<T>(xs: seq<T>, x: T)
    requires NoDuplicates(xs)
    ensures multiset(xs)[x] <= 1
  {
    if xs != [] {
      assert xs == [xs[0]] + xs[1..];
      NoDuplicatesCount(xs[1..], x);
      if xs[0] == x {
        assert x !in xs[1..] by {
          forall k | 0 <= k < |xs[1..]| ensures xs[1..][k] != x {
            assert xs[1..][k] == xs[k + 1];
          }
        }
      }
    }
  }

  lemma RepeatedCount<T>(ys: seq<T>, i: nat, j: nat)
    requires i < j < |ys| && ys[i] == ys[j]
    ensures multiset(ys)[ys[i]] >= 2
  {
    assert ys == ys[..j] + [ys[j]] + ys[j + 1..];
    assert ys[..j][i] == ys[i];
  }

  /** Sorting keeps distinct values distinct. */
  lemma SortByNoDuplicates<T>(xs: seq<T>, le: (T, T) -> bool)
    requires NoDuplicates(xs)
    ensures NoDuplicates(SortBy(xs, le))
  {
    var ys := SortBy(xs, le);
    forall i, j | 0 <= i < j < |ys| ensures ys[i] != ys[j] {
      if ys[i] == ys[j] {
        RepeatedCount(ys, i, j);
        NoDuplicatesCount(xs, ys[i]);
      }
    }
  }
}
