/** Filtering, mapping, ordering and grouping of sequences. */
module Sequences {
  function Filter<T>(s: seq<T>, keep: T -> bool): seq<T> {
    if s == [] then []
    else if keep(s[0]) then [s[0]] + Filter(s[1..], keep)
    else Filter(s[1..], keep)
  }

  function Map<T, U>(s: seq<T>, f: T -> U): (r: seq<U>)
    ensures |r| == |s|
    ensures forall i | 0 <= i < |s| :: r[i] == f(s[i])
  {
    if s == [] then [] else [f(s[0])] + Map(s[1..], f)
  }

  lemma FilterCons<T>(x: T, s: seq<T>, keep: T -> bool)
    ensures Filter([x] + s, keep) == if keep(x) then [x] + Filter(s, keep) else Filter(s, keep)
  {
    assert ([x] + s)[1..] == s;
  }

  lemma {:induction false} FilterConcat<T>(a: seq<T>, b: seq<T>, keep: T -> bool)
    ensures Filter(a + b, keep) == Filter(a, keep) + Filter(b, keep)
  {
    if a == [] {
      assert a + b == b;
    } else {
      FilterConcat(a[1..], b, keep);
      assert a + b == [a[0]] + (a[1..] + b);
      FilterCons(a[0], a[1..] + b, keep);
    }
  }

  lemma {:induction false} MapConcat<T, U>(a: seq<T>, b: seq<T>, f: T -> U)
    ensures Map(a + b, f) == Map(a, f) + Map(b, f)
  {}

  lemma {:induction false} FilterAll<T>(s: seq<T>, keep: T -> bool)
    requires forall x | x in s :: keep(x)
    ensures Filter(s, keep) == s
  {
    if s != [] { FilterAll(s[1..], keep); }
  }

  lemma {:induction false} FilterNone<T>(s: seq<T>, keep: T -> bool)
    requires forall x | x in s :: !keep(x)
    ensures Filter(s, keep) == []
  {
    if s != [] { FilterNone(s[1..], keep); }
  }

  lemma {:induction false} FilterMembers<T>(s: seq<T>, keep: T -> bool)
    ensures forall x :: x in Filter(s, keep) <==> x in s && keep(x)
  {
    if s != [] {
      FilterMembers(s[1..], keep);
      assert s == [s[0]] + s[1..];
    }
  }

  lemma {:induction false} FilterSame<T>(s: seq<T>, p: T -> bool, q: T -> bool)
    requires forall x | x in s :: p(x) == q(x)
    ensures Filter(s, p) == Filter(s, q)
  {
    if s != [] { FilterSame(s[1..], p, q); }
  }

  /** Two filters in a row keep what passes both. */
  lemma {:induction false} FilterTwice<T>(s: seq<T>, p: T -> bool, q: T -> bool, both: T -> bool)
    requires forall x | x in s :: both(x) == (p(x) && q(x))
    ensures Filter(Filter(s, p), q) == Filter(s, both)
  {
    if s != [] {
      FilterTwice(s[1..], p, q, both);
      if p(s[0]) {
        FilterCons(s[0], Filter(s[1..], p), q);
      }
    }
  }

  lemma {:induction false} FilterMap<T, U>(s: seq<T>, f: T -> U, keep: U -> bool, keepBefore: T -> bool)
    requires forall x | x in s :: keepBefore(x) == keep(f(x))
    ensures Filter(Map(s, f), keep) == Map(Filter(s, keepBefore), f)
  {
    if s != [] {
      FilterMap(s[1..], f, keep, keepBefore);
      FilterCons(f(s[0]), Map(s[1..], f), keep);
    }
  }

  lemma FilterSnoc<T>(s: seq<T>, x: T, keep: T -> bool)
    ensures Filter(s + [x], keep) == Filter(s, keep) + if keep(x) then [x] else []
  {
    FilterConcat(s, [x], keep);
    assert Filter([x], keep) == if keep(x) then [x] else [];
  }

  lemma {:induction false} MapSame<T, U>(s: seq<T>, f: T -> U, g: T -> U)
    requires forall x | x in s :: f(x) == g(x)
    ensures Map(s, f) == Map(s, g)
  {
    if s != [] { MapSame(s[1..], f, g); }
  }

  // Flattening

  function FlatMap<T, U>(s: seq<T>, f: T -> seq<U>): seq<U> {
    if s == [] then [] else FlatMap(s[..|s| - 1], f) + f(s[|s| - 1])
  }

  lemma FlatMapSnoc<T, U>(s: seq<T>, x: T, f: T -> seq<U>)
    ensures FlatMap(s + [x], f) == FlatMap(s, f) + f(x)
  {
    assert (s + [x])[..|s|] == s;
  }

  lemma FlatMapNone<T, U>(f: T -> seq<U>)
    ensures FlatMap([], f) == []
  {}

  lemma {:induction false} FlatMapConcat<T, U>(a: seq<T>, b: seq<T>, f: T -> seq<U>)
    ensures FlatMap(a + b, f) == FlatMap(a, f) + FlatMap(b, f)
  {
    hide FlatMap;
    if b == [] {
      FlatMapNone(f);
      assert a + b == a;
    } else {
      var init, last := b[..|b| - 1], b[|b| - 1];
      FlatMapConcat(a, init, f);
      FlatMapSnoc(a + init, last, f);
      FlatMapSnoc(init, last, f);
      assert a + b == (a + init) + [last] && b == init + [last];
    }
  }

  lemma SplitAt<T>(s: seq<T>, i: nat)
    requires i < |s|
    ensures s[..i + 1] == s[..i] + [s[i]] && s == s[..i + 1] + s[i + 1..]
  {}

  lemma FlatMapSplit<T, U>(s: seq<T>, i: nat, f: T -> seq<U>)
    requires i < |s|
    ensures FlatMap(s[..i + 1], f) == FlatMap(s[..i], f) + f(s[i])
    ensures FlatMap(s, f) == FlatMap(s[..i + 1], f) + FlatMap(s[i + 1..], f)
  {
    hide FlatMap;
    SplitAt(s, i);
    FlatMapSnoc(s[..i], s[i], f);
    FlatMapConcat(s[..i + 1], s[i + 1..], f);
  }

  lemma {:induction false} FlatMapMembers<T, U>(s: seq<T>, f: T -> seq<U>, y: U)
    ensures y in FlatMap(s, f) <==> exists x :: x in s && y in f(x)
  {
    if s != [] {
      FlatMapMembers(s[..|s| - 1], f, y);
      assert s == s[..|s| - 1] + [s[|s| - 1]];
    }
  }

  lemma {:induction false} FlatMapSame<T, U>(s: seq<T>, f: T -> seq<U>, g: T -> seq<U>)
    requires forall x | x in s :: f(x) == g(x)
    ensures FlatMap(s, f) == FlatMap(s, g)
  {
    if s != [] { FlatMapSame(s[..|s| - 1], f, g); }
  }

  lemma FlatMapMiddle<T, U>(a: seq<T>, x: T, b: seq<T>, f: T -> seq<U>)
    ensures multiset(FlatMap(a + [x] + b, f)) == multiset(FlatMap(a + b, f)) + multiset(f(x))
  {
    FlatMapConcat(a, b, f);
    FlatMapConcat(a + [x], b, f);
    FlatMapSnoc(a, x, f);
    hide FlatMap;
  }

  lemma TakeOut<T>(init: seq<T>, last: T, r: seq<T>) returns (i: nat)
    requires multiset(init + [last]) == multiset(r)
    ensures i < |r| && r[i] == last && multiset(r[..i] + r[i + 1..]) == multiset(init)
  {
    assert last in multiset(r);
    i :| 0 <= i < |r| && r[i] == last;
    assert r == r[..i] + [last] + r[i + 1..];
    assert multiset(init) == multiset(r) - multiset{last};
  }

  /** Flattening in another order gives the same items, each as often. */
  lemma {:induction false} FlatMapPermutation<T, U>(s: seq<T>, r: seq<T>, f: T -> seq<U>)
    requires multiset(s) == multiset(r)
    ensures multiset(FlatMap(s, f)) == multiset(FlatMap(r, f))
  {
    hide FlatMap;
    if s == [] {
      SameContents(s, r);
    } else {
      var init, last := s[..|s| - 1], s[|s| - 1];
      assert s == init + [last];
      var i := TakeOut(init, last, r);
      assert r == r[..i] + [last] + r[i + 1..];
      FlatMapPermutation(init, r[..i] + r[i + 1..], f);
      FlatMapMiddle(r[..i], last, r[i + 1..], f);
      FlatMapMiddle(init, last, [], f);
      assert init + [last] + [] == s && init + [] == init;
    }
  }

  // Ordering

  ghost predicate TotalPreorder<T(!new)>(le: (T, T) -> bool) {
    && (forall x, y :: le(x, y) || le(y, x))
    && (forall x, y, z :: le(x, y) && le(y, z) ==> le(x, z))
  }

  predicate Ordered<T>(s: seq<T>, le: (T, T) -> bool) {
    forall i, j | 0 <= i < j < |s| :: le(s[i], s[j])
  }

  function Insert<T>(x: T, s: seq<T>, le: (T, T) -> bool): seq<T> {
    if s == [] || le(x, s[0]) then [x] + s else [s[0]] + Insert(x, s[1..], le)
  }

  /** ORDER BY: rows with equal keys keep the order they have in the table. */
  function Sort<T>(s: seq<T>, le: (T, T) -> bool): seq<T> {
    if s == [] then [] else Insert(s[0], Sort(s[1..], le), le)
  }

  lemma {:induction false} InsertContents<T>(x: T, s: seq<T>, le: (T, T) -> bool)
    ensures multiset(Insert(x, s, le)) == multiset{x} + multiset(s)
  {
    if s == [] || le(x, s[0]) {
    } else {
      InsertContents(x, s[1..], le);
      assert s == [s[0]] + s[1..];
    }
  }

  lemma {:induction false} InsertOrdered<T(!new)>(x: T, s: seq<T>, le: (T, T) -> bool)
    requires TotalPreorder(le) && Ordered(s, le)
    ensures Ordered(Insert(x, s, le), le)
  {
    if s == [] || le(x, s[0]) {
    } else {
      InsertOrdered(x, s[1..], le);
      var r := Insert(x, s[1..], le);
      InsertContents(x, s[1..], le);
      forall y | y in r ensures le(s[0], y) {
        assert y in multiset(r);
      }
    }
  }

  lemma {:induction false} SortIsOrdering<T(!new)>(s: seq<T>, le: (T, T) -> bool)
    requires TotalPreorder(le)
    ensures Ordered(Sort(s, le), le) && multiset(Sort(s, le)) == multiset(s)
  {
    if s != [] {
      SortIsOrdering(s[1..], le);
      InsertOrdered(s[0], Sort(s[1..], le), le);
      InsertContents(s[0], Sort(s[1..], le), le);
      assert s == [s[0]] + s[1..];
    }
  }

  lemma SameContents<T>(s: seq<T>, r: seq<T>)
    requires multiset(s) == multiset(r)
    ensures |s| == |r| && forall x :: x in s <==> x in r
  {
    assert |s| == |multiset(s)| == |multiset(r)| == |r|;
    assert forall x :: x in s <==> x in multiset(s);
    assert forall x :: x in r <==> x in multiset(r);
  }

  lemma TailContents<T>(s: seq<T>)
    requires s != []
    ensures multiset(s[1..]) == multiset(s) - multiset{s[0]}
  {
    assert s == [s[0]] + s[1..];
  }

  lemma HeadsAgree<T(!new)>(s: seq<T>, r: seq<T>, le: (T, T) -> bool)
    requires TotalPreorder(le) && Ordered(s, le) && Ordered(r, le) && multiset(s) == multiset(r) && s != []
    requires forall x, y | x in s && y in s && le(x, y) && le(y, x) :: x == y
    ensures r != [] && s[0] == r[0] && multiset(s[1..]) == multiset(r[1..])
  {
    SameContents(s, r);
    assert s[0] in r && r[0] in s;
    assert le(s[0], r[0]) && le(r[0], s[0]);
    TailContents(s);
    TailContents(r);
  }

  /** When no two rows compare equal, the ordering is determined: whatever order the
      database chooses among equal keys, the result is Sort's. */
  lemma {:induction false} OrderingIsUnique<T(!new)>(s: seq<T>, r: seq<T>, le: (T, T) -> bool)
    requires TotalPreorder(le) && Ordered(s, le) && Ordered(r, le) && multiset(s) == multiset(r)
    requires forall x, y | x in s && y in s && le(x, y) && le(y, x) :: x == y
    ensures s == r
  {
    if s == [] {
      SameContents(s, r);
    } else {
      HeadsAgree(s, r, le);
      OrderingIsUnique(s[1..], r[1..], le);
    }
  }

  lemma OrderingIsSort<T(!new)>(s: seq<T>, r: seq<T>, le: (T, T) -> bool)
    requires TotalPreorder(le) && Ordered(r, le) && multiset(r) == multiset(s)
    requires forall x, y | x in s && y in s && le(x, y) && le(y, x) :: x == y
    ensures r == Sort(s, le)
  {
    SortIsOrdering(s, le);
    SameContents(s, Sort(s, le));
    OrderingIsUnique(Sort(s, le), r, le);
  }

  /** A query's ORDER BY, or an unstable sort: any ordering may come back. */
  method OrderBy<T(==, !new)>(s: seq<T>, le: (T, T) -> bool) returns (r: seq<T>)
    requires TotalPreorder(le)
    ensures Ordered(r, le) && multiset(r) == multiset(s)
  {
    r := *;
    if !(Ordered(r, le) && multiset(r) == multiset(s)) {
      SortIsOrdering(s, le);
      r := Sort(s, le);
    }
  }

  lemma SortMembers<T(!new)>(s: seq<T>, le: (T, T) -> bool)
    requires TotalPreorder(le)
    ensures |Sort(s, le)| == |s|
    ensures forall x :: x in Sort(s, le) <==> x in s
  {
    SortIsOrdering(s, le);
    SameContents(s, Sort(s, le));
  }

  lemma {:induction false} SortOrdered<T(!new)>(s: seq<T>, le: (T, T) -> bool)
    requires Ordered(s, le)
    ensures Sort(s, le) == s
  {
    if s != [] {
      SortOrdered(s[1..], le);
    }
  }

  lemma SortTwice<T(!new)>(s: seq<T>, le: (T, T) -> bool)
    requires TotalPreorder(le)
    ensures Sort(Sort(s, le), le) == Sort(s, le)
  {
    SortIsOrdering(s, le);
    SortOrdered(Sort(s, le), le);
  }

  lemma InsertLeast<T>(x: T, s: seq<T>, le: (T, T) -> bool)
    requires forall y | y in s :: le(x, y)
    ensures Insert(x, s, le) == [x] + s
  {}

  lemma InsertPast<T>(x: T, y: T, s: seq<T>, le: (T, T) -> bool)
    requires !le(x, y)
    ensures Insert(x, [y] + s, le) == [y] + Insert(x, s, le)
  {
    assert ([y] + s)[1..] == s;
  }

  lemma {:induction false} FilterInsert<T(!new)>(x: T, s: seq<T>, le: (T, T) -> bool, keep: T -> bool)
    requires TotalPreorder(le) && Ordered(s, le)
    ensures Filter(Insert(x, s, le), keep) ==
            if keep(x) then Insert(x, Filter(s, keep), le) else Filter(s, keep)
  {
    if s == [] || le(x, s[0]) {
      FilterCons(x, s, keep);
      FilterMembers(s, keep);
      assert forall y | y in s :: le(x, y);
      InsertLeast(x, Filter(s, keep), le);
    } else {
      FilterInsert(x, s[1..], le, keep);
      FilterCons(s[0], Insert(x, s[1..], le), keep);
      if keep(s[0]) {
        InsertPast(x, s[0], Filter(s[1..], keep), le);
      }
    }
  }

  lemma SortCons<T>(x: T, s: seq<T>, le: (T, T) -> bool)
    ensures Sort([x] + s, le) == Insert(x, Sort(s, le), le)
  {
    assert ([x] + s)[1..] == s;
  }

  /** Selecting before or after ordering gives the same rows in the same order. */
  lemma {:induction false} FilterSort<T(!new)>(s: seq<T>, le: (T, T) -> bool, keep: T -> bool)
    requires TotalPreorder(le)
    ensures Filter(Sort(s, le), keep) == Sort(Filter(s, keep), le)
  {
    if s != [] {
      FilterSort(s[1..], le, keep);
      SortIsOrdering(s[1..], le);
      FilterInsert(s[0], Sort(s[1..], le), le, keep);
      if keep(s[0]) {
        SortCons(s[0], Filter(s[1..], keep), le);
      }
    }
  }

  lemma {:induction false} MapInsert<T(!new), U(!new)>(x: T, s: seq<T>, f: T -> U, le: (T, T) -> bool, le': (U, U) -> bool)
    requires forall a, b :: le(a, b) == le'(f(a), f(b))
    ensures Map(Insert(x, s, le), f) == Insert(f(x), Map(s, f), le')
  {
    if s == [] || le(x, s[0]) {
      assert ([x] + s)[1..] == s;
    } else {
      MapInsert(x, s[1..], f, le, le');
      assert ([s[0]] + Insert(x, s[1..], le))[1..] == Insert(x, s[1..], le);
    }
  }

  /** A map that keeps the sort key can be applied before or after ordering. */
  lemma {:induction false} MapSort<T(!new), U(!new)>(s: seq<T>, f: T -> U, le: (T, T) -> bool, le': (U, U) -> bool)
    requires forall a, b :: le(a, b) == le'(f(a), f(b))
    ensures Map(Sort(s, le), f) == Sort(Map(s, f), le')
  {
    if s != [] {
      MapSort(s[1..], f, le, le');
      MapInsert(s[0], Sort(s[1..], le), f, le, le');
    }
  }

  // Unique keys

  predicate Distinct<T, K(==)>(s: seq<T>, key: T -> K) {
    forall i, j | 0 <= i < j < |s| :: key(s[i]) != key(s[j])
  }

  predicate Shares<T, K(==)>(a: seq<T>, b: seq<T>, key: T -> K) {
    exists i, j | 0 <= i < |a| && 0 <= j < |b| :: key(a[i]) == key(b[j])
  }

  lemma DistinctConcat<T, K>(a: seq<T>, b: seq<T>, key: T -> K)
    ensures Distinct(a + b, key) <==> Distinct(a, key) && Distinct(b, key) && !Shares(a, b, key)
  {
    var s := a + b;
    if Distinct(s, key) {
      forall i, j | 0 <= i < |a| && 0 <= j < |b|
        ensures key(a[i]) != key(b[j])
      {
        assert s[i] == a[i] && s[|a| + j] == b[j];
      }
      assert forall i | 0 <= i < |a| :: a[i] == s[i];
      assert forall i | 0 <= i < |b| :: b[i] == s[|a| + i];
    }
  }

  /** The row a unique constraint on this key would refuse. */
  predicate Clash<T(==), K(==)>(s: seq<T>, x: T, key: T -> K) {
    exists r | r in s :: key(r) == key(x)
  }

  lemma DistinctSnoc<T, K>(s: seq<T>, x: T, key: T -> K)
    requires Distinct(s, key)
    ensures Distinct(s + [x], key) <==> !Clash(s, x, key)
  {
    DistinctConcat(s, [x], key);
    if Clash(s, x, key) {
      var r :| r in s && key(r) == key(x);
      var i :| 0 <= i < |s| && s[i] == r;
      assert Shares(s, [x], key) by { assert key(s[i]) == key([x][0]); }
    }
    if Shares(s, [x], key) {
      var i, j :| 0 <= i < |s| && 0 <= j < 1 && key(s[i]) == key([x][j]);
      assert s[i] in s;
    }
  }

  lemma {:induction false} FilterIndex<T>(s: seq<T>, keep: T -> bool, j: nat) returns (i: nat)
    requires j < |Filter(s, keep)|
    ensures i < |s| && s[i] == Filter(s, keep)[j]
  {
    if keep(s[0]) && j == 0 {
      i := 0;
    } else {
      i := FilterIndex(s[1..], keep, if keep(s[0]) then j - 1 else j);
      i := i + 1;
    }
  }

  lemma {:induction false} DistinctFilter<T, K>(s: seq<T>, key: T -> K, keep: T -> bool)
    requires Distinct(s, key)
    ensures Distinct(Filter(s, keep), key)
  {
    if s != [] {
      DistinctFilter(s[1..], key, keep);
      if keep(s[0]) {
        var kept := Filter(s[1..], keep);
        forall j | 0 <= j < |kept|
          ensures key(s[0]) != key(kept[j])
        {
          var i := FilterIndex(s[1..], keep, j);
          assert s[i + 1] == kept[j];
        }
      }
    }
  }

  // Sums

  function Sum<T>(s: seq<T>, weight: T -> int): int {
    if s == [] then 0 else weight(s[0]) + Sum(s[1..], weight)
  }

  lemma {:induction false} SumConcat<T>(a: seq<T>, b: seq<T>, weight: T -> int)
    ensures Sum(a + b, weight) == Sum(a, weight) + Sum(b, weight)
  {
    if a == [] {
      assert a + b == b;
    } else {
      assert (a + b)[1..] == a[1..] + b;
      SumConcat(a[1..], b, weight);
    }
  }

  lemma {:induction false} SumInsert<T>(x: T, s: seq<T>, le: (T, T) -> bool, weight: T -> int)
    ensures Sum(Insert(x, s, le), weight) == weight(x) + Sum(s, weight)
  {
    if s == [] || le(x, s[0]) {
      assert ([x] + s)[1..] == s;
    } else {
      SumInsert(x, s[1..], le, weight);
      assert ([s[0]] + Insert(x, s[1..], le))[1..] == Insert(x, s[1..], le);
    }
  }

  lemma {:induction false} SumSort<T>(s: seq<T>, le: (T, T) -> bool, weight: T -> int)
    ensures Sum(Sort(s, le), weight) == Sum(s, weight)
  {
    if s != [] {
      SumSort(s[1..], le, weight);
      SumInsert(s[0], Sort(s[1..], le), le, weight);
    }
  }
}
