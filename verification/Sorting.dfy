/** `Array.prototype.filter` and the stable `Array.prototype.sort`, with what callers rely on. */
module Sorting {

  function Filter<T(!new)>(s: seq<T>, p: T -> bool): (f: seq<T>)
    ensures forall x :: x in f <==> x in s && p(x)
    ensures |f| <= |s|
  {
    if s == [] then []
    else if p(s[|s| - 1]) then Filter(s[..|s| - 1], p) + [s[|s| - 1]]
    else Filter(s[..|s| - 1], p)
  }

  lemma NoElements<T(!new)>(s: seq<T>)
    ensures (forall x :: x !in s) ==> s == []
  {
    assert s != [] ==> s[0] in s;
  }

  lemma {:induction false} FilterConcat<T(!new)>(a: seq<T>, b: seq<T>, p: T -> bool)
    ensures Filter(a + b, p) == Filter(a, p) + Filter(b, p)
  {
    if b == [] {
      assert a + b == a;
    } else {
      var c := b[..|b| - 1];
      assert (a + b)[..|a + b| - 1] == a + c;
      FilterConcat(a, c, p);
    }
  }

  lemma FilterNext<T(!new)>(s: seq<T>, i: nat, p: T -> bool)
    requires i < |s|
    ensures Filter(s[..i + 1], p) == Filter(s[..i], p) + if p(s[i]) then [s[i]] else []
  {
    assert s[..i + 1][..i] == s[..i];
  }

  lemma FilterOne<T(!new)>(x: T, p: T -> bool)
    ensures Filter([x], p) == if p(x) then [x] else []
  {
  }

  lemma {:induction false} FilterAll<T(!new)>(s: seq<T>, p: T -> bool)
    requires forall x :: x in s ==> p(x)
    ensures Filter(s, p) == s
  {
    if s != [] {
      FilterAll(s[..|s| - 1], p);
      assert s == s[..|s| - 1] + [s[|s| - 1]];
    }
  }

  lemma {:induction false} FilterNone<T(!new)>(s: seq<T>, p: T -> bool)
    requires forall x :: x in s ==> !p(x)
    ensures Filter(s, p) == []
  {
    if s != [] { FilterNone(s[..|s| - 1], p); }
  }

  lemma {:induction false} FilterMultiset<T(!new)>(s: seq<T>, p: T -> bool, x: T)
    ensures multiset(Filter(s, p))[x] == if p(x) then multiset(s)[x] else 0
  {
    if s != [] {
      var front, last := s[..|s| - 1], s[|s| - 1];
      FilterMultiset(front, p, x);
      assert s == front + [last];
    }
  }

  /** How many elements satisfy `p` does not depend on their arrangement. */
  lemma FilterCount<T(!new)>(s: seq<T>, t: seq<T>, p: T -> bool)
    requires multiset(s) == multiset(t)
    ensures |Filter(s, p)| == |Filter(t, p)|
  {
    forall x ensures multiset(Filter(s, p))[x] == multiset(Filter(t, p))[x] {
      FilterMultiset(s, p, x);
      FilterMultiset(t, p, x);
    }
    assert multiset(Filter(s, p)) == multiset(Filter(t, p));
    assert |multiset(Filter(s, p))| == |Filter(s, p)| && |multiset(Filter(t, p))| == |Filter(t, p)|;
  }

  lemma {:induction false} FilterTwo<T(!new)>(s: seq<T>, p: T -> bool, i: nat, j: nat)
    requires i < j < |s| && p(s[i]) && p(s[j])
    ensures |Filter(s, p)| >= 2
  {
    if j < |s| - 1 {
      FilterTwo(s[..|s| - 1], p, i, j);
    } else {
      var front := s[..|s| - 1];
      assert front[i] in front;
      assert front[i] in Filter(front, p);
    }
  }

  lemma {:induction false} TwoFiltered<T(!new)>(s: seq<T>, p: T -> bool)
    requires |Filter(s, p)| >= 2
    ensures exists i, j :: 0 <= i < j < |s| && p(s[i]) && p(s[j])
  {
    var front := s[..|s| - 1];
    if |Filter(front, p)| >= 2 {
      TwoFiltered(front, p);
    } else {
      var x := Filter(front, p)[0];
      assert x in Filter(front, p);
      var i :| 0 <= i < |front| && front[i] == x;
      assert p(s[i]) && p(s[|s| - 1]);
    }
  }

  /** A partition by `p` keeps every element. */
  lemma {:induction false} FilterPartition<T(!new)>(s: seq<T>, p: T -> bool, q: T -> bool)
    requires forall x :: x in s ==> (q(x) <==> !p(x))
    ensures multiset(Filter(s, p)) + multiset(Filter(s, q)) == multiset(s)
    ensures |Filter(s, p)| + |Filter(s, q)| == |s|
  {
    if s != [] {
      var front, last := s[..|s| - 1], s[|s| - 1];
      FilterPartition(front, p, q);
      assert s == front + [last];
      assert last in s;
    }
  }

  ghost predicate TotalPreorder<T(!new)>(le: (T, T) -> bool) {
    && (forall x, y :: le(x, y) || le(y, x))
    && (forall x, y, z :: le(x, y) && le(y, z) ==> le(x, z))
  }

  ghost predicate Sorted<T>(s: seq<T>, le: (T, T) -> bool) {
    forall i, j :: 0 <= i < j < |s| ==> le(s[i], s[j])
  }

  /** `x` goes behind everything it does not come before. */
  function Insert<T(!new)>(s: seq<T>, x: T, le: (T, T) -> bool): (r: seq<T>)
    ensures multiset(r) == multiset(s) + multiset{x}
    ensures |r| == |s| + 1
  {
    if s == [] || le(s[|s| - 1], x) then s + [x]
    else
      assert s == s[..|s| - 1] + [s[|s| - 1]];
      Insert(s[..|s| - 1], x, le) + [s[|s| - 1]]
  }

  function StableSort<T(!new)>(s: seq<T>, le: (T, T) -> bool): (r: seq<T>)
    ensures multiset(r) == multiset(s)
    ensures |r| == |s|
    ensures forall x :: x in r <==> x in s
  {
    if s == [] then []
    else
      assert s == s[..|s| - 1] + [s[|s| - 1]];
      var r := Insert(StableSort(s[..|s| - 1], le), s[|s| - 1], le);
      assert forall x :: x in r <==> x in multiset(r);
      assert forall x :: x in s <==> x in multiset(s);
      r
  }

  lemma {:induction false} InsertSorted<T(!new)>(s: seq<T>, x: T, le: (T, T) -> bool)
    requires TotalPreorder(le) && Sorted(s, le)
    ensures Sorted(Insert(s, x, le), le)
  {
    if s == [] || le(s[|s| - 1], x) {
    } else {
      var last := s[|s| - 1];
      var front := s[..|s| - 1];
      InsertSorted(front, x, le);
      var r := Insert(front, x, le);
      assert forall y :: y in r ==> y in multiset(r);
      forall y | y in r ensures le(y, last) {
        assert y in multiset(front) + multiset{x};
      }
    }
  }

  lemma {:induction false} SortSorts<T(!new)>(s: seq<T>, le: (T, T) -> bool)
    requires TotalPreorder(le)
    ensures Sorted(StableSort(s, le), le)
  {
    if s != [] {
      SortSorts(s[..|s| - 1], le);
      InsertSorted(StableSort(s[..|s| - 1], le), s[|s| - 1], le);
    }
  }

  /** Elements that tie keep their relative order. */
  lemma {:induction false} SortIsStable<T(!new)>(s: seq<T>, le: (T, T) -> bool, tied: T -> bool)
    requires forall x, y :: x in s && y in s && tied(x) && tied(y) ==> le(x, y)
    ensures Filter(StableSort(s, le), tied) == Filter(s, tied)
  {
    if s != [] {
      var front, last := s[..|s| - 1], s[|s| - 1];
      SortIsStable(front, le, tied);
      var sorted := StableSort(front, le);
      assert s == front + [last];
      assert StableSort(s, le) == Insert(sorted, last, le);
      hide StableSort, Insert, Filter;
      assert last in s && forall y :: y in sorted ==> y in s;
      InsertIsStable(sorted, last, le, tied);
      FilterConcat(front, [last], tied);
      FilterConcat(sorted, [last], tied);
    }
  }

  lemma {:induction false} InsertIsStable<T(!new)>(s: seq<T>, x: T, le: (T, T) -> bool, tied: T -> bool)
    requires tied(x) ==> forall y :: y in s && tied(y) ==> le(y, x)
    ensures Filter(Insert(s, x, le), tied) == Filter(s + [x], tied)
  {
    if s == [] || le(s[|s| - 1], x) {
    } else {
      var front, last := s[..|s| - 1], s[|s| - 1];
      InsertIsStable(front, x, le, tied);
      assert s == front + [last];
      assert tied(x) ==> !tied(last);
      FilterConcat(Insert(front, x, le), [last], tied);
      FilterConcat(front, [x], tied);
      FilterConcat(front + [last], [x], tied);
      FilterConcat(front, [last], tied);
      FilterOne(x, tied);
      FilterOne(last, tied);
    }
  }

  lemma {:induction false} SortOfSorted<T(!new)>(s: seq<T>, le: (T, T) -> bool)
    requires Sorted(s, le)
    ensures StableSort(s, le) == s
  {
    if s != [] {
      var (front, last) := (s[..|s| - 1], s[|s| - 1]);
      SortOfSorted(front, le);
      InsertLast(front, last, le);
      assert s == front + [last];
    }
  }

  lemma InsertLast<T(!new)>(s: seq<T>, x: T, le: (T, T) -> bool)
    requires s != [] ==> le(s[|s| - 1], x)
    ensures Insert(s, x, le) == s + [x]
  {
  }

  lemma SameElements<T(!new)>(s: seq<T>, t: seq<T>)
    requires multiset(s) == multiset(t)
    ensures |s| == |t|
    ensures forall x :: x in s <==> x in t
  {
    assert |multiset(s)| == |s| && |multiset(t)| == |t|;
    forall x ensures x in s <==> x in t {
      assert x in s <==> x in multiset(s);
      assert x in t <==> x in multiset(t);
    }
  }

  lemma SortedHead<T(!new)>(s: seq<T>, t: seq<T>, le: (T, T) -> bool)
    requires s != [] && s[0] in t && t[0] in s
    requires Sorted(s, le) && Sorted(t, le)
    requires forall x, y :: x in s && y in s && le(x, y) && le(y, x) ==> x == y
    ensures s[0] == t[0]
  {
    var i :| 0 <= i < |s| && s[i] == t[0];
    var j :| 0 <= j < |t| && t[j] == s[0];
  }

  lemma DropHead<T(!new)>(s: seq<T>)
    requires s != []
    ensures multiset(s[1..]) == multiset(s) - multiset{s[0]}
  {
    assert s == [s[0]] + s[1..];
  }

  /** A strict order leaves only one way to arrange distinct elements. */
  lemma {:induction false} SortedIsUnique<T(!new)>(s: seq<T>, t: seq<T>, le: (T, T) -> bool)
    requires multiset(s) == multiset(t)
    requires Sorted(s, le) && Sorted(t, le)
    requires forall x, y :: x in s && y in s && le(x, y) && le(y, x) ==> x == y
    ensures s == t
  {
    SameElements(s, t);
    if s != [] {
      assert s[0] in s && t[0] in t;
      SortedHead(s, t, le);
      DropHead(s);
      DropHead(t);
      SortedIsUnique(s[1..], t[1..], le);
      assert s == [s[0]] + s[1..] && t == [t[0]] + t[1..];
    }
  }

  lemma BelowTheLast<T(!new)>(s: seq<T>, x: T, le: (T, T) -> bool)
    requires TotalPreorder(le) && Sorted(s, le)
    requires s == [] || le(s[|s| - 1], x)
    ensures forall y :: y in s ==> le(y, x)
  {
    forall y | y in s ensures le(y, x) {
      var i :| 0 <= i < |s| && s[i] == y;
      assert i < |s| - 1 ==> le(s[i], s[|s| - 1]);
    }
  }

  lemma InsertAtEnd<T(!new)>(s: seq<T>, x: T, le: (T, T) -> bool)
    requires forall y :: y in s ==> le(y, x)
    ensures Insert(s, x, le) == s + [x]
  {
    if s != [] { assert s[|s| - 1] in s; }
  }

  lemma InsertBeforeLast<T(!new)>(s: seq<T>, last: T, x: T, le: (T, T) -> bool)
    requires !le(last, x)
    ensures Insert(s + [last], x, le) == Insert(s, x, le) + [last]
  {
    assert (s + [last])[..|s + [last]| - 1] == s;
  }

  lemma {:induction false} InsertThenFilter<T(!new)>(s: seq<T>, x: T, le: (T, T) -> bool, p: T -> bool)
    requires TotalPreorder(le) && Sorted(s, le)
    ensures Filter(Insert(s, x, le), p) == if p(x) then Insert(Filter(s, p), x, le) else Filter(s, p)
  {
    FilterOne(x, p);
    if s == [] || le(s[|s| - 1], x) {
      BelowTheLast(s, x, le);
      hide *;
      InsertAtEnd(s, x, le);
      FilterConcat(s, [x], p);
      InsertAtEnd(Filter(s, p), x, le);
    } else {
      var front, last := s[..|s| - 1], s[|s| - 1];
      assert s == front + [last];
      assert Sorted(front, le);
      InsertThenFilter(front, x, le, p);
      hide *;
      InsertBeforeLast(front, last, x, le);
      FilterOne(last, p);
      FilterConcat(front, [last], p);
      FilterConcat(Insert(front, x, le), [last], p);
      if p(last) { InsertBeforeLast(Filter(front, p), last, x, le); }
    }
  }

  /** Filtering a sorted list is sorting the filtered one. */
  lemma {:induction false} SortThenFilter<T(!new)>(s: seq<T>, le: (T, T) -> bool, p: T -> bool)
    requires TotalPreorder(le)
    ensures Filter(StableSort(s, le), p) == StableSort(Filter(s, p), le)
  {
    if s != [] {
      var front, last := s[..|s| - 1], s[|s| - 1];
      SortThenFilter(front, le, p);
      SortSorts(front, le);
      InsertThenFilter(StableSort(front, le), last, le, p);
    }
  }
}
