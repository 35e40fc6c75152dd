/** JavaScript sets and map keys, as the sequence of their elements in insertion order. */
module InsertionOrder {

  function Add<T(==)>(found: seq<T>, x: T): seq<T> {
    if x in found then found else found + [x]
  }

  function AddAll<T(==,!new)>(found: seq<T>, xs: seq<T>): (r: seq<T>)
    ensures forall x :: x in r <==> x in found || x in xs
    decreases |xs|
  {
    if xs == [] then found else AddAll(Add(found, xs[0]), xs[1..])
  }

  lemma AddAllStep<T(!new)>(found: seq<T>, x: T, xs: seq<T>)
    ensures AddAll(found, [x] + xs) == AddAll(Add(found, x), xs)
  {
    assert ([x] + xs)[1..] == xs;
  }

  predicate Distinct<T(==)>(s: seq<T>) {
    forall i, j :: 0 <= i < j < |s| ==> s[i] != s[j]
  }

  lemma NothingRepeats<T>()
    ensures Distinct<T>([])
  {
  }

  lemma {:induction false} AddAllDistinct<T(!new)>(found: seq<T>, xs: seq<T>)
    requires Distinct(found)
    ensures Distinct(AddAll(found, xs))
    decreases |xs|
  {
    if xs != [] { AddAllDistinct(Add(found, xs[0]), xs[1..]); }
  }

  lemma {:induction false} AddAllConcat<T(!new)>(found: seq<T>, xs: seq<T>, ys: seq<T>)
    ensures AddAll(found, xs + ys) == AddAll(AddAll(found, xs), ys)
    decreases |xs|
  {
    if xs == [] {
      assert xs + ys == ys;
    } else {
      assert (xs + ys)[1..] == xs[1..] + ys;
      AddAllConcat(Add(found, xs[0]), xs[1..], ys);
    }
  }
}
