/**
`xs.sort(compare)`, JavaScript's stable sort: each element goes after those it does not come before.
*/
module Sorting {

  function PlaceFor<T>(xs: seq<T>, x: T, before: (T, T) -> bool): (k: nat)
    ensures k <= |xs|
    ensures forall j :: 0 <= j < k ==> !before(x, xs[j])
    ensures k < |xs| ==> before(x, xs[k])
  {
    if xs == [] || before(x, xs[0]) then 0 else 1 + PlaceFor(xs[1..], x, before)
  }

  function Inserted<T>(xs: seq<T>, x: T, before: (T, T) -> bool): (r: seq<T>)
    ensures |r| == |xs| + 1
  {
    var k := PlaceFor(xs, x, before);
    xs[..k] + [x] + xs[k..]
  }

  function Sorted<T>(xs: seq<T>, before: (T, T) -> bool): (r: seq<T>)
    ensures |r| == |xs|
  {
    if xs == [] then [] else Inserted(Sorted(xs[..|xs| - 1], before), xs[|xs| - 1], before)
  }

  // ---------------------------------------------------------------- the same elements

  lemma InsertedElements<T>(xs: seq<T>, x: T, before: (T, T) -> bool, y: T)
    ensures y in Inserted(xs, x, before) <==> y in xs || y == x
  {
    var k := PlaceFor(xs, x, before);
    assert xs == xs[..k] + xs[k..];
  }

  lemma {:induction false} SortedElements<T>(xs: seq<T>, before: (T, T) -> bool, y: T)
    ensures y in Sorted(xs, before) <==> y in xs
  {
    if xs != [] {
      var n := |xs| - 1;
      SortedElements(xs[..n], before, y);
      InsertedElements(Sorted(xs[..n], before), xs[n], before, y);
      assert xs == xs[..n] + [xs[n]];
    }
  }

  // ---------------------------------------------------------------- in order

  /** Nothing that stands later comes before. */
  ghost predicate InOrder<T>(xs: seq<T>, before: (T, T) -> bool) {
    forall j, k :: 0 <= j < k < |xs| ==> !before(xs[k], xs[j])
  }

  ghost predicate IsOrder<T(!new)>(before: (T, T) -> bool) {
    && (forall a, b :: before(a, b) ==> !before(b, a))
    && (forall a, b, c :: before(a, b) && before(b, c) ==> before(a, c))
  }

  /** What stands after the place of `x` does not come before it. */
  lemma LaterIsLater<T(!new)>(xs: seq<T>, x: T, before: (T, T) -> bool, j: nat)
    requires IsOrder(before) && InOrder(xs, before) && PlaceFor(xs, x, before) <= j < |xs|
    ensures !before(xs[j], x)
  {
    var y, z := xs[j], xs[PlaceFor(xs, x, before)];
    assert before(x, z);
    assert before(y, x) ==> before(y, z);
  }

  /** The `i`th of a sequence with `x` inserted. */
  lemma InsertedAt<T>(xs: seq<T>, x: T, before: (T, T) -> bool, i: nat)
    requires i <= |xs|
    ensures var k := PlaceFor(xs, x, before);
      Inserted(xs, x, before)[i] == if i < k then xs[i] else if i == k then x else xs[i - 1]
  {
  }

  lemma InsertedInOrder<T(!new)>(xs: seq<T>, x: T, before: (T, T) -> bool)
    requires IsOrder(before) && InOrder(xs, before)
    ensures InOrder(Inserted(xs, x, before), before)
  {
    var k, r := PlaceFor(xs, x, before), Inserted(xs, x, before);
    forall i, j | 0 <= i < j < |r|
      ensures !before(r[j], r[i])
    {
      InsertedAt(xs, x, before, i);
      InsertedAt(xs, x, before, j);
      if i == k {
        LaterIsLater(xs, x, before, j - 1);
      }
    }
  }

  lemma {:induction false} SortedInOrder<T(!new)>(xs: seq<T>, before: (T, T) -> bool)
    requires IsOrder(before)
    ensures InOrder(Sorted(xs, before), before)
  {
    if xs != [] {
      SortedInOrder(xs[..|xs| - 1], before);
      InsertedInOrder(Sorted(xs[..|xs| - 1], before), xs[|xs| - 1], before);
    }
  }

  // ---------------------------------------------------------------- what holds of any two

  /** Two elements, wherever they stand. */
  ghost predicate Pairwise<T>(xs: seq<T>, apart: (T, T) -> bool) {
    forall i, j :: 0 <= i < j < |xs| ==> apart(xs[i], xs[j])
  }

  ghost predicate WithAll<T>(xs: seq<T>, x: T, apart: (T, T) -> bool) {
    forall y :: y in xs ==> apart(y, x)
  }

  ghost predicate IsSymmetric<T(!new)>(apart: (T, T) -> bool) {
    forall a, b :: apart(a, b) <==> apart(b, a)
  }

  lemma PairwiseOneMore<T>(xs: seq<T>, x: T, apart: (T, T) -> bool)
    ensures Pairwise(xs + [x], apart) <==> Pairwise(xs, apart) && WithAll(xs, x, apart)
  {
    var s := xs + [x];
    assert forall i :: 0 <= i < |xs| ==> s[i] == xs[i];
    if Pairwise(s, apart) {
      forall y | y in xs
        ensures apart(y, x)
      {
        var i :| 0 <= i < |xs| && xs[i] == y;
        assert apart(s[i], s[|xs|]);
      }
    }
  }

  /** Where the `i`th of the others stands once one was inserted at `k`. */
  function Shifted(i: nat, k: nat): nat {
    if i < k then i else i + 1
  }

  lemma InsertedPairwise<T(!new)>(xs: seq<T>, x: T, before: (T, T) -> bool, apart: (T, T) -> bool)
    requires IsSymmetric(apart) && Pairwise(xs, apart) && WithAll(xs, x, apart)
    ensures Pairwise(Inserted(xs, x, before), apart)
  {
    var k, r := PlaceFor(xs, x, before), Inserted(xs, x, before);
    forall i, j | 0 <= i < j < |r|
      ensures apart(r[i], r[j])
    {
      InsertedAt(xs, x, before, i);
      InsertedAt(xs, x, before, j);
      if i == k {
        assert apart(xs[j - 1], x);
      } else if j == k {
        assert apart(xs[i], x);
      } else {
        assert apart(xs[if i < k then i else i - 1], xs[if j < k then j else j - 1]);
      }
    }
  }

  lemma PairwiseBeforeInsertion<T(!new)>(xs: seq<T>, x: T, before: (T, T) -> bool, apart: (T, T) -> bool)
    requires IsSymmetric(apart) && Pairwise(Inserted(xs, x, before), apart)
    ensures Pairwise(xs, apart) && WithAll(xs, x, apart)
  {
    var k, r := PlaceFor(xs, x, before), Inserted(xs, x, before);
    forall y | y in xs
      ensures apart(y, x)
    {
      var i :| 0 <= i < |xs| && xs[i] == y;
      InsertedAt(xs, x, before, Shifted(i, k));
      InsertedAt(xs, x, before, k);
      assert if i < k then apart(r[i], r[k]) else apart(r[k], r[i + 1]);
    }
    forall i, j | 0 <= i < j < |xs|
      ensures apart(xs[i], xs[j])
    {
      InsertedAt(xs, x, before, Shifted(i, k));
      InsertedAt(xs, x, before, Shifted(j, k));
      assert apart(r[Shifted(i, k)], r[Shifted(j, k)]);
    }
  }

  lemma WithAllSorted<T>(xs: seq<T>, x: T, before: (T, T) -> bool, apart: (T, T) -> bool)
    ensures WithAll(Sorted(xs, before), x, apart) <==> WithAll(xs, x, apart)
  {
    forall y
      ensures y in Sorted(xs, before) <==> y in xs
    {
      SortedElements(xs, before, y);
    }
  }

  /** Sorting moves no element onto another, nor off. */
  lemma {:induction false} SortedPairwise<T(!new)>(xs: seq<T>, before: (T, T) -> bool, apart: (T, T) -> bool)
    requires IsSymmetric(apart)
    ensures Pairwise(Sorted(xs, before), apart) <==> Pairwise(xs, apart)
  {
    if xs != [] {
      var n := |xs| - 1;
      var sorted := Sorted(xs[..n], before);
      SortedPairwise(xs[..n], before, apart);
      WithAllSorted(xs[..n], xs[n], before, apart);
      PairwiseOneMore(xs[..n], xs[n], apart);
      assert xs[..n] + [xs[n]] == xs;
      if Pairwise(xs, apart) {
        InsertedPairwise(sorted, xs[n], before, apart);
      }
      if Pairwise(Inserted(sorted, xs[n], before), apart) {
        PairwiseBeforeInsertion(sorted, xs[n], before, apart);
      }
    }
  }
}
