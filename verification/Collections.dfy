/**
Sequences and insertion-ordered maps, as JavaScript's arrays, Sets and Maps are used by the program:
`filter`, `[...new Set(xs)]`, and a Map whose keys are walked in the order they were first set.
*/
module Collections {

  datatype Option<+T> = None | Some(value: T) {
    function Or(default: T): T {
      match this
      case Some(v) => v
      case None => default
    }
  }

  ghost predicate Distinct<T>(xs: seq<T>) {
    forall i, j :: 0 <= i < j < |xs| ==> xs[i] != xs[j]
  }

  /** `xs.map(f)`. */
  function Mapped<T, U>(xs: seq<T>, f: T -> U): (r: seq<U>)
    ensures |r| == |xs| && forall k :: 0 <= k < |r| ==> r[k] == f(xs[k])
  {
    if xs == [] then [] else Mapped(xs[..|xs| - 1], f) + [f(xs[|xs| - 1])]
  }

  /** `xs.filter(p)`. */
  function Keep<T>(xs: seq<T>, p: T -> bool): (r: seq<T>)
    ensures forall x :: x in r ==> x in xs && p(x)
    ensures forall x :: x in xs && p(x) ==> x in r
    ensures |r| <= |xs|
  {
    if xs == [] then []
    else (if p(xs[0]) then [xs[0]] else []) + Keep(xs[1..], p)
  }

  /** `[...new Set(xs)]`: each element once, in the order of first occurrence. */
  function Unique<T(==)>(xs: seq<T>): (r: seq<T>)
    ensures forall x :: x in r ==> x in xs
    ensures forall x :: x in xs ==> x in r
    ensures Distinct(r)
  {
    if xs == [] then []
    else
      var shorter := Unique(xs[..|xs| - 1]);
      var last := xs[|xs| - 1];
      if last in shorter then shorter else shorter + [last]
  }

  /** `xss.flat()`. */
  function Flat<T>(xss: seq<seq<T>>): (r: seq<T>)
    ensures forall x :: x in r ==> exists i :: 0 <= i < |xss| && x in xss[i]
    ensures forall i, x :: 0 <= i < |xss| && x in xss[i] ==> x in r
  {
    if xss == [] then [] else xss[0] + Flat(xss[1..])
  }

  function Any<T>(xs: seq<T>, p: T -> bool): (r: bool)
    ensures r <==> exists x :: x in xs && p(x)
  {
    if xs == [] then false else p(xs[0]) || Any(xs[1..], p)
  }

  function Every<T>(xs: seq<T>, p: T -> bool): (r: bool)
    ensures r <==> forall x :: x in xs ==> p(x)
  {
    if xs == [] then true else p(xs[0]) && Every(xs[1..], p)
  }

  function Max(a: int, b: int): int {
    if a > b then a else b
  }

  function Min(a: int, b: int): int {
    if a < b then a else b
  }

  // ---------------------------------------------------------------- texts joined

  /** `texts.join(separator)`. */
  function Joined(texts: seq<string>, separator: string): string {
    if texts == [] then "" else if |texts| == 1 then texts[0]
    else texts[0] + separator + Joined(texts[1..], separator)
  }

  /** Texts that are not empty and hold no `c`. */
  ghost predicate FreeOf(texts: seq<string>, c: char) {
    forall k :: 0 <= k < |texts| ==> texts[k] != "" && c !in texts[k]
  }

  lemma JoinedStarts(texts: seq<string>, c: char)
    requires FreeOf(texts, c) && texts != []
    ensures texts[0] <= Joined(texts, [c])
    ensures |texts| == 1 ==> Joined(texts, [c]) == texts[0]
    ensures |texts| > 1 ==> |Joined(texts, [c])| > |texts[0]| && Joined(texts, [c])[|texts[0]|] == c
    ensures |texts| > 1 ==> Joined(texts, [c])[|texts[0]| + 1..] == Joined(texts[1..], [c])
  {
    assert |texts| > 1 ==> Joined(texts, [c]) == texts[0] + [c] + Joined(texts[1..], [c]);
  }

  /** Where the first text ends, the joined one has its separator or its end. */
  lemma FirstTextTells(a: seq<string>, b: seq<string>, c: char)
    requires FreeOf(a, c) && FreeOf(b, c) && a != [] && b != [] && Joined(a, [c]) == Joined(b, [c])
    ensures a[0] == b[0] && (|a| == 1 <==> |b| == 1)
  {
    var joined := Joined(a, [c]);
    JoinedStarts(a, c);
    JoinedStarts(b, c);
    assert c !in a[0] && c !in b[0];
    assert forall k :: 0 <= k < |a[0]| ==> joined[k] == a[0][k] != c;
    assert forall k :: 0 <= k < |b[0]| ==> joined[k] == b[0][k] != c;
    assert a[0] == joined[..|a[0]|] && b[0] == joined[..|b[0]|];
  }

  /** Plain texts are told apart by what they are joined into. */
  lemma {:induction false} JoinedTells(a: seq<string>, b: seq<string>, c: char)
    requires FreeOf(a, c) && FreeOf(b, c)
    ensures Joined(a, [c]) == Joined(b, [c]) <==> a == b
  {
    if a == [] || b == [] {
      assert a != [] ==> a[0] != "" && |Joined(a, [c])| > 0 by { if a != [] { JoinedStarts(a, c); } }
      assert b != [] ==> b[0] != "" && |Joined(b, [c])| > 0 by { if b != [] { JoinedStarts(b, c); } }
    } else if Joined(a, [c]) == Joined(b, [c]) {
      FirstTextTells(a, b, c);
      JoinedStarts(a, c);
      JoinedStarts(b, c);
      if |a| > 1 {
        JoinedTells(a[1..], b[1..], c);
        assert a == [a[0]] + a[1..] && b == [b[0]] + b[1..];
      }
    }
  }

  // ---------------------------------------------------------------- where the elements left come from

  ghost predicate Increasing(places: seq<nat>, below: nat) {
    && (forall k :: 0 <= k < |places| ==> places[k] < below)
    && (forall j, k :: 0 <= j < k < |places| ==> places[j] < places[k])
  }

  /** The elements at these places, in order. */
  ghost predicate TakenAt<T>(xs: seq<T>, places: seq<nat>, r: seq<T>) {
    && Increasing(places, |xs|) && |r| == |places|
    && forall k :: 0 <= k < |r| ==> r[k] == xs[places[k]]
  }

  /** These places are exactly those of the elements wanted. */
  ghost predicate PlacesOf<T>(xs: seq<T>, wanted: T -> bool, places: seq<nat>) {
    forall i :: 0 <= i < |xs| ==> (i in places <==> wanted(xs[i]))
  }

  function LaterPlaces(places: seq<nat>): (r: seq<nat>)
    ensures |r| == |places| && forall k :: 0 <= k < |r| ==> r[k] == places[k] + 1
  {
    seq(|places|, k requires 0 <= k < |places| => places[k] + 1)
  }

  lemma LaterIn(places: seq<nat>, i: nat)
    ensures i + 1 in LaterPlaces(places) <==> i in places
    ensures 0 !in LaterPlaces(places)
  {
    if i in places {
      var k :| 0 <= k < |places| && places[k] == i;
      assert LaterPlaces(places)[k] == i + 1;
    }
  }

  lemma TakenLater<T>(xs: seq<T>, rest: seq<nat>, r: seq<T>)
    requires xs != [] && TakenAt(xs[1..], rest, r)
    ensures TakenAt(xs, LaterPlaces(rest), r)
  {
  }

  lemma TakenFirst<T>(xs: seq<T>, rest: seq<nat>, r: seq<T>)
    requires xs != [] && TakenAt(xs, LaterPlaces(rest), r)
    ensures TakenAt(xs, [0] + LaterPlaces(rest), [xs[0]] + r)
  {
  }

  lemma PlacesOneMore<T>(xs: seq<T>, wanted: T -> bool, rest: seq<nat>)
    requires xs != [] && PlacesOf(xs[1..], wanted, rest)
    ensures PlacesOf(xs, wanted, if wanted(xs[0]) then [0] + LaterPlaces(rest) else LaterPlaces(rest))
  {
    var places := if wanted(xs[0]) then [0] + LaterPlaces(rest) else LaterPlaces(rest);
    forall i | 0 <= i < |xs|
      ensures i in places <==> wanted(xs[i])
    {
      LaterIn(rest, if i > 0 then i - 1 else 0);
      if i > 0 {
        assert xs[i] == xs[1..][i - 1];
      }
    }
  }

  /** A filter leaves exactly the elements wanted, each as often as it stood there, in their order. */
  lemma {:induction false} KeepsInOrder<T>(xs: seq<T>, wanted: T -> bool) returns (places: seq<nat>)
    ensures TakenAt(xs, places, Keep(xs, wanted)) && PlacesOf(xs, wanted, places)
  {
    places := [];
    if xs != [] {
      var rest := KeepsInOrder(xs[1..], wanted);
      TakenLater(xs, rest, Keep(xs[1..], wanted));
      TakenFirst(xs, rest, Keep(xs[1..], wanted));
      PlacesOneMore(xs, wanted, rest);
      places := if wanted(xs[0]) then [0] + LaterPlaces(rest) else LaterPlaces(rest);
    }
  }

  ghost predicate FirstAt<T>(xs: seq<T>, x: T, i: nat) {
    i < |xs| && xs[i] == x && x !in xs[..i]
  }

  /** Each element once, in the order of first occurrence. */
  lemma {:induction false} UniqueInOrder<T>(xs: seq<T>, j: nat, k: nat, a: nat, b: nat)
    requires j < k < |Unique(xs)| && FirstAt(xs, Unique(xs)[j], a) && FirstAt(xs, Unique(xs)[k], b)
    ensures a < b
  {
    var n := |xs| - 1;
    var shorter := Unique(xs[..n]);
    assert xs == xs[..n] + [xs[n]];
    if k < |shorter| {
      FirstInPrefix(xs, n, shorter[j], a);
      FirstInPrefix(xs, n, shorter[k], b);
      UniqueInOrder(xs[..n], j, k, a, b);
    } else {
      FirstInPrefix(xs, n, shorter[j], a);
    }
  }

  lemma InPrefix<T>(xs: seq<T>, k: nat, i: nat)
    requires k < |xs| && i <= |xs|
    ensures k < i ==> xs[k] in xs[..i]
  {
    assert k < i ==> xs[..i][k] == xs[k];
  }

  function FirstIndex<K(==)>(keys: seq<K>, key: K): (i: nat)
    requires key in keys
    ensures FirstAt(keys, key, i)
  {
    if keys[0] == key then 0
    else
      var later := FirstIndex(keys[1..], key);
      assert keys[..later + 1] == [keys[0]] + keys[1..][..later];
      later + 1
  }

  lemma FirstIsOne<K>(keys: seq<K>, key: K, i: nat, j: nat)
    requires FirstAt(keys, key, i) && FirstAt(keys, key, j)
    ensures i == j
  {
    InPrefix(keys, i, j);
    InPrefix(keys, j, i);
  }

  lemma FirstInPrefix<T>(xs: seq<T>, n: nat, x: T, i: nat)
    requires n <= |xs| && x in xs[..n] && FirstAt(xs, x, i)
    ensures FirstAt(xs[..n], x, i)
  {
    var k :| 0 <= k < n && xs[..n][k] == x;
    InPrefix(xs, k, i);
    assert xs[..n][..i] == xs[..i];
  }

  lemma {:induction false} KeepSplit<T>(a: seq<T>, b: seq<T>, p: T -> bool)
    ensures Keep(a + b, p) == Keep(a, p) + Keep(b, p)
  {
    if a == [] {
      assert a + b == b;
    } else {
      assert (a + b)[1..] == a[1..] + b;
      KeepSplit(a[1..], b, p);
    }
  }

  lemma {:induction false} KeepAll<T>(xs: seq<T>, p: T -> bool)
    requires forall x :: x in xs ==> p(x)
    ensures Keep(xs, p) == xs
  {
    if xs != [] {
      KeepAll(xs[1..], p);
    }
  }

  lemma {:induction false} KeepNone<T>(xs: seq<T>, p: T -> bool)
    requires forall x :: x in xs ==> !p(x)
    ensures Keep(xs, p) == []
  {
    if xs != [] {
      KeepNone(xs[1..], p);
    }
  }

  lemma {:induction false} KeepDistinct<T>(xs: seq<T>, p: T -> bool)
    requires Distinct(xs)
    ensures Distinct(Keep(xs, p))
  {
    if xs != [] {
      KeepDistinct(xs[1..], p);
      assert xs[0] !in xs[1..];
    }
  }

  lemma {:induction false} DistinctWithin<T>(xs: seq<T>, ys: seq<T>)
    requires Distinct(xs) && forall x :: x in xs ==> x in ys
    ensures |xs| <= |ys|
  {
    if xs != [] {
      assert xs[0] in xs;
      var k :| 0 <= k < |ys| && ys[k] == xs[0];
      assert xs[0] !in xs[1..];
      forall x | x in xs[1..]
        ensures x in ys[..k] + ys[k + 1..]
      {
        assert x in ys && x != ys[k];
      }
      DistinctWithin(xs[1..], ys[..k] + ys[k + 1..]);
    }
  }

  /** A JavaScript Map: `order` holds the keys in insertion order, `at` their values. */
  datatype OrderedMap<K(==), V> = OrderedMap(order: seq<K>, at: map<K, V>) {

    ghost predicate Valid() {
      && Distinct(order)
      && (forall k :: k in order ==> k in at)
      && (forall k :: k in at ==> k in order)
    }

    /** `map.set(k, v)`: a new key goes last, a known one keeps its place. */
    function Set(k: K, v: V): (m: OrderedMap<K, V>)
      ensures Valid() ==> m.Valid()
      ensures m.at == at[k := v]
      ensures m.order == if k in at then order else order + [k]
    {
      OrderedMap(if k in at then order else order + [k], at[k := v])
    }

    /** `map.delete(k)`. */
    function Delete(k: K): (m: OrderedMap<K, V>)
      ensures Valid() ==> m.Valid()
      ensures m.at == at - {k}
    {
      var m := OrderedMap(Without(order, k), at - {k});
      assert Valid() ==> m.Valid() by {
        if Valid() {
          WithoutDistinct(order, k);
        }
      }
      m
    }
  }

  function Without<T(==)>(xs: seq<T>, x: T): (r: seq<T>)
    ensures forall y :: y in r ==> y in xs && y != x
    ensures forall y :: y in xs && y != x ==> y in r
  {
    if xs == [] then [] else (if xs[0] == x then [] else [xs[0]]) + Without(xs[1..], x)
  }

  lemma {:induction false} WithoutDistinct<T>(xs: seq<T>, x: T)
    requires Distinct(xs)
    ensures Distinct(Without(xs, x))
  {
    if xs != [] {
      WithoutDistinct(xs[1..], x);
      assert xs[0] !in xs[1..];
    }
  }

  lemma {:induction false} WithoutNoLonger<T>(xs: seq<T>, x: T)
    ensures |Without(xs, x)| <= |xs|
    ensures x in xs ==> |Without(xs, x)| < |xs|
  {
    if xs != [] {
      WithoutNoLonger(xs[1..], x);
    }
  }

  lemma {:induction false} WithoutOneAtMost<T>(xs: seq<T>, x: T)
    requires Distinct(xs)
    ensures |Without(xs, x)| >= |xs| - 1
  {
    if xs != [] {
      if xs[0] == x {
        WithoutAbsent(xs[1..], x);
      } else {
        WithoutOneAtMost(xs[1..], x);
      }
    }
  }

  lemma {:induction false} WithoutAbsent<T>(xs: seq<T>, x: T)
    requires x !in xs
    ensures Without(xs, x) == xs
  {
    if xs != [] {
      WithoutAbsent(xs[1..], x);
    }
  }

  lemma {:induction false} WithoutOne<T>(before: seq<T>, x: T, after: seq<T>)
    requires Distinct(before + [x] + after)
    ensures Without(before + [x] + after, x) == before + after
  {
    var all := before + [x] + after;
    if before == [] {
      assert all[1..] == after && before + after == after;
      assert x !in after by {
        assert forall k :: 0 <= k < |after| ==> after[k] == all[k + 1] && all[0] != all[k + 1];
      }
      WithoutAbsent(after, x);
    } else {
      assert all[1..] == before[1..] + [x] + after;
      assert all[0] == before[0] && all[|before|] == x;
      WithoutOne(before[1..], x, after);
      assert before + after == [before[0]] + (before[1..] + after);
    }
  }

  // ---------------------------------------------------------------- maps that forget

  predicate Alive<K(==), V>(m: OrderedMap<K, V>, stale: V -> bool, k: K) {
    k in m.at && !stale(m.at[k])
  }

  function Living<K(==), V>(order: seq<K>, m: OrderedMap<K, V>, stale: V -> bool): (r: seq<K>)
    ensures forall k :: k in r ==> k in order && Alive(m, stale, k)
    ensures forall k :: k in order && Alive(m, stale, k) ==> k in r
  {
    if order == [] then []
    else
      var n := |order| - 1;
      Living(order[..n], m, stale) + if Alive(m, stale, order[n]) then [order[n]] else []
  }

  lemma {:induction false} LivingDistinct<K, V>(order: seq<K>, m: OrderedMap<K, V>, stale: V -> bool)
    requires Distinct(order)
    ensures Distinct(Living(order, m, stale))
  {
    if order != [] {
      LivingDistinct(order[..|order| - 1], m, stale);
    }
  }

  /** A map without its stale keys. */
  function Sifted<K(==), V>(m: OrderedMap<K, V>, stale: V -> bool): OrderedMap<K, V> {
    OrderedMap(Living(m.order, m, stale), map k | k in m.at && !stale(m.at[k]) :: m.at[k])
  }

  lemma SiftedIsValid<K, V>(m: OrderedMap<K, V>, stale: V -> bool)
    requires m.Valid()
    ensures Sifted(m, stale).Valid()
  {
    LivingDistinct(m.order, m, stale);
  }

  lemma {:induction false} LivingNoLonger<K, V>(order: seq<K>, m: OrderedMap<K, V>, stale: V -> bool)
    ensures |Living(order, m, stale)| <= |order|
  {
    if order != [] {
      LivingNoLonger(order[..|order| - 1], m, stale);
    }
  }

  /** Half way through the walk: the stale keys met so far are gone. */
  ghost predicate SiftedUpTo<K, V>(m0: OrderedMap<K, V>, stale: V -> bool, i: nat, m: OrderedMap<K, V>)
    requires i <= |m0.order|
  {
    && m.Valid()
    && m.order == Living(m0.order[..i], m0, stale) + m0.order[i..]
    && (forall k :: k in m.at ==> k in m0.at && m.at[k] == m0.at[k])
  }

  lemma LivingOneMore<K, V>(m0: OrderedMap<K, V>, stale: V -> bool, i: nat)
    requires i < |m0.order|
    ensures var k := m0.order[i];
      Living(m0.order[..i + 1], m0, stale) == Living(m0.order[..i], m0, stale) + if Alive(m0, stale, k) then [k] else []
  {
    assert m0.order[..i + 1][..i] == m0.order[..i];
  }

  lemma DeleteMiddle<K, V>(m: OrderedMap<K, V>, before: seq<K>, k: K, after: seq<K>)
    requires m.Valid() && m.order == before + [k] + after
    ensures m.Delete(k).order == before + after
  {
    WithoutOne(before, k, after);
  }

  lemma SplitAtMiddle<T>(xs: seq<T>, before: seq<T>, i: nat)
    requires i < |xs|
    ensures before + xs[i..] == before + [xs[i]] + xs[i + 1..]
  {
  }

  lemma SiftedOneMore<K, V>(m0: OrderedMap<K, V>, stale: V -> bool, i: nat, m: OrderedMap<K, V>)
    requires i < |m0.order| && SiftedUpTo(m0, stale, i, m)
    ensures SiftedUpTo(m0, stale, i + 1, if Alive(m0, stale, m0.order[i]) then m else m.Delete(m0.order[i]))
  {
    var k, lived := m0.order[i], Living(m0.order[..i], m0, stale);
    LivingOneMore(m0, stale, i);
    SplitAtMiddle(m0.order, lived, i);
    if !Alive(m0, stale, k) {
      DeleteMiddle(m, lived, k, m0.order[i + 1..]);
      assert lived + [] == lived;
    }
  }

  /** `for (const [k, v] of m) if (stale(v)) m.delete(k)`. */
  method Sift<K(!new,==), V>(m0: OrderedMap<K, V>, stale: V -> bool) returns (m: OrderedMap<K, V>)
    requires m0.Valid()
    ensures m.Valid() && m == Sifted(m0, stale)
  {
    m := m0;
    var i := 0;
    while i < |m0.order|
      invariant 0 <= i <= |m0.order| && SiftedUpTo(m0, stale, i, m)
    {
      SiftedOneMore(m0, stale, i, m);
      var k := m0.order[i];
      if !Alive(m0, stale, k) {
        m := m.Delete(k);
      }
      i := i + 1;
    }
    assert m0.order[i..] == [];
    PrefixAll(m0.order);
    assert m.order == Living(m0.order, m0, stale);
    assert forall k :: k in m.at <==> Alive(m0, stale, k);
    assert m.at == Sifted(m0, stale).at;
  }

  lemma DeleteFirst<K, V>(m: OrderedMap<K, V>)
    requires m.Valid() && m.order != []
    ensures m.Delete(m.order[0]).order == m.order[1..]
  {
    SplitAtMiddle(m.order, [], 0);
    assert [] + m.order[0..] == m.order && [] + m.order[1..] == m.order[1..];
    DeleteMiddle(m, [], m.order[0], m.order[1..]);
  }

  ghost predicate Within<K, V>(m: OrderedMap<K, V>, m0: OrderedMap<K, V>) {
    forall k :: k in m.at ==> k in m0.at && m.at[k] == m0.at[k]
  }

  /** The first `gone` keys of a map are deleted. */
  ghost predicate EvictedUpTo<K, V>(m0: OrderedMap<K, V>, gone: nat, m: OrderedMap<K, V>) {
    gone <= |m0.order| && m.Valid() && m.order == m0.order[gone..] && Within(m, m0)
  }

  lemma EvictedOneMore<K, V>(m0: OrderedMap<K, V>, gone: nat, m: OrderedMap<K, V>)
    requires EvictedUpTo(m0, gone, m) && m.order != []
    ensures EvictedUpTo(m0, gone + 1, m.Delete(m.order[0]))
    ensures |m.Delete(m.order[0]).order| == |m.order| - 1
  {
    DeleteFirst(m);
    assert m0.order[gone..][1..] == m0.order[gone + 1..];
  }

  /** A map with its last `most` keys alone. */
  function Newest<K(==), V>(m: OrderedMap<K, V>, most: nat): OrderedMap<K, V> {
    if |m.order| <= most then m
    else
      var left := m.order[|m.order| - most..];
      OrderedMap(left, map k | k in m.at && k in left :: m.at[k])
  }

  lemma NewestIsValid<K, V>(m: OrderedMap<K, V>, most: nat)
    requires m.Valid()
    ensures Newest(m, most).Valid() && |Newest(m, most).order| <= most
  {
  }

  /** `while (m.size > most) m.delete(m.keys().next().value)`: the oldest keys go. */
  method Evict<K(==), V>(m0: OrderedMap<K, V>, most: nat) returns (m: OrderedMap<K, V>)
    requires m0.Valid()
    ensures m.Valid() && m == Newest(m0, most)
  {
    m := m0;
    if |m.order| <= most {
      return;
    }
    ghost var gone := 0;
    while |m.order| > most
      invariant EvictedUpTo(m0, gone, m) && |m.order| >= most
      decreases |m.order|
    {
      EvictedOneMore(m0, gone, m);
      m := m.Delete(m.order[0]);
      gone := gone + 1;
    }
    assert m.at == Newest(m0, most).at;
  }

  // ---------------------------------------------------------------- values gathered by key

  /** The values recorded under a key, in order. */
  function ValuesOf<K(==), V>(keys: seq<K>, values: seq<V>, key: K): seq<V>
    requires |keys| == |values|
  {
    if keys == [] then []
    else
      var n := |keys| - 1;
      ValuesOf(keys[..n], values[..n], key) + if keys[n] == key then [values[n]] else []
  }

  /** `values.reduce(join)`. */
  function Reduced<V>(values: seq<V>, join: (V, V) -> V): V
    requires values != []
  {
    if |values| == 1 then values[0] else join(Reduced(values[..|values| - 1], join), values[|values| - 1])
  }

  ghost predicate IsTally<K, V>(keys: seq<K>, values: seq<V>, join: (V, V) -> V, key: K, value: V)
    requires |keys| == |values|
  {
    ValuesOf(keys, values, key) != [] && value == Reduced(ValuesOf(keys, values, key), join)
  }

  /** A map filled value by value: each key once, in order of first value, with its values joined. */
  ghost predicate Tallied<K(!new), V>(keys: seq<K>, values: seq<V>, join: (V, V) -> V, m: OrderedMap<K, V>)
    requires |keys| == |values|
  {
    && m.order == Unique(keys)
    && (forall key :: key in m.at <==> key in keys)
    && forall key :: key in m.at ==> IsTally(keys, values, join, key, m.at[key])
  }

  lemma {:induction false} ValuesOfKey<K, V>(keys: seq<K>, values: seq<V>, key: K)
    requires |keys| == |values|
    ensures forall value :: value in ValuesOf(keys, values, key) ==> value in values
    ensures key !in keys ==> ValuesOf(keys, values, key) == []
  {
    if keys != [] {
      var n := |keys| - 1;
      assert keys[n] in keys;
      ValuesOfKey(keys[..n], values[..n], key);
    }
  }

  /** The values recorded under a key, in order: exactly those. */
  lemma {:induction false} ValuesOfTaken<K, V>(keys: seq<K>, values: seq<V>, key: K) returns (places: seq<nat>)
    requires |keys| == |values|
    ensures TakenAt(values, places, ValuesOf(keys, values, key))
    ensures forall i :: 0 <= i < |keys| ==> (i in places <==> keys[i] == key)
  {
    places := [];
    if keys != [] {
      var n := |keys| - 1;
      var before := ValuesOfTaken(keys[..n], values[..n], key);
      places := before + if keys[n] == key then [n] else [];
      assert n !in before;
      TakenOneFurther(values, n, before, ValuesOf(keys[..n], values[..n], key));
      forall i | 0 <= i < |keys|
        ensures i in places <==> keys[i] == key
      {
        assert i < n ==> keys[..n][i] == keys[i];
      }
    }
  }

  lemma TakenOneFurther<V>(values: seq<V>, n: nat, before: seq<nat>, taken: seq<V>)
    requires |values| == n + 1 && TakenAt(values[..n], before, taken)
    ensures TakenAt(values, before + [n], taken + [values[n]]) && TakenAt(values, before + [], taken + [])
  {
    assert before + [] == before && taken + [] == taken;
  }

  lemma ValuesAfterOne<K, V>(keys: seq<K>, values: seq<V>, key: K, value: V, other: K)
    requires |keys| == |values|
    ensures ValuesOf(keys + [key], values + [value], other) == ValuesOf(keys, values, other) + if other == key then [value] else []
  {
    assert (keys + [key])[..|keys|] == keys && (values + [value])[..|values|] == values;
  }

  lemma UniqueAfterOne<K>(keys: seq<K>, key: K)
    ensures Unique(keys + [key]) == if key in Unique(keys) then Unique(keys) else Unique(keys) + [key]
  {
    assert (keys + [key])[..|keys|] == keys;
  }

  lemma TallyOwnKey<K, V>(keys: seq<K>, values: seq<V>, join: (V, V) -> V, key: K, value: V, kept: Option<V>)
    requires |keys| == |values|
    requires if kept.Some? then IsTally(keys, values, join, key, kept.value) else key !in keys
    ensures IsTally(keys + [key], values + [value], join, key, if kept.Some? then join(kept.value, value) else value)
  {
    var own := ValuesOf(keys, values, key);
    ValuesAfterOne(keys, values, key, value, key);
    ValuesOfKey(keys, values, key);
    assert (own + [value])[..|own|] == own;
  }

  lemma TallyOtherKey<K, V>(keys: seq<K>, values: seq<V>, join: (V, V) -> V, key: K, value: V, other: K, kept: V)
    requires |keys| == |values| && other != key && IsTally(keys, values, join, other, kept)
    ensures IsTally(keys + [key], values + [value], join, other, kept)
  {
    ValuesAfterOne(keys, values, key, value, other);
    assert ValuesOf(keys, values, other) + [] == ValuesOf(keys, values, other);
  }

  lemma TallyOneMore<K(!new), V>(keys: seq<K>, values: seq<V>, join: (V, V) -> V, key: K, value: V,
                           before: OrderedMap<K, V>, after: OrderedMap<K, V>)
    requires |keys| == |values| && Tallied(keys, values, join, before)
    requires after == before.Set(key, if key in before.at then join(before.at[key], value) else value)
    ensures Tallied(keys + [key], values + [value], join, after)
  {
    UniqueAfterOne(keys, key);
    TallyOwnKey(keys, values, join, key, value, if key in before.at then Some(before.at[key]) else None);
    assert key in before.at <==> key in Unique(keys);
    assert after.order == Unique(keys + [key]);
    assert forall k :: k in after.at <==> k in keys + [key];
    assert IsTally(keys + [key], values + [value], join, key, after.at[key]);
    forall other | other in after.at && other != key
      ensures IsTally(keys + [key], values + [value], join, other, after.at[other])
    {
      TallyOtherKey(keys, values, join, key, value, other, before.at[other]);
    }
  }

  ghost predicate TalliedUpTo<K(!new), V>(keys: seq<K>, values: seq<V>, join: (V, V) -> V, i: nat, m: OrderedMap<K, V>)
    requires i <= |keys| == |values|
  {
    Tallied(keys[..i], values[..i], join, m)
  }

  lemma TalliedOneFurther<K(!new), V>(keys: seq<K>, values: seq<V>, join: (V, V) -> V, i: nat, m: OrderedMap<K, V>)
    requires i < |keys| == |values| && TalliedUpTo(keys, values, join, i, m)
    ensures TalliedUpTo(keys, values, join, i + 1, m.Set(keys[i], if keys[i] in m.at then join(m.at[keys[i]], values[i]) else values[i]))
  {
    PrefixAndOne(keys, i);
    PrefixAndOne(values, i);
    TallyOneMore(keys[..i], values[..i], join, keys[i], values[i], m,
                 m.Set(keys[i], if keys[i] in m.at then join(m.at[keys[i]], values[i]) else values[i]));
  }

  /** A map filled value by value, a key met again joined to what it holds. */
  method Tally<K(!new,==), V>(keys: seq<K>, values: seq<V>, join: (V, V) -> V) returns (m: OrderedMap<K, V>)
    requires |keys| == |values|
    ensures Tallied(keys, values, join, m)
  {
    m := OrderedMap([], map[]);
    var i := 0;
    while i < |keys|
      invariant 0 <= i <= |keys| && TalliedUpTo(keys, values, join, i, m)
    {
      TalliedOneFurther(keys, values, join, i, m);
      m := m.Set(keys[i], if keys[i] in m.at then join(m.at[keys[i]], values[i]) else values[i]);
      i := i + 1;
    }
    PrefixAll(keys);
    PrefixAll(values);
  }

  lemma PrefixAndOne<T>(xs: seq<T>, i: nat)
    requires i < |xs|
    ensures xs[..i + 1] == xs[..i] + [xs[i]]
  {
  }

  lemma PrefixAll<T>(xs: seq<T>)
    ensures xs[..|xs|] == xs
  {
  }
}
