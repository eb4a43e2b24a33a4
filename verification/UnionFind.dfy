/**
The union-find of `mergeExamples` (cv/src/normalize.js): rows an enumeration of the offer names are
united under one root, `root` compressing the path it walks.
*/
module UnionFind {

  // ---------------------------------------------------------------- the groups, as a relation

  /** Rows `a` and `b` are named by one enumeration; `named[e]` lists the rows enumeration `e` names. */
  ghost predicate Linked(named: seq<seq<nat>>, a: nat, b: nat) {
    exists e :: 0 <= e < |named| && a in named[e] && b in named[e]
  }

  ghost predicate IsChain(named: seq<seq<nat>>, path: seq<nat>) {
    forall k :: 0 <= k < |path| - 1 ==> Linked(named, path[k], path[k + 1])
  }

  ghost predicate Joins(named: seq<seq<nat>>, a: nat, b: nat, path: seq<nat>) {
    |path| > 0 && path[0] == a && path[|path| - 1] == b && IsChain(named, path)
  }

  /** The reflexive and transitive closure of "named by a common enumeration". */
  ghost predicate Connected(named: seq<seq<nat>>, a: nat, b: nat) {
    exists path :: Joins(named, a, b, path)
  }

  lemma ConnectedSelf(named: seq<seq<nat>>, a: nat)
    ensures Connected(named, a, a)
  {
    assert Joins(named, a, a, [a]);
  }

  lemma ConnectedLink(named: seq<seq<nat>>, a: nat, b: nat)
    requires Linked(named, a, b)
    ensures Connected(named, a, b)
  {
    assert Joins(named, a, b, [a, b]);
  }

  lemma ConnectedSymmetric(named: seq<seq<nat>>, a: nat, b: nat)
    requires Connected(named, a, b)
    ensures Connected(named, b, a)
  {
    var path :| Joins(named, a, b, path);
    var back := seq(|path|, i requires 0 <= i < |path| => path[|path| - 1 - i]);
    forall k | 0 <= k < |back| - 1
      ensures Linked(named, back[k], back[k + 1])
    {
      assert Linked(named, path[|path| - 2 - k], path[|path| - 2 - k + 1]);
    }
    assert Joins(named, b, a, back);
  }

  lemma ConnectedTransitive(named: seq<seq<nat>>, a: nat, b: nat, c: nat)
    requires Connected(named, a, b) && Connected(named, b, c)
    ensures Connected(named, a, c)
  {
    var first :| Joins(named, a, b, first);
    var second :| Joins(named, b, c, second);
    var path := first + second[1..];
    forall k | 0 <= k < |path| - 1
      ensures Linked(named, path[k], path[k + 1])
    {
      if k < |first| - 1 {
        assert Linked(named, first[k], first[k + 1]);
      } else {
        var at := k - (|first| - 1);
        assert path[k] == second[at];
        assert Linked(named, second[at], second[at + 1]);
      }
    }
    assert Joins(named, a, c, path);
  }

  // ---------------------------------------------------------------- the union-find

  /** What the union-find keeps of each node: its parent is in its class, and nearer to its representative. */
  ghost predicate Node(parent: seq<nat>, rep: seq<nat>, depth: seq<nat>, i: nat)
    requires |parent| == |rep| == |depth| && i < |parent|
  {
    && parent[i] < |parent| && rep[i] < |rep|
    && rep[rep[i]] == rep[i]
    && rep[parent[i]] == rep[i]
    && (parent[i] == i <==> rep[i] == i)
    && (parent[i] != i ==> depth[parent[i]] < depth[i])
  }

  /** `parent` is a forest whose trees are the classes of `rep`; `depth` shows that it has no cycle. */
  ghost predicate Forest(parent: seq<nat>, rep: seq<nat>, depth: seq<nat>) {
    && |parent| == |rep| == |depth|
    && forall i :: 0 <= i < |parent| ==> Node(parent, rep, depth, i)
  }

  lemma PointingAtTheRoot(parent: seq<nat>, rep: seq<nat>, depth: seq<nat>, index: nat)
    requires Forest(parent, rep, depth) && index < |parent| && rep[index] < |depth| && depth[rep[index]] < depth[index]
    ensures Forest(parent[index := rep[index]], rep, depth)
  {
    var shorter := parent[index := rep[index]];
    assert Node(parent, rep, depth, index);
    forall i | 0 <= i < |shorter|
      ensures Node(shorter, rep, depth, i)
    {
      assert Node(parent, rep, depth, i);
    }
  }

  /** `root(index)`: the representative of `index`, every node on the way now pointing at it. */
  method Root(parent: array<nat>, index: nat, ghost rep: seq<nat>, ghost depth: seq<nat>) returns (r: nat)
    requires Forest(parent[..], rep, depth) && index < parent.Length
    modifies parent
    ensures Forest(parent[..], rep, depth)
    ensures r == rep[index] < parent.Length && rep[r] == r && depth[r] <= depth[index]
    decreases depth[index]
  {
    assert Node(parent[..], rep, depth, index);
    if parent[index] == index {
      return index;
    }
    r := Root(parent, parent[index], rep, depth);
    PointingAtTheRoot(parent[..], rep, depth, index);
    ghost var before := parent[..];
    parent[index] := r;
    assert parent[..] == before[index := r];
  }

  /** The classes after the tree of `from` is hung under the tree of `to` (both roots). */
  ghost function Hung(rep: seq<nat>, from: nat, to: nat): seq<nat> {
    seq(|rep|, i requires 0 <= i < |rep| => if rep[i] == from then to else rep[i])
  }

  ghost function Deeper(rep: seq<nat>, depth: seq<nat>, from: nat, to: nat): seq<nat>
    requires |rep| == |depth| && to < |rep|
  {
    if from == to then depth
    else seq(|rep|, i requires 0 <= i < |rep| => if rep[i] == from then depth[i] + depth[to] + 1 else depth[i])
  }

  lemma HungIsForest(parent: seq<nat>, rep: seq<nat>, depth: seq<nat>, from: nat, to: nat)
    requires Forest(parent, rep, depth) && from < |rep| && to < |rep| && rep[from] == from && rep[to] == to
    ensures Forest(parent[from := to], Hung(rep, from, to), Deeper(rep, depth, from, to))
  {
    var p, r, d := parent[from := to], Hung(rep, from, to), Deeper(rep, depth, from, to);
    assert Node(parent, rep, depth, from) && Node(parent, rep, depth, to);
    forall i | 0 <= i < |p|
      ensures Node(p, r, d, i)
    {
      assert Node(parent, rep, depth, i);
    }
  }

  /** Rows that share a class are connected. */
  ghost predicate ClassesConnected(named: seq<seq<nat>>, rep: seq<nat>) {
    forall a, b :: 0 <= a < |rep| && 0 <= b < |rep| && rep[a] == rep[b] ==> Connected(named, a, b)
  }

  /** The rows of the first `count` enumerations share a class, enumeration by enumeration. */
  ghost predicate Gathered(named: seq<seq<nat>>, count: nat, rep: seq<nat>)
    requires forall e, x :: 0 <= e < |named| && x in named[e] ==> x < |rep|
  {
    forall e, x, y :: 0 <= e < count && e < |named| && x in named[e] && y in named[e] ==> rep[x] == rep[y]
  }

  lemma HungKeepsConnected(named: seq<seq<nat>>, rep: seq<nat>, x: nat, y: nat)
    requires x < |rep| && y < |rep| && Linked(named, x, y) && ClassesConnected(named, rep)
    ensures ClassesConnected(named, Hung(rep, rep[x], rep[y]))
  {
    var after := Hung(rep, rep[x], rep[y]);
    ConnectedLink(named, x, y);
    forall a, b | 0 <= a < |rep| && 0 <= b < |rep| && after[a] == after[b]
      ensures Connected(named, a, b)
    {
      if rep[a] != rep[b] {
        var low, high := if rep[a] == rep[x] then a else b, if rep[a] == rep[x] then b else a;
        ConnectedTransitive(named, low, x, y);
        ConnectedTransitive(named, low, y, high);
        ConnectedSymmetric(named, low, high);
      }
    }
  }

  /** Once every enumeration is gathered, a chain never leaves its class. */
  lemma {:induction false} ChainStaysInClass(named: seq<seq<nat>>, rep: seq<nat>, path: seq<nat>, k: nat)
    requires forall e, x :: 0 <= e < |named| && x in named[e] ==> x < |rep|
    requires Gathered(named, |named|, rep) && IsChain(named, path)
    requires k < |path| && path[0] < |rep|
    ensures path[k] < |rep| && rep[path[k]] == rep[path[0]]
  {
    if k > 0 {
      ChainStaysInClass(named, rep, path, k - 1);
      assert Linked(named, path[k - 1], path[k - 1 + 1]);
    }
  }

  lemma ClassesAreComponents(named: seq<seq<nat>>, rep: seq<nat>)
    requires forall e, x :: 0 <= e < |named| && x in named[e] ==> x < |rep|
    requires Gathered(named, |named|, rep) && ClassesConnected(named, rep)
    ensures forall a, b :: 0 <= a < |rep| && 0 <= b < |rep| ==> (rep[a] == rep[b] <==> Connected(named, a, b))
  {
    forall a, b | 0 <= a < |rep| && 0 <= b < |rep| && Connected(named, a, b)
      ensures rep[a] == rep[b]
    {
      var path :| Joins(named, a, b, path);
      ChainStaysInClass(named, rep, path, |path| - 1);
    }
  }

  /**
   The root of every row after every enumeration has united the rows it names: two rows have one root
   exactly when they are connected.
   */
  method Roots(count: nat, named: seq<seq<nat>>) returns (roots: seq<nat>)
    requires forall e, x :: 0 <= e < |named| && x in named[e] ==> x < count
    ensures |roots| == count
    ensures forall a, b :: 0 <= a < count && 0 <= b < count ==> (roots[a] == roots[b] <==> Connected(named, a, b))
  {
    var parent := new nat[count](i => i);
    ghost var rep, depth := SingletonsAreForest(count, named);
    assert parent[..] == rep;
    for e := 0 to |named|
      invariant |rep| == count && Forest(parent[..], rep, depth)
      invariant ClassesConnected(named, rep) && Gathered(named, e, rep)
    {
      rep, depth := Unite(parent, named, e, rep, depth);
    }
    ClassesAreComponents(named, rep);
    roots := AllRoots(parent, rep, depth);
  }

  lemma SingletonsAreForest(count: nat, named: seq<seq<nat>>) returns (rep: seq<nat>, depth: seq<nat>)
    ensures |rep| == count && (forall i :: 0 <= i < count ==> rep[i] == i)
    ensures Forest(rep, rep, depth) && ClassesConnected(named, rep)
  {
    rep := seq(count, i requires 0 <= i < count => i);
    depth := seq(count, i => 0);
    forall a, b | 0 <= a < |rep| && 0 <= b < |rep| && rep[a] == rep[b]
      ensures Connected(named, a, b)
    {
      ConnectedSelf(named, a);
    }
  }

  method AllRoots(parent: array<nat>, ghost rep: seq<nat>, ghost depth: seq<nat>) returns (roots: seq<nat>)
    requires Forest(parent[..], rep, depth)
    modifies parent
    ensures roots == rep
  {
    roots := [];
    for i := 0 to parent.Length
      invariant |roots| == i && roots == rep[..i]
      invariant Forest(parent[..], rep, depth)
    {
      var r := Root(parent, i, rep, depth);
      roots := roots + [r];
    }
  }

  /** The first `i` rows of an enumeration share the class of its first. */
  ghost predicate TogetherUpTo(rows: seq<nat>, i: nat, rep: seq<nat>) {
    (forall k :: 0 <= k < |rows| ==> rows[k] < |rep|) && forall k :: 0 <= k < i && k < |rows| ==> rep[rows[k]] == rep[rows[0]]
  }

  lemma TogetherOneMore(rows: seq<nat>, i: nat, rep: seq<nat>)
    requires 0 < i < |rows| && TogetherUpTo(rows, i, rep)
    ensures TogetherUpTo(rows, i + 1, Hung(rep, rep[rows[i]], rep[rows[0]]))
  {
  }

  lemma HungKeepsGathered(named: seq<seq<nat>>, count: nat, rep: seq<nat>, from: nat, to: nat)
    requires (forall e, x :: 0 <= e < |named| && x in named[e] ==> x < |rep|) && Gathered(named, count, rep)
    ensures Gathered(named, count, Hung(rep, from, to))
  {
  }

  lemma GatheredOneMore(named: seq<seq<nat>>, e: nat, rep: seq<nat>)
    requires e < |named| && forall k, x :: 0 <= k < |named| && x in named[k] ==> x < |rep|
    requires Gathered(named, e, rep) && TogetherUpTo(named[e], |named[e]|, rep)
    ensures Gathered(named, e + 1, rep)
  {
    forall x, y | x in named[e] && y in named[e]
      ensures rep[x] == rep[y]
    {
      var j :| 0 <= j < |named[e]| && named[e][j] == x;
      var k :| 0 <= k < |named[e]| && named[e][k] == y;
    }
  }

  /** One enumeration: every row it names is hung under the first one's root. */
  method Unite(parent: array<nat>, named: seq<seq<nat>>, e: nat, ghost rep0: seq<nat>, ghost depth0: seq<nat>)
    returns (ghost rep: seq<nat>, ghost depth: seq<nat>)
    requires e < |named| && forall k, x :: 0 <= k < |named| && x in named[k] ==> x < parent.Length
    requires Forest(parent[..], rep0, depth0)
    requires ClassesConnected(named, rep0) && Gathered(named, e, rep0)
    modifies parent
    ensures Forest(parent[..], rep, depth)
    ensures ClassesConnected(named, rep) && Gathered(named, e + 1, rep)
  {
    rep, depth := rep0, depth0;
    var rows := named[e];
    assert forall k :: 0 <= k < |rows| ==> rows[k] in named[e];
    var i := 1;
    while i < |rows|
      invariant 1 <= i && |rep| == parent.Length && Forest(parent[..], rep, depth)
      invariant ClassesConnected(named, rep) && Gathered(named, e, rep) && TogetherUpTo(rows, i, rep)
    {
      assert rows[i] in named[e] && rows[0] in named[e];
      var from := Root(parent, rows[i], rep, depth);
      var to := Root(parent, rows[0], rep, depth);
      HungIsForest(parent[..], rep, depth, from, to);
      HungKeepsConnected(named, rep, rows[i], rows[0]);
      HungKeepsGathered(named, e, rep, from, to);
      TogetherOneMore(rows, i, rep);
      ghost var before := parent[..];
      parent[from] := to;
      assert parent[..] == before[from := to];
      rep, depth := Hung(rep, from, to), Deeper(rep, depth, from, to);
      i := i + 1;
    }
    GatheredOneMore(named, e, rep);
  }
}
