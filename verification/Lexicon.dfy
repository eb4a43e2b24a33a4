/**
The lexicon (cv/src/lexicon.js): an offer's words and the owner's, linked through shared concepts.
A phrase is the list of its keyed words, and a label likewise, so a label joined by spaces is in a phrase
exactly when its words are a run of the phrase's.
*/
module Lexicon {
  import opened Collections

  /** The longest label, in words, looked for inside a phrase. */
  const MAX_WORDS := 8

  type Words = seq<string>

  datatype ConceptKind = Umbrella | Tool | Plain

  datatype Concept = Concept(id: string, labels: seq<Words>, broader: seq<string>, kind: ConceptKind)

  datatype Index = Index(byKey: map<Words, seq<string>>, byId: map<string, Concept>)

  // ---------------------------------------------------------------- buildIndex

  /** The ids of the concepts that carry a label, each once, in the order they are read. */
  function Carriers(concepts: seq<Concept>, tag: Words): seq<string> {
    if concepts == [] then []
    else
      var last := concepts[|concepts| - 1];
      var before := Carriers(concepts[..|concepts| - 1], tag);
      if tag in last.labels && last.id !in before then before + [last.id] else before
  }

  /** A label is a key, with exactly `ids`, unless it is empty or nothing carries it. */
  ghost predicate Leads(byKey: map<Words, seq<string>>, tag: Words, ids: seq<string>) {
    if tag != [] && ids != [] then tag in byKey && byKey[tag] == ids else tag !in byKey
  }

  /** `byKey` maps each label of two concepts or one to exactly its carriers, and no empty label. */
  ghost predicate Keyed(concepts: seq<Concept>, byKey: map<Words, seq<string>>) {
    forall tag: Words :: Leads(byKey, tag, Carriers(concepts, tag))
  }

  /** A concept's id, once for each time it names that parent. */
  function Times(broader: seq<string>, parent: string, id: string): seq<string> {
    if broader == [] then []
    else Times(broader[..|broader| - 1], parent, id) + if broader[|broader| - 1] == parent then [id] else []
  }

  /** The ids of the concepts under a parent, in the order they are read. */
  function ChildrenOf(concepts: seq<Concept>, parent: string): seq<string> {
    if concepts == [] then []
    else
      var last := concepts[|concepts| - 1];
      ChildrenOf(concepts[..|concepts| - 1], parent) + Times(last.broader, parent, last.id)
  }

  /** `children` once some concepts are read, and the first `n` parents of the next. */
  ghost predicate Parented(before: seq<Concept>, broader: seq<string>, id: string, children: map<string, seq<string>>) {
    forall parent: string :: HasChildren(children, parent, ChildrenOf(before, parent) + Times(broader, parent, id))
  }

  ghost predicate HasChildren(children: map<string, seq<string>>, parent: string, ids: seq<string>) {
    if ids != [] then parent in children && children[parent] == ids else parent !in children
  }

  lemma TimesOneMore(broader: seq<string>, next: string, parent: string, id: string)
    ensures Times(broader + [next], parent, id) == if next == parent then Times(broader, parent, id) + [id] else Times(broader, parent, id)
  {
    assert (broader + [next])[..|broader|] == broader;
    assert Times(broader, parent, id) + [] == Times(broader, parent, id);
  }

  function WithChild(children: map<string, seq<string>>, parent: string, id: string): map<string, seq<string>> {
    children[parent := (if parent in children then children[parent] else []) + [id]]
  }

  lemma ChildrenAfterOne(children: map<string, seq<string>>, next: string, id: string, parent: string, ids: seq<string>)
    requires HasChildren(children, parent, ids)
    ensures HasChildren(WithChild(children, next, id), parent, if next == parent then ids + [id] else ids)
  {
  }

  lemma ParentedOneMore(before: seq<Concept>, broader: seq<string>, next: string, id: string, children: map<string, seq<string>>)
    requires Parented(before, broader, id, children)
    ensures Parented(before, broader + [next], id, WithChild(children, next, id))
  {
    forall parent: string
      ensures HasChildren(WithChild(children, next, id), parent, ChildrenOf(before, parent) + Times(broader + [next], parent, id))
    {
      var own, times := ChildrenOf(before, parent), Times(broader, parent, id);
      TimesOneMore(broader, next, parent, id);
      ChildrenAfterOne(children, next, id, parent, own + times);
      assert own + (times + [id]) == own + times + [id];
    }
  }

  ghost predicate LeadsToChildren(concepts: seq<Concept>, children: map<string, seq<string>>) {
    forall parent: string :: HasChildren(children, parent, ChildrenOf(concepts, parent))
  }

  lemma NoParentYet(before: seq<Concept>, id: string, children: map<string, seq<string>>)
    ensures Parented(before, [], id, children) <==> LeadsToChildren(before, children)
  {
    if Parented(before, [], id, children) {
      forall parent: string
        ensures HasChildren(children, parent, ChildrenOf(before, parent))
      {
        assert HasChildren(children, parent, ChildrenOf(before, parent) + Times([], parent, id));
        assert ChildrenOf(before, parent) + Times([], parent, id) == ChildrenOf(before, parent);
      }
    }
    if LeadsToChildren(before, children) {
      forall parent: string
        ensures HasChildren(children, parent, ChildrenOf(before, parent) + Times([], parent, id))
      {
        assert HasChildren(children, parent, ChildrenOf(before, parent));
        assert ChildrenOf(before, parent) + Times([], parent, id) == ChildrenOf(before, parent);
      }
    }
  }

  /** `for (const parent of concept.broader)`. */
  method AddParents(before: seq<Concept>, concept: Concept, children0: map<string, seq<string>>) returns (children: map<string, seq<string>>)
    requires Parented(before, [], concept.id, children0)
    ensures Parented(before, concept.broader, concept.id, children)
  {
    children := children0;
    for j := 0 to |concept.broader|
      invariant Parented(before, concept.broader[..j], concept.id, children)
    {
      var parent := concept.broader[j];
      ParentedOneMore(before, concept.broader[..j], parent, concept.id, children);
      PrefixAndOne(concept.broader, j);
      children := WithChild(children, parent, concept.id);
    }
    PrefixAll(concept.broader);
  }

  lemma ParentedNext(before: seq<Concept>, concept: Concept, children: map<string, seq<string>>)
    requires Parented(before, concept.broader, concept.id, children)
    ensures LeadsToChildren(before + [concept], children)
  {
    assert (before + [concept])[..|before|] == before;
  }

  /** `byKey` leads each label to its carriers, `byId` each id to a concept of that id, `children` each parent to those under it. */
  method BuildIndex(concepts: seq<Concept>) returns (index: Index, children: map<string, seq<string>>)
    ensures Keyed(concepts, index.byKey)
    ensures forall id :: id in index.byId ==> index.byId[id] in concepts && index.byId[id].id == id
    ensures forall c :: c in concepts ==> c.id in index.byId
    ensures LeadsToChildren(concepts, children)
  {
    var byKey: map<Words, seq<string>> := map[];
    var byId: map<string, Concept> := map[];
    children := map[];
    for i := 0 to |concepts|
      invariant Keyed(concepts[..i], byKey)
      invariant forall id :: id in byId ==> byId[id] in concepts && byId[id].id == id
      invariant forall k :: 0 <= k < i ==> concepts[k].id in byId
      invariant LeadsToChildren(concepts[..i], children)
    {
      byKey := AddLabels(concepts[..i], concepts[i], byKey);
      byId := byId[concepts[i].id := concepts[i]];
      NoParentYet(concepts[..i], concepts[i].id, children);
      children := AddParents(concepts[..i], concepts[i], children);
      ParentedNext(concepts[..i], concepts[i], children);
      PrefixAndOne(concepts, i);
    }
    PrefixAll(concepts);
    index := Index(byKey, byId);
  }

  /** `byKey` while a concept's labels are read: those in `read` lead to it too. */
  ghost predicate Adding(before: seq<Concept>, concept: Concept, read: seq<Words>, byKey: map<Words, seq<string>>) {
    forall tag: Words :: Leads(byKey, tag, Reading(before, concept, read, tag))
  }

  ghost function Reading(before: seq<Concept>, concept: Concept, read: seq<Words>, tag: Words): seq<string> {
    Carriers(if tag in read then before + [concept] else before, tag)
  }

  method AddLabels(before: seq<Concept>, concept: Concept, byKey0: map<Words, seq<string>>) returns (byKey: map<Words, seq<string>>)
    requires Keyed(before, byKey0)
    ensures Keyed(before + [concept], byKey)
  {
    byKey := byKey0;
    for i := 0 to |concept.labels|
      invariant Adding(before, concept, concept.labels[..i], byKey)
    {
      var tag := concept.labels[i];
      ghost var was := byKey;
      if tag != [] {
        byKey := byKey[tag := Unique((if tag in byKey then byKey[tag] else []) + [concept.id])];
      }
      OneMoreLabel(before, concept, concept.labels[..i], tag, was, byKey);
      assert concept.labels[..i + 1] == concept.labels[..i] + [tag];
    }
    assert concept.labels[..|concept.labels|] == concept.labels;
    AllLabelsRead(before, concept, byKey);
  }

  lemma OneMoreLabel(before: seq<Concept>, concept: Concept, read: seq<Words>, tag: Words,
                     was: map<Words, seq<string>>, now: map<Words, seq<string>>)
    requires Adding(before, concept, read, was) && tag in concept.labels
    requires now == if tag == [] then was else was[tag := Unique((if tag in was then was[tag] else []) + [concept.id])]
    ensures Adding(before, concept, read + [tag], now)
  {
    assert Leads(was, tag, Reading(before, concept, read, tag));
    assert Leads(now, tag, Carriers(before + [concept], tag)) by {
      UniqueCarriers(before, concept, tag);
    }
    forall other: Words | other != tag
      ensures Leads(now, other, Reading(before, concept, read + [tag], other))
    {
      assert Leads(was, other, Reading(before, concept, read, other));
    }
  }

  lemma AllLabelsRead(before: seq<Concept>, concept: Concept, byKey: map<Words, seq<string>>)
    requires Adding(before, concept, concept.labels, byKey)
    ensures Keyed(before + [concept], byKey)
  {
    assert (before + [concept])[..|before|] == before;
    forall tag: Words
      ensures Leads(byKey, tag, Carriers(before + [concept], tag))
    {
      assert Leads(byKey, tag, Reading(before, concept, concept.labels, tag));
    }
  }

  lemma {:induction false} UniqueOfDistinct<T>(xs: seq<T>)
    requires Distinct(xs)
    ensures Unique(xs) == xs
  {
    if xs != [] {
      UniqueOfDistinct(xs[..|xs| - 1]);
    }
  }

  lemma {:induction false} CarriersDistinct(concepts: seq<Concept>, tag: Words)
    ensures Distinct(Carriers(concepts, tag))
  {
    if concepts != [] {
      CarriersDistinct(concepts[..|concepts| - 1], tag);
    }
  }

  lemma UniqueCarriers(before: seq<Concept>, concept: Concept, tag: Words)
    requires tag in concept.labels
    ensures Unique(Carriers(before, tag) + [concept.id]) == Carriers(before + [concept], tag)
    ensures Unique(Carriers(before + [concept], tag) + [concept.id]) == Carriers(before + [concept], tag)
    ensures Carriers(before + [concept], tag) != []
  {
    var old_, all := Carriers(before, tag), Carriers(before + [concept], tag);
    assert (before + [concept])[..|before + [concept]| - 1] == before;
    CarriersDistinct(before, tag);
    CarriersDistinct(before + [concept], tag);
    UniqueOfDistinct(old_);
    UniqueOfDistinct(all);
    assert (old_ + [concept.id])[..|old_|] == old_;
    assert (all + [concept.id])[..|all|] == all;
  }

  /** A label leads to exactly the concepts that carry it. */
  lemma {:induction false} CarriersCarry(concepts: seq<Concept>, tag: Words)
    ensures forall id :: id in Carriers(concepts, tag) <==> exists i :: 0 <= i < |concepts| && concepts[i].id == id && tag in concepts[i].labels
  {
    if concepts != [] {
      var n := |concepts| - 1;
      CarriersCarry(concepts[..n], tag);
      forall id
        ensures id in Carriers(concepts, tag) <==> exists i :: 0 <= i < |concepts| && concepts[i].id == id && tag in concepts[i].labels
      {
        if i :| 0 <= i < |concepts| && concepts[i].id == id && tag in concepts[i].labels {
          if i < n {
            assert concepts[..n][i].id == id;
          }
        }
      }
    }
  }

  lemma {:induction false} TimesIs(broader: seq<string>, parent: string, id: string, child: string)
    ensures child in Times(broader, parent, id) <==> child == id && parent in broader
  {
    if broader != [] {
      TimesIs(broader[..|broader| - 1], parent, id, child);
    }
  }

  /** Under a parent: exactly the concepts that name it as broader. */
  lemma {:induction false} ChildrenAreUnder(concepts: seq<Concept>, parent: string, child: string)
    ensures child in ChildrenOf(concepts, parent) <==> exists c :: c in concepts && c.id == child && parent in c.broader
  {
    if concepts != [] {
      var n := |concepts| - 1;
      ChildrenAreUnder(concepts[..n], parent, child);
      TimesIs(concepts[n].broader, parent, concepts[n].id, child);
      assert concepts == concepts[..n] + [concepts[n]];
    }
  }

  // ---------------------------------------------------------------- spans

  /** A run of a phrase's words: `size` of them from `start`. */
  datatype Cut = Cut(start: nat, size: nat)

  predicate Holds(c: Cut, at: int) {
    c.start <= at < c.start + c.size
  }

  predicate Overlap(a: Cut, b: Cut) {
    a.start < b.start + b.size && b.start < a.start + a.size && a.size > 0 && b.size > 0
  }

  predicate Free(used: seq<bool>, c: Cut)
    requires c.start + c.size <= |used|
  {
    forall i :: c.start <= i < c.start + c.size ==> !used[i]
  }

  function Marked(used: seq<bool>, c: Cut): (r: seq<bool>)
    requires c.start + c.size <= |used|
    ensures |r| == |used| && forall i :: 0 <= i < |r| ==> r[i] == (used[i] || Holds(c, i))
  {
    seq(|used|, i requires 0 <= i < |used| => used[i] || Holds(c, i))
  }

  /** The words of `c` are a label. */
  predicate Names(index: Index, words: Words, c: Cut) {
    c.start + c.size <= |words| && words[c.start..c.start + c.size] in index.byKey
  }

  /** The labels taken from `start` on at `size` words, then at every smaller size, with `used` taken already. */
  function Cuts(index: Index, words: Words, size: nat, start: nat, used: seq<bool>): seq<Cut>
    requires |used| == |words|
    decreases size, |words| - start
  {
    if size == 0 then []
    else if start + size > |words| then Cuts(index, words, size - 1, 0, used)
    else
      var c := Cut(start, size);
      if Free(used, c) && Names(index, words, c) then [c] + Cuts(index, words, size, start + 1, Marked(used, c))
      else Cuts(index, words, size, start + 1, used)
  }

  function Unused(n: nat): (r: seq<bool>)
    ensures |r| == n && forall i :: 0 <= i < n ==> !r[i]
  {
    seq(n, _ => false)
  }

  /** The runs `spans` takes from a phrase, longest labels first. */
  function Tiling(index: Index, words: Words): seq<Cut> {
    Cuts(index, words, Min(MAX_WORDS, |words|), 0, Unused(|words|))
  }

  predicate Covered(cuts: seq<Cut>, at: int) {
    exists c :: c in cuts && Holds(c, at)
  }

  /** The words no part takes, in order. */
  function Rest(words: Words, used: seq<bool>): Words
    requires |words| == |used|
  {
    if words == [] then []
    else (if used[0] then [] else [words[0]]) + Rest(words[1..], used[1..])
  }

  datatype Part = Part(words: Words, ids: seq<string>)

  function PartOf(index: Index, words: Words, c: Cut): Part
    requires Names(index, words, c)
  {
    Part(words[c.start..c.start + c.size], index.byKey[words[c.start..c.start + c.size]])
  }

  function PartsOf(index: Index, words: Words, cuts: seq<Cut>): (r: seq<Part>)
    requires forall k :: 0 <= k < |cuts| ==> Names(index, words, cuts[k])
    ensures |r| == |cuts| && forall k :: 0 <= k < |r| ==> r[k] == PartOf(index, words, cuts[k])
  {
    seq(|cuts|, k requires 0 <= k < |cuts| => PartOf(index, words, cuts[k]))
  }

  function UsedBy(n: nat, cuts: seq<Cut>): (r: seq<bool>)
    ensures |r| == n && forall i :: 0 <= i < n ==> r[i] == Covered(cuts, i)
  {
    seq(n, i => Covered(cuts, i))
  }

  ghost predicate Fits(index: Index, words: Words, used: seq<bool>, size: nat, c: Cut) {
    c.start + c.size <= |used| == |words| && Names(index, words, c) && 1 <= c.size <= size && Free(used, c)
  }

  ghost predicate AllFit(index: Index, words: Words, used: seq<bool>, size: nat, cuts: seq<Cut>) {
    forall k :: 0 <= k < |cuts| ==> Fits(index, words, used, size, cuts[k])
  }

  /** Longer, or as long and further to the left. */
  predicate ComesFirst(a: Cut, b: Cut) {
    a.size > b.size || (a.size == b.size && a.start <= b.start)
  }

  /** No two runs share a word; the longest come first, and of two as long the one to the left. */
  ghost predicate Apart(cuts: seq<Cut>) {
    forall j, k :: 0 <= j < k < |cuts| ==> !Overlap(cuts[j], cuts[k]) && ComesFirst(cuts[j], cuts[k])
  }

  /** Runs still to come: shorter than `size`, or as long and from `start` on. */
  ghost predicate ToCome(size: nat, start: nat, cuts: seq<Cut>) {
    forall k :: 0 <= k < |cuts| ==> cuts[k].size < size || (cuts[k].size == size && start <= cuts[k].start)
  }

  lemma {:induction false} CutsAreToCome(index: Index, words: Words, size: nat, start: nat, used: seq<bool>)
    requires |used| == |words|
    ensures ToCome(size, start, Cuts(index, words, size, start, used))
    decreases size, |words| - start
  {
    if size == 0 {
    } else if start + size > |words| {
      CutsAreToCome(index, words, size - 1, 0, used);
    } else {
      var c := Cut(start, size);
      CutsAreToCome(index, words, size, start + 1, if Free(used, c) && Names(index, words, c) then Marked(used, c) else used);
    }
  }

  lemma FitAroundACut(index: Index, words: Words, used: seq<bool>, size: nat, c: Cut, others: seq<Cut>)
    requires |used| == |words| && Fits(index, words, used, size, c) && c.size == size && ToCome(size, c.start + 1, others)
    requires AllFit(index, words, Marked(used, c), size, others) && Apart(others)
    ensures AllFit(index, words, used, size, [c] + others) && Apart([c] + others)
  {
    var after, cuts := Marked(used, c), [c] + others;
    forall k | 0 <= k < |others|
      ensures Fits(index, words, used, size, others[k]) && !Overlap(c, others[k])
    {
      var other := others[k];
      assert Fits(index, words, after, size, other);
      forall i | other.start <= i < other.start + other.size
        ensures !used[i]
      {
        assert !after[i];
      }
      assert !Overlap(c, other) by {
        var shared := Max(c.start, other.start);
        assert shared < |after| && Holds(c, shared) ==> after[shared];
      }
    }
    assert forall k :: 0 < k < |cuts| ==> cuts[k] == others[k - 1];
  }

  /** What a run of `Cuts` takes: free runs that are labels, none larger than `size`, apart from each other. */
  lemma {:induction false} CutsAreApart(index: Index, words: Words, size: nat, start: nat, used: seq<bool>)
    requires |used| == |words|
    ensures AllFit(index, words, used, size, Cuts(index, words, size, start, used))
    ensures Apart(Cuts(index, words, size, start, used))
    decreases size, |words| - start
  {
    if size == 0 {
    } else if start + size > |words| {
      CutsAreApart(index, words, size - 1, 0, used);
      var cuts := Cuts(index, words, size - 1, 0, used);
      forall k | 0 <= k < |cuts|
        ensures Fits(index, words, used, size, cuts[k])
      {
        assert Fits(index, words, used, size - 1, cuts[k]);
      }
    } else {
      var c := Cut(start, size);
      if Free(used, c) && Names(index, words, c) {
        CutsAreApart(index, words, size, start + 1, Marked(used, c));
        CutsAreToCome(index, words, size, start + 1, Marked(used, c));
        FitAroundACut(index, words, used, size, c, Cuts(index, words, size, start + 1, Marked(used, c)));
      } else {
        CutsAreApart(index, words, size, start + 1, used);
      }
    }
  }

  /** A label still to be tried is taken, or shut out by a run already used or by a chosen part that comes first. */
  ghost predicate ShutOut(c: Cut, used: seq<bool>, cuts: seq<Cut>) {
    || (exists i :: Holds(c, i) && i < |used| && used[i])
    || TakenOrShutOut(c, cuts)
  }

  ghost predicate TakenOrShutOut(c: Cut, cuts: seq<Cut>) {
    exists k :: 0 <= k < |cuts| && Overlap(cuts[k], c) && ComesFirst(cuts[k], c)
  }

  lemma {:induction false} CutsLeaveNothing(index: Index, words: Words, size: nat, start: nat, used: seq<bool>, c: Cut)
    requires |used| == |words| && Names(index, words, c) && 1 <= c.size
    requires c.size < size || (c.size == size && start <= c.start)
    ensures ShutOut(c, used, Cuts(index, words, size, start, used))
    decreases size, |words| - start
  {
    var cuts := Cuts(index, words, size, start, used);
    if start + size > |words| {
      CutsLeaveNothing(index, words, size - 1, 0, used, c);
    } else {
      var tried := Cut(start, size);
      if Free(used, tried) && Names(index, words, tried) {
        if Overlap(tried, c) {
          assert cuts[0] == tried;
        } else {
          var after := Marked(used, tried);
          CutsLeaveNothing(index, words, size, start + 1, after, c);
          var others := Cuts(index, words, size, start + 1, after);
          if k :| 0 <= k < |others| && Overlap(others[k], c) && ComesFirst(others[k], c) {
            assert cuts[k + 1] == others[k];
          }
        }
      } else if c == tried {
        var i :| tried.start <= i < tried.start + tried.size && used[i];
        assert Holds(c, i);
      } else {
        CutsLeaveNothing(index, words, size, start + 1, used, c);
      }
    }
  }

  /**
   `spans` tiles a phrase: its parts are labels of at most MAX_WORDS words that share no position, the longest
   first and as long ones from left to right, and every label found in the phrase overlaps a part that is longer, or as
   long and no further to the right (or is one).
   */
  lemma TilingIsGreedy(index: Index, words: Words)
    ensures AllFit(index, words, Unused(|words|), MAX_WORDS, Tiling(index, words)) && Apart(Tiling(index, words))
    ensures forall c :: Names(index, words, c) && 1 <= c.size <= MAX_WORDS ==> TakenOrShutOut(c, Tiling(index, words))
  {
    var size := Min(MAX_WORDS, |words|);
    CutsAreApart(index, words, size, 0, Unused(|words|));
    var cuts := Tiling(index, words);
    forall k | 0 <= k < |cuts|
      ensures Fits(index, words, Unused(|words|), MAX_WORDS, cuts[k])
    {
      assert Fits(index, words, Unused(|words|), size, cuts[k]);
    }
    forall c | Names(index, words, c) && 1 <= c.size <= MAX_WORDS
      ensures TakenOrShutOut(c, cuts)
    {
      CutsLeaveNothing(index, words, size, 0, Unused(|words|), c);
    }
  }

  function Sizes(cuts: seq<Cut>): nat {
    if cuts == [] then 0 else cuts[0].size + Sizes(cuts[1..])
  }

  function Count(used: seq<bool>): nat {
    if used == [] then 0 else (if used[0] then 1 else 0) + Count(used[1..])
  }

  lemma {:induction false} CountFlat(used: seq<bool>, value: bool)
    requires forall i :: 0 <= i < |used| ==> used[i] == value
    ensures Count(used) == if value then |used| else 0
  {
    if used != [] {
      CountFlat(used[1..], value);
    }
  }

  lemma {:induction false} CountSet(used: seq<bool>, i: nat)
    requires i < |used| && !used[i]
    ensures Count(used[i := true]) == Count(used) + 1
  {
    if i > 0 {
      CountSet(used[1..], i - 1);
      assert used[i := true][1..] == used[1..][i - 1 := true];
    } else {
      assert used[i := true][1..] == used[1..];
    }
  }

  lemma {:induction false} CountMarked(used: seq<bool>, c: Cut)
    requires c.start + c.size <= |used| && Free(used, c)
    ensures Count(Marked(used, c)) == Count(used) + c.size
    decreases c.size
  {
    if c.size == 0 {
      assert Marked(used, c) == used;
    } else {
      var shorter, last := Cut(c.start, c.size - 1), c.start + c.size - 1;
      CountMarked(used, shorter);
      CountSet(Marked(used, shorter), last);
      assert Marked(used, c) == Marked(used, shorter)[last := true];
    }
  }

  /** `used` once every cut of the run is marked. */
  function AllMarked(index: Index, words: Words, size: nat, start: nat, used: seq<bool>): (r: seq<bool>)
    requires |used| == |words|
    ensures |r| == |words|
    decreases size, |words| - start
  {
    if size == 0 then used
    else if start + size > |words| then AllMarked(index, words, size - 1, 0, used)
    else
      var c := Cut(start, size);
      AllMarked(index, words, size, start + 1, if Free(used, c) && Names(index, words, c) then Marked(used, c) else used)
  }

  lemma {:induction false} AllMarkedCounts(index: Index, words: Words, size: nat, start: nat, used: seq<bool>)
    requires |used| == |words|
    ensures Count(AllMarked(index, words, size, start, used)) == Count(used) + Sizes(Cuts(index, words, size, start, used))
    ensures forall i :: 0 <= i < |words| ==>
      (AllMarked(index, words, size, start, used)[i] <==> used[i] || Covered(Cuts(index, words, size, start, used), i))
    decreases size, |words| - start
  {
    if size == 0 {
    } else if start + size > |words| {
      AllMarkedCounts(index, words, size - 1, 0, used);
    } else {
      var c := Cut(start, size);
      if Free(used, c) && Names(index, words, c) {
        AllMarkedCounts(index, words, size, start + 1, Marked(used, c));
        CountMarked(used, c);
      } else {
        AllMarkedCounts(index, words, size, start + 1, used);
      }
    }
  }

  lemma {:induction false} RestLength(words: Words, used: seq<bool>)
    requires |words| == |used|
    ensures |Rest(words, used)| + Count(used) == |words|
  {
    if words != [] {
      RestLength(words[1..], used[1..]);
    }
  }

  /** The rest is the words no part takes, in order. */
  lemma {:induction false} RestIs(words: Words, used: seq<bool>) returns (places: seq<nat>)
    requires |words| == |used|
    ensures TakenAt(words, places, Rest(words, used)) && forall i :: 0 <= i < |words| ==> (i in places <==> !used[i])
  {
    places := [];
    if words != [] {
      var rest := RestIs(words[1..], used[1..]);
      TakenLater(words, rest, Rest(words[1..], used[1..]));
      TakenFirst(words, rest, Rest(words[1..], used[1..]));
      places := if used[0] then LaterPlaces(rest) else [0] + LaterPlaces(rest);
      forall i | 0 <= i < |words|
        ensures i in places <==> !used[i]
      {
        LaterIn(rest, if i > 0 then i - 1 else 0);
      }
    }
  }

  /** Parts and rest use up the phrase: every word is in one part or in the rest, and none is counted twice. */
  lemma TilingConservesWords(index: Index, words: Words)
    ensures Sizes(Tiling(index, words)) + |Rest(words, UsedBy(|words|, Tiling(index, words)))| == |words|
  {
    var cuts := Tiling(index, words);
    var size := Min(MAX_WORDS, |words|);
    AllMarkedCounts(index, words, size, 0, Unused(|words|));
    assert AllMarked(index, words, size, 0, Unused(|words|)) == UsedBy(|words|, cuts);
    CountFlat(Unused(|words|), false);
    RestLength(words, UsedBy(|words|, cuts));
  }

  /** The loops of `spans`, part of the way: `cuts` are taken, the rest is still to come from `size` and `start`. */
  ghost predicate Scanned(index: Index, words: Words, size: nat, start: nat, used: seq<bool>, cuts: seq<Cut>, parts: seq<Part>) {
    && |used| == |words|
    && Tiling(index, words) == cuts + Cuts(index, words, size, start, used)
    && UsedBy(|words|, Tiling(index, words)) == AllMarked(index, words, size, start, used)
    && (forall k :: 0 <= k < |cuts| ==> Names(index, words, cuts[k]))
    && parts == PartsOf(index, words, cuts)
  }

  lemma OneMorePart(index: Index, words: Words, size: nat, start: nat, used: seq<bool>, cuts: seq<Cut>, parts: seq<Part>)
    requires Scanned(index, words, size, start, used, cuts, parts) && size >= 1 && start + size <= |words|
    ensures var c := Cut(start, size);
      if Free(used, c) && Names(index, words, c)
      then Scanned(index, words, size, start + 1, Marked(used, c), cuts + [c], parts + [PartOf(index, words, c)])
      else Scanned(index, words, size, start + 1, used, cuts, parts)
  {
    var c := Cut(start, size);
    if Free(used, c) && Names(index, words, c) {
      assert cuts + ([c] + Cuts(index, words, size, start + 1, Marked(used, c)))
          == (cuts + [c]) + Cuts(index, words, size, start + 1, Marked(used, c));
    }
  }

  lemma StartScan(index: Index, words: Words)
    ensures Scanned(index, words, Min(MAX_WORDS, |words|), 0, Unused(|words|), [], [])
  {
    AllMarkedCounts(index, words, Min(MAX_WORDS, |words|), 0, Unused(|words|));
    assert [] + Tiling(index, words) == Tiling(index, words);
  }

  /** The scan of one size ends where the next size starts. */
  lemma NextSize(index: Index, words: Words, size: nat, start: nat, used: seq<bool>, cuts: seq<Cut>, parts: seq<Part>)
    requires Scanned(index, words, size, start, used, cuts, parts) && size >= 1 && start + size > |words|
    ensures Scanned(index, words, size - 1, 0, used, cuts, parts)
  {
  }

  lemma ScanEnds(index: Index, words: Words, used: seq<bool>, cuts: seq<Cut>, parts: seq<Part>)
    requires Scanned(index, words, 0, 0, used, cuts, parts)
    ensures AllNames(index, words, Tiling(index, words)) && parts == PartsOf(index, words, Tiling(index, words))
    ensures used == UsedBy(|words|, Tiling(index, words))
  {
    assert cuts + [] == cuts;
  }

  /** One position of the inner loop: the run there is a part when it is free and known. */
  method ReadCut(index: Index, words: Words, used: array<bool>, size: nat, start: nat, ghost cuts0: seq<Cut>, parts0: seq<Part>)
    returns (ghost cuts: seq<Cut>, parts: seq<Part>)
    requires Scanned(index, words, size, start, used[..], cuts0, parts0) && size >= 1 && start + size <= |words|
    modifies used
    ensures Scanned(index, words, size, start + 1, used[..], cuts, parts)
  {
    OneMorePart(index, words, size, start, used[..], cuts0, parts0);
    cuts, parts := cuts0, parts0;
    var run := words[start..start + size];
    if Free(used[..], Cut(start, size)) && run in index.byKey {
      parts := parts + [Part(run, index.byKey[run])];
      cuts := cuts + [Cut(start, size)];
      Mark(used, Cut(start, size));
    }
  }

  /** `spans`: the parts and the rest, with the `used` array the source marks. */
  method Spans(index: Index, words: Words) returns (parts: seq<Part>, rest: Words)
    ensures AllNames(index, words, Tiling(index, words)) && parts == PartsOf(index, words, Tiling(index, words))
    ensures rest == Rest(words, UsedBy(|words|, Tiling(index, words)))
  {
    var used := new bool[|words|](_ => false);
    assert used[..] == Unused(|words|);
    parts := [];
    ghost var cuts := [];
    var size := Min(MAX_WORDS, |words|);
    StartScan(index, words);
    while size >= 1
      invariant 0 <= size <= |words|
      invariant Scanned(index, words, size, 0, used[..], cuts, parts)
    {
      var start := 0;
      while start + size <= |words|
        invariant Scanned(index, words, size, start, used[..], cuts, parts)
        decreases |words| - start
      {
        cuts, parts := ReadCut(index, words, used, size, start, cuts, parts);
        start := start + 1;
      }
      NextSize(index, words, size, start, used[..], cuts, parts);
      size := size - 1;
    }
    ScanEnds(index, words, used[..], cuts, parts);
    rest := Rest(words, used[..]);
  }

  ghost predicate AllNames(index: Index, words: Words, cuts: seq<Cut>) {
    forall k :: 0 <= k < |cuts| ==> Names(index, words, cuts[k])
  }

  /** `used.fill(true, start, start + size)`. */
  method Mark(used: array<bool>, c: Cut)
    requires c.start + c.size <= used.Length
    modifies used
    ensures used[..] == Marked(old(used[..]), c)
  {
    forall i | c.start <= i < c.start + c.size {
      used[i] := true;
    }
  }
}
