/**
How concepts relate (cv/src/lexicon.js): ancestors within some steps of a hierarchy that may hold cycles,
near and shared-theme concepts, and the owner's skills placed at or under what a requirement names.
*/
module Hierarchy {
  import opened Collections
  import opened Lexicon

  function ParentsOf(index: Index, id: string): seq<string> {
    if id in index.byId then index.byId[id].broader else []
  }

  predicate IsUmbrella(index: Index, id: string) {
    id in index.byId && index.byId[id].kind == Umbrella
  }

  predicate IsTool(index: Index, id: string) {
    id in index.byId && index.byId[id].kind == Tool
  }

  predicate KinParent(index: Index, parent: string, id: string) {
    parent in ParentsOf(index, id) && !IsUmbrella(index, parent)
  }

  // ---------------------------------------------------------------- ancestors

  /** `path` climbs from `from` to `to`, one broader concept a step. */
  ghost predicate Climbs(index: Index, from: string, to: string, path: seq<string>) {
    && |path| > 0 && path[0] == from && path[|path| - 1] == to
    && forall k :: 0 <= k < |path| - 1 ==> path[k + 1] in ParentsOf(index, path[k])
  }

  /** Where a climb of exactly `n` steps ends. */
  function EndsAfter(index: Index, id: string, n: nat): set<string> {
    if n == 0 then {id}
    else set c, p | c in EndsAfter(index, id, n - 1) && p in ParentsOf(index, c) :: p
  }

  /** Where a climb of one to `steps` steps ends. */
  function Above(index: Index, id: string, steps: nat): set<string> {
    if steps == 0 then {} else Above(index, id, steps - 1) + EndsAfter(index, id, steps)
  }

  ghost predicate ClimbsIn(index: Index, from: string, to: string, n: nat) {
    exists path :: |path| == n + 1 && Climbs(index, from, to, path)
  }

  lemma ClimbOneMore(index: Index, from: string, c: string, to: string, n: nat)
    requires ClimbsIn(index, from, c, n) && to in ParentsOf(index, c)
    ensures ClimbsIn(index, from, to, n + 1)
  {
    var path :| |path| == n + 1 && Climbs(index, from, c, path);
    var longer := path + [to];
    forall k | 0 <= k < |longer| - 1
      ensures longer[k + 1] in ParentsOf(index, longer[k])
    {
      if k < n {
        assert path[k + 1] in ParentsOf(index, path[k]);
      }
    }
    assert Climbs(index, from, to, longer);
  }

  lemma ClimbOneLess(index: Index, from: string, to: string, n: nat) returns (c: string)
    requires ClimbsIn(index, from, to, n + 1)
    ensures ClimbsIn(index, from, c, n) && to in ParentsOf(index, c)
  {
    var path :| |path| == n + 2 && Climbs(index, from, to, path);
    c := path[n];
    assert path[n + 1] in ParentsOf(index, path[n]);
    assert Climbs(index, from, c, path[..n + 1]);
  }

  lemma {:induction false} EndsAreClimbs(index: Index, id: string, n: nat, to: string)
    ensures to in EndsAfter(index, id, n) <==> ClimbsIn(index, id, to, n)
  {
    if n == 0 {
      if to == id {
        assert Climbs(index, id, to, [id]);
      }
    } else {
      if to in EndsAfter(index, id, n) {
        var c :| c in EndsAfter(index, id, n - 1) && to in ParentsOf(index, c);
        EndsAreClimbs(index, id, n - 1, c);
        ClimbOneMore(index, id, c, to, n - 1);
      }
      if ClimbsIn(index, id, to, n) {
        var c := ClimbOneLess(index, id, to, n - 1);
        EndsAreClimbs(index, id, n - 1, c);
      }
    }
  }

  /** A concept is above another exactly when a climb of one to `steps` broader concepts leads to it. */
  lemma {:induction false} AboveIsReachable(index: Index, id: string, steps: nat, to: string)
    ensures to in Above(index, id, steps) <==> exists path :: 2 <= |path| <= steps + 1 && Climbs(index, id, to, path)
  {
    if steps > 0 {
      AboveIsReachable(index, id, steps - 1, to);
      EndsAreClimbs(index, id, steps, to);
    }
  }

  lemma {:induction false} ParentsOfAbove(index: Index, id: string, steps: nat, c: string, p: string)
    requires c in Above(index, id, steps) && p in ParentsOf(index, c)
    ensures p in Above(index, id, steps + 1)
  {
    if c in EndsAfter(index, id, steps) {
      assert p in EndsAfter(index, id, steps + 1);
    } else {
      ParentsOfAbove(index, id, steps - 1, c, p);
    }
  }

  /** `ancestors`: level by level, a concept already seen not climbed again, so that a cycle ends. */
  method Ancestors(index: Index, id: string, steps: nat) returns (seen: set<string>)
    ensures seen == Above(index, id, steps)
  {
    var level := [id];
    seen := {};
    for step := 0 to steps
      invariant seen == Above(index, id, step) && LevelAt(index, id, step, level)
    {
      ghost var before := level;
      level := Keep(ParentsOfAll(index, level), parent => parent !in seen);
      NextLevel(index, id, step, before, level, seen);
      seen := seen + set parent | parent in level;
    }
  }

  function ParentsOfAll(index: Index, level: seq<string>): (r: seq<string>)
    ensures forall p :: p in r <==> exists c :: c in level && p in ParentsOf(index, c)
  {
    if level == [] then [] else ParentsOf(index, level[0]) + ParentsOfAll(index, level[1..])
  }

  /** What the loop of `ancestors` keeps: the level holds where `step` steps end, unless climbed from already. */
  ghost predicate LevelAt(index: Index, id: string, step: nat, level: seq<string>) {
    && (forall c :: c in level ==> c in EndsAfter(index, id, step))
    && (forall c :: c in EndsAfter(index, id, step) ==> c in level || (step > 0 && c in Above(index, id, step - 1)))
  }

  lemma NextLevel(index: Index, id: string, step: nat, level: seq<string>, next: seq<string>, seen: set<string>)
    requires seen == Above(index, id, step) && LevelAt(index, id, step, level)
    requires next == Keep(ParentsOfAll(index, level), parent => parent !in seen)
    ensures LevelAt(index, id, step + 1, next)
    ensures seen + (set parent | parent in next) == Above(index, id, step + 1)
  {
    forall p | p in EndsAfter(index, id, step + 1)
      ensures p in next || p in seen
    {
      EndsFromLevel(index, id, step, level, p);
    }
    forall p | p in next
      ensures p in EndsAfter(index, id, step + 1)
    {
      var c :| c in level && p in ParentsOf(index, c);
    }
  }

  lemma EndsFromLevel(index: Index, id: string, step: nat, level: seq<string>, p: string)
    requires LevelAt(index, id, step, level) && p in EndsAfter(index, id, step + 1)
    ensures p in ParentsOfAll(index, level) || p in Above(index, id, step)
  {
    var c :| c in EndsAfter(index, id, step) && p in ParentsOf(index, c);
    if c !in level {
      ParentsOfAbove(index, id, step - 1, c, p);
    }
  }

  // ---------------------------------------------------------------- relations

  /** A skill and the concepts it is placed on. */
  datatype Placing = Placing(skill: string, owned: seq<string>)

  /** Parent, child or sibling. */
  predicate NearTo(index: Index, a: string, b: string) {
    b in ParentsOf(index, a) || a in ParentsOf(index, b) || exists p :: p in ParentsOf(index, a) && KinParent(index, p, a) && KinParent(index, p, b)
  }

  predicate ShareTheme(index: Index, a: string, b: string) {
    exists p :: p in Above(index, a, 2) && p in Above(index, b, 2) && !IsUmbrella(index, p)
  }

  /** The rank of two concepts' relation: 0 the same, 1 near, 2 a shared theme. */
  function RelationOf(index: Index, a: string, b: string): Option<nat> {
    if a == b then Some(0) else if NearTo(index, a, b) then Some(1) else if ShareTheme(index, a, b) then Some(2) else None
  }

  lemma RelationIsSymmetric(index: Index, a: string, b: string)
    ensures RelationOf(index, a, b) == RelationOf(index, b, a)
  {
  }

  lemma OneStep(index: Index, from: string, to: string)
    ensures ClimbsIn(index, from, to, 1) <==> to in ParentsOf(index, from)
  {
    EndsAreClimbs(index, from, 1, to);
    assert EndsAfter(index, from, 0) == {from};
  }

  ghost predicate OfKind(index: Index, id: string, kind: ConceptKind) {
    id in index.byId && index.byId[id].kind == kind
  }

  /** A concept, no umbrella, that both climb to in one step. */
  ghost predicate Meet(index: Index, a: string, b: string, p: string) {
    !OfKind(index, p, Umbrella) && ClimbsIn(index, a, p, 1) && ClimbsIn(index, b, p, 1)
  }

  /** One step above or below, or both one step under the same concept, no umbrella. */
  ghost predicate OneStepApart(index: Index, a: string, b: string) {
    ClimbsIn(index, a, b, 1) || ClimbsIn(index, b, a, 1) || exists p :: Meet(index, a, b, p)
  }

  lemma MeetIsKin(index: Index, a: string, b: string, p: string)
    ensures Meet(index, a, b, p) <==> KinParent(index, p, a) && KinParent(index, p, b)
  {
    OneStep(index, a, p);
    OneStep(index, b, p);
  }

  lemma NearIsOneStep(index: Index, a: string, b: string)
    ensures NearTo(index, a, b) <==> OneStepApart(index, a, b)
  {
    OneStep(index, a, b);
    OneStep(index, b, a);
    forall p
      ensures Meet(index, a, b, p) <==> KinParent(index, p, a) && KinParent(index, p, b)
    {
      MeetIsKin(index, a, b, p);
    }
  }

  /** A concept reached in one step or two. */
  ghost predicate Reaches(index: Index, from: string, to: string) {
    exists path :: 2 <= |path| <= 3 && Climbs(index, from, to, path)
  }

  /** Both reach, in one step or two, the same concept, no umbrella. */
  ghost predicate ReachTogether(index: Index, a: string, b: string) {
    exists p :: !OfKind(index, p, Umbrella) && Reaches(index, a, p) && Reaches(index, b, p)
  }

  lemma ThemeIsReached(index: Index, a: string, b: string)
    ensures ShareTheme(index, a, b) <==> ReachTogether(index, a, b)
  {
    forall p
      ensures p in Above(index, a, 2) <==> Reaches(index, a, p)
      ensures p in Above(index, b, 2) <==> Reaches(index, b, p)
    {
      AboveIsReachable(index, a, 2, p);
      AboveIsReachable(index, b, 2, p);
    }
  }

  /** The relations as climbs: the same concept, then a step apart, then a concept reached from both. */
  lemma RelationsAreClimbs(index: Index, a: string, b: string)
    ensures RelationOf(index, a, b) == Some(0) <==> a == b
    ensures RelationOf(index, a, b) == Some(1) <==> a != b && OneStepApart(index, a, b)
    ensures RelationOf(index, a, b) == Some(2) <==> a != b && !OneStepApart(index, a, b) && ReachTogether(index, a, b)
    ensures RelationOf(index, a, b) == None <==> a != b && !OneStepApart(index, a, b) && !ReachTogether(index, a, b)
  {
    NearIsOneStep(index, a, b);
    ThemeIsReached(index, a, b);
  }

  datatype Related = Related(skill: string, rank: nat, concept: string)

  /** `related` is a relation of `owned` to `concepts`, and none is closer. */
  ghost predicate IsClosest(index: Index, concepts: seq<string>, owned: seq<string>, related: Related) {
    && (exists mine :: mine in owned && related.concept in concepts && RelationOf(index, related.concept, mine) == Some(related.rank))
    && forall c, mine :: c in concepts && mine in owned ==> NotCloser(index, c, mine, related.rank)
  }

  ghost predicate NotCloser(index: Index, c: string, mine: string, rank: nat) {
    RelationOf(index, c, mine).Some? ==> rank <= RelationOf(index, c, mine).value
  }

  ghost predicate Unrelated(index: Index, concepts: seq<string>, owned: seq<string>) {
    forall c, mine :: c in concepts && mine in owned ==> RelationOf(index, c, mine).None?
  }

  /** The best relation so far, over the pairs a loop has read. */
  ghost predicate BestSoFar(index: Index, concepts: seq<string>, owned: seq<string>, skill: string, best: Option<Related>) {
    match best
    case None => Unrelated(index, concepts, owned)
    case Some(related) => related.skill == skill && IsClosest(index, concepts, owned, related)
  }

  lemma JoinBest(index: Index, concepts: seq<string>, more: seq<string>, owned: seq<string>, skill: string,
                 best: Option<Related>, other: Option<Related>, kept: Option<Related>)
    requires BestSoFar(index, concepts, owned, skill, best) && BestSoFar(index, more, owned, skill, other)
    requires kept == if other.Some? && (best.None? || other.value.rank < best.value.rank) then other else best
    ensures BestSoFar(index, concepts + more, owned, skill, kept)
  {
    if kept.Some? {
      assert IsClosest(index, if kept == other then more else concepts, owned, kept.value) || kept == best;
      forall c, mine | c in concepts + more && mine in owned
        ensures NotCloser(index, c, mine, kept.value.rank)
      {
        if c in concepts {
          assert best.Some? ==> NotCloser(index, c, mine, best.value.rank);
        } else {
          assert other.Some? ==> NotCloser(index, c, mine, other.value.rank);
        }
      }
    }
  }

  /** A skill's closest relation to one concept. */
  method ClosestOwned(index: Index, concept: string, placing: Placing) returns (best: Option<Related>)
    ensures BestSoFar(index, [concept], placing.owned, placing.skill, best)
  {
    best := None;
    for i := 0 to |placing.owned|
      invariant BestSoFar(index, [concept], placing.owned[..i], placing.skill, best)
    {
      var mine := placing.owned[i];
      var rank := RelationOf(index, concept, mine);
      assert placing.owned[..i + 1] == placing.owned[..i] + [mine];
      assert best.Some? ==> forall other :: other in placing.owned[..i] ==> NotCloser(index, concept, other, best.value.rank);
      if rank.Some? && (best.None? || rank.value < best.value.rank) {
        best := Some(Related(placing.skill, rank.value, concept));
      }
    }
    assert placing.owned[..|placing.owned|] == placing.owned;
  }

  /** The inner loops of `relate`: a skill's closest relation to the concepts a requirement names. */
  method Closest(index: Index, concepts: seq<string>, placing: Placing) returns (best: Option<Related>)
    ensures BestSoFar(index, concepts, placing.owned, placing.skill, best)
  {
    best := None;
    for i := 0 to |concepts|
      invariant BestSoFar(index, concepts[..i], placing.owned, placing.skill, best)
    {
      var other := ClosestOwned(index, concepts[i], placing);
      ghost var before := best;
      if other.Some? && (best.None? || other.value.rank < best.value.rank) {
        best := other;
      }
      JoinBest(index, concepts[..i], [concepts[i]], placing.owned, placing.skill, before, other, best);
      assert concepts[..i + 1] == concepts[..i] + [concepts[i]];
    }
    assert concepts[..|concepts|] == concepts;
  }

  /** Skills `found` are the ones related at `top`, each by its closest relation; no skill is related closer. */
  ghost predicate AreTheClosest(index: Index, concepts: seq<string>, placed: seq<Placing>, found: seq<Related>) {
    && (forall r :: r in found ==> OwnRelation(index, concepts, placed, r))
    && (forall p :: p in placed && !Unrelated(index, concepts, p.owned) ==>
          exists r :: r in found && BestFor(index, concepts, p, r))
    && (forall r, s :: r in found && s in found ==> r.rank == s.rank)
  }

  /** `r` is skill `p`'s own relation, at its closest, or is closer than anything `p` is related by. */
  ghost predicate BestFor(index: Index, concepts: seq<string>, p: Placing, r: Related) {
    || (r.skill == p.skill && IsClosest(index, concepts, p.owned, r))
    || (forall c, mine :: c in concepts && mine in p.owned ==> NotCloser(index, c, mine, r.rank + 1))
  }

  function TopRank(relations: seq<Related>): (top: nat)
    requires relations != []
    ensures exists r :: r in relations && r.rank == top
    ensures forall r :: r in relations ==> top <= r.rank
  {
    if |relations| == 1 then relations[0].rank
    else
      var rest := TopRank(relations[1..]);
      if relations[0].rank < rest then relations[0].rank else rest
  }

  /** `relate`: each skill by its closest relation, and only those of the best rank. */
  method Relate(index: Index, concepts: seq<string>, placed: seq<Placing>) returns (found: seq<Related>)
    ensures AreTheClosest(index, concepts, placed, found)
  {
    var relations := Relations(index, concepts, placed);
    if relations == [] {
      forall p | p in placed
        ensures Unrelated(index, concepts, p.owned)
      {
        var k :| 0 <= k < |placed| && placed[k] == p;
        assert Recorded(index, concepts, placed[k], relations);
      }
      return [];
    }
    var top := TopRank(relations);
    found := Keep(relations, (r: Related) => r.rank == top);
    forall p | p in placed && !Unrelated(index, concepts, p.owned)
      ensures exists r :: r in found && BestFor(index, concepts, p, r)
    {
      var k :| 0 <= k < |placed| && placed[k] == p;
      assert Recorded(index, concepts, placed[k], relations);
      OneIsBest(index, concepts, p, relations, top, found);
    }
  }

  ghost predicate OwnRelation(index: Index, concepts: seq<string>, placed: seq<Placing>, r: Related) {
    exists p :: p in placed && p.skill == r.skill && IsClosest(index, concepts, p.owned, r)
  }

  /** What the outer loop of `relate` keeps: every relation is some skill's closest, and every skill read is recorded. */
  ghost predicate RecordedUpTo(index: Index, concepts: seq<string>, placed: seq<Placing>, count: nat, relations: seq<Related>) {
    && (forall r :: r in relations ==> OwnRelation(index, concepts, placed, r))
    && (forall k :: 0 <= k < count && k < |placed| ==> Recorded(index, concepts, placed[k], relations))
  }

  lemma RecordedNow(index: Index, concepts: seq<string>, p: Placing, relations: seq<Related>, best: Option<Related>)
    requires BestSoFar(index, concepts, p.owned, p.skill, best)
    ensures Recorded(index, concepts, p, if best.Some? then relations + [best.value] else relations)
  {
    if best.Some? {
      assert best.value in relations + [best.value];
    }
  }

  lemma OwnOneMore(index: Index, concepts: seq<string>, placed: seq<Placing>, i: nat, relations: seq<Related>, best: Related)
    requires i < |placed| && BestSoFar(index, concepts, placed[i].owned, placed[i].skill, Some(best))
    requires forall r :: r in relations ==> OwnRelation(index, concepts, placed, r)
    ensures forall r :: r in relations + [best] ==> OwnRelation(index, concepts, placed, r)
  {
    assert placed[i] in placed;
    assert OwnRelation(index, concepts, placed, best);
  }

  lemma RecordOne(index: Index, concepts: seq<string>, placed: seq<Placing>, i: nat, relations: seq<Related>, best: Option<Related>)
    requires i < |placed| && RecordedUpTo(index, concepts, placed, i, relations)
    requires BestSoFar(index, concepts, placed[i].owned, placed[i].skill, best)
    ensures RecordedUpTo(index, concepts, placed, i + 1, if best.Some? then relations + [best.value] else relations)
  {
    RecordedNow(index, concepts, placed[i], relations, best);
    if best.Some? {
      OwnOneMore(index, concepts, placed, i, relations, best.value);
      forall k | 0 <= k < i
        ensures Recorded(index, concepts, placed[k], relations + [best.value])
      {
        StillRecorded(index, concepts, placed[k], relations, best.value);
      }
    }
  }

  /** The outer loop of `relate`: one relation for each skill that has one. */
  method Relations(index: Index, concepts: seq<string>, placed: seq<Placing>) returns (relations: seq<Related>)
    ensures RecordedUpTo(index, concepts, placed, |placed|, relations)
  {
    relations := [];
    for i := 0 to |placed|
      invariant RecordedUpTo(index, concepts, placed, i, relations)
    {
      var best := Closest(index, concepts, placed[i]);
      RecordOne(index, concepts, placed, i, relations, best);
      if best.Some? {
        relations := relations + [best.value];
      }
    }
  }

  lemma StillRecorded(index: Index, concepts: seq<string>, p: Placing, relations: seq<Related>, more: Related)
    requires Recorded(index, concepts, p, relations)
    ensures Recorded(index, concepts, p, relations + [more])
  {
    if r :| r in relations && r.skill == p.skill && IsClosest(index, concepts, p.owned, r) {
      assert r in relations + [more];
    }
  }

  ghost predicate Recorded(index: Index, concepts: seq<string>, p: Placing, relations: seq<Related>) {
    Unrelated(index, concepts, p.owned) || exists r :: r in relations && r.skill == p.skill && IsClosest(index, concepts, p.owned, r)
  }

  lemma OneIsBest(index: Index, concepts: seq<string>, p: Placing, relations: seq<Related>, top: nat, found: seq<Related>)
    requires relations != [] && top == TopRank(relations) && found == Keep(relations, (r: Related) => r.rank == top)
    requires Recorded(index, concepts, p, relations) && !Unrelated(index, concepts, p.owned)
    ensures exists r :: r in found && BestFor(index, concepts, p, r)
  {
    var own :| own in relations && own.skill == p.skill && IsClosest(index, concepts, p.owned, own);
    if own.rank == top {
      assert own in found && BestFor(index, concepts, p, own);
    } else {
      var first :| first in relations && first.rank == top;
      forall c, mine | c in concepts && mine in p.owned
        ensures NotCloser(index, c, mine, first.rank + 1)
      {
        assert NotCloser(index, c, mine, own.rank);
      }
      assert first in found && BestFor(index, concepts, p, first);
    }
  }

  // ---------------------------------------------------------------- the owner's skills at or under a concept

  predicate At(index: Index, owned: seq<string>, wanted: seq<string>) {
    exists mine :: mine in owned && (mine in wanted || exists a :: a in Above(index, mine, 2) && a in wanted)
  }

  /** The skills placed on one of `concepts` or on one of their members. */
  function Holders(index: Index, concepts: seq<string>, placed: seq<Placing>): (r: seq<string>)
    ensures forall id :: id in r ==> exists p :: p in placed && p.skill == id && At(index, p.owned, concepts)
    ensures forall p :: p in placed && At(index, p.owned, concepts) ==> p.skill in r
  {
    if placed == [] then []
    else (if At(index, placed[0].owned, concepts) then [placed[0].skill] else []) + Holders(index, concepts, placed[1..])
  }

  /** A skill holds a requirement exactly when one of its concepts climbs to a named one in two steps or fewer. */
  lemma HoldersArePlacedWithinTwoSteps(index: Index, concepts: seq<string>, placed: seq<Placing>, id: string)
    ensures id in Holders(index, concepts, placed) <==>
      exists p, mine, a, path :: p in placed && p.skill == id && mine in p.owned && a in concepts
        && |path| <= 3 && Climbs(index, mine, a, path)
  {
    if id in Holders(index, concepts, placed) {
      var p :| p in placed && p.skill == id && At(index, p.owned, concepts);
      var mine :| mine in p.owned && (mine in concepts || exists a :: a in Above(index, mine, 2) && a in concepts);
      if mine in concepts {
        assert Climbs(index, mine, mine, [mine]);
      } else {
        var a :| a in Above(index, mine, 2) && a in concepts;
        AboveIsReachable(index, mine, 2, a);
      }
    }
    if p, mine, a, path :| (p in placed && p.skill == id && mine in p.owned && a in concepts
        && |path| <= 3 && Climbs(index, mine, a, path)) {
      AboveIsReachable(index, mine, 2, a);
      assert At(index, p.owned, concepts);
    }
  }

  predicate SameFamily(index: Index, asked: string, mine: string) {
    asked != mine && exists p :: p in ParentsOf(index, asked) && KinParent(index, p, asked) && KinParent(index, p, mine)
  }

  /** Two tools of one family: different, and both one step under the same concept, no umbrella. */
  lemma FamilyMeets(index: Index, asked: string, mine: string)
    ensures SameFamily(index, asked, mine) <==> asked != mine && exists p :: Meet(index, asked, mine, p)
  {
    forall p
      ensures Meet(index, asked, mine, p) <==> KinParent(index, p, asked) && KinParent(index, p, mine)
    {
      MeetIsKin(index, asked, mine, p);
    }
  }

  predicate HasSibling(index: Index, concepts: seq<string>, owned: seq<string>) {
    exists mine, asked :: mine in owned && asked in concepts && IsTool(index, mine) && IsTool(index, asked) && SameFamily(index, asked, mine)
  }

  /** A tool of the skill's and a tool asked, different and one step under the same concept, no umbrella. */
  ghost predicate IsKinOf(index: Index, mine: string, asked: string) {
    OfKind(index, mine, Tool) && OfKind(index, asked, Tool) && mine != asked && exists p :: Meet(index, asked, mine, p)
  }

  /** Siblings are exactly the skills with such a tool, for some tool asked. */
  lemma SiblingsAreKin(index: Index, concepts: seq<string>, placed: seq<Placing>, id: string)
    ensures id in Siblings(index, concepts, placed) <==>
      exists p, mine, asked :: p in placed && p.skill == id && mine in p.owned && asked in concepts && IsKinOf(index, mine, asked)
  {
    forall p: Placing
      ensures HasSibling(index, concepts, p.owned) <==> exists mine, asked :: mine in p.owned && asked in concepts && IsKinOf(index, mine, asked)
    {
      KinOfOwned(index, concepts, p.owned);
    }
  }

  lemma KinOfOwned(index: Index, concepts: seq<string>, owned: seq<string>)
    ensures HasSibling(index, concepts, owned) <==> exists mine, asked :: mine in owned && asked in concepts && IsKinOf(index, mine, asked)
  {
    forall mine, asked
      ensures IsTool(index, mine) && IsTool(index, asked) && SameFamily(index, asked, mine) <==> IsKinOf(index, mine, asked)
    {
      FamilyMeets(index, asked, mine);
    }
  }

  /** The skills that are tools of the same family as a tool asked. */
  function Siblings(index: Index, concepts: seq<string>, placed: seq<Placing>): (r: seq<string>)
    ensures forall id :: id in r ==> exists p :: p in placed && p.skill == id && HasSibling(index, concepts, p.owned)
    ensures forall p :: p in placed && HasSibling(index, concepts, p.owned) ==> p.skill in r
  {
    if placed == [] then []
    else (if HasSibling(index, concepts, placed[0].owned) then [placed[0].skill] else []) + Siblings(index, concepts, placed[1..])
  }

  /** Skills placed on a named concept that one of the picked skills is placed on. */
  predicate SharesAPickedConcept(owned: seq<string>, named: seq<string>, placed: seq<Placing>, picked: seq<string>) {
    exists c, p :: c in owned && c in named && p in placed && p.skill in picked && c in p.owned
  }

  /** `alike`, `all` being every placing and `rest` those still to read. */
  function Alike(named: seq<string>, all: seq<Placing>, picked: seq<string>, rest: seq<Placing>): (r: seq<string>)
    ensures forall id :: id in r ==> exists p :: p in rest && p.skill == id && SharesAPickedConcept(p.owned, named, all, picked)
    ensures forall p :: p in rest && SharesAPickedConcept(p.owned, named, all, picked) ==> p.skill in r
  {
    if rest == [] then []
    else (if SharesAPickedConcept(rest[0].owned, named, all, picked) then [rest[0].skill] else []) + Alike(named, all, picked, rest[1..])
  }
}
