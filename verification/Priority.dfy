/**
What the skills column shows, and in which order (cv/src/normalize.js): the groups in the order they were first filled,
the skills in theirs, those that meet a requirement first, and the cut that leaves the last ones out.
*/
module Priority {
  import opened Collections
  import opened Rows
  import opened Relocation
  import opened Column

  // ---------------------------------------------------------------- a list cut by priority

  /** The first places of the elements that pass, or of those that do not. */
  ghost predicate Leading(xs: seq<string>, first: string -> bool, yes: bool, places: seq<nat>) {
    && Increasing(places, |xs|)
    && (forall i :: i in places ==> first(xs[i]) == yes)
    && forall i, p :: 0 <= i < |xs| && first(xs[i]) == yes && i !in places && p in places ==> p < i
  }

  ghost predicate AllOf(xs: seq<string>, first: string -> bool, yes: bool, places: seq<nat>) {
    forall i :: 0 <= i < |xs| && first(xs[i]) == yes ==> i in places
  }

  /** The elements at `a`, which pass, then those at `b`, which do not. */
  ghost predicate CutAt(xs: seq<string>, first: string -> bool, most: nat, r: seq<string>, a: seq<nat>, b: seq<nat>) {
    && |r| == |a| + |b| <= most
    && TakenAt(xs, a, r[..|a|]) && TakenAt(xs, b, r[|a|..])
    && Leading(xs, first, true, a) && Leading(xs, first, false, b)
    && (b != [] || |r| < most ==> AllOf(xs, first, true, a))
    && (|r| < most ==> AllOf(xs, first, false, b))
  }

  /** Those that pass first, then the others, each in their order; the last ones left out, and only when it is full. */
  ghost predicate IsCut(xs: seq<string>, first: string -> bool, most: nat, r: seq<string>) {
    exists a, b :: CutAt(xs, first, most, r, a, b)
  }

  /** The places of the elements that pass, and of those that do not. */
  ghost predicate Split(xs: seq<string>, first: string -> bool, a: seq<nat>, b: seq<nat>) {
    && TakenAt(xs, a, Keep(xs, first)) && TakenAt(xs, b, Others(xs, first))
    && Leading(xs, first, true, a) && AllOf(xs, first, true, a)
    && Leading(xs, first, false, b) && AllOf(xs, first, false, b)
  }

  lemma KeptPlaces(xs: seq<string>, first: string -> bool) returns (a: seq<nat>, b: seq<nat>)
    ensures Split(xs, first, a, b)
  {
    a := KeepsInOrder(xs, first);
    b := KeepsInOrder(xs, x => !first(x));
  }

  lemma LeadingPart(xs: seq<string>, first: string -> bool, yes: bool, places: seq<nat>, n: nat)
    requires Leading(xs, first, yes, places) && AllOf(xs, first, yes, places) && n <= |places|
    ensures Leading(xs, first, yes, places[..n])
  {
    var part := places[..n];
    forall i, p | 0 <= i < |xs| && first(xs[i]) == yes && i !in part && p in part
      ensures p < i
    {
      var k :| 0 <= k < |places| && places[k] == i;
      InPrefix(places, k, n);
      var j :| 0 <= j < n && part[j] == p;
      assert places[j] < places[k];
    }
  }

  lemma TakenPart(xs: seq<string>, places: seq<nat>, r: seq<string>, n: nat)
    requires TakenAt(xs, places, r) && n <= |places|
    ensures TakenAt(xs, places[..n], r[..n])
  {
  }

  lemma WholeIsCut(xs: seq<string>, first: string -> bool, most: nat, a: seq<nat>, b: seq<nat>)
    requires Split(xs, first, a, b) && |a| + |b| <= most
    ensures CutAt(xs, first, most, Prioritised(xs, first), a, b)
  {
    var r := Prioritised(xs, first);
    assert r[..|a|] == Keep(xs, first) && r[|a|..] == Others(xs, first);
  }

  lemma PassingAreCut(xs: seq<string>, first: string -> bool, most: nat, a: seq<nat>, b: seq<nat>)
    requires Split(xs, first, a, b) && most <= |a|
    ensures CutAt(xs, first, most, Prioritised(xs, first)[..most], a[..most], b[..0])
  {
    var r := Prioritised(xs, first)[..most];
    LeadingPart(xs, first, true, a, most);
    LeadingPart(xs, first, false, b, 0);
    TakenPart(xs, a, Keep(xs, first), most);
    TakenPart(xs, b, Others(xs, first), 0);
    assert r == Keep(xs, first)[..most] && r[most..] == Others(xs, first)[..0] && r[..most] == r;
  }

  lemma CutInTwo(passing: seq<string>, others: seq<string>, n: nat)
    requires n <= |others|
    ensures (passing + others)[..|passing| + n][..|passing|] == passing
    ensures (passing + others)[..|passing| + n][|passing|..] == others[..n]
  {
  }

  lemma OthersAreCut(xs: seq<string>, first: string -> bool, most: nat, a: seq<nat>, b: seq<nat>)
    requires Split(xs, first, a, b) && |a| < most <= |a| + |b|
    ensures CutAt(xs, first, most, Prioritised(xs, first)[..most], a, b[..most - |a|])
  {
    var n := most - |a|;
    LeadingPart(xs, first, false, b, n);
    TakenPart(xs, b, Others(xs, first), n);
    CutInTwo(Keep(xs, first), Others(xs, first), n);
  }

  /** The prioritised list, cut or whole. */
  lemma CutIs(xs: seq<string>, first: string -> bool, most: nat)
    ensures IsCut(xs, first, most, Cut(xs, first, most))
  {
    var a, b := KeptPlaces(xs, first);
    if |a| + |b| <= most {
      WholeIsCut(xs, first, most, a, b);
    } else if most <= |a| {
      PassingAreCut(xs, first, most, a, b);
    } else {
      OthersAreCut(xs, first, most, a, b);
    }
  }

  lemma PrioritisedIs(xs: seq<string>, first: string -> bool)
    ensures IsCut(xs, first, |xs|, Prioritised(xs, first))
  {
    var a, b := KeptPlaces(xs, first);
    PrioritisedLength(xs, first);
    WholeIsCut(xs, first, |xs|, a, b);
  }

  lemma {:induction false} PrioritisedLength(xs: seq<string>, first: string -> bool)
    ensures |Prioritised(xs, first)| == |xs|
  {
    if xs != [] {
      PrioritisedLength(xs[1..], first);
      OthersUnfold(xs, first);
    }
  }

  lemma OthersUnfold(xs: seq<string>, first: string -> bool)
    requires xs != []
    ensures Others(xs, first) == (if first(xs[0]) then [] else [xs[0]]) + Others(xs[1..], first)
  {
  }

  // ---------------------------------------------------------------- the groups and their skills, in order

  function InGroup(shelf: Shelf, group: string): string -> bool {
    (id: string) => id in shelf.groupOf && shelf.groupOf[id] == group
  }

  /** The group of each known skill, in order. */
  function GroupsNamed(shelf: Shelf, ids: seq<string>): seq<string> {
    if ids == [] then []
    else
      var last := ids[|ids| - 1];
      GroupsNamed(shelf, ids[..|ids| - 1]) + if last in shelf.groupOf then [shelf.groupOf[last]] else []
  }

  /** A group's own skills, each once, in the order of the list. */
  function SkillsOf(shelf: Shelf, ids: seq<string>, group: string): seq<string> {
    Unique(Keep(ids, InGroup(shelf, group)))
  }

  lemma OneOwned(shelf: Shelf, mentions: seq<Mention>, id: string, group: string)
    ensures ItemsUnder(mentions + OwnGroup(shelf, id), group) == ItemsUnder(mentions, group) + if InGroup(shelf, group)(id) then [id] else []
    ensures Owners(mentions + OwnGroup(shelf, id)) == Owners(mentions) + if id in shelf.groupOf then [shelf.groupOf[id]] else []
  {
    if id in shelf.groupOf {
      ItemsAfterOne(mentions, Mention(shelf.groupOf[id], Some(id)), group);
    } else {
      assert mentions + [] == mentions;
    }
  }

  lemma OneOfGroup(shelf: Shelf, ids: seq<string>, id: string, group: string)
    ensures Keep(ids + [id], InGroup(shelf, group)) == Keep(ids, InGroup(shelf, group)) + if InGroup(shelf, group)(id) then [id] else []
  {
    KeepSplit(ids, [id], InGroup(shelf, group));
  }

  lemma OwnedUnfolds(shelf: Shelf, ids: seq<string>, id: string)
    ensures Owned(shelf, ids + [id]) == Owned(shelf, ids) + OwnGroup(shelf, id)
    ensures GroupsNamed(shelf, ids + [id]) == GroupsNamed(shelf, ids) + if id in shelf.groupOf then [shelf.groupOf[id]] else []
  {
    assert (ids + [id])[..|ids|] == ids;
  }

  lemma {:induction false} OwnedInOrder(shelf: Shelf, ids: seq<string>, group: string)
    ensures ItemsUnder(Owned(shelf, ids), group) == Keep(ids, InGroup(shelf, group))
    ensures Owners(Owned(shelf, ids)) == GroupsNamed(shelf, ids)
  {
    if ids != [] {
      var before, id := ids[..|ids| - 1], ids[|ids| - 1];
      assert before + [id] == ids;
      OwnedInOrder(shelf, before, group);
      OwnedUnfolds(shelf, before, id);
      OneOwned(shelf, Owned(shelf, before), id, group);
      OneOfGroup(shelf, before, id, group);
    }
  }

  function AllSkills(shelf: Shelf, choices: seq<Choice>, rows: seq<Row>): seq<string> {
    Chosen(choices) + Joining(shelf, rows)
  }

  lemma GroupsInOrder(shelf: Shelf, choices: seq<Choice>, rows: seq<Row>, group: string)
    ensures var groups, ids := Groups(shelf, choices, rows), AllSkills(shelf, choices, rows);
      && groups.order == Unique(GroupsNamed(shelf, ids))
      && (group in groups.at <==> group in GroupsNamed(shelf, ids))
      && (group in groups.at ==> groups.at[group] == SkillsOf(shelf, ids, group))
  {
    var ids := AllSkills(shelf, choices, rows);
    PlacedKeepsOrder(Owned(shelf, ids));
    OwnedInOrder(shelf, ids, group);
  }

  /** The skills at these places: those known, not blocked, and of a group that shows. */
  ghost predicate JoinersAt(shelf: Shelf, ids: seq<string>, places: seq<nat>, joiners: seq<string>) {
    && TakenAt(ids, places, joiners)
    && forall i :: 0 <= i < |ids| ==> (i in places <==> ids[i] in shelf.groupOf && ids[i] !in shelf.out && shelf.groupOf[ids[i]] !in shelf.hidden)
  }

  function Joins(shelf: Shelf): string -> bool {
    (id: string) => MayJoin(shelf, id)
  }

  lemma {:induction false} JoinersAreKept(shelf: Shelf, ids: seq<string>)
    ensures Joiners(shelf, ids) == Keep(ids, Joins(shelf))
  {
    if ids != [] {
      var before, id := ids[..|ids| - 1], ids[|ids| - 1];
      JoinersAreKept(shelf, before);
      KeepSplit(before, [id], Joins(shelf));
      assert before + [id] == ids;
    }
  }

  /** The met skills that join: of the rows that are not a no, in the rows' order, those that may show. */
  lemma JoiningIs(shelf: Shelf, ids: seq<string>) returns (places: seq<nat>)
    ensures JoinersAt(shelf, ids, places, Joiners(shelf, ids))
  {
    JoinersAreKept(shelf, ids);
    places := KeepsInOrder(ids, Joins(shelf));
    forall i | 0 <= i < |ids|
      ensures i in places <==> ids[i] in shelf.groupOf && ids[i] !in shelf.out && shelf.groupOf[ids[i]] !in shelf.hidden
    {
      assert i in places <==> Joins(shelf)(ids[i]);
    }
  }

  ghost predicate MeetsARow(rows: seq<Row>, skill: string) {
    exists row :: row in rows && row.match_ != No && skill in row.skills
  }

  lemma {:induction false} MetSkillsMeet(rows: seq<Row>, skill: string)
    ensures skill in MetSkills(rows) <==> MeetsARow(rows, skill)
  {
    if rows != [] {
      var n := |rows| - 1;
      MetSkillsMeet(rows[..n], skill);
      assert rows == rows[..n] + [rows[n]];
    }
  }

  // ---------------------------------------------------------------- the column

  ghost function Meeting(rows: seq<Row>): string -> bool {
    (skill: string) => MeetsARow(rows, skill)
  }

  /** A group that holds a skill meeting a requirement. */
  ghost predicate HasAMetSkill(shelf: Shelf, ids: seq<string>, rows: seq<Row>, group: string) {
    exists id :: id in ids && InGroup(shelf, group)(id) && MeetsARow(rows, id)
  }

  ghost function HoldingMet(shelf: Shelf, ids: seq<string>, rows: seq<Row>): string -> bool {
    (group: string) => HasAMetSkill(shelf, ids, rows, group)
  }

  function Visible(shelf: Shelf): string -> bool {
    (group: string) => group !in shelf.hidden
  }

  /** The groups of these places: those that are shown, in order. */
  ghost predicate ShownAt(order: seq<string>, shown: string -> bool, places: seq<nat>, column: seq<Choice>) {
    && Increasing(places, |order|) && |places| == |column|
    && (forall i :: 0 <= i < |order| ==> (i in places <==> shown(order[i])))
    && forall k :: 0 <= k < |column| ==> column[k].id == order[places[k]]
  }

  /** The groups shown: all the hidden ones, and the visible ones left by a cut to six, those with a met skill first. */
  ghost predicate GroupsShown(shelf: Shelf, ids: seq<string>, rows: seq<Row>, kept: seq<string>, column: seq<Choice>) {
    var order := Unique(GroupsNamed(shelf, ids));
    && IsCut(Keep(order, Visible(shelf)), HoldingMet(shelf, ids, rows), 6, kept)
    && exists places :: ShownAt(order, ShownIn(shelf.hidden, kept), places, column)
  }

  /** Each group's skills, those that meet a requirement first, cut to six unless the group is hidden. */
  ghost predicate SkillsShown(shelf: Shelf, ids: seq<string>, rows: seq<Row>, entry: Choice) {
    var skills := SkillsOf(shelf, ids, entry.id);
    IsCut(skills, Meeting(rows), if entry.id in shelf.hidden then |skills| else 6, entry.picks)
  }

  lemma CutAlike(xs: seq<string>, first: string -> bool, same: string -> bool, most: nat, r: seq<string>)
    requires IsCut(xs, first, most, r) && forall x :: x in xs ==> first(x) == same(x)
    ensures IsCut(xs, same, most, r)
  {
    var a, b :| CutAt(xs, first, most, r, a, b);
    assert forall i :: 0 <= i < |xs| ==> xs[i] in xs;
    assert CutAt(xs, same, most, r, a, b);
  }

  lemma GroupHoldsMet(shelf: Shelf, choices: seq<Choice>, rows: seq<Row>, group: string)
    ensures HoldsMet(Groups(shelf, choices, rows), MetSkills(rows), group) <==> HasAMetSkill(shelf, AllSkills(shelf, choices, rows), rows, group)
  {
    var groups, ids := Groups(shelf, choices, rows), AllSkills(shelf, choices, rows);
    GroupsInOrder(shelf, choices, rows, group);
    forall id
      ensures id in MetSkills(rows) <==> MeetsARow(rows, id)
    {
      MetSkillsMeet(rows, id);
    }
    if id :| id in ids && InGroup(shelf, group)(id) && MeetsARow(rows, id) {
      NamedGroup(shelf, ids, id);
      assert id in SkillsOf(shelf, ids, group);
    }
  }

  lemma {:induction false} NamedGroup(shelf: Shelf, ids: seq<string>, id: string)
    requires id in ids && id in shelf.groupOf
    ensures shelf.groupOf[id] in GroupsNamed(shelf, ids)
  {
    var n := |ids| - 1;
    if id != ids[n] {
      NamedGroup(shelf, ids[..n], id);
    }
  }

  /** The visible groups kept are the cut to six of the visible ones. */
  lemma KeptGroupsAreCut(shelf: Shelf, choices: seq<Choice>, rows: seq<Row>)
    ensures var ids := AllSkills(shelf, choices, rows);
      IsCut(Keep(Unique(GroupsNamed(shelf, ids)), Visible(shelf)), HoldingMet(shelf, ids, rows), 6,
            KeptGroups(Groups(shelf, choices, rows), shelf.hidden, MetSkills(rows)))
  {
    var groups, ids, met := Groups(shelf, choices, rows), AllSkills(shelf, choices, rows), MetSkills(rows);
    GroupsInOrder(shelf, choices, rows, "");
    CutIs(VisibleGroups(groups, shelf.hidden), HoldingMetIn(groups, met), 6);
    forall group
      ensures HoldingMetIn(groups, met)(group) == HoldingMet(shelf, ids, rows)(group)
    {
      GroupHoldsMet(shelf, choices, rows, group);
    }
    CutAlike(VisibleGroups(groups, shelf.hidden), HoldingMetIn(groups, met), HoldingMet(shelf, ids, rows), 6, KeptGroups(groups, shelf.hidden, met));
    VisibleAlike(shelf, groups);
  }

  lemma {:induction false} SameKept(xs: seq<string>, p: string -> bool, q: string -> bool)
    requires forall x :: p(x) == q(x)
    ensures Keep(xs, p) == Keep(xs, q)
  {
    if xs != [] {
      SameKept(xs[1..], p, q);
    }
  }

  lemma VisibleAlike(shelf: Shelf, groups: OrderedMap<string, seq<string>>)
    ensures VisibleGroups(groups, shelf.hidden) == Keep(groups.order, Visible(shelf))
  {
    SameKept(groups.order, VisibleIn(shelf.hidden), Visible(shelf));
  }

  lemma EntryIsShown(shelf: Shelf, choices: seq<Choice>, rows: seq<Row>, k: nat)
    requires k < |ColumnOf(shelf, choices, rows)|
    ensures SkillsShown(shelf, AllSkills(shelf, choices, rows), rows, ColumnOf(shelf, choices, rows)[k])
  {
    var entry, met := ColumnOf(shelf, choices, rows)[k], MetSkills(rows);
    ColumnEntry(shelf, choices, rows, k);
    GroupsInOrder(shelf, choices, rows, entry.id);
    var skills, hidden := SkillsOf(shelf, AllSkills(shelf, choices, rows), entry.id), entry.id in shelf.hidden;
    forall id
      ensures MetIn(met)(id) == Meeting(rows)(id)
    {
      MetSkillsMeet(rows, id);
    }
    if hidden {
      PrioritisedIs(skills, MetIn(met));
    } else {
      CutIs(skills, MetIn(met), 6);
    }
    CutAlike(skills, MetIn(met), Meeting(rows), if hidden then |skills| else 6, entry.picks);
  }

  lemma FilledAt(order: seq<string>, shown: string -> bool, groups: OrderedMap<string, seq<string>>, hidden: set<string>, met: seq<string>)
    returns (places: seq<nat>)
    ensures ShownAt(order, shown, places, Filled(Keep(order, shown), groups, hidden, met))
  {
    places := KeepsInOrder(order, shown);
  }

  lemma GroupsAreShown(shelf: Shelf, choices: seq<Choice>, rows: seq<Row>) returns (kept: seq<string>)
    ensures GroupsShown(shelf, AllSkills(shelf, choices, rows), rows, kept, ColumnOf(shelf, choices, rows))
  {
    var groups, met := Groups(shelf, choices, rows), MetSkills(rows);
    kept := KeptGroups(groups, shelf.hidden, met);
    KeptGroupsAreCut(shelf, choices, rows);
    GroupsInOrder(shelf, choices, rows, "");
    var places := FilledAt(groups.order, ShownIn(shelf.hidden, kept), groups, shelf.hidden, met);
    assert ColumnOf(shelf, choices, rows) == Filled(Keep(groups.order, ShownIn(shelf.hidden, kept)), groups, shelf.hidden, met);
    assert ShownAt(groups.order, ShownIn(shelf.hidden, kept), places, ColumnOf(shelf, choices, rows));
  }

  /**
   The column: the groups in the order they were first filled, the visible ones cut to six with those that hold a met
   skill first; in each, its skills in the order they were first listed, the met ones first, a visible group's cut to six.
   */
  lemma ColumnIs(shelf: Shelf, choices: seq<Choice>, rows: seq<Row>)
    ensures exists kept :: GroupsShown(shelf, AllSkills(shelf, choices, rows), rows, kept, ColumnOf(shelf, choices, rows))
    ensures forall k :: 0 <= k < |ColumnOf(shelf, choices, rows)| ==>
      SkillsShown(shelf, AllSkills(shelf, choices, rows), rows, ColumnOf(shelf, choices, rows)[k])
  {
    var kept := GroupsAreShown(shelf, choices, rows);
    forall k | 0 <= k < |ColumnOf(shelf, choices, rows)|
      ensures SkillsShown(shelf, AllSkills(shelf, choices, rows), rows, ColumnOf(shelf, choices, rows)[k])
    {
      EntryIsShown(shelf, choices, rows, k);
    }
  }
}
