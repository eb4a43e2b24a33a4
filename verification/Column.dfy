/**
The skills column (cv/src/normalize.js): every skill in its own group, the skills that meet a requirement added
when the model left them out, then the column cut by priority so that it never runs onto a second page.
*/
module Column {
  import opened Collections
  import opened Relocation
  import opened Rows

  const MAX_GROUPS := 6
  const MAX_GROUP_SKILLS := 6

  /** What of the profile and its evidence the column depends on: each skill's group, and what may not show. */
  datatype Shelf = Shelf(groupOf: map<string, string>, hidden: set<string>, out: set<string>)

  // ---------------------------------------------------------------- which skills are placed

  function OwnGroup(shelf: Shelf, id: string): (r: seq<Mention>)
    ensures forall group, skill :: Mention(group, Some(skill)) in r <==> skill == id && id in shelf.groupOf && shelf.groupOf[id] == group
    ensures forall group :: Mention(group, None) !in r
  {
    if id in shelf.groupOf then [Mention(shelf.groupOf[id], Some(id))] else []
  }

  function Chosen(choices: seq<Choice>): seq<string> {
    if choices == [] then [] else Chosen(choices[..|choices| - 1]) + choices[|choices| - 1].picks
  }

  function MetSkills(rows: seq<Row>): seq<string> {
    if rows == [] then []
    else
      var last := rows[|rows| - 1];
      MetSkills(rows[..|rows| - 1]) + if last.match_ == No then [] else last.skills
  }

  /** A met skill the column takes in: not ruled out by the evidence, its group not hidden. */
  predicate MayJoin(shelf: Shelf, id: string) {
    id in shelf.groupOf && id !in shelf.out && shelf.groupOf[id] !in shelf.hidden
  }

  function Joiners(shelf: Shelf, ids: seq<string>): (r: seq<string>)
    ensures forall id :: id in r <==> id in ids && MayJoin(shelf, id)
  {
    if ids == [] then []
    else
      var last := ids[|ids| - 1];
      Joiners(shelf, ids[..|ids| - 1]) + if MayJoin(shelf, last) then [last] else []
  }

  function Joining(shelf: Shelf, rows: seq<Row>): seq<string> {
    Joiners(shelf, MetSkills(rows))
  }

  function Owned(shelf: Shelf, ids: seq<string>): seq<Mention> {
    if ids == [] then [] else Owned(shelf, ids[..|ids| - 1]) + OwnGroup(shelf, ids[|ids| - 1])
  }

  lemma {:induction false} OwnedMentions(shelf: Shelf, ids: seq<string>, group: string, skill: string)
    ensures Mention(group, Some(skill)) in Owned(shelf, ids) <==> skill in ids && skill in shelf.groupOf && shelf.groupOf[skill] == group
    ensures Mention(group, None) !in Owned(shelf, ids)
  {
    if ids != [] {
      OwnedMentions(shelf, ids[..|ids| - 1], group, skill);
    }
  }

  function Groups(shelf: Shelf, choices: seq<Choice>, rows: seq<Row>): OrderedMap<string, seq<string>> {
    Placed(Owned(shelf, Chosen(choices) + Joining(shelf, rows)))
  }

  /** A skill of the column before it is cut: the model listed it, or it meets a requirement and may join. */
  ghost predicate InColumn(shelf: Shelf, choices: seq<Choice>, rows: seq<Row>, skill: string) {
    skill in shelf.groupOf && (skill in Chosen(choices) || skill in Joining(shelf, rows))
  }

  lemma GroupsAreSets(shelf: Shelf, choices: seq<Choice>, rows: seq<Row>, group: string)
    ensures var groups := Groups(shelf, choices, rows);
      && groups.Valid()
      && (group in groups.at ==> Distinct(groups.at[group]) && groups.at[group] != [])
  {
    var ids := Chosen(choices) + Joining(shelf, rows);
    var mentions := Owned(shelf, ids);
    PlacedIsRight(mentions);
    assert PlacedUnder(mentions, Placed(mentions), group);
    if group in Placed(mentions).at {
      var item :| Mention(group, item) in mentions;
      OwnedMentions(shelf, ids, group, item.Or(""));
    }
  }

  lemma GroupsHold(shelf: Shelf, choices: seq<Choice>, rows: seq<Row>, group: string)
    ensures forall skill :: ((group in Groups(shelf, choices, rows).at && skill in Groups(shelf, choices, rows).at[group])
      <==> InColumn(shelf, choices, rows, skill) && shelf.groupOf[skill] == group)
  {
    var ids := Chosen(choices) + Joining(shelf, rows);
    var mentions := Owned(shelf, ids);
    PlacedIsRight(mentions);
    assert PlacedUnder(mentions, Placed(mentions), group);
    forall skill
      ensures (group in Placed(mentions).at && skill in Placed(mentions).at[group]) <==> InColumn(shelf, choices, rows, skill) && shelf.groupOf[skill] == group
    {
      OwnedMentions(shelf, ids, group, skill);
    }
  }

  // ---------------------------------------------------------------- the cut by priority

  function Others(xs: seq<string>, first: string -> bool): seq<string> {
    Keep(xs, x => !first(x))
  }

  /** Those that pass first, then the others, each in their order. */
  function Prioritised(xs: seq<string>, first: string -> bool): (r: seq<string>)
    ensures forall x :: x in r <==> x in xs
  {
    assert forall x :: x in xs ==> if first(x) then x in Keep(xs, first) else x in Others(xs, first);
    Keep(xs, first) + Others(xs, first)
  }

  ghost predicate FirstLead(xs: seq<string>, first: string -> bool) {
    forall i, j :: 0 <= i < j < |xs| && first(xs[j]) ==> first(xs[i])
  }

  lemma PrioritisedLead(xs: seq<string>, first: string -> bool)
    ensures FirstLead(Prioritised(xs, first), first)
  {
    var passing, others := Keep(xs, first), Others(xs, first);
    assert forall j :: 0 <= j < |passing| ==> passing[j] in passing;
    assert forall j :: 0 <= j < |others| ==> others[j] in others;
  }

  lemma PrioritisedDistinct(xs: seq<string>, first: string -> bool)
    requires Distinct(xs)
    ensures Distinct(Prioritised(xs, first))
  {
    var passing, others := Keep(xs, first), Others(xs, first);
    KeepDistinct(xs, first);
    KeepDistinct(xs, x => !first(x));
    assert forall j :: 0 <= j < |passing| ==> passing[j] in passing;
    assert forall j :: 0 <= j < |others| ==> others[j] in others;
  }

  /** `.slice(0, most)` of the prioritised list. */
  function Cut(xs: seq<string>, first: string -> bool, most: nat): (r: seq<string>)
    ensures |r| <= most && forall x :: x in r ==> x in xs
  {
    var all := Prioritised(xs, first);
    var r := if |all| <= most then all else all[..most];
    assert forall x :: x in r ==> x in all;
    r
  }

  /** One that passes is cut only when the cut is full of others that pass. */
  lemma CutKeepsTheFirst(xs: seq<string>, first: string -> bool, most: nat, x: string)
    requires x in xs && x !in Cut(xs, first, most)
    ensures |Cut(xs, first, most)| == most
    ensures first(x) ==> forall y :: y in Cut(xs, first, most) ==> first(y)
  {
    var all := Prioritised(xs, first);
    PrioritisedLead(xs, first);
    var j :| 0 <= j < |all| && all[j] == x;
  }

  lemma CutDistinct(xs: seq<string>, first: string -> bool, most: nat)
    requires Distinct(xs)
    ensures Distinct(Cut(xs, first, most))
  {
    PrioritisedDistinct(xs, first);
  }

  predicate HoldsMet(groups: OrderedMap<string, seq<string>>, met: seq<string>, group: string) {
    group in groups.at && exists id :: id in groups.at[group] && id in met
  }

  function VisibleIn(hidden: set<string>): string -> bool {
    (group: string) => group !in hidden
  }

  function HoldingMetIn(groups: OrderedMap<string, seq<string>>, met: seq<string>): string -> bool {
    (group: string) => HoldsMet(groups, met, group)
  }

  function MetIn(met: seq<string>): string -> bool {
    (id: string) => id in met
  }

  function ShownIn(hidden: set<string>, kept: seq<string>): string -> bool {
    (group: string) => group in hidden || group in kept
  }

  function VisibleGroups(groups: OrderedMap<string, seq<string>>, hidden: set<string>): seq<string> {
    Keep(groups.order, VisibleIn(hidden))
  }

  function KeptGroups(groups: OrderedMap<string, seq<string>>, hidden: set<string>, met: seq<string>): seq<string> {
    Cut(VisibleGroups(groups, hidden), HoldingMetIn(groups, met), MAX_GROUPS)
  }

  /** A group's skills in the column: the met ones first, cut to its size unless the group is hidden. */
  function ShownSkills(skills: seq<string>, met: seq<string>, hidden: bool): seq<string> {
    if hidden then Prioritised(skills, MetIn(met)) else Cut(skills, MetIn(met), MAX_GROUP_SKILLS)
  }

  function EntryOf(groups: OrderedMap<string, seq<string>>, hidden: set<string>, met: seq<string>, group: string): Choice {
    Choice(group, ShownSkills(if group in groups.at then groups.at[group] else [], met, group in hidden))
  }

  function Filled(order: seq<string>, groups: OrderedMap<string, seq<string>>, hidden: set<string>, met: seq<string>): (r: seq<Choice>)
    ensures |r| == |order|
    ensures forall k :: 0 <= k < |order| ==> r[k] == EntryOf(groups, hidden, met, order[k])
  {
    if order == [] then []
    else
      var n := |order| - 1;
      Filled(order[..n], groups, hidden, met) + [EntryOf(groups, hidden, met, order[n])]
  }

  function ColumnOrder(shelf: Shelf, groups: OrderedMap<string, seq<string>>, met: seq<string>): (r: seq<string>)
    ensures forall group :: group in r <==> group in groups.order && (group in shelf.hidden || group in KeptGroups(groups, shelf.hidden, met))
  {
    Keep(groups.order, ShownIn(shelf.hidden, KeptGroups(groups, shelf.hidden, met)))
  }

  lemma GroupsValid(shelf: Shelf, choices: seq<Choice>, rows: seq<Row>)
    ensures Groups(shelf, choices, rows).Valid()
    ensures forall k :: 0 <= k < |ColumnOrder(shelf, Groups(shelf, choices, rows), MetSkills(rows))| ==>
      ColumnOrder(shelf, Groups(shelf, choices, rows), MetSkills(rows))[k] in Groups(shelf, choices, rows).at
  {
    GroupsAreSets(shelf, choices, rows, "");
  }

  function ColumnOf(shelf: Shelf, choices: seq<Choice>, rows: seq<Row>): seq<Choice> {
    var groups := Groups(shelf, choices, rows);
    Filled(ColumnOrder(shelf, groups, MetSkills(rows)), groups, shelf.hidden, MetSkills(rows))
  }

  // ---------------------------------------------------------------- the loops

  function PutOwn(shelf: Shelf, id: string, m: OrderedMap<string, seq<string>>): OrderedMap<string, seq<string>> {
    if id in shelf.groupOf then Place(m, Mention(shelf.groupOf[id], Some(id))) else m
  }

  lemma OneSkillMore(shelf: Shelf, ids: seq<string>, id: string)
    ensures Placed(Owned(shelf, ids + [id])) == PutOwn(shelf, id, Placed(Owned(shelf, ids)))
  {
    assert (ids + [id])[..|ids|] == ids;
    if id in shelf.groupOf {
      PlacedAfterOne(Owned(shelf, ids), Mention(shelf.groupOf[id], Some(id)));
    } else {
      assert Owned(shelf, ids) + [] == Owned(shelf, ids);
    }
  }

  lemma PlacedAlready(m: OrderedMap<string, seq<string>>, group: string, id: string)
    requires group in m.at && id in m.at[group]
    ensures Place(m, Mention(group, Some(id))) == m
  {
    assert m.at[group := m.at[group]] == m.at;
  }

  /** A skill already in its group: putting it again changes nothing, so the `listed` set only saves work. */
  lemma ListedIsPlaced(shelf: Shelf, ids: seq<string>, id: string)
    requires id in ids && id in shelf.groupOf
    ensures PutOwn(shelf, id, Placed(Owned(shelf, ids))) == Placed(Owned(shelf, ids))
  {
    var mentions, group := Owned(shelf, ids), shelf.groupOf[id];
    OwnedMentions(shelf, ids, group, id);
    MentionedIsPlaced(mentions, group, id);
    PlacedAlready(Placed(mentions), group, id);
  }

  lemma MentionedIsPlaced(mentions: seq<Mention>, group: string, id: string)
    requires Mention(group, Some(id)) in mentions
    ensures group in Placed(mentions).at && id in Placed(mentions).at[group]
  {
    PlacedIsRight(mentions);
    assert PlacedUnder(mentions, Placed(mentions), group);
  }

  lemma PrefixAfter(before: seq<string>, ids: seq<string>, i: nat)
    requires i < |ids|
    ensures before + ids[..i + 1] == (before + ids[..i]) + [ids[i]]
  {
  }

  lemma PutOneMore(shelf: Shelf, before: seq<string>, ids: seq<string>, i: nat)
    requires i < |ids|
    ensures Placed(Owned(shelf, before + ids[..i + 1])) == PutOwn(shelf, ids[i], Placed(Owned(shelf, before + ids[..i])))
  {
    PrefixAfter(before, ids, i);
    OneSkillMore(shelf, before + ids[..i], ids[i]);
  }

  method PutAll(shelf: Shelf, ghost before: seq<string>, m0: OrderedMap<string, seq<string>>, ids: seq<string>) returns (m: OrderedMap<string, seq<string>>)
    requires m0 == Placed(Owned(shelf, before))
    ensures m == Placed(Owned(shelf, before + ids))
  {
    m := m0;
    assert before + [] == before;
    var i := 0;
    while i < |ids|
      invariant 0 <= i <= |ids|
      invariant m == Placed(Owned(shelf, before + ids[..i]))
    {
      PutOneMore(shelf, before, ids, i);
      m := PutOwn(shelf, ids[i], m);
      i := i + 1;
    }
    PrefixAll(ids);
  }

  lemma ChosenAfterOne(choices: seq<Choice>, i: nat)
    requires i < |choices|
    ensures Chosen(choices[..i + 1]) == Chosen(choices[..i]) + choices[i].picks
  {
    assert choices[..i + 1][..i] == choices[..i];
  }

  method PutChoices(shelf: Shelf, choices: seq<Choice>) returns (m: OrderedMap<string, seq<string>>)
    ensures m == Placed(Owned(shelf, Chosen(choices)))
  {
    m := OrderedMap([], map[]);
    var i := 0;
    while i < |choices|
      invariant 0 <= i <= |choices|
      invariant m == Placed(Owned(shelf, Chosen(choices[..i])))
    {
      m := PutAll(shelf, Chosen(choices[..i]), m, choices[i].picks);
      ChosenAfterOne(choices, i);
      i := i + 1;
    }
    PrefixAll(choices);
  }

  /** `listed`: the ids already in the column, all of them known. */
  ghost predicate Lists(shelf: Shelf, ids: seq<string>, listed: set<string>) {
    forall id :: id in listed <==> id in ids && id in shelf.groupOf
  }

  /** `new Set([...groups.values()].flat())`. */
  function Listed(m: OrderedMap<string, seq<string>>): set<string> {
    set group, id | group in m.at && id in m.at[group] :: id
  }

  lemma ListedIsLists(shelf: Shelf, ids: seq<string>)
    ensures Lists(shelf, ids, Listed(Placed(Owned(shelf, ids))))
  {
    var mentions := Owned(shelf, ids);
    var m := Placed(mentions);
    PlacedIsRight(mentions);
    forall id
      ensures id in Listed(m) <==> id in ids && id in shelf.groupOf
    {
      if id in ids && id in shelf.groupOf {
        OwnedMentions(shelf, ids, shelf.groupOf[id], id);
        assert Mention(shelf.groupOf[id], Some(id)) in mentions;
        assert PlacedUnder(mentions, m, shelf.groupOf[id]);
      }
      if id in Listed(m) {
        var group :| group in m.at && id in m.at[group];
        assert PlacedUnder(mentions, m, group);
        OwnedMentions(shelf, ids, group, id);
      }
    }
  }

  /** The ids in the column after a met skill was offered to it. */
  function Offered(shelf: Shelf, ids: seq<string>, id: string): seq<string> {
    if MayJoin(shelf, id) then ids + [id] else ids
  }

  lemma SkipOrPut(shelf: Shelf, ids: seq<string>, listed: set<string>, id: string)
    requires Lists(shelf, ids, listed)
    ensures Placed(Owned(shelf, Offered(shelf, ids, id)))
      == if MayJoin(shelf, id) && id !in listed then PutOwn(shelf, id, Placed(Owned(shelf, ids))) else Placed(Owned(shelf, ids))
  {
    if MayJoin(shelf, id) {
      OneSkillMore(shelf, ids, id);
      if id in listed {
        ListedIsPlaced(shelf, ids, id);
      }
    }
  }

  method OfferSkill(shelf: Shelf, ghost ids: seq<string>, m0: OrderedMap<string, seq<string>>, listed0: set<string>, id: string)
    returns (m: OrderedMap<string, seq<string>>, listed: set<string>)
    requires m0 == Placed(Owned(shelf, ids)) && Lists(shelf, ids, listed0)
    ensures m == Placed(Owned(shelf, Offered(shelf, ids, id))) && Lists(shelf, Offered(shelf, ids, id), listed)
  {
    m, listed := m0, listed0;
    SkipOrPut(shelf, ids, listed, id);
    if id in shelf.groupOf && id !in listed && id !in shelf.out && shelf.groupOf[id] !in shelf.hidden {
      m := PutOwn(shelf, id, m);
      listed := listed + {id};
    }
  }

  lemma JoinersAfterOne(shelf: Shelf, before: seq<string>, ids: seq<string>, i: nat)
    requires i < |ids|
    ensures before + Joiners(shelf, ids[..i + 1]) == Offered(shelf, before + Joiners(shelf, ids[..i]), ids[i])
  {
    assert ids[..i + 1][..i] == ids[..i];
  }

  method OfferAll(shelf: Shelf, ghost before: seq<string>, m0: OrderedMap<string, seq<string>>, ids: seq<string>)
    returns (m: OrderedMap<string, seq<string>>)
    requires m0 == Placed(Owned(shelf, before))
    ensures m == Placed(Owned(shelf, before + Joiners(shelf, ids)))
  {
    m := m0;
    ListedIsLists(shelf, before);
    var listed := Listed(m);
    assert before + [] == before;
    var i := 0;
    while i < |ids|
      invariant 0 <= i <= |ids|
      invariant m == Placed(Owned(shelf, before + Joiners(shelf, ids[..i])))
      invariant Lists(shelf, before + Joiners(shelf, ids[..i]), listed)
    {
      m, listed := OfferSkill(shelf, before + Joiners(shelf, ids[..i]), m, listed, ids[i]);
      JoinersAfterOne(shelf, before, ids, i);
      i := i + 1;
    }
    PrefixAll(ids);
  }

  /** The skills step of `normalize`. */
  method FillColumn(shelf: Shelf, choices: seq<Choice>, rows: seq<Row>) returns (column: seq<Choice>)
    ensures column == ColumnOf(shelf, choices, rows)
  {
    var groups := PutChoices(shelf, choices);
    var met := MetSkills(rows);
    groups := OfferAll(shelf, Chosen(choices), groups, met);
    column := Filled(ColumnOrder(shelf, groups, met), groups, shelf.hidden, met);
  }

  // ---------------------------------------------------------------- what the evidence lets show

  function AllowedOf(shelf: Shelf, choice: Choice): Choice {
    choice.(picks := Keep(choice.picks, id => id !in shelf.out))
  }

  /** The model's choices without the skills the evidence blocks. */
  function Allowed(shelf: Shelf, choices: seq<Choice>): (r: seq<Choice>)
    ensures |r| == |choices|
  {
    if choices == [] then [] else Allowed(shelf, choices[..|choices| - 1]) + [AllowedOf(shelf, choices[|choices| - 1])]
  }

  /** The first loop of `normalize`: what is blocked is dropped from every group the model listed. */
  method AllowChoices(shelf: Shelf, choices: seq<Choice>) returns (allowed: seq<Choice>)
    ensures allowed == Allowed(shelf, choices)
  {
    allowed := [];
    var i := 0;
    while i < |choices|
      invariant 0 <= i <= |choices| && allowed == Allowed(shelf, choices[..i])
    {
      assert choices[..i + 1][..i] == choices[..i];
      allowed := allowed + [AllowedOf(shelf, choices[i])];
      i := i + 1;
    }
    PrefixAll(choices);
  }

  /** From the model's answer to the column. */
  method NormalizeColumn(shelf: Shelf, choices: seq<Choice>, rows: seq<Row>) returns (column: seq<Choice>)
    ensures column == ColumnOf(shelf, Allowed(shelf, choices), rows)
  {
    var allowed := AllowChoices(shelf, choices);
    column := FillColumn(shelf, allowed, rows);
  }

  lemma ChosenOneMore(choices: seq<Choice>, choice: Choice)
    ensures Chosen(choices + [choice]) == Chosen(choices) + choice.picks
  {
    assert (choices + [choice])[..|choices|] == choices;
  }

  lemma {:induction false} ChosenAllowed(shelf: Shelf, choices: seq<Choice>, skill: string)
    ensures skill in Chosen(Allowed(shelf, choices)) <==> skill in Chosen(choices) && skill !in shelf.out
  {
    if choices != [] {
      var n := |choices| - 1;
      ChosenAllowed(shelf, choices[..n], skill);
      ChosenOneMore(Allowed(shelf, choices[..n]), AllowedOf(shelf, choices[n]));
    }
  }

  /** What the column may hold: known skills no evidence blocks, listed by the model or met in a group that shows. */
  lemma AllowedSkillsJoin(shelf: Shelf, choices: seq<Choice>, rows: seq<Row>, skill: string)
    ensures InColumn(shelf, Allowed(shelf, choices), rows, skill) <==> (
      && skill in shelf.groupOf && skill !in shelf.out
      && (skill in Chosen(choices) || (skill in MetSkills(rows) && shelf.groupOf[skill] !in shelf.hidden)))
  {
    ChosenAllowed(shelf, choices, skill);
  }

  /** Whatever the model listed or picked, no skill the evidence blocks is ever in the column. */
  lemma BlockedNeverShow(shelf: Shelf, choices: seq<Choice>, rows: seq<Row>, group: string, skill: string)
    requires ListedUnder(ColumnOf(shelf, Allowed(shelf, choices), rows), group, skill)
    ensures skill !in shelf.out
  {
    var column := ColumnOf(shelf, Allowed(shelf, choices), rows);
    var k :| 0 <= k < |column| && column[k].id == group && skill in column[k].picks;
    GroupsAreRight(shelf, Allowed(shelf, choices), rows, k);
    AllowedSkillsJoin(shelf, choices, rows, skill);
  }

  // ---------------------------------------------------------------- what the column keeps

  lemma ColumnEntry(shelf: Shelf, choices: seq<Choice>, rows: seq<Row>, k: nat)
    requires k < |ColumnOf(shelf, choices, rows)|
    ensures var entry, groups, met := ColumnOf(shelf, choices, rows)[k], Groups(shelf, choices, rows), MetSkills(rows);
      && entry.id in groups.at && entry.id in groups.order
      && entry.picks == ShownSkills(groups.at[entry.id], met, entry.id in shelf.hidden)
      && (entry.id in shelf.hidden || entry.id in KeptGroups(groups, shelf.hidden, met))
  {
    GroupsValid(shelf, choices, rows);
  }

  lemma ShownSkillsAreOwn(skills: seq<string>, met: seq<string>, hidden: bool)
    requires Distinct(skills)
    ensures var r := ShownSkills(skills, met, hidden);
      && Distinct(r)
      && (forall id :: id in r ==> id in skills)
      && (hidden ==> forall id :: id in skills ==> id in r)
      && (!hidden ==> |r| <= MAX_GROUP_SKILLS)
  {
    PrioritisedDistinct(skills, MetIn(met));
    if !hidden {
      CutDistinct(skills, MetIn(met), MAX_GROUP_SKILLS);
    }
  }

  /** One group of the column: nothing but its own skills the column may hold, each once, within the cap unless it is hidden. */
  ghost predicate GroupIsRight(shelf: Shelf, choices: seq<Choice>, rows: seq<Row>, entry: Choice) {
    && Distinct(entry.picks)
    && (forall id :: id in entry.picks ==> InColumn(shelf, choices, rows, id) && shelf.groupOf[id] == entry.id)
    && (entry.id !in shelf.hidden ==> |entry.picks| <= MAX_GROUP_SKILLS)
  }

  lemma GroupsAreRight(shelf: Shelf, choices: seq<Choice>, rows: seq<Row>, k: nat)
    requires k < |ColumnOf(shelf, choices, rows)|
    ensures GroupIsRight(shelf, choices, rows, ColumnOf(shelf, choices, rows)[k])
  {
    var entry, groups := ColumnOf(shelf, choices, rows)[k], Groups(shelf, choices, rows);
    ColumnEntry(shelf, choices, rows, k);
    GroupsHold(shelf, choices, rows, entry.id);
    GroupsAreSets(shelf, choices, rows, entry.id);
    ShownSkillsAreOwn(groups.at[entry.id], MetSkills(rows), entry.id in shelf.hidden);
  }

  function VisibleIds(column: seq<Choice>, hidden: set<string>): (r: seq<string>)
    ensures forall id :: id in r <==> id !in hidden && exists k :: 0 <= k < |column| && column[k].id == id
  {
    if column == [] then []
    else
      var id := column[|column| - 1].id;
      VisibleIds(column[..|column| - 1], hidden) + if id in hidden then [] else [id]
  }

  lemma {:induction false} VisibleDistinct(column: seq<Choice>, hidden: set<string>)
    requires forall j, k :: 0 <= j < k < |column| ==> column[j].id != column[k].id
    ensures Distinct(VisibleIds(column, hidden))
  {
    if column != [] {
      VisibleDistinct(column[..|column| - 1], hidden);
    }
  }

  lemma ColumnIdsDistinct(shelf: Shelf, choices: seq<Choice>, rows: seq<Row>)
    ensures var column := ColumnOf(shelf, choices, rows);
      forall j, k :: 0 <= j < k < |column| ==> column[j].id != column[k].id
  {
    var groups, met := Groups(shelf, choices, rows), MetSkills(rows);
    GroupsValid(shelf, choices, rows);
    KeepDistinct(groups.order, ShownIn(shelf.hidden, KeptGroups(groups, shelf.hidden, met)));
  }

  lemma VisibleGroupsAreFew(shelf: Shelf, choices: seq<Choice>, rows: seq<Row>)
    ensures |VisibleIds(ColumnOf(shelf, choices, rows), shelf.hidden)| <= MAX_GROUPS
  {
    var column := ColumnOf(shelf, choices, rows);
    var kept := KeptGroups(Groups(shelf, choices, rows), shelf.hidden, MetSkills(rows));
    ColumnIdsDistinct(shelf, choices, rows);
    VisibleDistinct(column, shelf.hidden);
    forall id | id in VisibleIds(column, shelf.hidden)
      ensures id in kept
    {
      var k :| 0 <= k < |column| && column[k].id == id;
      ColumnEntry(shelf, choices, rows, k);
    }
    DistinctWithin(VisibleIds(column, shelf.hidden), kept);
  }

  /**
   The column, whatever the model chose: each group once, each skill once and in its own group, no skill that
   neither the model listed nor a met requirement names, at most six visible groups of at most six skills.
   */
  lemma ColumnIsRight(shelf: Shelf, choices: seq<Choice>, rows: seq<Row>)
    ensures var column := ColumnOf(shelf, choices, rows);
      && (forall j, k :: 0 <= j < k < |column| ==> column[j].id != column[k].id)
      && (forall k :: 0 <= k < |column| ==> GroupIsRight(shelf, choices, rows, column[k]))
      && |VisibleIds(column, shelf.hidden)| <= MAX_GROUPS
  {
    ColumnIdsDistinct(shelf, choices, rows);
    VisibleGroupsAreFew(shelf, choices, rows);
    forall k | 0 <= k < |ColumnOf(shelf, choices, rows)|
      ensures GroupIsRight(shelf, choices, rows, ColumnOf(shelf, choices, rows)[k])
    {
      GroupsAreRight(shelf, choices, rows, k);
    }
  }

  /** `validateAnalysis` on the skill groups: each group is the profile's, each skill is known and in its own. */
  ghost predicate ColumnPasses(shelf: Shelf, profileGroups: set<string>, column: seq<Choice>) {
    forall k :: 0 <= k < |column| ==>
      column[k].id in profileGroups && forall id :: id in column[k].picks ==> id in shelf.groupOf && shelf.groupOf[id] == column[k].id
  }

  lemma FilledColumnPasses(shelf: Shelf, profileGroups: set<string>, choices: seq<Choice>, rows: seq<Row>)
    requires forall id :: id in shelf.groupOf ==> shelf.groupOf[id] in profileGroups
    ensures ColumnPasses(shelf, profileGroups, ColumnOf(shelf, choices, rows))
  {
    var column, groups := ColumnOf(shelf, choices, rows), Groups(shelf, choices, rows);
    forall k | 0 <= k < |column|
      ensures column[k].id in profileGroups && forall id :: id in column[k].picks ==> id in shelf.groupOf && shelf.groupOf[id] == column[k].id
    {
      GroupsAreRight(shelf, choices, rows, k);
      ColumnEntry(shelf, choices, rows, k);
      GroupsHold(shelf, choices, rows, column[k].id);
      GroupsAreSets(shelf, choices, rows, column[k].id);
      var first := groups.at[column[k].id][0];
      assert first in groups.at[column[k].id];
    }
  }

  /** A group of the column that shows a skill meeting a requirement. */
  ghost predicate ShowsMet(column: seq<Choice>, met: seq<string>, group: string) {
    exists k, id :: 0 <= k < |column| && column[k].id == group && id in column[k].picks && id in met
  }

  /** The column has a group's six places taken by skills that meet a requirement. */
  ghost predicate GroupIsFull(column: seq<Choice>, met: seq<string>, group: string) {
    exists k :: 0 <= k < |column| && column[k].id == group && |column[k].picks| == MAX_GROUP_SKILLS && forall id :: id in column[k].picks ==> id in met
  }

  /** Six groups of the column, none of them this one, each show a skill that meets a requirement. */
  ghost predicate GroupsAreFull(column: seq<Choice>, met: seq<string>, group: string) {
    exists kept: seq<string> :: |kept| == MAX_GROUPS && Distinct(kept) && group !in kept && forall g :: g in kept ==> ShowsMet(column, met, g)
  }

  lemma GroupHasEntry(shelf: Shelf, choices: seq<Choice>, rows: seq<Row>, group: string) returns (k: nat)
    requires var groups := Groups(shelf, choices, rows);
      group in groups.at && (group in shelf.hidden || group in KeptGroups(groups, shelf.hidden, MetSkills(rows)))
    ensures k < |ColumnOf(shelf, choices, rows)| && ColumnOf(shelf, choices, rows)[k].id == group
  {
    var groups, met := Groups(shelf, choices, rows), MetSkills(rows);
    GroupsValid(shelf, choices, rows);
    var order := ColumnOrder(shelf, groups, met);
    assert group in order;
    k :| 0 <= k < |order| && order[k] == group;
  }

  lemma KeptGroupShowsMet(shelf: Shelf, choices: seq<Choice>, rows: seq<Row>, group: string)
    requires var groups, met := Groups(shelf, choices, rows), MetSkills(rows);
      group !in shelf.hidden && group in KeptGroups(groups, shelf.hidden, met) && HoldsMet(groups, met, group)
    ensures ShowsMet(ColumnOf(shelf, choices, rows), MetSkills(rows), group)
  {
    var column, groups, met := ColumnOf(shelf, choices, rows), Groups(shelf, choices, rows), MetSkills(rows);
    var k := GroupHasEntry(shelf, choices, rows, group);
    ColumnEntry(shelf, choices, rows, k);
    var id :| id in groups.at[group] && id in met;
    if id !in column[k].picks {
      CutKeepsTheFirst(groups.at[group], MetIn(met), MAX_GROUP_SKILLS, id);
      assert column[k].picks[0] in column[k].picks;
      assert column[k].picks[0] in met;
    }
  }

  lemma LeftOutGroup(shelf: Shelf, choices: seq<Choice>, rows: seq<Row>, group: string)
    requires var groups, met := Groups(shelf, choices, rows), MetSkills(rows);
      group in groups.at && group !in shelf.hidden && group !in KeptGroups(groups, shelf.hidden, met) && HoldsMet(groups, met, group)
    ensures GroupsAreFull(ColumnOf(shelf, choices, rows), MetSkills(rows), group)
  {
    var groups, met := Groups(shelf, choices, rows), MetSkills(rows);
    GroupsValid(shelf, choices, rows);
    var visible, kept := VisibleGroups(groups, shelf.hidden), KeptGroups(groups, shelf.hidden, met);
    KeepDistinct(groups.order, VisibleIn(shelf.hidden));
    CutDistinct(visible, HoldingMetIn(groups, met), MAX_GROUPS);
    CutKeepsTheFirst(visible, HoldingMetIn(groups, met), MAX_GROUPS, group);
    forall g | g in kept
      ensures ShowsMet(ColumnOf(shelf, choices, rows), met, g)
    {
      KeptGroupShowsMet(shelf, choices, rows, g);
    }
  }

  /**
   The cut spares the met skills: a visible skill of the column that meets a requirement is missing only when
   its group already shows six skills that meet one, or six other groups each show such a skill.
   */
  lemma MetSkillsAreCutLast(shelf: Shelf, choices: seq<Choice>, rows: seq<Row>, skill: string)
    requires InColumn(shelf, choices, rows, skill) && skill in MetSkills(rows) && shelf.groupOf[skill] !in shelf.hidden
    ensures var column, group := ColumnOf(shelf, choices, rows), shelf.groupOf[skill];
      ListedUnder(column, group, skill) || GroupIsFull(column, MetSkills(rows), group) || GroupsAreFull(column, MetSkills(rows), group)
  {
    var column, group, groups, met := ColumnOf(shelf, choices, rows), shelf.groupOf[skill], Groups(shelf, choices, rows), MetSkills(rows);
    GroupsHold(shelf, choices, rows, group);
    if group in KeptGroups(groups, shelf.hidden, met) {
      var k := GroupHasEntry(shelf, choices, rows, group);
      ColumnEntry(shelf, choices, rows, k);
      if skill !in column[k].picks {
        CutKeepsTheFirst(groups.at[group], MetIn(met), MAX_GROUP_SKILLS, skill);
      }
    } else {
      LeftOutGroup(shelf, choices, rows, group);
    }
  }

  /** A skill of a row the offer's match counts, that the evidence and its group let show, is one of the column's before the cut. */
  lemma MetSkillsJoin(shelf: Shelf, choices: seq<Choice>, rows: seq<Row>, row: Row, skill: string)
    requires row in rows && row.match_ != No && skill in row.skills && MayJoin(shelf, skill)
    ensures InColumn(shelf, choices, rows, skill) && skill in MetSkills(rows)
  {
    MetSkillIsMet(rows, row, skill);
  }

  lemma {:induction false} MetSkillIsMet(rows: seq<Row>, row: Row, skill: string)
    requires row in rows && row.match_ != No && skill in row.skills
    ensures skill in MetSkills(rows)
  {
    var n := |rows| - 1;
    if row != rows[n] {
      MetSkillIsMet(rows[..n], row, skill);
    }
  }

  /** What the model lists of a hidden group is never cut. */
  lemma HiddenSkillsStay(shelf: Shelf, choices: seq<Choice>, rows: seq<Row>, skill: string)
    requires InColumn(shelf, choices, rows, skill) && shelf.groupOf[skill] in shelf.hidden
    ensures ListedUnder(ColumnOf(shelf, choices, rows), shelf.groupOf[skill], skill)
  {
    var group := shelf.groupOf[skill];
    GroupsHold(shelf, choices, rows, group);
    var k := GroupHasEntry(shelf, choices, rows, group);
    ColumnEntry(shelf, choices, rows, k);
  }
}
