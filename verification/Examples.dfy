/**
`mergeExamples` (cv/src/normalize.js): the examples an offer lists together are one requirement. The rows
an enumeration names are united (UnionFind), and each group of rows becomes one row.
*/
module Examples {
  import opened Collections
  import opened Rows
  import opened UnionFind

  // ---------------------------------------------------------------- the groups, as lists of rows

  /** The rows of one root, in the table's order. */
  function RowsOf(roots: seq<nat>, root: nat): seq<nat> {
    if roots == [] then []
    else
      var last := |roots| - 1;
      RowsOf(roots[..last], root) + if roots[last] == root then [last] else []
  }

  /** The group of a root: exactly the rows with that root, each once, in order. */
  lemma {:induction false} RowsOfRoot(roots: seq<nat>, root: nat)
    ensures forall k :: 0 <= k < |RowsOf(roots, root)| ==> RowsOf(roots, root)[k] < |roots| && roots[RowsOf(roots, root)[k]] == root
    ensures forall j, k :: 0 <= j < k < |RowsOf(roots, root)| ==> RowsOf(roots, root)[j] < RowsOf(roots, root)[k]
    ensures forall i :: 0 <= i < |roots| && roots[i] == root ==> i in RowsOf(roots, root)
  {
    if roots != [] {
      var last := |roots| - 1;
      RowsOfRoot(roots[..last], root);
      var shorter := RowsOf(roots[..last], root);
      var group := RowsOf(roots, root);
      assert forall k :: 0 <= k < |shorter| ==> group[k] == shorter[k];
      if roots[last] == root {
        assert group[|shorter|] == last;
      }
    }
  }

  function Concat(a: seq<nat>, b: seq<nat>): seq<nat> {
    a + b
  }

  function Singles(n: nat): (r: seq<seq<nat>>)
    ensures |r| == n && forall i :: 0 <= i < n ==> r[i] == [i]
  {
    seq(n, i requires 0 <= i < n => [i])
  }

  /** The map the source fills row by row: the roots in order of their first row, each with its rows. */
  ghost predicate Grouping(roots: seq<nat>, groups: OrderedMap<nat, seq<nat>>) {
    && groups.order == Unique(roots)
    && (forall root :: root in groups.at <==> root in roots)
    && forall root :: root in groups.at ==> groups.at[root] == RowsOf(roots, root)
  }

  lemma {:induction false} GatheredRows(roots: seq<nat>, root: nat)
    ensures var gathered := ValuesOf(roots, Singles(|roots|), root);
      if gathered == [] then RowsOf(roots, root) == [] else Reduced(gathered, Concat) == RowsOf(roots, root)
  {
    if roots != [] {
      var last := |roots| - 1;
      var shorter := ValuesOf(roots[..last], Singles(last), root);
      GatheredRows(roots[..last], root);
      assert Singles(|roots|)[..last] == Singles(last);
      if roots[last] == root {
        var gathered := shorter + [[last]];
        assert gathered[..|gathered| - 1] == shorter;
      } else {
        assert shorter + [] == shorter;
      }
    }
  }

  method GroupByRoot(roots: seq<nat>) returns (groups: OrderedMap<nat, seq<nat>>)
    ensures Grouping(roots, groups)
  {
    groups := Tally(roots, Singles(|roots|), Concat);
    forall root | root in groups.at
      ensures groups.at[root] == RowsOf(roots, root)
    {
      GatheredRows(roots, root);
      assert IsTally(roots, Singles(|roots|), Concat, root, groups.at[root]);
    }
  }

  // ---------------------------------------------------------------- one row from a group

  /** A met row that rests on lab skills only. */
  predicate LabOnly(row: Row, lab: set<string>) {
    row.skills != [] && AllIn(row.skills, lab)
  }

  predicate AllIn(ids: seq<string>, wanted: set<string>) {
    ids == [] || (ids[0] in wanted && AllIn(ids[1..], wanted))
  }

  /** `strength`: the match first, then client experience before the lab (the number is NaN for an unread match). */
  function Strength(row: Row, lab: set<string>): int
    requires row.match_ != Unread
  {
    2 * Strictness(row.match_).value + if LabOnly(row, lab) then 0 else 1
  }

  predicate Stronger(a: Row, b: Row, lab: set<string>) {
    a.match_ != Unread && b.match_ != Unread && Strength(a, lab) > Strength(b, lab)
  }

  /** `members.reduce(...)`: the first of the strongest. */
  function Best(members: seq<Row>, lab: set<string>): (best: Row)
    requires members != []
    ensures best in members
  {
    if |members| == 1 then members[0]
    else
      var kept := Best(members[..|members| - 1], lab);
      var row := members[|members| - 1];
      if Stronger(row, kept, lab) then row else kept
  }

  /** The place of the first of the strongest. */
  ghost predicate FirstStrongest(members: seq<Row>, lab: set<string>, at: nat) {
    && at < |members|
    && (forall k :: 0 <= k < |members| ==> !Stronger(members[k], members[at], lab))
    && (forall k :: 0 <= k < at ==> Stronger(members[at], members[k], lab))
  }

  /** Three readable rows are compared by one number each. */
  lemma StrengthIsOneNumber(a: Row, b: Row, c: Row, lab: set<string>)
    requires a.match_ != Unread && b.match_ != Unread && c.match_ != Unread
    ensures Stronger(a, b, lab) && !Stronger(c, b, lab) ==> Stronger(a, c, lab)
    ensures Stronger(a, b, lab) ==> !Stronger(b, a, lab)
  {
  }

  lemma StrongestAfterOne(rest: seq<Row>, lab: set<string>, at: nat, last: Row)
    requires FirstStrongest(rest, lab, at) && last.match_ != Unread
    requires forall k :: 0 <= k < |rest| ==> rest[k].match_ != Unread
    ensures FirstStrongest(rest + [last], lab, if Stronger(last, rest[at], lab) then |rest| else at)
  {
    forall k | 0 <= k < |rest|
      ensures Stronger(last, rest[at], lab) ==> Stronger(last, rest[k], lab) && !Stronger(rest[k], last, lab)
    {
      StrengthIsOneNumber(last, rest[at], rest[k], lab);
      StrengthIsOneNumber(last, rest[k], last, lab);
    }
  }

  lemma {:induction false} BestIsFirstStrongest(members: seq<Row>, lab: set<string>) returns (at: nat)
    requires members != [] && forall k :: 0 <= k < |members| ==> members[k].match_ != Unread
    ensures FirstStrongest(members, lab, at) && members[at] == Best(members, lab)
  {
    if |members| == 1 {
      at := 0;
    } else {
      var rest, last := members[..|members| - 1], members[|members| - 1];
      var before := BestIsFirstStrongest(rest, lab);
      StrongestAfterOne(rest, lab, before, last);
      assert rest + [last] == members;
      at := if Stronger(last, rest[before], lab) then |rest| else before;
    }
  }

  function Names(members: seq<Row>): (names: seq<string>)
    ensures |names| == |members| && forall i :: 0 <= i < |members| ==> names[i] == members[i].name
  {
    if members == [] then [] else [members[0].name] + Names(members[1..])
  }

  predicate NeverSet(row: Row) {
    row.never != Unset
  }

  predicate IsMust(row: Row) {
    row.importance == Must
  }

  /** The one row a group becomes. */
  function MergedRow(members: seq<Row>, lab: set<string>): Row
    requires members != []
  {
    if |members| == 1 then members[0]
    else
      var best := Best(members, lab);
      var never := Names(Keep(members, NeverSet));
      Row(
        name := Joined(Names(members), " / "),
        importance := if Any(members, IsMust) then Must else Nice,
        match_ := best.match_,
        skills := best.skills,
        kind := Skill,
        never := if |never| == |members| then Claimed else Unset,
        judged := false,
        members := Names(members),
        neverMembers := never)
  }

  lemma {:induction false} KeepsEveryMember(members: seq<Row>, p: Row -> bool)
    ensures |Keep(members, p)| == |members| <==> forall row :: row in members ==> p(row)
  {
    if members != [] {
      KeepsEveryMember(members[1..], p);
    }
  }

  lemma BestIsStrongest(members: seq<Row>, lab: set<string>)
    requires members != [] && forall k :: 0 <= k < |members| ==> members[k].match_ != Unread
    ensures Best(members, lab) in members && forall row :: row in members ==> !Stronger(row, Best(members, lab), lab)
  {
    var at := BestIsFirstStrongest(members, lab);
    forall row | row in members
      ensures !Stronger(row, members[at], lab)
    {
      var k :| 0 <= k < |members| && members[k] == row;
    }
  }

  // ---------------------------------------------------------------- the merged row, from its members' own fields

  /** Met through lab skills, and through no other. */
  ghost predicate RestsOnLab(row: Row, lab: set<string>) {
    row.skills != [] && forall id :: id in row.skills ==> id in lab
  }

  /** `a` is as well met as `b`, or better; and, as well met, through more than the lab, unless `b` rests on it too. */
  ghost predicate AtLeast(a: Row, b: Row, lab: set<string>) {
    !Higher(b.match_, a.match_) && (a.match_ == b.match_ && RestsOnLab(a, lab) ==> RestsOnLab(b, lab))
  }

  ghost predicate Leads(members: seq<Row>, lab: set<string>, at: nat) {
    at < |members| && forall k :: 0 <= k < |members| ==> AtLeast(members[at], members[k], lab)
  }

  /** The first member that none is better met than, nor as well met through more than the lab. */
  ghost predicate FirstToLead(members: seq<Row>, lab: set<string>, at: nat) {
    Leads(members, lab, at) && forall k :: 0 <= k < at ==> !Leads(members, lab, k)
  }

  predicate AsMetAs(a: Row, b: Row) {
    a.match_ == b.match_ && a.skills == b.skills
  }

  ghost predicate AsTheFirstToLead(members: seq<Row>, lab: set<string>, merged: Row) {
    exists at: nat :: FirstToLead(members, lab, at) && AsMetAs(merged, members[at])
  }

  lemma {:induction false} AllInIsEach(ids: seq<string>, wanted: set<string>)
    ensures AllIn(ids, wanted) <==> forall id :: id in ids ==> id in wanted
  {
    if ids != [] {
      AllInIsEach(ids[1..], wanted);
    }
  }

  lemma StrongerIsBetter(a: Row, b: Row, lab: set<string>)
    requires a.match_ != Unread && b.match_ != Unread
    ensures Stronger(b, a, lab) <==> !AtLeast(a, b, lab)
  {
    AllInIsEach(a.skills, lab);
    AllInIsEach(b.skills, lab);
  }

  lemma FirstStrongestLeads(members: seq<Row>, lab: set<string>, at: nat)
    requires FirstStrongest(members, lab, at) && forall k :: 0 <= k < |members| ==> members[k].match_ != Unread
    ensures FirstToLead(members, lab, at)
  {
    forall k | 0 <= k < |members|
      ensures AtLeast(members[at], members[k], lab)
    {
      StrongerIsBetter(members[at], members[k], lab);
    }
    forall k | 0 <= k < at
      ensures !Leads(members, lab, k)
    {
      StrongerIsBetter(members[k], members[at], lab);
    }
  }

  /** A merged row is as met as the first example that leads the others, through that example's skills. */
  lemma MergedRowIsItsBest(members: seq<Row>, lab: set<string>)
    requires |members| >= 2 && forall k :: 0 <= k < |members| ==> members[k].match_ != Unread
    ensures AsTheFirstToLead(members, lab, MergedRow(members, lab))
  {
    var at := BestIsFirstStrongest(members, lab);
    FirstStrongestLeads(members, lab, at);
    MergedRowOfBest(members, lab);
  }

  /** A must when some member is, never claimed exactly when every one is, and naming them all. */
  ghost predicate SpeaksForAll(members: seq<Row>, merged: Row) {
    && (merged.importance == Must <==> exists row :: row in members && row.importance == Must)
    && (merged.never == Claimed <==> forall row :: row in members ==> row.never != Unset)
    && merged.never != Truthy && merged.kind == Skill && !merged.judged
    && |merged.members| == |members|
    && (forall k :: 0 <= k < |members| ==> merged.members[k] == members[k].name)
  }

  /**
   A merged row is a must when some example is, never claimed exactly when every example is; it lists the names of all
   of them, and is never to verify.
   */
  lemma MergedRowSpeaksForAll(members: seq<Row>, lab: set<string>)
    requires |members| >= 2
    ensures SpeaksForAll(members, MergedRow(members, lab))
  {
    MergedRowOfBest(members, lab);
  }

  /** Some member of this name has `never` set. */
  ghost predicate NeverByName(members: seq<Row>, name: string) {
    exists row :: row in members && row.name == name && row.never != Unset
  }

  lemma NameIn(members: seq<Row>, name: string)
    ensures name in Names(members) <==> exists row :: row in members && row.name == name
  {
    if name in Names(members) {
      var i :| 0 <= i < |members| && Names(members)[i] == name;
      assert members[i] in members;
    }
    if row :| row in members && row.name == name {
      var i :| 0 <= i < |members| && members[i] == row;
      assert Names(members)[i] == name;
    }
  }

  /** And it lists apart the names of those never claimed. */
  lemma MergedRowNamesItsNever(members: seq<Row>, lab: set<string>, name: string)
    requires |members| >= 2
    ensures name in MergedRow(members, lab).neverMembers <==> NeverByName(members, name)
  {
    NameIn(Keep(members, NeverSet), name);
  }

  // ---------------------------------------------------------------- the whole merge

  function Picked(rows: seq<Row>, indexes: seq<nat>): (r: seq<Row>)
    requires forall k :: 0 <= k < |indexes| ==> indexes[k] < |rows|
    ensures |r| == |indexes| && forall k :: 0 <= k < |r| ==> r[k] == rows[indexes[k]]
  {
    seq(|indexes|, k requires 0 <= k < |indexes| => rows[indexes[k]])
  }

  /** What decides which rows an enumeration names: `mentions(inside, core(name))`, one predicate an enumeration. */
  datatype Offered = Offered(enumerations: seq<string -> bool>, spoken: string -> bool)

  predicate Joinable(row: Row, offered: Offered) {
    row.kind != Quality && row.kind != Certification && !offered.spoken(row.name)
  }

  /** The rows an enumeration names, in order. */
  function NamedBy(rows: seq<Row>, inside: string -> bool, offered: Offered): (r: seq<nat>)
    ensures forall i :: i in r ==> i < |rows| && Joinable(rows[i], offered) && inside(rows[i].name)
    ensures forall i :: 0 <= i < |rows| && Joinable(rows[i], offered) && inside(rows[i].name) ==> i in r
  {
    if rows == [] then []
    else
      var last := |rows| - 1;
      NamedBy(rows[..last], inside, offered)
        + if Joinable(rows[last], offered) && inside(rows[last].name) then [last] else []
  }

  function NamedRows(rows: seq<Row>, offered: Offered): (r: seq<seq<nat>>)
    ensures |r| == |offered.enumerations|
    ensures forall e :: 0 <= e < |r| ==> r[e] == NamedBy(rows, offered.enumerations[e], offered)
  {
    seq(|offered.enumerations|, e requires 0 <= e < |offered.enumerations| => NamedBy(rows, offered.enumerations[e], offered))
  }

  /** Two rows have one root exactly when a chain of enumerations connects them. */
  ghost predicate RootsOfComponents(named: seq<seq<nat>>, roots: seq<nat>) {
    forall a, b :: 0 <= a < |roots| && 0 <= b < |roots| ==> (roots[a] == roots[b] <==> Connected(named, a, b))
  }

  ghost function Members(rows: seq<Row>, roots: seq<nat>, root: nat): (r: seq<Row>)
    requires |roots| == |rows|
  {
    RowsOfRoot(roots, root);
    Picked(rows, RowsOf(roots, root))
  }

  /** `out` is the table with each connected group of rows made one, in the order of the groups' first rows. */
  ghost predicate IsMerging(rows: seq<Row>, offered: Offered, lab: set<string>, roots: seq<nat>, out: seq<Row>) {
    && |roots| == |rows| && RootsOfComponents(NamedRows(rows, offered), roots)
    && |out| == |Unique(roots)|
    && forall g :: 0 <= g < |out| ==>
         Members(rows, roots, Unique(roots)[g]) != [] && out[g] == MergedRow(Members(rows, roots, Unique(roots)[g]), lab)
  }

  method MergeExamples(rows: seq<Row>, offered: Offered, lab: set<string>) returns (out: seq<Row>)
    ensures exists roots :: IsMerging(rows, offered, lab, roots, out)
  {
    var roots := Roots(|rows|, NamedRows(rows, offered));
    var groups := GroupByRoot(roots);
    out := [];
    for g := 0 to |groups.order|
      invariant |out| == g
      invariant forall h :: 0 <= h < g ==>
        Members(rows, roots, groups.order[h]) != [] && out[h] == MergedRow(Members(rows, roots, groups.order[h]), lab)
    {
      var root := groups.order[g];
      assert root in groups.order && root in roots;
      RowsOfRoot(roots, root);
      var members := Picked(rows, groups.at[root]);
      assert members == Members(rows, roots, root);
      NotEmpty(roots, root);
      out := out + [MergedRow(members, lab)];
    }
    assert IsMerging(rows, offered, lab, roots, out);
  }

  lemma NotEmpty(roots: seq<nat>, root: nat)
    requires root in roots
    ensures RowsOf(roots, root) != []
  {
    RowsOfRoot(roots, root);
    var i :| 0 <= i < |roots| && roots[i] == root;
    assert i in RowsOf(roots, root);
  }

  /** Each row is in exactly one group, the one it shares with exactly the rows it is connected to. */
  lemma EachRowInOneGroup(rows: seq<Row>, offered: Offered, lab: set<string>, roots: seq<nat>, out: seq<Row>, i: nat)
    requires IsMerging(rows, offered, lab, roots, out) && i < |rows|
    ensures exists g :: 0 <= g < |out| && Unique(roots)[g] == roots[i]
    ensures forall g :: 0 <= g < |out| ==> (i in RowsOf(roots, Unique(roots)[g]) <==> Unique(roots)[g] == roots[i])
    ensures forall j :: 0 <= j < |rows| ==> (j in RowsOf(roots, roots[i]) <==> Connected(NamedRows(rows, offered), i, j))
  {
    assert roots[i] in Unique(roots);
    forall g | 0 <= g < |out|
      ensures i in RowsOf(roots, Unique(roots)[g]) <==> Unique(roots)[g] == roots[i]
    {
      RowsOfRoot(roots, Unique(roots)[g]);
    }
    RowsOfRoot(roots, roots[i]);
  }

  lemma MembersAreRows(rows: seq<Row>, roots: seq<nat>, root: nat)
    requires |roots| == |rows|
    ensures forall k :: 0 <= k < |Members(rows, roots, root)| ==> Members(rows, roots, root)[k] in rows
  {
    RowsOfRoot(roots, root);
  }

  /** A lone row itself; several as the first that leads them, and for all of them. */
  ghost predicate IsMergeOf(members: seq<Row>, lab: set<string>, merged: Row) {
    && (|members| == 1 ==> merged == members[0])
    && (|members| >= 2 ==> SpeaksForAll(members, merged) && AsTheFirstToLead(members, lab, merged))
  }

  lemma MergedRowIsMergeOf(members: seq<Row>, lab: set<string>)
    requires members != [] && forall k :: 0 <= k < |members| ==> members[k].match_ != Unread
    ensures IsMergeOf(members, lab, MergedRow(members, lab))
  {
    if |members| >= 2 {
      MergedRowIsItsBest(members, lab);
      MergedRowSpeaksForAll(members, lab);
    }
  }

  /** One row a group, made of its members alone. */
  lemma EachGroupIsMerged(rows: seq<Row>, offered: Offered, lab: set<string>, roots: seq<nat>, out: seq<Row>, g: nat)
    requires IsMerging(rows, offered, lab, roots, out) && g < |out|
    requires forall row :: row in rows ==> row.match_ != Unread
    ensures IsMergeOf(Members(rows, roots, Unique(roots)[g]), lab, out[g])
  {
    MembersAreRows(rows, roots, Unique(roots)[g]);
    MergedRowIsMergeOf(Members(rows, roots, Unique(roots)[g]), lab);
  }

  lemma FirstRowOf(roots: seq<nat>, root: nat)
    requires root in roots
    ensures RowsOf(roots, root) != [] && FirstAt(roots, root, RowsOf(roots, root)[0])
  {
    NotEmpty(roots, root);
    RowsOfRoot(roots, root);
    assert forall i :: 0 <= i < RowsOf(roots, root)[0] ==> i !in RowsOf(roots, root);
  }

  /** The groups follow their first rows. */
  lemma GroupsFollowTheirFirstRows(roots: seq<nat>, g: nat, h: nat)
    requires g < h < |Unique(roots)|
    ensures var a, b := RowsOf(roots, Unique(roots)[g]), RowsOf(roots, Unique(roots)[h]);
      a != [] && b != [] && a[0] < b[0]
  {
    assert Unique(roots)[g] in Unique(roots) && Unique(roots)[h] in Unique(roots);
    FirstRowOf(roots, Unique(roots)[g]);
    FirstRowOf(roots, Unique(roots)[h]);
    UniqueInOrder(roots, g, h, RowsOf(roots, Unique(roots)[g])[0], RowsOf(roots, Unique(roots)[h])[0]);
  }

  // ---------------------------------------------------------------- what the merge keeps

  /** Two rows of one group were each named by some enumeration. */
  lemma GroupedRowsWereNamed(named: seq<seq<nat>>, a: nat, b: nat)
    requires Connected(named, a, b) && a != b
    ensures exists e :: 0 <= e < |named| && a in named[e]
  {
    var path :| Joins(named, a, b, path);
    assert Linked(named, path[0], path[0 + 1]);
  }

  /** The first member of full strength (met, and not through lab skills only) is a degree. */
  ghost predicate DegreeLeads(members: seq<Row>, lab: set<string>) {
    exists i :: 0 <= i < |members| && members[i].kind == Degree && members[i].match_ == Yes
      && forall k :: 0 <= k < i ==> !(members[k].match_ == Yes && !RestsOnLab(members[k], lab))
  }

  lemma BestIsALeadingDegree(members: seq<Row>, lab: set<string>)
    requires members != []
    requires forall k :: 0 <= k < |members| ==> members[k].match_ != Unread
    requires forall k :: 0 <= k < |members| && members[k].kind == Degree ==> members[k].skills == []
    ensures var best := Best(members, lab); best.kind == Degree && best.match_ == Yes <==> DegreeLeads(members, lab)
  {
    var at := BestIsFirstStrongest(members, lab);
    FirstStrongestLeads(members, lab, at);
    if DegreeLeads(members, lab) {
      var i :| 0 <= i < |members| && members[i].kind == Degree && members[i].match_ == Yes
        && forall k :: 0 <= k < i ==> !(members[k].match_ == Yes && !RestsOnLab(members[k], lab));
      assert AtLeast(members[at], members[i], lab);
      assert Leads(members, lab, i);
    } else {
      assert forall k :: 0 <= k < at ==> !Leads(members, lab, k);
      FullBeforeLeads(members, lab, at);
    }
  }

  lemma FullBeforeLeads(members: seq<Row>, lab: set<string>, at: nat)
    requires at < |members| && forall k :: 0 <= k < at ==> !Leads(members, lab, k)
    ensures forall k :: 0 <= k < at ==> !(members[k].match_ == Yes && !RestsOnLab(members[k], lab))
  {
    forall k | 0 <= k < at
      ensures !(members[k].match_ == Yes && !RestsOnLab(members[k], lab))
    {
      FullLeads(members, lab, k);
    }
  }

  lemma FullLeads(members: seq<Row>, lab: set<string>, k: nat)
    requires k < |members|
    ensures members[k].match_ == Yes && !RestsOnLab(members[k], lab) ==> Leads(members, lab, k)
  {
  }

  /** Every member has `never` set, by `true` or by another value, and some member is met. */
  ghost predicate NeverBesideMet(members: seq<Row>) {
    (forall row :: row in members ==> NeverSet(row)) && exists row :: row in members && Met(row.match_)
  }

  /** The rows a group may hold: the source keeps qualities, certifications and languages out of every group. */
  ghost predicate Mergeable(row: Row, usable: set<string>) {
    Sound(row, usable) && row.kind != Quality && row.kind != Certification && row.kind != Language
  }

  /** A met row is stronger than any that is not, so the strongest is met as soon as some member is. */
  lemma MetIsStronger(a: Row, b: Row, lab: set<string>, usable: set<string>)
    requires Mergeable(a, usable) && Mergeable(b, usable) && Met(a.match_) && !Met(b.match_)
    ensures Stronger(a, b, lab)
  {
  }

  lemma BestIsMet(members: seq<Row>, lab: set<string>, usable: set<string>)
    requires members != [] && forall k :: 0 <= k < |members| ==> Mergeable(members[k], usable)
    ensures Mergeable(Best(members, lab), usable)
    ensures Met(Best(members, lab).match_) <==> exists row :: row in members && Met(row.match_)
  {
    BestIsStrongest(members, lab);
    var best := Best(members, lab);
    if row :| row in members && Met(row.match_) {
      if !Met(best.match_) {
        MetIsStronger(row, best, lab, usable);
        assert false;
      }
    }
  }

  /**
   A merged row passes the checks its members pass exactly when no met degree leads the group: a degree is met
   without a skill, and the merged row no longer says that it is a degree. It is sound exactly when, besides, it is
   not both met and never claimed: the merge writes `true` over any value of `never` that counts for true.
   */
  lemma MergedRowSound(members: seq<Row>, lab: set<string>, usable: set<string>)
    requires |members| >= 2
    requires forall k :: 0 <= k < |members| ==> Mergeable(members[k], usable)
    ensures RowPasses(MergedRow(members, lab), usable) <==> !DegreeLeads(members, lab)
    ensures Sound(MergedRow(members, lab), usable) <==> !DegreeLeads(members, lab) && !NeverBesideMet(members)
  {
    DegreeMembersHoldNoSkill(members, usable);
    BestIsALeadingDegree(members, lab);
    BestIsMet(members, lab, usable);
    MergedRowOfBest(members, lab);
    MergedLikeItsBest(Best(members, lab), MergedRow(members, lab), usable);
  }

  lemma DegreeMembersHoldNoSkill(members: seq<Row>, usable: set<string>)
    requires forall k :: 0 <= k < |members| ==> Mergeable(members[k], usable)
    ensures forall k :: 0 <= k < |members| ==> members[k].match_ != Unread
    ensures forall k :: 0 <= k < |members| && members[k].kind == Degree ==> members[k].skills == []
  {
    forall k | 0 <= k < |members|
      ensures members[k].match_ != Unread && (members[k].kind == Degree ==> members[k].skills == [])
    {
      assert Mergeable(members[k], usable);
    }
  }

  lemma MergedRowOfBest(members: seq<Row>, lab: set<string>)
    requires |members| >= 2
    ensures var best, merged := Best(members, lab), MergedRow(members, lab);
      && merged.kind == Skill && merged.match_ == best.match_ && merged.skills == best.skills
      && (merged.never == Claimed <==> forall row :: row in members ==> NeverSet(row))
  {
    KeepsEveryMember(members, NeverSet);
  }

  lemma MergedLikeItsBest(best: Row, merged: Row, usable: set<string>)
    requires Mergeable(best, usable)
    requires merged.kind == Skill && merged.match_ == best.match_ && merged.skills == best.skills
    ensures RowPasses(merged, usable) <==> !(best.kind == Degree && best.match_ == Yes)
    ensures Sound(merged, usable) <==> !(best.kind == Degree && best.match_ == Yes) && !(merged.never == Claimed && Met(best.match_))
  {
  }

  /** Some group of two rows or more is led by a met degree. */
  ghost predicate SomeDegreeLeads(rows: seq<Row>, roots: seq<nat>, lab: set<string>)
    requires |roots| == |rows|
  {
    exists root :: root in roots && |RowsOf(roots, root)| >= 2 && DegreeLeads(Members(rows, roots, root), lab)
  }

  /** Some group of two rows or more has `never` set on all of them and one of them met. */
  ghost predicate SomeNeverMet(rows: seq<Row>, roots: seq<nat>)
    requires |roots| == |rows|
  {
    exists root :: root in roots && |RowsOf(roots, root)| >= 2 && NeverBesideMet(Members(rows, roots, root))
  }

  /** What settling leaves of each row, before the merge. */
  ghost predicate Settled(row: Row, offered: Offered, usable: set<string>) {
    Sound(row, usable) && (row.kind == Language ==> offered.spoken(row.name))
  }

  lemma GroupIsMergeable(rows: seq<Row>, offered: Offered, usable: set<string>, roots: seq<nat>, root: nat)
    requires |roots| == |rows| && RootsOfComponents(NamedRows(rows, offered), roots)
    requires forall i :: 0 <= i < |rows| ==> Settled(rows[i], offered, usable)
    requires root in roots && |RowsOf(roots, root)| >= 2
    ensures forall k :: 0 <= k < |Members(rows, roots, root)| ==> Mergeable(Members(rows, roots, root)[k], usable)
  {
    RowsOfRoot(roots, root);
    var group, members := RowsOf(roots, root), Members(rows, roots, root);
    forall k | 0 <= k < |members|
      ensures Mergeable(members[k], usable)
    {
      var other := if k == 0 then 1 else 0;
      assert members[k] == rows[group[k]];
      assert Settled(rows[group[k]], offered, usable);
      GroupedRowsWereNamed(NamedRows(rows, offered), group[k], group[other]);
    }
  }

  lemma GroupSound(rows: seq<Row>, offered: Offered, lab: set<string>, usable: set<string>, roots: seq<nat>, root: nat)
    requires |roots| == |rows| && RootsOfComponents(NamedRows(rows, offered), roots)
    requires forall i :: 0 <= i < |rows| ==> Settled(rows[i], offered, usable)
    requires root in roots
    ensures Members(rows, roots, root) != []
    ensures var merged, members := MergedRow(Members(rows, roots, root), lab), Members(rows, roots, root);
      && (RowPasses(merged, usable) <==> !(|RowsOf(roots, root)| >= 2 && DegreeLeads(members, lab)))
      && (Sound(merged, usable) <==> !(|RowsOf(roots, root)| >= 2 && (DegreeLeads(members, lab) || NeverBesideMet(members))))
  {
    RowsOfRoot(roots, root);
    NotEmpty(roots, root);
    var group, members := RowsOf(roots, root), Members(rows, roots, root);
    if |group| >= 2 {
      GroupIsMergeable(rows, offered, usable, roots, root);
      MergedRowSound(members, lab, usable);
    } else {
      assert members[0] == rows[group[0]];
      assert Settled(rows[group[0]], offered, usable);
    }
  }

  lemma GroupOfRoot(roots: seq<nat>, root: nat) returns (g: nat)
    requires root in roots
    ensures g < |Unique(roots)| && Unique(roots)[g] == root
  {
    assert root in Unique(roots);
    g :| 0 <= g < |Unique(roots)| && Unique(roots)[g] == root;
  }

  /** Merging examples keeps every row passing exactly when no group of two rows or more is led by a met degree. */
  lemma MergeKeepsTheTableValid(rows: seq<Row>, offered: Offered, lab: set<string>, usable: set<string>,
                                roots: seq<nat>, out: seq<Row>)
    requires IsMerging(rows, offered, lab, roots, out)
    requires forall i :: 0 <= i < |rows| ==> Settled(rows[i], offered, usable)
    ensures (forall row :: row in out ==> RowPasses(row, usable)) <==> !SomeDegreeLeads(rows, roots, lab)
  {
    forall g | 0 <= g < |out|
      ensures !RowPasses(out[g], usable) ==> SomeDegreeLeads(rows, roots, lab)
    {
      assert Unique(roots)[g] in Unique(roots);
      GroupSound(rows, offered, lab, usable, roots, Unique(roots)[g]);
    }
    if SomeDegreeLeads(rows, roots, lab) {
      var root :| root in roots && |RowsOf(roots, root)| >= 2 && DegreeLeads(Members(rows, roots, root), lab);
      var g := GroupOfRoot(roots, root);
      GroupSound(rows, offered, lab, usable, roots, root);
      assert out[g] in out && !RowPasses(out[g], usable);
    }
  }

  /**
   And it keeps every row sound exactly when, besides, no group of two rows or more has `never` set on all of them
   and one of them met.
   */
  lemma MergeKeepsTheTableSound(rows: seq<Row>, offered: Offered, lab: set<string>, usable: set<string>,
                                roots: seq<nat>, out: seq<Row>)
    requires IsMerging(rows, offered, lab, roots, out)
    requires forall i :: 0 <= i < |rows| ==> Settled(rows[i], offered, usable)
    ensures (forall row :: row in out ==> Sound(row, usable)) <==> !SomeDegreeLeads(rows, roots, lab) && !SomeNeverMet(rows, roots)
  {
    forall g | 0 <= g < |out|
      ensures !Sound(out[g], usable) ==> SomeDegreeLeads(rows, roots, lab) || SomeNeverMet(rows, roots)
    {
      assert Unique(roots)[g] in Unique(roots);
      GroupSound(rows, offered, lab, usable, roots, Unique(roots)[g]);
    }
    if SomeDegreeLeads(rows, roots, lab) || SomeNeverMet(rows, roots) {
      var root :| root in roots && |RowsOf(roots, root)| >= 2
        && (DegreeLeads(Members(rows, roots, root), lab) || NeverBesideMet(Members(rows, roots, root)));
      var g := GroupOfRoot(roots, root);
      GroupSound(rows, offered, lab, usable, roots, root);
      assert out[g] in out && !Sound(out[g], usable);
    }
  }

  /** A met degree the offer lists beside an unmet skill: the row they become is met by no skill, and is refused. */
  lemma DegreeBesideASkillIsRefused()
    ensures exists degree: Row, skill: Row, usable: set<string> ::
      Mergeable(degree, usable) && Mergeable(skill, usable) && !RowPasses(MergedRow([degree, skill], {}), usable)
  {
    var degree := Row("Bac+5", Must, Yes, [], Degree, Unset, false, [], []);
    var skill := Row("Cobol", Must, No, [], Skill, Unset, false, [], []);
    var members := [degree, skill];
    assert members[..1] == [degree];
    assert Best(members, {}) == degree;
    assert Mergeable(degree, {}) && Mergeable(skill, {});
  }

  const KSH := Row("ksh", Must, Yes, ["ksh"], Skill, Truthy, false, [], [])
  const ZSH := Row("zsh", Must, Yes, ["zsh"], Skill, Truthy, false, [], [])

  /** Two met examples whose `never` is a truthy value other than `true`: the row they become is met and never claimed. */
  lemma TruthyExamplesMergeIntoNever()
    ensures Mergeable(KSH, {"ksh", "zsh"}) && Mergeable(ZSH, {"ksh", "zsh"})
    ensures var merged := MergedRow([KSH, ZSH], {});
      merged.never == Claimed && merged.match_ == Yes && RowPasses(merged, {"ksh", "zsh"}) && !Sound(merged, {"ksh", "zsh"})
  {
    var members := [KSH, ZSH];
    assert members[..1] == [KSH];
    assert !Stronger(ZSH, KSH, {});
    assert Best(members, {}) == KSH;
    KeepsEveryMember(members, NeverSet);
  }
}
