/**
The CV as ranked data for the browser's page (cv/src/tailor.js): every bullet ranked, the ones each experience may
show, and the ones it must.
*/
module PageData {
  import opened Collections
  import opened Rows
  import Sheet
  import Sorting

  datatype MissionKind = Main | Short | Rnd

  datatype Bullet = Bullet(id: string, skills: seq<string>)

  datatype Mission = Mission(id: string, kind: MissionKind, reference: bool, bullets: seq<Bullet>)

  /** What the ranking reads: the profile's missions and skill groups, the model's picks, the settled rows. */
  datatype Cv = Cv(missions: seq<Mission>, groupOf: map<string, string>, picks: seq<string>, rows: seq<Row>)

  // ---------------------------------------------------------------- the ranking

  datatype Entry = Entry(id: string, index: nat, position: nat, pick: int, relevance: nat, tier: nat)

  function Matched(rows: seq<Row>): set<string> {
    set row, id | row in rows && Met(row.match_) && id in row.skills :: id
  }

  predicate InAMatchedGroup(cv: Cv, skill: string) {
    skill in cv.groupOf && cv.groupOf[skill] != "" && exists id :: id in Matched(cv.rows) && id in cv.groupOf && cv.groupOf[id] == cv.groupOf[skill]
  }

  /** `backsRequirement`: a short-mission or R&D bullet that earns its place. */
  predicate Backs(cv: Cv, bullet: Bullet) {
    exists skill :: skill in bullet.skills && (skill in Matched(cv.rows) || (bullet.id in cv.picks && InAMatchedGroup(cv, skill)))
  }

  predicate BackedBy(row: Row, bullet: Bullet) {
    exists id :: id in bullet.skills && id in row.skills
  }

  predicate MainBacks(missions: seq<Mission>, row: Row) {
    exists m, bullet :: m in missions && m.kind == Main && bullet in m.bullets && BackedBy(row, bullet)
  }

  /** A requirement no main mission backs, that this bullet does. */
  predicate Fills(cv: Cv, bullet: Bullet) {
    exists row :: row in cv.rows && row.match_ != No && !MainBacks(cv.missions, row) && BackedBy(row, bullet)
  }

  function IndexOf(ids: seq<string>, id: string): (k: int)
    ensures -1 <= k < |ids|
    ensures k >= 0 ==> ids[k] == id
    ensures k < 0 <==> id !in ids
  {
    if ids == [] then -1
    else if ids[0] == id then 0
    else
      var later := IndexOf(ids[1..], id);
      if later < 0 then -1 else later + 1
  }

  function Relevance(cv: Cv, skills: seq<string>): nat {
    if skills == [] then 0
    else Relevance(cv, skills[..|skills| - 1]) + if skills[|skills| - 1] in Matched(cv.rows) then 1 else 0
  }

  /** The bullets the ranking leaves out: of a short mission or an R&D project, with no requirement to back. */
  predicate Ranks(cv: Cv, mission: Mission, bullet: Bullet) {
    && (mission.kind != Main ==> Backs(cv, bullet))
    && (mission.kind == Short ==> bullet.id in cv.picks || Fills(cv, bullet))
  }

  function EntryOf(cv: Cv, index: nat, position: nat): Entry
    requires index < |cv.missions| && position < |cv.missions[index].bullets|
  {
    var bullet := cv.missions[index].bullets[position];
    var pick, relevance := IndexOf(cv.picks, bullet.id), Relevance(cv, bullet.skills);
    Entry(bullet.id, index, position, pick, relevance, if pick >= 0 then 2 else if relevance > 0 then 1 else 0)
  }

  function EntriesOfMission(cv: Cv, index: nat, n: nat): seq<Entry>
    requires index < |cv.missions| && n <= |cv.missions[index].bullets|
  {
    if n == 0 then []
    else
      var last := cv.missions[index].bullets[n - 1];
      EntriesOfMission(cv, index, n - 1) + if Ranks(cv, cv.missions[index], last) then [EntryOf(cv, index, n - 1)] else []
  }

  function Entries(cv: Cv, n: nat): seq<Entry>
    requires n <= |cv.missions|
  {
    if n == 0 then [] else Entries(cv, n - 1) + EntriesOfMission(cv, n - 1, |cv.missions[n - 1].bullets|)
  }

  /** The order of the ranking: the picks in the model's order, then what backs a requirement, then the rest. */
  predicate Before(a: Entry, b: Entry) {
    if a.tier != b.tier then a.tier > b.tier
    else if a.tier == 2 && a.pick != b.pick then a.pick < b.pick
    else if a.relevance != b.relevance then a.relevance > b.relevance
    else if a.index != b.index then a.index < b.index
    else a.position < b.position
  }

  /** `rankBullets`. */
  function Ranked(cv: Cv): seq<Entry> {
    Sorting.Sorted(Entries(cv, |cv.missions|), Before)
  }

  // ---------------------------------------------------------------- the ranking is what it should be

  ghost predicate InOrder(ranked: seq<Entry>) {
    forall j, k :: 0 <= j < k < |ranked| ==> Before(ranked[j], ranked[k])
  }

  ghost predicate DistinctPlaces(entries: seq<Entry>) {
    forall j, k :: 0 <= j < k < |entries| ==> entries[j].index != entries[k].index || entries[j].position != entries[k].position
  }

  predicate SamePlace(a: Entry, b: Entry) {
    a.index == b.index && a.position == b.position
  }

  /** Two entries of different places are always told apart, and the order never turns round. */
  lemma BeforeIsAnOrder(a: Entry, b: Entry, c: Entry)
    ensures !SamePlace(a, b) ==> Before(a, b) || Before(b, a)
    ensures !(Before(a, b) && Before(b, a))
    ensures Before(a, b) && Before(b, c) ==> Before(a, c)
  {
  }

  predicate OtherPlace(a: Entry, b: Entry) {
    !SamePlace(a, b)
  }

  lemma BeforeSorts()
    ensures Sorting.IsOrder(Before) && Sorting.IsSymmetric(OtherPlace)
  {
    forall a, b
      ensures Before(a, b) ==> !Before(b, a)
    {
      BeforeIsAnOrder(a, b, a);
    }
    forall a, b, c
      ensures Before(a, b) && Before(b, c) ==> Before(a, c)
    {
      BeforeIsAnOrder(a, b, c);
    }
  }

  lemma SortedInOrder(entries: seq<Entry>)
    requires DistinctPlaces(entries)
    ensures InOrder(Sorting.Sorted(entries, Before))
  {
    BeforeSorts();
    Sorting.SortedInOrder(entries, Before);
    assert Sorting.Pairwise(entries, OtherPlace);
    Sorting.SortedPairwise(entries, Before, OtherPlace);
    var r := Sorting.Sorted(entries, Before);
    forall j, k | 0 <= j < k < |r|
      ensures Before(r[j], r[k])
    {
      assert !Before(r[k], r[j]) && OtherPlace(r[j], r[k]);
      BeforeIsAnOrder(r[j], r[k], r[j]);
    }
  }

  /** An entry of the ranking: of a bullet that ranks. */
  ghost predicate IsEntry(cv: Cv, n: nat, x: Entry)
    requires n <= |cv.missions|
  {
    && x.index < n && x.position < |cv.missions[x.index].bullets|
    && Ranks(cv, cv.missions[x.index], cv.missions[x.index].bullets[x.position])
    && x == EntryOf(cv, x.index, x.position)
  }

  lemma {:induction false} EntryOfMission(cv: Cv, index: nat, n: nat, x: Entry)
    requires index < |cv.missions| && n <= |cv.missions[index].bullets|
    ensures x in EntriesOfMission(cv, index, n) <==> x.index == index && x.position < n && IsEntry(cv, |cv.missions|, x)
  {
    if n > 0 {
      EntryOfMission(cv, index, n - 1, x);
    }
  }

  lemma EntriesOfMissionAre(cv: Cv, index: nat, n: nat)
    requires index < |cv.missions| && n <= |cv.missions[index].bullets|
    ensures forall x :: x in EntriesOfMission(cv, index, n) <==> x.index == index && x.position < n && IsEntry(cv, |cv.missions|, x)
  {
    forall x
      ensures x in EntriesOfMission(cv, index, n) <==> x.index == index && x.position < n && IsEntry(cv, |cv.missions|, x)
    {
      EntryOfMission(cv, index, n, x);
    }
  }

  lemma DistinctPlacesOneMore(before: seq<Entry>, e: Entry)
    requires DistinctPlaces(before) && forall x :: x in before ==> x.position < e.position
    ensures DistinctPlaces(before + [e])
  {
    assert forall j :: 0 <= j < |before| ==> before[j] in before;
  }

  lemma {:induction false} EntriesOfMissionDistinct(cv: Cv, index: nat, n: nat)
    requires index < |cv.missions| && n <= |cv.missions[index].bullets|
    ensures DistinctPlaces(EntriesOfMission(cv, index, n))
  {
    if n > 0 {
      var before := EntriesOfMission(cv, index, n - 1);
      EntriesOfMissionDistinct(cv, index, n - 1);
      EntriesOfMissionAre(cv, index, n - 1);
      if Ranks(cv, cv.missions[index], cv.missions[index].bullets[n - 1]) {
        DistinctPlacesOneMore(before, EntryOf(cv, index, n - 1));
      } else {
        assert before + [] == before;
      }
    }
  }

  lemma DistinctPlacesTogether(before: seq<Entry>, last: seq<Entry>, index: nat)
    requires DistinctPlaces(before) && DistinctPlaces(last)
    requires (forall x :: x in before ==> x.index < index) && (forall x :: x in last ==> x.index == index)
    ensures DistinctPlaces(before + last)
  {
    assert forall j :: 0 <= j < |before| ==> before[j] in before;
    assert forall j :: 0 <= j < |last| ==> last[j] in last;
  }

  lemma {:induction false} EntriesAre(cv: Cv, n: nat)
    requires n <= |cv.missions|
    ensures DistinctPlaces(Entries(cv, n))
    ensures forall x :: x in Entries(cv, n) <==> IsEntry(cv, n, x)
  {
    if n > 0 {
      EntriesAre(cv, n - 1);
      EntriesOfMissionAre(cv, n - 1, |cv.missions[n - 1].bullets|);
      EntriesOfMissionDistinct(cv, n - 1, |cv.missions[n - 1].bullets|);
      DistinctPlacesTogether(Entries(cv, n - 1), EntriesOfMission(cv, n - 1, |cv.missions[n - 1].bullets|), n - 1);
    }
  }

  /** The ranking holds exactly the bullets that rank, each once, in its order. */
  lemma RankingIsRight(cv: Cv)
    ensures InOrder(Ranked(cv))
    ensures forall x :: x in Ranked(cv) <==> IsEntry(cv, |cv.missions|, x)
  {
    EntriesAre(cv, |cv.missions|);
    forall x
      ensures x in Ranked(cv) <==> x in Entries(cv, |cv.missions|)
    {
      Sorting.SortedElements(Entries(cv, |cv.missions|), Before, x);
    }
    SortedInOrder(Entries(cv, |cv.missions|));
  }

  /** The model's picks lead, in the model's own order. */
  lemma PicksLead(cv: Cv, j: nat, k: nat)
    requires j < |Ranked(cv)| && k < |Ranked(cv)| && Ranked(cv)[j].id in cv.picks
    requires Ranked(cv)[k].id !in cv.picks || IndexOf(cv.picks, Ranked(cv)[j].id) < IndexOf(cv.picks, Ranked(cv)[k].id)
    ensures j < k
  {
    RankingIsRight(cv);
    var a, b := Ranked(cv)[j], Ranked(cv)[k];
    assert a in Ranked(cv) && b in Ranked(cv);
    assert IsEntry(cv, |cv.missions|, a) && IsEntry(cv, |cv.missions|, b);
    assert Before(a, b);
    assert k < j ==> Before(b, a);
  }

  // ---------------------------------------------------------------- the ranking, from the bullets themselves

  function BulletAt(cv: Cv, m: nat, k: nat): Bullet
    requires HasBullet(cv, m, k)
  {
    cv.missions[m].bullets[k]
  }

  /** A skill that meets some requirement, in full or nearly. */
  ghost predicate MeetsSome(cv: Cv, skill: string) {
    exists row :: row in cv.rows && (row.match_ == Yes || row.match_ == Adjacent) && skill in row.skills
  }

  ghost function Meeting(cv: Cv): string -> bool {
    (skill: string) => MeetsSome(cv, skill)
  }

  /** How many of a bullet's skills meet some requirement. */
  ghost function HowManyMeet(cv: Cv, bullet: Bullet): nat {
    |Keep(bullet.skills, Meeting(cv))|
  }

  ghost predicate EarlierPick(cv: Cv, a: string, b: string) {
    exists i, j :: FirstAt(cv.picks, a, i) && FirstAt(cv.picks, b, j) && i < j
  }

  /**
   Which of two bullets comes first: one the model picked before one it did not; of two picks, the one picked earlier;
   then the one with more skills that meet a requirement; then the more recent mission, and the profile's order.
   */
  ghost predicate ComesFirst(cv: Cv, m: nat, k: nat, n: nat, l: nat)
    requires HasBullet(cv, m, k) && HasBullet(cv, n, l)
  {
    var a, b := BulletAt(cv, m, k), BulletAt(cv, n, l);
    if (a.id in cv.picks) != (b.id in cv.picks) then a.id in cv.picks
    else if a.id in cv.picks && a.id != b.id then EarlierPick(cv, a.id, b.id)
    else if HowManyMeet(cv, a) != HowManyMeet(cv, b) then HowManyMeet(cv, a) > HowManyMeet(cv, b)
    else m < n || (m == n && k < l)
  }

  /** A skill of the same group as one that meets a requirement. */
  ghost predicate NextToOneThatMeets(cv: Cv, skill: string) {
    && skill in cv.groupOf && cv.groupOf[skill] != ""
    && exists other :: other in cv.groupOf && cv.groupOf[other] == cv.groupOf[skill] && MeetsSome(cv, other)
  }

  /** A bullet that meets a requirement, or one the model picked that comes near one. */
  ghost predicate EarnsItsPlace(cv: Cv, bullet: Bullet) {
    || (exists skill :: skill in bullet.skills && MeetsSome(cv, skill))
    || (bullet.id in cv.picks && exists skill :: skill in bullet.skills && NextToOneThatMeets(cv, skill))
  }

  ghost predicate SharesASkill(row: Row, bullet: Bullet) {
    exists id :: id in bullet.skills && id in row.skills
  }

  ghost predicate ShownByAMain(cv: Cv, row: Row) {
    exists m: nat, k: nat :: HasBullet(cv, m, k) && cv.missions[m].kind == Main && SharesASkill(row, BulletAt(cv, m, k))
  }

  /** A bullet that shows a requirement no main mission does. */
  ghost predicate ShowsAlone(cv: Cv, bullet: Bullet) {
    exists row :: row in cv.rows && row.match_ != No && SharesASkill(row, bullet) && !ShownByAMain(cv, row)
  }

  /** The bullets ranked: all of a main mission; of another, those that earn their place, picked ones alone for a short one unless they show something alone. */
  ghost predicate IsRanked(cv: Cv, m: nat, k: nat)
    requires HasBullet(cv, m, k)
  {
    match cv.missions[m].kind
    case Main => true
    case Rnd => EarnsItsPlace(cv, BulletAt(cv, m, k))
    case Short => EarnsItsPlace(cv, BulletAt(cv, m, k)) && (BulletId(cv, m, k) in cv.picks || ShowsAlone(cv, BulletAt(cv, m, k)))
  }

  lemma MatchedMeet(cv: Cv, skill: string)
    ensures skill in Matched(cv.rows) <==> MeetsSome(cv, skill)
  {
  }

  lemma GroupMeets(cv: Cv, skill: string)
    ensures InAMatchedGroup(cv, skill) <==> NextToOneThatMeets(cv, skill)
  {
    forall id
      ensures id in Matched(cv.rows) <==> MeetsSome(cv, id)
    {
      MatchedMeet(cv, id);
    }
  }

  lemma BackingEarns(cv: Cv, bullet: Bullet)
    ensures Backs(cv, bullet) <==> EarnsItsPlace(cv, bullet)
  {
    forall skill
      ensures skill in Matched(cv.rows) <==> MeetsSome(cv, skill)
      ensures InAMatchedGroup(cv, skill) <==> NextToOneThatMeets(cv, skill)
    {
      MatchedMeet(cv, skill);
      GroupMeets(cv, skill);
    }
  }

  lemma MainBacksShow(cv: Cv, row: Row)
    ensures MainBacks(cv.missions, row) <==> ShownByAMain(cv, row)
  {
    if m, bullet :| m in cv.missions && m.kind == Main && bullet in m.bullets && BackedBy(row, bullet) {
      var i: nat :| i < |cv.missions| && cv.missions[i] == m;
      var k: nat :| k < |m.bullets| && m.bullets[k] == bullet;
      assert HasBullet(cv, i, k) && SharesASkill(row, BulletAt(cv, i, k));
    }
    if m: nat, k: nat :| HasBullet(cv, m, k) && cv.missions[m].kind == Main && SharesASkill(row, BulletAt(cv, m, k)) {
      assert cv.missions[m] in cv.missions && BulletAt(cv, m, k) in cv.missions[m].bullets;
      assert BackedBy(row, BulletAt(cv, m, k));
    }
  }

  lemma FillingShowsAlone(cv: Cv, bullet: Bullet)
    ensures Fills(cv, bullet) <==> ShowsAlone(cv, bullet)
  {
    forall row
      ensures MainBacks(cv.missions, row) <==> ShownByAMain(cv, row)
      ensures BackedBy(row, bullet) <==> SharesASkill(row, bullet)
    {
      MainBacksShow(cv, row);
    }
  }

  lemma RanksAreRanked(cv: Cv, m: nat, k: nat)
    requires HasBullet(cv, m, k)
    ensures Ranks(cv, cv.missions[m], BulletAt(cv, m, k)) <==> IsRanked(cv, m, k)
  {
    BackingEarns(cv, BulletAt(cv, m, k));
    FillingShowsAlone(cv, BulletAt(cv, m, k));
  }

  lemma OneSkillMeets(cv: Cv, skills: seq<string>, skill: string)
    ensures |Keep(skills + [skill], Meeting(cv))| == |Keep(skills, Meeting(cv))| + if MeetsSome(cv, skill) then 1 else 0
  {
    KeepSplit(skills, [skill], Meeting(cv));
  }

  lemma {:induction false} RelevanceCounts(cv: Cv, skills: seq<string>)
    ensures Relevance(cv, skills) == |Keep(skills, Meeting(cv))|
  {
    if skills != [] {
      var n := |skills| - 1;
      RelevanceCounts(cv, skills[..n]);
      OneSkillMeets(cv, skills[..n], skills[n]);
      MatchedMeet(cv, skills[n]);
      assert skills[..n] + [skills[n]] == skills;
    }
  }

  lemma {:induction false} IndexIsFirst(ids: seq<string>, id: string)
    requires id in ids
    ensures IndexOf(ids, id) >= 0 && FirstAt(ids, id, IndexOf(ids, id))
  {
    if ids[0] != id {
      IndexIsFirst(ids[1..], id);
      assert ids[..IndexOf(ids, id)] == [ids[0]] + ids[1..][..IndexOf(ids[1..], id)];
    }
  }

  lemma EarlierPickIs(cv: Cv, a: string, b: string)
    requires a in cv.picks && b in cv.picks && a != b
    ensures EarlierPick(cv, a, b) <==> IndexOf(cv.picks, a) < IndexOf(cv.picks, b)
    ensures IndexOf(cv.picks, a) != IndexOf(cv.picks, b)
  {
    IndexIsFirst(cv.picks, a);
    IndexIsFirst(cv.picks, b);
    if i, j :| FirstAt(cv.picks, a, i) && FirstAt(cv.picks, b, j) && i < j {
      FirstIsOne(cv.picks, a, i, IndexOf(cv.picks, a));
      FirstIsOne(cv.picks, b, j, IndexOf(cv.picks, b));
    }
  }

  lemma BeforeComesFirst(cv: Cv, m: nat, k: nat, n: nat, l: nat)
    requires HasBullet(cv, m, k) && HasBullet(cv, n, l)
    ensures Before(EntryOf(cv, m, k), EntryOf(cv, n, l)) <==> ComesFirst(cv, m, k, n, l)
  {
    var a, b := BulletAt(cv, m, k), BulletAt(cv, n, l);
    RelevanceCounts(cv, a.skills);
    RelevanceCounts(cv, b.skills);
    if a.id in cv.picks && b.id in cv.picks && a.id != b.id {
      EarlierPickIs(cv, a.id, b.id);
    }
  }

  /** An entry of the ranking stands for a bullet. */
  ghost predicate StandsFor(cv: Cv, x: Entry) {
    HasBullet(cv, x.index, x.position) && x.id == BulletId(cv, x.index, x.position)
  }

  ghost predicate StandsBefore(cv: Cv, x: Entry, y: Entry) {
    StandsFor(cv, x) && StandsFor(cv, y) && ComesFirst(cv, x.index, x.position, y.index, y.position)
  }

  /** The ranking, from the bullets: every bullet that is ranked, and no other, each before those it comes before. */
  lemma RankingOfBullets(cv: Cv)
    ensures forall j :: 0 <= j < |Ranked(cv)| ==> StandsFor(cv, Ranked(cv)[j])
    ensures forall j, k :: 0 <= j < k < |Ranked(cv)| ==> StandsBefore(cv, Ranked(cv)[j], Ranked(cv)[k])
    ensures forall m: nat, k: nat :: HasBullet(cv, m, k) ==> (IsRanked(cv, m, k) <==> HasEntry(cv, m, k))
  {
    RankingIsRight(cv);
    var ranked := Ranked(cv);
    assert forall j :: 0 <= j < |ranked| ==> ranked[j] in ranked;
    forall j, k | 0 <= j < k < |ranked|
      ensures StandsBefore(cv, ranked[j], ranked[k])
    {
      assert StandsFor(cv, ranked[j]) && StandsFor(cv, ranked[k]);
      BeforeComesFirst(cv, ranked[j].index, ranked[j].position, ranked[k].index, ranked[k].position);
    }
    forall m: nat, k: nat | HasBullet(cv, m, k)
      ensures IsRanked(cv, m, k) <==> HasEntry(cv, m, k)
    {
      EntryWhenRanked(cv, m, k);
    }
  }

  ghost predicate HasEntry(cv: Cv, m: nat, k: nat) {
    exists x :: x in Ranked(cv) && x.index == m && x.position == k
  }

  lemma EntryWhenRanked(cv: Cv, m: nat, k: nat)
    requires HasBullet(cv, m, k)
    ensures IsRanked(cv, m, k) <==> HasEntry(cv, m, k)
  {
    RankingIsRight(cv);
    RanksAreRanked(cv, m, k);
    if IsRanked(cv, m, k) {
      assert IsEntry(cv, |cv.missions|, EntryOf(cv, m, k));
    }
  }

  // ---------------------------------------------------------------- the lines of the CV

  /** Every experience shows at least this many bullets, so the career has no hole. */
  const UNSELECTED_BULLETS := 1

  /** What `validateProfile` asks of the missions, and that one of them is main. */
  ghost predicate ValidCv(cv: Cv) {
    && (forall m :: 0 <= m < |cv.missions| ==> cv.missions[m].bullets != [] && (cv.missions[m].reference ==> cv.missions[m].kind == Main))
    && (forall m, n :: 0 <= m < n < |cv.missions| ==> !(cv.missions[m].reference && cv.missions[n].reference))
    && (exists m :: 0 <= m < |cv.missions| && cv.missions[m].kind == Main)
    && (forall m, n, j, k :: HasBullet(cv, m, j) && HasBullet(cv, n, k) && BulletId(cv, m, j) == BulletId(cv, n, k) ==> m == n && j == k)
  }

  predicate HasBullet(cv: Cv, m: nat, k: nat) {
    m < |cv.missions| && k < |cv.missions[m].bullets|
  }

  function BulletId(cv: Cv, m: nat, k: nat): string
    requires HasBullet(cv, m, k)
  {
    cv.missions[m].bullets[k].id
  }

  function FirstMain(missions: seq<Mission>): (r: nat)
    ensures r <= |missions|
    ensures r < |missions| ==> missions[r].kind == Main
    ensures forall m :: 0 <= m < r ==> missions[m].kind != Main
  {
    if missions == [] || missions[0].kind == Main then 0 else 1 + FirstMain(missions[1..])
  }

  function FirstReference(missions: seq<Mission>): (r: nat)
    ensures r <= |missions|
    ensures r < |missions| ==> missions[r].reference
    ensures forall m :: 0 <= m < r ==> !missions[m].reference
  {
    if missions == [] || missions[0].reference then 0 else 1 + FirstReference(missions[1..])
  }

  /** The reference mission: the one marked so, else the first main one. */
  function ReferenceMission(cv: Cv): (r: nat)
    ensures r <= |cv.missions|
    ensures ValidCv(cv) ==> r < |cv.missions| && cv.missions[r].kind == Main
  {
    var marked := FirstReference(cv.missions);
    if marked < |cv.missions| then marked else FirstMain(cv.missions)
  }

  /** The ranked bullets of one mission among those shown. */
  function OwnIds(ranked: seq<Entry>, index: nat, shown: set<string>): (r: seq<string>)
    ensures forall id :: id in r <==> id in shown && exists x :: x in ranked && x.index == index && x.id == id
  {
    if ranked == [] then []
    else
      var last := ranked[|ranked| - 1];
      OwnIds(ranked[..|ranked| - 1], index, shown) + if last.index == index && last.id in shown then [last.id] else []
  }

  /** `chosen`: a main mission is never without a bullet. */
  function Chosen(cv: Cv, shown: set<string>, index: nat): seq<string>
    requires index < |cv.missions|
  {
    var ids, bullets := OwnIds(Ranked(cv), index, shown), cv.missions[index].bullets;
    if cv.missions[index].kind == Main && |ids| < UNSELECTED_BULLETS then (if bullets == [] then [] else [bullets[0].id]) else ids
  }

  /** `chosen`, no mission but the reference showing more than it. */
  function ShownIds(cv: Cv, shown: set<string>, index: nat): seq<string>
    requires index < |cv.missions| && ReferenceMission(cv) < |cv.missions|
  {
    var ids, most := Chosen(cv, shown, index), |Chosen(cv, shown, ReferenceMission(cv))|;
    if index == ReferenceMission(cv) || |ids| <= most then ids else ids[..most]
  }

  datatype Line = Line(index: nat, ids: seq<string>)

  function AllShown(cv: Cv, shown: set<string>): (r: seq<seq<string>>)
    requires ReferenceMission(cv) < |cv.missions|
    ensures |r| == |cv.missions|
  {
    seq(|cv.missions|, m requires 0 <= m < |cv.missions| => ShownIds(cv, shown, m))
  }

  predicate IsLine(missions: seq<Mission>, ids: seq<seq<string>>, line: Line) {
    && line.index < |ids| && line.index < |missions|
    && line.ids == ids[line.index]
    && !(missions[line.index].kind == Short && line.ids == [])
  }

  /** A short mission without a bullet is left out. */
  function Lines(missions: seq<Mission>, ids: seq<seq<string>>, n: nat): seq<Line>
    requires n <= |missions| == |ids|
  {
    if n == 0 then []
    else Lines(missions, ids, n - 1) + if IsLine(missions, ids, Line(n - 1, ids[n - 1])) then [Line(n - 1, ids[n - 1])] else []
  }

  /** The experiences of `buildModel`. */
  function BuildModel(cv: Cv, shown: set<string>): seq<Line>
    requires ReferenceMission(cv) < |cv.missions|
  {
    Lines(cv.missions, AllShown(cv, shown), |cv.missions|)
  }

  function RankedIds(ranked: seq<Entry>): seq<string> {
    Mapped(ranked, (e: Entry) => e.id)
  }

  function IdSet(ids: seq<string>): set<string> {
    set id | id in ids
  }

  function IdsOfLines(lines: seq<Line>): set<string> {
    set line, id | line in lines && id in line.ids :: id
  }

  function ItemOf(ranked: seq<string>, floor: set<string>, id: string): Sheet.Item {
    Sheet.Item(id, IndexOf(ranked, id) + 1, id in floor)
  }

  function ItemsOf(ranked: seq<string>, floor: set<string>, ids: seq<string>): (r: seq<Sheet.Item>)
    ensures |r| == |ids| && forall k :: 0 <= k < |r| ==> r[k] == ItemOf(ranked, floor, ids[k])
  {
    if ids == [] then [] else ItemsOf(ranked, floor, ids[..|ids| - 1]) + [ItemOf(ranked, floor, ids[|ids| - 1])]
  }

  function ExperienceOf(reference: nat, ranked: seq<string>, floor: set<string>, line: Line): Sheet.Experience {
    Sheet.Experience(line.index == reference, ItemsOf(ranked, floor, line.ids))
  }

  function PageOfLines(reference: nat, ranked: seq<string>, floor: set<string>, lines: seq<Line>): (r: seq<Sheet.Experience>)
    ensures |r| == |lines| && forall e :: 0 <= e < |r| ==> r[e] == ExperienceOf(reference, ranked, floor, lines[e])
  {
    if lines == [] then []
    else PageOfLines(reference, ranked, floor, lines[..|lines| - 1]) + [ExperienceOf(reference, ranked, floor, lines[|lines| - 1])]
  }

  function AllRanked(cv: Cv): set<string> {
    IdSet(RankedIds(Ranked(cv)))
  }

  /** What the document shows with no bullet chosen. */
  function Floor(cv: Cv): set<string>
    requires ReferenceMission(cv) < |cv.missions|
  {
    IdsOfLines(BuildModel(cv, {}))
  }

  /** `pageData`. */
  function PageOf(cv: Cv): seq<Sheet.Experience>
    requires ReferenceMission(cv) < |cv.missions|
  {
    PageOfLines(ReferenceMission(cv), RankedIds(Ranked(cv)), Floor(cv), BuildModel(cv, AllRanked(cv)))
  }

  function LineAt(cv: Cv, e: nat): Line
    requires ReferenceMission(cv) < |cv.missions| && e < |PageOf(cv)|
  {
    BuildModel(cv, AllRanked(cv))[e]
  }

  // ---------------------------------------------------------------- what the page holds

  lemma {:induction false} LinesAre(missions: seq<Mission>, ids: seq<seq<string>>, n: nat)
    requires n <= |missions| == |ids|
    ensures forall line :: line in Lines(missions, ids, n) <==> line.index < n && IsLine(missions, ids, line)
  {
    if n > 0 {
      LinesAre(missions, ids, n - 1);
    }
  }

  /** The lines of the CV, whatever is shown: each mission's own, short missions without a bullet apart. */
  lemma ModelIs(cv: Cv, shown: set<string>, line: Line)
    requires ReferenceMission(cv) < |cv.missions|
    ensures line in BuildModel(cv, shown)
      <==> line.index < |cv.missions| && line.ids == ShownIds(cv, shown, line.index) && !(cv.missions[line.index].kind == Short && line.ids == [])
  {
    LinesAre(cv.missions, AllShown(cv, shown), |cv.missions|);
  }

  /** Every bullet of a main mission is ranked. */
  lemma MainBulletsAreRanked(cv: Cv, index: nat, k: nat)
    requires HasBullet(cv, index, k) && cv.missions[index].kind == Main
    ensures EntryOf(cv, index, k) in Ranked(cv) && BulletId(cv, index, k) in AllRanked(cv)
    ensures BulletId(cv, index, k) in OwnIds(Ranked(cv), index, AllRanked(cv))
  {
    RankingIsRight(cv);
    var x := EntryOf(cv, index, k);
    assert IsEntry(cv, |cv.missions|, x);
    var i :| 0 <= i < |Ranked(cv)| && Ranked(cv)[i] == x;
    assert RankedIds(Ranked(cv))[i] == x.id;
  }

  lemma {:induction false} NoOwnIds(ranked: seq<Entry>, index: nat)
    ensures OwnIds(ranked, index, {}) == []
  {
    if ranked != [] {
      NoOwnIds(ranked[..|ranked| - 1], index);
    }
  }

  /** With no bullet chosen, the document shows the first bullet of each main mission, and no other. */
  lemma FloorOfOne(cv: Cv, index: nat)
    requires ValidCv(cv) && index < |cv.missions|
    ensures ShownIds(cv, {}, index) == if cv.missions[index].kind == Main then [BulletId(cv, index, 0)] else []
  {
    NoOwnIds(Ranked(cv), index);
    NoOwnIds(Ranked(cv), ReferenceMission(cv));
  }

  lemma FirstOfMainIsFloor(cv: Cv, index: nat)
    requires ValidCv(cv) && index < |cv.missions| && cv.missions[index].kind == Main
    ensures BulletId(cv, index, 0) in Floor(cv)
  {
    FloorOfOne(cv, index);
    var line := Line(index, [BulletId(cv, index, 0)]);
    ModelIs(cv, {}, line);
    assert line in BuildModel(cv, {}) && BulletId(cv, index, 0) in line.ids;
  }

  lemma FloorIsFirstOfMain(cv: Cv, id: string) returns (index: nat)
    requires ValidCv(cv) && id in Floor(cv)
    ensures index < |cv.missions| && cv.missions[index].kind == Main && id == BulletId(cv, index, 0)
  {
    var line :| line in BuildModel(cv, {}) && id in line.ids;
    ModelIs(cv, {}, line);
    index := line.index;
    FloorOfOne(cv, index);
  }

  /** The document's floor: the first bullet of each main mission. */
  lemma FloorIs(cv: Cv, index: nat, k: nat)
    requires ValidCv(cv) && HasBullet(cv, index, k)
    ensures BulletId(cv, index, k) in Floor(cv) <==> cv.missions[index].kind == Main && k == 0
  {
    if BulletId(cv, index, k) in Floor(cv) {
      var m := FloorIsFirstOfMain(cv, BulletId(cv, index, k));
      assert HasBullet(cv, m, 0);
    }
    if cv.missions[index].kind == Main && k == 0 {
      FirstOfMainIsFloor(cv, index);
    }
  }

  // ---------------------------------------------------------------- the page can be filled

  /** The bullets of the ranking are told apart by their ids. */
  lemma RankedIdsDiffer(cv: Cv, x: Entry, y: Entry)
    requires ValidCv(cv) && x in Ranked(cv) && y in Ranked(cv) && Before(x, y)
    ensures x.id != y.id
  {
    RankingIsRight(cv);
    BeforeIsAnOrder(x, y, x);
    assert IsEntry(cv, |cv.missions|, x) && IsEntry(cv, |cv.missions|, y);
    assert HasBullet(cv, x.index, x.position) && HasBullet(cv, y.index, y.position);
    assert BulletId(cv, x.index, x.position) == x.id && BulletId(cv, y.index, y.position) == y.id;
  }

  lemma {:induction false} OwnIdsDistinct(ranked: seq<Entry>, index: nat, shown: set<string>)
    requires forall j, k :: 0 <= j < k < |ranked| ==> ranked[j].id != ranked[k].id
    ensures Distinct(OwnIds(ranked, index, shown))
  {
    if ranked != [] {
      var n := |ranked| - 1;
      OwnIdsDistinct(ranked[..n], index, shown);
      var before := OwnIds(ranked[..n], index, shown);
      assert forall x :: x in ranked[..n] ==> x.id != ranked[n].id;
      assert ranked[n].id !in before;
    }
  }

  lemma RankedDistinct(cv: Cv)
    requires ValidCv(cv)
    ensures forall j, k :: 0 <= j < k < |Ranked(cv)| ==> Ranked(cv)[j].id != Ranked(cv)[k].id
  {
    RankingIsRight(cv);
    forall j, k | 0 <= j < k < |Ranked(cv)|
      ensures Ranked(cv)[j].id != Ranked(cv)[k].id
    {
      RankedIdsDiffer(cv, Ranked(cv)[j], Ranked(cv)[k]);
    }
  }

  /** What a mission may show with everything ranked: its own ranked bullets, each once; a main mission has some. */
  lemma ChosenOfAll(cv: Cv, index: nat)
    requires ValidCv(cv) && index < |cv.missions|
    ensures Chosen(cv, AllRanked(cv), index) == OwnIds(Ranked(cv), index, AllRanked(cv))
    ensures Distinct(Chosen(cv, AllRanked(cv), index))
    ensures cv.missions[index].kind == Main ==> BulletId(cv, index, 0) in Chosen(cv, AllRanked(cv), index)
  {
    RankedDistinct(cv);
    OwnIdsDistinct(Ranked(cv), index, AllRanked(cv));
    if cv.missions[index].kind == Main {
      MainBulletsAreRanked(cv, index, 0);
    }
  }

  lemma ChosenIsOwn(cv: Cv, index: nat, id: string)
    requires ValidCv(cv) && index < |cv.missions| && id in Chosen(cv, AllRanked(cv), index)
    ensures OwnBullet(cv, index, id)
  {
    ChosenOfAll(cv, index);
    var x :| x in Ranked(cv) && x.index == index && x.id == id;
    RankingIsRight(cv);
    assert IsEntry(cv, |cv.missions|, x) && HasBullet(cv, index, x.position);
  }

  /** What a mission shows: the head of what it may, all of it for the reference. */
  lemma ShownIsHead(cv: Cv, shown: set<string>, index: nat)
    requires ValidCv(cv) && index < |cv.missions|
    ensures ShownIds(cv, shown, index) <= Chosen(cv, shown, index)
    ensures index == ReferenceMission(cv) ==> ShownIds(cv, shown, index) == Chosen(cv, shown, index)
    ensures |ShownIds(cv, shown, index)| == Min(|Chosen(cv, shown, index)|, |Chosen(cv, shown, ReferenceMission(cv))|)
  {
  }

  lemma ShownOfAll(cv: Cv, index: nat)
    requires ValidCv(cv) && index < |cv.missions|
    ensures Distinct(ShownIds(cv, AllRanked(cv), index))
    ensures forall id :: id in ShownIds(cv, AllRanked(cv), index) ==> OwnBullet(cv, index, id)
    ensures index == ReferenceMission(cv) ==> BulletId(cv, index, 0) in ShownIds(cv, AllRanked(cv), index)
  {
    var ids, all := ShownIds(cv, AllRanked(cv), index), Chosen(cv, AllRanked(cv), index);
    ShownIsHead(cv, AllRanked(cv), index);
    ChosenOfAll(cv, index);
    assert forall k :: 0 <= k < |ids| ==> ids[k] == all[k];
    forall id | id in ids
      ensures OwnBullet(cv, index, id)
    {
      assert id in all;
      ChosenIsOwn(cv, index, id);
    }
  }

  /** A bullet of this mission that is in the ranking. */
  ghost predicate OwnBullet(cv: Cv, index: nat, id: string) {
    exists x :: x in Ranked(cv) && x.index == index && x.id == id && HasBullet(cv, index, x.position) && BulletId(cv, index, x.position) == id
  }

  /** What the page keeps of a line's mission: ids that differ, all ranked, and only the first bullet a must. */
  ghost predicate ItemsRight(cv: Cv, index: nat, items: seq<Sheet.Item>) {
    && Sheet.DistinctIds(items)
    && (forall k :: 0 <= k < |items| ==> items[k].rank > 0)
    && (forall k :: 0 <= k < |items| && items[k].must ==> HasBullet(cv, index, 0) && items[k].id == BulletId(cv, index, 0))
  }

  lemma ItemsOfAreRight(cv: Cv, index: nat, ids: seq<string>)
    requires ValidCv(cv) && index < |cv.missions| && Distinct(ids) && forall id :: id in ids ==> OwnBullet(cv, index, id)
    ensures ItemsRight(cv, index, ItemsOf(RankedIds(Ranked(cv)), Floor(cv), ids))
  {
    var items := ItemsOf(RankedIds(Ranked(cv)), Floor(cv), ids);
    forall k | 0 <= k < |items|
      ensures items[k].rank > 0 && (items[k].must ==> items[k].id == BulletId(cv, index, 0))
    {
      assert ids[k] in ids;
      ItemIs(cv, index, ids[k]);
    }
  }

  lemma PageExperience(cv: Cv, e: nat)
    requires ValidCv(cv) && e < |PageOf(cv)|
    ensures ItemsRight(cv, LineAt(cv, e).index, PageOf(cv)[e].items)
  {
    var line := LineAt(cv, e);
    ModelIs(cv, AllRanked(cv), line);
    ShownOfAll(cv, line.index);
    ItemsOfAreRight(cv, line.index, line.ids);
  }

  lemma ItemIs(cv: Cv, index: nat, id: string)
    requires ValidCv(cv) && index < |cv.missions| && OwnBullet(cv, index, id)
    ensures ItemOf(RankedIds(Ranked(cv)), Floor(cv), id).rank > 0
    ensures ItemOf(RankedIds(Ranked(cv)), Floor(cv), id).must ==> id == BulletId(cv, index, 0)
  {
    var x :| x in Ranked(cv) && x.index == index && x.id == id && HasBullet(cv, index, x.position) && BulletId(cv, index, x.position) == id;
    var i :| 0 <= i < |Ranked(cv)| && Ranked(cv)[i] == x;
    assert RankedIds(Ranked(cv))[i] == id;
    FloorIs(cv, index, x.position);
  }

  lemma AtMostOneMust(items: seq<Sheet.Item>, id: string)
    requires forall k :: 0 <= k < |items| && items[k].must ==> items[k].id == id
    ensures Sheet.MustIds(items) <= {id} && |Sheet.MustIds(items)| <= 1
  {
    if |Sheet.MustIds(items)| > 0 {
      assert Sheet.MustIds(items) == {id};
    }
  }

  lemma MustsOfOne(cv: Cv, e: nat)
    requires ValidCv(cv) && e < |PageOf(cv)|
    ensures |Sheet.MustIds(PageOf(cv)[e].items)| <= 1
  {
    PageExperience(cv, e);
    var line := LineAt(cv, e);
    ModelIs(cv, AllRanked(cv), line);
    AtMostOneMust(PageOf(cv)[e].items, BulletId(cv, line.index, 0));
  }

  /** The reference is on the page, and shows its floor bullet. */
  lemma ReferenceHasItsMust(cv: Cv, e: nat)
    requires ValidCv(cv) && e < |PageOf(cv)| && PageOf(cv)[e].reference
    ensures |Sheet.MustIds(PageOf(cv)[e].items)| == 1
  {
    var line, r := LineAt(cv, e), ReferenceMission(cv);
    ModelIs(cv, AllRanked(cv), line);
    ShownOfAll(cv, r);
    FirstOfMainIsFloor(cv, r);
    var k :| 0 <= k < |line.ids| && line.ids[k] == BulletId(cv, r, 0);
    assert PageOf(cv)[e].items[k].must && PageOf(cv)[e].items[k].id in Sheet.MustIds(PageOf(cv)[e].items);
    MustsOfOne(cv, e);
  }

  lemma ReferenceIsOnThePage(cv: Cv) returns (e: nat)
    requires ValidCv(cv)
    ensures e < |PageOf(cv)| && PageOf(cv)[e].reference
  {
    var r := ReferenceMission(cv);
    var line := Line(r, ShownIds(cv, AllRanked(cv), r));
    ModelIs(cv, AllRanked(cv), line);
    e :| 0 <= e < |BuildModel(cv, AllRanked(cv))| && BuildModel(cv, AllRanked(cv))[e] == line;
  }

  /** These are the ids at these places of the ranking: those of the mission that are shown. */
  ghost predicate OwnAt(ranked: seq<Entry>, index: nat, shown: set<string>, places: seq<nat>, ids: seq<string>) {
    && Increasing(places, |ranked|) && |places| == |ids|
    && (forall k :: 0 <= k < |places| ==> ids[k] == ranked[places[k]].id)
    && (forall i :: 0 <= i < |ranked| ==> (i in places <==> ranked[i].index == index && ranked[i].id in shown))
  }

  lemma OwnOneMore(ranked: seq<Entry>, last: Entry, index: nat, shown: set<string>, places: seq<nat>, ids: seq<string>)
    requires OwnAt(ranked, index, shown, places, ids)
    ensures if last.index == index && last.id in shown then OwnAt(ranked + [last], index, shown, places + [|ranked|], ids + [last.id])
      else OwnAt(ranked + [last], index, shown, places, ids)
  {
    assert |ranked| !in places;
  }

  /** A mission's bullets among those shown: exactly its ranked ones that are, in the order of the ranking. */
  lemma {:induction false} OwnIdsAre(ranked: seq<Entry>, index: nat, shown: set<string>) returns (places: seq<nat>)
    ensures OwnAt(ranked, index, shown, places, OwnIds(ranked, index, shown))
  {
    places := [];
    if ranked != [] {
      var n := |ranked| - 1;
      var before := OwnIdsAre(ranked[..n], index, shown);
      OwnOneMore(ranked[..n], ranked[n], index, shown, before, OwnIds(ranked[..n], index, shown));
      assert ranked[..n] + [ranked[n]] == ranked;
      places := if ranked[n].index == index && ranked[n].id in shown then before + [n] else before;
    }
  }

  /** What a mission may show: its own bullets, or its first when it is main and has none. */
  lemma MayShow(cv: Cv, shown: set<string>, index: nat)
    requires ValidCv(cv) && index < |cv.missions|
    ensures Chosen(cv, shown, index) ==
      if cv.missions[index].kind == Main && OwnIds(Ranked(cv), index, shown) == [] then [BulletId(cv, index, 0)] else OwnIds(Ranked(cv), index, shown)
  {
    assert cv.missions[index].bullets != [];
  }

  /** The rank of an item is its place in the ranking, from one. */
  lemma RankIsThePlace(cv: Cv, e: nat, k: nat)
    requires ValidCv(cv) && e < |PageOf(cv)| && k < |PageOf(cv)[e].items|
    ensures var item := PageOf(cv)[e].items[k]; 1 <= item.rank <= |Ranked(cv)| && Ranked(cv)[item.rank - 1].id == item.id
  {
    PageExperience(cv, e);
  }

  /** A page that can be filled: its items told apart by id, and every one of them ranked. */
  lemma PageIsWellFormed(cv: Cv)
    requires ValidCv(cv)
    ensures Sheet.WellFormed(PageOf(cv))
    ensures forall e, k :: 0 <= e < |PageOf(cv)| && 0 <= k < |PageOf(cv)[e].items| ==> PageOf(cv)[e].items[k].rank > 0
  {
    forall e | 0 <= e < |PageOf(cv)|
      ensures Sheet.DistinctIds(PageOf(cv)[e].items)
      ensures forall k :: 0 <= k < |PageOf(cv)[e].items| ==> PageOf(cv)[e].items[k].rank > 0
    {
      PageExperience(cv, e);
    }
  }

  /** Whatever the profile and the analysis, the page keeps what `fill` relies on: the reference caps the musts too. */
  lemma PageKeepsTheCap(cv: Cv)
    requires ValidCv(cv)
    ensures Sheet.MustsWithinReference(PageOf(cv))
  {
    var marked := ReferenceIsOnThePage(cv);
    ReferenceHasItsMust(cv, Sheet.ReferenceOf(PageOf(cv)));
    forall e | 0 <= e < |PageOf(cv)|
      ensures |Sheet.MustIds(PageOf(cv)[e].items)| <= |Sheet.MustIds(PageOf(cv)[Sheet.ReferenceOf(PageOf(cv))].items)|
    {
      MustsOfOne(cv, e);
    }
  }

  /**
   The whole way: on any CV, the filled page shows every must, by rank, no experience beyond the reference, and stops
   growing and widening only for a reason.
   */
  method FillPage(cv: Cv, paper: Sheet.Paper) returns (filled: Sheet.Filled)
    requires ValidCv(cv) && |paper.shown| == |PageOf(cv)| && paper.bare == Sheet.BareOf(paper.shown)
    requires forall e :: 0 <= e < |paper.shown| ==> paper.shown[e] == {}
    modifies paper
    ensures Sheet.ShownRight(PageOf(cv), paper.shown) && Sheet.WithinReference(PageOf(cv), paper.shown)
    ensures paper.spacing == filled.spacing && Sheet.Ended(PageOf(cv), paper.layout, paper.box, paper.shown, filled)
  {
    PageIsWellFormed(cv);
    PageKeepsTheCap(cv);
    filled := Sheet.Fill(PageOf(cv), paper);
  }

  // ---------------------------------------------------------------- a main mission without a must

  /** The reference may show all its bullets. */
  lemma ReferenceMayShowAll(cv: Cv)
    requires ValidCv(cv)
    ensures var r := ReferenceMission(cv); |Chosen(cv, AllRanked(cv), r)| == |cv.missions[r].bullets|
  {
    var r := ReferenceMission(cv);
    var may, all := Chosen(cv, AllRanked(cv), r), Mapped(cv.missions[r].bullets, (b: Bullet) => b.id);
    ChosenOfAll(cv, r);
    forall id | id in may
      ensures id in all
    {
      ChosenIsOwn(cv, r, id);
      var x :| x in Ranked(cv) && x.index == r && x.id == id && HasBullet(cv, r, x.position) && BulletId(cv, r, x.position) == id;
      assert all[x.position] == id;
    }
    forall id | id in all
      ensures id in may
    {
      var k :| 0 <= k < |all| && all[k] == id;
      MainBulletsAreRanked(cv, r, k);
    }
    assert Distinct(all) by {
      forall j, k | 0 <= j < k < |all|
        ensures all[j] != all[k]
      {
        assert HasBullet(cv, r, j) && HasBullet(cv, r, k);
        assert BulletId(cv, r, j) == all[j] && BulletId(cv, r, k) == all[k];
      }
    }
    DistinctWithin(may, all);
    DistinctWithin(all, may);
  }

  lemma PlaceInHead(ids: seq<string>, id: string, most: nat)
    requires Distinct(ids) && id in ids
    ensures id in ids[..Min(|ids|, most)] <==> IndexOf(ids, id) < most
  {
    var k := IndexOf(ids, id);
    var head := ids[..Min(|ids|, most)];
    if k < most {
      assert head[k] == id;
    }
    assert forall j :: 0 <= j < |head| ==> head[j] == ids[j];
  }

  /**
   The code promises that a main mission is never empty. On the page it keeps its floor bullet exactly when fewer of
   its bullets rank ahead of it than the reference has; otherwise the cap cuts the floor bullet away.
   */
  lemma MainKeepsItsFloor(cv: Cv, index: nat)
    requires ValidCv(cv) && index < |cv.missions| && cv.missions[index].kind == Main
    ensures var first := BulletId(cv, index, 0);
      first in ShownIds(cv, AllRanked(cv), index)
      <==> (index == ReferenceMission(cv)
            || IndexOf(OwnIds(Ranked(cv), index, AllRanked(cv)), first) < |cv.missions[ReferenceMission(cv)].bullets|)
  {
    var may, first := Chosen(cv, AllRanked(cv), index), BulletId(cv, index, 0);
    ChosenOfAll(cv, index);
    ShownIsHead(cv, AllRanked(cv), index);
    ReferenceMayShowAll(cv);
    PlaceInHead(may, first, |cv.missions[ReferenceMission(cv)].bullets|);
  }

  lemma MustsOfItems(ranked: seq<string>, floor: set<string>, ids: seq<string>)
    ensures Sheet.MustIds(ItemsOf(ranked, floor, ids)) == IdSet(ids) * floor
  {
    var items := ItemsOf(ranked, floor, ids);
    forall id | id in ids && id in floor
      ensures id in Sheet.MustIds(items)
    {
      var k :| 0 <= k < |ids| && ids[k] == id;
      assert items[k].must && items[k].id == id;
    }
  }

  lemma FloorOfMission(cv: Cv, index: nat)
    requires ValidCv(cv) && index < |cv.missions| && cv.missions[index].kind == Main
    ensures IdSet(ShownIds(cv, AllRanked(cv), index)) * Floor(cv)
      == if BulletId(cv, index, 0) in ShownIds(cv, AllRanked(cv), index) then {BulletId(cv, index, 0)} else {}
  {
    var ids, first := ShownIds(cv, AllRanked(cv), index), BulletId(cv, index, 0);
    ShownOfAll(cv, index);
    FirstOfMainIsFloor(cv, index);
    forall id | id in ids && id in Floor(cv)
      ensures id == first
    {
      ItemIs(cv, index, id);
    }
  }

  /** And its must, on the page, is that floor bullet or nothing. */
  lemma MainMusts(cv: Cv, e: nat)
    requires ValidCv(cv) && e < |PageOf(cv)|
    ensures var index := LineAt(cv, e).index;
      && index < |cv.missions|
      && (cv.missions[index].kind == Main ==>
          Sheet.MustIds(PageOf(cv)[e].items) == if BulletId(cv, index, 0) in ShownIds(cv, AllRanked(cv), index) then {BulletId(cv, index, 0)} else {})
  {
    var line := LineAt(cv, e);
    ModelIs(cv, AllRanked(cv), line);
    MustsOfItems(RankedIds(Ranked(cv)), Floor(cv), line.ids);
    if cv.missions[line.index].kind == Main {
      FloorOfMission(cv, line.index);
    }
  }

  /** A second mission of two bullets beside a reference of one, the model picking the second bullet alone. */
  const PICKED_SECOND := Cv(
    [Mission("reference", Main, true, [Bullet("r1", [])]), Mission("second", Main, false, [Bullet("s1", []), Bullet("s2", [])])],
    map[], ["s2"], [])

  lemma PickedSecondIsValid()
    ensures ValidCv(PICKED_SECOND) && ReferenceMission(PICKED_SECOND) == 0
  {
    var cv := PICKED_SECOND;
    assert cv.missions[0].kind == Main;
    assert FirstReference(cv.missions) == 0;
    forall m, n, j, k | HasBullet(cv, m, j) && HasBullet(cv, n, k) && BulletId(cv, m, j) == BulletId(cv, n, k)
      ensures m == n && j == k
    {
      assert BulletId(cv, m, j) == if m == 0 then "r1" else if j == 0 then "s1" else "s2";
      assert BulletId(cv, n, k) == if n == 0 then "r1" else if k == 0 then "s1" else "s2";
      assert "r1"[0] != "s1"[0] && "s1"[1] != "s2"[1] && "r1"[0] != "s2"[0];
    }
  }

  /** So a main mission other than the reference may have nothing it must show, and be left empty when the page is full. */
  lemma AMainMissionMayHaveNoMust()
    ensures ValidCv(PICKED_SECOND) && PICKED_SECOND.missions[1].kind == Main
    ensures BulletId(PICKED_SECOND, 1, 0) !in ShownIds(PICKED_SECOND, AllRanked(PICKED_SECOND), 1)
  {
    var cv := PICKED_SECOND;
    PickedSecondIsValid();
    MainKeepsItsFloor(cv, 1);
    var own := OwnIds(Ranked(cv), 1, AllRanked(cv));
    MainBulletsAreRanked(cv, 1, 0);
    MainBulletsAreRanked(cv, 1, 1);
    RankingIsRight(cv);
    PickedComesFirst(cv, 1, 1, 0);
  }

  /** In its own mission, a bullet the model picked comes before one it did not. */
  lemma PickedComesFirst(cv: Cv, index: nat, picked: nat, other: nat)
    requires ValidCv(cv) && HasBullet(cv, index, picked) && HasBullet(cv, index, other) && cv.missions[index].kind == Main
    requires BulletId(cv, index, picked) in cv.picks && BulletId(cv, index, other) !in cv.picks
    ensures var own := OwnIds(Ranked(cv), index, AllRanked(cv));
      IndexOf(own, BulletId(cv, index, picked)) < IndexOf(own, BulletId(cv, index, other))
  {
    MainBulletsAreRanked(cv, index, picked);
    MainBulletsAreRanked(cv, index, other);
    RankingIsRight(cv);
    RankedDistinct(cv);
    OwnInOrder(Ranked(cv), index, AllRanked(cv), EntryOf(cv, index, picked), EntryOf(cv, index, other));
  }

  lemma EarlierIsNotLast(ranked: seq<Entry>, x: Entry, y: Entry)
    requires InOrder(ranked) && x in ranked && y in ranked && Before(x, y)
    ensures x in ranked[..|ranked| - 1]
  {
    var n := |ranked| - 1;
    BeforeIsAnOrder(x, y, x);
    var j :| 0 <= j < |ranked| && ranked[j] == x;
    var k :| 0 <= k < |ranked| && ranked[k] == y;
    assert k < j ==> Before(y, x);
    assert ranked[..n][j] == x;
  }

  lemma LastOwn(ranked: seq<Entry>, index: nat, shown: set<string>, x: Entry)
    requires (forall j, k :: 0 <= j < k < |ranked| ==> ranked[j].id != ranked[k].id)
    requires ranked != [] && x.id in OwnIds(ranked[..|ranked| - 1], index, shown)
    requires ranked[|ranked| - 1].index == index && ranked[|ranked| - 1].id in shown
    ensures IndexOf(OwnIds(ranked, index, shown), x.id) < IndexOf(OwnIds(ranked, index, shown), ranked[|ranked| - 1].id)
  {
    var n := |ranked| - 1;
    var before := OwnIds(ranked[..n], index, shown);
    assert forall z :: z in ranked[..n] ==> z.id != ranked[n].id;
    IndexOfPrefix(before, before + [ranked[n].id], x.id);
    IndexOfLast(before, ranked[n].id);
  }

  /** The bullets of one mission keep the order of the ranking. */
  lemma {:induction false} OwnInOrder(ranked: seq<Entry>, index: nat, shown: set<string>, x: Entry, y: Entry)
    requires InOrder(ranked) && (forall j, k :: 0 <= j < k < |ranked| ==> ranked[j].id != ranked[k].id)
    requires x in ranked && y in ranked && x.index == y.index == index && x.id in shown && y.id in shown && Before(x, y)
    ensures IndexOf(OwnIds(ranked, index, shown), x.id) < IndexOf(OwnIds(ranked, index, shown), y.id)
  {
    var n := |ranked| - 1;
    EarlierIsNotLast(ranked, x, y);
    if y == ranked[n] {
      LastOwn(ranked, index, shown, x);
    } else {
      OwnInOrder(ranked[..n], index, shown, x, y);
      IndexOfPrefix(OwnIds(ranked[..n], index, shown), OwnIds(ranked, index, shown), x.id);
      IndexOfPrefix(OwnIds(ranked[..n], index, shown), OwnIds(ranked, index, shown), y.id);
    }
  }

  lemma {:induction false} IndexOfLast(before: seq<string>, id: string)
    requires id !in before
    ensures IndexOf(before + [id], id) == |before|
  {
    if before != [] {
      assert (before + [id])[1..] == before[1..] + [id];
      IndexOfLast(before[1..], id);
    }
  }

  lemma {:induction false} IndexOfPrefix(before: seq<string>, longer: seq<string>, id: string)
    requires before <= longer && id in before
    ensures IndexOf(before, id) == IndexOf(longer, id)
  {
    if before[0] != id {
      IndexOfPrefix(before[1..], longer[1..], id);
    }
  }
}