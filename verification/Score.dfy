/**
The fit score and the qualification (cv/src/score.js), computed from the settled table, and what the
profile's own answer (Settlement.Raised) does to them. Half credits are counted in halves, so that every
quantity before the final rounding is a whole number.
*/
module Score {
  import opened Collections
  import opened Rows
  import opened Examples
  import opened Settlement
  import opened Coverage

  /** A personal quality and a condition are not scored. */
  predicate Scored(row: Row) {
    row.kind != Quality && row.kind != Condition
  }

  function Weight(row: Row): (w: nat)
    ensures 1 <= w <= 3
  {
    if row.importance == Must then 3 else 1
  }

  /** What a match is worth, in halves: a row met through lab skills only is worth one half at most. */
  function Halves(row: Row, lab: set<string>): (v: nat)
    ensures v <= 2
  {
    var value := match row.match_ case Yes => 2 case Adjacent => 1 case No => 0 case Unread => 0;
    if row.match_ != No && LabOnly(row, lab) then Min(value, 1) else value
  }

  function Total(rows: seq<Row>): nat {
    if rows == [] then 0 else (if Scored(rows[0]) then Weight(rows[0]) else 0) + Total(rows[1..])
  }

  /** Twice the weighted credit. */
  function Credit(rows: seq<Row>, lab: set<string>): nat {
    if rows == [] then 0
    else (if Scored(rows[0]) then Weight(rows[0]) * Halves(rows[0], lab) else 0) + Credit(rows[1..], lab)
  }

  /** `Math.round(100 * met / total)`, ties up. */
  function Rounded(credit: nat, total: nat): nat
    requires total > 0
  {
    (100 * credit + total) / (2 * total)
  }

  function ScoreOf(rows: seq<Row>, lab: set<string>): Option<nat> {
    if Total(rows) == 0 then None else Some(Rounded(Credit(rows, lab), Total(rows)))
  }

  lemma {:induction false} SumsSplit(a: seq<Row>, b: seq<Row>, lab: set<string>)
    ensures Total(a + b) == Total(a) + Total(b) && Credit(a + b, lab) == Credit(a, lab) + Credit(b, lab)
  {
    if a == [] {
      assert a + b == b;
    } else {
      assert (a + b)[1..] == a[1..] + b;
      SumsSplit(a[1..], b, lab);
    }
  }

  /** `scoreOf`, with the loop's two sums. */
  method Compute(rows: seq<Row>, lab: set<string>) returns (score: Option<nat>)
    ensures score == ScoreOf(rows, lab)
  {
    var total, met := 0, 0;
    for i := 0 to |rows|
      invariant total == Total(rows[..i]) && met == Credit(rows[..i], lab)
    {
      if Scored(rows[i]) {
        total := total + Weight(rows[i]);
        met := met + Weight(rows[i]) * Halves(rows[i], lab);
      }
      PrefixAndOne(rows, i);
      SumsSplit(rows[..i], [rows[i]], lab);
    }
    PrefixAll(rows);
    score := if total == 0 then None else Some(Rounded(met, total));
  }

  lemma {:induction false} CreditIsAtMostFull(rows: seq<Row>, lab: set<string>)
    ensures Credit(rows, lab) <= 2 * Total(rows)
    ensures Total(rows) == 0 <==> forall i :: 0 <= i < |rows| ==> !Scored(rows[i])
  {
    if rows != [] {
      CreditIsAtMostFull(rows[1..], lab);
      var w, h := Weight(rows[0]), Halves(rows[0], lab);
      assert w * h <= w * 2;
      if Total(rows) == 0 {
        assert forall i :: 0 < i < |rows| ==> rows[i] == rows[1..][i - 1];
      } else if !Scored(rows[0]) {
        var i :| 0 <= i < |rows[1..]| && Scored(rows[1..][i]);
        assert rows[i + 1] == rows[1..][i];
      }
    }
  }

  lemma RoundedIsMonotone(a: nat, b: nat, total: nat)
    requires total > 0 && a <= b
    ensures Rounded(a, total) <= Rounded(b, total)
  {
    DivisionIsMonotone(100 * a + total, 100 * b + total, 2 * total);
  }

  lemma ProductIsMonotone(a: nat, b: nat, d: nat)
    ensures a <= b ==> a * d <= b * d
  {
  }

  lemma DivisionIsMonotone(x: nat, y: nat, d: nat)
    requires d > 0 && x <= y
    ensures x / d <= y / d
  {
    assert (x / d) * d <= x && y < (y / d + 1) * d;
    ProductIsMonotone(y / d + 1, x / d, d);
  }

  /** A score is a percentage, and there is none exactly when no row counts. */
  lemma ScoreIsAPercentage(rows: seq<Row>, lab: set<string>)
    ensures ScoreOf(rows, lab).None? <==> forall i :: 0 <= i < |rows| ==> !Scored(rows[i])
    ensures ScoreOf(rows, lab).Some? ==> ScoreOf(rows, lab).value <= 100
  {
    CreditIsAtMostFull(rows, lab);
    var total := Total(rows);
    if total > 0 {
      RoundedIsMonotone(Credit(rows, lab), 2 * total, total);
      FullCreditIsAHundred(total);
    }
  }

  lemma FullCreditIsAHundred(total: nat)
    requires total > 0
    ensures Rounded(2 * total, total) == 100
  {
    var x, d := 100 * (2 * total) + total, 2 * total;
    assert (x / d) * d <= x < (x / d + 1) * d;
    ProductIsMonotone(101, x / d, d);
    ProductIsMonotone(x / d + 1, 100, d);
  }

  lemma TimesIsMonotone(w: nat, a: nat, b: nat)
    requires a <= b
    ensures w * a <= w * b
  {
  }

  lemma SumsAround(rows: seq<Row>, i: nat, row: Row, lab: set<string>)
    requires i < |rows|
    ensures Total(rows[i := row]) == Total(rows[..i]) + Total(rows[i + 1..]) + if Scored(row) then Weight(row) else 0
    ensures Credit(rows[i := row], lab) == Credit(rows[..i], lab) + Credit(rows[i + 1..], lab)
      + if Scored(row) then Weight(row) * Halves(row, lab) else 0
  {
    assert rows[i := row] == rows[..i] + ([row] + rows[i + 1..]);
    SumsSplit(rows[..i], [row] + rows[i + 1..], lab);
    SumsSplit([row], rows[i + 1..], lab);
  }

  predicate NoLower(before: Option<nat>, after: Option<nat>) {
    before.Some? ==> after.Some? && before.value <= after.value
  }

  /** A row worth at least as much, counted alike, never lowers the score. */
  lemma BetterRowNeverLowersTheScore(rows: seq<Row>, i: nat, better: Row, lab: set<string>)
    requires i < |rows| && better.importance == rows[i].importance && better.kind == rows[i].kind
    requires Halves(rows[i], lab) <= Halves(better, lab)
    ensures Total(rows[i := better]) == Total(rows)
    ensures NoLower(ScoreOf(rows, lab), ScoreOf(rows[i := better], lab))
  {
    SumsAround(rows, i, rows[i], lab);
    SumsAround(rows, i, better, lab);
    var after := rows[i := better];
    assert rows[i := rows[i]] == rows;
    TimesIsMonotone(Weight(better), Halves(rows[i], lab), Halves(better, lab));
    if Total(rows) > 0 {
      RoundedIsMonotone(Credit(rows, lab), Credit(after, lab), Total(rows));
    }
  }

  // ---------------------------------------------------------------- what the profile's answer does

  ghost predicate IsLab(lab: set<string>, reader: Reader) {
    forall id :: id in lab <==> id in reader.skills && reader.skills[id].level == Lab
  }

  lemma {:induction false} LabIsWeak(ids: seq<string>, lab: set<string>, reader: Reader)
    requires IsLab(lab, reader) && AllIn(ids, lab)
    ensures Every(ids, id => !(id in reader.skills && Practised(reader.skills[id].level)))
  {
    if ids != [] {
      LabIsWeak(ids[1..], lab, reader);
      assert ids[0] in lab;
    }
  }

  /** Half a point of rank is at least half a credit: the rank guard never trades credit away. */
  lemma RankedHigherIsWorthAsMuch(row: Row, found: Found, lab: set<string>, reader: Reader)
    requires IsLab(lab, reader) && Outranks(found, row, reader)
    ensures Halves(row, lab) <= Halves(row.(match_ := found.match_, skills := found.skills, judged := found.judged), lab)
  {
    var better := row.(match_ := found.match_, skills := found.skills, judged := found.judged);
    if found.match_ == Yes && LabOnly(better, lab) {
      LabIsWeak(found.skills, lab, reader);
    }
  }

  /** A gap of the qualification: a must never claimed, unmet, met in the lab only, or to verify. */
  predicate IsGap(row: Row, lab: set<string>, reader: Reader) {
    row.importance == Must && Scored(row)
    && ((row.never == Claimed || (row.members == [] && NamesNever(row.name, reader)))
        || row.match_ == No || (row.match_ != No && LabOnly(row, lab)) || row.judged)
  }

  predicate ScoredMust(row: Row) {
    row.importance == Must && Scored(row)
  }

  function Musts(rows: seq<Row>): nat {
    if rows == [] then 0 else (if ScoredMust(rows[0]) then 1 else 0) + Musts(rows[1..])
  }

  function Gaps(rows: seq<Row>, lab: set<string>, reader: Reader): nat {
    if rows == [] then 0 else (if IsGap(rows[0], lab, reader) then 1 else 0) + Gaps(rows[1..], lab, reader)
  }

  datatype Qualification = NotQualified | Partial | Qualified

  function LevelOf(gaps: nat, musts: nat): Qualification {
    if gaps == 0 then Qualified else if 2 * gaps >= musts then NotQualified else Partial
  }

  predicate NoWorse(a: Qualification, b: Qualification) {
    a == NotQualified || b == Qualified || a == b
  }

  lemma {:induction false} CountsSplit(a: seq<Row>, b: seq<Row>, lab: set<string>, reader: Reader)
    ensures Musts(a + b) == Musts(a) + Musts(b) && Gaps(a + b, lab, reader) == Gaps(a, lab, reader) + Gaps(b, lab, reader)
  {
    if a == [] {
      assert a + b == b;
    } else {
      assert (a + b)[1..] == a[1..] + b;
      CountsSplit(a[1..], b, lab, reader);
    }
  }

  /** `qualification`, with the loop over the musts. */
  method Qualify(rows: seq<Row>, lab: set<string>, reader: Reader) returns (level: Qualification)
    ensures level == LevelOf(Gaps(rows, lab, reader), Musts(rows))
  {
    var gaps, musts := 0, 0;
    for i := 0 to |rows|
      invariant gaps == Gaps(rows[..i], lab, reader) && musts == Musts(rows[..i])
    {
      if ScoredMust(rows[i]) {
        musts := musts + 1;
        if IsGap(rows[i], lab, reader) {
          gaps := gaps + 1;
        }
      }
      PrefixAndOne(rows, i);
      CountsSplit(rows[..i], [rows[i]], lab, reader);
    }
    PrefixAll(rows);
    level := LevelOf(gaps, musts);
  }

  /** The profile's answer fills gaps and never opens one. */
  lemma AnswerOpensNoGap(row: Row, lab: set<string>, reader: Reader)
    requires IsLab(lab, reader)
    ensures IsGap(ProfileStage(row, reader), lab, reader) ==> IsGap(row, lab, reader)
  {
    if row.never == Unset && row.kind == Skill {
      var target := reader.asked(row.name);
      var ruled := RulingOn(row, reader).(same := reader.ruledSame(target));
      AnswerIsEarned(CoverageContext(reader), ruled, reader.phrase(target));
      var found := ProfileAnswer(row, reader);
      if found.Some? && Outranks(found.value, row, reader) {
        EarnedOpensNoGap(row, found.value, lab, reader);
      }
    }
  }

  ghost predicate AllPractised(ids: seq<string>, reader: Reader) {
    forall id :: id in ids ==> id in reader.skills && Practised(reader.skills[id].level)
  }

  lemma EarnedOpensNoGap(row: Row, found: Found, lab: set<string>, reader: Reader)
    requires IsLab(lab, reader) && Outranks(found, row, reader) && found.skills != [] && Met(found.match_)
    requires found.match_ == Yes ==> !found.judged && AllPractised(found.skills, reader)
    ensures var better := row.(match_ := found.match_, skills := found.skills, judged := found.judged);
      IsGap(better, lab, reader) ==> IsGap(row, lab, reader)
  {
    var better := row.(match_ := found.match_, skills := found.skills, judged := found.judged);
    if found.match_ == Yes {
      assert found.skills[0] in found.skills;
      assert found.skills[0] !in lab;
    } else {
      assert row.match_ == No || row.judged;
    }
  }

  lemma ReplacedCounts(rows: seq<Row>, i: nat, better: Row, lab: set<string>, reader: Reader)
    requires i < |rows| && better.importance == rows[i].importance && better.kind == rows[i].kind
    requires IsGap(better, lab, reader) ==> IsGap(rows[i], lab, reader)
    ensures Musts(rows[i := better]) == Musts(rows)
    ensures Gaps(rows[i := better], lab, reader) <= Gaps(rows, lab, reader)
  {
    var a, b := rows[..i], rows[i + 1..];
    assert rows == a + ([rows[i]] + b) && rows[i := better] == a + ([better] + b);
    CountsSplit(a, [rows[i]] + b, lab, reader);
    CountsSplit([rows[i]], b, lab, reader);
    CountsSplit(a, [better] + b, lab, reader);
    CountsSplit([better], b, lab, reader);
  }

  /**
   The profile's own answer, taken under the rank guard, never lowers the score nor the qualification of a
   table, whichever row it is taken for.
   */
  lemma ProfileAnswerNeverLowers(rows: seq<Row>, i: nat, lab: set<string>, reader: Reader)
    requires i < |rows| && IsLab(lab, reader)
    ensures var after := rows[i := ProfileStage(rows[i], reader)];
      && NoLower(ScoreOf(rows, lab), ScoreOf(after, lab))
      && NoWorse(LevelOf(Gaps(rows, lab, reader), Musts(rows)), LevelOf(Gaps(after, lab, reader), Musts(after)))
  {
    var row := rows[i];
    var better := ProfileStage(row, reader);
    AnswerOpensNoGap(row, lab, reader);
    StageKeepsCounting(row, lab, reader);
    BetterRowNeverLowersTheScore(rows, i, better, lab);
    ReplacedCounts(rows, i, better, lab, reader);
  }

  lemma StageKeepsCounting(row: Row, lab: set<string>, reader: Reader)
    requires IsLab(lab, reader)
    ensures var better := ProfileStage(row, reader);
      better.importance == row.importance && better.kind == row.kind && Halves(row, lab) <= Halves(better, lab)
  {
    if row.never == Unset && row.kind == Skill {
      var found := ProfileAnswer(row, reader);
      if found.Some? && Outranks(found.value, row, reader) {
        RankedHigherIsWorthAsMuch(row, found.value, lab, reader);
      }
    }
  }

  // ---------------------------------------------------------------- the score and the level, from counts of rows

  /** A row that counts, of this importance, worth so many halves: two for a yes that is more than the lab's, one for the lab's or an adjacent. */
  ghost predicate IsWorth(row: Row, lab: set<string>, importance: Importance, halves: nat) {
    && row.kind != Quality && row.kind != Condition && row.importance == importance
    && halves == if row.match_ == Yes && !RestsOnLab(row, lab) then 2 else if row.match_ == Yes || row.match_ == Adjacent then 1 else 0
  }

  ghost function Worth(lab: set<string>, importance: Importance, halves: nat): Row -> bool {
    (row: Row) => IsWorth(row, lab, importance, halves)
  }

  ghost function HowMany(rows: seq<Row>, lab: set<string>, importance: Importance, halves: nat): nat {
    |Keep(rows, Worth(lab, importance, halves))|
  }

  ghost function HowManyOf(rows: seq<Row>, lab: set<string>, importance: Importance): nat {
    HowMany(rows, lab, importance, 0) + HowMany(rows, lab, importance, 1) + HowMany(rows, lab, importance, 2)
  }

  /** The halves earned by the rows of one importance. */
  ghost function HalvesOf(rows: seq<Row>, lab: set<string>, importance: Importance): nat {
    HowMany(rows, lab, importance, 1) + 2 * HowMany(rows, lab, importance, 2)
  }

  lemma HowManyUnfolds(rows: seq<Row>, lab: set<string>, importance: Importance, halves: nat)
    requires rows != []
    ensures HowMany(rows, lab, importance, halves)
      == (if IsWorth(rows[0], lab, importance, halves) then 1 else 0) + HowMany(rows[1..], lab, importance, halves)
  {
  }

  lemma OneRowCounts(rows: seq<Row>, lab: set<string>, importance: Importance)
    requires rows != []
    ensures HowManyOf(rows, lab, importance) == HowManyOf(rows[1..], lab, importance) + if Scored(rows[0]) && rows[0].importance == importance then 1 else 0
    ensures HalvesOf(rows, lab, importance)
      == HalvesOf(rows[1..], lab, importance) + if Scored(rows[0]) && rows[0].importance == importance then Halves(rows[0], lab) else 0
  {
    AllInIsEach(rows[0].skills, lab);
    HowManyUnfolds(rows, lab, importance, 0);
    HowManyUnfolds(rows, lab, importance, 1);
    HowManyUnfolds(rows, lab, importance, 2);
  }

  /** A must weighs three times what a nice does. */
  lemma {:induction false} TotalFromCounts(rows: seq<Row>, lab: set<string>)
    ensures Total(rows) == 3 * HowManyOf(rows, lab, Must) + HowManyOf(rows, lab, Nice)
  {
    if rows != [] {
      var rest := rows[1..];
      TotalFromCounts(rest, lab);
      OneRowCounts(rows, lab, Must);
      OneRowCounts(rows, lab, Nice);
      assert Total(rows) == (if Scored(rows[0]) then Weight(rows[0]) else 0) + Total(rest);
    }
  }

  lemma {:induction false} CreditFromCounts(rows: seq<Row>, lab: set<string>)
    ensures Credit(rows, lab) == 3 * HalvesOf(rows, lab, Must) + HalvesOf(rows, lab, Nice)
  {
    if rows != [] {
      var rest := rows[1..];
      CreditFromCounts(rest, lab);
      OneRowCounts(rows, lab, Must);
      OneRowCounts(rows, lab, Nice);
      assert Credit(rows, lab) == (if Scored(rows[0]) then Weight(rows[0]) * Halves(rows[0], lab) else 0) + Credit(rest, lab);
    }
  }

  /** `score` is the nearest whole percentage to `halves` out of twice `total`, and the upper one of two as near. */
  ghost predicate IsNearest(score: nat, halves: nat, total: nat) {
    total * (2 * score - 1) <= 100 * halves < total * (2 * score + 1)
  }

  lemma RoundedIsNearest(halves: nat, total: nat)
    requires total > 0
    ensures IsNearest(Rounded(halves, total), halves, total)
  {
    var x, d := 100 * halves + total, 2 * total;
    assert (x / d) * d <= x < (x / d + 1) * d;
    assert total * (2 * (x / d) - 1) == (x / d) * d - total;
    assert total * (2 * (x / d) + 1) == (x / d + 1) * d - total;
  }

  /** The score, from how many musts and nices are met in full, by half and not at all. */
  lemma ScoreFromCounts(rows: seq<Row>, lab: set<string>)
    ensures var total := 3 * HowManyOf(rows, lab, Must) + HowManyOf(rows, lab, Nice);
      && (ScoreOf(rows, lab).None? <==> total == 0)
      && (ScoreOf(rows, lab).Some? ==>
            IsNearest(ScoreOf(rows, lab).value, 3 * HalvesOf(rows, lab, Must) + HalvesOf(rows, lab, Nice), total))
  {
    TotalFromCounts(rows, lab);
    CreditFromCounts(rows, lab);
    if Total(rows) > 0 {
      RoundedIsNearest(Credit(rows, lab), Total(rows));
    }
  }

  /** A must that counts. */
  ghost predicate CountsAsMust(row: Row) {
    row.importance == Must && row.kind != Quality && row.kind != Condition
  }

  /** A must at fault: never claimed, unmet, met through the lab alone, or to verify. */
  ghost predicate AtFault(row: Row, lab: set<string>, reader: Reader) {
    CountsAsMust(row)
    && (row.never == Claimed || (row.members == [] && exists entry :: entry in reader.never && entry.mentionedIn(row.name))
        || row.match_ == No || RestsOnLab(row, lab) || row.judged)
  }

  ghost function MustsOf(rows: seq<Row>): seq<Row> {
    Keep(rows, (row: Row) => CountsAsMust(row))
  }

  ghost function FaultsOf(rows: seq<Row>, lab: set<string>, reader: Reader): seq<Row> {
    Keep(rows, (row: Row) => AtFault(row, lab, reader))
  }

  lemma GapIsAtFault(row: Row, lab: set<string>, reader: Reader)
    ensures IsGap(row, lab, reader) <==> AtFault(row, lab, reader)
    ensures ScoredMust(row) <==> CountsAsMust(row)
  {
    AllInIsEach(row.skills, lab);
  }

  lemma {:induction false} CountsOfMusts(rows: seq<Row>, lab: set<string>, reader: Reader)
    ensures Musts(rows) == |MustsOf(rows)| && Gaps(rows, lab, reader) == |FaultsOf(rows, lab, reader)|
  {
    if rows != [] {
      CountsOfMusts(rows[1..], lab, reader);
      GapIsAtFault(rows[0], lab, reader);
    }
  }

  /** Qualified when no must is at fault, not qualified when at least half of them are, partly in between. */
  lemma LevelFromCounts(rows: seq<Row>, lab: set<string>, reader: Reader)
    ensures var level, faults, musts := LevelOf(Gaps(rows, lab, reader), Musts(rows)), |FaultsOf(rows, lab, reader)|, |MustsOf(rows)|;
      && (level == Qualified <==> faults == 0)
      && (level == NotQualified <==> faults > 0 && faults * 2 >= musts)
      && (level == Partial <==> 0 < faults && faults * 2 < musts)
  {
    CountsOfMusts(rows, lab, reader);
  }
}
