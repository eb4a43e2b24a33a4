/**
What each stage of settling does to a row (cv/src/normalize.js), said from the row, the profile and the owner's rulings
alone: when a name settles it, when a full match stands, who answers it, and when the profile's answer takes over.
*/
module Stages {
  import opened Collections
  import opened Rows
  import opened Lexicon
  import opened Hierarchy
  import Coverage
  import opened Answering
  import opened Settlement

  // ---------------------------------------------------------------- the profile's own names

  predicate Bears(reader: Reader, id: string, name: string) {
    id !in reader.out && name in reader.names(id)
  }

  /** The first usable skill that bears a name. */
  ghost predicate FirstBearer(reader: Reader, ids: seq<string>, name: string, i: nat) {
    i < |ids| && Bears(reader, ids[i], name) && forall k :: 0 <= k < i ==> !Bears(reader, ids[k], name)
  }

  ghost predicate Bearer(reader: Reader, ids: seq<string>, name: string, id: string) {
    exists i: nat :: FirstBearer(reader, ids, name, i) && ids[i] == id
  }

  ghost predicate Borne(reader: Reader, ids: seq<string>, name: string) {
    exists id :: id in ids && Bears(reader, id, name)
  }

  lemma BearerLater(reader: Reader, ids: seq<string>, name: string, id: string)
    requires ids != [] && !Bears(reader, ids[0], name)
    ensures Bearer(reader, ids, name, id) <==> Bearer(reader, ids[1..], name, id)
    ensures Borne(reader, ids, name) <==> Borne(reader, ids[1..], name)
  {
    if Bearer(reader, ids, name, id) {
      var i: nat :| FirstBearer(reader, ids, name, i) && ids[i] == id;
      assert forall k :: 0 <= k < |ids| - 1 ==> ids[1..][k] == ids[k + 1];
      assert FirstBearer(reader, ids[1..], name, i - 1);
    }
    if Bearer(reader, ids[1..], name, id) {
      var i: nat :| FirstBearer(reader, ids[1..], name, i) && ids[1..][i] == id;
      assert forall k :: 0 < k < |ids| ==> ids[k] == ids[1..][k - 1];
      assert FirstBearer(reader, ids, name, i + 1);
    }
    assert ids == [ids[0]] + ids[1..];
  }

  /** A name is a skill's own exactly when the skill is the first usable one that bears it; it is none's when none does. */
  lemma {:induction false} NameIsTheFirstBearers(reader: Reader, ids: seq<string>, name: string, id: string)
    ensures ByIdentity(reader, ids, name) == Some(id) <==> Bearer(reader, ids, name, id)
    ensures ByIdentity(reader, ids, name).Some? <==> Borne(reader, ids, name)
  {
    if ids != [] {
      if Bears(reader, ids[0], name) {
        assert FirstBearer(reader, ids, name, 0);
      } else {
        BearerLater(reader, ids, name, id);
        NameIsTheFirstBearers(reader, ids[1..], name, id);
      }
    }
  }

  /** Each part is some skill's name, and these are the skills. */
  ghost predicate BearersOf(reader: Reader, parts: seq<string>, bearers: seq<string>) {
    |bearers| == |parts| && forall k :: 0 <= k < |parts| ==> Bearer(reader, reader.order, parts[k], bearers[k])
  }

  lemma {:induction false} PartSkillsAreBearers(reader: Reader, parts: seq<string>)
    ensures PartSkills(reader, parts).Some? <==> forall part :: part in parts ==> Borne(reader, reader.order, part)
    ensures PartSkills(reader, parts).Some? ==> BearersOf(reader, parts, PartSkills(reader, parts).value)
  {
    if parts != [] {
      var first := ByIdentity(reader, reader.order, parts[0]);
      NameIsTheFirstBearers(reader, reader.order, parts[0], first.Or(""));
      PartSkillsAreBearers(reader, parts[1..]);
      assert parts == [parts[0]] + parts[1..];
    }
  }

  /** A name is several skills' exactly when it has parts and each is some skill's: those skills, each once. */
  lemma PartsAreTheirBearers(reader: Reader, name: string)
    ensures PartsNamed(reader, name).Some?
      <==> reader.parts(name) != [] && forall part :: part in reader.parts(name) ==> Borne(reader, reader.order, part)
    ensures PartsNamed(reader, name).Some? ==>
      exists bearers :: BearersOf(reader, reader.parts(name), bearers) && PartsNamed(reader, name).value == Unique(bearers)
  {
    PartSkillsAreBearers(reader, reader.parts(name));
  }

  /** What the candidate never claims: the row says so, or an entry of the profile is mentioned in its name. */
  ghost predicate NeverClaimed(row: Row, reader: Reader) {
    row.never == Claimed || exists entry :: entry in reader.never && entry.mentionedIn(row.name)
  }

  /** Met through these skills, or, met as it is, through a list that reads the same. */
  ghost predicate MetThrough(row: Row, ids: seq<string>, named: Row) {
    named == row.(match_ := Yes, skills := ids) || (named == row && row.match_ == Yes && Joined(row.skills, ",") == Joined(ids, ","))
  }

  ghost predicate SettledByName(row: Row, reader: Reader, named: Row) {
    if NeverClaimed(row, reader) then named == row.(match_ := No, skills := [], never := Claimed)
    else match ByIdentity(reader, reader.order, reader.lower(row.name))
      case Some(id) => named == row.(match_ := Yes, skills := [id])
      case None =>
        match PartsNamed(reader, row.name)
        case Some(ids) => MetThrough(row, ids, named)
        case None => named == row
  }

  /** The profile's names settle a row, and over them what is never claimed. */
  lemma NamesSettle(row: Row, reader: Reader)
    ensures SettledByName(row, reader, NamedRow(row, reader))
  {
    assert NamedStage(row, reader).name == row.name && NamedStage(row, reader).never == row.never;
    assert IsNever(row, reader) <==> NeverClaimed(row, reader);
  }

  /** Ids that hold no comma are read apart: a row met as all its parts name is then met through exactly their skills. */
  lemma PartsAreThePicks(row: Row, reader: Reader)
    requires !NeverClaimed(row, reader) && ByIdentity(reader, reader.order, reader.lower(row.name)).None?
    requires PartsNamed(reader, row.name).Some? && FreeOf(PartsNamed(reader, row.name).value, ',') && FreeOf(row.skills, ',')
    ensures NamedRow(row, reader).match_ == Yes && NamedRow(row, reader).skills == PartsNamed(reader, row.name).value
  {
    NamesSettle(row, reader);
    JoinedTells(row.skills, PartsNamed(reader, row.name).value, ',');
  }

  // ---------------------------------------------------------------- the picks, and the match they support

  /** A pick that stays: known to the profile, and not ruled out of the requirement's words. */
  ghost predicate Left(row: Row, reader: Reader, id: string) {
    && id in row.skills && id in reader.skills
    && (row.never == Unset ==> id !in reader.ruled(reader.asked(row.name)).no)
  }

  /** Held by the requirement: placed by a name at or under a concept it names, or ruled the same as its words. */
  ghost predicate HoldsRow(row: Row, reader: Reader, id: string) {
    || id in Holders(reader.index, NamedConcepts(reader, row.name), PlacedByName(reader))
    || id in reader.ruled(reader.asked(row.name)).same
  }

  ghost predicate SomeLeft(row: Row, reader: Reader) {
    exists id :: Left(row, reader, id)
  }

  /** A pick that stays is held by the requirement, or the words of the requirement ground the skills kept. */
  ghost predicate Supported(row: Row, reader: Reader, kept: seq<string>) {
    || (row.never == Unset && exists id :: Left(row, reader, id) && HoldsRow(row, reader, id))
    || reader.grounded(reader.asked(row.name), kept)
  }

  ghost predicate NearRow(row: Row, reader: Reader, id: string) {
    row.never == Unset && id in reader.ruled(reader.asked(row.name)).near
  }

  ghost predicate SomeNotNear(row: Row, reader: Reader, kept: seq<string>) {
    exists id :: id in kept && !NearRow(row, reader, id)
  }

  /** Another name of the same thing: placed on a concept the requirement names, as a pick that stays is. */
  ghost predicate AlikeALeft(row: Row, reader: Reader, id: string) {
    exists mine, other, c :: Alikes(row, reader, id, mine, other, c)
  }

  ghost predicate Alikes(row: Row, reader: Reader, id: string, mine: Placing, other: Placing, c: string) {
    && mine in PlacedByName(reader) && other in PlacedByName(reader)
    && mine.skill == id && Left(row, reader, other.skill)
    && c in NamedConcepts(reader, row.name) && c in mine.owned && c in other.owned
  }

  lemma KnownAreLeft(row: Row, reader: Reader, id: string)
    ensures id in KnownSkills(row, reader) <==> Left(row, reader, id)
  {
  }

  lemma SomeKnown(row: Row, reader: Reader)
    ensures KnownSkills(row, reader) != [] <==> SomeLeft(row, reader)
  {
    var known := KnownSkills(row, reader);
    if known != [] {
      KnownAreLeft(row, reader, known[0]);
    }
    if id :| Left(row, reader, id) {
      KnownAreLeft(row, reader, id);
    }
  }

  lemma HeldIsHeld(row: Row, reader: Reader)
    requires Met(row.match_)
    ensures HeldByConcept(row, reader, KnownSkills(row, reader))
      <==> row.never == Unset && exists id :: Left(row, reader, id) && HoldsRow(row, reader, id)
  {
    var known := KnownSkills(row, reader);
    var holders := Holders(reader.index, NamedConcepts(reader, row.name), PlacedByName(reader)) + RulingOn(row, reader).same;
    if HeldByConcept(row, reader, known) {
      var id :| id in holders && id in known;
      KnownAreLeft(row, reader, id);
      assert HoldsRow(row, reader, id);
    }
    if row.never == Unset {
      if id :| Left(row, reader, id) && HoldsRow(row, reader, id) {
        KnownAreLeft(row, reader, id);
        assert id in holders;
      }
    }
  }

  /** The match once the picks are weighed: what became of it, and why. */
  ghost predicate MatchWeighed(row: Row, reader: Reader, picked: Row) {
    && (picked.match_ == Yes <==>
          row.match_ == Yes && SomeLeft(row, reader) && Supported(row, reader, picked.skills) && SomeNotNear(row, reader, picked.skills))
    && (picked.match_ == No <==> row.match_ == No || !SomeLeft(row, reader))
    && (picked.judged <==> row.judged || (Met(row.match_) && SomeLeft(row, reader) && !Supported(row, reader, picked.skills)))
    && picked.match_ != Unread
  }

  lemma NearAlone(row: Row, reader: Reader, kept: seq<string>)
    ensures Every(kept, id => id in RulingOn(row, reader).near) <==> !SomeNotNear(row, reader, kept)
  {
    if Every(kept, id => id in RulingOn(row, reader).near) {
      assert forall id :: id in kept ==> NearRow(row, reader, id);
    } else {
      var id :| id in kept && id !in RulingOn(row, reader).near;
      assert !NearRow(row, reader, id);
    }
  }

  lemma KeptWhenMet(row: Row, reader: Reader)
    requires Met(row.match_) && KnownSkills(row, reader) != []
    ensures SkillStage(row, reader).skills == WithAlike(row, reader, KnownSkills(row, reader)) != []
    ensures Met(SkillStage(row, reader).match_)
  {
  }

  /**
   A full match stands exactly when it was one, a pick stays, the requirement's concept or words hold the picks, and the
   owner did not rule all of them near. It is to verify exactly when it was met, and neither the concept nor the words
   hold what stays. It is no exactly when it was no, or no pick stays.
   */
  lemma PicksAreWeighed(row: Row, reader: Reader)
    requires row.match_ != Unread
    ensures MatchWeighed(row, reader, SkillStage(row, reader))
  {
    var known, picked := KnownSkills(row, reader), SkillStage(row, reader);
    SomeKnown(row, reader);
    if Met(row.match_) && known != [] {
      KeptWhenMet(row, reader);
      HeldIsHeld(row, reader);
      NearAlone(row, reader, picked.skills);
    }
  }

  /** The picks that stay, in the model's order, then the other names of what they are. */
  ghost predicate SkillsWeighed(row: Row, reader: Reader, picked: Row) {
    if picked.match_ == No then picked.skills == []
    else exists places :: KeptFirst(row, reader, places, picked.skills)
  }

  ghost predicate KeptFirst(row: Row, reader: Reader, places: seq<nat>, skills: seq<string>) {
    && |places| <= |skills| && TakenAt(row.skills, places, skills[..|places|])
    && (forall i :: 0 <= i < |row.skills| ==> (i in places <==> Left(row, reader, row.skills[i])))
    && (forall id :: id in skills[|places|..] <==> !Left(row, reader, id) && Met(row.match_) && row.never == Unset && AlikeALeft(row, reader, id))
  }

  lemma AlikeAreAlike(row: Row, reader: Reader, id: string)
    ensures id in Alike(NamedConcepts(reader, row.name), PlacedByName(reader), KnownSkills(row, reader), PlacedByName(reader))
      <==> AlikeALeft(row, reader, id)
  {
    var named, placed, known := NamedConcepts(reader, row.name), PlacedByName(reader), KnownSkills(row, reader);
    if id in Alike(named, placed, known, placed) {
      var mine :| mine in placed && mine.skill == id && SharesAPickedConcept(mine.owned, named, placed, known);
      var c, other :| c in mine.owned && c in named && other in placed && other.skill in known && c in other.owned;
      KnownAreLeft(row, reader, other.skill);
      assert Alikes(row, reader, id, mine, other, c);
    }
    if AlikeALeft(row, reader, id) {
      var mine, other, c :| Alikes(row, reader, id, mine, other, c);
      KnownAreLeft(row, reader, other.skill);
      assert SharesAPickedConcept(mine.owned, named, placed, known);
    }
  }

  lemma AlikeNeedsALeft(row: Row, reader: Reader, id: string)
    requires KnownSkills(row, reader) == []
    ensures !AlikeALeft(row, reader, id)
  {
    SomeKnown(row, reader);
  }

  lemma WithAlikeKeepsFirst(row: Row, reader: Reader)
    ensures exists places :: KeptFirst(row, reader, places, WithAlike(row, reader, KnownSkills(row, reader)))
  {
    var ruled, known := RulingOn(row, reader), KnownSkills(row, reader);
    var places := KeepsInOrder(row.skills, id => id in reader.skills && id !in ruled.no);
    var skills := WithAlike(row, reader, known);
    assert skills[..|places|] == known;
    forall id
      ensures id in skills[|places|..] <==> !Left(row, reader, id) && Met(row.match_) && row.never == Unset && AlikeALeft(row, reader, id)
    {
      KnownAreLeft(row, reader, id);
      AlikeAreAlike(row, reader, id);
      if known == [] {
        AlikeNeedsALeft(row, reader, id);
      }
    }
    assert KeptFirst(row, reader, places, skills);
  }

  /** What is left of a row's skills. */
  lemma PicksAreKept(row: Row, reader: Reader)
    ensures SkillsWeighed(row, reader, SkillStage(row, reader))
  {
    WithAlikeKeepsFirst(row, reader);
  }

  /** The row once the picks are weighed. */
  ghost predicate Weighed(row: Row, reader: Reader, picked: Row) {
    && MatchWeighed(row, reader, picked) && SkillsWeighed(row, reader, picked)
    && picked == row.(match_ := picked.match_, skills := picked.skills, judged := picked.judged)
  }

  // ---------------------------------------------------------------- who answers the row

  /** What no skill answers, in the order it is looked for: only what is never claimed is left as it is. */
  ghost predicate Answered(row: Row, reader: Reader, answered: Row) {
    var open := !NeverClaimed(row, reader) && !reader.backed(row.name);
    if reader.qualityWords(row.name) && open then
      answered == row.(kind := Quality, match_ := Yes, skills := [], judged := false)
    else if reader.conditionWords(row.name) && open && row.match_ == No then
      answered == row.(kind := Condition, skills := [])
    else if row.never != Unset then
      answered == row
    else if reader.languageOf(row.name).Some? then
      answered == row.(kind := Language, match_ := reader.languageOf(row.name).value, skills := [], judged := false)
    else if reader.certificationOf(row.name).Some? then
      answered == row.(kind := Certification, match_ := ByCertificate(reader.certificationOf(row.name).value), skills := [], judged := false)
    else if reader.degreeOf(row.name).Some? then
      answered == row.(kind := Degree, match_ := if reader.degreeOf(row.name).value then Yes else No, skills := [], judged := false)
    else
      answered == row
  }

  /** No certification of that name, one that expired, or one that holds. */
  ghost function ByCertificate(certificate: Certificate): Match {
    match certificate
    case Certificate(false, _) => No
    case Certificate(true, true) => Adjacent
    case Certificate(true, false) => Yes
  }

  lemma KindsAnswer(row: Row, reader: Reader)
    requires row.kind == Skill
    ensures Answered(row, reader, KindRow(row, reader))
  {
    assert IsNever(row, reader) <==> NeverClaimed(row, reader);
  }

  // ---------------------------------------------------------------- the profile's own answer

  /** To verify, or a full match through no skill at working level or better. */
  ghost predicate Doubtful(reader: Reader, match_: Match, skills: seq<string>, judged: bool) {
    judged || (match_ == Yes && skills != []
      && forall id :: id in skills && id in reader.skills ==> reader.skills[id].level == Lab || reader.skills[id].level == Notions)
  }

  /** Better met; or as well met, firmly where the row was doubtful. */
  ghost predicate BetterAnswer(reader: Reader, found: Coverage.Found, row: Row) {
    || Higher(found.match_, row.match_)
    || (found.match_ == row.match_ != Unread
        && !Doubtful(reader, found.match_, found.skills, found.judged) && Doubtful(reader, row.match_, row.skills, row.judged))
  }

  lemma WeakIsDoubtful(reader: Reader, match_: Match, skills: seq<string>, judged: bool)
    ensures judged || Weak(match_, skills, reader) <==> Doubtful(reader, match_, skills, judged)
  {
  }

  /** The rank guard, without ranks. */
  lemma OutrankingIsABetterAnswer(reader: Reader, found: Coverage.Found, row: Row)
    requires Met(found.match_)
    ensures Outranks(found, row, reader) <==> BetterAnswer(reader, found, row)
  {
    WeakIsDoubtful(reader, found.match_, found.skills, found.judged);
    WeakIsDoubtful(reader, row.match_, row.skills, row.judged);
  }

  /** The profile's answer takes over a row asked of skills, and not never claimed, exactly when it is better. */
  ghost predicate TakenOver(row: Row, reader: Reader, settled: Row) {
    var found := ProfileAnswer(row, reader);
    if row.never == Unset && row.kind == Skill && found.Some? && BetterAnswer(reader, found.value, row)
    then settled == row.(match_ := found.value.match_, skills := found.value.skills, judged := found.value.judged)
    else settled == row
  }

  lemma ProfileTakesOver(row: Row, reader: Reader)
    ensures TakenOver(row, reader, ProfileStage(row, reader))
  {
    ProfileAnswerUsable(row, reader);
    var found := ProfileAnswer(row, reader);
    if found.Some? {
      OutrankingIsABetterAnswer(reader, found.value, row);
    }
  }

  // ---------------------------------------------------------------- the whole way of a row

  /** Named, weighed, answered, taken over: what each stage makes of a readable row. */
  ghost predicate SettledAs(row: Row, reader: Reader, named: Row, picked: Row, answered: Row, settled: Row) {
    && SettledByName(row, reader, named)
    && Weighed(named, reader, picked)
    && Answered(picked, reader, answered)
    && TakenOver(answered, reader, settled)
  }

  lemma NamedIsReadable(row: Row, reader: Reader)
    requires row.match_ != Unread
    ensures var named := NamedRow(row, reader); named.match_ != Unread && named.kind == row.kind && named.judged == row.judged
  {
  }

  /** Every stage of settling does what the rules say. */
  lemma EveryStageIsRight(row: Row, reader: Reader)
    requires row.match_ != Unread && row.kind == Skill
    ensures exists named, picked, answered :: SettledAs(row, reader, named, picked, answered, SettledRow(row, reader))
  {
    var named := NamedRow(row, reader);
    var picked := SkillStage(named, reader);
    NamesSettle(row, reader);
    NamedIsReadable(row, reader);
    PicksAreWeighed(named, reader);
    PicksAreKept(named, reader);
    KindsAnswer(picked, reader);
    ProfileTakesOver(KindRow(picked, reader), reader);
    assert SettledAs(row, reader, named, picked, KindRow(picked, reader), SettledRow(row, reader));
  }

  /** Met in full, or to verify, for the reasons the picks give. */
  ghost predicate MetAsPicked(named: Row, reader: Reader, settled: Row) {
    && (settled.match_ == Yes <==>
          named.match_ == Yes && SomeLeft(named, reader) && Supported(named, reader, settled.skills) && SomeNotNear(named, reader, settled.skills))
    && (settled.match_ == Adjacent && settled.judged <==>
          Met(named.match_) && SomeLeft(named, reader) && !Supported(named, reader, settled.skills))
  }

  lemma WeighedIsMetAsPicked(named: Row, reader: Reader, picked: Row)
    requires MatchWeighed(named, reader, picked) && !named.judged
    ensures MetAsPicked(named, reader, picked)
  {
  }

  /**
   A settled row asked of skills, when the profile has no answer of its own: met in full exactly when, once the profile's
   names were read, it was, a pick stays, the concept or the words hold the picks, and not all are near; to verify exactly
   when it was met, a pick stays, and neither holds them.
   */
  lemma SettledAsPicked(row: Row, reader: Reader)
    requires Fresh(row) && row.match_ != Unread && SettledRow(row, reader).kind == Skill
    requires ProfileAnswer(NamedRow(row, reader), reader).None?
    ensures SettledByName(row, reader, NamedRow(row, reader))
    ensures MetAsPicked(NamedRow(row, reader), reader, SettledRow(row, reader))
    ensures SkillsWeighed(NamedRow(row, reader), reader, SettledRow(row, reader))
  {
    var named := NamedRow(row, reader);
    NamesSettle(row, reader);
    NamedIsReadable(row, reader);
    PicksAreWeighed(named, reader);
    WeighedIsMetAsPicked(named, reader, SkillStage(named, reader));
    PicksAreKept(named, reader);
    SilentProfileChangesNothing(row, reader);
  }

  lemma SilentProfileChangesNothing(row: Row, reader: Reader)
    requires Fresh(row) && SettledRow(row, reader).kind == Skill && ProfileAnswer(NamedRow(row, reader), reader).None?
    ensures SettledRow(row, reader) == SkillStage(NamedRow(row, reader), reader)
  {
    var named := NamedRow(row, reader);
    var picked := SkillStage(named, reader);
    KindsAnswer(picked, reader);
    assert picked.name == named.name && picked.never == named.never;
    assert ProfileAnswer(picked, reader) == ProfileAnswer(named, reader);
  }

  // ---------------------------------------------------------------- what the stages read

  /** The concepts a requirement names: those the labels found in what it asks lead to. */
  lemma {:induction false} LookupIs(index: Index, words: Words, cuts: seq<Cut>, id: string)
    ensures id in Lookup(index, words, cuts) <==> exists cut :: cut in cuts && LabelLeads(index, words, cut, id)
  {
    if cuts != [] {
      LookupIs(index, words, cuts[1..], id);
      assert cuts == [cuts[0]] + cuts[1..];
      assert LabelLeads(index, words, cuts[0], id) ==> cuts[0] in cuts;
    }
  }

  /** A skill is placed when it is usable and some concept places it. */
  lemma {:induction false} PlacementsAre(ids: seq<string>, out: set<string>, concepts: string -> seq<string>, id: string, owned: seq<string>)
    ensures Placing(id, owned) in Placements(ids, out, concepts) <==> id in ids && id !in out && owned == concepts(id) && owned != []
  {
    if ids != [] {
      PlacementsAre(ids[1..], out, concepts, id, owned);
      assert ids == [ids[0]] + ids[1..];
    }
  }

  /** What the profile's answer reads: its usable skills, placed by their names, and by their terms too. */
  lemma ContextIs(reader: Reader, id: string, owned: seq<string>)
    ensures var ctx := CoverageContext(reader);
      && (id in ctx.usable <==> id in reader.skills && id !in reader.out)
      && (Placing(id, owned) in ctx.named <==> id in reader.order && id !in reader.out && owned == reader.concepts(id) && owned != [])
      && (Placing(id, owned) in ctx.placed <==> id in reader.order && id !in reader.out && owned == reader.broadly(id) && owned != [])
      && ctx.skills == reader.skills && ctx.order == reader.order && ctx.bullets == reader.bullets
  {
    PlacementsAre(reader.order, reader.out, reader.concepts, id, owned);
    PlacementsAre(reader.order, reader.out, reader.broadly, id, owned);
  }
}
