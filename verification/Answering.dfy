/**
When the profile answers a requirement, and through which skills (cv/src/coverage.js), said of single skills, parts and
words: what covers a part, what is left unsaid, what a skill's own words say, and what is offered when none of it is met.
*/
module Answering {
  import opened Collections
  import opened Rows
  import opened Lexicon
  import opened Hierarchy
  import opened Coverage

  // ---------------------------------------------------------------- what a skill's own words say

  /** A stem asked of a skill: of a word of the requirement, a practice aside when the skill is deep. */
  ghost predicate IsAsked(v: Vocabulary, words: seq<string>, deep: bool, stem: string) {
    exists w :: w in words && !(deep && w in v.practice) && stem == v.stem(w)
  }

  /** Every word of the label is asked. */
  ghost predicate IsInside(v: Vocabulary, words: seq<string>, deep: bool, tag: Said) {
    tag.stems != [] && forall w :: w in tag.stems ==> IsAsked(v, words, deep, w)
  }

  function Asked(v: Vocabulary, words: seq<string>, deep: bool): (asked: set<string>)
    ensures forall stem :: stem in asked <==> IsAsked(v, words, deep, stem)
  {
    set w | w in words && !(deep && w in v.practice) :: v.stem(w)
  }

  /** Everything asked is in the label, which is at most twice as long. */
  ghost predicate IsWithin(v: Vocabulary, words: seq<string>, deep: bool, tag: Said) {
    && tag.stems != [] && |tag.stems| <= 2 * |Asked(v, words, deep)|
    && forall w :: IsAsked(v, words, deep, w) ==> w in tag.stems
  }

  ghost predicate SomeInside(v: Vocabulary, words: seq<string>, deep: bool, said: seq<Said>, named: bool) {
    exists tag :: tag in said && IsInside(v, words, deep, tag) && (named ==> tag.isName)
  }

  ghost predicate SomeWithin(v: Vocabulary, words: seq<string>, deep: bool, said: seq<Said>, named: bool) {
    exists tag :: tag in said && IsWithin(v, words, deep, tag) && (named ==> tag.isName)
  }

  /** Each stem asked is in some label said whole. */
  ghost predicate SaidWhole(v: Vocabulary, words: seq<string>, deep: bool, said: seq<Said>) {
    forall stem :: IsAsked(v, words, deep, stem) ==> SaidInside(v, words, deep, said, stem)
  }

  ghost predicate SaidInside(v: Vocabulary, words: seq<string>, deep: bool, said: seq<Said>, stem: string) {
    exists tag :: tag in said && IsInside(v, words, deep, tag) && stem in tag.stems
  }

  /** A name says it all: the labels asked whole cover it, one of them a name; or a name holds it, not much longer. */
  ghost predicate SaysAll(v: Vocabulary, words: seq<string>, deep: bool, said: seq<Said>) {
    (SaidWhole(v, words, deep, said) && SomeInside(v, words, deep, said, true)) || SomeWithin(v, words, deep, said, true)
  }

  ghost predicate NothingAsked(v: Vocabulary, words: seq<string>, deep: bool) {
    forall stem :: !IsAsked(v, words, deep, stem)
  }

  lemma InsideIs(v: Vocabulary, words: seq<string>, deep: bool, said: seq<Said>, tag: Said)
    ensures tag in Insides(said, Asked(v, words, deep)) <==> tag in said && IsInside(v, words, deep, tag)
    ensures tag in Withins(said, Asked(v, words, deep)) <==> tag in said && IsWithin(v, words, deep, tag)
  {
  }

  lemma SomeAny(v: Vocabulary, words: seq<string>, said: seq<Said>, deep: bool)
    ensures var asked := Asked(v, words, deep);
      && (SomeName(Insides(said, asked)) <==> SomeInside(v, words, deep, said, true))
      && (SomeName(Withins(said, asked)) <==> SomeWithin(v, words, deep, said, true))
      && (Insides(said, asked) != [] <==> SomeInside(v, words, deep, said, false))
      && (Withins(said, asked) != [] <==> SomeWithin(v, words, deep, said, false))
  {
    var asked := Asked(v, words, deep);
    forall tag
      ensures tag in Insides(said, asked) <==> tag in said && IsInside(v, words, deep, tag)
      ensures tag in Withins(said, asked) <==> tag in said && IsWithin(v, words, deep, tag)
    {
      InsideIs(v, words, deep, said, tag);
    }
    NothingIn(Insides(said, asked));
    NothingIn(Withins(said, asked));
  }

  lemma StemSaid(v: Vocabulary, words: seq<string>, said: seq<Said>, deep: bool, stem: string)
    ensures SomeSays(Insides(said, Asked(v, words, deep)), stem) <==> SaidInside(v, words, deep, said, stem)
  {
    var inside := Insides(said, Asked(v, words, deep));
    if tag :| tag in inside && stem in tag.stems {
      InsideIs(v, words, deep, said, tag);
    }
    if tag :| tag in said && IsInside(v, words, deep, tag) && stem in tag.stems {
      InsideIs(v, words, deep, said, tag);
    }
  }

  lemma WholeIs(v: Vocabulary, words: seq<string>, said: seq<Said>, deep: bool)
    ensures (forall w :: w in Asked(v, words, deep) ==> SomeSays(Insides(said, Asked(v, words, deep)), w)) <==> SaidWhole(v, words, deep, said)
  {
    forall w
      ensures SomeSays(Insides(said, Asked(v, words, deep)), w) <==> SaidInside(v, words, deep, said, w)
    {
      StemSaid(v, words, said, deep, w);
    }
  }

  /** A skill's grade: 3 when a name says it all, 2 when a name says part of it, 1 when only terms do, 0 when nothing does. */
  ghost predicate GradedRight(v: Vocabulary, words: seq<string>, said: seq<Said>, deep: bool, grade: nat) {
    if NothingAsked(v, words, deep) then grade == 0
    else if SaysAll(v, words, deep, said) then grade == 3
    else if SomeInside(v, words, deep, said, true) then grade == 2
    else if SomeInside(v, words, deep, said, false) || SomeWithin(v, words, deep, said, false) then grade == 1
    else grade == 0
  }

  lemma GradeIsRight(v: Vocabulary, words: seq<string>, said: seq<Said>, deep: bool)
    ensures GradedRight(v, words, said, deep, Grade(v, words, said, deep))
  {
    SomeAny(v, words, said, deep);
    WholeIs(v, words, said, deep);
    assert NothingAsked(v, words, deep) <==> Asked(v, words, deep) == {};
  }

  /** A skill whose words may speak: usable, and above notions. */
  ghost predicate MaySay(ctx: Context, ruled: Ruling, id: string) {
    Ok(ctx, ruled, id) && AboveNotions(ctx, id)
  }

  /** A practised skill whose own names say the whole requirement. */
  ghost predicate SaysItAll(ctx: Context, ruled: Ruling, words: seq<string>, id: string) {
    && MaySay(ctx, ruled, id) && Strong(ctx, ruled, id) && !NothingAsked(ctx.vocabulary, words, IsDeep(ctx, id))
    && SaysAll(ctx.vocabulary, words, IsDeep(ctx, id), ctx.skills[id].said)
  }

  /** A skill whose own names say part of it, or all of it without being practised. */
  ghost predicate NamesAPart(ctx: Context, ruled: Ruling, words: seq<string>, id: string) {
    var deep := Strong(ctx, ruled, id) && IsDeep(ctx, id);
    && MaySay(ctx, ruled, id) && !NothingAsked(ctx.vocabulary, words, deep)
    && (SomeInside(ctx.vocabulary, words, deep, ctx.skills[id].said, true)
        || (!Strong(ctx, ruled, id) && SomeWithin(ctx.vocabulary, words, deep, ctx.skills[id].said, true)))
  }

  /** A skill some label of which, name or term, says part of it. */
  ghost predicate SaysAPart(ctx: Context, ruled: Ruling, words: seq<string>, id: string) {
    var deep := Strong(ctx, ruled, id) && IsDeep(ctx, id);
    && MaySay(ctx, ruled, id) && !NothingAsked(ctx.vocabulary, words, deep)
    && (SomeInside(ctx.vocabulary, words, deep, ctx.skills[id].said, false)
        || SomeWithin(ctx.vocabulary, words, deep, ctx.skills[id].said, false))
  }

  lemma GradeOfIs(ctx: Context, ruled: Ruling, words: seq<string>, id: string)
    ensures GradeOf(ctx, ruled, words, id) == 3 <==> SaysItAll(ctx, ruled, words, id)
    ensures GradeOf(ctx, ruled, words, id) == 2 <==> !SaysItAll(ctx, ruled, words, id) && NamesAPart(ctx, ruled, words, id)
    ensures GradeOf(ctx, ruled, words, id) > 0 <==> SaysAPart(ctx, ruled, words, id)
    ensures GradeOf(ctx, ruled, words, id) <= 3
  {
    if MaySay(ctx, ruled, id) {
      GradeIsRight(ctx.vocabulary, words, ctx.skills[id].said, Strong(ctx, ruled, id) && IsDeep(ctx, id));
    }
  }

  ghost predicate SomeSaysAll(ctx: Context, ruled: Ruling, words: seq<string>) {
    exists id :: id in ctx.order && SaysItAll(ctx, ruled, words, id)
  }

  ghost predicate SomeNamesAPart(ctx: Context, ruled: Ruling, words: seq<string>) {
    exists id :: id in ctx.order && NamesAPart(ctx, ruled, words, id)
  }

  ghost predicate SomeSaysAPart(ctx: Context, ruled: Ruling, words: seq<string>) {
    exists id :: id in ctx.order && SaysAPart(ctx, ruled, words, id)
  }

  /** In the profile's order. */
  ghost predicate InItsOrder(ctx: Context, skills: seq<string>) {
    exists places :: TakenAt(ctx.order, places, skills)
  }

  /** What the words answer: met by the skills that say all, near by those that name a part, to verify by the others. */
  ghost predicate SaidByWords(ctx: Context, ruled: Ruling, words: seq<string>, found: Option<Found>) {
    if words == [] || !SomeSaysAPart(ctx, ruled, words) then found == None
    else if found == None then false
    else
      && found.value.via == ByVocabulary
      && (found.value.match_ == Yes <==> SomeSaysAll(ctx, ruled, words))
      && (found.value.match_ == Yes || found.value.match_ == Adjacent)
      && (found.value.judged <==> !SomeSaysAll(ctx, ruled, words) && !SomeNamesAPart(ctx, ruled, words))
      && InItsOrder(ctx, found.value.skills)
      && forall id :: id in found.value.skills <==> id in ctx.order && SaysBest(ctx, ruled, words, id)
  }

  /** None says more than this skill does. */
  ghost predicate SaysBest(ctx: Context, ruled: Ruling, words: seq<string>, id: string) {
    if SomeSaysAll(ctx, ruled, words) then SaysItAll(ctx, ruled, words, id)
    else if SomeNamesAPart(ctx, ruled, words) then NamesAPart(ctx, ruled, words, id)
    else SaysAPart(ctx, ruled, words, id)
  }

  lemma TopIs(ctx: Context, ruled: Ruling, words: seq<string>)
    ensures var top := TopGrade(ctx, ruled, words, ctx.order);
      && (top == 3 <==> SomeSaysAll(ctx, ruled, words))
      && (top == 2 <==> !SomeSaysAll(ctx, ruled, words) && SomeNamesAPart(ctx, ruled, words))
      && (top > 0 <==> SomeSaysAPart(ctx, ruled, words)) && top <= 3
  {
    var top := TopGrade(ctx, ruled, words, ctx.order);
    if top > 0 {
      var id :| id in ctx.order && GradeOf(ctx, ruled, words, id) == top;
      GradeOfIs(ctx, ruled, words, id);
    }
    forall id | id in ctx.order
      ensures SaysItAll(ctx, ruled, words, id) ==> top == 3
      ensures NamesAPart(ctx, ruled, words, id) ==> top >= 2
      ensures SaysAPart(ctx, ruled, words, id) ==> top >= 1
    {
      GradeOfIs(ctx, ruled, words, id);
      assert GradeOf(ctx, ruled, words, id) <= top;
    }
  }

  lemma OfGradeInItsOrder(ctx: Context, ruled: Ruling, words: seq<string>, grade: nat)
    ensures InItsOrder(ctx, OfGrade(ctx, ruled, words, grade))
  {
    var places := KeepsInOrder(ctx.order, id => GradeOf(ctx, ruled, words, id) == grade);
  }

  lemma OfTopGradeSaysBest(ctx: Context, ruled: Ruling, words: seq<string>, id: string)
    requires TopGrade(ctx, ruled, words, ctx.order) > 0 && id in ctx.order
    ensures GradeOf(ctx, ruled, words, id) == TopGrade(ctx, ruled, words, ctx.order) <==> SaysBest(ctx, ruled, words, id)
  {
    TopIs(ctx, ruled, words);
    GradeOfIs(ctx, ruled, words, id);
  }

  lemma WordsAnswer(ctx: Context, ruled: Ruling, words: seq<string>)
    ensures SaidByWords(ctx, ruled, words, FromWords(ctx, ruled, words))
  {
    var top := TopGrade(ctx, ruled, words, ctx.order);
    TopIs(ctx, ruled, words);
    OfGradeInItsOrder(ctx, ruled, words, top);
    forall id
      ensures top > 0 ==> (id in OfGrade(ctx, ruled, words, top) <==> id in ctx.order && SaysBest(ctx, ruled, words, id))
    {
      if top > 0 && id in ctx.order {
        OfTopGradeSaysBest(ctx, ruled, words, id);
      }
    }
  }

  // ---------------------------------------------------------------- the concepts a name names

  ghost predicate StrongSame(ctx: Context, ruled: Ruling, id: string) {
    id in ruled.same && Ok(ctx, ruled, id) && Strong(ctx, ruled, id)
  }

  /** A practised skill placed by a name at or under a concept of the part. */
  ghost predicate MeetsPart(ctx: Context, ruled: Ruling, part: seq<string>, id: string) {
    Ok(ctx, ruled, id) && Strong(ctx, ruled, id) && id in Holders(ctx.index, part, ctx.named)
  }

  ghost predicate Covers(ctx: Context, ruled: Ruling, part: seq<string>, id: string) {
    MeetsPart(ctx, ruled, part, id) || StrongSame(ctx, ruled, id)
  }

  ghost predicate SomeSame(ctx: Context, ruled: Ruling) {
    exists id :: StrongSame(ctx, ruled, id)
  }

  ghost predicate IsCovered(ctx: Context, ruled: Ruling, part: seq<string>) {
    exists id :: Covers(ctx, ruled, part, id)
  }

  ghost predicate EachCovered(ctx: Context, ruled: Ruling, parts: seq<seq<string>>) {
    forall k :: 0 <= k < |parts| ==> IsCovered(ctx, ruled, parts[k])
  }

  /** Every part named is covered; with none named, the owner ruled some practised skill the same. */
  ghost predicate AllCovered(ctx: Context, ruled: Ruling, parts: seq<seq<string>>) {
    if parts == [] then SomeSame(ctx, ruled) else EachCovered(ctx, ruled, parts)
  }

  /** On the part's own concepts, or, when no such skill is, on one of their members; or ruled the same. */
  ghost predicate Chosen(ctx: Context, ruled: Ruling, part: seq<string>, id: string) {
    || StrongSame(ctx, ruled, id)
    || (MeetsPart(ctx, ruled, part, id) && (PlacedDirectly(ctx.named, id, part) || !SomeDirect(ctx, ruled, part)))
  }

  ghost predicate SomeDirect(ctx: Context, ruled: Ruling, part: seq<string>) {
    exists id :: MeetsPart(ctx, ruled, part, id) && PlacedDirectly(ctx.named, id, part)
  }

  ghost predicate ChosenForSome(ctx: Context, ruled: Ruling, parts: seq<seq<string>>, id: string) {
    exists k :: 0 <= k < |parts| && Chosen(ctx, ruled, parts[k], id)
  }

  /** What a full answer names: the skills chosen for a part, and those ruled the same. */
  ghost predicate NamedInFull(ctx: Context, ruled: Ruling, parts: seq<seq<string>>, id: string) {
    StrongSame(ctx, ruled, id) || ChosenForSome(ctx, ruled, parts, id)
  }

  /** A word no part takes, that says something: a practice says nothing once an expert or proficient skill covers it. */
  ghost predicate Unsaid(ctx: Context, ruled: Ruling, parts: seq<seq<string>>, rest: seq<string>, word: string) {
    && word in rest && word !in ctx.vocabulary.ignored
    && (word in ctx.vocabulary.practice ==> forall id :: NamedInFull(ctx, ruled, parts, id) ==> !IsDeep(ctx, id))
  }

  ghost predicate NothingUnsaid(ctx: Context, ruled: Ruling, parts: seq<seq<string>>, rest: seq<string>) {
    forall word :: !Unsaid(ctx, ruled, parts, rest, word)
  }

  /** Met through its concepts: all covered, and no word left unsaid unless the owner ruled a practised skill the same. */
  ghost predicate MetByConcepts(ctx: Context, ruled: Ruling, parts: seq<seq<string>>, rest: seq<string>) {
    AllCovered(ctx, ruled, parts) && (NothingUnsaid(ctx, ruled, parts, rest) || SomeSame(ctx, ruled))
  }

  function SameOf(ctx: Context, ruled: Ruling): seq<string> {
    OkAmong(ctx, ruled, ruled.same)
  }

  function CoveringOf(ctx: Context, ruled: Ruling, parts: seq<seq<string>>): seq<seq<string>> {
    Covering(ctx, ruled, SameOf(ctx, ruled), parts, HoldersOf(ctx, ruled, ctx.named, parts))
  }

  function CoverOfPart(ctx: Context, ruled: Ruling, part: seq<string>): seq<string> {
    CoverOf(ctx, ruled, SameOf(ctx, ruled), part, OkAmong(ctx, ruled, Holders(ctx.index, part, ctx.named)))
  }

  lemma CoverIsChosen(ctx: Context, ruled: Ruling, part: seq<string>, id: string)
    ensures id in CoverOfPart(ctx, ruled, part) <==> Chosen(ctx, ruled, part, id)
  {
    var met := StrongAmong(ctx, ruled, OkAmong(ctx, ruled, Holders(ctx.index, part, ctx.named)));
    var own := DirectAmong(ctx, part, met);
    assert forall other :: other in met <==> MeetsPart(ctx, ruled, part, other);
    NothingIn(own);
  }

  lemma CoverIsFilled(ctx: Context, ruled: Ruling, part: seq<string>)
    ensures CoverOfPart(ctx, ruled, part) != [] <==> IsCovered(ctx, ruled, part)
  {
    var cover := CoverOfPart(ctx, ruled, part);
    if cover != [] {
      CoverIsChosen(ctx, ruled, part, cover[0]);
      assert Covers(ctx, ruled, part, cover[0]);
    }
    if id :| Covers(ctx, ruled, part, id) {
      CoverIsChosen(ctx, ruled, part, id);
      if other :| MeetsPart(ctx, ruled, part, other) && PlacedDirectly(ctx.named, other, part) {
        CoverIsChosen(ctx, ruled, part, other);
      }
    }
  }

  lemma {:induction false} CoveringAt(ctx: Context, ruled: Ruling, parts: seq<seq<string>>, k: nat)
    requires k < |parts|
    ensures |CoveringOf(ctx, ruled, parts)| == |parts| && CoveringOf(ctx, ruled, parts)[k] == CoverOfPart(ctx, ruled, parts[k])
  {
    assert HoldersOf(ctx, ruled, ctx.named, parts)[1..] == HoldersOf(ctx, ruled, ctx.named, parts[1..]);
    if k > 0 {
      CoveringAt(ctx, ruled, parts[1..], k - 1);
    }
  }

  lemma CoveringIsChosen(ctx: Context, ruled: Ruling, parts: seq<seq<string>>, id: string)
    ensures id in Flat(CoveringOf(ctx, ruled, parts)) <==> ChosenForSome(ctx, ruled, parts, id)
  {
    var covering := CoveringOf(ctx, ruled, parts);
    if id in Flat(covering) {
      var k :| 0 <= k < |covering| && id in covering[k];
      CoveringAt(ctx, ruled, parts, k);
      CoverIsChosen(ctx, ruled, parts[k], id);
    }
    if ChosenForSome(ctx, ruled, parts, id) {
      var k :| 0 <= k < |parts| && Chosen(ctx, ruled, parts[k], id);
      CoveringAt(ctx, ruled, parts, k);
      CoverIsChosen(ctx, ruled, parts[k], id);
    }
  }

  lemma CoveredAt(ctx: Context, ruled: Ruling, parts: seq<seq<string>>, k: nat)
    requires k < |parts|
    ensures |CoveringOf(ctx, ruled, parts)| == |parts| && (CoveringOf(ctx, ruled, parts)[k] != [] <==> IsCovered(ctx, ruled, parts[k]))
  {
    CoveringAt(ctx, ruled, parts, k);
    CoverIsFilled(ctx, ruled, parts[k]);
  }

  lemma AllFilledIsCovered(ctx: Context, ruled: Ruling, parts: seq<seq<string>>)
    ensures AllFilled(CoveringOf(ctx, ruled, parts)) <==> EachCovered(ctx, ruled, parts)
  {
    var covering := CoveringOf(ctx, ruled, parts);
    forall k | 0 <= k < |parts|
      ensures covering[k] in covering && (covering[k] != [] <==> IsCovered(ctx, ruled, parts[k]))
    {
      CoveredAt(ctx, ruled, parts, k);
    }
  }

  lemma StrongSameIs(ctx: Context, ruled: Ruling)
    ensures AnyStrong(ctx, ruled, SameOf(ctx, ruled)) <==> SomeSame(ctx, ruled)
    ensures forall id :: id in StrongAmong(ctx, ruled, SameOf(ctx, ruled)) <==> StrongSame(ctx, ruled, id)
  {
    assert forall id :: id in SameOf(ctx, ruled) && Strong(ctx, ruled, id) <==> StrongSame(ctx, ruled, id);
  }

  lemma DeepIsNamed(ctx: Context, ruled: Ruling, parts: seq<seq<string>>)
    ensures AnyDeep(ctx, ruled, SameOf(ctx, ruled), CoveringOf(ctx, ruled, parts))
      <==> exists id :: NamedInFull(ctx, ruled, parts, id) && IsDeep(ctx, id)
  {
    forall id
      ensures id in Flat(CoveringOf(ctx, ruled, parts)) <==> ChosenForSome(ctx, ruled, parts, id)
    {
      CoveringIsChosen(ctx, ruled, parts, id);
    }
    assert forall id :: id in SameOf(ctx, ruled) && Strong(ctx, ruled, id) <==> StrongSame(ctx, ruled, id);
  }

  lemma ExtraIsUnsaid(ctx: Context, ruled: Ruling, parts: seq<seq<string>>, rest: seq<string>)
    ensures Extra(ctx, AnyDeep(ctx, ruled, SameOf(ctx, ruled), CoveringOf(ctx, ruled, parts)), rest) == []
      <==> NothingUnsaid(ctx, ruled, parts, rest)
  {
    DeepIsNamed(ctx, ruled, parts);
    var deep := AnyDeep(ctx, ruled, SameOf(ctx, ruled), CoveringOf(ctx, ruled, parts));
    NothingIn(Extra(ctx, deep, rest));
    assert forall word :: word in Extra(ctx, deep, rest) <==> Unsaid(ctx, ruled, parts, rest, word);
  }

  lemma MetInFullIs(ctx: Context, ruled: Ruling, parts: seq<seq<string>>, rest: seq<string>)
    ensures MetInFull(ctx, ruled, SameOf(ctx, ruled), CoveringOf(ctx, ruled, parts), rest) <==> MetByConcepts(ctx, ruled, parts, rest)
  {
    StrongSameIs(ctx, ruled);
    AllFilledIsCovered(ctx, ruled, parts);
    ExtraIsUnsaid(ctx, ruled, parts, rest);
    assert |CoveringOf(ctx, ruled, parts)| == |parts|;
  }

  // ---------------------------------------------------------------- the skills an answer by concept may name

  /** Placed by a name at or under a concept named, or ruled the same or near. */
  ghost predicate HeldFirmly(ctx: Context, ruled: Ruling, parts: seq<seq<string>>, id: string) {
    Ok(ctx, ruled, id) && (HoldsAPart(ctx, ctx.named, parts, id) || id in ruled.same || id in ruled.near)
  }

  /** Placed by a name or a term. */
  ghost predicate HeldLoosely(ctx: Context, ruled: Ruling, parts: seq<seq<string>>, id: string) {
    Ok(ctx, ruled, id) && HoldsAPart(ctx, ctx.placed, parts, id)
  }

  ghost predicate SomeFirm(ctx: Context, ruled: Ruling, parts: seq<seq<string>>) {
    exists id :: HeldFirmly(ctx, ruled, parts, id)
  }

  /** What terms place counts only when nothing else does. */
  ghost predicate Brought(ctx: Context, ruled: Ruling, parts: seq<seq<string>>, id: string) {
    if SomeFirm(ctx, ruled, parts) then HeldFirmly(ctx, ruled, parts, id) else HeldLoosely(ctx, ruled, parts, id)
  }

  ghost predicate SomeBrought(ctx: Context, ruled: Ruling, parts: seq<seq<string>>) {
    exists id :: Brought(ctx, ruled, parts, id)
  }

  ghost predicate SomeBroughtAboveNotions(ctx: Context, ruled: Ruling, parts: seq<seq<string>>) {
    exists id :: Brought(ctx, ruled, parts, id) && AboveNotions(ctx, id)
  }

  /** No skill at notions is named beside a better one. */
  ghost predicate NamedAsHeld(ctx: Context, ruled: Ruling, parts: seq<seq<string>>, id: string) {
    Brought(ctx, ruled, parts, id) && (SomeBroughtAboveNotions(ctx, ruled, parts) ==> AboveNotions(ctx, id))
  }

  lemma FirmIs(ctx: Context, ruled: Ruling, parts: seq<seq<string>>, id: string)
    ensures id in Firm(ctx, ruled, parts) <==> HeldFirmly(ctx, ruled, parts, id)
    ensures id in Flat(HoldersOf(ctx, ruled, ctx.placed, parts)) <==> HeldLoosely(ctx, ruled, parts, id)
  {
    HoldersOfHold(ctx, ruled, ctx.named, parts, id);
    HoldersOfHold(ctx, ruled, ctx.placed, parts, id);
  }

  lemma SomeFirmIs(ctx: Context, ruled: Ruling, parts: seq<seq<string>>)
    ensures Firm(ctx, ruled, parts) != [] <==> SomeFirm(ctx, ruled, parts)
  {
    var firm := Firm(ctx, ruled, parts);
    if firm != [] {
      FirmIs(ctx, ruled, parts, firm[0]);
    }
    if id :| HeldFirmly(ctx, ruled, parts, id) {
      FirmIs(ctx, ruled, parts, id);
    }
  }

  lemma GatheredIs(ctx: Context, ruled: Ruling, parts: seq<seq<string>>, id: string)
    ensures id in Gathered(ctx, ruled, parts) <==> Brought(ctx, ruled, parts, id)
  {
    SomeFirmIs(ctx, ruled, parts);
    NoneUnique(Firm(ctx, ruled, parts));
    FirmIs(ctx, ruled, parts, id);
  }

  lemma HeldIs(ctx: Context, ruled: Ruling, parts: seq<seq<string>>, id: string)
    ensures id in HeldFor(ctx, ruled, parts) <==> NamedAsHeld(ctx, ruled, parts, id)
  {
    var gathered := Gathered(ctx, ruled, parts);
    forall other
      ensures other in gathered <==> Brought(ctx, ruled, parts, other)
    {
      GatheredIs(ctx, ruled, parts, other);
    }
  }

  // ---------------------------------------------------------------- the answer

  /** The skills of an answer by concept: those held, unless terms alone hold some and a name says it more firmly. */
  ghost predicate NearByConcepts(ctx: Context, ruled: Ruling, words: seq<string>, parts: seq<seq<string>>, found: Found) {
    if !SomeFirm(ctx, ruled, parts) && words != [] && SomeNamesAPart(ctx, ruled, words) then
      SaidByWords(ctx, ruled, words, Some(found))
    else
      && found.match_ == Adjacent && found.via == ByConcept && (found.judged <==> !SomeFirm(ctx, ruled, parts))
      && forall id :: id in found.skills <==> NamedAsHeld(ctx, ruled, parts, id)
  }

  ghost predicate SomeKin(ctx: Context, ruled: Ruling, parts: seq<seq<string>>) {
    exists id :: IsKin(ctx, ruled, parts, id)
  }

  /** The first bullet that states the requirement. */
  ghost predicate FirstToState(ctx: Context, ruled: Ruling, content: seq<string>, bullets: seq<Bullet>, k: nat) {
    k < |bullets| && StatesIt(ctx, ruled, content, bullets[k]) && forall j :: 0 <= j < k ==> !StatesIt(ctx, ruled, content, bullets[j])
  }

  ghost predicate StatedByBullet(ctx: Context, ruled: Ruling, content: seq<string>, bullets: seq<Bullet>, found: Found) {
    && found.match_ == Adjacent && found.judged && found.via == ByExperience
    && exists k: nat :: FirstToState(ctx, ruled, content, bullets, k)
         && forall id :: id in found.skills <==> id in bullets[k].skills && Ok(ctx, ruled, id) && AboveNotions(ctx, id)
  }

  /**
   The answer, source by source. Yes through the concepts when they meet the requirement in full, or through the skills
   whose own names say it all; else near, through the skills held, the words, the practised siblings or a bullet, the
   first of them that offers any; else none.
   */
  ghost predicate IsAnswer(ctx: Context, ruled: Ruling, name: Phrase, parts: seq<seq<string>>, rest: seq<string>, found: Option<Found>) {
    if MetByConcepts(ctx, ruled, parts, rest) then
      found.Some? && found.value.match_ == Yes && !found.value.judged && found.value.via == ByConcept
        && forall id :: id in found.value.skills <==> NamedInFull(ctx, ruled, parts, id)
    else if name.folded != [] && SomeSaysAll(ctx, ruled, name.folded) then
      SaidByWords(ctx, ruled, name.folded, found)
    else if SomeBrought(ctx, ruled, parts) then
      found.Some? && NearByConcepts(ctx, ruled, name.folded, parts, found.value)
    else if name.folded != [] && SomeSaysAPart(ctx, ruled, name.folded) then
      SaidByWords(ctx, ruled, name.folded, found)
    else if SomeKin(ctx, ruled, parts) then
      found.Some? && found.value.match_ == Adjacent && found.value.judged && found.value.via == BySibling
        && forall id :: id in found.value.skills <==> IsKin(ctx, ruled, parts, id)
    else if found.Some? then
      StatedByBullet(ctx, ruled, name.content, ctx.bullets, found.value)
    else
      NoneOfThem(ctx, ruled, name.content, ctx.bullets)
  }

  lemma MetByConceptsIsBrought(ctx: Context, ruled: Ruling, parts: seq<seq<string>>, rest: seq<string>)
    requires MetByConcepts(ctx, ruled, parts, rest)
    ensures SomeBrought(ctx, ruled, parts)
  {
    var id: string;
    if parts == [] {
      id :| StrongSame(ctx, ruled, id);
    } else {
      assert IsCovered(ctx, ruled, parts[0]);
      id :| Covers(ctx, ruled, parts[0], id);
      assert MeetsPart(ctx, ruled, parts[0], id) ==> HoldsAPart(ctx, ctx.named, parts, id);
    }
    assert HeldFirmly(ctx, ruled, parts, id);
    assert Brought(ctx, ruled, parts, id);
  }

  lemma SomeHeldIs(ctx: Context, ruled: Ruling, parts: seq<seq<string>>)
    ensures HeldFor(ctx, ruled, parts) != [] <==> SomeBrought(ctx, ruled, parts)
  {
    var held := HeldFor(ctx, ruled, parts);
    if held != [] {
      HeldIs(ctx, ruled, parts, held[0]);
    }
    if id :| Brought(ctx, ruled, parts, id) {
      var best := if exists other :: Brought(ctx, ruled, parts, other) && AboveNotions(ctx, other)
                  then var other :| Brought(ctx, ruled, parts, other) && AboveNotions(ctx, other); other else id;
      HeldIs(ctx, ruled, parts, best);
    }
  }

  lemma FullAnswerIs(ctx: Context, ruled: Ruling, parts: seq<seq<string>>, id: string)
    ensures id in Unique(Flat(CoveringOf(ctx, ruled, parts)) + StrongAmong(ctx, ruled, SameOf(ctx, ruled))) <==> NamedInFull(ctx, ruled, parts, id)
  {
    CoveringIsChosen(ctx, ruled, parts, id);
    StrongSameIs(ctx, ruled);
  }

  lemma BulletsUnfold(ctx: Context, ruled: Ruling, content: seq<string>, bullets: seq<Bullet>)
    requires content != [] && bullets != []
    ensures StatesIt(ctx, ruled, content, bullets[0]) ==>
      ByBullets(ctx, ruled, content, bullets).Some? && StatedByBullet(ctx, ruled, content, bullets, ByBullets(ctx, ruled, content, bullets).value)
    ensures !StatesIt(ctx, ruled, content, bullets[0]) ==> ByBullets(ctx, ruled, content, bullets) == ByBullets(ctx, ruled, content, bullets[1..])
  {
    NothingIn(Keep(bullets[0].skills, id => Ok(ctx, ruled, id) && AboveNotions(ctx, id)));
    if StatesIt(ctx, ruled, content, bullets[0]) {
      assert FirstToState(ctx, ruled, content, bullets, 0);
    }
  }

  lemma {:induction false} BulletAnswers(ctx: Context, ruled: Ruling, content: seq<string>, bullets: seq<Bullet>)
    requires ByBullets(ctx, ruled, content, bullets).Some?
    ensures StatedByBullet(ctx, ruled, content, bullets, ByBullets(ctx, ruled, content, bullets).value)
  {
    BulletsUnfold(ctx, ruled, content, bullets);
    if !StatesIt(ctx, ruled, content, bullets[0]) {
      BulletAnswers(ctx, ruled, content, bullets[1..]);
      LaterBulletAnswers(ctx, ruled, content, bullets, ByBullets(ctx, ruled, content, bullets).value);
    }
  }

  lemma LaterBulletAnswers(ctx: Context, ruled: Ruling, content: seq<string>, bullets: seq<Bullet>, found: Found)
    requires bullets != [] && !StatesIt(ctx, ruled, content, bullets[0]) && StatedByBullet(ctx, ruled, content, bullets[1..], found)
    ensures StatedByBullet(ctx, ruled, content, bullets, found)
  {
    var k: nat :| FirstToState(ctx, ruled, content, bullets[1..], k)
      && forall id :: id in found.skills <==> id in bullets[1..][k].skills && Ok(ctx, ruled, id) && AboveNotions(ctx, id);
    assert forall j :: 0 < j < |bullets| ==> bullets[j] == bullets[1..][j - 1];
    assert FirstToState(ctx, ruled, content, bullets, k + 1);
  }

  lemma KinAnswer(ctx: Context, ruled: Ruling, parts: seq<seq<string>>)
    ensures BySiblings(ctx, ruled, parts) != [] <==> SomeKin(ctx, ruled, parts)
    ensures forall id :: id in BySiblings(ctx, ruled, parts) <==> IsKin(ctx, ruled, parts, id)
  {
    NoneKin(ctx, ruled, parts);
  }

  lemma BulletsAnswer(ctx: Context, ruled: Ruling, content: seq<string>, bullets: seq<Bullet>)
    ensures var found := ByBullets(ctx, ruled, content, bullets);
      if found.Some? then StatedByBullet(ctx, ruled, content, bullets, found.value) else NoneOfThem(ctx, ruled, content, bullets)
  {
    NoneStated(ctx, ruled, content, bullets);
    if ByBullets(ctx, ruled, content, bullets).Some? {
      BulletAnswers(ctx, ruled, content, bullets);
    }
  }

  /** The skills held, when the concepts do not meet the requirement in full: weighed against what the words say. */
  lemma NearAnswerIs(ctx: Context, ruled: Ruling, words: seq<string>, parts: seq<seq<string>>)
    requires !(words != [] && SomeSaysAll(ctx, ruled, words))
    ensures var near := Firmer(Some(Found(Adjacent, HeldFor(ctx, ruled, parts), Loose(ctx, ruled, parts), ByConcept)), FromWords(ctx, ruled, words));
      near.Some? && NearByConcepts(ctx, ruled, words, parts, near.value)
  {
    var held := Found(Adjacent, HeldFor(ctx, ruled, parts), Loose(ctx, ruled, parts), ByConcept);
    WordsAnswer(ctx, ruled, words);
    SomeFirmIs(ctx, ruled, parts);
    NoneUnique(Firm(ctx, ruled, parts));
    forall id
      ensures id in held.skills <==> NamedAsHeld(ctx, ruled, parts, id)
    {
      HeldIs(ctx, ruled, parts, id);
    }
    NamesSayAPart(ctx, ruled, words);
  }

  lemma NamesSayAPart(ctx: Context, ruled: Ruling, words: seq<string>)
    ensures SomeSaysAll(ctx, ruled, words) || SomeNamesAPart(ctx, ruled, words) ==> SomeSaysAPart(ctx, ruled, words)
  {
    TopIs(ctx, ruled, words);
  }

  function PartsOfName(ctx: Context, name: Phrase): seq<seq<string>> {
    NamedParts(ctx.index, name.words, Tiling(ctx.index, name.words))
  }

  function RestOfName(ctx: Context, name: Phrase): seq<string> {
    Rest(name.words, UsedBy(|name.words|, Tiling(ctx.index, name.words)))
  }

  lemma AnswerWhenHeld(ctx: Context, ruled: Ruling, name: Phrase)
    requires SomeBrought(ctx, ruled, PartsOfName(ctx, name))
    ensures Answer(ctx, ruled, name) == ByConcepts(ctx, ruled, SameOf(ctx, ruled), CoveringOf(ctx, ruled, PartsOfName(ctx, name)), RestOfName(ctx, name),
      HeldFor(ctx, ruled, PartsOfName(ctx, name)), Loose(ctx, ruled, PartsOfName(ctx, name)), FromWords(ctx, ruled, name.folded))
  {
    SomeHeldIs(ctx, ruled, PartsOfName(ctx, name));
  }

  lemma AnswerWhenNoneHeld(ctx: Context, ruled: Ruling, name: Phrase)
    requires !SomeBrought(ctx, ruled, PartsOfName(ctx, name))
    ensures Answer(ctx, ruled, name) ==
      if FromWords(ctx, ruled, name.folded).Some? then FromWords(ctx, ruled, name.folded)
      else if SomeKin(ctx, ruled, PartsOfName(ctx, name)) then Some(Found(Adjacent, BySiblings(ctx, ruled, PartsOfName(ctx, name)), true, BySibling))
      else ByBullets(ctx, ruled, name.content, ctx.bullets)
  {
    SomeHeldIs(ctx, ruled, PartsOfName(ctx, name));
    KinAnswer(ctx, ruled, PartsOfName(ctx, name));
  }

  lemma FirmestIsFull(near: Found, words: Found)
    requires near.match_ == Adjacent && words.match_ == Yes
    ensures Firmer(Some(near), Some(words)) == Some(words)
  {
  }

  lemma HeldAnswerIsRight(ctx: Context, ruled: Ruling, name: Phrase)
    requires SomeBrought(ctx, ruled, PartsOfName(ctx, name))
    ensures IsAnswer(ctx, ruled, name, PartsOfName(ctx, name), RestOfName(ctx, name), Answer(ctx, ruled, name))
  {
    var parts, rest := PartsOfName(ctx, name), RestOfName(ctx, name);
    AnswerWhenHeld(ctx, ruled, name);
    MetInFullIs(ctx, ruled, parts, rest);
    WordsAnswer(ctx, ruled, name.folded);
    NamesSayAPart(ctx, ruled, name.folded);
    if MetByConcepts(ctx, ruled, parts, rest) {
      forall id
        ensures id in Answer(ctx, ruled, name).value.skills <==> NamedInFull(ctx, ruled, parts, id)
      {
        FullAnswerIs(ctx, ruled, parts, id);
      }
    } else if name.folded != [] && SomeSaysAll(ctx, ruled, name.folded) {
      FirmestIsFull(Found(Adjacent, HeldFor(ctx, ruled, parts), Loose(ctx, ruled, parts), ByConcept), FromWords(ctx, ruled, name.folded).value);
    } else {
      NearAnswerIs(ctx, ruled, name.folded, parts);
    }
  }

  lemma UnheldAnswerIsRight(ctx: Context, ruled: Ruling, name: Phrase)
    requires !SomeBrought(ctx, ruled, PartsOfName(ctx, name))
    ensures IsAnswer(ctx, ruled, name, PartsOfName(ctx, name), RestOfName(ctx, name), Answer(ctx, ruled, name))
  {
    var parts, rest := PartsOfName(ctx, name), RestOfName(ctx, name);
    AnswerWhenNoneHeld(ctx, ruled, name);
    WordsAnswer(ctx, ruled, name.folded);
    NamesSayAPart(ctx, ruled, name.folded);
    KinAnswer(ctx, ruled, parts);
    BulletsAnswer(ctx, ruled, name.content, ctx.bullets);
    if MetByConcepts(ctx, ruled, parts, rest) {
      MetByConceptsIsBrought(ctx, ruled, parts, rest);
    }
  }

  /** The profile's answer to a requirement is what its parts, its words, the skills and the owner's rulings say it is. */
  lemma AnswerIsRight(ctx: Context, ruled: Ruling, name: Phrase)
    ensures IsAnswer(ctx, ruled, name, PartsOfName(ctx, name), RestOfName(ctx, name), Answer(ctx, ruled, name))
  {
    if SomeBrought(ctx, ruled, PartsOfName(ctx, name)) {
      HeldAnswerIsRight(ctx, ruled, name);
    } else {
      UnheldAnswerIsRight(ctx, ruled, name);
    }
  }

  /**
   The profile answers yes exactly when the concepts meet the requirement in full (every part named covered by a practised
   skill placed at or under it by a name, or by a "same" ruling, and nothing left unsaid but beside such a ruling), or when
   a practised skill's own names say the whole of it.
   */
  lemma YesExactlyWhenMet(ctx: Context, ruled: Ruling, name: Phrase)
    ensures (Answer(ctx, ruled, name).Some? && Answer(ctx, ruled, name).value.match_ == Yes)
      <==> (MetByConcepts(ctx, ruled, PartsOfName(ctx, name), RestOfName(ctx, name))
            || (name.folded != [] && SomeSaysAll(ctx, ruled, name.folded)))
  {
    AnswerIsRight(ctx, ruled, name);
    NamesSayAPart(ctx, ruled, name.folded);
  }

  /** The label a part takes leads to this concept. */
  ghost predicate LabelLeads(index: Index, words: Words, cut: Cut, id: string) {
    && cut.start + cut.size <= |words| && words[cut.start..cut.start + cut.size] in index.byKey
    && id in index.byKey[words[cut.start..cut.start + cut.size]]
  }

  /** A part names the concepts its label leads to, the curated technologies alone where there is one. */
  lemma {:induction false} PartNames(index: Index, words: Words, cuts: seq<Cut>, k: nat, id: string)
    requires k < |cuts|
    ensures |NamedParts(index, words, cuts)| == |cuts|
    ensures id in NamedParts(index, words, cuts)[k] <==>
      LabelLeads(index, words, cuts[k], id) && (IsTech(id) || forall other :: LabelLeads(index, words, cuts[k], other) ==> !IsTech(other))
  {
    NamedPartsLength(index, words, cuts);
    if k > 0 {
      PartNames(index, words, cuts[1..], k - 1, id);
    }
  }

  lemma {:induction false} NamedPartsLength(index: Index, words: Words, cuts: seq<Cut>)
    ensures |NamedParts(index, words, cuts)| == |cuts|
  {
    if cuts != [] {
      NamedPartsLength(index, words, cuts[1..]);
    }
  }
}
