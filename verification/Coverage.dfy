/**
What the whole profile holds for a requirement (cv/src/coverage.js): the profile's own answer to a row,
which only ever raises the model's verdict.
*/
module Coverage {
  import opened Collections
  import opened Rows
  import opened Lexicon
  import opened Hierarchy

  /** A skill's name, alias or term: its stemmed words, and whether it is one of the skill's own names. */
  datatype Said = Said(stems: seq<string>, isName: bool)

  datatype Known = Known(level: Level, said: seq<Said>)

  /** The owner's rulings on a requirement's words. */
  datatype Ruling = Ruling(same: seq<string>, near: seq<string>, no: seq<string>)

  /** A requirement's name as the three comparisons read it: keyed words, folded words, content stems. */
  datatype Phrase = Phrase(words: Words, folded: seq<string>, content: seq<string>)

  datatype Bullet = Bullet(stems: set<string>, skills: seq<string>)

  datatype Vocabulary = Vocabulary(ignored: set<string>, practice: set<string>, stem: string -> string)

  datatype Context = Context(
    index: Index,
    placed: seq<Placing>,
    named: seq<Placing>,
    order: seq<string>,
    skills: map<string, Known>,
    usable: set<string>,
    bullets: seq<Bullet>,
    vocabulary: Vocabulary)

  datatype Via = ByConcept | ByVocabulary | BySibling | ByExperience

  datatype Found = Found(match_: Match, skills: seq<string>, judged: bool, via: Via)

  predicate Practised(level: Level) {
    level == Expert || level == Proficient || level == Working
  }

  predicate Deep(level: Level) {
    level == Expert || level == Proficient
  }

  predicate Ok(ctx: Context, ruled: Ruling, id: string) {
    id in ctx.skills && id in ctx.usable && id !in ruled.no
  }

  /** A known skill at working level or better that the owner did not rule near. */
  predicate Strong(ctx: Context, ruled: Ruling, id: string) {
    id in ctx.skills && Practised(ctx.skills[id].level) && id !in ruled.near
  }

  function OkAmong(ctx: Context, ruled: Ruling, ids: seq<string>): (r: seq<string>)
    ensures forall id :: id in r <==> id in ids && Ok(ctx, ruled, id)
  {
    Keep(ids, id => Ok(ctx, ruled, id))
  }

  function StrongAmong(ctx: Context, ruled: Ruling, ids: seq<string>): (r: seq<string>)
    ensures forall id :: id in r <==> id in ids && Strong(ctx, ruled, id)
  {
    Keep(ids, id => Strong(ctx, ruled, id))
  }

  predicate IsDeep(ctx: Context, id: string) {
    id in ctx.skills && Deep(ctx.skills[id].level)
  }

  predicate AboveNotions(ctx: Context, id: string) {
    id in ctx.skills && ctx.skills[id].level != Notions
  }

  predicate IsTech(id: string) {
    |id| >= 5 && id[..5] == "tech:"
  }

  // ---------------------------------------------------------------- the profile's own words

  predicate Inside(s: Said, asked: set<string>) {
    s.stems != [] && forall w :: w in s.stems ==> w in asked
  }

  predicate Within(s: Said, asked: set<string>) {
    s.stems != [] && (forall w :: w in asked ==> w in s.stems) && 2 * |asked| >= |s.stems|
  }

  /** The labels said whole in what is asked. */
  function Insides(said: seq<Said>, asked: set<string>): (r: seq<Said>)
    ensures forall s :: s in r <==> s in said && Inside(s, asked)
  {
    Keep(said, (s: Said) => Inside(s, asked))
  }

  /** The labels that hold all that is asked. */
  function Withins(said: seq<Said>, asked: set<string>): (r: seq<Said>)
    ensures forall s :: s in r <==> s in said && Within(s, asked)
  {
    Keep(said, (s: Said) => Within(s, asked))
  }

  predicate SomeName(tags: seq<Said>) {
    Any(tags, (s: Said) => s.isName)
  }

  predicate SomeSays(tags: seq<Said>, stem: string) {
    Any(tags, (s: Said) => stem in s.stems)
  }

  /** How firmly a skill's own words say a requirement: 3 met, 2 near, 1 near through terms only, 0 not at all. */
  function Grade(v: Vocabulary, words: seq<string>, said: seq<Said>, deep: bool): (grade: nat)
    ensures grade <= 3
  {
    var asked := set w | w in words && !(deep && w in v.practice) :: v.stem(w);
    if asked == {} then 0
    else
      var inside, within := Insides(said, asked), Withins(said, asked);
      var whole := forall w :: w in asked ==> SomeSays(inside, w);
      if (whole && SomeName(inside)) || SomeName(within) then 3
      else if SomeName(inside) then 2
      else if inside != [] || within != [] then 1
      else 0
  }

  /** A skill's grade for the requirement: met only when it is practised. */
  function GradeOf(ctx: Context, ruled: Ruling, folded: seq<string>, id: string): nat {
    if !(Ok(ctx, ruled, id) && AboveNotions(ctx, id)) then 0
    else
      var strong := Strong(ctx, ruled, id);
      var grade := Grade(ctx.vocabulary, folded, ctx.skills[id].said, strong && IsDeep(ctx, id));
      if grade == 3 && !strong then 2 else grade
  }

  function TopGrade(ctx: Context, ruled: Ruling, folded: seq<string>, ids: seq<string>): (top: nat)
    ensures top > 0 ==> exists id :: id in ids && GradeOf(ctx, ruled, folded, id) == top
    ensures forall id :: id in ids ==> GradeOf(ctx, ruled, folded, id) <= top
  {
    if ids == [] then 0
    else
      var rest := TopGrade(ctx, ruled, folded, ids[1..]);
      var own := GradeOf(ctx, ruled, folded, ids[0]);
      if own > rest then own else rest
  }

  function OfGrade(ctx: Context, ruled: Ruling, folded: seq<string>, grade: nat): (r: seq<string>)
    ensures forall id :: id in r <==> id in ctx.order && GradeOf(ctx, ruled, folded, id) == grade
  {
    Keep(ctx.order, id => GradeOf(ctx, ruled, folded, id) == grade)
  }

  function FromWords(ctx: Context, ruled: Ruling, folded: seq<string>): Option<Found> {
    var top := if folded == [] then 0 else TopGrade(ctx, ruled, folded, ctx.order);
    if top == 0 then None
    else
      var ids := OfGrade(ctx, ruled, folded, top);
      if top == 3 then Some(Found(Yes, ids, false, ByVocabulary))
      else Some(Found(Adjacent, ids, top == 1, ByVocabulary))
  }

  function Firmness(found: Option<Found>): nat {
    match found
    case None => 0
    case Some(f) => if f.match_ == Yes then 4 else if f.judged then 1 else 2
  }

  function Firmer(a: Option<Found>, b: Option<Found>): Option<Found> {
    if Firmness(b) > Firmness(a) then b else a
  }

  // ---------------------------------------------------------------- the concepts a name names

  /** A part's concepts, ESCO's left out where a curated technology is named. */
  function Curated(ids: seq<string>): seq<string> {
    if Any(ids, IsTech) then Keep(ids, IsTech) else ids
  }

  function NamedParts(index: Index, words: Words, cuts: seq<Cut>): seq<seq<string>> {
    if cuts == [] then []
    else
      var c := cuts[0];
      [Curated(if Names(index, words, c) then index.byKey[words[c.start..c.start + c.size]] else [])]
        + NamedParts(index, words, cuts[1..])
  }

  function HoldersOf(ctx: Context, ruled: Ruling, placed: seq<Placing>, parts: seq<seq<string>>): (r: seq<seq<string>>)
    ensures |r| == |parts|
    ensures forall k :: 0 <= k < |r| ==> r[k] == OkAmong(ctx, ruled, Holders(ctx.index, parts[k], placed))
  {
    if parts == [] then []
    else [OkAmong(ctx, ruled, Holders(ctx.index, parts[0], placed))] + HoldersOf(ctx, ruled, placed, parts[1..])
  }

  predicate PlacedDirectly(placed: seq<Placing>, id: string, concepts: seq<string>) {
    exists p, c :: p in placed && p.skill == id && c in p.owned && c in concepts
  }

  /** The strong skills that cover a part: those placed on its concept before its members'. */
  function CoverOf(ctx: Context, ruled: Ruling, same: seq<string>, part: seq<string>, byName: seq<string>): seq<string> {
    var met := StrongAmong(ctx, ruled, byName);
    var own := DirectAmong(ctx, part, met);
    (if own != [] then own else met) + StrongAmong(ctx, ruled, same)
  }

  function DirectAmong(ctx: Context, part: seq<string>, ids: seq<string>): (r: seq<string>)
    ensures forall id :: id in r <==> id in ids && PlacedDirectly(ctx.named, id, part)
  {
    Keep(ids, id => PlacedDirectly(ctx.named, id, part))
  }

  function Covering(ctx: Context, ruled: Ruling, same: seq<string>, parts: seq<seq<string>>, byName: seq<seq<string>>): (r: seq<seq<string>>)
    requires |parts| == |byName|
    ensures |r| == |parts|
  {
    if parts == [] then []
    else [CoverOf(ctx, ruled, same, parts[0], byName[0])] + Covering(ctx, ruled, same, parts[1..], byName[1..])
  }

  /** What a name, an alias or a ruling of the owner places. */
  function Firm(ctx: Context, ruled: Ruling, parts: seq<seq<string>>): seq<string> {
    Flat(HoldersOf(ctx, ruled, ctx.named, parts)) + OkAmong(ctx, ruled, ruled.same) + OkAmong(ctx, ruled, ruled.near)
  }

  /** Nothing but terms, if that. */
  predicate Loose(ctx: Context, ruled: Ruling, parts: seq<seq<string>>) {
    Unique(Firm(ctx, ruled, parts)) == []
  }

  function Gathered(ctx: Context, ruled: Ruling, parts: seq<seq<string>>): seq<string> {
    if Loose(ctx, ruled, parts) then Unique(Flat(HoldersOf(ctx, ruled, ctx.placed, parts))) else Unique(Firm(ctx, ruled, parts))
  }

  function AboveNotionsAmong(ctx: Context, ids: seq<string>): (r: seq<string>)
    ensures forall id :: id in r <==> id in ids && AboveNotions(ctx, id)
  {
    Keep(ids, id => AboveNotions(ctx, id))
  }

  /** The skills an answer by concept may name, the best held first. */
  function HeldFor(ctx: Context, ruled: Ruling, parts: seq<seq<string>>): seq<string> {
    var held := Gathered(ctx, ruled, parts);
    if Any(held, id => AboveNotions(ctx, id)) then AboveNotionsAmong(ctx, held) else held
  }

  predicate AnyStrong(ctx: Context, ruled: Ruling, ids: seq<string>) {
    Any(ids, id => Strong(ctx, ruled, id))
  }

  predicate AllFilled(covering: seq<seq<string>>) {
    Every(covering, (ids: seq<string>) => ids != [])
  }

  /** A skill that covers the practice of what it covers. */
  predicate AnyDeep(ctx: Context, ruled: Ruling, same: seq<string>, covering: seq<seq<string>>) {
    Any(Flat(covering), id => IsDeep(ctx, id)) || Any(same, id => Strong(ctx, ruled, id) && IsDeep(ctx, id))
  }

  /** The words that say something more, practices aside when some skill is deep. */
  function Extra(ctx: Context, deep: bool, rest: seq<string>): (r: seq<string>)
    ensures forall word :: word in r <==> word in rest && word !in ctx.vocabulary.ignored && !(deep && word in ctx.vocabulary.practice)
  {
    Keep(rest, word => word !in ctx.vocabulary.ignored && !(deep && word in ctx.vocabulary.practice))
  }

  /** Whether the concepts meet the requirement in full. */
  predicate MetInFull(ctx: Context, ruled: Ruling, same: seq<string>, covering: seq<seq<string>>, rest: seq<string>) {
    && (if covering != [] then AllFilled(covering) else AnyStrong(ctx, ruled, same))
    && (Extra(ctx, AnyDeep(ctx, ruled, same, covering), rest) == [] || AnyStrong(ctx, ruled, same))
  }

  /** The answer when some skill is held: yes when every part is covered and no other word is left unsaid. */
  function ByConcepts(ctx: Context, ruled: Ruling, same: seq<string>, covering: seq<seq<string>>, rest: seq<string>,
                      held: seq<string>, loose: bool, fromWords: Option<Found>): Option<Found> {
    if MetInFull(ctx, ruled, same, covering, rest) then
      Some(Found(Yes, Unique(Flat(covering) + StrongAmong(ctx, ruled, same)), false, ByConcept))
    else
      Firmer(Some(Found(Adjacent, held, loose, ByConcept)), fromWords)
  }

  // ---------------------------------------------------------------- the weaker answers

  function BySiblings(ctx: Context, ruled: Ruling, parts: seq<seq<string>>): seq<string> {
    Unique(Keep(Siblings(ctx.index, Flat(parts), ctx.named), id => Ok(ctx, ruled, id) && Strong(ctx, ruled, id)))
  }

  /** The first bullet that states every content word and names a skill that may be used. */
  function ByBullets(ctx: Context, ruled: Ruling, content: seq<string>, bullets: seq<Bullet>): Option<Found> {
    if content == [] || bullets == [] then None
    else
      var ids := Keep(bullets[0].skills, id => Ok(ctx, ruled, id) && AboveNotions(ctx, id));
      if (forall w :: w in content ==> w in bullets[0].stems) && ids != [] then Some(Found(Adjacent, ids, true, ByExperience))
      else ByBullets(ctx, ruled, content, bullets[1..])
  }

  /** `coverage`: the profile's answer to one requirement, or none. */
  function Answer(ctx: Context, ruled: Ruling, name: Phrase): Option<Found> {
    var cuts := Tiling(ctx.index, name.words);
    var parts := NamedParts(ctx.index, name.words, cuts);
    var rest := Rest(name.words, UsedBy(|name.words|, cuts));
    var byName := HoldersOf(ctx, ruled, ctx.named, parts);
    var same := OkAmong(ctx, ruled, ruled.same);
    var held, loose := HeldFor(ctx, ruled, parts), Loose(ctx, ruled, parts);
    var fromWords := FromWords(ctx, ruled, name.folded);
    if held != [] then ByConcepts(ctx, ruled, same, Covering(ctx, ruled, same, parts, byName), rest, held, loose, fromWords)
    else if fromWords.Some? then fromWords
    else
      var kin := BySiblings(ctx, ruled, parts);
      if kin != [] then Some(Found(Adjacent, kin, true, BySibling))
      else ByBullets(ctx, ruled, name.content, ctx.bullets)
  }

  // ---------------------------------------------------------------- what an answer is worth

  /** An answer names some skill, all of them usable; a yes is firm, through strong skills only. */
  ghost predicate Earned(ctx: Context, ruled: Ruling, found: Found) {
    && found.skills != []
    && (forall id :: id in found.skills ==> Ok(ctx, ruled, id))
    && Met(found.match_)
    && (found.match_ == Yes ==> !found.judged && forall id :: id in found.skills ==> Strong(ctx, ruled, id))
  }

  lemma FromWordsIsEarned(ctx: Context, ruled: Ruling, folded: seq<string>)
    ensures FromWords(ctx, ruled, folded).Some? ==> Earned(ctx, ruled, FromWords(ctx, ruled, folded).value)
  {
    if folded != [] {
      var top := TopGrade(ctx, ruled, folded, ctx.order);
      if top > 0 {
        var id :| id in ctx.order && GradeOf(ctx, ruled, folded, id) == top;
        assert id in FromWords(ctx, ruled, folded).value.skills;
      }
    }
  }

  ghost predicate AllOk(ctx: Context, ruled: Ruling, ids: seq<string>) {
    forall id :: id in ids ==> Ok(ctx, ruled, id)
  }

  lemma HoldersAreOk(ctx: Context, ruled: Ruling, placed: seq<Placing>, parts: seq<seq<string>>)
    ensures AllOk(ctx, ruled, Flat(HoldersOf(ctx, ruled, placed, parts)))
  {
    var byPart := HoldersOf(ctx, ruled, placed, parts);
    forall id | id in Flat(byPart)
      ensures Ok(ctx, ruled, id)
    {
      var k :| 0 <= k < |byPart| && id in byPart[k];
      assert byPart[k] == OkAmong(ctx, ruled, Holders(ctx.index, parts[k], placed));
    }
  }

  lemma HeldIsOk(ctx: Context, ruled: Ruling, parts: seq<seq<string>>)
    ensures AllOk(ctx, ruled, HeldFor(ctx, ruled, parts))
  {
    HoldersAreOk(ctx, ruled, ctx.named, parts);
    HoldersAreOk(ctx, ruled, ctx.placed, parts);
  }

  lemma {:induction false} CoveringIsStrong(ctx: Context, ruled: Ruling, same: seq<string>, parts: seq<seq<string>>, byName: seq<seq<string>>)
    requires |parts| == |byName| && AllOk(ctx, ruled, same) && AllOk(ctx, ruled, Flat(byName))
    ensures forall id :: id in Flat(Covering(ctx, ruled, same, parts, byName)) ==> Ok(ctx, ruled, id) && Strong(ctx, ruled, id)
  {
    if parts != [] {
      assert Flat(byName) == byName[0] + Flat(byName[1..]);
      CoveringIsStrong(ctx, ruled, same, parts[1..], byName[1..]);
      var covering := Covering(ctx, ruled, same, parts, byName);
      assert covering[1..] == Covering(ctx, ruled, same, parts[1..], byName[1..]);
      assert Flat(covering) == covering[0] + Flat(covering[1..]);
    }
  }

  lemma ByConceptsIsEarned(ctx: Context, ruled: Ruling, same: seq<string>, covering: seq<seq<string>>, rest: seq<string>,
                           held: seq<string>, loose: bool, fromWords: Option<Found>)
    requires AllOk(ctx, ruled, same) && AllOk(ctx, ruled, held) && held != []
    requires forall id :: id in Flat(covering) ==> Ok(ctx, ruled, id) && Strong(ctx, ruled, id)
    requires fromWords.Some? ==> Earned(ctx, ruled, fromWords.value)
    ensures var found := ByConcepts(ctx, ruled, same, covering, rest, held, loose, fromWords);
      found.Some? && Earned(ctx, ruled, found.value)
  {
    var found := ByConcepts(ctx, ruled, same, covering, rest, held, loose, fromWords);
    var strong := StrongAmong(ctx, ruled, same);
    if found.value.match_ == Yes && found != fromWords {
      if covering != [] {
        assert covering[0] in covering && covering[0] != [];
        assert covering[0][0] in Flat(covering);
      } else {
        var id :| id in same && Strong(ctx, ruled, id);
        assert id in strong;
      }
      assert found.value.skills == Unique(Flat(covering) + strong);
      assert Flat(covering) + strong != [];
      assert (Flat(covering) + strong)[0] in Unique(Flat(covering) + strong);
    }
  }

  lemma {:induction false} ByBulletsIsEarned(ctx: Context, ruled: Ruling, content: seq<string>, bullets: seq<Bullet>)
    ensures ByBullets(ctx, ruled, content, bullets).Some? ==> Earned(ctx, ruled, ByBullets(ctx, ruled, content, bullets).value)
  {
    if content != [] && bullets != [] {
      ByBulletsIsEarned(ctx, ruled, content, bullets[1..]);
    }
  }

  /**
   The profile answers yes only through known, usable skills the owner ruled neither out nor near, held at
   working level or better; whatever it answers, it names at least one usable skill.
   */
  lemma AnswerIsEarned(ctx: Context, ruled: Ruling, name: Phrase)
    ensures Answer(ctx, ruled, name).Some? ==> Earned(ctx, ruled, Answer(ctx, ruled, name).value)
  {
    var cuts := Tiling(ctx.index, name.words);
    var parts := NamedParts(ctx.index, name.words, cuts);
    var byName := HoldersOf(ctx, ruled, ctx.named, parts);
    var same := OkAmong(ctx, ruled, ruled.same);
    var held, loose := HeldFor(ctx, ruled, parts), Loose(ctx, ruled, parts);
    var fromWords := FromWords(ctx, ruled, name.folded);
    FromWordsIsEarned(ctx, ruled, name.folded);
    HeldIsOk(ctx, ruled, parts);
    if held != [] {
      HoldersAreOk(ctx, ruled, ctx.named, parts);
      CoveringIsStrong(ctx, ruled, same, parts, byName);
      ByConceptsIsEarned(ctx, ruled, same, Covering(ctx, ruled, same, parts, byName),
        Rest(name.words, UsedBy(|name.words|, cuts)), held, loose, fromWords);
    } else if fromWords.None? {
      ByBulletsIsEarned(ctx, ruled, name.content, ctx.bullets);
    }
  }

  // ---------------------------------------------------------------- when the profile is silent

  /** A skill placed, by a name or a term, at or under a concept the requirement names. */
  ghost predicate HoldsAPart(ctx: Context, placed: seq<Placing>, parts: seq<seq<string>>, id: string) {
    exists k :: 0 <= k < |parts| && id in Holders(ctx.index, parts[k], placed)
  }

  /** A usable skill the concepts named, or the owner, bring to the requirement. */
  ghost predicate Holds(ctx: Context, ruled: Ruling, parts: seq<seq<string>>, id: string) {
    && Ok(ctx, ruled, id)
    && (id in ruled.same || id in ruled.near || HoldsAPart(ctx, ctx.named, parts, id) || HoldsAPart(ctx, ctx.placed, parts, id))
  }

  /** A skill whose own words say the requirement, in part at least. */
  ghost predicate SaysIt(ctx: Context, ruled: Ruling, folded: seq<string>, id: string) {
    folded != [] && id in ctx.order && GradeOf(ctx, ruled, folded, id) > 0
  }

  /** A practised skill of a family of a concept named. */
  ghost predicate IsKin(ctx: Context, ruled: Ruling, parts: seq<seq<string>>, id: string) {
    Ok(ctx, ruled, id) && Strong(ctx, ruled, id) && id in Siblings(ctx.index, Flat(parts), ctx.named)
  }

  /** A bullet that says every content word and names a usable skill above notions. */
  ghost predicate StatesIt(ctx: Context, ruled: Ruling, content: seq<string>, bullet: Bullet) {
    && content != [] && (forall w :: w in content ==> w in bullet.stems)
    && exists id :: id in bullet.skills && Ok(ctx, ruled, id) && AboveNotions(ctx, id)
  }

  lemma HolderOfPart(ctx: Context, ruled: Ruling, placed: seq<Placing>, parts: seq<seq<string>>, k: nat, id: string)
    requires k < |parts|
    ensures id in HoldersOf(ctx, ruled, placed, parts)[k] <==> Ok(ctx, ruled, id) && id in Holders(ctx.index, parts[k], placed)
  {
  }

  lemma HoldersOfHold(ctx: Context, ruled: Ruling, placed: seq<Placing>, parts: seq<seq<string>>, id: string)
    ensures id in Flat(HoldersOf(ctx, ruled, placed, parts)) <==> Ok(ctx, ruled, id) && HoldsAPart(ctx, placed, parts, id)
  {
    var byPart := HoldersOf(ctx, ruled, placed, parts);
    if id in Flat(byPart) {
      var k :| 0 <= k < |byPart| && id in byPart[k];
      HolderOfPart(ctx, ruled, placed, parts, k, id);
    }
    if Ok(ctx, ruled, id) && HoldsAPart(ctx, placed, parts, id) {
      var k :| 0 <= k < |parts| && id in Holders(ctx.index, parts[k], placed);
      HolderOfPart(ctx, ruled, placed, parts, k, id);
    }
  }

  lemma HeldIsWithin(ctx: Context, ruled: Ruling, parts: seq<seq<string>>)
    ensures HeldFor(ctx, ruled, parts) == [] <==> Firm(ctx, ruled, parts) == [] && Flat(HoldersOf(ctx, ruled, ctx.placed, parts)) == []
  {
    var firm := Firm(ctx, ruled, parts);
    NoneUnique(firm);
    NoneUnique(Flat(HoldersOf(ctx, ruled, ctx.placed, parts)));
    var held := Gathered(ctx, ruled, parts);
    if id :| id in held && AboveNotions(ctx, id) {
      assert id in AboveNotionsAmong(ctx, held);
    }
  }

  lemma NoneUnique<T>(xs: seq<T>)
    ensures Unique(xs) == [] <==> xs == []
  {
    if xs != [] {
      assert xs[0] in Unique(xs);
    }
  }

  lemma NothingIn<T>(xs: seq<T>)
    ensures xs == [] <==> forall x :: x !in xs
  {
    if xs != [] {
      assert xs[0] in xs;
    }
  }

  lemma FirmHolds(ctx: Context, ruled: Ruling, parts: seq<seq<string>>, id: string)
    ensures Holds(ctx, ruled, parts, id) <==> id in Firm(ctx, ruled, parts) || id in Flat(HoldersOf(ctx, ruled, ctx.placed, parts))
  {
    HoldersOfHold(ctx, ruled, ctx.named, parts, id);
    HoldersOfHold(ctx, ruled, ctx.placed, parts, id);
  }

  lemma NoneHeld(ctx: Context, ruled: Ruling, parts: seq<seq<string>>)
    ensures HeldFor(ctx, ruled, parts) == [] <==> forall id :: !Holds(ctx, ruled, parts, id)
  {
    var firm, loose := Firm(ctx, ruled, parts), Flat(HoldersOf(ctx, ruled, ctx.placed, parts));
    HeldIsWithin(ctx, ruled, parts);
    if firm != [] {
      FirmHolds(ctx, ruled, parts, firm[0]);
    } else if loose != [] {
      FirmHolds(ctx, ruled, parts, loose[0]);
    } else {
      forall id
        ensures !Holds(ctx, ruled, parts, id)
      {
        FirmHolds(ctx, ruled, parts, id);
      }
    }
  }

  lemma NoneSaid(ctx: Context, ruled: Ruling, folded: seq<string>)
    ensures FromWords(ctx, ruled, folded).None? <==> forall id :: !SaysIt(ctx, ruled, folded, id)
  {
    if folded != [] {
      var top := TopGrade(ctx, ruled, folded, ctx.order);
      if top > 0 {
        var id :| id in ctx.order && GradeOf(ctx, ruled, folded, id) == top;
        assert SaysIt(ctx, ruled, folded, id);
      }
    }
  }

  lemma NoneKin(ctx: Context, ruled: Ruling, parts: seq<seq<string>>)
    ensures BySiblings(ctx, ruled, parts) == [] <==> forall id :: !IsKin(ctx, ruled, parts, id)
  {
    var kin := BySiblings(ctx, ruled, parts);
    NothingIn(kin);
    forall id
      ensures IsKin(ctx, ruled, parts, id) <==> id in kin
    {
    }
  }

  lemma FirstStates(ctx: Context, ruled: Ruling, content: seq<string>, bullets: seq<Bullet>)
    requires content != [] && bullets != []
    ensures ByBullets(ctx, ruled, content, bullets).None?
      <==> !StatesIt(ctx, ruled, content, bullets[0]) && ByBullets(ctx, ruled, content, bullets[1..]).None?
  {
    NothingIn(Keep(bullets[0].skills, id => Ok(ctx, ruled, id) && AboveNotions(ctx, id)));
  }

  ghost predicate NoneOfThem(ctx: Context, ruled: Ruling, content: seq<string>, bullets: seq<Bullet>) {
    forall k :: 0 <= k < |bullets| ==> !StatesIt(ctx, ruled, content, bullets[k])
  }

  lemma NoneOfRest(ctx: Context, ruled: Ruling, content: seq<string>, bullets: seq<Bullet>)
    requires bullets != []
    ensures NoneOfThem(ctx, ruled, content, bullets)
      <==> !StatesIt(ctx, ruled, content, bullets[0]) && NoneOfThem(ctx, ruled, content, bullets[1..])
  {
    assert forall k :: 1 <= k < |bullets| ==> bullets[k] == bullets[1..][k - 1];
  }

  lemma {:induction false} NoneStated(ctx: Context, ruled: Ruling, content: seq<string>, bullets: seq<Bullet>)
    ensures ByBullets(ctx, ruled, content, bullets).None? <==> NoneOfThem(ctx, ruled, content, bullets)
  {
    if content != [] && bullets != [] {
      FirstStates(ctx, ruled, content, bullets);
      NoneOfRest(ctx, ruled, content, bullets);
      NoneStated(ctx, ruled, content, bullets[1..]);
    }
  }

  lemma ByConceptsAnswers(ctx: Context, ruled: Ruling, same: seq<string>, covering: seq<seq<string>>, rest: seq<string>,
                          held: seq<string>, loose: bool, fromWords: Option<Found>)
    ensures ByConcepts(ctx, ruled, same, covering, rest, held, loose, fromWords).Some?
  {
  }

  lemma SilentAtEveryStep(ctx: Context, ruled: Ruling, name: Phrase, parts: seq<seq<string>>)
    requires parts == NamedParts(ctx.index, name.words, Tiling(ctx.index, name.words))
    ensures Answer(ctx, ruled, name).None? <==> (
      && HeldFor(ctx, ruled, parts) == [] && FromWords(ctx, ruled, name.folded).None?
      && BySiblings(ctx, ruled, parts) == [] && ByBullets(ctx, ruled, name.content, ctx.bullets).None?)
  {
    var cuts := Tiling(ctx.index, name.words);
    var byName := HoldersOf(ctx, ruled, ctx.named, parts);
    var same := OkAmong(ctx, ruled, ruled.same);
    var held, loose := HeldFor(ctx, ruled, parts), Loose(ctx, ruled, parts);
    if held != [] {
      ByConceptsAnswers(ctx, ruled, same, Covering(ctx, ruled, same, parts, byName), Rest(name.words, UsedBy(|name.words|, cuts)),
                        held, loose, FromWords(ctx, ruled, name.folded));
    }
  }

  ghost predicate Silent(ctx: Context, ruled: Ruling, name: Phrase, parts: seq<seq<string>>) {
    && (forall id :: !Holds(ctx, ruled, parts, id))
    && (forall id :: !SaysIt(ctx, ruled, name.folded, id))
    && (forall id :: !IsKin(ctx, ruled, parts, id))
    && NoneOfThem(ctx, ruled, name.content, ctx.bullets)
  }

  /**
   The profile is silent exactly when nothing answers: no usable skill is placed at or under a concept the name names,
   by a name or a term, or ruled the same or near; none says it in its own words; none is a practised sibling; and no
   bullet states it.
   */
  lemma SilenceIsEmpty(ctx: Context, ruled: Ruling, name: Phrase)
    ensures Answer(ctx, ruled, name).None? <==> Silent(ctx, ruled, name, NamedParts(ctx.index, name.words, Tiling(ctx.index, name.words)))
  {
    var parts := NamedParts(ctx.index, name.words, Tiling(ctx.index, name.words));
    SilentAtEveryStep(ctx, ruled, name, parts);
    NoneHeld(ctx, ruled, parts);
    NoneSaid(ctx, ruled, name.folded);
    NoneKin(ctx, ruled, parts);
    NoneStated(ctx, ruled, name.content, ctx.bullets);
  }
}
