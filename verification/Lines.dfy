/**
What the profile's lines answer (cv/src/normalize.js): a language at the level an offer asks, a degree at its years of
study. The words of a level or of a degree are arbitrary tests of a text.
*/
module Lines {
  import opened Collections
  import opened Rows
  import opened Settlement
  import opened Honesty

  // ---------------------------------------------------------------- languages

  /** `levelsIn`: the ranks of the levels a text names, lowest first. */
  function LevelsIn(levels: seq<string -> bool>, text: string): (r: seq<int>)
    ensures forall rank: int :: rank in r ==> 0 <= rank < |levels| && levels[rank](text)
    ensures forall rank: int :: 0 <= rank < |levels| && levels[rank](text) ==> rank in r
  {
    if levels == [] then []
    else
      var n := |levels| - 1;
      LevelsIn(levels[..n], text) + if levels[n](text) then [n] else []
  }

  ghost predicate Rising(ranks: seq<int>) {
    forall i, j :: 0 <= i < j < |ranks| ==> ranks[i] < ranks[j]
  }

  lemma {:induction false} LevelsRise(levels: seq<string -> bool>, text: string)
    ensures Rising(LevelsIn(levels, text))
  {
    if levels != [] {
      LevelsRise(levels[..|levels| - 1], text);
      RisingOneMore(LevelsIn(levels[..|levels| - 1], text), |levels| - 1);
    }
  }

  lemma RisingOneMore(ranks: seq<int>, next: int)
    requires Rising(ranks) && forall rank: int :: rank in ranks ==> rank < next
    ensures Rising(ranks + [next]) && Rising(ranks + [])
  {
    assert forall i :: 0 <= i < |ranks| ==> ranks[i] in ranks;
    assert ranks + [] == ranks;
  }

  /** A language of the profile: its level as each line, French or English, words it. */
  type Language = seq<string>

  datatype Wording = Wording(levels: seq<string -> bool>, working: string -> bool)

  /** `Math.max(-1, ...)` over the lines' levels. */
  function Held(w: Wording, language: Language): (rank: int)
    ensures -1 <= rank < |w.levels|
  {
    if language == [] then -1 else Max(Held(w, language[1..]), Highest(LevelsIn(w.levels, language[0]), |w.levels|))
  }

  function Highest(ranks: seq<int>, count: nat): (rank: int)
    requires forall rank: int :: rank in ranks ==> 0 <= rank < count
    ensures -1 <= rank < count
    ensures forall r: int :: r in ranks ==> r <= rank
    ensures rank >= 0 ==> rank in ranks
  {
    if ranks == [] then -1
    else
      assert ranks == [ranks[0]] + ranks[1..] && ranks[0] in ranks;
      assert forall rank: int :: rank in ranks[1..] ==> rank in ranks;
      Max(Highest(ranks[1..], count), ranks[0])
  }

  /** A text names a level at a rank or above. */
  ghost predicate NamesFrom(w: Wording, line: string, rank: int) {
    exists level: int :: level in LevelsIn(w.levels, line) && rank <= level
  }

  lemma HighestIsNamed(w: Wording, line: string, rank: int)
    requires 0 <= rank
    ensures Highest(LevelsIn(w.levels, line), |w.levels|) >= rank <==> NamesFrom(w, line, rank)
  {
  }

  /** Held at a rank or above: one of the lines names a level that high. */
  lemma {:induction false} HeldIsNamed(w: Wording, language: Language, rank: int)
    requires 0 <= rank
    ensures Held(w, language) >= rank <==> exists k :: 0 <= k < |language| && NamesFrom(w, language[k], rank)
  {
    if language != [] {
      HeldIsNamed(w, language[1..], rank);
      HighestIsNamed(w, language[0], rank);
      assert forall k :: 0 <= k < |language| - 1 ==> language[1..][k] == language[k + 1];
      assert forall k :: 0 < k < |language| ==> language[k] == language[1..][k - 1];
    }
  }

  predicate AtWork(w: Wording, language: Language) {
    exists line :: line in language && w.working(line)
  }

  predicate AtWorkUpTo(w: Wording, named: seq<Language>, n: nat)
    requires n <= |named|
  {
    forall k :: 0 <= k < n ==> AtWork(w, named[k])
  }

  predicate HoldUpTo(w: Wording, named: seq<Language>, asked: int, n: nat)
    requires n <= |named|
  {
    forall k :: 0 <= k < n ==> Held(w, named[k]) >= asked
  }

  predicate AllAtWork(w: Wording, named: seq<Language>) {
    AtWorkUpTo(w, named, |named|)
  }

  predicate AllHold(w: Wording, named: seq<Language>, asked: int) {
    HoldUpTo(w, named, asked, |named|)
  }

  /** The answer at the lowest level asked, if one is. */
  function MatchAt(w: Wording, asked: Option<int>, named: seq<Language>): Match {
    if asked.None? then (if AllAtWork(w, named) then Yes else No)
    else if AllHold(w, named, asked.value) then Yes
    else if AllAtWork(w, named) then Adjacent
    else No
  }

  function Asked(w: Wording, name: string): Option<int> {
    var ranks := LevelsIn(w.levels, name);
    if ranks == [] then None else Some(ranks[0])
  }

  /** `named.every(...)`, at the level asked and at a working level. */
  method EveryLanguage(w: Wording, named: seq<Language>, asked: int) returns (hold: bool, working: bool)
    ensures hold <==> AllHold(w, named, asked)
    ensures working <==> AllAtWork(w, named)
  {
    hold, working := true, true;
    var k := 0;
    while k < |named|
      invariant 0 <= k <= |named|
      invariant hold <==> HoldUpTo(w, named, asked, k)
      invariant working <==> AtWorkUpTo(w, named, k)
    {
      var high, work := Held(w, named[k]) >= asked, AtWork(w, named[k]);
      hold, working := hold && high, working && work;
      k := k + 1;
    }
  }

  /** `languageMatch`. */
  method LanguageMatch(w: Wording, name: string, named: seq<Language>) returns (m: Match)
    ensures m == MatchAt(w, Asked(w, name), named)
  {
    var asked := Asked(w, name);
    var hold, working := EveryLanguage(w, named, asked.Or(0));
    if asked.None? {
      return if working then Yes else No;
    }
    return if hold then Yes else if working then Adjacent else No;
  }

  /** The level asked is the lowest the requirement names. */
  lemma AskedIsTheLowest(w: Wording, name: string)
    ensures Asked(w, name).Some? ==> 0 <= Asked(w, name).value < |w.levels| && w.levels[Asked(w, name).value](name)
    ensures forall rank :: 0 <= rank < |w.levels| && w.levels[rank](name) ==> Asked(w, name).Some? && Asked(w, name).value <= rank
  {
    LevelsRise(w.levels, name);
    var ranks := LevelsIn(w.levels, name);
    if ranks != [] {
      assert ranks[0] in ranks;
    }
    forall rank: int | 0 <= rank < |w.levels| && w.levels[rank](name)
      ensures ranks != [] && ranks[0] <= rank
    {
      FirstIsLeast(ranks, rank);
    }
  }

  lemma FirstIsLeast(ranks: seq<int>, rank: int)
    requires Rising(ranks) && rank in ranks
    ensures ranks[0] <= rank
  {
    var i :| 0 <= i < |ranks| && ranks[i] == rank;
  }

  function Worth(m: Match): int {
    Strictness(m).Or(-1)
  }

  /** Each language is held at least as well. */
  ghost predicate HeldAsWell(w: Wording, named: seq<Language>, better: seq<Language>) {
    && |named| == |better|
    && forall k :: 0 <= k < |named| ==> Held(w, named[k]) <= Held(w, better[k]) && (AtWork(w, named[k]) ==> AtWork(w, better[k]))
  }

  /** Holding each language at least as well never lowers the answer, whatever is asked. */
  lemma BetterHeldNeverLowers(w: Wording, asked: Option<int>, named: seq<Language>, better: seq<Language>)
    requires HeldAsWell(w, named, better)
    ensures Worth(MatchAt(w, asked, named)) <= Worth(MatchAt(w, asked, better))
  {
  }

  /** Asking a lower level, or one language less, never lowers the answer either. */
  lemma AskingLessNeverLowers(w: Wording, asked: int, less: int, named: seq<Language>, fewer: seq<Language>)
    requires less <= asked && forall k :: 0 <= k < |fewer| ==> fewer[k] in named
    ensures Worth(MatchAt(w, Some(asked), named)) <= Worth(MatchAt(w, Some(less), fewer))
  {
    forall k | 0 <= k < |fewer|
      ensures AllHold(w, named, asked) ==> Held(w, fewer[k]) >= less
      ensures AllAtWork(w, named) ==> AtWork(w, fewer[k])
    {
      var j :| 0 <= j < |named| && named[j] == fewer[k];
    }
  }

  /**
   Naming a level can raise the answer: exactly when every language is held at it while some is at no working level
   ("advanced" is no when no level is asked, and yes when "advanced" is).
   */
  lemma NamingALevelRaisesExactly(w: Wording, asked: int, named: seq<Language>)
    ensures Worth(MatchAt(w, Some(asked), named)) > Worth(MatchAt(w, None, named)) <==> AllHold(w, named, asked) && !AllAtWork(w, named)
  {
  }

  /** A profile whose English is "advanced", and an offer that asks for English, then for advanced English. */
  const WORDED := Wording([text => text == "advanced"], text => text == "fluent")

  const ENGLISH: Language := ["advanced"]

  /** It happens: asked for English, an advanced level is a no; asked for advanced English, a yes. */
  lemma AskingForAdvancedRaises()
    ensures MatchAt(WORDED, Asked(WORDED, "english"), [ENGLISH]) == No
    ensures MatchAt(WORDED, Asked(WORDED, "advanced"), [ENGLISH]) == Yes
  {
    assert "english" != "advanced" by {
      assert "english"[0] == 'e' && "advanced"[0] == 'a';
    }
    assert "fluent" != "advanced" by {
      assert "fluent"[0] == 'f' && "advanced"[0] == 'a';
    }
    assert WORDED.levels[..0] == [];
    assert LevelsIn(WORDED.levels, "english") == [] && LevelsIn(WORDED.levels, "advanced") == [0];
    HeldIsNamed(WORDED, ENGLISH, 0);
    assert NamesFrom(WORDED, ENGLISH[0], 0);
    assert !AtWork(WORDED, [ENGLISH][0]) && Held(WORDED, [ENGLISH][0]) >= 0;
  }

  // ---------------------------------------------------------------- the rows the languages settle

  /** The reader answers a language by the lines of the profile's languages a name asks for. */
  ghost predicate AnswersByLines(reader: Reader, w: Wording, named: string -> seq<Language>) {
    forall name :: reader.languageOf(name).Some? ==> reader.languageOf(name).value == MatchAt(w, Asked(w, name), named(name))
  }

  /** Such a reader never leaves a language unread. */
  lemma LinesAreListed(reader: Reader, w: Wording, named: string -> seq<Language>)
    requires AnswersByLines(reader, w, named) && forall id :: id in reader.order ==> id in reader.skills
    ensures Listed(reader)
  {
    forall name | reader.languageOf(name).Some?
      ensures reader.languageOf(name).value != Unread
    {
      assert MatchAt(w, Asked(w, name), named(name)) != Unread;
    }
  }

  /** So every row such a reader settles is sound and passes validation, exactly when its match was read. */
  lemma RowsByLinesPass(row: Row, reader: Reader, w: Wording, named: string -> seq<Language>)
    requires AnswersByLines(reader, w, named) && forall id :: id in reader.order ==> id in reader.skills
    requires Fresh(row) && forall id :: id in row.skills ==> id !in reader.out
    ensures SettledRow(row, reader).match_ != Unread <==> RowPasses(SettledRow(row, reader), reader.skills.Keys)
    ensures SettledRow(row, reader).match_ != Unread <==> Sound(SettledRow(row, reader), Usable(reader))
  {
    LinesAreListed(reader, w, named);
    SettledRowIsSound(row, reader);
  }

  lemma KindOfLanguage(row: Row, reader: Reader)
    requires row.never == Unset && row.kind == Skill && !NamesNever(row.name, reader) && reader.languageOf(row.name).Some?
    ensures KindRow(row, reader).kind == Language
      <==> (reader.backed(row.name) || !reader.qualityWords(row.name)) && !(ReadAsCondition(row.name, reader) && row.match_ == No)
    ensures KindRow(row, reader).kind == Language ==> KindRow(row, reader).match_ == reader.languageOf(row.name).value
    ensures KindRow(row, reader).kind != Skill
  {
  }

  /** A row that names a language is the lines' to answer, but for a quality, or a condition the model answered no. */
  lemma LanguageRowIsTheLines(row: Row, reader: Reader, w: Wording, named: string -> seq<Language>)
    requires Fresh(row) && row.never == Unset && !NamesNever(row.name, reader) && reader.languageOf(row.name).Some?
    requires AnswersByLines(reader, w, named)
    ensures SettledRow(row, reader).kind == Language <==> (
      && (reader.backed(row.name) || !reader.qualityWords(row.name))
      && !(ReadAsCondition(row.name, reader) && Weighed(row, reader).match_ == No))
    ensures SettledRow(row, reader).kind == Language ==> SettledRow(row, reader).match_ == MatchAt(w, Asked(w, row.name), named(row.name))
  {
    WeighedKeepsName(row, reader);
    KindOfLanguage(Weighed(row, reader), reader);
    LinesAreNotSkills(KindRow(Weighed(row, reader), reader), reader);
  }

  /** Learning a language never lowers a settled row. */
  lemma LearningNeverLowersARow(row: Row, reader: Reader, learned: Reader, w: Wording,
                                named: string -> seq<Language>, better: string -> seq<Language>)
    requires Fresh(row) && row.never == Unset && !NamesNever(row.name, reader) && !NamesNever(row.name, learned)
    requires AnswersByLines(reader, w, named) && AnswersByLines(learned, w, better) && HeldAsWell(w, named(row.name), better(row.name))
    requires reader.languageOf(row.name).Some? && learned.languageOf(row.name).Some?
    requires SettledRow(row, reader).kind == Language && SettledRow(row, learned).kind == Language
    ensures Worth(SettledRow(row, reader).match_) <= Worth(SettledRow(row, learned).match_)
  {
    LanguageRowIsTheLines(row, reader, w, named);
    LanguageRowIsTheLines(row, learned, w, better);
    BetterHeldNeverLowers(w, Asked(w, row.name), named(row.name), better(row.name));
  }

  // ---------------------------------------------------------------- degrees

  /** Years of study: whole numbers, after the baccalauréat. */
  ghost predicate Years(years: seq<int>) {
    forall k :: 0 <= k < |years| ==> years[k] >= 0
  }

  function Least(years: seq<int>): (least: int)
    requires years != []
    ensures exists k :: 0 <= k < |years| && years[k] == least
    ensures forall k :: 0 <= k < |years| ==> least <= years[k]
  {
    if |years| == 1 then years[0] else Min(Least(years[..|years| - 1]), years[|years| - 1])
  }

  function Most(years: seq<int>): (most: int)
    requires years != []
    ensures exists k :: 0 <= k < |years| && years[k] == most
    ensures forall k :: 0 <= k < |years| ==> years[k] <= most
  {
    if |years| == 1 then years[0] else Max(Most(years[..|years| - 1]), years[|years| - 1])
  }

  /** A school against the lowest level asked, 0 when none is named. */
  predicate Reaches(asked: seq<int>, held: seq<int>) {
    var needed := if asked == [] then 0 else Least(asked);
    if held != [] then Most(held) >= needed else needed == 0
  }

  /** `degreeOf`: some school of the profile reaches what is asked. */
  method DegreeMet(asked: seq<int>, schools: seq<seq<int>>) returns (met: bool)
    ensures met <==> exists k :: 0 <= k < |schools| && Reaches(asked, schools[k])
  {
    met := false;
    var k := 0;
    while k < |schools|
      invariant 0 <= k <= |schools|
      invariant met <==> exists j :: 0 <= j < k && Reaches(asked, schools[j])
    {
      met := met || Reaches(asked, schools[k]);
      k := k + 1;
    }
  }

  /** A school reaches a degree at any one of the levels named; one of no known level, only what asks for none. */
  lemma ReachingIsOneLevel(asked: seq<int>, held: seq<int>)
    requires Years(asked) && Years(held)
    ensures Reaches(asked, held)
      <==> asked == [] || (exists a, h :: 0 <= a < |asked| && 0 <= h < |held| && asked[a] <= held[h])
           || (held == [] && exists a :: 0 <= a < |asked| && asked[a] == 0)
  {
    if asked != [] {
      var a :| 0 <= a < |asked| && asked[a] == Least(asked);
      if held != [] {
        var h :| 0 <= h < |held| && held[h] == Most(held);
      }
    }
  }
}
