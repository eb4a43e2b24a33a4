# itsaresume, verified

itsaresume turns a job offer and the owner's profile into a one-page CV. A language model reads the offer; the code
then repairs and settles what the model answered, ranks and cuts what is shown, and fills the page. A public page lets
strangers ask for CVs on the owner's quota, and a local router starts the model for every request.

This project models that code in Dafny and proves what it promises:

- **The model selects, the code decides.** An arbitrary answer of the model becomes a requirement table that validation
  accepts (`Rows`, `Preparation`, `Settlement`, `Coverage`, `Table`, `UnionFind`, `Examples`), a score that the profile's
  own answer never lowers (`Score`), and picks filed under their owners and cut by priority (`Relocation`, `Column`).
  What each step must do is stated apart from how it does it: `Stages` and `Honesty` for a row's stages, `Lines` for what
  the profile's lines answer, `Answering` for the profile's own answer, `Priority` for the column.
- **The lexicon** tiles phrases, climbs a hierarchy that may hold cycles, and relates skills (`Lexicon`, `Hierarchy`).
- **The public page** keeps its caps, its bans, its lanes and its visitors' jobs over every run (`Windows`, `Gate`,
  `Bans`, `Lanes`, `PublicPage`); the owner's rules are also said of the posts themselves (`Rules`).
- **The page is filled** twice: by measuring as few layouts as possible, and greedily in the browser under the cap of a
  reference mission (`Fit`, `PageData`, `Sheet`).
- **Concurrency** in the router and the Word helper (`Slots`, `Monitor`, `BillingLatch`, `WordPipe`): every
  interleaving of atomic steps.
- **Smaller pieces**: cutting an email into offers, whole-word search in padded strings, the owner's answers (`Split`,
  `Words`, `Answers`); sequences, insertion-ordered maps and the stable sort are shared (`Collections`, `Sorting`).

Regular expressions, stemming, word lists, text measurement, the model's answers and the clock's readings are arbitrary
functions or inputs. Objects the source updates in place are classes whose methods are proved against functions or
histories; what the source promises is proved about those.

## What turned out not to hold

Each has its exact condition and a concrete case in the table below.

- At most one missing never-claimed entry is added to the table: the test for the next entry's own row accepts any row
  already never claimed (`Preparation.OnlyTheFirstMissingIsAdded`, `Preparation.NeverEntriesCovered`,
  `Preparation.SecondNeverEntryIsLeftOut`).
- A `never` that is neither true nor absent survives settling unless the row names a never-claimed entry
  (`Settlement.NeverAfterSettling`, `Honesty.TruthyNeverSurvives`), and examples that all carry one merge into a row
  both met and never claimed (`Examples.MergeKeepsTheTableSound`, `Examples.TruthyExamplesMergeIntoNever`).
- A met degree that leads a group of merged examples makes a row validation refuses
  (`Examples.MergeKeepsTheTableValid`, `Examples.DegreeBesideASkillIsRefused`).
- The owner's "no" on a skill is undone when another pick of the same concept stays
  (`Honesty.RuledOutOnlyAsAlike`, `Honesty.RuledOutBashIsBack`).
- A certification, a language or a degree is not always the profile's lines to answer: a name read as a condition first
  hears the model, on whether its answer is a no (`Honesty.LinesIgnoreTheModel`, `Honesty.ConditionHearsTheModel`).
- Naming a language level can raise the answer: a level that is no working level is no when none is asked, and yes when
  it is (`Lines.NamingALevelRaisesExactly`, `Lines.AskingForAdvancedRaises`).
- A main mission may have nothing it must show on the browser's page, although the code says it is never empty: the
  reference's cap may cut its floor bullet (`PageData.MainKeepsItsFloor`, `PageData.AMainMissionMayHaveNoMust`).
- A clock set back takes its setback from the day the caps count over, and twice from the hour of the bans, and no window
  longer than what is left will do (`Gate.EveryRunStaysWithinCaps`, `Gate.TheSetbackCounts`,
  `Bans.EveryMemoryKeepsTheRule`, `Bans.TheSetbackCountsTwice`).
- An overage that claude reports beside a forbidden tool is refused without latching the backend
  (`BillingLatch.OverageLatchesUnlessMasked`, `BillingLatch.ForbiddenToolMasksOverage`), and a restart forgets a latch
  not yet written (`BillingLatch.OnlyTheFileOutlivesARestart`, `BillingLatch.FiredButNotWritten`).
- A line the Word helper prints for no request, read while one waits, is taken for that request's answer, and the answers
  after it come one request late until one is read while nothing waits (`WordPipe.AnswersLag`,
  `WordPipe.EachItsOwnExactly`, `WordPipe.ASurplusLineIsTaken`); read while nothing waits, it is only lost
  (`WordPipe.AStrayLineIsLost`).

## Model

| member | source | states |
|---|---|---|
| `UnionFind.Root` | cv/src/normalize.js:250-253 | `root` ends at the representative of the row, and compressing the path changes no row's representative |
| `UnionFind.Unite` | cv/src/normalize.js:254-262 | one enumeration: the rows it names come under one root, and rows share a root only if enumerations connect them |
| `UnionFind.Roots` | cv/src/normalize.js:250-264 | after every enumeration two rows have one root exactly when a chain of enumerations connects them |
| `Examples.GroupByRoot` | cv/src/normalize.js:263-264 | rows gathered by root, each group in order, the groups in the order of their first rows |
| `Examples.MergeExamples` | cv/src/normalize.js:250-283 | the merged table: one row for each group of rows the enumerations connect, in the order of the groups; what each row is follows |
| `Examples.EachRowInOneGroup` | cv/src/normalize.js:263-264 | each row falls in exactly one group, shared with exactly the rows it is connected to |
| `Examples.GroupsFollowTheirFirstRows` | cv/src/normalize.js:263-266 | of two groups the one whose first row comes first comes first |
| `Examples.MergedRowIsItsBest` | cv/src/normalize.js:265-276 | the merged row has the match and the skills of the first member that leads: none is better met, and, of those as well met, it rests on the lab alone only if all of them do |
| `Examples.MergedRowSpeaksForAll` | cv/src/normalize.js:269-281 | it is a must exactly when some member is, never claimed exactly when all have `never` set, of no kind, never to verify, and lists every name in order |
| `Examples.MergedRowNamesItsNever` | cv/src/normalize.js:269-279 | and lists apart exactly the names of the members with `never` set |
| `Examples.EachGroupIsMerged` | cv/src/normalize.js:266-282 | each row of the merged table is its lone row unchanged, or its group's first leader speaking for all |
| `Examples.MergedRowSound` | cv/src/normalize.js:259-282 | a merged row passes validation exactly when no met degree leads its group, and is sound exactly when, besides, its group is not all never-claimed rows with a met one |
| `Examples.MergeKeepsTheTableValid` | cv/src/normalize.js:250-283 | merging keeps a settled table valid exactly when no group of two rows or more is led by a met degree |
| `Examples.MergeKeepsTheTableSound` | cv/src/normalize.js:250-283 | merging keeps a settled table sound exactly when no group of two rows or more is led by a met degree, nor has `never` set on every row and one of them met |
| `Examples.DegreeBesideASkillIsRefused` | cv/src/normalize.js:259-282 | a met degree listed beside an unmet skill: the merged row is refused |
| `Examples.TruthyExamplesMergeIntoNever` | cv/src/normalize.js:265-281 | two met examples whose `never` is a text: the merged row is met and never claimed |
| `Settlement.Requirement.SettleByName` | cv/src/normalize.js:412-443 | the first stages of a row: the profile's own name for a skill, and what is never claimed |
| `Settlement.Requirement.Settle` | cv/src/normalize.js:411-589 | one turn of the loop leaves the row its ten stages make; what each stage makes of it is stated under `Stages` |
| `Settlement.SettledRowIsSound` | cv/src/normalize.js:411-589 | whatever the model answered in a row, settling leaves what validation requires of it exactly when its match was readable |
| `Settlement.SoundRowPasses` | cv/src/analysis.js:46-59 | a sound row passes every check of `validateAnalysis` |
| `Settlement.NeverAfterSettling` | cv/src/normalize.js:433-439 | after settling a row is never claimed exactly when the profile says so, and when; a truthy other value survives exactly when it names no such entry |
| `Settlement.NamedRowIsMet` | cv/src/normalize.js:412-588 | a row named like a usable skill ends met exactly when no never-claimed entry is named and: it is a quality; or, unless it is a condition the skill is ruled out of, the lines asked for say so, or, none asked for, the skill is not ruled out or the profile holds another answer |
| `Settlement.ProfileStageKeepsMet` | cv/src/normalize.js:553-588 | the profile's own answer never turns a met row into an unmet one |
| `Stages.NameIsTheFirstBearers` | cv/src/normalize.js:378-382 | a name is a skill's own exactly when that skill is the first usable one to bear it, and nobody's exactly when none does |
| `Stages.PartsAreTheirBearers` | cv/src/normalize.js:422-431 | a name is several skills' exactly when it has parts and each is some skill's: the first bearers of its parts, each once |
| `Stages.NamesSettle` | cv/src/normalize.js:413-439 | a never-claimed row becomes a no without skills; else the skill that bears the name meets it alone, else the skills its parts name do; else it is left as it is |
| `Stages.PartsAreThePicks` | cv/src/normalize.js:425-430 | a row whose parts all name skills is met through exactly those skills, when no id holds a comma |
| `Stages.PicksAreWeighed` | cv/src/normalize.js:440-487 | a full match stands exactly when it was one, a known pick not ruled out stays, one is held by the requirement's concept or a "same" ruling or the words ground them, and not all are ruled near; it is to verify exactly when it was met, a pick stays and nothing holds it; it is no exactly when it was no or no pick stays |
| `Stages.PicksAreKept` | cv/src/normalize.js:440-487 | the row keeps the picks that stay, in the model's order, then exactly the other skills placed on a concept it names that such a pick is placed on; a no keeps none |
| `Stages.KindsAnswer` | cv/src/normalize.js:488-544 | a quality, a condition, a language, a certification or a degree, the first that applies, answers the row, and how; a never-claimed row is left as it is |
| `Stages.OutrankingIsABetterAnswer` | cv/src/normalize.js:566-570 | the rank guard, without ranks: the profile's answer wins exactly when it is better met, or as well met and firm where the row was to verify or met through no practised skill |
| `Stages.ProfileTakesOver` | cv/src/normalize.js:553-588 | the profile's answer takes over a row of skills not never claimed exactly when it wins, with its match, skills and doubt |
| `Stages.EveryStageIsRight` | cv/src/normalize.js:411-589 | a readable row is settled by these four steps, one after the other |
| `Stages.SettledAsPicked` | cv/src/normalize.js:440-588 | a settled row of skills the profile has no answer for is a full match, or to verify, exactly for the reasons its picks give |
| `Stages.LookupIs` | cv/src/lexicon.js:78-84 | a requirement names exactly the concepts some part of it leads to |
| `Stages.ContextIs` | cv/src/normalize.js:313-324 | the profile's answer reads its known skills that are not blocked, placed by their names, and by their names and terms |
| `Honesty.NamedRowIgnoresTheModel` | cv/src/normalize.js:412-421 | a row named like a usable skill settles alike whatever match and skills the model gave it |
| `Honesty.NeverRowIgnoresTheModel` | cv/src/normalize.js:432-439 | so does a never-claimed row |
| `Honesty.LinesIgnoreTheModel` | cv/src/normalize.js:494-544 | a language, a certification or a degree is the profile's lines to answer: two answers of the model settle alike, but for a name read as a condition (its words, no quality word, no skill behind it), and there exactly when both or neither end the skill stage at no |
| `Honesty.ConditionHearsTheModel` | cv/src/normalize.js:499-530 | one name, a condition and a certification: the model's no settles as a condition to confirm, its yes as a certification held |
| `Honesty.FullMatchIsBacked` | cv/src/normalize.js:466-588 | a row of skills that ends in a full match is held by its words, its concept or the profile's own answer, and not by skills ruled near alone |
| `Honesty.RuledOutComesBackAsAlike` | cv/src/normalize.js:449-465 | a skill the owner ruled out is in the row after this stage exactly when it shares a named concept with a pick that stays |
| `Honesty.RuledOutOnlyAsAlike` | cv/src/normalize.js:449-588 | and in the settled row exactly when, besides, no kind answers the row and the profile's own answer, which never uses it, takes nothing over |
| `Honesty.RuledOutBashIsBack` | cv/src/normalize.js:449-465 | ksh and bash picked, bash ruled out: the settled row is met through both |
| `Honesty.TruthyNeverSurvives` | cv/src/normalize.js:433-439 | a `never` that is a text, on a row that names no never-claimed entry: the settled row keeps it |
| `Lines.AskedIsTheLowest` | cv/src/normalize.js:110-111 | the level asked is the lowest the requirement names |
| `Lines.HeldIsNamed` | cv/src/normalize.js:220-220 | a language is held at a rank or above exactly when one of its lines names a level that high |
| `Lines.LanguageMatch` | cv/src/normalize.js:218-225 | yes at the level asked, or at a working level when none is; adjacent at a working level below it; else no |
| `Lines.BetterHeldNeverLowers` | cv/src/normalize.js:218-225 | holding each language at least as well never lowers the answer |
| `Lines.AskingLessNeverLowers` | cv/src/normalize.js:218-225 | nor does asking a lower level, or fewer languages |
| `Lines.NamingALevelRaisesExactly` | cv/src/normalize.js:222-223 | naming a level raises the answer exactly when every language is held at it and some at no working level |
| `Lines.AskingForAdvancedRaises` | cv/src/normalize.js:218-225 | an "advanced" English: no when English is asked for, yes when advanced English is |
| `Lines.LanguageRowIsTheLines` | cv/src/normalize.js:489-520 | a row that names a language settles as that language, with the match its lines give, exactly when it is no quality, nor a condition the skill stage left at no |
| `Lines.RowsByLinesPass` | cv/src/normalize.js:411-589 | with a reader that answers languages by their lines, every settled row whose match was read is sound and passes validation |
| `Lines.LearningNeverLowersARow` | cv/src/normalize.js:508-520 | a settled language row is never worth less once each language is held at least as well |
| `Lines.DegreeMet` | cv/src/normalize.js:159-169 | a degree is met when some school reaches it |
| `Lines.ReachingIsOneLevel` | cv/src/normalize.js:161-167 | a school reaches a degree exactly at one of the levels named, or when none is |
| `Coverage.AnswerIsEarned` | cv/src/coverage.js:132-198 | the profile answers yes only through known, usable skills ruled neither out nor near and held at working level or better; whatever it answers, it names a usable skill |
| `Coverage.SilenceIsEmpty` | cv/src/coverage.js:132-198 | it is silent exactly when no usable skill is placed at or under a concept named, by name or term, or ruled the same or near; none says it in its own words; none is a practised sibling; and no bullet states it |
| `Answering.YesExactlyWhenMet` | cv/src/coverage.js:149-169 | it answers yes exactly when every part named is covered by a practised skill placed at or under it by a name, or by a "same" ruling (with no part named, by such a ruling), and no other word is left unsaid unless there is such a ruling; or when a practised skill's own names say the whole of it |
| `Answering.AnswerIsRight` | cv/src/coverage.js:132-198 | the whole answer, source by source: its match, whether it is to verify, where it comes from and exactly which skills it names |
| `Answering.MetInFullIs` | cv/src/coverage.js:151-163 | the covering of the parts and the words left over, as the code gathers them, meet the requirement exactly when they do skill by skill and word by word |
| `Answering.WordsAnswer` | cv/src/coverage.js:89-106 | what the skills' own words answer: yes through exactly those that say all of it, near through those whose names say a part, to verify through those whose terms do |
| `Answering.GradeIsRight` | cv/src/coverage.js:60-80 | a skill's grade: 3 exactly when its names say all that is asked, or hold it within twice its length; 2 when a name is said whole; 1 when only terms say it; else 0 |
| `Answering.PartNames` | cv/src/coverage.js:51-54 | a part names the concepts its label leads to, the curated technologies alone where there is one |
| `Preparation.AddNever` | cv/src/normalize.js:392-400 | the loop over the never-claimed entries |
| `Preparation.OnlyTheFirstMissingIsAdded` | cv/src/normalize.js:392-400 | of the entries the offer names and the table misses, exactly the first is added |
| `Preparation.NeverEntriesCovered` | cv/src/normalize.js:392-400 | every entry the offer names ends in the table exactly when none was missing or the first missing one mentions the others |
| `Preparation.SecondNeverEntryIsLeftOut` | cv/src/normalize.js:392-400 | two entries named by an offer, an empty table: the second is left out |
| `Preparation.PreparedReachSettling` | cv/src/normalize.js:325-409 | the rows that reach settling: without an offer every row of the model, with one exactly those it states, each once and in order, then at most one never-claimed entry; each under its safe name, with its skills as they are read and none blocked, its importance by the offer's cue, else the model's, else a must |
| `Table.CountOnce` | cv/src/normalize.js:593-605 | rows of one key are kept once, in the order of the first |
| `Table.OnceIsStrictest` | cv/src/normalize.js:593-601 | what is kept of repeated rows is the first of those none is less met than, a must exactly when some row is |
| `Table.KeysAlike` | cv/src/normalize.js:413-431 | two rows are one requirement exactly when both are never claimed under names that fold alike, or neither is and their names say the same skills, or none and read alike |
| `Table.SayingTheSame` | cv/src/normalize.js:431-431 | two names say the same skills, as the key reads them, exactly when they say the same list, when no id holds a plus |
| `Table.CountedOnceIsRight` | cv/src/normalize.js:593-605 | one row a requirement, in the order of its first row: the first of its strictest once settled, a must exactly when one is |
| `Table.SettleAll` | cv/src/normalize.js:411-589 | every row settled, its key read before |
| `Table.NormalizeTable` | cv/src/normalize.js:325-606 | the requirement table `normalize` makes: the rows that reach settling, each settled, counted once, merged when there is an offer |
| `Table.TheTableCountsOnce` | cv/src/normalize.js:325-605 | every row that reaches settling is counted in exactly one row of the table before the merge, and each such row comes from one |
| `Table.TheTableMergesExamples` | cv/src/normalize.js:325-606 | with an offer, each row of the table is made of the rows of one group alone |
| `Table.TheTableIsSound` | cv/src/normalize.js:325-606 | for any answer whose rows say yes, adjacent or no, the settled table passes validation exactly when no met degree leads a merged group, and is sound exactly when, besides, no merged group has `never` set on all its rows and one of them met; without an offer, always |
| `Score.Compute` | cv/src/score.js:32-42 | the score, with the loop's two sums |
| `Score.ScoreFromCounts` | cv/src/score.js:8-42 | the score is the nearest percentage of three times the musts plus the nices, a full match worth one, an adjacent or the lab's a half; none exactly when no row counts |
| `Score.ScoreIsAPercentage` | cv/src/score.js:32-42 | a score lies within 0 and 100 through its rounding, and is absent exactly when no row counts |
| `Score.BetterRowNeverLowersTheScore` | cv/src/score.js:32-42 | a row worth at least as much, in place of another, never lowers the score |
| `Score.RankedHigherIsWorthAsMuch` | cv/src/normalize.js:553-588 | the rank guard never trades credit away |
| `Score.Qualify` | cv/src/score.js:49-61 | the qualification, from the gaps among the musts |
| `Score.LevelFromCounts` | cv/src/score.js:13-60 | qualified exactly when no must is at fault, not qualified exactly when at least half of them are; at fault: never claimed, unmet, met through the lab alone, or to verify |
| `Score.AnswerOpensNoGap` | cv/src/normalize.js:553-588 | the profile's answer fills gaps and opens none |
| `Score.ProfileAnswerNeverLowers` | cv/src/normalize.js:553-588 | taken for any row, the profile's answer lowers neither the score nor the qualification |
| `Relocation.PlacedIsRight` | cv/src/normalize.js:612-620 | what is placed: each owner and each item once, exactly those mentioned |
| `Relocation.PlaceAll` | cv/src/normalize.js:621-636 | the loops over the model's experiences and their bullets |
| `Relocation.RelocateBullets` | cv/src/normalize.js:609-651 | the experiences of the analysis after the bullets step |
| `Relocation.RelocationConservesPicks` | cv/src/normalize.js:609-651 | a known bullet the model named, under any id, is listed under its owner and there alone, except short-mission and R&D bullets that back nothing |
| `Relocation.BulletsKeepTheModelsOrder` | cv/src/normalize.js:608-634 | under an experience the bullets stand in the order the model first named them |
| `Relocation.ExperiencesKeepTheModelsOrder` | cv/src/normalize.js:608-634 | and the experiences in the order it first named them or a bullet of theirs |
| `Relocation.OwnerIsTheLast` | cv/src/normalize.js:367-370 | a bullet's experience is the last of the profile's that holds it |
| `Relocation.RelocatedExperiencesPass` | cv/src/analysis.js:61-73 | whatever the model chose, each experience is known and each bullet its own |
| `Column.PutChoices` | cv/src/normalize.js:656-674 | every skill the model listed goes to its own group |
| `Column.OfferSkill` | cv/src/normalize.js:678-689 | a met skill joins the column unless unknown, listed, ruled out by the evidence or of a hidden group |
| `Column.ListedIsPlaced` | cv/src/normalize.js:678-684 | putting a listed skill again would change nothing: the `listed` set only saves work |
| `Column.FillColumn` | cv/src/normalize.js:653-715 | the skills step of `normalize` |
| `Column.NormalizeColumn` | cv/src/normalize.js:359-361 | the model's lists without what the evidence blocks, then the column |
| `Column.AllowedSkillsJoin` | cv/src/normalize.js:352-689 | before the cut the column holds exactly the known skills no evidence blocks, listed by the model or met in a group that shows |
| `Column.BlockedNeverShow` | cv/src/normalize.js:350-361 | whatever the model listed or picked, no skill the evidence blocks is in the column |
| `Column.ColumnIsRight` | cv/src/normalize.js:690-715 | each group once, each skill once and in its own group, nothing nobody named, at most six visible groups of at most six skills |
| `Column.MetSkillsAreCutLast` | cv/src/normalize.js:692-715 | a visible skill that meets a requirement is missing only when its group shows six such skills or six other groups each show one |
| `Column.MetSkillsJoin` | cv/src/normalize.js:675-689 | a usable, visible skill of a row that is not a no is in the column before the cut |
| `Column.HiddenSkillsStay` | cv/src/normalize.js:695-707 | what the model lists of a hidden group is never cut |
| `Column.FilledColumnPasses` | cv/src/analysis.js:75-82 | the column's groups are the profile's and its skills are in their own |
| `Priority.ColumnIs` | cv/src/normalize.js:652-714 | the column exactly: the groups in the order they were first filled, the visible ones cut to six with those that hold a met skill first; in each its skills as first listed, the met ones first, a visible group's cut to six |
| `Priority.CutIs` | cv/src/normalize.js:699-713 | a cut keeps those that pass first, then the others, each in their order; the last ones go, and only when it is full |
| `Priority.JoiningIs` | cv/src/normalize.js:678-688 | the met skills that join are, in the rows' order, exactly those known, not blocked and of a group that shows |
| `Lexicon.BuildIndex` | cv/src/lexicon.js:39-54 | the index leads each label to the concepts that carry it, each id to its concept, each parent to the concepts under it |
| `Lexicon.CarriersCarry` | cv/src/lexicon.js:39-54 | a label leads to exactly the concepts that carry it |
| `Lexicon.ChildrenAreUnder` | cv/src/lexicon.js:39-54 | under a parent are exactly the concepts that name it as broader |
| `Lexicon.TilingIsGreedy` | cv/src/lexicon.js:62-76 | the parts are known labels that share no position, the longest first and as long ones from left to right, and every known label of the phrase overlaps, or is, a part that is longer, or as long and no further right |
| `Lexicon.TilingConservesWords` | cv/src/lexicon.js:62-76 | parts and rest use up the words of the phrase, each once |
| `Lexicon.RestIs` | cv/src/lexicon.js:62-76 | the rest is exactly the words no part takes, in order |
| `Lexicon.Spans` | cv/src/lexicon.js:62-76 | the parts and the rest, found with the `used` array |
| `Hierarchy.AboveIsReachable` | cv/src/lexicon.js:116-124 | above a concept within k steps: exactly what a climb of one to k broader edges reaches, cycles or not |
| `Hierarchy.Ancestors` | cv/src/lexicon.js:116-124 | the level-by-level climb, a seen concept never climbed again, finds exactly those |
| `Hierarchy.RelationIsSymmetric` | cv/src/lexicon.js:127-148 | same, near and shared theme hold both ways |
| `Hierarchy.RelationsAreClimbs` | cv/src/lexicon.js:126-148 | the relation of two concepts, by climbs: the same; one step apart, or under one concept that is no umbrella; or both reaching such a concept in two steps at most |
| `Hierarchy.Closest` | cv/src/lexicon.js:142-152 | a skill's relation is the closest one its concepts have to the ones asked |
| `Hierarchy.Relate` | cv/src/lexicon.js:139-157 | exactly the skills of the best rank, each by its closest relation |
| `Hierarchy.HoldersArePlacedWithinTwoSteps` | cv/src/lexicon.js:169-176 | a skill holds a requirement exactly when one of its concepts is a named one or at most two steps below one |
| `Hierarchy.FamilyMeets` | cv/src/lexicon.js:184-197 | two tools are of one family exactly when they differ and stand one step under the same concept, no umbrella |
| `Hierarchy.SiblingsAreKin` | cv/src/lexicon.js:184-197 | exactly the skills placed on a tool that stands, with a different tool asked, one step under the same concept, no umbrella |
| `Gate.EveryRunStaysWithinCaps` | cv/src/server.js:263-277 | over every run, however the clock is set: at most the daily cap in any 24 hours, the client's in any hour, both shortened only by what the largest setback takes from the day |
| `Gate.SteadyClockHasNoSetback` | cv/src/server.js:263-277 | nothing is taken exactly when the clock never steps back |
| `Gate.TheSetbackCounts` | cv/src/server.js:263-277 | for every setback, a run that breaks the daily cap in a window one millisecond longer |
| `Gate.RememberedCount` | cv/src/server.js:265-270 | a window counted on the admissions remembered is the window counted on all there ever were, up to a day less the setback |
| `Gate.MemorySuffices` | cv/src/server.js:263-277 | while the clock was never set back, the verdict from a day's memory is the verdict over the whole history |
| `Gate.PublicGate.Admit` | cv/src/server.js:263-277 | the verdict from what is remembered, each admission counted for what it queues, the caps kept; the owner's verdict over the whole history while the clock was never set back |
| `Rules.CapsDecide` | cv/src/server.js:263-277 | the owner's verdict from how many admissions fall in the client's last hour and in everyone's last day, refusal by refusal |
| `Rules.MemoryDecides` | cv/src/server.js:263-277 | the server's verdict, whatever its clock did, from the admissions left once the first ones a day old are dropped |
| `Bans.EveryRunStaysWithinTheRule` | cv/src/server.js:285-308 | by the rule, whatever the clock does, no address and no visitor gets more than `banAfter` attempts through in any hour |
| `Bans.BanHolds` | cv/src/server.js:289-290 | once an attempt went over, every later one under either of its keys is refused until the ban has run |
| `Rules.AttemptsDecide` | cv/src/server.js:285-308 | over every run of attempts: suspended exactly while the ban of an earlier one of its address or visitor runs; else over exactly when its address or visitor already made `banAfter` within the hour, suspended ones aside |
| `Bans.MemorySuffices` | cv/src/server.js:285-308 | while the clock was never set back, the verdict from the hour remembered is the rule's over everything that ever happened |
| `Bans.EveryMemoryKeepsTheRule` | cv/src/server.js:280-309 | on every run of the server's own memory, whatever the clock does: while the map of recent attempts, full, lost no key, no key gets more than `banAfter` attempts through in any hour less twice the largest setback |
| `Bans.SteadyClockHasNoSetback` | cv/src/server.js:285-287 | nothing is taken from the hour exactly when the clock never steps back |
| `Bans.TheSetbackCountsTwice` | cv/src/server.js:292-303 | for every setback of half an hour at most, a run that loses no key and breaks the rule in a window one millisecond longer |
| `Bans.CheckKeepsRight` | cv/src/server.js:285-308 | one attempt keeps the rule and the memory of attempts in step until that map, full, loses a key, and the bans in step until theirs does |
| `Bans.Memory.Record` | cv/src/server.js:292-298 | one key of an attempt: its times of the last hour and this one, and whether they are too many |
| `Bans.Memory.CheckBan` | cv/src/server.js:285-308 | the rule holds until the map of recent attempts, full, loses a key; until either map does, with no setback, the verdict is the rule's over everything that ever happened; after that, what the maps say |
| `Lanes.AddKeepsSound` | cv/src/server.js:516-527 | a created job keeps lanes and ownership sound: it is queued once, in its own lane, and listed by no one but its visitor |
| `Lanes.AddKeepsOwnersExact` | cv/src/server.js:518-518 | a created job joins the jobs of its visitor, when the page knows it, and of no other: each visitor owns exactly the jobs given to it since it was last remembered that the page still holds as its own |
| `Lanes.RememberedKeepsOwnersExact` | cv/src/server.js:218-232 | remembering a visitor starts its list anew, and keeps every other visitor owning exactly its jobs |
| `Lanes.DropKeepsSound` | cv/src/server.js:534-535 | forgetting a finished job keeps lanes and ownership sound |
| `Lanes.StartKeepsSound` | cv/src/server.js:344-349 | a start keeps them sound, and leaves no job waiting beside a free lane |
| `Lanes.EndKeepsSound` | cv/src/server.js:360-369 | so does the end of a job |
| `Lanes.VisitorsShareNothing` | cv/src/server.js:427-427 | a job is seen by one visitor at most, the one that asked for it |
| `Lanes.EachStartBringsNearer` | cv/src/server.js:176-180 | a queued job has a place in its lane, and each start brings it one nearer |
| `Lanes.InFlightIsUnfinished` | cv/src/server.js:174-174 | the number the caps use is the number of jobs queued or running |
| `Lanes.EvictedKeepsSound` | cv/src/server.js:528-536 | eviction touches no queued or running job |
| `Lanes.EvictedOwns` | cv/src/server.js:531-536 | eviction takes from each visitor the forgotten jobs and no other |
| `Lanes.OldestGoFirst` | cv/src/server.js:531-536 | a finished job is forgotten only once every older finished one is |
| `Lanes.OnlyTheExcessGoes` | cv/src/server.js:531-535 | while the map fits nothing is forgotten; past the cap, no more than brings it back to it |
| `Lanes.MemoryIsBounded` | cv/src/server.js:530-536 | after a post the page remembers no more jobs than its cap, or only jobs in flight |
| `Lanes.RememberedFits` | cv/src/server.js:218-232 | a page load keeps the visitors within their cap and everyone else's jobs as they were |
| `Lanes.RememberedSparesOwners` | cv/src/server.js:218-232 | it costs at most one visitor, none while there is room, and none with jobs while another has none |
| `Lanes.TheOldestGoes` | cv/src/server.js:220-231 | on a full page the oldest visitor without a job goes for the newcomer, and the oldest of all when each has one |
| `PublicPage.CountedAreQueued` | cv/src/server.js:514-527 | a post is counted for exactly the jobs it queues |
| `PublicPage.JoiningIs` | cv/src/server.js:516-527 | a lane is joined by exactly the new jobs of the post's offers for it, in the order of the post |
| `PublicPage.TakenInKeepsSteady` | cv/src/server.js:516-538 | a post taken in keeps lanes, ownership and every cap |
| `PublicPage.TakenInGives` | cv/src/server.js:516-536 | a post taken in gives its visitor exactly its jobs: each visitor known then owns what it did, and its visitor the post's, less the jobs forgotten |
| `PublicPage.TakenInHolds` | cv/src/server.js:516-536 | and puts exactly its jobs on the page, in their lanes, done exactly when a past run answers them; earlier jobs are forgotten only when over, and none while all fit |
| `PublicPage.TakenInKeepsOwnersExact` | cv/src/server.js:516-538 | and keeps every visitor owning exactly the jobs given to it since it was last remembered that the page holds as its own |
| `PublicPage.FinishKeepsSteady` | cv/src/server.js:344-373 | the end of a job, and the start of the next, keep them too |
| `PublicPage.Page.Work` | cv/src/server.js:344-349 | the first job queued in a free lane starts, first in, first out |
| `PublicPage.Page.Finish` | cv/src/server.js:354-373 | a job ends, well or not, and the next one starts |
| `PublicPage.Page.Remember` | cv/src/server.js:218-232 | the newcomer, at the cost of the oldest visitor without a job when the page is full; every visitor goes on owning exactly its jobs |
| `PublicPage.Page.VisitorOf` | cv/src/server.js:246-257 | the header's visitor, adopted again when its cookie says so |
| `PublicPage.KnownOnceRead` | cv/src/server.js:246-257 | a post's visitor is known once it is read exactly when it was or its cookie says so; otherwise nothing changes |
| `PublicPage.CountedUnderWhoIsKnown` | cv/src/server.js:288-288 | an attempt is counted under that visitor exactly then, else under none |
| `PublicPage.Page.PageLoad` | cv/src/server.js:233-245 | the cookie's visitor when known, else a new one |
| `PublicPage.Page.EvictJobs` | cv/src/server.js:528-536 | the walk from the oldest job while the map is over its cap |
| `PublicPage.Page.Ask` | cv/src/server.js:515-538 | admitted exactly when what is remembered admits it, which is the rule over the whole history while the clock was never set back; then the jobs are in, queued, held and given to their visitor, else nothing changed |
| `PublicPage.Page.Post` | cv/src/server.js:483-539 | every post no ban refuses is counted for the bans; banned exactly when the bans say so, else malformed, else accepted exactly when the caps admit it, for exactly what it puts in flight; accepted, its visitor is given exactly its jobs and others lose only forgotten ones; refused, no job is touched |
| `Fit.CannotGrowIsLongest` | cv/src/fit.js:40-50 | when adding a bullet never shortens the page, what is shown is the longest part of the ranking that fits |
| `Fit.RelevantAre` | cv/src/fit.js:52-53 | the relevant bullets are exactly those of a tier above zero, in the ranking's order |
| `Fit.HalvingsAreTheLogarithm` | cv/src/fit.js:41-50 | the halvings of n are the logarithm of n + 1, rounded up |
| `Fit.Fitter.Length` | cv/src/fit.js:35-39 | a length is measured once, and the cache holds the measured one |
| `Fit.Fitter.Largest` | cv/src/fit.js:41-50 | whatever the layout does, the answer fits or is nothing, and one bullet more does not fit |
| `Fit.Fitter.ChooseCap` | cv/src/fit.js:61-64 | the largest cap under which the page without bullets fits, or the least |
| `Fit.Fitter.FitToPage` | cv/src/fit.js:32-67 | two pages only when the relevant bullets reach a page and a half with six skills a group; what is shown is the head of the ranking and cannot grow within 0.985 or 1.985 pages; on one page at most 6 + ceil(log2(n + 1)) layouts |
| `Fit.ShownPagesStayWithin` | cv/src/fit.js:59-66 | the page stays within its limit exactly when a bullet is shown or the page without bullets fits |
| `PageData.RankingIsRight` | cv/src/tailor.js:74-104 | the ranking holds exactly the bullets that earn their place, each once, in its order |
| `PageData.RankingOfBullets` | cv/src/tailor.js:74-104 | from the bullets themselves: exactly those that are ranked, picks in the model's order first, then by how many of their skills meet a requirement, then by mission and by place |
| `PageData.PicksLead` | cv/src/tailor.js:92-103 | the model's picks lead, in the model's own order |
| `PageData.ModelIs` | cv/src/tailor.js:129-156 | the lines of the CV: each mission its chosen bullets under the reference's cap, short missions without one left out |
| `PageData.OwnIdsAre` | cv/src/tailor.js:129-130 | a mission's bullets among those shown are exactly its ranked ones that are, in the ranking's order |
| `PageData.MayShow` | cv/src/tailor.js:129-135 | what a mission may show: those, or its first bullet when it is main and has none |
| `PageData.FloorIs` | cv/src/tailor.js:198-201 | with no bullet chosen the document shows the first bullet of each main mission and no other |
| `PageData.PageIsWellFormed` | cv/src/tailor.js:209-220 | the items of an experience differ by id and all are ranked: rank 0 never happens |
| `PageData.RankIsThePlace` | cv/src/tailor.js:203-218 | an item's rank is its place in the ranking, from one |
| `PageData.PageKeepsTheCap` | cv/src/tailor.js:198-222 | no experience of the page has more musts than the reference |
| `PageData.MainKeepsItsFloor` | cv/src/tailor.js:129-141 | a main mission keeps its floor bullet exactly when fewer of its bullets rank ahead of it than the reference has |
| `PageData.MainMusts` | cv/src/tailor.js:201-218 | what a main mission must show is that floor bullet, or nothing when the cap cut it |
| `PageData.AMainMissionMayHaveNoMust` | cv/src/tailor.js:129-141 | a reference of one bullet, a second mission whose second bullet the model picked: the second mission must show nothing |
| `PageData.FillPage` | cv/src/tailor.js:198-222 | on the page of any valid CV, the filling shows what it should by rank, no experience beyond the reference, keeps the box and the spacing's bounds, and stops only for a reason |
| `Sheet.MustsAreAStart` | cv/web/cv.js:33-49 | the musts alone are a right page, every optional item waiting once |
| `Sheet.NextKeepsThePage` | cv/web/cv.js:50-54 | adding the next item keeps what each experience must show, by rank |
| `Sheet.NextKeepsTheCap` | cv/web/cv.js:51-54 | and keeps every experience within the reference |
| `Sheet.ShowMusts` | cv/web/cv.js:35-38 | every must is shown, and nothing else |
| `Sheet.Shrink` | cv/web/cv.js:39-44 | the spacing gives way, never below its least, until the musts fit |
| `Sheet.ShrunkIsBase` | cv/web/cv.js:39-44 | the spacing the musts are given is the first from 1.15 down by twentieths under which they fit, or 1.00 |
| `Sheet.AddByRank` | cv/web/cv.js:47-59 | ranked items while the page holds them: it stops when each one left is capped or the next overflows |
| `Sheet.Widen` | cv/web/cv.js:61-69 | the spacing widens, never past its most, until the page is full enough or a wider one overflows |
| `Sheet.UnderTargetIs` | cv/web/cv.js:61-65 | a page is short of full exactly when less than 94.5 hundredths of its box are taken |
| `Sheet.Fill` | cv/web/cv.js:21-71 | every must, no unranked item, none beyond the reference, within the box unless the musts alone overflow; it stops only for a reason |
| `Slots.EveryRunIsSound` | crates/itsaresume-router/src/server.rs:232-255 | under every interleaving the counter is the number of slots held, never past the cap |
| `Slots.RefusedOnlyWhenFull` | crates/itsaresume-router/src/server.rs:238-241 | a request is turned away only if every slot was held at some instant between its load and its refusal |
| `Slots.StaleMeansProgress` | crates/itsaresume-router/src/server.rs:242-246 | between two different counts some thread took or gave back a slot |
| `Slots.FailedExchangeMeansProgress` | crates/itsaresume-router/src/server.rs:238-246 | an exchange that fails and tries again means some thread took or gave back a slot since the request's load |
| `Slots.AThreadCanGoOn` | crates/itsaresume-router/src/server.rs:237-255 | in any state a thread can take a step exactly when it was not turned away: no waiting, no deadlock |
| `Monitor.EveryRunIsSound` | crates/itsaresume-router/src/lm_studio.rs:52-83 | free and held slots are always the configured count, and no wake-up is lost |
| `Monitor.NobodySleepsBesideAFreeSlot` | crates/itsaresume-router/src/lm_studio.rs:58-82 | when nothing is on its way, a request sleeps only while every slot is held |
| `Monitor.GivesUpOnlyLate` | crates/itsaresume-router/src/lm_studio.rs:58-59 | a request gives up only past its deadline, with every slot held |
| `BillingLatch.OverageLatchesUnlessMasked` | crates/itsaresume-router/src/claude_code.rs:47-99 | an answer billed per token latches exactly when its billing source says so or no forbidden tool speaks before the overage |
| `BillingLatch.ForbiddenToolMasksOverage` | crates/itsaresume-router/src/claude_code.rs:70-99 | the masked case happens |
| `BillingLatch.TrippedStopsTheProcess` | crates/itsaresume-router/src/claude_code.rs:335-456 | once it fired, only requests already past `latched` ever run claude in that process |
| `BillingLatch.FileStopsEveryProcess` | crates/itsaresume-router/src/claude_code.rs:437-456 | while the file is there, restarts or not, only requests that had already read its absence do |
| `BillingLatch.NothingStartsAfterARestart` | crates/itsaresume-router/src/claude_code.rs:445-456 | after a restart with the file there, claude never starts until it is deleted |
| `BillingLatch.UnwrittenLatchIsForgotten` | crates/itsaresume-router/src/claude_code.rs:434-440 | from any state without the file, a restart whose first request runs claude |
| `BillingLatch.OnlyTheFileOutlivesARestart` | crates/itsaresume-router/src/claude_code.rs:434-456 | after a restart claude never starts again, until the file is deleted, exactly when the file is there |
| `BillingLatch.FiredButNotWritten` | crates/itsaresume-router/src/claude_code.rs:434-440 | the tripwire fired, the file not yet written: a restart starts claude again |
| `WordPipe.LineGoesTo` | cv/src/word.js:51-51 | the k-th line read while something waited goes to the k-th request written |
| `WordPipe.AlignedUnlessALineStrays` | cv/src/word.js:49-80 | before the exit the i-th line is taken by the i-th request, timed out or not, exactly when no line came while nothing waited; such a line is lost |
| `WordPipe.AnswersLag` | cv/src/word.js:49-80 | of a helper that answers each request once, in order, an answer reaches its own request exactly when it is not late; a line for no request read while one waits makes the answers one later, an answer read while nothing waits one less, nothing else |
| `WordPipe.EachItsOwnExactly` | cv/src/word.js:49-80 | likewise, every request gets its own answer exactly when no line that answers none was read while a request waited |
| `WordPipe.Play` | cv/src/word.js:49-79 | any requests and lines, in any order: the helper ends where they lead |
| `WordPipe.AStrayLineIsLost` | cv/src/word.js:51-51 | a line printed before anything was asked: both requests get their own answers |
| `WordPipe.ASurplusLineIsTaken` | cv/src/word.js:51-51 | a line printed for neither while two requests wait: the second gets the answer of the first |
| `WordPipe.Helper.Ask` | cv/src/word.js:66-79 | nothing is written once the helper is known gone |
| `WordPipe.Helper.Line` | cv/src/word.js:51-51 | a line goes to the oldest request in line, or is lost, and settles nothing already settled |
| `WordPipe.Helper.TimeOut` | cv/src/word.js:69-73 | a request that times out is rejected and keeps its place in line |
| `WordPipe.Helper.Exit` | cv/src/word.js:59-62 | after the exit no request is left unsettled |
| `Split.SortedApart` | cv/src/split.js:48-48 | sorting the ranges moves none onto another, nor off |
| `Split.NeighboursSuffice` | cv/src/split.js:48-51 | sorted ranges are pairwise disjoint exactly when each starts after the one before ends |
| `Split.GoodOfferIs` | cv/src/split.js:28-45 | an offer passes exactly when its two numbers stand in order inside the text and two lines at least of its stretch are not blank |
| `Split.Check` | cv/src/split.js:35-53 | ranges are taken exactly when each is in the text and long enough and no two share a line; else the reason is the first check that fails |
| `Split.EveryLineHasOnePlace` | cv/src/split.js:59-92 | each line that is not blank is in exactly one offer, the shared range, or left out |
| `Split.Spans` | cv/src/split.js:93-98 | the spans of ascending numbers are those numbers when expanded, and none touches the next |
| `Split.LeftOutSpans` | cv/src/split.js:89-98 | the spans said expand to exactly the lines that are not blank and in no range |
| `Words.SearchFindsWholeWords` | cv/src/guard.js:172-180 | searching a padded text for a padded run finds exactly the runs of whole words |
| `Words.FirstLeak` | cv/src/guard.js:172-195 | null exactly when no window of that length is shared with the source and absent from the profile; else the first such window |
| `Words.LinkedSkills` | cv/src/links.js:92-102 | of each kind, exactly the skills of the links whose words stand whole in the requirement, each once, in the order of the links |
| `Answers.MergeAnswers` | cv/src/answers.js:24-64 | the merge is the fold of its turns over the list |
| `Answers.MergeOneMore` | cv/src/answers.js:66-81 | merging a list extended by an id of its own is merging that answer alone into the merged profile |
| `Answers.RefusedUnlessAcceptable` | cv/src/answers.js:44-56 | a yes is refused for some reason exactly when it is not acceptable |
| `Answers.TakenYesIsASkill` | cv/src/answers.js:44-61 | an acceptable yes adds one skill: its own id, its trimmed name in lower case, its group, level and trimmed sentence, and no error |
| `Answers.MergedNamesAreNew` | cv/src/answers.js:42-61 | no added skill has a name another skill has or the evidence blocks, and the profile's own skills stay |
| `Answers.AddedNamesAreAlone` | cv/src/answers.js:49-52 | two skills of a merged profile never answer to one name when the later was added |
| `Answers.MergeableIdsAreUnique` | cv/src/answers.js:32-36 | a file that merges without error has unique ids |
| `Answers.StoredIsTakenAlike` | cv/src/answers.js:72-81 | keeping only the fields of its kind and trimming the id changes nothing of what the profile takes |
| `Answers.AnswersFile.AddAnswer` | cv/src/answers.js:72-87 | the file takes exactly the answers the profile takes, and stays mergeable without error |

## Left out

- `grounded`, `isQuality`, `isCondition`, `certificationOf` and the words that name a language: arbitrary functions of a
  name; the stages take `languageMatch`'s and `degreeOf`'s answers from the reader, which `Lines` ties to the lines.
- Files, sockets, processes, HTTP, cookies' syntax, document and PDF rendering: input and output; only their events
  (an answer, a timeout, an exit, a measured height) are modelled.
- Regular expressions, Unicode, stemming, French and English word lists, the ESCO data: arbitrary functions.
- Prompts, the model's text, JSON found in prose, configuration: arbitrary inputs.
- Notes, repairs and error messages: what is said about a repair, not what it does.
- Floating point: spacings are whole hundredths, pages are reals, credits whole halves with the source's rounding.
- The headline and the summary, `checkFreeText` beyond `copied` and `echoed`, and the free-text checks of
  `validateAnalysis`: regular expressions over prose.
- Bans.Memory.CheckBan: once a map of ten thousand keys has dropped one for lack of room, or the clock was set back, the
  verdict is stated by what the maps hold, no longer by everything that ever happened; once the map of recent attempts
  has dropped one, the rule itself is no longer stated.
- PublicPage.Page.Post: begins once the body is read; the checks before it (method, origin, token) and the invitations
  are left out, and a malformed post is one bit of the request.
- Sheet.Fill: the sheet's `show` by item id is modelled per experience, so an id shared by two experiences is not; the
  profile's validation excludes it. The reported fill ratio is modelled only as the test against the target.
- PageData.ModelIs: entries are matched to their mission by position instead of by id, which the profile's validation
  makes unique; titles, dates and environments are left out.
- The text `splitOffers` joins for each offer, and the wording of its reasons.
- `defaultBullets`, `restrict`, `alternatives`, `mineLinks`, `mergeLinks`, `shortlist`, the router's `route` and `check`,
  and the sabotage scripts: smaller folds and filters that would add easier members.
- The router's other backends, statistics, and the web pages' display code.
