/**
The owner's answers about his skills (cv/src/answers.js): each acceptable "yes" becomes a skill of the profile, and
an answer joins the file only when the profile takes it without a word.
*/
module Answers {
  import opened Collections
  import Rows

  /** How text is read: a string without its outer blanks, and in lower case. */
  datatype Reading = Reading(trim: string -> string, lower: string -> string)

  datatype Says = Yes | No | Other

  /** An answer as it was given; `level` is nothing when it is none of the levels. */
  datatype Answer = Answer(id: string, says: Says, name: string, level: Option<Rows.Level>, group: string, said: string)

  /** A skill, with the lower-cased names it goes by. */
  datatype Skill = Skill(id: string, names: seq<string>, group: string, level: Rows.Level, quote: string)

  datatype Refusal = NoName | NoLevel | NoSentence | UnknownGroup | AlreadySaid | Contradicted

  datatype Trouble = AnsweredTwice(id: string) | NeitherYesNorNo(id: string) | Refused(id: string, why: Refusal)

  /** What a merge holds fixed: how text is read, the profile's groups, the names the evidence blocks. */
  datatype Ground = Ground(reading: Reading, groups: set<string>, blocked: set<string>)

  /** A merge in progress. */
  datatype Merge = Merge(skills: seq<Skill>, seen: set<string>, errors: seq<Trouble>, added: seq<string>)

  // ---------------------------------------------------------------- one answer

  function LowerName(g: Ground, a: Answer): string {
    g.reading.lower(g.reading.trim(a.name))
  }

  predicate Named(skills: seq<Skill>, name: string) {
    exists k :: 0 <= k < |skills| && name in skills[k].names
  }

  function If(condition: bool, why: Refusal): seq<Refusal> {
    if condition then [why] else []
  }

  /** Why a "yes" is refused, in the order the reasons are given. */
  function Refusals(g: Ground, skills: seq<Skill>, a: Answer): seq<Refusal> {
    If(g.reading.trim(a.name) == "", NoName) + If(a.level.None?, NoLevel) + If(g.reading.trim(a.said) == "", NoSentence)
      + If(a.group !in g.groups, UnknownGroup) + If(Named(skills, LowerName(g, a)), AlreadySaid)
      + If(LowerName(g, a) in g.blocked, Contradicted)
  }

  function Troubles(id: string, why: seq<Refusal>): (r: seq<Trouble>)
    ensures |r| == |why|
  {
    if why == [] then [] else [Refused(id, why[0])] + Troubles(id, why[1..])
  }

  /** A "yes" the profile takes: every reason to refuse it is absent. */
  predicate Acceptable(g: Ground, skills: seq<Skill>, a: Answer) {
    && g.reading.trim(a.name) != "" && a.level.Some? && g.reading.trim(a.said) != ""
    && a.group in g.groups && !Named(skills, LowerName(g, a)) && LowerName(g, a) !in g.blocked
  }

  lemma RefusedUnlessAcceptable(g: Ground, skills: seq<Skill>, a: Answer)
    ensures Refusals(g, skills, a) == [] <==> Acceptable(g, skills, a)
  {
  }

  function AsSkill(g: Ground, a: Answer): Skill
    requires a.level.Some?
  {
    Skill("answer-" + a.id, [LowerName(g, a)], a.group, a.level.value, g.reading.trim(a.said))
  }

  /** One turn of the loop of `mergeAnswers`. */
  function Take(g: Ground, m: Merge, a: Answer): Merge {
    if a.id in m.seen then m.(errors := m.errors + [AnsweredTwice(a.id)])
    else
      var seen := m.(seen := m.seen + {a.id});
      match a.says
      case No => seen
      case Other => seen.(errors := m.errors + [NeitherYesNorNo(a.id)])
      case Yes =>
        RefusedUnlessAcceptable(g, m.skills, a);
        var why := Refusals(g, m.skills, a);
        if why != [] then seen.(errors := m.errors + Troubles(a.id, why))
        else seen.(skills := m.skills + [AsSkill(g, a)], added := m.added + ["answer-" + a.id])
  }

  function TakeAll(g: Ground, m: Merge, answers: seq<Answer>): Merge {
    if answers == [] then m else Take(g, TakeAll(g, m, answers[..|answers| - 1]), answers[|answers| - 1])
  }

  function Start(skills: seq<Skill>): Merge {
    Merge(skills, {}, [], [])
  }

  /** `mergeAnswers`. */
  method MergeAnswers(g: Ground, skills: seq<Skill>, answers: seq<Answer>) returns (m: Merge)
    ensures m == TakeAll(g, Start(skills), answers)
  {
    m := Start(skills);
    var i := 0;
    while i < |answers|
      invariant 0 <= i <= |answers| && m == TakeAll(g, Start(skills), answers[..i])
    {
      TakeOneMore(g, Start(skills), answers, i);
      m := Take(g, m, answers[i]);
      i := i + 1;
    }
    PrefixAll(answers);
  }

  lemma TakeOneMore(g: Ground, m: Merge, answers: seq<Answer>, i: nat)
    requires i < |answers|
    ensures TakeAll(g, m, answers[..i + 1]) == Take(g, TakeAll(g, m, answers[..i]), answers[i])
  {
    assert answers[..i + 1][..i] == answers[..i];
  }

  // ---------------------------------------------------------------- a list extended by an answer

  function Ids(answers: seq<Answer>): set<string> {
    set a | a in answers :: a.id
  }

  lemma {:induction false} SeenAreTheIds(g: Ground, skills: seq<Skill>, answers: seq<Answer>)
    ensures TakeAll(g, Start(skills), answers).seen == Ids(answers)
  {
    if answers != [] {
      var n := |answers| - 1;
      SeenAreTheIds(g, skills, answers[..n]);
      assert answers == answers[..n] + [answers[n]];
      assert Ids(answers) == Ids(answers[..n]) + {answers[n].id};
    }
  }

  /** An answer not seen yet is taken as if it were the first. */
  lemma TakenAsFirst(g: Ground, m: Merge, a: Answer)
    requires a.id !in m.seen
    ensures Take(g, m, a).skills == Take(g, Start(m.skills), a).skills
    ensures Take(g, m, a).errors == m.errors + Take(g, Start(m.skills), a).errors
    ensures Take(g, m, a).added == m.added + Take(g, Start(m.skills), a).added
  {
  }

  lemma TakeLast(g: Ground, m: Merge, answers: seq<Answer>, a: Answer)
    ensures TakeAll(g, m, answers + [a]) == Take(g, TakeAll(g, m, answers), a)
  {
    assert (answers + [a])[..|answers|] == answers;
  }

  /**
   One more answer, with an id of its own: merging the longer list is merging that answer alone into the profile the
   others made, its refusals and its skill included. So an answer judged alone over today's profile is judged as the
   whole file will be.
   */
  lemma MergeOneMore(g: Ground, skills: seq<Skill>, answers: seq<Answer>, a: Answer)
    requires a.id !in Ids(answers)
    ensures var before, longer := TakeAll(g, Start(skills), answers), TakeAll(g, Start(skills), answers + [a]);
      var alone := TakeAll(g, Start(before.skills), [a]);
      && longer.skills == alone.skills
      && longer.errors == before.errors + alone.errors
      && longer.added == before.added + alone.added
  {
    var before := TakeAll(g, Start(skills), answers);
    SeenAreTheIds(g, skills, answers);
    TakeLast(g, Start(skills), answers, a);
    TakeLast(g, Start(before.skills), [], a);
    assert [] + [a] == [a];
    TakenAsFirst(g, before, a);
  }

  // ---------------------------------------------------------------- what the profile gains

  /** Each skill from `from` on goes by one name, that none before it has and the evidence does not block. */
  ghost predicate NewNames(g: Ground, skills: seq<Skill>, from: nat) {
    forall k :: from <= k < |skills| ==> NewName(g, skills, k)
  }

  ghost predicate NewName(g: Ground, skills: seq<Skill>, k: nat)
    requires k < |skills|
  {
    && |skills[k].names| == 1
    && !Named(skills[..k], skills[k].names[0])
    && skills[k].names[0] !in g.blocked
    && skills[k].group in g.groups
  }

  lemma TakeKeepsNames(g: Ground, m: Merge, a: Answer, from: nat)
    requires from <= |m.skills| && NewNames(g, m.skills, from)
    ensures NewNames(g, Take(g, m, a).skills, from) && m.skills <= Take(g, m, a).skills
  {
    var after := Take(g, m, a).skills;
    RefusedUnlessAcceptable(g, m.skills, a);
    if after != m.skills {
      assert after[..|m.skills|] == m.skills;
      forall k | from <= k < |after|
        ensures NewName(g, after, k)
      {
        if k < |m.skills| {
          assert NewName(g, m.skills, k) && after[..k] == m.skills[..k];
        }
      }
    }
  }

  /** Whatever is answered, no added skill shares a name with another skill, nor bears a blocked one; the profile's own stay. */
  lemma {:induction false} MergedNamesAreNew(g: Ground, skills: seq<Skill>, answers: seq<Answer>)
    ensures var merged := TakeAll(g, Start(skills), answers).skills;
      skills <= merged && NewNames(g, merged, |skills|)
  {
    if answers != [] {
      var n := |answers| - 1;
      MergedNamesAreNew(g, skills, answers[..n]);
      TakeKeepsNames(g, TakeAll(g, Start(skills), answers[..n]), answers[n], |skills|);
    }
  }

  /** Two skills of a merged profile never answer to one name when either was added. */
  lemma AddedNamesAreAlone(g: Ground, skills: seq<Skill>, answers: seq<Answer>, j: nat, k: nat, name: string)
    requires var merged := TakeAll(g, Start(skills), answers).skills;
      j < k < |merged| && |skills| <= k && name in merged[j].names
    ensures name !in TakeAll(g, Start(skills), answers).skills[k].names
  {
    var merged := TakeAll(g, Start(skills), answers).skills;
    MergedNamesAreNew(g, skills, answers);
    assert NewName(g, merged, k);
    assert merged[..k][j] == merged[j];
  }

  // ---------------------------------------------------------------- the file

  ghost predicate Mergeable(g: Ground, skills: seq<Skill>, answers: seq<Answer>) {
    TakeAll(g, Start(skills), answers).errors == []
  }

  ghost predicate UniqueIds(answers: seq<Answer>) {
    forall j, k :: 0 <= j < k < |answers| ==> answers[j].id != answers[k].id
  }

  /** What is kept of an answer: its id without blanks, and the fields of its kind. */
  function Stored(g: Ground, a: Answer): Answer {
    var id := g.reading.trim(a.id);
    if a.says == Yes then a.(id := id) else Answer(id, a.says, "", None, "", "")
  }

  /** What is not kept was not read: an answer is taken as it is stored. */
  lemma StoredIsTakenAlike(g: Ground, m: Merge, a: Answer)
    ensures Take(g, m, Stored(g, a)) == Take(g, m, a.(id := g.reading.trim(a.id)))
    ensures Stored(g, a).says == a.says && Stored(g, a).id == g.reading.trim(a.id)
  {
  }

  /** A yes that is taken adds its skill: under its name, at its level, in its group, with its sentence. */
  lemma TakenYesIsASkill(g: Ground, m: Merge, a: Answer)
    requires a.says == Yes && a.id !in m.seen && Acceptable(g, m.skills, a)
    ensures var name := g.reading.lower(g.reading.trim(a.name));
      Take(g, m, a).skills == m.skills + [Skill("answer-" + a.id, [name], a.group, a.level.value, g.reading.trim(a.said))]
    ensures Take(g, m, a).errors == m.errors
  {
    RefusedUnlessAcceptable(g, m.skills, a);
  }

  /** An answer the file takes. */
  predicate Joins(g: Ground, merged: seq<Skill>, answers: seq<Answer>, a: Answer) {
    && g.reading.trim(a.id) != "" && g.reading.trim(a.id) !in Ids(answers)
    && (a.says == No || (a.says == Yes && Acceptable(g, merged, Stored(g, a))))
  }

  lemma AloneWithoutErrors(g: Ground, merged: seq<Skill>, a: Answer)
    ensures TakeAll(g, Start(merged), [a]).errors == [] <==> a.says == No || (a.says == Yes && Acceptable(g, merged, a))
  {
    TakeLast(g, Start(merged), [], a);
    assert [] + [a] == [a];
    RefusedUnlessAcceptable(g, merged, a);
  }

  lemma AnsweredOnce(g: Ground, m: Merge, a: Answer)
    requires Take(g, m, a).errors == []
    ensures a.id !in m.seen && m.errors == []
  {
  }

  /** A mergeable file has unique ids: answering twice is an error. */
  lemma {:induction false} MergeableIdsAreUnique(g: Ground, skills: seq<Skill>, answers: seq<Answer>)
    requires Mergeable(g, skills, answers)
    ensures UniqueIds(answers)
  {
    if answers != [] {
      var n := |answers| - 1;
      SeenAreTheIds(g, skills, answers[..n]);
      MergeableIdsAreUnique(g, skills, answers[..n]);
      AnsweredOnce(g, TakeAll(g, Start(skills), answers[..n]), answers[n]);
      assert forall k :: 0 <= k < n ==> answers[..n][k] == answers[k] && answers[k] in answers[..n];
    }
  }

  class AnswersFile {
    const ground: Ground
    const skills: seq<Skill>
    var answers: seq<Answer>

    ghost predicate Valid()
      reads this
    {
      Mergeable(ground, skills, answers)
    }

    constructor (ground: Ground, skills: seq<Skill>, answers: seq<Answer>)
      requires Mergeable(ground, skills, answers)
      ensures Valid() && this.ground == ground && this.skills == skills && this.answers == answers
    {
      this.ground, this.skills, this.answers := ground, skills, answers;
    }

    /**
     `addAnswer`, over the profile its earlier answers made: the file takes exactly the answers that join, and the
     whole of it stays mergeable without error.
     */
    method AddAnswer(a: Answer) returns (taken: bool)
      requires Valid()
      modifies this
      ensures Valid()
      ensures taken == Joins(ground, TakeAll(ground, Start(skills), old(answers)).skills, old(answers), a)
      ensures answers == if taken then old(answers) + [Stored(ground, a)] else old(answers)
    {
      var stored := Stored(ground, a);
      if stored.id == "" || stored.id in Ids(answers) {
        return false;
      }
      var merged := MergeAnswers(ground, skills, answers);
      var alone := MergeAnswers(ground, merged.skills, [stored]);
      AloneWithoutErrors(ground, merged.skills, stored);
      if alone.errors != [] {
        return false;
      }
      MergeOneMore(ground, skills, answers, stored);
      answers := answers + [stored];
      return true;
    }
  }
}
