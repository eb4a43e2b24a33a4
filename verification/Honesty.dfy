/**
What a settled row owes to the model and what to the owner (cv/src/normalize.js): where the model's answer no longer
matters, when a full match is more than its reading, and how the owner's "no" is kept.
*/
module Honesty {
  import opened Collections
  import opened Rows
  import opened Lexicon
  import opened Hierarchy
  import Coverage
  import opened Settlement

  // ---------------------------------------------------------------- where the model's answer no longer matters

  /** The same row of an offer, as two answers of the model put it. */
  ghost predicate SameRow(a: Row, b: Row) {
    Fresh(a) && Fresh(b) && a.name == b.name && a.importance == b.importance && a.never == b.never
  }

  lemma SettledAlike(a: Row, b: Row, reader: Reader)
    requires NamedRow(a, reader) == NamedRow(b, reader)
    ensures SettledRow(a, reader) == SettledRow(b, reader)
  {
  }

  /** A row named like a usable skill: whatever the model answered, it settles alike. */
  lemma NamedRowIgnoresTheModel(a: Row, b: Row, reader: Reader)
    requires SameRow(a, b) && ByIdentity(reader, reader.order, reader.lower(a.name)).Some?
    ensures SettledRow(a, reader) == SettledRow(b, reader)
  {
    assert NamedStage(a, reader) == NamedStage(b, reader);
    SettledAlike(a, b, reader);
  }

  lemma NamedStageKeepsRest(row: Row, reader: Reader)
    ensures NamedStage(row, reader) == row.(match_ := NamedStage(row, reader).match_, skills := NamedStage(row, reader).skills)
  {
  }

  lemma NeverStageLevels(x: Row, y: Row, reader: Reader)
    requires y == x.(match_ := y.match_, skills := y.skills) && IsNever(x, reader)
    ensures NeverStage(x, reader) == NeverStage(y, reader)
  {
  }

  /** A row the profile never claims: likewise. */
  lemma NeverRowIgnoresTheModel(a: Row, b: Row, reader: Reader)
    requires SameRow(a, b) && IsNever(a, reader)
    ensures SettledRow(a, reader) == SettledRow(b, reader)
  {
    NamedStageKeepsRest(a, reader);
    NamedStageKeepsRest(b, reader);
    NeverStageLevels(NamedStage(a, reader), NamedStage(b, reader), reader);
    SettledAlike(a, b, reader);
  }

  /** A name asked of the profile's lines: a language, a certification or a degree. */
  predicate AskedOfLines(name: string, reader: Reader) {
    LinesAnswer(name, reader).Some?
  }

  /** The row the stages on its skills leave. */
  function Weighed(row: Row, reader: Reader): Row {
    SkillStage(NamedRow(row, reader), reader)
  }

  /** What the stages on kinds can tell two rows of one name apart by. */
  ghost predicate SameName(x: Row, y: Row) {
    && x.name == y.name && x.importance == y.importance && x.never == y.never == Unset && x.kind == y.kind == Skill
    && x.members == y.members && x.neverMembers == y.neverMembers
    && (x.match_ == No ==> !x.judged) && (y.match_ == No ==> !y.judged)
  }

  lemma ConditionWhenNo(x: Row, reader: Reader)
    requires x.never == Unset && x.kind == Skill && !NamesNever(x.name, reader) && ReadAsCondition(x.name, reader)
    ensures KindRow(x, reader).kind == Condition <==> x.match_ == No
  {
  }

  lemma LinesDecide(x: Row, y: Row, reader: Reader)
    requires SameName(x, y) && AskedOfLines(x.name, reader) && !NamesNever(x.name, reader)
    ensures KindRow(x, reader).kind != Skill
    ensures KindRow(x, reader) == KindRow(y, reader) <==> !ReadAsCondition(x.name, reader) || (x.match_ == No <==> y.match_ == No)
  {
    if ReadAsCondition(x.name, reader) && !(x.match_ == No <==> y.match_ == No) {
      ConditionWhenNo(x, reader);
      ConditionWhenNo(y, reader);
    } else {
      LinesAgree(x, y, reader);
    }
  }

  /** Rows that differ by match, skills and doubt alone. */
  ghost predicate SameButForMatch(x: Row, y: Row) {
    y == x.(match_ := y.match_, skills := y.skills, judged := y.judged)
  }

  lemma HumanStagesAgree(x: Row, y: Row, reader: Reader)
    requires SameName(x, y) && !NamesNever(x.name, reader)
    requires ReadAsCondition(x.name, reader) ==> (x.match_ == No <==> y.match_ == No)
    ensures var hx, hy := ConditionStage(QualityStage(x, reader), reader), ConditionStage(QualityStage(y, reader), reader);
      hx == hy || (SameButForMatch(hx, hy) && OpenToProfile(hx) && hx.kind == Skill && hx.name == x.name)
  {
  }

  lemma LineStagesAgree(hx: Row, hy: Row, reader: Reader)
    requires SameButForMatch(hx, hy) && OpenToProfile(hx) && hx.kind == Skill && AskedOfLines(hx.name, reader)
    ensures DegreeStage(CertificationStage(LanguageStage(hx, reader), reader), reader)
      == DegreeStage(CertificationStage(LanguageStage(hy, reader), reader), reader)
  {
  }

  lemma LinesAgree(x: Row, y: Row, reader: Reader)
    requires SameName(x, y) && AskedOfLines(x.name, reader) && !NamesNever(x.name, reader)
    requires ReadAsCondition(x.name, reader) ==> (x.match_ == No <==> y.match_ == No)
    ensures KindRow(x, reader) == KindRow(y, reader)
  {
    var hx, hy := ConditionStage(QualityStage(x, reader), reader), ConditionStage(QualityStage(y, reader), reader);
    HumanStagesAgree(x, y, reader);
    if hx != hy {
      LineStagesAgree(hx, hy, reader);
    }
  }

  lemma WeighedKeepsName(row: Row, reader: Reader)
    requires Fresh(row) && row.never == Unset && !NamesNever(row.name, reader)
    ensures var weighed := Weighed(row, reader);
      && weighed.name == row.name && weighed.importance == row.importance && weighed.never == Unset && weighed.kind == Skill
      && weighed.members == [] && weighed.neverMembers == [] && (weighed.match_ == No ==> !weighed.judged)
  {
    NamedRowKeepsName(row, reader);
  }

  /**
   A language, a certification or a degree is the profile's lines to answer, never the model's, but for one case: a
   name read as a condition. There the model is heard once, on whether its answer is a no.
   */
  lemma LinesIgnoreTheModel(a: Row, b: Row, reader: Reader)
    requires SameRow(a, b) && a.never == Unset && !NamesNever(a.name, reader) && AskedOfLines(a.name, reader)
    ensures SettledRow(a, reader).kind != Skill
    ensures SettledRow(a, reader) == SettledRow(b, reader)
      <==> !ReadAsCondition(a.name, reader) || (Weighed(a, reader).match_ == No <==> Weighed(b, reader).match_ == No)
  {
    WeighedKeepsName(a, reader);
    WeighedKeepsName(b, reader);
    LinesDecide(Weighed(a, reader), Weighed(b, reader), reader);
    LinesDecide(Weighed(b, reader), Weighed(a, reader), reader);
    LinesAreNotSkills(KindRow(Weighed(a, reader), reader), reader);
    LinesAreNotSkills(KindRow(Weighed(b, reader), reader), reader);
  }

  lemma NamedRowKeepsName(row: Row, reader: Reader)
    requires Fresh(row) && row.never == Unset && !NamesNever(row.name, reader)
    ensures var named := NamedRow(row, reader);
      Fresh(named) && named.name == row.name && named.importance == row.importance && named.never == Unset
  {
  }

  lemma LinesAreNotSkills(row: Row, reader: Reader)
    requires row.kind != Skill
    ensures ProfileStage(row, reader) == row
  {
  }

  // ---------------------------------------------------------------- a full match is more than a reading

  /** The skill stage left a yes standing: the words or the concept of the requirement hold it, not near skills alone. */
  ghost predicate Grounded(row: Row, reader: Reader) {
    var known, skills := KnownSkills(row, reader), SkillStage(row, reader).skills;
    && skills != []
    && (HeldByConcept(row, reader, known) || reader.grounded(reader.asked(row.name), skills))
    && (exists id :: id in skills && id !in RulingOn(row, reader).near)
  }

  lemma YesIsGrounded(row: Row, reader: Reader)
    requires SkillStage(row, reader).match_ == Yes
    ensures Grounded(row, reader)
  {
    var known, ruled := KnownSkills(row, reader), RulingOn(row, reader);
    var skills := WithAlike(row, reader, known);
    assert SkillStage(row, reader).skills == skills;
    assert !Every(skills, id => id in ruled.near);
  }

  /** The profile's own answer backs a yes: usable skills it practises, neither ruled out nor near. */
  ghost predicate AnsweredByProfile(row: Row, reader: Reader) {
    var found := ProfileAnswer(row, reader);
    found.Some? && Coverage.Earned(CoverageContext(reader), RulingOn(row, reader).(same := reader.ruledSame(reader.asked(row.name))), found.value)
  }

  lemma KindRowOfSkills(row: Row, reader: Reader)
    requires KindRow(row, reader).kind == Skill && row.kind == Skill
    ensures KindRow(row, reader) == row
  {
  }

  /**
   A row asked of skills that ends in a full match is never the model's reading alone, nor met through skills the
   owner ruled near alone: its words or its concept hold a skill, or the profile's own answer does.
   */
  lemma FullMatchIsBacked(row: Row, reader: Reader)
    requires Fresh(row) && SettledRow(row, reader).match_ == Yes && SettledRow(row, reader).kind == Skill
    ensures var named := NamedRow(row, reader);
      Grounded(named, reader) || AnsweredByProfile(SkillStage(named, reader), reader)
  {
    var named := NamedRow(row, reader);
    var picked := SkillStage(named, reader);
    KindRowOfSkills(picked, reader);
    if ProfileStage(picked, reader) == picked {
      YesIsGrounded(named, reader);
    } else {
      Coverage.AnswerIsEarned(CoverageContext(reader),
        RulingOn(picked, reader).(same := reader.ruledSame(reader.asked(picked.name))), reader.phrase(reader.asked(picked.name)));
    }
  }

  // ---------------------------------------------------------------- the owner's "no"

  /** A skill shares the named concept of a pick that was left: another name of the same thing. */
  ghost predicate AlikeAPick(row: Row, reader: Reader, id: string) {
    var placed, named, known := PlacedByName(reader), NamedConcepts(reader, row.name), KnownSkills(row, reader);
    MetByKnown(row, known) && exists p :: p in placed && p.skill == id && SharesAPickedConcept(p.owned, named, placed, known)
  }

  lemma AlikeIsAlike(row: Row, reader: Reader, id: string)
    requires id !in KnownSkills(row, reader)
    ensures id in WithAlike(row, reader, KnownSkills(row, reader)) <==> AlikeAPick(row, reader, id)
  {
  }

  lemma MetKeepsAlike(row: Row, reader: Reader)
    requires MetByKnown(row, KnownSkills(row, reader))
    ensures SkillStage(row, reader).skills == WithAlike(row, reader, KnownSkills(row, reader))
  {
  }

  lemma UnmetKeepsKnown(row: Row, reader: Reader)
    requires !MetByKnown(row, KnownSkills(row, reader))
    ensures forall id :: id in SkillStage(row, reader).skills ==> id in KnownSkills(row, reader)
  {
  }

  /**
   The owner's "no" takes a skill out of the row, but for one way back: when another pick stays and the ruled-out
   skill is placed on a named concept of that pick, it is added again as another name of the same thing.
   */
  lemma RuledOutComesBackAsAlike(row: Row, reader: Reader, id: string)
    requires Fresh(row) && row.never == Unset && id in reader.ruled(reader.asked(row.name)).no
    ensures id in SkillStage(row, reader).skills <==> AlikeAPick(row, reader, id)
  {
    assert id !in KnownSkills(row, reader);
    AlikeIsAlike(row, reader, id);
    if MetByKnown(row, KnownSkills(row, reader)) {
      MetKeepsAlike(row, reader);
    } else {
      UnmetKeepsKnown(row, reader);
    }
  }

  lemma KindRowHoldsSkillsOrNone(row: Row, reader: Reader)
    requires row.kind == Skill
    ensures KindRow(row, reader).kind != Skill ==> KindRow(row, reader).skills == []
  {
  }

  lemma ProfileStageUsesNoRuledOut(row: Row, reader: Reader, id: string)
    requires row.never == Unset && id in reader.ruled(reader.asked(row.name)).no
    ensures ProfileStage(row, reader) != row ==> id !in ProfileStage(row, reader).skills
  {
    Coverage.AnswerIsEarned(CoverageContext(reader),
      RulingOn(row, reader).(same := reader.ruledSame(reader.asked(row.name))), reader.phrase(reader.asked(row.name)));
  }

  /** No kind answers the row, and the profile's own answer takes nothing over. */
  ghost predicate StaysAsPicked(row: Row, reader: Reader) {
    var answered := KindRow(Weighed(row, reader), reader);
    answered.kind == Skill && ProfileStage(answered, reader) == answered
  }

  /**
   In the settled row only then, and exactly when the row is still asked of skills and the profile's own answer, which
   never uses a ruled-out skill, takes nothing over.
   */
  lemma RuledOutOnlyAsAlike(row: Row, reader: Reader, id: string)
    requires Fresh(row) && NamedRow(row, reader).never == Unset && id in reader.ruled(reader.asked(row.name)).no
    ensures id in SettledRow(row, reader).skills <==> AlikeAPick(NamedRow(row, reader), reader, id) && StaysAsPicked(row, reader)
  {
    var picked := Weighed(row, reader);
    var answered := KindRow(picked, reader);
    RuledOutComesBackAsAlike(NamedRow(row, reader), reader, id);
    if answered.kind == Skill {
      KindRowOfSkills(picked, reader);
      ProfileStageUsesNoRuledOut(picked, reader, id);
    } else {
      KindRowHoldsSkillsOrNone(picked, reader);
      LinesAreNotSkills(answered, reader);
    }
  }

  /** A requirement "shell" the profile meets through ksh, expert, that the owner ruled bash out of. */
  const SHELL := Row("shell", Must, Yes, ["ksh", "bash"], Skill, Unset, false, [], [])

  const OWNER := Reader(
    ["ksh", "bash"], map["ksh" := Coverage.Known(Expert, []), "bash" := Coverage.Known(Expert, [])], {},
    id => [id], id => ["shell"], id => ["shell"], Index(map[["shell"] := ["shell"]], map[]), [],
    Coverage.Vocabulary({}, {}, word => word), name => name, name => name, name => [name], name => name,
    name => Coverage.Phrase(["shell"], [], []), name => Coverage.Ruling([], [], ["bash"]), name => [], [],
    (name, skills) => true, name => false, name => false, name => true, name => None, name => None, name => None)

  lemma ShellIsNamed()
    ensures "shell" in NamedConcepts(OWNER, "shell")
  {
    var index, words := OWNER.index, ["shell"];
    assert Tiling(index, words) == Cuts(index, words, 1, 0, Unused(1));
    assert words[0..1] == ["shell"];
    assert Names(index, words, Cut(0, 1)) && Free(Unused(1), Cut(0, 1));
    assert Cuts(index, words, 1, 0, Unused(1)) == [Cut(0, 1)] + Cuts(index, words, 1, 1, Marked(Unused(1), Cut(0, 1)));
    assert Cuts(index, words, 1, 1, Marked(Unused(1), Cut(0, 1))) == Cuts(index, words, 0, 0, Marked(Unused(1), Cut(0, 1))) == [];
    assert Lookup(index, words, [Cut(0, 1)]) == ["shell"] + Lookup(index, words, []);
  }

  lemma OwnerNamesNeither()
    ensures NamedRow(SHELL, OWNER) == SHELL
  {
    assert ByIdentity(OWNER, OWNER.order, "shell").None? by {
      assert OWNER.order[1..] == ["bash"] && OWNER.order[1..][1..] == [];
      assert "shell" != "ksh" && "shell" != "bash" by {
        assert |"shell"| == 5 && |"ksh"| == 3 && |"bash"| == 4;
      }
    }
    assert OWNER.parts("shell") == ["shell"];
  }

  lemma BashIsAlikeKsh()
    ensures AlikeAPick(SHELL, OWNER, "bash")
  {
    ShellIsNamed();
    var placed := PlacedByName(OWNER);
    assert OWNER.order[1..] == ["bash"];
    assert placed == [Placing("ksh", ["shell"])] + Placements(["bash"], {}, OWNER.concepts);
    assert Placing("ksh", ["shell"]) in placed && Placing("bash", ["shell"]) in placed;
    assert "ksh" != "bash" by {
      assert |"ksh"| == 3 && |"bash"| == 4;
    }
    assert "ksh" in KnownSkills(SHELL, OWNER);
    assert SharesAPickedConcept(["shell"], NamedConcepts(OWNER, "shell"), placed, KnownSkills(SHELL, OWNER));
  }

  lemma RankIsAtMostFour(match_: Match, skills: seq<string>, judged: bool, reader: Reader)
    ensures var rank := Rank(match_, skills, judged, reader);
      rank.Some? ==> rank.value <= 4
  {
  }

  /** A full match through skills the candidate practises stands: no answer of the profile ranks above it. */
  lemma FullMatchStands(row: Row, reader: Reader)
    requires row.match_ == Yes && !row.judged && !Weak(Yes, row.skills, reader)
    ensures ProfileStage(row, reader) == row
  {
    var found := ProfileAnswer(row, reader);
    assert Rank(row.match_, row.skills, row.judged, reader) == Some(4);
    if found.Some? {
      RankIsAtMostFour(found.value.match_, found.value.skills, found.value.judged, reader);
    }
  }

  lemma ShellStaysYes()
    ensures var picked := SkillStage(SHELL, OWNER);
      picked.match_ == Yes && !picked.judged && picked.kind == Skill && picked.never == Unset && picked.name == "shell"
  {
    assert "ksh" in KnownSkills(SHELL, OWNER) by {
      assert "ksh" != "bash" by {
        assert |"ksh"| == 3 && |"bash"| == 4;
      }
    }
  }

  lemma BashIsPicked()
    ensures var picked := SkillStage(SHELL, OWNER);
      "bash" in picked.skills && !Weak(Yes, picked.skills, OWNER)
  {
    BashIsAlikeKsh();
    RuledOutComesBackAsAlike(SHELL, OWNER, "bash");
    assert OWNER.skills["bash"].level == Expert;
  }

  /** The owner ruled bash out; the model picked ksh and bash; the settled row is met through both. */
  lemma RuledOutBashIsBack()
    ensures "bash" in OWNER.ruled(OWNER.asked(SHELL.name)).no
    ensures "bash" in SettledRow(SHELL, OWNER).skills
  {
    OwnerNamesNeither();
    ShellStaysYes();
    BashIsPicked();
    var picked := SkillStage(SHELL, OWNER);
    assert KindRow(picked, OWNER) == picked;
    FullMatchStands(picked, OWNER);
  }

  // ---------------------------------------------------------------- concrete cases

  /** "shell", had the profile a valid certification of that name and the offer the words of a condition. */
  const CLEARED := OWNER.(
    conditionWords := name => true, backed := name => false, certificationOf := name => Some(Certificate(true, false)))

  const READ_AS_NO := SHELL.(match_ := No, skills := [])

  lemma ClearedNamesNeither(row: Row)
    requires row.name == "shell" && row.never == Unset
    ensures NamedRow(row, CLEARED) == row
  {
    assert ByIdentity(CLEARED, CLEARED.order, "shell").None? by {
      assert CLEARED.order[1..] == ["bash"] && CLEARED.order[1..][1..] == [];
      assert "shell" != "ksh" && "shell" != "bash" by {
        assert |"shell"| == 5 && |"ksh"| == 3 && |"bash"| == 4;
      }
    }
    assert CLEARED.parts("shell") == ["shell"];
  }

  lemma NoIsACondition(row: Row)
    requires row.name == "shell" && row.never == Unset && row.kind == Skill && row.match_ == No
    ensures KindRow(row, CLEARED).kind == Condition && KindRow(row, CLEARED).match_ == No
  {
  }

  lemma YesIsACertification(row: Row)
    requires row.name == "shell" && row.never == Unset && row.kind == Skill && row.match_ != No
    ensures KindRow(row, CLEARED).kind == Certification && KindRow(row, CLEARED).match_ == Yes
  {
  }

  lemma ShellWeighed()
    ensures Weighed(READ_AS_NO, CLEARED).match_ == No && Weighed(SHELL, CLEARED).match_ != No
  {
    ClearedNamesNeither(READ_AS_NO);
    ClearedNamesNeither(SHELL);
    assert "ksh" in KnownSkills(SHELL, CLEARED) by {
      assert "ksh" != "bash" by {
        assert |"ksh"| == 3 && |"bash"| == 4;
      }
    }
  }

  lemma ReadingsAreOfOneRow()
    ensures SameRow(READ_AS_NO, SHELL) && AskedOfLines("shell", CLEARED) && !NamesNever("shell", CLEARED)
  {
  }

  /**
   One name, a condition and a certification, that no skill backs: the model's no is a condition to confirm, its yes a
   certification held.
   */
  lemma ConditionHearsTheModel()
    ensures SameRow(READ_AS_NO, SHELL) && AskedOfLines("shell", CLEARED) && !NamesNever("shell", CLEARED)
    ensures SettledRow(READ_AS_NO, CLEARED).kind == Condition && SettledRow(READ_AS_NO, CLEARED).match_ == No
    ensures SettledRow(SHELL, CLEARED).kind == Certification && SettledRow(SHELL, CLEARED).match_ == Yes
  {
    ReadingsAreOfOneRow();
    ShellWeighed();
    WeighedAsShell(READ_AS_NO);
    WeighedAsShell(SHELL);
    NoIsACondition(Weighed(READ_AS_NO, CLEARED));
    YesIsACertification(Weighed(SHELL, CLEARED));
    LinesAreNotSkills(KindRow(Weighed(READ_AS_NO, CLEARED), CLEARED), CLEARED);
    LinesAreNotSkills(KindRow(Weighed(SHELL, CLEARED), CLEARED), CLEARED);
  }

  lemma WeighedAsShell(row: Row)
    requires Fresh(row) && row.name == "shell" && row.never == Unset
    ensures Weighed(row, CLEARED).name == "shell" && Weighed(row, CLEARED).never == Unset && Weighed(row, CLEARED).kind == Skill
  {
    ReadingsAreOfOneRow();
    WeighedKeepsName(row, CLEARED);
  }

  /** A `never` the model wrote as a text: the settled row keeps it, although the profile never says so. */
  lemma TruthyNeverSurvives()
    ensures SettledRow(SHELL.(never := Truthy), OWNER).never == Truthy && !IsNever(SHELL.(never := Truthy), OWNER)
  {
    assert !NamesNever("shell", OWNER);
    NeverAfterSettling(SHELL.(never := Truthy), OWNER);
  }
}
