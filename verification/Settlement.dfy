/**
The stages every requirement row goes through (the loop of `normalize`, cv/src/normalize.js): the profile's
own names, what is never claimed, the owner's rulings, a personal quality, an administrative condition, a
language, a certification, a degree, then the profile's own answer.
*/
module Settlement {
  import opened Collections
  import opened Rows
  import opened Lexicon
  import opened Hierarchy
  import opened Coverage

  /** What the profile's certification lines say of a certification asked for. */
  datatype Certificate = Certificate(stated: bool, expired: bool)

  /** A never-claimed entry: its name, and the names that mention it or one of its aliases. */
  datatype NeverEntry = NeverEntry(name: string, mentionedIn: string -> bool)

  /**
   What settling reads. Regular expressions, word lists and stemming are arbitrary functions of a name;
   the profile's skills, names, placements and evidence are data.
   */
  datatype Reader = Reader(
    order: seq<string>,                     // the profile's skill ids, in order
    skills: map<string, Known>,             // and the skills
    out: set<string>,                       // those the evidence blocks
    names: string -> seq<string>,           // a skill's names and aliases, lower-cased
    concepts: string -> seq<string>,        // the concepts a skill is placed on by its names (and "same" rulings)
    broadly: string -> seq<string>,         // the same, terms included
    index: Index,
    bullets: seq<Bullet>,
    vocabulary: Vocabulary,
    lower: string -> string,                // a name trimmed and lower-cased
    fold: string -> string,                 // a name lower-cased
    parts: string -> seq<string>,           // a name's parts before any parenthesis
    asked: string -> string,                // what a migration asks for is its target
    phrase: string -> Phrase,
    ruled: string -> Ruling,                // the owner's rulings on the words of a name
    ruledSame: string -> seq<string>,       // the "same" rulings that place no concept
    never: seq<NeverEntry>,                 // what the candidate never claims
    grounded: (string, seq<string>) -> bool,
    qualityWords: string -> bool,           // a quality word, no product and no technology
    conditionWords: string -> bool,
    backed: string -> bool,                 // a profile skill is mentioned
    languageOf: string -> Option<Match>,
    certificationOf: string -> Option<Certificate>,
    degreeOf: string -> Option<bool>)

  /** The skills that may be used: known, and not blocked by the evidence. */
  ghost function Usable(reader: Reader): set<string> {
    set id | id in reader.skills && id !in reader.out
  }

  /** The profile is a list of skills: each id listed is a skill's. */
  ghost predicate Listed(reader: Reader) {
    && (forall id :: id in reader.order ==> id in reader.skills)
    && (forall name :: reader.languageOf(name).Some? ==> reader.languageOf(name).value != Unread)
  }

  // ---------------------------------------------------------------- what is computed once a profile

  /** `byIdentity`: the first usable skill that bears a name. */
  function ByIdentity(reader: Reader, ids: seq<string>, name: string): (r: Option<string>)
    ensures r.Some? ==> r.value in ids && r.value !in reader.out && name in reader.names(r.value)
  {
    if ids == [] then
      None
    else if ids[0] !in reader.out && name in reader.names(ids[0]) then
      Some(ids[0])
    else
      ByIdentity(reader, ids[1..], name)
  }

  /** The skills a name's parts name, when every part names one. */
  function PartSkills(reader: Reader, parts: seq<string>): (r: Option<seq<string>>)
    ensures r.Some? ==> forall id :: id in r.value ==> id in reader.order && id !in reader.out
  {
    if parts == [] then Some([])
    else
      var first := ByIdentity(reader, reader.order, parts[0]);
      var rest := PartSkills(reader, parts[1..]);
      if first.Some? && rest.Some? then Some([first.value] + rest.value) else None
  }

  function PartsNamed(reader: Reader, name: string): (r: Option<seq<string>>)
    ensures r.Some? ==> forall id :: id in r.value ==> id in reader.order && id !in reader.out
  {
    var ids := PartSkills(reader, reader.parts(name));
    if reader.parts(name) != [] && ids.Some? then Some(Unique(ids.value)) else None
  }

  /** `skillConcepts`: the usable skills some concept places. */
  function Placements(ids: seq<string>, out: set<string>, concepts: string -> seq<string>): (r: seq<Placing>)
    ensures forall p :: p in r ==> p.skill in ids && p.skill !in out
  {
    if ids == [] then []
    else
      var rest := Placements(ids[1..], out, concepts);
      if ids[0] !in out && concepts(ids[0]) != [] then [Placing(ids[0], concepts(ids[0]))] + rest else rest
  }

  function PlacedByName(reader: Reader): seq<Placing> {
    Placements(reader.order, reader.out, reader.concepts)
  }

  /** `lookup`: the concepts a phrase names. */
  function Lookup(index: Index, words: Words, cuts: seq<Cut>): seq<string> {
    if cuts == [] then []
    else
      var c := cuts[0];
      (if Names(index, words, c) then index.byKey[words[c.start..c.start + c.size]] else []) + Lookup(index, words, cuts[1..])
  }

  function NamedConcepts(reader: Reader, name: string): seq<string> {
    var words := reader.phrase(reader.asked(name)).words;
    Lookup(reader.index, words, Tiling(reader.index, words))
  }

  // ---------------------------------------------------------------- the stages, as functions of a row

  predicate NamesNever(name: string, reader: Reader) {
    Any(reader.never, (entry: NeverEntry) => entry.mentionedIn(name))
  }

  /** `isNever` on a row that is no merge. */
  predicate IsNever(row: Row, reader: Reader) {
    row.never == Claimed || NamesNever(row.name, reader)
  }

  predicate Unbacked(row: Row, reader: Reader) {
    !IsNever(row, reader) && !reader.backed(row.name)
  }

  /** The profile's own name, or every part's, settles the row. */
  function NamedStage(row: Row, reader: Reader): Row {
    var named := ByIdentity(reader, reader.order, reader.lower(row.name));
    if named.Some? then
      row.(match_ := Yes, skills := [named.value])
    else
      var parts := PartsNamed(reader, row.name);
      if parts.Some? && (row.match_ != Yes || Joined(row.skills, ",") != Joined(parts.value, ",")) then
        row.(match_ := Yes, skills := parts.value)
      else row
  }

  function NeverStage(row: Row, reader: Reader): Row {
    if IsNever(row, reader) then row.(match_ := No, skills := [], never := Claimed) else row
  }

  function RulingOn(row: Row, reader: Reader): Ruling {
    if row.never != Unset then Ruling([], [], []) else reader.ruled(reader.asked(row.name))
  }

  /** The known skills left once the owner's "no" rulings are taken out. */
  function KnownSkills(row: Row, reader: Reader): (r: seq<string>)
    ensures forall id :: id in r ==> id in row.skills && id in reader.skills
  {
    var ruled := RulingOn(row, reader);
    Keep(row.skills, id => id in reader.skills && id !in ruled.no)
  }

  predicate MetByKnown(row: Row, known: seq<string>) {
    Met(row.match_) && known != [] && row.never == Unset
  }

  /** Other names of the concept a pick holds meet the row too. */
  function WithAlike(row: Row, reader: Reader, known: seq<string>): (r: seq<string>)
    ensures forall id :: id in r ==> id in known || (id in reader.order && id !in reader.out)
    ensures known != [] ==> r != []
  {
    if !MetByKnown(row, known) then known
    else
      var placed := PlacedByName(reader);
      known + Keep(Alike(NamedConcepts(reader, row.name), placed, known, placed), id => id !in known)
  }

  /** Whether a pick is held by the requirement's own concept, or grounded by a "same" ruling. */
  predicate HeldByConcept(row: Row, reader: Reader, known: seq<string>) {
    MetByKnown(row, known)
    && Any(Holders(reader.index, NamedConcepts(reader, row.name), PlacedByName(reader)) + RulingOn(row, reader).same, id => id in known)
  }

  /** The picks kept, and the match they support. */
  function SkillStage(row: Row, reader: Reader): Row {
    var ruled := RulingOn(row, reader);
    var known := KnownSkills(row, reader);
    var skills := WithAlike(row, reader, known);
    var reading := Met(row.match_) && skills != [] && !HeldByConcept(row, reader, known) && !reader.grounded(reader.asked(row.name), skills);
    var m1 := if reading then Adjacent else row.match_;
    var m2 := if m1 == Yes && skills != [] && Every(skills, id => id in ruled.near) then Adjacent else m1;
    var m3 := if Met(m2) && skills == [] then No else m2;
    row.(skills := if m3 == No then [] else skills, match_ := m3, judged := row.judged || reading)
  }

  function QualityStage(row: Row, reader: Reader): Row {
    if reader.qualityWords(row.name) && Unbacked(row, reader) then row.(kind := Quality, match_ := Yes, judged := false, skills := [])
    else row
  }

  function ConditionStage(row: Row, reader: Reader): Row {
    if row.kind != Quality && row.match_ == No && reader.conditionWords(row.name) && Unbacked(row, reader)
    then row.(kind := Condition, skills := [])
    else row
  }

  predicate OpenToProfile(row: Row) {
    row.never == Unset && row.kind != Quality && row.kind != Condition
  }

  function LanguageStage(row: Row, reader: Reader): Row {
    var spoken := if OpenToProfile(row) then reader.languageOf(row.name) else None;
    if spoken.Some? then row.(kind := Language, match_ := spoken.value, skills := [], judged := false) else row
  }

  function CertificationStage(row: Row, reader: Reader): Row {
    var certified := if OpenToProfile(row) && row.kind != Language then reader.certificationOf(row.name) else None;
    if certified.Some? then
      row.(kind := Certification, skills := [], judged := false,
        match_ := if !certified.value.stated then No else if certified.value.expired then Adjacent else Yes)
    else row
  }

  function DegreeStage(row: Row, reader: Reader): Row {
    var degree := if OpenToProfile(row) && row.kind != Language && row.kind != Certification then reader.degreeOf(row.name) else None;
    if degree.Some? then row.(kind := Degree, skills := [], judged := false, match_ := if degree.value then Yes else No) else row
  }

  /** A yes through lab or notions skills only. */
  predicate Weak(match_: Match, skills: seq<string>, reader: Reader) {
    match_ == Yes && skills != [] && Every(skills, id => !(id in reader.skills && Practised(reader.skills[id].level)))
  }

  /** Twice the strictness, one less when the match is to verify or weak; nothing for an unread match. */
  function Rank(match_: Match, skills: seq<string>, judged: bool, reader: Reader): Option<int> {
    match Strictness(match_)
    case None => None
    case Some(s) => Some(2 * s - if judged || Weak(match_, skills, reader) then 1 else 0)
  }

  predicate Outranks(found: Found, row: Row, reader: Reader) {
    var a, b := Rank(found.match_, found.skills, found.judged, reader), Rank(row.match_, row.skills, row.judged, reader);
    a.Some? && b.Some? && a.value > b.value
  }

  function CoverageContext(reader: Reader): Coverage.Context {
    Coverage.Context(reader.index, Placements(reader.order, reader.out, reader.broadly), PlacedByName(reader), reader.order,
      reader.skills, (set id | id in reader.skills && id !in reader.out), reader.bullets, reader.vocabulary)
  }

  function ProfileAnswer(row: Row, reader: Reader): Option<Found> {
    var target := reader.asked(row.name);
    Answer(CoverageContext(reader), RulingOn(row, reader).(same := reader.ruledSame(target)), reader.phrase(target))
  }

  /** The row with an answer taken when it ranks higher: it only raises a verdict. */
  function Raised(row: Row, found: Option<Found>, reader: Reader): Row {
    if found.Some? && Outranks(found.value, row, reader)
    then row.(match_ := found.value.match_, skills := found.value.skills, judged := found.value.judged)
    else row
  }

  function ProfileStage(row: Row, reader: Reader): Row {
    if row.never != Unset || row.kind != Skill then row else Raised(row, ProfileAnswer(row, reader), reader)
  }

  /** The profile's names, then what is never claimed. */
  function NamedRow(row: Row, reader: Reader): Row {
    NeverStage(NamedStage(row, reader), reader)
  }

  /** What is answered by no skill: a quality, a condition, a language, a certification or a degree. */
  function KindRow(row: Row, reader: Reader): Row {
    DegreeStage(CertificationStage(LanguageStage(ConditionStage(QualityStage(row, reader), reader), reader), reader), reader)
  }

  /** The row after every stage. */
  function SettledRow(row: Row, reader: Reader): Row {
    ProfileStage(KindRow(SkillStage(NamedRow(row, reader), reader), reader), reader)
  }

  /** What the code makes of a row before the stages: its kind is the code's call. */
  predicate Fresh(row: Row) {
    row.kind == Skill && !row.judged && row.members == [] && row.neverMembers == []
  }

  // ---------------------------------------------------------------- the stages, on the row itself

  /** A row of the answer, rewritten in place. */
  class Requirement {
    var name: string
    var importance: Importance
    var match_: Match
    var skills: seq<string>
    var kind: Kind
    var never: Never
    var judged: bool
    var members: seq<string>
    var neverMembers: seq<string>

    constructor (row: Row)
      ensures Value() == row
    {
      name, importance, match_, skills := row.name, row.importance, row.match_, row.skills;
      kind, never, judged, members, neverMembers := row.kind, row.never, row.judged, row.members, row.neverMembers;
    }

    function Value(): Row
      reads this
    {
      Row(name, importance, match_, skills, kind, never, judged, members, neverMembers)
    }

    method SettleByName(reader: Reader)
      modifies this
      ensures Value() == NamedRow(old(Value()), reader)
    {
      var named := ByIdentity(reader, reader.order, reader.lower(name));
      if named.Some? && (match_ != Yes || |skills| != 1 || skills[0] != named.value) {
        match_ := Yes;
        skills := [named.value];
      }
      assert named.Some? ==> skills == [named.value];
      var parts := if named.Some? then None else PartsNamed(reader, name);
      if parts.Some? && (match_ != Yes || Joined(skills, ",") != Joined(parts.value, ",")) {
        match_ := Yes;
        skills := parts.value;
      }
      assert Value() == NamedStage(old(Value()), reader);
      if IsNever(Value(), reader) {
        match_ := No;
        skills := [];
        never := Claimed;
      }
    }

    method SettleSkills(reader: Reader)
      modifies this
      ensures Value() == SkillStage(old(Value()), reader)
    {
      var ruled := RulingOn(Value(), reader);
      var known := KnownSkills(Value(), reader);
      var held := HeldByConcept(Value(), reader, known);
      skills := WithAlike(Value(), reader, known);
      if Met(match_) && |skills| > 0 && !held && !reader.grounded(reader.asked(name), skills) {
        match_ := Adjacent;
        judged := true;
      }
      if match_ == Yes && |skills| > 0 && Every(skills, id => id in ruled.near) {
        match_ := Adjacent;
      }
      if Met(match_) && |skills| == 0 {
        match_ := No;
      } else if match_ == No && |skills| > 0 {
        skills := [];
      }
    }

    method SettleKind(reader: Reader)
      modifies this
      ensures Value() == KindRow(old(Value()), reader)
    {
      if reader.qualityWords(name) && Unbacked(Value(), reader) {
        kind, match_, judged, skills := Quality, Yes, false, [];
      }
      if kind != Quality && match_ == No && reader.conditionWords(name) && Unbacked(Value(), reader) {
        kind, skills := Condition, [];
      }
      var spoken := if OpenToProfile(Value()) then reader.languageOf(name) else None;
      if spoken.Some? {
        kind, match_, skills, judged := Language, spoken.value, [], false;
      }
      var certified := if OpenToProfile(Value()) && kind != Language then reader.certificationOf(name) else None;
      if certified.Some? {
        kind, skills, judged := Certification, [], false;
        match_ := if !certified.value.stated then No else if certified.value.expired then Adjacent else Yes;
      }
      var degree := if OpenToProfile(Value()) && kind != Language && kind != Certification then reader.degreeOf(name) else None;
      if degree.Some? {
        kind, skills, judged, match_ := Degree, [], false, if degree.value then Yes else No;
      }
    }

    /** One turn of the loop over the requirements. */
    method Settle(reader: Reader)
      modifies this
      ensures Value() == SettledRow(old(Value()), reader)
    {
      SettleByName(reader);
      SettleSkills(reader);
      SettleKind(reader);
      SettleByProfile(reader);
    }

    method SettleByProfile(reader: Reader)
      modifies this
      ensures Value() == ProfileStage(old(Value()), reader)
    {
      if never == Unset && kind == Skill {
        Raise(ProfileAnswer(Value(), reader), reader);
      }
    }

    method Raise(found: Option<Found>, reader: Reader)
      modifies this
      ensures Value() == Raised(old(Value()), found, reader)
    {
      if found.Some? && Outranks(found.value, Value(), reader) {
        match_, skills, judged := found.value.match_, found.value.skills, found.value.judged;
      }
    }
  }

  // ---------------------------------------------------------------- what settling guarantees

  /** Between the stages: skills usable, and a row of some kind already answered. */
  ghost predicate Usably(row: Row, reader: Reader) {
    forall id :: id in row.skills ==> id in reader.skills ==> id !in reader.out
  }

  lemma NamedRowUsable(row: Row, reader: Reader)
    requires Listed(reader) && Usably(row, reader) && Fresh(row)
    ensures var named := NamedRow(row, reader);
      && Usably(named, reader) && Fresh(named) && named.name == row.name
      && (row.match_ != Unread ==> named.match_ != Unread)
      && (named.never == Claimed ==> named.match_ == No && named.skills == [])
      && named.never == if IsNever(row, reader) then Claimed else row.never
  {
  }

  /** A row whose skills are usable, and which is met exactly when it holds one. */
  ghost predicate Picked(row: Row, reader: Reader) {
    && row.kind == Skill
    && (forall id :: id in row.skills ==> id in Usable(reader))
    && (Met(row.match_) ==> row.skills != [])
    && (row.match_ == No ==> row.skills == [])
    && (row.never == Claimed ==> row.match_ == No)
  }

  lemma SkillStagePicks(row: Row, reader: Reader)
    requires Listed(reader) && Usably(row, reader) && Fresh(row)
    requires row.never == Claimed ==> row.match_ == No && row.skills == []
    ensures var picked := SkillStage(row, reader);
      Picked(picked, reader) && picked.never == row.never && picked.name == row.name
        && (row.match_ != Unread <==> picked.match_ != Unread)
  {
    var known := KnownSkills(row, reader);
    var skills := WithAlike(row, reader, known);
    forall id | id in skills
      ensures id in Usable(reader)
    {
    }
  }

  /** A settled row: sound, but for the match the model may have written unreadably. */
  ghost predicate SoundOrUnread(row: Row, reader: Reader) {
    if row.match_ == Unread then row.kind == Skill && row.never != Claimed else Sound(row, Usable(reader))
  }

  lemma HumanStagesSound(row: Row, reader: Reader)
    requires Picked(row, reader)
    ensures var human := ConditionStage(QualityStage(row, reader), reader);
      SoundOrUnread(human, reader) && (row.match_ != Unread ==> human.match_ != Unread)
        && human.never == row.never && human.name == row.name && (human.kind == Skill || human.kind == Quality || human.kind == Condition)
  {
  }

  lemma LineStagesSound(row: Row, reader: Reader)
    requires Listed(reader) && SoundOrUnread(row, reader) && (row.kind == Skill || row.kind == Quality || row.kind == Condition)
    ensures var settled := DegreeStage(CertificationStage(LanguageStage(row, reader), reader), reader);
      SoundOrUnread(settled, reader) && (row.match_ != Unread ==> settled.match_ != Unread)
        && settled.never == row.never && settled.name == row.name
        && (settled.kind == Language ==> reader.languageOf(settled.name).Some?)
  {
  }

  lemma KindRowSound(row: Row, reader: Reader)
    requires Listed(reader) && Picked(row, reader)
    ensures var settled := KindRow(row, reader);
      SoundOrUnread(settled, reader) && (row.match_ != Unread ==> settled.match_ != Unread)
        && settled.never == row.never && settled.name == row.name
        && (settled.kind == Language ==> reader.languageOf(settled.name).Some?)
  {
    HumanStagesSound(row, reader);
    LineStagesSound(ConditionStage(QualityStage(row, reader), reader), reader);
  }

  lemma RaisedSound(row: Row, found: Option<Found>, reader: Reader)
    requires SoundOrUnread(row, reader) && row.kind == Skill && row.never == Unset
    requires found.Some? ==> found.value.skills != [] && Met(found.value.match_)
    requires found.Some? ==> forall id :: id in found.value.skills ==> id in Usable(reader)
    ensures var settled := Raised(row, found, reader);
      SoundOrUnread(settled, reader) && (settled.match_ == Unread <==> row.match_ == Unread)
        && settled.never == row.never && settled.kind == row.kind && settled.name == row.name
  {
  }

  lemma ProfileAnswerUsable(row: Row, reader: Reader)
    ensures var found := ProfileAnswer(row, reader);
      found.Some? ==> found.value.skills != [] && Met(found.value.match_) && forall id :: id in found.value.skills ==> id in Usable(reader)
  {
    var target := reader.asked(row.name);
    AnswerIsEarned(CoverageContext(reader), RulingOn(row, reader).(same := reader.ruledSame(target)), reader.phrase(target));
  }

  lemma ProfileStageSound(row: Row, reader: Reader)
    requires SoundOrUnread(row, reader)
    ensures var settled := ProfileStage(row, reader);
      SoundOrUnread(settled, reader) && (settled.match_ == Unread <==> row.match_ == Unread)
        && settled.never == row.never && settled.kind == row.kind && settled.name == row.name
  {
    if row.never == Unset && row.kind == Skill {
      ProfileAnswerUsable(row, reader);
      RaisedSound(row, ProfileAnswer(row, reader), reader);
    }
  }

  lemma SoundRowPasses(row: Row, reader: Reader)
    requires SoundOrUnread(row, reader)
    ensures row.match_ != Unread <==> RowPasses(row, reader.skills.Keys)
    ensures row.match_ != Unread <==> Sound(row, Usable(reader))
  {
  }

  /** What every stage together keeps. */
  ghost predicate SettledFrom(row: Row, settled: Row, reader: Reader) {
    && SoundOrUnread(settled, reader)
    && (row.match_ != Unread ==> settled.match_ != Unread)
    && (settled.kind == Language ==> reader.languageOf(row.name).Some?)
    && settled.never == (if IsNever(row, reader) then Claimed else row.never)
    && settled.name == row.name
  }

  lemma StagesKeep(row: Row, reader: Reader)
    requires Listed(reader) && Fresh(row) && Usably(row, reader)
    ensures SettledFrom(row, SettledRow(row, reader), reader)
  {
    var named := NamedRow(row, reader);
    NamedRowUsable(row, reader);
    var picked := SkillStage(named, reader);
    SkillStagePicks(named, reader);
    var answered := KindRow(picked, reader);
    KindRowSound(picked, reader);
    ProfileStageSound(answered, reader);
  }

  /**
   Whatever the model answered in a row, settling leaves it either as validation requires it, or with the one
   fault no stage repairs: a match that is not yes, adjacent or no. A readable match stays readable.
   */
  lemma SettledRowIsSound(row: Row, reader: Reader)
    requires Listed(reader) && Fresh(row)
    requires forall id :: id in row.skills ==> id !in reader.out
    ensures SettledRow(row, reader).match_ != Unread <==> RowPasses(SettledRow(row, reader), reader.skills.Keys)
    ensures SettledRow(row, reader).match_ != Unread <==> Sound(SettledRow(row, reader), Usable(reader))
    ensures row.match_ != Unread ==> SettledRow(row, reader).match_ != Unread
    ensures SettledRow(row, reader).kind == Language ==> reader.languageOf(row.name).Some?
  {
    StagesKeep(row, reader);
    SoundRowPasses(SettledRow(row, reader), reader);
  }

  /**
   `never` is the one field of the model's own that settling does not clear. When it is `true` or absent the
   row is no whenever it is set; any other value JavaScript takes for true survives exactly when the row names
   nothing never claimed.
   */
  lemma NeverAfterSettling(row: Row, reader: Reader)
    requires Listed(reader) && Fresh(row) && Usably(row, reader)
    ensures SettledRow(row, reader).never == Claimed <==> IsNever(row, reader)
    ensures SettledRow(row, reader).never == Truthy <==> row.never == Truthy && !NamesNever(row.name, reader)
    ensures SettledRow(row, reader).never == Claimed ==> SettledRow(row, reader).match_ == No && SettledRow(row, reader).skills == []
  {
    StagesKeep(row, reader);
  }

  /** A quality word, and no skill that backs the name. */
  predicate ReadAsQuality(name: string, reader: Reader) {
    reader.qualityWords(name) && !reader.backed(name)
  }

  /** A name whose condition words are read before the lines are: no quality word, and no skill that backs it. */
  predicate ReadAsCondition(name: string, reader: Reader) {
    reader.conditionWords(name) && !reader.qualityWords(name) && !reader.backed(name)
  }

  /** What the profile's lines answer to a name: as a language, else as a certification, else as a degree. */
  function LinesAnswer(name: string, reader: Reader): Option<Match> {
    if reader.languageOf(name).Some? then reader.languageOf(name)
    else if reader.certificationOf(name).Some? then
      var certificate := reader.certificationOf(name).value;
      Some(if !certificate.stated then No else if certificate.expired then Adjacent else Yes)
    else if reader.degreeOf(name).Some? then Some(if reader.degreeOf(name).value then Yes else No)
    else None
  }

  lemma NamedRowKeepsItsSkill(row: Row, reader: Reader, id: string)
    requires Listed(reader) && Fresh(row) && row.never == Unset && !NamesNever(row.name, reader)
    requires ByIdentity(reader, reader.order, reader.lower(row.name)) == Some(id)
    ensures var picked := SkillStage(NamedRow(row, reader), reader);
      && picked.name == row.name && picked.never == Unset && picked.kind == Skill
      && (if !RuledOut(row.name, reader, id) then Met(picked.match_) else picked.match_ == No && picked.skills == [] && !picked.judged)
  {
    var named := NamedRow(row, reader);
    var ruled := RulingOn(named, reader);
    if id in ruled.no {
      KeepNone([id], i => i in reader.skills && i !in ruled.no);
    } else {
      KeepAll([id], i => i in reader.skills && i !in ruled.no);
    }
  }

  /** Who answers a row that no never-claimed entry names. */
  lemma KindRowIs(row: Row, reader: Reader)
    requires row.never == Unset && row.kind == Skill && !NamesNever(row.name, reader)
    ensures var answered := KindRow(row, reader);
      if ReadAsQuality(row.name, reader) then answered.kind == Quality && answered.match_ == Yes
      else if ReadAsCondition(row.name, reader) && row.match_ == No then answered.kind == Condition && answered.match_ == No
      else if LinesAnswer(row.name, reader).Some? then answered.kind != Skill && answered.match_ == LinesAnswer(row.name, reader).value
      else answered == row
  {
  }

  /** The profile's answer never turns a met row into an unmet one. */
  lemma ProfileStageKeepsMet(row: Row, reader: Reader)
    requires Met(row.match_)
    ensures Met(ProfileStage(row, reader).match_)
  {
    var found := ProfileAnswer(row, reader);
    if found.Some? && Outranks(found.value, row, reader) {
      OutranksMet(found.value, row, reader);
    }
  }

  lemma OutranksMet(found: Found, row: Row, reader: Reader)
    requires Met(row.match_) && Outranks(found, row, reader)
    ensures Met(found.match_)
  {
  }

  lemma AnswerOutranksNo(found: Found, row: Row, reader: Reader)
    requires row.match_ == No && row.skills == [] && !row.judged && Met(found.match_)
    ensures Outranks(found, row, reader)
  {
  }

  lemma ClaimedStaysPicked(row: Row, reader: Reader)
    requires row.never == Claimed && row.match_ == No && row.skills == []
    ensures SkillStage(row, reader).match_ == No && SkillStage(row, reader).never == Claimed
  {
  }

  lemma ClaimedStaysAnswered(row: Row, reader: Reader)
    requires row.never == Claimed && row.match_ == No
    ensures KindRow(row, reader) == row && ProfileStage(row, reader) == row
  {
  }

  /** A row the profile never claims ends as a no, whatever else its name says. */
  lemma NeverEndsNo(row: Row, reader: Reader)
    requires Fresh(row) && NamesNever(row.name, reader)
    ensures SettledRow(row, reader).match_ == No
  {
    var named := NamedRow(row, reader);
    assert named.match_ == No && named.skills == [] && named.never == Claimed;
    ClaimedStaysPicked(named, reader);
    ClaimedStaysAnswered(SkillStage(named, reader), reader);
  }

  /** The owner ruled the skill out of the words of a name. */
  predicate RuledOut(name: string, reader: Reader, id: string) {
    id in reader.ruled(reader.asked(name)).no
  }

  /**
   Who says whether a row named like a usable skill is met: a quality always is, a condition the skill is ruled out of
   never; else the profile's lines, when the name asks for them; else the skill, unless it is ruled out and the profile
   holds no other answer.
   */
  predicate MetAsNamed(row: Row, reader: Reader, id: string) {
    if ReadAsQuality(row.name, reader) then true
    else if ReadAsCondition(row.name, reader) && RuledOut(row.name, reader, id) then false
    else if LinesAnswer(row.name, reader).Some? then Met(LinesAnswer(row.name, reader).value)
    else !RuledOut(row.name, reader, id) || ProfileAnswer(row, reader).Some?
  }

  /** A row named like a usable skill, whatever the model answered and whatever else its name says. */
  lemma NamedRowIsMet(row: Row, reader: Reader, id: string)
    requires Listed(reader) && Fresh(row) && row.never == Unset && ByIdentity(reader, reader.order, reader.lower(row.name)) == Some(id)
    ensures Met(SettledRow(row, reader).match_) <==> !NamesNever(row.name, reader) && MetAsNamed(row, reader, id)
  {
    if NamesNever(row.name, reader) {
      NeverEndsNo(row, reader);
    } else {
      NamedRowKeepsItsSkill(row, reader, id);
      var picked := SkillStage(NamedRow(row, reader), reader);
      KindRowIs(picked, reader);
      if KindRow(picked, reader) == picked {
        PickedRowIsMet(picked, row, reader);
      }
    }
  }

  lemma PickedRowIsMet(picked: Row, row: Row, reader: Reader)
    requires picked.name == row.name && picked.never == row.never == Unset && picked.kind == Skill
    requires Met(picked.match_) || (picked.match_ == No && picked.skills == [] && !picked.judged)
    ensures Met(ProfileStage(picked, reader).match_) <==> Met(picked.match_) || ProfileAnswer(row, reader).Some?
  {
    if Met(picked.match_) {
      ProfileStageKeepsMet(picked, reader);
    } else if ProfileAnswer(row, reader).Some? {
      ProfileAnswerUsable(row, reader);
      AnswerOutranksNo(ProfileAnswer(row, reader).value, picked, reader);
    }
  }
}
