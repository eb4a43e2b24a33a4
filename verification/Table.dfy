/**
The requirement table from the model's answer to the settled one (cv/src/normalize.js): the rows prepared, each settled,
repeats counted once, examples merged.
*/
module Table {
  import opened Collections
  import opened Rows
  import opened UnionFind
  import opened Examples
  import opened Settlement
  import opened Preparation

  // ---------------------------------------------------------------- a repeated row counts once

  /** What a row is the same as: a profile skill (or several) its name says, a name, or a never-claimed name. */
  datatype Key = BySkill(ids: string) | ByName(name: string) | ByNever(name: string)

  function Plus(ids: seq<string>): string {
    Joined(ids, "+")
  }

  function KeyOf(row: Row, reader: Reader): Key {
    var named := ByIdentity(reader, reader.order, reader.lower(row.name));
    var parts := PartsNamed(reader, row.name);
    if named.Some? then BySkill(named.value) else if parts.Some? then BySkill(Plus(parts.value)) else ByName(reader.lower(row.name))
  }

  function SettledKey(settled: Row, key: Key, reader: Reader): Key {
    if settled.never != Unset then ByNever(reader.fold(settled.name)) else key
  }

  predicate Stricter(a: Row, b: Row) {
    Strictness(a.match_).Some? && Strictness(b.match_).Some? && Strictness(a.match_).value < Strictness(b.match_).value
  }

  /** A row and one more of the same key: the stricter match, the higher importance. */
  function Together(kept: Row, row: Row): Row {
    var stricter := if Stricter(row, kept) then row.(importance := kept.importance) else kept;
    if row.importance == Must then stricter.(importance := Must) else stricter
  }

  /** Rows of one key, counted once. */
  function Once(rows: seq<Row>): Row
    requires rows != []
  {
    Reduced(rows, Together)
  }

  /** Each key once, in order of first row, with its rows counted once. */
  ghost predicate CountedOnce(rows: seq<Row>, keys: seq<Key>, merged: OrderedMap<Key, Row>)
    requires |rows| == |keys|
  {
    Tallied(keys, rows, Together, merged)
  }

  /** The loop that counts a repeated row once. */
  method CountOnce(rows: seq<Row>, keys: seq<Key>) returns (merged: OrderedMap<Key, Row>)
    requires |rows| == |keys|
    ensures CountedOnce(rows, keys, merged)
  {
    merged := Tally(keys, rows, Together);
  }

  /** The first of the rows that none is less met than. */
  ghost predicate FirstStrictest(rows: seq<Row>, at: nat) {
    && at < |rows|
    && (forall k :: 0 <= k < |rows| ==> !Higher(rows[at].match_, rows[k].match_))
    && (forall k :: 0 <= k < at ==> Higher(rows[k].match_, rows[at].match_))
  }

  ghost predicate SomeMust(rows: seq<Row>) {
    exists i :: 0 <= i < |rows| && rows[i].importance == Must
  }

  /** The row at a place, but for its importance: a must when any row is. */
  ghost predicate IsKept(rows: seq<Row>, at: nat, kept: Row) {
    FirstStrictest(rows, at) && kept == rows[at].(importance := kept.importance) && (kept.importance == Must <==> SomeMust(rows))
  }

  /** `kept` is the first of the strictest of `rows`, must when any of them is. */
  ghost predicate IsStrictest(rows: seq<Row>, kept: Row) {
    exists at: nat :: IsKept(rows, at, kept)
  }

  lemma StricterIsLower(a: Row, b: Row)
    requires a.match_ != Unread && b.match_ != Unread
    ensures Stricter(a, b) <==> Higher(b.match_, a.match_)
  {
  }

  lemma MustOfOneMore(rows: seq<Row>, row: Row)
    ensures SomeMust(rows + [row]) <==> SomeMust(rows) || row.importance == Must
  {
    var longer := rows + [row];
    assert longer[|rows|] == row;
    if i :| 0 <= i < |rows| && rows[i].importance == Must {
      assert longer[i] == rows[i];
    }
  }

  lemma FirstStrictestOfOneMore(rows: seq<Row>, at: nat, row: Row)
    requires FirstStrictest(rows, at) && row.match_ != Unread && AllRead(rows)
    ensures FirstStrictest(rows + [row], if Higher(rows[at].match_, row.match_) then |rows| else at)
  {
    assert rows[at].match_ != Unread;
    var longer := rows + [row];
    assert longer[|rows|] == row;
    forall k | 0 <= k < |rows|
      ensures longer[k] == rows[k] && rows[k].match_ != Unread && !Higher(rows[at].match_, rows[k].match_)
    {
    }
  }

  lemma StrictestOfOneMore(rows: seq<Row>, at: nat, kept: Row, row: Row)
    requires IsKept(rows, at, kept) && row.match_ != Unread && AllRead(rows)
    ensures IsKept(rows + [row], if Higher(rows[at].match_, row.match_) then |rows| else at, Together(kept, row))
  {
    assert rows[at].match_ != Unread;
    FirstStrictestOfOneMore(rows, at, row);
    StricterIsLower(row, kept);
    MustOfOneMore(rows, row);
  }

  ghost predicate AllRead(rows: seq<Row>) {
    forall i :: 0 <= i < |rows| ==> rows[i].match_ != Unread
  }

  lemma OnceUnfolds(rows: seq<Row>)
    requires |rows| > 1 && AllRead(rows)
    ensures AllRead(rows[..|rows| - 1]) && Once(rows) == Together(Once(rows[..|rows| - 1]), rows[|rows| - 1])
    ensures rows == rows[..|rows| - 1] + [rows[|rows| - 1]]
  {
  }

  /** Rows of one key become the first of the strictest of them. */
  lemma {:induction false} OnceIsStrictest(rows: seq<Row>) returns (at: nat)
    requires rows != [] && AllRead(rows)
    ensures IsKept(rows, at, Once(rows)) && Once(rows).match_ != Unread
  {
    var n := |rows| - 1;
    if n == 0 {
      at := 0;
    } else {
      OnceUnfolds(rows);
      var before := OnceIsStrictest(rows[..n]);
      StrictestOfOneMore(rows[..n], before, Once(rows[..n]), rows[n]);
      at := if Higher(rows[before].match_, rows[n].match_) then n else before;
    }
  }

  /** Each row kept is one of the rows counted, but for its importance. */
  lemma KeptRowIsARow(rows: seq<Row>, keys: seq<Key>, merged: OrderedMap<Key, Row>, key: Key) returns (row: Row)
    requires |rows| == |keys| && CountedOnce(rows, keys, merged) && key in merged.at
    requires forall i :: 0 <= i < |rows| ==> rows[i].match_ != Unread
    ensures row in rows && merged.at[key] == row.(importance := merged.at[key].importance)
  {
    assert IsTally(keys, rows, Together, key, merged.at[key]);
    var own := ValuesOf(keys, rows, key);
    ValuesOfKey(keys, rows, key);
    forall i | 0 <= i < |own|
      ensures own[i] in rows && own[i].match_ != Unread
    {
      assert own[i] in own;
    }
    var at := OnceIsStrictest(own);
    row := own[at];
  }

  // ---------------------------------------------------------------- the whole table

  function Settling(reader: Reader): Row -> Row {
    (row: Row) => SettledRow(row, reader)
  }

  function SettledRows(rows: seq<Row>, reader: Reader): (r: seq<Row>)
    ensures |r| == |rows|
  {
    Mapped(rows, Settling(reader))
  }

  function SettledKeyOf(row: Row, reader: Reader): Key {
    SettledKey(SettledRow(row, reader), KeyOf(row, reader), reader)
  }

  function Keying(reader: Reader): Row -> Key {
    (row: Row) => SettledKeyOf(row, reader)
  }

  function SettledKeys(rows: seq<Row>, reader: Reader): (r: seq<Key>)
    ensures |r| == |rows|
  {
    Mapped(rows, Keying(reader))
  }

  function Values(merged: OrderedMap<Key, Row>, n: nat): (r: seq<Row>)
    requires n <= |merged.order| && forall k :: 0 <= k < n ==> merged.order[k] in merged.at
    ensures |r| == n && forall k :: 0 <= k < n ==> r[k] == merged.at[merged.order[k]]
  {
    if n == 0 then [] else Values(merged, n - 1) + [merged.at[merged.order[n - 1]]]
  }

  function OfferedBy(reader: Reader, offer: Offer): Offered {
    Offered(offer.enumerations, (name: string) => reader.languageOf(name).Some?)
  }

  /** One turn of the loop: the key is the name's, read before the row is settled. */
  method SettleOne(row: Row, reader: Reader) returns (settled: Row, key: Key)
    ensures settled == SettledRow(row, reader) && key == SettledKeyOf(row, reader)
  {
    key := KeyOf(row, reader);
    var requirement := new Requirement(row);
    requirement.Settle(reader);
    settled := requirement.Value();
    key := SettledKey(settled, key, reader);
  }

  method SettleAll(rows: seq<Row>, reader: Reader) returns (settled: seq<Row>, keys: seq<Key>)
    ensures settled == SettledRows(rows, reader) && keys == SettledKeys(rows, reader)
  {
    settled, keys := [], [];
    var i := 0;
    while i < |rows|
      invariant 0 <= i <= |rows|
      invariant settled == SettledRows(rows[..i], reader) && keys == SettledKeys(rows[..i], reader)
    {
      var row, key := SettleOne(rows[i], reader);
      settled, keys := settled + [row], keys + [key];
      PrefixAndOne(rows, i);
      i := i + 1;
      assert rows[..i][..|rows[..i]| - 1] == rows[..i - 1];
    }
    PrefixAll(rows);
  }

  /** A table made from the rows that reach settling: settled, counted once, and merged by `roots` when there is an offer. */
  ghost predicate IsTable(raws: seq<Raw>, reader: Reader, cleaning: Cleaning, offer: Option<Offer>, lab: set<string>,
                          rows: seq<Row>, once: seq<Row>, roots: seq<nat>, table: seq<Row>) {
    && ReachSettling(raws, reader, cleaning, offer, rows)
    && IsOnce(rows, reader, once)
    && match offer
       case None => table == once
       case Some(o) => IsMerging(once, OfferedBy(reader, o), lab, roots, table)
  }

  ghost predicate IsCounted(settled: seq<Row>, keys: seq<Key>, merged: OrderedMap<Key, Row>, once: seq<Row>)
    requires |settled| == |keys|
  {
    && CountedOnce(settled, keys, merged)
    && (forall k :: 0 <= k < |merged.order| ==> merged.order[k] in merged.at)
    && once == Values(merged, |merged.order|)
  }

  ghost predicate IsOnce(rows: seq<Row>, reader: Reader, once: seq<Row>) {
    exists merged :: IsCounted(SettledRows(rows, reader), SettledKeys(rows, reader), merged, once)
  }

  /** `normalize`, for the requirement table. */
  method NormalizeTable(raws: seq<Raw>, reader: Reader, cleaning: Cleaning, offer: Option<Offer>, lab: set<string>)
    returns (table: seq<Row>)
    ensures exists rows, once, roots :: IsTable(raws, reader, cleaning, offer, lab, rows, once, roots, table)
  {
    var rows := Prepared(raws, reader, cleaning, offer);
    PreparedReachSettling(raws, reader, cleaning, offer);
    var settled, keys := SettleAll(rows, reader);
    var merged := CountOnce(settled, keys);
    OrderIsKeys(settled, keys, merged);
    var once := Values(merged, |merged.order|);
    assert IsCounted(settled, keys, merged, once);
    if offer.None? {
      assert IsTable(raws, reader, cleaning, offer, lab, rows, once, [], once);
      return once;
    }
    table := MergeExamples(once, OfferedBy(reader, offer.value), lab);
    ghost var roots :| IsMerging(once, OfferedBy(reader, offer.value), lab, roots, table);
    assert IsTable(raws, reader, cleaning, offer, lab, rows, once, roots, table);
  }

  lemma OrderIsKeys(rows: seq<Row>, keys: seq<Key>, merged: OrderedMap<Key, Row>)
    requires |rows| == |keys| && CountedOnce(rows, keys, merged)
    ensures forall k :: 0 <= k < |merged.order| ==> merged.order[k] in merged.at
  {
    forall k | 0 <= k < |merged.order|
      ensures merged.order[k] in merged.at
    {
      assert merged.order[k] in Unique(keys);
    }
  }

  // ---------------------------------------------------------------- which rows are one requirement

  /** Never claimed once it is settled. */
  ghost predicate CountsAsNever(row: Row, reader: Reader) {
    row.never != Unset || exists entry :: entry in reader.never && entry.mentionedIn(row.name)
  }

  /** The skills a name says, as one text: the one that bears it, else those its parts name. */
  ghost function SkillsSaid(name: string, reader: Reader): Option<string> {
    match ByIdentity(reader, reader.order, reader.lower(name))
    case Some(id) => Some(id)
    case None =>
      match PartsNamed(reader, name)
      case Some(ids) => Some(Joined(ids, "+"))
      case None => None
  }

  /**
   Two rows are one requirement: both never claimed, under names that fold alike; or neither, and their names say the
   same skills, or say none and are the same but for case and blanks around.
   */
  ghost predicate SameRequirement(a: Row, b: Row, reader: Reader) {
    if CountsAsNever(a, reader) || CountsAsNever(b, reader) then
      CountsAsNever(a, reader) && CountsAsNever(b, reader) && reader.fold(a.name) == reader.fold(b.name)
    else if SkillsSaid(a.name, reader) == None then
      SkillsSaid(b.name, reader) == None && reader.lower(a.name) == reader.lower(b.name)
    else
      SkillsSaid(a.name, reader) == SkillsSaid(b.name, reader)
  }

  /** The skills a name says: the one that bears it, else those its parts name. */
  ghost function IdsSaid(name: string, reader: Reader): Option<seq<string>> {
    match ByIdentity(reader, reader.order, reader.lower(name))
    case Some(id) => Some([id])
    case None => PartsNamed(reader, name)
  }

  /** Ids that hold no plus are read apart: two names say the same exactly when they say the same skills. */
  lemma SayingTheSame(a: string, b: string, reader: Reader)
    requires IdsSaid(a, reader).Some? && IdsSaid(b, reader).Some?
    requires FreeOf(IdsSaid(a, reader).value, '+') && FreeOf(IdsSaid(b, reader).value, '+')
    ensures SkillsSaid(a, reader) == SkillsSaid(b, reader) <==> IdsSaid(a, reader) == IdsSaid(b, reader)
  {
    JoinedTells(IdsSaid(a, reader).value, IdsSaid(b, reader).value, '+');
  }

  /** The same row of the offer, whatever was found of it. */
  ghost predicate SameAsked(row: Row, after: Row) {
    after.name == row.name && after.never == row.never && after.importance == row.importance
  }

  lemma SkillStageKeepsWhatIsAsked(row: Row, reader: Reader)
    ensures SameAsked(row, SkillStage(row, reader))
  {
  }

  lemma KindRowKeepsWhatIsAsked(row: Row, reader: Reader)
    ensures SameAsked(row, KindRow(row, reader))
  {
  }

  lemma ProfileStageKeepsWhatIsAsked(row: Row, reader: Reader)
    ensures SameAsked(row, ProfileStage(row, reader))
  {
  }

  lemma NamedRowIsAsked(row: Row, reader: Reader)
    ensures var named := NamedRow(row, reader);
      named.name == row.name && named.importance == row.importance && (named.never != Unset <==> CountsAsNever(row, reader))
  {
  }

  lemma SettledKeepsName(row: Row, reader: Reader)
    ensures var settled := SettledRow(row, reader);
      settled.name == row.name && settled.importance == row.importance && (settled.never != Unset <==> CountsAsNever(row, reader))
  {
    var named := NamedRow(row, reader);
    var picked := SkillStage(named, reader);
    NamedRowIsAsked(row, reader);
    SkillStageKeepsWhatIsAsked(named, reader);
    KindRowKeepsWhatIsAsked(picked, reader);
    ProfileStageKeepsWhatIsAsked(KindRow(picked, reader), reader);
  }

  ghost function KeySaid(row: Row, reader: Reader): Key {
    if CountsAsNever(row, reader) then ByNever(reader.fold(row.name))
    else match SkillsSaid(row.name, reader)
      case Some(ids) => BySkill(ids)
      case None => ByName(reader.lower(row.name))
  }

  lemma KeyIsSaid(row: Row, reader: Reader)
    ensures SettledKeyOf(row, reader) == KeySaid(row, reader)
  {
    SettledKeepsName(row, reader);
    assert KeyOf(row, reader) == match SkillsSaid(row.name, reader) case Some(ids) => BySkill(ids) case None => ByName(reader.lower(row.name));
  }

  lemma KeysSaidAlike(a: Row, b: Row, reader: Reader)
    ensures KeySaid(a, reader) == KeySaid(b, reader) <==> SameRequirement(a, b, reader)
  {
  }

  lemma KeysAlike(a: Row, b: Row, reader: Reader)
    ensures SettledKeyOf(a, reader) == SettledKeyOf(b, reader) <==> SameRequirement(a, b, reader)
  {
    KeyIsSaid(a, reader);
    KeyIsSaid(b, reader);
    KeysSaidAlike(a, b, reader);
  }

  /** The places of the rows that no earlier row is one requirement with. */
  ghost predicate Firsts(rows: seq<Row>, reader: Reader, firsts: seq<nat>) {
    && Increasing(firsts, |rows|)
    && forall i :: 0 <= i < |rows| ==> (i in firsts <==> IsFirst(rows, reader, i))
  }

  ghost predicate IsFirst(rows: seq<Row>, reader: Reader, i: nat)
    requires i < |rows|
  {
    forall j :: 0 <= j < i ==> !SameRequirement(rows[j], rows[i], reader)
  }

  /** The rows that are one requirement with that of a place, settled, in order. */
  ghost predicate GroupOf(rows: seq<Row>, reader: Reader, first: nat, places: seq<nat>, group: seq<Row>)
    requires first < |rows|
  {
    && Increasing(places, |rows|) && |group| == |places|
    && (forall j :: 0 <= j < |rows| ==> (j in places <==> SameRequirement(rows[j], rows[first], reader)))
    && (forall k :: 0 <= k < |group| ==> group[k] == SettledRow(rows[places[k]], reader))
  }

  /** What a requirement's rows are counted as: the first of the strictest, a must when any of them is. */
  ghost predicate CountedAs(rows: seq<Row>, reader: Reader, first: nat, counted: Row)
    requires first < |rows|
  {
    exists places, group :: GroupOf(rows, reader, first, places, group) && IsStrictest(group, counted)
  }

  /** One row a requirement, in the order of its first row. */
  ghost predicate CountedRight(rows: seq<Row>, reader: Reader, once: seq<Row>) {
    exists firsts :: Firsts(rows, reader, firsts) && |once| == |firsts|
      && forall k :: 0 <= k < |once| ==> CountedAs(rows, reader, firsts[k], once[k])
  }

  function FirstIndexes<K(==)>(keys: seq<K>, wanted: seq<K>): (r: seq<nat>)
    requires forall key :: key in wanted ==> key in keys
    ensures |r| == |wanted| && forall k :: 0 <= k < |r| ==> FirstAt(keys, wanted[k], r[k])
  {
    if wanted == [] then [] else [FirstIndex(keys, wanted[0])] + FirstIndexes(keys, wanted[1..])
  }

  lemma SettledKeyAt(rows: seq<Row>, reader: Reader, i: nat)
    requires i < |rows|
    ensures SettledKeys(rows, reader)[i] == SettledKeyOf(rows[i], reader)
  {
    assert Keying(reader)(rows[i]) == SettledKeyOf(rows[i], reader);
  }

  lemma SameKeyIsSame(rows: seq<Row>, reader: Reader, i: nat, j: nat)
    requires i < |rows| && j < |rows|
    ensures SettledKeys(rows, reader)[i] == SettledKeys(rows, reader)[j] <==> SameRequirement(rows[i], rows[j], reader)
  {
    SettledKeyAt(rows, reader, i);
    SettledKeyAt(rows, reader, j);
    KeysAlike(rows[i], rows[j], reader);
  }

  lemma FirstOfKeyIsFirst(rows: seq<Row>, reader: Reader, i: nat)
    requires i < |rows|
    ensures FirstAt(SettledKeys(rows, reader), SettledKeys(rows, reader)[i], i) <==> IsFirst(rows, reader, i)
  {
    var keys := SettledKeys(rows, reader);
    SettledKeyAt(rows, reader, i);
    forall j | 0 <= j < i
      ensures keys[j] == keys[i] <==> SameRequirement(rows[j], rows[i], reader)
    {
      SameKeyIsSame(rows, reader, j, i);
    }
    assert forall j :: 0 <= j < i ==> keys[..i][j] == keys[j];
  }

  ghost predicate FirstsOf<K>(keys: seq<K>, firsts: seq<nat>) {
    |firsts| == |Unique(keys)| && forall k :: 0 <= k < |firsts| ==> FirstAt(keys, Unique(keys)[k], firsts[k])
  }

  lemma UniqueFirstsIncrease<K>(keys: seq<K>, firsts: seq<nat>)
    requires FirstsOf(keys, firsts)
    ensures Increasing(firsts, |keys|)
  {
    forall j, k | 0 <= j < k < |firsts|
      ensures firsts[j] < firsts[k]
    {
      UniqueInOrder(keys, j, k, firsts[j], firsts[k]);
    }
  }

  /** The first places of the keys: each place where a key stands first, and no other. */
  lemma FirstsHold<K>(keys: seq<K>, firsts: seq<nat>, i: nat)
    requires FirstsOf(keys, firsts) && i < |keys|
    ensures i in firsts <==> FirstAt(keys, keys[i], i)
  {
    if FirstAt(keys, keys[i], i) {
      assert keys[i] in Unique(keys);
      var k :| 0 <= k < |Unique(keys)| && Unique(keys)[k] == keys[i];
      FirstIsOne(keys, keys[i], i, firsts[k]);
    }
  }

  lemma FirstsAreFirst(rows: seq<Row>, reader: Reader, firsts: seq<nat>)
    requires FirstsOf(SettledKeys(rows, reader), firsts)
    ensures Firsts(rows, reader, firsts)
  {
    UniqueFirstsIncrease(SettledKeys(rows, reader), firsts);
    forall i | 0 <= i < |rows|
      ensures i in firsts <==> IsFirst(rows, reader, i)
    {
      FirstsHold(SettledKeys(rows, reader), firsts, i);
      FirstOfKeyIsFirst(rows, reader, i);
    }
  }

  lemma RowsOfKeyAreGroup(rows: seq<Row>, reader: Reader, first: nat) returns (places: seq<nat>)
    requires first < |rows|
    ensures GroupOf(rows, reader, first, places, ValuesOf(SettledKeys(rows, reader), SettledRows(rows, reader), SettledKeys(rows, reader)[first]))
  {
    var settled, keys := SettledRows(rows, reader), SettledKeys(rows, reader);
    places := ValuesOfTaken(keys, settled, keys[first]);
    forall j | 0 <= j < |rows|
      ensures j in places <==> SameRequirement(rows[j], rows[first], reader)
    {
      SameKeyIsSame(rows, reader, j, first);
    }
    forall k | 0 <= k < |places|
      ensures settled[places[k]] == SettledRow(rows[places[k]], reader)
    {
      SettledRowAt(rows, reader, places[k]);
    }
  }

  lemma GroupIsRead(rows: seq<Row>, reader: Reader, first: nat, places: seq<nat>, group: seq<Row>)
    requires Listed(reader) && ReadyRows(rows, reader) && first < |rows| && GroupOf(rows, reader, first, places, group)
    ensures AllRead(group)
  {
    forall k | 0 <= k < |group|
      ensures group[k].match_ != Unread
    {
      assert Ready(rows[places[k]], reader);
      SettledRowIsFinished(rows[places[k]], reader);
    }
  }

  lemma KeyIsCountedAs(rows: seq<Row>, reader: Reader, merged: OrderedMap<Key, Row>, first: nat)
    requires Listed(reader) && ReadyRows(rows, reader)
    requires first < |rows|
    requires CountedOnce(SettledRows(rows, reader), SettledKeys(rows, reader), merged)
    ensures SettledKeys(rows, reader)[first] in merged.at && CountedAs(rows, reader, first, merged.at[SettledKeys(rows, reader)[first]])
  {
    var settled, keys := SettledRows(rows, reader), SettledKeys(rows, reader);
    assert keys[first] in keys;
    assert IsTally(keys, settled, Together, keys[first], merged.at[keys[first]]);
    var group := ValuesOf(keys, settled, keys[first]);
    var places := RowsOfKeyAreGroup(rows, reader, first);
    GroupIsRead(rows, reader, first, places, group);
    var at := OnceIsStrictest(group);
  }

  lemma CountedAt(rows: seq<Row>, reader: Reader, merged: OrderedMap<Key, Row>, once: seq<Row>, firsts: seq<nat>, k: nat)
    requires Listed(reader) && ReadyRows(rows, reader) && FirstsOf(SettledKeys(rows, reader), firsts) && k < |once|
    requires IsCounted(SettledRows(rows, reader), SettledKeys(rows, reader), merged, once)
    ensures k < |firsts| && firsts[k] < |rows| && CountedAs(rows, reader, firsts[k], once[k])
  {
    assert merged.order == Unique(SettledKeys(rows, reader));
    assert FirstAt(SettledKeys(rows, reader), merged.order[k], firsts[k]);
    KeyIsCountedAs(rows, reader, merged, firsts[k]);
  }

  /** Rows counted once: one row a requirement, in the order of its first, the strictest and a must when any is. */
  lemma CountedOnceIsRight(rows: seq<Row>, reader: Reader, once: seq<Row>)
    requires Listed(reader) && ReadyRows(rows, reader) && IsOnce(rows, reader, once)
    ensures CountedRight(rows, reader, once)
  {
    var settled, keys := SettledRows(rows, reader), SettledKeys(rows, reader);
    var merged :| IsCounted(settled, keys, merged, once);
    var firsts := FirstIndexes(keys, Unique(keys));
    FirstsAreFirst(rows, reader, firsts);
    assert |once| == |firsts|;
    forall k | 0 <= k < |once|
      ensures CountedAs(rows, reader, firsts[k], once[k])
    {
      CountedAt(rows, reader, merged, once, firsts, k);
    }
  }

  /** A model's answer whose rows say yes, adjacent or no. */
  ghost predicate Readable(raws: seq<Raw>) {
    forall raw :: raw in raws ==> raw.match_ != Unread
  }

  /** Rows ready to be settled, all readable. */
  ghost predicate ReadyRows(rows: seq<Row>, reader: Reader) {
    forall i :: 0 <= i < |rows| ==> Ready(rows[i], reader) && rows[i].match_ != Unread
  }

  lemma RowsAreReady(raws: seq<Raw>, reader: Reader, cleaning: Cleaning, offer: Option<Offer>, rows: seq<Row>)
    requires Readable(raws) && ReachSettling(raws, reader, cleaning, offer, rows)
    ensures ReadyRows(rows, reader)
  {
    forall k | 0 <= k < |rows|
      ensures Ready(rows[k], reader) && rows[k].match_ != Unread
    {
      RowsReachReady(raws, reader, cleaning, offer, rows, k);
    }
  }

  /**
   The table counts each requirement once: the rows that reach settling, one row for those that are one requirement, in
   the order of the first of them.
   */
  lemma TheTableCountsOnce(raws: seq<Raw>, reader: Reader, cleaning: Cleaning, offer: Option<Offer>, lab: set<string>,
                           rows: seq<Row>, once: seq<Row>, roots: seq<nat>, table: seq<Row>)
    requires Listed(reader) && Readable(raws)
    requires IsTable(raws, reader, cleaning, offer, lab, rows, once, roots, table)
    ensures ReachSettling(raws, reader, cleaning, offer, rows) && CountedRight(rows, reader, once)
  {
    RowsAreReady(raws, reader, cleaning, offer, rows);
    CountedOnceIsRight(rows, reader, once);
  }

  /** What settling and counting leave of each row. */
  ghost predicate Finished(row: Row, reader: Reader) {
    Sound(row, Usable(reader)) && (row.kind == Language ==> reader.languageOf(row.name).Some?)
  }

  lemma SettledRowIsFinished(row: Row, reader: Reader)
    requires Listed(reader) && Ready(row, reader) && row.match_ != Unread
    ensures Finished(SettledRow(row, reader), reader)
  {
    StagesKeep(row, reader);
    SoundRowPasses(SettledRow(row, reader), reader);
  }

  lemma CountedRowIsFinished(settled: seq<Row>, keys: seq<Key>, merged: OrderedMap<Key, Row>, key: Key, reader: Reader)
    requires |settled| == |keys| && CountedOnce(settled, keys, merged) && key in merged.at
    requires forall i :: 0 <= i < |settled| ==> Finished(settled[i], reader)
    ensures Finished(merged.at[key], reader)
  {
    assert forall i :: 0 <= i < |settled| ==> Finished(settled[i], reader) ==> settled[i].match_ != Unread;
    var row := KeptRowIsARow(settled, keys, merged, key);
    var i :| 0 <= i < |settled| && settled[i] == row;
    assert Finished(settled[i], reader);
  }

  lemma SettledRowAt(rows: seq<Row>, reader: Reader, i: nat)
    requires i < |rows|
    ensures SettledRows(rows, reader)[i] == SettledRow(rows[i], reader)
  {
    assert Settling(reader)(rows[i]) == SettledRow(rows[i], reader);
  }

  lemma SettledRowsAreFinished(rows: seq<Row>, reader: Reader)
    requires Listed(reader) && ReadyRows(rows, reader)
    ensures forall i :: 0 <= i < |SettledRows(rows, reader)| ==> Finished(SettledRows(rows, reader)[i], reader)
  {
    forall i | 0 <= i < |rows|
      ensures Finished(SettledRows(rows, reader)[i], reader)
    {
      SettledRowAt(rows, reader, i);
      SettledRowIsFinished(rows[i], reader);
    }
  }

  lemma CountedIsFinished(rows: seq<Row>, reader: Reader, merged: OrderedMap<Key, Row>, once: seq<Row>, k: nat)
    requires Listed(reader) && ReadyRows(rows, reader) && k < |once|
    requires IsCounted(SettledRows(rows, reader), SettledKeys(rows, reader), merged, once)
    ensures Finished(once[k], reader)
  {
    SettledRowsAreFinished(rows, reader);
    CountedRowIsFinished(SettledRows(rows, reader), SettledKeys(rows, reader), merged, merged.order[k], reader);
  }

  lemma OnceIsFinished(rows: seq<Row>, reader: Reader, once: seq<Row>)
    requires Listed(reader) && ReadyRows(rows, reader) && IsOnce(rows, reader, once)
    ensures forall k :: 0 <= k < |once| ==> Finished(once[k], reader)
  {
    var merged :| IsCounted(SettledRows(rows, reader), SettledKeys(rows, reader), merged, once);
    forall k | 0 <= k < |once|
      ensures Finished(once[k], reader)
    {
      CountedIsFinished(rows, reader, merged, once, k);
    }
  }

  /** Every row is what validation requires, and more. */
  ghost predicate AllSound(rows: seq<Row>, reader: Reader) {
    forall k :: 0 <= k < |rows| ==> Sound(rows[k], Usable(reader)) && RowPasses(rows[k], Usable(reader))
  }

  lemma FinishedRowsPass(once: seq<Row>, reader: Reader)
    requires forall k :: 0 <= k < |once| ==> Finished(once[k], reader)
    ensures AllSound(once, reader)
  {
  }

  /**
   The code decides: for any answer whose rows say yes, adjacent or no, the settled table is what validation requires
   of every row, exactly when no met degree leads a group of merged examples; and more (a row with no kind is met
   exactly through usable skills, a never-claimed row is no), exactly when, besides, no group has `never` set on all
   its rows and one of them met. With no offer, always both.
   */
  lemma TheTableIsSound(raws: seq<Raw>, reader: Reader, cleaning: Cleaning, offer: Option<Offer>, lab: set<string>,
                        rows: seq<Row>, once: seq<Row>, roots: seq<nat>, table: seq<Row>)
    requires Listed(reader) && Readable(raws)
    requires IsTable(raws, reader, cleaning, offer, lab, rows, once, roots, table)
    ensures AllSound(once, reader)
    ensures offer.None? ==> table == once
    ensures offer.Some? ==> |roots| == |once|
    ensures offer.Some? ==> ((forall row :: row in table ==> RowPasses(row, Usable(reader))) <==> !SomeDegreeLeads(once, roots, lab))
    ensures offer.Some? ==> ((forall row :: row in table ==> Sound(row, Usable(reader)))
      <==> !SomeDegreeLeads(once, roots, lab) && !SomeNeverMet(once, roots))
  {
    RowsAreReady(raws, reader, cleaning, offer, rows);
    OnceIsFinished(rows, reader, once);
    FinishedRowsPass(once, reader);
    if offer.Some? {
      FinishedRowsAreSettled(once, reader, offer.value);
      MergeKeepsTheTableValid(once, OfferedBy(reader, offer.value), lab, Usable(reader), roots, table);
      MergeKeepsTheTableSound(once, OfferedBy(reader, offer.value), lab, Usable(reader), roots, table);
    }
  }

  /**
   And, with an offer, merges them: one row for each group of rows its enumerations connect, made of the group's members
   alone, a lone row left as it is.
   */
  lemma TheTableMergesExamples(raws: seq<Raw>, reader: Reader, cleaning: Cleaning, offer: Offer, lab: set<string>,
                               rows: seq<Row>, once: seq<Row>, roots: seq<nat>, table: seq<Row>, g: nat)
    requires Listed(reader) && Readable(raws)
    requires IsTable(raws, reader, cleaning, Some(offer), lab, rows, once, roots, table) && g < |table|
    ensures IsMerging(once, OfferedBy(reader, offer), lab, roots, table)
    ensures IsMergeOf(Members(once, roots, Unique(roots)[g]), lab, table[g])
  {
    RowsAreReady(raws, reader, cleaning, Some(offer), rows);
    OnceIsFinished(rows, reader, once);
    forall row | row in once
      ensures row.match_ != Unread
    {
      var k :| 0 <= k < |once| && once[k] == row;
      assert Finished(once[k], reader);
    }
    EachGroupIsMerged(once, OfferedBy(reader, offer), lab, roots, table, g);
  }

  lemma FinishedRowsAreSettled(once: seq<Row>, reader: Reader, offer: Offer)
    requires forall k :: 0 <= k < |once| ==> Finished(once[k], reader)
    ensures forall k :: 0 <= k < |once| ==> Settled(once[k], OfferedBy(reader, offer), Usable(reader))
  {
    forall k | 0 <= k < |once|
      ensures Settled(once[k], OfferedBy(reader, offer), Usable(reader))
    {
      assert Finished(once[k], reader);
    }
  }
}
