/**
The rows of a requirement table before they are settled (cv/src/normalize.js): the model's rows cleaned, those the offer
does not state left out, never-claimed entries added, and the importance the offer's cues give.
*/
module Preparation {
  import opened Collections
  import opened Rows
  import opened Settlement

  /** A row as the model wrote it, for the fields settling does not discard. */
  datatype Raw = Raw(name: string, importance: Option<Importance>, match_: Match, skills: seq<string>, never: Never)

  /** What is read of the offer: arbitrary functions of a name, and the enumerations' `mentions`. */
  datatype Offer = Offer(
    stated: string -> bool,
    namesEntry: NeverEntry -> bool,
    cue: string -> Option<Importance>,
    enumerations: seq<string -> bool>)

  /** How names and ids are cleaned: a safe name or none, and the part of an id before a colon. */
  datatype Cleaning = Cleaning(name: string -> Option<string>, prefix: string -> Option<string>)

  // ---------------------------------------------------------------- before the stages

  /** `idOf`: a known id itself, else the part before its colon when that is one. */
  function IdOf(id: string, reader: Reader, cleaning: Cleaning): string {
    if id in reader.skills then id
    else match cleaning.prefix(id)
      case Some(prefix) => if prefix in reader.skills then prefix else id
      case None => id
  }

  function IdsOf(ids: seq<string>, reader: Reader, cleaning: Cleaning): seq<string> {
    if ids == [] then [] else [IdOf(ids[0], reader, cleaning)] + IdsOf(ids[1..], reader, cleaning)
  }

  function Cleaned(raw: Raw, reader: Reader, cleaning: Cleaning): (row: Row)
    ensures Fresh(row) && row.match_ == raw.match_ && row.never == raw.never
    ensures forall id :: id in row.skills ==> id !in reader.out
  {
    Row(
      name := cleaning.name(raw.name).Or(raw.name),
      importance := raw.importance.Or(Must),
      match_ := raw.match_,
      skills := Keep(IdsOf(raw.skills, reader, cleaning), id => id !in reader.out),
      kind := Skill, never := raw.never, judged := false, members := [], neverMembers := [])
  }

  /** What every row keeps until it is settled. */
  ghost predicate Ready(row: Row, reader: Reader) {
    Fresh(row) && forall id :: id in row.skills ==> id !in reader.out
  }

  function CleanedRows(raws: seq<Raw>, reader: Reader, cleaning: Cleaning): (rows: seq<Row>)
    ensures |rows| == |raws| && forall i :: 0 <= i < |rows| ==> rows[i] == Cleaned(raws[i], reader, cleaning)
  {
    seq(|raws|, i requires 0 <= i < |raws| => Cleaned(raws[i], reader, cleaning))
  }

  // ---------------------------------------------------------------- never-claimed entries the offer names

  function NeverRow(entry: NeverEntry): (row: Row)
    ensures Fresh(row) && row.match_ == No && row.skills == [] && row.never == Claimed
  {
    Row(entry.name, Must, No, [], Skill, Claimed, false, [], [])
  }

  /** `isNever(requirement, [entry])` for some row: true of any row already never claimed, whatever it names. */
  predicate AlreadyThere(rows: seq<Row>, entry: NeverEntry) {
    Any(rows, (row: Row) => row.never == Claimed || entry.mentionedIn(row.name))
  }

  /** The loop over the never-claimed entries. */
  function WithNever(rows: seq<Row>, entries: seq<NeverEntry>, offer: Offer): seq<Row>
    decreases |entries|
  {
    if entries == [] then rows
    else if offer.namesEntry(entries[0]) && !AlreadyThere(rows, entries[0]) then WithNever(rows + [NeverRow(entries[0])], entries[1..], offer)
    else WithNever(rows, entries[1..], offer)
  }

  method AddNever(rows: seq<Row>, entries: seq<NeverEntry>, offer: Offer) returns (out: seq<Row>)
    ensures out == WithNever(rows, entries, offer)
  {
    out := rows;
    for i := 0 to |entries|
      invariant WithNever(rows, entries, offer) == WithNever(out, entries[i..], offer)
    {
      if offer.namesEntry(entries[i]) && !AlreadyThere(out, entries[i]) {
        out := out + [NeverRow(entries[i])];
      }
    }
  }

  /** Named in the offer, and by no row of the table. */
  predicate Missing(rows: seq<Row>, entry: NeverEntry, offer: Offer) {
    offer.namesEntry(entry) && !Any(rows, (row: Row) => entry.mentionedIn(row.name))
  }

  predicate SomeClaimed(rows: seq<Row>) {
    Any(rows, (row: Row) => row.never == Claimed)
  }

  lemma {:induction false} NothingAddedBesideAClaimedRow(rows: seq<Row>, entries: seq<NeverEntry>, offer: Offer)
    requires SomeClaimed(rows)
    ensures WithNever(rows, entries, offer) == rows
  {
    if entries != [] {
      var row :| row in rows && row.never == Claimed;
      NothingAddedBesideAClaimedRow(rows, entries[1..], offer);
    }
  }

  /** The first entry, in the profile's order, that the offer names and no row does. */
  ghost predicate FirstMissing(rows: seq<Row>, entries: seq<NeverEntry>, i: int, offer: Offer) {
    0 <= i < |entries| && Missing(rows, entries[i], offer) && forall k :: 0 <= k < i ==> !Missing(rows, entries[k], offer)
  }

  ghost predicate NoneMissing(rows: seq<Row>, entries: seq<NeverEntry>, offer: Offer) {
    forall k :: 0 <= k < |entries| ==> !Missing(rows, entries[k], offer)
  }

  /**
   At most one never-claimed entry is ever added: once a row is never claimed, the test that looks for the next
   entry's own row finds that one. So the first missing entry is added, and the ones after it are not.
   */
  lemma {:induction false} OnlyTheFirstMissingIsAdded(rows: seq<Row>, entries: seq<NeverEntry>, offer: Offer)
    requires !SomeClaimed(rows)
    ensures NoneMissing(rows, entries, offer) ==> WithNever(rows, entries, offer) == rows
    ensures !NoneMissing(rows, entries, offer) ==> exists i ::
      FirstMissing(rows, entries, i, offer) && WithNever(rows, entries, offer) == rows + [NeverRow(entries[i])]
  {
    if entries != [] {
      var rest := entries[1..];
      if Missing(rows, entries[0], offer) {
        var longer := rows + [NeverRow(entries[0])];
        assert longer[|rows|] in longer;
        NothingAddedBesideAClaimedRow(longer, rest, offer);
        assert FirstMissing(rows, entries, 0, offer);
      } else {
        OnlyTheFirstMissingIsAdded(rows, rest, offer);
        if NoneMissing(rows, rest, offer) {
          assert forall k :: 0 < k < |entries| ==> entries[k] == rest[k - 1];
        } else {
          var i :| FirstMissing(rows, rest, i, offer) && WithNever(rows, rest, offer) == rows + [NeverRow(rest[i])];
          assert forall k :: 0 < k < |entries| ==> entries[k] == rest[k - 1];
          assert FirstMissing(rows, entries, i + 1, offer);
        }
      }
    }
  }

  /**
   Whether every never-claimed entry the offer names ends in the table. Beside a row already never claimed, only
   if none was missing; otherwise, only if the name of the first missing one mentions the others.
   */
  lemma NeverEntriesCovered(rows: seq<Row>, entries: seq<NeverEntry>, offer: Offer)
    ensures SomeClaimed(rows) ==>
      (NoneMissing(WithNever(rows, entries, offer), entries, offer) <==> NoneMissing(rows, entries, offer))
    ensures !SomeClaimed(rows) ==>
      (NoneMissing(WithNever(rows, entries, offer), entries, offer) <==> AllCoveredByOne(rows, entries, offer))
  {
    if SomeClaimed(rows) {
      NothingAddedBesideAClaimedRow(rows, entries, offer);
    } else {
      OnlyTheFirstMissingIsAdded(rows, entries, offer);
      if !NoneMissing(rows, entries, offer) {
        var i :| FirstMissing(rows, entries, i, offer) && WithNever(rows, entries, offer) == rows + [NeverRow(entries[i])];
        CoveredAfterOne(rows, entries, i, offer);
      }
    }
  }

  ghost predicate CoveredBy(rows: seq<Row>, entries: seq<NeverEntry>, i: int, offer: Offer)
    requires 0 <= i < |entries|
  {
    forall k :: 0 <= k < |entries| && Missing(rows, entries[k], offer) ==> entries[k].mentionedIn(entries[i].name)
  }

  /** The name of the first missing entry, if any is missing, mentions every missing one. */
  ghost predicate AllCoveredByOne(rows: seq<Row>, entries: seq<NeverEntry>, offer: Offer) {
    forall i :: FirstMissing(rows, entries, i, offer) ==> CoveredBy(rows, entries, i, offer)
  }

  lemma CoveredAfterOne(rows: seq<Row>, entries: seq<NeverEntry>, i: int, offer: Offer)
    requires FirstMissing(rows, entries, i, offer)
    ensures NoneMissing(rows + [NeverRow(entries[i])], entries, offer) <==> AllCoveredByOne(rows, entries, offer)
  {
    var longer := rows + [NeverRow(entries[i])];
    forall k | 0 <= k < |entries|
      ensures Missing(longer, entries[k], offer) <==> Missing(rows, entries[k], offer) && !entries[k].mentionedIn(entries[i].name)
    {
      MissingAfterOne(rows, entries[i], entries[k], offer);
    }
    assert forall j :: FirstMissing(rows, entries, j, offer) ==> j == i;
  }

  lemma MissingAfterOne(rows: seq<Row>, added: NeverEntry, entry: NeverEntry, offer: Offer)
    ensures Missing(rows + [NeverRow(added)], entry, offer) <==> Missing(rows, entry, offer) && !entry.mentionedIn(added.name)
  {
    var longer := rows + [NeverRow(added)];
    assert longer[|rows|] == NeverRow(added);
    assert NeverRow(added) in longer;
    assert forall row :: row in longer ==> row in rows || row == NeverRow(added);
  }

  /** Two entries an offer names, an empty table: the second is left out. */
  lemma SecondNeverEntryIsLeftOut()
    ensures exists entries: seq<NeverEntry>, offer: Offer :: (|entries| == 2
      && WithNever([], entries, offer) == [NeverRow(entries[0])] && Missing(WithNever([], entries, offer), entries[1], offer))
  {
    var entries := [NeverEntry("Kubernetes", name => name == "Kubernetes"), NeverEntry("Java", name => name == "Java")];
    var offer := Offer(_ => true, _ => true, _ => None, []);
    assert WithNever([], entries, offer) == WithNever([NeverRow(entries[0])], entries[1..], offer);
    assert NeverRow(entries[0]) in [NeverRow(entries[0])];
    NothingAddedBesideAClaimedRow([NeverRow(entries[0])], entries[1..], offer);
    assert Missing([NeverRow(entries[0])], entries[1], offer);
  }

  // ---------------------------------------------------------------- the rows to settle

  function Cued(row: Row, offer: Offer): Row {
    row.(importance := offer.cue(row.name).Or(row.importance))
  }

  function CuedRows(rows: seq<Row>, offer: Offer): (r: seq<Row>)
    ensures |r| == |rows| && forall i :: 0 <= i < |r| ==> r[i] == Cued(rows[i], offer)
  {
    seq(|rows|, i requires 0 <= i < |rows| => Cued(rows[i], offer))
  }

  /** The cleaned rows whose name the offer states. */
  function StatedRows(raws: seq<Raw>, reader: Reader, cleaning: Cleaning, offer: Offer): seq<Row> {
    Keep(CleanedRows(raws, reader, cleaning), (row: Row) => offer.stated(row.name))
  }

  /** The rows the stages read: cleaned, stated in the offer, never-claimed entries added, importance by the offer's cue. */
  function Prepared(raws: seq<Raw>, reader: Reader, cleaning: Cleaning, offer: Option<Offer>): seq<Row> {
    match offer
    case None => CleanedRows(raws, reader, cleaning)
    case Some(o) => CuedRows(WithNever(StatedRows(raws, reader, cleaning, o), reader.never, o), o)
  }

  // ---------------------------------------------------------------- which rows reach settling

  /** The name a row goes by: the safe form of the model's when there is one. */
  ghost predicate GoesBy(raw: Raw, cleaning: Cleaning, name: string) {
    match cleaning.name(raw.name)
    case Some(safe) => name == safe
    case None => name == raw.name
  }

  /** How an id is read: as the part before its colon, when only that part is a known id. */
  ghost predicate ReadAs(id: string, reader: Reader, cleaning: Cleaning, read: string) {
    if id !in reader.skills && cleaning.prefix(id).Some? && cleaning.prefix(id).value in reader.skills
    then read == cleaning.prefix(id).value
    else read == id
  }

  ghost predicate AllReadAs(ids: seq<string>, reader: Reader, cleaning: Cleaning, read: seq<string>) {
    |read| == |ids| && forall i :: 0 <= i < |ids| ==> ReadAs(ids[i], reader, cleaning, read[i])
  }

  /** The ids the evidence does not block, in order. */
  ghost predicate LeftOf(read: seq<string>, reader: Reader, places: seq<nat>, skills: seq<string>) {
    TakenAt(read, places, skills) && forall i :: 0 <= i < |read| ==> (i in places <==> read[i] !in reader.out)
  }

  /** A row's skills: the model's, as they are read, without those the evidence blocks. */
  ghost predicate SkillsAre(ids: seq<string>, reader: Reader, cleaning: Cleaning, skills: seq<string>) {
    exists read, places :: AllReadAs(ids, reader, cleaning, read) && LeftOf(read, reader, places, skills)
  }

  /** What the offer says of a name's importance, when there is an offer. */
  ghost function Said(offer: Option<Offer>, name: string): Option<Importance> {
    match offer
    case None => None
    case Some(o) => o.cue(name)
  }

  /** The offer's cue when it gives one, else what the model wrote, else a must. */
  ghost predicate ImportanceIs(said: Option<Importance>, written: Option<Importance>, importance: Importance) {
    match said
    case Some(cue) => importance == cue
    case None => match written
      case Some(own) => importance == own
      case None => importance == Must
  }

  /** A row of the model's, as it reaches settling. */
  ghost predicate IsReadOf(raw: Raw, reader: Reader, cleaning: Cleaning, offer: Option<Offer>, row: Row) {
    && GoesBy(raw, cleaning, row.name) && SkillsAre(raw.skills, reader, cleaning, row.skills)
    && ImportanceIs(Said(offer, row.name), raw.importance, row.importance)
    && row.match_ == raw.match_ && row.never == raw.never && Fresh(row)
  }

  /** The row of an entry the profile never claims. */
  ghost predicate IsNeverOf(entry: NeverEntry, offer: Offer, row: Row) {
    && row.name == entry.name && ImportanceIs(offer.cue(entry.name), None, row.importance)
    && row.match_ == No && row.skills == [] && row.never == Claimed && Fresh(row)
  }

  /** The places, in the model's answer, of the rows whose name the offer states. */
  ghost predicate StatedAt(raws: seq<Raw>, cleaning: Cleaning, offer: Offer, places: seq<nat>) {
    Increasing(places, |raws|) && forall i :: 0 <= i < |raws| ==> (i in places <==> IsStated(raws[i], cleaning, offer))
  }

  ghost predicate IsStated(raw: Raw, cleaning: Cleaning, offer: Offer) {
    exists name :: GoesBy(raw, cleaning, name) && offer.stated(name)
  }

  ghost predicate HoldsClaimed(rows: seq<Row>) {
    exists row :: row in rows && row.never == Claimed
  }

  /** The entry added: the first that the offer names and no row does, unless some row is never claimed already. */
  ghost predicate AddedIs(rows: seq<Row>, entries: seq<NeverEntry>, offer: Offer, added: seq<NeverEntry>) {
    if HoldsClaimed(rows) || NoneMissing(rows, entries, offer) then added == []
    else exists i :: FirstMissing(rows, entries, i, offer) && added == [entries[i]]
  }

  /** The rows of an offer: the model's that it states, each once and in the model's order, then the entry added. */
  ghost predicate OfOffer(raws: seq<Raw>, reader: Reader, cleaning: Cleaning, offer: Offer, places: seq<nat>, added: seq<NeverEntry>,
                          rows: seq<Row>) {
    && StatedAt(raws, cleaning, offer, places) && |rows| == |places| + |added|
    && (forall k :: 0 <= k < |places| ==> IsReadOf(raws[places[k]], reader, cleaning, Some(offer), rows[k]))
    && AddedIs(rows[..|places|], reader.never, offer, added)
    && (forall k :: 0 <= k < |added| ==> IsNeverOf(added[k], offer, rows[|places| + k]))
  }

  /** The rows that reach settling. */
  ghost predicate ReachSettling(raws: seq<Raw>, reader: Reader, cleaning: Cleaning, offer: Option<Offer>, rows: seq<Row>) {
    match offer
    case None => |rows| == |raws| && forall i :: 0 <= i < |raws| ==> IsReadOf(raws[i], reader, cleaning, None, rows[i])
    case Some(o) => exists places, added :: OfOffer(raws, reader, cleaning, o, places, added, rows)
  }

  lemma {:induction false} IdsAreRead(ids: seq<string>, reader: Reader, cleaning: Cleaning)
    ensures AllReadAs(ids, reader, cleaning, IdsOf(ids, reader, cleaning))
  {
    if ids != [] {
      IdsAreRead(ids[1..], reader, cleaning);
    }
  }

  lemma CleanedIsRead(raw: Raw, reader: Reader, cleaning: Cleaning)
    ensures IsReadOf(raw, reader, cleaning, None, Cleaned(raw, reader, cleaning))
  {
    var read := IdsOf(raw.skills, reader, cleaning);
    IdsAreRead(raw.skills, reader, cleaning);
    var places := KeepsInOrder(read, id => id !in reader.out);
    assert LeftOf(read, reader, places, Cleaned(raw, reader, cleaning).skills);
  }

  lemma CuedIsRead(raw: Raw, reader: Reader, cleaning: Cleaning, offer: Offer)
    ensures IsReadOf(raw, reader, cleaning, Some(offer), Cued(Cleaned(raw, reader, cleaning), offer))
  {
    CleanedIsRead(raw, reader, cleaning);
  }

  lemma StatedOf(raw: Raw, reader: Reader, cleaning: Cleaning, offer: Offer)
    ensures offer.stated(Cleaned(raw, reader, cleaning).name) <==> IsStated(raw, cleaning, offer)
  {
    assert GoesBy(raw, cleaning, Cleaned(raw, reader, cleaning).name);
  }

  lemma StatedPlaces(raws: seq<Raw>, reader: Reader, cleaning: Cleaning, offer: Offer) returns (places: seq<nat>)
    ensures StatedAt(raws, cleaning, offer, places)
    ensures TakenAt(CleanedRows(raws, reader, cleaning), places, StatedRows(raws, reader, cleaning, offer))
  {
    var cleaned := CleanedRows(raws, reader, cleaning);
    places := KeepsInOrder(cleaned, (row: Row) => offer.stated(row.name));
    forall i | 0 <= i < |raws|
      ensures i in places <==> IsStated(raws[i], cleaning, offer)
    {
      assert i in places <==> offer.stated(cleaned[i].name);
      StatedOf(raws[i], reader, cleaning, offer);
    }
  }

  /** The entry added, as the loop adds it. */
  lemma AddedToStated(rows: seq<Row>, entries: seq<NeverEntry>, offer: Offer) returns (added: seq<NeverEntry>)
    ensures AddedIs(rows, entries, offer, added) && |added| <= 1
    ensures WithNever(rows, entries, offer) == rows + if added == [] then [] else [NeverRow(added[0])]
  {
    added := [];
    if SomeClaimed(rows) {
      NothingAddedBesideAClaimedRow(rows, entries, offer);
    } else {
      OnlyTheFirstMissingIsAdded(rows, entries, offer);
      if !NoneMissing(rows, entries, offer) {
        var i :| FirstMissing(rows, entries, i, offer) && WithNever(rows, entries, offer) == rows + [NeverRow(entries[i])];
        added := [entries[i]];
      }
    }
  }

  /** The same names, and the same of them never claimed. */
  ghost predicate SameNames(rows: seq<Row>, others: seq<Row>) {
    |rows| == |others| && forall k :: 0 <= k < |rows| ==> rows[k].name == others[k].name && rows[k].never == others[k].never
  }

  lemma MissingAlike(rows: seq<Row>, others: seq<Row>, entry: NeverEntry, offer: Offer)
    requires SameNames(rows, others)
    ensures Missing(rows, entry, offer) ==> Missing(others, entry, offer)
  {
    if row :| row in others && entry.mentionedIn(row.name) {
      var k :| 0 <= k < |others| && others[k] == row;
      assert rows[k] in rows;
    }
  }

  lemma MissesAlike(rows: seq<Row>, others: seq<Row>, entries: seq<NeverEntry>, offer: Offer)
    requires SameNames(rows, others)
    ensures forall k :: 0 <= k < |entries| ==> (Missing(rows, entries[k], offer) <==> Missing(others, entries[k], offer))
  {
    forall k | 0 <= k < |entries|
      ensures Missing(rows, entries[k], offer) <==> Missing(others, entries[k], offer)
    {
      MissingAlike(rows, others, entries[k], offer);
      MissingAlike(others, rows, entries[k], offer);
    }
  }

  lemma ClaimedAlike(rows: seq<Row>, others: seq<Row>)
    requires SameNames(rows, others) && HoldsClaimed(rows)
    ensures HoldsClaimed(others)
  {
    var row :| row in rows && row.never == Claimed;
    var k :| 0 <= k < |rows| && rows[k] == row;
    assert others[k] in others;
  }

  lemma AddedAlike(rows: seq<Row>, others: seq<Row>, entries: seq<NeverEntry>, offer: Offer, added: seq<NeverEntry>)
    requires SameNames(rows, others) && AddedIs(rows, entries, offer, added)
    ensures AddedIs(others, entries, offer, added)
  {
    MissesAlike(rows, others, entries, offer);
    if HoldsClaimed(rows) {
      ClaimedAlike(rows, others);
    } else if HoldsClaimed(others) {
      ClaimedAlike(others, rows);
    } else if !NoneMissing(rows, entries, offer) {
      var i :| FirstMissing(rows, entries, i, offer) && added == [entries[i]];
      assert FirstMissing(others, entries, i, offer);
    }
  }

  /** The rows taken from the model's, once the offer's cues are read. */
  ghost predicate CuedFrom(raws: seq<Raw>, reader: Reader, cleaning: Cleaning, offer: Offer, places: seq<nat>, rows: seq<Row>) {
    && Increasing(places, |raws|) && |places| <= |rows|
    && forall k :: 0 <= k < |places| ==> rows[k] == Cued(Cleaned(raws[places[k]], reader, cleaning), offer)
  }

  lemma TakenAreCued(raws: seq<Raw>, reader: Reader, cleaning: Cleaning, offer: Offer, places: seq<nat>, stated: seq<Row>, more: seq<Row>)
    requires TakenAt(CleanedRows(raws, reader, cleaning), places, stated)
    ensures CuedFrom(raws, reader, cleaning, offer, places, CuedRows(stated + more, offer))
    ensures SameNames(stated, CuedRows(stated + more, offer)[..|places|])
  {
  }

  lemma CuedFromAreRead(raws: seq<Raw>, reader: Reader, cleaning: Cleaning, offer: Offer, places: seq<nat>, rows: seq<Row>)
    requires CuedFrom(raws, reader, cleaning, offer, places, rows)
    ensures forall k :: 0 <= k < |places| ==> IsReadOf(raws[places[k]], reader, cleaning, Some(offer), rows[k])
  {
    forall k | 0 <= k < |places|
      ensures IsReadOf(raws[places[k]], reader, cleaning, Some(offer), rows[k])
    {
      CuedIsRead(raws[places[k]], reader, cleaning, offer);
    }
  }

  lemma NeverIsNeverOf(entry: NeverEntry, offer: Offer)
    ensures IsNeverOf(entry, offer, Cued(NeverRow(entry), offer))
  {
  }

  lemma PreparedOfOffer(raws: seq<Raw>, reader: Reader, cleaning: Cleaning, offer: Offer) returns (places: seq<nat>, added: seq<NeverEntry>)
    ensures OfOffer(raws, reader, cleaning, offer, places, added, Prepared(raws, reader, cleaning, Some(offer)))
  {
    var stated := StatedRows(raws, reader, cleaning, offer);
    places := StatedPlaces(raws, reader, cleaning, offer);
    added := AddedToStated(stated, reader.never, offer);
    var more := if added == [] then [] else [NeverRow(added[0])];
    var rows := Prepared(raws, reader, cleaning, Some(offer));
    assert rows == CuedRows(stated + more, offer);
    TakenAreCued(raws, reader, cleaning, offer, places, stated, more);
    CuedFromAreRead(raws, reader, cleaning, offer, places, rows);
    AddedAlike(stated, rows[..|places|], reader.never, offer, added);
    if added != [] {
      NeverIsNeverOf(added[0], offer);
    }
  }

  /** The rows prepared are those that must reach settling. */
  lemma PreparedReachSettling(raws: seq<Raw>, reader: Reader, cleaning: Cleaning, offer: Option<Offer>)
    ensures ReachSettling(raws, reader, cleaning, offer, Prepared(raws, reader, cleaning, offer))
  {
    if offer.Some? {
      var places, added := PreparedOfOffer(raws, reader, cleaning, offer.value);
    } else {
      forall i | 0 <= i < |raws|
        ensures IsReadOf(raws[i], reader, cleaning, None, Prepared(raws, reader, cleaning, None)[i])
      {
        CleanedIsRead(raws[i], reader, cleaning);
      }
    }
  }

  /** Each of them is as it must be: nothing judged yet, and no skill the evidence blocks. */
  lemma RowsReachReady(raws: seq<Raw>, reader: Reader, cleaning: Cleaning, offer: Option<Offer>, rows: seq<Row>, k: nat)
    requires ReachSettling(raws, reader, cleaning, offer, rows) && k < |rows|
    ensures Ready(rows[k], reader)
    ensures rows[k].match_ == No || exists raw :: raw in raws && rows[k].match_ == raw.match_
  {
    match offer
    case None =>
      assert IsReadOf(raws[k], reader, cleaning, None, rows[k]);
    case Some(o) =>
      var places, added :| OfOffer(raws, reader, cleaning, o, places, added, rows);
      if k < |places| {
        assert IsReadOf(raws[places[k]], reader, cleaning, Some(o), rows[k]);
      } else {
        assert IsNeverOf(added[k - |places|], o, rows[|places| + (k - |places|)]);
      }
  }
}
