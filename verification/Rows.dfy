/**
The requirement table: one row per requirement an offer states, as the model answered it and the
code settles it, and the structural check a row must pass before the CV is written.
*/
module Rows {
  import opened Collections

  /** `match`; `Unread` is any other value the model wrote. */
  datatype Match = Yes | Adjacent | No | Unread

  datatype Importance = Must | Nice

  /** `kind`; `Skill` is a row without one. */
  datatype Kind = Skill | Quality | Condition | Language | Certification | Degree

  /** `never`: absent (or false), `true`, or another value JavaScript takes for true. */
  datatype Never = Unset | Claimed | Truthy

  datatype Level = Expert | Proficient | Working | Lab | Notions

  datatype Row = Row(
    name: string,
    importance: Importance,
    match_: Match,
    skills: seq<string>,
    kind: Kind,
    never: Never,
    judged: bool,
    members: seq<string>,
    neverMembers: seq<string>)

  predicate Met(m: Match) {
    m == Yes || m == Adjacent
  }

  /** Yes over adjacent, adjacent over no. */
  predicate Higher(a: Match, b: Match) {
    (a == Yes && (b == Adjacent || b == No)) || (a == Adjacent && b == No)
  }

  /** `2 * STRICTNESS[match]`, or nothing for a value the table does not know (NaN there). */
  function Strictness(m: Match): Option<int> {
    match m
    case Yes => Some(2)
    case Adjacent => Some(1)
    case No => Some(0)
    case Unread => None
  }

  /** Answered by the profile's own lines, or met by code: validation asks no skill of these. */
  predicate AnsweredWithoutSkill(k: Kind) {
    k == Quality || k == Language || k == Certification || k == Degree
  }

  /** The checks `validateAnalysis` makes on one requirement. */
  predicate RowPasses(row: Row, known: set<string>) {
    && row.match_ != Unread
    && (forall id :: id in row.skills ==> id in known)
    && (if Met(row.match_) && !AnsweredWithoutSkill(row.kind) then |row.skills| > 0 else |row.skills| == 0)
  }

  /** What a settled row is, kind by kind: stronger than what validation checks. */
  predicate Sound(row: Row, usable: set<string>) {
    && row.match_ != Unread
    && (forall id :: id in row.skills ==> id in usable)
    && (row.kind == Skill ==> (Met(row.match_) <==> row.skills != []))
    && (row.kind != Skill ==> row.skills == [])
    && (row.kind == Quality ==> row.match_ == Yes)
    && (row.kind == Condition ==> row.match_ == No)
    && (row.kind == Degree ==> row.match_ != Adjacent)
    && (row.never == Claimed ==> row.match_ == No)
  }
}
