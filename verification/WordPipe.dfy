/**
The Word helper (cv/src/word.js): requests written to a child process and lines read back from it, in order, with a
timeout for each request and the child's death.
*/
module WordPipe {
  import opened Collections

  type Id = nat

  /** What became of a request's promise; the first settling counts. */
  datatype Settled = Answered(line: nat) | Rejected

  /**
   The requests in the order they were written; of each line read, what it was given to, the request the helper printed
   it for, if any, and how many were written by then; and what is settled.
   */
  datatype Log = Log(written: seq<Id>, given: seq<Option<Id>>, meant: seq<Option<Id>>, asked: seq<nat>, settled: map<Id, Settled>)

  /** The recipients of the lines that had one, in order. */
  function Recipients(given: seq<Option<Id>>): seq<Id> {
    if given == [] then []
    else
      var last := given[|given| - 1];
      Recipients(given[..|given| - 1]) + if last.Some? then [last.value] else []
  }

  lemma RecipientsOneMore(given: seq<Option<Id>>, one: Option<Id>)
    ensures Recipients(given + [one]) == Recipients(given) + if one.Some? then [one.value] else []
  {
    assert (given + [one])[..|given|] == given;
  }

  /** The lines among the first `n` that came while nothing waited: each is lost. */
  function Strays(given: seq<Option<Id>>, n: nat): nat
    requires n <= |given|
  {
    if n == 0 then 0 else Strays(given, n - 1) + if given[n - 1].None? then 1 else 0
  }

  lemma {:induction false} RecipientsAreCounted(given: seq<Option<Id>>)
    ensures |Recipients(given)| + Strays(given, |given|) == |given|
  {
    if given != [] {
      var n := |given| - 1;
      RecipientsAreCounted(given[..n]);
      StraysOfPrefix(given, n, n);
    }
  }

  lemma {:induction false} StraysOfPrefix(given: seq<Option<Id>>, n: nat, k: nat)
    requires k <= n <= |given|
    ensures Strays(given[..n], k) == Strays(given, k)
  {
    if k > 0 {
      StraysOfPrefix(given, n, k - 1);
    }
  }

  /** Before the child has exited: what was written is what the lines took, then what waits, in order. */
  ghost predicate InOrder(log: Log, waiting: seq<Id>) {
    Recipients(log.given) + waiting == log.written
  }

  lemma LineKeepsOrder(log: Log, waiting: seq<Id>, meant: Option<Id>)
    ensures var rest := if waiting == [] then [] else waiting[1..];
      Recipients(AfterLine(log, waiting, meant).given) + rest == Recipients(log.given) + waiting
  {
    var to := if waiting == [] then None else Some(waiting[0]);
    RecipientsOneMore(log.given, to);
    if waiting == [] {
      assert Recipients(log.given) + [] == Recipients(log.given);
    } else {
      assert waiting == [waiting[0]] + waiting[1..];
    }
  }

  /** A line read while a request waits goes to the oldest one; the k-th such line to the k-th request. */
  lemma {:induction false} LineGoesTo(written: seq<Id>, given: seq<Option<Id>>, i: nat)
    requires Recipients(given) <= written && i < |given| && given[i].Some?
    ensures i - Strays(given, i) < |written| && 0 <= i - Strays(given, i) && given[i].value == written[i - Strays(given, i)]
  {
    var n := |given| - 1;
    RecipientsAreCounted(given[..n]);
    StraysOfPrefix(given, n, n);
    if i < n {
      LineGoesTo(written, given[..n], i);
      StraysOfPrefix(given, n, i);
    } else {
      assert Recipients(given)[|Recipients(given[..n])|] == given[n].value;
    }
  }

  /**
   The i-th line read goes to the i-th request written, late answers to requests that timed out included, exactly when
   no line ever came while nothing waited; each such line is lost, and puts the count of lines one ahead.
   */
  lemma AlignedUnlessALineStrays(log: Log, waiting: seq<Id>)
    requires InOrder(log, waiting)
    ensures Aligned(log) <==> forall i :: 0 <= i < |log.given| ==> log.given[i].Some?
  {
    if forall i :: 0 <= i < |log.given| ==> log.given[i].Some? {
      forall i | 0 <= i < |log.given|
        ensures i < |log.written| && log.given[i] == Some(log.written[i])
      {
        NoStrays(log.given, i);
        LineGoesTo(log.written, log.given, i);
      }
    }
  }

  ghost predicate Aligned(log: Log) {
    forall i :: 0 <= i < |log.given| ==> i < |log.written| && log.given[i] == Some(log.written[i])
  }

  lemma {:induction false} NoStrays(given: seq<Option<Id>>, n: nat)
    requires n <= |given| && forall i :: 0 <= i < |given| ==> given[i].Some?
    ensures Strays(given, n) == 0
  {
    if n > 0 {
      NoStrays(given, n - 1);
    }
  }

  /** Every request written is settled or waits; an answer given is the line that came for it. */
  ghost predicate Accounted(log: Log, waiting: seq<Id>) {
    && (forall id :: id in log.written ==> id in log.settled || id in waiting)
    && (forall id :: id in log.settled ==> id in log.written)
    && (forall id :: id in log.settled && log.settled[id].Answered? ==> GivenTo(log, id, log.settled[id].line))
  }

  ghost predicate GivenTo(log: Log, id: Id, line: nat) {
    line < |log.given| && log.given[line] == Some(id)
  }

  function Settle(settled: map<Id, Settled>, id: Id, how: Settled): map<Id, Settled> {
    if id in settled then settled else settled[id := how]
  }

  function RejectAll(settled: map<Id, Settled>, waiting: seq<Id>): (r: map<Id, Settled>)
    ensures forall id :: id in r <==> id in settled || id in waiting
    ensures forall id :: id in r ==> r[id] == if id in settled then settled[id] else Rejected
    decreases |waiting|
  {
    if waiting == [] then settled else RejectAll(Settle(settled, waiting[0], Rejected), waiting[1..])
  }

  /** What a helper owes its requests. */
  ghost predicate Kept(log: Log, waiting: seq<Id>) {
    Distinct(log.written) && Accounted(log, waiting) && forall id :: id in waiting ==> id in log.written
  }

  /** A line read: the answer of the oldest request that waits, if one does. */
  function AfterLine(log: Log, waiting: seq<Id>, meant: Option<Id>): Log {
    var to := if waiting == [] then None else Some(waiting[0]);
    Log(log.written, log.given + [to], log.meant + [meant], log.asked + [|log.written|],
        if to.Some? then Settle(log.settled, to.value, Answered(|log.given|)) else log.settled)
  }

  function AfterAsk(log: Log, id: Id): Log {
    log.(written := log.written + [id])
  }

  lemma LineIsAccounted(log: Log, waiting: seq<Id>, meant: Option<Id>)
    requires Kept(log, waiting)
    ensures Kept(AfterLine(log, waiting, meant), if waiting == [] then [] else waiting[1..])
  {
    var after := AfterLine(log, waiting, meant);
    forall id | id in after.settled && after.settled[id].Answered?
      ensures GivenTo(after, id, after.settled[id].line)
    {
      if id in log.settled {
        assert GivenTo(log, id, log.settled[id].line);
      }
    }
    assert waiting != [] ==> waiting == [waiting[0]] + waiting[1..];
  }

  lemma AskIsAccounted(log: Log, waiting: seq<Id>, id: Id)
    requires Kept(log, waiting) && id !in log.written
    ensures Kept(AfterAsk(log, id), waiting + [id])
  {
    var after := AfterAsk(log, id);
    forall other | other in after.settled && after.settled[other].Answered?
      ensures GivenTo(after, other, after.settled[other].line)
    {
      assert GivenTo(log, other, log.settled[other].line);
    }
  }

  // ---------------------------------------------------------------- whose answer a line is

  /** The next request in line when the `i`th line is read, by what the lines before it took. */
  function NextInLine(log: Log, i: nat): Option<Id>
    requires i < |log.given| == |log.asked| && log.asked[i] <= |log.written|
  {
    var taken := |Recipients(log.given[..i])|;
    if taken < log.asked[i] then Some(log.written[taken]) else None
  }

  ghost predicate ServedAt(log: Log, i: nat)
    requires i < |log.given| == |log.asked|
  {
    log.asked[i] <= |log.written| && log.given[i] == NextInLine(log, i)
  }

  /** Before the child has exited: each line went to the next request written by then, or to none. */
  ghost predicate Served(log: Log) {
    && |log.given| == |log.meant| == |log.asked|
    && forall i :: 0 <= i < |log.given| ==> ServedAt(log, i)
  }

  lemma LineIsServed(log: Log, waiting: seq<Id>, meant: Option<Id>)
    requires Served(log) && InOrder(log, waiting)
    ensures Served(AfterLine(log, waiting, meant))
  {
    var after, n := AfterLine(log, waiting, meant), |log.given|;
    forall i | 0 <= i < |after.given|
      ensures ServedAt(after, i)
    {
      if i < n {
        assert ServedAt(log, i) && after.given[..i] == log.given[..i];
      } else {
        assert after.given[..n] == log.given;
      }
    }
  }

  lemma SettledIsServed(log: Log, settled: map<Id, Settled>)
    ensures Served(log) ==> Served(log.(settled := settled))
  {
    if Served(log) {
      forall i | 0 <= i < |log.given|
        ensures ServedAt(log.(settled := settled), i)
      {
        assert ServedAt(log, i);
      }
    }
  }

  lemma AskIsServed(log: Log, id: Id)
    requires Served(log)
    ensures Served(AfterAsk(log, id))
  {
    forall i | 0 <= i < |log.given|
      ensures ServedAt(AfterAsk(log, id), i)
    {
      assert ServedAt(log, i);
    }
  }

  /** The helper answers each request once, in order, after it was written; it may print other lines besides. */
  ghost predicate AnswersInOrder(log: Log)
    requires Served(log)
  {
    forall i :: 0 <= i < |log.meant| && log.meant[i].Some? ==> AnswersNext(log, i)
  }

  ghost predicate AnswersNext(log: Log, i: nat)
    requires Served(log) && i < |log.meant|
  {
    var answered := |Recipients(log.meant[..i])|;
    assert ServedAt(log, i);
    answered < log.asked[i] && log.meant[i] == Some(log.written[answered])
  }

  /** How many requests further than the helper's own the `i`th line goes. */
  function Lag(log: Log, i: nat): int
    requires i <= |log.given| == |log.meant|
  {
    |Recipients(log.given[..i])| - |Recipients(log.meant[..i])|
  }

  lemma RecipientsUpTo(given: seq<Option<Id>>, i: nat)
    requires i < |given|
    ensures |Recipients(given[..i + 1])| == |Recipients(given[..i])| + if given[i].Some? then 1 else 0
  {
    RecipientsOneMore(given[..i], given[i]);
    assert given[..i] + [given[i]] == given[..i + 1];
  }

  lemma LagStep(log: Log, i: nat)
    requires Served(log) && AnswersInOrder(log) && Distinct(log.written) && i < |log.given|
    ensures Lag(log, i + 1) == Lag(log, i) + (if log.given[i].Some? then 1 else 0) - if log.meant[i].Some? then 1 else 0
    ensures log.meant[i].Some? ==> (log.given[i] == log.meant[i] <==> Lag(log, i) == 0)
    ensures log.meant[i].Some? && log.given[i].None? ==> 0 < Lag(log, i)
  {
    RecipientsUpTo(log.given, i);
    RecipientsUpTo(log.meant, i);
    assert ServedAt(log, i);
    assert log.meant[i].Some? ==> AnswersNext(log, i);
  }

  lemma {:induction false} LagIsNotNegative(log: Log, i: nat)
    requires Served(log) && AnswersInOrder(log) && Distinct(log.written) && i <= |log.given|
    ensures 0 <= Lag(log, i)
  {
    if i > 0 {
      LagIsNotNegative(log, i - 1);
      LagStep(log, i - 1);
    }
  }

  /**
   A line that answers no request, read while one waits, puts the answers after it one request late; an answer read
   while nothing waits is lost, and takes that back; nothing else changes it. An answer reaches its own request exactly
   when it is not late.
   */
  lemma AnswersLag(log: Log, i: nat)
    requires Served(log) && AnswersInOrder(log) && Distinct(log.written) && i < |log.given|
    ensures 0 <= Lag(log, i) && Lag(log, 0) == 0
    ensures log.meant[i].None? ==> Lag(log, i + 1) == Lag(log, i) + if log.given[i].Some? then 1 else 0
    ensures log.meant[i].Some? ==> Lag(log, i + 1) == Lag(log, i) - if log.given[i].None? then 1 else 0
    ensures log.meant[i].Some? ==> (log.given[i] == log.meant[i] <==> Lag(log, i) == 0)
  {
    LagIsNotNegative(log, i);
    LagStep(log, i);
  }

  /** No line that answers no request was read while a request waited. */
  ghost predicate NoSurplusTaken(log: Log) {
    |log.given| == |log.meant| && forall i :: 0 <= i < |log.given| && log.meant[i].None? ==> log.given[i].None?
  }

  /** Every answer reached its own request, late or not, and no request took another line. */
  ghost predicate EachItsOwn(log: Log) {
    log.given == log.meant
  }

  lemma {:induction false} NoSurplusNoLag(log: Log, i: nat)
    requires Served(log) && AnswersInOrder(log) && Distinct(log.written) && NoSurplusTaken(log) && i <= |log.given|
    ensures Lag(log, i) == 0
  {
    if i > 0 {
      NoSurplusNoLag(log, i - 1);
      LagStep(log, i - 1);
    }
  }

  /** Every answer reaches its own request exactly when no other line was read while a request waited. */
  lemma EachItsOwnExactly(log: Log)
    requires Served(log) && AnswersInOrder(log) && Distinct(log.written)
    ensures EachItsOwn(log) <==> NoSurplusTaken(log)
  {
    if NoSurplusTaken(log) {
      forall i | 0 <= i < |log.given|
        ensures log.given[i] == log.meant[i]
      {
        NoSurplusNoLag(log, i);
        LagStep(log, i);
      }
    }
  }

  class Helper {
    var waiting: seq<Id>
    /** `exited`: why the helper is gone, once it is known to be. */
    var exited: bool
    /** The child's exit event has come. */
    ghost var over: bool
    ghost var log: Log

    ghost predicate Valid()
      reads this
    {
      && Kept(log, waiting)
      && (if over then exited && waiting == [] else InOrder(log, waiting) && Served(log))
    }

    constructor ()
      ensures Valid() && waiting == [] && !exited && !over && log == Log([], [], [], [], map[])
    {
      waiting, exited, over, log := [], false, false, Log([], [], [], [], map[]);
    }

    /** `ask`: written and put in line, unless the helper is known to be gone. */
    method Ask(id: Id) returns (written: bool)
      requires Valid() && id !in log.written
      modifies this
      ensures Valid() && written == !old(exited) && exited == old(exited) && over == old(over)
      ensures waiting == if written then old(waiting) + [id] else old(waiting)
      ensures log == if written then AfterAsk(old(log), id) else old(log)
    {
      if exited {
        return false;
      }
      AskIsAccounted(log, waiting, id);
      AskIsServed(log, id);
      waiting := waiting + [id];
      log := AfterAsk(log, id);
      assert Recipients(log.given) + old(waiting) + [id] == Recipients(log.given) + waiting;
      return true;
    }

    /** `waiting.shift()?.resolve(line)`: a line read goes to the oldest request that waits, or is lost. */
    method Line(ghost meant: Option<Id>)
      requires Valid()
      modifies this`waiting, this`log
      ensures Valid()
      ensures waiting == if old(waiting) == [] then [] else old(waiting)[1..]
      ensures log == AfterLine(old(log), old(waiting), meant)
      ensures forall id :: id in old(log).settled ==> id in log.settled && log.settled[id] == old(log).settled[id]
    {
      LineIsAccounted(log, waiting, meant);
      LineKeepsOrder(log, waiting, meant);
      if !over {
        LineIsServed(log, waiting, meant);
      }
      log := AfterLine(log, waiting, meant);
      if waiting != [] {
        waiting := waiting[1..];
      }
    }

    /** A request's timeout: it is rejected, its place in line kept for the answer that may still come. */
    method TimeOut(id: Id)
      requires Valid() && id in log.written && id !in log.settled
      modifies this`exited, this`log
      ensures Valid() && exited
      ensures log == old(log).(settled := old(log).settled[id := Rejected])
    {
      exited := true;
      SettledIsServed(log, log.settled[id := Rejected]);
      log := log.(settled := log.settled[id := Rejected]);
    }

    /** The child's exit: every request that waits is rejected, and none waits any more. */
    method Exit()
      requires Valid()
      modifies this
      ensures Valid() && exited && over && waiting == []
      ensures log.written == old(log).written && log.given == old(log).given
      ensures forall id :: id in log.written ==> id in log.settled
      ensures forall id :: id in old(log).settled ==> log.settled[id] == old(log).settled[id]
    {
      exited, over := true, true;
      log := log.(settled := RejectAll(log.settled, waiting));
      waiting := [];
    }
  }

  // ---------------------------------------------------------------- runs of requests and lines

  datatype Move = Asks(id: Id) | Reads(meant: Option<Id>)

  datatype Pipe = Pipe(log: Log, waiting: seq<Id>)

  function Moved(p: Pipe, move: Move): Pipe {
    match move
    case Asks(id) => Pipe(AfterAsk(p.log, id), p.waiting + [id])
    case Reads(meant) => Pipe(AfterLine(p.log, p.waiting, meant), if p.waiting == [] then [] else p.waiting[1..])
  }

  function Played(moves: seq<Move>): Pipe {
    if moves == [] then Pipe(Log([], [], [], [], map[]), []) else Moved(Played(moves[..|moves| - 1]), moves[|moves| - 1])
  }

  /** No request is asked twice. */
  ghost predicate AsksOnce(moves: seq<Move>) {
    forall i :: 0 <= i < |moves| && moves[i].Asks? ==> moves[i].id !in Played(moves[..i]).log.written
  }

  lemma OneMoveLonger(moves: seq<Move>, i: nat)
    requires i < |moves|
    ensures Played(moves[..i + 1]) == Moved(Played(moves[..i]), moves[i])
  {
    assert moves[..i + 1][..i] == moves[..i];
  }

  method Make(helper: Helper, move: Move)
    requires helper.Valid() && !helper.exited && !helper.over && (move.Asks? ==> move.id !in helper.log.written)
    modifies helper
    ensures helper.Valid() && !helper.exited && !helper.over
    ensures Pipe(helper.log, helper.waiting) == Moved(old(Pipe(helper.log, helper.waiting)), move)
  {
    ghost var log, waiting := helper.log, helper.waiting;
    if move.Asks? {
      var written := helper.Ask(move.id);
      assert helper.log == AfterAsk(log, move.id) && helper.waiting == waiting + [move.id];
    } else {
      helper.Line(move.meant);
      assert helper.log == AfterLine(log, waiting, move.meant);
    }
  }

  /** The helper itself, asked and answered so, ends where the moves lead. */
  method Play(moves: seq<Move>) returns (helper: Helper)
    requires AsksOnce(moves)
    ensures helper.Valid() && !helper.exited && !helper.over && Pipe(helper.log, helper.waiting) == Played(moves)
  {
    helper := new Helper();
    var i := 0;
    while i < |moves|
      invariant 0 <= i <= |moves| && fresh(helper)
      invariant helper.Valid() && !helper.exited && !helper.over && Pipe(helper.log, helper.waiting) == Played(moves[..i])
    {
      OneMoveLonger(moves, i);
      Make(helper, moves[i]);
      i := i + 1;
    }
    PrefixAll(moves);
  }

  /** The first `n` moves lead here. */
  ghost predicate LeadsTo(moves: seq<Move>, n: nat, p: Pipe) {
    n <= |moves| && AsksOnce(moves[..n]) && Played(moves[..n]) == p
  }

  lemma OneMoveMore(moves: seq<Move>, i: nat, move: Move, before: Pipe, after: Pipe)
    requires i < |moves| && moves[i] == move && LeadsTo(moves, i, before) && Moved(before, move) == after
    requires move.Asks? ==> move.id !in before.log.written
    ensures LeadsTo(moves, i + 1, after)
  {
    OneMoveLonger(moves, i);
    forall j | 0 <= j < i + 1 && moves[j].Asks?
      ensures moves[j].id !in Played(moves[..i + 1][..j]).log.written
    {
      assert moves[..i + 1][..j] == moves[..j];
      if j < i {
        assert moves[..j] == moves[..i][..j] && moves[..i][j] == moves[j];
      }
    }
  }

  /** A line printed before anything was asked, then two requests and their two answers. */
  const STRAY_MOVES := [Reads(None), Asks(7), Asks(8), Reads(Some(7)), Reads(Some(8))]

  const STRAY := Log([7, 8], [None, Some(7), Some(8)], [None, Some(7), Some(8)], [0, 2, 2], map[7 := Answered(1), 8 := Answered(2)])

  /** Where each move leads. */
  function StrayStage(k: nat): Pipe {
    match k
    case 0 => Pipe(Log([], [], [], [], map[]), [])
    case 1 => Pipe(Log([], [None], [None], [0], map[]), [])
    case 2 => Pipe(Log([7], [None], [None], [0], map[]), [7])
    case 3 => Pipe(Log([7, 8], [None], [None], [0], map[]), [7, 8])
    case 4 => Pipe(Log([7, 8], [None, Some(7)], [None, Some(7)], [0, 2], map[7 := Answered(1)]), [8])
    case _ => Pipe(STRAY, [])
  }

  function StrayMove(k: nat): Move {
    match k
    case 0 => Reads(None)
    case 1 => Asks(7)
    case 2 => Asks(8)
    case 3 => Reads(Some(7))
    case _ => Reads(Some(8))
  }

  lemma StrayMoves(k: nat)
    requires k < 5
    ensures Moved(StrayStage(k), StrayMove(k)) == StrayStage(k + 1)
    ensures StrayMove(k).Asks? ==> StrayMove(k).id !in StrayStage(k).log.written
  {
  }

  lemma {:induction false} StrayLeads(moves: seq<Move>, k: nat)
    requires |moves| == 5 && k <= 5 && forall i :: 0 <= i < 5 ==> moves[i] == StrayMove(i)
    ensures LeadsTo(moves, k, StrayStage(k))
  {
    if k > 0 {
      StrayLeads(moves, k - 1);
      StrayMoves(k - 1);
      OneMoveMore(moves, k - 1, StrayMove(k - 1), StrayStage(k - 1), StrayStage(k));
    }
  }

  lemma StrayIsPlayed()
    ensures AsksOnce(STRAY_MOVES) && Played(STRAY_MOVES) == Pipe(STRAY, [])
  {
    StrayLeads(STRAY_MOVES, 5);
    assert STRAY_MOVES[..5] == STRAY_MOVES;
  }

  /** The stray line is lost: each request gets its own answer, though not the line of its number. */
  lemma AStrayLineIsLost()
    ensures AsksOnce(STRAY_MOVES) && Played(STRAY_MOVES) == Pipe(STRAY, [])
    ensures EachItsOwn(STRAY) && !Aligned(STRAY)
  {
    StrayIsPlayed();
    assert STRAY.given[0].None?;
  }

  /** Two requests, a line printed for neither while both wait, then their two answers. */
  const SURPLUS_MOVES := [Asks(7), Asks(8), Reads(None), Reads(Some(7)), Reads(Some(8))]

  const SURPLUS := Log([7, 8], [Some(7), Some(8), None], [None, Some(7), Some(8)], [2, 2, 2], map[7 := Answered(0), 8 := Answered(1)])

  /** Where each move leads. */
  function SurplusStage(k: nat): Pipe {
    match k
    case 0 => Pipe(Log([], [], [], [], map[]), [])
    case 1 => Pipe(Log([7], [], [], [], map[]), [7])
    case 2 => Pipe(Log([7, 8], [], [], [], map[]), [7, 8])
    case 3 => Pipe(Log([7, 8], [Some(7)], [None], [2], map[7 := Answered(0)]), [8])
    case 4 => Pipe(Log([7, 8], [Some(7), Some(8)], [None, Some(7)], [2, 2], map[7 := Answered(0), 8 := Answered(1)]), [])
    case _ => Pipe(SURPLUS, [])
  }

  function SurplusMove(k: nat): Move {
    match k
    case 0 => Asks(7)
    case 1 => Asks(8)
    case 2 => Reads(None)
    case 3 => Reads(Some(7))
    case _ => Reads(Some(8))
  }

  lemma SurplusMoves(k: nat)
    requires k < 5
    ensures Moved(SurplusStage(k), SurplusMove(k)) == SurplusStage(k + 1)
    ensures SurplusMove(k).Asks? ==> SurplusMove(k).id !in SurplusStage(k).log.written
  {
  }

  lemma {:induction false} SurplusLeads(moves: seq<Move>, k: nat)
    requires |moves| == 5 && k <= 5 && forall i :: 0 <= i < 5 ==> moves[i] == SurplusMove(i)
    ensures LeadsTo(moves, k, SurplusStage(k))
  {
    if k > 0 {
      SurplusLeads(moves, k - 1);
      SurplusMoves(k - 1);
      OneMoveMore(moves, k - 1, SurplusMove(k - 1), SurplusStage(k - 1), SurplusStage(k));
    }
  }

  lemma SurplusIsPlayed()
    ensures AsksOnce(SURPLUS_MOVES) && Played(SURPLUS_MOVES) == Pipe(SURPLUS, [])
  {
    SurplusLeads(SURPLUS_MOVES, 5);
    assert SURPLUS_MOVES[..5] == SURPLUS_MOVES;
  }

  lemma SurplusPrefixes()
    ensures |Recipients(SURPLUS.given[..0])| == 0 && |Recipients(SURPLUS.given[..1])| == 1 && |Recipients(SURPLUS.given[..2])| == 2
    ensures |Recipients(SURPLUS.meant[..0])| == 0 && |Recipients(SURPLUS.meant[..1])| == 0 && |Recipients(SURPLUS.meant[..2])| == 1
  {
    RecipientsUpTo(SURPLUS.given, 0);
    RecipientsUpTo(SURPLUS.given, 1);
    RecipientsUpTo(SURPLUS.meant, 0);
    RecipientsUpTo(SURPLUS.meant, 1);
  }

  lemma SurplusIsServed()
    ensures Served(SURPLUS) && AnswersInOrder(SURPLUS)
  {
    SurplusPrefixes();
    assert ServedAt(SURPLUS, 0) && ServedAt(SURPLUS, 1) && ServedAt(SURPLUS, 2);
    assert AnswersNext(SURPLUS, 1) && AnswersNext(SURPLUS, 2);
  }

  /** The surplus line is taken for the first answer, the first answer for the second, and the second is lost. */
  lemma ASurplusLineIsTaken()
    ensures AsksOnce(SURPLUS_MOVES) && Played(SURPLUS_MOVES) == Pipe(SURPLUS, [])
    ensures Served(SURPLUS) && AnswersInOrder(SURPLUS) && !EachItsOwn(SURPLUS)
    ensures SURPLUS.meant[1] == Some(7) && SURPLUS.given[1] == Some(8) && SURPLUS.given[2].None?
  {
    SurplusIsPlayed();
    SurplusIsServed();
    assert SURPLUS.given[0] != SURPLUS.meant[0];
  }
}
