/**
The billing latch (crates/itsaresume-router/src/claude_code.rs): once claude reports an answer billed per token, it
is not started again, in this process nor after a restart. Requests interleave at every read and write.
*/
module BillingLatch {

  // ---------------------------------------------------------------- what fires the tripwire

  /** What the answer of claude says, as `classify_for` reads it. */
  datatype Init = Init(subscription: bool, toolsAllowed: bool)

  datatype Found<T> = Missing | Present(value: T)

  datatype Answer = NotJson | Messages(init: Found<Init>, overage: bool, result: Found<bool>)

  datatype Verdict = Completed | BillingTripwire | ToolTripwire | Unusable

  /** The checks in their order: the billing source, the tools, the overage, then the result. */
  function Classify(answer: Answer): Verdict {
    match answer
    case NotJson => Unusable
    case Messages(init, overage, result) =>
      if init.Missing? then Unusable
      else if !init.value.subscription then BillingTripwire
      else if !init.value.toolsAllowed then ToolTripwire
      else if overage then BillingTripwire
      else if result == Present(true) then Completed
      else Unusable
  }

  /**
   An answer that says it was billed per token latches the backend exactly when its first message is read and the
   tools check does not speak first: an overage reported beside a forbidden tool, or without that message, is refused
   but leaves the latch open.
   */
  lemma OverageLatchesUnlessMasked(answer: Answer)
    requires answer.Messages? && (answer.overage || (answer.init.Present? && !answer.init.value.subscription))
    ensures Classify(answer) == BillingTripwire
      <==> answer.init.Present? && (!answer.init.value.subscription || answer.init.value.toolsAllowed)
    ensures Classify(answer) != Completed
  {
  }

  /** The masked case happens. */
  lemma ForbiddenToolMasksOverage()
    ensures Classify(Messages(Present(Init(true, false)), true, Present(true))) == ToolTripwire
  {
  }

  // ---------------------------------------------------------------- requests, restarts and the file

  /**
   A request: entered, past the read of the file, past `latched`, running claude, writing the file after the tripwire
   fired, refused, or over.
   */
  datatype Phase = Entered | ReadFile(marked: bool) | Passed | Running | Firing | Refused | Over

  datatype State = State(tripped: bool, file: bool, requests: map<nat, Phase>)

  datatype Step =
    | Enter(r: nat)
    | LookAtFile(r: nat)
    | LookAtFlag(r: nat)
    | StartClaude(r: nat)
    | Finish(r: nat, answer: Answer)
    | WriteFile(r: nat, written: bool)
    | Fail(r: nat)
    | Restart
    | DeleteFile

  predicate Enabled(s: State, step: Step) {
    match step
    case Enter(r) => r !in s.requests
    case LookAtFile(r) => r in s.requests && s.requests[r] == Entered
    case LookAtFlag(r) => r in s.requests && s.requests[r].ReadFile?
    case StartClaude(r) => r in s.requests && s.requests[r] == Passed
    case Finish(r, _) => r in s.requests && s.requests[r] == Running
    case WriteFile(r, _) => r in s.requests && s.requests[r] == Firing
    case Fail(r) => r in s.requests && s.requests[r] in {Passed, Running}
    case Restart => true
    case DeleteFile => true
  }

  function With(s: State, r: nat, phase: Phase): State {
    s.(requests := s.requests[r := phase])
  }

  /** `complete_with_env` read by read, a failed start or a kill, the process's end, and the owner's hand. */
  function Next(s: State, step: Step): State
    requires Enabled(s, step)
  {
    match step
    case Enter(r) => With(s, r, Entered)
    case LookAtFile(r) => With(s, r, ReadFile(s.file))
    case LookAtFlag(r) => With(s, r, if s.tripped || s.requests[r].marked then Refused else Passed)
    case StartClaude(r) => With(s, r, Running)
    case Finish(r, answer) => if Classify(answer) == BillingTripwire then With(s.(tripped := true), r, Firing) else With(s, r, Over)
    case WriteFile(r, written) => With(s.(file := s.file || written), r, Over)
    case Fail(r) => With(s, r, Over)
    case Restart => State(false, s.file, map[])
    case DeleteFile => s.(file := false)
  }

  ghost predicate Stepped(s: State, step: Step, after: State) {
    Enabled(s, step) && after == Next(s, step)
  }

  ghost predicate IsRun(states: seq<State>, steps: seq<Step>) {
    && |states| == |steps| + 1
    && forall i :: 0 <= i < |steps| ==> Stepped(states[i], steps[i], states[i + 1])
  }

  /** Already past `latched`, and so able to start claude whatever the latch does. */
  predicate PastLatched(s: State, r: nat) {
    r in s.requests && s.requests[r] in {Passed, Running, Firing}
  }

  /** Past the read of the file, which it did not see. */
  predicate PastFile(s: State, r: nat) {
    PastLatched(s, r) || (r in s.requests && s.requests[r] == ReadFile(false))
  }

  ghost predicate NoRestart(steps: seq<Step>, i: nat, j: nat)
    requires i <= j <= |steps|
  {
    forall k :: i <= k < j ==> steps[k] != Restart
  }

  ghost predicate NoDelete(steps: seq<Step>, i: nat, j: nat)
    requires i <= j <= |steps|
  {
    forall k :: i <= k < j ==> steps[k] != DeleteFile
  }

  /**
   Once the tripwire has fired in a process, only requests that were already past `latched` are ever past it: no
   request that looks at the latch later starts claude.
   */
  lemma {:induction false} TrippedStopsTheProcess(states: seq<State>, steps: seq<Step>, i: nat, j: nat, r: nat)
    requires IsRun(states, steps) && i <= j <= |steps| && NoRestart(steps, i, j) && states[i].tripped
    ensures states[j].tripped
    ensures PastLatched(states[j], r) ==> PastLatched(states[i], r)
  {
    if i < j {
      TrippedStopsTheProcess(states, steps, i, j - 1, r);
      assert Stepped(states[j - 1], steps[j - 1], states[j]);
      assert steps[j - 1] != Restart;
    }
  }

  /** While the latch file is there, restarts or not, only requests that had already read its absence start claude. */
  lemma {:induction false} FileStopsEveryProcess(states: seq<State>, steps: seq<Step>, i: nat, j: nat, r: nat)
    requires IsRun(states, steps) && i <= j <= |steps| && NoDelete(steps, i, j) && states[i].file
    ensures states[j].file
    ensures PastFile(states[j], r) ==> PastFile(states[i], r)
  {
    if i < j {
      FileStopsEveryProcess(states, steps, i, j - 1, r);
      assert Stepped(states[j - 1], steps[j - 1], states[j]);
      assert steps[j - 1] != DeleteFile;
    }
  }

  /** After a restart with the file there, claude never starts until the file is deleted. */
  lemma NothingStartsAfterARestart(states: seq<State>, steps: seq<Step>, i: nat, j: nat, r: nat)
    requires IsRun(states, steps) && i < j <= |steps| && steps[i] == Restart && states[i].file && NoDelete(steps, i, j)
    ensures !PastLatched(states[j], r)
  {
    assert Stepped(states[i], steps[i], states[i + 1]);
    FileStopsEveryProcess(states, steps, i + 1, j, r);
  }

  /** The answer that fires the tripwire marks the process at once, before anything is written down. */
  lemma FiringTrips(states: seq<State>, steps: seq<Step>, i: nat, r: nat, answer: Answer)
    requires IsRun(states, steps) && i < |steps| && steps[i] == Finish(r, answer) && Classify(answer) == BillingTripwire
    ensures states[i + 1].tripped && states[i + 1].requests[r] == Firing
  {
    assert Stepped(states[i], steps[i], states[i + 1]);
  }

  const BILLED := Messages(Present(Init(false, true)), false, Missing)

  /** A run that begins with a restart, the file left alone. */
  ghost predicate Restarted(s: State, states: seq<State>, steps: seq<Step>) {
    && IsRun(states, steps) && states[0] == s
    && steps != [] && steps[0] == Restart && NoDelete(steps, 0, |steps|)
  }

  /** However the run goes on, no request of the restarted process ever gets past the latch. */
  ghost predicate NeverStartsAgain(s: State) {
    forall states, steps, r :: Restarted(s, states, steps) ==> !PastLatched(states[|steps|], r)
  }

  function FirstRequest(r: nat): seq<Step> {
    [Restart, Enter(r), LookAtFile(r), LookAtFlag(r), StartClaude(r)]
  }

  function FirstStates(s: State, r: nat): seq<State> {
    [s, State(false, s.file, map[]), State(false, s.file, map[r := Entered]), State(false, s.file, map[r := ReadFile(s.file)]),
     State(false, s.file, map[r := Passed]), State(false, s.file, map[r := Running])]
  }

  /** A restart without the file forgets whatever fired: the first request after it runs claude. */
  lemma UnwrittenLatchIsForgotten(s: State, r: nat)
    requires !s.file
    ensures Restarted(s, FirstStates(s, r), FirstRequest(r)) && FirstStates(s, r)[5].requests == map[r := Running]
  {
    var states, steps := FirstStates(s, r), FirstRequest(r);
    assert map[r := Entered][r := ReadFile(false)] == map[r := ReadFile(false)];
    assert map[r := ReadFile(false)][r := Passed] == map[r := Passed];
    assert map[r := Passed][r := Running] == map[r := Running];
    forall i | 0 <= i < |steps|
      ensures Stepped(states[i], steps[i], states[i + 1])
    {
      assert i == 0 || i == 1 || i == 2 || i == 3 || i == 4;
    }
  }

  /** A restart keeps claude stopped exactly when the latch was written: in no other state does it. */
  lemma OnlyTheFileOutlivesARestart(s: State)
    ensures NeverStartsAgain(s) <==> s.file
  {
    if s.file {
      forall states, steps, r | Restarted(s, states, steps)
        ensures !PastLatched(states[|steps|], r)
      {
        NothingStartsAfterARestart(states, steps, 0, |steps|, r);
      }
    } else {
      UnwrittenLatchIsForgotten(s, 1);
      assert PastLatched(FirstStates(s, 1)[5], 1);
    }
  }

  /** It happens: the tripwire fires, the process ends before the file is written, and the next one is not latched. */
  lemma FiredButNotWritten(states: seq<State>, steps: seq<Step>)
    requires IsRun(states, steps) && states[0] == State(false, false, map[0 := Running]) && steps == [Finish(0, BILLED)]
    ensures states[1].tripped && !NeverStartsAgain(states[1])
  {
    FiringTrips(states, steps, 0, 0, BILLED);
    assert Stepped(states[0], steps[0], states[1]);
    OnlyTheFileOutlivesARestart(states[1]);
  }
}
