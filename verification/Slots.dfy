/**
Completions at once in the router (crates/itsaresume-router/src/server.rs): a counter taken by compare-exchange and
given back on drop, by threads that interleave at every atomic step.
*/
module Slots {
  const MAX_CONCURRENT_COMPLETIONS := 4

  /** Where a request's thread is: it read the counter and is about to compare and exchange, it holds a slot, … */
  datatype Phase = Idle | Trying(current: nat) | Holding | Refused

  datatype State = State(running: int, threads: map<nat, Phase>)

  datatype Step = Load(t: nat) | Exchange(t: nat) | Drop(t: nat)

  predicate Enabled(s: State, step: Step) {
    match step
    case Load(t) => t !in s.threads || s.threads[t] == Idle
    case Exchange(t) => t in s.threads && s.threads[t].Trying?
    case Drop(t) => t in s.threads && s.threads[t] == Holding
  }

  /** `running.load`, one turn of the loop, `fetch_sub`. */
  function Next(s: State, step: Step): State
    requires Enabled(s, step) && 0 <= s.running
  {
    match step
    case Load(t) => s.(threads := s.threads[t := Trying(s.running)])
    case Exchange(t) =>
      var current := s.threads[t].current;
      if current >= MAX_CONCURRENT_COMPLETIONS then s.(threads := s.threads[t := Refused])
      else if s.running == current then State(current + 1, s.threads[t := Holding])
      else s.(threads := s.threads[t := Trying(s.running)])
    case Drop(t) => State(s.running - 1, s.threads[t := Idle])
  }

  function Holders(threads: map<nat, Phase>): set<nat> {
    set t | t in threads && threads[t] == Holding
  }

  /** The counter counts the slots held, and never passes the cap. */
  ghost predicate Sound(s: State) {
    s.running == |Holders(s.threads)| && s.running <= MAX_CONCURRENT_COMPLETIONS
  }

  lemma HoldersAfter(threads: map<nat, Phase>, t: nat, phase: Phase)
    ensures Holders(threads[t := phase]) == if phase == Holding then Holders(threads) + {t} else Holders(threads) - {t}
  {
  }

  lemma StepKeepsSound(s: State, step: Step)
    requires Sound(s) && Enabled(s, step)
    ensures Sound(Next(s, step))
  {
    HoldersAfter(s.threads, step.t, Next(s, step).threads[step.t]);
  }

  /** A thread that was not turned away always has a step to take. */
  lemma AThreadCanGoOn(s: State, t: nat)
    ensures (exists step: Step :: step.t == t && Enabled(s, step)) <==> !(t in s.threads && s.threads[t] == Refused)
  {
    assert Enabled(s, Load(t)) || Enabled(s, Exchange(t)) || Enabled(s, Drop(t)) || (t in s.threads && s.threads[t] == Refused);
  }

  // ---------------------------------------------------------------- whole runs

  const START := State(0, map[])

  ghost predicate IsRun(states: seq<State>, steps: seq<Step>) {
    && |states| == |steps| + 1 && states[0] == START
    && forall i :: 0 <= i < |steps| ==> Stepped(states[i], steps[i], states[i + 1])
  }

  ghost predicate Stepped(s: State, step: Step, after: State) {
    0 <= s.running && Enabled(s, step) && after == Next(s, step)
  }

  /** Under every interleaving, failed compare-exchanges included, the counter is the slots held, within the cap. */
  lemma {:induction false} EveryRunIsSound(states: seq<State>, steps: seq<Step>, i: nat)
    requires IsRun(states, steps) && i < |states|
    ensures Sound(states[i])
  {
    if i == 0 {
      assert Holders(START.threads) == {};
    } else {
      EveryRunIsSound(states, steps, i - 1);
      assert Stepped(states[i - 1], steps[i - 1], states[i]);
      StepKeepsSound(states[i - 1], steps[i - 1]);
    }
  }

  /** The thread's last load before state `i`: its request has been served since. */
  ghost predicate SinceLoad(steps: seq<Step>, l: nat, i: nat, t: nat) {
    l < i <= |steps| && steps[l] == Load(t) && forall k :: l < k < i ==> steps[k] != Load(t)
  }

  /** The counter had this value at instant `j`, since the thread's load at `l`. */
  ghost predicate ReadSince(states: seq<State>, steps: seq<Step>, i: nat, t: nat, current: int, l: nat, j: nat)
    requires |states| == |steps| + 1 && i <= |steps|
  {
    SinceLoad(steps, l, i, t) && l <= j < i && states[j].running == current
  }

  ghost predicate WasTheCount(states: seq<State>, steps: seq<Step>, i: nat, t: nat, current: int)
    requires |states| == |steps| + 1 && i <= |steps|
  {
    exists l: nat, j: nat :: ReadSince(states, steps, i, t, current, l, j)
  }

  lemma StillSinceLoad(steps: seq<Step>, l: nat, i: nat, t: nat)
    requires SinceLoad(steps, l, i, t) && i < |steps| && steps[i] != Load(t)
    ensures SinceLoad(steps, l, i + 1, t)
  {
  }

  /** Another step of the run: what was read is still read since the load, and so is the counter of the last state. */
  lemma StillRead(states: seq<State>, steps: seq<Step>, i: nat, t: nat, current: int)
    requires |states| == |steps| + 1 && i < |steps| && steps[i] != Load(t) && WasTheCount(states, steps, i, t, current)
    ensures WasTheCount(states, steps, i + 1, t, current) && WasTheCount(states, steps, i + 1, t, states[i].running)
  {
    var l: nat, j: nat :| ReadSince(states, steps, i, t, current, l, j);
    StillSinceLoad(steps, l, i, t);
    assert ReadSince(states, steps, i + 1, t, current, l, j);
    assert ReadSince(states, steps, i + 1, t, states[i].running, l, i);
  }

  lemma TryingComesFrom(s: State, step: Step, t: nat)
    requires 0 <= s.running && Enabled(s, step) && t in Next(s, step).threads && Next(s, step).threads[t].Trying?
    ensures step == Load(t) ==> Next(s, step).threads[t].current == s.running
    ensures step != Load(t) ==> t in s.threads && s.threads[t].Trying?
    ensures step != Load(t) ==> Next(s, step).threads[t].current in {s.threads[t].current, s.running}
  {
  }

  /** A value a thread is about to exchange was the counter's at some instant since its load. */
  lemma {:induction false} TriedValueWasRead(states: seq<State>, steps: seq<Step>, i: nat, t: nat)
    requires IsRun(states, steps) && i < |states| && t in states[i].threads && states[i].threads[t].Trying?
    ensures WasTheCount(states, steps, i, t, states[i].threads[t].current)
  {
    if i > 0 {
      assert Stepped(states[i - 1], steps[i - 1], states[i]);
      TryingComesFrom(states[i - 1], steps[i - 1], t);
      if steps[i - 1] == Load(t) {
        assert ReadSince(states, steps, i, t, states[i - 1].running, i - 1, i - 1);
      } else {
        TriedValueWasRead(states, steps, i - 1, t);
        StillRead(states, steps, i - 1, t, states[i - 1].threads[t].current);
      }
    }
  }

  /** A request is turned away only if, at some instant between its load and its refusal, every slot was held. */
  lemma RefusedOnlyWhenFull(states: seq<State>, steps: seq<Step>, i: nat, t: nat)
    requires IsRun(states, steps) && i < |steps| && steps[i] == Exchange(t)
    requires t in states[i + 1].threads && states[i + 1].threads[t] == Refused
    ensures exists l: nat, j: nat :: SinceLoad(steps, l, i, t) && l <= j < i && |Holders(states[j].threads)| == MAX_CONCURRENT_COMPLETIONS
  {
    assert Stepped(states[i], steps[i], states[i + 1]);
    TriedValueWasRead(states, steps, i, t);
    var l: nat, j: nat :| ReadSince(states, steps, i, t, states[i].threads[t].current, l, j);
    EveryRunIsSound(states, steps, j);
  }

  /** A step that takes a slot or gives one back. */
  ghost predicate MovesTheCount(states: seq<State>, steps: seq<Step>, k: nat)
    requires |states| == |steps| + 1 && k < |steps|
  {
    steps[k].Drop? || (steps[k].Exchange? && states[k + 1].running == states[k].running + 1)
  }

  /** Two different counts: some thread took or gave back a slot in between. */
  lemma {:induction false} StaleMeansProgress(states: seq<State>, steps: seq<Step>, i: nat, j: nat)
    requires IsRun(states, steps) && i < j < |states| && states[j].running != states[i].running
    ensures exists k: nat :: i <= k < j && MovesTheCount(states, steps, k)
  {
    assert Stepped(states[j - 1], steps[j - 1], states[j]);
    if states[j - 1].running == states[j].running {
      StaleMeansProgress(states, steps, i, j - 1);
    } else {
      assert MovesTheCount(states, steps, j - 1);
    }
  }

  /**
   An exchange that fails: since the thread's load, some thread took or gave back a slot, so the loop never turns for
   nothing.
   */
  lemma FailedExchangeMeansProgress(states: seq<State>, steps: seq<Step>, i: nat, t: nat)
    requires IsRun(states, steps) && i < |steps| && steps[i] == Exchange(t)
    requires t in states[i + 1].threads && states[i + 1].threads[t].Trying?
    ensures exists l: nat, k: nat :: SinceLoad(steps, l, i, t) && l <= k < i && MovesTheCount(states, steps, k)
  {
    assert Stepped(states[i], steps[i], states[i + 1]);
    TriedValueWasRead(states, steps, i, t);
    var l: nat, j: nat :| ReadSince(states, steps, i, t, states[i].threads[t].current, l, j);
    StaleMeansProgress(states, steps, j, i);
    var k: nat :| j <= k < i && MovesTheCount(states, steps, k);
    assert SinceLoad(steps, l, i, t) && l <= k < i;
  }
}
