/**
The local server's slots (crates/itsaresume-router/src/lm_studio.rs): a count under a mutex and a condition
variable, with a deadline for each request. Every critical section is one step; threads interleave between them.
*/
module Monitor {

  /**
   A request's thread: about to lock with a deadline, asleep on the condition variable, holding a slot, having given
   it back but not yet notified, or having given up.
   */
  datatype Phase = Away | Wanting(deadline: int) | Asleep(deadline: int) | Holding | Notifying | GaveUp

  datatype State = State(free: int, threads: map<nat, Phase>)

  /** `wake` of a notification: the sleeper the condition variable picks, if any sleeps. */
  datatype Step =
    | Come(t: nat, deadline: int)
    | Look(t: nat, now: int)
    | Wake(t: nat)
    | GiveBack(t: nat)
    | Notify(t: nat, picked: nat)

  predicate Is(s: State, t: nat, phase: Phase) {
    t in s.threads && s.threads[t] == phase
  }

  predicate Sleeps(s: State, t: nat) {
    t in s.threads && s.threads[t].Asleep?
  }

  predicate Enabled(s: State, step: Step) {
    match step
    case Come(t, deadline) => t !in s.threads || s.threads[t] == Away || s.threads[t] == GaveUp
    case Look(t, now) => t in s.threads && s.threads[t].Wanting?
    case Wake(t) => Sleeps(s, t)
    case GiveBack(t) => Is(s, t, Holding)
    case Notify(t, picked) => Is(s, t, Notifying) && ((exists u :: u in s.threads && Sleeps(s, u)) ==> Sleeps(s, picked))
  }

  function With(s: State, t: nat, phase: Phase): State {
    s.(threads := s.threads[t := phase])
  }

  /** `take`'s turns under the lock, a timeout or a spurious wake-up, and the two halves of `drop`. */
  function Next(s: State, step: Step): State
    requires Enabled(s, step)
  {
    match step
    case Come(t, deadline) => With(s, t, Wanting(deadline))
    case Look(t, now) =>
      var deadline := s.threads[t].deadline;
      if s.free > 0 then With(s.(free := s.free - 1), t, Holding)
      else if now > deadline then With(s, t, GaveUp)
      else With(s, t, Asleep(deadline))
    case Wake(t) => With(s, t, Wanting(s.threads[t].deadline))
    case GiveBack(t) => With(s.(free := s.free + 1), t, Notifying)
    case Notify(t, picked) =>
      var gone := With(s, t, Away);
      if Sleeps(s, picked) then With(gone, picked, Wanting(s.threads[picked].deadline)) else gone
  }

  // ---------------------------------------------------------------- who is where

  datatype Class = Holder | Awake | Bell | Sleeper

  predicate In(phase: Phase, c: Class) {
    match c
    case Holder => phase == Holding
    case Awake => phase.Wanting?
    case Bell => phase == Notifying
    case Sleeper => phase.Asleep?
  }

  function Of(threads: map<nat, Phase>, c: Class): set<nat> {
    set t | t in threads && In(threads[t], c)
  }

  lemma OfAfter(threads: map<nat, Phase>, t: nat, phase: Phase, c: Class)
    ensures Of(threads[t := phase], c) == if In(phase, c) then Of(threads, c) + {t} else Of(threads, c) - {t}
  {
  }

  lemma CountAfter(s: State, t: nat, phase: Phase, c: Class)
    ensures |Of(With(s, t, phase).threads, c)|
      == |Of(s.threads, c)| + (if In(phase, c) then 1 else 0) - (if t in s.threads && In(s.threads[t], c) then 1 else 0)
  {
    OfAfter(s.threads, t, phase, c);
  }

  /** Free and held slots are the configured count. */
  ghost predicate Conserved(s: State, count: nat) {
    s.free >= 0 && s.free + |Of(s.threads, Holder)| == count
  }

  /** While anyone sleeps, every free slot has a thread awake to take it, or a notification on its way. */
  ghost predicate NoLostWakeup(s: State) {
    Of(s.threads, Sleeper) != {} ==> s.free <= |Of(s.threads, Awake)| + |Of(s.threads, Bell)|
  }

  ghost predicate Sound(s: State, count: nat) {
    Conserved(s, count) && NoLostWakeup(s)
  }

  lemma StepConserves(s: State, step: Step, count: nat)
    requires Conserved(s, count) && Enabled(s, step)
    ensures Conserved(Next(s, step), count)
  {
    match step
    case Come(t, deadline) => CountAfter(s, t, Wanting(deadline), Holder);
    case Look(t, now) => CountAfter(s, t, Next(s, step).threads[t], Holder);
    case Wake(t) => CountAfter(s, t, Next(s, step).threads[t], Holder);
    case GiveBack(t) => CountAfter(s, t, Notifying, Holder);
    case Notify(t, picked) =>
      CountAfter(s, t, Away, Holder);
      CountAfter(With(s, t, Away), picked, Next(s, step).threads[t], Holder);
      if Sleeps(s, picked) {
        CountAfter(With(s, t, Away), picked, Wanting(s.threads[picked].deadline), Holder);
      }
  }

  lemma OneMoves(s: State, t: nat, phase: Phase)
    ensures |Of(With(s, t, phase).threads, Awake)| + |Of(With(s, t, phase).threads, Bell)|
      == |Of(s.threads, Awake)| + |Of(s.threads, Bell)|
         + (if phase.Wanting? || phase == Notifying then 1 else 0)
         - (if t in s.threads && (s.threads[t].Wanting? || s.threads[t] == Notifying) then 1 else 0)
  {
    CountAfter(s, t, phase, Awake);
    CountAfter(s, t, phase, Bell);
  }

  /** A step of one thread alone: while it takes what is free, wakes, or comes, nobody is left asleep beside a free slot. */
  lemma OneMoveLosesNoWakeup(s: State, t: nat, phase: Phase, taken: int)
    requires NoLostWakeup(s) && 0 <= s.free
    requires phase.Asleep? ==> s.free == 0 && taken == 0
    requires !phase.Asleep? && t in s.threads && s.threads[t].Asleep? ==> taken == 0 && phase.Wanting?
    requires taken >= (if t in s.threads && (s.threads[t].Wanting? || s.threads[t] == Notifying) then 1 else 0)
             - (if phase.Wanting? || phase == Notifying then 1 else 0) || s.free - taken <= 0
    ensures NoLostWakeup(With(s.(free := s.free - taken), t, phase))
  {
    OneMoves(s, t, phase);
    OfAfter(s.threads, t, phase, Sleeper);
    if t in s.threads && s.threads[t].Asleep? {
      assert t in Of(s.threads, Sleeper);
    }
  }

  lemma NotifyLosesNoWakeup(s: State, t: nat, picked: nat)
    requires NoLostWakeup(s) && Enabled(s, Notify(t, picked))
    ensures NoLostWakeup(Next(s, Notify(t, picked)))
  {
    OneMoves(s, t, Away);
    OfAfter(s.threads, t, Away, Sleeper);
    if Sleeps(s, picked) {
      OneMoves(With(s, t, Away), picked, Wanting(s.threads[picked].deadline));
      assert picked in Of(s.threads, Sleeper);
    } else {
      assert forall u :: u in s.threads ==> !Sleeps(s, u);
    }
  }

  lemma StepLosesNoWakeup(s: State, step: Step, count: nat)
    requires Sound(s, count) && Enabled(s, step)
    ensures NoLostWakeup(Next(s, step))
  {
    match step
    case Come(t, deadline) => OneMoveLosesNoWakeup(s, t, Wanting(deadline), 0);
    case Look(t, now) => OneMoveLosesNoWakeup(s, t, Next(s, step).threads[t], if s.free > 0 then 1 else 0);
    case Wake(t) => OneMoveLosesNoWakeup(s, t, Wanting(s.threads[t].deadline), 0);
    case GiveBack(t) => OneMoveLosesNoWakeup(s, t, Notifying, -1);
    case Notify(t, picked) => NotifyLosesNoWakeup(s, t, picked);
  }

  // ---------------------------------------------------------------- whole runs

  ghost predicate Stepped(s: State, step: Step, after: State) {
    Enabled(s, step) && after == Next(s, step)
  }

  ghost predicate IsRun(states: seq<State>, steps: seq<Step>, count: nat) {
    && |states| == |steps| + 1 && states[0] == State(count, map[])
    && forall i :: 0 <= i < |steps| ==> Stepped(states[i], steps[i], states[i + 1])
  }

  /** Under every interleaving, timeouts and spurious wake-ups included: no slot is lost, and no wake-up. */
  lemma {:induction false} EveryRunIsSound(states: seq<State>, steps: seq<Step>, count: nat, i: nat)
    requires IsRun(states, steps, count) && i < |states|
    ensures Sound(states[i], count)
  {
    if i == 0 {
      assert Of(map[], Holder) == {} && Of(map[], Sleeper) == {};
    } else {
      EveryRunIsSound(states, steps, count, i - 1);
      assert Stepped(states[i - 1], steps[i - 1], states[i]);
      StepConserves(states[i - 1], steps[i - 1], count);
      StepLosesNoWakeup(states[i - 1], steps[i - 1], count);
    }
  }

  /** When nothing is on its way any more, nobody sleeps beside a free slot. */
  lemma NobodySleepsBesideAFreeSlot(states: seq<State>, steps: seq<Step>, count: nat, i: nat, t: nat)
    requires IsRun(states, steps, count) && i < |states| && Sleeps(states[i], t)
    requires Of(states[i].threads, Awake) == {} && Of(states[i].threads, Bell) == {}
    ensures states[i].free == 0 && |Of(states[i].threads, Holder)| == count
  {
    EveryRunIsSound(states, steps, count, i);
    assert t in Of(states[i].threads, Sleeper);
  }

  /** A request gives up only past its deadline, and only while every slot is held. */
  lemma GivesUpOnlyLate(states: seq<State>, steps: seq<Step>, count: nat, i: nat, t: nat, now: int)
    requires IsRun(states, steps, count) && i < |steps| && steps[i] == Look(t, now) && Is(states[i + 1], t, GaveUp)
    ensures states[i].threads[t].deadline < now && |Of(states[i].threads, Holder)| == count
  {
    EveryRunIsSound(states, steps, count, i);
    assert Stepped(states[i], steps[i], states[i + 1]);
  }
}
