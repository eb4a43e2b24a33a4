/**
The public page's caps (cv/src/server.js): generations per day for everyone, per hour for a client, and jobs in
flight. The server remembers a day of admissions only, by a clock that may be set back; the caps hold over its whole
life, in windows shorter by the largest setback.
*/
module Gate {
  import opened Collections
  import opened Windows

  datatype Limits = Limits(perDay: nat, perVisitorPerHour: nat, maxQueued: nat)

  datatype Verdict = Admitted | TooMuchInFlight | ClientOverItsHour | DayOver

  datatype Asking = Asking(now: int, client: string, count: nat, inFlight: nat)

  /** The verdict as the owner states it, over everything ever admitted. */
  function Ruled(limits: Limits, history: seq<Event>, a: Asking): Verdict {
    if a.inFlight + a.count > limits.maxQueued then TooMuchInFlight
    else if Count(history, Some(a.client), a.now - HOUR, a.now) + a.count > limits.perVisitorPerHour then ClientOverItsHour
    else if Count(history, None, a.now - DAY, a.now) + a.count > limits.perDay then DayOver
    else Admitted
  }

  // ---------------------------------------------------------------- what the server does

  /** The admissions still remembered: `accepted.shift()` while the first is a day old. */
  function Kept(accepted: seq<Event>, now: int): seq<Event> {
    if accepted != [] && accepted[0].at <= now - DAY then Kept(accepted[1..], now) else accepted
  }

  /** The verdict the server gives, from what it remembers. */
  function Decided(limits: Limits, kept: seq<Event>, a: Asking): Verdict {
    if a.inFlight + a.count > limits.maxQueued then TooMuchInFlight
    else if After(kept, a.client, a.now - HOUR) + a.count > limits.perVisitorPerHour then ClientOverItsHour
    else if |kept| + a.count > limits.perDay then DayOver
    else Admitted
  }

  /** What the server remembers, and beside it everything ever admitted and the clock as it was read. */
  datatype Books = Books(accepted: seq<Event>, history: seq<Event>, clock: Clock)

  function Opened(b: Books, now: int): Books {
    Books(Kept(b.accepted, now), b.history, Read(b.clock, now))
  }

  function Entered(b: Books, a: Asking): Books {
    b.(accepted := b.accepted + Burst(a.now, a.client, a.count), history := b.history + Burst(a.now, a.client, a.count))
  }

  function AfterAsking(limits: Limits, b: Books, a: Asking): Books {
    var open := Opened(b, a.now);
    if Decided(limits, open.accepted, a) == Admitted then Entered(open, a) else open
  }

  function AfterRun(limits: Limits, start: int, asked: seq<Asking>): Books {
    if asked == [] then Books([], [], Clock(start, 0))
    else AfterAsking(limits, AfterRun(limits, start, asked[..|asked| - 1]), asked[|asked| - 1])
  }

  // ---------------------------------------------------------------- the caps, over every run

  /** The caps, in every window of a day or an hour shortened by the setback, wherever it ends. */
  ghost predicate WithinCaps(limits: Limits, history: seq<Event>, setback: nat) {
    && AtMost(history, None, DAY - setback, limits.perDay)
    && forall client :: AtMost(history, Some(client), Min(HOUR, DAY - setback), limits.perVisitorPerHour)
  }

  /** The admissions remembered: the history without a prefix that is a day old by the highest reading. */
  ghost predicate Remembers(b: Books) {
    && AllBy(b.history, b.clock.latest)
    && |b.accepted| <= |b.history|
    && b.history[|b.history| - |b.accepted|..] == b.accepted
    && AllBy(b.history[..|b.history| - |b.accepted|], b.clock.latest - DAY)
  }

  ghost predicate Right(limits: Limits, b: Books) {
    && Remembers(b)
    && WithinCaps(limits, b.history, b.clock.setback)
    && (b.clock.setback == 0 ==> Sorted(b.history))
  }

  lemma ShiftRemembers(b: Books, now: int)
    requires Remembers(b) && b.accepted != [] && b.accepted[0].at <= now - DAY && now <= b.clock.latest
    ensures Remembers(b.(accepted := b.accepted[1..]))
  {
    var cut := |b.history| - |b.accepted|;
    assert b.history[..cut + 1] == b.history[..cut] + [b.history[cut]];
    assert b.history[cut] == b.accepted[0];
  }

  lemma {:induction false} KeptRemembers(b: Books, now: int)
    requires Remembers(b) && now <= b.clock.latest
    ensures Remembers(b.(accepted := Kept(b.accepted, now)))
    decreases |b.accepted|
  {
    if b.accepted != [] && b.accepted[0].at <= now - DAY {
      ShiftRemembers(b, now);
      KeptRemembers(b.(accepted := b.accepted[1..]), now);
    }
  }

  lemma OpenedRemembers(b: Books, now: int)
    requires Remembers(b)
    ensures Remembers(Opened(b, now))
  {
    var open := Opened(b, now);
    KeptRemembers(b.(clock := open.clock), now);
  }

  lemma OpenedIsRight(limits: Limits, b: Books, now: int)
    requires Right(limits, b)
    ensures Right(limits, Opened(b, now))
  {
    var open := Opened(b, now);
    OpenedRemembers(b, now);
    AtMostShorter(b.history, None, DAY - b.clock.setback, DAY - open.clock.setback, limits.perDay);
    var before, after := Min(HOUR, DAY - b.clock.setback), Min(HOUR, DAY - open.clock.setback);
    forall client
      ensures AtMost(b.history, Some(client), after, limits.perVisitorPerHour)
    {
      AtMostShorter(b.history, Some(client), before, after, limits.perVisitorPerHour);
    }
  }

  /** A window no longer than a day less the setback, counted on what is remembered, is counted on the whole history. */
  lemma RememberedCount(b: Books, now: int, who: Option<string>, span: int)
    requires Remembers(b) && b.clock.latest - b.clock.setback <= now && span <= DAY - b.clock.setback
    ensures Count(b.accepted, who, now - span, b.clock.latest) == Count(b.history, who, now - span, b.clock.latest)
  {
    var cut := |b.history| - |b.accepted|;
    assert b.history == b.history[..cut] + b.accepted;
    CountAppend(b.history[..cut], b.accepted, who, now - span, b.clock.latest);
    CountNone(b.history[..cut], who, now - span, b.clock.latest);
  }

  lemma RememberedIsPast(b: Books)
    requires Remembers(b)
    ensures AllBy(b.accepted, b.clock.latest)
  {
    assert forall k :: 0 <= k < |b.accepted| ==> b.accepted[k] == b.history[|b.history| - |b.accepted| + k];
  }

  /** One check on what is remembered keeps a cap over the whole history. */
  lemma EnteredKeepsTheCap(b: Books, a: Asking, span: int, who: Option<string>, most: int)
    requires Remembers(b) && b.clock.latest - b.clock.setback <= a.now <= b.clock.latest && span <= DAY - b.clock.setback
    requires AtMost(b.history, who, span, most) && Count(b.accepted, who, a.now - span, b.clock.latest) + a.count <= most
    ensures AtMost(b.history + Burst(a.now, a.client, a.count), who, span, most)
  {
    var burst := Burst(a.now, a.client, a.count);
    CountAppend(b.history, burst, who, a.now - span, b.clock.latest);
    CountAtMostAll(burst, who, a.now - span, b.clock.latest);
    RememberedCount(b, a.now, who, span);
    AddedWithinTheCap(b.history, burst, who, span, most, a.now, b.clock.latest);
  }

  lemma EnteredRemembers(b: Books, a: Asking)
    requires Remembers(b) && a.now <= b.clock.latest
    ensures Remembers(Entered(b, a))
  {
    var longer, cut := b.history + Burst(a.now, a.client, a.count), |b.history| - |b.accepted|;
    assert longer[..cut] == b.history[..cut];
    assert longer[cut..] == b.history[cut..] + Burst(a.now, a.client, a.count);
  }

  lemma EnteredWithinCaps(limits: Limits, b: Books, a: Asking)
    requires Right(limits, b) && b.clock.latest - b.clock.setback <= a.now <= b.clock.latest && Decided(limits, b.accepted, a) == Admitted
    ensures WithinCaps(limits, Entered(b, a).history, b.clock.setback)
  {
    CountAtMostAll(b.accepted, None, a.now - (DAY - b.clock.setback), b.clock.latest);
    EnteredKeepsTheCap(b, a, DAY - b.clock.setback, None, limits.perDay);
    var hour := Min(HOUR, DAY - b.clock.setback);
    RememberedIsPast(b);
    AfterIsTheCount(b.accepted, a.client, a.now - HOUR, b.clock.latest);
    CountNarrower(b.accepted, Some(a.client), a.now - HOUR, b.clock.latest, a.now - hour, b.clock.latest);
    forall client
      ensures AtMost(Entered(b, a).history, Some(client), hour, limits.perVisitorPerHour)
    {
      assert AtMost(b.history, Some(client), hour, limits.perVisitorPerHour);
      if client == a.client {
        EnteredKeepsTheCap(b, a, hour, Some(client), limits.perVisitorPerHour);
      } else {
        OthersAddNothing(b.history, Burst(a.now, a.client, a.count), Some(client), hour, limits.perVisitorPerHour);
      }
    }
  }

  lemma AskingKeepsThemRight(limits: Limits, b: Books, a: Asking)
    requires Right(limits, b)
    ensures Right(limits, AfterAsking(limits, b, a))
  {
    var open := Opened(b, a.now);
    OpenedIsRight(limits, b, a.now);
    if Decided(limits, open.accepted, a) == Admitted {
      EnteredRemembers(open, a);
      EnteredWithinCaps(limits, open, a);
    }
  }

  /**
   Whatever is asked, by whom and when, however the clock is set: never more than the day's cap in a day less the
   largest setback, never more than a client's in an hour (or in that shortened day, if it is less than an hour).
   */
  lemma {:induction false} EveryRunStaysWithinCaps(limits: Limits, start: int, asked: seq<Asking>)
    ensures Right(limits, AfterRun(limits, start, asked))
  {
    if asked != [] {
      var n := |asked| - 1;
      EveryRunStaysWithinCaps(limits, start, asked[..n]);
      AskingKeepsThemRight(limits, AfterRun(limits, start, asked[..n]), asked[n]);
    }
  }

  function Readings(asked: seq<Asking>): seq<int> {
    Mapped(asked, (a: Asking) => a.now)
  }

  lemma {:induction false} RunReadsTheClock(limits: Limits, start: int, asked: seq<Asking>)
    ensures AfterRun(limits, start, asked).clock == ClockAfter(start, Readings(asked))
  {
    if asked != [] {
      RunReadsTheClock(limits, start, asked[..|asked| - 1]);
      assert Readings(asked)[..|asked| - 1] == Readings(asked[..|asked| - 1]);
    }
  }

  /** Only a clock that never steps back has no setback: the caps then hold in every whole day and every whole hour. */
  lemma SteadyClockHasNoSetback(limits: Limits, start: int, asked: seq<Asking>)
    ensures AfterRun(limits, start, asked).clock.setback == 0 <==> NeverStepsBack(start, Readings(asked))
  {
    RunReadsTheClock(limits, start, asked);
    SteadyClock(start, Readings(asked));
  }

  const TIGHT := Limits(1, 9, 9)

  lemma TightAsking(b: Books, a: Asking, open: Books)
    requires open == Opened(b, a.now) && a.inFlight == 0 && a.count <= 1 && a.count + |open.accepted| <= 1
    ensures AfterAsking(TIGHT, b, a) == if a.count == 1 then Entered(open, a) else open
    ensures Burst(a.now, a.client, a.count) == if a.count == 1 then [Event(a.now, a.client)] else []
  {
    CountAtMostAll(open.accepted, Some(a.client), a.now - HOUR, a.now);
    AfterAtMostAll(open.accepted, a.client, a.now - HOUR);
    assert open.accepted + [] == open.accepted && open.history + [] == open.history;
  }

  /**
   No longer window will do: a clock a day ahead, then set back, admits twice within a day less the setback and one
   millisecond.
   */
  lemma TheSetbackCounts(setback: nat, start: int)
    requires 0 < setback <= DAY
    ensures exists asked :: BreaksTheDay(asked, start, setback)
  {
    var first, ahead, back := Asking(start, "a", 1, 0), Asking(start + DAY, "a", 0, 0), Asking(start + DAY - setback, "b", 1, 0);
    var asked := [first, ahead, back];
    assert asked[..2] == [first, ahead] && asked[..2][..1] == [first] && [first][..0] == [];
    var none := AfterRun(TIGHT, start, []);
    TightAsking(none, first, none);
    var one := AfterRun(TIGHT, start, [first]);
    assert one == Books([Event(start, "a")], [Event(start, "a")], Clock(start, 0));
    assert Kept(one.accepted, ahead.now) == Kept([], ahead.now) == [];
    TightAsking(one, ahead, Opened(one, ahead.now));
    var two := AfterRun(TIGHT, start, asked[..2]);
    assert two == Books([], [Event(start, "a")], Clock(start + DAY, 0));
    TightAsking(two, back, Opened(two, back.now));
    var three := AfterRun(TIGHT, start, asked);
    TwoInAWindow(three.history, start, back.now, DAY - setback + 1);
    assert BreaksTheDay(asked, start, setback);
  }

  lemma TwoInAWindow(history: seq<Event>, early: int, late: int, span: int)
    requires history == [Event(early, "a"), Event(late, "b")] && late - span < early <= late
    ensures CountEnding(history, None, span, late) == 2
  {
    assert history[..1] == [Event(early, "a")] && history[..1][..0] == [];
    assert Count(history, None, late - span, late) == Count(history[..1], None, late - span, late) + 1;
  }

  ghost predicate BreaksTheDay(asked: seq<Asking>, start: int, setback: nat) {
    var after := AfterRun(TIGHT, start, asked);
    after.clock.setback == setback && !AtMost(after.history, None, DAY - setback + 1, 1)
  }

  // ---------------------------------------------------------------- memory against the whole history

  lemma {:induction false} KeptStartsToday(accepted: seq<Event>, now: int)
    ensures Kept(accepted, now) == [] || Kept(accepted, now)[0].at > now - DAY
  {
    if accepted != [] && accepted[0].at <= now - DAY {
      KeptStartsToday(accepted[1..], now);
    }
  }

  lemma RememberedDay(b: Books)
    requires Remembers(b) && Sorted(b.history)
    requires b.accepted == [] || b.accepted[0].at > b.clock.latest - DAY
    ensures |b.accepted| == Count(b.accepted, None, b.clock.latest - DAY, b.clock.latest)
  {
    var cut := |b.history| - |b.accepted|;
    forall k | 0 <= k < |b.accepted|
      ensures InWindow(b.accepted[k], None, b.clock.latest - DAY, b.clock.latest)
    {
      assert b.accepted[k] == b.history[cut + k] && b.accepted[0] == b.history[cut];
    }
    CountAll(b.accepted, None, b.clock.latest - DAY, b.clock.latest);
  }

  /** While the clock was never set back, the server's verdict is the owner's, over everything ever admitted. */
  lemma MemorySuffices(limits: Limits, b: Books, a: Asking)
    requires Right(limits, b) && Opened(b, a.now).clock.setback == 0
    ensures Decided(limits, Kept(b.accepted, a.now), a) == Ruled(limits, b.history, a)
  {
    var open := Opened(b, a.now);
    OpenedIsRight(limits, b, a.now);
    KeptStartsToday(b.accepted, a.now);
    RememberedDay(open);
    RememberedCount(open, a.now, None, DAY);
    RememberedIsPast(open);
    AfterIsTheCount(open.accepted, a.client, a.now - HOUR, a.now);
    RememberedCount(open, a.now, Some(a.client), HOUR);
  }

  class PublicGate {
    const limits: Limits
    var accepted: seq<Event>
    /** Everything ever admitted, and the clock as it was read. */
    ghost var history: seq<Event>
    ghost var clock: Clock

    ghost function Account(): Books
      reads this
    {
      Books(accepted, history, clock)
    }

    ghost predicate Valid()
      reads this
    {
      Right(limits, Account())
    }

    constructor (limits: Limits, ghost start: int)
      ensures Valid() && this.limits == limits && Account() == AfterRun(limits, start, [])
    {
      this.limits := limits;
      accepted, history, clock := [], [], Clock(start, 0);
      new;
      EveryRunStaysWithinCaps(limits, start, []);
    }

    /** The loop that forgets what is a day old. */
    method Forget(now: int)
      modifies this`accepted
      ensures accepted == Kept(old(accepted), now)
    {
      while accepted != [] && accepted[0].at <= now - DAY
        invariant Kept(accepted, now) == Kept(old(accepted), now)
        decreases |accepted|
      {
        accepted := accepted[1..];
      }
    }

    /** A reading of the clock, and what it makes the server forget. */
    method Open(now: int)
      modifies this
      ensures Account() == Opened(old(Account()), now)
    {
      clock := Read(clock, now);
      Forget(now);
    }

    /** The filter that counts a client's admissions. */
    method CountAfter(client: string, from: int) returns (count: nat)
      ensures count == After(accepted, client, from)
    {
      count := 0;
      var i := 0;
      while i < |accepted|
        invariant 0 <= i <= |accepted|
        invariant count == After(accepted[..i], client, from)
      {
        assert accepted[..i + 1][..i] == accepted[..i];
        if accepted[i].who == client && accepted[i].at > from {
          count := count + 1;
        }
        i := i + 1;
      }
      PrefixAll(accepted);
    }

    method Check(a: Asking) returns (verdict: Verdict)
      ensures verdict == Decided(limits, accepted, a)
    {
      if a.inFlight + a.count > limits.maxQueued {
        return TooMuchInFlight;
      }
      var recent := CountAfter(a.client, a.now - HOUR);
      if recent + a.count > limits.perVisitorPerHour {
        return ClientOverItsHour;
      }
      if |accepted| + a.count > limits.perDay {
        return DayOver;
      }
      return Admitted;
    }

    /** `admit`: the caps go on holding, and while the clock was never set back the verdict is the owner's. */
    method Admit(a: Asking) returns (verdict: Verdict)
      requires Valid()
      modifies this
      ensures Valid() && Account() == AfterAsking(limits, old(Account()), a)
      ensures verdict == Decided(limits, Kept(old(accepted), a.now), a)
      ensures clock.setback == 0 ==> verdict == Ruled(limits, old(history), a)
      ensures history == old(history) + if verdict == Admitted then Burst(a.now, a.client, a.count) else []
    {
      AskingKeepsThemRight(limits, Account(), a);
      if Opened(Account(), a.now).clock.setback == 0 {
        MemorySuffices(limits, Account(), a);
      }
      Open(a.now);
      verdict := Check(a);
      if verdict == Admitted {
        accepted := accepted + Burst(a.now, a.client, a.count);
        history := history + Burst(a.now, a.client, a.count);
      }
    }
  }
}
