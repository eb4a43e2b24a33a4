/**
Events counted over sliding windows of time: who did something, and when, in milliseconds.
*/
module Windows {
  import opened Collections

  const HOUR := 60 * 60 * 1000
  const DAY := 24 * HOUR

  datatype Event = Event(at: int, who: string)

  predicate InWindow(e: Event, who: Option<string>, from: int, to: int) {
    (who.None? || e.who == who.value) && from < e.at <= to
  }

  /** The events of one, or of everyone, after `from` and up to `to`. */
  function Count(events: seq<Event>, who: Option<string>, from: int, to: int): nat {
    if events == [] then 0
    else
      var n := |events| - 1;
      Count(events[..n], who, from, to) + if InWindow(events[n], who, from, to) then 1 else 0
  }

  /** The events of one after `from`. */
  function After(events: seq<Event>, who: string, from: int): nat {
    if events == [] then 0
    else
      var n := |events| - 1;
      After(events[..n], who, from) + if events[n].who == who && events[n].at > from then 1 else 0
  }

  /** The events of the window of that span that ends at `t`. */
  function CountEnding(events: seq<Event>, who: Option<string>, span: int, t: int): nat {
    Count(events, who, t - span, t)
  }

  /** No window of that span, wherever it ends, ever holds more than `most` events. */
  ghost predicate AtMost(events: seq<Event>, who: Option<string>, span: int, most: int) {
    forall t :: CountEnding(events, who, span, t) <= most
  }

  ghost predicate AllBy(events: seq<Event>, latest: int) {
    forall k :: 0 <= k < |events| ==> events[k].at <= latest
  }

  ghost predicate Sorted(events: seq<Event>) {
    forall j, k :: 0 <= j < k < |events| ==> events[j].at <= events[k].at
  }

  /** The clock as it was read: its highest reading, and how far a later one ever fell below the highest before it. */
  datatype Clock = Clock(latest: int, setback: nat)

  function Read(clock: Clock, now: int): Clock {
    Clock(Max(clock.latest, now), Max(clock.setback, clock.latest - now))
  }

  /** The clock after these readings. */
  function ClockAfter(start: int, readings: seq<int>): Clock {
    if readings == [] then Clock(start, 0)
    else Read(ClockAfter(start, readings[..|readings| - 1]), readings[|readings| - 1])
  }

  ghost predicate NeverStepsBack(start: int, readings: seq<int>) {
    && (forall k :: 0 <= k < |readings| ==> start <= readings[k])
    && (forall j, k :: 0 <= j < k < |readings| ==> readings[j] <= readings[k])
  }

  ghost predicate IsHighest(latest: int, start: int, readings: seq<int>) {
    && start <= latest
    && (forall k :: 0 <= k < |readings| ==> readings[k] <= latest)
    && (latest == start || latest in readings)
  }

  lemma HigherOrNot(latest: int, start: int, before: seq<int>, now: int)
    requires IsHighest(latest, start, before)
    ensures IsHighest(Max(latest, now), start, before + [now])
    ensures NeverStepsBack(start, before + [now]) <==> NeverStepsBack(start, before) && latest <= now
  {
    var readings, n := before + [now], |before|;
    assert readings[n] == now && forall k :: 0 <= k < n ==> readings[k] == before[k];
    if latest != start {
      var k :| 0 <= k < n && before[k] == latest;
      assert readings[k] == latest;
    }
  }

  /** Only a clock that never steps back has no setback. */
  lemma {:induction false} SteadyClock(start: int, readings: seq<int>)
    ensures IsHighest(ClockAfter(start, readings).latest, start, readings)
    ensures ClockAfter(start, readings).setback == 0 <==> NeverStepsBack(start, readings)
  {
    if readings != [] {
      var n := |readings| - 1;
      SteadyClock(start, readings[..n]);
      HigherOrNot(ClockAfter(start, readings[..n]).latest, start, readings[..n], readings[n]);
      assert readings[..n] + [readings[n]] == readings;
    }
  }

  /** `count` events of one at one instant. */
  function Burst(at: int, who: string, count: nat): (r: seq<Event>)
    ensures |r| == count && forall k :: 0 <= k < count ==> r[k] == Event(at, who)
  {
    if count == 0 then [] else Burst(at, who, count - 1) + [Event(at, who)]
  }

  lemma {:induction false} CountAppend(a: seq<Event>, b: seq<Event>, who: Option<string>, from: int, to: int)
    ensures Count(a + b, who, from, to) == Count(a, who, from, to) + Count(b, who, from, to)
  {
    if b == [] {
      assert a + b == a;
    } else {
      var n := |b| - 1;
      CountAppend(a, b[..n], who, from, to);
      assert (a + b)[..|a + b| - 1] == a + b[..n];
    }
  }

  lemma {:induction false} CountNarrower(events: seq<Event>, who: Option<string>, from: int, to: int, from': int, to': int)
    requires from <= from' && to' <= to
    ensures Count(events, who, from', to') <= Count(events, who, from, to)
  {
    if events != [] {
      CountNarrower(events[..|events| - 1], who, from, to, from', to');
    }
  }

  lemma {:induction false} CountNone(events: seq<Event>, who: Option<string>, from: int, to: int)
    requires forall k :: 0 <= k < |events| ==> !InWindow(events[k], who, from, to)
    ensures Count(events, who, from, to) == 0
  {
    if events != [] {
      CountNone(events[..|events| - 1], who, from, to);
    }
  }

  lemma {:induction false} CountAll(events: seq<Event>, who: Option<string>, from: int, to: int)
    requires forall k :: 0 <= k < |events| ==> InWindow(events[k], who, from, to)
    ensures Count(events, who, from, to) == |events|
  {
    if events != [] {
      CountAll(events[..|events| - 1], who, from, to);
    }
  }

  /** Nothing came later than `latest`: a later end counts the same events. */
  lemma {:induction false} CountToLater(events: seq<Event>, who: Option<string>, from: int, latest: int, to: int)
    requires AllBy(events, latest) && latest <= to
    ensures Count(events, who, from, to) == Count(events, who, from, latest)
  {
    if events != [] {
      var n := |events| - 1;
      CountToLater(events[..n], who, from, latest, to);
      assert InWindow(events[n], who, from, to) <==> InWindow(events[n], who, from, latest);
    }
  }

  lemma {:induction false} CountAtMostAll(events: seq<Event>, who: Option<string>, from: int, to: int)
    ensures Count(events, who, from, to) <= |events|
  {
    if events != [] {
      CountAtMostAll(events[..|events| - 1], who, from, to);
    }
  }

  lemma {:induction false} AfterIsTheCount(events: seq<Event>, who: string, from: int, latest: int)
    requires AllBy(events, latest)
    ensures After(events, who, from) == Count(events, Some(who), from, latest)
  {
    if events != [] {
      AfterIsTheCount(events[..|events| - 1], who, from, latest);
    }
  }

  lemma {:induction false} AfterAtMostAll(events: seq<Event>, who: string, from: int)
    ensures After(events, who, from) <= |events|
  {
    if events != [] {
      AfterAtMostAll(events[..|events| - 1], who, from);
    }
  }

  /** What holds of every window holds of every shorter one. */
  lemma AtMostShorter(events: seq<Event>, who: Option<string>, span: int, shorter: int, most: int)
    requires AtMost(events, who, span, most) && shorter <= span
    ensures AtMost(events, who, shorter, most)
  {
    forall t
      ensures CountEnding(events, who, shorter, t) <= most
    {
      CountNarrower(events, who, t - span, t, t - shorter, t);
      assert CountEnding(events, who, span, t) <= most;
    }
  }

  /** Events of others change no window of one. */
  lemma OthersAddNothing(events: seq<Event>, added: seq<Event>, who: Option<string>, span: int, most: int)
    requires AtMost(events, who, span, most)
    requires who.Some? && forall k :: 0 <= k < |added| ==> added[k].who != who.value
    ensures AtMost(events + added, who, span, most)
  {
    forall t
      ensures CountEnding(events + added, who, span, t) <= most
    {
      CountAppend(events, added, who, t - span, t);
      CountNone(added, who, t - span, t);
      assert CountEnding(events, who, span, t) <= most;
    }
  }

  /**
   What one check buys: events added at one instant, whatever came before, keep every window within the cap when all
   that lies after the start of the window ending at that instant is within it.
   */
  lemma AddedWithinTheCap(events: seq<Event>, added: seq<Event>, who: Option<string>, span: int, most: int, now: int, latest: int)
    requires AtMost(events, who, span, most) && AllBy(events, latest) && now <= latest
    requires forall k :: 0 <= k < |added| ==> added[k].at == now
    requires Count(events + added, who, now - span, latest) <= most
    ensures AtMost(events + added, who, span, most)
  {
    assert AllBy(events + added, latest);
    forall t
      ensures CountEnding(events + added, who, span, t) <= most
    {
      if t < now || now <= t - span {
        CountAppend(events, added, who, t - span, t);
        CountNone(added, who, t - span, t);
        assert CountEnding(events, who, span, t) <= most;
      } else {
        var end := if t < latest then latest else t;
        CountToLater(events + added, who, now - span, latest, end);
        CountNarrower(events + added, who, now - span, end, t - span, t);
      }
    }
  }
}
