/**
The public page's bans (cv/src/server.js): an address or a visitor that posts more than `banAfter` times within an
hour is refused for `banHours`, its refused attempts included in the count until it is banned. The server remembers
an hour of attempts and the bans still running, by a clock that may be set back; the rule holds as if it remembered
everything.
*/
module Bans {
  import opened Collections
  import opened Windows

  const MAX_KEYS := 10_000

  /** The times of each key's recent attempts, and the end of each key's ban. */
  type Hits = OrderedMap<string, seq<int>>

  type Until = OrderedMap<string, int>

  datatype Rule = Rule(banAfter: nat, banHours: nat)

  datatype Attempt = Attempt(now: int, client: string, visitor: string)

  datatype Verdict = Passed | Suspended | WentOver

  function AddressKey(a: Attempt): string {
    "ip:" + a.client
  }

  function VisitorKey(a: Attempt): string {
    "visitor:" + a.visitor
  }

  lemma KeysDiffer(a: Attempt)
    ensures AddressKey(a) != VisitorKey(a)
  {
    assert AddressKey(a)[0] == 'i' && VisitorKey(a)[0] == 'v';
  }

  function Marks(a: Attempt): seq<Event> {
    [Event(a.now, AddressKey(a)), Event(a.now, VisitorKey(a))]
  }

  // ---------------------------------------------------------------- the rule, over everything that ever happened

  /** Every attempt counted, those that went over, and those let through, each under its two keys. */
  datatype Past = Past(counted: seq<Event>, overs: seq<Event>, passed: seq<Event>)

  predicate BanRunning(rule: Rule, over: Event, key: string, now: int) {
    over.who == key && over.at + rule.banHours * HOUR > now
  }

  predicate Banned(rule: Rule, overs: seq<Event>, key: string, now: int) {
    exists k :: 0 <= k < |overs| && BanRunning(rule, overs[k], key, now)
  }

  predicate Exceeds(rule: Rule, counted: seq<Event>, key: string, now: int) {
    After(counted, key, now - HOUR) + 1 > rule.banAfter
  }

  function Ruled(rule: Rule, past: Past, a: Attempt): Verdict {
    if Banned(rule, past.overs, AddressKey(a), a.now) || Banned(rule, past.overs, VisitorKey(a), a.now) then Suspended
    else if Exceeds(rule, past.counted, AddressKey(a), a.now) || Exceeds(rule, past.counted, VisitorKey(a), a.now) then WentOver
    else Passed
  }

  function AfterVerdict(past: Past, a: Attempt, verdict: Verdict): Past {
    match verdict
    case Suspended => past
    case WentOver => past.(counted := past.counted + Marks(a), overs := past.overs + Marks(a))
    case Passed => past.(counted := past.counted + Marks(a), passed := past.passed + Marks(a))
  }

  function AfterAttempt(rule: Rule, past: Past, a: Attempt): Past {
    AfterVerdict(past, a, Ruled(rule, past, a))
  }

  function AfterRun(rule: Rule, attempts: seq<Attempt>): Past {
    if attempts == [] then Past([], [], [])
    else AfterAttempt(rule, AfterRun(rule, attempts[..|attempts| - 1]), attempts[|attempts| - 1])
  }

  ghost predicate PassedAreCounted(past: Past) {
    forall who, from, to :: Count(past.passed, who, from, to) <= Count(past.counted, who, from, to)
  }

  /** However the attempts are spread, no key gets more than `banAfter` of them through in any window of that span. */
  ghost predicate WithinTheRule(rule: Rule, past: Past, span: int) {
    forall key :: AtMost(past.passed, Some(key), span, rule.banAfter)
  }

  ghost predicate AllPastBy(past: Past, latest: int) {
    AllBy(past.counted, latest) && AllBy(past.passed, latest)
  }

  lemma MarksCount(a: Attempt, who: Option<string>, from: int, to: int)
    ensures who.Some? ==> Count(Marks(a), who, from, to) <= 1
    ensures who.Some? && who.value != AddressKey(a) && who.value != VisitorKey(a) ==> Count(Marks(a), who, from, to) == 0
  {
    KeysDiffer(a);
    assert Marks(a)[..1] == [Event(a.now, AddressKey(a))];
    assert Marks(a)[..1][..0] == [];
    assert Count(Marks(a), who, from, to) == Count(Marks(a)[..1], who, from, to) + if InWindow(Marks(a)[1], who, from, to) then 1 else 0;
  }

  lemma CountedGrows(past: Past, a: Attempt, verdict: Verdict)
    requires PassedAreCounted(past)
    ensures PassedAreCounted(AfterVerdict(past, a, verdict))
  {
    var after := AfterVerdict(past, a, verdict);
    forall who, from, to
      ensures Count(after.passed, who, from, to) <= Count(after.counted, who, from, to)
    {
      CountAppend(past.counted, Marks(a), who, from, to);
      CountAppend(past.passed, Marks(a), who, from, to);
      assert Count(past.passed, who, from, to) <= Count(past.counted, who, from, to);
    }
  }

  /** What one key needs for an attempt to pass: fewer than `banAfter` counted since the start of the window. */
  ghost predicate RoomFor(rule: Rule, past: Past, key: string, from: int, latest: int) {
    Count(past.counted, Some(key), from, latest) + 1 <= rule.banAfter
  }

  lemma PassingKeepsOneKey(rule: Rule, past: Past, a: Attempt, span: int, latest: int, key: string)
    requires PassedAreCounted(past) && AllPastBy(past, latest) && a.now <= latest
    requires AtMost(past.passed, Some(key), span, rule.banAfter)
    requires key == AddressKey(a) || key == VisitorKey(a) ==> RoomFor(rule, past, key, a.now - span, latest)
    ensures AtMost(past.passed + Marks(a), Some(key), span, rule.banAfter)
  {
    if key == AddressKey(a) || key == VisitorKey(a) {
      MarksCount(a, Some(key), a.now - span, latest);
      CountAppend(past.passed, Marks(a), Some(key), a.now - span, latest);
      assert Count(past.passed, Some(key), a.now - span, latest) <= Count(past.counted, Some(key), a.now - span, latest);
      AddedWithinTheCap(past.passed, Marks(a), Some(key), span, rule.banAfter, a.now, latest);
    } else {
      OthersAddNothing(past.passed, Marks(a), Some(key), span, rule.banAfter);
    }
  }

  lemma VerdictKeepsTheRule(rule: Rule, past: Past, a: Attempt, verdict: Verdict, span: int, latest: int)
    requires PassedAreCounted(past) && AllPastBy(past, latest) && a.now <= latest && WithinTheRule(rule, past, span)
    requires verdict == Passed ==> RoomFor(rule, past, AddressKey(a), a.now - span, latest)
    requires verdict == Passed ==> RoomFor(rule, past, VisitorKey(a), a.now - span, latest)
    ensures WithinTheRule(rule, AfterVerdict(past, a, verdict), span)
  {
    if verdict == Passed {
      forall key
        ensures AtMost(past.passed + Marks(a), Some(key), span, rule.banAfter)
      {
        PassingKeepsOneKey(rule, past, a, span, latest, key);
      }
    }
  }

  lemma VerdictKeepsAllBy(past: Past, a: Attempt, verdict: Verdict, latest: int)
    requires AllPastBy(past, latest) && a.now <= latest
    ensures AllPastBy(AfterVerdict(past, a, verdict), latest)
  {
  }

  lemma {:induction false} RunStaysWithinTheRule(rule: Rule, attempts: seq<Attempt>, latest: int)
    requires forall k :: 0 <= k < |attempts| ==> attempts[k].now <= latest
    ensures var past := AfterRun(rule, attempts);
      WithinTheRule(rule, past, HOUR) && PassedAreCounted(past) && AllPastBy(past, latest)
  {
    if attempts != [] {
      var n := |attempts| - 1;
      var before, a := AfterRun(rule, attempts[..n]), attempts[n];
      RunStaysWithinTheRule(rule, attempts[..n], latest);
      var verdict := Ruled(rule, before, a);
      CountedGrows(before, a, verdict);
      VerdictKeepsAllBy(before, a, verdict, latest);
      AfterIsTheCount(before.counted, AddressKey(a), a.now - HOUR, latest);
      AfterIsTheCount(before.counted, VisitorKey(a), a.now - HOUR, latest);
      VerdictKeepsTheRule(rule, before, a, verdict, HOUR, latest);
    }
  }

  function LastReading(attempts: seq<Attempt>): (latest: int)
    ensures forall k :: 0 <= k < |attempts| ==> attempts[k].now <= latest
  {
    if attempts == [] then 0 else Max(LastReading(attempts[..|attempts| - 1]), attempts[|attempts| - 1].now)
  }

  /** The rule, whatever the clock does: no key gets more than `banAfter` attempts through in any hour. */
  lemma EveryRunStaysWithinTheRule(rule: Rule, attempts: seq<Attempt>)
    ensures WithinTheRule(rule, AfterRun(rule, attempts), HOUR)
  {
    RunStaysWithinTheRule(rule, attempts, LastReading(attempts));
  }

  lemma {:induction false} OversOnlyGrow(rule: Rule, attempts: seq<Attempt>, n: nat)
    requires n <= |attempts|
    ensures AfterRun(rule, attempts[..n]).overs <= AfterRun(rule, attempts).overs
    decreases |attempts|
  {
    if n < |attempts| {
      var m := |attempts| - 1;
      OversOnlyGrow(rule, attempts[..m], n);
      assert attempts[..m][..n] == attempts[..n];
    } else {
      assert attempts[..n] == attempts;
    }
  }

  /** Once an attempt went over, every later one under either of its keys is refused until the ban has run. */
  lemma BanHolds(rule: Rule, attempts: seq<Attempt>, i: nat, j: nat)
    requires i < j < |attempts|
    requires Ruled(rule, AfterRun(rule, attempts[..i]), attempts[i]) == WentOver
    requires AddressKey(attempts[j]) == AddressKey(attempts[i]) || VisitorKey(attempts[j]) == VisitorKey(attempts[i])
    requires attempts[j].now < attempts[i].now + rule.banHours * HOUR
    ensures Ruled(rule, AfterRun(rule, attempts[..j]), attempts[j]) == Suspended
  {
    var before, early, late := AfterRun(rule, attempts[..i]), AfterRun(rule, attempts[..i + 1]), AfterRun(rule, attempts[..j]);
    assert attempts[..i + 1][..i] == attempts[..i] && attempts[..j][..i + 1] == attempts[..i + 1];
    OversOnlyGrow(rule, attempts[..j], i + 1);
    var k := |before.overs|;
    assert early.overs[k] == Event(attempts[i].now, AddressKey(attempts[i]));
    assert early.overs[k + 1] == Event(attempts[i].now, VisitorKey(attempts[i]));
    assert late.overs[k] == early.overs[k] && late.overs[k + 1] == early.overs[k + 1];
    if AddressKey(attempts[j]) == AddressKey(attempts[i]) {
      assert BanRunning(rule, late.overs[k], AddressKey(attempts[j]), attempts[j].now);
    } else {
      assert BanRunning(rule, late.overs[k + 1], VisitorKey(attempts[j]), attempts[j].now);
    }
  }

  // ---------------------------------------------------------------- what the server remembers

  function TimesOf(events: seq<Event>, key: string): seq<int> {
    if events == [] then []
    else
      var n := |events| - 1;
      TimesOf(events[..n], key) + if events[n].who == key then [events[n].at] else []
  }

  /** `.filter((at) => at > now - HOUR)`. */
  function Fresh(times: seq<int>, now: int): seq<int>
  {
    if times == [] then []
    else
      var n := |times| - 1;
      Fresh(times[..n], now) + if times[n] > now - HOUR then [times[n]] else []
  }

  ghost predicate NoneAfter(times: seq<int>, now: int) {
    forall k :: 0 <= k < |times| ==> times[k] <= now
  }

  lemma {:induction false} FreshLater(times: seq<int>, now: int, later: int)
    requires now <= later
    ensures Fresh(Fresh(times, now), later) == Fresh(times, later)
  {
    if times != [] {
      var n := |times| - 1;
      FreshLater(times[..n], now, later);
      var kept := Fresh(times[..n], now);
      if times[n] > now - HOUR {
        assert (kept + [times[n]])[..|kept|] == kept;
      } else {
        assert kept + [] == kept;
      }
    }
  }

  lemma {:induction false} FreshNone(times: seq<int>, now: int)
    requires forall k :: 0 <= k < |times| ==> times[k] <= now - HOUR
    ensures Fresh(times, now) == []
  {
    if times != [] {
      FreshNone(times[..|times| - 1], now);
    }
  }

  lemma FreshOneMore(times: seq<int>, at: int, now: int)
    ensures Fresh(times + [at], now) == Fresh(times, now) + if at > now - HOUR then [at] else []
  {
    assert (times + [at])[..|times|] == times;
  }

  lemma {:induction false} FreshNoneAfter(times: seq<int>, now: int, latest: int)
    requires NoneAfter(times, latest)
    ensures NoneAfter(Fresh(times, now), latest)
  {
    if times != [] {
      FreshNoneAfter(times[..|times| - 1], now, latest);
    }
  }

  lemma {:induction false} FreshEarlierKeepsMore(times: seq<int>, now: int, later: int)
    requires now <= later
    ensures |Fresh(times, later)| <= |Fresh(times, now)|
  {
    if times != [] {
      FreshEarlierKeepsMore(times[..|times| - 1], now, later);
    }
  }

  /** The attempts of a key are counted by the times kept for it. */
  lemma {:induction false} FreshIsTheCount(events: seq<Event>, key: string, now: int)
    ensures |Fresh(TimesOf(events, key), now)| == After(events, key, now - HOUR)
  {
    if events != [] {
      var n := |events| - 1;
      FreshIsTheCount(events[..n], key, now);
      if events[n].who == key {
        FreshOneMore(TimesOf(events[..n], key), events[n].at, now);
      } else {
        assert TimesOf(events[..n], key) + [] == TimesOf(events[..n], key);
      }
    }
  }

  function ListOf(hits: Hits, key: string): seq<int> {
    if key in hits.at then hits.at[key] else []
  }

  /** Past the highest reading by the setback: an hour before it, nothing is forgotten yet. */
  function Horizon(clock: Clock): int {
    clock.latest + clock.setback
  }

  /** The hour shortened by twice the setback. */
  function RuleSpan(clock: Clock): int {
    HOUR - 2 * clock.setback
  }

  /** No time of the list is later than its last one by more than the clock was set back. */
  ghost predicate Near(list: seq<int>, setback: nat) {
    list != [] ==> NoneAfter(list, list[|list| - 1] + setback)
  }

  /** A key's list says of the hour before the horizon what its whole past says. */
  ghost predicate InStep(list: seq<int>, times: seq<int>, clock: Clock) {
    Near(list, clock.setback) && NoneAfter(list, clock.latest) && Fresh(list, Horizon(clock)) == Fresh(times, Horizon(clock))
  }

  lemma StaysInStep(list: seq<int>, times: seq<int>, clock: Clock, now: int)
    requires InStep(list, times, clock)
    ensures InStep(list, times, Read(clock, now))
  {
    FreshLater(list, Horizon(clock), Horizon(Read(clock, now)));
    FreshLater(times, Horizon(clock), Horizon(Read(clock, now)));
  }

  /** The clock has just been read. */
  predicate JustRead(clock: Clock, now: int) {
    now <= clock.latest <= now + clock.setback
  }

  lemma FreshRecorded(list: seq<int>, now: int, later: int)
    requires now <= later
    ensures Fresh(Fresh(list, now) + [now], later) == Fresh(list + [now], later)
  {
    FreshOneMore(Fresh(list, now), now, later);
    FreshOneMore(list, now, later);
    FreshLater(list, now, later);
  }

  lemma NearRecorded(list: seq<int>, clock: Clock, now: int)
    requires NoneAfter(list, clock.latest) && JustRead(clock, now)
    ensures Near(list + [now], clock.setback) && NoneAfter(list + [now], clock.latest)
  {
  }

  /** An attempt recorded under a key. */
  lemma RecordedInStep(list: seq<int>, times: seq<int>, clock: Clock, now: int)
    requires InStep(list, times, clock) && JustRead(clock, now)
    ensures InStep(Fresh(list, now) + [now], times + [now], clock)
  {
    FreshNoneAfter(list, now, clock.latest);
    NearRecorded(Fresh(list, now), clock, now);
    FreshRecorded(list, now, Horizon(clock));
    FreshOneMore(list, now, Horizon(clock));
    FreshOneMore(times, now, Horizon(clock));
  }

  /** A list whose last attempt is an hour old says nothing any more. */
  lemma StaleSaysNothing(list: seq<int>, times: seq<int>, clock: Clock, now: int)
    requires InStep(list, times, clock) && JustRead(clock, now) && IsStale(list, now)
    ensures InStep([], times, clock)
  {
    FreshNone(list, Horizon(clock));
  }

  /** `list[list.length - 1] <= now - HOUR`. */
  predicate IsStale(list: seq<int>, now: int) {
    list != [] && list[|list| - 1] <= now - HOUR
  }

  /** The recent attempts say of every key what its whole past says. */
  ghost predicate HitsInStep(hits: Hits, counted: seq<Event>, clock: Clock) {
    && hits.Valid()
    && (forall key :: key in hits.at ==> hits.at[key] != [])
    && (forall key :: InStep(ListOf(hits, key), TimesOf(counted, key), clock))
  }

  predicate Barred(bans: Until, key: string, now: int) {
    key in bans.at && bans.at[key] > now
  }

  /** The bans remembered are exactly those still running. */
  ghost predicate BansInStep(rule: Rule, bans: Until, overs: seq<Event>, latest: int) {
    forall key, now :: latest <= now ==> (Banned(rule, overs, key, now) <==> Barred(bans, key, now))
  }

  lemma TimesOneMore(events: seq<Event>, e: Event, key: string)
    ensures TimesOf(events + [e], key) == if e.who == key then TimesOf(events, key) + [e.at] else TimesOf(events, key)
  {
    assert (events + [e])[..|events|] == events;
    assert TimesOf(events, key) + [] == TimesOf(events, key);
  }

  function Recorded(hits: Hits, key: string, now: int): Hits {
    hits.Delete(key).Set(key, Fresh(ListOf(hits, key), now) + [now])
  }

  predicate TooMany(rule: Rule, hits: Hits, key: string, now: int) {
    |Fresh(ListOf(hits, key), now)| + 1 > rule.banAfter
  }

  predicate TooManyOfEither(rule: Rule, hits: Hits, a: Attempt) {
    TooMany(rule, hits, AddressKey(a), a.now) || TooMany(rule, hits, VisitorKey(a), a.now)
  }

  /** The verdict the server gives, from what it remembers. */
  function Decided(rule: Rule, hits: Hits, bans: Until, a: Attempt): Verdict {
    if Barred(bans, AddressKey(a), a.now) || Barred(bans, VisitorKey(a), a.now) then Suspended
    else if TooManyOfEither(rule, hits, a) then WentOver
    else Passed
  }

  lemma RecordedHitsInStep(hits: Hits, counted: seq<Event>, clock: Clock, now: int, key: string)
    requires HitsInStep(hits, counted, clock) && JustRead(clock, now)
    ensures HitsInStep(Recorded(hits, key, now), counted + [Event(now, key)], clock)
  {
    var after := Recorded(hits, key, now);
    forall other
      ensures InStep(ListOf(after, other), TimesOf(counted + [Event(now, key)], other), clock)
    {
      TimesOneMore(counted, Event(now, key), other);
      assert InStep(ListOf(hits, other), TimesOf(counted, other), clock);
      if other == key {
        RecordedInStep(ListOf(hits, key), TimesOf(counted, key), clock, now);
      } else {
        assert ListOf(after, other) == ListOf(hits, other);
      }
    }
  }

  lemma HitsStayInStep(hits: Hits, counted: seq<Event>, clock: Clock, now: int)
    requires HitsInStep(hits, counted, clock)
    ensures HitsInStep(hits, counted, Read(clock, now))
  {
    forall key
      ensures InStep(ListOf(hits, key), TimesOf(counted, key), Read(clock, now))
    {
      assert InStep(ListOf(hits, key), TimesOf(counted, key), clock);
      StaysInStep(ListOf(hits, key), TimesOf(counted, key), clock, now);
    }
  }

  /** What is left once the stale keys are forgotten. */
  ghost predicate SiftedFrom(hits: Hits, now: int, sifted: Hits) {
    && sifted.Valid()
    && (forall key :: key in sifted.at <==> key in hits.at && !IsStale(hits.at[key], now))
    && (forall key :: key in sifted.at ==> key in hits.at && sifted.at[key] == hits.at[key])
  }

  lemma SiftedHitsInStep(hits: Hits, sifted: Hits, counted: seq<Event>, clock: Clock, now: int)
    requires HitsInStep(hits, counted, clock) && JustRead(clock, now) && SiftedFrom(hits, now, sifted)
    ensures HitsInStep(sifted, counted, clock)
  {
    forall key
      ensures InStep(ListOf(sifted, key), TimesOf(counted, key), clock)
    {
      assert InStep(ListOf(hits, key), TimesOf(counted, key), clock);
      if key in hits.at && key !in sifted.at {
        StaleSaysNothing(hits.at[key], TimesOf(counted, key), clock, now);
      }
    }
  }

  lemma InStepCounts(list: seq<int>, times: seq<int>, clock: Clock, now: int)
    requires InStep(list, times, clock) && JustRead(clock, now)
    ensures |Fresh(times, Horizon(clock))| <= |Fresh(list, now)|
    ensures clock.setback == 0 ==> |Fresh(list, now)| == |Fresh(times, now)|
  {
    FreshEarlierKeepsMore(list, now, Horizon(clock));
  }

  lemma ListInStep(hits: Hits, counted: seq<Event>, clock: Clock, key: string)
    requires HitsInStep(hits, counted, clock)
    ensures InStep(ListOf(hits, key), TimesOf(counted, key), clock)
  {
  }

  /** What is kept of a key counts every attempt since the hour before the horizon, and with no setback the last hour's. */
  lemma KeptIsTheCount(hits: Hits, counted: seq<Event>, clock: Clock, now: int, key: string)
    requires HitsInStep(hits, counted, clock) && JustRead(clock, now)
    ensures After(counted, key, Horizon(clock) - HOUR) <= |Fresh(ListOf(hits, key), now)|
    ensures clock.setback == 0 ==> |Fresh(ListOf(hits, key), now)| == After(counted, key, now - HOUR)
  {
    ListInStep(hits, counted, clock, key);
    InStepCounts(ListOf(hits, key), TimesOf(counted, key), clock, now);
    FreshIsTheCount(counted, key, Horizon(clock));
    FreshIsTheCount(counted, key, now);
  }

  lemma TooManyIsExceeds(rule: Rule, hits: Hits, counted: seq<Event>, now: int, key: string)
    requires HitsInStep(hits, counted, Clock(now, 0))
    ensures TooMany(rule, hits, key, now) <==> Exceeds(rule, counted, key, now)
  {
    KeptIsTheCount(hits, counted, Clock(now, 0), now, key);
  }

  /** While the clock was never set back, the server's verdict is the rule's, over everything that ever happened. */
  lemma MemorySuffices(rule: Rule, hits: Hits, bans: Until, past: Past, latest: int, a: Attempt)
    requires HitsInStep(hits, past.counted, Clock(a.now, 0)) && BansInStep(rule, bans, past.overs, latest) && latest <= a.now
    ensures Decided(rule, hits, bans, a) == Ruled(rule, past, a)
  {
    TooManyIsExceeds(rule, hits, past.counted, a.now, AddressKey(a));
    TooManyIsExceeds(rule, hits, past.counted, a.now, VisitorKey(a));
  }

  /** Whatever the clock does, an attempt that passes leaves room in the hour shortened by twice the setback. */
  lemma PassedHadRoom(rule: Rule, hits: Hits, past: Past, clock: Clock, now: int, key: string)
    requires HitsInStep(hits, past.counted, clock) && JustRead(clock, now) && AllBy(past.counted, clock.latest)
    requires !TooMany(rule, hits, key, now)
    ensures RoomFor(rule, past, key, now - RuleSpan(clock), clock.latest)
  {
    KeptIsTheCount(hits, past.counted, clock, now, key);
    AfterIsTheCount(past.counted, key, Horizon(clock) - HOUR, clock.latest);
    CountNarrower(past.counted, Some(key), Horizon(clock) - HOUR, clock.latest, now - RuleSpan(clock), clock.latest);
  }

  lemma DecidedKeepsTheRule(rule: Rule, hits: Hits, bans: Until, past: Past, clock: Clock, a: Attempt)
    requires HitsInStep(hits, past.counted, clock) && JustRead(clock, a.now) && PassedAreCounted(past) && AllPastBy(past, clock.latest)
    requires WithinTheRule(rule, past, RuleSpan(clock))
    ensures WithinTheRule(rule, AfterVerdict(past, a, Decided(rule, hits, bans, a)), RuleSpan(clock))
  {
    var verdict := Decided(rule, hits, bans, a);
    if verdict == Passed {
      PassedHadRoom(rule, hits, past, clock, a.now, AddressKey(a));
      PassedHadRoom(rule, hits, past, clock, a.now, VisitorKey(a));
    }
    VerdictKeepsTheRule(rule, past, a, verdict, RuleSpan(clock), clock.latest);
  }

  lemma RuleHoldsInShorter(rule: Rule, past: Past, span: int, shorter: int)
    requires WithinTheRule(rule, past, span) && shorter <= span
    ensures WithinTheRule(rule, past, shorter)
  {
    forall key
      ensures AtMost(past.passed, Some(key), shorter, rule.banAfter)
    {
      AtMostShorter(past.passed, Some(key), span, shorter, rule.banAfter);
    }
  }

  /** What is left once the bans that have run are forgotten. */
  ghost predicate BansSifted(bans: Until, now: int, sifted: Until) {
    && (forall key :: key in sifted.at <==> Barred(bans, key, now))
    && (forall key :: key in sifted.at ==> key in bans.at && sifted.at[key] == bans.at[key])
  }

  lemma SiftedBansInStep(rule: Rule, bans: Until, sifted: Until, overs: seq<Event>, latest: int, now: int)
    requires BansInStep(rule, bans, overs, latest) && latest <= now && BansSifted(bans, now, sifted)
    ensures BansInStep(rule, sifted, overs, now)
  {
    forall key, later | now <= later
      ensures Banned(rule, overs, key, later) <==> Barred(sifted, key, later)
    {
      assert Banned(rule, overs, key, later) <==> Barred(bans, key, later);
    }
  }

  lemma BannedAfter(rule: Rule, overs: seq<Event>, over: Event, key: string, now: int)
    ensures Banned(rule, overs + [over], key, now) <==> Banned(rule, overs, key, now) || BanRunning(rule, over, key, now)
  {
    var longer := overs + [over];
    if Banned(rule, overs, key, now) {
      var k :| 0 <= k < |overs| && BanRunning(rule, overs[k], key, now);
      assert BanRunning(rule, longer[k], key, now);
    }
    if BanRunning(rule, over, key, now) {
      assert BanRunning(rule, longer[|overs|], key, now);
    }
  }

  /** A key that goes over while it is not banned: its ban is the one remembered. */
  lemma BanInStep(rule: Rule, bans: Until, overs: seq<Event>, now: int, key: string)
    requires BansInStep(rule, bans, overs, now) && key !in bans.at
    ensures BansInStep(rule, bans.Set(key, now + rule.banHours * HOUR), overs + [Event(now, key)], now)
  {
    var after := bans.Set(key, now + rule.banHours * HOUR);
    forall other, later | now <= later
      ensures Banned(rule, overs + [Event(now, key)], other, later) <==> Barred(after, other, later)
    {
      BannedAfter(rule, overs, Event(now, key), other, later);
      assert Banned(rule, overs, other, later) <==> Barred(bans, other, later);
    }
  }

  function BanEnd(rule: Rule, a: Attempt): int {
    a.now + rule.banHours * HOUR
  }

  function WithBoth(rule: Rule, bans: Until, a: Attempt): Until {
    bans.Set(AddressKey(a), BanEnd(rule, a)).Set(VisitorKey(a), BanEnd(rule, a))
  }

  lemma BothBansInStep(rule: Rule, bans: Until, overs: seq<Event>, a: Attempt)
    requires BansInStep(rule, bans, overs, a.now) && AddressKey(a) !in bans.at && VisitorKey(a) !in bans.at
    ensures BansInStep(rule, WithBoth(rule, bans, a), overs + Marks(a), a.now)
  {
    KeysDiffer(a);
    BanInStep(rule, bans, overs, a.now, AddressKey(a));
    var one := bans.Set(AddressKey(a), BanEnd(rule, a));
    BanInStep(rule, one, overs + [Event(a.now, AddressKey(a))], a.now, VisitorKey(a));
    assert overs + Marks(a) == overs + [Event(a.now, AddressKey(a))] + [Event(a.now, VisitorKey(a))];
  }

  function RecordedBoth(hits: Hits, a: Attempt): Hits {
    Recorded(Recorded(hits, AddressKey(a), a.now), VisitorKey(a), a.now)
  }

  /** Recording the address changes nothing kept of the visitor. */
  lemma OtherKeyUnmoved(hits: Hits, a: Attempt)
    ensures ListOf(Recorded(hits, AddressKey(a), a.now), VisitorKey(a)) == ListOf(hits, VisitorKey(a))
  {
    KeysDiffer(a);
  }

  lemma MarksAreTwo(events: seq<Event>, a: Attempt)
    ensures events + Marks(a) == events + [Event(a.now, AddressKey(a))] + [Event(a.now, VisitorKey(a))]
  {
  }

  lemma RecordedBothInStep(hits: Hits, counted: seq<Event>, clock: Clock, a: Attempt)
    requires HitsInStep(hits, counted, clock) && JustRead(clock, a.now)
    ensures HitsInStep(RecordedBoth(hits, a), counted + Marks(a), clock)
  {
    MarksAreTwo(counted, a);
    RecordedHitsInStep(hits, counted, clock, a.now, AddressKey(a));
    RecordedHitsInStep(Recorded(hits, AddressKey(a), a.now), counted + [Event(a.now, AddressKey(a))], clock, a.now, VisitorKey(a));
  }

  lemma HitKeepsStep(hits: Hits, after: Hits, counted: seq<Event>, clock: Clock, a: Attempt)
    requires HitsInStep(hits, counted, clock) && JustRead(clock, a.now) && SiftedFrom(RecordedBoth(hits, a), a.now, after)
    ensures HitsInStep(after, counted + Marks(a), clock)
  {
    RecordedBothInStep(hits, counted, clock, a);
    SiftedHitsInStep(RecordedBoth(hits, a), after, counted + Marks(a), clock, a.now);
  }

  /** What a reading of the clock and the verdict it leads to keep of the past. */
  lemma ReadKeepsTheRule(rule: Rule, hits: Hits, bans: Until, past: Past, clock: Clock, a: Attempt)
    requires HitsInStep(hits, past.counted, clock) && PassedAreCounted(past) && AllPastBy(past, clock.latest)
    requires WithinTheRule(rule, past, RuleSpan(clock))
    ensures WithinTheRule(rule, AfterVerdict(past, a, Decided(rule, hits, bans, a)), RuleSpan(Read(clock, a.now)))
  {
    var read := Read(clock, a.now);
    HitsStayInStep(hits, past.counted, clock, a.now);
    RuleHoldsInShorter(rule, past, RuleSpan(clock), RuleSpan(read));
    DecidedKeepsTheRule(rule, hits, bans, past, read, a);
  }

  // ---------------------------------------------------------------- the memory over its whole life

  function StaleAt(now: int): seq<int> -> bool {
    list => IsStale(list, now)
  }

  function RunAt(now: int): int -> bool {
    until => until <= now
  }

  /** The bans still running. */
  function KeptBans(bans: Until, now: int): Until {
    Sifted(bans, RunAt(now))
  }

  /** The two keys counted and the stale keys forgotten, room for all of them or not. */
  function HitsBefore(hits: Hits, a: Attempt): Hits {
    Sifted(RecordedBoth(hits, a), StaleAt(a.now))
  }

  function AfterHit(hits: Hits, a: Attempt): Hits {
    Newest(HitsBefore(hits, a), MAX_KEYS)
  }

  function AfterBan(rule: Rule, kept: Until, a: Attempt): Until {
    Newest(WithBoth(rule, kept, a), MAX_KEYS)
  }

  /**
   What the server remembers, and beside it everything that ever happened, the clock as it was read, and whether either
   map, full, ever lost a key.
   */
  datatype Ledger = Ledger(hits: Hits, bans: Until, past: Past, clock: Clock, hitsLost: bool, bansLost: bool)

  function HitsAfter(verdict: Verdict, hits: Hits, a: Attempt): Hits {
    if verdict == Suspended then hits else AfterHit(hits, a)
  }

  function BansAfter(rule: Rule, verdict: Verdict, kept: Until, a: Attempt): Until {
    if verdict == WentOver then AfterBan(rule, kept, a) else kept
  }

  /** One attempt, as the server takes it: what it remembers then, and what happened. */
  function AfterCheck(rule: Rule, l: Ledger, a: Attempt): Ledger {
    Noted(rule, l, a, Decided(rule, l.hits, l.bans, a), KeptBans(l.bans, a.now))
  }

  function Noted(rule: Rule, l: Ledger, a: Attempt, verdict: Verdict, kept: Until): Ledger {
    Ledger(
      hits := HitsAfter(verdict, l.hits, a),
      bans := BansAfter(rule, verdict, kept, a),
      past := AfterVerdict(l.past, a, verdict),
      clock := Read(l.clock, a.now),
      hitsLost := l.hitsLost || (verdict != Suspended && |HitsBefore(l.hits, a).order| > MAX_KEYS),
      bansLost := l.bansLost || (verdict == WentOver && |WithBoth(rule, kept, a).order| > MAX_KEYS))
  }

  function Opening(start: int): Ledger {
    Ledger(OrderedMap([], map[]), OrderedMap([], map[]), Past([], [], []), Clock(start, 0), false, false)
  }

  function MemoryAfter(rule: Rule, start: int, attempts: seq<Attempt>): Ledger {
    if attempts == [] then Opening(start)
    else AfterCheck(rule, MemoryAfter(rule, start, attempts[..|attempts| - 1]), attempts[|attempts| - 1])
  }

  ghost predicate Sized(l: Ledger) {
    l.hits.Valid() && l.bans.Valid() && |l.hits.order| <= MAX_KEYS && |l.bans.order| <= MAX_KEYS
  }

  ghost predicate PastRight(l: Ledger) {
    AllPastBy(l.past, l.clock.latest) && PassedAreCounted(l.past)
  }

  /**
   Until the map of recent attempts, full, loses a key: the rule holds in the hour shortened by twice the setback, and
   that map has its say of the past. Until the map of bans loses one, with no setback: so has that map.
   */
  ghost predicate Right(rule: Rule, l: Ledger) {
    && Sized(l) && PastRight(l)
    && (!l.hitsLost ==> WithinTheRule(rule, l.past, RuleSpan(l.clock)) && HitsInStep(l.hits, l.past.counted, l.clock))
    && (!l.bansLost && l.clock.setback == 0 ==> BansInStep(rule, l.bans, l.past.overs, l.clock.latest))
  }

  lemma KeptBansAreSifted(bans: Until, now: int)
    requires bans.Valid()
    ensures BansSifted(bans, now, KeptBans(bans, now)) && KeptBans(bans, now).Valid() && |KeptBans(bans, now).order| <= |bans.order|
  {
    SiftedIsValid(bans, RunAt(now));
    LivingNoLonger(bans.order, bans, RunAt(now));
  }

  lemma HitsBeforeAreSifted(hits: Hits, a: Attempt)
    requires hits.Valid()
    ensures SiftedFrom(RecordedBoth(hits, a), a.now, HitsBefore(hits, a)) && HitsBefore(hits, a).Valid()
  {
    SiftedIsValid(RecordedBoth(hits, a), StaleAt(a.now));
  }

  lemma AfterHitIsSized(hits: Hits, a: Attempt)
    requires hits.Valid()
    ensures AfterHit(hits, a).Valid() && |AfterHit(hits, a).order| <= MAX_KEYS
  {
    HitsBeforeAreSifted(hits, a);
    NewestIsValid(HitsBefore(hits, a), MAX_KEYS);
  }

  lemma AfterBanIsSized(rule: Rule, kept: Until, a: Attempt)
    requires kept.Valid()
    ensures AfterBan(rule, kept, a).Valid() && |AfterBan(rule, kept, a).order| <= MAX_KEYS
  {
    NewestIsValid(WithBoth(rule, kept, a), MAX_KEYS);
  }

  lemma CheckKeepsSized(rule: Rule, l: Ledger, a: Attempt)
    requires Sized(l)
    ensures Sized(AfterCheck(rule, l, a))
  {
    KeptBansAreSifted(l.bans, a.now);
    AfterHitIsSized(l.hits, a);
    AfterBanIsSized(rule, KeptBans(l.bans, a.now), a);
  }

  lemma CheckKeepsHits(rule: Rule, l: Ledger, a: Attempt)
    requires Right(rule, l) && !AfterCheck(rule, l, a).hitsLost
    ensures var after := AfterCheck(rule, l, a);
      HitsInStep(after.hits, after.past.counted, after.clock)
  {
    HitsStayInStep(l.hits, l.past.counted, l.clock, a.now);
    if Decided(rule, l.hits, l.bans, a) != Suspended {
      HitsBeforeAreSifted(l.hits, a);
      HitKeepsStep(l.hits, HitsBefore(l.hits, a), l.past.counted, Read(l.clock, a.now), a);
    }
  }

  lemma WentOverUnbarred(rule: Rule, hits: Hits, bans: Until, a: Attempt)
    requires bans.Valid() && Decided(rule, hits, bans, a) == WentOver
    ensures AddressKey(a) !in KeptBans(bans, a.now).at && VisitorKey(a) !in KeptBans(bans, a.now).at
  {
    KeptBansAreSifted(bans, a.now);
  }

  lemma CheckKeepsBans(rule: Rule, l: Ledger, a: Attempt)
    requires Right(rule, l) && !AfterCheck(rule, l, a).bansLost && AfterCheck(rule, l, a).clock.setback == 0
    ensures var after := AfterCheck(rule, l, a);
      BansInStep(rule, after.bans, after.past.overs, after.clock.latest)
  {
    var kept := KeptBans(l.bans, a.now);
    KeptBansAreSifted(l.bans, a.now);
    SiftedBansInStep(rule, l.bans, kept, l.past.overs, l.clock.latest, a.now);
    if Decided(rule, l.hits, l.bans, a) == WentOver {
      WentOverUnbarred(rule, l.hits, l.bans, a);
      BothBansInStep(rule, kept, l.past.overs, a);
    }
  }

  lemma CheckKeepsPast(rule: Rule, l: Ledger, a: Attempt)
    requires PastRight(l)
    ensures PastRight(AfterCheck(rule, l, a))
  {
    var verdict := Decided(rule, l.hits, l.bans, a);
    VerdictKeepsAllBy(l.past, a, verdict, Read(l.clock, a.now).latest);
    CountedGrows(l.past, a, verdict);
  }

  lemma CheckKeepsRule(rule: Rule, l: Ledger, a: Attempt)
    requires Right(rule, l) && !l.hitsLost
    ensures WithinTheRule(rule, AfterCheck(rule, l, a).past, RuleSpan(AfterCheck(rule, l, a).clock))
  {
    ReadKeepsTheRule(rule, l.hits, l.bans, l.past, l.clock, a);
  }

  lemma CheckKeepsRight(rule: Rule, l: Ledger, a: Attempt)
    requires Right(rule, l)
    ensures Right(rule, AfterCheck(rule, l, a))
  {
    var after := AfterCheck(rule, l, a);
    CheckKeepsSized(rule, l, a);
    CheckKeepsPast(rule, l, a);
    if !after.hitsLost {
      CheckKeepsRule(rule, l, a);
      CheckKeepsHits(rule, l, a);
    }
    if !after.bansLost && after.clock.setback == 0 {
      CheckKeepsBans(rule, l, a);
    }
  }

  lemma OpeningIsRight(rule: Rule, start: int)
    ensures Right(rule, Opening(start))
  {
    forall key
      ensures InStep(ListOf(Opening(start).hits, key), TimesOf([], key), Clock(start, 0))
    {
    }
  }

  lemma {:induction false} EveryMemoryIsRight(rule: Rule, start: int, attempts: seq<Attempt>)
    ensures Right(rule, MemoryAfter(rule, start, attempts))
  {
    if attempts == [] {
      OpeningIsRight(rule, start);
    } else {
      var n := |attempts| - 1;
      EveryMemoryIsRight(rule, start, attempts[..n]);
      CheckKeepsRight(rule, MemoryAfter(rule, start, attempts[..n]), attempts[n]);
    }
  }

  /**
   Every run of the server's own memory, whatever the clock does: while the map of recent attempts, full, never lost a
   key, no address and no visitor gets more than `banAfter` attempts through in any hour less twice the setback.
   */
  lemma EveryMemoryKeepsTheRule(rule: Rule, start: int, attempts: seq<Attempt>)
    requires !MemoryAfter(rule, start, attempts).hitsLost
    ensures var l := MemoryAfter(rule, start, attempts);
      WithinTheRule(rule, l.past, RuleSpan(l.clock))
  {
    EveryMemoryIsRight(rule, start, attempts);
  }

  lemma RightDecides(rule: Rule, l: Ledger, a: Attempt)
    requires Right(rule, l) && !l.hitsLost && !l.bansLost && Read(l.clock, a.now).setback == 0
    ensures Decided(rule, l.hits, l.bans, a) == Ruled(rule, l.past, a)
  {
    HitsStayInStep(l.hits, l.past.counted, l.clock, a.now);
    MemorySuffices(rule, l.hits, l.bans, l.past, l.clock.latest, a);
  }

  /**
   What the bans say of an attempt: passed, suspended or gone over by what they remember; by the rule over everything
   that ever happened, while the clock was never set back and no full map lost a key. Every attempt no ban refuses is
   counted, and the rule goes on holding until the map of recent attempts loses a key.
   */
  ghost predicate Screened(rule: Rule, before: Ledger, a: Attempt, passed: bool, after: Ledger) {
    var verdict := Decided(rule, before.hits, before.bans, a);
    && (passed <==> verdict == Passed)
    && after == AfterCheck(rule, before, a)
    && after.past == AfterVerdict(before.past, a, verdict)
    && (!after.hitsLost ==> WithinTheRule(rule, after.past, RuleSpan(after.clock)))
    && (!before.hitsLost && !before.bansLost && after.clock.setback == 0 ==> verdict == Ruled(rule, before.past, a))
  }

  lemma CheckIsScreened(rule: Rule, l: Ledger, a: Attempt)
    requires Right(rule, l)
    ensures Screened(rule, l, a, Decided(rule, l.hits, l.bans, a) == Passed, AfterCheck(rule, l, a))
  {
    var after := AfterCheck(rule, l, a);
    if !after.hitsLost {
      CheckKeepsRule(rule, l, a);
    }
    if !l.hitsLost && !l.bansLost && after.clock.setback == 0 {
      RightDecides(rule, l, a);
    }
  }

  function Readings(attempts: seq<Attempt>): seq<int> {
    Mapped(attempts, (a: Attempt) => a.now)
  }

  lemma {:induction false} MemoryReadsTheClock(rule: Rule, start: int, attempts: seq<Attempt>)
    ensures MemoryAfter(rule, start, attempts).clock == ClockAfter(start, Readings(attempts))
  {
    if attempts != [] {
      MemoryReadsTheClock(rule, start, attempts[..|attempts| - 1]);
      assert Readings(attempts)[..|attempts| - 1] == Readings(attempts[..|attempts| - 1]);
    }
  }

  /** Only a clock that never steps back has no setback: the rule then holds in every whole hour. */
  lemma SteadyClockHasNoSetback(rule: Rule, start: int, attempts: seq<Attempt>)
    ensures MemoryAfter(rule, start, attempts).clock.setback == 0 <==> NeverStepsBack(start, Readings(attempts))
  {
    MemoryReadsTheClock(rule, start, attempts);
    SteadyClock(start, Readings(attempts));
  }

  // ---------------------------------------------------------------- no longer window will do

  /** Two attempts an hour. */
  const TIGHT := Rule(2, 24)

  /** No ban, few keys, nothing lost. */
  ghost predicate Quiet(l: Ledger, keys: nat) {
    && l.hits.Valid() && |l.hits.order| <= keys && !l.hitsLost && !l.bansLost
    && l.bans.order == [] && l.bans.at == map[]
  }

  /** A key's list once an attempt is counted, under it or not, and the stale lists are forgotten. */
  function ListAfter(list: seq<int>, a: Attempt, key: string): seq<int> {
    var recorded := if key == AddressKey(a) || key == VisitorKey(a) then Fresh(list, a.now) + [a.now] else list;
    if IsStale(recorded, a.now) then [] else recorded
  }

  lemma RecordedKeys(hits: Hits, a: Attempt)
    requires hits.Valid()
    ensures RecordedBoth(hits, a).Valid() && |RecordedBoth(hits, a).order| <= |hits.order| + 2
  {
    var one := Recorded(hits, AddressKey(a), a.now);
    WithoutNoLonger(hits.order, AddressKey(a));
    WithoutNoLonger(one.order, VisitorKey(a));
  }

  lemma RecordedLists(hits: Hits, a: Attempt, key: string)
    ensures ListOf(RecordedBoth(hits, a), key)
      == if key == AddressKey(a) || key == VisitorKey(a) then Fresh(ListOf(hits, key), a.now) + [a.now] else ListOf(hits, key)
  {
    KeysDiffer(a);
  }

  lemma HitLists(hits: Hits, a: Attempt, key: string)
    requires hits.Valid() && |hits.order| + 2 <= MAX_KEYS
    ensures |HitsBefore(hits, a).order| <= |hits.order| + 2 && AfterHit(hits, a) == HitsBefore(hits, a)
    ensures ListOf(AfterHit(hits, a), key) == ListAfter(ListOf(hits, key), a, key)
  {
    RecordedKeys(hits, a);
    LivingNoLonger(RecordedBoth(hits, a).order, RecordedBoth(hits, a), StaleAt(a.now));
    HitsBeforeAreSifted(hits, a);
    RecordedLists(hits, a, key);
  }

  lemma QuietPasses(l: Ledger, keys: nat, a: Attempt)
    requires Quiet(l, keys) && !TooMany(TIGHT, l.hits, AddressKey(a), a.now) && !TooMany(TIGHT, l.hits, VisitorKey(a), a.now)
    ensures Decided(TIGHT, l.hits, l.bans, a) == Passed && KeptBans(l.bans, a.now) == l.bans
  {
  }

  /** An attempt that passes while all is quiet. */
  lemma QuietStep(l: Ledger, keys: nat, a: Attempt, key: string)
    requires Quiet(l, keys) && keys + 2 <= MAX_KEYS
    requires !TooMany(TIGHT, l.hits, AddressKey(a), a.now) && !TooMany(TIGHT, l.hits, VisitorKey(a), a.now)
    ensures var after := AfterCheck(TIGHT, l, a);
      && Quiet(after, keys + 2)
      && after.past.passed == l.past.passed + Marks(a) && after.clock == Read(l.clock, a.now)
      && ListOf(after.hits, key) == ListAfter(ListOf(l.hits, key), a, key)
  {
    QuietPasses(l, keys, a);
    HitLists(l.hits, a, key);
    AfterHitIsSized(l.hits, a);
  }

  /** A post of one of two visitors, each at an address of its own. */
  datatype Post = Post(mine: bool, now: int)

  function AttemptOf(p: Post): Attempt {
    if p.mine then Attempt(p.now, "a", "a") else Attempt(p.now, "b", "b")
  }

  function AttemptsOf(posts: seq<Post>): seq<Attempt> {
    Mapped(posts, AttemptOf)
  }

  lemma KeysOfBoth(p: Post)
    ensures AddressKey(AttemptOf(p)) == if p.mine then "ip:a" else "ip:b"
    ensures VisitorKey(AttemptOf(p)) == if p.mine then "visitor:a" else "visitor:b"
    ensures "ip:a" != "ip:b" && "visitor:a" != "visitor:b" && "ip:a" != "visitor:b" && "ip:b" != "visitor:a"
    ensures "ip:a" != "visitor:a" && "ip:b" != "visitor:b"
  {
    assert "ip:a"[3] == 'a' && "ip:b"[3] == 'b' && "visitor:a"[8] == 'a' && "visitor:b"[8] == 'b';
    assert |"ip:a"| == |"ip:b"| == 4 && |"visitor:a"| == |"visitor:b"| == 9;
  }

  /** What is known of the memory while nobody is over: the list of each visitor's two keys, and the clock. */
  datatype Known = Known(mine: seq<int>, others: seq<int>, clock: Clock)

  function Counting(list: seq<int>, own: bool, now: int): seq<int> {
    var recorded := if own then Fresh(list, now) + [now] else list;
    if IsStale(recorded, now) then [] else recorded
  }

  function KnownStep(k: Known, p: Post): Known {
    Known(Counting(k.mine, p.mine, p.now), Counting(k.others, !p.mine, p.now), Read(k.clock, p.now))
  }

  predicate HasRoom(k: Known, p: Post) {
    |Fresh(if p.mine then k.mine else k.others, p.now)| <= 1
  }

  ghost predicate Knows(l: Ledger, k: Known) {
    && ListOf(l.hits, "ip:a") == ListOf(l.hits, "visitor:a") == k.mine
    && ListOf(l.hits, "ip:b") == ListOf(l.hits, "visitor:b") == k.others
    && l.clock == k.clock
  }

  lemma KnowsOneMore(l: Ledger, keys: nat, k: Known, p: Post)
    requires Quiet(l, keys) && keys + 2 <= MAX_KEYS && Knows(l, k) && HasRoom(k, p)
    ensures var after := AfterCheck(TIGHT, l, AttemptOf(p));
      Quiet(after, keys + 2) && Knows(after, KnownStep(k, p)) && after.past.passed == l.past.passed + Marks(AttemptOf(p))
  {
    KeysOfBoth(p);
    QuietStep(l, keys, AttemptOf(p), "ip:a");
    QuietStep(l, keys, AttemptOf(p), "visitor:a");
    QuietStep(l, keys, AttemptOf(p), "ip:b");
    QuietStep(l, keys, AttemptOf(p), "visitor:b");
  }

  /** Each post has room, and leads from what is known before it to what is known after. */
  ghost predicate IsCourse(start: int, posts: seq<Post>, course: seq<Known>) {
    && |course| == |posts| + 1 && course[0] == Known([], [], Clock(start, 0))
    && forall i :: 0 <= i < |posts| ==> Leads(course[i], posts[i], course[i + 1])
  }

  ghost predicate Leads(k: Known, p: Post, after: Known) {
    HasRoom(k, p) && after == KnownStep(k, p)
  }

  function PassedOf(posts: seq<Post>): seq<Event> {
    if posts == [] then [] else PassedOf(posts[..|posts| - 1]) + Marks(AttemptOf(posts[|posts| - 1]))
  }

  lemma {:induction false} MemoryIsKnown(start: int, posts: seq<Post>, course: seq<Known>)
    requires IsCourse(start, posts, course) && 2 * |posts| <= MAX_KEYS
    ensures var l := MemoryAfter(TIGHT, start, AttemptsOf(posts));
      Quiet(l, 2 * |posts|) && Knows(l, course[|posts|]) && l.past.passed == PassedOf(posts)
  {
    if posts != [] {
      var n := |posts| - 1;
      MemoryIsKnown(start, posts[..n], course[..n + 1]);
      assert Leads(course[n], posts[n], course[n + 1]);
      KnowsOneMore(MemoryAfter(TIGHT, start, AttemptsOf(posts[..n])), 2 * n, course[n], posts[n]);
      assert AttemptsOf(posts)[..n] == AttemptsOf(posts[..n]);
    }
  }

  // The clock set back between two posts of one visitor, then, once the later of them reads an hour old to another's
  // post, set back again: all that was counted is forgotten, and two more pass.

  function Setbacks(start: int, setback: nat): seq<Post> {
    var late := start + HOUR - setback;
    [Post(true, start), Post(true, start - setback), Post(false, late), Post(true, late - setback), Post(true, late - setback)]
  }

  function Course(start: int, setback: nat): seq<Known> {
    var late := start + HOUR - setback;
    var again := late - setback;
    [Known([], [], Clock(start, 0)), Known([start], [], Clock(start, 0)), Known([start, start - setback], [], Clock(start, setback)),
     Known([], [late], Clock(late, setback)), Known([again], [late], Clock(late, setback)), Known([again, again], [late], Clock(late, setback))]
  }

  /** A list joined by a post of its own visitor: empty, or with one recent time. */
  lemma JoinsNone(now: int)
    ensures Counting([], true, now) == [now] && |Fresh([], now)| == 0
  {
    assert Fresh([], now) == [] && [] + [now] == [now];
  }

  lemma JoinsOne(at: int, now: int)
    requires at > now - HOUR
    ensures Counting([at], true, now) == [at, now] && |Fresh([at], now)| == 1
  {
    FreshOne(at, now);
    assert [at] + [now] == [at, now];
  }

  lemma FreshOne(at: int, now: int)
    ensures Fresh([at], now) == if at > now - HOUR then [at] else []
  {
    assert [at][..0] == [];
  }

  lemma EarlyCourse(start: int, setback: nat)
    requires 0 < setback && 2 * setback <= HOUR
    ensures Leads(Known([], [], Clock(start, 0)), Post(true, start), Known([start], [], Clock(start, 0)))
    ensures Leads(Known([start], [], Clock(start, 0)), Post(true, start - setback), Known([start, start - setback], [], Clock(start, setback)))
  {
    JoinsNone(start);
    JoinsOne(start, start - setback);
  }

  lemma ForgettingCourse(start: int, setback: nat, late: int)
    requires 0 < setback && 2 * setback <= HOUR && late == start + HOUR - setback
    ensures Leads(Known([start, start - setback], [], Clock(start, setback)), Post(false, late), Known([], [late], Clock(late, setback)))
  {
    JoinsNone(late);
  }

  lemma LateCourse(setback: nat, late: int, again: int)
    requires 0 < setback && 2 * setback <= HOUR && again == late - setback
    ensures Leads(Known([], [late], Clock(late, setback)), Post(true, again), Known([again], [late], Clock(late, setback)))
    ensures Leads(Known([again], [late], Clock(late, setback)), Post(true, again), Known([again, again], [late], Clock(late, setback)))
  {
    JoinsNone(again);
    JoinsOne(again, again);
  }

  lemma SetbacksAreACourse(start: int, setback: nat)
    requires 0 < setback && 2 * setback <= HOUR
    ensures IsCourse(start, Setbacks(start, setback), Course(start, setback))
  {
    var late := start + HOUR - setback;
    EarlyCourse(start, setback);
    ForgettingCourse(start, setback, late);
    LateCourse(setback, late, late - setback);
    var posts, course := Setbacks(start, setback), Course(start, setback);
    forall i | 0 <= i < 5
      ensures Leads(course[i], posts[i], course[i + 1])
    {
      assert i == 0 || i == 1 || i == 2 || i == 3 || i == 4;
    }
  }

  function MineIn(posts: seq<Post>, from: int, to: int): nat {
    if posts == [] then 0
    else
      var last := posts[|posts| - 1];
      MineIn(posts[..|posts| - 1], from, to) + if last.mine && from < last.now <= to then 1 else 0
  }

  lemma PostCounts(p: Post, from: int, to: int)
    ensures Count(Marks(AttemptOf(p)), Some("ip:a"), from, to) == if p.mine && from < p.now <= to then 1 else 0
  {
    KeysOfBoth(p);
    var marks := Marks(AttemptOf(p));
    assert marks[..1] == [Event(p.now, AddressKey(AttemptOf(p)))] && marks[..1][..0] == [];
    assert Count(marks, Some("ip:a"), from, to) == Count(marks[..1], Some("ip:a"), from, to);
  }

  lemma {:induction false} PassedCounts(posts: seq<Post>, from: int, to: int)
    ensures Count(PassedOf(posts), Some("ip:a"), from, to) == MineIn(posts, from, to)
  {
    if posts != [] {
      var n := |posts| - 1;
      PassedCounts(posts[..n], from, to);
      PostCounts(posts[n], from, to);
      CountAppend(PassedOf(posts[..n]), Marks(AttemptOf(posts[n])), Some("ip:a"), from, to);
    }
  }

  lemma ThreeInTheHour(start: int, setback: nat)
    requires 0 < setback && 2 * setback <= HOUR
    ensures MineIn(Setbacks(start, setback), start - 1, start + HOUR - 2 * setback) == 3
  {
    var posts, from, to := Setbacks(start, setback), start - 1, start + HOUR - 2 * setback;
    assert posts[..4][..3] == posts[..3] && posts[..3][..2] == posts[..2] && posts[..2][..1] == posts[..1] && posts[..1][..0] == [];
    assert MineIn(posts[..1], from, to) == 1 && MineIn(posts[..2], from, to) == 1 && MineIn(posts[..3], from, to) == 1;
    assert MineIn(posts[..4], from, to) == 2;
  }

  /** A run of that setback, no key lost, that lets more than `banAfter` through in a window one millisecond longer. */
  ghost predicate BreaksTheHour(attempts: seq<Attempt>, start: int, setback: nat) {
    var l := MemoryAfter(TIGHT, start, attempts);
    l.clock.setback == setback && !l.hitsLost && !WithinTheRule(TIGHT, l.past, HOUR - 2 * setback + 1)
  }

  lemma ThreeBreakTheRule(past: Past, span: int, to: int)
    requires CountEnding(past.passed, Some("ip:a"), span, to) == 3
    ensures !WithinTheRule(TIGHT, past, span)
  {
    assert !AtMost(past.passed, Some("ip:a"), span, TIGHT.banAfter);
  }

  /** No longer window will do: each setback is lost twice. */
  lemma TheSetbackCountsTwice(setback: nat, start: int)
    requires 0 < setback && 2 * setback <= HOUR
    ensures exists attempts :: BreaksTheHour(attempts, start, setback)
  {
    var posts, course := Setbacks(start, setback), Course(start, setback);
    SetbacksAreACourse(start, setback);
    MemoryIsKnown(start, posts, course);
    PassedCounts(posts, start - 1, start + HOUR - 2 * setback);
    ThreeInTheHour(start, setback);
    ThreeBreakTheRule(MemoryAfter(TIGHT, start, AttemptsOf(posts)).past, HOUR - 2 * setback + 1, start + HOUR - 2 * setback);
    assert BreaksTheHour(AttemptsOf(posts), start, setback);
  }

  // ---------------------------------------------------------------- the memory the server keeps

  /** The verdict once the bans that have run are forgotten. */
  function Weighed(rule: Rule, hits: Hits, kept: Until, a: Attempt): Verdict {
    if AddressKey(a) in kept.at || VisitorKey(a) in kept.at then Suspended
    else if TooManyOfEither(rule, hits, a) then WentOver
    else Passed
  }

  lemma WeighedIsDecided(rule: Rule, hits: Hits, bans: Until, a: Attempt)
    requires bans.Valid()
    ensures Weighed(rule, hits, KeptBans(bans, a.now), a) == Decided(rule, hits, bans, a)
  {
    KeptBansAreSifted(bans, a.now);
  }

  /** The two keys recorded one after the other. */
  lemma BothRecorded(rule: Rule, hits: Hits, one: Hits, both: Hits, a: Attempt)
    requires one == Recorded(hits, AddressKey(a), a.now) && both == Recorded(one, VisitorKey(a), a.now)
    ensures both == RecordedBoth(hits, a)
    ensures TooMany(rule, one, VisitorKey(a), a.now) <==> TooMany(rule, hits, VisitorKey(a), a.now)
  {
    OtherKeyUnmoved(hits, a);
  }

  class Memory {
    const rule: Rule
    var hits: Hits
    var bans: Until
    /** Everything that ever happened, the clock as it was read, and whether either map, full, ever lost a key. */
    ghost var past: Past
    ghost var clock: Clock
    ghost var hitsLost: bool
    ghost var bansLost: bool

    ghost function Account(): Ledger
      reads this
    {
      Ledger(hits, bans, past, clock, hitsLost, bansLost)
    }

    ghost predicate Valid()
      reads this
    {
      Right(rule, Account())
    }

    constructor (rule: Rule, ghost start: int)
      ensures Valid() && this.rule == rule && Account() == Opening(start)
    {
      this.rule := rule;
      hits, bans := OrderedMap([], map[]), OrderedMap([], map[]);
      past, clock, hitsLost, bansLost := Past([], [], []), Clock(start, 0), false, false;
      new;
      OpeningIsRight(rule, start);
    }

    /** The loop that forgets the bans that have run. */
    method ForgetBans(now: int)
      requires bans.Valid()
      modifies this`bans
      ensures bans.Valid() && bans == KeptBans(old(bans), now)
    {
      bans := Sift(bans, RunAt(now));
    }

    /** One key of an attempt: its times within the hour, this one added, and whether they are too many. */
    method Record(key: string, now: int) returns (over: bool)
      requires hits.Valid()
      modifies this`hits
      ensures hits.Valid() && hits == Recorded(old(hits), key, now) && over == TooMany(rule, old(hits), key, now)
    {
      var recent := Fresh(ListOf(hits, key), now) + [now];
      hits := hits.Delete(key).Set(key, recent);
      over := |recent| > rule.banAfter;
    }

    /** An attempt that no ban refuses: counted under its two keys, the old keys forgotten, then the oldest past the cap. */
    method Hit(a: Attempt) returns (over: bool)
      requires hits.Valid()
      modifies this`hits
      ensures hits == AfterHit(old(hits), a)
      ensures over == TooManyOfEither(rule, old(hits), a)
    {
      ghost var before := hits;
      var overByAddress := Record(AddressKey(a), a.now);
      ghost var one := hits;
      var overByVisitor := Record(VisitorKey(a), a.now);
      BothRecorded(rule, before, one, hits, a);
      over := overByAddress || overByVisitor;
      var sifted := Sift(hits, StaleAt(a.now));
      hits := Evict(sifted, MAX_KEYS);
    }

    /** The two keys banned, the oldest bans evicted past the cap. */
    method Ban(a: Attempt)
      requires bans.Valid()
      modifies this`bans
      ensures bans == AfterBan(rule, old(bans), a)
    {
      bans := Evict(WithBoth(rule, bans, a), MAX_KEYS);
    }

    /**
     `checkBan`. The rule goes on holding until the map of recent attempts, full, loses a key; and until either map does,
     while the clock was never set back, the verdict is the rule's over everything that ever happened.
     */
    method CheckBan(a: Attempt) returns (verdict: Verdict)
      requires Valid()
      modifies this
      ensures Valid() && Account() == AfterCheck(rule, old(Account()), a)
      ensures verdict == Decided(rule, old(hits), old(bans), a)
      ensures Screened(rule, old(Account()), a, verdict == Passed, Account())
    {
      CheckKeepsRight(rule, Account(), a);
      CheckIsScreened(rule, Account(), a);
      verdict := Take(a);
    }

    /** The maps, as the attempt leaves them. */
    method Take(a: Attempt) returns (verdict: Verdict)
      requires hits.Valid() && bans.Valid()
      modifies this
      ensures Account() == AfterCheck(rule, old(Account()), a) && verdict == Decided(rule, old(hits), old(bans), a)
    {
      ghost var before := Account();
      WeighedIsDecided(rule, hits, bans, a);
      KeptBansAreSifted(bans, a.now);
      ForgetBans(a.now);
      ghost var kept := bans;
      verdict := Weigh(a);
      Note(before, a, verdict, kept);
    }

    /** The history notes the attempt. */
    ghost method Note(before: Ledger, a: Attempt, verdict: Verdict, kept: Until)
      modifies this`past, this`clock, this`hitsLost, this`bansLost
      ensures var noted := Noted(rule, before, a, verdict, kept);
        past == noted.past && clock == noted.clock && hitsLost == noted.hitsLost && bansLost == noted.bansLost
    {
      var noted := Noted(rule, before, a, verdict, kept);
      past, clock, hitsLost, bansLost := noted.past, noted.clock, noted.hitsLost, noted.bansLost;
    }

    /** An attempt once the bans that have run are forgotten: suspended, or counted, and banned when it goes over. */
    method Weigh(a: Attempt) returns (verdict: Verdict)
      requires hits.Valid() && bans.Valid()
      modifies this`hits, this`bans
      ensures verdict == Weighed(rule, old(hits), old(bans), a)
      ensures hits == HitsAfter(verdict, old(hits), a) && bans == BansAfter(rule, verdict, old(bans), a)
    {
      if AddressKey(a) in bans.at || VisitorKey(a) in bans.at {
        return Suspended;
      }
      ghost var before := hits;
      var over := Hit(a);
      verdict := if over then WentOver else Passed;
      assert hits == HitsAfter(verdict, before, a);
      if over {
        Ban(a);
      }
    }
  }
}
