/**
The owner's rules for the public page (cv/src/server.js), said of the posts themselves: which attempts are refused, and
which admissions count against the caps.
*/
module Rules {
  import opened Collections
  import opened Windows
  import opened Bans
  import Gate

  // ---------------------------------------------------------------- admissions

  /** Which admissions fall in a window: of a client, or of everyone. */
  ghost function AdmittedIn(history: seq<Event>, client: Option<string>, from: int, to: int): set<int> {
    set k | 0 <= k < |history| && (client.None? || history[k].who == client.value) && from < history[k].at && history[k].at <= to
  }

  lemma OneMoreAdmitted(history: seq<Event>, n: nat, client: Option<string>, from: int, to: int)
    requires |history| == n + 1
    ensures |AdmittedIn(history, client, from, to)|
      == |AdmittedIn(history[..n], client, from, to)| + if InWindow(history[n], client, from, to) then 1 else 0
  {
    var before := AdmittedIn(history[..n], client, from, to);
    assert n !in before;
    assert AdmittedIn(history, client, from, to) == if InWindow(history[n], client, from, to) then before + {n} else before;
  }

  lemma {:induction false} CountIsHowMany(history: seq<Event>, client: Option<string>, from: int, to: int)
    ensures Count(history, client, from, to) == |AdmittedIn(history, client, from, to)|
  {
    if history != [] {
      CountIsHowMany(history[..|history| - 1], client, from, to);
      OneMoreAdmitted(history, |history| - 1, client, from, to);
    }
  }

  /** A post of so many new jobs would take those of a window past a cap. */
  ghost predicate Over(history: seq<Event>, client: Option<string>, span: nat, now: int, count: nat, cap: nat) {
    |AdmittedIn(history, client, now - span, now)| + count > cap
  }

  /**
   Refused when the jobs in flight would be too many, else when the client's of the last hour would, else when everyone's
   of the last day would; else admitted.
   */
  lemma CapsDecide(limits: Gate.Limits, history: seq<Event>, a: Gate.Asking)
    ensures var verdict := Gate.Ruled(limits, history, a);
      var crowded := a.inFlight + a.count > limits.maxQueued;
      var overHour := Over(history, Some(a.client), 3_600_000, a.now, a.count, limits.perVisitorPerHour);
      var overDay := Over(history, None, 86_400_000, a.now, a.count, limits.perDay);
      && (verdict == Gate.TooMuchInFlight <==> crowded)
      && (verdict == Gate.ClientOverItsHour <==> !crowded && overHour)
      && (verdict == Gate.DayOver <==> !crowded && !overHour && overDay)
      && (verdict == Gate.Admitted <==> !crowded && !overHour && !overDay)
  {
    CountIsHowMany(history, Some(a.client), a.now - HOUR, a.now);
    CountIsHowMany(history, None, a.now - DAY, a.now);
  }

  /** The admissions a client has in memory after an instant. */
  ghost function RememberedAfter(kept: seq<Event>, client: string, from: int): set<int> {
    set k | 0 <= k < |kept| && kept[k].who == client && kept[k].at > from
  }

  lemma OneMoreRemembered(kept: seq<Event>, n: nat, client: string, from: int)
    requires |kept| == n + 1
    ensures |RememberedAfter(kept, client, from)|
      == |RememberedAfter(kept[..n], client, from)| + if kept[n].who == client && kept[n].at > from then 1 else 0
  {
    var before := RememberedAfter(kept[..n], client, from);
    assert n !in before;
    assert RememberedAfter(kept, client, from) == if kept[n].who == client && kept[n].at > from then before + {n} else before;
  }

  lemma {:induction false} AfterIsHowMany(kept: seq<Event>, client: string, from: int)
    ensures After(kept, client, from) == |RememberedAfter(kept, client, from)|
  {
    if kept != [] {
      AfterIsHowMany(kept[..|kept| - 1], client, from);
      OneMoreRemembered(kept, |kept| - 1, client, from);
    }
  }

  /** What is remembered is what was accepted, without the first ones up to the first that is less than a day old. */
  ghost predicate KeptFrom(accepted: seq<Event>, now: int, cut: nat) {
    && cut <= |accepted|
    && (forall k :: 0 <= k < cut ==> accepted[k].at <= now - 86_400_000)
    && (cut < |accepted| ==> accepted[cut].at > now - 86_400_000)
  }

  lemma {:induction false} KeptIsFrom(accepted: seq<Event>, now: int) returns (cut: nat)
    ensures KeptFrom(accepted, now, cut) && Gate.Kept(accepted, now) == accepted[cut..]
  {
    cut := 0;
    if accepted != [] && accepted[0].at <= now - DAY {
      var later := KeptIsFrom(accepted[1..], now);
      cut := later + 1;
      assert forall k :: 0 < k < |accepted| ==> accepted[k] == accepted[1..][k - 1];
      assert accepted[1..][later..] == accepted[cut..];
    }
  }

  /** The verdict the server gives, whatever its clock did: from the accepted ones it remembers. */
  lemma MemoryDecides(limits: Gate.Limits, accepted: seq<Event>, a: Gate.Asking) returns (cut: nat)
    ensures KeptFrom(accepted, a.now, cut)
    ensures Gate.Decided(limits, Gate.Kept(accepted, a.now), a) == Gate.Admitted <==> (
      && a.inFlight + a.count <= limits.maxQueued
      && |RememberedAfter(accepted[cut..], a.client, a.now - 3_600_000)| + a.count <= limits.perVisitorPerHour
      && |accepted| - cut + a.count <= limits.perDay)
  {
    cut := KeptIsFrom(accepted, a.now);
    AfterIsHowMany(accepted[cut..], a.client, a.now - HOUR);
  }

  // ---------------------------------------------------------------- attempts

  /** What the rule says of an attempt, after those before it. */
  ghost function VerdictAt(rule: Rule, attempts: seq<Attempt>, i: nat): Verdict
    requires i < |attempts|
  {
    Ruled(rule, AfterRun(rule, attempts[..i]), attempts[i])
  }

  ghost predicate HasKey(a: Attempt, key: string) {
    key == AddressKey(a) || key == VisitorKey(a)
  }

  lemma SameKeys(a: Attempt, b: Attempt)
    ensures HasKey(b, AddressKey(a)) <==> b.client == a.client
    ensures HasKey(b, VisitorKey(a)) <==> b.visitor == a.visitor
  {
    assert AddressKey(a)[3..] == a.client && AddressKey(b)[3..] == b.client;
    assert VisitorKey(a)[8..] == a.visitor && VisitorKey(b)[8..] == b.visitor;
    assert AddressKey(a)[0] == AddressKey(b)[0] == 'i' && VisitorKey(a)[0] == VisitorKey(b)[0] == 'v';
  }

  /** An attempt that went over under a key, and whose ban still runs. */
  ghost predicate BansKey(rule: Rule, attempts: seq<Attempt>, i: nat, key: string, now: int)
    requires i < |attempts|
  {
    VerdictAt(rule, attempts, i) == WentOver && HasKey(attempts[i], key) && now < attempts[i].now + rule.banHours * 3_600_000
  }

  ghost predicate KeyBanned(rule: Rule, attempts: seq<Attempt>, key: string, now: int) {
    exists i: nat :: i < |attempts| && BansKey(rule, attempts, i, key, now)
  }

  lemma VerdictOfPrefix(rule: Rule, attempts: seq<Attempt>, n: nat, i: nat)
    requires i < n <= |attempts|
    ensures VerdictAt(rule, attempts[..n], i) == VerdictAt(rule, attempts, i)
  {
    assert attempts[..n][..i] == attempts[..i];
  }

  lemma BannedOneMore(rule: Rule, attempts: seq<Attempt>, n: nat, key: string, now: int)
    requires |attempts| == n + 1
    ensures KeyBanned(rule, attempts, key, now) <==> KeyBanned(rule, attempts[..n], key, now) || BansKey(rule, attempts, n, key, now)
  {
    if KeyBanned(rule, attempts, key, now) {
      var i: nat :| i < |attempts| && BansKey(rule, attempts, i, key, now);
      if i < n {
        VerdictOfPrefix(rule, attempts, n, i);
        assert BansKey(rule, attempts[..n], i, key, now);
      }
    }
    if KeyBanned(rule, attempts[..n], key, now) {
      var i: nat :| i < n && BansKey(rule, attempts[..n], i, key, now);
      VerdictOfPrefix(rule, attempts, n, i);
      assert BansKey(rule, attempts, i, key, now);
    }
  }

  lemma BannedByMarks(rule: Rule, overs: seq<Event>, a: Attempt, key: string, now: int)
    ensures Banned(rule, overs + Marks(a), key, now)
      <==> Banned(rule, overs, key, now) || (HasKey(a, key) && now < a.now + rule.banHours * HOUR)
  {
    var more := overs + Marks(a);
    assert more[|overs|] == Event(a.now, AddressKey(a)) && more[|overs| + 1] == Event(a.now, VisitorKey(a));
    assert BanRunning(rule, more[|overs|], key, now) || BanRunning(rule, more[|overs| + 1], key, now)
      <==> HasKey(a, key) && now < a.now + rule.banHours * HOUR;
    if k :| 0 <= k < |overs| && BanRunning(rule, overs[k], key, now) {
      assert BanRunning(rule, more[k], key, now);
    }
    if k :| 0 <= k < |more| && BanRunning(rule, more[k], key, now) {
      assert k < |overs| ==> BanRunning(rule, overs[k], key, now);
    }
  }

  lemma {:induction false} OversBan(rule: Rule, attempts: seq<Attempt>, key: string, now: int)
    ensures Banned(rule, AfterRun(rule, attempts).overs, key, now) <==> KeyBanned(rule, attempts, key, now)
  {
    if attempts != [] {
      var n := |attempts| - 1;
      OversBan(rule, attempts[..n], key, now);
      BannedOneMore(rule, attempts, n, key, now);
      BannedByMarks(rule, AfterRun(rule, attempts[..n]).overs, attempts[n], key, now);
    }
  }

  /** The attempts counted under a key after an instant: all but the suspended ones. */
  ghost function CountedUnder(rule: Rule, attempts: seq<Attempt>, key: string, from: int): set<nat> {
    set i: nat | i < |attempts| && VerdictAt(rule, attempts, i) != Suspended && HasKey(attempts[i], key) && attempts[i].now > from
  }

  lemma CountedEarlier(rule: Rule, attempts: seq<Attempt>, n: nat, key: string, from: int, i: nat)
    requires |attempts| == n + 1 && i < n
    ensures i in CountedUnder(rule, attempts, key, from) <==> i in CountedUnder(rule, attempts[..n], key, from)
  {
    VerdictOfPrefix(rule, attempts, n, i);
  }

  lemma SizeWithOneMore(before: set<nat>, after: set<nat>, n: nat)
    requires n !in before && (forall i :: i in before ==> i in after) && (forall i :: i in after ==> i in before || i == n)
    ensures |after| == |before| + if n in after then 1 else 0
  {
    assert after == if n in after then before + {n} else before;
  }

  lemma CountedOneMore(rule: Rule, attempts: seq<Attempt>, n: nat, key: string, from: int)
    requires |attempts| == n + 1
    ensures |CountedUnder(rule, attempts, key, from)| == |CountedUnder(rule, attempts[..n], key, from)|
      + if VerdictAt(rule, attempts, n) != Suspended && HasKey(attempts[n], key) && attempts[n].now > from then 1 else 0
  {
    forall i: nat | i < n
      ensures i in CountedUnder(rule, attempts, key, from) <==> i in CountedUnder(rule, attempts[..n], key, from)
    {
      CountedEarlier(rule, attempts, n, key, from, i);
    }
    SizeWithOneMore(CountedUnder(rule, attempts[..n], key, from), CountedUnder(rule, attempts, key, from), n);
  }

  lemma MarksAfter(events: seq<Event>, a: Attempt, key: string, from: int)
    ensures After(events + Marks(a), key, from) == After(events, key, from) + if HasKey(a, key) && a.now > from then 1 else 0
  {
    KeysDiffer(a);
    var one := events + [Event(a.now, AddressKey(a))];
    assert (events + Marks(a))[..|events| + 1] == one && one[..|events|] == events;
  }

  lemma {:induction false} CountedAreCounted(rule: Rule, attempts: seq<Attempt>, key: string, from: int)
    ensures After(AfterRun(rule, attempts).counted, key, from) == |CountedUnder(rule, attempts, key, from)|
  {
    if attempts != [] {
      var n := |attempts| - 1;
      CountedAreCounted(rule, attempts[..n], key, from);
      CountedOneMore(rule, attempts, n, key, from);
      MarksAfter(AfterRun(rule, attempts[..n]).counted, attempts[n], key, from);
    }
  }

  /** An earlier attempt of the same address or visitor went over, and its ban still runs. */
  ghost predicate BarredByAnother(rule: Rule, attempts: seq<Attempt>, j: nat)
    requires j < |attempts|
  {
    exists i: nat :: i < j && VerdictAt(rule, attempts, i) == WentOver
      && (attempts[i].client == attempts[j].client || attempts[i].visitor == attempts[j].visitor)
      && attempts[j].now < attempts[i].now + rule.banHours * 3_600_000
  }

  /** The earlier attempts of an address, or of a visitor, within the hour, that were not suspended. */
  ghost function OfTheAddress(rule: Rule, attempts: seq<Attempt>, j: nat): set<nat>
    requires j < |attempts|
  {
    set i: nat | i < j && VerdictAt(rule, attempts, i) != Suspended
      && attempts[i].client == attempts[j].client && attempts[i].now > attempts[j].now - 3_600_000
  }

  ghost function OfTheVisitor(rule: Rule, attempts: seq<Attempt>, j: nat): set<nat>
    requires j < |attempts|
  {
    set i: nat | i < j && VerdictAt(rule, attempts, i) != Suspended
      && attempts[i].visitor == attempts[j].visitor && attempts[i].now > attempts[j].now - 3_600_000
  }

  ghost predicate TooOften(rule: Rule, attempts: seq<Attempt>, j: nat)
    requires j < |attempts|
  {
    |OfTheAddress(rule, attempts, j)| >= rule.banAfter || |OfTheVisitor(rule, attempts, j)| >= rule.banAfter
  }

  lemma BarredIsBanned(rule: Rule, attempts: seq<Attempt>, j: nat)
    requires j < |attempts|
    ensures BarredByAnother(rule, attempts, j) <==>
      KeyBanned(rule, attempts[..j], AddressKey(attempts[j]), attempts[j].now) || KeyBanned(rule, attempts[..j], VisitorKey(attempts[j]), attempts[j].now)
  {
    forall i: nat | i < j
      ensures VerdictAt(rule, attempts[..j], i) == VerdictAt(rule, attempts, i)
      ensures HasKey(attempts[i], AddressKey(attempts[j])) <==> attempts[i].client == attempts[j].client
      ensures HasKey(attempts[i], VisitorKey(attempts[j])) <==> attempts[i].visitor == attempts[j].visitor
    {
      VerdictOfPrefix(rule, attempts, j, i);
      SameKeys(attempts[j], attempts[i]);
    }
    if i: nat :| i < j && BansKey(rule, attempts[..j], i, AddressKey(attempts[j]), attempts[j].now) {
      assert VerdictAt(rule, attempts, i) == WentOver;
    }
    if i: nat :| i < j && BansKey(rule, attempts[..j], i, VisitorKey(attempts[j]), attempts[j].now) {
      assert VerdictAt(rule, attempts, i) == WentOver;
    }
    if BarredByAnother(rule, attempts, j) {
      var i: nat :| i < j && VerdictAt(rule, attempts, i) == WentOver
        && (attempts[i].client == attempts[j].client || attempts[i].visitor == attempts[j].visitor)
        && attempts[j].now < attempts[i].now + rule.banHours * 3_600_000;
      assert BansKey(rule, attempts[..j], i, AddressKey(attempts[j]), attempts[j].now)
        || BansKey(rule, attempts[..j], i, VisitorKey(attempts[j]), attempts[j].now);
    }
  }

  lemma CountedOfTheHour(rule: Rule, attempts: seq<Attempt>, j: nat)
    requires j < |attempts|
    ensures CountedUnder(rule, attempts[..j], AddressKey(attempts[j]), attempts[j].now - HOUR) == OfTheAddress(rule, attempts, j)
    ensures CountedUnder(rule, attempts[..j], VisitorKey(attempts[j]), attempts[j].now - HOUR) == OfTheVisitor(rule, attempts, j)
  {
    forall i: nat | i < j
      ensures VerdictAt(rule, attempts[..j], i) == VerdictAt(rule, attempts, i)
      ensures HasKey(attempts[i], AddressKey(attempts[j])) <==> attempts[i].client == attempts[j].client
      ensures HasKey(attempts[i], VisitorKey(attempts[j])) <==> attempts[i].visitor == attempts[j].visitor
    {
      VerdictOfPrefix(rule, attempts, j, i);
      SameKeys(attempts[j], attempts[i]);
    }
  }

  lemma SuspendedIs(rule: Rule, attempts: seq<Attempt>, j: nat)
    requires j < |attempts|
    ensures VerdictAt(rule, attempts, j) == Suspended <==> BarredByAnother(rule, attempts, j)
  {
    var a := attempts[j];
    BarredIsBanned(rule, attempts, j);
    OversBan(rule, attempts[..j], AddressKey(a), a.now);
    OversBan(rule, attempts[..j], VisitorKey(a), a.now);
  }

  lemma ExceedsIs(rule: Rule, attempts: seq<Attempt>, j: nat)
    requires j < |attempts|
    ensures var past, a := AfterRun(rule, attempts[..j]), attempts[j];
      (Exceeds(rule, past.counted, AddressKey(a), a.now) || Exceeds(rule, past.counted, VisitorKey(a), a.now)) <==> TooOften(rule, attempts, j)
  {
    var a := attempts[j];
    CountedOfTheHour(rule, attempts, j);
    CountedAreCounted(rule, attempts[..j], AddressKey(a), a.now - HOUR);
    CountedAreCounted(rule, attempts[..j], VisitorKey(a), a.now - HOUR);
  }

  lemma RuledInTurn(rule: Rule, past: Past, a: Attempt)
    ensures Ruled(rule, past, a) == WentOver <==> (
      && Ruled(rule, past, a) != Suspended
      && (Exceeds(rule, past.counted, AddressKey(a), a.now) || Exceeds(rule, past.counted, VisitorKey(a), a.now)))
  {
  }

  /**
   An attempt is suspended exactly while the ban of an earlier one of its address or visitor runs; else it goes over
   exactly when its address or its visitor already made `banAfter` attempts within the hour, suspended ones aside.
   */
  lemma AttemptsDecide(rule: Rule, attempts: seq<Attempt>, j: nat)
    requires j < |attempts|
    ensures VerdictAt(rule, attempts, j) == Suspended <==> BarredByAnother(rule, attempts, j)
    ensures VerdictAt(rule, attempts, j) == WentOver <==> !BarredByAnother(rule, attempts, j) && TooOften(rule, attempts, j)
  {
    SuspendedIs(rule, attempts, j);
    ExceedsIs(rule, attempts, j);
    RuledInTurn(rule, AfterRun(rule, attempts[..j]), attempts[j]);
  }
}
