/**
The public page (cv/src/server.js, `createApp`): page loads, posts and the ends of jobs, in any order.
*/
module PublicPage {
  import opened Collections
  import opened Windows
  import opened Gate
  import Bans
  import opened Lanes

  /** An offer of a post: the lane its model runs in, and whether a past run answers it. */
  datatype Offer = Offer(lane: Lane, reused: bool)

  datatype Request = Request(now: int, client: string, visitor: string, cookieMatches: bool, wellFormed: bool, offers: seq<Offer>)

  datatype Outcome = Accepted | Banned | Malformed | Refused

  // ---------------------------------------------------------------- the jobs of a post

  /** From the `i`th on: the ids that join a lane's queue. */
  function Joining(ids: seq<Id>, offers: seq<Offer>, lane: Lane, i: nat): seq<Id>
    requires i <= |ids| == |offers|
    decreases |ids| - i
  {
    if i == |ids| then []
    else (if !offers[i].reused && offers[i].lane == lane then [ids[i]] else []) + Joining(ids, offers, lane, i + 1)
  }

  function Counted(offers: seq<Offer>, i: nat): nat
    requires i <= |offers|
    decreases |offers| - i
  {
    if i == |offers| then 0 else (if offers[i].reused then 0 else 1) + Counted(offers, i + 1)
  }

  function AddOffer(s: State, id: Id, offer: Offer, visitor: string): State {
    Add(s, id, offer.lane, visitor, offer.reused)
  }

  function Added(s: State, ids: seq<Id>, offers: seq<Offer>, visitor: string, i: nat): State
    requires i <= |ids| == |offers|
    decreases |ids| - i
  {
    if i == |ids| then s else Added(AddOffer(s, ids[i], offers[i], visitor), ids, offers, visitor, i + 1)
  }

  lemma AddedUnfolds(s: State, ids: seq<Id>, offers: seq<Offer>, visitor: string, i: nat)
    requires i < |ids| == |offers|
    ensures Added(s, ids, offers, visitor, i) == Added(AddOffer(s, ids[i], offers[i], visitor), ids, offers, visitor, i + 1)
  {
  }

  /** None of these ids is known yet. */
  ghost predicate Unseen(s: State, ids: seq<Id>) {
    Distinct(ids) && UnseenFrom(s, ids, 0)
  }

  ghost predicate UnseenFrom(s: State, ids: seq<Id>, i: nat) {
    forall k :: i <= k < |ids| ==> ids[k] !in s.jobs.at
  }

  lemma {:induction false} AddedKeepsSound(s: State, ids: seq<Id>, offers: seq<Offer>, visitor: string, i: nat)
    requires i <= |ids| == |offers| && Sound(s) && Distinct(ids) && UnseenFrom(s, ids, i)
    ensures Sound(Added(s, ids, offers, visitor, i))
    decreases |ids| - i
  {
    if i < |ids| {
      AddKeepsSound(s, ids[i], offers[i].lane, visitor, offers[i].reused);
      AddedKeepsSound(AddOffer(s, ids[i], offers[i], visitor), ids, offers, visitor, i + 1);
    }
  }

  /** Only the queues grow, by the jobs that join them. */
  ghost predicate QueuesGrew(s: State, ids: seq<Id>, offers: seq<Offer>, i: nat, after: State)
    requires i <= |ids| == |offers|
  {
    && after.claude == s.claude.(queue := s.claude.queue + Joining(ids, offers, Claude, i))
    && after.local == s.local.(queue := s.local.queue + Joining(ids, offers, Local, i))
    && after.visitors.order == s.visitors.order
  }

  lemma OneJobMore(s: State, ids: seq<Id>, offers: seq<Offer>, visitor: string, i: nat, after: State)
    requires i < |ids| == |offers| && QueuesGrew(AddOffer(s, ids[i], offers[i], visitor), ids, offers, i + 1, after)
    ensures QueuesGrew(s, ids, offers, i, after)
  {
    var here, there := Joining(ids, offers, Claude, i + 1), Joining(ids, offers, Local, i + 1);
    assert s.claude.queue + [ids[i]] + here == s.claude.queue + ([ids[i]] + here);
    assert s.local.queue + [ids[i]] + there == s.local.queue + ([ids[i]] + there);
    assert [] + here == here && [] + there == there;
  }

  lemma {:induction false} AddedGrowsQueues(s: State, ids: seq<Id>, offers: seq<Offer>, visitor: string, i: nat)
    requires i <= |ids| == |offers|
    ensures QueuesGrew(s, ids, offers, i, Added(s, ids, offers, visitor, i))
    decreases |ids| - i
  {
    if i < |ids| {
      AddedGrowsQueues(AddOffer(s, ids[i], offers[i], visitor), ids, offers, visitor, i + 1);
      OneJobMore(s, ids, offers, visitor, i, Added(s, ids, offers, visitor, i));
    }
  }

  /** A post is counted for exactly the jobs it queues. */
  lemma {:induction false} CountedAreQueued(ids: seq<Id>, offers: seq<Offer>, i: nat)
    requires i <= |ids| == |offers|
    ensures |Joining(ids, offers, Claude, i)| + |Joining(ids, offers, Local, i)| == Counted(offers, i)
    decreases |ids| - i
  {
    if i < |ids| {
      CountedAreQueued(ids, offers, i + 1);
    }
  }

  predicate JoinsLane(offers: seq<Offer>, lane: Lane, k: nat) {
    k < |offers| && !offers[k].reused && offers[k].lane == lane
  }

  /** The ids of the offers from the `i`th on that join a lane, in order. */
  ghost predicate JoinAt(ids: seq<Id>, offers: seq<Offer>, lane: Lane, i: nat, places: seq<nat>, joined: seq<Id>) {
    && TakenAt(ids, places, joined)
    && (forall k :: k in places ==> i <= k)
    && (forall k :: i <= k < |ids| ==> (k in places <==> JoinsLane(offers, lane, k)))
  }

  lemma OneMoreJoins(ids: seq<Id>, offers: seq<Offer>, lane: Lane, i: nat, places: seq<nat>, joined: seq<Id>)
    requires i < |ids| && JoinAt(ids, offers, lane, i + 1, places, joined)
    ensures if JoinsLane(offers, lane, i) then JoinAt(ids, offers, lane, i, [i] + places, [ids[i]] + joined)
      else JoinAt(ids, offers, lane, i, places, joined)
  {
    assert forall k :: 0 <= k < |places| ==> places[k] in places;
  }

  /** A lane's queue is joined by the new jobs of its own offers, in the order of the post. */
  lemma {:induction false} JoiningIs(ids: seq<Id>, offers: seq<Offer>, lane: Lane, i: nat) returns (places: seq<nat>)
    requires i <= |ids| == |offers|
    ensures JoinAt(ids, offers, lane, i, places, Joining(ids, offers, lane, i))
    decreases |ids| - i
  {
    places := [];
    if i < |ids| {
      var later := JoiningIs(ids, offers, lane, i + 1);
      OneMoreJoins(ids, offers, lane, i, later, Joining(ids, offers, lane, i + 1));
      assert [] + Joining(ids, offers, lane, i + 1) == Joining(ids, offers, lane, i + 1);
      places := if JoinsLane(offers, lane, i) then [i] + later else later;
    }
  }

  // ---------------------------------------------------------------- order of service

  /** The ids each lane was ever given, or ever started, in order. */
  datatype Log = Log(claude: seq<Id>, local: seq<Id>)

  /** First in, first out: what a lane was given is what it started, then what still waits. */
  ghost predicate Fifo(submitted: Log, started: Log, s: State) {
    submitted.claude == started.claude + s.claude.queue && submitted.local == started.local + s.local.queue
  }

  function Starting(s: State, lane: Lane): seq<Id> {
    if At(s, lane).running.None? && At(s, lane).queue != [] then [At(s, lane).queue[0]] else []
  }

  function LogOne(log: Log, lane: Lane, ids: seq<Id>): Log {
    if lane == Claude then log.(claude := log.claude + ids) else log.(local := log.local + ids)
  }

  lemma StartKeepsFifo(submitted: Log, started: Log, s: State, lane: Lane)
    requires LaneSound(s, lane) && Fifo(submitted, started, s)
    ensures Fifo(submitted, LogOne(started, lane, Starting(s, lane)), Start(s, lane))
  {
    var here := At(s, lane);
    if here.running.None? && here.queue != [] {
      assert here.queue == [here.queue[0]] + here.queue[1..];
    }
  }

  lemma StartKeepsCounts(s: State, lane: Lane)
    requires LaneSound(s, lane)
    ensures InFlight(Start(s, lane)) == InFlight(s) && Start(s, lane).visitors == s.visitors
    ensures |Start(s, lane).jobs.order| == |s.jobs.order|
  {
    var here := At(s, lane);
    if here.running.None? && here.queue != [] {
      assert QueuedHere(s, lane, here.queue[0]);
    }
  }

  // ---------------------------------------------------------------- the page

  datatype Caps = Caps(maxVisitors: nat, maxQueued: nat)

  /** Every state between two steps. */
  ghost predicate Steady(s: State, caps: Caps) {
    && Sound(s)
    && Busy(s, Claude) && Busy(s, Local)
    && |s.visitors.order| <= caps.maxVisitors
    && InFlight(s) <= caps.maxQueued
  }

  lemma FinishKeepsSteady(s: State, caps: Caps, lane: Lane, status: Status)
    requires Steady(s, caps) && At(s, lane).running.Some? && Finished(status)
    ensures Sound(End(s, lane, status)) && Steady(Start(End(s, lane, status), lane), caps)
  {
    var ended := End(s, lane, status);
    EndKeepsSound(s, lane, status);
    StartKeepsSound(ended, lane);
    StartKeepsCounts(ended, lane);
  }

  lemma RememberKeepsSteady(s: State, caps: Caps, newcomer: string)
    requires Steady(s, caps) && newcomer !in s.visitors.at
    ensures Steady(s.(visitors := Remembered(s.visitors, newcomer, caps.maxVisitors)), caps)
  {
    RememberedKeepsSound(s, newcomer, caps.maxVisitors);
    RememberedFits(s.visitors, newcomer, caps.maxVisitors);
  }

  /** A post taken in: its jobs added, the oldest finished ones forgotten past the cap, both lanes set to work. */
  function AddedAndEvicted(s: State, r: Request, ids: seq<Id>, maxJobs: nat): State
    requires |ids| == |r.offers| && Sound(s) && Unseen(s, ids)
  {
    AddedKeepsSound(s, ids, r.offers, r.visitor, 0);
    var added := Added(s, ids, r.offers, r.visitor, 0);
    Evicted(added, added.jobs.order, maxJobs)
  }

  lemma TakenInIsSound(s: State, r: Request, ids: seq<Id>, maxJobs: nat)
    requires |ids| == |r.offers| && Sound(s) && Unseen(s, ids)
    ensures var after := AddedAndEvicted(s, r, ids, maxJobs);
      && Sound(after)
      && after.claude == s.claude.(queue := s.claude.queue + Joining(ids, r.offers, Claude, 0))
      && after.local == s.local.(queue := s.local.queue + Joining(ids, r.offers, Local, 0))
      && after.visitors.order == s.visitors.order
      && InFlight(after) == InFlight(s) + Counted(r.offers, 0)
      && (|after.jobs.order| <= maxJobs || |after.jobs.order| == InFlight(after))
  {
    AddedKeepsSound(s, ids, r.offers, r.visitor, 0);
    AddedGrowsQueues(s, ids, r.offers, r.visitor, 0);
    var added := Added(s, ids, r.offers, r.visitor, 0);
    EvictedKeepsSound(added, added.jobs.order, maxJobs);
    MemoryIsBounded(added, maxJobs);
    CountedAreQueued(ids, r.offers, 0);
  }

  function TakenIn(s: State, r: Request, ids: seq<Id>, maxJobs: nat): State
    requires |ids| == |r.offers| && Sound(s) && Unseen(s, ids)
  {
    TakenInIsSound(s, r, ids, maxJobs);
    StartKeepsSound(AddedAndEvicted(s, r, ids, maxJobs), Claude);
    Start(Start(AddedAndEvicted(s, r, ids, maxJobs), Claude), Local)
  }

  /** A post taken in keeps every promise, and is counted for exactly the jobs it put in flight. */
  lemma TakenInKeepsSteady(s: State, caps: Caps, r: Request, ids: seq<Id>, maxJobs: nat)
    requires |ids| == |r.offers| && Steady(s, caps) && Unseen(s, ids)
    requires InFlight(s) + Counted(r.offers, 0) <= caps.maxQueued
    ensures var after := TakenIn(s, r, ids, maxJobs);
      && Steady(after, caps)
      && InFlight(after) == InFlight(s) + Counted(r.offers, 0)
      && (|after.jobs.order| <= maxJobs || |after.jobs.order| == InFlight(after))
  {
    TakenInIsSound(s, r, ids, maxJobs);
    var one := AddedAndEvicted(s, r, ids, maxJobs);
    StartKeepsSound(one, Claude);
    StartKeepsCounts(one, Claude);
    var two := Start(one, Claude);
    StartKeepsSound(two, Local);
    StartKeepsCounts(two, Local);
  }

  function Submitted(log: Log, r: Request, ids: seq<Id>): Log
    requires |ids| == |r.offers|
  {
    LogOne(LogOne(log, Claude, Joining(ids, r.offers, Claude, 0)), Local, Joining(ids, r.offers, Local, 0))
  }

  lemma LongerQueuesKeepFifo(submitted: Log, started: Log, s: State, after: State, claude: seq<Id>, local: seq<Id>)
    requires Fifo(submitted, started, s)
    requires after.claude.queue == s.claude.queue + claude && after.local.queue == s.local.queue + local
    ensures Fifo(LogOne(LogOne(submitted, Claude, claude), Local, local), started, after)
  {
    assert started.claude + s.claude.queue + claude == started.claude + (s.claude.queue + claude);
    assert started.local + s.local.queue + local == started.local + (s.local.queue + local);
  }

  lemma TakenInKeepsFifo(submitted: Log, started: Log, s: State, r: Request, ids: seq<Id>, maxJobs: nat)
    requires |ids| == |r.offers| && Sound(s) && Unseen(s, ids) && Fifo(submitted, started, s)
    ensures Fifo(Submitted(submitted, r, ids), started, AddedAndEvicted(s, r, ids, maxJobs))
  {
    TakenInIsSound(s, r, ids, maxJobs);
    LongerQueuesKeepFifo(submitted, started, s, AddedAndEvicted(s, r, ids, maxJobs),
                         Joining(ids, r.offers, Claude, 0), Joining(ids, r.offers, Local, 0));
  }

  // ---------------------------------------------------------------- whose the jobs of a post are

  /** The jobs of a post, given to its visitor one by one. */
  function Gifts(visitor: string, ids: seq<Id>, i: nat): seq<Note>
    requires i <= |ids|
    decreases |ids| - i
  {
    if i == |ids| then [] else [Gave(visitor, ids[i])] + Gifts(visitor, ids, i + 1)
  }

  lemma OneGiftMore(history: seq<Note>, visitor: string, ids: seq<Id>, i: nat)
    requires i <= |ids|
    ensures i == |ids| ==> history + Gifts(visitor, ids, i) == history
    ensures i < |ids| ==> history + [Gave(visitor, ids[i])] + Gifts(visitor, ids, i + 1) == history + Gifts(visitor, ids, i)
  {
  }

  lemma {:induction false} AddedKeepsOwnersExact(history: seq<Note>, s: State, ids: seq<Id>, offers: seq<Offer>, visitor: string, i: nat)
    requires i <= |ids| == |offers| && Sound(s) && Distinct(ids) && UnseenFrom(s, ids, i) && OwnersExact(history, s)
    ensures OwnersExact(history + Gifts(visitor, ids, i), Added(s, ids, offers, visitor, i))
    decreases |ids| - i
  {
    if i < |ids| {
      AddKeepsSound(s, ids[i], offers[i].lane, visitor, offers[i].reused);
      AddKeepsOwnersExact(history, s, ids[i], offers[i].lane, visitor, offers[i].reused);
      AddedKeepsOwnersExact(history + [Gave(visitor, ids[i])], AddOffer(s, ids[i], offers[i], visitor), ids, offers, visitor, i + 1);
    }
    OneGiftMore(history, visitor, ids, i);
  }

  lemma AddedAndEvictedKeepsOwnersExact(history: seq<Note>, s: State, r: Request, ids: seq<Id>, maxJobs: nat)
    requires |ids| == |r.offers| && Sound(s) && Unseen(s, ids) && OwnersExact(history, s)
    ensures OwnersExact(history + Gifts(r.visitor, ids, 0), AddedAndEvicted(s, r, ids, maxJobs))
  {
    AddedKeepsSound(s, ids, r.offers, r.visitor, 0);
    AddedKeepsOwnersExact(history, s, ids, r.offers, r.visitor, 0);
    var added := Added(s, ids, r.offers, r.visitor, 0);
    EvictedKeepsOwnersExact(history + Gifts(r.visitor, ids, 0), added, added.jobs.order, maxJobs);
  }

  lemma StartedKeepsOwnersExact(history: seq<Note>, s: State)
    requires Sound(s) && OwnersExact(history, s)
    ensures Sound(Start(s, Claude)) && OwnersExact(history, Start(Start(s, Claude), Local))
  {
    StartKeepsSound(s, Claude);
    StartKeepsOwners(s, Claude);
    SameOwnersStayExact(history, s, Start(s, Claude));
    StartKeepsOwners(Start(s, Claude), Local);
    SameOwnersStayExact(history, Start(s, Claude), Start(Start(s, Claude), Local));
  }

  lemma TakenInKeepsOwnersExact(history: seq<Note>, s: State, r: Request, ids: seq<Id>, maxJobs: nat)
    requires |ids| == |r.offers| && Sound(s) && Unseen(s, ids) && OwnersExact(history, s)
    ensures OwnersExact(history + Gifts(r.visitor, ids, 0), TakenIn(s, r, ids, maxJobs))
  {
    TakenInIsSound(s, r, ids, maxJobs);
    AddedAndEvictedKeepsOwnersExact(history, s, r, ids, maxJobs);
    StartedKeepsOwnersExact(history + Gifts(r.visitor, ids, 0), AddedAndEvicted(s, r, ids, maxJobs));
  }

  lemma FinishKeepsOwnersExact(history: seq<Note>, s: State, lane: Lane, status: Status)
    requires Sound(s) && At(s, lane).running.Some? && Finished(status) && OwnersExact(history, s)
    ensures Sound(End(s, lane, status)) && OwnersExact(history, Start(End(s, lane, status), lane))
    ensures Start(End(s, lane, status), lane).visitors == s.visitors
  {
    EndKeepsSound(s, lane, status);
    EndKeepsOwners(s, lane, status);
    SameOwnersStayExact(history, s, End(s, lane, status));
    StartKeepsOwners(End(s, lane, status), lane);
    SameOwnersStayExact(history, End(s, lane, status), Start(End(s, lane, status), lane));
  }

  /** The visitors once a post is taken in: its own was given its jobs, and the jobs forgotten are nobody's. */
  ghost predicate GivesThePost(before: State, r: Request, ids: seq<Id>, after: State) {
    && after.visitors.order == before.visitors.order
    && forall v :: v in before.visitors.at ==> GivenAndLeft(before, if v == r.visitor then Elements(ids) else {}, v, after)
  }

  ghost predicate GivenAndLeft(before: State, given: set<Id>, v: string, after: State)
    requires v in before.visitors.at
  {
    v in after.visitors.at && after.visitors.at[v] == (before.visitors.at[v] + given) * after.jobs.at.Keys
  }

  lemma AddGives(s: State, id: Id, offer: Offer, visitor: string, v: string)
    requires v in s.visitors.at
    ensures var after := AddOffer(s, id, offer, visitor);
      v in after.visitors.at && after.visitors.at[v] == s.visitors.at[v] + if v == visitor then {id} else {}
  {
  }

  lemma ElementsFrom(ids: seq<Id>, i: nat)
    requires i < |ids|
    ensures Elements(ids[i..]) == {ids[i]} + Elements(ids[i + 1..])
  {
    assert ids[i..] == [ids[i]] + ids[i + 1..];
  }

  lemma {:induction false} AddedGives(s: State, ids: seq<Id>, offers: seq<Offer>, visitor: string, i: nat, v: string)
    requires i <= |ids| == |offers| && v in s.visitors.at
    ensures var after := Added(s, ids, offers, visitor, i);
      v in after.visitors.at && after.visitors.at[v] == s.visitors.at[v] + if v == visitor then Elements(ids[i..]) else {}
    decreases |ids| - i
  {
    if i < |ids| {
      AddGives(s, ids[i], offers[i], visitor, v);
      AddedGives(AddOffer(s, ids[i], offers[i], visitor), ids, offers, visitor, i + 1, v);
      ElementsFrom(ids, i);
    }
  }

  lemma AddedAndEvictedGives(s: State, r: Request, ids: seq<Id>, maxJobs: nat, v: string)
    requires |ids| == |r.offers| && Sound(s) && Unseen(s, ids) && v in s.visitors.at
    ensures GivenAndLeft(s, if v == r.visitor then Elements(ids) else {}, v, AddedAndEvicted(s, r, ids, maxJobs))
  {
    var added := Added(s, ids, r.offers, r.visitor, 0);
    AddedKeepsSound(s, ids, r.offers, r.visitor, 0);
    AddedGives(s, ids, r.offers, r.visitor, 0, v);
    assert ids[0..] == ids;
    EvictedOwns(added, added.jobs.order, maxJobs, v);
  }

  lemma TakenInKeepsOwners(s: State, r: Request, ids: seq<Id>, maxJobs: nat)
    requires |ids| == |r.offers| && Sound(s) && Unseen(s, ids)
    ensures SameOwners(AddedAndEvicted(s, r, ids, maxJobs), TakenIn(s, r, ids, maxJobs))
  {
    var one := AddedAndEvicted(s, r, ids, maxJobs);
    TakenInIsSound(s, r, ids, maxJobs);
    StartKeepsSound(one, Claude);
    StartKeepsOwners(one, Claude);
    StartKeepsOwners(Start(one, Claude), Local);
  }

  lemma SameKeys(s: State, after: State)
    requires SameOwners(s, after)
    ensures after.jobs.at.Keys == s.jobs.at.Keys
  {
  }

  /** A post taken in gives its visitor exactly its jobs. */
  lemma TakenInGives(s: State, r: Request, ids: seq<Id>, maxJobs: nat)
    requires |ids| == |r.offers| && Sound(s) && Unseen(s, ids)
    ensures GivesThePost(s, r, ids, TakenIn(s, r, ids, maxJobs))
  {
    TakenInIsSound(s, r, ids, maxJobs);
    TakenInKeepsOwners(s, r, ids, maxJobs);
    SameKeys(AddedAndEvicted(s, r, ids, maxJobs), TakenIn(s, r, ids, maxJobs));
    forall v | v in s.visitors.at
      ensures GivenAndLeft(s, if v == r.visitor then Elements(ids) else {}, v, TakenIn(s, r, ids, maxJobs))
    {
      AddedAndEvictedGives(s, r, ids, maxJobs, v);
    }
  }

  // ---------------------------------------------------------------- the jobs of a post

  /** What a job is, whatever its progress: its lane, its visitor, and whether it is over. */
  ghost predicate SameJob(a: Job, b: Job) {
    a.lane == b.lane && a.visitor == b.visitor && (Finished(a.status) <==> Finished(b.status))
  }

  /** A job of a post: in its lane, for its visitor, over exactly when a past run answered it, and held while it is not. */
  ghost predicate HoldsJob(r: Request, id: Id, offer: Offer, after: State) {
    && (!offer.reused ==> id in after.jobs.at)
    && (id in after.jobs.at ==> SameJob(after.jobs.at[id], Job(offer.lane, if offer.reused then Done else Queued, r.visitor)))
  }

  /** A job the page held before: forgotten only when it is over. */
  ghost predicate KeepsJob(before: State, id: Id, after: State)
    requires id in before.jobs.at
  {
    && (!Finished(before.jobs.at[id].status) ==> id in after.jobs.at)
    && (id in after.jobs.at ==> SameJob(after.jobs.at[id], before.jobs.at[id]))
  }

  /** The jobs the page holds once a post is taken in: its own and the earlier ones, all of them while they fit. */
  ghost predicate HoldsThePost(before: State, r: Request, ids: seq<Id>, maxJobs: nat, after: State)
    requires |ids| == |r.offers|
  {
    && (forall k :: 0 <= k < |ids| ==> HoldsJob(r, ids[k], r.offers[k], after))
    && (forall id :: id in before.jobs.at ==> KeepsJob(before, id, after))
    && (forall id :: id in after.jobs.at ==> id in before.jobs.at || id in ids)
    && (|before.jobs.order| + |ids| <= maxJobs ==> (forall id :: id in before.jobs.at || id in ids ==> id in after.jobs.at))
  }

  lemma AddedUnfoldsJobs(s: State, id: Id, offer: Offer, visitor: string)
    requires id !in s.jobs.at
    ensures var after := AddOffer(s, id, offer, visitor);
      && after.jobs.at == s.jobs.at[id := Job(offer.lane, if offer.reused then Done else Queued, visitor)]
      && |after.jobs.order| == |s.jobs.order| + 1
  {
  }

  /** The jobs added so far, and no other. */
  ghost predicate JobsAdded(s: State, ids: seq<Id>, offers: seq<Offer>, visitor: string, i: nat, after: State)
    requires i <= |ids| == |offers|
  {
    && (forall k :: i <= k < |ids| ==> ids[k] in after.jobs.at && after.jobs.at[ids[k]] == Job(offers[k].lane, if offers[k].reused then Done else Queued, visitor))
    && (forall id :: id in s.jobs.at ==> id in after.jobs.at && after.jobs.at[id] == s.jobs.at[id])
    && (forall id :: id in after.jobs.at ==> id in s.jobs.at || id in ids)
    && |after.jobs.order| == |s.jobs.order| + |ids| - i
  }

  lemma {:induction false} AddedAreAdded(s: State, ids: seq<Id>, offers: seq<Offer>, visitor: string, i: nat)
    requires i <= |ids| == |offers| && Distinct(ids) && UnseenFrom(s, ids, i)
    ensures JobsAdded(s, ids, offers, visitor, i, Added(s, ids, offers, visitor, i))
    decreases |ids| - i
  {
    if i < |ids| {
      var next := AddOffer(s, ids[i], offers[i], visitor);
      AddedUnfoldsJobs(s, ids[i], offers[i], visitor);
      AddedAreAdded(next, ids, offers, visitor, i + 1);
      OneJobMoreAdded(s, ids, offers, visitor, i, next, Added(s, ids, offers, visitor, i));
    }
  }

  lemma OneJobMoreAdded(s: State, ids: seq<Id>, offers: seq<Offer>, visitor: string, i: nat, next: State, after: State)
    requires i < |ids| == |offers| && ids[i] !in s.jobs.at
    requires next.jobs.at == s.jobs.at[ids[i] := Job(offers[i].lane, if offers[i].reused then Done else Queued, visitor)]
    requires |next.jobs.order| == |s.jobs.order| + 1
    requires JobsAdded(next, ids, offers, visitor, i + 1, after)
    ensures JobsAdded(s, ids, offers, visitor, i, after)
  {
    forall id | id in s.jobs.at
      ensures id in after.jobs.at && after.jobs.at[id] == s.jobs.at[id]
    {
      assert id in next.jobs.at;
    }
    assert ids[i] in next.jobs.at;
  }

  lemma StartKeepsJobs(s: State, lane: Lane, id: Id)
    requires LaneSound(s, lane)
    ensures id in Start(s, lane).jobs.at <==> id in s.jobs.at
    ensures id in s.jobs.at ==> SameJob(Start(s, lane).jobs.at[id], s.jobs.at[id])
  {
    if At(s, lane).running.None? && At(s, lane).queue != [] {
      assert QueuedHere(s, lane, At(s, lane).queue[0]);
    }
  }

  /** The same jobs, but for how far they are. */
  ghost predicate SameJobs(s: State, after: State) {
    forall id :: (id in after.jobs.at <==> id in s.jobs.at) && (id in s.jobs.at ==> SameJob(after.jobs.at[id], s.jobs.at[id]))
  }

  lemma TakenInKeepsJobs(s: State, r: Request, ids: seq<Id>, maxJobs: nat)
    requires |ids| == |r.offers| && Sound(s) && Unseen(s, ids)
    ensures SameJobs(AddedAndEvicted(s, r, ids, maxJobs), TakenIn(s, r, ids, maxJobs))
  {
    var one := AddedAndEvicted(s, r, ids, maxJobs);
    TakenInIsSound(s, r, ids, maxJobs);
    StartKeepsSound(one, Claude);
    forall id
      ensures id in TakenIn(s, r, ids, maxJobs).jobs.at <==> id in one.jobs.at
      ensures id in one.jobs.at ==> SameJob(TakenIn(s, r, ids, maxJobs).jobs.at[id], one.jobs.at[id])
    {
      StartKeepsJobs(one, Claude, id);
      StartKeepsJobs(Start(one, Claude), Local, id);
    }
  }

  lemma HoldsAsAdded(s: State, r: Request, ids: seq<Id>, maxJobs: nat, added: State, one: State, after: State)
    requires |ids| == |r.offers| && JobsAdded(s, ids, r.offers, r.visitor, 0, added)
    requires OnlyFinishedGone(added, one) && (|added.jobs.order| <= maxJobs ==> one == added) && SameJobs(one, after)
    ensures HoldsThePost(s, r, ids, maxJobs, after)
  {
    forall k | 0 <= k < |ids|
      ensures HoldsJob(r, ids[k], r.offers[k], after)
    {
      assert ids[k] in added.jobs.at;
    }
    forall id | id in s.jobs.at
      ensures KeepsJob(s, id, after)
    {
      assert id in added.jobs.at;
    }
  }

  /** A post taken in puts exactly its jobs on the page. */
  lemma TakenInHolds(s: State, r: Request, ids: seq<Id>, maxJobs: nat)
    requires |ids| == |r.offers| && Sound(s) && Unseen(s, ids)
    ensures HoldsThePost(s, r, ids, maxJobs, TakenIn(s, r, ids, maxJobs))
  {
    var added := Added(s, ids, r.offers, r.visitor, 0);
    AddedKeepsSound(s, ids, r.offers, r.visitor, 0);
    AddedAreAdded(s, ids, r.offers, r.visitor, 0);
    EvictedKeepsSound(added, added.jobs.order, maxJobs);
    OnlyTheExcessGoes(added, added.jobs.order, maxJobs);
    TakenInKeepsJobs(s, r, ids, maxJobs);
    HoldsAsAdded(s, r, ids, maxJobs, added, AddedAndEvicted(s, r, ids, maxJobs), TakenIn(s, r, ids, maxJobs));
  }

  lemma WorkIsSound(s: State)
    requires Sound(s)
    ensures LaneSound(s, Claude) && LaneSound(Start(s, Claude), Local)
  {
    StartKeepsLane(s, Claude, Local);
  }

  /** The visitors once a request was read: its own known again when its cookie is its header. */
  function Adopted(visitors: OrderedMap<string, set<Id>>, given: string, cookieMatches: bool, most: nat): OrderedMap<string, set<Id>> {
    if given in visitors.at || !cookieMatches then visitors else Remembered(visitors, given, most)
  }

  /** A post's visitor is known once it is read exactly when it was, or when its cookie says so; known, nothing changes. */
  lemma KnownOnceRead(visitors: OrderedMap<string, set<Id>>, given: string, cookieMatches: bool, most: nat)
    requires visitors.Valid() && |visitors.order| <= most && most > 0
    ensures given in Adopted(visitors, given, cookieMatches, most).at <==> given in visitors.at || cookieMatches
    ensures given in visitors.at ==> Adopted(visitors, given, cookieMatches, most) == visitors
    ensures !cookieMatches ==> Adopted(visitors, given, cookieMatches, most) == visitors
  {
    if given !in visitors.at && cookieMatches {
      NewcomerIsKnown(visitors, given, most);
    }
  }

  /** What the gate is asked for a post, in the state it finds. */
  function AskingOf(r: Request, s: State): Asking {
    Asking(r.now, r.client, Counted(r.offers, 0), InFlight(s))
  }

  /** The template's `null`, a post without a visitor. */
  const NOBODY := "null"

  /** What the bans count of a post: its address, and its visitor when the page knows it or adopts it. */
  function AttemptOf(r: Request, visitors: OrderedMap<string, set<Id>>): Bans.Attempt {
    Bans.Attempt(r.now, r.client, if r.visitor in visitors.at || r.cookieMatches then r.visitor else NOBODY)
  }

  /** An attempt is counted under the post's visitor exactly when the page knows it once the post is read. */
  lemma CountedUnderWhoIsKnown(r: Request, visitors: OrderedMap<string, set<Id>>, most: nat)
    requires visitors.Valid() && |visitors.order| <= most && most > 0
    ensures AttemptOf(r, visitors).visitor == if r.visitor in Adopted(visitors, r.visitor, r.cookieMatches, most).at then r.visitor else "null"
    ensures AttemptOf(r, visitors).client == r.client && AttemptOf(r, visitors).now == r.now
  {
    KnownOnceRead(visitors, r.visitor, r.cookieMatches, most);
  }

  /**
   What the caps say of a post: admitted by what they remember; by everything ever admitted, while the clock was never
   set back. An admission is counted for the jobs it queues.
   */
  ghost predicate Asked(limits: Limits, before: Books, a: Asking, admitted: bool, after: Books) {
    && (admitted <==> Decided(limits, Kept(before.accepted, a.now), a) == Admitted)
    && after.history == before.history + (if admitted then Burst(a.now, a.client, a.count) else [])
    && after.clock == Read(before.clock, a.now)
    && (after.clock.setback == 0 ==> (admitted <==> Ruled(limits, before.history, a) == Admitted))
  }

  /** The page once the visitor of a post is known. */
  function AdoptedIn(s: State, r: Request, maxVisitors: nat): State {
    s.(visitors := Adopted(s.visitors, r.visitor, r.cookieMatches, maxVisitors))
  }

  lemma AskedAlike(s: State, r: Request, maxVisitors: nat)
    ensures AskingOf(r, AdoptedIn(s, r, maxVisitors)) == AskingOf(r, s)
  {
  }

  /** A post's jobs are taken in, held, and given to its visitor; or nothing changes. */
  ghost predicate Became(before: State, r: Request, ids: seq<Id>, maxJobs: nat, taken: bool, after: State)
    requires |ids| == |r.offers|
  {
    && Sound(before) && Unseen(before, ids)
    && after == (if taken then TakenIn(before, r, ids, maxJobs) else before)
    && (taken ==> GivesThePost(before, r, ids, after) && HoldsThePost(before, r, ids, maxJobs, after))
  }

  lemma TakenInBecomes(s: State, r: Request, ids: seq<Id>, maxJobs: nat)
    requires |ids| == |r.offers| && Sound(s) && Unseen(s, ids)
    ensures Became(s, r, ids, maxJobs, true, TakenIn(s, r, ids, maxJobs))
  {
    TakenInGives(s, r, ids, maxJobs);
    TakenInHolds(s, r, ids, maxJobs);
  }

  /** What reading a post's visitor notes: a visitor adopted again. */
  function Welcome(visitors: OrderedMap<string, set<Id>>, given: string, cookieMatches: bool): seq<Note> {
    if given in visitors.at || !cookieMatches then [] else [Welcomed(given)]
  }

  /** And what the whole post notes. */
  function Noted(visitors: OrderedMap<string, set<Id>>, r: Request, ids: seq<Id>, taken: bool): seq<Note> {
    Welcome(visitors, r.visitor, r.cookieMatches) + if taken then Gifts(r.visitor, ids, 0) else []
  }

  lemma NotedIs(history: seq<Note>, visitors: OrderedMap<string, set<Id>>, r: Request, ids: seq<Id>)
    ensures history + Noted(visitors, r, ids, false) == history + Welcome(visitors, r.visitor, r.cookieMatches)
    ensures history + Noted(visitors, r, ids, true) == history + Welcome(visitors, r.visitor, r.cookieMatches) + Gifts(r.visitor, ids, 0)
  {
  }

  class Page {
    const gate: PublicGate
    const memory: Bans.Memory
    const maxVisitors: nat
    const maxJobs: nat
    var jobs: OrderedMap<Id, Job>
    var claude: LaneState
    var local: LaneState
    var visitors: OrderedMap<string, set<Id>>
    ghost var submitted: Log
    ghost var started: Log
    ghost var history: seq<Note>   // every visitor remembered, and every job given, since the page was started

    ghost function Snapshot(): State
      reads this
    {
      State(jobs, claude, local, visitors)
    }

    ghost function PageCaps(): Caps
      reads this
    {
      Caps(maxVisitors, gate.limits.maxQueued)
    }

    /** What the page itself keeps, gate and bans aside. */
    ghost predicate Orderly()
      reads this
    {
      Steady(Snapshot(), PageCaps()) && Fifo(submitted, started, Snapshot()) && OwnersExact(history, Snapshot())
    }

    ghost predicate Valid()
      reads this, gate, memory
    {
      gate.Valid() && memory.Valid() && Orderly()
    }

    constructor (gate: PublicGate, memory: Bans.Memory, maxVisitors: nat, maxJobs: nat)
      requires gate.Valid() && memory.Valid()
      ensures Valid() && this.gate == gate && this.memory == memory && this.maxVisitors == maxVisitors && this.maxJobs == maxJobs
    {
      this.gate, this.memory, this.maxVisitors, this.maxJobs := gate, memory, maxVisitors, maxJobs;
      jobs, claude, local, visitors := OrderedMap([], map[]), LaneState([], None), LaneState([], None), OrderedMap([], map[]);
      submitted, started, history := Log([], []), Log([], []), [];
    }

    /** `work`: the first job queued in a free lane starts. */
    method Work(lane: Lane)
      requires LaneSound(Snapshot(), lane) && Fifo(submitted, started, Snapshot())
      modifies this`jobs, this`claude, this`local, this`started
      ensures Snapshot() == Start(old(Snapshot()), lane)
      ensures started == LogOne(old(started), lane, Starting(old(Snapshot()), lane))
      ensures Fifo(submitted, started, Snapshot())
    {
      StartKeepsFifo(submitted, started, Snapshot(), lane);
      started := LogOne(started, lane, Starting(Snapshot(), lane));
      var here := if lane == Claude then claude else local;
      if here.running.None? && here.queue != [] {
        assert QueuedHere(Snapshot(), lane, here.queue[0]);
        var id := here.queue[0];
        jobs := jobs.Set(id, jobs.at[id].(status := Running));
        if lane == Claude {
          claude := LaneState(here.queue[1..], Some(id));
        } else {
          local := LaneState(here.queue[1..], Some(id));
        }
      }
    }

    method EndJob(lane: Lane, status: Status)
      requires LaneSound(Snapshot(), lane) && At(Snapshot(), lane).running.Some?
      modifies this`jobs, this`claude, this`local
      ensures Snapshot() == End(old(Snapshot()), lane, status)
    {
      var id := (if lane == Claude then claude else local).running.value;
      jobs := jobs.Set(id, jobs.at[id].(status := status));
      if lane == Claude {
        claude := claude.(running := None);
      } else {
        local := local.(running := None);
      }
    }

    /** The running job of a lane ends, well or not, and the next one starts. */
    method Finish(lane: Lane, well: bool)
      requires Orderly() && At(Snapshot(), lane).running.Some?
      modifies this
      ensures Orderly() && submitted == old(submitted) && visitors == old(visitors) && history == old(history)
      ensures var ended := End(old(Snapshot()), lane, if well then Done else Failed);
        && LaneSound(ended, lane)
        && Snapshot() == Start(ended, lane)
        && started == LogOne(old(started), lane, Starting(ended, lane))
    {
      var status := if well then Done else Failed;
      FinishKeepsSteady(Snapshot(), PageCaps(), lane, status);
      FinishKeepsOwnersExact(history, Snapshot(), lane, status);
      EndJob(lane, status);
      Work(lane);
    }

    /** The first known visitor, oldest first, that owns no job and is not the newcomer. */
    method FindJobless(newcomer: string) returns (gone: Option<string>)
      ensures gone == FirstJobless(visitors.order, visitors, newcomer)
    {
      var i := 0;
      while i < |visitors.order|
        invariant 0 <= i <= |visitors.order|
        invariant FirstJobless(visitors.order, visitors, newcomer) == FirstJobless(visitors.order[i..], visitors, newcomer)
      {
        var known := visitors.order[i];
        if OwnedBy(visitors, known) == {} && known != newcomer {
          return Some(known);
        }
        i := i + 1;
      }
      return None;
    }

    /** `remember`. */
    method Remember(newcomer: string)
      requires Orderly() && newcomer !in visitors.at
      modifies this`visitors, this`history
      ensures Orderly() && visitors == Remembered(old(visitors), newcomer, maxVisitors)
      ensures history == old(history) + [Welcomed(newcomer)]
    {
      RememberKeepsSteady(Snapshot(), PageCaps(), newcomer);
      RememberedKeepsOwnersExact(history, Snapshot(), newcomer, maxVisitors);
      history := history + [Welcomed(newcomer)];
      visitors := visitors.Set(newcomer, {});
      if |visitors.order| > maxVisitors {
        var gone := FindJobless(newcomer);
        visitors := visitors.Delete(gone.Or(visitors.order[0]));
      }
    }

    /** `visitorOf`: a page's visitor, adopted again after a restart when its cookie says so. */
    method VisitorOf(given: string, cookieMatches: bool) returns (who: Option<string>)
      requires Orderly()
      modifies this`visitors, this`history
      ensures Orderly() && history == old(history) + Welcome(old(visitors), given, cookieMatches)
      ensures who == if given in old(visitors).at || cookieMatches then Some(given) else None
      ensures visitors == Adopted(old(visitors), given, cookieMatches, maxVisitors)
    {
      assert history + [] == history;
      if given in visitors.at {
        return Some(given);
      }
      if !cookieMatches {
        return None;
      }
      Remember(given);
      return Some(given);
    }

    /** `pageToken`: the visitor of the cookie when it is known, else a new one. */
    method PageLoad(cookie: Option<string>, minted: string) returns (token: string)
      requires Orderly() && minted !in visitors.at
      modifies this`visitors, this`history
      ensures Orderly()
      ensures var known := cookie.Some? && cookie.value in old(visitors).at;
        && token == (if known then cookie.value else minted)
        && visitors == (if known then old(visitors) else Remembered(old(visitors), minted, maxVisitors))
        && history == (if known then old(history) else old(history) + [Welcomed(minted)])
    {
      if cookie.Some? && cookie.value in visitors.at {
        return cookie.value;
      }
      Remember(minted);
      return minted;
    }

    method AddJob(id: Id, offer: Offer, visitor: string)
      modifies this`jobs, this`claude, this`local, this`visitors
      ensures Snapshot() == AddOffer(old(Snapshot()), id, offer, visitor)
    {
      jobs := jobs.Set(id, Job(offer.lane, if offer.reused then Done else Queued, visitor));
      if visitor in visitors.at {
        visitors := visitors.Set(visitor, visitors.at[visitor] + {id});
      }
      if !offer.reused {
        if offer.lane == Claude {
          claude := claude.(queue := claude.queue + [id]);
        } else {
          local := local.(queue := local.queue + [id]);
        }
      }
    }

    /** The first loop of a post: every created job kept, owned and queued. */
    method AddJobs(r: Request, ids: seq<Id>)
      requires |ids| == |r.offers|
      modifies this`jobs, this`claude, this`local, this`visitors
      ensures Snapshot() == Added(old(Snapshot()), ids, r.offers, r.visitor, 0)
    {
      ghost var goal := Added(Snapshot(), ids, r.offers, r.visitor, 0);
      var i := 0;
      while i < |ids|
        invariant 0 <= i <= |ids|
        invariant Added(Snapshot(), ids, r.offers, r.visitor, i) == goal
      {
        AddedUnfolds(Snapshot(), ids, r.offers, r.visitor, i);
        AddJob(ids[i], r.offers[i], r.visitor);
        i := i + 1;
      }
    }

    method DropJob(id: Id)
      requires id in jobs.at
      modifies this`jobs, this`visitors
      ensures Snapshot() == Drop(old(Snapshot()), id)
    {
      var owner := jobs.at[id].visitor;
      jobs := jobs.Delete(id);
      if owner in visitors.at {
        visitors := visitors.Set(owner, visitors.at[owner] - {id});
      }
    }

    /** The second loop of a post: past the cap the oldest finished jobs go, from their visitors' lists too. */
    method EvictJobs()
      requires jobs.Valid()
      modifies this`jobs, this`visitors
      ensures Snapshot() == Evicted(old(Snapshot()), old(jobs.order), maxJobs)
    {
      var rest := jobs.order;
      while rest != []
        invariant Walkable(Snapshot(), rest)
        invariant Evicted(Snapshot(), rest, maxJobs) == Evicted(old(Snapshot()), old(jobs.order), maxJobs)
        decreases |rest|
      {
        if |jobs.order| <= maxJobs {
          return;
        }
        WalkOn(Snapshot(), rest);
        if Finished(jobs.at[rest[0]].status) {
          DropJob(rest[0]);
        }
        rest := rest[1..];
      }
    }

    /** The jobs of a post the gate let in. */
    method TakeIn(r: Request, ids: seq<Id>)
      requires |ids| == |r.offers| && Steady(Snapshot(), PageCaps()) && Unseen(Snapshot(), ids)
      requires Fifo(submitted, started, Snapshot())
      requires InFlight(Snapshot()) + Counted(r.offers, 0) <= gate.limits.maxQueued
      modifies this
      ensures Snapshot() == TakenIn(old(Snapshot()), r, ids, maxJobs)
      ensures Steady(Snapshot(), PageCaps()) && Fifo(submitted, started, Snapshot())
      ensures submitted == Submitted(old(submitted), r, ids) && history == old(history) + Gifts(r.visitor, ids, 0)
    {
      ghost var before := Snapshot();
      history := history + Gifts(r.visitor, ids, 0);
      TakenInKeepsSteady(before, PageCaps(), r, ids, maxJobs);
      TakenInKeepsFifo(submitted, started, before, r, ids, maxJobs);
      AddAndEvict(r, ids);
      submitted := Submitted(submitted, r, ids);
      WorkIsSound(Snapshot());
      Work(Claude);
      Work(Local);
    }

    method AddAndEvict(r: Request, ids: seq<Id>)
      requires |ids| == |r.offers| && Sound(Snapshot()) && Unseen(Snapshot(), ids)
      modifies this`jobs, this`claude, this`local, this`visitors
      ensures Snapshot() == AddedAndEvicted(old(Snapshot()), r, ids, maxJobs)
      ensures Sound(Snapshot())
    {
      TakenInIsSound(Snapshot(), r, ids, maxJobs);
      AddedKeepsSound(Snapshot(), ids, r.offers, r.visitor, 0);
      AddJobs(r, ids);
      EvictJobs();
    }

    method CountNew(offers: seq<Offer>) returns (count: nat)
      ensures count == Counted(offers, 0)
    {
      count := 0;
      var i := 0;
      while i < |offers|
        invariant 0 <= i <= |offers| && count + Counted(offers, i) == Counted(offers, 0)
      {
        if !offers[i].reused {
          count := count + 1;
        }
        i := i + 1;
      }
    }

    /** `inFlight()`. */
    method CountInFlight() returns (n: nat)
      ensures n == InFlight(Snapshot())
    {
      n := |claude.queue| + |local.queue| + (if claude.running.Some? then 1 else 0) + (if local.running.Some? then 1 else 0);
    }

    /** The caps, then the jobs: a post is admitted for exactly the jobs it puts in flight; refused, it changes none. */
    method Ask(r: Request, ids: seq<Id>) returns (admitted: bool)
      requires Valid()
      requires |ids| == |r.offers| && Unseen(Snapshot(), ids)
      modifies this, gate
      ensures Valid()
      ensures Asked(gate.limits, old(gate.Account()), AskingOf(r, old(Snapshot())), admitted, gate.Account())
      ensures Became(old(Snapshot()), r, ids, maxJobs, admitted, Snapshot())
      ensures submitted == if admitted then Submitted(old(submitted), r, ids) else old(submitted)
      ensures history == if admitted then old(history) + Gifts(r.visitor, ids, 0) else old(history)
    {
      var count := CountNew(r.offers);
      var inFlight := CountInFlight();
      var verdict := gate.Admit(Asking(r.now, r.client, count, inFlight));
      admitted := verdict == Admitted;
      if admitted {
        TakenInBecomes(Snapshot(), r, ids, maxJobs);
        TakenInKeepsOwnersExact(history, Snapshot(), r, ids, maxJobs);
        TakeIn(r, ids);
      }
    }

    /** Who posts, and whether the bans let the post through: every post counts, whatever becomes of it. */
    method Screen(r: Request) returns (passed: bool)
      requires memory.Valid() && Orderly()
      modifies this`visitors, this`history, memory
      ensures memory.Valid() && Orderly() && history == old(history) + Welcome(old(visitors), r.visitor, r.cookieMatches)
      ensures Snapshot() == AdoptedIn(old(Snapshot()), r, maxVisitors)
      ensures Bans.Screened(memory.rule, old(memory.Account()), AttemptOf(r, old(visitors)), passed, memory.Account())
    {
      ghost var was, before := visitors, memory.Account();
      var who := VisitorOf(r.visitor, r.cookieMatches);
      var attempt := Bans.Attempt(r.now, r.client, who.Or(NOBODY));
      assert attempt == AttemptOf(r, was) && memory.Account() == before;
      passed := Passes(attempt);
    }

    method Passes(a: Bans.Attempt) returns (passed: bool)
      requires memory.Valid()
      modifies memory
      ensures memory.Valid() && Bans.Screened(memory.rule, old(memory.Account()), a, passed, memory.Account())
    {
      var verdict := memory.CheckBan(a);
      passed := verdict == Bans.Passed;
    }

    /** A post the bans let through: malformed, or asked of the caps. */
    method Enter(r: Request, ids: seq<Id>) returns (outcome: Outcome)
      requires Valid()
      requires |ids| == |r.offers| && Unseen(Snapshot(), ids)
      modifies this, gate
      ensures Valid() && outcome != Banned && (outcome == Malformed <==> !r.wellFormed)
      ensures outcome == Malformed ==> gate.Account() == old(gate.Account())
      ensures outcome != Malformed ==>
        Asked(gate.limits, old(gate.Account()), AskingOf(r, old(Snapshot())), outcome == Accepted, gate.Account())
      ensures Became(old(Snapshot()), r, ids, maxJobs, outcome == Accepted, Snapshot())
      ensures submitted == if outcome == Accepted then Submitted(old(submitted), r, ids) else old(submitted)
      ensures history == if outcome == Accepted then old(history) + Gifts(r.visitor, ids, 0) else old(history)
    {
      if !r.wellFormed {
        return Malformed;
      }
      var admitted := Ask(r, ids);
      return if admitted then Accepted else Refused;
    }

    /**
     A post of offers, once its body is read: its visitor adopted again if it must be, refused while its address or its
     visitor is banned, then when it is malformed, then by the caps; else taken in.
     */
    method Post(r: Request, ids: seq<Id>) returns (outcome: Outcome)
      requires Valid()
      requires |ids| == |r.offers| && Unseen(Snapshot(), ids)
      modifies this, gate, memory
      ensures Valid()
      ensures Bans.Screened(memory.rule, old(memory.Account()), AttemptOf(r, old(visitors)), outcome != Banned, memory.Account())
      ensures outcome != Banned ==> (outcome == Malformed <==> !r.wellFormed)
      ensures outcome == Accepted || outcome == Refused ==>
        Asked(gate.limits, old(gate.Account()), AskingOf(r, old(Snapshot())), outcome == Accepted, gate.Account())
      ensures outcome == Banned || outcome == Malformed ==> gate.Account() == old(gate.Account())
      ensures Became(AdoptedIn(old(Snapshot()), r, maxVisitors), r, ids, maxJobs, outcome == Accepted, Snapshot())
      ensures submitted == if outcome == Accepted then Submitted(old(submitted), r, ids) else old(submitted)
      ensures history == old(history) + Noted(old(visitors), r, ids, outcome == Accepted)
    {
      var passed := Screen(r);
      AskedAlike(old(Snapshot()), r, maxVisitors);
      NotedIs(old(history), old(visitors), r, ids);
      if !passed {
        return Banned;
      }
      outcome := Enter(r, ids);
    }
  }
}
