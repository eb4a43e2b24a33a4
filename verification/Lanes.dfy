/**
The jobs of the page (cv/src/server.js): two lanes that run one job at a time, the visitors and the jobs they own,
and what is forgotten when a map is full.
*/
module Lanes {
  import opened Collections

  type Id = nat

  datatype Lane = Claude | Local

  datatype Status = Queued | Running | Done | Failed

  datatype Job = Job(lane: Lane, status: Status, visitor: string)

  datatype LaneState = LaneState(queue: seq<Id>, running: Option<Id>)

  datatype State = State(jobs: OrderedMap<Id, Job>, claude: LaneState, local: LaneState, visitors: OrderedMap<string, set<Id>>)

  function At(s: State, lane: Lane): LaneState {
    if lane == Claude then s.claude else s.local
  }

  function With(s: State, lane: Lane, state: LaneState): State {
    if lane == Claude then s.(claude := state) else s.(local := state)
  }

  predicate Finished(status: Status) {
    status == Done || status == Failed
  }

  // ---------------------------------------------------------------- what every state keeps

  ghost predicate QueuedHere(s: State, lane: Lane, id: Id) {
    id in s.jobs.at && s.jobs.at[id].lane == lane && s.jobs.at[id].status == Queued
  }

  /** A lane: its queued jobs, each once, and at most one running job of its own. */
  ghost predicate LaneSound(s: State, lane: Lane) {
    && Distinct(At(s, lane).queue)
    && (forall k :: 0 <= k < |At(s, lane).queue| ==> QueuedHere(s, lane, At(s, lane).queue[k]))
    && (At(s, lane).running.Some? ==>
        var id := At(s, lane).running.value;
        id in s.jobs.at && s.jobs.at[id].lane == lane && s.jobs.at[id].status == Running)
  }

  /** A job that is not finished sits in its own lane: queued there, or the one that runs. */
  ghost predicate InItsLane(s: State, id: Id)
    requires id in s.jobs.at
  {
    var job := s.jobs.at[id];
    && (job.status == Queued ==> id in At(s, job.lane).queue)
    && (job.status == Running ==> At(s, job.lane).running == Some(id))
  }

  /** A visitor's ids are jobs, and its own. */
  ghost predicate OwnsItsIds(s: State, visitor: string)
    requires visitor in s.visitors.at
  {
    forall id :: id in s.visitors.at[visitor] ==> id in s.jobs.at && s.jobs.at[id].visitor == visitor
  }

  ghost predicate Sound(s: State) {
    && s.jobs.Valid() && s.visitors.Valid()
    && LaneSound(s, Claude) && LaneSound(s, Local)
    && (forall id :: id in s.jobs.at ==> InItsLane(s, id))
    && (forall visitor :: visitor in s.visitors.at ==> OwnsItsIds(s, visitor))
  }

  /** No job waits while its lane is free. */
  ghost predicate Busy(s: State, lane: Lane) {
    At(s, lane).queue != [] ==> At(s, lane).running.Some?
  }

  /** Each job is seen by one visitor at most: the one that asked for it. */
  lemma VisitorsShareNothing(s: State, a: string, b: string, id: Id)
    requires Sound(s) && a in s.visitors.at && b in s.visitors.at
    requires id in s.visitors.at[a] && id in s.visitors.at[b]
    ensures a == b && id in s.jobs.at && s.jobs.at[id].visitor == a
  {
    assert OwnsItsIds(s, a) && OwnsItsIds(s, b);
  }

  // ---------------------------------------------------------------- the steps

  function WithOwned(visitors: OrderedMap<string, set<Id>>, visitor: string, ids: set<Id>): OrderedMap<string, set<Id>> {
    if visitor in visitors.at then visitors.Set(visitor, ids) else visitors
  }

  function OwnedBy(visitors: OrderedMap<string, set<Id>>, visitor: string): set<Id> {
    if visitor in visitors.at then visitors.at[visitor] else {}
  }

  /** One created job: kept, owned by its visitor if the visitor is still known, queued unless a past run answers it. */
  function Add(s: State, id: Id, lane: Lane, visitor: string, reused: bool): State {
    var kept := s.(
      jobs := s.jobs.Set(id, Job(lane, if reused then Done else Queued, visitor)),
      visitors := WithOwned(s.visitors, visitor, OwnedBy(s.visitors, visitor) + {id}));
    if reused then kept else With(kept, lane, At(s, lane).(queue := At(s, lane).queue + [id]))
  }

  /** A job forgotten, by its visitor too. */
  function Drop(s: State, id: Id): State
    requires id in s.jobs.at
  {
    var visitor := s.jobs.at[id].visitor;
    s.(jobs := s.jobs.Delete(id), visitors := WithOwned(s.visitors, visitor, OwnedBy(s.visitors, visitor) - {id}))
  }

  function WithStatus(s: State, id: Id, status: Status): State
    requires id in s.jobs.at
  {
    s.(jobs := s.jobs.Set(id, s.jobs.at[id].(status := status)))
  }

  /** `work`: the first job queued in a free lane starts. */
  function Start(s: State, lane: Lane): State
    requires LaneSound(s, lane)
  {
    var here := At(s, lane);
    if here.running.Some? || here.queue == [] then s
    else
      assert QueuedHere(s, lane, here.queue[0]);
      With(WithStatus(s, here.queue[0], Running), lane, LaneState(here.queue[1..], Some(here.queue[0])))
  }

  /** The running job of a lane ends, well or not. */
  function End(s: State, lane: Lane, status: Status): State
    requires LaneSound(s, lane) && At(s, lane).running.Some?
  {
    With(WithStatus(s, At(s, lane).running.value, status), lane, At(s, lane).(running := None))
  }

  // ---------------------------------------------------------------- every step keeps them

  lemma AddKeepsLane(s: State, id: Id, lane: Lane, visitor: string, reused: bool, other: Lane)
    requires Sound(s) && id !in s.jobs.at
    ensures LaneSound(Add(s, id, lane, visitor, reused), other)
  {
    var after := Add(s, id, lane, visitor, reused);
    assert LaneSound(s, other);
    forall k | 0 <= k < |At(after, other).queue|
      ensures QueuedHere(after, other, At(after, other).queue[k])
      ensures k < |At(s, other).queue| ==> At(after, other).queue[k] == At(s, other).queue[k] != id
    {
      if k < |At(s, other).queue| {
        assert QueuedHere(s, other, At(s, other).queue[k]);
      }
    }
  }

  lemma AddKeepsPlaces(s: State, id: Id, lane: Lane, visitor: string, reused: bool, other: Id)
    requires Sound(s) && id !in s.jobs.at && other in Add(s, id, lane, visitor, reused).jobs.at
    ensures InItsLane(Add(s, id, lane, visitor, reused), other)
  {
    if other != id {
      assert InItsLane(s, other);
    }
  }

  lemma AddKeepsOwners(s: State, id: Id, lane: Lane, visitor: string, reused: bool, v: string)
    requires Sound(s) && id !in s.jobs.at && v in Add(s, id, lane, visitor, reused).visitors.at
    ensures OwnsItsIds(Add(s, id, lane, visitor, reused), v)
  {
    assert OwnsItsIds(s, v);
  }

  lemma AddKeepsSound(s: State, id: Id, lane: Lane, visitor: string, reused: bool)
    requires Sound(s) && id !in s.jobs.at
    ensures Sound(Add(s, id, lane, visitor, reused))
  {
    var after := Add(s, id, lane, visitor, reused);
    AddKeepsLane(s, id, lane, visitor, reused, Claude);
    AddKeepsLane(s, id, lane, visitor, reused, Local);
    forall other | other in after.jobs.at
      ensures InItsLane(after, other)
    {
      AddKeepsPlaces(s, id, lane, visitor, reused, other);
    }
    forall v | v in after.visitors.at
      ensures OwnsItsIds(after, v)
    {
      AddKeepsOwners(s, id, lane, visitor, reused, v);
    }
  }

  lemma DropKeepsLane(s: State, id: Id, lane: Lane)
    requires Sound(s) && id in s.jobs.at && Finished(s.jobs.at[id].status)
    ensures LaneSound(Drop(s, id), lane)
  {
    var after := Drop(s, id);
    assert LaneSound(s, lane);
    forall k | 0 <= k < |At(after, lane).queue|
      ensures QueuedHere(after, lane, At(after, lane).queue[k])
    {
      assert QueuedHere(s, lane, At(s, lane).queue[k]);
    }
  }

  lemma DropKeepsSound(s: State, id: Id)
    requires Sound(s) && id in s.jobs.at && Finished(s.jobs.at[id].status)
    ensures Sound(Drop(s, id))
  {
    var after := Drop(s, id);
    DropKeepsLane(s, id, Claude);
    DropKeepsLane(s, id, Local);
    forall other | other in after.jobs.at
      ensures InItsLane(after, other)
    {
      assert InItsLane(s, other);
    }
    forall v | v in after.visitors.at
      ensures OwnsItsIds(after, v)
    {
      assert OwnsItsIds(s, v);
    }
  }

  lemma StartKeepsLane(s: State, lane: Lane, other: Lane)
    requires Sound(s)
    ensures LaneSound(Start(s, lane), other)
  {
    var here, after := At(s, lane), Start(s, lane);
    assert LaneSound(s, other);
    if here.running.None? && here.queue != [] {
      forall k | 0 <= k < |At(after, other).queue|
        ensures QueuedHere(after, other, At(after, other).queue[k])
      {
        if other == lane {
          assert QueuedHere(s, other, here.queue[k + 1]) && here.queue[0] != here.queue[k + 1];
        } else {
          assert QueuedHere(s, other, At(s, other).queue[k]) && QueuedHere(s, lane, here.queue[0]);
        }
      }
      assert QueuedHere(s, lane, here.queue[0]);
    }
  }

  lemma StartKeepsSound(s: State, lane: Lane)
    requires Sound(s)
    ensures Sound(Start(s, lane)) && Busy(Start(s, lane), lane)
    ensures forall other :: other != lane ==> At(Start(s, lane), other) == At(s, other)
  {
    var here, after := At(s, lane), Start(s, lane);
    StartKeepsLane(s, lane, Claude);
    StartKeepsLane(s, lane, Local);
    if here.running.None? && here.queue != [] {
      var id := here.queue[0];
      assert QueuedHere(s, lane, id);
      forall other | other in after.jobs.at
        ensures InItsLane(after, other)
      {
        assert InItsLane(s, other);
        assert here.queue == [id] + here.queue[1..];
      }
      forall v | v in after.visitors.at
        ensures OwnsItsIds(after, v)
      {
        assert OwnsItsIds(s, v);
      }
    }
  }

  lemma EndKeepsLane(s: State, lane: Lane, status: Status, other: Lane)
    requires Sound(s) && At(s, lane).running.Some? && Finished(status)
    ensures LaneSound(End(s, lane, status), other)
  {
    var after, id := End(s, lane, status), At(s, lane).running.value;
    assert LaneSound(s, other) && LaneSound(s, lane);
    forall k | 0 <= k < |At(after, other).queue|
      ensures QueuedHere(after, other, At(after, other).queue[k])
    {
      assert QueuedHere(s, other, At(s, other).queue[k]);
    }
  }

  lemma EndKeepsSound(s: State, lane: Lane, status: Status)
    requires Sound(s) && At(s, lane).running.Some? && Finished(status)
    ensures Sound(End(s, lane, status))
  {
    var after := End(s, lane, status);
    EndKeepsLane(s, lane, status, Claude);
    EndKeepsLane(s, lane, status, Local);
    forall other | other in after.jobs.at
      ensures InItsLane(after, other)
    {
      assert InItsLane(s, other);
    }
    forall v | v in after.visitors.at
      ensures OwnsItsIds(after, v)
    {
      assert OwnsItsIds(s, v);
    }
  }

  /** `positionOf`: a queued job's place in its lane, 1 for the next to start. */
  function PositionOf(s: State, id: Id): Option<nat>
    requires id in s.jobs.at
  {
    if s.jobs.at[id].status != Queued then None else PlaceIn(At(s, s.jobs.at[id].lane).queue, id)
  }

  function PlaceIn(queue: seq<Id>, id: Id): (r: Option<nat>)
    ensures r.Some? ==> 1 <= r.value <= |queue| && queue[r.value - 1] == id
    ensures r.None? ==> id !in queue
  {
    if queue == [] then None
    else if queue[0] == id then Some(1)
    else match PlaceIn(queue[1..], id)
      case Some(k) => Some(k + 1)
      case None => None
  }

  /** A queued job has a place, and each start of its lane brings it one nearer. */
  lemma EachStartBringsNearer(s: State, id: Id)
    requires Sound(s) && id in s.jobs.at && s.jobs.at[id].status == Queued
    ensures PositionOf(s, id).Some?
    ensures var lane, place := s.jobs.at[id].lane, PositionOf(s, id).value;
      At(s, lane).running.None? ==>
        if place == 1 then At(Start(s, lane), lane).running == Some(id)
        else id in Start(s, lane).jobs.at && PositionOf(Start(s, lane), id) == Some(place - 1)
  {
    assert InItsLane(s, id);
    var here := At(s, s.jobs.at[id].lane);
    assert QueuedHere(s, s.jobs.at[id].lane, here.queue[0]);
  }

  // ---------------------------------------------------------------- jobs in flight

  function InFlight(s: State): nat {
    |s.claude.queue| + |s.local.queue| + (if s.claude.running.Some? then 1 else 0) + (if s.local.running.Some? then 1 else 0)
  }

  function Unfinished(s: State): set<Id> {
    set id | id in s.jobs.at && !Finished(s.jobs.at[id].status)
  }

  function Elements(ids: seq<Id>): set<Id> {
    set id | id in ids
  }

  function Self(running: Option<Id>): set<Id> {
    if running.Some? then {running.value} else {}
  }

  lemma {:induction false} DistinctSize(ids: seq<Id>)
    requires Distinct(ids)
    ensures |Elements(ids)| == |ids|
  {
    if ids != [] {
      DistinctSize(ids[1..]);
      assert ids == [ids[0]] + ids[1..];
      assert Elements(ids) == {ids[0]} + Elements(ids[1..]);
      assert ids[0] !in Elements(ids[1..]);
    }
  }

  lemma LaneHolds(s: State, lane: Lane, id: Id)
    requires Sound(s)
    ensures (id in Elements(At(s, lane).queue) <==> QueuedHere(s, lane, id))
    ensures (id in Self(At(s, lane).running) <==> id in s.jobs.at && s.jobs.at[id].lane == lane && s.jobs.at[id].status == Running)
  {
    assert LaneSound(s, lane);
    if id in s.jobs.at {
      assert InItsLane(s, id);
    }
    if id in At(s, lane).queue {
      var k :| 0 <= k < |At(s, lane).queue| && At(s, lane).queue[k] == id;
      assert QueuedHere(s, lane, At(s, lane).queue[k]);
    }
  }

  function UnfinishedIn(s: State, lane: Lane): set<Id> {
    set id | id in s.jobs.at && s.jobs.at[id].lane == lane && !Finished(s.jobs.at[id].status)
  }

  lemma UnfinishedInLane(s: State, lane: Lane, id: Id)
    requires Sound(s)
    ensures id in UnfinishedIn(s, lane) <==> id in Elements(At(s, lane).queue) || id in Self(At(s, lane).running)
    ensures !(id in Elements(At(s, lane).queue) && id in Self(At(s, lane).running))
  {
    LaneHolds(s, lane, id);
  }

  lemma QueueAndRunning(unfinished: set<Id>, queue: seq<Id>, running: Option<Id>)
    requires Distinct(queue) && Elements(queue) !! Self(running) && unfinished == Elements(queue) + Self(running)
    ensures |unfinished| == |queue| + if running.Some? then 1 else 0
  {
    DistinctSize(queue);
  }

  lemma LaneSets(s: State, lane: Lane)
    requires Sound(s)
    ensures UnfinishedIn(s, lane) == Elements(At(s, lane).queue) + Self(At(s, lane).running)
    ensures Elements(At(s, lane).queue) !! Self(At(s, lane).running)
  {
    forall id
      ensures id in UnfinishedIn(s, lane) <==> id in Elements(At(s, lane).queue) || id in Self(At(s, lane).running)
      ensures !(id in Elements(At(s, lane).queue) && id in Self(At(s, lane).running))
    {
      UnfinishedInLane(s, lane, id);
    }
  }

  lemma LaneInFlight(s: State, lane: Lane)
    requires Sound(s)
    ensures |UnfinishedIn(s, lane)| == |At(s, lane).queue| + if At(s, lane).running.Some? then 1 else 0
  {
    LaneSets(s, lane);
    QueueAndRunning(UnfinishedIn(s, lane), At(s, lane).queue, At(s, lane).running);
  }

  /** The number the caps use is the number of jobs that are not finished. */
  lemma InFlightIsUnfinished(s: State)
    requires Sound(s)
    ensures InFlight(s) == |Unfinished(s)|
  {
    LaneInFlight(s, Claude);
    LaneInFlight(s, Local);
    assert Unfinished(s) == UnfinishedIn(s, Claude) + UnfinishedIn(s, Local);
    assert UnfinishedIn(s, Claude) !! UnfinishedIn(s, Local);
  }

  // ---------------------------------------------------------------- a full page forgets

  /** Jobs walked from the oldest: finished ones go until the map is within its cap. */
  function Evicted(s: State, ids: seq<Id>, most: nat): State
    requires Walkable(s, ids)
    decreases |ids|
  {
    if ids == [] || |s.jobs.order| <= most then s
    else
      WalkOn(s, ids);
      Evicted(if Finished(s.jobs.at[ids[0]].status) then Drop(s, ids[0]) else s, ids[1..], most)
  }

  ghost predicate Walkable(s: State, ids: seq<Id>) {
    Distinct(ids) && forall id :: id in ids ==> id in s.jobs.at
  }

  lemma WalkOn(s: State, ids: seq<Id>)
    requires Walkable(s, ids) && ids != []
    ensures ids[0] in s.jobs.at && Walkable(s, ids[1..]) && Walkable(Drop(s, ids[0]), ids[1..])
  {
    assert ids[0] in ids;
    assert forall id :: id in ids[1..] ==> id in ids && id != ids[0];
  }

  /** What eviction leaves alone: lanes, unfinished jobs, everything not walked. */
  ghost predicate OnlyFinishedGone(s: State, after: State) {
    && after.claude == s.claude && after.local == s.local
    && (forall id :: id in after.jobs.at ==> id in s.jobs.at && after.jobs.at[id] == s.jobs.at[id])
    && (forall id :: id in s.jobs.at && !Finished(s.jobs.at[id].status) ==> id in after.jobs.at)
  }

  lemma {:induction false} EvictedKeepsSound(s: State, ids: seq<Id>, most: nat)
    requires Walkable(s, ids) && Sound(s)
    ensures Sound(Evicted(s, ids, most)) && OnlyFinishedGone(s, Evicted(s, ids, most))
    ensures Evicted(s, ids, most).visitors.order == s.visitors.order
    decreases |ids|
  {
    if ids == [] || |s.jobs.order| <= most {
    } else {
      WalkOn(s, ids);
      if Finished(s.jobs.at[ids[0]].status) {
        DropKeepsSound(s, ids[0]);
        EvictedKeepsSound(Drop(s, ids[0]), ids[1..], most);
      } else {
        EvictedKeepsSound(s, ids[1..], most);
      }
    }
  }

  ghost predicate FinishedAreIn(s: State, ids: seq<Id>) {
    forall id :: id in s.jobs.at && Finished(s.jobs.at[id].status) ==> id in ids
  }

  /** Past the cap only jobs in flight are left. */
  lemma {:induction false} EvictedIsSmall(s: State, ids: seq<Id>, most: nat)
    requires Walkable(s, ids)
    requires FinishedAreIn(s, ids)
    ensures |Evicted(s, ids, most).jobs.order| <= most || FinishedAreIn(Evicted(s, ids, most), [])
    decreases |ids|
  {
    if ids == [] || |s.jobs.order| <= most {
    } else {
      assert ids == [ids[0]] + ids[1..];
      WalkOn(s, ids);
      if Finished(s.jobs.at[ids[0]].status) {
        EvictedIsSmall(Drop(s, ids[0]), ids[1..], most);
      } else {
        EvictedIsSmall(s, ids[1..], most);
      }
    }
  }

  lemma {:induction false} EvictedOnlyShrinks(s: State, ids: seq<Id>, most: nat, id: Id)
    requires Walkable(s, ids) && id !in s.jobs.at
    ensures id !in Evicted(s, ids, most).jobs.at
    decreases |ids|
  {
    if ids == [] || |s.jobs.order| <= most {
    } else {
      WalkOn(s, ids);
      EvictedOnlyShrinks(if Finished(s.jobs.at[ids[0]].status) then Drop(s, ids[0]) else s, ids[1..], most, id);
    }
  }

  /** The oldest go first: a job is forgotten only once every finished job asked for before it is. */
  lemma {:induction false} OldestGoFirst(s: State, ids: seq<Id>, most: nat, j: nat, k: nat)
    requires Walkable(s, ids) && j < k < |ids|
    requires Finished(s.jobs.at[ids[j]].status) && ids[k] !in Evicted(s, ids, most).jobs.at
    ensures ids[j] !in Evicted(s, ids, most).jobs.at
    decreases |ids|
  {
    if |s.jobs.order| > most {
      WalkOn(s, ids);
      var next := if Finished(s.jobs.at[ids[0]].status) then Drop(s, ids[0]) else s;
      if j == 0 {
        EvictedOnlyShrinks(next, ids[1..], most, ids[0]);
      } else {
        OldestGoFirst(next, ids[1..], most, j - 1, k - 1);
      }
    }
  }

  /** While the map fits nothing goes; past the cap, no more goes than brings it back to it. */
  lemma {:induction false} OnlyTheExcessGoes(s: State, ids: seq<Id>, most: nat)
    requires Walkable(s, ids) && s.jobs.Valid()
    ensures |s.jobs.order| <= most ==> Evicted(s, ids, most) == s
    ensures |s.jobs.order| >= most ==> |Evicted(s, ids, most).jobs.order| >= most
    decreases |ids|
  {
    if ids != [] && |s.jobs.order| > most {
      WalkOn(s, ids);
      if Finished(s.jobs.at[ids[0]].status) {
        WithoutOneAtMost(s.jobs.order, ids[0]);
        OnlyTheExcessGoes(Drop(s, ids[0]), ids[1..], most);
      } else {
        OnlyTheExcessGoes(s, ids[1..], most);
      }
    }
  }

  lemma OrderIsJobs(s: State)
    requires Sound(s)
    ensures Elements(s.jobs.order) == s.jobs.at.Keys && |s.jobs.order| == |s.jobs.at|
  {
    DistinctSize(s.jobs.order);
    assert Elements(s.jobs.order) == s.jobs.at.Keys;
  }

  /** However many jobs were asked for, the page remembers no more than its cap, or than the jobs in flight. */
  lemma MemoryIsBounded(s: State, most: nat)
    requires Sound(s)
    ensures var after := Evicted(s, s.jobs.order, most);
      |after.jobs.order| <= most || |after.jobs.order| == InFlight(after)
  {
    var after := Evicted(s, s.jobs.order, most);
    EvictedKeepsSound(s, s.jobs.order, most);
    EvictedIsSmall(s, s.jobs.order, most);
    if |after.jobs.order| > most {
      OrderIsJobs(after);
      InFlightIsUnfinished(after);
      assert Unfinished(after) == after.jobs.at.Keys;
    }
  }

  // ---------------------------------------------------------------- visitors

  function FirstJobless(order: seq<string>, visitors: OrderedMap<string, set<Id>>, newcomer: string): (r: Option<string>)
    ensures r.Some? ==> r.value in order && r.value != newcomer && OwnedBy(visitors, r.value) == {}
    ensures r.None? ==> forall v :: v in order && v != newcomer ==> OwnedBy(visitors, v) != {}
  {
    if order == [] then None
    else if OwnedBy(visitors, order[0]) == {} && order[0] != newcomer then Some(order[0])
    else FirstJobless(order[1..], visitors, newcomer)
  }

  /** `remember`: a newcomer, at the cost of the oldest visitor without a job when the page is full. */
  function Remembered(visitors: OrderedMap<string, set<Id>>, newcomer: string, most: nat): OrderedMap<string, set<Id>> {
    var known := visitors.Set(newcomer, {});
    if |known.order| <= most then known
    else known.Delete(FirstJobless(known.order, known, newcomer).Or(known.order[0]))
  }

  lemma RememberedFits(visitors: OrderedMap<string, set<Id>>, newcomer: string, most: nat)
    requires visitors.Valid() && newcomer !in visitors.at && |visitors.order| <= most
    ensures var after := Remembered(visitors, newcomer, most);
      && after.Valid() && |after.order| <= most
      && (forall v :: v in after.at ==> v == newcomer || v in visitors.at)
      && (forall v :: v in after.at ==> after.at[v] == if v == newcomer then {} else visitors.at[v])
  {
    var known := visitors.Set(newcomer, {});
    if |known.order| > most {
      WithoutNoLonger(known.order, FirstJobless(known.order, known, newcomer).Or(known.order[0]));
    }
  }

  /**
   A page load costs at most one visitor, none while the page has room, and never one with jobs while some other
   visitor has none.
   */
  lemma RememberedSparesOwners(visitors: OrderedMap<string, set<Id>>, newcomer: string, most: nat, lost: string, other: string)
    requires visitors.Valid() && newcomer !in visitors.at && |visitors.order| <= most
    requires lost in visitors.at && lost !in Remembered(visitors, newcomer, most).at
    requires other in visitors.at && other != lost
    ensures |visitors.order| == most && other in Remembered(visitors, newcomer, most).at
    ensures visitors.at[lost] != {} ==> visitors.at[other] != {}
  {
    var known := visitors.Set(newcomer, {});
    assert other in known.order && OwnedBy(known, other) == visitors.at[other];
  }

  lemma NewcomerIsKnown(visitors: OrderedMap<string, set<Id>>, newcomer: string, most: nat)
    requires visitors.Valid() && newcomer !in visitors.at && |visitors.order| <= most && most > 0
    ensures newcomer in Remembered(visitors, newcomer, most).at && Remembered(visitors, newcomer, most).at[newcomer] == {}
  {
  }

  /** A visitor without a job, no older one being without. */
  ghost predicate OldestJobless(visitors: OrderedMap<string, set<Id>>, i: nat) {
    && i < |visitors.order|
    && OwnedBy(visitors, visitors.order[i]) == {} && forall k :: 0 <= k < i ==> OwnedBy(visitors, visitors.order[k]) != {}
  }

  lemma {:induction false} FirstJoblessIsOldest(order: seq<string>, visitors: OrderedMap<string, set<Id>>, newcomer: string, i: nat)
    requires i < |order| && OwnedBy(visitors, order[i]) == {} && newcomer !in order[..i + 1]
    requires forall k :: 0 <= k < i ==> OwnedBy(visitors, order[k]) != {}
    ensures FirstJobless(order, visitors, newcomer) == Some(order[i])
  {
    assert order[i] in order[..i + 1] && order[0] in order[..i + 1];
    if i > 0 {
      assert order[1..][..i] == order[..i + 1][1..];
      FirstJoblessIsOldest(order[1..], visitors, newcomer, i - 1);
    }
  }

  /** When the page is full the oldest visitor without a job goes, and when each has one the oldest of all. */
  lemma TheOldestGoes(visitors: OrderedMap<string, set<Id>>, newcomer: string, i: nat)
    requires visitors.Valid() && newcomer !in visitors.at && i < |visitors.order|
    requires OldestJobless(visitors, i) || (i == 0 && forall v :: v in visitors.at ==> visitors.at[v] != {})
    ensures Remembered(visitors, newcomer, |visitors.order|).at == visitors.at[newcomer := {}] - {visitors.order[i]}
  {
    var known := visitors.Set(newcomer, {});
    assert forall k :: 0 <= k < |visitors.order| ==> known.order[k] == visitors.order[k] && visitors.order[k] in visitors.at;
    assert newcomer !in known.order[..i + 1];
    if OldestJobless(visitors, i) {
      FirstJoblessIsOldest(known.order, known, newcomer, i);
    }
  }

  lemma RememberedKeepsSound(s: State, newcomer: string, most: nat)
    requires Sound(s) && newcomer !in s.visitors.at && |s.visitors.order| <= most
    ensures Sound(s.(visitors := Remembered(s.visitors, newcomer, most)))
  {
    var after := s.(visitors := Remembered(s.visitors, newcomer, most));
    RememberedFits(s.visitors, newcomer, most);
    assert LaneSound(after, Claude) by { assert LaneSound(s, Claude); SameJobsSameLane(s, after, Claude); }
    assert LaneSound(after, Local) by { assert LaneSound(s, Local); SameJobsSameLane(s, after, Local); }
    forall id | id in after.jobs.at
      ensures InItsLane(after, id)
    {
      assert InItsLane(s, id);
    }
    forall v | v in after.visitors.at
      ensures OwnsItsIds(after, v)
    {
      if v != newcomer {
        assert OwnsItsIds(s, v);
      }
    }
  }

  lemma SameJobsSameLane(s: State, after: State, lane: Lane)
    requires LaneSound(s, lane) && s.jobs == after.jobs && At(s, lane) == At(after, lane)
    ensures LaneSound(after, lane)
  {
    forall k | 0 <= k < |At(after, lane).queue|
      ensures QueuedHere(after, lane, At(after, lane).queue[k])
    {
      assert QueuedHere(s, lane, At(s, lane).queue[k]);
    }
  }

  // ---------------------------------------------------------------- a visitor owns what it was given

  /** What befalls the visitors: one is remembered, or is given a job (while the page knows it or not). */
  datatype Note = Welcomed(visitor: string) | Gave(visitor: string, id: Id)

  /** The jobs asked for under a visitor since it was last remembered. */
  function GivenSince(history: seq<Note>, visitor: string): set<Id> {
    if history == [] then {}
    else
      var before := GivenSince(history[..|history| - 1], visitor);
      match history[|history| - 1]
      case Welcomed(v) => if v == visitor then {} else before
      case Gave(v, id) => if v == visitor then before + {id} else before
  }

  /** A visitor owns exactly the jobs given to it since it was last remembered that the page still holds as its own. */
  ghost predicate OwnsExactly(s: State, visitor: string, given: set<Id>)
    requires visitor in s.visitors.at
  {
    forall id :: id in s.visitors.at[visitor] <==> id in given && id in s.jobs.at && s.jobs.at[id].visitor == visitor
  }

  ghost predicate OwnersExact(history: seq<Note>, s: State) {
    forall visitor :: visitor in s.visitors.at ==> OwnsExactly(s, visitor, GivenSince(history, visitor))
  }

  lemma GivenOneMore(history: seq<Note>, note: Note, visitor: string)
    ensures GivenSince(history + [note], visitor) ==
      if note.visitor != visitor then GivenSince(history, visitor)
      else if note.Welcomed? then {} else GivenSince(history, visitor) + {note.id}
  {
    assert (history + [note])[..|history|] == history;
  }

  lemma AddKeepsOwnersExact(history: seq<Note>, s: State, id: Id, lane: Lane, visitor: string, reused: bool)
    requires Sound(s) && id !in s.jobs.at && OwnersExact(history, s)
    ensures OwnersExact(history + [Gave(visitor, id)], Add(s, id, lane, visitor, reused))
  {
    var after := Add(s, id, lane, visitor, reused);
    forall v | v in after.visitors.at
      ensures OwnsExactly(after, v, GivenSince(history + [Gave(visitor, id)], v))
    {
      GivenOneMore(history, Gave(visitor, id), v);
      assert OwnsExactly(s, v, GivenSince(history, v)) && OwnsItsIds(s, v);
    }
  }

  lemma DropKeepsOwnersExact(history: seq<Note>, s: State, id: Id)
    requires id in s.jobs.at && OwnersExact(history, s)
    ensures OwnersExact(history, Drop(s, id))
  {
    var after := Drop(s, id);
    forall v | v in after.visitors.at
      ensures OwnsExactly(after, v, GivenSince(history, v))
    {
      assert OwnsExactly(s, v, GivenSince(history, v));
    }
  }

  lemma {:induction false} EvictedKeepsOwnersExact(history: seq<Note>, s: State, ids: seq<Id>, most: nat)
    requires Walkable(s, ids) && OwnersExact(history, s)
    ensures OwnersExact(history, Evicted(s, ids, most))
    decreases |ids|
  {
    if ids != [] && |s.jobs.order| > most {
      WalkOn(s, ids);
      if Finished(s.jobs.at[ids[0]].status) {
        DropKeepsOwnersExact(history, s, ids[0]);
        EvictedKeepsOwnersExact(history, Drop(s, ids[0]), ids[1..], most);
      } else {
        EvictedKeepsOwnersExact(history, s, ids[1..], most);
      }
    }
  }

  /** The same jobs for the same visitors: starting and ending a job move no owner. */
  ghost predicate SameOwners(s: State, after: State) {
    && after.visitors == s.visitors
    && forall id :: (id in after.jobs.at <==> id in s.jobs.at) && (id in s.jobs.at ==> after.jobs.at[id].visitor == s.jobs.at[id].visitor)
  }

  lemma SameOwnersStayExact(history: seq<Note>, s: State, after: State)
    requires SameOwners(s, after) && OwnersExact(history, s)
    ensures OwnersExact(history, after)
  {
    forall v | v in after.visitors.at
      ensures OwnsExactly(after, v, GivenSince(history, v))
    {
      assert OwnsExactly(s, v, GivenSince(history, v));
    }
  }

  lemma StartKeepsOwners(s: State, lane: Lane)
    requires LaneSound(s, lane)
    ensures SameOwners(s, Start(s, lane))
  {
    if At(s, lane).running.None? && At(s, lane).queue != [] {
      assert QueuedHere(s, lane, At(s, lane).queue[0]);
    }
  }

  lemma EndKeepsOwners(s: State, lane: Lane, status: Status)
    requires LaneSound(s, lane) && At(s, lane).running.Some?
    ensures SameOwners(s, End(s, lane, status))
  {
  }

  lemma RememberedKeepsOwnersExact(history: seq<Note>, s: State, newcomer: string, most: nat)
    requires Sound(s) && newcomer !in s.visitors.at && |s.visitors.order| <= most && OwnersExact(history, s)
    ensures OwnersExact(history + [Welcomed(newcomer)], s.(visitors := Remembered(s.visitors, newcomer, most)))
  {
    var after := s.(visitors := Remembered(s.visitors, newcomer, most));
    RememberedFits(s.visitors, newcomer, most);
    forall v | v in after.visitors.at
      ensures OwnsExactly(after, v, GivenSince(history + [Welcomed(newcomer)], v))
    {
      GivenOneMore(history, Welcomed(newcomer), v);
      if v != newcomer {
        assert OwnsExactly(s, v, GivenSince(history, v));
      }
    }
  }

  /** A visitor loses the forgotten jobs, and no other. */
  lemma {:induction false} EvictedOwns(s: State, ids: seq<Id>, most: nat, visitor: string)
    requires Walkable(s, ids) && Sound(s) && visitor in s.visitors.at
    ensures var after := Evicted(s, ids, most);
      visitor in after.visitors.at && after.visitors.at[visitor] == s.visitors.at[visitor] * after.jobs.at.Keys
    decreases |ids|
  {
    if ids == [] || |s.jobs.order| <= most {
      assert OwnsItsIds(s, visitor);
    } else {
      WalkOn(s, ids);
      if Finished(s.jobs.at[ids[0]].status) {
        DropKeepsSound(s, ids[0]);
        EvictedOwns(Drop(s, ids[0]), ids[1..], most, visitor);
        EvictedOnlyShrinks(Drop(s, ids[0]), ids[1..], most, ids[0]);
        DropOwns(s, ids[0], visitor, Evicted(s, ids, most).jobs.at.Keys);
      } else {
        EvictedOwns(s, ids[1..], most, visitor);
      }
    }
  }

  lemma DropOwns(s: State, id: Id, visitor: string, left: set<Id>)
    requires Sound(s) && id in s.jobs.at && visitor in s.visitors.at && id !in left
    ensures visitor in Drop(s, id).visitors.at && Drop(s, id).visitors.at[visitor] * left == s.visitors.at[visitor] * left
  {
  }
}
