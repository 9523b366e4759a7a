/**
  What the lock manager guarantees over runs in which any number of callers'
  critical sections interleave with releases, expiry sweeps and time.
*/
module LockRuns {
  import opened Util
  import opened LockManager

  /** A caller inside the wait loop: about to look at its deadline, or asleep before a poll. */
  datatype Waiter = Waiter(
    resource: Resource, lockType: LockType, client: Client, timeout: real, deadline: real, asleep: bool)

  /** The last four fields are history: identities handed out, and per resource the requests
      that were queued, that were promoted from the queue, and that left it on timeout. */
  datatype World = World(
    table: Table, now: real, lastSweep: real, waiters: map<RequestId, Waiter>,
    used: set<RequestId>, arrivals: map<Resource, seq<RequestId>>,
    promoted: map<Resource, seq<RequestId>>, withdrawn: set<RequestId>)

  datatype Step =
    | Acquire(resource: Resource, lockType: LockType, client: Client, id: RequestId, timeout: real)
    | LookAtClock(id: RequestId)
    | WakeAndPoll(id: RequestId)
    | ReleaseBy(resource: Resource, client: Client)
    | SweepNow
    | Tick(elapsed: real)

  function Get(m: map<Resource, seq<RequestId>>, r: Resource): seq<RequestId> {
    if r in m then m[r] else []
  }

  function Ids(q: seq<Request>): seq<RequestId> {
    if q == [] then [] else [q[0].requestId] + Ids(q[1..])
  }

  predicate Initial(w: World) {
    w.table == EMPTY && w.waiters == map[] && w.used == {} && w.arrivals == map[] && w.promoted == map[]
    && w.withdrawn == {} && w.lastSweep == w.now
  }

  predicate Enabled(w: World, step: Step) {
    match step
    case Acquire(_, _, _, id, _) => id !in w.used
    case LookAtClock(id) => id in w.waiters && !w.waiters[id].asleep
    case WakeAndPoll(id) => id in w.waiters && w.waiters[id].asleep
    case ReleaseBy(_, _) => true
    case SweepNow => true
    case Tick(elapsed) => elapsed >= 0.0
  }

  function Apply(w: World, step: Step): World
    requires Enabled(w, step)
  {
    match step
    case Acquire(r, lockType, client, id, timeout) => ApplyAcquire(w, r, lockType, client, id, timeout)
    case LookAtClock(id) => ApplyLook(w, id)
    case WakeAndPoll(id) => ApplyPoll(w, id)
    case ReleaseBy(r, client) => ApplyRelease(w, r, client)
    case SweepNow => ApplySweep(w)
    case Tick(elapsed) => w.(now := w.now + elapsed)
  }

  function ApplyAcquire(w: World, r: Resource, lockType: LockType, client: Client, id: RequestId, timeout: real)
    : World
  {
    var v := w.(table := Enter(w.table, r, lockType, client, id, w.now, timeout), used := w.used + {id});
    if EntryOf(w.table, r, lockType, client) == Wait then
      v.(waiters := w.waiters[id := Waiter(r, lockType, client, timeout, w.now + timeout, false)],
         arrivals := w.arrivals[r := Get(w.arrivals, r) + [id]])
    else v
  }

  function ApplyLook(w: World, id: RequestId): World
    requires id in w.waiters
  {
    var x := w.waiters[id];
    if w.now < x.deadline then w.(waiters := w.waiters[id := x.(asleep := true)])
    else w.(table := Withdraw(w.table, x.resource, id),
            waiters := w.waiters - {id},
            withdrawn := if id in Ids(Queue(w.table, x.resource)) then w.withdrawn + {id} else w.withdrawn)
  }

  function ApplyPoll(w: World, id: RequestId): World
    requires id in w.waiters
  {
    var x := w.waiters[id];
    w.(table := Poll(w.table, x.resource, x.lockType, x.client, id, w.now, x.timeout),
       waiters := if PollSucceeds(w.table, x.resource, x.client) then w.waiters - {id}
                  else w.waiters[id := x.(asleep := false)])
  }

  function PromotedHead(w: World, r: Resource): seq<RequestId> {
    Get(w.promoted, r) + if Queue(w.table, r) == [] then [] else [Queue(w.table, r)[0].requestId]
  }

  function ApplyRelease(w: World, r: Resource, client: Client): World {
    if Releases(w.table, r, client) then
      w.(table := Release(w.table, r, client, w.now), promoted := w.promoted[r := PromotedHead(w, r)])
    else w.(table := Release(w.table, r, client, w.now))
  }

  function ApplySweep(w: World): World {
    var gone := ExpiredLocks(w.table, w.now);
    w.(table := Sweep(w.table, w.now), lastSweep := w.now,
       promoted := map r | r in w.promoted.Keys + gone ::
         if r in gone then PromotedHead(w, r) else Get(w.promoted, r))
  }

  /** The caller that a step answers with success, and the resource it gets. */
  function Granted(w: World, step: Step): Option<(Resource, Client)>
    requires Enabled(w, step)
  {
    match step
    case Acquire(r, lockType, client, _, _) =>
      if EntryOf(w.table, r, lockType, client) == Wait then None else Some((r, client))
    case WakeAndPoll(id) =>
      var x := w.waiters[id];
      if PollSucceeds(w.table, x.resource, x.client) then Some((x.resource, x.client)) else None
    case _ => None
  }

  ghost predicate ValidRun(w: World, steps: seq<Step>)
    decreases |steps|
  {
    steps == [] || (Enabled(w, steps[0]) && ValidRun(Apply(w, steps[0]), steps[1..]))
  }

  ghost function After(w: World, steps: seq<Step>): World
    requires ValidRun(w, steps)
    decreases |steps|
  {
    if steps == [] then w else After(Apply(w, steps[0]), steps[1..])
  }

  lemma EmptyRun(w: World)
    ensures ValidRun(w, []) && After(w, []) == w
  {
  }

  lemma {:induction false} Extend(w: World, steps: seq<Step>, step: Step)
    requires ValidRun(w, steps) && Enabled(After(w, steps), step)
    ensures ValidRun(w, steps + [step]) && After(w, steps + [step]) == Apply(After(w, steps), step)
    decreases |steps|
  {
    hide Apply, Enabled;
    if steps == [] {
      assert steps + [step] == [step];
    } else {
      assert (steps + [step])[1..] == steps[1..] + [step];
      Extend(Apply(w, steps[0]), steps[1..], step);
    }
  }

  lemma Then(w: World, steps: seq<Step>, step: Step) returns (run: seq<Step>, v: World)
    requires ValidRun(w, steps) && Enabled(After(w, steps), step)
    ensures run == steps + [step] && ValidRun(w, run) && v == After(w, run) == Apply(After(w, steps), step)
  {
    Extend(w, steps, step);
    run, v := steps + [step], Apply(After(w, steps), step);
  }

  // ---- exclusion ------------------------------------------------------------

  ghost predicate HeldExclusively(w: World, r: Resource, client: Client) {
    r in w.table.locks && w.table.locks[r].lockType == Exclusive && w.table.locks[r].holder == client
  }

  /** The step removes the record of `r`: the holder's release, or a sweep after its lifetime. */
  predicate EndsTenure(w: World, step: Step, r: Resource) {
    match step
    case ReleaseBy(x, client) => x == r && Releases(w.table, r, client)
    case SweepNow => r in ExpiredLocks(w.table, w.now)
    case _ => false
  }

  function LockOf(t: Table, r: Resource): Option<Lock> {
    if r in t.locks then Some(t.locks[r]) else None
  }

  /** The record of `r` after a step: a tenure that ends leaves it to the head of the queue, or to nobody; and a
      caller that enters or polls can put a record of its own. */
  function LockAfter(w: World, step: Step, r: Resource): Option<Lock>
    requires Enabled(w, step)
  {
    if EndsTenure(w, step, r) then
      var q := Queue(w.table, r);
      if q == [] then None else Some(Lock(r, q[0].lockType, q[0].client, q[0].requestId, w.now, PROMOTED_TTL))
    else match step
      case Acquire(x, lockType, client, id, timeout) =>
        if x == r && EntryOf(w.table, r, lockType, client) in {Take, Upgrade} then
          Some(Lock(r, lockType, client, id, w.now, timeout))
        else LockOf(w.table, r)
      case WakeAndPoll(id) =>
        var x := w.waiters[id];
        if x.resource == r && r !in w.table.locks then Some(Lock(r, x.lockType, x.client, id, w.now, x.timeout))
        else LockOf(w.table, r)
      case _ => LockOf(w.table, r)
  }

  lemma ReleasedLock(t: Table, x: Resource, client: Client, now: real, r: Resource)
    ensures LockOf(Release(t, x, client, now), r) ==
            if !(x == r && Releases(t, r, client)) then LockOf(t, r)
            else if Queue(t, r) == [] then None
            else Some(Lock(r, Queue(t, r)[0].lockType, Queue(t, r)[0].client, Queue(t, r)[0].requestId, now,
                           PROMOTED_TTL))
  {
  }

  lemma SweptLock(t: Table, now: real, r: Resource)
    ensures LockOf(Sweep(t, now), r) ==
            if r !in ExpiredLocks(t, now) then LockOf(t, r)
            else if Queue(t, r) == [] then None
            else Some(Lock(r, Queue(t, r)[0].lockType, Queue(t, r)[0].client, Queue(t, r)[0].requestId, now,
                           PROMOTED_TTL))
  {
  }

  lemma LockStep(w: World, step: Step, r: Resource)
    requires Enabled(w, step)
    ensures LockOf(Apply(w, step).table, r) == LockAfter(w, step, r)
  {
    hide Release, Sweep;
    match step
    case ReleaseBy(x, client) => ReleasedLock(w.table, x, client, w.now, r);
    case SweepNow => SweptLock(w.table, w.now, r);
    case _ =>
  }

  ghost predicate TenureLasts(w: World, steps: seq<Step>, r: Resource)
    requires ValidRun(w, steps)
    decreases |steps|
  {
    steps == [] || (!EndsTenure(w, steps[0], r) && TenureLasts(Apply(w, steps[0]), steps[1..], r))
  }

  /** Every success a run answers for `r` goes to `client`. */
  ghost predicate OnlyGrants(w: World, steps: seq<Step>, r: Resource, client: Client)
    requires ValidRun(w, steps)
    decreases |steps|
  {
    steps == [] ||
    ((Granted(w, steps[0]).Some? && Granted(w, steps[0]).value.0 == r ==> Granted(w, steps[0]).value.1 == client)
     && OnlyGrants(Apply(w, steps[0]), steps[1..], r, client))
  }

  /** From the moment a client holds `r` exclusively until its own release or the expiry of its lock,
      whatever the other callers do, no other client is told it has `r`. */
  lemma {:induction false} ExclusiveExclusion(w: World, steps: seq<Step>, r: Resource, client: Client)
    requires HeldExclusively(w, r, client)
    requires ValidRun(w, steps) && TenureLasts(w, steps, r)
    ensures OnlyGrants(w, steps, r, client)
    ensures HeldExclusively(After(w, steps), r, client)
    decreases |steps|
  {
    if steps != [] {
      ExclusiveStep(w, steps[0], r, client);
      ExclusiveExclusion(Apply(w, steps[0]), steps[1..], r, client);
    }
  }

  lemma ExclusiveStep(w: World, step: Step, r: Resource, client: Client)
    requires HeldExclusively(w, r, client) && Enabled(w, step) && !EndsTenure(w, step, r)
    ensures HeldExclusively(Apply(w, step), r, client)
    ensures Granted(w, step).Some? && Granted(w, step).value.0 == r ==> Granted(w, step).value.1 == client
  {
    LockStep(w, step, r);
    assert LockOf(Apply(w, step).table, r).Some?;
    hide Apply, Queue;
  }

  // ---- sequences of identities ----------------------------------------------

  lemma {:induction false} IdsDrop(q: seq<Request>, id: RequestId)
    ensures Ids(Drop(q, id)) == Without(Ids(q), id)
  {
    if q != [] {
      IdsDrop(q[1..], id);
      assert Ids(q)[1..] == Ids(q[1..]);
      if q[0].requestId != id {
        assert Drop(q, id)[1..] == Drop(q[1..], id);
      }
    }
  }

  lemma {:induction false} DropAbsent(q: seq<Request>, id: RequestId)
    requires id !in Ids(q)
    ensures Drop(q, id) == q
  {
    if q != [] {
      assert Ids(q)[1..] == Ids(q[1..]);
      DropAbsent(q[1..], id);
    }
  }

  lemma {:induction false} IdsAppend(q: seq<Request>, x: Request)
    ensures Ids(q + [x]) == Ids(q) + [x.requestId]
  {
    if q == [] {
      assert q + [x] == [x];
    } else {
      assert (q + [x])[1..] == q[1..] + [x];
      IdsAppend(q[1..], x);
    }
  }

  // ---- first come, first served, and nobody forgotten -----------------------

  /** An unlocked resource has nobody waiting; and the promoted requests followed by the waiting
      ones are exactly those that arrived and did not give up, in their order of arrival. */
  ghost predicate QueueOk(w: World, r: Resource) {
    && (r !in w.table.locks ==> Queue(w.table, r) == [])
    && Get(w.promoted, r) + Ids(Queue(w.table, r)) == Kept(Get(w.arrivals, r), w.withdrawn)
    && Distinct(Get(w.arrivals, r))
    && (forall id :: id in Get(w.arrivals, r) ==> id in w.used)
  }

  ghost predicate QueuesOk(w: World) {
    forall r :: QueueOk(w, r)
  }

  /** A request arrives at one resource only, and a waiting caller's at its own. */
  ghost predicate ArrivalsOk(w: World) {
    && (forall r, x, id :: id in Get(w.arrivals, r) && id in Get(w.arrivals, x) ==> r == x)
    && (forall id :: id in w.waiters ==> id in Get(w.arrivals, w.waiters[id].resource))
    && w.withdrawn <= w.used
  }

  ghost predicate Inv(w: World) {
    QueuesOk(w) && ArrivalsOk(w)
  }

  lemma ArrivalJoinsQueue(w: World, v: World, r: Resource, request: Request)
    requires QueueOk(w, r) && request.requestId !in w.used && w.withdrawn <= w.used
    requires r in v.table.locks && v.used == w.used + {request.requestId}
    requires Queue(v.table, r) == Queue(w.table, r) + [request]
    requires Get(v.arrivals, r) == Get(w.arrivals, r) + [request.requestId]
    requires Get(v.promoted, r) == Get(w.promoted, r) && v.withdrawn == w.withdrawn
    ensures QueueOk(v, r)
  {
    IdsAppend(Queue(w.table, r), request);
    KeptAppend(Get(w.arrivals, r), w.withdrawn, request.requestId);
    DistinctAppend(Get(w.arrivals, r), request.requestId);
  }

  lemma OtherQueueStays(w: World, v: World, x: Resource)
    requires QueueOk(w, x) && w.used <= v.used && v.withdrawn == w.withdrawn
    requires x in w.table.locks ==> x in v.table.locks
    requires Queue(v.table, x) == Queue(w.table, x)
    requires Get(v.arrivals, x) == Get(w.arrivals, x) && Get(v.promoted, x) == Get(w.promoted, x)
    ensures QueueOk(v, x)
  {
  }

  lemma AcquireKeepsQueue(w: World, r: Resource, lockType: LockType, client: Client, id: RequestId, timeout: real,
                          x: Resource)
    requires QueueOk(w, x) && id !in w.used && w.withdrawn <= w.used
    ensures QueueOk(ApplyAcquire(w, r, lockType, client, id, timeout), x)
  {
    var v := ApplyAcquire(w, r, lockType, client, id, timeout);
    if x == r && EntryOf(w.table, r, lockType, client) == Wait {
      hide QueueOk;
      ArrivalJoinsQueue(w, v, r, Request(client, lockType, id));
    } else {
      OtherQueueStays(w, v, x);
    }
  }

  lemma AcquireKeepsArrivals(w: World, r: Resource, lockType: LockType, client: Client, id: RequestId, timeout: real)
    requires Inv(w) && id !in w.used
    ensures ArrivalsOk(ApplyAcquire(w, r, lockType, client, id, timeout))
  {
    forall x ensures id !in Get(w.arrivals, x) {
      assert QueueOk(w, x);
    }
    hide QueuesOk, Enter;
    var v := ApplyAcquire(w, r, lockType, client, id, timeout);
    if EntryOf(w.table, r, lockType, client) == Wait {
      forall x ensures Get(v.arrivals, x) == if x == r then Get(w.arrivals, r) + [id] else Get(w.arrivals, x) {
      }
    }
  }

  lemma AcquireKeepsInv(w: World, r: Resource, lockType: LockType, client: Client, id: RequestId, timeout: real)
    requires Inv(w) && id !in w.used
    ensures Inv(ApplyAcquire(w, r, lockType, client, id, timeout))
  {
    hide QueueOk;
    AcquireKeepsArrivals(w, r, lockType, client, id, timeout);
    forall x ensures QueueOk(ApplyAcquire(w, r, lockType, client, id, timeout), x) {
      AcquireKeepsQueue(w, r, lockType, client, id, timeout, x);
    }
  }

  lemma LookKeepsInv(w: World, id: RequestId)
    requires Inv(w) && id in w.waiters
    ensures Inv(ApplyLook(w, id))
  {
    assert QueueOk(w, w.waiters[id].resource);
    assert id in w.used;
    forall x ensures QueueOk(ApplyLook(w, id), x) {
      assert QueueOk(w, x);
      LookKeepsQueue(w, id, x);
    }
  }

  lemma LookKeepsQueue(w: World, id: RequestId, x: Resource)
    requires id in w.waiters && QueueOk(w, x)
    requires id in Get(w.arrivals, x) ==> x == w.waiters[id].resource
    ensures QueueOk(ApplyLook(w, id), x)
  {
    var r := w.waiters[id].resource;
    if w.now >= w.waiters[id].deadline {
      if id !in Ids(Queue(w.table, r)) {
        DropAbsent(Queue(w.table, r), id);
      } else if x == r {
        WithdrawnFromQueue(w, r, id);
      } else {
        KeptWithout(Get(w.arrivals, x), w.withdrawn, id);
        KeptMembers(Get(w.arrivals, x), w.withdrawn, id);
        WithoutAbsent(Kept(Get(w.arrivals, x), w.withdrawn), id);
      }
    }
  }

  lemma WithdrawnFromQueue(w: World, r: Resource, id: RequestId)
    requires QueueOk(w, r) && id in Ids(Queue(w.table, r))
    ensures Get(w.promoted, r) + Ids(Drop(Queue(w.table, r), id)) == Kept(Get(w.arrivals, r), w.withdrawn + {id})
  {
    var p, q := Get(w.promoted, r), Ids(Queue(w.table, r));
    KeptDistinct(Get(w.arrivals, r), w.withdrawn);
    assert id !in p by {
      if id in p {
        DistinctParts(p, q, id);
      }
    }
    KeptWithout(Get(w.arrivals, r), w.withdrawn, id);
    WithoutConcat(p, q, id);
    WithoutAbsent(p, id);
    IdsDrop(Queue(w.table, r), id);
  }

  /** The poll that finds its resource unlocked finds its queue empty: its cleanup removes nothing. */
  lemma PollCleansNothing(w: World, id: RequestId)
    requires Inv(w) && id in w.waiters && w.waiters[id].resource !in w.table.locks
    ensures Withdraw(w.table, w.waiters[id].resource, id) == w.table
  {
    assert QueueOk(w, w.waiters[id].resource);
  }

  lemma PollKeepsInv(w: World, id: RequestId)
    requires Inv(w) && id in w.waiters
    ensures Inv(ApplyPoll(w, id))
  {
    var v := ApplyPoll(w, id);
    if w.waiters[id].resource !in w.table.locks {
      PollCleansNothing(w, id);
    }
    forall x ensures QueueOk(v, x) {
      assert QueueOk(w, x);
    }
  }

  lemma HeadPromoted(w: World, r: Resource)
    requires Queue(w.table, r) != []
    ensures PromotedHead(w, r) + Ids(Queue(w.table, r)[1..]) == Get(w.promoted, r) + Ids(Queue(w.table, r))
  {
  }

  lemma ReleaseKeepsQueue(w: World, r: Resource, client: Client, x: Resource)
    requires QueueOk(w, x)
    ensures QueueOk(ApplyRelease(w, r, client), x)
  {
    if Releases(w.table, r, client) {
      if x == r && Queue(w.table, r) != [] {
        HeadPromoted(w, r);
      }
    }
  }

  lemma ReleaseKeepsInv(w: World, r: Resource, client: Client)
    requires Inv(w)
    ensures Inv(ApplyRelease(w, r, client))
  {
    hide QueueOk;
    forall x ensures QueueOk(ApplyRelease(w, r, client), x) {
      ReleaseKeepsQueue(w, r, client, x);
    }
  }

  lemma SweepKeepsInv(w: World)
    requires Inv(w)
    ensures Inv(ApplySweep(w))
  {
    var v := ApplySweep(w);
    forall x ensures QueueOk(v, x) {
      assert QueueOk(w, x);
      if Queue(w.table, x) != [] {
        HeadPromoted(w, x);
      }
    }
  }

  lemma StepKeepsInv(w: World, step: Step)
    requires Inv(w) && Enabled(w, step)
    ensures Inv(Apply(w, step))
  {
    match step
    case Acquire(r, lockType, client, id, timeout) => AcquireKeepsInv(w, r, lockType, client, id, timeout);
    case LookAtClock(id) => LookKeepsInv(w, id);
    case WakeAndPoll(id) => PollKeepsInv(w, id);
    case ReleaseBy(r, client) => ReleaseKeepsInv(w, r, client);
    case SweepNow => SweepKeepsInv(w);
    case Tick(elapsed) =>
      forall x ensures QueueOk(Apply(w, step), x) {
        assert QueueOk(w, x);
      }
  }

  lemma InitialInv(w: World)
    requires Initial(w)
    ensures Inv(w)
  {
  }

  lemma {:induction false} RunKeepsInv(w: World, steps: seq<Step>)
    requires Inv(w) && ValidRun(w, steps)
    ensures Inv(After(w, steps))
    decreases |steps|
  {
    hide Inv;
    if steps != [] {
      StepKeepsInv(w, steps[0]);
      RunKeepsInv(Apply(w, steps[0]), steps[1..]);
    }
  }

  /** A resource that nobody holds has nobody waiting for it. */
  lemma {:induction false} NoIdleLock(w: World, steps: seq<Step>, r: Resource)
    requires Initial(w) && ValidRun(w, steps)
    requires r !in After(w, steps).table.locks
    ensures Queue(After(w, steps).table, r) == []
  {
    InitialInv(w);
    RunKeepsInv(w, steps);
    assert QueueOk(After(w, steps), r);
  }

  /** Whatever happened so far: the requests promoted, in the order of their promotion, followed by those
      queued, are exactly the ones that arrived and did not withdraw, in the order of their arrival. */
  lemma {:induction false} PromotedThenQueuedAreArrivals(w: World, steps: seq<Step>, r: Resource)
    requires Initial(w) && ValidRun(w, steps)
    ensures var v := After(w, steps);
            && Get(v.promoted, r) + Ids(Queue(v.table, r)) == Kept(Get(v.arrivals, r), v.withdrawn)
            && Distinct(Get(v.arrivals, r))
  {
    InitialInv(w);
    RunKeepsInv(w, steps);
    assert QueueOk(After(w, steps), r);
  }

  /** Every request ever queued is in exactly one place: still queued, promoted, or withdrawn. */
  lemma {:induction false} EveryRequestAccounted(w: World, steps: seq<Step>, r: Resource, id: RequestId)
    requires Initial(w) && ValidRun(w, steps)
    requires id in Get(After(w, steps).arrivals, r)
    ensures var v := After(w, steps);
            var queued, promoted, withdrawn :=
              id in Ids(Queue(v.table, r)), id in Get(v.promoted, r), id in v.withdrawn;
            (queued || promoted || withdrawn)
            && !(queued && promoted) && !(queued && withdrawn) && !(promoted && withdrawn)
  {
    InitialInv(w);
    RunKeepsInv(w, steps);
    Accounted(After(w, steps), r, id);
  }

  lemma Accounted(v: World, r: Resource, id: RequestId)
    requires Inv(v) && id in Get(v.arrivals, r)
    ensures var queued, promoted, withdrawn :=
              id in Ids(Queue(v.table, r)), id in Get(v.promoted, r), id in v.withdrawn;
            (queued || promoted || withdrawn)
            && !(queued && promoted) && !(queued && withdrawn) && !(promoted && withdrawn)
  {
    assert QueueOk(v, r);
    var p, q := Get(v.promoted, r), Ids(Queue(v.table, r));
    assert id in p + q <==> id in p || id in q;
    KeptMembers(Get(v.arrivals, r), v.withdrawn, id);
    KeptDistinct(Get(v.arrivals, r), v.withdrawn);
    if id in p {
      DistinctParts(p, q, id);
    }
  }

  /** No request is promoted while one that arrived before it is still queued. */
  lemma {:induction false} FirstComeFirstServed(w: World, steps: seq<Step>, r: Resource, i: nat, j: nat)
    requires Initial(w) && ValidRun(w, steps)
    requires i < j < |Get(After(w, steps).arrivals, r)|
    requires Get(After(w, steps).arrivals, r)[j] in Get(After(w, steps).promoted, r)
    ensures Get(After(w, steps).arrivals, r)[i] !in Ids(Queue(After(w, steps).table, r))
  {
    InitialInv(w);
    RunKeepsInv(w, steps);
    var v := After(w, steps);
    assert QueueOk(v, r);
    var s, p, q := Get(v.arrivals, r), Get(v.promoted, r), Ids(Queue(v.table, r));
    if s[i] in q {
      var a :| 0 <= a < |q| && q[a] == s[i];
      var b :| 0 <= b < |p| && p[b] == s[j];
      assert (p + q)[|p| + a] == s[i] && (p + q)[b] == s[j];
      KeptOrder(s, v.withdrawn, i, j, |p| + a, b);
    }
  }
}
