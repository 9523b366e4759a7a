/**
  How long a queued request can wait.
*/
module LockTiming {
  import opened Util
  import opened LockManager
  import opened LockRuns

  function NonNegative(x: real): real {
    if x < 0.0 then 0.0 else x
  }

  /** No lock is from the future, and none had outlived its time at the last sweep. */
  ghost predicate ClockOk(w: World) {
    && w.lastSweep <= w.now
    && forall r :: r in w.table.locks ==>
         && w.table.locks[r].createdAt <= w.now
         && w.lastSweep <= w.table.locks[r].createdAt + NonNegative(w.table.locks[r].ttl)
  }

  lemma StepKeepsClock(w: World, step: Step)
    requires ClockOk(w) && Enabled(w, step)
    ensures ClockOk(Apply(w, step))
  {
    var v := Apply(w, step);
    forall r | r in v.table.locks
      ensures v.table.locks[r].createdAt <= v.now
      ensures v.lastSweep <= v.table.locks[r].createdAt + NonNegative(v.table.locks[r].ttl)
    {
      LockStep(w, step, r);
      assert LockAfter(w, step, r) == Some(v.table.locks[r]);
    }
  }

  lemma {:induction false} RunKeepsClock(w: World, steps: seq<Step>)
    requires ClockOk(w) && ValidRun(w, steps)
    ensures ClockOk(After(w, steps))
    decreases |steps|
  {
    if steps != [] {
      StepKeepsClock(w, steps[0]);
      RunKeepsClock(Apply(w, steps[0]), steps[1..]);
    }
  }

  /** Sweeps have been at most `d` apart so far. */
  ghost predicate Timely(w: World, d: real) {
    w.now <= w.lastSweep + d
  }

  ghost predicate TimelyRun(w: World, steps: seq<Step>, d: real)
    requires ValidRun(w, steps)
    decreases |steps|
  {
    Timely(w, d) && (steps != [] ==> TimelyRun(Apply(w, steps[0]), steps[1..], d))
  }

  /** The holder of `r` acquires it again and gets a new lifetime. */
  predicate Renews(w: World, step: Step, r: Resource) {
    step.Acquire? && step.resource == r && EntryOf(w.table, r, step.lockType, step.client) == Upgrade
  }

  ghost predicate NeverRenewed(w: World, steps: seq<Step>, r: Resource)
    requires ValidRun(w, steps)
    decreases |steps|
  {
    steps == [] || (!Renews(w, steps[0], r) && NeverRenewed(Apply(w, steps[0]), steps[1..], r))
  }

  /** `k` promoted locks, each living 30 seconds and `d` more until a sweep finds it. */
  function Rounds(k: nat, d: real): real {
    if k == 0 then 0.0 else PROMOTED_TTL + d + Rounds(k - 1, d)
  }

  lemma {:induction false} RoundsIsProduct(k: nat, d: real)
    ensures Rounds(k, d) == k as real * (PROMOTED_TTL + d)
  {
    if k != 0 {
      RoundsIsProduct(k - 1, d);
      assert k as real == (k - 1) as real + 1.0;
    }
  }

  lemma {:induction false} RoundsGrow(j: nat, k: nat, d: real)
    requires j <= k && d >= 0.0
    ensures 0.0 <= Rounds(j, d) <= Rounds(k, d)
    decreases k
  {
    if j < k {
      RoundsGrow(j, k - 1, d);
    } else if k != 0 {
      RoundsGrow(k - 1, k - 1, d);
    }
  }

  /** The latest time at which the request at position `k` of `r` can still be queued. */
  function Bound(w: World, r: Resource, k: nat, d: real): real
    requires r in w.table.locks
  {
    w.table.locks[r].createdAt + NonNegative(w.table.locks[r].ttl) + d + Rounds(k, d)
  }

  ghost predicate QueuedAt(w: World, r: Resource, id: RequestId, k: nat) {
    k < |Ids(Queue(w.table, r))| && Ids(Queue(w.table, r))[k] == id
  }

  ghost predicate Queued(w: World, r: Resource, id: RequestId) {
    id in Ids(Queue(w.table, r))
  }

  lemma {:induction false} WithoutIndex(s: seq<RequestId>, x: RequestId, k: nat) returns (j: nat)
    requires k < |s| && s[k] != x
    ensures j <= k && j < |Without(s, x)| && Without(s, x)[j] == s[k]
  {
    if k == 0 {
      j := 0;
    } else {
      j := WithoutIndex(s[1..], x, k - 1);
      j := if s[0] == x then j else j + 1;
    }
  }

  lemma QueueDistinct(w: World, r: Resource)
    requires QueueOk(w, r)
    ensures Distinct(Ids(Queue(w.table, r)))
  {
    KeptDistinct(Get(w.arrivals, r), w.withdrawn);
    var p, q := Get(w.promoted, r), Ids(Queue(w.table, r));
    forall i, j | 0 <= i < j < |q| ensures q[i] != q[j] {
      assert (p + q)[|p| + i] != (p + q)[|p| + j];
    }
  }

  /** The four things that can happen to a queue in one step. */
  datatype Change = Same | Joined(id: RequestId) | Dropped(id: RequestId) | HeadLeft

  predicate Changes(w: World, v: World, r: Resource, change: Change) {
    var was, now := Ids(Queue(w.table, r)), Ids(Queue(v.table, r));
    match change
    case Same => now == was
    case Joined(x) => now == was + [x]
    case Dropped(x) => now == Without(was, x)
    case HeadLeft => was != [] && now == was[1..]
  }

  predicate SameLock(w: World, v: World, r: Resource) {
    r in w.table.locks && r in v.table.locks && v.table.locks[r] == w.table.locks[r]
  }

  lemma AcquireChange(w: World, r: Resource, lockType: LockType, client: Client, id: RequestId, timeout: real,
                      x: Resource) returns (change: Change)
    ensures var v := ApplyAcquire(w, r, lockType, client, id, timeout);
            && Changes(w, v, x, change) && (change == Same || change == Joined(id))
            && (x in w.table.locks && !(x == r && EntryOf(w.table, r, lockType, client) == Upgrade)
                ==> SameLock(w, v, x))
  {
    if x == r && EntryOf(w.table, r, lockType, client) == Wait {
      IdsAppend(Queue(w.table, r), Request(client, lockType, id));
      change := Joined(id);
    } else {
      change := Same;
    }
  }

  lemma WithdrawChange(w: World, v: World, r: Resource, id: RequestId, x: Resource) returns (change: Change)
    requires v.table.waiting == Withdraw(w.table, r, id).waiting
    ensures Changes(w, v, x, change) && (change == Same || change == Dropped(id))
  {
    if x == r {
      IdsDrop(Queue(w.table, r), id);
      change := Dropped(id);
    } else {
      change := Same;
    }
  }

  lemma PassedOnChange(w: World, v: World, x: Resource, passed: bool) returns (change: Change)
    requires var q := Queue(w.table, x); Queue(v.table, x) == if passed && q != [] then q[1..] else q
    ensures Changes(w, v, x, change)
    ensures change == if passed && Queue(w.table, x) != [] then HeadLeft else Same
  {
    change := if passed && Queue(w.table, x) != [] then HeadLeft else Same;
  }

  /** What a step does to the queue of `r` and to the lock that the queue waits for. */
  lemma StepChange(w: World, step: Step, r: Resource) returns (change: Change)
    requires Enabled(w, step)
    ensures var v := Apply(w, step);
            && Changes(w, v, r, change)
            && (change.Joined? ==> step.Acquire? && change.id == step.id)
            && (r in w.table.locks && !Renews(w, step, r) && change != HeadLeft && Queue(w.table, r) != []
                ==> SameLock(w, v, r))
            && (change == HeadLeft ==>
                  && v.now == w.now && r in v.table.locks
                  && v.table.locks[r].createdAt == w.now && v.table.locks[r].ttl == PROMOTED_TTL)
  {
    var v := Apply(w, step);
    match step
    case Acquire(x, lockType, client, id, timeout) =>
      change := AcquireChange(w, x, lockType, client, id, timeout, r);
    case LookAtClock(id) =>
      change := Same;
      if w.now >= w.waiters[id].deadline {
        change := WithdrawChange(w, v, w.waiters[id].resource, id, r);
      }
    case WakeAndPoll(id) =>
      change := Same;
      if w.waiters[id].resource !in w.table.locks {
        change := WithdrawChange(w, v, w.waiters[id].resource, id, r);
      }
    case ReleaseBy(x, client) =>
      change := PassedOnChange(w, v, r, x == r && Releases(w.table, r, client));
    case SweepNow =>
      change := PassedOnChange(w, v, r, r in ExpiredLocks(w.table, w.now));
    case Tick(_) =>
      change := Same;
  }

  /** In one step a queued request leaves the queue, or its bound does not grow. */
  lemma WaitStep(w: World, step: Step, r: Resource, id: RequestId, k: nat, d: real) returns (j: nat)
    requires d >= 0.0 && QueueOk(w, r) && ClockOk(w) && Timely(w, d)
    requires Enabled(w, step) && !Renews(w, step, r)
    requires r in w.table.locks && QueuedAt(w, r, id, k)
    ensures var v := Apply(w, step);
            Queued(v, r, id) ==>
              r in v.table.locks && QueuedAt(v, r, id, j) && Bound(v, r, j, d) <= Bound(w, r, k, d)
  {
    j := k;
    QueueDistinct(w, r);
    hide Apply, QueueOk;
    var change := StepChange(w, step, r);
    var ids := Ids(Queue(w.table, r));
    if change == HeadLeft && k > 0 {
      // The new holder's time fits into the bound of the request that moves up.
      j := k - 1;
      assert ids[1..][k - 1] == ids[k];
    } else if change.Dropped? && change.id != id {
      j := WithoutIndex(ids, change.id, k);
      RoundsGrow(j, k, d);
    }
  }

  /** A request that has left its queue never comes back. */
  lemma LeftForGood(w: World, step: Step, r: Resource, id: RequestId)
    requires Enabled(w, step) && id in w.used && !Queued(w, r, id)
    ensures !Queued(Apply(w, step), r, id)
  {
    var change := StepChange(w, step, r);
  }

  lemma UsedStays(w: World, step: Step, id: RequestId)
    requires Enabled(w, step) && id in w.used
    ensures id in Apply(w, step).used
  {
  }

  lemma {:induction false} GoneForGood(w: World, steps: seq<Step>, r: Resource, id: RequestId)
    requires ValidRun(w, steps) && id in w.used && !Queued(w, r, id)
    ensures !Queued(After(w, steps), r, id)
    decreases |steps|
  {
    if steps != [] {
      LeftForGood(w, steps[0], r, id);
      UsedStays(w, steps[0], id);
      GoneForGood(Apply(w, steps[0]), steps[1..], r, id);
    }
  }

  lemma {:induction false} StillQueuedInTime(w: World, steps: seq<Step>, r: Resource, id: RequestId, k: nat, d: real)
    requires d >= 0.0 && Inv(w) && ClockOk(w)
    requires ValidRun(w, steps) && TimelyRun(w, steps, d) && NeverRenewed(w, steps, r)
    requires r in w.table.locks && QueuedAt(w, r, id, k)
    ensures Queued(After(w, steps), r, id) ==> After(w, steps).now <= Bound(w, r, k, d)
    decreases |steps|
  {
    RoundsGrow(0, k, d);
    assert QueueOk(w, r);
    if steps != [] {
      var v := Apply(w, steps[0]);
      StepKeepsInv(w, steps[0]);
      StepKeepsClock(w, steps[0]);
      LeavesUsed(w, steps[0], r, id, k);
      if Queued(v, r, id) {
        var j := WaitStep(w, steps[0], r, id, k, d);
        StillQueuedInTime(v, steps[1..], r, id, j, d);
      } else {
        GoneForGood(v, steps[1..], r, id);
      }
    }
  }

  lemma LeavesUsed(w: World, step: Step, r: Resource, id: RequestId, k: nat)
    requires Enabled(w, step) && QueueOk(w, r) && QueuedAt(w, r, id, k)
    ensures id in Apply(w, step).used
  {
    var p, q := Get(w.promoted, r), Ids(Queue(w.table, r));
    assert (p + q)[|p| + k] == id;
    KeptMembers(Get(w.arrivals, r), w.withdrawn, id);
  }

  /** The request at position `k` of the queue of `r` has been promoted or has withdrawn once the clock
      passes the end of the current lock's life, plus `d`, plus `30 + d` seconds for each one before it:
      provided sweeps are at most `d` apart and the holder does not renew its lock. */
  lemma {:induction false} BoundedWaiting(w: World, before: seq<Step>, after: seq<Step>, r: Resource, id: RequestId,
                                          k: nat, d: real)
    requires Initial(w) && ValidRun(w, before) && ValidRun(After(w, before), after)
    requires d >= 0.0 && TimelyRun(After(w, before), after, d) && NeverRenewed(After(w, before), after, r)
    requires QueuedAt(After(w, before), r, id, k)
    ensures var u := After(w, before); var v := After(u, after);
            && r in u.table.locks
            && (v.now > u.table.locks[r].createdAt + NonNegative(u.table.locks[r].ttl)
                        + d + k as real * (30.0 + d)
                ==> id in Get(v.promoted, r) || id in v.withdrawn)
  {
    hide Inv, ClockOk;
    InitialOk(w);
    RunKeepsInv(w, before);
    RunKeepsClock(w, before);
    var u := After(w, before);
    HeldWhileQueued(u, r, id, k);
    StillQueuedInTime(u, after, r, id, k, d);
    RoundsIsProduct(k, d);
    RunKeepsInv(u, after);
    ArrivedStays(u, after, r, id);
    Accounted(After(u, after), r, id);
  }

  lemma InitialOk(w: World)
    requires Initial(w)
    ensures Inv(w) && ClockOk(w)
  {
  }

  lemma HeldWhileQueued(w: World, r: Resource, id: RequestId, k: nat)
    requires Inv(w) && QueuedAt(w, r, id, k)
    ensures r in w.table.locks && id in Get(w.arrivals, r)
  {
    assert QueueOk(w, r);
    var p, q := Get(w.promoted, r), Ids(Queue(w.table, r));
    assert (p + q)[|p| + k] == id;
    KeptMembers(Get(w.arrivals, r), w.withdrawn, id);
  }

  lemma {:induction false} ArrivedStays(w: World, steps: seq<Step>, r: Resource, id: RequestId)
    requires ValidRun(w, steps) && id in Get(w.arrivals, r)
    ensures id in Get(After(w, steps).arrivals, r)
    decreases |steps|
  {
    if steps != [] {
      ArrivedStays(Apply(w, steps[0]), steps[1..], r, id);
    }
  }
}
