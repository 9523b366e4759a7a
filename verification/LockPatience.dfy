/**
  How long a caller of `acquire_lock` waits for its answer, renewals or not, and
  that a holder that renews can make it wait that long.
*/
module LockPatience {
  import opened Util
  import opened LockManager
  import opened LockRuns
  import opened LockTiming
  import opened LockAnswers
  import opened LockReaders

  /** A world with the history of its callers: when each last looked at the clock (or entered), by when its
      timeout has run out, and who has been answered success and who timeout. */
  datatype Watched = Watched(
    w: World, looked: map<RequestId, real>, limit: map<RequestId, real>,
    served: set<RequestId>, denied: set<RequestId>)

  function Unwatched(w: World): Watched {
    Watched(w, map[], map[], {}, {})
  }

  function Watch(t: Watched, step: Step): Watched
    requires Enabled(t.w, step)
  {
    var u := t.(w := Apply(t.w, step));
    match step
    case Acquire(_, _, _, id, timeout) =>
      u.(looked := t.looked[id := t.w.now], limit := t.limit[id := t.w.now + NonNegative(timeout)],
         served := if Granted(t.w, step).Some? then t.served + {id} else t.served)
    case LookAtClock(id) =>
      u.(looked := t.looked[id := t.w.now], denied := if TimesOut(t.w, id) then t.denied + {id} else t.denied)
    case WakeAndPoll(id) => u.(served := if Granted(t.w, step).Some? then t.served + {id} else t.served)
    case _ => u
  }

  ghost function WatchAll(t: Watched, steps: seq<Step>): Watched
    requires ValidRun(t.w, steps)
    decreases |steps|
  {
    if steps == [] then t else WatchAll(Watch(t, steps[0]), steps[1..])
  }

  /** Every waiting caller has looked at the clock in the last `p` seconds. */
  ghost predicate Attentive(t: Watched, p: real) {
    forall id :: id in t.w.waiters ==> id in t.looked && t.w.now <= t.looked[id] + p
  }

  ghost predicate AttentiveRun(t: Watched, steps: seq<Step>, p: real)
    requires ValidRun(t.w, steps)
    decreases |steps|
  {
    Attentive(t, p) && (steps != [] ==> AttentiveRun(Watch(t, steps[0]), steps[1..], p))
  }

  // ---- nobody waits longer than its timeout ---------------------------------

  /** A caller waits, or has had its one answer; while it waits, it last looked within its timeout. */
  ghost predicate CallerOk(t: Watched, id: RequestId) {
    && (id in t.limit ==> id in t.w.used)
    && (id in t.w.waiters ==>
          && id in t.limit && id in t.looked
          && t.looked[id] <= t.limit[id] && t.w.waiters[id].deadline <= t.limit[id])
    && (id in t.limit <==> id in t.w.waiters || id in t.served || id in t.denied)
    && !(id in t.w.waiters && id in t.served) && !(id in t.w.waiters && id in t.denied)
    && !(id in t.served && id in t.denied)
  }

  /** A queued request is some caller's, and that caller has not been told that it timed out. */
  ghost predicate QueuedOk(t: Watched, r: Resource, id: RequestId) {
    Queued(t.w, r, id) ==> id in t.limit && id !in t.denied
  }

  ghost predicate WatchOk(t: Watched) {
    (forall id :: CallerOk(t, id)) && (forall r, id :: QueuedOk(t, r, id))
  }

  lemma StepKeepsCaller(t: Watched, step: Step, id: RequestId)
    requires CallerOk(t, id) && Enabled(t.w, step)
    ensures CallerOk(Watch(t, step), id)
  {
  }

  lemma StepKeepsQueued(t: Watched, step: Step, r: Resource, id: RequestId)
    requires Inv(t.w) && CallerOk(t, id) && QueuedOk(t, r, id) && Enabled(t.w, step)
    ensures QueuedOk(Watch(t, step), r, id)
  {
    var change := StepChange(t.w, step, r);
    if step == LookAtClock(id) && TimesOut(t.w, id) {
      TimeoutUnqueues(t.w, id, r);
    }
  }

  lemma TimeoutUnqueues(w: World, id: RequestId, r: Resource)
    requires Inv(w) && TimesOut(w, id)
    ensures !Queued(Apply(w, LookAtClock(id)), r, id)
  {
    WaiterUsed(w, id);
    IdsDrop(Queue(w.table, r), id);
    if Queued(w, r, id) {
      QueuedUsed(w, r, id);
    }
  }

  lemma {:induction false} RunKeepsWatch(t: Watched, steps: seq<Step>)
    requires Inv(t.w) && WatchOk(t) && ValidRun(t.w, steps)
    ensures WatchOk(WatchAll(t, steps)) && WatchAll(t, steps).w == After(t.w, steps)
    decreases |steps|
  {
    hide Inv, Apply, CallerOk, QueuedOk;
    if steps != [] {
      var u := Watch(t, steps[0]);
      forall id ensures CallerOk(u, id) {
        StepKeepsCaller(t, steps[0], id);
      }
      forall r, id ensures QueuedOk(u, r, id) {
        StepKeepsQueued(t, steps[0], r, id);
      }
      StepKeepsInv(t.w, steps[0]);
      RunKeepsWatch(u, steps[1..]);
    }
  }

  lemma {:induction false} AttentiveAtEnd(t: Watched, steps: seq<Step>, p: real)
    requires ValidRun(t.w, steps) && AttentiveRun(t, steps, p)
    ensures Attentive(WatchAll(t, steps), p)
    decreases |steps|
  {
    if steps != [] {
      AttentiveAtEnd(Watch(t, steps[0]), steps[1..], p);
    }
  }

  /** If callers look at the clock at most `p` apart, each has its answer once `p` more than its timeout has
      passed since it entered, whatever the holder does; and its request is no longer queued then, unless the
      answer was success. */
  lemma {:induction false} PatienceBound(w: World, steps: seq<Step>, p: real, id: RequestId)
    requires Initial(w) && ValidRun(w, steps) && AttentiveRun(Unwatched(w), steps, p)
    ensures var t := WatchAll(Unwatched(w), steps);
            && t.w == After(w, steps)
            && (id in t.limit && t.w.now > t.limit[id] + p ==>
                  && id !in t.w.waiters && (id in t.served <==> id !in t.denied)
                  && (id !in t.served ==> forall r :: !Queued(t.w, r, id)))
  {
    var t := WatchAll(Unwatched(w), steps);
    InitialInv(w);
    RunKeepsWatch(Unwatched(w), steps);
    AttentiveAtEnd(Unwatched(w), steps, p);
    assert CallerOk(t, id);
    forall r ensures Queued(t.w, r, id) ==> id !in t.denied {
      assert QueuedOk(t, r, id);
    }
  }

  /** A poll that succeeds leaves its own request in the queue if and only if the request was not promoted: its
      client then holds the resource by another request, and this one will get a lock that nobody awaits. */
  lemma {:induction false} SuccessLeavesQueuedExactly(w: World, steps: seq<Step>, id: RequestId)
    requires Initial(w) && ValidRun(w, steps) && Enabled(After(w, steps), WakeAndPoll(id))
    requires Granted(After(w, steps), WakeAndPoll(id)).Some?
    ensures var u := After(w, steps); var r := u.waiters[id].resource; var v := Apply(u, WakeAndPoll(id));
            && (Queued(v, r, id) <==> id !in Get(u.promoted, r))
            && (Queued(v, r, id) ==> Holds(u, r, u.waiters[id].client) && u.table.locks[r].requestId != id)
  {
    var u := After(w, steps);
    InitialInv(w);
    RunKeepsInv(w, steps);
    RunKeepsRecords(w, steps);
    RunKeepsWaiting(w, steps);
    PollLeaves(u, id);
  }

  lemma {:induction false} RunKeepsWaiting(w: World, steps: seq<Step>)
    requires Inv(w) && ValidRun(w, steps) && WaitersStay(w)
    ensures WaitersStay(After(w, steps))
    decreases |steps|
  {
    if steps != [] {
      StepKeepsInv(w, steps[0]);
      StepKeepsWaiting(w, steps[0]);
      RunKeepsWaiting(Apply(w, steps[0]), steps[1..]);
    }
  }

  /** A waiting caller's request has not withdrawn. */
  ghost predicate WaitersStay(w: World) {
    forall id :: id in w.waiters ==> id !in w.withdrawn
  }

  lemma StepKeepsWaiting(w: World, step: Step)
    requires Inv(w) && Enabled(w, step) && WaitersStay(w)
    ensures WaitersStay(Apply(w, step))
  {
  }

  lemma PollLeaves(u: World, id: RequestId)
    requires Inv(u) && RecordsOk(u) && WaitersStay(u) && id in u.waiters
    requires PollSucceeds(u.table, u.waiters[id].resource, u.waiters[id].client)
    ensures var r := u.waiters[id].resource; var v := ApplyPoll(u, id);
            && (Queued(v, r, id) <==> id !in Get(u.promoted, r))
            && (Queued(v, r, id) ==> Holds(u, r, u.waiters[id].client) && u.table.locks[r].requestId != id)
  {
    var r := u.waiters[id].resource;
    WaiterUsed(u, id);
    Accounted(u, r, id);
    assert RecordOk(u, r) && QueueOk(u, r);
  }

  // ---- and a holder that renews makes it wait that long ----------------------

  /** `run` is valid, and all its sweeps and all looks at the clock are at most `d` apart. */
  ghost predicate Lively(t: Watched, run: seq<Step>, d: real) {
    ValidRun(t.w, run) && AttentiveRun(t, run, d) && TimelyRun(t.w, run, d)
  }

  lemma {:induction false} ExtendLively(t: Watched, steps: seq<Step>, step: Step, d: real)
    requires Lively(t, steps, d) && Enabled(After(t.w, steps), step)
    ensures WatchAll(t, steps).w == After(t.w, steps)
    ensures var u := Watch(WatchAll(t, steps), step);
            && ValidRun(t.w, steps + [step]) && WatchAll(t, steps + [step]) == u
            && (Attentive(u, d) && Timely(u.w, d) ==> Lively(t, steps + [step], d))
    decreases |steps|
  {
    hide Apply, Enabled, Attentive, Timely;
    if steps == [] {
      assert steps + [step] == [step] && [step][1..] == [];
      var u := Watch(t, step);
      assert Attentive(u, d) && Timely(u.w, d) ==> AttentiveRun(u, [], d) && TimelyRun(u.w, [], d);
    } else {
      assert (steps + [step])[1..] == steps[1..] + [step];
      ExtendLively(Watch(t, steps[0]), steps[1..], step, d);
    }
  }

  lemma ThenLively(t: Watched, steps: seq<Step>, step: Step, d: real) returns (run: seq<Step>, u: Watched)
    requires Lively(t, steps, d) && WatchAll(t, steps).w == After(t.w, steps) && Enabled(After(t.w, steps), step)
    requires Attentive(Watch(WatchAll(t, steps), step), d) && Timely(Watch(WatchAll(t, steps), step).w, d)
    ensures Lively(t, run, d) && u == WatchAll(t, run) == Watch(WatchAll(t, steps), step) && u.w == After(t.w, run)
  {
    hide Apply, Enabled, Attentive, Timely;
    ExtendLively(t, steps, step, d);
    Extend(t.w, steps, step);
    run, u := steps + [step], Watch(WatchAll(t, steps), step);
  }

  /** The times that matter while a caller waits: whether it sleeps, the time, the last sweep, when the holder took
      or renewed the lock, when the caller last looked at the clock, and its deadline. */
  datatype Moment = Moment(asleep: bool, now: real, swept: real, renewed: real, looked: real, deadline: real)

  /** The resource, its holder, the client that waits for it with the request `id`, and the length of a round. */
  datatype Case = Case(resource: Resource, holder: Client, client: Client, id: RequestId, d: real)

  /** The holder has the resource for at least `d` seconds, and the only waiting caller is queued for it. */
  ghost predicate Waits(t: Watched, c: Case, m: Moment) {
    && Holds(t.w, c.resource, c.holder) && c.holder != c.client
    && t.w.table.locks[c.resource].createdAt == m.renewed && t.w.table.locks[c.resource].ttl >= c.d
    && t.w.now == m.now && t.w.lastSweep == m.swept
    && t.w.waiters.Keys == {c.id} && c.id in t.w.used && Queued(t.w, c.resource, c.id)
    && c.id in t.looked && t.looked[c.id] == m.looked
    && var x := t.w.waiters[c.id];
       x.resource == c.resource && x.client == c.client && x.asleep == m.asleep && x.deadline == m.deadline
  }

  /** Neither the last sweep nor the last look is further back than `d`. */
  predicate Recent(m: Moment, d: real) {
    m.now <= m.swept + d && m.now <= m.looked + d
  }

  lemma RecentIsLively(t: Watched, c: Case, m: Moment)
    requires Waits(t, c, m) && Recent(m, c.d)
    ensures Attentive(t, c.d) && Timely(t.w, c.d)
  {
    assert forall x :: x in t.w.waiters ==> x in t.w.waiters.Keys;
  }

  lemma WaitsLook(t: Watched, c: Case, m: Moment)
    requires Waits(t, c, m) && !m.asleep && m.now < m.deadline
    ensures Enabled(t.w, LookAtClock(c.id))
    ensures Waits(Watch(t, LookAtClock(c.id)), c, m.(asleep := true, looked := m.now))
  {
  }

  lemma WaitsTick(t: Watched, c: Case, m: Moment)
    requires Waits(t, c, m) && c.d >= 0.0
    ensures Waits(Watch(t, Tick(c.d)), c, m.(now := m.now + c.d))
  {
  }

  lemma WaitsPoll(t: Watched, c: Case, m: Moment)
    requires Waits(t, c, m) && m.asleep
    ensures Enabled(t.w, WakeAndPoll(c.id))
    ensures Waits(Watch(t, WakeAndPoll(c.id)), c, m.(asleep := false))
  {
  }

  lemma WaitsSweep(t: Watched, c: Case, m: Moment)
    requires Waits(t, c, m) && m.now - m.renewed <= c.d
    ensures Waits(Watch(t, SweepNow), c, m.(swept := m.now))
  {
    assert c.resource !in ExpiredLocks(t.w.table, t.w.now);
    assert Queue(Apply(t.w, SweepNow).table, c.resource) == Queue(t.w.table, c.resource);
  }

  lemma WaitsRenew(t: Watched, c: Case, m: Moment) returns (step: Step)
    requires Waits(t, c, m) && c.d <= 30.0
    ensures Enabled(t.w, step) && Renews(t.w, step, c.resource)
    ensures Waits(Watch(t, step), c, m.(renewed := m.now))
  {
    var unused := NewName(t.w.used);
    step := Acquire(c.resource, Exclusive, c.holder, unused, 30.0);
  }

  /** One more step of a lively run, after which the caller still waits. */
  lemma ThenWaits(t: Watched, steps: seq<Step>, step: Step, c: Case, m: Moment)
    returns (run: seq<Step>, u: Watched)
    requires Lively(t, steps, c.d) && WatchAll(t, steps).w == After(t.w, steps) && Enabled(After(t.w, steps), step)
    requires Waits(Watch(WatchAll(t, steps), step), c, m) && Recent(m, c.d)
    ensures Lively(t, run, c.d) && u == WatchAll(t, run) && u.w == After(t.w, run)
    ensures Waits(u, c, m)
  {
    hide Apply, Enabled, Attentive, Timely, Waits, Recent, AttentiveRun, TimelyRun, ValidRun, Watch;
    RecentIsLively(Watch(WatchAll(t, steps), step), c, m);
    run, u := ThenLively(t, steps, step, c.d);
  }

  /** One round of `d` seconds: the caller looks at the clock, sleeps, wakes and polls; a sweep; and the holder
      acquires again. */
  lemma StarvingRound(t: Watched, steps: seq<Step>, c: Case, m: Moment)
    returns (run: seq<Step>)
    requires Lively(t, steps, c.d) && WatchAll(t, steps).w == After(t.w, steps)
    requires Waits(WatchAll(t, steps), c, m)
    requires 0.0 < c.d <= 30.0 && !m.asleep && m.now == m.swept == m.renewed && m.now < m.deadline
    ensures Lively(t, run, c.d) && WatchAll(t, run).w == After(t.w, run)
    ensures var end := m.now + c.d;
            Waits(WatchAll(t, run), c, Moment(false, end, end, end, m.now, m.deadline))
  {
    hide Apply, Enabled, Waits, AttentiveRun, TimelyRun, ValidRun, WatchAll, After, Watch;
    var u := WatchAll(t, steps);
    var m1 := m.(asleep := true, looked := m.now);
    WaitsLook(u, c, m);
    run, u := ThenWaits(t, steps, LookAtClock(c.id), c, m1);
    var m2 := m1.(now := m.now + c.d);
    WaitsTick(u, c, m1);
    AlwaysEnabled(u.w, c.d);
    run, u := ThenWaits(t, run, Tick(c.d), c, m2);
    var m3 := m2.(asleep := false);
    WaitsPoll(u, c, m2);
    run, u := ThenWaits(t, run, WakeAndPoll(c.id), c, m3);
    var m4 := m3.(swept := m3.now);
    WaitsSweep(u, c, m3);
    AlwaysEnabled(u.w, c.d);
    run, u := ThenWaits(t, run, SweepNow, c, m4);
    var renew := WaitsRenew(u, c, m4);
    run, u := ThenWaits(t, run, renew, c, m4.(renewed := m4.now));
  }

  lemma AlwaysEnabled(w: World, d: real)
    requires d >= 0.0
    ensures Enabled(w, Tick(d)) && Enabled(w, SweepNow)
  {
  }

  lemma {:induction false} StarvingRounds(t: Watched, steps: seq<Step>, c: Case, m: Moment, n: nat)
    returns (run: seq<Step>, looked: real)
    requires Lively(t, steps, c.d) && WatchAll(t, steps).w == After(t.w, steps)
    requires Waits(WatchAll(t, steps), c, m)
    requires 0.0 < c.d <= 30.0 && !m.asleep && m.now == m.swept == m.renewed && m.now + n as real * c.d <= m.deadline
    ensures Lively(t, run, c.d) && WatchAll(t, run).w == After(t.w, run)
    ensures var end := m.now + n as real * c.d;
            Waits(WatchAll(t, run), c, Moment(false, end, end, end, looked, m.deadline))
    decreases n
  {
    hide Waits, AttentiveRun, TimelyRun, ValidRun, WatchAll, After;
    if n == 0 {
      run, looked := steps, m.looked;
    } else {
      Split(n, c.d);
      run := StarvingRound(t, steps, c, m);
      var end := m.now + c.d;
      run, looked := StarvingRounds(t, run, c, Moment(false, end, end, end, m.now, m.deadline), n - 1);
    }
  }

  lemma Split(n: nat, d: real)
    requires n > 0 && d > 0.0
    ensures n as real * d == d + (n - 1) as real * d && (n - 1) as real * d >= 0.0
  {
    assert n as real == 1.0 + (n - 1) as real;
  }

  /** From the initial world, for any timeout, any `d` up to 30 seconds and any `n` rounds that fit into the timeout:
      with the holder renewing once a round, a caller that looks at the clock and polls in every round, and a
      sweep in every round, is still queued after `n` rounds; and if they fill the timeout, it then times out. */
  lemma {:induction false} RenewalStarves(w: World, r: Resource, holder: Client, client: Client, lockType: LockType,
                                          timeout: real, d: real, n: nat)
    returns (run: seq<Step>, id: RequestId)
    requires Initial(w) && holder != client
    requires 0.0 < d <= 30.0 && n as real * d <= timeout
    ensures ValidRun(w, run) && AttentiveRun(Unwatched(w), run, d) && TimelyRun(w, run, d)
    ensures var v := After(w, run);
            && v.now == w.now + n as real * d && Queued(v, r, id) && Holds(v, r, holder)
            && id in v.waiters && v.waiters[id].client == client && v.waiters[id].deadline == w.now + timeout
            && (n as real * d == timeout ==> TimesOut(v, id))
  {
    hide WatchAll, After, Apply, Enabled, Waits, AttentiveRun, TimelyRun, ValidRun, Watch;
    var t := Unwatched(w);
    assert Lively(t, [], d) && WatchAll(t, []) == t && After(w, []) == w by {
      LivelyNothing(t, d);
    }
    id := "2";
    var c := Case(r, holder, client, id, d);
    var m := Moment(false, w.now, w.now, w.now, w.now, w.now + timeout);
    var first, second := Acquire(r, Exclusive, holder, "1", 30.0), Acquire(r, lockType, client, id, timeout);
    HolderArrives(w, c);
    var u;
    run, u := ThenLively(t, [], first, d);
    CallerArrives(w, c, lockType, timeout);
    run, u := ThenWaits(t, run, second, c, m);
    Positive(n, d);
    var looked;
    run, looked := StarvingRounds(t, run, c, m, n);
    var end := w.now + n as real * d;
    StillWaits(WatchAll(t, run), c, Moment(false, end, end, end, looked, w.now + timeout));
  }

  lemma Positive(n: nat, d: real)
    requires d > 0.0
    ensures n as real * d >= 0.0
  {
  }

  lemma HolderArrives(w: World, c: Case)
    requires Initial(w) && c.d >= 0.0
    ensures var first := Acquire(c.resource, Exclusive, c.holder, "1", 30.0);
            && Enabled(w, first)
            && Attentive(Watch(Unwatched(w), first), c.d) && Timely(Watch(Unwatched(w), first).w, c.d)
  {
  }

  lemma CallerArrives(w: World, c: Case, lockType: LockType, timeout: real)
    requires Initial(w) && 0.0 < c.d <= 30.0 && c.holder != c.client && c.id == "2"
    ensures var first := Acquire(c.resource, Exclusive, c.holder, "1", 30.0);
            var second := Acquire(c.resource, lockType, c.client, c.id, timeout);
            && Enabled(w, first)
            && var u := Watch(Unwatched(w), first);
               && Enabled(u.w, second)
               && Waits(Watch(u, second), c, Moment(false, w.now, w.now, w.now, w.now, w.now + timeout))
  {
    var u := Watch(Unwatched(w), Acquire(c.resource, Exclusive, c.holder, "1", 30.0));
    var v := Watch(u, Acquire(c.resource, lockType, c.client, c.id, timeout));
    assert Queue(v.w.table, c.resource) == [Request(c.client, lockType, c.id)];
  }

  lemma StillWaits(t: Watched, c: Case, m: Moment)
    requires Waits(t, c, m)
    ensures t.w.now == m.now && Queued(t.w, c.resource, c.id) && Holds(t.w, c.resource, c.holder)
    ensures c.id in t.w.waiters && t.w.waiters[c.id].client == c.client && t.w.waiters[c.id].deadline == m.deadline
    ensures !m.asleep && m.now >= m.deadline ==> TimesOut(t.w, c.id)
  {
    assert c.id in t.w.waiters.Keys;
  }

  lemma LivelyNothing(t: Watched, d: real)
    requires t.w.waiters == map[] && d >= 0.0 && t.w.lastSweep == t.w.now
    ensures Lively(t, [], d) && WatchAll(t, []) == t && After(t.w, []) == t.w
  {
  }
}
