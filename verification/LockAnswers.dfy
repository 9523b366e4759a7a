/**
  What the answers of `acquire_lock` are worth: how long a success of an exclusive
  request keeps other clients out, and when a timeout is the truth.
*/
module LockAnswers {
  import opened Util
  import opened LockManager
  import opened LockRuns
  import opened LockTiming

  // ---- an exclusive request is answered with success ------------------------

  /** The step tells `client` that its request for `r`, of that type, has succeeded. */
  predicate Answers(w: World, step: Step, r: Resource, lockType: LockType, client: Client)
    requires Enabled(w, step)
  {
    && Granted(w, step) == Some((r, client))
    && lockType == match step
                   case Acquire(_, l, _, _, _) => l
                   case WakeAndPoll(id) => w.waiters[id].lockType
                   case _ => lockType
  }

  /** A poll that finds its own client as holder does not look at the type of the lock it holds. */
  predicate FindsSharedLock(w: World, step: Step, r: Resource) {
    step.WakeAndPoll? && r in w.table.locks && w.table.locks[r].lockType == Shared
  }

  /** As long as the record of `r` lasts, no other client is told it has `r`. */
  ghost predicate KeepsOthersOut(w: World, r: Resource, client: Client) {
    forall steps :: ValidRun(w, steps) && TenureLasts(w, steps, r) ==> OnlyGrants(w, steps, r, client)
  }

  lemma HolderKeepsOthersOut(w: World, r: Resource, client: Client)
    requires HeldExclusively(w, r, client)
    ensures KeepsOthersOut(w, r, client)
  {
    forall steps | ValidRun(w, steps) && TenureLasts(w, steps, r) ensures OnlyGrants(w, steps, r, client) {
      ExclusiveExclusion(w, steps, r, client);
    }
  }

  /** Into a shared lock any other client can get. */
  lemma SharedLetsOthersIn(w: World, r: Resource, client: Client)
    requires r in w.table.locks && w.table.locks[r].lockType == Shared
    ensures !KeepsOthersOut(w, r, client)
  {
    var id := NewName(w.used);
    var other := NewName({client});
    var steps := [Acquire(r, Shared, other, id, 30.0)];
    assert steps[1..] == [];
    assert ValidRun(w, steps) && TenureLasts(w, steps, r);
    assert Granted(w, steps[0]) == Some((r, other)) && !OnlyGrants(w, steps, r, client);
  }

  /** A success for an exclusive request keeps all others out until the record is released or expires, if and
      only if it is not the answer of a poll that finds its client to hold a shared lock. */
  lemma ExclusiveAnswerExactly(w: World, step: Step, r: Resource, client: Client)
    requires Enabled(w, step) && Answers(w, step, r, Exclusive, client)
    ensures HeldExclusively(Apply(w, step), r, client) <==> !FindsSharedLock(w, step, r)
    ensures KeepsOthersOut(Apply(w, step), r, client) <==> !FindsSharedLock(w, step, r)
  {
    var v := Apply(w, step);
    assert r in v.table.locks;
    if FindsSharedLock(w, step, r) {
      SharedLetsOthersIn(v, r, client);
    } else {
      HolderKeepsOthersOut(v, r, client);
    }
  }

  /** Such a poll happens: a has queued for `r` as a reader and as a writer; its reader is promoted, and the caller
      of its writer is told that it has succeeded, while its request stays queued. */
  lemma ExclusiveAnswerInSharedLock(now: real) returns (run: seq<Step>)
    ensures var w := World(EMPTY, now, now, map[], {}, map[], map[], {});
            && Initial(w) && ValidRun(w, run) && Enabled(After(w, run), WakeAndPoll("3"))
            && Answers(After(w, run), WakeAndPoll("3"), "r", Exclusive, "a")
            && FindsSharedLock(After(w, run), WakeAndPoll("3"), "r")
            && Queued(Apply(After(w, run), WakeAndPoll("3")), "r", "3")
  {
    var w := World(EMPTY, now, now, map[], {}, map[], map[], {});
    var v;
    hide After, ValidRun;
    EmptyRun(w);
    run, v := Then(w, [], Acquire("r", Exclusive, "b", "1", 30.0));
    run, v := Then(w, run, Acquire("r", Shared, "a", "2", 30.0));
    run, v := Then(w, run, Acquire("r", Exclusive, "a", "3", 30.0));
    assert Queue(v.table, "r") == [Request("a", Shared, "2"), Request("a", Exclusive, "3")];
    run, v := Then(w, run, LookAtClock("3"));
    run, v := Then(w, run, ReleaseBy("r", "b"));
    assert Queue(v.table, "r") == [Request("a", Exclusive, "3")];
  }

  // ---- a request is answered with a timeout ---------------------------------

  /** The record of some resource is the one made for the request `id`. */
  ghost predicate Owns(w: World, id: RequestId) {
    exists r :: r in w.table.locks && w.table.locks[r].requestId == id
  }

  /** The caller of `id` finds its deadline passed and answers timeout. */
  predicate TimesOut(w: World, id: RequestId) {
    id in w.waiters && !w.waiters[id].asleep && w.now >= w.waiters[id].deadline
  }

  /** A request that still waits has no record but one it was promoted to. */
  ghost predicate RecordOk(w: World, r: Resource) {
    r in w.table.locks ==>
      var id := w.table.locks[r].requestId;
      id in w.used && (id in w.waiters ==> id in Get(w.promoted, r))
  }

  ghost predicate RecordsOk(w: World) {
    forall r :: RecordOk(w, r)
  }

  lemma WaiterUsed(w: World, id: RequestId)
    requires Inv(w) && id in w.waiters
    ensures id in Get(w.arrivals, w.waiters[id].resource) && id in w.used
  {
    assert QueueOk(w, w.waiters[id].resource);
  }

  lemma QueuedUsed(w: World, r: Resource, id: RequestId)
    requires Inv(w) && id in Ids(Queue(w.table, r))
    ensures id in Get(w.arrivals, r) && id in w.used
  {
    assert QueueOk(w, r);
    assert id in Get(w.promoted, r) + Ids(Queue(w.table, r));
    KeptMembers(Get(w.arrivals, r), w.withdrawn, id);
  }

  lemma StepKeepsRecord(w: World, step: Step, r: Resource)
    requires RecordOk(w, r) && Enabled(w, step)
    requires forall id :: id in w.waiters ==> id in w.used
    requires Queue(w.table, r) != [] ==> Ids(Queue(w.table, r))[0] in w.used
    ensures RecordOk(Apply(w, step), r)
  {
    LockStep(w, step, r);
    var v := Apply(w, step);
    assert r in v.table.locks <==> LockOf(v.table, r).Some?;
    assert r in v.table.locks ==> LockOf(v.table, r).value == v.table.locks[r];
    hide Enter, Poll, Release, Sweep, Withdraw;
  }

  lemma {:induction false} RunKeepsRecords(w: World, steps: seq<Step>)
    requires Inv(w) && RecordsOk(w) && ValidRun(w, steps)
    ensures RecordsOk(After(w, steps))
    decreases |steps|
  {
    hide Inv, Apply, RecordOk;
    if steps != [] {
      forall id | id in w.waiters ensures id in w.used {
        WaiterUsed(w, id);
      }
      forall r ensures RecordOk(Apply(w, steps[0]), r) {
        assert RecordOk(w, r);
        if Queue(w.table, r) != [] {
          QueuedUsed(w, r, Ids(Queue(w.table, r))[0]);
        }
        StepKeepsRecord(w, steps[0], r);
      }
      StepKeepsInv(w, steps[0]);
      RunKeepsRecords(Apply(w, steps[0]), steps[1..]);
    }
  }

  /** The request has no caller, is queued nowhere, and has no record. */
  ghost predicate Finished(w: World, id: RequestId) {
    id in w.used && id !in w.waiters && !Owns(w, id) && forall r :: !Queued(w, r, id)
  }

  lemma NoRecordGained(w: World, step: Step, r: Resource, id: RequestId)
    requires Enabled(w, step) && id in w.used && id !in w.waiters && !Queued(w, r, id)
    requires r in w.table.locks ==> w.table.locks[r].requestId != id
    ensures var v := Apply(w, step); r in v.table.locks ==> v.table.locks[r].requestId != id
  {
    LockStep(w, step, r);
    var v := Apply(w, step);
    assert r in v.table.locks ==> LockAfter(w, step, r) == Some(v.table.locks[r]);
    hide Apply;
  }

  lemma StepKeepsFinished(w: World, step: Step, id: RequestId)
    requires Enabled(w, step) && Finished(w, id)
    ensures Finished(Apply(w, step), id)
  {
    var v := Apply(w, step);
    assert id in v.used && id !in v.waiters;
    hide Apply, Queued;
    forall r ensures !Queued(v, r, id) {
      LeftForGood(w, step, r, id);
    }
    forall r ensures r in v.table.locks ==> v.table.locks[r].requestId != id {
      NoRecordGained(w, step, r, id);
    }
  }

  lemma {:induction false} FinishedForGood(w: World, steps: seq<Step>, id: RequestId)
    requires ValidRun(w, steps) && Finished(w, id)
    ensures Finished(After(w, steps), id)
    decreases |steps|
  {
    hide Finished, Apply;
    if steps != [] {
      StepKeepsFinished(w, steps[0], id);
      FinishedForGood(Apply(w, steps[0]), steps[1..], id);
    }
  }

  lemma TimeoutLeavesNothing(w: World, id: RequestId)
    requires Inv(w) && TimesOut(w, id) && !Owns(w, id)
    ensures Finished(Apply(w, LookAtClock(id)), id)
  {
    var v := Apply(w, LookAtClock(id));
    WaiterUsed(w, id);
    assert forall r :: r in v.table.locks ==> v.table.locks[r].requestId != id;
    forall r ensures !Queued(v, r, id) {
      IdsDrop(Queue(w.table, r), id);
      if id in Ids(Queue(w.table, r)) {
        QueuedUsed(w, r, id);
      }
    }
  }

  // What a caller's request went through, as the run tells it.

  ghost predicate RecordIs(w: World, r: Resource, id: RequestId) {
    r in w.table.locks && w.table.locks[r].requestId == id
  }

  /** The step ends the tenure of `r` while `id` heads its queue. */
  predicate Promotes(w: World, step: Step, r: Resource, id: RequestId) {
    EndsTenure(w, step, r) && Queue(w.table, r) != [] && Queue(w.table, r)[0].requestId == id
  }

  /** In the run the record of `r` is not released, does not expire, and is not renewed. */
  ghost predicate RecordLasts(w: World, steps: seq<Step>, r: Resource)
    requires ValidRun(w, steps)
    decreases |steps|
  {
    steps == [] ||
    (!EndsTenure(w, steps[0], r) && !Renews(w, steps[0], r) && RecordLasts(Apply(w, steps[0]), steps[1..], r))
  }

  /** Some step of the run promotes `id`, and from then on the record of `r` lasts. */
  ghost predicate PromotedAndLasts(w: World, steps: seq<Step>, r: Resource, id: RequestId)
    requires ValidRun(w, steps)
    decreases |steps|
  {
    steps != [] &&
    var v := Apply(w, steps[0]);
    || (Promotes(w, steps[0], r, id) && RecordLasts(v, steps[1..], r))
    || PromotedAndLasts(v, steps[1..], r, id)
  }

  /** The request has not been made yet, or its caller still waits. */
  predicate Unanswered(w: World, id: RequestId) {
    id in w.waiters || id !in w.used
  }

  lemma StepUnanswered(w: World, step: Step, id: RequestId)
    requires Enabled(w, step) && Unanswered(Apply(w, step), id)
    ensures Unanswered(w, id)
  {
  }

  lemma {:induction false} RunUnanswered(w: World, steps: seq<Step>, id: RequestId)
    requires ValidRun(w, steps) && Unanswered(After(w, steps), id)
    ensures Unanswered(w, id)
    decreases |steps|
  {
    if steps != [] {
      RunUnanswered(Apply(w, steps[0]), steps[1..], id);
      StepUnanswered(w, steps[0], id);
    }
  }

  /** Only a promotion makes a record for a request that has no answer yet. */
  lemma StepRecord(w: World, step: Step, r: Resource, id: RequestId)
    requires Enabled(w, step) && Unanswered(Apply(w, step), id)
    requires forall x :: x in w.waiters ==> x in w.used
    ensures RecordIs(Apply(w, step), r, id) <==>
            Promotes(w, step, r, id) || (RecordIs(w, r, id) && !EndsTenure(w, step, r) && !Renews(w, step, r))
  {
    LockStep(w, step, r);
    assert RecordIs(Apply(w, step), r, id) <==>
           LockAfter(w, step, r).Some? && LockAfter(w, step, r).value.requestId == id;
    hide Enter, Poll, Release, Sweep, Withdraw;
  }

  lemma {:induction false} RunRecord(w: World, steps: seq<Step>, r: Resource, id: RequestId)
    requires Inv(w) && ValidRun(w, steps) && Unanswered(After(w, steps), id)
    ensures RecordIs(After(w, steps), r, id) <==>
            PromotedAndLasts(w, steps, r, id) || (RecordIs(w, r, id) && RecordLasts(w, steps, r))
    decreases |steps|
  {
    hide Inv, Apply, Unanswered, RecordIs, Promotes, EndsTenure, Renews;
    if steps != [] {
      forall x | x in w.waiters ensures x in w.used {
        WaiterUsed(w, x);
      }
      StepKeepsInv(w, steps[0]);
      RunUnanswered(Apply(w, steps[0]), steps[1..], id);
      StepRecord(w, steps[0], r, id);
      RunRecord(Apply(w, steps[0]), steps[1..], r, id);
    }
  }

  /** In every run, the answer "timeout" to a request leaves a record that carries the request's identity, and so
      is wrong when it is given, if and only if some step has promoted the request and its lock has since neither
      ended nor been renewed. Otherwise the answer is right and stays right: no record ever carries the identity
      later, and it is queued nowhere. */
  lemma {:induction false} TimeoutAnswerExactly(w: World, before: seq<Step>, id: RequestId, after: seq<Step>)
    requires Initial(w) && ValidRun(w, before) && TimesOut(After(w, before), id)
    requires ValidRun(Apply(After(w, before), LookAtClock(id)), after)
    ensures var u := After(w, before); var v := Apply(u, LookAtClock(id)); var z := After(v, after);
            && (Owns(v, id) <==> PromotedAndLasts(w, before, u.waiters[id].resource, id))
            && (Owns(v, id) <==> Owns(u, id))
            && (Owns(u, id) ==> id in Get(u.promoted, u.waiters[id].resource) && id !in v.withdrawn)
            && (!Owns(u, id) ==> !Owns(z, id) && forall r :: !Queued(z, r, id))
  {
    hide Apply;
    var u := After(w, before);
    InitialInv(w);
    RunRecord(w, before, u.waiters[id].resource, id);
    RunKeepsInv(w, before);
    RunKeepsRecords(w, before);
    TimeoutKeepsOwner(u, id);
    if Owns(u, id) {
      OwnerPromoted(u, id);
    } else {
      TimeoutLeavesNothing(u, id);
      FinishedForGood(Apply(u, LookAtClock(id)), after, id);
    }
  }

  lemma TimeoutKeepsOwner(u: World, id: RequestId)
    requires TimesOut(u, id)
    ensures Owns(Apply(u, LookAtClock(id)), id) <==> Owns(u, id)
  {
    assert Apply(u, LookAtClock(id)).table.locks == u.table.locks;
  }

  lemma OwnerPromoted(u: World, id: RequestId)
    requires Inv(u) && RecordsOk(u) && TimesOut(u, id) && Owns(u, id)
    ensures var v := Apply(u, LookAtClock(id)); var r := u.waiters[id].resource;
            RecordIs(u, r, id) && id in Get(u.promoted, r) && id !in v.withdrawn
  {
    var r :| r in u.table.locks && u.table.locks[r].requestId == id;
    assert RecordOk(u, r) && QueueOk(u, r);
    assert id in Get(u.promoted, r) + Ids(Queue(u.table, r));
    KeptMembers(Get(u.arrivals, r), u.withdrawn, id);
    Accounted(u, r, id);
  }

  /** It does happen: b is promoted after its last poll, finds its deadline passed, and answers timeout while it
      holds the lock. */
  lemma TimeoutWhileHolding(now: real) returns (run: seq<Step>)
    ensures var w := World(EMPTY, now, now, map[], {}, map[], map[], {});
            && Initial(w) && ValidRun(w, run)
            && TimesOut(After(w, run), "2") && HeldExclusively(After(w, run), "r", "b")
            && Owns(After(w, run), "2")
  {
    var w := World(EMPTY, now, now, map[], {}, map[], map[], {});
    var v;
    hide After, ValidRun;
    EmptyRun(w);
    run, v := Then(w, [], Acquire("r", Exclusive, "a", "1", 30.0));
    run, v := Then(w, run, Acquire("r", Exclusive, "b", "2", 1.0));
    assert Queue(v.table, "r") == [Request("b", Exclusive, "2")];
    run, v := Then(w, run, LookAtClock("2"));
    run, v := Then(w, run, WakeAndPoll("2"));
    run, v := Then(w, run, Tick(1.0));
    assert Queue(v.table, "r") == [Request("b", Exclusive, "2")];
    run, v := Then(w, run, ReleaseBy("r", "a"));
  }
}
