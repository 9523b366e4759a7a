/**
  Who is answered success, by which record, and how long that record lasts.
*/
module LockGrants {
  import opened Util
  import opened LockManager
  import opened LockRuns
  import opened LockTiming
  import opened LockAnswers
  import opened LockReaders

  // ---- the answer of the entry section ----------------------------------------

  /** A request is answered success at once if and only if its resource is free, or it would share a shared lock, or
      its client holds the resource and wants it exclusively; its client then holds the resource by this very
      request, or is registered as a reader of a lock that stays as it is. Otherwise it goes to the end of the queue,
      and its caller waits until its timeout. */
  lemma AcquireAnswerExactly(w: World, r: Resource, lockType: LockType, client: Client, id: RequestId, timeout: real)
    requires id !in w.used
    ensures var step := Acquire(r, lockType, client, id, timeout);
            var v := Apply(w, step);
            var free, held := r !in w.table.locks, Holds(w, r, client);
            var shares := HeldShared(w, r) && lockType == Shared;
            var success := free || shares || (held && lockType == Exclusive);
            && Granted(w, step) == (if success then Some((r, client)) else None)
            && (success && !shares ==> LockOf(v.table, r) == Some(Lock(r, lockType, client, id, w.now, timeout)))
            && (shares ==> LockOf(v.table, r) == LockOf(w.table, r) && client in Readers(v.table, r))
            && (success ==> v.waiters == w.waiters && forall x :: Queue(v.table, x) == Queue(w.table, x))
            && (!success ==>
                  && LockOf(v.table, r) == LockOf(w.table, r)
                  && Queue(v.table, r) == Queue(w.table, r) + [Request(client, lockType, id)]
                  && v.waiters == w.waiters[id := Waiter(r, lockType, client, timeout, w.now + timeout, false)])
  {
  }

  // ---- the answer of a poll ---------------------------------------------------

  /** What is recorded of a waiting caller's request is what the caller asked for. */
  ghost predicate QueuedAsAsked(w: World, r: Resource) {
    forall i :: 0 <= i < |Queue(w.table, r)| ==>
      var q := Queue(w.table, r)[i];
      q.requestId in w.waiters ==> AskedFor(w, q.requestId, r, q.client, q.lockType)
  }

  ghost predicate AskedFor(w: World, id: RequestId, r: Resource, client: Client, lockType: LockType)
    requires id in w.waiters
  {
    var x := w.waiters[id];
    x.resource == r && x.client == client && x.lockType == lockType
  }

  ghost predicate RecordAsAsked(w: World, r: Resource) {
    r in w.table.locks ==>
      var l := w.table.locks[r];
      l.requestId in w.waiters ==> AskedFor(w, l.requestId, r, l.holder, l.lockType)
  }

  ghost predicate AsAsked(w: World) {
    forall r :: QueuedAsAsked(w, r) && RecordAsAsked(w, r)
  }

  /** What a step leaves waiting asked for the same before, unless it asks just now. */
  lemma StillAsked(w: World, step: Step, id: RequestId)
    requires Inv(w) && Enabled(w, step) && id in Apply(w, step).waiters
    ensures var x := Apply(w, step).waiters[id];
            if id in w.waiters then
              AskedFor(w, id, x.resource, x.client, x.lockType)
            else
              && step.Acquire? && step.id == id && x.resource == step.resource && x.client == step.client
              && x.lockType == step.lockType
              && EntryOf(w.table, step.resource, step.lockType, step.client) == Wait
  {
    if id in w.waiters {
      WaiterUsed(w, id);
    }
    hide Inv, Enter, Withdraw, Poll, Release, Sweep;
  }

  /** A step's queue is a part of the old one, but for a request that arrives. */
  lemma QueueSources(w: World, step: Step, r: Resource, q: Request)
    requires Enabled(w, step) && q in Queue(Apply(w, step).table, r)
    ensures q in Queue(w.table, r)
         || (step.Acquire? && step.resource == r && q == Request(step.client, step.lockType, step.id))
  {
    match step
    case LookAtClock(id) => DropMembers(Queue(w.table, r), id, q);
    case WakeAndPoll(id) => DropMembers(Queue(w.table, r), id, q);
    case _ =>
  }

  lemma {:induction false} DropMembers(s: seq<Request>, id: RequestId, q: Request)
    ensures q in Drop(s, id) ==> q in s
  {
    if s != [] {
      DropMembers(s[1..], id, q);
    }
  }

  lemma StepQueuedAsAsked(w: World, step: Step, r: Resource)
    requires Inv(w) && QueuedAsAsked(w, r) && Enabled(w, step)
    ensures QueuedAsAsked(Apply(w, step), r)
  {
    var v := Apply(w, step);
    hide Apply, Queue;
    forall i | 0 <= i < |Queue(v.table, r)| && Queue(v.table, r)[i].requestId in v.waiters
      ensures var q := Queue(v.table, r)[i]; AskedFor(v, q.requestId, r, q.client, q.lockType)
    {
      var q := Queue(v.table, r)[i];
      QueueSources(w, step, r, q);
      StillAsked(w, step, q.requestId);
      if q.requestId in w.waiters {
        WaiterUsed(w, q.requestId);
      } else if q in Queue(w.table, r) {
        InIds(Queue(w.table, r), q);
        QueuedUsed(w, r, q.requestId);
      }
    }
  }

  lemma {:induction false} InIds(s: seq<Request>, q: Request)
    requires q in s
    ensures q.requestId in Ids(s)
  {
    if s[0] != q {
      InIds(s[1..], q);
    }
  }

  lemma StepRecordAsAsked(w: World, step: Step, r: Resource)
    requires Inv(w) && RecordOk(w, r) && QueuedAsAsked(w, r) && RecordAsAsked(w, r) && Enabled(w, step)
    ensures RecordAsAsked(Apply(w, step), r)
  {
    var v := Apply(w, step);
    LockStep(w, step, r);
    if r in v.table.locks && v.table.locks[r].requestId in v.waiters {
      var l := v.table.locks[r];
      assert LockAfter(w, step, r) == Some(l);
      StillAsked(w, step, l.requestId);
      hide Apply;
      if l.requestId in w.waiters {
        WaiterUsed(w, l.requestId);
      }
      if EndsTenure(w, step, r) {
        InIds(Queue(w.table, r), Queue(w.table, r)[0]);
        QueuedUsed(w, r, l.requestId);
      }
    }
  }

  lemma {:induction false} RunKeepsAsked(w: World, steps: seq<Step>)
    requires Inv(w) && RecordsOk(w) && AsAsked(w) && ValidRun(w, steps)
    ensures AsAsked(After(w, steps))
    decreases |steps|
  {
    hide Inv, Apply, QueuedAsAsked, RecordAsAsked, RecordOk;
    if steps != [] {
      forall r ensures QueuedAsAsked(Apply(w, steps[0]), r) && RecordAsAsked(Apply(w, steps[0]), r) {
        assert RecordOk(w, r);
        StepQueuedAsAsked(w, steps[0], r);
        StepRecordAsAsked(w, steps[0], r);
      }
      StepKeepsInv(w, steps[0]);
      assert RecordsOk(Apply(w, steps[0])) by {
        RunKeepsRecords(w, [steps[0]]);
        OneStep(w, steps[0]);
      }
      RunKeepsAsked(Apply(w, steps[0]), steps[1..]);
    }
  }

  lemma OneStep(w: World, step: Step)
    requires Enabled(w, step)
    ensures ValidRun(w, [step]) && After(w, [step]) == Apply(w, step)
  {
    assert [step][1..] == [];
  }

  /** In every run, a sleeping caller's poll is answered success if and only if its resource is free or its client holds
      it, whatever the types of the lock and of the request; that is, if and only if its client holds the
      resource afterwards. */
  lemma PollAnswerExactly(w: World, id: RequestId)
    requires Enabled(w, WakeAndPoll(id))
    ensures var step := WakeAndPoll(id); var x := w.waiters[id];
            && (Granted(w, step) == None || Granted(w, step) == Some((x.resource, x.client)))
            && (Granted(w, step).Some? <==> x.resource !in w.table.locks || Holds(w, x.resource, x.client))
            && (Granted(w, step).Some? <==> Holds(Apply(w, step), x.resource, x.client))
            && (x.resource in w.table.locks ==> Apply(w, step).table == w.table)
            && (id in Apply(w, step).waiters <==> Granted(w, step) == None)
  {
  }

  /** In every run, a sleeping caller whose request was promoted, while its record lasts, holds its resource in the type
      it asked for, and its poll is answered success. */
  lemma {:induction false} PromotedIsAnswered(w: World, steps: seq<Step>, id: RequestId)
    requires Initial(w) && ValidRun(w, steps) && Enabled(After(w, steps), WakeAndPoll(id))
    requires PromotedAndLasts(w, steps, After(w, steps).waiters[id].resource, id)
    ensures var u := After(w, steps); var x := u.waiters[id];
            && Holds(u, x.resource, x.client) && u.table.locks[x.resource].lockType == x.lockType
            && Granted(u, WakeAndPoll(id)) == Some((x.resource, x.client))
  {
    var u := After(w, steps);
    var r := u.waiters[id].resource;
    InitialInv(w);
    RunRecord(w, steps, r, id);
    RunKeepsAsked(w, steps);
    assert RecordAsAsked(u, r);
    PollAnswerExactly(u, id);
  }

  // ---- releasing ---------------------------------------------------------------

  /** Only the client that holds a resource releases it, with all its readers, and then the head of the queue has it,
      or nobody; a release by any other client changes nothing. */
  lemma ReleasedExactly(w: World, r: Resource, client: Client)
    ensures var v := Apply(w, ReleaseBy(r, client));
            && (!Holds(w, r, client) ==> v == w)
            && (Holds(w, r, client) ==> Readers(v.table, r) == {})
            && (Holds(w, r, client) && Queue(w.table, r) == [] ==> r !in v.table.locks)
            && (Holds(w, r, client) && Queue(w.table, r) != [] ==>
                  && Holds(v, r, Queue(w.table, r)[0].client) && RecordIs(v, r, Queue(w.table, r)[0].requestId)
                  && v.table.locks[r].lockType == Queue(w.table, r)[0].lockType
                  && Queue(v.table, r) == Queue(w.table, r)[1..])
            && (forall x :: x != r ==>
                  LockOf(v.table, x) == LockOf(w.table, x) && Queue(v.table, x) == Queue(w.table, x))
  {
  }

  // ---- how long a record lasts ------------------------------------------------

  /** The step makes a record for `r` that lives for `life`: the timeout of the caller that takes or renews it, or 30
      seconds for a request that is promoted. */
  predicate Makes(w: World, step: Step, r: Resource, life: real)
    requires Enabled(w, step)
  {
    match step
    case Acquire(x, lockType, client, _, timeout) =>
      && x == r && life == timeout
      && (r !in w.table.locks || (w.table.locks[r].holder == client && lockType == Exclusive))
    case WakeAndPoll(id) => w.waiters[id].resource == r && r !in w.table.locks && life == w.waiters[id].timeout
    case ReleaseBy(x, client) =>
      x == r && r in w.table.locks && w.table.locks[r].holder == client && Queue(w.table, r) != [] && life == 30.0
    case SweepNow => EndsTenure(w, step, r) && Queue(w.table, r) != [] && life == 30.0
    case Tick(_) => false
    case LookAtClock(_) => false
  }

  lemma {:induction false} RecordKept(w: World, steps: seq<Step>, r: Resource)
    requires ValidRun(w, steps) && RecordLasts(w, steps, r) && r in w.table.locks
    ensures LockOf(After(w, steps).table, r) == LockOf(w.table, r)
    decreases |steps|
  {
    hide Apply, EndsTenure, Renews;
    if steps != [] {
      UntouchedRecord(w, steps[0], r);
      RecordKept(Apply(w, steps[0]), steps[1..], r);
    }
  }

  lemma UntouchedRecord(w: World, step: Step, r: Resource)
    requires Enabled(w, step) && !EndsTenure(w, step, r) && !Renews(w, step, r) && r in w.table.locks
    ensures LockOf(Apply(w, step).table, r) == LockOf(w.table, r)
  {
    LockStep(w, step, r);
    hide Apply;
  }

  /** Whatever happens in between, as long as it neither releases nor renews the record: a sweep takes the record
      away if and only if more than its life has passed since the step that made it. Then the head of the queue has
      the resource, or nobody. */
  lemma {:induction false} SweptExactly(w: World, step: Step, r: Resource, life: real, steps: seq<Step>)
    requires Enabled(w, step) && Makes(w, step, r, life)
    requires ValidRun(Apply(w, step), steps) && RecordLasts(Apply(w, step), steps, r)
    ensures var u := After(Apply(w, step), steps); var v := Apply(u, SweepNow);
            && (u.now - w.now <= life ==> LockOf(v.table, r) == LockOf(u.table, r) == LockOf(Apply(w, step).table, r))
            && (u.now - w.now > life && Queue(u.table, r) == [] ==> LockOf(v.table, r) == None)
            && (u.now - w.now > life && Queue(u.table, r) != [] ==>
                  && LockOf(v.table, r).Some?
                  && LockOf(v.table, r).value.requestId == Queue(u.table, r)[0].requestId
                  && LockOf(v.table, r).value.holder == Queue(u.table, r)[0].client
                  && LockOf(v.table, r).value.lockType == Queue(u.table, r)[0].lockType
                  && Queue(v.table, r) == Queue(u.table, r)[1..])
  {
    var a := Apply(w, step);
    var u := After(a, steps);
    LockStep(w, step, r);
    assert LockOf(a.table, r).Some?;
    assert LockOf(a.table, r).value.createdAt == w.now && LockOf(a.table, r).value.ttl == life;
    RecordKept(a, steps, r);
    LockStep(u, SweepNow, r);
    hide Apply, After, ValidRun, RecordLasts, Makes;
    SweptQueue(u, r);
  }

  lemma SweptQueue(u: World, r: Resource)
    ensures r in ExpiredLocks(u.table, u.now) && Queue(u.table, r) != [] ==>
              Queue(Apply(u, SweepNow).table, r) == Queue(u.table, r)[1..]
  {
  }
}
