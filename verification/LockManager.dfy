/**
  The lock manager of one node: its three tables, and what each critical section
  does to them.

  `acquire_lock` is three critical sections with waiting in between: entry,
  one poll, and the withdrawal on timeout. Each reads the clock once.
*/
module LockManager {
  import opened Util

  type Client = string
  type Resource = string
  type RequestId = string

  datatype LockType = Shared | Exclusive

  datatype Lock = Lock(
    resource: Resource, lockType: LockType, holder: Client, requestId: RequestId, createdAt: real, ttl: real)

  datatype Request = Request(client: Client, lockType: LockType, requestId: RequestId)

  datatype Table = Table(
    locks: map<Resource, Lock>, shared: map<Resource, set<Client>>, waiting: map<Resource, seq<Request>>)

  datatype Error = LockNotFound | NotHolder

  /** The answers of `acquire_lock`, and those of `release_lock`. */
  datatype Reply =
    | Acquired(requestId: RequestId, resource: Resource)
    | TimedOut(requestId: RequestId)
    | Released(resource: Resource)
    | Refused(error: Error)

  const EMPTY := Table(map[], map[], map[])

  /** The lifetime of a lock that passes to a waiting request. */
  const PROMOTED_TTL: real := 30.0

  function Queue(t: Table, r: Resource): seq<Request> {
    if r in t.waiting then t.waiting[r] else []
  }

  function Readers(t: Table, r: Resource): set<Client> {
    if r in t.shared then t.shared[r] else {}
  }

  /** The requests of `q` other than `id`, in their order. */
  function Drop(q: seq<Request>, id: RequestId): seq<Request> {
    if q == [] then []
    else if q[0].requestId == id then Drop(q[1..], id)
    else [q[0]] + Drop(q[1..], id)
  }

  lemma {:induction false} DropConcat(p: seq<Request>, q: seq<Request>, id: RequestId)
    ensures Drop(p + q, id) == Drop(p, id) + Drop(q, id)
  {
    if p == [] {
      assert p + q == q;
    } else {
      assert (p + q)[1..] == p[1..] + q;
      DropConcat(p[1..], q, id);
    }
  }

  // ---- what the critical sections do ----------------------------------------

  /** The branches of the entry section. */
  datatype Entry = Take | Join | Upgrade | Wait

  function EntryOf(t: Table, r: Resource, lockType: LockType, client: Client): Entry {
    if r !in t.locks then Take
    else if lockType == Shared && t.locks[r].lockType == Shared then Join
    else if t.locks[r].holder == client && lockType == Exclusive then Upgrade
    else Wait
  }

  function Enter(t: Table, r: Resource, lockType: LockType, client: Client, id: RequestId, now: real, timeout: real)
    : Table
  {
    match EntryOf(t, r, lockType, client)
    case Take | Upgrade => t.(locks := t.locks[r := Lock(r, lockType, client, id, now, timeout)])
    case Join => t.(shared := t.shared[r := Readers(t, r) + {client}])
    case Wait => t.(waiting := t.waiting[r := Queue(t, r) + [Request(client, lockType, id)]])
  }

  function Withdraw(t: Table, r: Resource, id: RequestId): Table {
    if r in t.waiting then t.(waiting := t.waiting[r := Drop(t.waiting[r], id)]) else t
  }

  function Poll(t: Table, r: Resource, lockType: LockType, client: Client, id: RequestId, now: real, timeout: real)
    : Table
  {
    if r !in t.locks then
      Withdraw(t, r, id).(locks := t.locks[r := Lock(r, lockType, client, id, now, timeout)])
    else t
  }

  predicate PollSucceeds(t: Table, r: Resource, client: Client) {
    r !in t.locks || t.locks[r].holder == client
  }

  /** `_process_waiting`: the head of the queue becomes the holder. */
  function Promote(t: Table, r: Resource, now: real): Table {
    var q := Queue(t, r);
    if q == [] then t
    else t.(locks := t.locks[r := Lock(r, q[0].lockType, q[0].client, q[0].requestId, now, PROMOTED_TTL)],
            waiting := t.waiting[r := q[1..]])
  }

  predicate Releases(t: Table, r: Resource, client: Client) {
    r in t.locks && t.locks[r].holder == client
  }

  function Release(t: Table, r: Resource, client: Client, now: real): Table {
    if Releases(t, r, client) then
      Promote(t.(locks := t.locks - {r}, shared := t.shared - {r}), r, now)
    else t
  }

  predicate Expired(l: Lock, now: real) {
    now - l.createdAt > l.ttl
  }

  function ExpiredLocks(t: Table, now: real): set<Resource> {
    set r | r in t.locks && Expired(t.locks[r], now)
  }

  /** Each lock of `rs` passes to the head of its queue, or goes away; all at once. */
  function PassOn(t: Table, rs: set<Resource>, now: real): Table {
    t.(locks := map r | r in t.locks && (r !in rs || Queue(t, r) != []) ::
                  if r !in rs then t.locks[r]
                  else var h := Queue(t, r)[0]; Lock(r, h.lockType, h.client, h.requestId, now, PROMOTED_TTL),
       waiting := map r | r in t.waiting ::
                  if r in rs && t.waiting[r] != [] then t.waiting[r][1..] else t.waiting[r])
  }

  function Sweep(t: Table, now: real): Table {
    PassOn(t, ExpiredLocks(t, now), now)
  }

  function PassOnOne(t: Table, r: Resource, now: real): Table {
    Promote(t.(locks := t.locks - {r}), r, now)
  }

  lemma PassOnNextWaiting(t: Table, rs: set<Resource>, r: Resource, now: real)
    requires r in t.locks && r !in rs
    ensures PassOnOne(PassOn(t, rs, now), r, now).waiting == PassOn(t, rs + {r}, now).waiting
    ensures Queue(PassOn(t, rs, now), r) == Queue(t, r)
  {
  }

  lemma PassOnNextLocks(t: Table, rs: set<Resource>, r: Resource, now: real)
    requires r in t.locks && r !in rs
    requires Queue(PassOn(t, rs, now), r) == Queue(t, r)
    ensures PassOnOne(PassOn(t, rs, now), r, now).locks == PassOn(t, rs + {r}, now).locks
  {
    var u := PassOn(t, rs, now).locks;
    var v := PassOnOne(PassOn(t, rs, now), r, now).locks;
    var w := PassOn(t, rs + {r}, now).locks;
    forall x ensures (x in v <==> x in w) && (x in w ==> v[x] == w[x]) {
      assert x != r ==> (x in v <==> x in u) && (x in w <==> x in u) && (x in u ==> u[x] == v[x] == w[x]);
    }
  }

  /** One round of the sweep's loop. */
  lemma PassOnNext(t: Table, rs: set<Resource>, r: Resource, now: real)
    requires r in t.locks && r !in rs
    ensures PassOnOne(PassOn(t, rs, now), r, now) == PassOn(t, rs + {r}, now)
  {
    PassOnNextWaiting(t, rs, r, now);
    PassOnNextLocks(t, rs, r, now);
  }

  // ---- the manager as the program has it ------------------------------------

  class DistributedLockManager {
    var locks: map<Resource, Lock>
    var sharedLocks: map<Resource, set<Client>>
    var waitingQueue: map<Resource, seq<Request>>

    function View(): Table
      reads this
    {
      Table(locks, sharedLocks, waitingQueue)
    }

    constructor ()
      ensures View() == EMPTY
    {
      locks, sharedLocks, waitingQueue := map[], map[], map[];
    }

    /** The first critical section of `acquire_lock`; `None` means the request waits. */
    method AcquireEntry(r: Resource, lockType: LockType, client: Client, id: RequestId, now: real, timeout: real)
      returns (reply: Option<Reply>)
      modifies this
      ensures View() == Enter(old(View()), r, lockType, client, id, now, timeout)
      ensures reply == if EntryOf(old(View()), r, lockType, client) == Wait then None else Some(Acquired(id, r))
    {
      if r !in locks {
        locks := locks[r := Lock(r, lockType, client, id, now, timeout)];
        return Some(Acquired(id, r));
      }
      var existing := locks[r];
      if lockType == Shared && existing.lockType == Shared {
        if r !in sharedLocks {
          sharedLocks := sharedLocks[r := {}];
        }
        sharedLocks := sharedLocks[r := sharedLocks[r] + {client}];
        return Some(Acquired(id, r));
      }
      if existing.holder == client && lockType == Exclusive {
        locks := locks[r := Lock(r, lockType, client, id, now, timeout)];
        return Some(Acquired(id, r));
      }
      if r !in waitingQueue {
        waitingQueue := waitingQueue[r := []];
      }
      waitingQueue := waitingQueue[r := waitingQueue[r] + [Request(client, lockType, id)]];
      return None;
    }

    /** One round of the wait loop of `acquire_lock`; `None` means it goes on waiting. */
    method AcquirePoll(r: Resource, lockType: LockType, client: Client, id: RequestId, now: real, timeout: real)
      returns (reply: Option<Reply>)
      modifies this
      ensures View() == Poll(old(View()), r, lockType, client, id, now, timeout)
      ensures reply == if PollSucceeds(old(View()), r, client) then Some(Acquired(id, r)) else None
    {
      if r !in locks {
        locks := locks[r := Lock(r, lockType, client, id, now, timeout)];
        RemoveRequest(r, id);
        return Some(Acquired(id, r));
      }
      return if locks[r].holder == client then Some(Acquired(id, r)) else None;
    }

    /** The last critical section of `acquire_lock`. */
    method AcquireTimeout(r: Resource, id: RequestId) returns (reply: Reply)
      modifies this
      ensures View() == Withdraw(old(View()), r, id)
      ensures reply == TimedOut(id)
    {
      RemoveRequest(r, id);
      return TimedOut(id);
    }

    method RemoveRequest(r: Resource, id: RequestId)
      modifies this`waitingQueue
      ensures View() == Withdraw(old(View()), r, id)
    {
      if r in waitingQueue {
        var q := waitingQueue[r];
        var kept := [];
        for i := 0 to |q|
          invariant View() == old(View())
          invariant kept == Drop(q[..i], id)
        {
          assert q[..i + 1] == q[..i] + [q[i]];
          DropConcat(q[..i], [q[i]], id);
          if q[i].requestId != id {
            kept := kept + [q[i]];
          }
        }
        assert q[..|q|] == q;
        waitingQueue := waitingQueue[r := kept];
      }
    }

    method ReleaseLock(r: Resource, client: Client, now: real) returns (reply: Reply)
      modifies this
      ensures View() == Release(old(View()), r, client, now)
      ensures reply == if r !in old(locks) then Refused(LockNotFound)
                       else if old(locks[r].holder) != client then Refused(NotHolder)
                       else Released(r)
    {
      if r !in locks {
        return Refused(LockNotFound);
      }
      if locks[r].holder != client {
        return Refused(NotHolder);
      }
      locks := locks - {r};
      sharedLocks := sharedLocks - {r};
      ProcessWaiting(r, now);
      return Released(r);
    }

    method ProcessWaiting(r: Resource, now: real)
      modifies this
      ensures View() == Promote(old(View()), r, now)
    {
      if r in waitingQueue && waitingQueue[r] != [] {
        var request := waitingQueue[r][0];
        waitingQueue := waitingQueue[r := waitingQueue[r][1..]];
        locks := locks[r := Lock(r, request.lockType, request.client, request.requestId, now, PROMOTED_TTL)];
      }
    }

    /** One round of `_lock_expiry_checker`: expired locks are deleted one after the other. */
    method SweepExpired(now: real)
      modifies this
      ensures View() == Sweep(old(View()), now)
    {
      ghost var was := View();
      var expired := set r | r in locks && Expired(locks[r], now);
      ghost var done: set<Resource> := {};
      assert View() == PassOn(was, {}, now);
      while expired != {}
        invariant done + expired == ExpiredLocks(was, now) && done !! expired
        invariant View() == PassOn(was, done, now)
        decreases expired
      {
        var r :| r in expired;
        locks := locks - {r};
        ProcessWaiting(r, now);
        PassOnNext(was, done, r, now);
        expired := expired - {r};
        done := done + {r};
      }
    }
  }
}
