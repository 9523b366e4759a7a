/**
  What the queue guarantees over every run of enqueues, deliveries,
  acknowledgements and timeouts, however the timeouts race with the rest.
*/
module QueueRuns {
  import opened Util
  import opened MessageQueue

  /** The other fields are history: identities handed out, the messages enqueued to a partition, those
      it delivered for the first time, the deliveries that ended by acknowledgement, and the messages
      for which some acknowledgement was answered with success. */
  datatype World = World(
    s: State, used: set<MsgId>, enqueued: map<Partition, seq<Message>>,
    first: map<Partition, seq<Message>>, resolved: set<MsgId>, acknowledged: set<MsgId>)

  datatype Step =
    | Put(partition: Partition, message: Message)
    | Take(partition: Partition)
    | Ack(id: MsgId)
    | SeeAck(token: Token)
    | Strike(token: Token)
    | PutBack(token: Token)

  function Get(m: map<Partition, seq<Message>>, p: Partition): seq<Message> {
    if p in m then m[p] else []
  }

  ghost predicate Initial(w: World) {
    && (forall p :: p in w.s.queues ==> w.s.queues[p] == [])
    && w.s.pending == map[] && w.s.waiters == map[] && w.used == {} && w.enqueued == map[] && w.first == map[]
    && w.resolved == {} && w.acknowledged == {}
  }

  predicate Enabled(w: World, step: Step) {
    match step
    case Put(_, m) => m.id !in w.used
    case Take(_) => true
    case Ack(_) => true
    case SeeAck(t) => t in w.s.waiters && w.s.waiters[t].acked && !w.s.waiters[t].timedOut
    case Strike(t) => t in w.s.waiters && !w.s.waiters[t].timedOut
    case PutBack(t) => t in w.s.waiters && w.s.waiters[t].timedOut
  }

  function Apply(w: World, step: Step): World
    requires Enabled(w, step)
  {
    match step
    case Put(p, m) => ApplyPut(w, p, m)
    case Take(p) => ApplyTake(w, p)
    case Ack(id) =>
      w.(s := Acknowledge(w.s, id),
         acknowledged := if id in w.s.pending then w.acknowledged + {id} else w.acknowledged)
    case SeeAck(t) => w.(s := Resume(w.s, t), resolved := w.resolved + {w.s.waiters[t].message.id})
    case Strike(t) => w.(s := TimeOut(w.s, t))
    case PutBack(t) => w.(s := Requeue(w.s, t))
  }

  function ApplyPut(w: World, p: Partition, m: Message): World {
    if p in w.s.queues then
      w.(s := Enqueue(w.s, p, m), used := w.used + {m.id},
         enqueued := w.enqueued[p := Get(w.enqueued, p) + [m]])
    else w
  }

  function ApplyTake(w: World, p: Partition): World {
    var q, f := Queue(w.s, p), Get(w.first, p);
    w.(s := Dequeue(w.s, p),
       first := if q != [] && q[0] !in f then w.first[p := f + [q[0]]] else w.first)
  }

  ghost predicate ValidRun(w: World, steps: seq<Step>)
    decreases |steps|
  {
    steps == [] || (Enabled(w, steps[0]) && ValidRun(Apply(w, steps[0]), steps[1..]))
  }

  ghost function After(w: World, steps: seq<Step>): World
    requires ValidRun(w, steps)
    decreases |steps|
  {
    if steps == [] then w else After(Apply(w, steps[0]), steps[1..])
  }

  // ---- the invariant --------------------------------------------------------

  /** `q` is what was put back, then what was never delivered. */
  ghost predicate Shape(q: seq<Message>, e: seq<Message>, f: seq<Message>) {
    && f <= e
    && |q| >= |e| - |f|
    && q[|q| - (|e| - |f|)..] == e[|f|..]
    && (forall i :: 0 <= i < |q| - (|e| - |f|) ==> q[i] in f)
    && Distinct(q) && Distinct(e)
  }

  ghost predicate PartitionOk(w: World, p: Partition) {
    && Shape(Queue(w.s, p), Get(w.enqueued, p), Get(w.first, p))
    && (p !in w.s.queues ==> Get(w.enqueued, p) == [])
    && (forall m :: m in Get(w.enqueued, p) ==> m.id in w.used)
  }

  /** An identity belongs to one message of one partition. */
  ghost predicate IdsOk(w: World) {
    forall p, x, m, n :: m in Get(w.enqueued, p) && n in Get(w.enqueued, x) && m.id == n.id ==> p == x && m == n
  }

  ghost predicate Awaited(w: World, id: MsgId) {
    exists t :: t in w.s.waiters && w.s.waiters[t].message.id == id
  }

  ghost predicate AtMostOneWaiter(w: World, id: MsgId) {
    forall t, u :: t in w.s.waiters && u in w.s.waiters && w.s.waiters[t].message.id == id == w.s.waiters[u].message.id
      ==> t == u
  }

  ghost predicate WaiterOk(w: World, t: Token)
    requires t in w.s.waiters
  {
    var x := w.s.waiters[t];
    && t < w.s.nextToken
    && x.message in Get(w.first, x.partition)
    && x.message !in Queue(w.s, x.partition)
    && x.message.id !in w.resolved
    && (!x.acked ==> x.message.id in w.s.pending && w.s.pending[x.message.id] == t)
    && (x.acked ==> x.message.id !in w.s.pending && x.message.id in w.acknowledged)
    && (forall u :: u in w.s.waiters && w.s.waiters[u].message.id == x.message.id ==> u == t)
  }

  /** Each delivered message is queued again, awaited or resolved; a resolved one is only that. */
  ghost predicate DeliveredOk(w: World, p: Partition, m: Message) {
    && (m in Queue(w.s, p) || Awaited(w, m.id) || m.id in w.resolved)
    && (m.id in w.resolved ==> m !in Queue(w.s, p) && m.id !in w.s.pending && m.id in w.acknowledged)
  }

  ghost predicate PendingOk(w: World, id: MsgId)
    requires id in w.s.pending
  {
    var t := w.s.pending[id];
    && t < w.s.nextToken
    && (t in w.s.waiters ==> w.s.waiters[t].message.id == id)
    && WasDelivered(w, id)
  }

  ghost predicate WasDelivered(w: World, id: MsgId) {
    exists p, m :: m in Get(w.first, p) && m.id == id
  }

  ghost predicate PartitionsOk(w: World) {
    forall p :: PartitionOk(w, p)
  }

  ghost predicate WaitersOk(w: World) {
    forall t :: t in w.s.waiters ==> WaiterOk(w, t)
  }

  ghost predicate DeliveriesOk(w: World) {
    forall p, m :: m in Get(w.first, p) ==> DeliveredOk(w, p, m)
  }

  ghost predicate PendingsOk(w: World) {
    && (forall id :: id in w.s.pending ==> PendingOk(w, id))
    && (forall id :: id in w.resolved ==> WasDelivered(w, id))
  }

  ghost predicate Inv(w: World) {
    PartitionsOk(w) && IdsOk(w) && WaitersOk(w) && DeliveriesOk(w) && PendingsOk(w)
  }

  lemma InitialInv(w: World)
    requires Initial(w)
    ensures Inv(w)
  {
  }

  lemma FirstWasEnqueued(w: World, p: Partition, m: Message)
    requires PartitionOk(w, p) && m in Get(w.first, p)
    ensures m in Get(w.enqueued, p)
  {
  }

  /** A queued message with this identity is this very message of this partition. */
  lemma SameMessage(w: World, p: Partition, m: Message, x: Partition, n: Message)
    requires PartitionsOk(w) && IdsOk(w) && m.id == n.id
    requires m in Get(w.first, p) || m in Queue(w.s, p)
    requires n in Get(w.first, x) || n in Queue(w.s, x)
    ensures p == x && m == n
  {
    QueuedWasEnqueued(w, p, m);
    QueuedWasEnqueued(w, x, n);
  }

  lemma QueuedWasEnqueued(w: World, p: Partition, m: Message)
    requires PartitionsOk(w) && (m in Get(w.first, p) || m in Queue(w.s, p))
    ensures m in Get(w.enqueued, p)
  {
    assert PartitionOk(w, p);
    var q, e, f := Queue(w.s, p), Get(w.enqueued, p), Get(w.first, p);
    if m in q {
      var i :| 0 <= i < |q| && q[i] == m;
      var r := |q| - (|e| - |f|);
      if i < r {
        assert q[i] in f;
      } else {
        assert q[r..][i - r] == e[|f|..][i - r];
      }
    }
  }

  // ---- a message is enqueued ----

  lemma ShapePut(q: seq<Message>, e: seq<Message>, f: seq<Message>, m: Message)
    requires Shape(q, e, f) && m !in e && m !in q
    ensures Shape(q + [m], e + [m], f)
  {
    DistinctAppend(q, m);
    DistinctAppend(e, m);
    var r := |q| - (|e| - |f|);
    assert (q + [m])[r..] == q[r..] + [m] == e[|f|..] + [m] == (e + [m])[|f|..];
  }

  lemma PutPartition(w: World, p: Partition, m: Message, x: Partition)
    requires PartitionsOk(w) && m.id !in w.used
    ensures PartitionOk(ApplyPut(w, p, m), x)
  {
    assert PartitionOk(w, x);
    if x == p && p in w.s.queues {
      assert m !in Get(w.enqueued, p);
      if m in Queue(w.s, p) {
        QueuedWasEnqueued(w, p, m);
      }
      ShapePut(Queue(w.s, p), Get(w.enqueued, p), Get(w.first, p), m);
    }
  }

  lemma PutIds(w: World, p: Partition, m: Message)
    requires PartitionsOk(w) && IdsOk(w) && m.id !in w.used
    ensures IdsOk(ApplyPut(w, p, m))
  {
    var v := ApplyPut(w, p, m);
    forall x, n | n in Get(v.enqueued, x) ensures n in Get(w.enqueued, x) || (x == p && n == m) {
    }
    forall x, n | n in Get(w.enqueued, x) ensures n.id != m.id {
      assert PartitionOk(w, x);
    }
  }

  lemma PutKeepsInv(w: World, p: Partition, m: Message)
    requires Inv(w) && m.id !in w.used
    ensures Inv(ApplyPut(w, p, m))
  {
    hide PartitionOk, IdsOk;
    var v := ApplyPut(w, p, m);
    forall x ensures PartitionOk(v, x) {
      PutPartition(w, p, m, x);
    }
    PutIds(w, p, m);
    forall x, n | n in Get(w.first, x) ensures n != m {
      DeliveredWasUsed(w, x, n);
    }
    forall t | t in v.s.waiters ensures WaiterOk(v, t) {
      assert WaiterOk(w, t);
    }
    forall x, n | n in Get(v.first, x) ensures DeliveredOk(v, x, n) {
      assert DeliveredOk(w, x, n);
    }
    forall id | id in v.s.pending ensures PendingOk(v, id) {
      assert PendingOk(w, id);
    }
  }

  lemma DeliveredWasUsed(w: World, p: Partition, m: Message)
    requires PartitionsOk(w) && m in Get(w.first, p)
    ensures m.id in w.used
  {
    assert PartitionOk(w, p);
  }

  // ---- a message is delivered ----

  lemma ShapeTake(q: seq<Message>, e: seq<Message>, f: seq<Message>)
    requires Shape(q, e, f) && q != []
    ensures q[0] !in q[1..]
    ensures q[0] in f ==> Shape(q[1..], e, f)
    ensures q[0] !in f ==> Shape(q[1..], e, f + [q[0]]) && e[|f|] == q[0] && |f| < |e|
  {
    var r := |q| - (|e| - |f|);
    if r == 0 {
      assert q[r..][0] == e[|f|..][0];
      assert q[0] == e[|f|] && q[0] !in f;
      assert q[1..] == q[r..][1..] == e[|f|..][1..] == e[|f| + 1..];
      assert f + [q[0]] == e[..|f| + 1];
    } else {
      assert q[1..][r - 1..] == q[r..];
      forall i | 0 <= i < r - 1 ensures q[1..][i] in f {
        assert q[1..][i] == q[i + 1];
      }
    }
  }

  lemma TakePartition(w: World, p: Partition, x: Partition)
    requires PartitionOk(w, x)
    ensures PartitionOk(ApplyTake(w, p), x)
  {
    if x == p && Queue(w.s, p) != [] {
      ShapeTake(Queue(w.s, p), Get(w.enqueued, p), Get(w.first, p));
    }
  }

  lemma HeadNotResolved(w: World, p: Partition)
    requires PartitionsOk(w) && IdsOk(w) && DeliveriesOk(w) && PendingsOk(w) && Queue(w.s, p) != []
    ensures Queue(w.s, p)[0].id !in w.resolved
  {
    var m := Queue(w.s, p)[0];
    hide PartitionsOk, IdsOk;
    forall x, n | n in Get(w.first, x) && n.id == m.id ensures m.id !in w.resolved {
      assert DeliveredOk(w, x, n);
      SameMessage(w, p, m, x, n);
    }
    assert m.id in w.resolved ==> WasDelivered(w, m.id);
  }

  lemma HeadNotAwaited(w: World, p: Partition, t: Token)
    requires PartitionsOk(w) && IdsOk(w) && Queue(w.s, p) != []
    requires t in w.s.waiters && WaiterOk(w, t)
    ensures w.s.waiters[t].message.id != Queue(w.s, p)[0].id
  {
    hide PartitionsOk, IdsOk;
    if w.s.waiters[t].message.id == Queue(w.s, p)[0].id {
      SameMessage(w, p, Queue(w.s, p)[0], w.s.waiters[t].partition, w.s.waiters[t].message);
    }
  }

  lemma HeadNotTwice(w: World, p: Partition)
    requires PartitionsOk(w) && Queue(w.s, p) != []
    ensures Queue(w.s, p)[0] !in Queue(w.s, p)[1..]
  {
    assert PartitionOk(w, p);
  }

  /** The head of a partition is not awaited, not resolved, and not twice in it. */
  lemma TakeFresh(w: World, p: Partition)
    requires Inv(w) && Queue(w.s, p) != []
    ensures var m := Queue(w.s, p)[0];
            && m.id !in w.resolved
            && (forall t :: t in w.s.waiters ==> w.s.waiters[t].message.id != m.id)
            && m !in Queue(w.s, p)[1..]
  {
    hide PartitionsOk, IdsOk, DeliveriesOk, PendingsOk, WaiterOk;
    HeadNotTwice(w, p);
    HeadNotResolved(w, p);
    forall t | t in w.s.waiters ensures w.s.waiters[t].message.id != Queue(w.s, p)[0].id {
      HeadNotAwaited(w, p, t);
    }
  }

  lemma TakeOldWaiter(w: World, p: Partition, t: Token)
    requires Queue(w.s, p) != [] && t in w.s.waiters && WaiterOk(w, t)
    requires w.s.waiters[t].message.id != Queue(w.s, p)[0].id
    ensures WaiterOk(ApplyTake(w, p), t)
  {
    var v, x := ApplyTake(w, p), w.s.waiters[t];
    assert v.s.waiters[t] == x;
    assert x.message in Get(v.first, x.partition);
    assert x.message !in Queue(v.s, x.partition);
  }

  lemma TakeNewWaiter(w: World, p: Partition)
    requires Queue(w.s, p) != []
    requires var m := Queue(w.s, p)[0];
             && m.id !in w.resolved
             && (forall t :: t in w.s.waiters ==> w.s.waiters[t].message.id != m.id)
             && m !in Queue(w.s, p)[1..]
    ensures WaiterOk(ApplyTake(w, p), w.s.nextToken)
  {
    var v := ApplyTake(w, p);
    assert Queue(w.s, p)[0] in Get(v.first, p);
    assert Queue(v.s, p) == Queue(w.s, p)[1..];
  }

  lemma TakeWaiter(w: World, p: Partition, t: Token)
    requires Inv(w) && Queue(w.s, p) != [] && t in ApplyTake(w, p).s.waiters
    ensures WaiterOk(ApplyTake(w, p), t)
  {
    TakeFresh(w, p);
    hide PartitionsOk, IdsOk, DeliveriesOk, PendingsOk;
    if t in w.s.waiters {
      TakeOldWaiter(w, p, t);
    } else {
      TakeNewWaiter(w, p);
    }
  }

  /** What holds of a delivered message stays so when another message is taken. */
  lemma TakeOtherDelivered(w: World, p: Partition, x: Partition, n: Message)
    requires Queue(w.s, p) != [] && DeliveredOk(w, x, n)
    requires n.id != Queue(w.s, p)[0].id
    requires forall t :: t in w.s.waiters ==> t < w.s.nextToken
    ensures DeliveredOk(ApplyTake(w, p), x, n)
  {
    var v := ApplyTake(w, p);
    if Awaited(w, n.id) {
      AwaitedKept(w, v, n.id);
    }
    if n in Queue(w.s, x) {
      assert n in Queue(v.s, x);
    }
  }

  lemma TakeHeadDelivered(w: World, p: Partition)
    requires Inv(w) && Queue(w.s, p) != []
    ensures DeliveredOk(ApplyTake(w, p), p, Queue(w.s, p)[0])
  {
    TakeFresh(w, p);
    hide PartitionsOk, IdsOk, DeliveriesOk, PendingsOk, WaitersOk;
    var v, m := ApplyTake(w, p), Queue(w.s, p)[0];
    assert v.s.waiters[w.s.nextToken].message == m;
    assert Awaited(v, m.id);
  }

  lemma TakeDelivered(w: World, p: Partition, x: Partition, n: Message)
    requires Inv(w) && Queue(w.s, p) != [] && n in Get(ApplyTake(w, p).first, x)
    ensures DeliveredOk(ApplyTake(w, p), x, n)
  {
    var m := Queue(w.s, p)[0];
    forall t | t in w.s.waiters ensures t < w.s.nextToken {
      assert WaiterOk(w, t);
    }
    assert n in Get(w.first, x) ==> DeliveredOk(w, x, n);
    hide PartitionsOk, IdsOk, DeliveriesOk, PendingsOk, WaitersOk, DeliveredOk;
    if n.id != m.id {
      TakeOtherDelivered(w, p, x, n);
    } else {
      if n in Get(w.first, x) {
        SameMessage(w, p, m, x, n);
      }
      TakeHeadDelivered(w, p);
    }
  }

  lemma TakePending(w: World, p: Partition)
    requires Inv(w) && Queue(w.s, p) != []
    ensures PendingsOk(ApplyTake(w, p))
  {
    var v := ApplyTake(w, p);
    var m := Queue(w.s, p)[0];
    assert m in Get(v.first, p);
    forall id | WasDelivered(w, id) ensures WasDelivered(v, id) {
      var x, n :| n in Get(w.first, x) && n.id == id;
      assert n in Get(v.first, x);
    }
    forall id | id in v.s.pending ensures PendingOk(v, id) {
      if id != m.id {
        assert PendingOk(w, id);
        var x, n :| n in Get(w.first, x) && n.id == id;
        assert n in Get(v.first, x);
      }
    }
  }

  lemma TakeKeepsInv(w: World, p: Partition)
    requires Inv(w)
    ensures Inv(ApplyTake(w, p))
  {
    var v := ApplyTake(w, p);
    if Queue(w.s, p) != [] {
      hide PartitionOk, WaiterOk, DeliveredOk, PendingsOk, IdsOk;
      forall x ensures PartitionOk(v, x) {
        TakePartition(w, p, x);
      }
      forall t | t in v.s.waiters ensures WaiterOk(v, t) {
        TakeWaiter(w, p, t);
      }
      forall x, n | n in Get(v.first, x) ensures DeliveredOk(v, x, n) {
        TakeDelivered(w, p, x, n);
      }
      TakePending(w, p);
      assert IdsOk(v) by { SameIds(w, v); }
    } else {
      assert v == w;
    }
  }

  lemma SameIds(w: World, v: World)
    requires IdsOk(w) && v.enqueued == w.enqueued
    ensures IdsOk(v)
  {
  }

  // ---- an acknowledgement, and the end of a wait ----

  /** Steps that change neither partitions nor first deliveries. */
  lemma PartitionsSame(w: World, v: World)
    requires PartitionsOk(w) && IdsOk(w) && v.s.queues == w.s.queues
    requires v.enqueued == w.enqueued && v.first == w.first && v.used == w.used
    ensures PartitionsOk(v) && IdsOk(v)
  {
    SameIds(w, v);
    hide IdsOk;
    forall p ensures PartitionOk(v, p) {
      assert PartitionOk(w, p);
    }
  }

  lemma AwaitedKept(w: World, v: World, id: MsgId)
    requires Awaited(w, id)
    requires forall t :: t in w.s.waiters && w.s.waiters[t].message.id == id
                         ==> t in v.s.waiters && v.s.waiters[t].message == w.s.waiters[t].message
    ensures Awaited(v, id)
  {
    var t :| t in w.s.waiters && w.s.waiters[t].message.id == id;
    assert t in v.s.waiters;
  }

  lemma AckWaiter(w: World, id: MsgId, t: Token)
    requires id in w.s.pending && PendingOk(w, id) && t in w.s.waiters && WaiterOk(w, t)
    ensures WaiterOk(Apply(w, Ack(id)), t)
  {
  }

  lemma AckDelivered(w: World, id: MsgId, p: Partition, m: Message)
    requires DeliveredOk(w, p, m)
    ensures DeliveredOk(Apply(w, Ack(id)), p, m)
  {
    if Awaited(w, m.id) {
      AwaitedKept(w, Apply(w, Ack(id)), m.id);
    }
  }

  lemma AckKeepsInv(w: World, id: MsgId)
    requires Inv(w)
    ensures Inv(Apply(w, Ack(id)))
  {
    var v := Apply(w, Ack(id));
    PartitionsSame(w, v);
    if id in w.s.pending {
      hide PartitionsOk, IdsOk, WaiterOk, DeliveredOk;
      assert PendingOk(w, id);
      forall t | t in v.s.waiters ensures WaiterOk(v, t) {
        AckWaiter(w, id, t);
      }
      forall p, m | m in Get(v.first, p) ensures DeliveredOk(v, p, m) {
        AckDelivered(w, id, p, m);
      }
      forall x | x in v.s.pending ensures PendingOk(v, x) {
        assert PendingOk(w, x);
      }
      forall x | x in v.resolved ensures WasDelivered(v, x) {
        assert WasDelivered(w, x);
      }
    }
  }

  lemma SeeAckWaiter(w: World, t: Token, u: Token)
    requires Enabled(w, SeeAck(t)) && WaiterOk(w, t)
    requires u in w.s.waiters && u != t && WaiterOk(w, u)
    ensures WaiterOk(Apply(w, SeeAck(t)), u)
  {
  }

  lemma SeeAckDelivered(w: World, t: Token, p: Partition, m: Message)
    requires Inv(w) && Enabled(w, SeeAck(t)) && m in Get(w.first, p)
    ensures DeliveredOk(Apply(w, SeeAck(t)), p, m)
  {
    var x := w.s.waiters[t];
    assert WaiterOk(w, t) && DeliveredOk(w, p, m);
    if m.id == x.message.id {
      SameMessage(w, p, m, x.partition, x.message);
    } else if Awaited(w, m.id) {
      AwaitedKept(w, Apply(w, SeeAck(t)), m.id);
    }
  }

  lemma SeeAckKeepsInv(w: World, t: Token)
    requires Inv(w) && Enabled(w, SeeAck(t))
    ensures Inv(Apply(w, SeeAck(t)))
  {
    var v := Apply(w, SeeAck(t));
    PartitionsSame(w, v);
    assert WaiterOk(w, t);
    assert WasDelivered(v, w.s.waiters[t].message.id);
    hide PartitionsOk, IdsOk, WaiterOk, DeliveredOk;
    forall u | u in v.s.waiters ensures WaiterOk(v, u) {
      SeeAckWaiter(w, t, u);
    }
    forall p, m | m in Get(v.first, p) ensures DeliveredOk(v, p, m) {
      SeeAckDelivered(w, t, p, m);
    }
    forall id | id in v.s.pending ensures PendingOk(v, id) {
      assert PendingOk(w, id);
    }
    forall id | id in w.resolved ensures WasDelivered(v, id) {
      assert WasDelivered(w, id);
    }
  }

  lemma StrikeWaiter(w: World, t: Token, u: Token)
    requires Enabled(w, Strike(t)) && u in w.s.waiters && WaiterOk(w, u)
    ensures WaiterOk(Apply(w, Strike(t)), u)
  {
  }

  lemma StrikeDelivered(w: World, t: Token, p: Partition, m: Message)
    requires Enabled(w, Strike(t)) && DeliveredOk(w, p, m)
    ensures DeliveredOk(Apply(w, Strike(t)), p, m)
  {
    if Awaited(w, m.id) {
      AwaitedKept(w, Apply(w, Strike(t)), m.id);
    }
  }

  lemma StrikePendings(w: World, t: Token)
    requires Enabled(w, Strike(t)) && PendingsOk(w)
    ensures PendingsOk(Apply(w, Strike(t)))
  {
    var v := Apply(w, Strike(t));
    forall id | id in v.s.pending ensures PendingOk(v, id) {
      assert PendingOk(w, id);
    }
    forall id | id in v.resolved ensures WasDelivered(v, id) {
      assert WasDelivered(w, id);
    }
  }

  lemma StrikeKeepsInv(w: World, t: Token)
    requires Inv(w) && Enabled(w, Strike(t))
    ensures Inv(Apply(w, Strike(t)))
  {
    var v := Apply(w, Strike(t));
    PartitionsSame(w, v);
    StrikePendings(w, t);
    hide PartitionsOk, IdsOk, WaiterOk, DeliveredOk, PendingsOk;
    forall u | u in v.s.waiters ensures WaiterOk(v, u) {
      StrikeWaiter(w, t, u);
    }
    forall p, m | m in Get(v.first, p) ensures DeliveredOk(v, p, m) {
      StrikeDelivered(w, t, p, m);
    }
  }

  // ---- a timed-out message is put back ----

  /** The guard before the insertion always holds: the message is never in its partition. */
  lemma PutBackGuard(w: World, t: Token)
    requires Inv(w) && t in w.s.waiters
    ensures w.s.waiters[t].partition in w.s.queues
    ensures w.s.waiters[t].message !in w.s.queues[w.s.waiters[t].partition]
  {
    assert WaiterOk(w, t);
    assert PartitionOk(w, w.s.waiters[t].partition);
    FirstWasEnqueued(w, w.s.waiters[t].partition, w.s.waiters[t].message);
  }

  lemma ShapePutBack(q: seq<Message>, e: seq<Message>, f: seq<Message>, m: Message)
    requires Shape(q, e, f) && m in f && m !in q
    ensures Shape([m] + q, e, f)
  {
    var r := |q| - (|e| - |f|);
    assert ([m] + q)[r + 1..] == q[r..];
    forall i | 0 <= i < r + 1 ensures ([m] + q)[i] in f {
      assert i > 0 ==> ([m] + q)[i] == q[i - 1];
    }
    DistinctConcat([m], q);
  }

  lemma PutBackPartition(w: World, t: Token, p: Partition)
    requires Inv(w) && Enabled(w, PutBack(t))
    ensures PartitionOk(Apply(w, PutBack(t)), p)
  {
    PutBackGuard(w, t);
    var x := w.s.waiters[t];
    assert WaiterOk(w, t) && PartitionOk(w, p);
    if p == x.partition {
      ShapePutBack(Queue(w.s, p), Get(w.enqueued, p), Get(w.first, p), x.message);
    }
  }

  lemma PutBackWaiter(w: World, t: Token, u: Token)
    requires Enabled(w, PutBack(t)) && WaiterOk(w, t)
    requires u in w.s.waiters && u != t && WaiterOk(w, u)
    ensures WaiterOk(Apply(w, PutBack(t)), u)
  {
  }

  lemma PutBackDelivered(w: World, t: Token, p: Partition, m: Message)
    requires Inv(w) && Enabled(w, PutBack(t)) && m in Get(w.first, p)
    ensures DeliveredOk(Apply(w, PutBack(t)), p, m)
  {
    var x := w.s.waiters[t];
    PutBackGuard(w, t);
    assert WaiterOk(w, t) && DeliveredOk(w, p, m);
    if m.id == x.message.id {
      SameMessage(w, p, m, x.partition, x.message);
    } else if Awaited(w, m.id) {
      AwaitedKept(w, Apply(w, PutBack(t)), m.id);
    }
  }

  lemma PutBackKeepsInv(w: World, t: Token)
    requires Inv(w) && Enabled(w, PutBack(t))
    ensures Inv(Apply(w, PutBack(t)))
  {
    hide PartitionOk, WaiterOk, DeliveredOk, IdsOk;
    var v := Apply(w, PutBack(t));
    forall p ensures PartitionOk(v, p) {
      PutBackPartition(w, t, p);
    }
    SameIds(w, v);
    forall u | u in v.s.waiters ensures WaiterOk(v, u) {
      PutBackWaiter(w, t, u);
    }
    forall p, m | m in Get(v.first, p) ensures DeliveredOk(v, p, m) {
      PutBackDelivered(w, t, p, m);
    }
    forall id | id in v.s.pending ensures PendingOk(v, id) {
      assert PendingOk(w, id);
    }
    forall id | id in v.resolved ensures WasDelivered(v, id) {
      assert WasDelivered(w, id);
    }
  }

  lemma StepKeepsInv(w: World, step: Step)
    requires Inv(w) && Enabled(w, step)
    ensures Inv(Apply(w, step))
  {
    match step
    case Put(p, m) => PutKeepsInv(w, p, m);
    case Take(p) => TakeKeepsInv(w, p);
    case Ack(id) => AckKeepsInv(w, id);
    case SeeAck(t) => SeeAckKeepsInv(w, t);
    case Strike(t) => StrikeKeepsInv(w, t);
    case PutBack(t) => PutBackKeepsInv(w, t);
  }

  lemma {:induction false} RunKeepsInv(w: World, steps: seq<Step>)
    requires Inv(w) && ValidRun(w, steps)
    ensures Inv(After(w, steps))
    decreases |steps|
  {
    hide Inv;
    if steps != [] {
      StepKeepsInv(w, steps[0]);
      RunKeepsInv(Apply(w, steps[0]), steps[1..]);
    }
  }

  // ---- the guarantees -------------------------------------------------------

  /** Each enqueued message is in exactly one place: once in its partition, with one waiting task, or
      resolved by an acknowledgement. */
  lemma {:induction false} ExactlyOnePlace(w: World, steps: seq<Step>, p: Partition, m: Message)
    requires Initial(w) && ValidRun(w, steps) && m in Get(After(w, steps).enqueued, p)
    ensures var v := After(w, steps);
            var queued, awaited, resolved := m in Queue(v.s, p), Awaited(v, m.id), m.id in v.resolved;
            && (queued || awaited || resolved)
            && !(queued && awaited) && !(queued && resolved) && !(awaited && resolved)
            && Distinct(Queue(v.s, p))
            && AtMostOneWaiter(v, m.id)
  {
    InitialInv(w);
    RunKeepsInv(w, steps);
    OnePlace(After(w, steps), p, m);
  }

  lemma EnqueuedIsSomewhere(v: World, p: Partition, m: Message)
    requires PartitionOk(v, p) && m in Get(v.enqueued, p)
    ensures m in Queue(v.s, p) || m in Get(v.first, p)
  {
    var q, e, f := Queue(v.s, p), Get(v.enqueued, p), Get(v.first, p);
    var i :| 0 <= i < |e| && e[i] == m;
    if i < |f| {
      assert f[i] == m;
    } else {
      assert e[|f|..][i - |f|] == q[|q| - (|e| - |f|)..][i - |f|] == m;
    }
  }

  lemma OnePlace(v: World, p: Partition, m: Message)
    requires Inv(v) && m in Get(v.enqueued, p)
    ensures var queued, awaited, resolved := m in Queue(v.s, p), Awaited(v, m.id), m.id in v.resolved;
            && (queued || awaited || resolved)
            && !(queued && awaited) && !(queued && resolved) && !(awaited && resolved)
            && Distinct(Queue(v.s, p))
            && AtMostOneWaiter(v, m.id)
  {
    assert PartitionOk(v, p);
    EnqueuedIsSomewhere(v, p, m);
    if m in Get(v.first, p) {
      assert DeliveredOk(v, p, m);
    }
    forall t | t in v.s.waiters && v.s.waiters[t].message.id == m.id
      ensures m !in Queue(v.s, p) && m.id !in v.resolved
    {
      assert WaiterOk(v, t);
      var x := v.s.waiters[t];
      if m in Queue(v.s, p) {
        SameMessage(v, p, m, x.partition, x.message);
      }
    }
    forall x, n | n in Get(v.first, x) && n.id == m.id && m in Queue(v.s, p) ensures m.id !in v.resolved {
      assert DeliveredOk(v, x, n);
      SameMessage(v, p, m, x, n);
    }
    assert m.id in v.resolved ==> WasDelivered(v, m.id);
    forall t | t in v.s.waiters ensures WaiterOk(v, t) {
    }
  }

  /** At-least-once: while no acknowledgement of a message has succeeded, it is in its partition or a
      waiting task will decide about it. */
  lemma {:induction false} UnacknowledgedNeverLost(w: World, steps: seq<Step>, p: Partition, m: Message)
    requires Initial(w) && ValidRun(w, steps) && m in Get(After(w, steps).enqueued, p)
    requires m.id !in After(w, steps).acknowledged
    ensures m in Queue(After(w, steps).s, p) || Awaited(After(w, steps), m.id)
  {
    InitialInv(w);
    RunKeepsInv(w, steps);
    var v := After(w, steps);
    assert PartitionOk(v, p);
    EnqueuedIsSomewhere(v, p, m);
    if m in Get(v.first, p) {
      assert DeliveredOk(v, p, m);
    }
  }

  /** First deliveries follow the order of enqueueing, and a partition holds messages put back after a
      timeout, each once, followed by all those never delivered. */
  lemma {:induction false} FirstDeliveriesInOrder(w: World, steps: seq<Step>, p: Partition) returns (back: seq<Message>)
    requires Initial(w) && ValidRun(w, steps)
    ensures var v := After(w, steps);
            var e, f := Get(v.enqueued, p), Get(v.first, p);
            && f <= e
            && Queue(v.s, p) == back + e[|f|..]
            && Distinct(back) && (forall m :: m in back ==> m in f)
  {
    InitialInv(w);
    RunKeepsInv(w, steps);
    var v := After(w, steps);
    assert PartitionOk(v, p);
    var q := Queue(v.s, p);
    back := q[..|q| - (|Get(v.enqueued, p)| - |Get(v.first, p)|)];
    assert q == back + q[|back|..];
  }

  /** Whatever its timeout does, the guard before a message is put back is true. */
  lemma {:induction false} NeverPutBackTwice(w: World, steps: seq<Step>, t: Token)
    requires Initial(w) && ValidRun(w, steps) && t in After(w, steps).s.waiters
    ensures var v := After(w, steps); var x := v.s.waiters[t];
            x.partition in v.s.queues && x.message !in v.s.queues[x.partition]
  {
    InitialInv(w);
    RunKeepsInv(w, steps);
    PutBackGuard(After(w, steps), t);
  }

  /** An acknowledgement of a delivery that is still waited for, and not yet acknowledged, succeeds and
      sets the event of that very delivery. */
  lemma {:induction false} AckReachesDelivery(w: World, steps: seq<Step>, t: Token)
    requires Initial(w) && ValidRun(w, steps)
    requires t in After(w, steps).s.waiters && !After(w, steps).s.waiters[t].acked
    ensures var v := After(w, steps); var id := v.s.waiters[t].message.id;
            id in v.s.pending && Apply(v, Ack(id)).s.waiters == v.s.waiters[t := v.s.waiters[t].(acked := true)]
  {
    InitialInv(w);
    RunKeepsInv(w, steps);
    hide DeliveriesOk, PartitionsOk, IdsOk, PendingsOk;
    AckReaches(After(w, steps), t);
  }

  lemma AckReaches(v: World, t: Token)
    requires t in v.s.waiters && WaiterOk(v, t) && !v.s.waiters[t].acked
    ensures var id := v.s.waiters[t].message.id;
            id in v.s.pending && Apply(v, Ack(id)).s.waiters == v.s.waiters[t := v.s.waiters[t].(acked := true)]
  {
  }

  /** An acknowledgement is answered with success for a message that is already back in its partition
      exactly when the waiting task of its last delivery has ended. */
  lemma {:induction false} LateAckExactly(w: World, steps: seq<Step>, p: Partition, m: Message)
    requires Initial(w) && ValidRun(w, steps) && m in Get(After(w, steps).enqueued, p)
    requires m.id in After(w, steps).s.pending
    ensures var v := After(w, steps); m in Queue(v.s, p) <==> v.s.pending[m.id] !in v.s.waiters
  {
    InitialInv(w);
    RunKeepsInv(w, steps);
    LateAck(After(w, steps), p, m);
  }

  lemma LateAck(v: World, p: Partition, m: Message)
    requires Inv(v) && m in Get(v.enqueued, p) && m.id in v.s.pending
    ensures m in Queue(v.s, p) <==> v.s.pending[m.id] !in v.s.waiters
  {
    var t := v.s.pending[m.id];
    assert PendingOk(v, m.id);
    OnePlace(v, p, m);
    var x, n :| n in Get(v.first, x) && n.id == m.id;
    FirstWasEnqueued(v, x, n);
    assert DeliveredOk(v, x, n);
    if t !in v.s.waiters {
      forall u | u in v.s.waiters ensures v.s.waiters[u].message.id != m.id {
        assert WaiterOk(v, u);
      }
    }
  }

  /** Such a late acknowledgement does happen: enqueue, deliver, time out, put back, acknowledge. */
  lemma LateAckHappens(m: Message)
    ensures var w := World(EMPTY.(queues := map[0 := []]), {}, map[], map[], {}, {});
            var steps := [Put(0, m), Take(0), Strike(0), PutBack(0)];
            && Initial(w) && ValidRun(w, steps)
            && var v := After(w, steps);
               m.id in v.s.pending && Queue(v.s, 0) == [m] && Queue(Apply(v, Ack(m.id)).s, 0) == [m]
  {
    var w := World(EMPTY.(queues := map[0 := []]), {}, map[], map[], {}, {});
    var a := Apply(w, Put(0, m));
    assert Queue(a.s, 0) == [m];
    var b := Apply(a, Take(0));
    var c := Apply(b, Strike(0));
    var d := Apply(c, PutBack(0));
    assert Queue(d.s, 0) == [m];
    var steps := [Put(0, m), Take(0), Strike(0), PutBack(0)];
    assert steps[1..] == [Take(0), Strike(0), PutBack(0)];
    assert steps[1..][1..] == [Strike(0), PutBack(0)] && steps[1..][1..][1..] == [PutBack(0)];
    assert After(c, [PutBack(0)]) == d && After(b, [Strike(0), PutBack(0)]) == d;
  }
}
