/**
  The message queue of one node: partitions, deliveries awaiting an
  acknowledgement, and what each critical section does to them.

  A delivery starts a waiting task with an event of its own. The task ends when
  the event is set, or after 30 seconds puts the message back at the head of its
  partition. Events are numbered in the order of their creation.
*/
module MessageQueue {
  import opened Util
  import HashRing

  type MsgId = string
  type Partition = nat
  type Token = nat

  datatype Message = Message(id: MsgId, payload: string, timestamp: real)

  /** A waiting task: has its event been set, and has its timeout struck? */
  datatype Waiter = Waiter(partition: Partition, message: Message, acked: bool, timedOut: bool)

  /** `pending` is the event that an acknowledgement of a message sets. */
  datatype State = State(
    queues: map<Partition, seq<Message>>, pending: map<MsgId, Token>,
    waiters: map<Token, Waiter>, nextToken: Token)

  const EMPTY := State(map[], map[], map[], 0)

  function Queue(s: State, p: Partition): seq<Message> {
    if p in s.queues then s.queues[p] else []
  }

  /** The partition, of `n`, of a topic with this hash: what is left of the hash after as many times `n` as it holds. */
  function PartitionFor(h: HashRing.HashValue, n: nat): (p: Partition)
    requires n > 0
    ensures p < n && exists k: nat :: k * n + p == h
  {
    assert (h / n) * n + h % n == h;
    h % n
  }

  function EmptyPartitions(n: nat): map<Partition, seq<Message>> {
    if n == 0 then map[] else EmptyPartitions(n - 1)[n - 1 := []]
  }

  lemma {:induction false} EmptyPartitionsExactly(n: nat)
    ensures forall p: nat :: p in EmptyPartitions(n) <==> p < n
    ensures forall p: nat :: p < n ==> EmptyPartitions(n)[p] == []
  {
    if n != 0 {
      EmptyPartitionsExactly(n - 1);
    }
  }

  function Start(s: State, partitions: nat): State {
    s.(queues := s.queues + EmptyPartitions(partitions))
  }

  function Enqueue(s: State, p: Partition, m: Message): State {
    if p in s.queues then s.(queues := s.queues[p := s.queues[p] + [m]]) else s
  }

  /** On an empty partition nothing happens: the wait for a message holds the lock that
      an enqueue would need, so it always ends without one. */
  function Dequeue(s: State, p: Partition): State {
    var q := Queue(s, p);
    if q == [] then s
    else s.(queues := s.queues[p := q[1..]],
            pending := s.pending[q[0].id := s.nextToken],
            waiters := s.waiters[s.nextToken := Waiter(p, q[0], false, false)],
            nextToken := s.nextToken + 1)
  }

  function Acknowledge(s: State, id: MsgId): State {
    if id in s.pending then
      var t := s.pending[id];
      s.(pending := s.pending - {id},
         waiters := if t in s.waiters then s.waiters[t := s.waiters[t].(acked := true)] else s.waiters)
    else s
  }

  /** The waiting task sees its event set, and ends. */
  function Resume(s: State, t: Token): State {
    s.(waiters := s.waiters - {t})
  }

  /** The timeout strikes; it also wins against an event that was set but not yet seen. */
  function TimeOut(s: State, t: Token): State
    requires t in s.waiters
  {
    s.(waiters := s.waiters[t := s.waiters[t].(timedOut := true)])
  }

  /** The timed-out task gets the lock, and ends. */
  function Requeue(s: State, t: Token): State
    requires t in s.waiters
  {
    var x := s.waiters[t];
    var s' := s.(waiters := s.waiters - {t});
    if x.partition in s.queues && x.message !in s.queues[x.partition] then
      s'.(queues := s.queues[x.partition := [x.message] + s.queues[x.partition]])
    else s'
  }

  class DistributedQueue {
    const hash: string -> HashRing.HashValue
    const partitions: nat
    var localQueues: map<Partition, seq<Message>>
    var pendingAck: map<MsgId, Token>
    var waiters: map<Token, Waiter>
    var nextToken: Token
    var producers: set<string>
    var consumers: set<string>

    function View(): State
      reads this
    {
      State(localQueues, pendingAck, waiters, nextToken)
    }

    function PartitionOf(topic: string): Partition
      requires partitions > 0
    {
      PartitionFor(hash(topic), partitions)
    }

    constructor (hash: string -> HashRing.HashValue, partitions: nat)
      ensures this.hash == hash && this.partitions == partitions
      ensures View() == EMPTY && producers == {} && consumers == {}
    {
      this.hash, this.partitions := hash, partitions;
      localQueues, pendingAck, waiters, nextToken := map[], map[], map[], 0;
      producers, consumers := {}, {};
    }

    method StartQueues()
      modifies this`localQueues
      ensures View() == Start(old(View()), partitions)
      ensures forall p: nat :: p in localQueues <==> p < partitions || p in old(localQueues)
      ensures forall p: nat :: p < partitions ==> localQueues[p] == []
    {
      for i := 0 to partitions
        invariant localQueues == old(localQueues) + EmptyPartitions(i)
      {
        localQueues := localQueues[i := []];
      }
      EmptyPartitionsExactly(partitions);
    }

    /** `false` stands for the error raised before the partitions exist. */
    method EnqueueMessage(topic: string, payload: string, producer: string, id: MsgId, now: real)
      returns (ok: bool)
      requires partitions > 0
      modifies this
      ensures View() == Enqueue(old(View()), PartitionOf(topic), Message(id, payload, now))
      ensures ok == (PartitionOf(topic) in old(localQueues))
      ensures producers == if ok then old(producers) + {producer} else old(producers)
      ensures consumers == old(consumers)
    {
      var p := hash(topic) % partitions;
      var m := Message(id, payload, now);
      if p !in localQueues {
        return false;
      }
      localQueues := localQueues[p := localQueues[p] + [m]];
      producers := producers + {producer};
      return true;
    }

    method DequeueMessage(topic: string, consumer: string) returns (m: Option<Message>)
      requires partitions > 0
      modifies this
      ensures View() == Dequeue(old(View()), PartitionOf(topic))
      ensures m == var q := Queue(old(View()), PartitionOf(topic)); if q == [] then None else Some(q[0])
      ensures consumers == if m.Some? then old(consumers) + {consumer} else old(consumers)
      ensures producers == old(producers)
    {
      var p := hash(topic) % partitions;
      if p !in localQueues || localQueues[p] == [] {
        return None;
      }
      var message := localQueues[p][0];
      localQueues := localQueues[p := localQueues[p][1..]];
      consumers := consumers + {consumer};
      pendingAck := pendingAck[message.id := nextToken];
      waiters := waiters[nextToken := Waiter(p, message, false, false)];
      nextToken := nextToken + 1;
      return Some(message);
    }

    method AcknowledgeMessage(id: MsgId) returns (ok: bool)
      modifies this
      ensures View() == Acknowledge(old(View()), id)
      ensures ok == (id in old(pendingAck))
      ensures producers == old(producers) && consumers == old(consumers)
    {
      if id !in pendingAck {
        return false;
      }
      var t := pendingAck[id];
      if t in waiters {
        waiters := waiters[t := waiters[t].(acked := true)];
      }
      pendingAck := pendingAck - {id};
      return true;
    }

    /** The `except` branch of `_wait_for_ack`. */
    method RequeueTimedOut(t: Token)
      requires t in waiters
      modifies this
      ensures View() == Requeue(old(View()), t)
      ensures producers == old(producers) && consumers == old(consumers)
    {
      var x := waiters[t];
      if x.partition in localQueues && x.message !in localQueues[x.partition] {
        localQueues := localQueues[x.partition := [x.message] + localQueues[x.partition]];
      }
      waiters := waiters - {t};
    }
  }
}
