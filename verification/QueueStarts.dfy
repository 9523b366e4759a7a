/**
  Which partitions there are from the start, and which acknowledgements are
  answered with success.
*/
module QueueStarts {
  import opened Util
  import opened MessageQueue
  import opened QueueRuns
  import HashRing

  // ---- every topic has its partition -----------------------------------------

  /** Starting an unused queue creates exactly the partitions 0, 1, ..., `partitions` - 1, all empty, and nothing
      else. */
  lemma StartExactly(partitions: nat)
    ensures var s := Start(EMPTY, partitions);
            && (forall p: nat :: p in s.queues <==> p < partitions)
            && (forall p :: p in s.queues ==> s.queues[p] == [])
            && s.pending == map[] && s.waiters == map[]
    ensures Initial(Started(partitions))
  {
    EmptyPartitionsExactly(partitions);
  }

  /** The world of a queue that has just been started. */
  function Started(partitions: nat): World {
    World(Start(EMPTY, partitions), {}, map[], map[], {}, {})
  }

  /** Starting again empties the partitions 0, 1, ..., `partitions` - 1 and leaves everything else. */
  lemma RestartExactly(s: State, partitions: nat)
    ensures var t := Start(s, partitions);
            && (forall p: nat :: p < partitions ==> p in t.queues && t.queues[p] == [])
            && (forall p: nat :: p >= partitions ==>
                  (p in t.queues <==> p in s.queues) && Queue(t, p) == Queue(s, p))
            && t.pending == s.pending && t.waiters == s.waiters && t.nextToken == s.nextToken
  {
    EmptyPartitionsExactly(partitions);
  }

  lemma {:induction false} PartitionsStay(w: World, steps: seq<Step>)
    requires ValidRun(w, steps)
    ensures After(w, steps).s.queues.Keys == w.s.queues.Keys
    decreases |steps|
  {
    if steps != [] {
      StepKeepsPartitions(w, steps[0]);
      PartitionsStay(Apply(w, steps[0]), steps[1..]);
    }
  }

  lemma StepKeepsPartitions(w: World, step: Step)
    requires Enabled(w, step)
    ensures Apply(w, step).s.queues.Keys == w.s.queues.Keys
  {
  }

  /** From the start on, at every moment of every run: the partition of every topic, whatever its hash, exists, and a
      message enqueued for it becomes the last of that partition and leaves the others alone. */
  lemma {:induction false} EveryTopicAccepted(partitions: nat, steps: seq<Step>, hash: HashRing.HashValue, m: Message)
    requires partitions > 0 && ValidRun(Started(partitions), steps)
    requires m.id !in After(Started(partitions), steps).used
    ensures var u := After(Started(partitions), steps); var p := PartitionFor(hash, partitions);
            && p in u.s.queues
            && var v := Apply(u, Put(p, m));
               && Queue(v.s, p) == Queue(u.s, p) + [m]
               && forall x :: x != p ==> Queue(v.s, x) == Queue(u.s, x)
  {
    StartExactly(partitions);
    PartitionsStay(Started(partitions), steps);
    var p := PartitionFor(hash, partitions);
    assert p in Started(partitions).s.queues.Keys;
  }

  // ---- which acknowledgements succeed ----------------------------------------

  /** What has been delivered and not been acknowledged with success since: a delivery opens its message, an
      acknowledgement closes it. */
  ghost function Open(open: set<MsgId>, w: World, steps: seq<Step>): set<MsgId>
    requires ValidRun(w, steps)
    decreases |steps|
  {
    if steps == [] then open else Open(OpenNext(open, w, steps[0]), Apply(w, steps[0]), steps[1..])
  }

  function OpenNext(open: set<MsgId>, w: World, step: Step): set<MsgId> {
    match step
    case Take(p) => if Queue(w.s, p) == [] then open else open + {Queue(w.s, p)[0].id}
    case Ack(id) => open - {id}
    case _ => open
  }

  lemma StepOpens(w: World, step: Step)
    requires Enabled(w, step)
    ensures Apply(w, step).s.pending.Keys == OpenNext(w.s.pending.Keys, w, step)
  {
  }

  lemma {:induction false} PendingIsOpen(w: World, steps: seq<Step>)
    requires ValidRun(w, steps)
    ensures After(w, steps).s.pending.Keys == Open(w.s.pending.Keys, w, steps)
    decreases |steps|
  {
    if steps != [] {
      StepOpens(w, steps[0]);
      PendingIsOpen(Apply(w, steps[0]), steps[1..]);
    }
  }

  /** In every run, an acknowledgement is answered with success if and only if its message was delivered after the last
      acknowledgement that named it; so a second one fails until the message is delivered again. */
  lemma {:induction false} AckSucceedsExactly(w: World, steps: seq<Step>, id: MsgId)
    requires Initial(w) && ValidRun(w, steps)
    ensures var u := After(w, steps);
            && (id in u.s.pending <==> id in Open({}, w, steps))
            && id !in Apply(u, Ack(id)).s.pending
            && (id in u.s.pending ==> id in Apply(u, Ack(id)).acknowledged)
            && (id !in u.s.pending ==> Apply(u, Ack(id)) == u)
  {
    PendingIsOpen(w, steps);
    assert w.s.pending.Keys == {};
  }
}
