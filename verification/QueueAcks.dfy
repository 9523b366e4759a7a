/**
  What a successful acknowledgement is worth: it is final exactly when the waiting
  task of the delivery sees it before its timeout strikes.
*/
module QueueAcks {
  import opened Util
  import opened MessageQueue
  import opened QueueRuns

  // ---- resolved messages are done with --------------------------------------

  lemma {:induction false} ResolvedStays(w: World, steps: seq<Step>, id: MsgId)
    requires ValidRun(w, steps) && id in w.resolved
    ensures id in After(w, steps).resolved
    decreases |steps|
  {
    if steps != [] {
      ResolvedStays(Apply(w, steps[0]), steps[1..], id);
    }
  }

  lemma {:induction false} EnqueuedStays(w: World, steps: seq<Step>, p: Partition, m: Message)
    requires ValidRun(w, steps) && m in Get(w.enqueued, p)
    ensures m in Get(After(w, steps).enqueued, p)
    decreases |steps|
  {
    if steps != [] {
      EnqueuedStays(Apply(w, steps[0]), steps[1..], p, m);
    }
  }

  /** A message that an acknowledgement has resolved never returns: it is never queued, awaited or open to an
      acknowledgement again. */
  lemma {:induction false} ResolvedNeverReturns(w: World, before: seq<Step>, after: seq<Step>, p: Partition, m: Message)
    requires Initial(w) && ValidRun(w, before) && ValidRun(After(w, before), after)
    requires m in Get(After(w, before).enqueued, p) && m.id in After(w, before).resolved
    ensures var v := After(After(w, before), after);
            && m.id in v.resolved && m !in Queue(v.s, p) && !Awaited(v, m.id) && m.id !in v.s.pending
  {
    hide Inv;
    var u := After(w, before);
    InitialInv(w);
    RunKeepsInv(w, before);
    RunKeepsInv(u, after);
    ResolvedStays(u, after, m.id);
    EnqueuedStays(u, after, p, m);
    OnePlace(After(u, after), p, m);
    ResolvedClosed(After(u, after), m.id);
  }

  lemma ResolvedClosed(v: World, id: MsgId)
    requires Inv(v) && id in v.resolved
    ensures id !in v.s.pending
  {
    var p, m :| m in Get(v.first, p) && m.id == id;
    assert DeliveredOk(v, p, m);
  }

  // ---- how the wait for one delivery ends -----------------------------------

  /** The delivery's wait has timed out, or does so in the run. */
  ghost predicate Struck(w: World, steps: seq<Step>, t: Token)
    requires t in w.s.waiters
  {
    w.s.waiters[t].timedOut || Strike(t) in steps
  }

  lemma TokenGone(w: World, step: Step, t: Token)
    requires Enabled(w, step) && t < w.s.nextToken && t !in w.s.waiters
    ensures t < Apply(w, step).s.nextToken && t !in Apply(w, step).s.waiters
  {
  }

  lemma {:induction false} TokenStaysGone(w: World, steps: seq<Step>, t: Token)
    requires ValidRun(w, steps) && t < w.s.nextToken && t !in w.s.waiters
    ensures t !in After(w, steps).s.waiters
    decreases |steps|
  {
    if steps != [] {
      TokenGone(w, steps[0], t);
      TokenStaysGone(Apply(w, steps[0]), steps[1..], t);
    }
  }

  lemma WaitStep(w: World, step: Step, t: Token)
    requires Enabled(w, step) && t in w.s.waiters && t < w.s.nextToken
    ensures var v := Apply(w, step);
            && t < v.s.nextToken
            && (t in v.s.waiters ==>
                  && v.s.waiters[t].message == w.s.waiters[t].message
                  && v.s.waiters[t].partition == w.s.waiters[t].partition
                  && (v.s.waiters[t].timedOut <==> w.s.waiters[t].timedOut || step == Strike(t)))
  {
  }

  /** While it waits, a delivery keeps its message, and remembers whether its timeout has struck. */
  lemma {:induction false} WaitRun(w: World, steps: seq<Step>, t: Token)
    requires ValidRun(w, steps) && t in w.s.waiters && t < w.s.nextToken && t in After(w, steps).s.waiters
    ensures var x := After(w, steps).s.waiters[t];
            && x.message == w.s.waiters[t].message && x.partition == w.s.waiters[t].partition
            && (x.timedOut <==> Struck(w, steps, t))
    decreases |steps|
  {
    hide Apply, Enabled;
    if steps != [] {
      var v := Apply(w, steps[0]);
      WaitStep(w, steps[0], t);
      if t in v.s.waiters {
        WaitRun(v, steps[1..], t);
        assert Strike(t) in steps <==> steps[0] == Strike(t) || Strike(t) in steps[1..];
      } else {
        TokenStaysGone(v, steps[1..], t);
      }
    }
  }

  lemma WaitEnds(z: World, last: Step, t: Token)
    requires Inv(z) && t in z.s.waiters && Enabled(z, last) && t !in Apply(z, last).s.waiters
    ensures var v := Apply(z, last); var x := z.s.waiters[t];
            && (x.message.id in v.resolved <==> !x.timedOut)
            && (x.message in Queue(v.s, x.partition) <==> x.timedOut)
  {
    assert last == SeeAck(t) || last == PutBack(t);
    assert WaiterOk(z, t);
    PutBackGuard(z, t);
  }

  /** However the wait for a delivery goes on, and whether its acknowledgement has been answered with success or
      not: when the wait ends, the message is resolved if and only if the timeout has not struck, and it is back
      in its partition if and only if the timeout has struck. */
  lemma {:induction false} WaitEndsExactly(w: World, before: seq<Step>, t: Token, steps: seq<Step>, last: Step)
    requires Initial(w) && ValidRun(w, before) && t in After(w, before).s.waiters
    requires ValidRun(After(w, before), steps) && t in After(After(w, before), steps).s.waiters
    requires Enabled(After(After(w, before), steps), last)
    requires t !in Apply(After(After(w, before), steps), last).s.waiters
    ensures var u := After(w, before); var x := u.s.waiters[t]; var v := Apply(After(u, steps), last);
            && (x.message.id in v.resolved <==> !Struck(u, steps, t))
            && (x.message in Queue(v.s, x.partition) <==> Struck(u, steps, t))
  {
    hide Apply, Enabled;
    var u := After(w, before);
    InitialInv(w);
    RunKeepsInv(w, before);
    RunKeepsInv(u, steps);
    assert WaiterOk(u, t);
    hide Inv;
    WaitRun(u, steps, t);
    WaitEnds(After(u, steps), last, t);
  }

  lemma Prepend(w: World, step: Step, rest: seq<Step>)
    requires Enabled(w, step) && ValidRun(Apply(w, step), rest)
    ensures ValidRun(w, [step] + rest) && After(w, [step] + rest) == After(Apply(w, step), rest)
  {
    assert ([step] + rest)[1..] == rest;
  }

  /** A success can be undone: the timeout has struck, the acknowledgement still finds the event and is answered
      with success, and then the message is put back. */
  lemma SuccessUndone(m: Message)
    ensures var w := World(EMPTY.(queues := map[0 := []]), {}, map[], map[], {}, {});
            var steps := [Put(0, m), Take(0), Strike(0), Ack(m.id), PutBack(0)];
            && Initial(w) && ValidRun(w, steps)
            && m.id in After(w, steps).acknowledged && Queue(After(w, steps).s, 0) == [m]
  {
    var w := World(EMPTY.(queues := map[0 := []]), {}, map[], map[], {}, {});
    var a := Apply(w, Put(0, m));
    assert Queue(a.s, 0) == [m];
    var b := Apply(a, Take(0));
    var c := Apply(b, Strike(0));
    assert m.id in c.s.pending && Queue(c.s, 0) == [];
    var d := Apply(c, Ack(m.id));
    var e := Apply(d, PutBack(0));
    assert Queue(e.s, 0) == [m];
    hide Apply, Enabled;
    Prepend(d, PutBack(0), []);
    Prepend(c, Ack(m.id), [PutBack(0)]);
    Prepend(b, Strike(0), [Ack(m.id), PutBack(0)]);
    Prepend(a, Take(0), [Strike(0), Ack(m.id), PutBack(0)]);
    Prepend(w, Put(0, m), [Take(0), Strike(0), Ack(m.id), PutBack(0)]);
    hide ValidRun, After;
    assert [PutBack(0)] + [] == [PutBack(0)] && [Ack(m.id)] + [PutBack(0)] == [Ack(m.id), PutBack(0)];
  }
}
