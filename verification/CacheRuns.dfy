/**
  What the cache guarantees over every run of its operations.
*/
module CacheRuns {
  import opened Util
  import opened Lru
  import opened CacheNode

  datatype Step =
    | ReadAt(address: Address)
    | WriteAt(address: Address, data: Bytes, now: real)
    | SnoopAt(address: Address, op: Operation)
    | InvalidateAt(address: Address)
    | CleanUpAt(now: real)

  /** History of an address: when it was last written, whether since then a read snoop and whether an invalidation
      came for it, and how many writes in a row found it as the write before had left it. */
  datatype Mark = Mark(written: real, snooped: bool, invalidated: bool, writes: nat)

  /** The other fields are history: the data last written to each address, and its mark; the addresses that
      since their last write were evicted, or were older than the time to live at a clean-up; the time of the
      last touch of each address on a clock that counts steps; and the number of reads, of those
      that found their address neither dropped nor invalidated, and of writes. */
  datatype World = World(
    c: Cache, memory: map<Address, Bytes>, marks: map<Address, Mark>, dropped: set<Address>,
    touched: map<Address, nat>, clock: nat, readCount: nat, cleanReads: nat, writeCount: nat)

  const START := World(EMPTY, map[], map[], {}, map[], 0, 0, 0, 0)

  /** Written, and since then neither dropped nor invalidated. */
  predicate Clean(w: World, a: Address) {
    a in w.marks && a !in w.dropped && !w.marks[a].invalidated
  }

  function Rewritten(w: World, a: Address, now: real): Mark {
    Mark(now, false, false, if Clean(w, a) && !w.marks[a].snooped then w.marks[a].writes + 1 else 1)
  }

  function Marked(w: World, a: Address, op: Operation): map<Address, Mark> {
    if a !in w.marks then w.marks
    else match op
      case ReadShared => w.marks[a := w.marks[a].(snooped := true)]
      case Invalidation => w.marks[a := w.marks[a].(invalidated := true)]
      case OtherOperation => w.marks
  }

  function Aged(w: World, l: Limits, now: real): set<Address> {
    set a | a in w.marks && now - w.marks[a].written > l.ttl
  }

  function Apply(w: World, l: Limits, step: Step): World {
    var v := w.(clock := w.clock + 1);
    match step
    case ReadAt(a) =>
      v.(c := Read(w.c, l, a), readCount := w.readCount + 1,
         cleanReads := if Clean(w, a) then w.cleanReads + 1 else w.cleanReads,
         touched := if Hit(w.c, a) then w.touched[a := w.clock] else w.touched)
    case WriteAt(a, data, now) =>
      if WriteFails(w.c, l, a) then v
      else
        var victim := Victim(w.c, l, a);
        v.(c := Write(w.c, l, a, data, now), memory := w.memory[a := data],
           marks := w.marks[a := Rewritten(w, a, now)],
           dropped := (if victim.Some? then w.dropped + {victim.value} else w.dropped) - {a},
           touched := w.touched[a := w.clock], writeCount := w.writeCount + 1)
    case SnoopAt(a, op) => v.(c := Snoop(w.c, a, op), marks := Marked(w, a, op))
    case InvalidateAt(a) => v.(c := SetState(w.c, a, Invalid), marks := Marked(w, a, Invalidation))
    case CleanUpAt(now) => v.(c := CleanUp(w.c, l, now), dropped := w.dropped + Aged(w, l, now))
  }

  function After(l: Limits, steps: seq<Step>): World {
    if steps == [] then START else Apply(After(l, steps[..|steps| - 1]), l, steps[|steps| - 1])
  }

  // ---- the cache refines a plain memory --------------------------------------

  /** A cached line as its history says it is. */
  function LineOf(data: Bytes, m: Mark): Line {
    Line(if m.invalidated then Invalid else if m.snooped then Owned else Modified, data, m.written, m.writes)
  }

  ghost predicate LinesOk(w: World) {
    && w.c.lines.Keys == w.memory.Keys - w.dropped
    && w.marks.Keys == w.memory.Keys
    && forall a :: a in w.c.lines ==> w.c.lines[a] == LineOf(w.memory[a], w.marks[a])
  }

  ghost predicate CountersOk(w: World) {
    w.c.hits == w.cleanReads && w.c.hits + w.c.misses == w.readCount && w.c.invalidations == w.writeCount
  }

  ghost predicate MemoryOk(w: World) {
    LinesOk(w) && CountersOk(w)
  }

  lemma MapSize(m: map<Address, Line>)
    ensures |m| == |m.Keys|
  {
  }

  /** What eviction leaves, and what the write adds. */
  lemma WriteLines(c: Cache, l: Limits, a: Address, data: Bytes, now: real)
    requires !WriteFails(c, l, a)
    ensures var v := Victim(c, l, a);
            var kept := if v.Some? then c.lines.Keys - {v.value} else c.lines.Keys;
            && Evict(c, v).lines.Keys == kept
            && Write(c, l, a, data, now).lines.Keys == kept + {a}
            && Write(c, l, a, data, now).lines[a]
               == Line(Modified, data, now, if WritesInPlace(c, a) then c.lines[a].version + 1 else 1)
            && forall x :: x in kept && x != a ==> Write(c, l, a, data, now).lines[x] == c.lines[x]
  {
  }

  /** A line written after at most one line was evicted. */
  lemma WrittenMemory(w: World, v: World, victim: Option<Address>, a: Address, data: Bytes, mark: Mark)
    requires LinesOk(w)
    requires var kept := if victim.Some? then w.c.lines.Keys - {victim.value} else w.c.lines.Keys;
             && v.c.lines.Keys == kept + {a}
             && v.c.lines[a] == LineOf(data, mark)
             && forall x :: x in kept && x != a ==> v.c.lines[x] == w.c.lines[x]
    requires v.memory == w.memory[a := data] && v.marks == w.marks[a := mark]
    requires v.dropped == (if victim.Some? then w.dropped + {victim.value} else w.dropped) - {a}
    ensures LinesOk(v)
  {
    assert v.memory.Keys == w.memory.Keys + {a};
    assert v.marks.Keys == w.marks.Keys + {a};
  }

  lemma InPlaceIsClean(w: World, a: Address)
    requires LinesOk(w)
    ensures WritesInPlace(w.c, a) <==> Clean(w, a) && !w.marks[a].snooped
    ensures Hit(w.c, a) <==> Clean(w, a)
    ensures WritesInPlace(w.c, a) ==> w.c.lines[a].version == w.marks[a].writes
  {
    assert a in w.c.lines <==> a in w.memory && a !in w.dropped;
    assert a in w.marks <==> a in w.memory;
  }

  lemma WriteKeepsMemory(w: World, l: Limits, a: Address, data: Bytes, now: real)
    requires LinesOk(w) && !WriteFails(w.c, l, a)
    ensures LinesOk(Apply(w, l, WriteAt(a, data, now)))
  {
    InPlaceIsClean(w, a);
    WriteLines(w.c, l, a, data, now);
    hide LinesOk, Write, Victim, WriteFails, WritesInPlace, Clean;
    WrittenMemory(w, Apply(w, l, WriteAt(a, data, now)), Victim(w.c, l, a), a, data, Rewritten(w, a, now));
  }

  lemma CleanUpKeepsMemory(w: World, l: Limits, now: real)
    requires LinesOk(w)
    ensures LinesOk(Apply(w, l, CleanUpAt(now)))
  {
    forall a ensures a in ExpiredLines(w.c, l, now) <==> a in Aged(w, l, now) && a in w.c.lines {
    }
  }

  lemma MarkedLine(w: World, l: Limits, step: Step, a: Address)
    requires LinesOk(w) && (step.SnoopAt? || step.InvalidateAt?) && a in w.c.lines
    ensures var v := Apply(w, l, step);
            a in v.c.lines && a in v.memory && a in v.marks && v.c.lines[a] == LineOf(v.memory[a], v.marks[a])
  {
    assert a in w.memory.Keys && a in w.marks.Keys;
  }

  lemma MarkKeepsMemory(w: World, l: Limits, step: Step)
    requires LinesOk(w) && (step.SnoopAt? || step.InvalidateAt?)
    ensures LinesOk(Apply(w, l, step))
  {
    var v := Apply(w, l, step);
    assert v.c.lines.Keys == w.c.lines.Keys && v.marks.Keys == w.marks.Keys;
    hide Snoop, SetState, Marked, LineOf;
    forall a | a in v.c.lines ensures v.c.lines[a] == LineOf(v.memory[a], v.marks[a]) {
      assert a in w.c.lines.Keys;
      MarkedLine(w, l, step, a);
    }
  }

  lemma StepKeepsMemory(w: World, l: Limits, step: Step)
    requires MemoryOk(w)
    ensures MemoryOk(Apply(w, l, step))
  {
    match step
    case ReadAt(a) => InPlaceIsClean(w, a);
    case WriteAt(a, data, now) =>
      if !WriteFails(w.c, l, a) {
        WriteKeepsMemory(w, l, a, data, now);
      }
    case CleanUpAt(now) => CleanUpKeepsMemory(w, l, now);
    case _ => MarkKeepsMemory(w, l, step);
  }

  lemma {:induction false} MemoryAlwaysOk(l: Limits, steps: seq<Step>)
    ensures MemoryOk(After(l, steps))
  {
    hide MemoryOk, Apply;
    if steps == [] {
      StartOk();
    } else {
      MemoryAlwaysOk(l, steps[..|steps| - 1]);
      StepKeepsMemory(After(l, steps[..|steps| - 1]), l, steps[|steps| - 1]);
    }
  }

  lemma StartOk()
    ensures MemoryOk(START)
  {
  }

  /** Whatever the limits: a read answers with the data last written to the address, and with nothing exactly when
      it was never written, or since then was evicted or older than the time to live at a clean-up. */
  lemma {:induction false} ReadsLastWrite(l: Limits, steps: seq<Step>, a: Address)
    ensures var w := After(l, steps);
            ReadData(w.c, a) == if a in w.memory && a !in w.dropped then Some(w.memory[a]) else None
  {
    MemoryAlwaysOk(l, steps);
  }

  lemma CleanUpLine(w: World, l: Limits, now: real, a: Address)
    requires a in w.c.lines && a in w.memory && a in w.marks && w.c.lines[a] == LineOf(w.memory[a], w.marks[a])
    ensures var c := CleanUp(w.c, l, now);
            && (a !in c.lines <==> now - w.marks[a].written > l.ttl)
            && (a in c.lines ==> c.lines[a] == w.c.lines[a])
  {
  }

  /** Whatever the limits: a clean-up removes a cached line if and only if more than the time to live has passed
      since the last write of its address; and it brings none back. */
  lemma {:induction false} CleanUpExactly(l: Limits, steps: seq<Step>, now: real, a: Address)
    ensures var w := After(l, steps); var v := Apply(w, l, CleanUpAt(now));
            && (a in w.c.lines ==>
                  && a in w.marks && (a !in v.c.lines <==> now - w.marks[a].written > l.ttl)
                  && (a in v.c.lines ==> v.c.lines[a] == w.c.lines[a]))
            && (a in v.c.lines ==> a in w.c.lines)
  {
    hide After;
    var w := After(l, steps);
    MemoryAlwaysOk(l, steps);
    if a in w.c.lines {
      assert a in w.memory && a in w.marks && w.c.lines[a] == LineOf(w.memory[a], w.marks[a]) by {
        assert a in w.c.lines.Keys;
        assert a in w.memory.Keys;
        assert a in w.marks.Keys;
      }
      hide LinesOk, LineOf, CountersOk;
      CleanUpLine(w, l, now, a);
    }
  }

  /** The step evicts nothing at `a`, does not write it, and is no clean-up later than the time to live after
      `written`. */
  predicate Spares(w: World, l: Limits, step: Step, a: Address, written: real) {
    match step
    case WriteAt(b, _, _) => b != a && Victim(w.c, l, b) != Some(a)
    case CleanUpAt(now) => now - written <= l.ttl
    case _ => true
  }

  predicate AllSpare(l: Limits, before: seq<Step>, steps: seq<Step>, a: Address, written: real) {
    forall i :: 0 <= i < |steps| ==> Spares(After(l, before + steps[..i]), l, steps[i], a, written)
  }

  ghost predicate Stays(w: World, a: Address, data: Bytes, written: real) {
    && a in w.memory && w.memory[a] == data
    && a in w.marks && w.marks[a].written == written
    && a !in w.dropped
  }

  lemma SparedStays(w: World, l: Limits, step: Step, a: Address, data: Bytes, written: real)
    requires Stays(w, a, data, written) && Spares(w, l, step, a, written)
    ensures Stays(Apply(w, l, step), a, data, written)
  {
  }

  lemma AfterNext(l: Limits, steps: seq<Step>, step: Step)
    ensures After(l, steps + [step]) == Apply(After(l, steps), l, step)
  {
    assert (steps + [step])[..|steps + [step]| - 1] == steps;
  }

  /** What is written at `now` is read for as long as nothing evicts it and no clean-up comes later than the
      time to live after `now`, whatever snoops and invalidations arrive. */
  lemma {:induction false} WrittenStays(l: Limits, before: seq<Step>, a: Address, data: Bytes, now: real,
                                        steps: seq<Step>)
    requires !WriteFails(After(l, before).c, l, a)
    requires AllSpare(l, before + [WriteAt(a, data, now)], steps, a, now)
    ensures Stays(After(l, before + [WriteAt(a, data, now)] + steps), a, data, now)
    ensures ReadData(After(l, before + [WriteAt(a, data, now)] + steps).c, a) == Some(data)
    decreases |steps|
  {
    hide After, Spares;
    var start := before + [WriteAt(a, data, now)];
    if steps == [] {
      AfterNext(l, before, WriteAt(a, data, now));
      assert start + [] == start;
    } else {
      var init, step := steps[..|steps| - 1], steps[|steps| - 1];
      forall i | 0 <= i < |init| ensures Spares(After(l, start + init[..i]), l, init[i], a, now) {
        assert init[..i] == steps[..i];
      }
      WrittenStays(l, before, a, data, now, init);
      hide Apply, Stays;
      SparedStays(After(l, start + init), l, step, a, data, now);
      AfterNext(l, start + init, step);
      assert start + init + [step] == start + steps;
    }
    ReadsLastWrite(l, start + steps, a);
    StaysIsRead(After(l, start + steps), a, data, now);
  }

  lemma StaysIsRead(w: World, a: Address, data: Bytes, written: real)
    requires Stays(w, a, data, written)
    ensures a in w.memory && a !in w.dropped && w.memory[a] == data
  {
  }

  /** Hits are exactly the reads of addresses that since their last write were neither dropped nor invalidated,
      misses are the other reads, and invalidations are counted once for every write. */
  lemma {:induction false} CountersExactly(l: Limits, steps: seq<Step>)
    ensures var w := After(l, steps);
            && w.c.hits == w.cleanReads && w.c.misses == w.readCount - w.cleanReads
            && w.c.invalidations == w.writeCount
  {
    MemoryAlwaysOk(l, steps);
  }

  lemma {:induction false} HitsAndMissesAreReads(l: Limits, steps: seq<Step>)
    ensures After(l, steps).c.hits + After(l, steps).c.misses == After(l, steps).readCount
  {
    MemoryAlwaysOk(l, steps);
  }

  /** A cached line is invalid if and only if an invalidation came since its last write; otherwise it is owned if
      and only if a read snoop did, and modified if not; and its version counts the writes in a row that found it
      modified. */
  lemma {:induction false} StateExactly(l: Limits, steps: seq<Step>, a: Address)
    requires a in After(l, steps).c.lines
    ensures var w := After(l, steps); var line := w.c.lines[a];
            && a in w.marks
            && line.state == (if w.marks[a].invalidated then Invalid
                              else if w.marks[a].snooped then Owned else Modified)
            && line.version == w.marks[a].writes && line.lastUpdated == w.marks[a].written
  {
    MemoryAlwaysOk(l, steps);
  }

  /** Of the states named by the protocol, a line is only ever modified, owned or invalid. */
  lemma {:induction false} OnlyThreeStates(l: Limits, steps: seq<Step>, a: Address)
    requires a in After(l, steps).c.lines
    ensures After(l, steps).c.lines[a].state in {Modified, Owned, Invalid}
  {
    StateExactly(l, steps, a);
  }

  // ---- the order agrees with the lines ---------------------------------------

  ghost predicate Agrees(c: Cache) {
    Elements(c.order) == c.lines.Keys
  }

  /** The most lines the cache ever holds. */
  function Room(l: Limits): nat {
    if l.maxSize < 1 then 1 else l.maxSize
  }

  /** The order lists addresses by the time of their last touch, oldest first. */
  ghost predicate Stamped(order: seq<Address>, touched: map<Address, nat>, clock: nat) {
    && (forall i :: 0 <= i < |order| ==> order[i] in touched && touched[order[i]] < clock)
    && (forall i, j :: 0 <= i < j < |order| ==> touched[order[i]] < touched[order[j]])
  }

  lemma StampedDistinct(order: seq<Address>, touched: map<Address, nat>, clock: nat)
    requires Stamped(order, touched, clock)
    ensures Distinct(order)
  {
  }

  /** An address older than all others goes in front. */
  lemma StampedPrepend(a: Address, rest: seq<Address>, touched: map<Address, nat>, clock: nat)
    requires Stamped(rest, touched, clock) && a in touched && touched[a] < clock
    requires forall b :: b in rest ==> b in touched && touched[a] < touched[b]
    ensures Stamped([a] + rest, touched, clock)
  {
    var s := [a] + rest;
    forall i, j | 0 <= i < j < |s| ensures touched[s[i]] < touched[s[j]] {
      assert s[j] == rest[j - 1] && s[j] in rest;
      if i > 0 {
        assert s[i] == rest[i - 1];
      }
    }
  }

  lemma StampedHead(order: seq<Address>, touched: map<Address, nat>, clock: nat)
    requires Stamped(order, touched, clock) && order != []
    ensures Stamped(order[1..], touched, clock)
    ensures forall b :: b in order[1..] ==> b in touched && touched[order[0]] < touched[b]
  {
  }

  /** Taking elements out keeps the order. */
  lemma {:induction false} StampedWithout(order: seq<Address>, touched: map<Address, nat>, clock: nat, x: Address)
    requires Stamped(order, touched, clock)
    ensures Stamped(Without(order, x), touched, clock)
  {
    if order != [] {
      StampedHead(order, touched, clock);
      StampedWithout(order[1..], touched, clock, x);
      StampedPrepend(order[0], Without(order[1..], x), touched, clock);
    }
  }

  lemma {:induction false} StampedKept(order: seq<Address>, touched: map<Address, nat>, clock: nat,
                                       gone: set<Address>)
    requires Stamped(order, touched, clock)
    ensures Stamped(Kept(order, gone), touched, clock) && |Kept(order, gone)| <= |order|
  {
    if order != [] {
      StampedHead(order, touched, clock);
      StampedKept(order[1..], touched, clock, gone);
      forall b ensures b in Kept(order[1..], gone) ==> b in order[1..] {
        KeptMembers(order[1..], gone, b);
      }
      StampedPrepend(order[0], Kept(order[1..], gone), touched, clock);
    }
  }

  lemma StampedTouch(order: seq<Address>, touched: map<Address, nat>, clock: nat, capacity: nat, a: Address)
    requires Stamped(order, touched, clock) && |order| <= capacity
    ensures Stamped(Touch(order, capacity, a), touched[a := clock], clock + 1)
    ensures |Touch(order, capacity, a)| <= capacity
  {
    var rest := Without(order, a);
    StampedWithout(order, touched, clock, a);
    StampedDistinct(order, touched, clock);
    WithoutDistinct(order, a);
    forall i | 0 <= i < |rest| ensures rest[i] != a {
      assert rest[i] in rest;
    }
    assert Stamped(rest + [a], touched[a := clock], clock + 1);
  }

  ghost predicate OrderOk(w: World, l: Limits) {
    Stamped(w.c.order, w.touched, w.clock) && |w.c.order| <= l.capacity
  }

  lemma EvictKeepsOrder(w: World, l: Limits, victim: Option<Address>)
    requires OrderOk(w, l)
    ensures Stamped(Evict(w.c, victim).order, w.touched, w.clock) && |Evict(w.c, victim).order| <= l.capacity
  {
    if victim.Some? {
      StampedDistinct(w.c.order, w.touched, w.clock);
      StampedWithout(w.c.order, w.touched, w.clock, victim.value);
      WithoutDistinct(w.c.order, victim.value);
    }
  }

  lemma WriteKeepsOrder(w: World, l: Limits, a: Address, data: Bytes, now: real)
    requires OrderOk(w, l)
    ensures OrderOk(Apply(w, l, WriteAt(a, data, now)), l)
  {
    hide Without, Touch;
    var d := Evict(w.c, Victim(w.c, l, a));
    EvictKeepsOrder(w, l, Victim(w.c, l, a));
    StampedTouch(d.order, w.touched, w.clock, l.capacity, a);
  }

  lemma StepKeepsOrder(w: World, l: Limits, step: Step)
    requires OrderOk(w, l)
    ensures OrderOk(Apply(w, l, step), l)
  {
    match step
    case ReadAt(a) => StampedTouch(w.c.order, w.touched, w.clock, l.capacity, a);
    case WriteAt(a, data, now) => WriteKeepsOrder(w, l, a, data, now);
    case CleanUpAt(now) => StampedKept(w.c.order, w.touched, w.clock, ExpiredLines(w.c, l, now));
    case _ =>
  }

  lemma {:induction false} OrderAlwaysOk(l: Limits, steps: seq<Step>)
    ensures OrderOk(After(l, steps), l)
  {
    if steps != [] {
      OrderAlwaysOk(l, steps[..|steps| - 1]);
      StepKeepsOrder(After(l, steps[..|steps| - 1]), l, steps[|steps| - 1]);
    }
  }

  /** The order covers the lines, and there is room. */
  ghost predicate Sized(w: World, l: Limits) {
    OrderOk(w, l) && Agrees(w.c) && |w.c.lines| <= Room(l)
  }

  /** A touch that does not overflow the order only adds its address. */
  lemma TouchAdds(order: seq<Address>, capacity: nat, a: Address)
    requires Distinct(order)
    requires (if a in order then |order| else |order| + 1) <= capacity
    ensures Elements(Touch(order, capacity, a)) == Elements(order) + {a}
  {
    WithoutDistinct(order, a);
    assert Touch(order, capacity, a) == Without(order, a) + [a];
  }

  lemma OrderLength(w: World, l: Limits)
    requires OrderOk(w, l) && Agrees(w.c)
    ensures Distinct(w.c.order) && |w.c.order| == |w.c.lines|
  {
    StampedDistinct(w.c.order, w.touched, w.clock);
    DistinctCardinality(w.c.order);
    assert |w.c.lines| == |w.c.lines.Keys|;
  }

  lemma ReadKeepsSized(w: World, l: Limits, a: Address)
    requires Sized(w, l)
    ensures Sized(Apply(w, l, ReadAt(a)), l)
  {
    StepKeepsOrder(w, l, ReadAt(a));
    OrderLength(w, l);
    if Hit(w.c, a) {
      assert a in Elements(w.c.order);
      TouchAdds(w.c.order, l.capacity, a);
    }
  }

  lemma EvictedLines(c: Cache, victim: Address)
    requires Distinct(c.order) && Elements(c.order) == c.lines.Keys && |c.order| == |c.lines| && victim in c.order
    ensures var d := Evict(c, Some(victim));
            && Distinct(d.order) && Elements(d.order) == d.lines.Keys && |d.order| == |d.lines| == |c.lines| - 1
  {
    var d := Evict(c, Some(victim));
    WithoutDistinct(c.order, victim);
    assert Elements(d.order) == Elements(c.order) - {victim};
    assert d.lines.Keys == c.lines.Keys - {victim};
    MapSize(d.lines);
    MapSize(c.lines);
  }

  lemma EvictionMakesRoom(w: World, l: Limits, a: Address)
    requires Sized(w, l)
    ensures var v := Victim(w.c, l, a); var d := Evict(w.c, v);
            && (v.Some? ==> v.value in w.c.lines)
            && Distinct(d.order) && Elements(d.order) == d.lines.Keys && |d.order| == |d.lines|
            && |d.lines| + (if a in d.lines then 0 else 1) <= Room(l)
            && (a in d.lines <==> a in w.c.lines)
  {
    var v := Victim(w.c, l, a);
    OrderLength(w, l);
    hide OrderOk;
    if v.Some? {
      assert v.value in Elements(w.c.order);
      EvictedLines(w.c, v.value);
    } else if a !in w.c.lines && |w.c.lines| >= l.maxSize {
      assert w.c.order == [];
    }
  }

  lemma WriteKeepsSized(w: World, l: Limits, a: Address, data: Bytes, now: real)
    requires Sized(w, l) && l.capacity >= Room(l)
    ensures Sized(Apply(w, l, WriteAt(a, data, now)), l)
    ensures !WriteFails(w.c, l, a)
  {
    StepKeepsOrder(w, l, WriteAt(a, data, now));
    EvictionMakesRoom(w, l, a);
    assert !WriteFails(w.c, l, a);
    WriteLines(w.c, l, a, data, now);
    var d := Evict(w.c, Victim(w.c, l, a));
    var c := Write(w.c, l, a, data, now);
    assert c.order == Touch(d.order, l.capacity, a);
    hide Write, Evict, Victim, OrderOk;
    assert a in d.order <==> a in Elements(d.order);
    TouchAdds(d.order, l.capacity, a);
    MapSize(c.lines);
    MapSize(d.lines);
  }

  lemma CleanUpKeepsSized(w: World, l: Limits, now: real)
    requires Sized(w, l)
    ensures Sized(Apply(w, l, CleanUpAt(now)), l)
  {
    StepKeepsOrder(w, l, CleanUpAt(now));
    var gone := ExpiredLines(w.c, l, now);
    var c := CleanUp(w.c, l, now);
    KeptElements(w.c.order, gone);
    hide OrderOk;
    assert c.lines.Keys == w.c.lines.Keys - gone;
    SubsetCardinality(c.lines.Keys, w.c.lines.Keys);
    MapSize(c.lines);
    MapSize(w.c.lines);
  }

  lemma KeptElements(order: seq<Address>, gone: set<Address>)
    ensures Elements(Kept(order, gone)) == Elements(order) - gone
  {
    forall x ensures x in Kept(order, gone) <==> x in order && x !in gone {
      KeptMembers(order, gone, x);
    }
  }

  lemma MarkKeepsSized(w: World, l: Limits, step: Step)
    requires Sized(w, l) && (step.SnoopAt? || step.InvalidateAt?)
    ensures Sized(Apply(w, l, step), l)
  {
    StepKeepsOrder(w, l, step);
    var c := Apply(w, l, step).c;
    assert c.lines.Keys == w.c.lines.Keys;
    assert |c.lines| == |c.lines.Keys| && |w.c.lines| == |w.c.lines.Keys|;
  }

  lemma {:induction false} AlwaysSized(l: Limits, steps: seq<Step>)
    requires l.capacity >= Room(l)
    ensures Sized(After(l, steps), l)
  {
    if steps != [] {
      var w, step := After(l, steps[..|steps| - 1]), steps[|steps| - 1];
      AlwaysSized(l, steps[..|steps| - 1]);
      match step
      case ReadAt(a) => ReadKeepsSized(w, l, a);
      case WriteAt(a, data, now) => WriteKeepsSized(w, l, a, data, now);
      case CleanUpAt(now) => CleanUpKeepsSized(w, l, now);
      case _ => MarkKeepsSized(w, l, step);
    }
  }

  /** A cache of a positive size no larger than its order's capacity never holds more lines than its
      size, and no write of it fails. */
  lemma {:induction false} NeverOverfull(l: Limits, steps: seq<Step>, a: Address)
    requires 1 <= l.maxSize <= l.capacity
    ensures var c := After(l, steps).c;
            |c.lines| <= l.maxSize && Elements(c.order) == c.lines.Keys && !WriteFails(c, l, a)
  {
    AlwaysSized(l, steps);
    WriteKeepsSized(After(l, steps), l, a, [], 0.0);
  }

  /** A write that finds the cache full evicts a line, and no line was touched longer ago. */
  lemma {:induction false} VictimIsOldest(l: Limits, steps: seq<Step>, a: Address)
    requires 1 <= l.maxSize <= l.capacity
    requires a !in After(l, steps).c.lines && |After(l, steps).c.lines| == l.maxSize
    ensures var w := After(l, steps); var v := Victim(w.c, l, a);
            && v.Some? && v.value in w.c.lines && v.value in w.touched
            && forall b :: b in w.c.lines ==> b in w.touched && w.touched[v.value] <= w.touched[b]
  {
    var w := After(l, steps);
    AlwaysSized(l, steps);
    EvictionMakesRoom(w, l, a);
    OrderLength(w, l);
    forall b | b in w.c.lines ensures b in w.touched && w.touched[w.c.order[0]] <= w.touched[b] {
      assert b in Elements(w.c.order);
      var i :| 0 <= i < |w.c.order| && w.c.order[i] == b;
    }
  }

  /** A write evicts a line if and only if its address is not cached and the cache is full; then it is one line,
      none was touched longer ago, and every other line stays. */
  lemma {:induction false} EvictsExactly(l: Limits, steps: seq<Step>, a: Address, data: Bytes, now: real)
    returns (victim: Option<Address>)
    requires 1 <= l.maxSize <= l.capacity
    ensures var w := After(l, steps); var v := Apply(w, l, WriteAt(a, data, now));
            && (victim.Some? <==> a !in w.c.lines && |w.c.lines| == l.maxSize)
            && v.c.lines.Keys == (if victim.Some? then w.c.lines.Keys - {victim.value} else w.c.lines.Keys) + {a}
            && (forall x :: x in v.c.lines && x != a ==> x in w.c.lines && v.c.lines[x] == w.c.lines[x])
            && (victim.Some? ==>
                  && victim.value in w.c.lines && victim.value in w.touched
                  && forall b :: b in w.c.lines ==> b in w.touched && w.touched[victim.value] <= w.touched[b])
  {
    var w := After(l, steps);
    NeverOverfull(l, steps, a);
    victim := Victim(w.c, l, a);
    WriteLines(w.c, l, a, data, now);
    if a !in w.c.lines && |w.c.lines| == l.maxSize {
      VictimIsOldest(l, steps, a);
    }
  }

  // ---- exactly when the order covers the lines --------------------------------

  /** Writes of the addresses 0, 1, ..., n - 1. */
  function Fill(n: nat): seq<Step> {
    if n == 0 then [] else Fill(n - 1) + [WriteAt(n - 1, [], 0.0)]
  }

  lemma FillStep(l: Limits, n: nat)
    requires n > 0
    ensures After(l, Fill(n)) == Apply(After(l, Fill(n - 1)), l, WriteAt(n - 1, [], 0.0))
  {
    assert Fill(n)[..|Fill(n)| - 1] == Fill(n - 1);
  }

  ghost function Upto(n: nat): (r: set<Address>)
    ensures n !in r && forall a :: a in r ==> a < n
  {
    if n == 0 then {} else Upto(n - 1) + {n - 1}
  }

  lemma FillNothing(l: Limits)
    ensures After(l, Fill(0)).c == EMPTY
  {
  }

  lemma {:induction false} FillFills(l: Limits, n: nat)
    requires n <= Room(l)
    ensures After(l, Fill(n)).c.lines.Keys == Upto(n) && |After(l, Fill(n)).c.lines| == n
  {
    hide After, Fill, Apply;
    if n == 0 {
      FillNothing(l);
    } else {
      FillFills(l, n - 1);
      FillStep(l, n);
      NoEvictionYet(l, n - 1);
      NoEvictionAdds(After(l, Fill(n - 1)), l, n - 1);
    }
  }

  lemma NoEvictionYet(l: Limits, n: nat)
    requires n < Room(l) && |After(l, Fill(n)).c.lines| == n
    ensures Victim(After(l, Fill(n)).c, l, n) == None
  {
    if n >= l.maxSize {
      FillNothing(l);
    }
  }

  lemma NoEvictionAdds(w: World, l: Limits, a: Address)
    requires Victim(w.c, l, a) == None && a !in w.c.lines
    ensures var c := Apply(w, l, WriteAt(a, [], 0.0)).c;
            c.lines.Keys == w.c.lines.Keys + {a} && |c.lines| == |w.c.lines| + 1
  {
    WriteLines(w.c, l, a, [], 0.0);
    MapSize(Write(w.c, l, a, [], 0.0).lines);
    MapSize(w.c.lines);
  }

  /** The order covers exactly the cached lines in every run if and only if its capacity is at least
      the cache's size, and at least one. */
  lemma AgreementExactly(l: Limits)
    ensures l.capacity >= Room(l) <==> forall steps :: Agrees(After(l, steps).c)
  {
    if l.capacity >= Room(l) {
      forall steps ensures Agrees(After(l, steps).c) {
        AlwaysSized(l, steps);
      }
    } else {
      var n := l.capacity + 1;
      var w := After(l, Fill(n));
      FillFills(l, n);
      OrderAlwaysOk(l, Fill(n));
      if Agrees(w.c) {
        OrderLength(w, l);
      }
      assert !Agrees(After(l, Fill(n)).c);
    }
  }
}
