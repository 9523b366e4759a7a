/**
  Readers and writers: how long a shared lock stays shared, which readers are
  safe from writers, and when an exclusive request succeeds over a reader.
*/
module LockReaders {
  import opened Util
  import opened LockManager
  import opened LockRuns
  import opened LockAnswers

  // ---- how long a lock stays shared ------------------------------------------

  ghost predicate HeldShared(w: World, r: Resource) {
    r in w.table.locks && w.table.locks[r].lockType == Shared
  }

  /** The record of `r` goes over to a writer, or away: its holder upgrades, or it is released or has expired and
      no reader heads the queue. */
  predicate EndsSharing(w: World, step: Step, r: Resource) {
    || (step.Acquire? && step.resource == r && EntryOf(w.table, r, step.lockType, step.client) == Upgrade)
    || (EndsTenure(w, step, r) && (Queue(w.table, r) == [] || Queue(w.table, r)[0].lockType == Exclusive))
  }

  /** `r` is held shared at every moment of the run. */
  ghost predicate StaysShared(w: World, steps: seq<Step>, r: Resource)
    requires ValidRun(w, steps)
    decreases |steps|
  {
    HeldShared(w, r) && (steps != [] ==> StaysShared(Apply(w, steps[0]), steps[1..], r))
  }

  ghost predicate SharingLasts(w: World, steps: seq<Step>, r: Resource)
    requires ValidRun(w, steps)
    decreases |steps|
  {
    steps == [] || (!EndsSharing(w, steps[0], r) && SharingLasts(Apply(w, steps[0]), steps[1..], r))
  }

  /** Only a poll of the holder's own client tells anybody in the run that it has `r` exclusively. */
  ghost predicate NoWriterButPolls(w: World, steps: seq<Step>, r: Resource)
    requires ValidRun(w, steps)
    decreases |steps|
  {
    steps == [] ||
    ((forall client :: Answers(w, steps[0], r, Exclusive, client) ==>
        FindsSharedLock(w, steps[0], r) && w.table.locks[r].holder == client)
     && NoWriterButPolls(Apply(w, steps[0]), steps[1..], r))
  }

  lemma SharedStep(w: World, step: Step, r: Resource)
    requires HeldShared(w, r) && Enabled(w, step)
    ensures HeldShared(Apply(w, step), r) <==> !EndsSharing(w, step, r)
  {
    LockStep(w, step, r);
    assert HeldShared(Apply(w, step), r) <==>
           LockAfter(w, step, r).Some? && LockAfter(w, step, r).value.lockType == Shared;
    hide Apply;
  }

  lemma SharedAnswers(w: World, step: Step, r: Resource, client: Client)
    requires HeldShared(w, r) && Enabled(w, step) && !EndsSharing(w, step, r)
    requires Answers(w, step, r, Exclusive, client)
    ensures FindsSharedLock(w, step, r) && w.table.locks[r].holder == client
  {
  }

  /** A shared lock stays shared at every moment of a run if and only if its holder never upgrades it and it
      never ends with nobody or a writer at the head of its queue; and as long as it does, no client is told
      that it has the resource exclusively, except by a poll that finds its client to be the holder. */
  lemma {:induction false} SharedExactly(w: World, steps: seq<Step>, r: Resource)
    requires HeldShared(w, r) && ValidRun(w, steps)
    ensures StaysShared(w, steps, r) <==> SharingLasts(w, steps, r)
    ensures StaysShared(w, steps, r) ==> NoWriterButPolls(w, steps, r)
    decreases |steps|
  {
    hide Apply, EndsSharing, FindsSharedLock, Answers;
    if steps != [] {
      var v := Apply(w, steps[0]);
      SharedStep(w, steps[0], r);
      if HeldShared(v, r) {
        forall client | Answers(w, steps[0], r, Exclusive, client)
          ensures FindsSharedLock(w, steps[0], r) && w.table.locks[r].holder == client
        {
          SharedAnswers(w, steps[0], r, client);
        }
        SharedExactly(v, steps[1..], r);
      }
    }
  }

  // ---- which readers are safe ------------------------------------------------

  /** Every exclusive success that the run answers for `r` goes to `client`. */
  ghost predicate NoOtherWriter(w: World, steps: seq<Step>, r: Resource, client: Client)
    requires ValidRun(w, steps)
    decreases |steps|
  {
    steps == [] ||
    ((forall c :: Answers(w, steps[0], r, Exclusive, c) ==> c == client)
     && NoOtherWriter(Apply(w, steps[0]), steps[1..], r, client))
  }

  /** `client` does not release `r`, and no sweep finds it expired. */
  predicate LeavesAlone(w: World, step: Step, r: Resource, client: Client) {
    match step
    case ReleaseBy(x, c) => !(x == r && c == client)
    case SweepNow => r !in ExpiredLocks(w.table, w.now)
    case _ => true
  }

  ghost predicate LeftAlone(w: World, steps: seq<Step>, r: Resource, client: Client)
    requires ValidRun(w, steps)
    decreases |steps|
  {
    steps == [] || (LeavesAlone(w, steps[0], r, client) && LeftAlone(Apply(w, steps[0]), steps[1..], r, client))
  }

  /** Until `client` releases `r` or a record of `r` expires, nobody else is told to have it exclusively. */
  ghost predicate SafeFromWriters(w: World, r: Resource, client: Client) {
    forall steps :: ValidRun(w, steps) && LeftAlone(w, steps, r, client) ==> NoOtherWriter(w, steps, r, client)
  }

  ghost predicate Holds(w: World, r: Resource, client: Client) {
    r in w.table.locks && w.table.locks[r].holder == client
  }

  lemma HolderStep(w: World, step: Step, r: Resource, client: Client)
    requires Holds(w, r, client) && Enabled(w, step)
    ensures forall c :: Answers(w, step, r, Exclusive, c) ==> c == client
    ensures LeavesAlone(w, step, r, client) ==> Holds(Apply(w, step), r, client)
  {
    LockStep(w, step, r);
    assert Holds(Apply(w, step), r, client) <==>
           LockAfter(w, step, r).Some? && LockAfter(w, step, r).value.holder == client;
    hide Apply;
  }

  lemma {:induction false} HolderSafe(w: World, steps: seq<Step>, r: Resource, client: Client)
    requires Holds(w, r, client) && ValidRun(w, steps) && LeftAlone(w, steps, r, client)
    ensures NoOtherWriter(w, steps, r, client)
    decreases |steps|
  {
    hide Apply, Holds, LeavesAlone, Answers;
    if steps != [] {
      HolderStep(w, steps[0], r, client);
      HolderSafe(Apply(w, steps[0]), steps[1..], r, client);
    }
  }

  lemma OthersExposed(w: World, r: Resource, client: Client)
    requires !Holds(w, r, client)
    ensures !SafeFromWriters(w, r, client)
  {
    var id := NewName(w.used);
    var writer;
    if r in w.table.locks {
      writer := w.table.locks[r].holder;
    } else {
      writer := NewName({client});
    }
    var step := Acquire(r, Exclusive, writer, id, 30.0);
    assert [step][1..] == [];
    assert ValidRun(w, [step]) && LeftAlone(w, [step], r, client);
    assert Answers(w, step, r, Exclusive, writer) && !NoOtherWriter(w, [step], r, client);
  }

  /** A client is safe from writers, until it releases or the record expires, if and only if it is the holder. */
  lemma SafeExactly(w: World, r: Resource, client: Client)
    ensures SafeFromWriters(w, r, client) <==> Holds(w, r, client)
  {
    if Holds(w, r, client) {
      forall steps | ValidRun(w, steps) && LeftAlone(w, steps, r, client)
        ensures NoOtherWriter(w, steps, r, client)
      {
        HolderSafe(w, steps, r, client);
      }
    } else {
      OthersExposed(w, r, client);
    }
  }

  /** A success for a shared request keeps writers out, until its client releases or the record expires, if and
      only if it is not the answer to joining a lock that another client holds. */
  lemma SharedAnswerExactly(w: World, step: Step, r: Resource, client: Client)
    requires Enabled(w, step) && Answers(w, step, r, Shared, client)
    ensures SafeFromWriters(Apply(w, step), r, client) <==>
            !(step.Acquire? && EntryOf(w.table, r, Shared, client) == Join && w.table.locks[r].holder != client)
  {
    SafeExactly(Apply(w, step), r, client);
  }

  // ---- when a writer succeeds over a reader ----------------------------------

  /** A world with what its clients know. `reading` has the clients told that they have a resource shared, until
      they call release for it or, being the holder, lose it to a sweep. `joined` has those that got in by joining
      a lock of another client, until they are no longer reading. `dropped` has those whose registration a
      release by the holder has deleted since. */
  datatype Told = Told(
    w: World, reading: set<(Resource, Client)>, joined: set<(Resource, Client)>, dropped: set<(Resource, Client)>)

  function Untold(w: World): Told {
    Told(w, {}, {}, {})
  }

  /** The clients that a step tells that they have a resource shared. */
  function ToldShared(w: World, step: Step): set<(Resource, Client)>
    requires Enabled(w, step)
  {
    var g := Granted(w, step);
    if g.Some? && Answers(w, step, g.value.0, Shared, g.value.1) then {g.value} else {}
  }

  /** The step lets a client into a lock that another client holds. */
  function Joined(w: World, step: Step): set<(Resource, Client)> {
    match step
    case Acquire(r, lockType, client, _, _) =>
      if EntryOf(w.table, r, lockType, client) == Join && w.table.locks[r].holder != client then {(r, client)} else {}
    case _ => {}
  }

  function Lost(w: World, step: Step): set<(Resource, Client)> {
    match step
    case ReleaseBy(r, client) => {(r, client)}
    case SweepNow => set r | r in ExpiredLocks(w.table, w.now) :: (r, w.table.locks[r].holder)
    case _ => {}
  }

  function Deregistered(w: World, step: Step): set<(Resource, Client)> {
    match step
    case ReleaseBy(r, client) =>
      if Releases(w.table, r, client) then set c | c in Readers(w.table, r) :: (r, c) else {}
    case _ => {}
  }

  function Tell(t: Told, step: Step): Told
    requires Enabled(t.w, step)
  {
    var told := ToldShared(t.w, step);
    Told(Apply(t.w, step), t.reading - Lost(t.w, step) + told,
         t.joined - Lost(t.w, step) + Joined(t.w, step),
         t.dropped + Deregistered(t.w, step) - Lost(t.w, step) - told)
  }

  ghost function TellAll(t: Told, steps: seq<Step>): Told
    requires ValidRun(t.w, steps)
    decreases |steps|
  {
    if steps == [] then t else TellAll(Tell(t, steps[0]), steps[1..])
  }

  lemma {:induction false} TellExtend(t: Told, steps: seq<Step>, step: Step)
    requires ValidRun(t.w, steps) && Enabled(After(t.w, steps), step)
    ensures TellAll(t, steps).w == After(t.w, steps)
    ensures ValidRun(t.w, steps + [step]) && TellAll(t, steps + [step]) == Tell(TellAll(t, steps), step)
    decreases |steps|
  {
    hide Apply, Enabled;
    if steps == [] {
      assert steps + [step] == [step] && [step][1..] == [];
    } else {
      assert (steps + [step])[1..] == steps[1..] + [step];
      TellExtend(Tell(t, steps[0]), steps[1..], step);
    }
  }

  /** A reading client is the holder or has joined, and a client that has joined is reading. */
  ghost predicate JoinedOk(t: Told, r: Resource, c: Client) {
    && ((r, c) in t.reading ==> Holds(t.w, r, c) || (r, c) in t.joined)
    && ((r, c) in t.joined ==> (r, c) in t.reading)
  }

  /** A reading client is the holder, or registered, or dropped; and a dropped one is not registered. */
  ghost predicate RegisteredOk(t: Told, r: Resource, c: Client) {
    && ((r, c) in t.reading ==> Holds(t.w, r, c) || c in Readers(t.w.table, r) || (r, c) in t.dropped)
    && ((r, c) in t.dropped ==> c !in Readers(t.w.table, r))
  }

  ghost predicate ReadersOk(t: Told) {
    forall r, c :: JoinedOk(t, r, c) && RegisteredOk(t, r, c)
  }

  lemma TellKeepsJoined(t: Told, step: Step, r: Resource, c: Client)
    requires JoinedOk(t, r, c) && Enabled(t.w, step)
    ensures JoinedOk(Tell(t, step), r, c)
  {
  }

  lemma TellKeepsRegistered(t: Told, step: Step, r: Resource, c: Client)
    requires RegisteredOk(t, r, c) && Enabled(t.w, step)
    ensures RegisteredOk(Tell(t, step), r, c)
  {
  }

  lemma {:induction false} RunKeepsReaders(t: Told, steps: seq<Step>)
    requires ReadersOk(t) && ValidRun(t.w, steps)
    ensures ReadersOk(TellAll(t, steps)) && TellAll(t, steps).w == After(t.w, steps)
    decreases |steps|
  {
    hide Apply, JoinedOk, RegisteredOk;
    if steps != [] {
      forall r, c ensures JoinedOk(Tell(t, steps[0]), r, c) && RegisteredOk(Tell(t, steps[0]), r, c) {
        TellKeepsJoined(t, steps[0], r, c);
        TellKeepsRegistered(t, steps[0], r, c);
      }
      RunKeepsReaders(Tell(t, steps[0]), steps[1..]);
    }
  }

  /** Some client other than `writer` still reads `r`. */
  ghost predicate OthersRead(t: Told, r: Resource, writer: Client) {
    exists b :: b != writer && (r, b) in t.reading
  }

  /** Some client other than `writer` has joined a lock of `r` that another client held, and has not released `r`
      or lost it since. */
  ghost predicate OthersJoined(t: Told, r: Resource, writer: Client) {
    exists b :: b != writer && (r, b) in t.joined
  }

  /** In every run, an exclusive success goes over a client that still reads if and only if some other client had
      joined a lock that was not its own, and has neither released nor lost it since. Every client it goes over
      is still registered or was dropped by a release, and not both. */
  lemma {:induction false} WriterOverReaderExactly(w: World, steps: seq<Step>, step: Step, r: Resource, writer: Client)
    requires Initial(w) && ValidRun(w, steps)
    requires Enabled(After(w, steps), step) && Answers(After(w, steps), step, r, Exclusive, writer)
    ensures var t := TellAll(Untold(w), steps);
            t.w == After(w, steps) && (OthersRead(t, r, writer) <==> OthersJoined(t, r, writer))
    ensures var t := TellAll(Untold(w), steps);
            forall b :: b != writer && (r, b) in t.reading ==>
              !Holds(t.w, r, b) && (b in Readers(t.w.table, r) <==> (r, b) !in t.dropped)
  {
    var t := TellAll(Untold(w), steps);
    RunKeepsReaders(Untold(w), steps);
    forall b | b != writer
      ensures (r, b) in t.reading <==> (r, b) in t.joined
      ensures (r, b) in t.reading ==> !Holds(t.w, r, b) && (b in Readers(t.w.table, r) <==> (r, b) !in t.dropped)
    {
      assert JoinedOk(t, r, b) && RegisteredOk(t, r, b);
    }
  }

  // Three runs in which a writer succeeds over b, which has been told success and has neither released nor expired.

  ghost predicate SucceedsOverB(t: Told, step: Step, writer: Client) {
    Enabled(t.w, step) && Answers(t.w, step, "r", Exclusive, writer) && writer != "b" && ("r", "b") in t.reading
  }

  function Start(now: real): World {
    World(EMPTY, now, now, map[], {}, map[], map[], {})
  }

  lemma TellThen(t: Told, steps: seq<Step>, step: Step) returns (run: seq<Step>, u: Told)
    requires ValidRun(t.w, steps) && TellAll(t, steps).w == After(t.w, steps) && Enabled(After(t.w, steps), step)
    ensures run == steps + [step] && ValidRun(t.w, run) && u == TellAll(t, run) == Tell(TellAll(t, steps), step)
    ensures u.w == After(t.w, run)
  {
    TellExtend(t, steps, step);
    Extend(t.w, steps, step);
    run, u := steps + [step], Tell(TellAll(t, steps), step);
  }

  /** The lock of a, and b that has joined it. */
  lemma TwoReaders(now: real) returns (run: seq<Step>, t: Told)
    ensures Initial(Start(now)) && ValidRun(Start(now), run)
    ensures t == TellAll(Untold(Start(now)), run) && t.w == After(Start(now), run)
    ensures t.w.table == Table(map["r" := Lock("r", Shared, "a", "1", now, 30.0)], map["r" := {"b"}], map[])
    ensures t.reading == {("r", "a"), ("r", "b")} && t.dropped == {}
    ensures t.w.now == now && t.w.used == {"1", "2"}
  {
    var start := Untold(Start(now));
    hide TellAll, After, ValidRun;
    assert ValidRun(start.w, []) && TellAll(start, []) == start && After(start.w, []) == start.w by {
      TellNothing(start);
    }
    run, t := TellThen(start, [], Acquire("r", Shared, "a", "1", 30.0));
    run, t := TellThen(start, run, Acquire("r", Shared, "b", "2", 30.0));
    assert Readers(EMPTY, "r") + {"b"} == {"b"};
  }

  lemma TellNothing(t: Told)
    ensures ValidRun(t.w, []) && TellAll(t, []) == t && After(t.w, []) == t.w
  {
  }

  /** The holder upgrades. */
  lemma UpgradeOverB(now: real) returns (run: seq<Step>, step: Step)
    ensures Initial(Start(now)) && ValidRun(Start(now), run)
    ensures var t := TellAll(Untold(Start(now)), run);
            SucceedsOverB(t, step, "a") && "b" in Readers(t.w.table, "r")
  {
    var t;
    run, t := TwoReaders(now);
    step := Acquire("r", Exclusive, "a", "3", 30.0);
  }

  /** The holder releases, which deletes the registration of b along with its own lock. */
  lemma ReleaseDropsB(now: real) returns (run: seq<Step>, step: Step)
    ensures Initial(Start(now)) && ValidRun(Start(now), run)
    ensures var t := TellAll(Untold(Start(now)), run);
            SucceedsOverB(t, step, "c") && ("r", "b") in t.dropped
  {
    var t;
    hide TellAll, After, ValidRun, Initial;
    run, t := TwoReaders(now);
    run, t := TellThen(Untold(Start(now)), run, ReleaseBy("r", "a"));
    step := Acquire("r", Exclusive, "c", "3", 30.0);
  }

  /** The lock of the holder expires, and b stays registered for a resource that nobody holds. */
  lemma SweepLeavesB(now: real) returns (run: seq<Step>, step: Step)
    ensures Initial(Start(now)) && ValidRun(Start(now), run)
    ensures var t := TellAll(Untold(Start(now)), run);
            SucceedsOverB(t, step, "c") && "b" in Readers(t.w.table, "r") && "r" !in t.w.table.locks
  {
    var t;
    hide TellAll, After, ValidRun, Initial;
    run, t := TwoReaders(now);
    run, t := TellThen(Untold(Start(now)), run, Tick(31.0));
    run, t := TellThen(Untold(Start(now)), run, SweepNow);
    step := Acquire("r", Exclusive, "c", "3", 30.0);
  }
}
