/**
  Which votes a candidate may count if Election Safety is to hold in every run.

  A filter decides by the term a vote was decided in, the term its answer is
  stamped with, and the candidate's own term. The program has no filter at all.
  One old vote that a filter lets pass is enough for a run of three nodes, from
  the initial cluster, that ends with two leaders of one term.
*/
module RaftSplit {
  import opened Util
  import opened Raft
  import opened RaftCluster
  import opened RaftRuns
  import opened RaftSafety

  function Three(): Cluster {
    Cluster(
      map["A" := Fresh("A", ["B", "C"]), "B" := Fresh("B", ["A", "C"]), "C" := Fresh("C", ["A", "B"])],
      multiset{}, {}, map[], {}, {})
  }

  lemma ThreeIsInitial()
    ensures Initial(Three())
  {
    assert Elements(["B", "C"]) == {"B", "C"};
    assert Elements(["A", "C"]) == {"A", "C"};
    assert Elements(["A", "B"]) == {"A", "B"};
  }

  // ---- an old vote that passes splits a term --------------------------------

  /** A stands until `term`, and B gives A its vote of that term. */
  lemma FirstVote(f: Filter, term: nat) returns (run: seq<Step>, t: Cluster)
    requires term >= 1
    ensures ValidRun(Three(), run) && t == After(Three(), run)
    ensures TermsMatch(Three(), run) && Obeys(f, Three(), run)
    ensures t.nodes == map[
              "A" := Node("A", ["B", "C"], Candidate, term, Some("A"), [], ["A"], None),
              "B" := Node("B", ["A", "C"], Follower, term, Some("A"), [], [], None),
              "C" := Fresh("C", ["A", "B"])]
    ensures Pending("B", SendVoteResponse(At("A"), true), term) in t.tasks
  {
    hide After, ValidRun, TermsMatch, Obeys, Apply;
    var s := Three();
    EmptyRun(f, s);
    run, t := StandUntil(f, s, [], "A", term);
    assert "B" in s.nodes["A"].peers;
    run, t := Transmit(f, s, run, Pending("A", SendVoteRequest("B", START), term));
    run, t := Receive(f, s, run, Envelope("A", "B", Request("A", term), term));
  }

  /** C stands until `term`, and B, whatever it did in earlier terms, gives C its vote of that term. */
  lemma SecondVote(f: Filter, before: seq<Step>, term: nat) returns (run: seq<Step>, t: Cluster)
    requires ValidRun(Three(), before)
    requires var u := After(Three(), before);
             && "B" in u.nodes && u.nodes["B"].term < term && u.nodes["B"].log == []
             && "C" in u.nodes && u.nodes["C"] == Fresh("C", ["A", "B"])
    ensures Continues(f, Three(), before, run) && t == After(Three(), run)
    ensures var u := After(Three(), before);
            && t.nodes == u.nodes["B" := u.nodes["B"].(role := Follower, term := term, votedFor := Some("C"))]
                                 ["C" := Node("C", ["A", "B"], Candidate, term, Some("C"), [], ["C"], None)]
            && u.net <= t.net
            && Pending("B", SendVoteResponse(At("C"), true), term) in t.tasks
            && forall q :: q in u.tasks && q.src == "B" ==> q in t.tasks
  {
    hide After, ValidRun, TermsMatch, Obeys, Apply;
    var s := Three();
    var u := After(s, before);
    run, t := StandUntil(f, s, before, "C", term);
    assert "B" in u.nodes["C"].peers;
    run, t := Transmit(f, s, run, Pending("C", SendVoteRequest("B", START), term));
    run, t := Receive(f, s, run, Envelope("C", "B", Request("C", term), term));
  }

  /** The vote of B arrives at a candidate that has only its own: one more makes a majority of three. */
  lemma VoteElects(f: Filter, before: seq<Step>, id: Id, stamped: nat, decidedIn: nat)
    returns (run: seq<Step>, t: Cluster)
    requires ValidRun(Three(), before)
    requires Enabled(After(Three(), before), Deliver(Envelope("B", id, Grant("B", stamped), decidedIn)))
    requires var n := After(Three(), before).nodes[id];
             && n.role == Candidate && n.votes == [id] && id != "B" && |n.peers| == 2
             && stamped <= n.term && f(decidedIn, stamped, n.term)
    ensures ValidRun(Three(), run) && t == After(Three(), run)
    ensures Obeys(f, Three(), before) ==> Obeys(f, Three(), run)
    ensures TermsMatch(Three(), before) && stamped == After(Three(), before).nodes[id].term
            ==> TermsMatch(Three(), run)
    ensures var u := After(Three(), before);
            && Leads(t, id, u.nodes[id].term) && t.net == u.net && u.tasks <= t.tasks
            && t.nodes == u.nodes[id := t.nodes[id]] && t.nodes[id].log == u.nodes[id].log
  {
    hide After, ValidRun, TermsMatch, Obeys, Apply;
    run, t := Receive(f, Three(), before, Envelope("B", id, Grant("B", stamped), decidedIn));
  }

  /** B sends its vote of `decidedIn` once it has reached term `stamped` by standing itself. */
  lemma StampedVote(f: Filter, decidedIn: nat, stamped: nat) returns (run: seq<Step>, t: Cluster)
    requires 1 <= decidedIn <= stamped
    ensures ValidRun(Three(), run) && t == After(Three(), run) && Obeys(f, Three(), run)
    ensures t.nodes.Keys == {"A", "B", "C"}
    ensures t.nodes["A"] == Node("A", ["B", "C"], Candidate, decidedIn, Some("A"), [], ["A"], None)
    ensures t.nodes["B"].id == "B" && t.nodes["B"].term == stamped && t.nodes["B"].log == []
    ensures t.nodes["C"] == Fresh("C", ["A", "B"])
    ensures Envelope("B", "A", Grant("B", stamped), decidedIn) in t.net
  {
    hide After, ValidRun, TermsMatch, Obeys, Apply;
    run, t := FirstVote(f, decidedIn);
    if decidedIn < stamped {
      run, t := StandUntil(f, Three(), run, "B", stamped);
    }
    run, t := Transmit(f, Three(), run, Pending("B", SendVoteResponse(At("A"), true), decidedIn));
  }

  /** A and C both lead `term`, and neither has an entry yet. */
  ghost predicate LeadEmpty(s: Cluster, term: nat) {
    && Leads(s, "A", term) && s.nodes["A"].log == []
    && Leads(s, "C", term) && s.nodes["C"].log == []
  }

  /** Stamped before the term it is counted in: A stands until `current` and counts the old answer there.
      Then B gives C its vote of that term. */
  lemma EarlyStamped(f: Filter, decidedIn: nat, stamped: nat, current: nat) returns (run: seq<Step>)
    requires 1 <= decidedIn <= stamped < current
    requires f(decidedIn, stamped, current) && f(current, current, current)
    ensures ValidRun(Three(), run) && Obeys(f, Three(), run)
    ensures LeadEmpty(After(Three(), run), current)
  {
    hide After, ValidRun, TermsMatch, Obeys, Apply;
    var s, t := Three(), Three();
    run, t := StampedVote(f, decidedIn, stamped);
    run, t := StandUntil(f, s, run, "A", current);
    run, t := VoteElects(f, run, "A", stamped, decidedIn);
    run, t := SecondVote(f, run, current);
    run, t := Transmit(f, s, run, Pending("B", SendVoteResponse(At("C"), true), current));
    run, t := VoteElects(f, run, "C", current, current);
  }

  /** Stamped with the term it is counted in: B sends its old answer to A only after it has given C its
      vote of `current`. */
  lemma LateStamped(f: Filter, decidedIn: nat, current: nat) returns (run: seq<Step>)
    requires 1 <= decidedIn < current
    requires f(decidedIn, current, current) && f(current, current, current)
    ensures ValidRun(Three(), run) && Obeys(f, Three(), run) && TermsMatch(Three(), run)
    ensures LeadEmpty(After(Three(), run), current)
  {
    hide After, ValidRun, TermsMatch, Obeys, Apply;
    var s, t := Three(), Three();
    run, t := FirstVote(f, decidedIn);
    run, t := SecondVote(f, run, current);
    run, t := Transmit(f, s, run, Pending("B", SendVoteResponse(At("C"), true), current));
    run, t := Transmit(f, s, run, Pending("B", SendVoteResponse(At("A"), true), decidedIn));
    run, t := VoteElects(f, run, "C", current, current);
    run, t := StandUntil(f, s, run, "A", current);
    run, t := VoteElects(f, run, "A", current, decidedIn);
  }

  /** The program: every vote passes. */
  predicate AnyVote(decidedIn: nat, stamped: int, current: nat) {
    true
  }

  /** B grants A in term 1; A stands again in term 2 and tallies that old vote; B votes for C in term 2. */
  lemma OldVoteCounted() returns (run: seq<Step>)
    ensures Initial(Three()) && ValidRun(Three(), run)
    ensures Leads(After(Three(), run), "A", 2) && Leads(After(Three(), run), "C", 2)
  {
    ThreeIsInitial();
    run := EarlyStamped(AnyVote, 1, 1, 2);
  }

  /** Comparing terms on receipt would not be enough. B grants A in term 1 but sends its answer only
      after granting C in term 2, so the old vote is stamped with the new term. */
  lemma LateStampedVote() returns (run: seq<Step>)
    ensures Initial(Three()) && ValidRun(Three(), run) && TermsMatch(Three(), run)
    ensures Leads(After(Three(), run), "A", 2) && Leads(After(Three(), run), "C", 2)
  {
    ThreeIsInitial();
    run := LateStamped(AnyVote, 1, 2);
  }

  // ---- the filters that keep Election Safety --------------------------------

  /** No node is anything but a follower in term 0; and what a node sends is stamped no earlier than it was
      scheduled, in a term that the node has reached. */
  ghost predicate Dated(s: Cluster) {
    && (forall id :: id in s.nodes ==> s.nodes[id].role == Follower || s.nodes[id].term >= 1)
    && (forall p :: p in s.tasks ==> p.src in s.nodes && 1 <= p.bornIn <= s.nodes[p.src].term)
    && (forall e :: e in s.net ==> e.src in s.nodes && 1 <= e.bornIn <= e.msg.term <= s.nodes[e.src].term)
  }

  /** What `id` schedules in its present term is dated. */
  lemma NewDated(s: Cluster, s': Cluster, id: Id, tasks: seq<Task>)
    requires Dated(s) && s.nodes.Keys == s'.nodes.Keys && id in s.nodes
    requires forall x :: x in s.nodes ==> s.nodes[x].term <= s'.nodes[x].term
    requires s'.tasks == s.tasks + Schedule(id, tasks, s'.nodes[id].term)
    requires tasks != [] ==> s'.nodes[id].term >= 1
    ensures forall p :: p in s'.tasks ==> p.src in s'.nodes && 1 <= p.bornIn <= s'.nodes[p.src].term
  {
    forall p | p in s'.tasks ensures p.src in s'.nodes && 1 <= p.bornIn <= s'.nodes[p.src].term {
      if p !in s.tasks {
        ScheduledBy(id, tasks, s'.nodes[id].term, p);
      }
    }
  }

  lemma DeliverKeepsDated(s: Cluster, e: Envelope)
    requires Dated(s) && Enabled(s, Deliver(e))
    ensures Dated(ApplyDeliver(s, e))
  {
    hide Schedule;
    EveryMessageEvolves(s.nodes[e.dst], e.msg);
    NewDated(s, ApplyDeliver(s, e), e.dst, MessageTasks(s.nodes[e.dst], e.msg));
  }

  lemma TimeoutKeepsDated(s: Cluster, id: Id)
    requires Dated(s) && Enabled(s, Timeout(id))
    ensures Dated(ApplyTimeout(s, id))
  {
    hide Schedule, ElectionTasks;
    NewDated(s, ApplyTimeout(s, id), id, ElectionTasks(s.nodes[id]));
  }

  lemma BeatKeepsDated(s: Cluster, id: Id)
    requires Dated(s) && Enabled(s, Beat(id))
    ensures Dated(Apply(s, Beat(id)))
  {
    hide Schedule, HeartbeatTasks;
    NewDated(s, Apply(s, Beat(id)), id, HeartbeatTasks(s.nodes[id]));
  }

  lemma StepKeepsDated(s: Cluster, step: Step)
    requires Dated(s) && Enabled(s, step)
    ensures Dated(Apply(s, step))
  {
    match step
    case Deliver(e) => DeliverKeepsDated(s, e);
    case Timeout(id) => TimeoutKeepsDated(s, id);
    case Beat(id) => BeatKeepsDated(s, id);
    case _ =>
  }

  /** Of the votes that can arrive, `f` lets none pass that was decided in an earlier term. */
  ghost predicate Strict(f: Filter) {
    forall decidedIn: nat, stamped: nat, current: nat ::
      1 <= decidedIn <= stamped <= current && decidedIn < current ==> !f(decidedIn, stamped, current)
  }

  lemma {:induction false} RunKeepsDated(s: Cluster, steps: seq<Step>)
    requires Dated(s) && ValidRun(s, steps)
    ensures Dated(After(s, steps))
    decreases |steps|
  {
    hide Dated, Apply;
    if steps != [] {
      StepKeepsDated(s, steps[0]);
      RunKeepsDated(Apply(s, steps[0]), steps[1..]);
    }
  }

  lemma {:induction false} StrictRunIsFresh(f: Filter, s: Cluster, steps: seq<Step>)
    requires Dated(s) && ValidRun(s, steps) && Obeys(f, s, steps) && Strict(f)
    ensures FreshRun(s, steps)
    ensures Dated(After(s, steps))
    decreases |steps|
  {
    if steps != [] {
      StepKeepsDated(s, steps[0]);
      StrictRunIsFresh(f, Apply(s, steps[0]), steps[1..]);
      assert Admits(OnlyFresh, s, steps[0]);
    }
  }

  /** Election Safety: in every run whose candidates count only votes that `f` lets pass, whoever leads a
      term at one moment and whoever leads it at a later one are the same node. */
  ghost predicate Safe(f: Filter) {
    forall s, before, after, a, b, term ::
      && Initial(s) && ValidRun(s, before) && Obeys(f, s, before) && Leads(After(s, before), a, term)
      && ValidRun(After(s, before), after) && Obeys(f, After(s, before), after)
      && Leads(After(After(s, before), after), b, term)
      ==> a == b
  }

  lemma StrictIsSafe(f: Filter)
    requires Strict(f)
    ensures Safe(f)
  {
    forall s, before, after, a, b, term |
      && Initial(s) && ValidRun(s, before) && Obeys(f, s, before) && Leads(After(s, before), a, term)
      && ValidRun(After(s, before), after) && Obeys(f, After(s, before), after)
      && Leads(After(After(s, before), after), b, term)
      ensures a == b
    {
      StrictRunIsFresh(f, s, before);
      StrictRunIsFresh(f, After(s, before), after);
      ElectionSafety(s, before, after, a, b);
    }
  }

  /** One old vote that passes leads to two leaders of one term, wherever its terms lie. */
  lemma TwoLeaders(f: Filter, decidedIn: nat, stamped: nat, current: nat) returns (run: seq<Step>)
    requires 1 <= decidedIn <= stamped <= current && decidedIn < current
    requires f(decidedIn, stamped, current) && f(current, current, current)
    ensures Initial(Three()) && ValidRun(Three(), run) && Obeys(f, Three(), run)
    ensures LeadEmpty(After(Three(), run), current)
  {
    ThreeIsInitial();
    if stamped < current {
      run := EarlyStamped(f, decidedIn, stamped, current);
    } else {
      run := LateStamped(f, decidedIn, current);
    }
  }

  lemma OldVoteSplits(f: Filter, decidedIn: nat, stamped: nat, current: nat)
    requires 1 <= decidedIn <= stamped <= current && decidedIn < current
    requires f(decidedIn, stamped, current) && f(current, current, current)
    ensures !Safe(f)
  {
    var s := Three();
    var run := TwoLeaders(f, decidedIn, stamped, current);
    EmptyRun(f, After(s, run));
    assert Leads(After(s, run), "A", current) && Leads(After(After(s, run), []), "C", current);
  }

  /** A filter that lets every vote pass that is decided, sent and counted in one term keeps Election
      Safety in all runs of all clusters if and only if it lets no older vote pass. */
  lemma SafeFilterExactly(f: Filter)
    requires forall term: nat :: term >= 1 ==> f(term, term, term)
    ensures Safe(f) <==> Strict(f)
  {
    if Strict(f) {
      StrictIsSafe(f);
    } else {
      var decidedIn: nat, stamped: nat, current: nat :|
        1 <= decidedIn <= stamped <= current && decidedIn < current && f(decidedIn, stamped, current);
      OldVoteSplits(f, decidedIn, stamped, current);
    }
  }

  /** No comparison of the stamped term with the candidate's term repairs the handler, whatever it is: the
      term in which the vote was decided has to travel with the answer. */
  lemma NoReceiptCheckSuffices(check: (int, nat) -> bool)
    requires forall term: nat :: term >= 1 ==> check(term, term)
    ensures !Safe((decidedIn: nat, stamped: int, current: nat) => check(stamped, current))
  {
    OldVoteSplits((decidedIn: nat, stamped: int, current: nat) => check(stamped, current), 1, 2, 2);
  }

  // ---- and those that keep the logs apart -----------------------------------

  ghost predicate EntryAt(s: Cluster, id: Id, i: nat, term: nat) {
    id in s.nodes && i < |s.nodes[id].log| && s.nodes[id].log[i].term == term
  }

  /** In every run that obeys `f`, entries of one term are in the log of one node. */
  ghost predicate LogsApart(f: Filter) {
    forall s, steps, a, b, i: nat, j: nat, term ::
      && Initial(s) && ValidRun(s, steps) && Obeys(f, s, steps)
      && EntryAt(After(s, steps), a, i, term) && EntryAt(After(s, steps), b, j, term)
      ==> a == b
  }

  ghost predicate SamePrefix(s: Cluster, a: Id, i: nat, b: Id, j: nat)
    requires a in s.nodes && i < |s.nodes[a].log| && b in s.nodes && j < |s.nodes[b].log|
  {
    s.nodes[a].log[i].index == s.nodes[b].log[j].index
    ==> i == j && s.nodes[a].log[..i + 1] == s.nodes[b].log[..j + 1]
  }

  /** Log Matching: in every run that obeys `f`, logs with an entry of one index and term agree up to it. */
  ghost predicate LogsMatch(f: Filter) {
    forall s, steps, a, b, i: nat, j: nat, term ::
      && Initial(s) && ValidRun(s, steps) && Obeys(f, s, steps)
      && EntryAt(After(s, steps), a, i, term) && EntryAt(After(s, steps), b, j, term)
      ==> SamePrefix(After(s, steps), a, i, b, j)
  }

  lemma {:induction false} StrictKeepsEntries(f: Filter, s: Cluster, steps: seq<Step>, a: Id, i: nat, b: Id, j: nat,
                                              term: nat)
    requires Strict(f) && Initial(s) && ValidRun(s, steps) && Obeys(f, s, steps)
    requires EntryAt(After(s, steps), a, i, term) && EntryAt(After(s, steps), b, j, term)
    ensures a == b && SamePrefix(After(s, steps), a, i, b, j)
  {
    assert Dated(s);
    hide Initial, ValidRun, After, Obeys, Strict, FreshRun;
    StrictRunIsFresh(f, s, steps);
    LogsShareNoTerm(s, steps, a, b, i, j);
    if After(s, steps).nodes[a].log[i].index == After(s, steps).nodes[b].log[j].index {
      LogMatching(s, steps, a, b, i, j);
    }
  }

  lemma StrictKeepsLogs(f: Filter)
    requires Strict(f)
    ensures LogsApart(f) && LogsMatch(f)
  {
    hide Strict, Initial, SamePrefix;
    forall s, steps, a, b, i: nat, j: nat, term |
      && Initial(s) && ValidRun(s, steps) && Obeys(f, s, steps)
      && EntryAt(After(s, steps), a, i, term) && EntryAt(After(s, steps), b, j, term)
      ensures a == b && SamePrefix(After(s, steps), a, i, b, j)
    {
      StrictKeepsEntries(f, s, steps, a, i, b, j, term);
    }
  }

  /** The two leaders accept a command each: two different entries of one index and term. */
  lemma OldVoteMixesLogs(f: Filter, decidedIn: nat, stamped: nat, current: nat)
    requires 1 <= decidedIn <= stamped <= current && decidedIn < current
    requires f(decidedIn, stamped, current) && f(current, current, current)
    ensures !LogsApart(f) && !LogsMatch(f)
  {
    hide After, ValidRun, TermsMatch, Obeys, Initial;
    var s, t := Three(), Three();
    var run := TwoLeaders(f, decidedIn, stamped, current);
    run, t := Order(f, s, run, "A", "x");
    run, t := Order(f, s, run, "C", "y");
    assert EntryAt(t, "A", 0, current) && EntryAt(t, "C", 0, current);
    assert t.nodes["A"].log[..1][0] != t.nodes["C"].log[..1][0];
    assert !SamePrefix(t, "A", 0, "C", 0);
  }

  /** A filter that lets every vote pass that is decided, sent and counted in one term keeps logs of different nodes
      apart, and keeps Log Matching, in all runs of all clusters if and only if it lets no older vote pass. */
  lemma LogFilterExactly(f: Filter)
    requires forall term: nat :: term >= 1 ==> f(term, term, term)
    ensures LogsApart(f) <==> Strict(f)
    ensures LogsMatch(f) <==> Strict(f)
  {
    if Strict(f) {
      StrictKeepsLogs(f);
    } else {
      var decidedIn: nat, stamped: nat, current: nat :|
        1 <= decidedIn <= stamped <= current && decidedIn < current && f(decidedIn, stamped, current);
      OldVoteMixesLogs(f, decidedIn, stamped, current);
    }
  }
}
