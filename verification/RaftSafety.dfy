/**
  What holds in every run of a cluster of Raft nodes.

  The first group needs nothing of the network. The second needs that no
  candidate tallies a vote decided in an earlier term: the response handler
  never compares terms, and `RaftSplit` shows that nothing less would do.
*/
module RaftSafety {
  import opened Util
  import opened Raft
  import opened RaftCluster

  lemma InitialInv(s: Cluster)
    requires Initial(s)
    ensures Inv(s)
  {
  }

  lemma {:induction false} RunKeepsInv(s: Cluster, steps: seq<Step>)
    requires Inv(s) && ValidRun(s, steps)
    ensures Inv(After(s, steps))
    decreases |steps|
  {
    hide Inv;
    if steps != [] {
      StepKeepsInv(s, steps[0]);
      RunKeepsInv(Apply(s, steps[0]), steps[1..]);
    }
  }

  lemma GrowsTransitive(s: Cluster, t: Cluster, u: Cluster)
    requires Grows(s, t) && Grows(t, u)
    ensures Grows(s, u)
  {
  }

  lemma {:induction false} RunGrows(s: Cluster, steps: seq<Step>)
    requires Inv(s) && ValidRun(s, steps)
    ensures Grows(s, After(s, steps))
    decreases |steps|
  {
    if steps != [] {
      var t := Apply(s, steps[0]);
      StepGrows(s, steps[0]);
      StepKeepsInv(s, steps[0]);
      RunGrows(t, steps[1..]);
      GrowsTransitive(s, t, After(t, steps[1..]));
    }
  }

  // ---- with no assumption on the network ------------------------------------

  /** Section 5.2 of the Raft paper: no node gives its vote of one term to two candidates. */
  lemma {:induction false} OneVotePerTerm(s: Cluster, steps: seq<Step>, a: Ballot, b: Ballot)
    requires Initial(s) && ValidRun(s, steps)
    requires a in After(s, steps).ballots && b in After(s, steps).ballots
    requires a.voter == b.voter && a.term == b.term
    ensures a.candidate == b.candidate
  {
    InitialInv(s);
    RunKeepsInv(s, steps);
  }

  /** The same, on the wire: two granting answers that a node decided in one term go to one candidate. */
  lemma {:induction false} OneGrantPerTerm(s: Cluster, steps: seq<Step>, e: Envelope, f: Envelope)
    requires Initial(s) && ValidRun(s, steps)
    requires e in After(s, steps).net && f in After(s, steps).net
    requires e.msg.kind == VoteResponse && e.msg.granted && f.msg.kind == VoteResponse && f.msg.granted
    requires e.src == f.src && e.bornIn == f.bornIn
    ensures e.dst == f.dst
  {
    InitialInv(s);
    RunKeepsInv(s, steps);
    assert EnvelopeOk(After(s, steps), e) && EnvelopeOk(After(s, steps), f);
  }

  /** At any two moments of a run: terms only rise, a vote stands for the rest of its term,
      and a log is only ever extended (leader append-only, Figure 3 of the Raft paper). */
  lemma {:induction false} NothingTakenBack(s: Cluster, before: seq<Step>, after: seq<Step>, id: Id)
    requires Initial(s) && ValidRun(s, before) && ValidRun(After(s, before), after)
    requires id in After(s, before).nodes
    ensures var t := After(s, before); var u := After(t, after);
            && id in u.nodes
            && t.nodes[id].term <= u.nodes[id].term
            && (t.nodes[id].term == u.nodes[id].term && t.nodes[id].votedFor.Some?
                ==> u.nodes[id].votedFor == t.nodes[id].votedFor)
            && t.nodes[id].log <= u.nodes[id].log
  {
    InitialInv(s);
    RunKeepsInv(s, before);
    RunGrows(After(s, before), after);
  }

  /** Every log numbers its entries 1, 2, 3, ..., in non-decreasing terms that the node has
      reached, and each entry's term is one the node itself has won. */
  lemma {:induction false} LogsWellFormed(s: Cluster, steps: seq<Step>, id: Id, i: nat)
    requires Initial(s) && ValidRun(s, steps)
    requires id in After(s, steps).nodes && i < |After(s, steps).nodes[id].log|
    ensures var t := After(s, steps); var log := t.nodes[id].log;
            && log[i].index == i + 1
            && log[i].term <= t.nodes[id].term
            && (forall j :: i < j < |log| ==> log[i].term <= log[j].term)
            && HasWin(t, id, log[i].term)
  {
    InitialInv(s);
    RunKeepsInv(s, steps);
    assert NodeOk(After(s, steps), id);
  }

  /** Whoever a node believes to be leader did win an election, in a term the node has reached. */
  lemma {:induction false} KnownLeaderWon(s: Cluster, steps: seq<Step>, id: Id)
    requires Initial(s) && ValidRun(s, steps) && id in After(s, steps).nodes
    requires After(s, steps).nodes[id].leaderId.Some?
    ensures var t := After(s, steps); WonBy(t, t.nodes[id].leaderId.value, t.nodes[id].term)
  {
    InitialInv(s);
    RunKeepsInv(s, steps);
    assert NodeOk(After(s, steps), id);
  }

  /** A leader in office has a recorded win of its term, by distinct voters, a majority of the cluster. */
  lemma {:induction false} LeaderHasMajority(s: Cluster, steps: seq<Step>, id: Id) returns (w: Win)
    requires Initial(s) && ValidRun(s, steps) && id in After(s, steps).nodes
    requires After(s, steps).nodes[id].role == Leader
    ensures var t := After(s, steps);
            && w in t.wins && w.leader == id && w.term == t.nodes[id].term
            && Distinct(w.voters) && Elements(w.voters) <= t.nodes.Keys
            && 2 * |w.voters| > |t.nodes|
  {
    InitialInv(s);
    RunKeepsInv(s, steps);
    var t := After(s, steps);
    assert NodeOk(t, id);
    w :| w in t.wins && w.leader == id && w.term == t.nodes[id].term;
    assert WinOk(t, w);
    forall v | v in Elements(w.voters) ensures v in t.nodes.Keys {
      assert BackedVote(t, w, v);
    }
  }

  /** Section 5.4.1 of the Raft paper: when it granted its vote, every voter that elected a leader
      had a log no more up to date than the leader's. */
  lemma {:induction false} ElectionRestriction(s: Cluster, steps: seq<Step>, w: Win, v: Id) returns (b: Ballot)
    requires Initial(s) && ValidRun(s, steps)
    requires w in After(s, steps).wins && v in w.voters
    ensures b in After(s, steps).ballots && b.voter == v && b.candidate == w.leader
    ensures v in w.decidedIn && b.term == w.decidedIn[v]
    ensures UpToDate(w.last, b.voterLast)
  {
    InitialInv(s);
    RunKeepsInv(s, steps);
    var t := After(s, steps);
    assert WinOk(t, w) && BackedVote(t, w, v);
    b :| b in t.ballots && b.voter == v && b.term == w.decidedIn[v] && b.candidate == w.leader
         && UpToDate(w.last, b.claimed);
    assert BallotOk(t, b);
    UpToDateTransitive(w.last, b.claimed, b.voterLast);
  }

  lemma LoneStep(s: Cluster, step: Step, id: Id)
    requires s.nodes.Keys == {id} && s.nodes[id].peers == [] && s.nodes[id].role != Leader
    requires s.net == {} && s.tasks == multiset{} && Enabled(s, step)
    ensures var t := Apply(s, step);
            && t.nodes.Keys == {id} && t.nodes[id].peers == [] && t.nodes[id].role != Leader
            && t.net == {} && t.tasks == multiset{}
  {
    assert Schedule(id, [], s.nodes[id].term + 1) == multiset{};
    assert ElectionTasks(s.nodes[id]) == [];
  }

  /** A cluster of one never has a leader: only a vote response makes a node look at its tally. */
  lemma {:induction false} LoneNodeNeverLeads(s: Cluster, steps: seq<Step>, id: Id)
    requires s.nodes.Keys == {id} && s.nodes[id].peers == [] && s.nodes[id].role != Leader
    requires s.net == {} && s.tasks == multiset{}
    requires ValidRun(s, steps)
    ensures After(s, steps).nodes.Keys == {id} && After(s, steps).nodes[id].role != Leader
    decreases |steps|
  {
    if steps != [] {
      LoneStep(s, steps[0], id);
      LoneNodeNeverLeads(Apply(s, steps[0]), steps[1..], id);
    }
  }

  // ---- when tallied votes are fresh -----------------------------------------

  /** A candidate's tally holds only votes decided in the term it is a candidate of. */
  ghost predicate FreshTally(n: Node, decided: map<Id, nat>) {
    n.role == Candidate ==> forall v :: v in n.votes ==> v in decided && decided[v] == n.term
  }

  ghost predicate FreshTallies(s: Cluster) {
    forall id :: id in s.nodes ==> FreshTally(s.nodes[id], DecidedIn(s, id))
  }

  lemma DeliverKeepsFresh(n: Node, m: Message, decided: map<Id, nat>, bornIn: nat)
    requires FreshTally(n, decided)
    requires Tallies(n, m) && AdoptTerm(n, m.term).role == Candidate ==> bornIn == AdoptTerm(n, m.term).term
    ensures FreshTally(OnMessage(n, m), if Tallies(n, m) then decided[Voter(m) := bornIn] else decided)
    ensures Elects(n, m) ==>
              var decided' := if Tallies(n, m) then decided[Voter(m) := bornIn] else decided;
              forall v :: v in OnMessage(n, m).votes ==> v in decided' && decided'[v] == OnMessage(n, m).term
  {
    assert AdoptTerm(n, m.term).role == Candidate ==> AdoptTerm(n, m.term) == n;
  }

  lemma DeliveryKeepsFresh(s: Cluster, e: Envelope)
    requires Enabled(s, Deliver(e)) && Admits(OnlyFresh, s, Deliver(e))
    requires FreshTallies(s) && AllWinsFresh(s)
    ensures FreshTallies(ApplyDeliver(s, e)) && AllWinsFresh(ApplyDeliver(s, e))
  {
    var s' := ApplyDeliver(s, e);
    assert FreshTally(s.nodes[e.dst], DecidedIn(s, e.dst));
    DeliverKeepsFresh(s.nodes[e.dst], e.msg, DecidedIn(s, e.dst), e.bornIn);
    hide OnMessage, Tallies, Elects, FreshTally;
    forall id | id in s'.nodes ensures FreshTally(s'.nodes[id], DecidedIn(s', id)) {
      if id != e.dst {
        assert FreshTally(s.nodes[id], DecidedIn(s, id));
      }
    }
  }

  lemma ElectionKeepsFresh(s: Cluster, id: Id)
    requires id in s.nodes && NodeOk(s, id) && FreshTallies(s)
    ensures FreshTallies(ApplyTimeout(s, id))
  {
    var s' := ApplyTimeout(s, id);
    forall x | x in s'.nodes ensures FreshTally(s'.nodes[x], DecidedIn(s', x)) {
      if x != id {
        assert FreshTally(s.nodes[x], DecidedIn(s, x));
      }
    }
  }

  lemma StepKeepsFresh(s: Cluster, step: Step)
    requires NodesOk(s) && Enabled(s, step) && Admits(OnlyFresh, s, step)
    requires FreshTallies(s) && AllWinsFresh(s)
    ensures FreshTallies(Apply(s, step)) && AllWinsFresh(Apply(s, step))
  {
    match step
    case Timeout(id) =>
      assert NodeOk(s, id);
      ElectionKeepsFresh(s, id);
    case Deliver(e) =>
      DeliveryKeepsFresh(s, e);
    case _ =>
      var s' := Apply(s, step);
      forall id | id in s'.nodes ensures FreshTally(s'.nodes[id], DecidedIn(s', id)) {
        assert FreshTally(s.nodes[id], DecidedIn(s, id));
      }
  }

  lemma InitialFresh(s: Cluster)
    requires Initial(s)
    ensures FreshTallies(s) && AllWinsFresh(s)
  {
  }

  lemma {:induction false} RunKeepsFresh(s: Cluster, steps: seq<Step>)
    requires Inv(s) && ValidRun(s, steps) && FreshRun(s, steps)
    requires FreshTallies(s) && AllWinsFresh(s)
    ensures FreshTallies(After(s, steps)) && AllWinsFresh(After(s, steps))
    decreases |steps|
  {
    if steps != [] {
      StepKeepsFresh(s, steps[0]);
      StepKeepsInv(s, steps[0]);
      RunKeepsFresh(Apply(s, steps[0]), steps[1..]);
    }
  }

  // ---- exactly when two wins of one term are one ----------------------------

  /** A node that has won its present term no longer stands in it, so it wins no term twice. */
  ghost predicate Settled(s: Cluster, w: Win) {
    && w.leader in s.nodes && w.term <= s.nodes[w.leader].term
    && (w.term == s.nodes[w.leader].term ==> s.nodes[w.leader].role != Candidate)
  }

  ghost predicate WinsSettled(s: Cluster) {
    forall w :: w in s.wins ==> Settled(s, w)
  }

  ghost predicate SingleWins(wins: set<Win>) {
    forall w, x :: w in wins && x in wins && w.leader == x.leader && w.term == x.term ==> w == x
  }

  lemma MessageSettles(n: Node, m: Message)
    ensures n.term <= OnMessage(n, m).term
    ensures n.role != Candidate ==> OnMessage(n, m).role != Candidate
    ensures Elects(n, m) ==> n.role == Candidate && OnMessage(n, m).term == n.term && OnMessage(n, m).role == Leader
  {
  }

  lemma DeliverKeepsSettled(s: Cluster, e: Envelope)
    requires Enabled(s, Deliver(e)) && WinsSettled(s) && SingleWins(s.wins)
    ensures WinsSettled(ApplyDeliver(s, e)) && SingleWins(ApplyDeliver(s, e).wins)
  {
    MessageSettles(s.nodes[e.dst], e.msg);
    hide OnMessage, Elects, Votes, Tallies, MessageTasks;
    forall w | w in s.wins ensures Settled(ApplyDeliver(s, e), w) && (w.leader == e.dst ==> Settled(s, w)) {
      assert Settled(s, w);
    }
  }

  lemma StepKeepsSettled(s: Cluster, step: Step)
    requires Enabled(s, step) && WinsSettled(s) && SingleWins(s.wins)
    ensures WinsSettled(Apply(s, step)) && SingleWins(Apply(s, step).wins)
  {
    if step.Deliver? {
      DeliverKeepsSettled(s, step.envelope);
    } else {
      forall w | w in s.wins ensures Settled(Apply(s, step), w) {
        assert Settled(s, w);
      }
    }
  }

  lemma {:induction false} RunKeepsSettled(s: Cluster, steps: seq<Step>)
    requires ValidRun(s, steps) && WinsSettled(s) && SingleWins(s.wins)
    ensures WinsSettled(After(s, steps)) && SingleWins(After(s, steps).wins)
    decreases |steps|
  {
    if steps != [] {
      StepKeepsSettled(s, steps[0]);
      RunKeepsSettled(Apply(s, steps[0]), steps[1..]);
    }
  }

  /** `w` and `x` each count the vote of `v`, as it was decided in one term. */
  ghost predicate SameVote(w: Win, x: Win, v: Id) {
    v in w.decidedIn && v in x.decidedIn && w.decidedIn[v] == x.decidedIn[v]
  }

  /** Two majorities share a voter, and it had one vote to give in each term. */
  lemma SharedVoter(s: Cluster, w: Win, x: Win) returns (v: Id)
    requires Inv(s) && w in s.wins && x in s.wins
    ensures v in w.voters && v in x.voters && BackedVote(s, w, v) && BackedVote(s, x, v)
    ensures SameVote(w, x, v) ==> w.leader == x.leader
  {
    assert WinOk(s, w) && WinOk(s, x);
    DistinctCardinality(w.voters);
    DistinctCardinality(x.voters);
    forall v | v in Elements(w.voters) ensures v in s.nodes.Keys {
      assert BackedVote(s, w, v);
    }
    forall v | v in Elements(x.voters) ensures v in s.nodes.Keys {
      assert BackedVote(s, x, v);
    }
    assert |s.nodes| == |s.nodes.Keys|;
    SetsOverlap(Elements(w.voters), Elements(x.voters), s.nodes.Keys);
    v :| v in Elements(w.voters) && v in Elements(x.voters);
    assert BackedVote(s, w, v) && BackedVote(s, x, v);
  }

  /** In any run, whatever the network does: two wins of one term are by one node if and only if every
      voter that both counted had been counted with one and the same vote. */
  lemma {:induction false} WinsAgreeExactly(s: Cluster, steps: seq<Step>, w: Win, x: Win)
    requires Initial(s) && ValidRun(s, steps)
    requires w in After(s, steps).wins && x in After(s, steps).wins && w.term == x.term
    ensures w.leader == x.leader <==> forall v :: v in w.voters && v in x.voters ==> SameVote(w, x, v)
  {
    var t := After(s, steps);
    InitialInv(s);
    RunKeepsInv(s, steps);
    RunKeepsSettled(s, steps);
    if w.leader == x.leader {
      forall v | v in w.voters ensures SameVote(w, x, v) {
        assert WinOk(t, w);
        assert BackedVote(t, w, v);
      }
    } else {
      var v := SharedVoter(t, w, x);
    }
  }

  /** Two wins of one term, each with only votes decided in that term, are by one node. */
  lemma FreshWinsAgree(s: Cluster, w: Win, x: Win)
    requires Inv(s) && w in s.wins && x in s.wins && w.term == x.term
    requires FreshWin(w) && FreshWin(x)
    ensures w.leader == x.leader
  {
    var v := SharedVoter(s, w, x);
  }

  /** In any run, whatever the network does: two nodes can only have won one term if some voter was counted
      by both, by one of them with a vote that it had decided in an earlier term. */
  lemma {:induction false} SplitNeedsOldVote(s: Cluster, steps: seq<Step>, w: Win, x: Win) returns (v: Id)
    requires Initial(s) && ValidRun(s, steps)
    requires w in After(s, steps).wins && x in After(s, steps).wins
    requires w.term == x.term && w.leader != x.leader
    ensures v in w.voters && v in x.voters && v in w.decidedIn && v in x.decidedIn
    ensures w.decidedIn[v] != x.decidedIn[v]
    ensures w.decidedIn[v] < w.term || x.decidedIn[v] < x.term
  {
    InitialInv(s);
    RunKeepsInv(s, steps);
    v := SharedVoter(After(s, steps), w, x);
  }

  lemma LeadersAgree(t: Cluster, u: Cluster, a: Id, b: Id)
    requires Inv(t) && Inv(u) && Grows(t, u) && AllWinsFresh(u)
    requires a in t.nodes && t.nodes[a].role == Leader
    requires b in u.nodes && u.nodes[b].role == Leader
    requires t.nodes[a].term == u.nodes[b].term
    ensures a == b
  {
    assert NodeOk(t, a) && NodeOk(u, b);
    var w :| w in t.wins && w.leader == a && w.term == t.nodes[a].term;
    var x :| x in u.wins && x.leader == b && x.term == t.nodes[a].term;
    FreshWinsAgree(u, w, x);
  }

  /** Section 5.2 of the Raft paper, Election Safety: whoever leads a term at one moment of a run and
      whoever leads it at a later one are the same node. */
  lemma {:induction false} ElectionSafety(s: Cluster, before: seq<Step>, after: seq<Step>, a: Id, b: Id)
    requires Initial(s) && ValidRun(s, before) && ValidRun(After(s, before), after)
    requires FreshRun(s, before) && FreshRun(After(s, before), after)
    requires var t := After(s, before); var u := After(t, after);
             && a in t.nodes && t.nodes[a].role == Leader
             && b in u.nodes && u.nodes[b].role == Leader
             && t.nodes[a].term == u.nodes[b].term
    ensures a == b
  {
    hide Inv, Grows, FreshTallies;
    var t := After(s, before);
    InitialFresh(s);
    InitialInv(s);
    RunKeepsInv(s, before);
    RunKeepsFresh(s, before);
    RunKeepsInv(t, after);
    RunKeepsFresh(t, after);
    RunGrows(t, after);
    LeadersAgree(t, After(t, after), a, b);
  }

  /** Section 5.3 of the Raft paper: an entry of one term is in the log of that term's one leader,
      so logs of different nodes never hold entries of a common term. */
  lemma {:induction false} LogsShareNoTerm(s: Cluster, steps: seq<Step>, a: Id, b: Id, i: nat, j: nat)
    requires Initial(s) && ValidRun(s, steps) && FreshRun(s, steps)
    requires var t := After(s, steps);
             && a in t.nodes && i < |t.nodes[a].log| && b in t.nodes && j < |t.nodes[b].log|
             && t.nodes[a].log[i].term == t.nodes[b].log[j].term
    ensures a == b
  {
    var t := After(s, steps);
    InitialInv(s);
    RunKeepsInv(s, steps);
    RunKeepsFresh(s, steps);
    assert NodeOk(t, a) && NodeOk(t, b);
    var w :| w in t.wins && w.leader == a && w.term == t.nodes[a].log[i].term;
    var x :| x in t.wins && x.leader == b && x.term == t.nodes[b].log[j].term;
    FreshWinsAgree(t, w, x);
  }

  /** Section 5.3 of the Raft paper, Log Matching: logs with an entry of one index and term agree
      up to that entry. */
  lemma {:induction false} LogMatching(s: Cluster, steps: seq<Step>, a: Id, b: Id, i: nat, j: nat)
    requires Initial(s) && ValidRun(s, steps) && FreshRun(s, steps)
    requires var t := After(s, steps);
             && a in t.nodes && i < |t.nodes[a].log| && b in t.nodes && j < |t.nodes[b].log|
             && t.nodes[a].log[i].term == t.nodes[b].log[j].term
             && t.nodes[a].log[i].index == t.nodes[b].log[j].index
    ensures i == j && After(s, steps).nodes[a].log[..i + 1] == After(s, steps).nodes[b].log[..j + 1]
  {
    LogsShareNoTerm(s, steps, a, b, i, j);
    LogsWellFormed(s, steps, a, i);
    LogsWellFormed(s, steps, b, j);
  }
}
