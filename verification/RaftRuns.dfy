/**
  How a run of a cluster goes on, one step at a time, and what each kind of step
  does to the part of the cluster that the constructed runs look at.
*/
module RaftRuns {
  import opened Util
  import opened Raft
  import opened RaftCluster

  const START := Position(0, 0)

  function Request(candidate: Id, term: nat): Message {
    Message(RequestVote, term, At(candidate), Some(candidate), candidate, START, false)
  }

  function Grant(voter: Id, term: nat): Message {
    Message(VoteResponse, term, At(voter), Some(voter), "", START, true)
  }

  ghost predicate Leads(s: Cluster, id: Id, term: nat) {
    id in s.nodes && s.nodes[id].role == Leader && s.nodes[id].term == term
  }

  /** A delivered vote response carries its receiver's current term: the comparison that the
      response handler leaves out would not reject it. */
  predicate TermMatches(s: Cluster, step: Step)
    requires Enabled(s, step)
  {
    step.Deliver? && step.envelope.msg.kind == VoteResponse
    ==> step.envelope.msg.term == s.nodes[step.envelope.dst].term
  }

  ghost predicate TermsMatch(s: Cluster, steps: seq<Step>)
    requires ValidRun(s, steps)
    decreases |steps|
  {
    steps == [] || (TermMatches(s, steps[0]) && TermsMatch(Apply(s, steps[0]), steps[1..]))
  }

  lemma {:induction false} Extend(f: Filter, s: Cluster, steps: seq<Step>, step: Step)
    requires ValidRun(s, steps) && Enabled(After(s, steps), step)
    ensures ValidRun(s, steps + [step]) && After(s, steps + [step]) == Apply(After(s, steps), step)
    ensures TermsMatch(s, steps) && TermMatches(After(s, steps), step) ==> TermsMatch(s, steps + [step])
    ensures Obeys(f, s, steps) && Admits(f, After(s, steps), step) ==> Obeys(f, s, steps + [step])
    decreases |steps|
  {
    hide Apply, TermMatches, Admits;
    if steps == [] {
      assert steps + [step] == [step];
    } else {
      assert (steps + [step])[1..] == steps[1..] + [step];
      Extend(f, Apply(s, steps[0]), steps[1..], step);
    }
  }

  lemma EmptyRun(f: Filter, s: Cluster)
    ensures ValidRun(s, []) && After(s, []) == s && TermsMatch(s, []) && Obeys(f, s, [])
  {
  }

  /** `r` continues `steps` and breaks none of the rules that `steps` keeps. */
  ghost predicate Continues(f: Filter, s: Cluster, steps: seq<Step>, r: seq<Step>)
    requires ValidRun(s, steps)
  {
    && ValidRun(s, r)
    && (TermsMatch(s, steps) ==> TermsMatch(s, r))
    && (Obeys(f, s, steps) ==> Obeys(f, s, r))
  }

  lemma Scheduled(id: Id, tasks: seq<Task>, bornIn: nat, i: nat)
    requires i < |tasks|
    ensures Pending(id, tasks[i], bornIn) in Schedule(id, tasks, bornIn)
  {
    var all := seq(|tasks|, j requires 0 <= j < |tasks| => Pending(id, tasks[j], bornIn));
    assert all[i] in multiset(all);
  }

  /** The node `n` after it has stood for election until it reached `term`. */
  function Standing(n: Node, term: nat): Node {
    n.(role := Candidate, term := term, votedFor := Some(n.id), votes := [n.id])
  }

  lemma Stand(f: Filter, s: Cluster, steps: seq<Step>, id: Id) returns (r: seq<Step>, t: Cluster)
    requires ValidRun(s, steps) && Enabled(After(s, steps), Timeout(id))
    ensures Continues(f, s, steps, r) && t == After(s, r)
    ensures var u := After(s, steps); var n := u.nodes[id];
            && t.nodes == u.nodes[id := Standing(n, n.term + 1)]
            && t.net == u.net && u.tasks <= t.tasks
            && forall peer :: peer in n.peers ==>
                 Pending(id, SendVoteRequest(peer, LastPosition(n.log)), n.term + 1) in t.tasks
  {
    hide After, ValidRun, TermsMatch, Obeys, Schedule;
    var u := After(s, steps);
    Extend(f, s, steps, Timeout(id));
    r, t := steps + [Timeout(id)], Apply(u, Timeout(id));
    var n := u.nodes[id];
    forall peer | peer in n.peers
      ensures Pending(id, SendVoteRequest(peer, LastPosition(n.log)), n.term + 1) in t.tasks
    {
      var i :| 0 <= i < |n.peers| && n.peers[i] == peer;
      Scheduled(id, ElectionTasks(n), n.term + 1, i);
    }
  }

  /** A node that does not lead can reach any later term by standing again and again. */
  lemma {:induction false} StandUntil(f: Filter, s: Cluster, steps: seq<Step>, id: Id, term: nat)
    returns (r: seq<Step>, t: Cluster)
    requires ValidRun(s, steps) && Enabled(After(s, steps), Timeout(id))
    requires After(s, steps).nodes[id].term < term
    ensures Continues(f, s, steps, r) && t == After(s, r)
    ensures var u := After(s, steps); var n := u.nodes[id];
            && t.nodes == u.nodes[id := Standing(n, term)]
            && t.net == u.net && u.tasks <= t.tasks
            && forall peer :: peer in n.peers ==>
                 Pending(id, SendVoteRequest(peer, LastPosition(n.log)), term) in t.tasks
    decreases term - After(s, steps).nodes[id].term
  {
    hide After, ValidRun, TermsMatch, Obeys, Apply;
    r, t := Stand(f, s, steps, id);
    if t.nodes[id].term < term {
      r, t := StandUntil(f, s, r, id, term);
    }
  }

  lemma Transmit(f: Filter, s: Cluster, steps: seq<Step>, p: Pending) returns (r: seq<Step>, t: Cluster)
    requires ValidRun(s, steps) && Enabled(After(s, steps), Send(p))
    requires Stamp(After(s, steps).nodes[p.src], p.task).Some?
    ensures Continues(f, s, steps, r) && t == After(s, r)
    ensures var u := After(s, steps);
            && t.nodes == u.nodes && u.net <= t.net
            && Envelope(p.src, Destination(p.task).node, Stamp(u.nodes[p.src], p.task).value, p.bornIn) in t.net
            && forall q :: q in u.tasks && q != p ==> q in t.tasks
  {
    hide After, ValidRun, TermsMatch, Obeys;
    Extend(f, s, steps, Send(p));
    r, t := steps + [Send(p)], Apply(After(s, steps), Send(p));
  }

  /** A message arrives; if it is a vote for a candidate, `f` has to let it pass. */
  lemma Receive(f: Filter, s: Cluster, steps: seq<Step>, e: Envelope) returns (r: seq<Step>, t: Cluster)
    requires ValidRun(s, steps) && Enabled(After(s, steps), Deliver(e))
    requires e.msg.kind == VoteResponse ==>
               var n := AdoptTerm(After(s, steps).nodes[e.dst], e.msg.term);
               n.role == Candidate ==> f(e.bornIn, e.msg.term, n.term)
    ensures ValidRun(s, r) && t == After(s, r) && (Obeys(f, s, steps) ==> Obeys(f, s, r))
    ensures TermsMatch(s, steps) && (e.msg.kind == VoteResponse ==> e.msg.term == After(s, steps).nodes[e.dst].term)
            ==> TermsMatch(s, r)
    ensures var u := After(s, steps);
            && t.nodes == u.nodes[e.dst := OnMessage(u.nodes[e.dst], e.msg)]
            && t.net == u.net && u.tasks <= t.tasks
            && (e.msg.kind == RequestVote ==>
                  Pending(e.dst, SendVoteResponse(e.msg.sender, Grants(AdoptTerm(u.nodes[e.dst], e.msg.term), e.msg)),
                          t.nodes[e.dst].term) in t.tasks)
  {
    hide After, ValidRun, TermsMatch, Obeys, Schedule;
    var u := After(s, steps);
    Extend(f, s, steps, Deliver(e));
    r, t := steps + [Deliver(e)], Apply(u, Deliver(e));
    if e.msg.kind == RequestVote {
      Scheduled(e.dst, MessageTasks(u.nodes[e.dst], e.msg), t.nodes[e.dst].term, 0);
    }
  }

  lemma Order(f: Filter, s: Cluster, steps: seq<Step>, id: Id, command: string) returns (r: seq<Step>, t: Cluster)
    requires ValidRun(s, steps) && id in After(s, steps).nodes
    ensures Continues(f, s, steps, r) && t == After(s, r)
    ensures var u := After(s, steps); t.nodes == u.nodes[id := Submit(u.nodes[id], command, map[])]
  {
    hide After, ValidRun, TermsMatch, Obeys;
    Extend(f, s, steps, Command(id, command, map[]));
    r, t := steps + [Command(id, command, map[])], Apply(After(s, steps), Command(id, command, map[]));
  }
}
