/** Which nodes of which clusters can become leader at all. */
module RaftLeads {
  import opened Util
  import opened Raft
  import opened RaftCluster
  import opened RaftRuns
  import opened RaftSafety

  // ---- a run that elects a node ----------------------------------------------

  /** The node `id` stands in term 1 and has the votes of its first `k` peers; the others have done nothing,
      and its requests to them are still to be sent. */
  ghost predicate Polled(s: Cluster, u: Cluster, id: Id, k: nat) {
    && id in s.nodes && u.nodes.Keys == s.nodes.Keys
    && var peers := s.nodes[id].peers;
       && k <= |peers|
       && u.nodes[id] == Node(id, peers, Candidate, 1, Some(id), [], [id] + peers[..k], None)
       && (forall j :: k <= j < |peers| ==> peers[j] in s.nodes && u.nodes[peers[j]] == s.nodes[peers[j]])
       && (forall j :: k <= j < |peers| ==> Pending(id, SendVoteRequest(peers[j], START), 1) in u.tasks)
  }

  lemma PeersAreOthers(s: Cluster, id: Id)
    requires Initial(s) && id in s.nodes
    ensures forall j :: 0 <= j < |s.nodes[id].peers| ==>
              s.nodes[id].peers[j] in s.nodes && s.nodes[id].peers[j] != id
    ensures |s.nodes[id].peers| + 1 == |s.nodes|
  {
    forall j | 0 <= j < |s.nodes[id].peers|
      ensures s.nodes[id].peers[j] in s.nodes && s.nodes[id].peers[j] != id
    {
      assert s.nodes[id].peers[j] in Elements(s.nodes[id].peers);
    }
    ClusterSize(s, id);
  }

  /** The next peer is asked, and grants, in term 1. */
  lemma NextGrant(s: Cluster, steps: seq<Step>, id: Id, k: nat) returns (r: seq<Step>, t: Cluster)
    requires Initial(s) && ValidRun(s, steps) && FreshRun(s, steps) && Polled(s, After(s, steps), id, k)
    requires k < |s.nodes[id].peers|
    ensures ValidRun(s, r) && FreshRun(s, r) && t == After(s, r)
    ensures var u := After(s, steps); var p := s.nodes[id].peers[k];
            && p in s.nodes && p in t.nodes && t.nodes == u.nodes[p := t.nodes[p]]
            && Envelope(p, id, Grant(p, 1), 1) in t.net
            && forall j :: k < j < |s.nodes[id].peers| ==>
                 Pending(id, SendVoteRequest(s.nodes[id].peers[j], START), 1) in t.tasks
  {
    hide After, ValidRun, TermsMatch, Obeys, Apply;
    PeersAreOthers(s, id);
    var p := s.nodes[id].peers[k];
    assert Distinct(s.nodes[id].peers) && s.nodes[p] == Fresh(p, s.nodes[p].peers);
    hide Initial;
    r, t := Transmit(OnlyFresh, s, steps, Pending(id, SendVoteRequest(p, START), 1));
    r, t := Receive(OnlyFresh, s, r, Envelope(id, p, Request(id, 1), 1));
    r, t := Transmit(OnlyFresh, s, r, Pending(p, SendVoteResponse(At(id), true), 1));
  }

  /** Its answer is counted, still in term 1. */
  lemma NextVote(s: Cluster, steps: seq<Step>, id: Id, k: nat) returns (r: seq<Step>, t: Cluster)
    requires Initial(s) && ValidRun(s, steps) && FreshRun(s, steps) && Polled(s, After(s, steps), id, k)
    requires k < |s.nodes[id].peers| && k + 1 < Majority(s.nodes[id])
    ensures ValidRun(s, r) && FreshRun(s, r) && t == After(s, r)
    ensures if k + 2 == Majority(s.nodes[id]) then Leads(t, id, 1) else Polled(s, t, id, k + 1)
  {
    hide After, ValidRun, TermsMatch, Obeys, Apply;
    PeersAreOthers(s, id);
    var peers := s.nodes[id].peers;
    assert Distinct(peers);
    hide Initial;
    r, t := NextGrant(s, steps, id, k);
    r, t := Receive(OnlyFresh, s, r, Envelope(peers[k], id, Grant(peers[k], 1), 1));
    assert [id] + peers[..k] + [peers[k]] == [id] + peers[..k + 1];
  }

  lemma {:induction false} Gather(s: Cluster, steps: seq<Step>, id: Id, k: nat) returns (r: seq<Step>)
    requires Initial(s) && ValidRun(s, steps) && FreshRun(s, steps) && Polled(s, After(s, steps), id, k)
    requires k + 1 < Majority(s.nodes[id]) && |s.nodes| >= 2
    ensures ValidRun(s, r) && FreshRun(s, r) && Leads(After(s, r), id, 1)
    decreases |s.nodes[id].peers| - k
  {
    hide After, ValidRun, FreshRun, Apply;
    PeersAreOthers(s, id);
    hide Initial;
    var t;
    r, t := NextVote(s, steps, id, k);
    if k + 2 < Majority(s.nodes[id]) {
      r := Gather(s, r, id, k + 1);
    }
  }

  /** Every node of a cluster of two or more can be elected, by votes of one term alone. */
  lemma EveryNodeCanLead(s: Cluster, id: Id) returns (run: seq<Step>)
    requires Initial(s) && id in s.nodes && |s.nodes| >= 2
    ensures ValidRun(s, run) && FreshRun(s, run) && Leads(After(s, run), id, 1)
  {
    hide After, ValidRun, TermsMatch, Obeys, Apply;
    var t;
    PeersAreOthers(s, id);
    EmptyRun(OnlyFresh, s);
    run, t := Stand(OnlyFresh, s, [], id);
    var peers := s.nodes[id].peers;
    assert [id] + peers[..0] == [id];
    forall j | 0 <= j < |peers| ensures Pending(id, SendVoteRequest(peers[j], START), 1) in t.tasks {
      assert peers[j] in peers;
    }
    run := Gather(s, run, id, 0);
  }

  // ---- exactly which nodes can ------------------------------------------------

  lemma OnlyMember<T>(all: set<T>, x: T)
    requires x in all && |all| == 1
    ensures all == {x}
  {
    SubsetCardinality({x}, all);
  }

  /** In some run, whatever votes it counts, `id` is leader at the end. */
  ghost predicate CanLead(s: Cluster, id: Id) {
    exists steps :: ValidRun(s, steps) && id in After(s, steps).nodes && After(s, steps).nodes[id].role == Leader
  }

  /** And so in a run that counts no old vote. */
  ghost predicate CanLeadFreshly(s: Cluster, id: Id) {
    exists steps :: ValidRun(s, steps) && FreshRun(s, steps) && Leads(After(s, steps), id, 1)
  }

  /** A member of a cluster can become leader if and only if it is not alone; and if it can, it can in a
      run that counts no old vote. */
  lemma CanLeadExactly(s: Cluster, id: Id)
    requires Initial(s) && id in s.nodes
    ensures CanLead(s, id) <==> |s.nodes| >= 2
    ensures CanLead(s, id) <==> CanLeadFreshly(s, id)
  {
    if |s.nodes| >= 2 {
      var run := EveryNodeCanLead(s, id);
    } else if CanLead(s, id) {
      var steps :| ValidRun(s, steps) && id in After(s, steps).nodes && After(s, steps).nodes[id].role == Leader;
      PeersAreOthers(s, id);
      assert |s.nodes.Keys| == |s.nodes|;
      OnlyMember(s.nodes.Keys, id);
      LoneNodeNeverLeads(s, steps, id);
    }
  }

  /** Some run of a cluster elects a leader if and only if it has two nodes. */
  lemma LeaderPossibleExactly(s: Cluster)
    requires Initial(s)
    ensures (exists id :: id in s.nodes && CanLead(s, id)) <==> |s.nodes| >= 2
  {
    forall id | id in s.nodes ensures CanLead(s, id) <==> |s.nodes| >= 2 {
      CanLeadExactly(s, id);
    }
    if |s.nodes| >= 2 {
      var id := HasMember(s.nodes.Keys);
      assert CanLead(s, id);
    }
  }
}
