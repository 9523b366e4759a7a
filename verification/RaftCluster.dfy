/**
  A cluster of Raft nodes over an unreliable network, and the histories its
  safety properties speak of.

  Every handler is one step. A handler's sends are separate steps that read the
  sender's term when they run. Messages stay in `net` once sent, so they can be
  delivered late, twice, out of order or never.
*/
module RaftCluster {
  import opened Util
  import opened Raft

  /** A scheduled send, and its owner's term when it was scheduled. */
  datatype Pending = Pending(src: Id, task: Task, bornIn: nat)

  /** A sent message, and the term in which its send had been scheduled. */
  datatype Envelope = Envelope(src: Id, dst: Id, msg: Message, bornIn: nat)

  /** History: `voter` gave its vote of `term` to `candidate`; where its own log ended, and
      where the request said the candidate's log ended. */
  datatype Ballot = Ballot(voter: Id, term: nat, candidate: Id, voterLast: Position, claimed: Position)

  /** History: `leader` won `term` with `voters`, whose votes were decided in the terms
      `decidedIn`; `last` is where its log ended. */
  datatype Win = Win(leader: Id, term: nat, voters: seq<Id>, decidedIn: map<Id, nat>, last: Position)

  /** `decidedIn[id][v]` is the term in which the vote of `v` that `id` has counted was decided. */
  datatype Cluster = Cluster(
    nodes: map<Id, Node>, tasks: multiset<Pending>, net: set<Envelope>,
    decidedIn: map<Id, map<Id, nat>>, ballots: set<Ballot>, wins: set<Win>)

  datatype Step =
    | Timeout(id: Id)
    | Beat(id: Id)
    | Send(pending: Pending)
    | Deliver(envelope: Envelope)
    | Command(id: Id, command: string, data: map<string, string>)

  function DecidedIn(s: Cluster, id: Id): map<Id, nat> {
    if id in s.decidedIn then s.decidedIn[id] else map[]
  }

  function Schedule(id: Id, tasks: seq<Task>, bornIn: nat): multiset<Pending> {
    multiset(seq(|tasks|, i requires 0 <= i < |tasks| => Pending(id, tasks[i], bornIn)))
  }

  ghost predicate Initial(s: Cluster) {
    && (forall id :: id in s.nodes ==>
          && s.nodes[id] == Fresh(id, s.nodes[id].peers)
          && Distinct(s.nodes[id].peers)
          && Elements(s.nodes[id].peers) == s.nodes.Keys - {id})
    && s.tasks == multiset{} && s.net == {} && s.decidedIn == map[] && s.ballots == {} && s.wins == {}
  }

  predicate Enabled(s: Cluster, step: Step) {
    match step
    case Timeout(id) => id in s.nodes && s.nodes[id].role != Leader
    case Beat(id) => id in s.nodes && s.nodes[id].role == Leader
    case Send(p) => p in s.tasks && p.src in s.nodes
    case Deliver(e) => e in s.net && e.dst in s.nodes
    case Command(id, _, _) => id in s.nodes
  }

  function Apply(s: Cluster, step: Step): Cluster
    requires Enabled(s, step)
  {
    match step
    case Timeout(id) => ApplyTimeout(s, id)
    case Beat(id) => s.(tasks := s.tasks + Schedule(id, HeartbeatTasks(s.nodes[id]), s.nodes[id].term))
    case Send(p) => ApplySend(s, p)
    case Deliver(e) => ApplyDeliver(s, e)
    case Command(id, command, data) => s.(nodes := s.nodes[id := Submit(s.nodes[id], command, data)])
  }

  function ApplyTimeout(s: Cluster, id: Id): Cluster
    requires id in s.nodes
  {
    var n := s.nodes[id];
    var n' := StartElection(n);
    s.(nodes := s.nodes[id := n'],
       tasks := s.tasks + Schedule(id, ElectionTasks(n), n'.term),
       decidedIn := s.decidedIn[id := map[id := n'.term]],
       ballots := s.ballots + {Ballot(id, n'.term, id, LastPosition(n.log), LastPosition(n.log))})
  }

  function ApplySend(s: Cluster, p: Pending): Cluster
    requires p.src in s.nodes
  {
    var m := Stamp(s.nodes[p.src], p.task);
    s.(tasks := s.tasks - multiset{p},
       net := s.net + if m.Some? then {Envelope(p.src, Destination(p.task).node, m.value, p.bornIn)} else {})
  }

  function ApplyDeliver(s: Cluster, e: Envelope): Cluster
    requires e.dst in s.nodes
  {
    var n, m := s.nodes[e.dst], e.msg;
    var n' := OnMessage(n, m);
    var decided := if Tallies(n, m) then DecidedIn(s, e.dst)[Voter(m) := e.bornIn] else DecidedIn(s, e.dst);
    s.(nodes := s.nodes[e.dst := n'],
       tasks := s.tasks + Schedule(e.dst, MessageTasks(n, m), n'.term),
       decidedIn := s.decidedIn[e.dst := decided],
       ballots := s.ballots + if Votes(n, m) then
         {Ballot(e.dst, n'.term, m.candidateId, LastPosition(n.log), m.last)} else {},
       wins := s.wins + if Elects(n, m) then
         {Win(e.dst, n'.term, n'.votes, decided, LastPosition(n.log))} else {})
  }

  /** Receiving `m` makes `n` cast a vote, add a name to its tally, or become leader. */
  predicate Votes(n: Node, m: Message) {
    m.kind == RequestVote && Grants(AdoptTerm(n, m.term), m)
  }

  predicate Tallies(n: Node, m: Message) {
    m.kind == VoteResponse && Counts(AdoptTerm(n, m.term), m)
  }

  predicate Elects(n: Node, m: Message) {
    m.kind == VoteResponse && Wins(CountVote(AdoptTerm(n, m.term), m))
  }

  // ---- runs -----------------------------------------------------------------

  ghost predicate ValidRun(s: Cluster, steps: seq<Step>)
    decreases |steps|
  {
    steps == [] || (Enabled(s, steps[0]) && ValidRun(Apply(s, steps[0]), steps[1..]))
  }

  ghost function After(s: Cluster, steps: seq<Step>): Cluster
    requires ValidRun(s, steps)
    decreases |steps|
  {
    if steps == [] then s else After(Apply(s, steps[0]), steps[1..])
  }

  /** Which votes a candidate takes into its tally: by the term the vote was decided in, the term its
      answer is stamped with, and the candidate's own term. */
  type Filter = (nat, int, nat) -> bool

  /** Only votes decided in the candidate's own term. */
  predicate OnlyFresh(decidedIn: nat, stamped: int, current: nat) {
    decidedIn == current
  }

  /** If a candidate takes a vote into its tally in this step, `f` lets it. */
  predicate Admits(f: Filter, s: Cluster, step: Step)
    requires Enabled(s, step)
  {
    step.Deliver? ==>
      var e := step.envelope;
      var n := AdoptTerm(s.nodes[e.dst], e.msg.term);
      Tallies(s.nodes[e.dst], e.msg) && n.role == Candidate ==> f(e.bornIn, e.msg.term, n.term)
  }

  ghost predicate Obeys(f: Filter, s: Cluster, steps: seq<Step>)
    requires ValidRun(s, steps)
    decreases |steps|
  {
    steps == [] || (Admits(f, s, steps[0]) && Obeys(f, Apply(s, steps[0]), steps[1..]))
  }

  /** No candidate ever takes into its tally a vote that was decided in another term. */
  ghost predicate FreshRun(s: Cluster, steps: seq<Step>)
    requires ValidRun(s, steps)
  {
    Obeys(OnlyFresh, s, steps)
  }

  /** Every vote that elected this leader was decided in the term it won. */
  ghost predicate FreshWin(w: Win) {
    forall v :: v in w.voters ==> v in w.decidedIn && w.decidedIn[v] == w.term
  }

  ghost predicate AllWinsFresh(s: Cluster) {
    forall w :: w in s.wins ==> FreshWin(w)
  }

  // ---- the invariant --------------------------------------------------------

  ghost predicate HasBallot(s: Cluster, voter: Id, term: nat, candidate: Id) {
    exists b :: b in s.ballots && b.voter == voter && b.term == term && b.candidate == candidate
  }

  ghost predicate HasWin(s: Cluster, leader: Id, term: nat) {
    exists w :: w in s.wins && w.leader == leader && w.term == term
  }

  /** `leader` has won some term up to `term`. */
  ghost predicate WonBy(s: Cluster, leader: Id, term: int) {
    exists w :: w in s.wins && w.leader == leader && w.term <= term
  }

  /** Positions are 1, 2, 3, ...; terms never go down and never pass `term`. */
  ghost predicate LogOk(log: seq<LogEntry>, term: nat) {
    && (forall i :: 0 <= i < |log| ==> log[i].index == i + 1 && log[i].term <= term)
    && (forall i, j :: 0 <= i < j < |log| ==> log[i].term <= log[j].term)
  }

  ghost predicate TallyOk(s: Cluster, id: Id, v: Id) {
    v in s.nodes && v in DecidedIn(s, id) && HasBallot(s, v, DecidedIn(s, id)[v], id)
  }

  ghost predicate NodeOk(s: Cluster, id: Id)
    requires id in s.nodes
  {
    var n := s.nodes[id];
    && n.id == id
    && Distinct(n.peers) && Elements(n.peers) == s.nodes.Keys - {id}
    && LogOk(n.log, n.term)
    && Distinct(n.votes)
    && (forall v :: v in n.votes ==> TallyOk(s, id, v))
    && (n.role == Leader ==> HasWin(s, id, n.term))
    && (n.leaderId.Some? ==> WonBy(s, n.leaderId.value, n.term))
    && (forall i :: 0 <= i < |n.log| ==> HasWin(s, id, n.log[i].term))
  }

  ghost predicate BallotOk(s: Cluster, b: Ballot) {
    && b.voter in s.nodes && b.candidate in s.nodes
    && b.term <= s.nodes[b.voter].term && b.term <= s.nodes[b.candidate].term
    && (b.term == s.nodes[b.voter].term ==> s.nodes[b.voter].votedFor == Some(b.candidate))
    && UpToDate(b.claimed, b.voterLast)
    && UpToDate(LastPosition(s.nodes[b.candidate].log), b.claimed)
  }

  ghost predicate SingleVotes(ballots: set<Ballot>) {
    forall a, b :: a in ballots && b in ballots && a.voter == b.voter && a.term == b.term
                   ==> a.candidate == b.candidate
  }

  ghost predicate TaskOk(s: Cluster, p: Pending) {
    p.src in s.nodes &&
    match p.task
    case SendVoteRequest(_, last) => UpToDate(LastPosition(s.nodes[p.src].log), last)
    case SendVoteResponse(replyTo, granted) =>
      granted && replyTo.At? ==> HasBallot(s, p.src, p.bornIn, replyTo.node)
    case SendHeartbeat(_) => WonBy(s, p.src, s.nodes[p.src].term)
  }

  ghost predicate EnvelopeOk(s: Cluster, e: Envelope) {
    e.src in s.nodes && e.msg.sender == At(e.src) && e.msg.senderId == Some(e.src) &&
    match e.msg.kind
    case RequestVote =>
      && e.msg.candidateId == e.src && e.msg.term <= s.nodes[e.src].term
      && UpToDate(LastPosition(s.nodes[e.src].log), e.msg.last)
    case VoteResponse => e.msg.granted ==> HasBallot(s, e.src, e.bornIn, e.dst)
    case Heartbeat => WonBy(s, e.src, e.msg.term)
    case AppendEntries | Unknown => false
  }

  /** The vote was decided in the term won or before; and where the leader's log ended is at least as far
      as the request that was granted claimed. */
  ghost predicate BackedVote(s: Cluster, w: Win, v: Id) {
    && v in s.nodes && v in w.decidedIn && w.decidedIn[v] <= w.term
    && exists b :: b in s.ballots && b.voter == v && b.term == w.decidedIn[v] && b.candidate == w.leader
                   && UpToDate(w.last, b.claimed)
  }

  ghost predicate WinOk(s: Cluster, w: Win) {
    && w.leader in s.nodes
    && Distinct(w.voters)
    && |w.voters| >= |s.nodes| / 2 + 1
    && forall v :: v in w.voters ==> BackedVote(s, w, v)
  }

  ghost predicate NodesOk(s: Cluster) {
    forall id :: id in s.nodes ==> NodeOk(s, id)
  }

  ghost predicate BallotsOk(s: Cluster) {
    forall b :: b in s.ballots ==> BallotOk(s, b)
  }

  ghost predicate TasksOk(s: Cluster) {
    forall p :: p in s.tasks ==> TaskOk(s, p)
  }

  ghost predicate NetOk(s: Cluster) {
    forall e :: e in s.net ==> EnvelopeOk(s, e)
  }

  ghost predicate WinsOk(s: Cluster) {
    forall w :: w in s.wins ==> WinOk(s, w)
  }

  ghost predicate Inv(s: Cluster) {
    NodesOk(s) && BallotsOk(s) && SingleVotes(s.ballots) && TasksOk(s) && NetOk(s) && WinsOk(s)
  }

  // ---- what every step keeps ------------------------------------------------

  /** What a node never takes back: its term, its vote within a term, its log. */
  ghost predicate Evolves(n: Node, n': Node) {
    && n'.id == n.id && n'.peers == n.peers
    && n.term <= n'.term
    && (n.term == n'.term && n.votedFor.Some? ==> n'.votedFor == n.votedFor)
    && n.log <= n'.log
    && UpToDate(LastPosition(n'.log), LastPosition(n.log))
  }

  ghost predicate Grows(s: Cluster, s': Cluster) {
    && s.nodes.Keys == s'.nodes.Keys
    && (forall id :: id in s.nodes ==> Evolves(s.nodes[id], s'.nodes[id]))
    && s.ballots <= s'.ballots
    && s.wins <= s'.wins
  }

  lemma EveryMessageEvolves(n: Node, m: Message)
    ensures Evolves(n, OnMessage(n, m)) && OnMessage(n, m).log == n.log
  {
  }

  lemma SubmitEvolves(n: Node, command: string, data: map<string, string>)
    requires LogOk(n.log, n.term)
    ensures Evolves(n, Submit(n, command, data))
    ensures LogOk(Submit(n, command, data).log, n.term)
  {
  }

  lemma DeliverGrows(s: Cluster, e: Envelope)
    requires Enabled(s, Deliver(e))
    ensures Grows(s, ApplyDeliver(s, e))
  {
    EveryMessageEvolves(s.nodes[e.dst], e.msg);
    hide OnMessage, Schedule, MessageTasks, Votes, Tallies, Elects;
  }

  lemma StepGrows(s: Cluster, step: Step)
    requires NodesOk(s) && Enabled(s, step)
    ensures Grows(s, Apply(s, step))
  {
    hide Schedule, Stamp, Destination, MessageTasks, Votes, Tallies, Elects;
    match step
    case Deliver(e) => DeliverGrows(s, e);
    case Command(id, command, data) =>
      assert NodeOk(s, id);
      SubmitEvolves(s.nodes[id], command, data);
    case _ =>
  }

  lemma HasBallotKept(s: Cluster, s': Cluster, voter: Id, term: nat, candidate: Id)
    requires s.ballots <= s'.ballots && HasBallot(s, voter, term, candidate)
    ensures HasBallot(s', voter, term, candidate)
  {
  }

  lemma HasWinKept(s: Cluster, s': Cluster, leader: Id, term: nat)
    requires s.wins <= s'.wins && HasWin(s, leader, term)
    ensures HasWin(s', leader, term)
  {
  }

  lemma WonByKept(s: Cluster, s': Cluster, leader: Id, term: int, term': int)
    requires s.wins <= s'.wins && term <= term' && WonBy(s, leader, term)
    ensures WonBy(s', leader, term')
  {
  }

  lemma UpToDateTransitive(a: Position, b: Position, c: Position)
    requires UpToDate(a, b) && UpToDate(b, c)
    ensures UpToDate(a, c)
  {
  }

  lemma BallotKept(s: Cluster, s': Cluster, b: Ballot)
    requires BallotOk(s, b) && Grows(s, s')
    ensures BallotOk(s', b)
  {
    UpToDateTransitive(LastPosition(s'.nodes[b.candidate].log), LastPosition(s.nodes[b.candidate].log), b.claimed);
  }

  lemma TaskKept(s: Cluster, s': Cluster, p: Pending)
    requires TaskOk(s, p) && Grows(s, s')
    ensures TaskOk(s', p)
  {
    match p.task
    case SendVoteRequest(_, last) =>
      UpToDateTransitive(LastPosition(s'.nodes[p.src].log), LastPosition(s.nodes[p.src].log), last);
    case SendVoteResponse(replyTo, granted) =>
      if granted && replyTo.At? {
        HasBallotKept(s, s', p.src, p.bornIn, replyTo.node);
      }
    case SendHeartbeat(_) =>
      WonByKept(s, s', p.src, s.nodes[p.src].term, s'.nodes[p.src].term);
  }

  lemma EnvelopeKept(s: Cluster, s': Cluster, e: Envelope)
    requires EnvelopeOk(s, e) && Grows(s, s')
    ensures EnvelopeOk(s', e)
  {
    match e.msg.kind
    case RequestVote =>
      UpToDateTransitive(LastPosition(s'.nodes[e.src].log), LastPosition(s.nodes[e.src].log), e.msg.last);
    case VoteResponse =>
      if e.msg.granted {
        HasBallotKept(s, s', e.src, e.bornIn, e.dst);
      }
    case Heartbeat => WonByKept(s, s', e.src, e.msg.term, e.msg.term);
    case _ =>
  }

  lemma WinKept(s: Cluster, s': Cluster, w: Win)
    requires WinOk(s, w) && Grows(s, s')
    ensures WinOk(s', w)
  {
    assert |s.nodes| == |s.nodes.Keys| == |s'.nodes.Keys| == |s'.nodes|;
    forall v | v in w.voters ensures BackedVote(s', w, v) {
      assert BackedVote(s, w, v);
      var b :| b in s.ballots && b.voter == v && b.term == w.decidedIn[v] && b.candidate == w.leader
               && UpToDate(w.last, b.claimed);
      assert b in s'.ballots;
    }
  }

  /** A node stays in order while its own state and tally stay the same. */
  lemma NodeKept(s: Cluster, s': Cluster, id: Id)
    requires id in s.nodes && NodeOk(s, id) && Grows(s, s')
    requires s'.nodes[id] == s.nodes[id] && DecidedIn(s', id) == DecidedIn(s, id)
    ensures NodeOk(s', id)
  {
    forall v | v in s.nodes[id].votes ensures TallyOk(s', id, v) {
      TallyKept(s, s', id, v);
    }
    var n := s.nodes[id];
    forall i | 0 <= i < |n.log| ensures HasWin(s', id, n.log[i].term) {
      HasWinKept(s, s', id, n.log[i].term);
    }
  }

  lemma TallyKept(s: Cluster, s': Cluster, id: Id, v: Id)
    requires TallyOk(s, id, v) && s.ballots <= s'.ballots && s.nodes.Keys == s'.nodes.Keys
    requires v in DecidedIn(s', id) && DecidedIn(s', id)[v] == DecidedIn(s, id)[v]
    ensures TallyOk(s', id, v)
  {
    HasBallotKept(s, s', v, DecidedIn(s, id)[v], id);
  }

  /** A step keeps the invariant if what it adds is in order, and the one node it touches. */
  lemma GrowthKeepsInv(s: Cluster, s': Cluster, id: Id)
    requires Inv(s) && Grows(s, s') && id in s.nodes
    requires forall x :: x in s.nodes && x != id ==> s'.nodes[x] == s.nodes[x] && DecidedIn(s', x) == DecidedIn(s, x)
    requires NodeOk(s', id) && SingleVotes(s'.ballots)
    requires forall b :: b in s'.ballots && b !in s.ballots ==> BallotOk(s', b)
    requires forall p :: p in s'.tasks && p !in s.tasks ==> TaskOk(s', p)
    requires forall e :: e in s'.net && e !in s.net ==> EnvelopeOk(s', e)
    requires forall w :: w in s'.wins && w !in s.wins ==> WinOk(s', w)
    ensures Inv(s')
  {
    forall x | x in s'.nodes ensures NodeOk(s', x) {
      if x != id {
        NodeKept(s, s', x);
      }
    }
    forall b | b in s'.ballots ensures BallotOk(s', b) {
      if b in s.ballots {
        BallotKept(s, s', b);
      }
    }
    forall p | p in s'.tasks ensures TaskOk(s', p) {
      if p in s.tasks {
        TaskKept(s, s', p);
      }
    }
    forall e | e in s'.net ensures EnvelopeOk(s', e) {
      if e in s.net {
        EnvelopeKept(s, s', e);
      }
    }
    forall w | w in s'.wins ensures WinOk(s', w) {
      if w in s.wins {
        WinKept(s, s', w);
      }
    }
  }

  lemma ScheduledBy(id: Id, tasks: seq<Task>, bornIn: nat, p: Pending)
    requires p in Schedule(id, tasks, bornIn)
    ensures p.src == id && p.bornIn == bornIn && p.task in tasks
  {
    var all := seq(|tasks|, i requires 0 <= i < |tasks| => Pending(id, tasks[i], bornIn));
    assert p in all;
    var i :| 0 <= i < |all| && all[i] == p;
  }

  lemma NewTasks(s: Cluster, id: Id, tasks: seq<Task>, bornIn: nat, s': Cluster)
    requires s'.tasks == s.tasks + Schedule(id, tasks, bornIn)
    requires forall t :: t in tasks ==> TaskOk(s', Pending(id, t, bornIn))
    ensures forall p :: p in s'.tasks && p !in s.tasks ==> TaskOk(s', p)
  {
    forall p | p in s'.tasks && p !in s.tasks ensures TaskOk(s', p) {
      ScheduledBy(id, tasks, bornIn, p);
      assert p == Pending(id, p.task, bornIn);
    }
  }

  // ---- an election begins ----

  lemma TimeoutNode(s: Cluster, id: Id)
    requires id in s.nodes && NodeOk(s, id)
    ensures NodeOk(ApplyTimeout(s, id), id)
  {
    var s' := ApplyTimeout(s, id);
    var n := s.nodes[id];
    assert Ballot(id, n.term + 1, id, LastPosition(n.log), LastPosition(n.log)) in s'.ballots;
    assert HasBallot(s', id, n.term + 1, id);
    assert TallyOk(s', id, id);
  }

  lemma TimeoutVotes(s: Cluster, id: Id)
    requires id in s.nodes && BallotsOk(s) && SingleVotes(s.ballots)
    ensures SingleVotes(ApplyTimeout(s, id).ballots)
  {
    forall a | a in s.ballots && a.voter == id ensures a.term <= s.nodes[id].term {
      assert BallotOk(s, a);
    }
  }

  lemma TimeoutAdds(s: Cluster, id: Id)
    requires id in s.nodes && NodeOk(s, id)
    ensures var s' := ApplyTimeout(s, id);
            && (forall b :: b in s'.ballots && b !in s.ballots ==> BallotOk(s', b))
            && (forall t :: t in ElectionTasks(s.nodes[id]) ==>
                  TaskOk(s', Pending(id, t, s.nodes[id].term + 1)))
  {
  }

  lemma TimeoutKeepsInv(s: Cluster, id: Id)
    requires Inv(s) && Enabled(s, Timeout(id))
    ensures Inv(ApplyTimeout(s, id))
  {
    hide NodeOk, BallotOk, TaskOk, EnvelopeOk, WinOk, Grows, SingleVotes;
    var s' := ApplyTimeout(s, id);
    var n := s.nodes[id];
    StepGrows(s, Timeout(id));
    TimeoutNode(s, id);
    TimeoutVotes(s, id);
    TimeoutAdds(s, id);
    NewTasks(s, id, ElectionTasks(n), n.term + 1, s');
    GrowthKeepsInv(s, s', id);
  }

  // ---- heartbeats, sends, commands ----

  lemma BeatAdds(s: Cluster, id: Id)
    requires Enabled(s, Beat(id)) && NodeOk(s, id)
    ensures forall t :: t in HeartbeatTasks(s.nodes[id]) ==>
                TaskOk(Apply(s, Beat(id)), Pending(id, t, s.nodes[id].term))
  {
    WonByKept(s, Apply(s, Beat(id)), id, s.nodes[id].term, s.nodes[id].term);
  }

  lemma BeatKeepsInv(s: Cluster, id: Id)
    requires Inv(s) && Enabled(s, Beat(id))
    ensures Inv(Apply(s, Beat(id)))
  {
    hide NodeOk, BallotOk, TaskOk, EnvelopeOk, WinOk, Grows, SingleVotes;
    var s' := Apply(s, Beat(id));
    var n := s.nodes[id];
    StepGrows(s, Beat(id));
    NodeKept(s, s', id);
    BeatAdds(s, id);
    NewTasks(s, id, HeartbeatTasks(n), n.term, s');
    GrowthKeepsInv(s, s', id);
  }

  lemma SentOk(s: Cluster, p: Pending)
    requires TaskOk(s, p) && NodeOk(s, p.src) && Stamp(s.nodes[p.src], p.task).Some?
    ensures EnvelopeOk(s, Envelope(p.src, Destination(p.task).node, Stamp(s.nodes[p.src], p.task).value, p.bornIn))
  {
  }

  lemma SendKeepsInv(s: Cluster, p: Pending)
    requires Inv(s) && Enabled(s, Send(p))
    ensures Inv(ApplySend(s, p))
  {
    hide NodeOk, BallotOk, TaskOk, EnvelopeOk, WinOk, Grows, SingleVotes;
    var s' := ApplySend(s, p);
    var m := Stamp(s.nodes[p.src], p.task);
    StepGrows(s, Send(p));
    NodeKept(s, s', p.src);
    if m.Some? {
      SentOk(s, p);
      EnvelopeKept(s, s', Envelope(p.src, Destination(p.task).node, m.value, p.bornIn));
    }
    GrowthKeepsInv(s, s', p.src);
  }

  lemma CommandNode(s: Cluster, id: Id, command: string, data: map<string, string>)
    requires id in s.nodes && NodeOk(s, id)
    ensures NodeOk(Apply(s, Command(id, command, data)), id)
  {
    var s' := Apply(s, Command(id, command, data));
    var n := s.nodes[id];
    SubmitEvolves(n, command, data);
    forall v | v in n.votes ensures TallyOk(s', id, v) {
      TallyKept(s, s', id, v);
    }
  }

  lemma CommandKeepsInv(s: Cluster, id: Id, command: string, data: map<string, string>)
    requires Inv(s) && Enabled(s, Command(id, command, data))
    ensures Inv(Apply(s, Command(id, command, data)))
  {
    hide NodeOk, BallotOk, TaskOk, EnvelopeOk, WinOk, Grows, SingleVotes;
    var s' := Apply(s, Command(id, command, data));
    StepGrows(s, Command(id, command, data));
    CommandNode(s, id, command, data);
    GrowthKeepsInv(s, s', id);
  }

  // ---- a message arrives ----

  lemma DeliverVotes(s: Cluster, e: Envelope)
    requires e.dst in s.nodes && BallotsOk(s) && SingleVotes(s.ballots)
    ensures SingleVotes(ApplyDeliver(s, e).ballots)
  {
    var n, m := s.nodes[e.dst], e.msg;
    if Votes(n, m) {
      forall a | a in s.ballots && a.voter == e.dst && a.term == OnMessage(n, m).term
        ensures a.candidate == m.candidateId
      {
        assert BallotOk(s, a);
      }
    }
  }

  lemma DeliverBallot(s: Cluster, e: Envelope)
    requires e.dst in s.nodes && EnvelopeOk(s, e)
    ensures forall b :: b in ApplyDeliver(s, e).ballots && b !in s.ballots ==> BallotOk(ApplyDeliver(s, e), b)
  {
    EveryMessageEvolves(s.nodes[e.dst], e.msg);
  }

  lemma DeliverTally(s: Cluster, e: Envelope, v: Id)
    requires e.dst in s.nodes && EnvelopeOk(s, e) && NodeOk(s, e.dst)
    requires v in OnMessage(s.nodes[e.dst], e.msg).votes
    ensures TallyOk(ApplyDeliver(s, e), e.dst, v)
  {
    var s' := ApplyDeliver(s, e);
    if v in s.nodes[e.dst].votes {
      TallyKept(s, s', e.dst, v);
    } else {
      HasBallotKept(s, s', e.src, e.bornIn, e.dst);
    }
  }

  lemma DeliverElects(s: Cluster, e: Envelope)
    requires e.dst in s.nodes && Elects(s.nodes[e.dst], e.msg)
    ensures HasWin(ApplyDeliver(s, e), e.dst, OnMessage(s.nodes[e.dst], e.msg).term)
  {
    var s' := ApplyDeliver(s, e);
    var n' := OnMessage(s.nodes[e.dst], e.msg);
    assert Win(e.dst, n'.term, n'.votes, DecidedIn(s', e.dst), LastPosition(s.nodes[e.dst].log)) in s'.wins;
  }

  lemma DeliverLeadership(s: Cluster, e: Envelope)
    requires e.dst in s.nodes && EnvelopeOk(s, e) && NodeOk(s, e.dst)
    ensures var s' := ApplyDeliver(s, e); var n' := s'.nodes[e.dst];
            && (n'.role == Leader ==> HasWin(s', e.dst, n'.term))
            && (n'.leaderId.Some? ==> WonBy(s', n'.leaderId.value, n'.term))
  {
    var s' := ApplyDeliver(s, e);
    var n, m := s.nodes[e.dst], e.msg;
    if Elects(n, m) {
      DeliverElects(s, e);
    } else if m.kind == Heartbeat {
      WonByKept(s, s', e.src, m.term, s'.nodes[e.dst].term);
    } else {
      if n.role == Leader {
        HasWinKept(s, s', e.dst, n.term);
      }
      if n.leaderId.Some? {
        WonByKept(s, s', n.leaderId.value, n.term, s'.nodes[e.dst].term);
      }
    }
  }

  lemma MessageKeepsTally(n: Node, m: Message)
    requires Distinct(n.votes)
    ensures Distinct(OnMessage(n, m).votes)
  {
    if Tallies(n, m) {
      DistinctAppend(n.votes, Voter(m));
    }
  }

  lemma DeliverNode(s: Cluster, e: Envelope)
    requires e.dst in s.nodes && EnvelopeOk(s, e) && NodeOk(s, e.dst)
    ensures NodeOk(ApplyDeliver(s, e), e.dst)
  {
    var s' := ApplyDeliver(s, e);
    var n, m := s.nodes[e.dst], e.msg;
    var n' := OnMessage(n, m);
    EveryMessageEvolves(n, m);
    MessageKeepsTally(n, m);
    DeliverLeadership(s, e);
    assert s'.nodes == s.nodes[e.dst := n'] && s.wins <= s'.wins;
    forall v | v in n'.votes ensures TallyOk(s', e.dst, v) {
      DeliverTally(s, e, v);
    }
    hide OnMessage, ApplyDeliver, TallyOk, EnvelopeOk, WonBy, HasWin;
    forall i | 0 <= i < |n'.log| ensures HasWin(s', e.dst, n'.log[i].term) {
      HasWinKept(s, s', e.dst, n.log[i].term);
    }
  }

  /** A node's peers and itself are the whole cluster. */
  lemma ClusterSize(s: Cluster, id: Id)
    requires id in s.nodes && NodeOk(s, id)
    ensures |s.nodes[id].peers| + 1 == |s.nodes|
  {
    DistinctCardinality(s.nodes[id].peers);
    assert s.nodes.Keys == Elements(s.nodes[id].peers) + {id};
    assert |s.nodes| == |s.nodes.Keys|;
  }

  lemma DeliverWin(s: Cluster, e: Envelope)
    requires e.dst in s.nodes && EnvelopeOk(s, e) && NodeOk(s, e.dst) && BallotsOk(s)
    ensures forall w :: w in ApplyDeliver(s, e).wins && w !in s.wins ==> WinOk(ApplyDeliver(s, e), w)
  {
    var s' := ApplyDeliver(s, e);
    var n, m := s.nodes[e.dst], e.msg;
    if Elects(n, m) {
      var n' := OnMessage(n, m);
      var w := Win(e.dst, n'.term, n'.votes, DecidedIn(s', e.dst), LastPosition(n.log));
      assert s'.wins == s.wins + {w} && s'.ballots == s.ballots;
      ClusterSize(s, e.dst);
      DeliverNode(s, e);
      assert |s.nodes| == |s.nodes.Keys| == |s'.nodes.Keys| == |s'.nodes|;
      forall v | v in w.voters ensures BackedVote(s', w, v) {
        assert TallyOk(s', e.dst, v);
        var b :| b in s'.ballots && b.voter == v && b.term == w.decidedIn[v] && b.candidate == e.dst;
        assert BallotOk(s, b);
      }
    }
  }

  lemma DeliverTasks(s: Cluster, e: Envelope)
    requires e.dst in s.nodes && EnvelopeOk(s, e)
    ensures var s' := ApplyDeliver(s, e); var n' := s'.nodes[e.dst];
            forall t :: t in MessageTasks(s.nodes[e.dst], e.msg) ==> TaskOk(s', Pending(e.dst, t, n'.term))
  {
    var s' := ApplyDeliver(s, e);
    var n, m := s.nodes[e.dst], e.msg;
    var n' := OnMessage(n, m);
    if Votes(n, m) {
      assert Ballot(e.dst, n'.term, m.candidateId, LastPosition(n.log), m.last) in s'.ballots;
      assert HasBallot(s', e.dst, n'.term, m.candidateId);
    }
    if Elects(n, m) {
      DeliverElects(s, e);
    }
  }

  lemma DeliverKeepsInv(s: Cluster, e: Envelope)
    requires Inv(s) && Enabled(s, Deliver(e))
    ensures Inv(ApplyDeliver(s, e))
  {
    hide NodeOk, BallotOk, TaskOk, EnvelopeOk, WinOk, Grows, SingleVotes;
    var s' := ApplyDeliver(s, e);
    var n, m := s.nodes[e.dst], e.msg;
    StepGrows(s, Deliver(e));
    DeliverNode(s, e);
    DeliverVotes(s, e);
    DeliverBallot(s, e);
    DeliverWin(s, e);
    DeliverTasks(s, e);
    NewTasks(s, e.dst, MessageTasks(n, m), OnMessage(n, m).term, s');
    GrowthKeepsInv(s, s', e.dst);
  }

  lemma StepKeepsInv(s: Cluster, step: Step)
    requires Inv(s) && Enabled(s, step)
    ensures Inv(Apply(s, step))
  {
    match step
    case Timeout(id) => TimeoutKeepsInv(s, id);
    case Beat(id) => BeatKeepsInv(s, id);
    case Send(p) => SendKeepsInv(s, p);
    case Deliver(e) => DeliverKeepsInv(s, e);
    case Command(id, command, data) => CommandKeepsInv(s, id, command, data);
  }
}
