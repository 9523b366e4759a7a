/**
  What a handler of a Raft node decides, at any moment of any run, in terms of
  the cluster's size, the logs' last entries and the commands submitted so far.
*/
module RaftElections {
  import opened Util
  import opened Raft
  import opened RaftCluster
  import opened RaftRuns
  import opened RaftSafety
  import opened RaftSplit

  // ---- winning ----------------------------------------------------------------

  /** A vote response that reaches a candidate of its term or a later one: the candidate's tally gains the sender if
      the vote was granted and is not counted yet; and it leads from then on if and only if the tally is
      more than half of the cluster. */
  lemma {:induction false} CandidateWinsExactly(s: Cluster, steps: seq<Step>, e: Envelope)
    requires Initial(s) && ValidRun(s, steps) && Enabled(After(s, steps), Deliver(e))
    requires e.msg.kind == VoteResponse
    requires After(s, steps).nodes[e.dst].role == Candidate && e.msg.term <= After(s, steps).nodes[e.dst].term
    ensures var t := After(s, steps);
            var n, n' := t.nodes[e.dst], Apply(t, Deliver(e)).nodes[e.dst];
            && n'.votes == (if e.msg.granted && e.src !in n.votes then n.votes + [e.src] else n.votes)
            && n'.role == (if 2 * |n'.votes| > |t.nodes| then Leader else Candidate)
            && n'.leaderId == (if 2 * |n'.votes| > |t.nodes| then Some(e.dst) else n.leaderId)
            && n'.term == n.term && n'.log == n.log && n'.votedFor == n.votedFor
  {
    var t := After(s, steps);
    InitialInv(s);
    RunKeepsInv(s, steps);
    assert NodeOk(t, e.dst) && EnvelopeOk(t, e);
    ClusterSize(t, e.dst);
    hide Inv, Initial, ValidRun, After, EnvelopeOk, NodeOk, Schedule, MessageTasks;
    CandidateCounts(t.nodes[e.dst], e.msg, e.src, |t.nodes|);
  }

  lemma CandidateCounts(n: Node, m: Message, src: Id, size: nat)
    requires n.role == Candidate && m.kind == VoteResponse && m.term <= n.term && m.senderId == Some(src)
    requires |n.peers| + 1 == size
    ensures var n' := OnMessage(n, m);
            && n'.votes == (if m.granted && src !in n.votes then n.votes + [src] else n.votes)
            && n'.role == (if 2 * |n'.votes| > size then Leader else Candidate)
            && n'.leaderId == (if 2 * |n'.votes| > size then Some(n.id) else n.leaderId)
            && n'.term == n.term && n'.log == n.log && n'.votedFor == n.votedFor
  {
  }

  /** No other message makes a node a leader, and a response of a later term makes its receiver a follower. */
  lemma OnlyResponsesElect(t: Cluster, step: Step, id: Id)
    requires Enabled(t, step) && id in t.nodes
    requires t.nodes[id].role != Leader && Apply(t, step).nodes[id].role == Leader
    ensures step.Deliver? && step.envelope.dst == id && step.envelope.msg.kind == VoteResponse
    ensures t.nodes[id].role == Candidate && step.envelope.msg.term <= t.nodes[id].term
  {
    hide Schedule, MessageTasks;
  }

  /** Whenever a node becomes leader, and whenever its heartbeat timer fires, a heartbeat is scheduled for every
      other member. */
  lemma {:induction false} LeaderAnnounces(s: Cluster, steps: seq<Step>, step: Step, id: Id, x: Id)
    requires Initial(s) && ValidRun(s, steps) && Enabled(After(s, steps), step)
    requires id in After(s, steps).nodes && x in After(s, steps).nodes && x != id
    requires step == Beat(id)
          || (After(s, steps).nodes[id].role != Leader && Apply(After(s, steps), step).nodes[id].role == Leader)
    ensures Pending(id, SendHeartbeat(x), After(s, steps).nodes[id].term) in Apply(After(s, steps), step).tasks
  {
    var t := After(s, steps);
    InitialInv(s);
    RunKeepsInv(s, steps);
    hide Initial, ValidRun, After, UpToDate, LastPosition;
    PeersOf(t, id, x);
    hide Inv;
    var n := t.nodes[id];
    var i :| 0 <= i < |n.peers| && n.peers[i] == x;
    Scheduled(id, HeartbeatTasks(n), n.term, i);
    if step != Beat(id) {
      OnlyResponsesElect(t, step, id);
      WinnerSchedules(t, step.envelope);
    }
    hide OnMessage, Schedule, MessageTasks;
  }

  lemma WinnerSchedules(t: Cluster, e: Envelope)
    requires Enabled(t, Deliver(e)) && e.msg.kind == VoteResponse && e.msg.term <= t.nodes[e.dst].term
    requires t.nodes[e.dst].role != Leader && OnMessage(t.nodes[e.dst], e.msg).role == Leader
    ensures MessageTasks(t.nodes[e.dst], e.msg) == HeartbeatTasks(t.nodes[e.dst])
    ensures OnMessage(t.nodes[e.dst], e.msg).term == t.nodes[e.dst].term
  {
  }

  // ---- granting ---------------------------------------------------------------

  /** A log ends at least as late as another: by the terms of the last entries, and between equal terms by length. */
  predicate EndsAsLate(a: seq<LogEntry>, b: seq<LogEntry>) {
    b == [] ||
    (a != [] &&
     (a[|a| - 1].term > b[|b| - 1].term || (a[|a| - 1].term == b[|b| - 1].term && |a| >= |b|)))
  }

  /** The requests of the election that `c` began in `term` say that its log ends at `last`. */
  ghost predicate Carries(t: Cluster, c: Id, term: nat, last: Position) {
    && c in t.nodes && term <= t.nodes[c].term
    && (forall p :: p in t.tasks && p.src == c && p.bornIn == term && p.task.SendVoteRequest? ==> p.task.last == last)
    && (forall e :: e in t.net && e.src == c && e.bornIn == term && e.msg.kind == RequestVote ==> e.msg.last == last)
  }

  lemma ElectionCarries(u: Cluster, c: Id)
    requires Dated(u) && Enabled(u, Timeout(c))
    ensures Carries(Apply(u, Timeout(c)), c, u.nodes[c].term + 1, LastPosition(u.nodes[c].log))
  {
    var n := u.nodes[c];
    forall p | p in Schedule(c, ElectionTasks(n), n.term + 1) && p.task.SendVoteRequest?
      ensures p.task.last == LastPosition(n.log)
    {
      ScheduledBy(c, ElectionTasks(n), n.term + 1, p);
    }
  }

  /** Steps that send nothing, and schedule nothing of `c` for this election. */
  lemma KeepsCarrying(t: Cluster, u: Cluster, c: Id, term: nat, last: Position, id: Id, tasks: seq<Task>, born: nat)
    requires Carries(t, c, term, last) && c in u.nodes && t.nodes[c].term <= u.nodes[c].term
    requires u.net == t.net && u.tasks == t.tasks + Schedule(id, tasks, born)
    requires id == c && born == term ==> forall i :: 0 <= i < |tasks| ==> !tasks[i].SendVoteRequest?
    ensures Carries(u, c, term, last)
  {
    forall p | p in u.tasks && p.src == c && p.bornIn == term && p.task.SendVoteRequest?
      ensures p.task.last == last
    {
      if p !in t.tasks {
        ScheduledBy(id, tasks, born, p);
      }
    }
  }

  lemma StepCarries(t: Cluster, step: Step, c: Id, term: nat, last: Position)
    requires Carries(t, c, term, last) && Enabled(t, step)
    ensures Carries(Apply(t, step), c, term, last)
  {
    hide Schedule;
    match step
    case Timeout(id) =>
      KeepsCarrying(t, ApplyTimeout(t, id), c, term, last, id, ElectionTasks(t.nodes[id]), t.nodes[id].term + 1);
    case Beat(id) =>
      KeepsCarrying(t, Apply(t, step), c, term, last, id, HeartbeatTasks(t.nodes[id]), t.nodes[id].term);
    case Deliver(e) =>
      EveryMessageEvolves(t.nodes[e.dst], e.msg);
      NoRequestsInReply(t.nodes[e.dst], e.msg);
      hide OnMessage, MessageTasks, Votes, Tallies, Elects;
      KeepsCarrying(t, ApplyDeliver(t, e), c, term, last, e.dst, MessageTasks(t.nodes[e.dst], e.msg),
                    OnMessage(t.nodes[e.dst], e.msg).term);
    case _ =>
  }

  lemma NoRequestsInReply(n: Node, m: Message)
    ensures forall i :: 0 <= i < |MessageTasks(n, m)| ==> !MessageTasks(n, m)[i].SendVoteRequest?
  {
  }

  lemma {:induction false} RunCarries(t: Cluster, steps: seq<Step>, c: Id, term: nat, last: Position)
    requires ValidRun(t, steps) && Carries(t, c, term, last)
    ensures Carries(After(t, steps), c, term, last)
    decreases |steps|
  {
    hide Carries, Apply;
    if steps != [] {
      StepCarries(t, steps[0], c, term, last);
      RunCarries(Apply(t, steps[0]), steps[1..], c, term, last);
    }
  }

  lemma EndsAsLateByPosition(a: seq<LogEntry>, b: seq<LogEntry>, term: nat)
    requires LogOk(a, term) && LogOk(b, term)
    ensures UpToDate(LastPosition(a), LastPosition(b)) <==> EndsAsLate(a, b)
  {
  }

  lemma LogOkLater(log: seq<LogEntry>, term: nat, later: nat)
    requires LogOk(log, term) && term <= later
    ensures LogOk(log, later)
  {
  }

  /** The vote of `n` is not spent on another candidate in the term that a request of `c` is stamped with. */
  predicate Unspent(n: Node, term: int, c: Id) {
    term > n.term || (term == n.term && (n.votedFor == None || n.votedFor == Some(c)))
  }

  /** The request says where the log of `c` ended when it began, and the comparison of positions is that of logs. */
  lemma {:induction false} RequestSaysWhere(s: Cluster, before: seq<Step>, c: Id, after: seq<Step>, e: Envelope)
    requires Initial(s) && ValidRun(s, before) && Enabled(After(s, before), Timeout(c))
    requires ValidRun(Apply(After(s, before), Timeout(c)), after)
    requires Enabled(After(Apply(After(s, before), Timeout(c)), after), Deliver(e))
    requires e.msg.kind == RequestVote && e.src == c && e.bornIn == After(s, before).nodes[c].term + 1
    ensures var u := After(s, before); var z := After(Apply(u, Timeout(c)), after);
            && EnvelopeOk(z, e)
            && (UpToDate(e.msg.last, LastPosition(z.nodes[e.dst].log))
                <==> EndsAsLate(u.nodes[c].log, z.nodes[e.dst].log))
  {
    var u := After(s, before);
    var r := Apply(u, Timeout(c));
    var last := LastPosition(u.nodes[c].log);
    InitialInv(s);
    assert Dated(s);
    hide Inv, Dated, Initial, ValidRun, After, NodeOk, EnvelopeOk, UpToDate, EndsAsLate, LastPosition, Apply, Carries;
    RunKeepsInv(s, before);
    RunKeepsDated(s, before);
    StepKeepsInv(u, Timeout(c));
    ElectionCarries(u, c);
    RunKeepsInv(r, after);
    RunCarries(r, after, c, u.nodes[c].term + 1, last);
    DeliveredSaysWhere(u, After(r, after), c, e);
  }

  lemma DeliveredSaysWhere(u: Cluster, z: Cluster, c: Id, e: Envelope)
    requires Inv(u) && Inv(z) && c in u.nodes && Enabled(z, Deliver(e))
    requires Carries(z, c, u.nodes[c].term + 1, LastPosition(u.nodes[c].log))
    requires e.msg.kind == RequestVote && e.src == c && e.bornIn == u.nodes[c].term + 1
    ensures EnvelopeOk(z, e)
    ensures UpToDate(e.msg.last, LastPosition(z.nodes[e.dst].log)) <==> EndsAsLate(u.nodes[c].log, z.nodes[e.dst].log)
  {
    assert NodeOk(u, c) && NodeOk(z, e.dst) && EnvelopeOk(z, e);
    hide Inv, UpToDate, EndsAsLate, LastPosition, EnvelopeOk;
    var term := u.nodes[c].term + z.nodes[e.dst].term;
    LogOkLater(u.nodes[c].log, u.nodes[c].term, term);
    LogOkLater(z.nodes[e.dst].log, z.nodes[e.dst].term, term);
    EndsAsLateByPosition(u.nodes[c].log, z.nodes[e.dst].log, term);
  }

  /** The candidate `c` begins an election, and one of its requests is delivered at any later moment: it is granted if
      and only if the receiver's vote is unspent and the log that `c` had when it began ends at least as late as the
      receiver's log now. This says what the receiver answers, and all that it changes. */
  lemma {:induction false} GrantedExactly(s: Cluster, before: seq<Step>, c: Id, after: seq<Step>, e: Envelope)
    requires Initial(s) && ValidRun(s, before) && Enabled(After(s, before), Timeout(c))
    requires ValidRun(Apply(After(s, before), Timeout(c)), after)
    requires Enabled(After(Apply(After(s, before), Timeout(c)), after), Deliver(e))
    requires e.msg.kind == RequestVote && e.src == c && e.bornIn == After(s, before).nodes[c].term + 1
    ensures var u := After(s, before); var z := After(Apply(u, Timeout(c)), after); var v := Apply(z, Deliver(e));
            var n, n' := z.nodes[e.dst], v.nodes[e.dst];
            var granted := Unspent(n, e.msg.term, c) && EndsAsLate(u.nodes[c].log, n.log);
            && Pending(e.dst, SendVoteResponse(At(c), granted), n'.term) in v.tasks
            && n'.term == (if e.msg.term > n.term then e.msg.term else n.term)
            && n'.role == (if e.msg.term > n.term then Follower else n.role)
            && n'.votedFor == (if granted then Some(c) else if e.msg.term > n.term then None else n.votedFor)
            && n'.log == n.log && n'.votes == n.votes && n'.leaderId == n.leaderId
  {
    var u := After(s, before);
    var z := After(Apply(u, Timeout(c)), after);
    hide Initial, ValidRun, After, UpToDate, EndsAsLate, LastPosition, EnvelopeOk, Apply;
    RequestSaysWhere(s, before, c, after, e);
    DeliveredRequest(z, e, c);
  }

  lemma DeliveredRequest(z: Cluster, e: Envelope, c: Id)
    requires Enabled(z, Deliver(e)) && EnvelopeOk(z, e) && e.msg.kind == RequestVote && e.src == c
    ensures var v := Apply(z, Deliver(e)); var n, n' := z.nodes[e.dst], v.nodes[e.dst];
            var granted := Unspent(n, e.msg.term, c) && UpToDate(e.msg.last, LastPosition(n.log));
            && Pending(e.dst, SendVoteResponse(At(c), granted), n'.term) in v.tasks
            && n'.term == (if e.msg.term > n.term then e.msg.term else n.term)
            && n'.role == (if e.msg.term > n.term then Follower else n.role)
            && n'.votedFor == (if granted then Some(c) else if e.msg.term > n.term then None else n.votedFor)
            && n'.log == n.log && n'.votes == n.votes && n'.leaderId == n.leaderId
  {
    var n := z.nodes[e.dst];
    Scheduled(e.dst, MessageTasks(n, e.msg), OnMessage(n, e.msg).term, 0);
    hide Schedule, UpToDate, LastPosition;
  }

  /** A member whose log is acceptable to another can stand in a term new to both, and be granted. */
  lemma GetsVote(s: Cluster, steps: seq<Step>, c: Id, v: Id) returns (run: seq<Step>)
    requires ValidRun(s, steps)
    requires var t := After(s, steps);
             && c in t.nodes && v in t.nodes && c != v && t.nodes[c].role != Leader
             && t.nodes[c].id == c && t.nodes[v].id == v && v in t.nodes[c].peers
             && UpToDate(LastPosition(t.nodes[c].log), LastPosition(t.nodes[v].log))
    ensures ValidRun(s, run) && v in After(s, run).nodes
    ensures After(s, run).nodes[v].votedFor == Some(c)
    ensures After(s, run).nodes[v].term > After(s, steps).nodes[v].term
  {
    hide After, ValidRun, TermsMatch, Obeys, Apply, LastPosition, UpToDate;
    var n, x := After(s, steps).nodes[c], After(s, steps).nodes[v];
    var term := n.term + x.term + 1;
    var u;
    run, u := StandUntil(AnyVote, s, steps, c, term);
    run, u := Transmit(AnyVote, s, run, Pending(c, SendVoteRequest(v, LastPosition(n.log)), term));
    var m := Message(RequestVote, term, At(c), Some(c), c, LastPosition(n.log), false);
    run, u := Receive(AnyVote, s, run, Envelope(c, v, m, term));
  }

  lemma PeersOf(t: Cluster, a: Id, b: Id)
    requires Inv(t) && a in t.nodes && b in t.nodes && a != b
    ensures t.nodes[a].id == a && t.nodes[b].id == b && b in t.nodes[a].peers && a in t.nodes[b].peers
    ensures UpToDate(LastPosition(t.nodes[a].log), LastPosition(t.nodes[b].log))
         || UpToDate(LastPosition(t.nodes[b].log), LastPosition(t.nodes[a].log))
  {
    assert NodeOk(t, a) && NodeOk(t, b);
    assert b in Elements(t.nodes[a].peers) && a in Elements(t.nodes[b].peers);
  }

  /** Of any two members that do not lead, at any moment of any run, one can still get the vote of the other. */
  lemma {:induction false} OneGrantsTheOther(s: Cluster, steps: seq<Step>, a: Id, b: Id)
    returns (run: seq<Step>, candidate: Id, voter: Id)
    requires Initial(s) && ValidRun(s, steps) && a != b
    requires a in After(s, steps).nodes && After(s, steps).nodes[a].role != Leader
    requires b in After(s, steps).nodes && After(s, steps).nodes[b].role != Leader
    ensures {candidate, voter} == {a, b} && ValidRun(s, run) && voter in After(s, run).nodes
    ensures After(s, run).nodes[voter].votedFor == Some(candidate)
    ensures After(s, run).nodes[voter].term > After(s, steps).nodes[voter].term
  {
    var t := After(s, steps);
    InitialInv(s);
    RunKeepsInv(s, steps);
    hide Inv, Initial, After, ValidRun, LastPosition, UpToDate;
    PeersOf(t, a, b);
    if UpToDate(LastPosition(t.nodes[a].log), LastPosition(t.nodes[b].log)) {
      candidate, voter := a, b;
    } else {
      candidate, voter := b, a;
    }
    run := GetsVote(s, steps, candidate, voter);
  }

  // ---- following --------------------------------------------------------------

  /** A delivered heartbeat makes every node, a candidate or a leader too, a follower of its sender. It raises the
      term if it is later, and only then frees the vote. */
  lemma {:induction false} HeartbeatFollowed(s: Cluster, steps: seq<Step>, e: Envelope)
    requires Initial(s) && ValidRun(s, steps) && Enabled(After(s, steps), Deliver(e)) && e.msg.kind == Heartbeat
    ensures var t := After(s, steps); var n, n' := t.nodes[e.dst], Apply(t, Deliver(e)).nodes[e.dst];
            && n'.role == Follower && n'.leaderId == Some(e.src)
            && n'.term == (if e.msg.term > n.term then e.msg.term else n.term)
            && n'.votedFor == (if e.msg.term > n.term then None else n.votedFor)
            && n'.log == n.log
  {
    InitialInv(s);
    RunKeepsInv(s, steps);
    assert EnvelopeOk(After(s, steps), e);
  }

  /** The same for any message that the handler takes for a sign of a leader, whoever sent it: the leader is named
      by the sender's id if the message has one, and otherwise by its address, or not at all. */
  lemma LeaderSignFollowed(n: Node, m: Message)
    requires m.kind == Heartbeat || m.kind == AppendEntries
    ensures var n' := OnMessage(n, m);
            && n'.role == Follower && n'.log == n.log && n'.votes == n.votes
            && (m.senderId.Some? ==> n'.leaderId == m.senderId)
            && (m.senderId == None && m.sender.At? ==> n'.leaderId == Some(m.sender.node))
            && (m.senderId == None && m.sender == Nowhere ==> n'.leaderId == Some(""))
  {
  }

  /** A message of a later term, of whatever kind, makes its receiver a follower in that term, with its vote unspent
      unless it goes to the sender of a request; and no message of another term changes the term. */
  lemma LaterTermAdopted(n: Node, m: Message)
    ensures var n' := OnMessage(n, m);
            && n'.term == (if m.term > n.term then m.term else n.term)
            && (m.term > n.term ==>
                  && n'.role == Follower
                  && (n'.votedFor == None || (m.kind == RequestVote && n'.votedFor == Some(m.candidateId))))
            && (m.kind == Unknown && m.term <= n.term ==> n' == n)
  {
  }

  // ---- submitting -------------------------------------------------------------

  /** What is submitted to `id` in the run while it leads, with the terms it leads then, in order. */
  ghost function Accepted(s: Cluster, steps: seq<Step>, id: Id): seq<(nat, string, map<string, string>)>
    requires ValidRun(s, steps)
    decreases |steps|
  {
    if steps == [] then []
    else
      var rest := Accepted(Apply(s, steps[0]), steps[1..], id);
      match steps[0]
      case Command(x, command, data) =>
        if x == id && s.nodes[id].role == Leader then [(s.nodes[id].term, command, data)] + rest else rest
      case _ => rest
  }

  function Entries(log: seq<LogEntry>): seq<(nat, string, map<string, string>)> {
    seq(|log|, i requires 0 <= i < |log| => (log[i].term, log[i].command, log[i].data))
  }

  lemma StepEntries(s: Cluster, step: Step, id: Id)
    requires Enabled(s, step) && id in s.nodes
    ensures id in Apply(s, step).nodes
    ensures Entries(Apply(s, step).nodes[id].log) == Entries(s.nodes[id].log) +
              match step
              case Command(x, command, data) =>
                if x == id && s.nodes[id].role == Leader then [(s.nodes[id].term, command, data)] else []
              case _ => []
  {
    if step.Deliver? {
      EveryMessageEvolves(s.nodes[step.envelope.dst], step.envelope.msg);
    }
    hide OnMessage, Schedule, MessageTasks, Votes, Tallies, Elects;
    assert Apply(s, step).nodes[id].log == s.nodes[id].log ||
           (step.Command? && step.id == id && s.nodes[id].role == Leader);
  }

  /** A node's log holds exactly the commands submitted to it while it led, with their data and terms, in the order in
      which they were submitted. */
  lemma {:induction false} LogIsAccepted(s: Cluster, steps: seq<Step>, id: Id)
    requires ValidRun(s, steps) && id in s.nodes
    ensures id in After(s, steps).nodes
    ensures Entries(After(s, steps).nodes[id].log) == Entries(s.nodes[id].log) + Accepted(s, steps, id)
    decreases |steps|
  {
    hide Apply, Entries;
    if steps != [] {
      StepEntries(s, steps[0], id);
      LogIsAccepted(Apply(s, steps[0]), steps[1..], id);
    }
  }

  lemma {:induction false} LogsAreCommands(s: Cluster, steps: seq<Step>, id: Id)
    requires Initial(s) && ValidRun(s, steps) && id in s.nodes
    ensures id in After(s, steps).nodes
    ensures Entries(After(s, steps).nodes[id].log) == Accepted(s, steps, id)
  {
    LogIsAccepted(s, steps, id);
    assert Entries([]) == [];
  }
}
