/**
  One Raft node: its state, the messages it handles, and what each handler does.

  The functions below say what a handler does to a node's state; the class
  `RaftNode` does the same by updating its fields. A handler's `create_task`
  calls are returned as a list of `Task`s: a task runs later, and only then
  reads the node's term (`Stamp`).
*/
module Raft {
  import opened Util

  /** A node's identity, which may be any string, also the empty one. */
  type Id = string

  /** A network address: the empty string, or the host and port of the node with this identity. */
  datatype Address = Nowhere | At(node: Id)

  datatype Role = Follower | Candidate | Leader

  datatype LogEntry = LogEntry(term: nat, index: nat, command: string, data: map<string, string>)

  datatype Kind = RequestVote | VoteResponse | AppendEntries | Heartbeat | Unknown

  /** A received dictionary, absent keys already replaced by the handlers' defaults.
      Only `sender_id` keeps its absence, because two handlers default it differently. */
  datatype Message = Message(
    kind: Kind, term: int, sender: Address, senderId: Option<Id>,
    candidateId: Id, last: Position, granted: bool)

  /** A background send that a handler has scheduled. */
  datatype Task =
    | SendVoteRequest(receiver: Id, last: Position)
    | SendVoteResponse(replyTo: Address, granted: bool)
    | SendHeartbeat(receiver: Id)

  datatype Node = Node(
    id: Id, peers: seq<Id>, role: Role, term: nat, votedFor: Option<Id>,
    log: seq<LogEntry>, votes: seq<Id>, leaderId: Option<Id>)

  /** Where a log ends. */
  datatype Position = Position(term: int, index: int)

  function LastPosition(log: seq<LogEntry>): Position {
    if log == [] then Position(0, 0) else Position(log[|log| - 1].term, log[|log| - 1].index)
  }

  /** `a` is at least as up to date as `b`: section 5.4.1 of the Raft paper. */
  predicate UpToDate(a: Position, b: Position) {
    a.term > b.term || (a.term == b.term && a.index >= b.index)
  }

  function Fresh(id: Id, peers: seq<Id>): Node {
    Node(id, peers, Follower, 0, None, [], [], None)
  }

  function Majority(n: Node): nat {
    (|n.peers| + 1) / 2 + 1
  }

  // ---- what the handlers do -------------------------------------------------

  function StartElection(n: Node): Node {
    n.(role := Candidate, term := n.term + 1, votedFor := Some(n.id), votes := [n.id])
  }

  function ElectionTasks(n: Node): seq<Task> {
    seq(|n.peers|, i requires 0 <= i < |n.peers| => SendVoteRequest(n.peers[i], LastPosition(n.log)))
  }

  function HeartbeatTasks(n: Node): seq<Task> {
    seq(|n.peers|, i requires 0 <= i < |n.peers| => SendHeartbeat(n.peers[i]))
  }

  function Destination(t: Task): Address {
    match t
    case SendVoteRequest(receiver, _) => At(receiver)
    case SendVoteResponse(replyTo, _) => replyTo
    case SendHeartbeat(receiver) => At(receiver)
  }

  /** The message a task sends when it finally runs; `None` when it sends nothing.
      The term is the node's term at that moment. */
  function Stamp(n: Node, t: Task): Option<Message> {
    match t
    case SendVoteRequest(_, last) =>
      Some(Message(RequestVote, n.term, At(n.id), Some(n.id), n.id, last, false))
    case SendVoteResponse(replyTo, granted) =>
      if replyTo == Nowhere then None
      else Some(Message(VoteResponse, n.term, At(n.id), Some(n.id), "", Position(0, 0), granted))
    case SendHeartbeat(_) =>
      Some(Message(Heartbeat, n.term, At(n.id), Some(n.id), "", Position(0, 0), false))
  }

  function AdoptTerm(n: Node, term: int): Node {
    if term > n.term then n.(term := term, role := Follower, votedFor := None) else n
  }

  predicate Grants(n: Node, m: Message) {
    && (m.term > n.term || (m.term == n.term && (n.votedFor == None || n.votedFor == Some(m.candidateId))))
    && UpToDate(m.last, LastPosition(n.log))
  }

  function OnVoteRequest(n: Node, m: Message): Node {
    if Grants(n, m) then n.(votedFor := Some(m.candidateId), term := m.term) else n
  }

  function Voter(m: Message): Id {
    if m.senderId.Some? then m.senderId.value else ""
  }

  /** The response adds a name to `votes`; the response's term plays no part. */
  predicate Counts(n: Node, m: Message) {
    m.granted && Voter(m) !in n.votes
  }

  function CountVote(n: Node, m: Message): Node {
    if Counts(n, m) then n.(votes := n.votes + [Voter(m)]) else n
  }

  predicate Wins(n: Node) {
    n.role == Candidate && |n.votes| >= Majority(n)
  }

  function CheckWinner(n: Node): Node {
    if Wins(n) then n.(role := Leader, leaderId := Some(n.id)) else n
  }

  function OnVoteResponse(n: Node, m: Message): Node {
    CheckWinner(CountVote(n, m))
  }

  /** Without a `sender_id`, the sender's address stands in for it. */
  function SenderName(m: Message): Id {
    if m.senderId.Some? then m.senderId.value else if m.sender.At? then m.sender.node else ""
  }

  function OnHeartbeat(n: Node, m: Message): Node {
    n.(role := Follower, leaderId := Some(SenderName(m)))
  }

  function OnMessage(n: Node, m: Message): Node {
    var n := AdoptTerm(n, m.term);
    match m.kind
    case RequestVote => OnVoteRequest(n, m)
    case VoteResponse => OnVoteResponse(n, m)
    case Heartbeat | AppendEntries => OnHeartbeat(n, m)
    case Unknown => n
  }

  /** What the handler schedules while it processes `m`. */
  function MessageTasks(n: Node, m: Message): seq<Task> {
    var n := AdoptTerm(n, m.term);
    match m.kind
    case RequestVote => [SendVoteResponse(m.sender, Grants(n, m))]
    case VoteResponse => if Wins(CountVote(n, m)) then HeartbeatTasks(n) else []
    case Heartbeat | AppendEntries | Unknown => []
  }

  function Submit(n: Node, command: string, data: map<string, string>): Node {
    if n.role == Leader then n.(log := n.log + [LogEntry(n.term, |n.log| + 1, command, data)]) else n
  }

  // ---- the node as the program has it ---------------------------------------

  class RaftNode {
    const nodeId: Id
    const peers: seq<Id>
    var state: Role
    var currentTerm: nat
    var votedFor: Option<Id>
    var log: seq<LogEntry>
    var votesReceived: seq<Id>
    var leaderId: Option<Id>
    /** Written when an election is won, and read by nothing; so not part of `View`. */
    var nextIndex: map<Id, nat>
    var matchIndex: map<Id, nat>

    function View(): Node
      reads this
    {
      Node(nodeId, peers, state, currentTerm, votedFor, log, votesReceived, leaderId)
    }

    constructor (nodeId: Id, peers: seq<Id>)
      ensures View() == Fresh(nodeId, peers) && nextIndex == map[] && matchIndex == map[]
    {
      this.nodeId, this.peers := nodeId, peers;
      state, currentTerm, votedFor := Follower, 0, None;
      log, votesReceived, leaderId := [], [], None;
      nextIndex, matchIndex := map[], map[];
    }

    method BeginElection() returns (tasks: seq<Task>)
      modifies this
      ensures View() == StartElection(old(View()))
      ensures tasks == ElectionTasks(old(View()))
    {
      ghost var was := View();
      state := Candidate;
      currentTerm := currentTerm + 1;
      votedFor := Some(nodeId);
      votesReceived := [nodeId];
      var last := if log == [] then Position(0, 0) else Position(log[|log| - 1].term, log[|log| - 1].index);
      tasks := [];
      for i := 0 to |peers|
        invariant View() == StartElection(was) && last == LastPosition(was.log)
        invariant tasks == ElectionTasks(was)[..i]
      {
        tasks := tasks + [SendVoteRequest(peers[i], last)];
      }
    }

    method SendHeartbeats() returns (tasks: seq<Task>)
      ensures tasks == HeartbeatTasks(View())
    {
      tasks := [];
      for i := 0 to |peers|
        invariant tasks == HeartbeatTasks(View())[..i]
      {
        tasks := tasks + [SendHeartbeat(peers[i])];
      }
    }

    /** What a scheduled send writes to the wire, reading the term as it is by then. */
    method SendTask(t: Task) returns (m: Option<Message>)
      ensures m == Stamp(View(), t)
    {
      match t
      case SendVoteRequest(_, last) =>
        m := Some(Message(RequestVote, currentTerm, At(nodeId), Some(nodeId), nodeId, last, false));
      case SendVoteResponse(replyTo, granted) =>
        if replyTo == Nowhere {
          return None;
        }
        m := Some(Message(VoteResponse, currentTerm, At(nodeId), Some(nodeId), "", Position(0, 0), granted));
      case SendHeartbeat(_) =>
        m := Some(Message(Heartbeat, currentTerm, At(nodeId), Some(nodeId), "", Position(0, 0), false));
    }

    method HandleMessage(m: Message) returns (tasks: seq<Task>)
      modifies this
      ensures View() == OnMessage(old(View()), m)
      ensures tasks == MessageTasks(old(View()), m)
    {
      if m.term > currentTerm {
        currentTerm := m.term;
        state := Follower;
        votedFor := None;
      }
      tasks := [];
      match m.kind
      case RequestVote => tasks := HandleVoteRequest(m);
      case VoteResponse => tasks := HandleVoteResponse(m);
      case Heartbeat => HandleHeartbeat(m);
      case AppendEntries => HandleHeartbeat(m);
      case Unknown =>
    }

    method HandleVoteRequest(m: Message) returns (tasks: seq<Task>)
      modifies this
      ensures View() == OnVoteRequest(old(View()), m)
      ensures tasks == [SendVoteResponse(m.sender, Grants(old(View()), m))]
    {
      var last := if log == [] then Position(0, 0) else Position(log[|log| - 1].term, log[|log| - 1].index);
      var logOk := m.last.term > last.term || (m.last.term == last.term && m.last.index >= last.index);
      var termOk := m.term > currentTerm
                 || (m.term == currentTerm && (votedFor == None || votedFor == Some(m.candidateId)));
      if termOk && logOk {
        votedFor := Some(m.candidateId);
        currentTerm := m.term;
        tasks := [SendVoteResponse(m.sender, true)];
      } else {
        tasks := [SendVoteResponse(m.sender, false)];
      }
    }

    method HandleVoteResponse(m: Message) returns (tasks: seq<Task>)
      modifies this
      ensures View() == OnVoteResponse(old(View()), m)
      ensures tasks == if Wins(CountVote(old(View()), m)) then HeartbeatTasks(old(View())) else []
    {
      var voter := if m.senderId.Some? then m.senderId.value else "";
      if m.granted && voter !in votesReceived {
        votesReceived := votesReceived + [voter];
      }
      tasks := CheckElectionWinner();
    }

    method CheckElectionWinner() returns (tasks: seq<Task>)
      modifies this
      ensures View() == CheckWinner(old(View()))
      ensures tasks == if Wins(old(View())) then HeartbeatTasks(old(View())) else []
      ensures nextIndex == if Wins(old(View())) then map p | p in peers :: |log| + 1 else old(nextIndex)
      ensures matchIndex == if Wins(old(View())) then map p | p in peers :: 0 else old(matchIndex)
    {
      if state != Candidate {
        return [];
      }
      var totalNodes := |peers| + 1;
      var majority := totalNodes / 2 + 1;
      if |votesReceived| >= majority {
        state := Leader;
        leaderId := Some(nodeId);
        nextIndex := map p | p in peers :: |log| + 1;
        matchIndex := map p | p in peers :: 0;
        tasks := SendHeartbeats();
      } else {
        tasks := [];
      }
    }

    method HandleHeartbeat(m: Message)
      modifies this
      ensures View() == OnHeartbeat(old(View()), m)
    {
      state := Follower;
      leaderId := Some(SenderName(m));
    }

    method SubmitCommand(command: string, data: map<string, string>) returns (accepted: bool)
      modifies this
      ensures View() == Submit(old(View()), command, data)
      ensures accepted == (old(state) == Leader)
    {
      if state != Leader {
        return false;
      }
      log := log + [LogEntry(currentTerm, |log| + 1, command, data)];
      return true;
    }
  }
}
