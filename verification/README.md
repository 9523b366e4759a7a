# A verified model of the distributed synchronisation system

This project models the four stateful components of the distributed synchronisation system and proves what they guarantee over whole runs: the Raft election and log, the lock manager, the consistent-hash ring with its message queue, and the LRU cache.

`dafny verify dfyconfig.toml` checks everything.

## How it is built

Each component has one file with its state, the functions that say what every operation does to that state, and a class whose methods update fields in place, as the program does; each method is proved to do what its function says. A second group of files puts these operations into runs.

| component | operations and class | runs and guarantees |
|---|---|---|
| Raft | `Raft.dfy` | `RaftCluster.dfy` (network, invariant), `RaftSafety.dfy` (guarantees), `RaftElections.dfy` (what handlers decide), `RaftRuns.dfy` (building runs), `RaftSplit.dfy` (which votes may be counted), `RaftLeads.dfy` (who can lead) |
| lock manager | `LockManager.dfy` | `LockRuns.dfy` (exclusion, order, conservation), `LockTiming.dfy` (a bound by position), `LockPatience.dfy` (a bound by timeout), `LockAnswers.dfy` (what answers are worth), `LockGrants.dfy` (who is answered success, and how long records last), `LockReaders.dfy` (readers and writers) |
| ring | `HashRing.dfy` | the same file |
| queue | `MessageQueue.dfy` | `QueueRuns.dfy`, `QueueStarts.dfy` (partitions, and which acknowledgements succeed), `QueueAcks.dfy` (what an acknowledgement is worth) |
| cache | `Lru.dfy`, `CacheNode.dfy` | `Lru.dfy`, `CacheRuns.dfy` |

`Util.dfy` holds facts about sequences and sets.

Every block that runs under a component's lock never suspends, except the wait in `dequeue`, which holds the lock; so each is one step. What the program schedules in the background (sends, sleeps, timeouts) is a step of its own, taken at any later time or never. A step reads the clock once. A run is any sequence of enabled steps; all guarantees are about all runs from an initial state. Fields named as history in the run files record what happened and influence nothing.

For Raft, sent messages stay in the network, so they can arrive late, repeatedly, in any order or not at all. A node's address is that of its identity, and differs from the empty address whatever the identity is. A message's term is the sender's term when the background send runs, which may be later than the decision it reports.

The hash is any function into 128 bits. Times and lifetimes are real numbers. Request and message identities are parameters, required to be unused.

## What the code does differently from its documentation

- Election Safety does not hold on every run. `_handle_vote_response` (raft.py:228-241) never looks at the term of the response. In every run, two wins of one term are by one node if and only if every voter that both counted was counted with one and the same vote (`RaftSafety.WinsAgreeExactly`). A check that lets every vote of the present term pass makes all runs safe if and only if it lets no vote pass that was decided in an earlier term (`RaftSplit.SafeFilterExactly`), and the same condition is exact for Log Matching (`RaftSplit.LogFilterExactly`). Comparing terms on receipt, in whatever way, is not such a check, because the answer is stamped with the voter's term when it is sent (`RaftSplit.NoReceiptCheckSuffices`). `RaftSplit.OldVoteCounted` and `RaftSplit.LateStampedVote` are runs of three nodes that end with two leaders of term 2.
- A cluster of one node never has a leader. Some run elects one if and only if there are at least two nodes (`RaftLeads.LeaderPossibleExactly`), and then every node can be elected, by fresh votes alone (`RaftLeads.CanLeadExactly`).
- A shared lock does not keep writers away from its readers. A success for a shared request keeps writers out, until its client releases or the record expires, if and only if it was not answered by joining a lock that another client holds (`LockReaders.SharedAnswerExactly`). The lock itself goes over to a writer when its holder upgrades, or when it ends and a writer heads the queue (`LockReaders.SharedExactly`). In every run, a writer succeeds over a client that still reads if and only if some other client had joined a lock that was not its own and has neither released nor lost it since (`LockReaders.WriterOverReaderExactly`); `LockReaders.UpgradeOverB`, `LockReaders.ReleaseDropsB` and `LockReaders.SweepLeavesB` are runs for the three ways.
- A success for an exclusive request does not always mean exclusion: a poll that finds its client as holder does not look at the type of the lock (`LockAnswers.ExclusiveAnswerExactly`, `LockAnswers.ExclusiveAnswerInSharedLock`).
- A timeout is answered without looking at the lock: it is wrong if and only if the request had been promoted and its lock has since neither ended nor been renewed (`LockAnswers.TimeoutAnswerExactly`, `LockAnswers.TimeoutWhileHolding`).
- A caller's wait is bounded by its own timeout, renewals or not (`LockPatience.PatienceBound`). A bound by the position in the queue holds only while the holder does not renew (`LockTiming.BoundedWaiting`): a holder that renews can keep an attentive caller queued up to its deadline, whatever its timeout (`LockPatience.RenewalStarves`). A successful poll can leave its request queued for a lock that nobody awaits (`LockPatience.SuccessLeavesQueuedExactly`).
- The ring depends only on the current members if and only if the virtual nodes of different members do not collide (`HashRing.HistoryIndependentExactly`).
- A successful acknowledgement is not always final. It can find its message already queued again (`QueueRuns.LateAckExactly`, `QueueRuns.LateAckHappens`), or be undone afterwards (`QueueAcks.SuccessUndone`). A delivery's message is resolved, for good, if and only if its wait ends before its timeout strikes (`QueueAcks.WaitEndsExactly`, `QueueAcks.ResolvedNeverReturns`).
- Only three of the five line states of the cache protocol ever occur (`CacheRuns.OnlyThreeStates`), and an invalid line is still read.
- The LRU order covers the cached lines in every run if and only if its capacity is at least the cache's size and at least one (`CacheRuns.AgreementExactly`).

## Model

| member | source | states |
|---|---|---|
| Raft.RaftNode.constructor | distributed-sync-system/src/consensus/raft.py:33-52 | a follower of term 0 that has voted for nobody and has an empty log |
| Raft.RaftNode.BeginElection | distributed-sync-system/src/consensus/raft.py:78-91 | a new term, a vote for itself, a tally of one, and one request per peer carrying the log position of this moment |
| Raft.RaftNode.SendTask | distributed-sync-system/src/consensus/raft.py:103-113 | what a scheduled send writes, with the term the node has when the send runs |
| Raft.RaftNode.HandleMessage | distributed-sync-system/src/consensus/raft.py:153-172 | a higher term is adopted and clears the vote before the message is handled by its kind |
| Raft.RaftNode.HandleVoteRequest | distributed-sync-system/src/consensus/raft.py:174-202 | the vote is granted for a new or unspent term and an up-to-date log, and answered in either case |
| Raft.RaftNode.HandleVoteResponse | distributed-sync-system/src/consensus/raft.py:228-241 | a granting sender enters the tally once, whatever the response's term |
| Raft.RaftNode.CheckElectionWinner | distributed-sync-system/src/consensus/raft.py:243-261 | a candidate with a majority of the cluster becomes leader, sets both index tables and schedules heartbeats |
| Raft.RaftNode.SendHeartbeats | distributed-sync-system/src/consensus/raft.py:128-130 | one heartbeat is scheduled for each peer |
| Raft.RaftNode.HandleHeartbeat | distributed-sync-system/src/consensus/raft.py:263-274 | the node follows the sender and keeps its vote |
| Raft.RaftNode.SubmitCommand | distributed-sync-system/src/consensus/raft.py:276-288 | only a leader appends, with its term and the next index |
| RaftCluster.StepKeepsInv | distributed-sync-system/src/consensus/raft.py:78-288 | every step of nodes and network keeps the invariant from which the guarantees below follow |
| RaftSafety.OneVotePerTerm | distributed-sync-system/src/consensus/raft.py:192-200 | in every run no node votes for two candidates in one term (section 5.2 of the Raft paper), with no assumption on the network |
| RaftSafety.OneGrantPerTerm | distributed-sync-system/src/consensus/raft.py:192-218 | two granting answers on the wire that one node decided in one term go to the same candidate |
| RaftSafety.NothingTakenBack | distributed-sync-system/src/consensus/raft.py:157-163 | between any two moments of a run terms only rise, a vote stands for the rest of its term, and logs are only extended (leader append-only) |
| RaftSafety.LogsWellFormed | distributed-sync-system/src/consensus/raft.py:276-288 | entry i has index i + 1, terms never fall and never pass the node's term, and each is a term that the node itself has won |
| RaftSafety.KnownLeaderWon | distributed-sync-system/src/consensus/raft.py:263-274 | whoever a node takes for leader really won an election, in a term the node has reached, although heartbeats are stamped late and stale ones are accepted |
| RaftSafety.LeaderHasMajority | distributed-sync-system/src/consensus/raft.py:243-256 | a leader in office was elected by distinct members that are more than half of the cluster |
| RaftSafety.ElectionRestriction | distributed-sync-system/src/consensus/raft.py:184-200 | every voter that elected a leader had, when it granted, a log no more up to date than the leader's (section 5.4.1), although requests carry a position captured before their term |
| RaftSafety.WinsAgreeExactly | distributed-sync-system/src/consensus/raft.py:228-256 | in every run, two wins of one term are by one node if and only if every voter that both counted was counted with one and the same vote |
| RaftSafety.SplitNeedsOldVote | distributed-sync-system/src/consensus/raft.py:228-256 | in every run, two nodes that won one term both counted some voter, one of them with a vote decided in an earlier term |
| RaftSafety.FreshWinsAgree | distributed-sync-system/src/consensus/raft.py:243-256 | two wins of one term with only votes decided in that term are by the same node |
| RaftSafety.ElectionSafety | distributed-sync-system/src/consensus/raft.py:228-259 | in every run in which no candidate tallies a vote decided in another term, the leaders of one term at any two moments are the same node (section 5.2) |
| RaftSafety.LogsShareNoTerm | distributed-sync-system/src/consensus/raft.py:276-288 | under the same condition, entries of one term are in the log of one node only |
| RaftSafety.LogMatching | distributed-sync-system/src/consensus/raft.py:276-288 | under the same condition, logs with an entry of the same index and term agree up to it (section 5.3) |
| RaftSafety.LoneNodeNeverLeads | distributed-sync-system/src/consensus/raft.py:243-254 | a cluster of one node has no leader in any run |
| RaftElections.CandidateWinsExactly | distributed-sync-system/src/consensus/raft.py:228-259 | in every run, a response that reaches a candidate adds its sender to the tally if it grants and is new, and the candidate leads from then on if and only if the tally is more than half of the cluster |
| RaftElections.OnlyResponsesElect | distributed-sync-system/src/consensus/raft.py:228-261 | a node becomes leader only by a vote response that reaches it as a candidate, of no later term |
| RaftElections.LeaderAnnounces | distributed-sync-system/src/consensus/raft.py:124-130 | in every run, winning an election and the heartbeat timer each schedule a heartbeat for every other member |
| RaftElections.GrantedExactly | distributed-sync-system/src/consensus/raft.py:174-202 | in every run, a request is granted if and only if the receiver's vote is unspent and the log that the candidate had when it began to stand ends in a later term than the receiver's, or in the same term and is at least as long; and nothing else changes |
| RaftElections.OneGrantsTheOther | distributed-sync-system/src/consensus/raft.py:184-200 | at every moment of every run, of any two members that do not lead, one can still get the other's vote |
| RaftElections.HeartbeatFollowed | distributed-sync-system/src/consensus/raft.py:153-172 | in every run, a delivered heartbeat makes every node a follower of its sender, and frees its vote only in a later term |
| RaftElections.LeaderSignFollowed | distributed-sync-system/src/consensus/raft.py:263-274 | the same for any message taken for a sign of a leader, with the defaults of its sender |
| RaftElections.LaterTermAdopted | distributed-sync-system/src/consensus/raft.py:157-163 | a message of a later term, of any kind, makes its receiver a follower in that term; no other message changes the term |
| RaftElections.LogsAreCommands | distributed-sync-system/src/consensus/raft.py:276-288 | in every run, a log holds exactly the commands submitted to its node while it led, with their data and terms, in order |
| RaftLeads.EveryNodeCanLead | distributed-sync-system/src/consensus/raft.py:78-261 | in every cluster of two or more, every node is leader at the end of some run that counts only fresh votes |
| RaftLeads.CanLeadExactly | distributed-sync-system/src/consensus/raft.py:204-256 | a member can become leader in some run if and only if it is not alone, and then also in a run of fresh votes |
| RaftLeads.LeaderPossibleExactly | distributed-sync-system/src/consensus/raft.py:243-256 | some run of a cluster elects a leader if and only if the cluster has at least two nodes |
| RaftSplit.SafeFilterExactly | distributed-sync-system/src/consensus/raft.py:228-241 | for every filter on counted votes that lets votes of the present term pass: no two nodes ever lead one term, in any run of any cluster, if and only if it lets no vote of an earlier term pass |
| RaftSplit.NoReceiptCheckSuffices | distributed-sync-system/src/consensus/raft.py:204-241 | no comparison of the stamped term with the candidate's term is such a filter |
| RaftSplit.LogFilterExactly | distributed-sync-system/src/consensus/raft.py:228-288 | for every such filter: entries of one term lie in one node's log, and Log Matching holds, in all runs of all clusters, if and only if it lets no vote of an earlier term pass |
| RaftSplit.OldVoteCounted | distributed-sync-system/src/consensus/raft.py:228-241 | a run of three nodes with two leaders of term 2: a vote of term 1 is tallied in term 2 |
| RaftSplit.LateStampedVote | distributed-sync-system/src/consensus/raft.py:204-220 | the same outcome although every delivered answer carries its receiver's current term |
| LockManager.DistributedLockManager.AcquireEntry | distributed-sync-system/src/nodes/lock_manager.py:52-77 | a free lock is taken, readers join, the holder upgrades, everybody else is queued; a success names request and resource |
| LockManager.DistributedLockManager.AcquirePoll | distributed-sync-system/src/nodes/lock_manager.py:83-101 | a poll takes a free lock or finds its client to be the holder |
| LockManager.DistributedLockManager.AcquireTimeout | distributed-sync-system/src/nodes/lock_manager.py:103-110 | a request that gives up leaves the queue, and the others keep their order |
| LockManager.DistributedLockManager.ReleaseLock | distributed-sync-system/src/nodes/lock_manager.py:112-122 | only the holder releases; the head of the queue becomes the holder; both errors |
| LockManager.DistributedLockManager.ProcessWaiting | distributed-sync-system/src/nodes/lock_manager.py:124-127 | the head of a non-empty queue leaves it and holds the lock for 30 seconds |
| LockManager.DistributedLockManager.SweepExpired | distributed-sync-system/src/nodes/lock_manager.py:152-159 | deleting expired locks one by one passes each on exactly as doing it for all at once |
| LockRuns.ExclusiveExclusion | distributed-sync-system/src/nodes/lock_manager.py:52-127 | while a client's exclusive lock is neither released by it nor expired, no other client is told that it has the resource, whatever interleaves |
| LockRuns.NoIdleLock | distributed-sync-system/src/nodes/lock_manager.py:118-127 | in every run an unlocked resource has an empty queue |
| LockRuns.PollCleansNothing | distributed-sync-system/src/nodes/lock_manager.py:84-97 | the cleanup in the poll that takes a free lock never removes anything |
| LockRuns.EveryRequestAccounted | distributed-sync-system/src/nodes/lock_manager.py:73-77 | every request ever queued is in exactly one of: still queued, promoted, withdrawn on timeout |
| LockRuns.FirstComeFirstServed | distributed-sync-system/src/nodes/lock_manager.py:124-127 | no request is promoted while an earlier one is still queued |
| LockRuns.PromotedThenQueuedAreArrivals | distributed-sync-system/src/nodes/lock_manager.py:47-159 | in every run the promoted requests followed by the queued ones are exactly the arrivals that did not withdraw, in order of arrival |
| LockGrants.AcquireAnswerExactly | distributed-sync-system/src/nodes/lock_manager.py:52-77 | a request succeeds at once if and only if the resource is free, or it shares a shared lock, or its client holds the resource and wants it exclusively; otherwise it is queued last and its caller waits until its timeout |
| LockGrants.PollAnswerExactly | distributed-sync-system/src/nodes/lock_manager.py:83-101 | a poll succeeds if and only if the resource is free or its client holds it, whatever the types; that is, if and only if its client holds it afterwards |
| LockGrants.PromotedIsAnswered | distributed-sync-system/src/nodes/lock_manager.py:98-127 | in every run, a sleeping caller whose request was promoted, while its record lasts, holds the resource in the type it asked for, and its poll is answered success |
| LockGrants.ReleasedExactly | distributed-sync-system/src/nodes/lock_manager.py:112-127 | only the holder releases; then its readers are gone and the head of the queue holds the resource, or nobody |
| LockGrants.SweptExactly | distributed-sync-system/src/nodes/lock_manager.py:124-159 | whatever happens in between without a release or renewal, a sweep takes a record away if and only if more than its timeout, or 30 seconds for a promoted one, have passed since it was made |
| LockTiming.BoundedWaiting | distributed-sync-system/src/nodes/lock_manager.py:124-159 | with sweeps at most d apart and no renewal, the request at position k is promoted or withdrawn once the clock passes created_at + ttl + d + k * (30 + d) |
| LockPatience.PatienceBound | distributed-sync-system/src/nodes/lock_manager.py:79-110 | if callers look at the clock at most p apart, each has exactly one answer once p more than its timeout has passed since it entered, renewals or not; and its request is then out of every queue unless the answer was success |
| LockPatience.SuccessLeavesQueuedExactly | distributed-sync-system/src/nodes/lock_manager.py:83-101 | in every run, a poll that succeeds leaves its request queued if and only if the request was not promoted; its client then holds the lock by another request |
| LockPatience.RenewalStarves | distributed-sync-system/src/nodes/lock_manager.py:66-110 | from the initial state, for every timeout and every interval up to 30 seconds: with a renewal, a sweep and a look and poll of the caller in each interval, the caller is still queued when the intervals fill its timeout, and times out |
| LockAnswers.ExclusiveAnswerExactly | distributed-sync-system/src/nodes/lock_manager.py:52-101 | a success for an exclusive request keeps all other clients out until the record ends if and only if it is not a poll that finds its client to hold a shared lock |
| LockAnswers.ExclusiveAnswerInSharedLock | distributed-sync-system/src/nodes/lock_manager.py:98-101 | a run in which such a poll is answered with success |
| LockAnswers.TimeoutAnswerExactly | distributed-sync-system/src/nodes/lock_manager.py:80-110 | in every run, a timeout answer is wrong when given if and only if a step of the run had promoted the request and its lock has since neither ended nor been renewed; otherwise it stays right in every continuation |
| LockAnswers.TimeoutWhileHolding | distributed-sync-system/src/nodes/lock_manager.py:80-127 | a run in which a caller answers timeout while it holds the lock |
| LockReaders.SharedExactly | distributed-sync-system/src/nodes/lock_manager.py:52-127 | a shared lock stays shared throughout a run if and only if its holder never upgrades and it never ends with nobody or a writer at the head of its queue; meanwhile only polls of the holder are answered as exclusive |
| LockReaders.SafeExactly | distributed-sync-system/src/nodes/lock_manager.py:52-127 | until a client releases or the record expires, no run tells another client that it has the resource exclusively, if and only if the client is the holder |
| LockReaders.SharedAnswerExactly | distributed-sync-system/src/nodes/lock_manager.py:59-64 | a success for a shared request gives that safety if and only if it is not the answer to joining a lock held by another client |
| LockReaders.WriterOverReaderExactly | distributed-sync-system/src/nodes/lock_manager.py:52-122 | in every run, a writer succeeds over a client that still reads if and only if some other client had joined a lock held by another and has neither released nor lost it since; each such client is registered or was dropped by a release, not both, and never the holder |
| LockReaders.UpgradeOverB | distributed-sync-system/src/nodes/lock_manager.py:66-70 | a run in which the holder of a shared lock upgrades over a reader that has joined it |
| LockReaders.ReleaseDropsB | distributed-sync-system/src/nodes/lock_manager.py:112-122 | a run in which the holder's release deletes the registration of a reader, and a writer succeeds over it |
| LockReaders.SweepLeavesB | distributed-sync-system/src/nodes/lock_manager.py:152-159 | a run in which the holder's lock expires, and a writer succeeds over a reader that is still registered |
| HashRing.LabelInjective | distributed-sync-system/src/nodes/queue_node.py:25-29 | labels of different virtual nodes differ for all node names, so only the hash can collide |
| HashRing.LabelSpells | distributed-sync-system/src/nodes/queue_node.py:25-29 | a label is the node's name, `:vn`, and the number in decimal without leading zeros |
| HashRing.ConsistentHashRing.BuildRing | distributed-sync-system/src/nodes/queue_node.py:22-29 | the ring is the nodes' points claimed in order, and the keys are its sorted key set |
| HashRing.ConsistentHashRing.AddNode | distributed-sync-system/src/nodes/queue_node.py:40-44 | the node claims its points, and the keys are sorted again |
| HashRing.ConsistentHashRing.RemoveNode | distributed-sync-system/src/nodes/queue_node.py:46-48 | the node's points go, and the keys are sorted again |
| HashRing.ConsistentHashRing.GetNode | distributed-sync-system/src/nodes/queue_node.py:31-38 | the scan with wrap-around returns the owner of the point at least clockwise distance, and nothing exactly on an empty ring |
| HashRing.OwnerUnique | distributed-sync-system/src/nodes/queue_node.py:31-38 | on a ring with points every hash has exactly one owner |
| HashRing.RingExactly | distributed-sync-system/src/nodes/queue_node.py:22-29 | collisions or not, a ring has exactly the points on which the virtual nodes of its listed nodes fall, each owned by the last listed node on it |
| HashRing.ChangesExactly | distributed-sync-system/src/nodes/queue_node.py:40-48 | a joining node takes exactly its points, and a leaving node takes along exactly the points that it owned |
| HashRing.RemoveMovesOnlyItsKeys | distributed-sync-system/src/nodes/queue_node.py:46-48 | removing a node moves no key of another node, collisions or not |
| HashRing.AddMovesExactly | distributed-sync-system/src/nodes/queue_node.py:40-44 | an added node takes a key if one of its points is at least as near as every old one; otherwise the key keeps its owner |
| HashRing.AddMovesOnlyToIt | distributed-sync-system/src/nodes/queue_node.py:40-44 | after an addition every key has its old owner or the new node |
| HashRing.HistoryIndependentExactly | distributed-sync-system/src/nodes/queue_node.py:22-48 | every history of joins and leaves, and every listing order, leads to the ring built from the current members, if and only if no two possible members collide |
| MessageQueue.DistributedQueue.StartQueues | distributed-sync-system/src/nodes/queue_node.py:81-84 | every partition begins empty |
| MessageQueue.DistributedQueue.EnqueueMessage | distributed-sync-system/src/nodes/queue_node.py:91-106 | the message goes to the end of its topic's partition; an error before the partitions exist |
| MessageQueue.DistributedQueue.DequeueMessage | distributed-sync-system/src/nodes/queue_node.py:127-153 | the head of the partition is delivered and awaits an acknowledgement under a new event |
| MessageQueue.DistributedQueue.RequeueTimedOut | distributed-sync-system/src/nodes/queue_node.py:155-161 | a timed-out message goes back to the head of its partition if it is not there |
| MessageQueue.DistributedQueue.AcknowledgeMessage | distributed-sync-system/src/nodes/queue_node.py:163-170 | the event registered for the message is set and forgotten; an error if there is none |
| MessageQueue.PartitionFor | distributed-sync-system/src/nodes/queue_node.py:93-96 | a topic's partition is the remainder of its hash by the number of partitions |
| QueueStarts.StartExactly | distributed-sync-system/src/nodes/queue_node.py:81-84 | a start of an unused queue creates exactly the partitions 0 to `partitions` - 1, all empty |
| QueueStarts.RestartExactly | distributed-sync-system/src/nodes/queue_node.py:81-84 | a start of a queue in use empties those partitions and leaves all else |
| QueueStarts.EveryTopicAccepted | distributed-sync-system/src/nodes/queue_node.py:91-106 | after a start, at every moment of every run, the partition of every topic exists, and a message enqueued for it becomes its last |
| QueueStarts.AckSucceedsExactly | distributed-sync-system/src/nodes/queue_node.py:150-170 | in every run, an acknowledgement succeeds if and only if its message was delivered after the last acknowledgement that named it |
| QueueRuns.ExactlyOnePlace | distributed-sync-system/src/nodes/queue_node.py:145-170 | in every run each enqueued message is once in its partition, or with one waiting task, or resolved, and never two of these |
| QueueRuns.UnacknowledgedNeverLost | distributed-sync-system/src/nodes/queue_node.py:155-170 | a message with no successful acknowledgement is in its partition or awaited |
| QueueRuns.FirstDeliveriesInOrder | distributed-sync-system/src/nodes/queue_node.py:99-161 | first deliveries follow the order of enqueueing, and a partition is its messages put back, each once, followed by all that were never delivered |
| QueueRuns.NeverPutBackTwice | distributed-sync-system/src/nodes/queue_node.py:160-161 | the guard before a timed-out message is put back is always true |
| QueueRuns.AckReachesDelivery | distributed-sync-system/src/nodes/queue_node.py:163-169 | an acknowledgement of an awaited, unacknowledged delivery succeeds and sets that delivery's event |
| QueueRuns.LateAckExactly | distributed-sync-system/src/nodes/queue_node.py:155-170 | a successful acknowledgement finds its message queued again if and only if its last delivery has no waiting task left |
| QueueRuns.LateAckHappens | distributed-sync-system/src/nodes/queue_node.py:155-170 | a run in which that happens |
| QueueAcks.ResolvedNeverReturns | distributed-sync-system/src/nodes/queue_node.py:155-170 | a resolved message is never queued, awaited or open to an acknowledgement again |
| QueueAcks.WaitEndsExactly | distributed-sync-system/src/nodes/queue_node.py:155-161 | when the wait for a delivery ends, in any run, its message is resolved if and only if the timeout has not struck, and back in its partition if and only if it has |
| QueueAcks.SuccessUndone | distributed-sync-system/src/nodes/queue_node.py:155-170 | a run in which an acknowledgement succeeds and its message is put back afterwards |
| Lru.LRUReplacement.TouchAddress | distributed-sync-system/src/nodes/cache_node.py:34-39 | the address moves to the recent end, and the oldest goes if there are too many |
| Lru.LRUReplacement.Evict | distributed-sync-system/src/nodes/cache_node.py:41-44 | the oldest address, or nothing if there is none |
| Lru.LRUReplacement.RemoveAddress | distributed-sync-system/src/nodes/cache_node.py:46-48 | the address leaves the order, and the others keep theirs |
| Lru.Inclusion | distributed-sync-system/src/nodes/cache_node.py:34-48 | Mattson's stack property: after any touches and removals the order of a smaller capacity is a suffix of the order of a larger one |
| Lru.MoreCapacityMoreHits | distributed-sync-system/src/nodes/cache_node.py:34-48 | a larger capacity never has fewer hits |
| Lru.OrderIsRecentPart | distributed-sync-system/src/nodes/cache_node.py:34-39 | after touches alone the order is exactly the last capacity-many distinct addresses |
| Lru.RecencyIsByRecency | distributed-sync-system/src/nodes/cache_node.py:34-39 | the order those addresses are taken from lists each address once, by the position of its last use |
| CacheNode.Node.constructor | distributed-sync-system/src/nodes/cache_node.py:52-70 | an empty cache whose eviction order has the cache's size as its capacity |
| CacheNode.Node.ReadLine | distributed-sync-system/src/nodes/cache_node.py:80-97 | a valid line is a hit and is touched; otherwise a miss, which still returns an invalid line |
| CacheNode.Node.WriteLine | distributed-sync-system/src/nodes/cache_node.py:99-122 | a modified line is updated in place; otherwise a full cache evicts and a new line is installed; the error of a missing victim |
| CacheNode.Node.HandleSnoop | distributed-sync-system/src/nodes/cache_node.py:160-168 | a read snoop makes a modified line owned, an invalidation makes a line invalid |
| CacheNode.Node.InvalidateLine | distributed-sync-system/src/nodes/cache_node.py:203-209 | the line becomes invalid and keeps its data |
| CacheNode.Node.RemoveExpired | distributed-sync-system/src/nodes/cache_node.py:173-180 | deleting expired lines one by one leaves exactly the others, in lines and order |
| CacheRuns.ReadsLastWrite | distributed-sync-system/src/nodes/cache_node.py:80-122 | in every run a read returns the data last written locally, and nothing exactly if there was no write, or since then an eviction or a clean-up later than the time to live after it |
| CacheRuns.CleanUpExactly | distributed-sync-system/src/nodes/cache_node.py:173-180 | in every run, a clean-up removes a cached line if and only if more than the time to live has passed since the last write of its address |
| CacheRuns.WrittenStays | distributed-sync-system/src/nodes/cache_node.py:80-122 | what is written is read as long as nothing evicts it and no clean-up comes later than the time to live after the write |
| CacheRuns.CountersExactly | distributed-sync-system/src/nodes/cache_node.py:80-122 | in every run, hits are the reads of addresses that since their last write were neither dropped nor invalidated, misses the other reads, and invalidations the writes |
| CacheRuns.StateExactly | distributed-sync-system/src/nodes/cache_node.py:99-168 | a cached line is invalid, owned or modified by what has come for it since its last write, and its version counts the writes in a row that found it modified |
| CacheRuns.HitsAndMissesAreReads | distributed-sync-system/src/nodes/cache_node.py:80-90 | hits and misses add up to the reads |
| CacheRuns.OnlyThreeStates | distributed-sync-system/src/nodes/cache_node.py:99-168 | no line is ever in state exclusive or shared |
| CacheRuns.NeverOverfull | distributed-sync-system/src/nodes/cache_node.py:113-120 | with 1 <= max_size <= capacity the order covers the lines, there are at most max_size of them, and eviction always finds its victim |
| CacheRuns.VictimIsOldest | distributed-sync-system/src/nodes/cache_node.py:113-117 | a write into a full cache evicts a cached line that no other line was touched before |
| CacheRuns.EvictsExactly | distributed-sync-system/src/nodes/cache_node.py:113-122 | with 1 <= max_size <= capacity, a write evicts a line if and only if its address is not cached and the cache is full; it is one that no other was touched before, and all others stay |
| CacheRuns.AgreementExactly | distributed-sync-system/src/nodes/cache_node.py:34-48 | order and lines agree in every run if and only if the capacity is at least the size and at least one |

## Left out

- RaftSafety.ElectionSafety: holds under a condition on the run, because without it the property is false of this code; the exact forms are `RaftSafety.WinsAgreeExactly` for one run and `RaftSplit.SafeFilterExactly` for all runs; `RaftSplit.LogFilterExactly` is that of `RaftSafety.LogsShareNoTerm` and `RaftSafety.LogMatching`.
- LockTiming.BoundedWaiting: assumes that the holder does not renew, because with renewal only the caller's timeout bounds its wait (`LockPatience.PatienceBound`, `LockPatience.RenewalStarves`); a negative lifetime counts as zero.
- LockPatience.PatienceBound: a request whose caller was answered success by another request of its client may stay queued; then only `LockTiming.BoundedWaiting` bounds it.
- QueueRuns.UnacknowledgedNeverLost: about one process; a crash loses its memory, as in the program.
- TCP connections, JSON, addresses, logging and printing.
- Heartbeat clocks and random election timeouts: a node that is not leader may start an election at any time.
- `commit_index` of a Raft node, which never changes; `next_index` and `match_index` are kept by the class and are no part of the runs, because nothing reads them.
- Log replication and commit: no `append_entries` message is ever sent.
- The wait loop of `acquire_lock` as one method: other callers run between its rounds, so its critical sections are separate methods and steps.
- The hop between winning an election and scheduling its heartbeats: they are scheduled at once, and carry no state until they are sent.
- The deadlock detector: its wait graph is never filled, so it never acts.
- `get_node` inside `enqueue`: its result is not used.
- The polling loop of `dequeue`: it holds the lock, so no message can arrive while it waits, and it changes nothing.
- `_message_recovery`, replication and retry counts of the queue: no node handles the messages they send.
- `start` of the queue while it is in use, as a step of a run; `QueueStarts.RestartExactly` says what it does.
- Messages between caches, and coherence between nodes: no node dispatches them to the cache.
- Negative LRU capacities and negative numbers of virtual nodes: they behave like zero.
- Failure detector, message retries, metrics, configuration and token checks: one-branch facts.
- Restart and persistence: the program keeps no durable state.
