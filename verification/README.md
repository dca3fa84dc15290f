# Distributed registry: a verified model

This project models the stateful core of the registry in Dafny and proves what the code promises
about it: the Raft node that replicates the registry, the service table and its text snapshot, the
length-prefix framing, the connection pool and the thread pool.

`dafny verify dfyconfig.toml` checks everything.

## How it is organised

| files | content |
|---|---|
| `raft_spec`, `raft_node` | one Raft node: each handler as a function on values, and the class whose methods change its fields in place and are proved against those functions |
| `raft_cluster`, `raft_history` | any number of nodes as a step relation; runs; history variables |
| `raft_votes`, `raft_replication` | who gets votes, wins, commits and steps down; followers learn commits, and entries are what was proposed |
| `raft_log`, `raft_election*`, `raft_commit*`, `raft_safety`, `raft_repair` | the theorems about runs |
| `raft_divergence`, `raft_exactness` | where the code departs from the Raft paper, and which clusters stay safe all the same |
| `raft_runs`, `raft_counterexamples` | building runs of a cluster of any size, and the runs that are unsafe |
| `registry_table`, `registry_servers`, `registry_replay`, `registry_snapshot` | the table, its two implementations, replay on replicas, the snapshot's printer and parser |
| `framing` | the frame format, the epoll server's reassembly buffer, TcpConnection |
| `connection_pool`, `pool_threads`, `host_pool` | one host's connections: the sections under the lock, their interleavings by any number of threads, and the objects changed in place |
| `thread_pool`, `thread_pool_object` | the task queue and its workers, in the same two forms |
| `common` | option type and facts on sets and sequences |

## Which Raft the theorems are about

The code departs from section 5 of Ongaro and Ousterhout, "In Search of an Understandable Consensus
Algorithm (Extended Version)", in two places that matter. The model carries both as switches,
`Rules(keepVote, checkedMatch)`: `AS_WRITTEN` is the code, up to the locks mentioned below, and
`INTENDED` is the paper.

* Vote clearing. `becomeFollower` forgets the vote on every call, and an AppendEntries of the
  current term calls it (registry/raft_node_rpc.cpp:64-65, registry/raft_node.cpp:197). With
  `keepVote` the vote survives an equal term.
* Match index. A follower reports its whole log length, which may include a suffix that was never
  compared with the leader (registry/raft_node_rpc.cpp:110). With `checkedMatch` it reports
  `prev_log_index` plus the number of entries.

Every theorem about runs is stated for all cluster sizes, all four settings of the rules and all
interleavings. Where a departure can hurt, the theorem asks of the run what the switch would
guarantee, as a condition on single calls that small clusters meet by themselves:

* no condition: `LogsWellFormed`, `StepIsMonotone`, `RunIsMonotone`, `VotesInRuns`, `EntriesWereProposed`;
* `VoteSafeRun` (always, with `keepVote` or at most two nodes; otherwise if no pending vote request of
  the current term is served by a node whose vote may have been forgotten): `ElectionSafety`,
  `LogMatching`, `AcceptCopiesLeader`;
* `SafeRun` (in addition: always, with `checkedMatch` or at most four nodes; otherwise if no bare
  heartbeat is accepted by a log longer than what it checked): `LeaderCompleteness`,
  `StateMachineSafety`, `CommitIsStable`, `CommitTravels`, `FollowerCatchesUp`, `ReplicasAgree`.

Over all runs of a given cluster the answer is exact, and whoever runs a cluster can read it off its
size:

* `ElectionSafetyExactly`: every run has at most one leader per term if and only if votes are kept or
  the cluster has at most two nodes;
* `StateMachineSafetyExactly`: no two nodes ever apply different entries at one index if and only if
  votes are kept or there are at most two nodes, and match indices are checked or there are at most four.

With the rules as written a cluster is therefore safe exactly up to two nodes, and with only the vote
repaired up to four. A cluster of two is safe because the leader a node has heard of can only be the other node
(`NoRiskOfTwo`); up to four nodes the match index does no harm because a commit follows a success
reply, and leader and replier, who then really hold the whole log, meet every majority
(`TwoHoldersSuffice`). In every larger cluster there is an unsafe run, built step by step:
`TwoLeadersInOneTerm` (from three nodes on) makes voters forget and ends with two leaders of one term,
who in `ForgottenVoteDiverges` go on to apply different entries at one index;
`TwoEntriesAppliedAtOneIndex` (from five nodes on) comes to the same end through the unchecked match
index alone. `VoteForgottenExactly`, `SecondVoteExactly` and `MatchReportExactly` say of every single
call when it departs, and `CommitFallsExactly` when a call would lower the commit index, which safe
runs exclude.

Modelling decisions for the cluster:

* An election and a heartbeat round hold the node's state mutex from beginning to end, so a node in
  one serves no request. A call is a rendezvous: the peer handles it while the sender waits, or
  never, and the reply may be lost. The unconditional truncation of the follower's log is safe only
  because of this.
* Requests are typed. The code tells a vote request from an append request by trying to parse it as
  the one and then as the other (registry/raft_node.cpp:239-258), which bytes on the wire do not
  decide.
* On a reply of a higher term the node steps down and the round ends. As written the step-down
  locks a mutex that its own thread already holds (registry/raft_node_rpc.cpp:146 and :189);
  likewise `updateCommitIndex` locks the log mutex a second time (registry/raft_node_rpc.cpp:228).
  A thread that blocks for ever there is a node that takes no further step, so what is proved of all
  runs holds of the code with these locks as they are. The two runs in which entries are applied,
  `ForgottenVoteDiverges` and `TwoEntriesAppliedAtOneIndex`, are runs of the code with the second lock
  in `updateCommitIndex` repaired; `TwoLeadersInOneTerm` needs no such repair, since no reply to its
  heartbeats comes back.
* Nodes neither crash nor restart, since nothing is persisted. Terms and indices are unbounded
  where the code has `int64_t`. Node names are numbers, and an empty name is `None`.

## Clocks, input and output

Clock readings are arguments, in nanoseconds. What protobuf parses, what a socket accepts or
delivers, and whether a pooled connection is still valid are arguments or arbitrary choices.

## Model

| member | source | states |
|---|---|---|
| RaftNodeObject.RaftNode.constructor | registry/raft_node.cpp:7-26 | a new node is a follower of term 0 with an empty log, next index 1 and match index 0 for every peer |
| RaftNodeObject.RaftNode.BecomeFollower | registry/raft_node.cpp:194-202 | stepping down sets the term, names the leader and forgets the vote, and leaves log, commit and peer indices alone |
| RaftNodeObject.RaftNode.BecomeLeader | registry/raft_node.cpp:183-192 | a new leader expects every peer to be as long as its own log and to match nothing, and changes nothing else |
| RaftNodeObject.RaftNode.HandleRequestVote | registry/raft_node_rpc.cpp:5-49 | the method in place does to node and reply what the cluster model's vote step does, on every request |
| RaftNodeObject.RaftNode.StartElection | registry/raft_node.cpp:148-181 | one election over any replies: the first reply of a later term ends it, otherwise a strict majority with the own vote decides; a lost election also forgets the vote |
| RaftNodeObject.RaftNode.HandleAppendEntries | registry/raft_node_rpc.cpp:51-116 | the method in place, with its truncation and its loop of push_backs, does what the cluster model's append step does under the rules as written |
| RaftNodeObject.RaftNode.UpdateCommitIndex | registry/raft_node_rpc.cpp:223-252 | the downward loop leaves the commit index at the largest committable index above the old one, and otherwise untouched, for all logs and match vectors |
| RaftNodeObject.RaftNode.BuildAppendRequest | registry/raft_node.cpp:108-127 | the loop builds a request with the leader's whole suffix from next index on and the term before it |
| RaftNodeObject.RaftNode.HandleAppendReply | registry/raft_node_rpc.cpp:187-216 | success books the reported match under the first peer of that name and rescans, rejection steps back by one but never below 1, a later term ends leadership |
| RaftNodeObject.RaftNode.ProposeLogEntry | registry/raft_node.cpp:211-231 | succeeds exactly on a leader, whose log then ends with one entry of the current term, the next index, and the operation and data proposed |
| RaftNodeObject.RaftNode.ApplyCommittedEntries | registry/raft_node.cpp:289-299 | the loop hands over exactly the entries from last applied up to min(commit index, log length), in order |
| RaftSpec.CommitScan | registry/raft_node_rpc.cpp:230-251 | the scan is exact: its result is the old commit index or committable, and nothing above it is committable |
| RaftVotes.GrantedExactly | registry/raft_node_rpc.cpp:25-48 | a vote is granted exactly when it is not taken in the candidate's term and the candidate's log is as fresh: its last term is later, or the same and it is no shorter |
| RaftVotes.VotesInRuns | registry/raft_node_rpc.cpp:28-37 | that exact condition holds between any two nodes of any reachable state, under all rules |
| RaftVotes.PrefixGrants | registry/raft_node_rpc.cpp:28-37 | a node whose log is a prefix of the candidate's gives it its free vote |
| RaftVotes.OneOfTwoIsElectable | registry/raft_node_rpc.cpp:28-37 | of any two nodes of any reachable state, at least one gets the other's free vote |
| RaftVotes.VoterAfter | registry/raft_node_rpc.cpp:14-48 | a call for a vote raises the term to the later of the two, records a vote only with a grant, and leaves log, commits and peer indices alone |
| RaftVotes.ElectedExactly | registry/raft_node.cpp:172-180 | an election is won exactly by more than half of the cluster, and a lost one leaves a follower of the same term without a vote |
| RaftVotes.CommittableExactly | registry/raft_node_rpc.cpp:230-251 | an index counts as committed exactly when its entry is of the current term and the leader with the peers matching it are more than half of the cluster |
| RaftVotes.StaleCallersLearn | registry/raft_node_rpc.cpp:11-18 | every answer names the term the node was in when asked, so only a caller of an earlier term is deposed; such a caller is refused and leaves the node as it was, any other passes its term on |
| RaftVotes.DeposedExactly | registry/raft_node_rpc.cpp:187-213 | an answer ends leadership exactly when the peer was in a later term; otherwise it touches only that peer's indices and, after a success, the commit index |
| RaftVotes.AcceptedIsCounted | registry/raft_node_rpc.cpp:201-207 | a success is booked for that peer alone, as the follower's log length (the leader's, when matches are checked); afterwards the commit index covers every entry of the leader's term that more than half of the cluster matches, and has moved only to such an entry |
| RaftLog.SpliceWellFormed | registry/raft_node_rpc.cpp:71-97 | the head of one well-formed log and the tail of another make a well-formed log when they agree on the term at the seam |
| RaftLog.LogsWellFormed | registry/raft_node.cpp:211-231 | on every node in every state of every run, position k carries index k, and terms are at least 1, non-decreasing and at most the current term |
| RaftLog.StepIsMonotone | registry/raft_node_rpc.cpp:63-97 | no step lowers a term or takes back an applied entry, and a leader that stays leader of its term only appends |
| RaftLog.RunIsMonotone | registry/raft_node.cpp:289-299 | over any stretch of any run, what was applied stays a prefix of what is applied |
| RaftLog.ApplyReachesTarget | registry/raft_node.cpp:135-146 | one call of the apply loop ends at min(commit index, log length) when that is ahead, hands over exactly the entries in between and otherwise does nothing, even when the log was cut below last applied |
| RaftElectionSteps.NoWinnerYet | registry/raft_node.cpp:173-176 | a candidate with a strict majority is the first winner of its term, because another majority would share a voter |
| RaftElectionSafety.StepKeepsInv | registry/raft_node.cpp:148-181 | every step of every node, other than a risky revote, keeps the invariant that links nodes, votes in flight and the history of elections |
| RaftElectionSafety.NoRiskOfTwo | registry/raft_node_rpc.cpp:25-28 | of two nodes, one that has forgotten its vote is never asked for another by a candidate of the same term |
| RaftElectionSafety.RunKeepsInv | registry/raft_node_rpc.cpp:14-48 | the invariant holds in every reachable state of a run without revotes, for any number of nodes |
| RaftElectionSafety.ElectionSafety | registry/raft_node.cpp:148-181 | two nodes that lead in one term, at whatever two moments of a run, are the same node, although a lost election forgets the candidate's own vote |
| RaftElectionSafety.LogMatching | registry/raft_node_rpc.cpp:71-97 | in every reachable state, two logs with the same term at one index agree on everything up to it |
| RaftElectionSafety.AcceptCopiesLeader | registry/raft_node.cpp:115-127 | after a successful append the follower's log begins with the leader's whole log |
| RaftCommitSteps.CommittableIsCommitted | registry/raft_node_rpc.cpp:230-251 | what the commit count accepts is really stored, in the leader's term, by a strict majority of the nodes, when the match indices are true |
| RaftCommitSteps.TwoHoldersSuffice | registry/raft_node_rpc.cpp:201-207 | in a cluster of up to four nodes it is stored by enough nodes whatever the match indices say, because leader and replier hold the whole log |
| RaftCommit.LeaderHas | registry/raft_node_rpc.cpp:28-37 | the winner of a later term held, when it won, every entry that half of the nodes had stored: they share a voter with its majority, and that voter's freshness check passes the entry on |
| RaftSafety.StepKeepsFull | registry/raft_node_rpc.cpp:51-116 | every safe step keeps the full invariant, including what has been committed and what every open vote supports |
| RaftSafety.RunKeepsFull | registry/raft_node_rpc.cpp:223-252 | the full invariant holds in every state of every safe run |
| RaftSafety.CommittedAgree | registry/raft_node_rpc.cpp:99-107 | two nodes of one state never disagree on what both know to be committed |
| RaftSafety.LeaderCompleteness | registry/raft_node_rpc.cpp:223-252 | whatever a node at any time knows to be committed is in the log of every leader of every later term |
| RaftSafety.StateMachineSafety | registry/raft_node.cpp:289-299 | an entry applied at an index on one node is the entry applied at that index on every other node, at whatever times |
| RaftSafety.CommitIsStable | registry/raft_node_rpc.cpp:99-107 | no step of a safe run lowers the commit index, lets it pass the log's end or touches a committed entry, and only committed entries are applied, as positions 1 to last applied |
| RaftReplication.CommitTravels | registry/raft_node_rpc.cpp:99-107 | in a safe run, a peer that accepts an append request ends with the larger of its own and the leader's commit index, and with the leader's whole log at the front of its own |
| RaftReplication.CommitStays | registry/raft_node_rpc.cpp:99-107 | over any stretch of a safe run a commit index never falls and what it covered stays where it was |
| RaftReplication.AppliesAll | registry/raft_node.cpp:135-146 | a pass of the apply loop in a safe run ends with exactly the committed prefix of the log applied |
| RaftReplication.FollowerCatchesUp | registry/raft_node.cpp:135-146 | whatever the leader knew to be committed when its append request was accepted has been applied by the follower after its next pass of the apply loop, however much happens in between |
| RaftReplication.StepSources | registry/raft_node_rpc.cpp:81-97 | an entry found in a log after any step was in that log or the caller's before, or is the one just proposed |
| RaftReplication.EntriesWereProposed | registry/raft_node.cpp:211-231 | in every run, under all rules: each entry in a log or applied goes back to an earlier proposal of that operation and data, taken by the leader of the entry's term at the entry's index |
| RaftReplication.ProposalIsStored | registry/raft_node.cpp:211-231 | a proposal that a leader takes ends up last in its log with that operation and data; anybody else is unchanged by it |
| RaftDivergence.VoteForgottenExactly | registry/raft_node_rpc.cpp:63-67 | an append request makes the code forget a vote of the current term exactly when it is of that term and a vote was cast; the intended rule never does |
| RaftDivergence.SecondVoteExactly | registry/raft_node_rpc.cpp:25-48 | a node that has voted grants a rival of the same term its vote exactly when an append request of that term came in between |
| RaftDivergence.MatchReportExactly | registry/raft_node_rpc.cpp:109-110 | an accepting follower reports exactly what was compared with the leader unless a bare heartbeat met a longer log |
| RaftDivergence.CommitFallsExactly | registry/raft_node_rpc.cpp:82-107 | an append request lowers the commit index exactly when it cuts the log below it while the leader's commit index is higher |
| RaftDivergence.IntendedRunsAreSafe | registry/raft_node.cpp:194-202 | under the intended rules the safe runs are all runs |
| RaftCounterexamples.TwoLeadersInOneTerm | registry/raft_node_rpc.cpp:63-67 | in every cluster of at least three nodes, with votes forgotten as written, some run ends with two leaders of one term |
| RaftCounterexamples.ForgottenVoteDiverges | registry/raft_node_rpc.cpp:63-67 | that run goes on, if updateCommitIndex gets past its second lock: both leaders commit with the others' copies and apply different entries at index 1 |
| RaftCounterexamples.TwoEntriesAppliedAtOneIndex | registry/raft_node_rpc.cpp:109-110 | in every cluster of at least five nodes, with match indices reported as written, votes kept or not, and updateCommitIndex past its second lock, some run ends with two nodes that applied different entries at index 1 |
| RaftExactness.ElectionSafetyExactly | registry/raft_node.cpp:194-202 | for every cluster: all its runs have at most one leader per term exactly when votes survive an equal term or it has at most two nodes |
| RaftExactness.StateMachineSafetyExactly | registry/raft_node_rpc.cpp:51-116 | for every cluster: all applied entries agree in all its runs exactly when votes survive or it has at most two nodes, and match indices are checked or it has at most four |
| RaftRepair.RejectedStep | registry/raft_node_rpc.cpp:71-79 | where the logs do not fit, the follower rejects, keeps its log, and the leader's next index drops by one |
| RaftRepair.AcceptedWhole | registry/raft_node_rpc.cpp:81-110 | where the logs fit, the follower accepts and its log begins with the leader's |
| RaftRepair.RepairSucceeds | registry/raft_node.cpp:115-129 | with a stable leader repair ends for all pairs of matching logs: one rejection per index, acceptance at the first index that fits, at the latest at 1 |
| RegistryTable.FilterLookup | registry/raft_state_machine.cpp:130-136 | erasing by predicate keeps the heartbeat of every instance it should keep and answers for no other |
| RegistryTable.PerformImplements | registry/raft_state_machine.cpp:102-184 | every operation on the vectors does to the map from service, host and port to heartbeat exactly what is intended, and leaves no duplicate and no empty service |
| RegistryTable.TableRefines | registry/raft_state_machine.cpp:102-184 | after any run of operations from empty, the vectors implement that map; a sweep keeps exactly the ages of at most 30 seconds |
| RegistryTable.SweepKeepsOrder | registry/raft_state_machine.cpp:166-175 | a sweep never reorders what it keeps |
| RegistryTable.UpsertKeepsOrder | registry/raft_state_machine.cpp:102-123 | registering a known instance moves nothing and leaves the others untouched; a new one goes last |
| RegistryServers.Retain | registry/raft_state_machine.cpp:130-136 | the erase-remove loop computes the order-preserving filter |
| RegistryServers.RegistryStateMachine.ApplyLogEntry | registry/raft_state_machine.cpp:10-23 | a parsed service operation sets the named instance to the clock reading on register, removes it on unregister, refreshes it on heartbeat only if it is there, and leaves every other instance as it was; any other entry, or one that does not parse, changes nothing |
| RegistryServers.OperationTakesEffect | registry/raft_state_machine.cpp:25-39 | the same effect for the function that replay is built from, on every table without duplicates and empty services |
| RegistryServers.RegistryStateMachine.ApplyServiceOperation | registry/raft_state_machine.cpp:25-39 | dispatch on the operation's name; an unknown name changes nothing |
| RegistryServers.RegistryStateMachine.RegisterService | registry/raft_state_machine.cpp:102-123 | the loop with early return touches the first matching instance or appends a new one |
| RegistryServers.RegistryStateMachine.UnregisterService | registry/raft_state_machine.cpp:125-145 | the matching instances go, and the name with its last instance |
| RegistryServers.RegistryStateMachine.UpdateHeartbeat | registry/raft_state_machine.cpp:147-158 | only the first matching instance's heartbeat changes; an unknown one changes nothing |
| RegistryServers.RegistryStateMachine.RemoveExpiredServices | registry/raft_state_machine.cpp:160-184 | one pass that erases while iterating, in any order of the map, is the sweep |
| RegistryServers.RegistryStateMachine.GetSnapshot | registry/raft_state_machine.cpp:41-60 | the nested loops print the table in some order of its names |
| RegistryServers.RegistryStateMachine.RestoreFromSnapshot | registry/raft_state_machine.cpp:62-90 | the nested extraction loops read back the table that a readable text stands for, whatever was there before |
| RegistryServers.RegistryServer.HandleServiceRegister | registry/registry_server.cpp:140-178 | same effect as the state machine's registration, by a loop with a found flag |
| RegistryServers.RegistryServer.HandleHeartbeat | registry/registry_server.cpp:230-258 | same effect as the state machine's heartbeat, and success exactly when the instance is registered |
| RegistryServers.RegistryServer.CheckHeartbeat | registry/registry_server.cpp:260-314 | two passes, first instances then empty names, are the same sweep |
| RegistryServers.Lockstep | registry/registry_server.cpp:140-178 | fed any sequence of registrations, heartbeats and sweeps at the same clock readings, both servers hold equal tables, the one the sequence amounts to |
| RegistryReplay.ReplayIsDeterministic | registry/raft_state_machine.cpp:102-158 | replaying one log with any two series of clock readings gives the same ordered host and port list for every service |
| RegistryReplay.ListedExactly | registry/raft_state_machine.cpp:10-39 | a replica that applied a log lists an instance exactly when the last register or unregister entry for it in that log is a register, at all clock readings |
| RegistryReplay.ReplicasAgree | registry/raft_state_machine.cpp:25-39 | two nodes of a safe Raft run that have applied equally many entries, at whatever times and clocks, list the same addresses |
| RegistryReplay.SweepsOnlyRemove | registry/raft_state_machine.cpp:160-184 | with sweeps at any points, a replica's instances are a subset of the plain replay of the log it applied |
| RegistrySnapshot.DigitsValue | registry/raft_state_machine.cpp:45-55 | printing a number and reading its digits gives the number back |
| RegistrySnapshot.ReadShown | registry/raft_state_machine.cpp:67-79 | a printed signed integer is extracted whole, up to the white space that follows it |
| RegistrySnapshot.RoundTrip | registry/raft_state_machine.cpp:41-90 | for every table with non-empty names and hosts free of white space, and any iteration order, restoring the snapshot gives the same services, hosts and ports in the same order, each heartbeat being the nearest multiple of 1,000,000 ns toward zero |
| RegistrySnapshot.RoundTripExactly | registry/raft_state_machine.cpp:41-90 | that domain is exact: any other table fails to come back |
| RegistrySnapshot.SecondRoundTrip | registry/raft_state_machine.cpp:41-90 | a second round trip, in any order, changes nothing |
| RegistrySnapshot.SnapshotText | registry/raft_state_machine.cpp:41-60 | the text of a table of one service with one instance, character by character |
| RegistrySnapshot.SkipsBlanks | registry/raft_state_machine.cpp:62-90 | extraction skips all white space in front of a word and nothing else |
| Framing.ClientConnection.ExtractMessages | common/epoll_server.cpp:407-432 | the loop splits the buffer into the frames of the extracted messages and a rest that is no complete frame, losing and inventing no byte; a non-empty result shrinks the buffer |
| Framing.ClientConnection.HandleClientData | common/epoll_server.cpp:304-354 | over all reads of a call, what is handed over and what stays buffered split exactly the bytes received; end of stream or an error closes, would-block does not |
| Framing.ClientConnection.SendResponse | common/epoll_server.cpp:133-159 | success means that the whole frame went out, failure that a proper prefix of it did |
| Framing.TcpConnection.Send | common/network.cpp:17-39 | the loop over partial sends puts out the whole frame, or a proper prefix and the connection is down |
| Framing.TcpConnection.Receive | common/network.cpp:41-65 | a frame of 1 byte to 1 MiB at the front of the stream is taken whole; anything else closes the connection |
| Framing.HeaderLength | common/epoll_server.cpp:145-147 | the four bytes in network order carry the length modulo 2^32 |
| Framing.NetworkOrder | common/epoll_server.cpp:145-147 | the four bytes of a length are its digits to base 256, the highest first |
| Framing.UniqueSplit | common/epoll_server.cpp:411-430 | a byte stream splits into messages and a rest in one way only |
| Framing.SplitsAppend | common/epoll_server.cpp:321-330 | splitting a prefix first and the rest with what arrives later is splitting all at once |
| Framing.ChunkingIsHarmless | common/epoll_server.cpp:321-348 | whatever pieces a stream of frames arrives in, the messages handed over are those sent and the buffer ends empty, exactly when every message is shorter than 2^32 bytes |
| Framing.PrefixOfStream | common/epoll_server.cpp:407-432 | at any point of the stream, what was handed over is the first messages and the buffer is a proper prefix of the next frame |
| Framing.ReceivedExactly | common/network.cpp:52-64 | a sent message is received, and the connection stays up, exactly when it has 1 byte to 1 MiB; send does not check |
| Framing.ReceivesAllExactly | common/network.cpp:17-65 | a whole conversation is received message by message on a live connection exactly when every message is within those bounds |
| ConnectionPool.TakeIdleKeeps | common/connection_pool.cpp:86-109 | the inner loop of acquire hands out a connection that was free, or empties the queue; it keeps the pool consistent and every lent connection in it |
| ConnectionPool.TakeIdleIsFirst | common/connection_pool.cpp:86-109 | it is the first valid one in the queue, and none only when no idle connection is valid |
| ConnectionPool.TakeIdleStamps | common/connection_pool.cpp:86-109 | the record handed out is in use and stamped with the time; the records of other connections that stay are as they were |
| ConnectionPool.InsertKeeps | common/connection_pool.cpp:116-129 | a new connection enters the pool in use, and consistency survives the time without the lock |
| ConnectionPool.InsertStamps | common/connection_pool.cpp:116-129 | the new record goes last, in use and stamped with the time; queue and other records stay |
| ConnectionPool.ReturnKeeps | common/connection_pool.cpp:176-215 | release ends the use of exactly that connection, also when it is unknown, not in use, or no longer valid |
| ConnectionPool.ReturnQueuesLast | common/connection_pool.cpp:176-215 | a usable connection in use goes to the back of the queue, free and stamped with the time; one not in use changes nothing |
| ConnectionPool.ReturnDropsBroken | common/connection_pool.cpp:176-215 | an unusable connection in use leaves the pool; queue and other records stay |
| ConnectionPool.SweepKeeps | common/connection_pool.cpp:454-497 | a sweep, with a clock reading of its own for each connection, removes none in use and keeps of the others exactly those that are young enough in a pool within its minimum, so none when the pool is over it |
| ConnectionPool.KeptInOrder | common/connection_pool.cpp:454-497 | a sweep does not reorder the records it keeps |
| ConnectionPool.FreeInOrder | common/connection_pool.cpp:454-497 | the queue rebuilt after a sweep lists the free connections in the order of the vector |
| ConnectionPool.StatsAddUp | common/connection_pool.cpp:377-379 | in a consistent pool the total is active plus idle |
| PoolThreads.StepKeepsGood | common/connection_pool.cpp:86-134 | every step of every thread keeps consistency, the books on lent connections and the bound |
| PoolThreads.RunsAreGood | common/connection_pool.cpp:111-134 | in every interleaving, careless releases included: active_count equals the connections in use, the idle queue holds each other one once, and pooled plus half-made connections stay within max + K - 1 for K threads in acquire |
| PoolThreads.NeverLentTwice | common/connection_pool.cpp:86-129 | no step of any run hands out a connection that nobody has released since it was last handed out |
| PoolThreads.OneHolderThroughout | common/connection_pool.cpp:176-215 | no connection ever has two holders, and the connections in use are those held, in every run in which threads release only what they hold, or what nobody holds |
| PoolThreads.ReleaseIsHarmlessExactly | common/connection_pool.cpp:176-215 | release does not ask who calls it: after any careful past, one release of a usable connection is harmless in all careful futures exactly when its caller holds the connection or nobody does, or there is but one thread |
| PoolThreads.SecondReleaseShares | client/rpc_client.cpp:289-297 | a run of two threads in which one acquires once, releases twice and acquires again, and both end up holding the same connection |
| PoolThreads.LimitHoldsExactly | common/connection_pool.cpp:111-134 | every run respects max_connections_per_host exactly when at most one thread acquires at a time (or the limit is 0), and some run of K threads ends with max + K - 1 connections |
| HostPoolObject.HostPool.RemoveConnection | common/connection_pool.cpp:346-363 | the search by address erases that one record from the vector, or nothing when it is not there |
| HostPoolObject.HostPool.TakeIdle | common/connection_pool.cpp:86-109 | the loop over shared records changed in place does what the interleaved model's step does |
| HostPoolObject.HostPool.BeginAcquire | common/connection_pool.cpp:84-112 | acquire goes off to connect exactly when nothing idle was valid and the pool is below its limit |
| HostPoolObject.HostPool.FinishAcquire | common/connection_pool.cpp:116-129 | a fresh record enters vector and counter, already in use |
| HostPoolObject.HostPool.Release | common/connection_pool.cpp:176-215 | the search by connection, the flag, the counter and the queue change together as in the interleaved model |
| HostPoolObject.HostPool.Sweep | common/connection_pool.cpp:454-497 | remove_if and the rebuilt queue are the model's sweep, and the queue again holds only pooled records |
| HostPoolObject.HostPool.GetStats | common/connection_pool.cpp:374-379 | one host's counters are those of the pool and add up |
| HostPoolObject.GetStats | common/connection_pool.cpp:366-383 | over all hosts: the number of hosts and the sums of their counters, and the total is active plus idle |
| ThreadPool.StepKeepsSound | common/thread_pool.cpp:15-51 | every step of a worker, a submitter or stop keeps the conservation invariant |
| ThreadPool.RunsAreSound | common/thread_pool.h:78-92 | in every interleaving accepted tasks are queued, held by a worker or run; they are taken in the order accepted; pending_tasks_ is the queue length and active_threads_ the number of running workers |
| ThreadPool.DrainedExactly | common/thread_pool.cpp:60-76 | when stop is set and every worker has returned, each accepted task has run exactly once; this holds of all runs exactly when the pool has at least one worker |
| ThreadPool.StopMakesProgress | common/thread_pool.cpp:66-75 | after stop every worker step reduces the work left and nothing adds to it |
| ThreadPool.StopIsNotStuck | common/thread_pool.cpp:20-29 | after stop, as long as a worker has not returned, some worker can take a step |
| ThreadPool.WaitIsExact | common/thread_pool.cpp:85-90 | when waitForCompletion's condition holds, all accepted tasks have run exactly if no worker holds a task it has not begun to count |
| ThreadPool.WaitEndsEarly | common/thread_pool.cpp:31-41 | a run of one worker in which the wait is over and the one accepted task has not run |
| ThreadPoolObject.TaskPool.Enqueue | common/thread_pool.h:78-92 | refused exactly after stop; otherwise the task goes last and the counter follows |
| ThreadPoolObject.TaskPool.NextTask | common/thread_pool.cpp:22-37 | wait, return or take the oldest task, by stop flag and queue |
| ThreadPoolObject.TaskPool.Stop | common/thread_pool.cpp:60-68 | sets the flag once and touches nothing else |
| ThreadPoolObject.TaskPool.WorkerLoop | common/thread_pool.cpp:18-51 | a worker left alone runs all queued tasks in order, restores the active counter, and returns exactly when stop is set |

## Left out

- RaftSafety.StateMachineSafety: with the rules as written it asks of a run of more than two nodes that it serve no vote request, and of more than four nodes that it accept no bare heartbeat, in the two situations named above; for a single run the condition is sufficient, not necessary, since a risky call may happen to do no harm; over all runs `StateMachineSafetyExactly` is exact.
- RaftElectionSafety.ElectionSafety: asks the vote half of that condition; over all runs `ElectionSafetyExactly` is exact.
- RegistryServers.RegistryStateMachine.RestoreFromSnapshot: asks for a text whose every field can be read, because the code goes on with uninitialised variables after a failed extraction; numbers are unbounded, so the range errors of extraction are not modelled.
- RegistryServers.Lockstep: leaves out unregistration, which RegistryServer does not offer.
- Framing.TcpConnection.Receive: an error or a signal in the middle of a read is the end of what arrives.
- PoolThreads.RunsAreGood: is about one host; the map from host to pool, stop and the destruction of pools are not modelled, and neither are wake-ups and time-outs beyond the fact that a waiting thread may look again or give up.
- HostPoolObject.HostPool.FinishAcquire: a connection just made is assumed to be a new object.
- ThreadPool.RunsAreSound: condition variables appear only as the right to look again; futures and exceptions of tasks do not change the pool and are left out.
- The constructor and thread start of RaftNode beyond its fields, the election timer (its reset is an empty placeholder), liveness of Raft and the mutual blocking of two candidates.
- Durability of a proposal: `proposeLogEntry` answers on local append, before commit (registry/raft_node.cpp:225-228).
- Crash recovery, membership change and log compaction, which the repository's README mentions and the code does not have.
- Sockets, epoll, accept loops, logging, configuration, protobuf and the serializer: input and output without state of their own.
- RpcServer, RpcClient, the service cache, LoadBalancer, service discovery and cluster status: they would only add easy members.
- A floor of minimum connections: the sweep reads the unchanged vector size for every connection, so `SweepKeeps` states that no idle connection survives in a pool over its minimum.
