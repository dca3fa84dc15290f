/** One Raft node as a value, and what each of its handlers does to that value
    (registry/raft_node.cpp, registry/raft_node_rpc.cpp). */
module RaftSpec {
  import opened Common

  type NodeId = nat
  type Index = i: int | 1 <= i witness 1

  datatype Entry = Entry(term: nat, index: nat, operation: string, data: string)

  datatype Role = Follower | Candidate | Leader

  /** The fields of a RaftNode. `applied` lists the entries its state machine was handed. */
  datatype Node = Node(
    role: Role, currentTerm: nat, votedFor: Option<NodeId>, leaderId: Option<NodeId>,
    log: seq<Entry>, commitIndex: nat, lastApplied: nat,
    nextIndex: seq<Index>, matchIndex: seq<nat>, applied: seq<Entry>)

  datatype VoteRequest = VoteRequest(term: nat, candidateId: NodeId, lastLogIndex: nat, lastLogTerm: nat)
  datatype VoteReply = VoteReply(term: nat, granted: bool)
  datatype AppendRequest = AppendRequest(
    term: nat, leaderId: NodeId, prevLogIndex: nat, prevLogTerm: nat, entries: seq<Entry>, leaderCommit: nat)
  datatype AppendReply = AppendReply(term: nat, success: bool, matchIndex: nat)

  /** Two places where the code departs from the Raft paper, as switches.
      keepVote: an AppendEntries of the current term leaves the vote alone.
      checkedMatch: a follower reports the last index it compared with the leader. */
  datatype Rules = Rules(keepVote: bool, checkedMatch: bool)

  const AS_WRITTEN := Rules(false, false)
  const INTENDED := Rules(true, true)

  function NewNode(peers: nat): Node {
    Node(Follower, 0, None, None, [], 0, 0, seq(peers, _ => 1), seq(peers, _ => 0), [])
  }

  function LastTerm(log: seq<Entry>): nat {
    if log == [] then 0 else log[|log| - 1].term
  }

  function Majority(peers: nat): nat {
    (peers + 1) / 2 + 1
  }

  function BecomeFollower(n: Node, term: nat, leader: Option<NodeId>): Node {
    n.(role := Follower, currentTerm := term, votedFor := None, leaderId := leader)
  }

  // ---------------------------------------------------------------- elections

  function StartElection(n: Node, self: NodeId): Node {
    n.(role := Candidate, leaderId := None, currentTerm := n.currentTerm + 1, votedFor := Some(self))
  }

  function BuildVoteRequest(n: Node, self: NodeId): VoteRequest {
    VoteRequest(n.currentTerm, self, |n.log|, LastTerm(n.log))
  }

  predicate UpToDate(lastLogTerm: nat, lastLogIndex: nat, log: seq<Entry>) {
    lastLogTerm > LastTerm(log) || (lastLogTerm == LastTerm(log) && lastLogIndex >= |log|)
  }

  function HandleRequestVote(n: Node, req: VoteRequest): (Node, VoteReply) {
    if req.term < n.currentTerm then
      (n, VoteReply(n.currentTerm, false))
    else
      var f := if req.term > n.currentTerm then BecomeFollower(n, req.term, None) else n;
      if (f.votedFor == None || f.votedFor == Some(req.candidateId))
         && UpToDate(req.lastLogTerm, req.lastLogIndex, f.log) then
        (f.(votedFor := Some(req.candidateId)), VoteReply(n.currentTerm, true))
      else
        (f, VoteReply(n.currentTerm, false))
  }

  function BecomeLeader(n: Node, self: NodeId): Node {
    n.(role := Leader, leaderId := Some(self),
       nextIndex := seq(|n.nextIndex|, _ => |n.log| + 1),
       matchIndex := seq(|n.matchIndex|, _ => 0))
  }

  function FinishElection(n: Node, self: NodeId, votes: nat): Node {
    if votes >= Majority(|n.matchIndex|) then BecomeLeader(n, self)
    else BecomeFollower(n, n.currentTerm, None)
  }

  // -------------------------------------------------------------- replication

  function Propose(n: Node, operation: string, data: string): Node {
    if n.role != Leader then n
    else n.(log := n.log + [Entry(n.currentTerm, |n.log| + 1, operation, data)])
  }

  function BuildAppendRequest(n: Node, self: NodeId, peer: nat): AppendRequest
    requires peer < |n.nextIndex|
  {
    var prev: nat := (n.nextIndex[peer] as int) - 1;
    AppendRequest(n.currentTerm, self, prev,
      if 0 < prev <= |n.log| then n.log[prev - 1].term else 0,
      if prev <= |n.log| then n.log[prev..] else [],
      n.commitIndex)
  }

  predicate Consistent(log: seq<Entry>, req: AppendRequest) {
    req.prevLogIndex == 0
    || (req.prevLogIndex <= |log| && log[req.prevLogIndex - 1].term == req.prevLogTerm)
  }

  function NewLog(log: seq<Entry>, req: AppendRequest): seq<Entry>
    requires Consistent(log, req)
  {
    if req.entries == [] then log else log[..req.prevLogIndex] + req.entries
  }

  predicate Accepts(n: Node, req: AppendRequest) {
    req.term >= n.currentTerm && Consistent(n.log, req)
  }

  function HandleAppendEntries(rules: Rules, n: Node, req: AppendRequest): (Node, AppendReply) {
    if req.term < n.currentTerm then
      (n, AppendReply(n.currentTerm, false, 0))
    else
      var kept := if rules.keepVote && req.term == n.currentTerm then n.votedFor else None;
      var f := BecomeFollower(n, req.term, Some(req.leaderId)).(votedFor := kept);
      if !Consistent(n.log, req) then
        (f, AppendReply(n.currentTerm, false, 0))
      else
        var log := NewLog(n.log, req);
        var commit := if req.leaderCommit > n.commitIndex then Min(req.leaderCommit, |log|) else n.commitIndex;
        var matched := if rules.checkedMatch then req.prevLogIndex + |req.entries| else |log|;
        (f.(log := log, commitIndex := commit), AppendReply(n.currentTerm, true, matched))
  }

  function CountAtLeast(matches: seq<nat>, k: nat): nat {
    if matches == [] then 0
    else CountAtLeast(matches[..|matches| - 1], k) + (if matches[|matches| - 1] >= k then 1 else 0)
  }

  /** The entry at k is of the current term and the match indices put it on a majority. */
  predicate Committable(n: Node, k: nat) {
    1 <= k <= |n.log| && n.log[k - 1].term == n.currentTerm
    && 1 + CountAtLeast(n.matchIndex, k) >= Majority(|n.matchIndex|)
  }

  /** The downward scan of updateCommitIndex finds the largest committable index above the
      old commit index, or keeps the old one when there is none. */
  function CommitScan(n: Node, index: nat): (r: nat)
    requires index <= |n.log|
    ensures r == n.commitIndex || (n.commitIndex < r <= index && Committable(n, r))
    ensures forall k: nat :: r < k <= index ==> !Committable(n, k)
  {
    if index <= n.commitIndex then n.commitIndex
    else if n.log[index - 1].term == n.currentTerm
            && 1 + CountAtLeast(n.matchIndex, index) >= Majority(|n.matchIndex|) then index
    else CommitScan(n, index - 1)
  }

  function UpdateCommitIndex(n: Node): Node {
    if n.role != Leader then n else n.(commitIndex := CommitScan(n, |n.log|))
  }

  function HandleAppendReply(n: Node, peer: nat, reply: AppendReply): Node
    requires peer < |n.nextIndex| == |n.matchIndex|
  {
    if reply.term > n.currentTerm then
      BecomeFollower(n, reply.term, None)
    else if reply.success then
      UpdateCommitIndex(n.(nextIndex := n.nextIndex[peer := reply.matchIndex + 1],
                           matchIndex := n.matchIndex[peer := reply.matchIndex]))
    else if n.nextIndex[peer] > 1 then
      n.(nextIndex := n.nextIndex[peer := n.nextIndex[peer] - 1])
    else n
  }

  function ApplyCommitted(n: Node): Node {
    var target := Min(n.commitIndex, |n.log|);
    if n.lastApplied < target then
      n.(lastApplied := target, applied := n.applied + n.log[n.lastApplied..target])
    else n
  }
}
