/** RaftNode as the source has it: an object whose handlers change its fields in place. Every
    method is tied to the function of RaftSpec that the cluster model uses. The handlers are
    the code as written (AS_WRITTEN). Locks, logging and the network are left out: replies of
    peers come in as arguments, None for a call that failed. */
module RaftNodeObject {
  import opened Common
  import opened RaftSpec

  class RaftNode {
    const id: NodeId
    const peers: seq<NodeId>

    var role: Role
    var currentTerm: nat
    var votedFor: Option<NodeId>
    var leaderId: Option<NodeId>
    var log: seq<Entry>
    var commitIndex: nat
    var lastApplied: nat
    var nextIndex: seq<Index>
    var matchIndex: seq<nat>
    var applied: seq<Entry>  // what the state machine has been handed

    ghost predicate Valid()
      reads this
    {
      |nextIndex| == |peers| && |matchIndex| == |peers|
    }

    function Snapshot(): Node
      reads this
    {
      Node(role, currentTerm, votedFor, leaderId, log, commitIndex, lastApplied, nextIndex, matchIndex, applied)
    }

    constructor (id: NodeId, peers: seq<NodeId>)
      ensures Valid() && this.id == id && this.peers == peers
      ensures Snapshot() == NewNode(|peers|)
      ensures role == Follower && currentTerm == 0 && votedFor == None && leaderId == None && log == []
      ensures commitIndex == 0 && lastApplied == 0 && applied == []
      ensures forall i :: 0 <= i < |peers| ==> nextIndex[i] == 1 && matchIndex[i] == 0
    {
      this.id, this.peers := id, peers;
      role, currentTerm, votedFor, leaderId := Follower, 0, None, None;
      log, commitIndex, lastApplied, applied := [], 0, 0, [];
      nextIndex, matchIndex := seq(|peers|, _ => 1), seq(|peers|, _ => 0);
    }

    method BecomeFollower(term: nat, leader: Option<NodeId>)
      requires Valid()
      modifies this
      ensures Valid() && Snapshot() == RaftSpec.BecomeFollower(old(Snapshot()), term, leader)
    {
      role := Follower;
      currentTerm := term;
      votedFor := None;
      leaderId := leader;
    }

    method BecomeLeader()
      requires Valid()
      modifies this
      ensures Valid() && Snapshot() == RaftSpec.BecomeLeader(old(Snapshot()), id)
      ensures role == Leader && leaderId == Some(id) && log == old(log) && currentTerm == old(currentTerm)
      ensures forall i :: 0 <= i < |peers| ==> nextIndex[i] as int == |log| + 1 && matchIndex[i] == 0
    {
      role := Leader;
      leaderId := Some(id);
      var next: Index := |log| + 1;
      nextIndex := seq(|nextIndex|, _ => next);
      matchIndex := seq(|matchIndex|, _ => 0);
      assert nextIndex == RaftSpec.BecomeLeader(old(Snapshot()), id).nextIndex;
    }

    // -------------------------------------------------------------- elections

    method HandleRequestVote(req: VoteRequest) returns (reply: VoteReply)
      requires Valid()
      modifies this
      ensures Valid() && (Snapshot(), reply) == RaftSpec.HandleRequestVote(old(Snapshot()), req)
    {
      reply := VoteReply(currentTerm, false);
      if req.term < currentTerm {
        return;
      }
      if req.term > currentTerm {
        BecomeFollower(req.term, None);
      }
      var canVote := votedFor == None || votedFor == Some(req.candidateId);
      if canVote {
        var logOk := req.lastLogTerm > LastTerm(log)
                     || (req.lastLogTerm == LastTerm(log) && req.lastLogIndex >= |log|);
        if logOk {
          votedFor := Some(req.candidateId);
          reply := reply.(granted := true);
        }
      }
    }

    /** One election: the first reply of a higher term ends it, otherwise a strict majority of
        the cluster, own vote included, decides. */
    method StartElection(replies: seq<Option<VoteReply>>) returns (request: VoteRequest)
      requires Valid() && |replies| == |peers|
      modifies this
      ensures Valid()
      ensures request.term == old(currentTerm) + 1 && request.candidateId == id && request.lastLogIndex == |old(log)|
      ensures request.lastLogTerm == if old(log) == [] then 0 else old(log[|log| - 1].term)
      ensures log == old(log) && commitIndex == old(commitIndex) && applied == old(applied)
      ensures var c := RaftSpec.StartElection(old(Snapshot()), id);
        request == BuildVoteRequest(c, id)
        && Snapshot() == (match FirstHigher(replies, c.currentTerm)
                          case Some(term) => RaftSpec.BecomeFollower(c, term, None)
                          case None => RaftSpec.FinishElection(c, id, 1 + Granted(replies)))
    {
      role := Candidate;
      leaderId := None;
      currentTerm := currentTerm + 1;
      votedFor := Some(id);
      ghost var c := Snapshot();
      request := VoteRequest(currentTerm, id, |log|, LastTerm(log));
      var votes, i := 1, 0;
      while i < |peers|
        invariant 0 <= i <= |peers| && Valid() && Snapshot() == c
        invariant votes + Granted(replies[i..]) == 1 + Granted(replies)
        invariant FirstHigher(replies[i..], c.currentTerm) == FirstHigher(replies, c.currentTerm)
      {
        assert replies[i..][1..] == replies[i + 1..];
        if replies[i].Some? {
          if replies[i].value.term > currentTerm {
            BecomeFollower(replies[i].value.term, None);
            return;
          }
          if replies[i].value.granted {
            votes := votes + 1;
          }
        }
        i := i + 1;
      }
      var majority := (|peers| + 1) / 2 + 1;
      if votes >= majority {
        BecomeLeader();
      } else {
        BecomeFollower(currentTerm, None);
      }
    }

    // ------------------------------------------------------------ replication

    method HandleAppendEntries(req: AppendRequest) returns (reply: AppendReply)
      requires Valid()
      modifies this
      ensures Valid() && (Snapshot(), reply) == RaftSpec.HandleAppendEntries(AS_WRITTEN, old(Snapshot()), req)
    {
      reply := AppendReply(currentTerm, false, 0);
      if req.term < currentTerm {
        return;
      }
      BecomeFollower(req.term, Some(req.leaderId));
      if req.prevLogIndex > 0 {
        if req.prevLogIndex > |log| || log[req.prevLogIndex - 1].term != req.prevLogTerm {
          return;
        }
      }
      if |req.entries| > 0 {
        var newIndex := req.prevLogIndex + 1;
        if newIndex <= |log| {
          log := log[..newIndex - 1];
        }
        ghost var kept := log;
        assert kept == old(log)[..req.prevLogIndex];
        for i := 0 to |req.entries|
          invariant Valid() && log == kept + req.entries[..i]
          invariant Snapshot() == RaftSpec.BecomeFollower(old(Snapshot()), req.term, Some(req.leaderId)).(log := log)
        {
          log := log + [req.entries[i]];
        }
        assert req.entries[..|req.entries|] == req.entries;
      }
      if req.leaderCommit > commitIndex {
        commitIndex := Min(req.leaderCommit, |log|);
      }
      reply := AppendReply(reply.term, true, |log|);
    }

    /** The downward scan: the commit index moves to the largest index above it whose entry is
        of the current term and on a strict majority, and stays when there is none. */
    method UpdateCommitIndex()
      requires Valid()
      modifies this`commitIndex
      ensures Valid() && Snapshot() == RaftSpec.UpdateCommitIndex(old(Snapshot()))
      ensures commitIndex == old(commitIndex)
           || (commitIndex > old(commitIndex) && Committable(old(Snapshot()), commitIndex))
      ensures role == Leader ==> forall k: nat :: commitIndex < k <= |log| ==> !Committable(old(Snapshot()), k)
      ensures role != Leader ==> commitIndex == old(commitIndex)
    {
      if role != Leader {
        return;
      }
      var index := |log|;
      while index > commitIndex
        invariant 0 <= index <= |log| && commitIndex == old(commitIndex)
        invariant CommitScan(Snapshot(), |log|) == CommitScan(Snapshot(), index)
      {
        if log[index - 1].term == currentTerm {
          var count := 1;
          for i := 0 to |matchIndex|
            invariant count == 1 + CountAtLeast(matchIndex[..i], index)
          {
            assert matchIndex[..i + 1][..i] == matchIndex[..i];
            if matchIndex[i] >= index {
              count := count + 1;
            }
          }
          assert matchIndex[..|matchIndex|] == matchIndex;
          var majority := (|peers| + 1) / 2 + 1;
          if count >= majority {
            commitIndex := index;
            return;
          }
        }
        index := index - 1;
      }
    }

    method BuildAppendRequest(i: nat) returns (req: AppendRequest)
      requires Valid() && i < |peers|
      ensures req == RaftSpec.BuildAppendRequest(Snapshot(), id, i)
    {
      var prev: nat := (nextIndex[i] as int) - 1;
      var prevTerm := 0;
      if prev > 0 && prev <= |log| {
        prevTerm := log[prev - 1].term;
      }
      var entries: seq<Entry> := [];
      var j: int := nextIndex[i];
      while j <= |log|
        invariant prev + 1 <= j && (prev <= |log| ==> j <= |log| + 1)
        invariant entries == if prev <= |log| then log[prev..j - 1] else []
      {
        entries := entries + [log[j - 1]];
        j := j + 1;
      }
      req := AppendRequest(currentTerm, id, prev, prevTerm, entries, commitIndex);
    }

    /** The reply is booked under the first peer with the sender's name. */
    method HandleAppendReply(peer: NodeId, reply: AppendReply)
      requires Valid()
      modifies this
      ensures Valid()
      ensures peer !in peers ==>
        (Snapshot() == if reply.term > old(currentTerm) then RaftSpec.BecomeFollower(old(Snapshot()), reply.term, None)
                       else old(Snapshot()))
      ensures forall i :: 0 <= i < |peers| && peers[i] == peer && peer !in peers[..i] ==>
        Snapshot() == RaftSpec.HandleAppendReply(old(Snapshot()), i, reply)
    {
      if reply.term > currentTerm {
        BecomeFollower(reply.term, None);
        return;
      }
      var i := 0;
      while i < |peers| && peers[i] != peer
        invariant 0 <= i <= |peers| && peer !in peers[..i]
      {
        i := i + 1;
      }
      assert forall j :: i < j < |peers| ==> peers[..j][i] == peers[i];
      if i == |peers| {
        assert peers[..i] == peers;
        return;
      }
      if reply.success {
        nextIndex := nextIndex[i := reply.matchIndex + 1];
        matchIndex := matchIndex[i := reply.matchIndex];
        UpdateCommitIndex();
      } else if nextIndex[i] > 1 {
        nextIndex := nextIndex[i := nextIndex[i] - 1];
      }
    }

    method ProposeLogEntry(operation: string, data: string) returns (ok: bool)
      requires Valid()
      modifies this`log
      ensures Valid() && Snapshot() == RaftSpec.Propose(old(Snapshot()), operation, data)
      ensures ok <==> role == Leader
      ensures !ok ==> log == old(log)
      ensures ok ==> |log| == |old(log)| + 1 && old(log) <= log && log[|log| - 1].term == currentTerm
      ensures ok ==> log[|log| - 1].operation == operation && log[|log| - 1].data == data
    {
      if role != Leader {
        return false;
      }
      log := log + [Entry(currentTerm, |log| + 1, operation, data)];
      ok := true;
    }

    method ApplyCommittedEntries()
      requires Valid()
      modifies this`lastApplied, this`applied
      ensures Valid() && Snapshot() == ApplyCommitted(old(Snapshot()))
    {
      ghost var target := Min(commitIndex, |log|);
      while lastApplied < commitIndex
        invariant Valid() && old(lastApplied) <= lastApplied <= Max(target, old(lastApplied))
        invariant applied == old(applied)
          + (if old(lastApplied) <= target then log[old(lastApplied)..lastApplied] else [])
      {
        var index := lastApplied + 1;
        if index <= |log| {
          applied := applied + [log[index - 1]];
          lastApplied := lastApplied + 1;
        } else {
          break;
        }
      }
      assert old(applied) + [] == old(applied);
    }
  }

  /** The term of the first reply that is of a later term than the candidate's. */
  function FirstHigher(replies: seq<Option<VoteReply>>, term: nat): Option<nat> {
    if replies == [] then None
    else if replies[0].Some? && replies[0].value.term > term then Some(replies[0].value.term)
    else FirstHigher(replies[1..], term)
  }

  function Granted(replies: seq<Option<VoteReply>>): nat {
    if replies == [] then 0
    else (if replies[0].Some? && replies[0].value.granted then 1 else 0) + Granted(replies[1..])
  }
}
