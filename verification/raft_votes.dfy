/** When exactly a node votes for another, wins, commits, and learns that its term is over. */
module RaftVotes {
  import opened Common
  import opened RaftSpec
  import opened RaftCluster
  import opened RaftLog
  import opened RaftCommitSteps

  /** The freshness order of the Raft paper (section 5.4.1), by the last entries and the lengths:
      a log that ends in a later term is fresher; of two that end in one term, the longer one is. */
  predicate AsFresh(a: seq<Entry>, b: seq<Entry>) {
    b == [] || (a != [] && (a[|a| - 1].term > b[|b| - 1].term
                            || (a[|a| - 1].term == b[|b| - 1].term && |a| >= |b|)))
  }

  predicate Positive(log: seq<Entry>) {
    forall k :: 0 <= k < |log| ==> log[k].term >= 1
  }

  /** The voter's vote is not taken in the candidate's term. */
  predicate FreeVote(n: Node, term: nat, c: NodeId) {
    n.currentTerm < term || (n.currentTerm == term && (n.votedFor == None || n.votedFor == Some(c)))
  }

  /** A vote is granted exactly when it is free and the candidate's log is as fresh as the voter's. */
  lemma GrantedExactly(n: Node, c: Node, self: NodeId)
    requires Positive(n.log) && Positive(c.log)
    ensures HandleRequestVote(n, BuildVoteRequest(c, self)).1.granted <==>
      FreeVote(n, c.currentTerm, self) && AsFresh(c.log, n.log)
  {
  }

  /** What a call for a vote does to the voter: its term rises to the candidate's, a vote is given
      only with a grant, and its log, its commits and what it applied stay. */
  lemma VoterAfter(n: Node, c: Node, self: NodeId)
    ensures var (n', reply) := HandleRequestVote(n, BuildVoteRequest(c, self));
      && n'.currentTerm == Max(n.currentTerm, c.currentTerm)
      && n'.votedFor == (if reply.granted then Some(self)
                         else if c.currentTerm > n.currentTerm then None else n.votedFor)
      && n'.role == (if c.currentTerm > n.currentTerm then Follower else n.role)
      && n'.leaderId == (if c.currentTerm > n.currentTerm then None else n.leaderId)
      && n'.log == n.log && n'.commitIndex == n.commitIndex && n'.applied == n.applied
      && n'.lastApplied == n.lastApplied && n'.nextIndex == n.nextIndex && n'.matchIndex == n.matchIndex
  {
  }

  /** A voter whose log the candidate has, and perhaps more, grants its free vote. */
  lemma PrefixGrants(n: Node, c: Node, self: NodeId)
    requires Positive(c.log) && Sorted(c.log) && n.log <= c.log && FreeVote(n, c.currentTerm, self)
    ensures HandleRequestVote(n, BuildVoteRequest(c, self)).1.granted
  {
    GrantedExactly(n, c, self);
  }

  /** Of any two nodes of any reachable state at least one would get the other's free vote. */
  lemma OneOfTwoIsElectable(cfg: Config, rules: Rules, r: Run, t: nat, i: NodeId, j: NodeId, term: nat)
    requires ValidRun(cfg, rules, r) && t < |r.states| && i < |r.states[t]| && j < |r.states[t]|
    requires FreeVote(r.states[t][i].node, term, j) && FreeVote(r.states[t][j].node, term, i)
    ensures var a, b := r.states[t][i].node, r.states[t][j].node;
      || HandleRequestVote(a, BuildVoteRequest(b.(currentTerm := term), j)).1.granted
      || HandleRequestVote(b, BuildVoteRequest(a.(currentTerm := term), i)).1.granted
  {
    var a, b := r.states[t][i].node, r.states[t][j].node;
    LogsWellFormed(cfg, rules, r, t, i);
    LogsWellFormed(cfg, rules, r, t, j);
    hide HandleRequestVote, BuildVoteRequest;
    GrantedExactly(a, b.(currentTerm := term), j);
    GrantedExactly(b, a.(currentTerm := term), i);
  }

  /** The same exact condition for every pair of nodes of every reachable state. */
  lemma VotesInRuns(cfg: Config, rules: Rules, r: Run, t: nat, v: NodeId, c: NodeId)
    requires ValidRun(cfg, rules, r) && t < |r.states| && v < |r.states[t]| && c < |r.states[t]|
    ensures var n, m := r.states[t][v].node, r.states[t][c].node;
      HandleRequestVote(n, BuildVoteRequest(m, c)).1.granted <==>
        FreeVote(n, m.currentTerm, c) && AsFresh(m.log, n.log)
  {
    LogsWellFormed(cfg, rules, r, t, v);
    LogsWellFormed(cfg, rules, r, t, c);
    hide HandleRequestVote, BuildVoteRequest;
    GrantedExactly(r.states[t][v].node, r.states[t][c].node, c);
  }

  // ------------------------------------------------------------------ majorities

  /** An election is won exactly by more than half of the cluster, the candidate included; a lost
      one leaves a follower of the same term without a vote. */
  lemma ElectedExactly(n: Node, self: NodeId, votes: nat)
    ensures var n' := RaftSpec.FinishElection(n, self, votes);
      && (n'.role == Leader <==> 2 * votes > |n.matchIndex| + 1)
      && (n'.role != Leader ==> n'.role == Follower && n'.votedFor == None && n'.leaderId == None)
      && n'.currentTerm == n.currentTerm && n'.log == n.log && n'.commitIndex == n.commitIndex
  {
    if 2 * votes <= |n.matchIndex| + 1 {
      assert votes < Majority(|n.matchIndex|);
    }
  }

  /** An index may be committed exactly when its entry is of the current term and the leader and the
      peers that match it are more than half of the cluster. */
  lemma CommittableExactly(n: Node, k: nat)
    ensures Committable(n, k) <==> OnMajority(n, k)
  {
    CountIsPeers(n.matchIndex, k);
  }

  ghost predicate OnMajority(n: Node, k: nat) {
    && 1 <= k <= |n.log| && n.log[k - 1].term == n.currentTerm
    && 2 * (1 + |MatchedPeers(n.matchIndex, k)|) > |n.matchIndex| + 1
  }

  ghost function MatchedPeers(matches: seq<nat>, k: nat): set<nat> {
    set j: nat | j < |matches| && matches[j] >= k
  }

  lemma {:induction false} CountIsPeers(matches: seq<nat>, k: nat)
    ensures CountAtLeast(matches, k) == |MatchedPeers(matches, k)|
  {
    if matches == [] {
      assert MatchedPeers(matches, k) == {};
    } else {
      var m := |matches| - 1;
      CountIsPeers(matches[..m], k);
      var before := MatchedPeers(matches[..m], k);
      assert m !in before;
      assert MatchedPeers(matches, k) == if matches[m] >= k then before + {m} else before;
    }
  }

  // ----------------------------------------------------------------- stale callers

  /** Every answer names the term the node was in when it was asked. A node of a later term refuses
      and stays as it is; any other takes over the caller's term. */
  lemma StaleCallersLearn(rules: Rules, n: Node, vote: VoteRequest, append: AppendRequest)
    ensures var (n', reply) := HandleRequestVote(n, vote);
      && reply.term == n.currentTerm
      && if vote.term < n.currentTerm then n' == n && !reply.granted else n'.currentTerm == vote.term
    ensures var (n', reply) := HandleAppendEntries(rules, n, append);
      && reply.term == n.currentTerm
      && if append.term < n.currentTerm then n' == n && !reply.success
         else n'.currentTerm == append.term && n'.role == Follower && n'.leaderId == Some(append.leaderId)
    ensures var n' := HandleAppendEntries(rules, n, append).0;
      && n'.applied == n.applied && n'.lastApplied == n.lastApplied
      && n'.nextIndex == n.nextIndex && n'.matchIndex == n.matchIndex
  {
  }

  /** A leader is deposed by a peer's answer exactly when that peer was in a later term, and takes
      over that term. Otherwise the answer changes only what it knows of that peer and, after a
      success, its commit index. */
  lemma DeposedExactly(rules: Rules, l: Node, self: NodeId, peer: nat, f: Node)
    requires peer < |l.nextIndex| == |l.matchIndex| && l.role == Leader
    ensures var reply := HandleAppendEntries(rules, f, BuildAppendRequest(l, self, peer)).1;
      var l' := HandleAppendReply(l, peer, reply);
      && (l'.role != Leader <==> f.currentTerm > l.currentTerm)
      && l'.currentTerm == Max(l.currentTerm, f.currentTerm)
      && l'.log == l.log && l'.applied == l.applied && l'.lastApplied == l.lastApplied
      && |l'.nextIndex| == |l.nextIndex| && |l'.matchIndex| == |l.matchIndex|
      && (forall j :: 0 <= j < |l.nextIndex| && j != peer ==>
            l'.nextIndex[j] == l.nextIndex[j] && l'.matchIndex[j] == l.matchIndex[j])
      && (l'.role != Leader ==> l'.role == Follower && l'.votedFor == None && l'.leaderId == None)
      && (!reply.success ==> l'.commitIndex == l.commitIndex && l'.matchIndex == l.matchIndex)
  {
  }

  /** A success is booked for that peer alone: its match is the follower's log length, as written, or
      the leader's, when matches are checked. Every entry of the leader's term that is now on more than
      half of the cluster is committed, and the commit index moves to nothing else. */
  lemma AcceptedIsCounted(rules: Rules, l: Node, self: NodeId, peer: nat, f: Node)
    requires peer < |l.nextIndex| == |l.matchIndex| && l.role == Leader
    requires Accepts(f, BuildAppendRequest(l, self, peer)) && f.currentTerm <= l.currentTerm
    requires 1 <= l.nextIndex[peer] <= |l.log| + 1
    ensures var (f', reply) := HandleAppendEntries(rules, f, BuildAppendRequest(l, self, peer));
      var l' := HandleAppendReply(l, peer, reply);
      && l'.matchIndex == l.matchIndex[peer := if rules.checkedMatch then |l.log| else |f'.log|]
      && l'.nextIndex == l.nextIndex[peer := l'.matchIndex[peer] + 1]
      && (l'.commitIndex == l.commitIndex || (l.commitIndex < l'.commitIndex && OnMajority(l', l'.commitIndex)))
      && forall k: nat :: OnMajority(l', k) ==> k <= l'.commitIndex
  {
    hide Committable, OnMajority;
    var reply := HandleAppendEntries(rules, f, BuildAppendRequest(l, self, peer)).1;
    var l' := HandleAppendReply(l, peer, reply);
    var booked := l'.(commitIndex := l.commitIndex);
    assert l'.commitIndex == CommitScan(booked, |l.log|);
    forall k: nat ensures OnMajority(l', k) <==> Committable(booked, k) {
      SameMajority(l', l.commitIndex, k);
    }
    forall k: nat ensures OnMajority(l', k) ==> k <= |l.log| {
      MajorityInLog(l', k);
    }
  }

  lemma SameMajority(n: Node, commit: nat, k: nat)
    ensures OnMajority(n, k) <==> Committable(n.(commitIndex := commit), k)
  {
    CommittableExactly(n.(commitIndex := commit), k);
  }

  lemma MajorityInLog(n: Node, k: nat)
    ensures OnMajority(n, k) ==> k <= |n.log|
  {
  }
}
