/** Every step keeps what is stored, what is supported and what is committed. */
module RaftCommitSteps {
  import opened Common
  import opened RaftSpec
  import opened RaftCluster
  import opened RaftLog
  import opened RaftHistory
  import opened RaftElection
  import opened RaftElectionSteps
  import opened RaftCommit

  // -------------------------------------------------------- history changes

  /** Nobody who voted in a later term stores any more of an earlier leader's log, so what is
      supported stays supported. */
  lemma StoreMore(cfg: Config, h: History, h': History, i: NodeId, t: nat)
    requires StoreInv(h) && Grows(h, h', {i}) && StoreGrows(h, h', {i})
    requires h'.grants == h.grants
    requires forall g :: g in h.grants && g.voter == i ==> g.term <= t
    requires forall u: nat :: u != t ==> Stored(h', i, u) == Stored(h, i, u)
    requires forall v: nat, u: nat :: (v, u) in h'.stored ==>
        u in h'.leaderLog && h'.stored[(v, u)] <= |h'.leaderLog[u]|
    ensures StoreInv(h')
  {
    forall g, u: nat, k: nat | g in h'.grants && u < g.term && Open(h', g) && Held(h', g.voter, u, k)
      ensures Supported(h', g, u, k)
    {
      assert Stored(h, g.voter, u) == Stored(h', g.voter, u) >= k;
      assert (g.voter, u) in h.stored;
      assert h.leaderLog[u] <= h'.leaderLog[u];
      assert Held(h, g.voter, u, k) && Open(h, g);
      SupportedGrows(h, h', {i}, g, u, k);
    }
  }

  lemma SupportedGrows(h: History, h': History, ids: set<NodeId>, g: Grant, t: nat, k: nat)
    requires Grows(h, h', ids) && Supported(h, g, t, k)
    ensures Supported(h', g, t, k)
  {
    if !FreshFor(g.log, t, k) {
      var u: nat :| t < u < g.term && Lacks(h, u, t, k);
      LacksGrows(h, h', ids, u, t, k);
    }
  }

  /** A voter compares the candidate's log with its own, and so with all it still keeps. */
  lemma VoteSupports(h: History, i: NodeId, n: Node, g: Grant, t: nat, k: nat)
    requires KeepsAll(h, i, n) && Held(h, i, t, k) && Sorted(n.log)
    requires UpToDate(LastTerm(g.log), |g.log|, n.log)
    requires n.currentTerm <= g.term && (n.currentTerm == g.term ==> g.term !in h.winner)
    requires h.electLog.Keys == h.winner.Keys
    ensures Supported(h, g, t, k)
  {
    assert Keeps(h, n, t, k);
    if h.leaderLog[t][..k] <= n.log {
      assert n.log[k - 1].term == t;
      assert LastTerm(n.log) >= t;
    }
  }

  lemma StoreGrant(cfg: Config, h: History, n: Node, g: Grant)
    requires StoreInv(h) && KeepsAll(h, g.voter, n) && Sorted(n.log)
    requires h.electLog.Keys == h.winner.Keys == h.leaderLog.Keys
    requires n.currentTerm <= g.term && UpToDate(LastTerm(g.log), |g.log|, n.log)
    requires g.term in h.winner ==> h.winner[g.term] != g.candidate || n.currentTerm < g.term
    ensures StoreInv(h.(grants := h.grants + {g}))
  {
    var h' := h.(grants := h.grants + {g});
    assert Grows(h, h', {g.voter});
    forall g1, t: nat, k: nat | g1 in h'.grants && t < g1.term && Open(h', g1) && Held(h', g1.voter, t, k)
      ensures Supported(h', g1, t, k)
    {
      assert Open(h, g1) && Held(h, g1.voter, t, k);
      if g1 in h.grants {
        assert Supported(h, g1, t, k);
      } else {
        VoteSupports(h, g.voter, n, g, t, k);
      }
      SupportedGrows(h, h', {g.voter}, g1, t, k);
    }
  }

  // ------------------------------------------------------------- local steps

  /** A step that leaves log and commit index alone, and the leader's bookkeeping unless the
      node stops leading. */
  lemma QuietCommit(cfg: Config, h: History, h': History, i: NodeId, p: Proc, p': Proc)
    requires i < |cfg.peers| && NodeCommit(cfg, h, i, p) && StoreInv(h)
    requires Grows(h, h', {i}) && StoreGrows(h, h', {}) && p.node.currentTerm <= p'.node.currentTerm
    requires p'.node.log == p.node.log && p'.node.commitIndex == p.node.commitIndex
    requires p'.node.lastApplied == p.node.lastApplied && p'.node.applied == p.node.applied
    requires |p'.node.nextIndex| == |p'.node.matchIndex| == |cfg.peers[i]|
    requires p'.node.role != Leader ||
      (p.node.role == Leader && p'.node.currentTerm == p.node.currentTerm && p'.node.matchIndex == p.node.matchIndex
       && p'.node.nextIndex == p.node.nextIndex && !(p'.phase.Beating? && p'.phase.ack.Answered?))
    ensures NodeCommit(cfg, h', i, p')
  {
    KeepsAllGrows(h, h', {i}, i, p.node, p'.node);
    CommitGrows(cfg, h, h', {i}, p.node, p'.node);
  }

  /** A leader keeps what it kept and holds all of its own log in its term. */
  lemma KeepsOwn(h: History, h': History, i: NodeId, n: Node, n': Node)
    requires StoreInv(h) && Grows(h, h', {i}) && KeepsAll(h, i, n)
    requires n.log <= n'.log && n'.currentTerm == n.currentTerm
    requires n.currentTerm in h'.leaderLog && h'.leaderLog[n.currentTerm] == n'.log
    requires forall u: nat :: u != n.currentTerm ==> Stored(h', i, u) == Stored(h, i, u)
    ensures KeepsAll(h', i, n')
  {
    forall t, k: nat | t in h'.leaderLog && k <= Stored(h', i, t) && k <= |h'.leaderLog[t]|
      ensures Keeps(h', n', t, k) {
      if t != n.currentTerm && k > 0 {
        assert (i, t) in h.stored;
        KeepsGrows(h, h', {i}, n, n', t, k);
      }
    }
  }

  lemma WinStore(cfg: Config, h: History, i: NodeId, n: Node)
    requires StoreInv(h) && n.currentTerm !in h.winner
    requires h.winner.Keys == h.leaderLog.Keys == h.electLog.Keys
    requires forall g :: g in h.grants && g.voter == i ==> g.term <= n.currentTerm
    ensures var h' := AfterWin(h, i, n);
      StoreInv(h') && Grows(h, h', {i}) && StoreGrows(h, h', {i})
      && forall v: nat :: Stored(h, v, n.currentTerm) == 0
  {
    hide Supported, Held;
    var h' := AfterWin(h, i, n);
    assert forall v: nat :: Stored(h, v, n.currentTerm) == 0;
    StoreMore(cfg, h, h', i, n.currentTerm);
  }

  lemma WinCommit(cfg: Config, rules: Rules, h: History, i: NodeId, p: Proc)
    requires h.winner.Keys == h.leaderLog.Keys == h.electLog.Keys && StoreInv(h) && i < |cfg.peers|
    requires NodeInv(cfg, rules, h, i, p) && NodeCommit(cfg, h, i, p)
    requires p.node.currentTerm !in h.winner
    ensures var h' := AfterWin(h, i, p.node);
      StoreInv(h') && StoreGrows(h, h', {i}) && NodeCommit(cfg, h', i, Proc(BecomeLeader(p.node, i), Idle))
  {
    hide StoreInv, KeepsAll, CommitInv, Matched, Running;
    var n, h', n' := p.node, AfterWin(h, i, p.node), BecomeLeader(p.node, i);
    assert forall g :: g in h.grants && g.voter == i ==> Remembered(rules, h, n, g);
    WinStore(cfg, h, i, n);
    CommitGrows(cfg, h, h', {i}, n, n');
    KeepsOwn(h, h', i, n, n');
  }

  lemma ProposeStore(cfg: Config, h: History, i: NodeId, n: Node, e: Entry)
    requires StoreInv(h) && n.currentTerm in h.winner && h.winner[n.currentTerm] == i
    requires h.winner.Keys == h.leaderLog.Keys == h.electLog.Keys
    requires h.leaderLog[n.currentTerm] == n.log && Stored(h, i, n.currentTerm) == |n.log|
    requires forall g :: g in h.grants && g.voter == i ==> g.term <= n.currentTerm
    ensures var h' := AfterPropose(h, i, n, n.log + [e]);
      StoreInv(h') && Grows(h, h', {i}) && StoreGrows(h, h', {i})
  {
    StoreMore(cfg, h, AfterPropose(h, i, n, n.log + [e]), i, n.currentTerm);
  }

  lemma ProposeCommit(cfg: Config, rules: Rules, h: History, i: NodeId, p: Proc, e: Entry)
    requires h.winner.Keys == h.leaderLog.Keys == h.electLog.Keys && StoreInv(h) && i < |cfg.peers|
    requires NodeInv(cfg, rules, h, i, p) && NodeCommit(cfg, h, i, p)
    requires p.node.role == Leader && p.phase.Idle?
    ensures var h' := AfterPropose(h, i, p.node, p.node.log + [e]);
      StoreInv(h') && StoreGrows(h, h', {i}) && NodeCommit(cfg, h', i, p.(node := p.node.(log := p.node.log + [e])))
  {
    hide StoreInv, KeepsAll, CommitInv, Matched, Running;
    var n, n' := p.node, p.node.(log := p.node.log + [e]);
    var h' := AfterPropose(h, i, n, n'.log);
    assert Leading(h, i, p) && Tracks(cfg, h, i, p);
    assert forall g :: g in h.grants && g.voter == i ==> Remembered(rules, h, n, g);
    ProposeStore(cfg, h, i, n, e);
    CommitGrows(cfg, h, h', {i}, n, n');
    KeepsOwn(h, h', i, n, n');
  }

  lemma ApplyCommit(cfg: Config, h: History, i: NodeId, p: Proc)
    requires i < |cfg.peers| && NodeCommit(cfg, h, i, p)
    ensures NodeCommit(cfg, h, i, p.(node := ApplyCommitted(p.node)))
  {
    var n, n' := p.node, ApplyCommitted(p.node);
    assert n'.applied == n'.log[..n'.lastApplied];
    if n.commitIndex > 0 {
      var t: nat, k: nat :| BackedBy(cfg, h, n, t, k);
      assert BackedBy(cfg, h, n', t, k);
    }
    forall t, k: nat | t in h.leaderLog && k <= Stored(h, i, t) && k <= |h.leaderLog[t]| ensures Keeps(h, n', t, k) {
      assert Keeps(h, n, t, k);
    }
  }

  // ---------------------------------------------------------- commit counting

  /** The peers among the first m whose match index reaches k. */
  ghost function Matching(peers: seq<NodeId>, matches: seq<nat>, k: nat, m: nat): set<NodeId>
    requires m <= |peers| == |matches|
  {
    set j | 0 <= j < m && matches[j] >= k :: peers[j]
  }

  lemma {:induction false} CountIsSize(peers: seq<NodeId>, matches: seq<nat>, k: nat, m: nat)
    requires Distinct(peers) && m <= |peers| == |matches|
    ensures |Matching(peers, matches, k, m)| == CountAtLeast(matches[..m], k)
  {
    if m == 0 {
      assert Matching(peers, matches, k, 0) == {};
    } else {
      CountIsSize(peers, matches, k, m - 1);
      assert matches[..m][..m - 1] == matches[..m - 1];
      var before := Matching(peers, matches, k, m - 1);
      assert peers[m - 1] !in before;
      assert Matching(peers, matches, k, m) == if matches[m - 1] >= k then before + {peers[m - 1]} else before;
    }
  }

  /** An index that updateCommitIndex may choose is stored on a strict majority, if the match
      indices are stored where they claim to be. */
  lemma CommittableIsCommitted(cfg: Config, h: History, i: NodeId, n: Node, k: nat)
    requires ValidConfig(cfg) && i < |cfg.peers| && |n.matchIndex| == |cfg.peers[i]| && Committable(n, k)
    requires n.currentTerm in h.leaderLog && h.leaderLog[n.currentTerm] == n.log
    requires Stored(h, i, n.currentTerm) == |n.log| && MatchStored(cfg, h, i, n)
    ensures exists q :: Quorum(cfg, q) && StoredBy(h, q, n.currentTerm, k)
    ensures Committed(cfg, h, n.currentTerm, k)
  {
    var peers, m := cfg.peers[i], |n.matchIndex|;
    assert ValidPeers(cfg, i);
    CountIsSize(peers, n.matchIndex, k, m);
    assert n.matchIndex[..m] == n.matchIndex;
    var q := Matching(peers, n.matchIndex, k, m) + {i};
    assert Quorum(cfg, q) && Covers(cfg, q) && StoredBy(h, q, n.currentTerm, k);
  }

  /** In a cluster of up to four nodes the match indices do not matter: the scan follows a success
      reply, and the leader and the peer that sent it really have it all. */
  lemma TwoHoldersSuffice(cfg: Config, h: History, i: NodeId, n: Node, k: nat, f: NodeId)
    requires |cfg.peers| <= 4 && i < |cfg.peers| && f < |cfg.peers| && i != f && Committable(n, k)
    requires n.currentTerm in h.leaderLog && h.leaderLog[n.currentTerm] == n.log
    requires Stored(h, i, n.currentTerm) == |n.log| <= Stored(h, f, n.currentTerm)
    ensures Committed(cfg, h, n.currentTerm, k)
  {
    assert Covers(cfg, {i, f}) && StoredBy(h, {i, f}, n.currentTerm, k);
  }

  /** What a leader knows about a peer after its reply. */
  lemma TrackReply(cfg: Config, h: History, i: NodeId, p: Proc, n1: Node)
    requires i < |cfg.peers| && StoreInv(h) && Tracks(cfg, h, i, p) && p.node.role == Leader
    requires p.node.currentTerm in h.leaderLog && h.leaderLog[p.node.currentTerm] == p.node.log
    requires p.phase.Beating? && p.phase.ack.Answered? && p.phase.peer < |cfg.peers[i]|
    requires p.phase.ack.reply.success
    requires var j, m := p.phase.peer, p.phase.ack.reply.matchIndex;
      n1 == p.node.(nextIndex := p.node.nextIndex[j := m + 1], matchIndex := p.node.matchIndex[j := m])
    ensures Tracks(cfg, h, i, Proc(n1, Beating(p.phase.peer + 1, Waiting)))
  {
  }

  lemma ScanCommit(cfg: Config, h: History, i: NodeId, p: Proc, f: NodeId)
    requires ValidConfig(cfg) && i < |cfg.peers| && NodeCommit(cfg, h, i, p) && p.node.role == Leader
    requires f < |cfg.peers| && f != i && |p.node.log| <= Stored(h, f, p.node.currentTerm)
    requires p.node.currentTerm in h.leaderLog && h.leaderLog[p.node.currentTerm] == p.node.log
    requires !(p.phase.Beating? && p.phase.ack.Answered?)
    ensures NodeCommit(cfg, h, i, p.(node := UpdateCommitIndex(p.node)))
  {
    var n, n' := p.node, UpdateCommitIndex(p.node);
    if n'.commitIndex > n.commitIndex {
      if |cfg.peers| > 4 {
        CommittableIsCommitted(cfg, h, i, n, n'.commitIndex);
      } else {
        TwoHoldersSuffice(cfg, h, i, n, n'.commitIndex, f);
      }
      assert BackedBy(cfg, h, n', n.currentTerm, n'.commitIndex);
    }
    forall t, k: nat | t in h.leaderLog && k <= Stored(h, i, t) && k <= |h.leaderLog[t]| ensures Keeps(h, n', t, k) {
      assert Keeps(h, n, t, k);
    }
  }

  lemma CollectCommit(cfg: Config, rules: Rules, h: History, i: NodeId, p: Proc)
    requires ValidConfig(cfg) && StoreInv(h) && i < |cfg.peers|
    requires NodeInv(cfg, rules, h, i, p) && NodeCommit(cfg, h, i, p)
    requires p.phase.Beating? && p.phase.ack.Answered? && p.phase.peer < |cfg.peers[i]|
    requires Grows(h, h, {i})
    ensures NodeCommit(cfg, h, i, Act(p, CollectAppend(i)))
  {
    var n, j, reply := p.node, p.phase.peer, p.phase.ack.reply;
    var p' := Act(p, CollectAppend(i));
    assert Leading(h, i, p);
    if reply.term > n.currentTerm {
      QuietCommit(cfg, h, h, i, p, p');
    } else if reply.success {
      var n1 := n.(nextIndex := n.nextIndex[j := reply.matchIndex + 1],
                   matchIndex := n.matchIndex[j := reply.matchIndex]);
      TrackReply(cfg, h, i, p, n1);
      KeepsAllGrows(h, h, {i}, i, n, n1);
      CommitGrows(cfg, h, h, {i}, n, n1);
      assert ValidPeers(cfg, i);
      ScanCommit(cfg, h, i, Proc(n1, Beating(j + 1, Waiting)), cfg.peers[i][j]);
    } else {
      KeepsAllGrows(h, h, {i}, i, n, p'.node);
      CommitGrows(cfg, h, h, {i}, n, p'.node);
    }
  }

  // ------------------------------------------------------------ replication

  ghost function AfterStore(h: History, f: NodeId, t: nat, m: nat): History {
    h.(stored := h.stored[(f, t) := m])
  }

  /** A follower that takes over the log of the leader of its term keeps what it stored,
      or that leader lacked it. */
  lemma KeepsHeard(cfg: Config, h: History, f: NodeId, n: Node, t: nat, n': Node, m: nat)
    requires StoreInv(h) && KeepsAll(h, f, n) && HistoryInv(cfg, h)
    requires t in h.winner && n.currentTerm <= t == n'.currentTerm
    requires h.leaderLog[t] <= n'.log && (n'.log == n.log || n'.log == h.leaderLog[t])
    ensures KeepsAll(AfterStore(h, f, t, m), f, n')
  {
    var h' := AfterStore(h, f, t, m);
    assert forall u: nat :: u != t ==> Stored(h', f, u) == Stored(h, f, u);
    forall u, k: nat | u in h'.leaderLog && k <= Stored(h', f, u) && k <= |h'.leaderLog[u]|
      ensures Keeps(h', n', u, k) {
      if u != t && k > 0 {
        assert Keeps(h, n, u, k) && (f, u) in h.stored && u <= n.currentTerm;
        if n'.log != n.log {
          assert Won(cfg, h, t);
          assert Lacks(h', t, u, k) || h.leaderLog[u][..k] <= h.electLog[t] <= n'.log;
        } else if !(h.leaderLog[u][..k] <= n.log) {
          var w: nat :| u < w <= n.currentTerm && Lacks(h, w, u, k);
          assert Lacks(h', w, u, k);
        }
      }
    }
  }

  /** What a node knows to be committed is in the log of every leader it hears from. */
  lemma CommittedInLeader(cfg: Config, h: History, n: Node, t: nat)
    requires HistoryInv(cfg, h) && StoreInv(h) && CommitInv(cfg, h, n)
    requires t in h.winner && n.currentTerm <= t
    ensures n.commitIndex <= |h.leaderLog[t]| && h.leaderLog[t][..n.commitIndex] == n.log[..n.commitIndex]
  {
    hide StoreInv, OneVote, Matched, TermsWithin;
    if n.commitIndex > 0 {
      var u: nat, k: nat :| BackedBy(cfg, h, n, u, k);
      assert Won(cfg, h, t);
      if u < t {
        LeaderHas(cfg, h, u, k, t);
      }
      assert h.leaderLog[u][..k] <= h.leaderLog[t];
      assert h.leaderLog[u][..k][..n.commitIndex] == h.leaderLog[t][..n.commitIndex];
    }
  }

  /** The commit index a follower adopts covers only what the leader knows to be committed. */
  lemma CommitHeard(cfg: Config, h: History, l: Node, n: Node, n': Node)
    requires HistoryInv(cfg, h) && StoreInv(h) && CommitInv(cfg, h, n) && CommitInv(cfg, h, l)
    requires l.currentTerm in h.winner && h.leaderLog[l.currentTerm] == l.log
    requires n.currentTerm <= l.currentTerm == n'.currentTerm
    requires l.log <= n'.log && (n'.log == n.log || n'.log == l.log)
    requires n'.commitIndex == if l.commitIndex > n.commitIndex then Min(l.commitIndex, |n'.log|) else n.commitIndex
    requires n'.lastApplied == n.lastApplied && n'.applied == n.applied
    ensures CommitInv(cfg, h, n')
  {
    hide HistoryInv, StoreInv, Committed;
    CommittedInLeader(cfg, h, n, l.currentTerm);
    assert n.log[..n.commitIndex] == l.log[..n.commitIndex] == n'.log[..n.commitIndex];
    assert n.log[..n.lastApplied] == n.log[..n.commitIndex][..n.lastApplied] == n'.log[..n.lastApplied];
    if l.commitIndex > n.commitIndex {
      var t: nat, k: nat :| BackedBy(cfg, h, l, t, k);
      assert n'.log[..n'.commitIndex] == l.log[..l.commitIndex];
      assert BackedBy(cfg, h, n', t, k);
    } else if n.commitIndex > 0 {
      var t: nat, k: nat :| BackedBy(cfg, h, n, t, k);
      assert BackedBy(cfg, h, n', t, k);
    }
  }

  lemma StoreHeard(cfg: Config, rules: Rules, h: History, l: NodeId, p: Proc, f: NodeId, n: Node)
    requires h.winner.Keys == h.leaderLog.Keys == h.electLog.Keys && StoreInv(h)
    requires f < |cfg.peers| && NodeInv(cfg, rules, h, f, Proc(n, Idle)) && KeepsAll(h, f, n)
    requires Leading(h, l, p) && p.node.role == Leader && l != f && n.currentTerm <= p.node.currentTerm
    ensures var h' := AfterStore(h, f, p.node.currentTerm, |p.node.log|);
      StoreInv(h') && Grows(h, h', {f}) && StoreGrows(h, h', {f})
  {
    var t := p.node.currentTerm;
    var h' := AfterStore(h, f, t, |p.node.log|);
    assert Stored(h, f, t) <= |p.node.log| by {
      assert Stored(h, f, t) > 0 ==> (f, t) in h.stored;
    }
    assert forall g :: g in h.grants && g.voter == f ==> Remembered(rules, h, n, g);
    StoreMore(cfg, h, h', f, t);
  }
}
