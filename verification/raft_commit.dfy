/** Leader completeness: what half of the nodes have stored of a leader's log, every later leader
    has, because half of the nodes meet every majority. */
module RaftCommit {
  import opened Common
  import opened RaftSpec
  import opened RaftCluster
  import opened RaftLog
  import opened RaftHistory
  import opened RaftElection

  /** v has stored the first k entries of the log of the leader of term t, and the k-th is of
      that term itself. */
  ghost predicate Held(h: History, v: NodeId, t: nat, k: nat) {
    t in h.leaderLog && 1 <= k <= Stored(h, v, t) && k <= |h.leaderLog[t]| && h.leaderLog[t][k - 1].term == t
  }

  /** Entry k of the leader of term t is of that term, and half of the nodes have stored it in
      that term. */
  ghost predicate Committed(cfg: Config, h: History, t: nat, k: nat) {
    && t in h.leaderLog && 1 <= k <= |h.leaderLog[t]| && h.leaderLog[t][k - 1].term == t
    && exists q :: Covers(cfg, q) && StoredBy(h, q, t, k)
  }

  ghost predicate StoredBy(h: History, q: set<NodeId>, t: nat, k: nat) {
    forall v :: v in q ==> k <= Stored(h, v, t)
  }

  /** The leader of term u started without the first k entries of the leader of term t. */
  ghost predicate Lacks(h: History, u: nat, t: nat, k: nat) {
    u in h.electLog && t in h.leaderLog && k <= |h.leaderLog[t]| && !(h.leaderLog[t][..k] <= h.electLog[u])
  }

  ghost predicate FreshFor(log: seq<Entry>, t: nat, k: nat) {
    LastTerm(log) > t || (LastTerm(log) == t && |log| >= k)
  }

  ghost predicate Open(h: History, g: Grant) {
    g.term in h.winner ==> h.winner[g.term] == g.candidate
  }

  /** A vote went to a candidate at least as fresh as what its voter held, unless a leader in
      between had lost that already. */
  ghost predicate Supported(h: History, g: Grant, t: nat, k: nat) {
    FreshFor(g.log, t, k) || exists u: nat :: t < u < g.term && Lacks(h, u, t, k)
  }

  ghost predicate StoreInv(h: History) {
    && (forall v: nat, t: nat :: (v, t) in h.stored ==> t in h.leaderLog && h.stored[(v, t)] <= |h.leaderLog[t]|)
    && (forall g, t: nat, k: nat :: g in h.grants && t < g.term && Open(h, g) && Held(h, g.voter, t, k) ==>
        Supported(h, g, t, k))
  }

  /** What a node stored of a leader's log it still has, unless a later leader lacked it. */
  ghost predicate Keeps(h: History, n: Node, t: nat, k: nat)
    requires t in h.leaderLog && k <= |h.leaderLog[t]|
  {
    h.leaderLog[t][..k] <= n.log || exists u: nat :: t < u <= n.currentTerm && Lacks(h, u, t, k)
  }

  ghost predicate KeepsAll(h: History, i: NodeId, n: Node) {
    && (forall t: nat :: Stored(h, i, t) > 0 ==> t <= n.currentTerm)
    && (forall t, k: nat :: t in h.leaderLog && k <= Stored(h, i, t) && k <= |h.leaderLog[t]| ==> Keeps(h, n, t, k))
  }

  /** A peer that accepts has stored the leader's whole log. In a cluster of more than four nodes
      a leader's match indices, too, are stored where they claim to be. */
  ghost predicate Tracks(cfg: Config, h: History, i: NodeId, p: Proc)
    requires i < |cfg.peers|
  {
    var n := p.node;
    && |n.nextIndex| == |n.matchIndex| == |cfg.peers[i]|
    && (n.role == Leader ==>
          && Stored(h, i, n.currentTerm) == |n.log|
          && (|cfg.peers| > 4 ==> MatchStored(cfg, h, i, n))
          && (p.phase.Beating? && p.phase.ack.Answered? && p.phase.peer < |cfg.peers[i]|
              && p.phase.ack.reply.success ==>
                AckStored(cfg, h, cfg.peers[i][p.phase.peer], n, p.phase.ack.reply)))
  }

  ghost predicate MatchStored(cfg: Config, h: History, i: NodeId, n: Node)
    requires i < |cfg.peers| && |n.matchIndex| == |cfg.peers[i]|
  {
    forall j :: 0 <= j < |n.matchIndex| ==> n.matchIndex[j] <= Stored(h, cfg.peers[i][j], n.currentTerm)
  }

  ghost predicate AckStored(cfg: Config, h: History, f: NodeId, n: Node, reply: AppendReply) {
    && |n.log| <= Stored(h, f, n.currentTerm)
    && (|cfg.peers| > 4 ==> reply.matchIndex <= Stored(h, f, n.currentTerm))
  }

  ghost predicate BackedBy(cfg: Config, h: History, n: Node, t: nat, k: nat) {
    && Committed(cfg, h, t, k) && t <= n.currentTerm
    && n.commitIndex <= k && n.commitIndex <= |n.log| && n.log[..n.commitIndex] == h.leaderLog[t][..n.commitIndex]
  }

  ghost predicate CommitInv(cfg: Config, h: History, n: Node) {
    && n.lastApplied <= n.commitIndex <= |n.log|
    && n.applied == n.log[..n.lastApplied]
    && (n.commitIndex == 0 || exists t: nat, k: nat :: BackedBy(cfg, h, n, t, k))
  }

  ghost predicate NodeCommit(cfg: Config, h: History, i: NodeId, p: Proc)
    requires i < |cfg.peers|
  {
    KeepsAll(h, i, p.node) && Tracks(cfg, h, i, p) && CommitInv(cfg, h, p.node)
  }

  ghost predicate FullInv(cfg: Config, rules: Rules, h: History, s: State) {
    && Inv(cfg, rules, h, s) && StoreInv(h)
    && forall i :: 0 <= i < |s| ==> NodeCommit(cfg, h, i, s[i])
  }

  /** Every leader elected after an entry was stored on a majority in its own term has it. */
  lemma {:induction false} LeaderHas(cfg: Config, h: History, t: nat, k: nat, t': nat)
    requires HistoryInv(cfg, h) && StoreInv(h) && Committed(cfg, h, t, k)
    requires t < t' && t' in h.winner
    ensures h.leaderLog[t][..k] <= h.electLog[t']
    decreases t'
  {
    var log := h.electLog[t'];
    var v := SharedVoter(cfg, h, t, k, t');
    var g := Grant(v, t', h.winner[t'], log);
    assert Supported(h, g, t, k) by {
      assert Open(h, g) && Held(h, v, t, k);
    }
    if !FreshFor(log, t, k) {
      var u :| t < u < t' && Lacks(h, u, t, k);
      LeaderHas(cfg, h, t, k, u);
      assert false;
    }
    var last := LastTerm(log);
    assert Won(cfg, h, t) && Won(cfg, h, t');
    assert log[|log| - 1] == h.leaderLog[t'][|log| - 1];
    assert log[..|log|] == log == h.leaderLog[t'][..|log| - 1 + 1];
    assert last in h.leaderLog && log <= h.leaderLog[last];
    if last > t {
      LeaderHas(cfg, h, t, k, last);
      LongerThan(cfg, h, t, k, log, last);
    }
  }

  lemma SharedVoter(cfg: Config, h: History, t: nat, k: nat, t': nat) returns (v: NodeId)
    requires HistoryInv(cfg, h) && Committed(cfg, h, t, k) && t' in h.winner
    ensures k <= Stored(h, v, t) && Grant(v, t', h.winner[t'], h.electLog[t']) in h.grants
  {
    assert Won(cfg, h, t');
    var q1 :| Covers(cfg, q1) && StoredBy(h, q1, t, k);
    var q2 :| Quorum(cfg, q2) && Backed(h, q2, t', h.winner[t'], h.electLog[t']);
    v := Intersect(q1, q2, |cfg.peers|);
  }

  /** A log that ends with an entry of a later term reaches past what the earlier leader wrote. */
  lemma LongerThan(cfg: Config, h: History, t: nat, k: nat, log: seq<Entry>, last: nat)
    requires HistoryInv(cfg, h) && t in h.winner && last in h.winner && k <= |h.leaderLog[t]|
    requires log != [] && log <= h.leaderLog[last] && LastTerm(log) == last > t
    requires h.leaderLog[t][..k] <= h.electLog[last]
    ensures h.leaderLog[t][..k] <= log
  {
  }

  // ----------------------------------------------------------------- frame

  ghost predicate StoreGrows(h: History, h': History, ids: set<NodeId>) {
    && (forall v: nat, t: nat :: Stored(h, v, t) <= Stored(h', v, t))
    && (forall v: nat, t: nat :: v !in ids ==> Stored(h', v, t) == Stored(h, v, t))
  }

  lemma LacksGrows(h: History, h': History, ids: set<NodeId>, u: nat, t: nat, k: nat)
    requires Grows(h, h', ids) && Lacks(h, u, t, k)
    ensures Lacks(h', u, t, k)
  {
  }

  lemma CommittedGrows(cfg: Config, h: History, h': History, ids: set<NodeId>, t: nat, k: nat)
    requires Grows(h, h', ids) && StoreGrows(h, h', ids) && Committed(cfg, h, t, k)
    ensures Committed(cfg, h', t, k) && h'.leaderLog[t][..k] == h.leaderLog[t][..k]
  {
  }

  /** A node keeps what it kept while its log is not cut and its term does not fall. */
  lemma KeepsGrows(h: History, h': History, ids: set<NodeId>, n: Node, n': Node, t: nat, k: nat)
    requires Grows(h, h', ids) && t in h.leaderLog && k <= |h.leaderLog[t]| && Keeps(h, n, t, k)
    requires n.log <= n'.log && n.currentTerm <= n'.currentTerm
    ensures t in h'.leaderLog && k <= |h'.leaderLog[t]| && Keeps(h', n', t, k)
  {
    assert h.leaderLog[t] <= h'.leaderLog[t];
    assert h'.leaderLog[t][..k] == h.leaderLog[t][..k];
    if !(h.leaderLog[t][..k] <= n.log) {
      var u: nat :| t < u <= n.currentTerm && Lacks(h, u, t, k);
      LacksGrows(h, h', ids, u, t, k);
    }
  }

  lemma CommitGrows(cfg: Config, h: History, h': History, ids: set<NodeId>, n: Node, n': Node)
    requires Grows(h, h', ids) && StoreGrows(h, h', ids) && CommitInv(cfg, h, n)
    requires n.log <= n'.log && n.currentTerm <= n'.currentTerm && n'.commitIndex == n.commitIndex
    requires n'.lastApplied == n.lastApplied && n'.applied == n.applied
    ensures CommitInv(cfg, h', n')
  {
    if n.commitIndex > 0 {
      var t: nat, k: nat :| BackedBy(cfg, h, n, t, k);
      CommittedGrows(cfg, h, h', ids, t, k);
      assert h'.leaderLog[t][..n.commitIndex] == h.leaderLog[t][..k][..n.commitIndex];
      assert BackedBy(cfg, h', n', t, k);
    }
  }

  lemma KeepsAllGrows(h: History, h': History, ids: set<NodeId>, i: NodeId, n: Node, n': Node)
    requires StoreInv(h) && Grows(h, h', ids) && KeepsAll(h, i, n)
    requires forall t: nat :: Stored(h', i, t) == Stored(h, i, t)
    requires n.log <= n'.log && n.currentTerm <= n'.currentTerm
    ensures KeepsAll(h', i, n')
  {
    forall t, k: nat | t in h'.leaderLog && k <= Stored(h', i, t) && k <= |h'.leaderLog[t]|
      ensures Keeps(h', n', t, k) {
      if k > 0 {
        assert (i, t) in h.stored;
        KeepsGrows(h, h', ids, n, n', t, k);
      }
    }
  }

  lemma FrameCommit(cfg: Config, h: History, h': History, ids: set<NodeId>, i: NodeId, p: Proc)
    requires i < |cfg.peers| && NodeCommit(cfg, h, i, p) && StoreInv(h)
    requires Grows(h, h', ids) && StoreGrows(h, h', ids) && i !in ids
    ensures NodeCommit(cfg, h', i, p)
  {
    KeepsAllGrows(h, h', ids, i, p.node, p.node);
    CommitGrows(cfg, h, h', ids, p.node, p.node);
  }
}
