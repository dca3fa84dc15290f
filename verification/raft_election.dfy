/** Election safety and log matching, on every run in which no vote is forgotten. */
module RaftElection {
  import opened Common
  import opened RaftSpec
  import opened RaftCluster
  import opened RaftLog
  import opened RaftHistory

  /** What is true of the history by itself. */
  ghost predicate HistoryInv(cfg: Config, h: History) {
    && h.winner.Keys == h.leaderLog.Keys == h.electLog.Keys
    && (forall t :: t in h.winner ==> Won(cfg, h, t))
    && (forall g1, g2 :: g1 in h.grants && g2 in h.grants ==> OneVote(h, g1, g2))
    && (forall o :: o in h.over ==> !(o.1 in h.winner && h.winner[o.1] == o.0))
  }

  ghost predicate Won(cfg: Config, h: History, t: nat)
    requires t in h.winner && t in h.leaderLog && t in h.electLog
  {
    && h.winner[t] < |cfg.peers|
    && (exists q :: Quorum(cfg, q) && Backed(h, q, t, h.winner[t], h.electLog[t]))
    && h.electLog[t] <= h.leaderLog[t]
    && TermsWithin(h.leaderLog[t], t)
    && (forall k :: 0 <= k < |h.leaderLog[t]| ==> (h.leaderLog[t][k].term == t <==> k >= |h.electLog[t]|))
    && Matched(h, h.leaderLog[t])
  }

  /** A node that voted twice in one term voted for a candidacy that was already over. */
  ghost predicate OneVote(h: History, g1: Grant, g2: Grant) {
    g1.voter == g2.voter && g1.term == g2.term ==>
      g1.candidate == g2.candidate || (g1.candidate, g1.term) in h.over || (g2.candidate, g1.term) in h.over
  }

  /** What ties one node to the history. */
  ghost predicate NodeInv(cfg: Config, rules: Rules, h: History, i: NodeId, p: Proc)
    requires i < |cfg.peers|
  {
    && WellFormed(p)
    && Matched(h, p.node.log)
    && Leading(h, i, p)
    && (p.phase.Electing? ==> Running(cfg, h, i, p))
    && (forall g :: g in h.grants && g.voter == i ==> Remembered(rules, h, p.node, g))
    && (forall o :: o in h.over && o.0 == i ==> o.1 <= p.node.currentTerm)
  }

  ghost predicate Leading(h: History, i: NodeId, p: Proc) {
    && h.winner.Keys == h.leaderLog.Keys
    && (forall t :: t in h.winner && h.winner[t] == i ==> t <= p.node.currentTerm)
    && (p.node.role == Leader <==> p.node.currentTerm in h.winner && h.winner[p.node.currentTerm] == i)
    && (p.node.role == Leader ==>
          p.node.log == h.leaderLog[p.node.currentTerm] && p.node.votedFor == Some(i))
    && (p.phase.Beating? ==> p.node.role == Leader)
  }

  ghost predicate Running(cfg: Config, h: History, i: NodeId, p: Proc)
    requires p.phase.Electing? && i < |cfg.peers|
  {
    var n, ph := p.node, p.phase;
    && ph.request == BuildVoteRequest(n, i)
    && n.role == Candidate && n.votedFor == Some(i) && n.leaderId == None
    && n.currentTerm >= 1 && TermsWithin(n.log, n.currentTerm - 1)
    && (i, n.currentTerm) !in h.over
    && ph.peer <= |cfg.peers[i]|
    && (exists q :: |q| == ph.votes && Backed(h, q, n.currentTerm, i, n.log) && Called(cfg, i, ph.peer, q))
    && (ph.vote.Answered? && ph.vote.reply.granted && ph.peer < |cfg.peers[i]| ==>
          Grant(cfg.peers[i][ph.peer], n.currentTerm, i, n.log) in h.grants)
  }

  /** q lies within the candidate and the peers it has called so far. */
  ghost predicate Called(cfg: Config, i: NodeId, peer: nat, q: set<NodeId>)
    requires i < |cfg.peers| && peer <= |cfg.peers[i]|
  {
    forall v :: v in q ==> v == i || v in cfg.peers[i][..peer]
  }

  /** A node in the term of a grant it made still knows it, unless that candidacy is over or
      (with the code as written) a leader of the term has made itself known. */
  ghost predicate Remembered(rules: Rules, h: History, n: Node, g: Grant) {
    && g.term <= n.currentTerm
    && (g.term == n.currentTerm ==>
          n.votedFor == Some(g.candidate) || (g.candidate, g.term) in h.over
          || (!rules.keepVote && n.votedFor == None && n.leaderId.Some?))
  }

  /** The leader a node has heard of won the node's term. */
  ghost predicate Heard(h: History, n: Node) {
    n.leaderId.Some? ==> n.currentTerm in h.winner && h.winner[n.currentTerm] == n.leaderId.value
  }

  ghost predicate Inv(cfg: Config, rules: Rules, h: History, s: State) {
    && Shape(cfg, s) && HistoryInv(cfg, h)
    && (forall i :: 0 <= i < |s| ==> NodeInv(cfg, rules, h, i, s[i]))
    && (forall i :: 0 <= i < |s| ==> Heard(h, s[i].node))
  }

  // ----------------------------------------------------------------- frame

  lemma Frame(cfg: Config, rules: Rules, h: History, h': History, ids: set<NodeId>, i: NodeId, p: Proc)
    requires i < |cfg.peers| && NodeInv(cfg, rules, h, i, p)
    requires Grows(h, h', ids) && i !in ids
    ensures NodeInv(cfg, rules, h', i, p)
  {
  }

  // --------------------------------------------------------- history changes

  /** A term won stays won while its leader's log is left alone. */
  lemma WonGrows(cfg: Config, h: History, h': History, ids: set<NodeId>, t: nat)
    requires Grows(h, h', ids) && t in h.winner && Won(cfg, h, t)
    requires h'.leaderLog[t] == h.leaderLog[t]
    ensures Won(cfg, h', t)
  {
  }

  lemma AddGrant(cfg: Config, h: History, g: Grant)
    requires HistoryInv(cfg, h)
    requires forall g1 :: g1 in h.grants ==> OneVote(h, g1, g)
    ensures HistoryInv(cfg, h.(grants := h.grants + {g}))
    ensures Grows(h, h.(grants := h.grants + {g}), {g.voter})
  {
    hide Won, Matched, TermsWithin;
    var h' := h.(grants := h.grants + {g});
    forall t | t in h'.winner ensures Won(cfg, h', t) {
      WonGrows(cfg, h, h', {g.voter}, t);
    }
    assert forall g1, g2 :: g1 in h.grants && g2 in h.grants ==> OneVote(h, g1, g2);
  }

  lemma AddOver(cfg: Config, h: History, c: NodeId, t: nat)
    requires HistoryInv(cfg, h) && !(t in h.winner && h.winner[t] == c)
    ensures HistoryInv(cfg, h.(over := h.over + {(c, t)}))
    ensures Grows(h, h.(over := h.over + {(c, t)}), {c})
  {
    hide Won, Matched, TermsWithin;
    var h' := h.(over := h.over + {(c, t)});
    forall u | u in h'.winner ensures Won(cfg, h', u) {
      WonGrows(cfg, h, h', {c}, u);
    }
    assert forall g1, g2 :: g1 in h.grants && g2 in h.grants ==> OneVote(h, g1, g2);
  }

  /** What is stored where plays no part in this invariant. */
  lemma AddStored(cfg: Config, h: History, h': History, i: NodeId)
    requires HistoryInv(cfg, h) && h' == h.(stored := h'.stored)
    ensures HistoryInv(cfg, h') && Grows(h, h', {i})
  {
    hide Won, Matched, TermsWithin;
    forall u | u in h'.winner ensures Won(cfg, h', u) {
      WonGrows(cfg, h, h', {i}, u);
    }
    assert forall g1, g2 :: g1 in h.grants && g2 in h.grants ==> OneVote(h, g1, g2);
  }

  /** One term's logs change; the rest of the history is as it was. */
  lemma SetTerm(cfg: Config, h: History, h': History, i: NodeId, t: nat)
    requires HistoryInv(cfg, h) && Grows(h, h', {i})
    requires h'.grants == h.grants && h'.over == h.over
    requires h'.winner.Keys == h.winner.Keys + {t} && h'.winner[t] == i && Won(cfg, h', t)
    requires forall u :: u in h.winner && u != t ==> h'.leaderLog[u] == h.leaderLog[u]
    requires (i, t) !in h.over
    ensures HistoryInv(cfg, h')
  {
    hide Won, Matched, TermsWithin;
    forall u | u in h'.winner ensures Won(cfg, h', u) {
      if u != t {
        WonGrows(cfg, h, h', {i}, u);
      }
    }
    forall g1, g2 | g1 in h'.grants && g2 in h'.grants ensures OneVote(h', g1, g2) {
      assert OneVote(h, g1, g2);
    }
  }
}
