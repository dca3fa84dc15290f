/** Every step of a run keeps the election and log matching invariant. */
module RaftElectionSteps {
  import opened Common
  import opened RaftSpec
  import opened RaftCluster
  import opened RaftLog
  import opened RaftHistory
  import opened RaftElection

  lemma CalledInRange(cfg: Config, i: NodeId, peer: nat, q: set<NodeId>)
    requires ValidConfig(cfg) && i < |cfg.peers| && peer <= |cfg.peers[i]| && Called(cfg, i, peer, q)
    ensures q <= Below(|cfg.peers|)
  {
    assert ValidPeers(cfg, i);
  }

  /** A candidate that has a majority is the first winner of its term: another winner's
      majority would share a voter with it. */
  lemma NoWinnerYet(cfg: Config, rules: Rules, h: History, i: NodeId, p: Proc)
    requires ValidConfig(cfg) && HistoryInv(cfg, h) && i < |cfg.peers| && NodeInv(cfg, rules, h, i, p)
    requires p.phase.Electing? && 2 * p.phase.votes > |cfg.peers|
    ensures p.node.currentTerm !in h.winner
  {
    hide Matched, WellFormed, Remembered, TermsWithin, Below;
    var t := p.node.currentTerm;
    if t in h.winner {
      assert Won(cfg, h, t);
      var q1 :| Quorum(cfg, q1) && Backed(h, q1, t, h.winner[t], h.electLog[t]);
      var q2 :| |q2| == p.phase.votes && Backed(h, q2, t, i, p.node.log) && Called(cfg, i, p.phase.peer, q2);
      CalledInRange(cfg, i, p.phase.peer, q2);
      var v := Intersect(q1, q2, |cfg.peers|);
      assert false;
    }
  }

  ghost function AfterWin(h: History, i: NodeId, n: Node): History {
    h.(winner := h.winner[n.currentTerm := i],
       electLog := h.electLog[n.currentTerm := n.log],
       leaderLog := h.leaderLog[n.currentTerm := n.log],
       stored := h.stored[(i, n.currentTerm) := |n.log|])
  }

  lemma WinGrows(h: History, i: NodeId, n: Node)
    requires h.winner.Keys == h.leaderLog.Keys == h.electLog.Keys && n.currentTerm !in h.winner
    ensures Grows(h, AfterWin(h, i, n), {i})
  {
  }

  lemma WonNow(cfg: Config, rules: Rules, h: History, i: NodeId, p: Proc)
    requires ValidConfig(cfg) && i < |cfg.peers| && NodeInv(cfg, rules, h, i, p)
    requires p.phase.Electing? && 2 * p.phase.votes > |cfg.peers|
    requires Grows(h, AfterWin(h, i, p.node), {i})
    ensures Won(cfg, AfterWin(h, i, p.node), p.node.currentTerm)
  {
    var h', t := AfterWin(h, i, p.node), p.node.currentTerm;
    var q :| |q| == p.phase.votes && Backed(h, q, t, i, p.node.log) && Called(cfg, i, p.phase.peer, q);
    CalledInRange(cfg, i, p.phase.peer, q);
    assert Quorum(cfg, q) && Backed(h', q, t, i, h'.electLog[t]);
    MatchedGrows(h, h', {i}, p.node.log);
  }

  lemma WinKeepsHistory(cfg: Config, rules: Rules, h: History, i: NodeId, p: Proc)
    requires ValidConfig(cfg) && HistoryInv(cfg, h) && i < |cfg.peers| && NodeInv(cfg, rules, h, i, p)
    requires p.phase.Electing? && 2 * p.phase.votes > |cfg.peers|
    ensures HistoryInv(cfg, AfterWin(h, i, p.node))
    ensures Grows(h, AfterWin(h, i, p.node), {i})
  {
    hide Won, OneVote, Grows, Matched, WellFormed, Remembered;
    NoWinnerYet(cfg, rules, h, i, p);
    WinGrows(h, i, p.node);
    WonNow(cfg, rules, h, i, p);
    SetTerm(cfg, h, AfterWin(h, i, p.node), i, p.node.currentTerm);
  }

  ghost function AfterPropose(h: History, i: NodeId, n: Node, log: seq<Entry>): History {
    h.(leaderLog := h.leaderLog[n.currentTerm := log],
       stored := h.stored[(i, n.currentTerm) := |log|])
  }

  lemma ProposeGrows(h: History, i: NodeId, p: Proc, e: Entry)
    requires h.winner.Keys == h.leaderLog.Keys == h.electLog.Keys && Leading(h, i, p) && p.node.role == Leader
    ensures Grows(h, AfterPropose(h, i, p.node, p.node.log + [e]), {i})
  {
  }

  lemma ProposeKeepsHistory(cfg: Config, rules: Rules, h: History, i: NodeId, p: Proc, e: Entry)
    requires HistoryInv(cfg, h) && i < |cfg.peers| && NodeInv(cfg, rules, h, i, p)
    requires p.node.role == Leader && e.term == p.node.currentTerm
    ensures var h' := AfterPropose(h, i, p.node, p.node.log + [e]);
      HistoryInv(cfg, h') && Grows(h, h', {i}) && Matched(h', p.node.log + [e])
  {
    hide Won, OneVote, Grows, Matched, Remembered, Running, Numbered, Sorted, TermsWithin;
    var t := p.node.currentTerm;
    var h' := AfterPropose(h, i, p.node, p.node.log + [e]);
    ProposeGrows(h, i, p, e);
    MatchedGrows(h, h', {i}, p.node.log);
    MatchedSnoc(h', p.node.log, e);
    assert Won(cfg, h, t);
    ExtendWon(cfg, h, h', i, t, e);
    assert (i, t) !in h.over;
    SetTerm(cfg, h, h', i, t);
  }

  lemma ExtendWon(cfg: Config, h: History, h': History, i: NodeId, t: nat, e: Entry)
    requires Grows(h, h', {i}) && t in h.winner && Won(cfg, h, t) && e.term == t
    requires t >= 1 && h'.leaderLog[t] == h.leaderLog[t] + [e] && Matched(h', h'.leaderLog[t])
    ensures Won(cfg, h', t)
  {
  }

  // ------------------------------------------------------------ local steps

  lemma StartElectionStep(cfg: Config, rules: Rules, h: History, i: NodeId, p: Proc)
    requires HistoryInv(cfg, h) && i < |cfg.peers| && NodeInv(cfg, rules, h, i, p)
    requires p.phase.Idle? && p.node.role != Leader
    ensures var h' := h.(grants := h.grants + {Grant(i, p.node.currentTerm + 1, i, p.node.log)});
      HistoryInv(cfg, h') && Grows(h, h', {i}) && NodeInv(cfg, rules, h', i, Act(p, StartElection(i)))
  {
    var g := Grant(i, p.node.currentTerm + 1, i, p.node.log);
    var h' := h.(grants := h.grants + {g});
    var p' := Act(p, StartElection(i));
    AddGrant(cfg, h, g);
    MatchedGrows(h, h', {i}, p.node.log);
    ActKeepsWellFormed(p, StartElection(i));
    var q := {i};
    assert |q| == 1 && Backed(h', q, p'.node.currentTerm, i, p.node.log) && Called(cfg, i, 0, q);
    forall g1 | g1 in h'.grants && g1.voter == i ensures Remembered(rules, h', p'.node, g1) {
      assert g1 == g || Remembered(rules, h, p.node, g1);
    }
  }

  lemma CollectVoteStep(cfg: Config, rules: Rules, h: History, i: NodeId, p: Proc)
    requires ValidConfig(cfg) && i < |cfg.peers| && NodeInv(cfg, rules, h, i, p)
    requires p.phase.Electing? && p.phase.peer < |cfg.peers[i]| && p.phase.vote.Answered?
    requires p.phase.vote.reply.term <= p.node.currentTerm
    ensures NodeInv(cfg, rules, h, i, Act(p, CollectVote(i)))
  {
    var p' := Act(p, CollectVote(i));
    var t, log, k := p.node.currentTerm, p.node.log, p.phase.peer;
    var q :| |q| == p.phase.votes && Backed(h, q, t, i, log) && Called(cfg, i, k, q);
    var v := cfg.peers[i][k];
    assert ValidPeers(cfg, i);
    var q' := if p.phase.vote.reply.granted then q + {v} else q;
    assert v !in q;
    assert cfg.peers[i][..k + 1] == cfg.peers[i][..k] + [v];
    assert |q'| == p'.phase.votes && Backed(h, q', t, i, log) && Called(cfg, i, k + 1, q');
  }

  lemma LoseVoteStep(cfg: Config, rules: Rules, h: History, i: NodeId, p: Proc)
    requires ValidConfig(cfg) && i < |cfg.peers| && NodeInv(cfg, rules, h, i, p)
    requires p.phase.Electing? && p.phase.peer < |cfg.peers[i]|
    ensures NodeInv(cfg, rules, h, i, Act(p, LoseVote(i)))
  {
  }

  /** A candidacy ends without winning: the term does not fall and the vote is forgotten. */
  lemma StandDown(cfg: Config, rules: Rules, h: History, i: NodeId, p: Proc, t: nat)
    requires HistoryInv(cfg, h) && i < |cfg.peers| && NodeInv(cfg, rules, h, i, p)
    requires p.phase.Electing? && t >= p.node.currentTerm
    ensures var h' := h.(over := h.over + {(i, p.node.currentTerm)});
      HistoryInv(cfg, h') && Grows(h, h', {i})
      && NodeInv(cfg, rules, h', i, Proc(BecomeFollower(p.node, t, None), Idle))
  {
    AddOver(cfg, h, i, p.node.currentTerm);
    MatchedGrows(h, h.(over := h.over + {(i, p.node.currentTerm)}), {i}, p.node.log);
    ForgottenCandidacy(cfg, rules, h, i, p, t);
  }

  lemma ForgottenCandidacy(cfg: Config, rules: Rules, h: History, i: NodeId, p: Proc, t: nat)
    requires i < |cfg.peers| && NodeInv(cfg, rules, h, i, p)
    requires p.phase.Electing? && t >= p.node.currentTerm
    requires Matched(h.(over := h.over + {(i, p.node.currentTerm)}), p.node.log)
    ensures NodeInv(cfg, rules, h.(over := h.over + {(i, p.node.currentTerm)}), i,
                    Proc(BecomeFollower(p.node, t, None), Idle))
  {
  }

  lemma WinStep(cfg: Config, rules: Rules, h: History, i: NodeId, p: Proc)
    requires ValidConfig(cfg) && HistoryInv(cfg, h) && i < |cfg.peers| && NodeInv(cfg, rules, h, i, p)
    requires p.phase.Electing? && 2 * p.phase.votes > |cfg.peers|
    ensures var h' := AfterWin(h, i, p.node);
      HistoryInv(cfg, h') && Grows(h, h', {i}) && NodeInv(cfg, rules, h', i, Proc(BecomeLeader(p.node, i), Idle))
  {
    WinKeepsHistory(cfg, rules, h, i, p);
    MatchedGrows(h, AfterWin(h, i, p.node), {i}, p.node.log);
    LeadingNode(cfg, rules, h, AfterWin(h, i, p.node), i, p, Proc(BecomeLeader(p.node, i), Idle));
  }

  lemma LeadingNode(cfg: Config, rules: Rules, h: History, h': History, i: NodeId, p: Proc, p': Proc)
    requires i < |cfg.peers| && NodeInv(cfg, rules, h, i, p)
    requires h'.grants == h.grants && h'.over == h.over
    requires p.node.votedFor == Some(i) && p'.node == p.node.(role := Leader, leaderId := p'.node.leaderId,
      log := p'.node.log, nextIndex := p'.node.nextIndex, matchIndex := p'.node.matchIndex)
    requires WellFormed(p') && Matched(h', p'.node.log) && Leading(h', i, p') && p'.phase.Idle?
    ensures NodeInv(cfg, rules, h', i, p')
  {
  }

  /** A step that keeps role, term, vote and log, and starts no election. */
  lemma QuietStep(cfg: Config, rules: Rules, h: History, i: NodeId, p: Proc, p': Proc)
    requires i < |cfg.peers| && NodeInv(cfg, rules, h, i, p) && WellFormed(p')
    requires p'.node.role == p.node.role && p'.node.currentTerm == p.node.currentTerm
    requires p'.node.votedFor == p.node.votedFor && p'.node.leaderId == p.node.leaderId
    requires p'.node.log == p.node.log
    requires p'.phase == p.phase || (!p'.phase.Electing? && (p'.phase.Beating? ==> p.node.role == Leader))
    ensures NodeInv(cfg, rules, h, i, p')
  {
  }

  /** A node other than a candidate steps down to a higher term. */
  lemma StepDown(cfg: Config, rules: Rules, h: History, i: NodeId, p: Proc, t: nat, l: Option<NodeId>)
    requires i < |cfg.peers| && NodeInv(cfg, rules, h, i, p)
    requires !p.phase.Electing? && t > p.node.currentTerm
    ensures NodeInv(cfg, rules, h, i, Proc(BecomeFollower(p.node, t, l), Idle))
  {
  }

  lemma ProposeStep(cfg: Config, rules: Rules, h: History, i: NodeId, p: Proc, a: Action)
    requires HistoryInv(cfg, h) && i < |cfg.peers| && NodeInv(cfg, rules, h, i, p)
    requires a.Propose? && p.phase.Idle? && p.node.role == Leader
    ensures var h' := AfterPropose(h, i, p.node, Act(p, a).node.log);
      HistoryInv(cfg, h') && Grows(h, h', {i}) && NodeInv(cfg, rules, h', i, Act(p, a))
  {
    hide Won, OneVote, Matched;
    var e := Entry(p.node.currentTerm, |p.node.log| + 1, a.operation, a.data);
    var p' := Proc(p.node.(log := p.node.log + [e]), p.phase);
    assert Act(p, a) == p';
    ActKeepsWellFormed(p, a);
    ProposeKeepsHistory(cfg, rules, h, i, p, e);
    assert Leading(h, i, p);
    LeadingNode(cfg, rules, h, AfterPropose(h, i, p.node, p'.node.log), i, p, p');
  }

  // ------------------------------------------------------------- deliveries

  lemma GrantStep(cfg: Config, rules: Rules, h: History, v: NodeId, n: Node, req: VoteRequest, g: Grant)
    requires HistoryInv(cfg, h) && v < |cfg.peers| && NodeInv(cfg, rules, h, v, Proc(n, Idle))
    requires g.voter == v && g.term == req.term && g.candidate == req.candidateId != v
    requires HandleRequestVote(n, req).1.granted
    requires rules.keepVote || !RevoteRisk(n, req)
    ensures var h' := h.(grants := h.grants + {g});
      HistoryInv(cfg, h') && Grows(h, h', {v}) && NodeInv(cfg, rules, h', v, Proc(HandleRequestVote(n, req).0, Idle))
  {
    forall g1 | g1 in h.grants ensures OneVote(h, g1, g) {
      assert g1.voter == v ==> Remembered(rules, h, n, g1);
    }
    AddGrant(cfg, h, g);
    MatchedGrows(h, h.(grants := h.grants + {g}), {v}, n.log);
    GrantedNode(cfg, rules, h, v, n, req, g);
  }

  lemma GrantedNode(cfg: Config, rules: Rules, h: History, v: NodeId, n: Node, req: VoteRequest, g: Grant)
    requires v < |cfg.peers| && NodeInv(cfg, rules, h, v, Proc(n, Idle))
    requires g.voter == v && g.term == req.term && g.candidate == req.candidateId != v
    requires HandleRequestVote(n, req).1.granted
    requires rules.keepVote || !RevoteRisk(n, req)
    requires Matched(h.(grants := h.grants + {g}), n.log)
    ensures NodeInv(cfg, rules, h.(grants := h.grants + {g}), v, Proc(HandleRequestVote(n, req).0, Idle))
  {
  }

  lemma RefuseStep(cfg: Config, rules: Rules, h: History, v: NodeId, n: Node, req: VoteRequest)
    requires v < |cfg.peers| && NodeInv(cfg, rules, h, v, Proc(n, Idle))
    requires !HandleRequestVote(n, req).1.granted
    ensures NodeInv(cfg, rules, h, v, Proc(HandleRequestVote(n, req).0, Idle))
  {
  }

  lemma DeliverVoteStep(cfg: Config, rules: Rules, h: History, c: NodeId, p: Proc, v: NodeId, n: Node)
    requires ValidConfig(cfg) && HistoryInv(cfg, h)
    requires c < |cfg.peers| && NodeInv(cfg, rules, h, c, p)
    requires p.phase.Electing? && p.phase.peer < |cfg.peers[c]| && v == cfg.peers[c][p.phase.peer]
    requires v < |cfg.peers| && v != c && NodeInv(cfg, rules, h, v, Proc(n, Idle))
    requires rules.keepVote || !RevoteRisk(n, p.phase.request)
    ensures var (n', reply) := HandleRequestVote(n, p.phase.request);
      var h' := if reply.granted then h.(grants := h.grants + {Grant(v, p.phase.request.term, c, p.node.log)}) else h;
      HistoryInv(cfg, h') && Grows(h, h', {v})
      && NodeInv(cfg, rules, h', v, Proc(n', Idle))
      && NodeInv(cfg, rules, h', c, p.(phase := p.phase.(vote := Answered(reply))))
  {
    var req := p.phase.request;
    var g := Grant(v, req.term, c, p.node.log);
    if HandleRequestVote(n, req).1.granted {
      GrantStep(cfg, rules, h, v, n, req, g);
      Frame(cfg, rules, h, h.(grants := h.grants + {g}), {v}, c, p);
      AnsweredCandidate(cfg, rules, h.(grants := h.grants + {g}), c, p, HandleRequestVote(n, req).1);
    } else {
      RefuseStep(cfg, rules, h, v, n, req);
      AnsweredCandidate(cfg, rules, h, c, p, HandleRequestVote(n, req).1);
    }
  }

  lemma AnsweredCandidate(cfg: Config, rules: Rules, h: History, c: NodeId, p: Proc, reply: VoteReply)
    requires c < |cfg.peers| && NodeInv(cfg, rules, h, c, p)
    requires p.phase.Electing? && p.phase.peer < |cfg.peers[c]|
    requires reply.granted ==> Grant(cfg.peers[c][p.phase.peer], p.phase.request.term, c, p.node.log) in h.grants
    ensures NodeInv(cfg, rules, h, c, p.(phase := p.phase.(vote := Answered(reply))))
  {
  }

  /** Log matching at work: an accepting follower's log begins with the leader's whole log. */
  lemma AcceptedLog(h: History, l: Node, self: NodeId, peer: nat, f: Node)
    requires peer < |l.nextIndex|
    requires Matched(h, l.log) && Matched(h, f.log) && TermsWithin(f.log, f.currentTerm)
    requires Accepts(f, BuildAppendRequest(l, self, peer))
    ensures var req := BuildAppendRequest(l, self, peer);
      && l.log <= NewLog(f.log, req)
      && (req.entries != [] ==> NewLog(f.log, req) == l.log)
      && req.prevLogIndex + |req.entries| == |l.log|
  {
  }

  /** A follower that hears from the leader of its term, or of a later one. */
  lemma HeardNode(cfg: Config, rules: Rules, h: History, f: NodeId, n: Node, l: NodeId, t: nat, log: seq<Entry>,
                  commit: nat)
    requires f < |cfg.peers| && NodeInv(cfg, rules, h, f, Proc(n, Idle))
    requires t >= n.currentTerm && t in h.winner && h.winner[t] == l != f && Matched(h, log)
    requires Numbered(log) && Sorted(log) && TermsWithin(log, t)
    ensures var kept := if rules.keepVote && t == n.currentTerm then n.votedFor else None;
      NodeInv(cfg, rules, h, f,
        Proc(BecomeFollower(n, t, Some(l)).(votedFor := kept, log := log, commitIndex := commit), Idle))
  {
  }

  lemma HearStep(cfg: Config, rules: Rules, h: History, l: NodeId, p: Proc, f: NodeId, n: Node)
    requires l < |cfg.peers| && NodeInv(cfg, rules, h, l, p)
    requires p.phase.Beating? && p.phase.peer < |p.node.nextIndex|
    requires f < |cfg.peers| && f != l && NodeInv(cfg, rules, h, f, Proc(n, Idle))
    ensures NodeInv(cfg, rules, h, f,
      Proc(HandleAppendEntries(rules, n, BuildAppendRequest(p.node, l, p.phase.peer)).0, Idle))
  {
    var req := BuildAppendRequest(p.node, l, p.phase.peer);
    var n' := HandleAppendEntries(rules, n, req).0;
    if req.term >= n.currentTerm {
      AppendKeepsWellFormed(rules, p, l, n);
      assert Leading(h, l, p);
      assert n'.log == n.log || n'.log == p.node.log by {
        if Accepts(n, req) {
          AcceptedLog(h, p.node, l, p.phase.peer, n);
        }
      }
      HeardNode(cfg, rules, h, f, n, l, req.term, n'.log, n'.commitIndex);
    }
  }
}
