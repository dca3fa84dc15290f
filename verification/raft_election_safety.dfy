/** The election and log matching theorems over whole runs. */
module RaftElectionSafety {
  import opened Common
  import opened RaftSpec
  import opened RaftCluster
  import opened RaftLog
  import opened RaftHistory
  import opened RaftElection
  import opened RaftElectionSteps

  ghost predicate ActorReady(cfg: Config, rules: Rules, h: History, p: Proc, a: Action) {
    && ValidConfig(cfg) && a.id < |cfg.peers| && Ready(|cfg.peers[a.id]|, p, a)
    && HistoryInv(cfg, h) && NodeInv(cfg, rules, h, a.id, p)
  }

  ghost predicate ActorDone(cfg: Config, rules: Rules, h: History, p: Proc, a: Action)
    requires a.id < |cfg.peers| && CanAct(p, a)
  {
    var h' := ObserveAct(h, p, a);
    HistoryInv(cfg, h') && Grows(h, h', {a.id}) && NodeInv(cfg, rules, h', a.id, Act(p, a))
  }

  lemma FinishElectionStep(cfg: Config, rules: Rules, h: History, p: Proc, a: Action)
    requires ActorReady(cfg, rules, h, p, a) && a.FinishElection?
    ensures ActorDone(cfg, rules, h, p, a)
  {
    hide HistoryInv, NodeInv, Grows;
    assert ValidPeers(cfg, a.id);
    if p.phase.votes >= Majority(|p.node.matchIndex|) {
      WinStep(cfg, rules, h, a.id, p);
    } else {
      StandDown(cfg, rules, h, a.id, p, p.node.currentTerm);
    }
  }

  lemma CandidateStep(cfg: Config, rules: Rules, h: History, p: Proc, a: Action)
    requires ActorReady(cfg, rules, h, p, a) && (a.StartElection? || a.CollectVote? || a.LoseVote?)
    ensures ActorDone(cfg, rules, h, p, a)
  {
    SameGrows(cfg, h, {a.id});
    hide HistoryInv, NodeInv, Grows;
    if a.StartElection? {
      StartElectionStep(cfg, rules, h, a.id, p);
    } else if a.LoseVote? {
      LoseVoteStep(cfg, rules, h, a.id, p);
    } else if p.phase.vote.reply.term > p.node.currentTerm {
      StandDown(cfg, rules, h, a.id, p, p.phase.vote.reply.term);
    } else {
      CollectVoteStep(cfg, rules, h, a.id, p);
    }
  }

  lemma ProposalStep(cfg: Config, rules: Rules, h: History, p: Proc, a: Action)
    requires ActorReady(cfg, rules, h, p, a) && a.Propose? && p.node.role == Leader
    ensures ActorDone(cfg, rules, h, p, a)
  {
    hide HistoryInv, NodeInv, Grows;
    ProposeStep(cfg, rules, h, a.id, p, a);
  }

  lemma WellFormedIn(cfg: Config, rules: Rules, h: History, i: NodeId, p: Proc)
    requires i < |cfg.peers| && NodeInv(cfg, rules, h, i, p)
    ensures WellFormed(p) && (p.phase.Beating? ==> p.node.role == Leader)
  {
  }

  /** The steps that leave role, term, vote and log alone, or step down. */
  lemma QuietAct(p: Proc, a: Action)
    requires CanAct(p, a) && !(a.StartElection? || a.CollectVote? || a.LoseVote? || a.FinishElection?)
    requires a.Propose? ==> p.node.role != Leader
    requires (a.StartRound? ==> p.node.role == Leader) && (p.phase.Beating? ==> p.node.role == Leader)
    ensures var p' := Act(p, a);
      if a.CollectAppend? && p.phase.ack.reply.term > p.node.currentTerm then
        p' == Proc(BecomeFollower(p.node, p.phase.ack.reply.term, None), Idle)
      else
        && p'.node.role == p.node.role && p'.node.currentTerm == p.node.currentTerm && p'.node.log == p.node.log
        && p'.node.votedFor == p.node.votedFor && p'.node.leaderId == p.node.leaderId
        && (p'.phase == p.phase || (!p'.phase.Electing? && (p'.phase.Beating? ==> p.node.role == Leader)))
  {
  }

  lemma LeaderStep(cfg: Config, rules: Rules, h: History, p: Proc, a: Action)
    requires ActorReady(cfg, rules, h, p, a)
    requires !(a.StartElection? || a.CollectVote? || a.LoseVote? || a.FinishElection?)
    requires a.Propose? ==> p.node.role != Leader
    ensures ActorDone(cfg, rules, h, p, a)
  {
    SameGrows(cfg, h, {a.id});
    hide HistoryInv, Grows, NodeInv, WellFormed, Act;
    WellFormedIn(cfg, rules, h, a.id, p);
    ActKeepsWellFormed(p, a);
    QuietAct(p, a);
    if a.CollectAppend? && p.phase.ack.reply.term > p.node.currentTerm {
      StepDown(cfg, rules, h, a.id, p, p.phase.ack.reply.term, None);
    } else {
      QuietStep(cfg, rules, h, a.id, p, Act(p, a));
    }
  }

  lemma SameGrows(cfg: Config, h: History, ids: set<NodeId>)
    requires HistoryInv(cfg, h)
    ensures Grows(h, h, ids)
  {
  }

  lemma ActorStep(cfg: Config, rules: Rules, h: History, p: Proc, a: Action)
    requires ActorReady(cfg, rules, h, p, a)
    ensures ActorDone(cfg, rules, h, p, a)
  {
    hide HistoryInv, NodeInv, Grows, ActorDone, Act, ObserveAct;
    if a.FinishElection? {
      FinishElectionStep(cfg, rules, h, p, a);
    } else if a.StartElection? || a.CollectVote? || a.LoseVote? {
      CandidateStep(cfg, rules, h, p, a);
    } else if a.Propose? && p.node.role == Leader {
      ProposalStep(cfg, rules, h, p, a);
    } else {
      LeaderStep(cfg, rules, h, p, a);
    }
  }

  /** In a cluster of two a node that has heard of a leader has heard of the other node, which is
      then no candidate of the same term. */
  lemma NoRiskOfTwo(cfg: Config, rules: Rules, h: History, c: NodeId, p: Proc, f: NodeId, n: Node)
    requires |cfg.peers| <= 2 && c < |cfg.peers| && f < |cfg.peers| && c != f && HistoryInv(cfg, h)
    requires NodeInv(cfg, rules, h, c, p) && p.phase.Electing?
    requires NodeInv(cfg, rules, h, f, Proc(n, Idle)) && Heard(h, n)
    ensures !RevoteRisk(n, p.phase.request)
  {
    hide Matched, WellFormed, Remembered, OneVote;
    assert Running(cfg, h, c, p) && Leading(h, c, p) && Leading(h, f, Proc(n, Idle));
    assert n.currentTerm in h.winner ==> Won(cfg, h, n.currentTerm);
  }

  lemma DeliveryStep(cfg: Config, rules: Rules, h: History, s: State, a: Action)
    requires ValidConfig(cfg) && IsDelivery(a) && VoteSafe(cfg, rules, s, a)
    requires HistoryInv(cfg, h) && NodeInv(cfg, rules, h, a.id, s[a.id])
    requires NodeInv(cfg, rules, h, Other(cfg, s, a), s[Other(cfg, s, a)]) && Heard(h, s[Other(cfg, s, a)].node)
    ensures var h', f := Observe(cfg, rules, h, s, a), Other(cfg, s, a);
      HistoryInv(cfg, h') && Grows(h, h', {f})
      && NodeInv(cfg, rules, h', f, Proc(Serve(rules, s[a.id], s[f].node, a).0, Idle))
      && NodeInv(cfg, rules, h', a.id, Proc(s[a.id].node, Serve(rules, s[a.id], s[f].node, a).1))
  {
    hide Won, OneVote, Grows, Matched, Running, Remembered, HandleRequestVote;
    var f, p := Other(cfg, s, a), s[a.id];
    var n := s[f].node;
    var h' := Observe(cfg, rules, h, s, a);
    if a.DeliverVote? {
      if |cfg.peers| <= 2 {
        NoRiskOfTwo(cfg, rules, h, a.id, p, f, n);
      }
      DeliverVoteStep(cfg, rules, h, a.id, p, f, n);
    } else {
      HearStep(cfg, rules, h, a.id, p, f, n);
      QuietStep(cfg, rules, h, a.id, p, Proc(p.node, Serve(rules, p, n, a).1));
      AddStored(cfg, h, h', f);
      SameNodes(cfg, rules, h, h', f, Proc(Serve(rules, p, n, a).0, Idle));
      SameNodes(cfg, rules, h, h', a.id, Proc(p.node, Serve(rules, p, n, a).1));
    }
  }

  lemma SameNodes(cfg: Config, rules: Rules, h: History, h': History, i: NodeId, p: Proc)
    requires i < |cfg.peers| && NodeInv(cfg, rules, h, i, p) && h' == h.(stored := h'.stored)
    ensures NodeInv(cfg, rules, h', i, p)
  {
  }

  lemma GrowsWider(h: History, h': History, ids: set<NodeId>, more: set<NodeId>)
    requires Grows(h, h', ids) && ids <= more
    ensures Grows(h, h', more)
  {
  }

  lemma TouchedNodes(cfg: Config, rules: Rules, h: History, s: State, a: Action)
    requires ValidConfig(cfg) && Inv(cfg, rules, h, s) && VoteSafe(cfg, rules, s, a)
    ensures var h', s', f := Observe(cfg, rules, h, s, a), Next(cfg, rules, s, a), Other(cfg, s, a);
      HistoryInv(cfg, h') && Grows(h, h', {a.id, f})
      && NodeInv(cfg, rules, h', a.id, s'[a.id]) && NodeInv(cfg, rules, h', f, s'[f])
  {
    hide HistoryInv, NodeInv, Grows, Act, ObserveAct, Serve, ObserveServe;
    var h', f := Observe(cfg, rules, h, s, a), Other(cfg, s, a);
    assert NodeInv(cfg, rules, h, a.id, s[a.id]) && NodeInv(cfg, rules, h, f, s[f]) && Heard(h, s[f].node);
    if IsDelivery(a) {
      DeliveryStep(cfg, rules, h, s, a);
      GrowsWider(h, h', {f}, {a.id, f});
    } else {
      EnabledIsReady(cfg, s, a);
      ActorStep(cfg, rules, h, s[a.id], a);
      GrowsWider(h, h', {a.id}, {a.id, f});
    }
  }

  lemma UntouchedNode(cfg: Config, rules: Rules, h: History, h': History, s: State, a: Action, i: NodeId)
    requires Shape(cfg, s) && Enabled(cfg, s, a) && i < |s| && i != a.id && i != Other(cfg, s, a)
    requires NodeInv(cfg, rules, h, i, s[i]) && Grows(h, h', {a.id, Other(cfg, s, a)})
    ensures NodeInv(cfg, rules, h', i, Next(cfg, rules, s, a)[i])
  {
    hide NodeInv, Grows, Enabled;
    OnlyTwoChange(cfg, rules, s, a, i);
    Frame(cfg, rules, h, h', {a.id, Other(cfg, s, a)}, i, s[i]);
  }

  lemma StepKeepsHeard(cfg: Config, rules: Rules, h: History, s: State, a: Action, i: NodeId)
    requires Shape(cfg, s) && Enabled(cfg, s, a) && i < |s| && Heard(h, s[i].node)
    requires NodeInv(cfg, rules, h, a.id, s[a.id])
    requires Grows(h, Observe(cfg, rules, h, s, a), {a.id, Other(cfg, s, a)})
    ensures Heard(Observe(cfg, rules, h, s, a), Next(cfg, rules, s, a)[i].node)
  {
    hide Matched, WellFormed, Remembered, Running, Heard, HandleRequestVote, HandleAppendEntries, HandleAppendReply;
    var h' := Observe(cfg, rules, h, s, a);
    if i == a.id && !IsDelivery(a) {
      ActKeepsHeard(h, h', s[i], a);
    } else if i == Other(cfg, s, a) && IsDelivery(a) {
      ServeKeepsHeard(rules, h, h', s[a.id], s[i].node, a);
    } else {
      OnlyNodesChange(cfg, rules, s, a, i);
      HeardGrows(h, h', s[i].node);
    }
  }

  lemma AllHeard(cfg: Config, rules: Rules, h: History, s: State, a: Action)
    requires Inv(cfg, rules, h, s) && Enabled(cfg, s, a)
    requires Grows(h, Observe(cfg, rules, h, s, a), {a.id, Other(cfg, s, a)})
    ensures forall i :: 0 <= i < |s| ==> Heard(Observe(cfg, rules, h, s, a), Next(cfg, rules, s, a)[i].node)
  {
    hide HistoryInv, NodeInv, Grows, Observe, Next, Other, Heard;
    forall i | 0 <= i < |s| ensures Heard(Observe(cfg, rules, h, s, a), Next(cfg, rules, s, a)[i].node) {
      assert NodeInv(cfg, rules, h, a.id, s[a.id]) && Heard(h, s[i].node);
      StepKeepsHeard(cfg, rules, h, s, a, i);
    }
  }

  lemma HeardGrows(h: History, h': History, n: Node)
    requires Heard(h, n) && forall t :: t in h.winner ==> t in h'.winner && h'.winner[t] == h.winner[t]
    ensures Heard(h', n)
  {
  }

  lemma OnlyNodesChange(cfg: Config, rules: Rules, s: State, a: Action, i: NodeId)
    requires Shape(cfg, s) && Enabled(cfg, s, a) && i < |s|
    requires if IsDelivery(a) then i != Other(cfg, s, a) else i != a.id
    ensures Next(cfg, rules, s, a)[i].node == s[i].node
  {
  }

  lemma ActKeepsHeard(h: History, h': History, p: Proc, a: Action)
    requires CanAct(p, a) && Heard(h, p.node) && h' == ObserveAct(h, p, a)
    requires forall t :: t in h.winner ==> t in h'.winner && h'.winner[t] == h.winner[t]
    ensures Heard(h', Act(p, a).node)
  {
  }

  lemma ServeKeepsHeard(rules: Rules, h: History, h': History, p: Proc, n: Node, a: Action)
    requires IsDelivery(a) && (a.DeliverVote? ==> p.phase.Electing?)
    requires a.DeliverAppend? ==> p.phase.Beating? && p.phase.peer < |p.node.nextIndex|
    requires Heard(h, n) && Leading(h, a.id, p)
    requires forall t :: t in h.winner ==> t in h'.winner && h'.winner[t] == h.winner[t]
    ensures Heard(h', Serve(rules, p, n, a).0)
  {
  }

  lemma StepKeepsInv(cfg: Config, rules: Rules, h: History, s: State, a: Action)
    requires ValidConfig(cfg) && Inv(cfg, rules, h, s) && VoteSafe(cfg, rules, s, a)
    ensures Inv(cfg, rules, Observe(cfg, rules, h, s, a), Next(cfg, rules, s, a))
    ensures Grows(h, Observe(cfg, rules, h, s, a), {a.id, Other(cfg, s, a)})
  {
    hide HistoryInv, NodeInv, Grows, Observe, Next, Other, Enabled, Heard;
    TouchedNodes(cfg, rules, h, s, a);
    var h', s' := Observe(cfg, rules, h, s, a), Next(cfg, rules, s, a);
    AllHeard(cfg, rules, h, s, a);
    forall i | 0 <= i < |s'| ensures NodeInv(cfg, rules, h', i, s'[i]) {
      if i != a.id && i != Other(cfg, s, a) {
        UntouchedNode(cfg, rules, h, h', s, a, i);
      }
    }
  }

  lemma InitInv(cfg: Config, rules: Rules)
    ensures Inv(cfg, rules, NO_HISTORY, Init(cfg))
  {
  }

  lemma {:induction false} RunKeepsInv(cfg: Config, rules: Rules, r: Run, t: nat)
    requires ValidConfig(cfg) && VoteSafeRun(cfg, rules, r) && t < |r.states|
    ensures Inv(cfg, rules, HistoryAt(cfg, rules, r, t), r.states[t])
  {
    if t == 0 {
      InitInv(cfg, rules);
    } else {
      RunKeepsInv(cfg, rules, r, t - 1);
      assert ValidStep(cfg, rules, r.states[t - 1], r.actions[t - 1], r.states[t]);
      StepKeepsInv(cfg, rules, HistoryAt(cfg, rules, r, t - 1), r.states[t - 1], r.actions[t - 1]);
    }
  }

  lemma {:induction false} WinnersStay(cfg: Config, rules: Rules, r: Run, t: nat, u: nat, term: nat)
    requires ValidConfig(cfg) && VoteSafeRun(cfg, rules, r) && t <= u < |r.states|
    requires term in HistoryAt(cfg, rules, r, t).winner
    ensures term in HistoryAt(cfg, rules, r, u).winner
    ensures HistoryAt(cfg, rules, r, u).winner[term] == HistoryAt(cfg, rules, r, t).winner[term]
  {
    if t < u {
      WinnersStay(cfg, rules, r, t, u - 1, term);
      RunKeepsInv(cfg, rules, r, u - 1);
      assert ValidStep(cfg, rules, r.states[u - 1], r.actions[u - 1], r.states[u]);
      StepKeepsInv(cfg, rules, HistoryAt(cfg, rules, r, u - 1), r.states[u - 1], r.actions[u - 1]);
    }
  }

  /** Election safety: two nodes that lead in one term, at whatever times, are one node. */
  lemma ElectionSafety(cfg: Config, rules: Rules, r: Run, t: nat, u: nat, i: NodeId, j: NodeId)
    requires ValidConfig(cfg) && VoteSafeRun(cfg, rules, r)
    requires t < |r.states| && u < |r.states| && i < |r.states[t]| && j < |r.states[u]|
    requires r.states[t][i].node.role == Leader && r.states[u][j].node.role == Leader
    requires r.states[t][i].node.currentTerm == r.states[u][j].node.currentTerm
    ensures i == j
  {
    RunKeepsInv(cfg, rules, r, t);
    RunKeepsInv(cfg, rules, r, u);
    var term := r.states[t][i].node.currentTerm;
    assert Leading(HistoryAt(cfg, rules, r, t), i, r.states[t][i]);
    assert Leading(HistoryAt(cfg, rules, r, u), j, r.states[u][j]);
    if t <= u {
      WinnersStay(cfg, rules, r, t, u, term);
    } else {
      WinnersStay(cfg, rules, r, u, t, term);
    }
  }

  /** Log matching: two logs of one state that hold entries of one term at one index agree on
      everything up to it. */
  lemma LogMatching(cfg: Config, rules: Rules, r: Run, t: nat, i: NodeId, j: NodeId, k: nat)
    requires ValidConfig(cfg) && VoteSafeRun(cfg, rules, r) && t < |r.states|
    requires i < |r.states[t]| && j < |r.states[t]|
    requires 0 < k <= |r.states[t][i].node.log| && k <= |r.states[t][j].node.log|
    requires r.states[t][i].node.log[k - 1].term == r.states[t][j].node.log[k - 1].term
    ensures r.states[t][i].node.log[..k] == r.states[t][j].node.log[..k]
  {
    RunKeepsInv(cfg, rules, r, t);
    MatchedAgree(HistoryAt(cfg, rules, r, t), r.states[t][i].node.log, r.states[t][j].node.log, k);
  }

  /** After a successful AppendEntries the follower's log begins with the leader's whole log. */
  lemma AcceptCopiesLeader(cfg: Config, rules: Rules, r: Run, t: nat)
    requires ValidConfig(cfg) && VoteSafeRun(cfg, rules, r) && t < |r.actions|
    requires r.actions[t].DeliverAppend?
    ensures ValidStep(cfg, rules, r.states[t], r.actions[t], r.states[t + 1])
    ensures var s, s', l, f := r.states[t], r.states[t + 1], r.actions[t].id, Other(cfg, r.states[t], r.actions[t]);
      s'[l].phase.Beating? && s'[l].phase.ack.Answered?
      && (s'[l].phase.ack.reply.success ==> s[l].node.log <= s'[f].node.log)
  {
    assert ValidStep(cfg, rules, r.states[t], r.actions[t], r.states[t + 1]);
    RunKeepsInv(cfg, rules, r, t);
    var s, a := r.states[t], r.actions[t];
    var l, f := a.id, Other(cfg, s, a);
    if Accepts(s[f].node, BuildAppendRequest(s[l].node, l, s[l].phase.peer)) {
      AcceptedLog(HistoryAt(cfg, rules, r, t), s[l].node, l, s[l].phase.peer, s[f].node);
    }
  }
}
