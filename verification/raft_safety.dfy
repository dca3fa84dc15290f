/** Leader completeness and state machine safety over whole runs. */
module RaftSafety {
  import opened Common
  import opened RaftSpec
  import opened RaftCluster
  import opened RaftLog
  import opened RaftHistory
  import opened RaftElection
  import opened RaftElectionSteps
  import opened RaftElectionSafety
  import opened RaftCommit
  import opened RaftCommitSteps

  /** The step from h to h' keeps what is supported, and the nodes it touches keep theirs. */
  ghost predicate KeepsCommit(cfg: Config, h: History, h': History, i: NodeId, p': Proc)
    requires i < |cfg.peers|
  {
    StoreInv(h') && StoreGrows(h, h', {i}) && NodeCommit(cfg, h', i, p')
  }

  lemma OverCommit(cfg: Config, h: History, i: NodeId, p: Proc, p': Proc, t: nat)
    requires h.winner.Keys == h.leaderLog.Keys == h.electLog.Keys && StoreInv(h)
    requires i < |cfg.peers| && NodeCommit(cfg, h, i, p)
    requires exists u: nat :: u >= p.node.currentTerm && p' == Proc(BecomeFollower(p.node, u, None), Idle)
    ensures KeepsCommit(cfg, h, h.(over := h.over + {(i, t)}), i, p')
  {
    var h' := h.(over := h.over + {(i, t)});
    assert Grows(h, h', {i});
    forall g, u: nat, k: nat | g in h'.grants && u < g.term && Open(h', g) && Held(h', g.voter, u, k)
      ensures Supported(h', g, u, k)
    {
      assert Open(h, g) && Held(h, g.voter, u, k);
      SupportedGrows(h, h', {i}, g, u, k);
    }
    QuietCommit(cfg, h, h', i, p, p');
  }

  /** The actor's step a is enabled, and everything holds of it and of the history. */
  ghost predicate CommitReady(cfg: Config, rules: Rules, h: History, p: Proc, a: Action) {
    && ValidConfig(cfg) && a.id < |cfg.peers| && Ready(|cfg.peers[a.id]|, p, a)
    && HistoryInv(cfg, h) && StoreInv(h)
    && NodeInv(cfg, rules, h, a.id, p) && NodeCommit(cfg, h, a.id, p)
  }

  ghost predicate CommitDone(cfg: Config, h: History, p: Proc, a: Action)
    requires a.id < |cfg.peers| && CanAct(p, a)
  {
    KeepsCommit(cfg, h, ObserveAct(h, p, a), a.id, Act(p, a))
  }

  lemma StartCommit(cfg: Config, rules: Rules, h: History, p: Proc, a: Action)
    requires CommitReady(cfg, rules, h, p, a) && a.StartElection?
    ensures CommitDone(cfg, h, p, a)
  {
    hide StoreInv, KeepsAll, CommitInv, Matched, Leading, Won, OneVote, Remembered, Grows;
    var g := Grant(a.id, p.node.currentTerm + 1, a.id, p.node.log);
    var h' := h.(grants := h.grants + {g});
    StoreGrant(cfg, h, p.node, g);
    GrowsByGrants(h, h', a.id);
    QuietCommit(cfg, h, h', a.id, p, Act(p, a));
  }

  lemma FinishCommit(cfg: Config, rules: Rules, h: History, p: Proc, a: Action)
    requires CommitReady(cfg, rules, h, p, a) && a.FinishElection?
    ensures CommitDone(cfg, h, p, a)
  {
    hide StoreInv, KeepsAll, CommitInv, Matched, Leading, Won, OneVote, Remembered, Grows, StoreGrows;
    assert ValidPeers(cfg, a.id);
    if p.phase.votes >= Majority(|p.node.matchIndex|) {
      NoWinnerYet(cfg, rules, h, a.id, p);
      WinCommit(cfg, rules, h, a.id, p);
    } else {
      OverCommit(cfg, h, a.id, p, Act(p, a), p.node.currentTerm);
    }
  }

  lemma OustedCommit(cfg: Config, rules: Rules, h: History, p: Proc, a: Action)
    requires CommitReady(cfg, rules, h, p, a) && a.CollectVote? && p.phase.vote.reply.term > p.node.currentTerm
    ensures CommitDone(cfg, h, p, a)
  {
    hide StoreInv, KeepsAll, CommitInv, Matched, Leading, Won, OneVote, Remembered;
    OverCommit(cfg, h, a.id, p, Act(p, a), p.node.currentTerm);
  }

  lemma LeaderCommit(cfg: Config, rules: Rules, h: History, p: Proc, a: Action)
    requires CommitReady(cfg, rules, h, p, a) && a.Propose? && p.node.role == Leader
    ensures CommitDone(cfg, h, p, a)
  {
    hide StoreInv, NodeInv, NodeCommit, Won, OneVote;
    ProposeCommit(cfg, rules, h, a.id, p, Entry(p.node.currentTerm, |p.node.log| + 1, a.operation, a.data));
  }

  lemma ReplyCommit(cfg: Config, rules: Rules, h: History, p: Proc, a: Action)
    requires CommitReady(cfg, rules, h, p, a) && a.CollectAppend?
    ensures CommitDone(cfg, h, p, a)
  {
    hide StoreInv, NodeInv, NodeCommit, Won, OneVote, HandleAppendReply;
    assert Grows(h, h, {a.id});
    assert p.phase.Beating? && p.phase.ack.Answered?;
    CollectCommit(cfg, rules, h, a.id, p);
  }

  lemma ApplyActor(cfg: Config, rules: Rules, h: History, p: Proc, a: Action)
    requires CommitReady(cfg, rules, h, p, a) && a.Apply?
    ensures CommitDone(cfg, h, p, a)
  {
    hide StoreInv, NodeInv, NodeCommit, Won, OneVote, HistoryInv;
    ApplyCommit(cfg, h, a.id, p);
  }

  /** The steps that change neither the history nor the log. */
  lemma QuietActor(cfg: Config, rules: Rules, h: History, p: Proc, a: Action)
    requires CommitReady(cfg, rules, h, p, a)
    requires !a.FinishElection? && !a.StartElection? && !a.Apply? && !a.CollectAppend?
    requires a.CollectVote? ==> p.phase.vote.reply.term <= p.node.currentTerm
    requires a.Propose? ==> p.node.role != Leader
    ensures CommitDone(cfg, h, p, a)
  {
    hide StoreInv, KeepsAll, CommitInv, Matched, Won, OneVote, Remembered;
    assert Grows(h, h, {a.id});
    QuietCommit(cfg, h, h, a.id, p, Act(p, a));
  }

  lemma ActorCommit(cfg: Config, rules: Rules, h: History, p: Proc, a: Action)
    requires CommitReady(cfg, rules, h, p, a)
    ensures CommitDone(cfg, h, p, a)
  {
    hide HistoryInv, StoreInv, NodeInv, NodeCommit, CommitDone, Act;
    if a.FinishElection? {
      FinishCommit(cfg, rules, h, p, a);
    } else if a.StartElection? {
      StartCommit(cfg, rules, h, p, a);
    } else if a.CollectVote? && p.phase.vote.reply.term > p.node.currentTerm {
      OustedCommit(cfg, rules, h, p, a);
    } else if a.Propose? && p.node.role == Leader {
      LeaderCommit(cfg, rules, h, p, a);
    } else if a.Apply? {
      ApplyActor(cfg, rules, h, p, a);
    } else if a.CollectAppend? {
      ReplyCommit(cfg, rules, h, p, a);
    } else {
      QuietActor(cfg, rules, h, p, a);
    }
  }

  // ------------------------------------------------------------- deliveries

  lemma VoteCommit(cfg: Config, rules: Rules, h: History, c: NodeId, p: Proc, v: NodeId, n: Node)
    requires h.winner.Keys == h.leaderLog.Keys == h.electLog.Keys && StoreInv(h)
    requires c < |cfg.peers| && NodeInv(cfg, rules, h, c, p) && p.phase.Electing?
    requires v < |cfg.peers| && v != c && WellFormed(Proc(n, Idle)) && NodeCommit(cfg, h, v, Proc(n, Idle))
    ensures var (n', reply) := HandleRequestVote(n, p.phase.request);
      var h' := if reply.granted then h.(grants := h.grants + {Grant(v, p.phase.request.term, c, p.node.log)}) else h;
      KeepsCommit(cfg, h, h', v, Proc(n', Idle))
  {
    var req := p.phase.request;
    var (n', reply) := HandleRequestVote(n, req);
    var g := Grant(v, req.term, c, p.node.log);
    assert Running(cfg, h, c, p) && Leading(h, c, p);
    var h' := if reply.granted then h.(grants := h.grants + {g}) else h;
    if reply.granted {
      StoreGrant(cfg, h, n, g);
    }
    assert Grows(h, h', {v});
    QuietCommit(cfg, h, h', v, Proc(n, Idle), Proc(n', Idle));
  }

  /** An accepting follower has the leader's whole log and reports no more than that. */
  lemma AcceptCommit(cfg: Config, rules: Rules, h: History, l: NodeId, p: Proc, f: NodeId, n: Node)
    requires HistoryInv(cfg, h) && StoreInv(h)
    requires l < |cfg.peers| && NodeInv(cfg, rules, h, l, p) && NodeCommit(cfg, h, l, p)
    requires p.phase.Beating? && p.phase.peer < |p.node.nextIndex|
    requires f < |cfg.peers| && f != l
    requires NodeInv(cfg, rules, h, f, Proc(n, Idle)) && NodeCommit(cfg, h, f, Proc(n, Idle))
    requires Accepts(n, BuildAppendRequest(p.node, l, p.phase.peer))
    ensures KeepsCommit(cfg, h, AfterStore(h, f, p.node.currentTerm, |p.node.log|), f,
      Proc(HandleAppendEntries(rules, n, BuildAppendRequest(p.node, l, p.phase.peer)).0, Idle))
  {
    hide Won, OneVote, Remembered, Committed, Grows, StoreGrows;
    var t, m := p.node.currentTerm, |p.node.log|;
    var n' := HandleAppendEntries(rules, n, BuildAppendRequest(p.node, l, p.phase.peer)).0;
    var h' := AfterStore(h, f, t, m);
    assert Leading(h, l, p);
    AcceptedLog(h, p.node, l, p.phase.peer, n);
    StoreHeard(cfg, rules, h, l, p, f, n);
    KeepsHeard(cfg, h, f, n, t, n', m);
    CommitHeard(cfg, h, p.node, n, n');
    CommitGrows(cfg, h, h', {f}, n', n');
  }

  lemma RejectCommit(cfg: Config, rules: Rules, h: History, f: NodeId, n: Node, req: AppendRequest)
    requires StoreInv(h) && h.winner.Keys == h.leaderLog.Keys == h.electLog.Keys
    requires f < |cfg.peers| && NodeCommit(cfg, h, f, Proc(n, Idle)) && !Accepts(n, req)
    ensures KeepsCommit(cfg, h, h, f, Proc(HandleAppendEntries(rules, n, req).0, Idle))
  {
    assert Grows(h, h, {f});
    QuietCommit(cfg, h, h, f, Proc(n, Idle), Proc(HandleAppendEntries(rules, n, req).0, Idle));
  }

  /** The match index in a reply is what the follower has stored, unless the heartbeat was
      accepted by a longer log and the code as written reports all of it. */
  lemma ReportedMatch(rules: Rules, h: History, l: Node, self: NodeId, peer: nat, f: Node)
    requires peer < |l.nextIndex| && TermsWithin(f.log, f.currentTerm)
    requires Matched(h, l.log) && Matched(h, f.log)
    requires Accepts(f, BuildAppendRequest(l, self, peer))
    requires rules.checkedMatch || !OverReport(f, BuildAppendRequest(l, self, peer))
    ensures HandleAppendEntries(rules, f, BuildAppendRequest(l, self, peer)).1.matchIndex == |l.log|
  {
  }

  lemma AnsweredLeader(cfg: Config, h: History, h': History, l: NodeId, f: NodeId, p: Proc, reply: AppendReply)
    requires l < |cfg.peers| && StoreInv(h) && NodeCommit(cfg, h, l, p) && l != f
    requires Grows(h, h', {f}) && StoreGrows(h, h', {f})
    requires p.phase.Beating? && p.phase.peer < |cfg.peers[l]| && f == cfg.peers[l][p.phase.peer]
    requires reply.success && p.node.role == Leader ==> AckStored(cfg, h', f, p.node, reply)
    ensures NodeCommit(cfg, h', l, Proc(p.node, Beating(p.phase.peer, Answered(reply))))
  {
    FrameCommit(cfg, h, h', {f}, l, p);
  }

  lemma AppendDelivery(cfg: Config, rules: Rules, h: History, a: Action, p: Proc, f: NodeId, n: Node)
    requires HistoryInv(cfg, h) && StoreInv(h) && a.DeliverAppend? && a.id < |cfg.peers|
    requires NodeInv(cfg, rules, h, a.id, p) && NodeCommit(cfg, h, a.id, p)
    requires p.phase.Beating? && p.phase.peer < |p.node.nextIndex| == |cfg.peers[a.id]|
    requires f == cfg.peers[a.id][p.phase.peer] && f < |cfg.peers| && f != a.id
    requires NodeInv(cfg, rules, h, f, Proc(n, Idle)) && NodeCommit(cfg, h, f, Proc(n, Idle))
    requires rules.checkedMatch || |cfg.peers| <= 4 || !OverReport(n, BuildAppendRequest(p.node, a.id, p.phase.peer))
    ensures var h' := ObserveServe(h, p, f, n, a);
      KeepsCommit(cfg, h, h', f, Proc(Serve(rules, p, n, a).0, Idle))
      && NodeCommit(cfg, h', a.id, Proc(p.node, Serve(rules, p, n, a).1))
  {
    hide StoreInv, NodeCommit, Won, OneVote, Remembered, Grows, StoreGrows;
    var req := BuildAppendRequest(p.node, a.id, p.phase.peer);
    var h' := ObserveServe(h, p, f, n, a);
    var reply := HandleAppendEntries(rules, n, req).1;
    if Accepts(n, req) {
      AcceptCommit(cfg, rules, h, a.id, p, f, n);
      if |cfg.peers| > 4 {
        ReportedMatch(rules, h, p.node, a.id, p.phase.peer, n);
      }
      AddStored(cfg, h, h', f);
    } else {
      RejectCommit(cfg, rules, h, f, n, req);
      GrowsByGrants(h, h', f);
    }
    AnsweredLeader(cfg, h, h', a.id, f, p, reply);
  }

  lemma VoteDelivery(cfg: Config, rules: Rules, h: History, a: Action, p: Proc, f: NodeId, n: Node)
    requires StoreInv(h) && h.winner.Keys == h.leaderLog.Keys == h.electLog.Keys
    requires a.DeliverVote? && a.id < |cfg.peers|
    requires NodeInv(cfg, rules, h, a.id, p) && NodeCommit(cfg, h, a.id, p) && p.phase.Electing?
    requires f < |cfg.peers| && f != a.id && WellFormed(Proc(n, Idle)) && NodeCommit(cfg, h, f, Proc(n, Idle))
    ensures var h' := ObserveServe(h, p, f, n, a);
      KeepsCommit(cfg, h, h', f, Proc(Serve(rules, p, n, a).0, Idle))
      && NodeCommit(cfg, h', a.id, Proc(p.node, Serve(rules, p, n, a).1))
  {
    hide StoreInv, NodeInv, NodeCommit, StoreGrows, WellFormed, Grows;
    var h' := ObserveServe(h, p, f, n, a);
    GrowsByGrants(h, h', f);
    VoteCommit(cfg, rules, h, a.id, p, f, n);
    FrameCommit(cfg, h, h', {f}, a.id, p);
    AnsweredCandidateCommit(cfg, h', a.id, p, HandleRequestVote(n, p.phase.request).1);
  }

  lemma GrowsByGrants(h: History, h': History, v: NodeId)
    requires h.winner.Keys == h.leaderLog.Keys == h.electLog.Keys
    requires h' == h.(grants := h'.grants) && h.grants <= h'.grants
    requires forall g :: g in h'.grants - h.grants ==> g.voter == v
    ensures Grows(h, h', {v})
  {
  }

  lemma AnsweredCandidateCommit(cfg: Config, h: History, c: NodeId, p: Proc, reply: VoteReply)
    requires c < |cfg.peers| && NodeCommit(cfg, h, c, p) && p.phase.Electing?
    ensures NodeCommit(cfg, h, c, p.(phase := p.phase.(vote := Answered(reply))))
  {
  }

  lemma DeliveredCommit(cfg: Config, rules: Rules, h: History, s: State, a: Action)
    requires ValidConfig(cfg) && FullInv(cfg, rules, h, s) && Shape(cfg, s) && Enabled(cfg, s, a)
    requires MatchSafe(cfg, rules, s, a) && IsDelivery(a)
    ensures var h', f := Observe(cfg, rules, h, s, a), Other(cfg, s, a);
      KeepsCommit(cfg, h, h', f, Proc(Serve(rules, s[a.id], s[f].node, a).0, Idle))
      && NodeCommit(cfg, h', a.id, Proc(s[a.id].node, Serve(rules, s[a.id], s[f].node, a).1))
  {
    hide StoreInv, NodeCommit, Won, OneVote, Remembered, Matched, Leading, Running, KeepsCommit, Serve, ObserveServe;
    var f := Other(cfg, s, a);
    assert NodeInv(cfg, rules, h, a.id, s[a.id]) && NodeInv(cfg, rules, h, f, s[f]);
    assert NodeCommit(cfg, h, a.id, s[a.id]) && NodeCommit(cfg, h, f, s[f]);
    assert s[f] == Proc(s[f].node, Idle);
    if a.DeliverVote? {
      VoteDelivery(cfg, rules, h, a, s[a.id], f, s[f].node);
    } else {
      AppendDelivery(cfg, rules, h, a, s[a.id], f, s[f].node);
    }
  }

  lemma TouchedCommit(cfg: Config, rules: Rules, h: History, s: State, a: Action)
    requires ValidConfig(cfg) && FullInv(cfg, rules, h, s) && Shape(cfg, s) && Enabled(cfg, s, a)
    requires MatchSafe(cfg, rules, s, a)
    ensures var h', s', f := Observe(cfg, rules, h, s, a), Next(cfg, rules, s, a), Other(cfg, s, a);
      StoreInv(h') && StoreGrows(h, h', {a.id, f})
      && NodeCommit(cfg, h', a.id, s'[a.id]) && NodeCommit(cfg, h', f, s'[f])
  {
    hide HistoryInv, StoreInv, NodeInv, NodeCommit, StoreGrows, Serve, ObserveServe, Act, ObserveAct;
    var h', f := Observe(cfg, rules, h, s, a), Other(cfg, s, a);
    if IsDelivery(a) {
      DeliveredCommit(cfg, rules, h, s, a);
      StoreGrowsWider(h, h', {f}, {a.id, f});
    } else {
      EnabledIsReady(cfg, s, a);
      ActorCommit(cfg, rules, h, s[a.id], a);
      StoreGrowsWider(h, h', {a.id}, {a.id, f});
    }
  }

  lemma StoreGrowsWider(h: History, h': History, ids: set<NodeId>, more: set<NodeId>)
    requires StoreGrows(h, h', ids) && ids <= more
    ensures StoreGrows(h, h', more)
  {
  }

  lemma UntouchedCommit(cfg: Config, rules: Rules, h: History, h': History, s: State, a: Action, i: NodeId)
    requires Shape(cfg, s) && Enabled(cfg, s, a) && i < |s| && i != a.id && i != Other(cfg, s, a)
    requires NodeCommit(cfg, h, i, s[i]) && StoreInv(h)
    requires Grows(h, h', {a.id, Other(cfg, s, a)}) && StoreGrows(h, h', {a.id, Other(cfg, s, a)})
    ensures NodeCommit(cfg, h', i, Next(cfg, rules, s, a)[i])
  {
    hide StoreInv, NodeCommit, StoreGrows, Grows, Enabled;
    OnlyTwoChange(cfg, rules, s, a, i);
    FrameCommit(cfg, h, h', {a.id, Other(cfg, s, a)}, i, s[i]);
  }

  lemma StepKeepsFull(cfg: Config, rules: Rules, h: History, s: State, a: Action)
    requires ValidConfig(cfg) && FullInv(cfg, rules, h, s)
    requires VoteSafe(cfg, rules, s, a) && MatchSafe(cfg, rules, s, a)
    ensures Shape(cfg, s) && Enabled(cfg, s, a)
    ensures FullInv(cfg, rules, Observe(cfg, rules, h, s, a), Next(cfg, rules, s, a))
    ensures Grows(h, Observe(cfg, rules, h, s, a), {a.id, Other(cfg, s, a)})
    ensures StoreGrows(h, Observe(cfg, rules, h, s, a), {a.id, Other(cfg, s, a)})
  {
    hide HistoryInv, StoreInv, NodeInv, NodeCommit, StoreGrows, Grows, Observe, Next, Other, Enabled, Inv, MatchSafe;
    StepKeepsInv(cfg, rules, h, s, a);
    TouchedCommit(cfg, rules, h, s, a);
    var h', s' := Observe(cfg, rules, h, s, a), Next(cfg, rules, s, a);
    forall i | 0 <= i < |s'| ensures NodeCommit(cfg, h', i, s'[i]) {
      if i != a.id && i != Other(cfg, s, a) {
        UntouchedCommit(cfg, rules, h, h', s, a, i);
      }
    }
  }

  lemma StepAt(cfg: Config, rules: Rules, r: Run, t: nat)
    requires ValidRun(cfg, rules, r) && t < |r.actions|
    ensures ValidStep(cfg, rules, r.states[t], r.actions[t], r.states[t + 1])
    ensures HistoryAt(cfg, rules, r, t + 1)
        == Observe(cfg, rules, HistoryAt(cfg, rules, r, t), r.states[t], r.actions[t])
  {
  }

  lemma StartIsFull(cfg: Config, rules: Rules, r: Run)
    requires ValidConfig(cfg) && ValidRun(cfg, rules, r)
    ensures FullInv(cfg, rules, HistoryAt(cfg, rules, r, 0), r.states[0])
  {
    InitInv(cfg, rules);
  }

  lemma {:induction false} RunKeepsFull(cfg: Config, rules: Rules, r: Run, t: nat)
    requires ValidConfig(cfg) && SafeRun(cfg, rules, r) && t < |r.states|
    ensures FullInv(cfg, rules, HistoryAt(cfg, rules, r, t), r.states[t])
  {
    hide FullInv, VoteSafe, MatchSafe, Grows, StoreGrows, Enabled, Observe, Next, HistoryAt;
    if t == 0 {
      StartIsFull(cfg, rules, r);
    } else {
      RunKeepsFull(cfg, rules, r, t - 1);
      StepAt(cfg, rules, r, t - 1);
      StepKeepsFull(cfg, rules, HistoryAt(cfg, rules, r, t - 1), r.states[t - 1], r.actions[t - 1]);
    }
  }

  /** The records of a run only grow from one state to the next. */
  lemma StepRecord(cfg: Config, rules: Rules, r: Run, t: nat) returns (ids: set<NodeId>)
    requires ValidConfig(cfg) && SafeRun(cfg, rules, r) && t < |r.actions|
    ensures Grows(HistoryAt(cfg, rules, r, t), HistoryAt(cfg, rules, r, t + 1), ids)
    ensures StoreGrows(HistoryAt(cfg, rules, r, t), HistoryAt(cfg, rules, r, t + 1), ids)
  {
    hide FullInv, Grows, StoreGrows, Observe, Next, HistoryAt, Enabled, Shape, VoteSafe, MatchSafe;
    RunKeepsFull(cfg, rules, r, t);
    StepAt(cfg, rules, r, t);
    StepKeepsFull(cfg, rules, HistoryAt(cfg, rules, r, t), r.states[t], r.actions[t]);
    ids := {r.actions[t].id, Other(cfg, r.states[t], r.actions[t])};
  }

  /** What is committed stays committed, and is the same. */
  lemma {:induction false} RecordStays(cfg: Config, rules: Rules, r: Run, t: nat, u: nat, term: nat, k: nat)
    requires ValidConfig(cfg) && SafeRun(cfg, rules, r) && t <= u < |r.states|
    requires Committed(cfg, HistoryAt(cfg, rules, r, t), term, k)
    ensures Committed(cfg, HistoryAt(cfg, rules, r, u), term, k)
    ensures HistoryAt(cfg, rules, r, u).leaderLog[term][..k] == HistoryAt(cfg, rules, r, t).leaderLog[term][..k]
  {
    hide Grows, StoreGrows, HistoryAt, ValidStep, VoteSafe, MatchSafe, Committed;
    CommittedBounds(cfg, HistoryAt(cfg, rules, r, t), term, k);
    if t < u {
      RecordStays(cfg, rules, r, t, u - 1, term, k);
      var ids := StepRecord(cfg, rules, r, u - 1);
      var h, h' := HistoryAt(cfg, rules, r, u - 1), HistoryAt(cfg, rules, r, u);
      CommittedBounds(cfg, h, term, k);
      CommittedGrows(cfg, h, h', ids, term, k);
      CommittedBounds(cfg, h', term, k);
    }
  }

  /** The log with which a leader started stays on record. */
  lemma {:induction false} StartStays(cfg: Config, rules: Rules, r: Run, t: nat, u: nat, term: nat)
    requires ValidConfig(cfg) && SafeRun(cfg, rules, r) && t <= u < |r.states|
    requires term in HistoryAt(cfg, rules, r, t).winner && term in HistoryAt(cfg, rules, r, t).electLog
    ensures term in HistoryAt(cfg, rules, r, u).winner && term in HistoryAt(cfg, rules, r, u).electLog
    ensures HistoryAt(cfg, rules, r, u).electLog[term] == HistoryAt(cfg, rules, r, t).electLog[term]
  {
    hide StoreGrows, HistoryAt, ValidStep, VoteSafe, MatchSafe;
    if t < u {
      StartStays(cfg, rules, r, t, u - 1, term);
      var ids := StepRecord(cfg, rules, r, u - 1);
    }
  }

  /** Leader completeness: whatever a node ever knows to be committed is in the log of every
      leader of every later term, whenever that leader is looked at. */
  lemma LeaderCompleteness(cfg: Config, rules: Rules, r: Run, t: nat, i: NodeId, u: nat, l: NodeId)
    requires ValidConfig(cfg) && SafeRun(cfg, rules, r) && t < |r.states| && u < |r.states|
    requires i < |r.states[t]| && l < |r.states[u]| && r.states[u][l].node.role == Leader
    requires r.states[t][i].node.currentTerm < r.states[u][l].node.currentTerm
    ensures var n, leader := r.states[t][i].node, r.states[u][l].node;
      n.commitIndex <= |n.log| && n.log[..n.commitIndex] <= leader.log
  {
    var w := Max(t, u);
    hide ValidStep, HistoryAt, HistoryInv, StoreInv, Matched, KeepsAll, Tracks, Committed;
    RunKeepsFull(cfg, rules, r, t);
    RunKeepsFull(cfg, rules, r, u);
    RunKeepsFull(cfg, rules, r, w);
    var n, term := r.states[t][i].node, r.states[u][l].node.currentTerm;
    var h, hu := HistoryAt(cfg, rules, r, t), HistoryAt(cfg, rules, r, u);
    CommitRecord(cfg, rules, h, r.states[t], i);
    LeaderRecord(cfg, rules, hu, r.states[u], l);
    hide FullInv;
    if n.commitIndex > 0 {
      var t0: nat, k: nat :| BackedBy(cfg, h, n, t0, k);
      CommittedBounds(cfg, h, t0, k);
      RecordStays(cfg, rules, r, t, w, t0, k);
      StartStays(cfg, rules, r, u, w, term);
      HasIt(cfg, rules, HistoryAt(cfg, rules, r, w), r.states[w], t0, k, term);
      PrefixChain(n.log, n.commitIndex, h.leaderLog[t0], k, hu.electLog[term], r.states[u][l].node.log);
    }
  }

  lemma CommittedBounds(cfg: Config, h: History, t: nat, k: nat)
    requires Committed(cfg, h, t, k)
    ensures t in h.leaderLog && 1 <= k <= |h.leaderLog[t]|
  {
  }

  lemma PrefixChain(a: seq<Entry>, c: nat, b: seq<Entry>, k: nat, d: seq<Entry>, e: seq<Entry>)
    requires c <= |a| && c <= k <= |b| && a[..c] == b[..c] && b[..k] <= d <= e
    ensures a[..c] <= e
  {
  }

  lemma CommitRecord(cfg: Config, rules: Rules, h: History, s: State, i: NodeId)
    requires FullInv(cfg, rules, h, s) && i < |s|
    ensures s[i].node.commitIndex <= |s[i].node.log|
    ensures s[i].node.commitIndex == 0 || exists t: nat, k: nat :: BackedBy(cfg, h, s[i].node, t, k)
  {
  }

  lemma LeaderRecord(cfg: Config, rules: Rules, h: History, s: State, l: NodeId)
    requires FullInv(cfg, rules, h, s) && l < |s| && s[l].node.role == Leader
    ensures var term := s[l].node.currentTerm;
      term in h.winner && h.winner[term] == l && term in h.electLog && h.electLog[term] <= s[l].node.log
  {
  }

  lemma HasIt(cfg: Config, rules: Rules, h: History, s: State, t: nat, k: nat, term: nat)
    requires FullInv(cfg, rules, h, s) && Committed(cfg, h, t, k) && t < term && term in h.winner && term in h.electLog
    ensures h.leaderLog[t][..k] <= h.electLog[term]
  {
    LeaderHas(cfg, h, t, k, term);
  }

  /** Two nodes of one state never disagree on what they know to be committed. */
  lemma CommittedAgree(cfg: Config, rules: Rules, h: History, s: State, i: NodeId, j: NodeId)
    requires FullInv(cfg, rules, h, s) && i < |s| && j < |s|
    ensures var c := Min(s[i].node.commitIndex, s[j].node.commitIndex);
      c <= |s[i].node.log| && c <= |s[j].node.log| && s[i].node.log[..c] == s[j].node.log[..c]
  {
    hide HistoryInv, StoreInv, NodeInv, KeepsAll, Tracks;
    var a, b := s[i].node, s[j].node;
    var c := Min(a.commitIndex, b.commitIndex);
    assert NodeCommit(cfg, h, i, s[i]) && NodeCommit(cfg, h, j, s[j]);
    if c > 0 {
      var ta: nat, ka: nat :| BackedBy(cfg, h, a, ta, ka);
      var tb: nat, kb: nat :| BackedBy(cfg, h, b, tb, kb);
      CommittedPrefixes(cfg, rules, h, s, ta, ka, tb, kb, c);
      assert a.log[..a.commitIndex][..c] == a.log[..c] && b.log[..b.commitIndex][..c] == b.log[..c];
    }
  }

  lemma CommittedPrefixes(cfg: Config, rules: Rules, h: History, s: State, ta: nat, ka: nat, tb: nat, kb: nat, c: nat)
    requires FullInv(cfg, rules, h, s) && Committed(cfg, h, ta, ka) && Committed(cfg, h, tb, kb)
    requires c <= ka && c <= kb
    ensures h.leaderLog[ta][..c] == h.leaderLog[tb][..c]
  {
    assert Won(cfg, h, ta) && Won(cfg, h, tb);
    if ta < tb {
      LeaderHas(cfg, h, ta, ka, tb);
      assert h.leaderLog[ta][..ka] <= h.leaderLog[tb];
      assert h.leaderLog[ta][..c] == h.leaderLog[ta][..ka][..c];
    } else if tb < ta {
      LeaderHas(cfg, h, tb, kb, ta);
      assert h.leaderLog[tb][..kb] <= h.leaderLog[ta];
      assert h.leaderLog[tb][..c] == h.leaderLog[tb][..kb][..c];
    }
  }

  /** State machine safety: the entries that two nodes have applied at an index, at whatever
      times, are the same entry. */
  lemma StateMachineSafety(cfg: Config, rules: Rules, r: Run, t: nat, i: NodeId, u: nat, j: NodeId, x: nat)
    requires ValidConfig(cfg) && SafeRun(cfg, rules, r) && t < |r.states| && u < |r.states|
    requires i < |r.states[t]| && j < |r.states[u]|
    requires x < |r.states[t][i].node.applied| && x < |r.states[u][j].node.applied|
    ensures r.states[t][i].node.applied[x] == r.states[u][j].node.applied[x]
  {
    var w := Max(t, u);
    assert i < |cfg.peers| && j < |cfg.peers| by {
      RunKeepsFull(cfg, rules, r, t);
      RunKeepsFull(cfg, rules, r, u);
    }
    RunIsMonotone(cfg, rules, r, t, w, i);
    RunIsMonotone(cfg, rules, r, u, w, j);
    var h, s := HistoryAt(cfg, rules, r, w), r.states[w];
    RunKeepsFull(cfg, rules, r, w);
    CommittedAgree(cfg, rules, h, s, i, j);
    assert NodeCommit(cfg, h, i, s[i]) && NodeCommit(cfg, h, j, s[j]);
    var c := Min(s[i].node.commitIndex, s[j].node.commitIndex);
    assert s[i].node.log[..c][x] == s[j].node.log[..c][x];
  }

  /** One step of a safe run: the commit index neither falls nor passes the end of the log, and
      no committed entry is touched. Only committed entries have been applied. */
  lemma CommitIsStable(cfg: Config, rules: Rules, r: Run, t: nat, i: NodeId)
    requires ValidConfig(cfg) && SafeRun(cfg, rules, r) && t < |r.actions| && i < |cfg.peers|
    ensures |r.states[t]| == |r.states[t + 1]| == |cfg.peers|
    ensures var n, n' := r.states[t][i].node, r.states[t + 1][i].node;
      && n.commitIndex <= n'.commitIndex && n'.lastApplied <= n'.commitIndex <= |n'.log| && n.commitIndex <= |n.log|
      && n.log[..n.commitIndex] == n'.log[..n.commitIndex]
      && n'.applied == n'.log[..n'.lastApplied]
  {
    hide FullInv, HistoryAt, Observe, Next, HistoryInv, StoreInv, NodeInv, KeepsAll, Tracks;
    RunKeepsFull(cfg, rules, r, t);
    RunKeepsFull(cfg, rules, r, t + 1);
    StepAt(cfg, rules, r, t);
    CommitBounds(cfg, rules, HistoryAt(cfg, rules, r, t), r.states[t], i);
    CommitBounds(cfg, rules, HistoryAt(cfg, rules, r, t + 1), r.states[t + 1], i);
    StepKeepsCommitted(cfg, rules, HistoryAt(cfg, rules, r, t), r.states[t], r.actions[t], i);
  }

  lemma CommitBounds(cfg: Config, rules: Rules, h: History, s: State, i: NodeId)
    requires FullInv(cfg, rules, h, s) && i < |cfg.peers|
    ensures |s| == |cfg.peers| && s[i].node.lastApplied <= s[i].node.commitIndex <= |s[i].node.log|
    ensures s[i].node.applied == s[i].node.log[..s[i].node.lastApplied]
  {
  }

  lemma StepKeepsCommitted(cfg: Config, rules: Rules, h: History, s: State, a: Action, i: NodeId)
    requires FullInv(cfg, rules, h, s) && Shape(cfg, s) && Enabled(cfg, s, a) && i < |s|
    ensures var n, n' := s[i].node, Next(cfg, rules, s, a)[i].node;
      n.commitIndex <= |n.log| && n.commitIndex <= |n'.log| && n.commitIndex <= n'.commitIndex
      && n.log[..n.commitIndex] == n'.log[..n.commitIndex]
  {
    hide FullInv;
    CommitBounds(cfg, rules, h, s, i);
    if i != a.id && i != Other(cfg, s, a) {
      OnlyTwoChange(cfg, rules, s, a, i);
    } else if a.DeliverAppend? && i != a.id {
      HearKeepsCommitted(cfg, rules, h, s, a);
    } else if !IsDelivery(a) {
      ActKeepsLog(s[i], a);
    }
  }

  lemma HearKeepsCommitted(cfg: Config, rules: Rules, h: History, s: State, a: Action)
    requires FullInv(cfg, rules, h, s) && Shape(cfg, s) && Enabled(cfg, s, a) && a.DeliverAppend?
    ensures var f := Other(cfg, s, a);
      var req := BuildAppendRequest(s[a.id].node, a.id, s[a.id].phase.peer);
      var n, n' := s[f].node, HandleAppendEntries(rules, s[f].node, req).0;
      n.commitIndex <= |n.log| && n.commitIndex <= |n'.log| && n.commitIndex <= n'.commitIndex
      && n.log[..n.commitIndex] == n'.log[..n.commitIndex]
  {
    var f := Other(cfg, s, a);
    assert NodeInv(cfg, rules, h, a.id, s[a.id]) && NodeInv(cfg, rules, h, f, s[f]);
    assert NodeCommit(cfg, h, a.id, s[a.id]) && NodeCommit(cfg, h, f, s[f]);
    assert s[f] == Proc(s[f].node, Idle);
    hide HistoryInv, StoreInv, NodeInv, HandleAppendEntries;
    HeardKeepsCommitted(cfg, rules, h, a.id, s[a.id], f, s[f].node);
  }

  lemma ActKeepsLog(p: Proc, a: Action)
    requires CanAct(p, a)
    ensures p.node.log <= Act(p, a).node.log && p.node.commitIndex <= Act(p, a).node.commitIndex
  {
  }

  lemma HeardKeepsCommitted(cfg: Config, rules: Rules, h: History, l: NodeId, p: Proc, f: NodeId, n: Node)
    requires HistoryInv(cfg, h) && StoreInv(h)
    requires l < |cfg.peers| && NodeInv(cfg, rules, h, l, p) && CommitInv(cfg, h, p.node)
    requires p.phase.Beating? && p.phase.peer < |p.node.nextIndex|
    requires f < |cfg.peers| && f != l && NodeInv(cfg, rules, h, f, Proc(n, Idle)) && CommitInv(cfg, h, n)
    ensures var n' := HandleAppendEntries(rules, n, BuildAppendRequest(p.node, l, p.phase.peer)).0;
      n.commitIndex <= |n'.log| && n.commitIndex <= n'.commitIndex && n.log[..n.commitIndex] == n'.log[..n.commitIndex]
  {
    hide StoreInv, Won, OneVote, Remembered;
    assert Leading(h, l, p);
    if Accepts(n, BuildAppendRequest(p.node, l, p.phase.peer)) {
      AcceptedLog(h, p.node, l, p.phase.peer, n);
      CommittedInLeader(cfg, h, n, p.node.currentTerm);
    }
  }
}
