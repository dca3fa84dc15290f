/** History variables of a run: who voted for whom, who won which term, what each leader's
    log was, and how much of it each node has stored. They observe the run and never
    influence it; every theorem about a run is stated without them. */
module RaftHistory {
  import opened Common
  import opened RaftSpec
  import opened RaftCluster
  import opened RaftLog

  /** `voter` granted its vote in `term` to `candidate`, whose log was `log`. */
  datatype Grant = Grant(voter: NodeId, term: nat, candidate: NodeId, log: seq<Entry>)

  datatype History = History(
    grants: set<Grant>,
    over: set<(NodeId, nat)>,              // candidacies that ended without winning
    winner: map<nat, NodeId>,
    electLog: map<nat, seq<Entry>>,        // the winner's log when it won
    leaderLog: map<nat, seq<Entry>>,       // the winner's log now, or when it stopped leading
    stored: map<(NodeId, nat), nat>)       // how much of that log a node has held in that term

  const NO_HISTORY := History({}, {}, map[], map[], map[], map[])

  function Stored(h: History, v: NodeId, term: nat): nat {
    if (v, term) in h.stored then h.stored[(v, term)] else 0
  }

  /** What is observed of a step that involves no other node. */
  ghost function ObserveAct(h: History, p: Proc, a: Action): History
    requires CanAct(p, a)
  {
    var n, ph := p.node, p.phase;
    match a
    case StartElection(id) =>
      h.(grants := h.grants + {Grant(id, n.currentTerm + 1, id, n.log)})
    case CollectVote(id) =>
      if ph.vote.reply.term > n.currentTerm then h.(over := h.over + {(id, n.currentTerm)}) else h
    case FinishElection(id) =>
      if ph.votes >= Majority(|n.matchIndex|) then
        h.(winner := h.winner[n.currentTerm := id],
           electLog := h.electLog[n.currentTerm := n.log],
           leaderLog := h.leaderLog[n.currentTerm := n.log],
           stored := h.stored[(id, n.currentTerm) := |n.log|])
      else h.(over := h.over + {(id, n.currentTerm)})
    case Propose(id, operation, data) =>
      var n' := RaftSpec.Propose(n, operation, data);
      if n.role == Leader then
        h.(leaderLog := h.leaderLog[n.currentTerm := n'.log],
           stored := h.stored[(id, n.currentTerm) := |n'.log|])
      else h
    case _ => h
  }

  /** What is observed of a call that node v, in state f, serves. */
  ghost function ObserveServe(h: History, caller: Proc, v: NodeId, f: Node, a: Action): History
    requires a.DeliverVote? ==> caller.phase.Electing?
    requires a.DeliverAppend? ==> caller.phase.Beating? && caller.phase.peer < |caller.node.nextIndex|
    requires IsDelivery(a)
  {
    var n, ph := caller.node, caller.phase;
    if a.DeliverVote? then
      if HandleRequestVote(f, ph.request).1.granted then
        h.(grants := h.grants + {Grant(v, ph.request.term, a.id, n.log)})
      else h
    else
      if Accepts(f, BuildAppendRequest(n, a.id, ph.peer)) then
        h.(stored := h.stored[(v, n.currentTerm) := |n.log|])
      else h
  }

  ghost function Observe(cfg: Config, rules: Rules, h: History, s: State, a: Action): History
    requires Shape(cfg, s) && Enabled(cfg, s, a)
  {
    if IsDelivery(a) then ObserveServe(h, s[a.id], Other(cfg, s, a), s[Other(cfg, s, a)].node, a)
    else ObserveAct(h, s[a.id], a)
  }

  ghost function HistoryAt(cfg: Config, rules: Rules, r: Run, t: nat): History
    requires ValidRun(cfg, rules, r) && t < |r.states|
  {
    if t == 0 then NO_HISTORY
    else
      assert ValidStep(cfg, rules, r.states[t - 1], r.actions[t - 1], r.states[t]);
      Observe(cfg, rules, HistoryAt(cfg, rules, r, t - 1), r.states[t - 1], r.actions[t - 1])
  }

  ghost predicate Quorum(cfg: Config, q: set<NodeId>) {
    q <= Below(|cfg.peers|) && 2 * |q| > |cfg.peers|
  }

  /** A set large enough to meet every quorum. */
  ghost predicate Covers(cfg: Config, q: set<NodeId>) {
    q <= Below(|cfg.peers|) && 2 * |q| >= |cfg.peers|
  }

  /** Every node in q granted its vote in this term to this candidate with this log. */
  ghost predicate Backed(h: History, q: set<NodeId>, term: nat, c: NodeId, log: seq<Entry>) {
    forall v :: v in q ==> Grant(v, term, c, log) in h.grants
  }

  /** The log is made of pieces of leaders' logs: up to any position it agrees with the log
      of the leader in whose term the entry there was created. */
  ghost predicate Matched(h: History, log: seq<Entry>) {
    forall k :: 0 <= k < |log| ==> log[k].term in h.leaderLog && log[..k + 1] <= h.leaderLog[log[k].term]
  }

  /** Histories only grow; what they say about nodes outside ids stays as it is. */
  ghost predicate Grows(h: History, h': History, ids: set<NodeId>) {
    && h.winner.Keys == h.leaderLog.Keys == h.electLog.Keys
    && h'.winner.Keys == h'.leaderLog.Keys == h'.electLog.Keys
    && (forall t :: t in h.winner ==> t in h'.winner && h'.winner[t] == h.winner[t] && h'.electLog[t] == h.electLog[t])
    && (forall t :: t in h.leaderLog ==> t in h'.leaderLog && h.leaderLog[t] <= h'.leaderLog[t])
    && (forall t :: t in h.leaderLog && h.winner[t] !in ids ==> h'.leaderLog[t] == h.leaderLog[t])
    && (forall t :: t in h'.winner && t !in h.winner ==> h'.winner[t] in ids)
    && h.grants <= h'.grants && (forall g :: g in h'.grants - h.grants ==> g.voter in ids)
    && h.over <= h'.over && (forall o :: o in h'.over - h.over ==> o.0 in ids)
  }

  lemma MatchedGrows(h: History, h': History, ids: set<NodeId>, log: seq<Entry>)
    requires Grows(h, h', ids) && Matched(h, log)
    ensures Matched(h', log)
  {
  }

  /** Two matched logs with entries of one term at one position agree up to there. */
  lemma MatchedAgree(h: History, a: seq<Entry>, b: seq<Entry>, k: nat)
    requires Matched(h, a) && Matched(h, b)
    requires 0 < k <= |a| && k <= |b| && a[k - 1].term == b[k - 1].term
    ensures a[..k] == b[..k]
  {
  }

  lemma MatchedSnoc(h: History, log: seq<Entry>, e: Entry)
    requires Matched(h, log) && e.term in h.leaderLog && log + [e] <= h.leaderLog[e.term]
    ensures Matched(h, log + [e])
  {
  }
}
