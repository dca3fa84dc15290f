/** A cluster of any number of Raft nodes as a step relation.

    An election (startElection) and a heartbeat round (heartbeatLoop) hold the node's
    state_mutex_ from beginning to end, so a node that runs one is busy and handles no
    request. A call is a rendezvous: the peer handles the request while the sender waits,
    or never; the reply may be lost; anything may happen elsewhere before it is read. */
module RaftCluster {
  import opened Common
  import opened RaftSpec

  /** peers[i] lists, in calling order, the other nodes of node i. */
  datatype Config = Config(peers: seq<seq<NodeId>>)

  ghost predicate ValidConfig(cfg: Config) {
    forall i :: 0 <= i < |cfg.peers| ==> ValidPeers(cfg, i)
  }

  ghost predicate ValidPeers(cfg: Config, i: NodeId)
    requires i < |cfg.peers|
  {
    && |cfg.peers[i]| + 1 == |cfg.peers|
    && Distinct(cfg.peers[i])
    && forall k :: 0 <= k < |cfg.peers[i]| ==> cfg.peers[i][k] < |cfg.peers| && cfg.peers[i][k] != i
  }

  datatype Call<+R> = Waiting | Answered(reply: R)

  /** What the lock holder of a node is doing. `peer` is the position in the peer list of
      the call in progress; it is past the end when the loop is over. */
  datatype Phase =
    | Idle
    | Electing(request: VoteRequest, peer: nat, votes: nat, vote: Call<VoteReply>)
    | Beating(peer: nat, ack: Call<AppendReply>)

  datatype Proc = Proc(node: Node, phase: Phase)

  type State = seq<Proc>

  datatype Action =
    | StartElection(id: NodeId)
    | DeliverVote(id: NodeId)
    | CollectVote(id: NodeId)
    | LoseVote(id: NodeId)
    | FinishElection(id: NodeId)
    | StartRound(id: NodeId)
    | DeliverAppend(id: NodeId)
    | CollectAppend(id: NodeId)
    | LoseAppend(id: NodeId)
    | FinishRound(id: NodeId)
    | Propose(id: NodeId, operation: string, data: string)
    | Apply(id: NodeId)

  predicate Shape(cfg: Config, s: State) {
    && |s| == |cfg.peers|
    && forall i :: 0 <= i < |s| ==>
         |s[i].node.nextIndex| == |cfg.peers[i]| && |s[i].node.matchIndex| == |cfg.peers[i]|
  }

  function Init(cfg: Config): (s: State)
    ensures Shape(cfg, s)
  {
    seq(|cfg.peers|, i requires 0 <= i < |cfg.peers| => Proc(NewNode(|cfg.peers[i]|), Idle))
  }

  /** The node that the caller's current call goes to. */
  function Target(cfg: Config, id: NodeId, peer: nat): NodeId
    requires id < |cfg.peers| && peer < |cfg.peers[id]|
  {
    cfg.peers[id][peer]
  }

  predicate Enabled(cfg: Config, s: State, a: Action)
    requires Shape(cfg, s)
  {
    && a.id < |s|
    && var n, ph := s[a.id].node, s[a.id].phase;
      match a
      case StartElection(_) => ph.Idle? && n.role != Leader
      case DeliverVote(_) =>
        && ph.Electing? && ph.peer < |cfg.peers[a.id]| && ph.vote.Waiting?
        && var p := Target(cfg, a.id, ph.peer); p != a.id && p < |s| && s[p].phase.Idle?
      case CollectVote(_) => ph.Electing? && ph.peer < |cfg.peers[a.id]| && ph.vote.Answered?
      case LoseVote(_) => ph.Electing? && ph.peer < |cfg.peers[a.id]|
      case FinishElection(_) => ph.Electing? && ph.peer == |cfg.peers[a.id]|
      case StartRound(_) => ph.Idle? && n.role == Leader
      case DeliverAppend(_) =>
        && ph.Beating? && ph.peer < |cfg.peers[a.id]| && ph.ack.Waiting?
        && var p := Target(cfg, a.id, ph.peer); p != a.id && p < |s| && s[p].phase.Idle?
      case CollectAppend(_) => ph.Beating? && ph.peer < |cfg.peers[a.id]| && ph.ack.Answered?
      case LoseAppend(_) => ph.Beating? && ph.peer < |cfg.peers[a.id]|
      case FinishRound(_) => ph.Beating? && ph.peer == |cfg.peers[a.id]|
      case Propose(_, _, _) => ph.Idle?
      case Apply(_) => true
  }

  predicate IsDelivery(a: Action) {
    a.DeliverVote? || a.DeliverAppend?
  }

  /** The node that serves a delivered call; for every other action, the actor itself. */
  function Other(cfg: Config, s: State, a: Action): (p: NodeId)
    requires Shape(cfg, s) && Enabled(cfg, s, a)
    ensures p < |s| && (IsDelivery(a) ==> p != a.id && s[p].phase == Idle)
  {
    if IsDelivery(a) then Target(cfg, a.id, s[a.id].phase.peer) else a.id
  }

  /** A vote request or an append request served by an idle node. */
  function Serve(rules: Rules, caller: Proc, f: Node, a: Action): (Node, Phase)
    requires a.DeliverVote? ==> caller.phase.Electing?
    requires a.DeliverAppend? ==> caller.phase.Beating? && caller.phase.peer < |caller.node.nextIndex|
    requires IsDelivery(a)
  {
    if a.DeliverVote? then
      var (voter, reply) := HandleRequestVote(f, caller.phase.request);
      (voter, caller.phase.(vote := Answered(reply)))
    else
      var (follower, reply) := HandleAppendEntries(rules, f, BuildAppendRequest(caller.node, a.id, caller.phase.peer));
      (follower, Beating(caller.phase.peer, Answered(reply)))
  }

  /** The actor's side of Enabled, for a node with the given number of peers. */
  predicate Ready(peers: nat, p: Proc, a: Action) {
    && |p.node.nextIndex| == peers && |p.node.matchIndex| == peers && CanAct(p, a)
    && match a
       case StartElection(_) => p.phase.Idle? && p.node.role != Leader
       case CollectVote(_) => p.phase.peer < peers
       case LoseVote(_) => p.phase.peer < peers
       case StartRound(_) => p.phase.Idle? && p.node.role == Leader
       case FinishRound(_) => p.phase.Beating?
       case Propose(_, _, _) => p.phase.Idle?
       case _ => true
  }

  predicate CanAct(p: Proc, a: Action) {
    match a
    case StartElection(_) => true
    case CollectVote(_) => p.phase.Electing? && p.phase.vote.Answered?
    case LoseVote(_) => p.phase.Electing?
    case FinishElection(_) => p.phase.Electing?
    case CollectAppend(_) =>
      p.phase.Beating? && p.phase.ack.Answered? && p.phase.peer < |p.node.nextIndex| == |p.node.matchIndex|
    case LoseAppend(_) => p.phase.Beating?
    case _ => !IsDelivery(a)
  }

  /** The actor of a step that involves no other node. */
  function Act(p: Proc, a: Action): Proc
    requires CanAct(p, a)
  {
    var n, ph := p.node, p.phase;
    match a
    case StartElection(id) =>
      var c := RaftSpec.StartElection(n, id);
      Proc(c, Electing(BuildVoteRequest(c, id), 0, 1, Waiting))
    case CollectVote(id) =>
      if ph.vote.reply.term > n.currentTerm then
        Proc(BecomeFollower(n, ph.vote.reply.term, None), Idle)
      else
        Proc(n, Electing(ph.request, ph.peer + 1, ph.votes + (if ph.vote.reply.granted then 1 else 0), Waiting))
    case LoseVote(id) => Proc(n, Electing(ph.request, ph.peer + 1, ph.votes, Waiting))
    case FinishElection(id) => Proc(RaftSpec.FinishElection(n, id, ph.votes), Idle)
    case StartRound(id) => Proc(n, Beating(0, Waiting))
    case CollectAppend(id) =>
      Proc(HandleAppendReply(n, ph.peer, ph.ack.reply),
           if ph.ack.reply.term > n.currentTerm then Idle else Beating(ph.peer + 1, Waiting))
    case LoseAppend(id) => Proc(n, Beating(ph.peer + 1, Waiting))
    case FinishRound(id) => Proc(n, Idle)
    case Propose(id, operation, data) => Proc(RaftSpec.Propose(n, operation, data), ph)
    case Apply(id) => Proc(ApplyCommitted(n), ph)
  }

  function Next(cfg: Config, rules: Rules, s: State, a: Action): (s': State)
    requires Shape(cfg, s) && Enabled(cfg, s, a)
    ensures Shape(cfg, s')
  {
    if IsDelivery(a) then
      var p := Other(cfg, s, a);
      var (served, waiting) := Serve(rules, s[a.id], s[p].node, a);
      s[p := Proc(served, Idle)][a.id := Proc(s[a.id].node, waiting)]
    else
      s[a.id := Act(s[a.id], a)]
  }

  lemma EnabledIsReady(cfg: Config, s: State, a: Action)
    requires Shape(cfg, s) && Enabled(cfg, s, a) && !IsDelivery(a)
    ensures Ready(|cfg.peers[a.id]|, s[a.id], a)
  {
  }

  lemma OnlyTwoChange(cfg: Config, rules: Rules, s: State, a: Action, i: NodeId)
    requires Shape(cfg, s) && Enabled(cfg, s, a)
    requires i < |s| && i != a.id && i != Other(cfg, s, a)
    ensures Next(cfg, rules, s, a)[i] == s[i]
  {
  }

  // --------------------------------------------------------------------- runs

  datatype Run = Run(states: seq<State>, actions: seq<Action>)

  ghost predicate ValidRun(cfg: Config, rules: Rules, r: Run) {
    && |r.states| == |r.actions| + 1
    && r.states[0] == Init(cfg)
    && forall i :: 0 <= i < |r.actions| ==> ValidStep(cfg, rules, r.states[i], r.actions[i], r.states[i + 1])
  }

  ghost predicate ValidStep(cfg: Config, rules: Rules, s: State, a: Action, s': State) {
    Shape(cfg, s) && Enabled(cfg, s, a) && s' == Next(cfg, rules, s, a)
  }

  /** A RequestVote of the current term reaches a node that has no vote recorded but knows
      a leader of that term: the branch in which a vote may have been forgotten. */
  predicate RevoteRisk(n: Node, req: VoteRequest) {
    req.term == n.currentTerm && n.votedFor == None && n.leaderId.Some?
  }

  /** A heartbeat without entries is accepted by a log that is longer than what it checked. */
  predicate OverReport(n: Node, req: AppendRequest) {
    Accepts(n, req) && req.entries == [] && req.prevLogIndex < |n.log|
  }

  ghost predicate VoteSafe(cfg: Config, rules: Rules, s: State, a: Action) {
    && Shape(cfg, s) && Enabled(cfg, s, a)
    && (rules.keepVote || |cfg.peers| <= 2
        || (a.DeliverVote? ==> !RevoteRisk(s[Other(cfg, s, a)].node, s[a.id].phase.request)))
  }

  ghost predicate MatchSafe(cfg: Config, rules: Rules, s: State, a: Action) {
    && Shape(cfg, s) && Enabled(cfg, s, a)
    && (rules.checkedMatch || |cfg.peers| <= 4 || (a.DeliverAppend? ==>
          !OverReport(s[Other(cfg, s, a)].node, BuildAppendRequest(s[a.id].node, a.id, s[a.id].phase.peer))))
  }

  ghost predicate VoteSafeRun(cfg: Config, rules: Rules, r: Run) {
    && ValidRun(cfg, rules, r)
    && forall i :: 0 <= i < |r.actions| ==> VoteSafe(cfg, rules, r.states[i], r.actions[i])
  }

  ghost predicate SafeRun(cfg: Config, rules: Rules, r: Run) {
    && VoteSafeRun(cfg, rules, r)
    && forall i :: 0 <= i < |r.actions| ==> MatchSafe(cfg, rules, r.states[i], r.actions[i])
  }
}
