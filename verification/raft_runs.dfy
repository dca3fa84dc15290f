/** Building runs of a cluster of any size: elections and heartbeat rounds in which a chosen set
    of nodes answers and every other call is lost. */
module RaftRuns {
  import opened Common
  import opened RaftSpec
  import opened RaftCluster
  import opened RaftCommitSteps

  ghost predicate At(cfg: Config, rules: Rules, r: Run, s: State) {
    ValidConfig(cfg) && ValidRun(cfg, rules, r) && r.states[|r.actions|] == s && Shape(cfg, s)
  }

  lemma Begin(cfg: Config, rules: Rules) returns (r: Run, s: State)
    requires ValidConfig(cfg)
    ensures At(cfg, rules, r, s) && |s| == |cfg.peers| && s == Init(cfg)
  {
    s := Init(cfg);
    r := Run([s], []);
  }

  lemma Do(cfg: Config, rules: Rules, r: Run, s: State, a: Action) returns (r': Run, s': State)
    requires At(cfg, rules, r, s) && Enabled(cfg, s, a)
    ensures At(cfg, rules, r', s') && |s'| == |s| == |cfg.peers| && s' == Next(cfg, rules, s, a)
  {
    hide Enabled, Next;
    s' := Next(cfg, rules, s, a);
    r' := Run(r.states + [s'], r.actions + [a]);
    forall i | 0 <= i < |r'.actions| ensures ValidStep(cfg, rules, r'.states[i], r'.actions[i], r'.states[i + 1]) {
      if i < |r.actions| {
        assert ValidStep(cfg, rules, r.states[i], r.actions[i], r.states[i + 1]);
      }
    }
  }

  function Rest(n: Node): Proc {
    Proc(n, Idle)
  }

  // ----------------------------------------------------------------- elections

  predicate Grants(n: Node, req: VoteRequest) {
    HandleRequestVote(n, req).1.granted
  }

  /** c is about to call its k-th peer, or is through with them. */
  predicate Asking(cfg: Config, s: State, c: NodeId, k: nat) {
    && c < |s| == |cfg.peers| && s[c].phase.Electing? && s[c].phase.vote == Waiting
    && s[c].phase.peer == k <= |cfg.peers[c]|
    && s[c].phase.request.term == s[c].node.currentTerm
  }

  function Counted(p: Proc, votes: nat): Proc
    requires p.phase.Electing?
  {
    Proc(p.node, Electing(p.phase.request, p.phase.peer + 1, votes, Waiting))
  }

  /** The next peer grants its vote. */
  lemma AskVote(cfg: Config, rules: Rules, r: Run, s: State, c: NodeId, k: nat) returns (r': Run, s': State)
    requires At(cfg, rules, r, s) && Asking(cfg, s, c, k) && k < |cfg.peers[c]|
    requires var p := cfg.peers[c][k]; p < |s| && p != c && s[p].phase.Idle? && Grants(s[p].node, s[c].phase.request)
    ensures At(cfg, rules, r', s') && |s'| == |s| == |cfg.peers|
    ensures var p := cfg.peers[c][k];
      s' == s[p := Rest(HandleRequestVote(s[p].node, s[c].phase.request).0)][c := Counted(s[c], s[c].phase.votes + 1)]
  {
    r', s' := Do(cfg, rules, r, s, DeliverVote(c));
    r', s' := Do(cfg, rules, r', s', CollectVote(c));
  }

  lemma LosesVote(cfg: Config, rules: Rules, r: Run, s: State, c: NodeId, k: nat) returns (r': Run, s': State)
    requires At(cfg, rules, r, s) && Asking(cfg, s, c, k) && k < |cfg.peers[c]|
    ensures At(cfg, rules, r', s') && |s'| == |s| == |cfg.peers| && s' == s[c := Counted(s[c], s[c].phase.votes)]
  {
    r', s' := Do(cfg, rules, r, s, LoseVote(c));
  }

  ghost predicate Ahead(cfg: Config, i: NodeId, k: nat, who: set<NodeId>)
    requires i < |cfg.peers| && k <= |cfg.peers[i]|
  {
    forall v :: v in who ==> v in cfg.peers[i][k..] && v < |cfg.peers| && v != i
  }

  /** The candidate asks the peers that are left; those in `who` grant, the other calls are lost. */
  lemma {:induction false} Poll(cfg: Config, rules: Rules, r: Run, s: State, c: NodeId, k: nat, who: set<NodeId>)
    returns (r': Run, s': State)
    requires At(cfg, rules, r, s) && Asking(cfg, s, c, k) && Ahead(cfg, c, k, who)
    requires forall v :: v in who ==> s[v].phase.Idle? && Grants(s[v].node, s[c].phase.request)
    ensures At(cfg, rules, r', s') && |s'| == |s| == |cfg.peers| && Asking(cfg, s', c, |cfg.peers[c]|)
    ensures s'[c].node == s[c].node && s'[c].phase.votes == s[c].phase.votes + |who|
    ensures forall v :: v in who ==> s'[v] == Rest(HandleRequestVote(s[v].node, s[c].phase.request).0)
    ensures forall v :: 0 <= v < |s| && v != c && v !in who ==> s'[v] == s[v]
    decreases |cfg.peers[c]| - k
  {
    hide Grants, HandleRequestVote, ValidRun, Shape;
    if k == |cfg.peers[c]| {
      assert who == {};
      r', s' := r, s;
    } else {
      var p, rest := cfg.peers[c][k], who;
      assert cfg.peers[c][k..] == [p] + cfg.peers[c][k + 1..];
      if p in who {
        rest := who - {p};
        r', s' := AskVote(cfg, rules, r, s, c, k);
      } else {
        r', s' := LosesVote(cfg, rules, r, s, c, k);
      }
      r', s' := Poll(cfg, rules, r', s', c, k + 1, rest);
    }
  }

  /** Every node but i itself is one of i's peers. */
  lemma AllArePeers(cfg: Config, i: NodeId, v: NodeId)
    requires ValidConfig(cfg) && i < |cfg.peers| && v < |cfg.peers| && v != i
    ensures v in cfg.peers[i]
  {
    var peers, n := cfg.peers[i], |cfg.peers|;
    assert ValidPeers(cfg, i);
    var named := set x | x in peers;
    DistinctSize(peers);
    assert named <= Below(n) - {i};
    assert |Below(n) - {i}| == n - 1;
    SubsetSize(named, Below(n) - {i});
    if v !in named {
      SubsetSize(named, Below(n) - {i} - {v});
      assert false;
    }
  }

  lemma AheadAtFirst(cfg: Config, i: NodeId, who: set<NodeId>)
    requires ValidConfig(cfg) && i < |cfg.peers|
    requires forall v :: v in who ==> v < |cfg.peers| && v != i
    ensures Ahead(cfg, i, 0, who)
  {
    assert cfg.peers[i][0..] == cfg.peers[i];
    forall v | v in who ensures v in cfg.peers[i] {
      AllArePeers(cfg, i, v);
    }
  }

  /** A candidacy under way ends in leadership by the votes of `who`. */
  lemma Win(cfg: Config, rules: Rules, r: Run, s: State, c: NodeId, who: set<NodeId>) returns (r': Run, s': State)
    requires At(cfg, rules, r, s) && Asking(cfg, s, c, 0) && s[c].phase.votes == 1
    requires forall v :: v in who ==> v < |s| && v != c && s[v].phase.Idle? && Grants(s[v].node, s[c].phase.request)
    requires 1 + |who| >= Majority(|cfg.peers| - 1)
    ensures At(cfg, rules, r', s') && |s'| == |s| == |cfg.peers| && s'[c] == Rest(BecomeLeader(s[c].node, c))
    ensures forall v :: v in who ==> s'[v] == Rest(HandleRequestVote(s[v].node, s[c].phase.request).0)
    ensures forall v :: 0 <= v < |s| && v != c && v !in who ==> s'[v] == s[v]
  {
    hide Grants, HandleRequestVote;
    assert ValidPeers(cfg, c);
    AheadAtFirst(cfg, c, who);
    r', s' := Poll(cfg, rules, r, s, c, 0, who);
    r', s' := Do(cfg, rules, r', s', FinishElection(c));
  }

  lemma Stand(cfg: Config, rules: Rules, r: Run, s: State, c: NodeId) returns (r': Run, s': State)
    requires At(cfg, rules, r, s) && c < |s| && s[c].phase.Idle? && s[c].node.role != Leader
    ensures At(cfg, rules, r', s') && |s'| == |s| == |cfg.peers| && Asking(cfg, s', c, 0) && s'[c].phase.votes == 1
    ensures s'[c].node == RaftSpec.StartElection(s[c].node, c)
    ensures s'[c].phase.request == BuildVoteRequest(s'[c].node, c)
    ensures forall v :: 0 <= v < |s| && v != c ==> s'[v] == s[v]
  {
    r', s' := Do(cfg, rules, r, s, Action.StartElection(c));
  }

  // -------------------------------------------------------------------- rounds

  predicate Leads(cfg: Config, s: State, l: NodeId, k: nat) {
    l < |s| == |cfg.peers| && s[l].node.role == Leader && s[l].phase == Beating(k, Waiting) && k <= |cfg.peers[l]|
    && |s[l].node.nextIndex| == |s[l].node.matchIndex| == |cfg.peers[l]|
  }

  /** What a call changes about the leader: the index pair of that peer, and the commit index. */
  predicate SameLeader(n: Node, n': Node) {
    n' == n.(nextIndex := n'.nextIndex, matchIndex := n'.matchIndex, commitIndex := n'.commitIndex)
    && |n'.nextIndex| == |n.nextIndex| && |n'.matchIndex| == |n.matchIndex|
  }

  /** What an accepting follower reports. */
  function Reported(rules: Rules, leader: seq<Entry>, follower: seq<Entry>): nat {
    if leader == [] && !rules.checkedMatch then |follower| else |leader|
  }

  /** An accepting follower f after a call by a leader of this term and log. */
  predicate Accepted(rules: Rules, term: nat, log: seq<Entry>, f: Node, p: Proc) {
    && p.phase.Idle? && p.node.role == Follower && p.node.currentTerm == term
    && p.node.log == (if log == [] then f.log else log)
    && (rules.keepVote || p.node.votedFor == None)
    && p.node.applied == f.applied && p.node.lastApplied == f.lastApplied
  }

  /** One call to a peer whose next index is 1. */
  lemma OneAccepts(rules: Rules, n: Node, l: NodeId, j: nat, f: Node)
    requires j < |n.nextIndex| == |n.matchIndex| && n.nextIndex[j] == 1
    requires n.role == Leader && f.currentTerm <= n.currentTerm
    ensures var (f', reply) := HandleAppendEntries(rules, f, BuildAppendRequest(n, l, j));
      var n' := HandleAppendReply(n, j, reply); var m := Reported(rules, n.log, f.log);
      && Accepted(rules, n.currentTerm, n.log, f, Rest(f')) && reply.term <= n.currentTerm && SameLeader(n, n')
      && n'.nextIndex == n.nextIndex[j := m + 1] && n'.matchIndex == n.matchIndex[j := m]
      && (Committable(n', |n.log|) ==> n'.commitIndex >= |n.log|)
  {
    var req := BuildAppendRequest(n, l, j);
    assert req.entries == n.log && NewLog(f.log, req) == if n.log == [] then f.log else n.log;
  }

  /** One call to a peer whose next index is 2 and whose log does not fit. */
  lemma OneRejects(rules: Rules, n: Node, l: NodeId, j: nat, f: Node)
    requires j < |n.nextIndex| == |n.matchIndex| && n.nextIndex[j] == 2
    requires n.role == Leader && f.currentTerm <= n.currentTerm && n.log != []
    requires f.log == [] || f.log[0].term != n.log[0].term
    ensures var (f', reply) := HandleAppendEntries(rules, f, BuildAppendRequest(n, l, j));
      var n' := HandleAppendReply(n, j, reply);
      && reply.term <= n.currentTerm && f'.currentTerm == n.currentTerm && f'.log == f.log
      && n' == n.(nextIndex := n.nextIndex[j := 1])
  {
  }

  lemma AskAppend(cfg: Config, rules: Rules, r: Run, s: State, l: NodeId, k: nat) returns (r': Run, s': State)
    requires At(cfg, rules, r, s) && Leads(cfg, s, l, k) && k < |cfg.peers[l]|
    requires var p := cfg.peers[l][k]; p < |s| && p != l && s[p].phase.Idle?
    requires HandleAppendEntries(rules, s[cfg.peers[l][k]].node, BuildAppendRequest(s[l].node, l, k)).1.term
          <= s[l].node.currentTerm
    ensures At(cfg, rules, r', s') && |s'| == |s| == |cfg.peers|
    ensures var p := cfg.peers[l][k];
      var (f, reply) := HandleAppendEntries(rules, s[p].node, BuildAppendRequest(s[l].node, l, k));
      s' == s[p := Rest(f)][l := Proc(HandleAppendReply(s[l].node, k, reply), Beating(k + 1, Waiting))]
  {
    hide HandleAppendEntries, HandleAppendReply, BuildAppendRequest;
    r', s' := Do(cfg, rules, r, s, DeliverAppend(l));
    r', s' := Do(cfg, rules, r', s', CollectAppend(l));
  }

  lemma LosesAppend(cfg: Config, rules: Rules, r: Run, s: State, l: NodeId, k: nat) returns (r': Run, s': State)
    requires At(cfg, rules, r, s) && Leads(cfg, s, l, k) && k < |cfg.peers[l]|
    ensures At(cfg, rules, r', s') && |s'| == |s| == |cfg.peers|
    ensures s' == s[l := Proc(s[l].node, Beating(k + 1, Waiting))]
  {
    r', s' := Do(cfg, rules, r, s, LoseAppend(l));
  }

  /** The node behind l's j-th peer, if the round from peer k on reaches it. */
  function Reached(cfg: Config, s: State, l: NodeId, k: nat, who: set<NodeId>, j: nat): Option<Node>
    requires l < |cfg.peers| && j < |cfg.peers[l]|
  {
    var v := cfg.peers[l][j];
    if j >= k && v in who && v < |s| then Some(s[v].node) else None
  }

  /** What a leader has booked on its j-th peer after a round that reached that peer, or not. */
  predicate Indexed(rules: Rules, n: Node, n': Node, j: nat, reached: Option<Node>) {
    j < |n.nextIndex| == |n.matchIndex| == |n'.nextIndex| == |n'.matchIndex|
    && match reached
       case Some(f) =>
         n'.matchIndex[j] == Reported(rules, n.log, f.log) && n'.nextIndex[j] as int == n'.matchIndex[j] + 1
       case None => n'.matchIndex[j] == n.matchIndex[j] && n'.nextIndex[j] == n.nextIndex[j]
  }

  ghost predicate Booked(cfg: Config, rules: Rules, s: State, n': Node, l: NodeId, k: nat, who: set<NodeId>)
    requires l < |cfg.peers| && l < |s|
  {
    forall j :: 0 <= j < |cfg.peers[l]| ==> Indexed(rules, s[l].node, n', j, Reached(cfg, s, l, k, who, j))
  }

  lemma NothingBooked(cfg: Config, rules: Rules, s: State, l: NodeId, k: nat)
    requires l < |cfg.peers| && l < |s| && |s[l].node.nextIndex| == |s[l].node.matchIndex| == |cfg.peers[l]|
    ensures Booked(cfg, rules, s, s[l].node, l, k, {})
  {
  }

  /** What is booked after the call to peer k and the calls that follow it. */
  lemma BookedOn(cfg: Config, rules: Rules, s: State, m: State, n': Node, l: NodeId, k: nat, who: set<NodeId>,
                 rest: set<NodeId>)
    requires ValidConfig(cfg) && l < |cfg.peers| && k < |cfg.peers[l]| && l < |s| == |m|
    requires Booked(cfg, rules, m, n', l, k + 1, rest)
    requires |s[l].node.nextIndex| == |s[l].node.matchIndex| == |cfg.peers[l]| && m[l].node.log == s[l].node.log
    requires |m[l].node.nextIndex| == |m[l].node.matchIndex| == |cfg.peers[l]|
    requires rest == who - {cfg.peers[l][k]}
    requires forall v :: 0 <= v < |s| && v != l && v != cfg.peers[l][k] ==> m[v] == s[v]
    requires forall j :: 0 <= j < |cfg.peers[l]| && j != k ==>
      m[l].node.nextIndex[j] == s[l].node.nextIndex[j] && m[l].node.matchIndex[j] == s[l].node.matchIndex[j]
    requires Indexed(rules, s[l].node, m[l].node, k, Reached(cfg, s, l, k, who, k))
    ensures Booked(cfg, rules, s, n', l, k, who)
  {
    hide Reported;
    assert ValidPeers(cfg, l);
    forall j | 0 <= j < |cfg.peers[l]| ensures Indexed(rules, s[l].node, n', j, Reached(cfg, s, l, k, who, j)) {
      assert Indexed(rules, m[l].node, n', j, Reached(cfg, m, l, k + 1, rest, j));
      assert j != k ==> cfg.peers[l][j] != cfg.peers[l][k];
    }
  }

  /** The call to peer k, which accepts if it is in `who` and is not reached otherwise. */
  lemma OneCall(cfg: Config, rules: Rules, r: Run, s: State, l: NodeId, k: nat, who: set<NodeId>)
    returns (r': Run, s': State)
    requires At(cfg, rules, r, s) && Leads(cfg, s, l, k) && k < |cfg.peers[l]| && Ahead(cfg, l, k, who)
    requires var p := cfg.peers[l][k]; p in who ==>
      s[p].phase.Idle? && s[p].node.currentTerm <= s[l].node.currentTerm && s[l].node.nextIndex[k] == 1
    ensures At(cfg, rules, r', s') && |s'| == |s| && Leads(cfg, s', l, k + 1) && SameLeader(s[l].node, s'[l].node)
    ensures forall v :: 0 <= v < |s| && v != l && !(v == cfg.peers[l][k] && v in who) ==> s'[v] == s[v]
    ensures Indexed(rules, s[l].node, s'[l].node, k, Reached(cfg, s, l, k, who, k))
    ensures forall j :: 0 <= j < |cfg.peers[l]| && j != k ==>
      s'[l].node.nextIndex[j] == s[l].node.nextIndex[j] && s'[l].node.matchIndex[j] == s[l].node.matchIndex[j]
    ensures var p := cfg.peers[l][k];
      if p in who then
        && Accepted(rules, s[l].node.currentTerm, s[l].node.log, s[p].node, s'[p])
        && (Committable(s'[l].node, |s[l].node.log|) ==> s'[l].node.commitIndex >= |s[l].node.log|)
      else s'[l].node == s[l].node
  {
    hide At, Accepted, HandleAppendEntries, HandleAppendReply, BuildAppendRequest, Reported, Committable;
    if cfg.peers[l][k] in who {
      OneAccepts(rules, s[l].node, l, k, s[cfg.peers[l][k]].node);
      r', s' := AskAppend(cfg, rules, r, s, l, k);
    } else {
      r', s' := LosesAppend(cfg, rules, r, s, l, k);
    }
  }

  /** The round from peer k on: the peers in `who` accept. */
  lemma {:induction false} Spread(cfg: Config, rules: Rules, r: Run, s: State, l: NodeId, k: nat, who: set<NodeId>)
    returns (r': Run, s': State)
    requires At(cfg, rules, r, s) && Leads(cfg, s, l, k) && Ahead(cfg, l, k, who)
    requires forall v :: v in who ==> s[v].phase.Idle? && s[v].node.currentTerm <= s[l].node.currentTerm
    requires forall j :: k <= j < |cfg.peers[l]| && cfg.peers[l][j] in who ==> s[l].node.nextIndex[j] == 1
    ensures At(cfg, rules, r', s') && |s'| == |s| == |cfg.peers|
    ensures Leads(cfg, s', l, |cfg.peers[l]|) && SameLeader(s[l].node, s'[l].node)
    ensures forall v :: v in who ==> Accepted(rules, s[l].node.currentTerm, s[l].node.log, s[v].node, s'[v])
    ensures forall v :: 0 <= v < |s| && v != l && v !in who ==> s'[v] == s[v]
    ensures Booked(cfg, rules, s, s'[l].node, l, k, who)
    ensures who == {} ==> s'[l].node == s[l].node
    ensures who != {} && Committable(s'[l].node, |s[l].node.log|) ==> s'[l].node.commitIndex >= |s[l].node.log|
    decreases |cfg.peers[l]| - k
  {
    hide ValidRun, Shape, Accepted, Reported, Booked, Indexed, Reached;
    if k == |cfg.peers[l]| {
      assert who == {};
      r', s' := r, s;
      NothingBooked(cfg, rules, s, l, k);
    } else {
      var p, rest := cfg.peers[l][k], who;
      assert cfg.peers[l][k..] == [p] + cfg.peers[l][k + 1..];
      rest := who - {p};
      r', s' := OneCall(cfg, rules, r, s, l, k, who);
      ghost var m := s';
      r', s' := Spread(cfg, rules, r', s', l, k + 1, rest);
      BookedOn(cfg, rules, s, m, s'[l].node, l, k, who, rest);
    }
  }

  /** A whole round of an idle leader. */
  lemma Round(cfg: Config, rules: Rules, r: Run, s: State, l: NodeId, who: set<NodeId>) returns (r': Run, s': State)
    requires At(cfg, rules, r, s) && l < |s| && s[l].phase.Idle? && s[l].node.role == Leader
    requires forall v :: v in who ==> v < |s| && v != l && s[v].phase.Idle?
    requires forall v :: v in who ==> s[v].node.currentTerm <= s[l].node.currentTerm
    requires forall j :: 0 <= j < |cfg.peers[l]| && cfg.peers[l][j] in who ==> s[l].node.nextIndex[j] == 1
    ensures At(cfg, rules, r', s') && |s'| == |s| == |cfg.peers|
    ensures s'[l].phase.Idle? && SameLeader(s[l].node, s'[l].node)
    ensures |s'[l].node.nextIndex| == |s'[l].node.matchIndex| == |cfg.peers[l]|
    ensures forall v :: v in who ==> Accepted(rules, s[l].node.currentTerm, s[l].node.log, s[v].node, s'[v])
    ensures forall v :: 0 <= v < |s| && v != l && v !in who ==> s'[v] == s[v]
    ensures Booked(cfg, rules, s, s'[l].node, l, 0, who)
    ensures who != {} && Committable(s'[l].node, |s[l].node.log|) ==> s'[l].node.commitIndex >= |s[l].node.log|
  {
    hide Accepted, Indexed;
    AheadAtFirst(cfg, l, who);
    r', s' := Do(cfg, rules, r, s, StartRound(l));
    ghost var m := s';
    r', s' := Spread(cfg, rules, r', s', l, 0, who);
    forall j | 0 <= j < |cfg.peers[l]| ensures Indexed(rules, s[l].node, s'[l].node, j, Reached(cfg, s, l, 0, who, j)) {
      assert Indexed(rules, m[l].node, s'[l].node, j, Reached(cfg, m, l, 0, who, j));
    }
    r', s' := Do(cfg, rules, r', s', FinishRound(l));
  }

  /** A peer accepts, and its reply is lost. */
  lemma Unheard(cfg: Config, rules: Rules, r: Run, s: State, l: NodeId, k: nat) returns (r': Run, s': State)
    requires At(cfg, rules, r, s) && Leads(cfg, s, l, k) && k < |cfg.peers[l]|
    requires var p := cfg.peers[l][k]; p < |s| && p != l && s[p].phase.Idle?
    ensures At(cfg, rules, r', s')
    ensures var p := cfg.peers[l][k];
      var f := HandleAppendEntries(rules, s[p].node, BuildAppendRequest(s[l].node, l, k)).0;
      s' == s[p := Rest(f)][l := Proc(s[l].node, Beating(k + 1, Waiting))]
  {
    hide HandleAppendEntries, BuildAppendRequest;
    r', s' := Do(cfg, rules, r, s, DeliverAppend(l));
    r', s' := Do(cfg, rules, r', s', LoseAppend(l));
  }

  /** A round from peer k on in which the peers in `who` accept and every reply is lost. */
  lemma {:induction false} Calls(cfg: Config, rules: Rules, r: Run, s: State, l: NodeId, k: nat, who: set<NodeId>)
    returns (r': Run, s': State)
    requires At(cfg, rules, r, s) && Leads(cfg, s, l, k) && Ahead(cfg, l, k, who)
    requires forall v :: v in who ==> s[v].phase.Idle? && s[v].node.currentTerm <= s[l].node.currentTerm
    requires forall j :: k <= j < |cfg.peers[l]| && cfg.peers[l][j] in who ==> s[l].node.nextIndex[j] == 1
    ensures At(cfg, rules, r', s') && |s'| == |s| && s'[l] == Proc(s[l].node, Beating(|cfg.peers[l]|, Waiting))
    ensures forall v :: v in who ==> Accepted(rules, s[l].node.currentTerm, s[l].node.log, s[v].node, s'[v])
    ensures forall v :: 0 <= v < |s| && v != l && v !in who ==> s'[v] == s[v]
    decreases |cfg.peers[l]| - k
  {
    hide Accepted, HandleAppendEntries, HandleAppendReply, BuildAppendRequest, ValidRun, Shape;
    if k == |cfg.peers[l]| {
      assert who == {};
      r', s' := r, s;
    } else {
      var p, rest := cfg.peers[l][k], who;
      assert cfg.peers[l][k..] == [p] + cfg.peers[l][k + 1..];
      if p in who {
        rest := who - {p};
        OneAccepts(rules, s[l].node, l, k, s[p].node);
        r', s' := Unheard(cfg, rules, r, s, l, k);
      } else {
        r', s' := LosesAppend(cfg, rules, r, s, l, k);
      }
      r', s' := Calls(cfg, rules, r', s', l, k + 1, rest);
    }
  }

  lemma UnheardRound(cfg: Config, rules: Rules, r: Run, s: State, l: NodeId, who: set<NodeId>)
    returns (r': Run, s': State)
    requires At(cfg, rules, r, s) && l < |s| && s[l].phase.Idle? && s[l].node.role == Leader
    requires forall v :: v in who ==> v < |s| && v != l && s[v].phase.Idle?
    requires forall v :: v in who ==> s[v].node.currentTerm <= s[l].node.currentTerm
    requires forall j :: 0 <= j < |cfg.peers[l]| && cfg.peers[l][j] in who ==> s[l].node.nextIndex[j] == 1
    ensures At(cfg, rules, r', s') && |s'| == |s| && s'[l] == s[l]
    ensures forall v :: v in who ==> Accepted(rules, s[l].node.currentTerm, s[l].node.log, s[v].node, s'[v])
    ensures forall v :: 0 <= v < |s| && v != l && v !in who ==> s'[v] == s[v]
  {
    hide Accepted;
    AheadAtFirst(cfg, l, who);
    r', s' := Do(cfg, rules, r, s, StartRound(l));
    r', s' := Calls(cfg, rules, r', s', l, 0, who);
    r', s' := Do(cfg, rules, r', s', FinishRound(l));
  }

  predicate Unfit(log: seq<Entry>, f: Node) {
    f.log == [] || (log != [] && f.log[0].term != log[0].term)
  }

  /** The next index of every peer in `who` goes from 2 to 1; nothing else changes about the leader. */
  ghost predicate SteppedBack(cfg: Config, n: Node, n': Node, l: NodeId, k: nat, who: set<NodeId>)
    requires l < |cfg.peers|
  {
    && |n.nextIndex| == |n'.nextIndex| == |cfg.peers[l]| && n' == n.(nextIndex := n'.nextIndex)
    && forall j :: 0 <= j < |cfg.peers[l]| ==>
         n'.nextIndex[j] == if j >= k && cfg.peers[l][j] in who then 1 else n.nextIndex[j]
  }

  /** The call to peer k, which rejects if it is in `who` and is not reached otherwise. */
  lemma OneRefusal(cfg: Config, rules: Rules, r: Run, s: State, l: NodeId, k: nat, who: set<NodeId>)
    returns (r': Run, s': State)
    requires At(cfg, rules, r, s) && Leads(cfg, s, l, k) && k < |cfg.peers[l]| && Ahead(cfg, l, k, who)
    requires s[l].node.log != []
    requires var p := cfg.peers[l][k]; p in who ==>
      s[p].phase.Idle? && s[p].node.currentTerm <= s[l].node.currentTerm && Unfit(s[l].node.log, s[p].node)
      && s[l].node.nextIndex[k] == 2
    ensures At(cfg, rules, r', s') && |s'| == |s| && Leads(cfg, s', l, k + 1)
    ensures var p := cfg.peers[l][k];
      if p in who then
        && s'[l].node == s[l].node.(nextIndex := s[l].node.nextIndex[k := 1])
        && s'[p].phase.Idle? && s'[p].node.currentTerm == s[l].node.currentTerm && s'[p].node.log == s[p].node.log
      else s'[l].node == s[l].node
    ensures forall v :: 0 <= v < |s| && v != l && !(v == cfg.peers[l][k] && v in who) ==> s'[v] == s[v]
  {
    hide At, HandleAppendEntries, HandleAppendReply, BuildAppendRequest;
    if cfg.peers[l][k] in who {
      OneRejects(rules, s[l].node, l, k, s[cfg.peers[l][k]].node);
      r', s' := AskAppend(cfg, rules, r, s, l, k);
    } else {
      r', s' := LosesAppend(cfg, rules, r, s, l, k);
    }
  }

  /** The round from peer k on: the peers in `who` have logs that do not fit, and reject. */
  lemma {:induction false} Refuse(cfg: Config, rules: Rules, r: Run, s: State, l: NodeId, k: nat, who: set<NodeId>)
    returns (r': Run, s': State)
    requires At(cfg, rules, r, s) && Leads(cfg, s, l, k) && Ahead(cfg, l, k, who) && s[l].node.log != []
    requires forall v :: v in who ==>
      s[v].phase.Idle? && s[v].node.currentTerm <= s[l].node.currentTerm && Unfit(s[l].node.log, s[v].node)
    requires forall j :: k <= j < |cfg.peers[l]| && cfg.peers[l][j] in who ==> s[l].node.nextIndex[j] == 2
    ensures At(cfg, rules, r', s') && |s'| == |s| == |cfg.peers| && Leads(cfg, s', l, |cfg.peers[l]|)
    ensures SteppedBack(cfg, s[l].node, s'[l].node, l, k, who)
    ensures forall v :: v in who ==>
      s'[v].phase.Idle? && s'[v].node.currentTerm == s[l].node.currentTerm && s'[v].node.log == s[v].node.log
    ensures forall v :: 0 <= v < |s| && v != l && v !in who ==> s'[v] == s[v]
    decreases |cfg.peers[l]| - k
  {
    hide ValidRun, Shape, Unfit;
    if k == |cfg.peers[l]| {
      assert who == {};
      r', s' := r, s;
    } else {
      assert cfg.peers[l][k..] == [cfg.peers[l][k]] + cfg.peers[l][k + 1..];
      assert ValidPeers(cfg, l);
      r', s' := OneRefusal(cfg, rules, r, s, l, k, who);
      r', s' := Refuse(cfg, rules, r', s', l, k + 1, who - {cfg.peers[l][k]});
    }
  }

  lemma RefusedRound(cfg: Config, rules: Rules, r: Run, s: State, l: NodeId, who: set<NodeId>)
    returns (r': Run, s': State)
    requires At(cfg, rules, r, s) && l < |s| && s[l].phase.Idle? && s[l].node.role == Leader && s[l].node.log != []
    requires forall v :: v in who ==> v < |s| && v != l && s[v].phase.Idle?
    requires forall v :: v in who ==> s[v].node.currentTerm <= s[l].node.currentTerm && Unfit(s[l].node.log, s[v].node)
    requires forall j :: 0 <= j < |cfg.peers[l]| && cfg.peers[l][j] in who ==> s[l].node.nextIndex[j] == 2
    ensures At(cfg, rules, r', s') && |s'| == |s| == |cfg.peers| && s'[l].phase.Idle?
    ensures SteppedBack(cfg, s[l].node, s'[l].node, l, 0, who)
    ensures forall v :: v in who ==>
      s'[v].phase.Idle? && s'[v].node.currentTerm == s[l].node.currentTerm && s'[v].node.log == s[v].node.log
    ensures forall v :: 0 <= v < |s| && v != l && v !in who ==> s'[v] == s[v]
  {
    hide SteppedBack, Unfit;
    AheadAtFirst(cfg, l, who);
    r', s' := Do(cfg, rules, r, s, StartRound(l));
    r', s' := Refuse(cfg, rules, r', s', l, 0, who);
    r', s' := Do(cfg, rules, r', s', FinishRound(l));
  }

  // -------------------------------------------------------------------- commits

  /** Peers whose match index reaches k are counted. */
  lemma CountsAll(cfg: Config, l: NodeId, matches: seq<nat>, k: nat, holders: set<NodeId>)
    requires ValidConfig(cfg) && l < |cfg.peers| && |matches| == |cfg.peers[l]|
    requires forall v :: v in holders ==> v < |cfg.peers| && v != l
    requires forall j :: 0 <= j < |matches| && cfg.peers[l][j] in holders ==> matches[j] >= k
    ensures CountAtLeast(matches, k) >= |holders|
  {
    assert ValidPeers(cfg, l);
    CountIsSize(cfg.peers[l], matches, k, |matches|);
    assert matches[..|matches|] == matches;
    forall v | v in holders ensures v in Matching(cfg.peers[l], matches, k, |matches|) {
      AllArePeers(cfg, l, v);
      var j :| 0 <= j < |matches| && cfg.peers[l][j] == v;
      assert matches[j] >= k;
    }
    SubsetSize(holders, Matching(cfg.peers[l], matches, k, |matches|));
  }

  /** A round after which the match indices of `holders`, the leader included, make a majority:
      the leader commits its whole log and applies it. */
  lemma CommitRound(cfg: Config, rules: Rules, r: Run, s: State, l: NodeId, who: set<NodeId>, holders: set<NodeId>)
    returns (r': Run, s': State)
    requires At(cfg, rules, r, s) && l < |s| && s[l].phase.Idle? && s[l].node.role == Leader
    requires forall v :: v in who ==> v < |s| && v != l && s[v].phase.Idle?
    requires forall v :: v in who ==> s[v].node.currentTerm <= s[l].node.currentTerm
    requires forall j :: 0 <= j < |cfg.peers[l]| && cfg.peers[l][j] in who ==> s[l].node.nextIndex[j] == 1
    requires s[l].node.log != [] && LastTerm(s[l].node.log) == s[l].node.currentTerm
    requires s[l].node.lastApplied == 0 && s[l].node.applied == []
    requires who != {} && 1 + |holders| >= Majority(|cfg.peers| - 1)
    requires forall v :: v in holders ==> v < |s| && v != l
    requires forall j :: 0 <= j < |cfg.peers[l]| && cfg.peers[l][j] in holders ==>
      cfg.peers[l][j] in who || s[l].node.matchIndex[j] >= |s[l].node.log|
    ensures At(cfg, rules, r', s') && |s'| == |s| == |cfg.peers| && s'[l].node.applied == s[l].node.log
    ensures forall v :: v in who ==> Accepted(rules, s[l].node.currentTerm, s[l].node.log, s[v].node, s'[v])
    ensures forall v :: 0 <= v < |s| && v != l && v !in who ==> s'[v] == s[v]
  {
    hide Accepted;
    var n := s[l].node;
    r', s' := Round(cfg, rules, r, s, l, who);
    var n' := s'[l].node;
    assert ValidPeers(cfg, l);
    forall j | 0 <= j < |cfg.peers[l]| && cfg.peers[l][j] in holders ensures n'.matchIndex[j] >= |n.log| {
      assert Indexed(rules, n, n', j, Reached(cfg, s, l, 0, who, j));
    }
    CountsAll(cfg, l, n'.matchIndex, |n.log|, holders);
    assert Committable(n', |n.log|);
    r', s' := Do(cfg, rules, r', s', Apply(l));
    assert [] + n.log[0..|n.log|] == n.log;
  }
}
