/** Runs in which one departure from the Raft paper by itself breaks safety, in every cluster
    that is large enough for it. */
module RaftCounterexamples {
  import opened Common
  import opened RaftSpec
  import opened RaftCluster
  import opened RaftRuns

  /** An idle node that has applied nothing. */
  predicate Plain(p: Proc, term: nat, log: seq<Entry>) {
    && p.phase.Idle? && p.node.role != Leader && p.node.currentTerm == term && p.node.log == log
    && p.node.applied == [] && p.node.lastApplied == 0
  }

  /** An idle leader that has applied nothing. */
  predicate Chief(p: Proc, term: nat, log: seq<Entry>) {
    && p.phase.Idle? && p.node.role == Leader && p.node.currentTerm == term && p.node.log == log
    && p.node.applied == [] && p.node.lastApplied == 0
  }

  predicate NextIs(cfg: Config, p: Proc, l: NodeId, who: set<NodeId>, x: nat)
    requires l < |cfg.peers|
  {
    |p.node.nextIndex| == |cfg.peers[l]|
    && forall j :: 0 <= j < |cfg.peers[l]| && cfg.peers[l][j] in who ==> p.node.nextIndex[j] as int == x
  }

  /** The nodes from a up to b. */
  ghost function From(a: nat, b: nat): (r: set<NodeId>)
    requires a <= b
    ensures |r| == b - a && forall i: nat :: i in r <==> a <= i < b
    decreases b
  {
    if a == b then {} else From(a, b - 1) + {b - 1}
  }

  /** What a vote for a candidate of a later term leaves of its voter. */
  predicate Follows(p: Proc, p': Proc, term: nat) {
    && p'.phase.Idle? && p'.node.role == Follower && p'.node.currentTerm == term && p'.node.log == p.node.log
    && p'.node.applied == p.node.applied && p'.node.lastApplied == p.node.lastApplied
  }

  lemma NewerTermGranted(n: Node, req: VoteRequest)
    requires n.currentTerm < req.term && UpToDate(req.lastLogTerm, req.lastLogIndex, n.log)
    ensures Grants(n, req) && Follows(Rest(n), Rest(HandleRequestVote(n, req).0), req.term)
  {
  }

  /** A candidate of a later term than its voters wins with their votes. */
  lemma WinsLater(cfg: Config, rules: Rules, r: Run, s: State, c: NodeId, who: set<NodeId>) returns (r': Run, s': State)
    requires At(cfg, rules, r, s) && Asking(cfg, s, c, 0) && s[c].phase.votes == 1
    requires s[c].phase.request == BuildVoteRequest(s[c].node, c)
    requires forall v :: v in who ==> v < |s| && v != c && s[v].phase.Idle?
    requires forall v :: v in who ==> s[v].node.currentTerm < s[c].node.currentTerm
    requires forall v :: v in who ==> UpToDate(LastTerm(s[c].node.log), |s[c].node.log|, s[v].node.log)
    requires 1 + |who| >= Majority(|cfg.peers| - 1)
    ensures At(cfg, rules, r', s') && |s'| == |s| == |cfg.peers| && s'[c] == Rest(BecomeLeader(s[c].node, c))
    ensures |s'[c].node.nextIndex| == |cfg.peers[c]|
    ensures forall v :: v in who ==> Follows(s[v], s'[v], s[c].node.currentTerm)
    ensures forall v :: 0 <= v < |s| && v != c && v !in who ==> s'[v] == s[v]
  {
    hide Majority, HandleRequestVote, Grants, UpToDate;
    forall v | v in who
      ensures Grants(s[v].node, s[c].phase.request)
      ensures Follows(s[v], Rest(HandleRequestVote(s[v].node, s[c].phase.request).0), s[c].node.currentTerm)
    {
      NewerTermGranted(s[v].node, s[c].phase.request);
    }
    r', s' := Win(cfg, rules, r, s, c, who);
  }

  /** An idle node stands for election and wins with the votes of `who`. */
  lemma Elect(cfg: Config, rules: Rules, r: Run, s: State, c: NodeId, log: seq<Entry>, term: nat, who: set<NodeId>)
    returns (r': Run, s': State)
    requires At(cfg, rules, r, s) && c < |s| && Plain(s[c], term, log)
    requires forall v :: v in who ==> v < |s| && v != c && s[v].phase.Idle?
    requires forall v :: v in who ==> s[v].node.currentTerm <= term && UpToDate(LastTerm(log), |log|, s[v].node.log)
    requires 1 + |who| >= Majority(|cfg.peers| - 1)
    ensures At(cfg, rules, r', s') && |s'| == |s| == |cfg.peers| && Chief(s'[c], term + 1, log)
    ensures NextIs(cfg, s'[c], c, From(0, |s|), |log| + 1)
    ensures forall v :: v in who ==> Follows(s[v], s'[v], term + 1)
    ensures forall v :: 0 <= v < |s| && v != c && v !in who ==> s'[v] == s[v]
  {
    hide At, Majority, UpToDate, Follows;
    r', s' := Stand(cfg, rules, r, s, c);
    r', s' := WinsLater(cfg, rules, r', s', c, who);
  }

  /** An idle leader takes a proposal. */
  lemma Proposes(cfg: Config, rules: Rules, r: Run, s: State, l: NodeId, log: seq<Entry>, term: nat, operation: string)
    returns (r': Run, s': State)
    requires At(cfg, rules, r, s) && l < |s| && Chief(s[l], term, log)
    ensures At(cfg, rules, r', s') && |s'| == |s| == |cfg.peers|
    ensures Chief(s'[l], term, log + [Entry(term, |log| + 1, operation, "")])
    ensures s'[l].node.nextIndex == s[l].node.nextIndex && s'[l].node.matchIndex == s[l].node.matchIndex
    ensures forall v :: 0 <= v < |s| && v != l ==> s'[v] == s[v]
  {
    r', s' := Do(cfg, rules, r, s, Propose(l, operation, ""));
  }

  // ------------------------------------- a forgotten vote, three nodes or more

  const X := Entry(1, 1, "a", "")
  const W := Entry(1, 1, "b", "")

  /** Two leaders of term 1, and nodes in between that know only the term. */
  ghost predicate TwoLead(cfg: Config, s: State) {
    && |s| == |cfg.peers| >= 3 && Chief(s[0], 1, []) && Chief(s[1], 1, [])
    && NextIs(cfg, s[0], 0, From(2, |s|), 1) && NextIs(cfg, s[1], 1, From(2, |s|), 1)
    && forall v :: 2 <= v < |s| ==> Plain(s[v], 1, [])
  }

  /** Node c stands in term 1, with an empty log, and has asked nobody yet. */
  predicate Candidate1(cfg: Config, s: State, c: NodeId) {
    && Asking(cfg, s, c, 0) && s[c].phase.votes == 1 && s[c].phase.request == BuildVoteRequest(s[c].node, c)
    && |s[c].node.nextIndex| == |cfg.peers[c]| && s[c].node.currentTerm == 1 && s[c].node.log == []
    && s[c].node.applied == [] && s[c].node.lastApplied == 0
  }

  predicate Unvoted(p: Proc) {
    Plain(p, 1, []) && p.node.votedFor == None
  }

  lemma BothStand(cfg: Config, rules: Rules) returns (r: Run, s: State)
    requires ValidConfig(cfg) && |cfg.peers| >= 3
    ensures At(cfg, rules, r, s) && |s| == |cfg.peers| && Candidate1(cfg, s, 0) && Candidate1(cfg, s, 1)
    ensures forall v :: v in From(2, |s|) ==> Plain(s[v], 0, [])
  {
    r, s := Begin(cfg, rules);
    r, s := Stand(cfg, rules, r, s, 0);
    r, s := Stand(cfg, rules, r, s, 1);
  }

  lemma FirstWins(cfg: Config, rules: Rules, r: Run, s: State) returns (r': Run, s': State)
    requires At(cfg, rules, r, s) && |s| == |cfg.peers| >= 3 && Candidate1(cfg, s, 0) && Candidate1(cfg, s, 1)
    requires forall v :: v in From(2, |s|) ==> Plain(s[v], 0, [])
    ensures At(cfg, rules, r', s') && |s'| == |s| && Chief(s'[0], 1, []) && Candidate1(cfg, s', 1)
    ensures NextIs(cfg, s'[0], 0, From(0, |s|), 1) && forall v :: v in From(2, |s|) ==> Plain(s'[v], 1, [])
  {
    hide At;
    r', s' := WinsLater(cfg, rules, r, s, 0, From(2, |s|));
  }

  /** A heartbeat of the current term makes the voters forget, even if no reply comes back. */
  lemma VotesForgotten(cfg: Config, rules: Rules, r: Run, s: State) returns (r': Run, s': State)
    requires !rules.keepVote && At(cfg, rules, r, s) && |s| == |cfg.peers| >= 3
    requires Chief(s[0], 1, []) && Candidate1(cfg, s, 1) && NextIs(cfg, s[0], 0, From(0, |s|), 1)
    requires forall v :: v in From(2, |s|) ==> Plain(s[v], 1, [])
    ensures At(cfg, rules, r', s') && |s'| == |s| && Chief(s'[0], 1, []) && Candidate1(cfg, s', 1)
    ensures NextIs(cfg, s'[0], 0, From(2, |s|), 1) && forall v :: v in From(2, |s|) ==> Unvoted(s'[v])
  {
    hide At;
    r', s' := UnheardRound(cfg, rules, r, s, 0, From(2, |s|));
  }

  lemma SecondWins(cfg: Config, rules: Rules, r: Run, s: State) returns (r': Run, s': State)
    requires At(cfg, rules, r, s) && |s| == |cfg.peers| >= 3 && Chief(s[0], 1, []) && Candidate1(cfg, s, 1)
    requires NextIs(cfg, s[0], 0, From(2, |s|), 1) && forall v :: v in From(2, |s|) ==> Unvoted(s[v])
    ensures At(cfg, rules, r', s') && TwoLead(cfg, s')
  {
    hide At, HandleRequestVote, Grants, From;
    var others, req := From(2, |s|), s[1].phase.request;
    forall v | v in others ensures Grants(s[v].node, req) && Plain(Rest(HandleRequestVote(s[v].node, req).0), 1, []) {
      UnvotedGrants(s[v], req);
    }
    r', s' := Win(cfg, rules, r, s, 1, others);
  }

  lemma UnvotedGrants(p: Proc, req: VoteRequest)
    requires Unvoted(p) && req.term == 1
    ensures Grants(p.node, req) && Plain(Rest(HandleRequestVote(p.node, req).0), 1, [])
  {
  }

  /** Nodes 0 and 1 stand in term 1. Node 0 wins with the votes of all others, its heartbeat makes
      them forget those votes, and node 1's pending requests win them a second time. */
  lemma TwoLeadersInOneTerm(cfg: Config, rules: Rules) returns (r: Run, s: State)
    requires ValidConfig(cfg) && |cfg.peers| >= 3 && !rules.keepVote
    ensures At(cfg, rules, r, s) && TwoLead(cfg, s)
  {
    hide At, Candidate1, TwoLead, Unvoted;
    r, s := BothStand(cfg, rules);
    r, s := FirstWins(cfg, rules, r, s);
    r, s := VotesForgotten(cfg, rules, r, s);
    r, s := SecondWins(cfg, rules, r, s);
  }

  /** The two leaders of one term each commit and apply an entry at index 1. */
  lemma ForgottenVoteDiverges(cfg: Config, rules: Rules) returns (r: Run, s: State)
    requires ValidConfig(cfg) && |cfg.peers| >= 3 && !rules.keepVote
    ensures At(cfg, rules, r, s) && |s| == |cfg.peers| && s[0].node.applied == [X] && s[1].node.applied == [W]
  {
    hide At, From;
    var others := From(2, |cfg.peers|);
    r, s := TwoLeadersInOneTerm(cfg, rules);
    r, s := Proposes(cfg, rules, r, s, 0, [], 1, "a");
    r, s := CommitRound(cfg, rules, r, s, 0, others, others);
    r, s := Proposes(cfg, rules, r, s, 1, [], 1, "b");
    r, s := CommitRound(cfg, rules, r, s, 1, others, others);
  }

  // ----------------------------- an unchecked match index, five nodes or more

  const B := Entry(1, 1, "b", "")
  const Y := Entry(2, 1, "y", "")
  const Z := Entry(3, 2, "c", "")

  /** How many nodes hold the stale entry: two less than a majority. */
  function Stale(cfg: Config): (k: nat)
    requires |cfg.peers| >= 5
    ensures k + 2 == Majority(|cfg.peers| - 1) && 1 <= k <= |cfg.peers| - 4 && 2 * k + 2 <= |cfg.peers|
  {
    |cfg.peers| / 2 - 1
  }

  /** The nodes up to k have the stale entry, those up to the last one but w have nothing. */
  predicate Standing(s: State, k: nat, w: nat, term: nat) {
    && k <= w <= |s| && (forall v :: 0 < v < k ==> Plain(s[v], term, [B]))
    && (forall v :: k <= v < w ==> Plain(s[v], term, []))
  }

  lemma StaleLeader(cfg: Config, rules: Rules) returns (r: Run, s: State)
    requires ValidConfig(cfg) && |cfg.peers| >= 5
    ensures At(cfg, rules, r, s) && |s| == |cfg.peers| && Chief(s[0], 1, []) && NextIs(cfg, s[0], 0, From(0, |s|), 1)
    ensures forall v :: 0 < v < |s| ==> Plain(s[v], 1, [])
  {
    r, s := Begin(cfg, rules);
    r, s := Elect(cfg, rules, r, s, 0, [], 0, From(1, |s|));
  }

  lemma StaleEntrySpread(cfg: Config, rules: Rules) returns (r: Run, s: State)
    requires ValidConfig(cfg) && |cfg.peers| >= 5
    ensures At(cfg, rules, r, s) && |s| == |cfg.peers| && Chief(s[0], 1, [B]) && Standing(s, Stale(cfg), |s|, 1)
  {
    hide At, Booked, Stale, From, Majority;
    r, s := StaleLeader(cfg, rules);
    r, s := Proposes(cfg, rules, r, s, 0, [], 1, "b");
    r, s := Round(cfg, rules, r, s, 0, From(1, Stale(cfg)));
  }

  /** The last node is elected without the stale entry. */
  lemma NewLeader(cfg: Config, rules: Rules, r: Run, s: State) returns (r': Run, s': State)
    requires |s| == |cfg.peers| >= 5
    requires At(cfg, rules, r, s) && Chief(s[0], 1, [B]) && Standing(s, Stale(cfg), |s|, 1)
    ensures At(cfg, rules, r', s') && |s'| == |s| && Chief(s'[|s| - 1], 2, []) && Chief(s'[0], 1, [B])
    ensures NextIs(cfg, s'[|s| - 1], |s| - 1, From(0, |s|), 1)
    ensures forall v :: 0 < v < Stale(cfg) ==> Plain(s'[v], 1, [B])
    ensures forall v :: Stale(cfg) <= v < |s| - 1 ==> Plain(s'[v], 2, [])
  {
    hide At, Stale, From;
    r', s' := Elect(cfg, rules, r, s, |s| - 1, [], 1, From(Stale(cfg), |s| - 1));
  }

  /** A bare heartbeat makes the nodes with the stale entry report it as matched. */
  lemma StaleMatchBooked(cfg: Config, rules: Rules, r: Run, s: State) returns (r': Run, s': State)
    requires |s| == |cfg.peers| >= 5 && !rules.checkedMatch
    requires At(cfg, rules, r, s) && Chief(s[|s| - 1], 2, []) && Chief(s[0], 1, [B])
    requires NextIs(cfg, s[|s| - 1], |s| - 1, From(0, |s|), 1)
    requires forall v :: 0 < v < Stale(cfg) ==> Plain(s[v], 1, [B])
    requires forall v :: Stale(cfg) <= v < |s| - 1 ==> Plain(s[v], 2, [])
    ensures At(cfg, rules, r', s') && |s'| == |s| && Plain(s'[0], 2, [B]) && Standing(s', Stale(cfg), |s| - 1, 2)
    ensures Chief(s'[|s| - 1], 2, []) && NextIs(cfg, s'[|s| - 1], |s| - 1, {|s| - 2}, 1)
    ensures Matches(cfg, s'[|s| - 1], |s| - 1, From(0, Stale(cfg)), 1)
  {
    hide At, Stale, From, Majority;
    var last, stale := |s| - 1, From(0, Stale(cfg));
    r', s' := Round(cfg, rules, r, s, last, stale);
    forall j | 0 <= j < |cfg.peers[last]|
      ensures cfg.peers[last][j] in stale ==> s'[last].node.matchIndex[j] >= 1
      ensures cfg.peers[last][j] in {last - 1} ==> s'[last].node.nextIndex[j] == 1
    {
      assert Indexed(rules, s[last].node, s'[last].node, j, Reached(cfg, s, last, 0, stale, j));
    }
  }

  predicate Matches(cfg: Config, p: Proc, l: NodeId, who: set<NodeId>, x: nat)
    requires l < |cfg.peers|
  {
    |p.node.matchIndex| == |cfg.peers[l]|
    && forall j :: 0 <= j < |cfg.peers[l]| && cfg.peers[l][j] in who ==> p.node.matchIndex[j] >= x
  }

  /** One real copy besides the leader's own is now enough to commit. */
  lemma CommitsOnTwo(cfg: Config, rules: Rules, r: Run, s: State) returns (r': Run, s': State)
    requires |s| == |cfg.peers| >= 5 && !rules.checkedMatch
    requires At(cfg, rules, r, s) && Plain(s[0], 2, [B]) && Standing(s, Stale(cfg), |s| - 1, 2)
    requires Chief(s[|s| - 1], 2, []) && NextIs(cfg, s[|s| - 1], |s| - 1, {|s| - 2}, 1)
    requires Matches(cfg, s[|s| - 1], |s| - 1, From(0, Stale(cfg)), 1)
    ensures At(cfg, rules, r', s') && |s'| == |s| == |cfg.peers|
    ensures Plain(s'[0], 2, [B]) && Standing(s', Stale(cfg), |s| - 2, 2)
    ensures Plain(s'[|s| - 2], 2, [Y]) && s'[|s| - 1].node.applied == [Y]
  {
    hide At, Stale, From;
    var last, k := |s| - 1, Stale(cfg);
    r', s' := Proposes(cfg, rules, r, s, last, [], 2, "y");
    r', s' := CommitRound(cfg, rules, r', s', last, {last - 1}, From(0, k) + {last - 1});
  }

  /** A holder of the stale entry is elected by all the others. */
  lemma StaleNodeElected(cfg: Config, rules: Rules, r: Run, s: State) returns (r': Run, s': State)
    requires |s| == |cfg.peers| >= 5 && At(cfg, rules, r, s)
    requires Plain(s[0], 2, [B]) && Standing(s, Stale(cfg), |s| - 2, 2)
    requires Plain(s[|s| - 2], 2, [Y])
    ensures At(cfg, rules, r', s') && |s'| == |s| == |cfg.peers|
    ensures Chief(s'[0], 3, [B, Z]) && NextIs(cfg, s'[0], 0, From(0, |s|), 2)
    ensures forall v :: Stale(cfg) <= v < |s| - 1 ==>
      s'[v].phase.Idle? && s'[v].node.currentTerm <= 3 && Unfit([B, Z], s'[v].node)
    ensures s'[|s| - 1] == s[|s| - 1]
  {
    hide At, Stale, From;
    r', s' := Elect(cfg, rules, r, s, 0, [B], 2, From(1, |s| - 2));
    r', s' := Proposes(cfg, rules, r', s', 0, [B], 3, "c");
    assert [B] + [Z] == [B, Z];
  }

  /** With an unchecked match index two nodes apply different entries at index 1. */
  lemma TwoEntriesAppliedAtOneIndex(cfg: Config, rules: Rules) returns (r: Run, s: State)
    requires ValidConfig(cfg) && |cfg.peers| >= 5 && !rules.checkedMatch
    ensures At(cfg, rules, r, s) && |s| == |cfg.peers| && s[0].node.applied == [B, Z] && s[|s| - 1].node.applied == [Y]
  {
    hide At, Stale, From, Majority;
    r, s := StaleEntrySpread(cfg, rules);
    r, s := NewLeader(cfg, rules, r, s);
    r, s := StaleMatchBooked(cfg, rules, r, s);
    r, s := CommitsOnTwo(cfg, rules, r, s);
    r, s := StaleNodeElected(cfg, rules, r, s);
    var rest := From(Stale(cfg), |s| - 1);
    r, s := RefusedRound(cfg, rules, r, s, 0, rest);
    r, s := CommitRound(cfg, rules, r, s, 0, rest, rest);
  }
}
