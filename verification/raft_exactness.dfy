/** Which clusters are safe in all their runs, and under which rules: an exact answer by the
    number of nodes. */
module RaftExactness {
  import opened Common
  import opened RaftSpec
  import opened RaftCluster
  import opened RaftElectionSafety
  import opened RaftSafety
  import opened RaftRuns
  import opened RaftCounterexamples

  ghost predicate OneLeaderPerTerm(r: Run) {
    forall t, u, i, j ::
      0 <= t < |r.states| && 0 <= u < |r.states| && 0 <= i < |r.states[t]| && 0 <= j < |r.states[u]|
      && LeadTogether(r.states[t][i].node, r.states[u][j].node) ==>
        i == j
  }

  predicate LeadTogether(n: Node, m: Node) {
    n.role == Leader == m.role && n.currentTerm == m.currentTerm
  }

  ghost predicate AppliedAgree(r: Run) {
    forall t, u, i, j ::
      0 <= t < |r.states| && 0 <= u < |r.states| && 0 <= i < |r.states[t]| && 0 <= j < |r.states[u]| ==>
        SameWhereBoth(r.states[t][i].node.applied, r.states[u][j].node.applied)
  }

  ghost predicate SameWhereBoth(a: seq<Entry>, b: seq<Entry>) {
    forall x :: 0 <= x < |a| && x < |b| ==> a[x] == b[x]
  }

  ghost predicate IsRun(cfg: Config, rules: Rules, r: Run) {
    ValidConfig(cfg) && ValidRun(cfg, rules, r)
  }

  /** Who may forget a vote and get away with it. */
  predicate VotesSuffice(cfg: Config, rules: Rules) {
    rules.keepVote || |cfg.peers| <= 2
  }

  predicate MatchesSuffice(cfg: Config, rules: Rules) {
    rules.checkedMatch || |cfg.peers| <= 4
  }

  lemma VoteSafeThroughout(cfg: Config, rules: Rules, r: Run)
    requires VotesSuffice(cfg, rules) && IsRun(cfg, rules, r)
    ensures VoteSafeRun(cfg, rules, r)
  {
    forall i | 0 <= i < |r.actions| ensures VoteSafe(cfg, rules, r.states[i], r.actions[i]) {
      assert ValidStep(cfg, rules, r.states[i], r.actions[i], r.states[i + 1]);
    }
  }

  lemma SafeThroughout(cfg: Config, rules: Rules, r: Run)
    requires VotesSuffice(cfg, rules) && MatchesSuffice(cfg, rules) && IsRun(cfg, rules, r)
    ensures SafeRun(cfg, rules, r)
  {
    VoteSafeThroughout(cfg, rules, r);
    forall i | 0 <= i < |r.actions| ensures MatchSafe(cfg, rules, r.states[i], r.actions[i]) {
      assert ValidStep(cfg, rules, r.states[i], r.actions[i], r.states[i + 1]);
    }
  }

  lemma OneLeader(cfg: Config, rules: Rules, r: Run)
    requires ValidConfig(cfg) && VoteSafeRun(cfg, rules, r)
    ensures OneLeaderPerTerm(r)
  {
    forall t: nat, u: nat, i: nat, j: nat |
      t < |r.states| && u < |r.states| && i < |r.states[t]| && j < |r.states[u]|
      && LeadTogether(r.states[t][i].node, r.states[u][j].node)
      ensures i == j
    {
      ElectionSafety(cfg, rules, r, t, u, i, j);
    }
  }

  /** Every run of a cluster has at most one leader per term exactly when an append request of the
      current term leaves the vote alone, or the cluster has at most two nodes. For the code as
      written: exactly in clusters of at most two nodes. */
  lemma ElectionSafetyExactly(cfg: Config, rules: Rules)
    requires ValidConfig(cfg)
    ensures rules.keepVote || |cfg.peers| <= 2 <==> forall r :: IsRun(cfg, rules, r) ==> OneLeaderPerTerm(r)
  {
    if VotesSuffice(cfg, rules) {
      forall r | IsRun(cfg, rules, r) ensures OneLeaderPerTerm(r) {
        VoteSafeThroughout(cfg, rules, r);
        OneLeader(cfg, rules, r);
      }
    } else {
      var r, s := TwoLeadersInOneTerm(cfg, rules);
      var t := |r.actions|;
      assert IsRun(cfg, rules, r);
      assert LeadTogether(r.states[t][0].node, r.states[t][1].node) && !OneLeaderPerTerm(r);
    }
  }

  lemma Agree(cfg: Config, rules: Rules, r: Run)
    requires ValidConfig(cfg) && SafeRun(cfg, rules, r)
    ensures AppliedAgree(r)
  {
    forall t: nat, u: nat, i: nat, j: nat, x: nat |
      t < |r.states| && u < |r.states| && i < |r.states[t]| && j < |r.states[u]|
      && x < |r.states[t][i].node.applied| && x < |r.states[u][j].node.applied|
      ensures r.states[t][i].node.applied[x] == r.states[u][j].node.applied[x]
    {
      StateMachineSafety(cfg, rules, r, t, i, u, j, x);
    }
  }

  lemma Disagree(r: Run, t: nat, i: nat, j: nat)
    requires t < |r.states| && i < |r.states[t]| && j < |r.states[t]|
    requires |r.states[t][i].node.applied| > 0 && |r.states[t][j].node.applied| > 0
    requires r.states[t][i].node.applied[0] != r.states[t][j].node.applied[0]
    ensures !AppliedAgree(r)
  {
    assert !SameWhereBoth(r.states[t][i].node.applied, r.states[t][j].node.applied);
  }

  /** All applied entries agree in every run of a cluster exactly when votes are kept or there are
      at most two nodes, and match indices are checked or there are at most four. For the code as
      written: exactly in clusters of at most two nodes. */
  lemma StateMachineSafetyExactly(cfg: Config, rules: Rules)
    requires ValidConfig(cfg)
    ensures (rules.keepVote || |cfg.peers| <= 2) && (rules.checkedMatch || |cfg.peers| <= 4) <==>
      forall r :: IsRun(cfg, rules, r) ==> AppliedAgree(r)
  {
    if VotesSuffice(cfg, rules) && MatchesSuffice(cfg, rules) {
      forall r | IsRun(cfg, rules, r) ensures AppliedAgree(r) {
        SafeThroughout(cfg, rules, r);
        Agree(cfg, rules, r);
      }
    } else if !VotesSuffice(cfg, rules) {
      var r, s := ForgottenVoteDiverges(cfg, rules);
      assert IsRun(cfg, rules, r);
      Disagree(r, |r.actions|, 0, 1);
    } else {
      var r, s := TwoEntriesAppliedAtOneIndex(cfg, rules);
      assert IsRun(cfg, rules, r);
      Disagree(r, |r.actions|, 0, |s| - 1);
    }
  }
}
