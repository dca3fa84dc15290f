/** What every run keeps about one node's log, whatever the rules and without any
    condition on the run. */
module RaftLog {
  import opened Common
  import opened RaftSpec
  import opened RaftCluster

  ghost predicate Sorted(log: seq<Entry>) {
    forall i, j :: 0 <= i < j < |log| ==> log[i].term <= log[j].term
  }

  /** The entry at position k carries index k. */
  ghost predicate Numbered(log: seq<Entry>) {
    forall k :: 0 <= k < |log| ==> log[k].index == k + 1
  }

  ghost predicate TermsWithin(log: seq<Entry>, term: nat) {
    forall k :: 0 <= k < |log| ==> 1 <= log[k].term <= term
  }

  ghost predicate WellFormed(p: Proc) {
    && Numbered(p.node.log) && Sorted(p.node.log) && TermsWithin(p.node.log, p.node.currentTerm)
    && Numbered(p.node.applied) && |p.node.applied| == p.node.lastApplied
    && (p.node.role != Follower || p.phase.Electing? ==> p.node.currentTerm >= 1)
    && (p.phase.Electing? ==> p.node.role == Candidate)
  }

  /** The head of one log and the tail of another fit when they agree on the term at the seam. */
  lemma SpliceWellFormed(f: seq<Entry>, l: seq<Entry>, prev: nat, t: nat)
    requires Numbered(f) && Sorted(f) && TermsWithin(f, t)
    requires Numbered(l) && Sorted(l) && TermsWithin(l, t)
    requires prev <= |f| && prev <= |l| && (prev > 0 ==> f[prev - 1].term == l[prev - 1].term)
    ensures var log := f[..prev] + l[prev..]; Numbered(log) && Sorted(log) && TermsWithin(log, t)
  {
  }

  /** An accepted non-empty append splices the leader's tail onto the follower's head. */
  lemma AppendedLog(l: Node, self: NodeId, peer: nat, f: Node)
    requires peer < |l.nextIndex|
    requires TermsWithin(f.log, f.currentTerm)
    requires Accepts(f, BuildAppendRequest(l, self, peer))
    ensures var req := BuildAppendRequest(l, self, peer); var prev := req.prevLogIndex;
      && prev <= |f.log| && prev <= |l.log| && prev + |req.entries| == |l.log|
      && (prev > 0 ==> f.log[prev - 1].term == l.log[prev - 1].term)
      && NewLog(f.log, req) == if prev == |l.log| then f.log else f.log[..prev] + l.log[prev..]
  {
  }

  lemma AppendKeepsWellFormed(rules: Rules, caller: Proc, self: NodeId, f: Node)
    requires caller.phase.Beating? && caller.phase.peer < |caller.node.nextIndex|
    requires WellFormed(caller) && WellFormed(Proc(f, Idle))
    ensures var req := BuildAppendRequest(caller.node, self, caller.phase.peer);
      WellFormed(Proc(HandleAppendEntries(rules, f, req).0, Idle))
  {
    var l := caller.node;
    var req := BuildAppendRequest(l, self, caller.phase.peer);
    if Accepts(f, req) {
      AppendedLog(l, self, caller.phase.peer, f);
      if req.entries != [] {
        SpliceWellFormed(f.log, l.log, req.prevLogIndex, req.term);
      }
    }
  }

  lemma ApplyKeepsWellFormed(p: Proc)
    requires WellFormed(p)
    ensures WellFormed(p.(node := ApplyCommitted(p.node)))
  {
  }

  lemma ActKeepsWellFormed(p: Proc, a: Action)
    requires WellFormed(p) && CanAct(p, a)
    ensures WellFormed(Act(p, a))
  {
    if a.Apply? {
      ApplyKeepsWellFormed(p);
    }
  }

  lemma StepKeepsWellFormed(cfg: Config, rules: Rules, s: State, a: Action, i: NodeId)
    requires Shape(cfg, s) && Enabled(cfg, s, a)
    requires i < |s| && WellFormed(s[i]) && WellFormed(s[a.id])
    ensures WellFormed(Next(cfg, rules, s, a)[i])
  {
    hide Act, HandleAppendEntries;
    if i != a.id && i != Other(cfg, s, a) {
      OnlyTwoChange(cfg, rules, s, a, i);
    } else if !IsDelivery(a) {
      EnabledIsReady(cfg, s, a);
      ActKeepsWellFormed(s[i], a);
    } else if i != a.id && a.DeliverAppend? {
      AppendKeepsWellFormed(rules, s[a.id], a.id, s[i].node);
    }
  }

  /** In every reachable state of every run every log is numbered 1, 2, ..., its terms are at
      least 1, non-decreasing and at most the current term, and the entries handed to the
      state machine so far are numbered 1, ..., last_applied: none skipped, none repeated. */
  lemma {:induction false} LogsWellFormed(cfg: Config, rules: Rules, r: Run, t: nat, i: NodeId)
    requires ValidRun(cfg, rules, r) && t < |r.states| && i < |r.states[t]|
    ensures WellFormed(r.states[t][i])
  {
    if t > 0 {
      assert ValidStep(cfg, rules, r.states[t - 1], r.actions[t - 1], r.states[t]);
      LogsWellFormed(cfg, rules, r, t - 1, i);
      LogsWellFormed(cfg, rules, r, t - 1, r.actions[t - 1].id);
      StepKeepsWellFormed(cfg, rules, r.states[t - 1], r.actions[t - 1], i);
    }
  }

  /** What one step may do to a node: terms never fall; a node that is leader before and after
      in one term has only appended; the state machine only receives more entries. */
  lemma StepIsMonotone(cfg: Config, rules: Rules, s: State, a: Action, i: NodeId)
    requires Shape(cfg, s) && Enabled(cfg, s, a) && i < |s|
    ensures var n, n' := s[i].node, Next(cfg, rules, s, a)[i].node;
      && n.currentTerm <= n'.currentTerm
      && n.applied <= n'.applied
      && (n.role == Leader == n'.role && n.currentTerm == n'.currentTerm ==> n.log <= n'.log)
  {
  }

  /** One call of the apply loop: it runs on to min(commit_index, log length) when that is
      ahead, and hands over exactly the entries in between; a log cut below last_applied stops it. */
  lemma ApplyReachesTarget(n: Node)
    ensures var target, n' := Min(n.commitIndex, |n.log|), ApplyCommitted(n);
      && n'.lastApplied == Max(n.lastApplied, target) && n.applied <= n'.applied
      && (n.lastApplied < target ==> n'.applied[|n.applied|..] == n.log[n.lastApplied..target])
      && (n.lastApplied >= target ==> n' == n)
      && n' == n.(lastApplied := n'.lastApplied, applied := n'.applied)
    ensures var n' := ApplyCommitted(n);
      && (|n.applied| == n.lastApplied ==> |n'.applied| == n'.lastApplied)
      && (|n.applied| == n.lastApplied && n.applied <= n.log ==> n'.applied == n.log[..n'.lastApplied])
  {
  }

  lemma {:induction false} RunIsMonotone(cfg: Config, rules: Rules, r: Run, t: nat, u: nat, i: NodeId)
    requires ValidRun(cfg, rules, r) && t <= u < |r.states| && i < |cfg.peers|
    ensures |r.states[t]| == |r.states[u]| == |cfg.peers|
    ensures r.states[t][i].node.currentTerm <= r.states[u][i].node.currentTerm
    ensures r.states[t][i].node.applied <= r.states[u][i].node.applied
  {
    if t < u {
      RunIsMonotone(cfg, rules, r, t, u - 1, i);
      assert ValidStep(cfg, rules, r.states[u - 1], r.actions[u - 1], r.states[u]);
      StepIsMonotone(cfg, rules, r.states[u - 1], r.actions[u - 1], i);
    } else if t > 0 {
      assert ValidStep(cfg, rules, r.states[t - 1], r.actions[t - 1], r.states[t]);
    }
  }
}
