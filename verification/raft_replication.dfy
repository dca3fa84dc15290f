/** What replication brings about: followers learn commits, and what is in a log was proposed. */
module RaftReplication {
  import opened Common
  import opened RaftSpec
  import opened RaftCluster
  import opened RaftLog
  import opened RaftHistory
  import opened RaftElection
  import opened RaftElectionSafety
  import opened RaftCommit
  import opened RaftSafety

  // ------------------------------------------------------------ commits travel

  /** The peer that serves the append request of step t accepts it. */
  ghost predicate AcceptedAt(cfg: Config, rules: Rules, r: Run, t: nat, f: NodeId)
    requires ValidRun(cfg, rules, r)
  {
    && t < |r.actions| && r.actions[t].DeliverAppend?
    && ValidStep(cfg, rules, r.states[t], r.actions[t], r.states[t + 1])
    && var s, a, s' := r.states[t], r.actions[t], r.states[t + 1];
       f == Other(cfg, s, a) && s'[a.id].phase.Beating? && s'[a.id].phase.ack.Answered?
       && s'[a.id].phase.ack.reply.success
  }

  /** A peer that accepts an append request knows afterwards every commit that the leader or itself
      knew before, and no other; what the leader knew to be committed is at the front of its log. */
  lemma CommitTravels(cfg: Config, rules: Rules, r: Run, t: nat, f: NodeId)
    requires ValidConfig(cfg) && SafeRun(cfg, rules, r) && AcceptedAt(cfg, rules, r, t, f)
    ensures var l, n, n' := r.states[t][r.actions[t].id].node, r.states[t][f].node, r.states[t + 1][f].node;
      && n'.commitIndex == Max(n.commitIndex, l.commitIndex)
      && l.commitIndex <= |l.log| && l.log <= n'.log
  {
    hide FullInv, Inv, HistoryInv, HistoryAt, StoreInv, KeepsAll, Tracks, Accepts;
    var s, a := r.states[t], r.actions[t];
    RunKeepsFull(cfg, rules, r, t);
    CommitBounds(cfg, rules, HistoryAt(cfg, rules, r, t), s, a.id);
    AcceptCopiesLeader(cfg, rules, r, t);
    HeardCommit(rules, s[f].node, BuildAppendRequest(s[a.id].node, a.id, s[a.id].phase.peer));
  }

  /** One successful call: the commit index rises to the leader's, as far as the log goes. */
  lemma HeardCommit(rules: Rules, n: Node, req: AppendRequest)
    ensures var (n', reply) := HandleAppendEntries(rules, n, req);
      reply.success && req.leaderCommit <= |n'.log| ==> n'.commitIndex == Max(n.commitIndex, req.leaderCommit)
  {
  }

  /** What a node knows to be committed it knows for good. */
  lemma {:induction false} CommitStays(cfg: Config, rules: Rules, r: Run, t: nat, u: nat, i: NodeId)
    requires ValidConfig(cfg) && SafeRun(cfg, rules, r) && t <= u < |r.states| && i < |cfg.peers|
    ensures |r.states[t]| == |r.states[u]| == |cfg.peers|
    ensures var n, n' := r.states[t][i].node, r.states[u][i].node;
      n.commitIndex <= n'.commitIndex <= |n'.log| && n.commitIndex <= |n.log|
      && n.log[..n.commitIndex] == n'.log[..n.commitIndex]
  {
    hide FullInv, HistoryAt, ValidStep, MatchSafe;
    if t == u {
      RunKeepsFull(cfg, rules, r, t);
      ShapeOf(cfg, rules, r, t);
      CommitBounds(cfg, rules, HistoryAt(cfg, rules, r, t), r.states[t], i);
    } else {
      CommitStays(cfg, rules, r, t, u - 1, i);
      CommitIsStable(cfg, rules, r, u - 1, i);
      var n, m, n' := r.states[t][i].node, r.states[u - 1][i].node, r.states[u][i].node;
      assert m.log[..m.commitIndex][..n.commitIndex] == m.log[..n.commitIndex];
      assert n'.log[..m.commitIndex][..n.commitIndex] == n'.log[..n.commitIndex];
    }
  }

  lemma ShapeOf(cfg: Config, rules: Rules, r: Run, t: nat)
    requires ValidConfig(cfg) && SafeRun(cfg, rules, r) && t < |r.states|
    ensures |r.states[t]| == |cfg.peers|
  {
    RunKeepsFull(cfg, rules, r, t);
  }

  /** A follower catches up: once it has accepted an append request, its next run of the apply loop,
      whenever that is, has applied all that the leader knew to be committed when it called. */
  lemma FollowerCatchesUp(cfg: Config, rules: Rules, r: Run, t: nat, u: nat, f: NodeId)
    requires ValidConfig(cfg) && SafeRun(cfg, rules, r) && AcceptedAt(cfg, rules, r, t, f)
    requires t < u < |r.actions| && r.actions[u] == Action.Apply(f)
    ensures f < |r.states[u + 1]| && r.actions[t].id < |r.states[t]|
    ensures var l, n' := r.states[t][r.actions[t].id].node, r.states[u + 1][f].node;
      l.commitIndex <= |l.log| && l.log[..l.commitIndex] <= n'.applied
  {
    hide FullInv, Inv, HistoryAt, MatchSafe, ApplyCommitted, HandleAppendEntries, BuildAppendRequest;
    var l := r.states[t][r.actions[t].id].node;
    CommitTravels(cfg, rules, r, t, f);
    ShapeOf(cfg, rules, r, t);
    CommitStays(cfg, rules, r, t + 1, u, f);
    AppliesAll(cfg, rules, r, u, f);
    var m, n, n' := r.states[t + 1][f].node, r.states[u][f].node, r.states[u + 1][f].node;
    var c := l.commitIndex;
    assert l.log[..c] == m.log[..c] == m.log[..m.commitIndex][..c] == n.log[..m.commitIndex][..c] == n.log[..c];
    assert n'.applied[..c] == n.log[..c];
  }

  /** A run of the apply loop ends with everything applied that is known to be committed. */
  lemma AppliesAll(cfg: Config, rules: Rules, r: Run, u: nat, f: NodeId)
    requires ValidConfig(cfg) && SafeRun(cfg, rules, r)
    requires u < |r.actions| && r.actions[u] == Action.Apply(f)
    ensures f < |r.states[u]| == |r.states[u + 1]| == |cfg.peers|
    ensures var n, n' := r.states[u][f].node, r.states[u + 1][f].node;
      n.commitIndex <= |n.log| && n'.lastApplied == n.commitIndex && n'.applied == n.log[..n.commitIndex]
  {
    hide FullInv, HistoryAt, MatchSafe, ApplyCommitted;
    assert ValidStep(cfg, rules, r.states[u], r.actions[u], r.states[u + 1]);
    RunKeepsFull(cfg, rules, r, u);
    CommitBounds(cfg, rules, HistoryAt(cfg, rules, r, u), r.states[u], f);
    ApplyReachesTarget(r.states[u][f].node);
  }

  // -------------------------------------------------------- entries were proposed

  /** Step u is the proposal that made entry e: its operation, its data, the proposer's term and the
      next free index of the proposer's log, by a leader. */
  predicate ProposedAt(r: Run, u: nat, e: Entry) {
    && u < |r.actions| && u < |r.states| && r.actions[u].Propose? && r.actions[u].id < |r.states[u]|
    && var l := r.states[u][r.actions[u].id].node;
       && l.role == Leader && e.term == l.currentTerm && e.index == |l.log| + 1
       && e.operation == r.actions[u].operation && e.data == r.actions[u].data
  }

  ghost predicate ProposedBefore(r: Run, t: nat, e: Entry) {
    exists u :: 0 <= u < t && ProposedAt(r, u, e)
  }

  /** Where the entries of a log come from in one step: from that log, from the log of the node that
      calls, or from a proposal. */
  lemma StepSources(cfg: Config, rules: Rules, s: State, a: Action, i: NodeId, e: Entry)
    requires Shape(cfg, s) && Enabled(cfg, s, a) && i < |s| && e in Next(cfg, rules, s, a)[i].node.log
    ensures || e in s[i].node.log || e in s[a.id].node.log
            || (a.Propose? && s[a.id].node.role == Leader
                && e == Entry(s[a.id].node.currentTerm, |s[a.id].node.log| + 1, a.operation, a.data))
  {
    hide HandleRequestVote;
    if i == Other(cfg, s, a) && a.DeliverAppend? {
      AppendSources(rules, s[i].node, s[a.id].node, a.id, s[a.id].phase.peer, e);
    } else if i == Other(cfg, s, a) && a.DeliverVote? {
      VoteKeepsLog(s[i].node, s[a.id].phase.request);
    } else if i == a.id && !IsDelivery(a) {
      ActSources(s[i], a, e);
    }
  }

  lemma VoteKeepsLog(n: Node, req: VoteRequest)
    ensures HandleRequestVote(n, req).0.log == n.log
  {
  }

  lemma AppendSources(rules: Rules, f: Node, l: Node, self: NodeId, peer: nat, e: Entry)
    requires peer < |l.nextIndex|
    requires e in HandleAppendEntries(rules, f, BuildAppendRequest(l, self, peer)).0.log
    ensures e in f.log || e in l.log
  {
  }

  lemma ActSources(p: Proc, a: Action, e: Entry)
    requires CanAct(p, a) && e in Act(p, a).node.log
    ensures || e in p.node.log
            || (a.Propose? && p.node.role == Leader
                && e == Entry(p.node.currentTerm, |p.node.log| + 1, a.operation, a.data))
  {
  }

  lemma AppliedSources(cfg: Config, rules: Rules, s: State, a: Action, i: NodeId, e: Entry)
    requires Shape(cfg, s) && Enabled(cfg, s, a) && i < |s| && e in Next(cfg, rules, s, a)[i].node.applied
    ensures e in s[i].node.applied || e in s[i].node.log
  {
  }

  /** Validity, in every run and with either departure: every entry in a log or handed to a state
      machine was put there by an earlier proposal with that operation and that data, taken by the
      leader of the entry's term. */
  lemma {:induction false} EntriesWereProposed(cfg: Config, rules: Rules, r: Run, t: nat, i: NodeId, e: Entry)
    requires ValidRun(cfg, rules, r) && t < |r.states| && i < |r.states[t]|
    requires e in r.states[t][i].node.log || e in r.states[t][i].node.applied
    ensures ProposedBefore(r, t, e)
  {
    hide ProposedBefore, Enabled, Next;
    if t > 0 {
      var s, a := r.states[t - 1], r.actions[t - 1];
      assert ValidStep(cfg, rules, s, a, r.states[t]);
      ActorInRange(cfg, s, a);
      if e in r.states[t][i].node.applied {
        AppliedSources(cfg, rules, s, a, i, e);
      } else {
        StepSources(cfg, rules, s, a, i, e);
      }
      if e in s[i].node.log || e in s[i].node.applied {
        EntriesWereProposed(cfg, rules, r, t - 1, i, e);
        Earlier(r, t - 1, e);
      } else if e in s[a.id].node.log {
        EntriesWereProposed(cfg, rules, r, t - 1, a.id, e);
        Earlier(r, t - 1, e);
      } else {
        JustProposed(r, t - 1, e);
      }
    }
  }

  lemma ActorInRange(cfg: Config, s: State, a: Action)
    requires Shape(cfg, s) && Enabled(cfg, s, a)
    ensures a.id < |s|
  {
  }

  lemma Earlier(r: Run, t: nat, e: Entry)
    requires ProposedBefore(r, t, e)
    ensures ProposedBefore(r, t + 1, e)
  {
  }

  lemma JustProposed(r: Run, t: nat, e: Entry)
    requires ProposedAt(r, t, e)
    ensures ProposedBefore(r, t + 1, e)
  {
  }

  /** And a proposal that a leader takes is the last entry of its log, with that operation and data. */
  lemma ProposalIsStored(cfg: Config, rules: Rules, r: Run, u: nat)
    requires ValidRun(cfg, rules, r) && u < |r.actions| && r.actions[u].Propose?
    ensures r.actions[u].id < |r.states[u]| == |r.states[u + 1]|
    ensures var a := r.actions[u]; var n, n' := r.states[u][a.id].node, r.states[u + 1][a.id].node;
      if n.role == Leader then
        |n'.log| == |n.log| + 1 && n.log <= n'.log && ProposedAt(r, u, n'.log[|n.log|])
      else n' == n
  {
    assert ValidStep(cfg, rules, r.states[u], r.actions[u], r.states[u + 1]);
  }
}
