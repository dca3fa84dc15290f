/** The two places where the code departs from the Raft paper: when exactly one call does what
    safety needs. */
module RaftDivergence {
  import opened Common
  import opened RaftSpec
  import opened RaftCluster
  import opened RaftLog

  // ------------------------------------------------------ one call at a time

  /** handleAppendEntries forgets the vote of the current term exactly when the request is of
      that term and a vote had been cast. */
  lemma VoteForgottenExactly(n: Node, req: AppendRequest)
    ensures var n' := HandleAppendEntries(AS_WRITTEN, n, req).0;
      (n'.currentTerm == n.currentTerm && n'.votedFor != n.votedFor) <==>
          (req.term == n.currentTerm && n.votedFor.Some?)
    ensures var n' := HandleAppendEntries(INTENDED, n, req).0;
      n'.currentTerm == n.currentTerm ==> n'.votedFor == n.votedFor
  {
  }

  /** A node that has voted grants a second candidate of the same term its vote exactly when
      an AppendEntries of that term came in between; by the intended rule it never does. */
  lemma SecondVoteExactly(n: Node, append: AppendRequest, vote: VoteRequest)
    requires n.votedFor.Some? && vote.candidateId != n.votedFor.value && vote.term == n.currentTerm
    requires UpToDate(vote.lastLogTerm, vote.lastLogIndex, HandleAppendEntries(AS_WRITTEN, n, append).0.log)
    ensures HandleRequestVote(HandleAppendEntries(AS_WRITTEN, n, append).0, vote).1.granted <==>
        append.term == n.currentTerm
    ensures !HandleRequestVote(HandleAppendEntries(INTENDED, n, append).0, vote).1.granted
  {
  }

  /** The match index of an accepting follower claims no more than was compared with the
      leader exactly when the call is not a bare heartbeat to a longer log. */
  lemma MatchReportExactly(n: Node, req: AppendRequest)
    requires Accepts(n, req)
    ensures HandleAppendEntries(AS_WRITTEN, n, req).1.matchIndex == req.prevLogIndex + |req.entries| <==>
        !OverReport(n, req)
    ensures HandleAppendEntries(INTENDED, n, req).1.matchIndex == req.prevLogIndex + |req.entries|
  {
  }

  /** handleAppendEntries lowers the commit index exactly when it truncates below it and the
      leader's commit index is higher. */
  lemma CommitFallsExactly(rules: Rules, n: Node, req: AppendRequest)
    ensures HandleAppendEntries(rules, n, req).0.commitIndex < n.commitIndex <==>
      Accepts(n, req) && req.leaderCommit > n.commitIndex && |NewLog(n.log, req)| < n.commitIndex
  {
  }

  /** With the intended rules every run is a safe run. */
  lemma IntendedRunsAreSafe(cfg: Config, r: Run)
    ensures SafeRun(cfg, INTENDED, r) <==> ValidRun(cfg, INTENDED, r)
  {
    if ValidRun(cfg, INTENDED, r) {
      forall i | 0 <= i < |r.actions|
        ensures VoteSafe(cfg, INTENDED, r.states[i], r.actions[i])
            && MatchSafe(cfg, INTENDED, r.states[i], r.actions[i])
      {
        assert ValidStep(cfg, INTENDED, r.states[i], r.actions[i], r.states[i + 1]);
      }
    }
  }
}
