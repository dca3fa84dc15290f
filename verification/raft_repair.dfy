/** Log repair between one leader and one follower: the leader steps back one entry for every
    rejection until the follower accepts. */
module RaftRepair {
  import opened Common
  import opened RaftSpec
  import opened RaftLog

  datatype Repaired = Repaired(leader: Node, follower: Node, rejections: nat)

  /** Heartbeats to one peer, reply by reply, up to the first that is not a rejection (or that
      a leader at next index 1 cannot answer by stepping back). */
  function Repair(rules: Rules, l: Node, self: NodeId, peer: nat, f: Node): (r: Repaired)
    requires peer < |l.nextIndex| == |l.matchIndex|
    ensures |r.leader.nextIndex| == |r.leader.matchIndex| == |l.nextIndex|
    decreases l.nextIndex[peer] as int
  {
    var (f', reply) := HandleAppendEntries(rules, f, BuildAppendRequest(l, self, peer));
    var l' := HandleAppendReply(l, peer, reply);
    if reply.success || reply.term > l.currentTerm || l.nextIndex[peer] == 1 then
      Repaired(l', f', 0)
    else
      var r := Repair(rules, l', self, peer, f');
      r.(rejections := r.rejections + 1)
  }

  /** The two logs agree on the term of the entry before index x, or x is the first index. */
  predicate Fits(leader: seq<Entry>, follower: seq<Entry>, x: Index) {
    var prev: nat := (x as int) - 1;
    prev == 0 || (prev <= |follower| && prev <= |leader| && follower[prev - 1].term == leader[prev - 1].term)
  }

  /** Log matching between two logs. */
  ghost predicate MatchingLogs(a: seq<Entry>, b: seq<Entry>) {
    forall k :: 0 < k <= |a| && k <= |b| && a[k - 1].term == b[k - 1].term ==> a[..k] == b[..k]
  }

  /** With a stable leader repair ends: the next index drops by one per rejection, the follower
      accepts at the first index at which the logs fit, at the latest at index 1, and its log
      then begins with the leader's whole log. The leader's log is not touched. */
  lemma {:induction false} RepairSucceeds(rules: Rules, l: Node, self: NodeId, peer: nat, f: Node)
    requires peer < |l.nextIndex| == |l.matchIndex| && l.role == Leader
    requires f.currentTerm <= l.currentTerm && TermsWithin(f.log, f.currentTerm) && MatchingLogs(l.log, f.log)
    ensures var r, next := Repair(rules, l, self, peer, f), l.nextIndex[peer] as int;
      && r.rejections < next && Fits(l.log, f.log, next - r.rejections)
      && (forall x: Index :: next - r.rejections < x as int <= next ==> !Fits(l.log, f.log, x))
      && l.log <= r.follower.log && r.follower.currentTerm == l.currentTerm
      && r.leader.log == l.log && r.leader.nextIndex[peer] == r.leader.matchIndex[peer] + 1 >= |l.log| + 1
    decreases l.nextIndex[peer] as int
  {
    hide MatchingLogs, HandleAppendEntries, HandleAppendReply, BuildAppendRequest, TermsWithin;
    var req := BuildAppendRequest(l, self, peer);
    var (f', reply) := HandleAppendEntries(rules, f, req);
    var l' := HandleAppendReply(l, peer, reply);
    if Fits(l.log, f.log, l.nextIndex[peer]) {
      AcceptedWhole(rules, l, self, peer, f);
    } else {
      RejectedStep(rules, l, self, peer, f);
      RepairSucceeds(rules, l', self, peer, f');
    }
  }

  lemma RejectedStep(rules: Rules, l: Node, self: NodeId, peer: nat, f: Node)
    requires peer < |l.nextIndex| == |l.matchIndex| && l.role == Leader
    requires f.currentTerm <= l.currentTerm && TermsWithin(f.log, f.currentTerm)
    requires !Fits(l.log, f.log, l.nextIndex[peer])
    ensures var (f', reply) := HandleAppendEntries(rules, f, BuildAppendRequest(l, self, peer));
      var l' := HandleAppendReply(l, peer, reply);
      && !reply.success && reply.term <= l.currentTerm && l.nextIndex[peer] > 1
      && f'.log == f.log && f'.currentTerm == l.currentTerm && TermsWithin(f'.log, f'.currentTerm)
      && l' == l.(nextIndex := l.nextIndex[peer := l.nextIndex[peer] - 1])
  {
  }

  lemma AcceptedWhole(rules: Rules, l: Node, self: NodeId, peer: nat, f: Node)
    requires peer < |l.nextIndex| == |l.matchIndex| && l.role == Leader
    requires f.currentTerm <= l.currentTerm && TermsWithin(f.log, f.currentTerm) && MatchingLogs(l.log, f.log)
    requires Fits(l.log, f.log, l.nextIndex[peer])
    ensures var (f', reply) := HandleAppendEntries(rules, f, BuildAppendRequest(l, self, peer));
      var l' := HandleAppendReply(l, peer, reply);
      && reply.success && reply.term <= l.currentTerm && reply.matchIndex >= |l.log|
      && l.log <= f'.log && f'.currentTerm == l.currentTerm && l'.log == l.log
      && l'.nextIndex[peer] == l'.matchIndex[peer] + 1 == reply.matchIndex + 1
  {
  }
}
