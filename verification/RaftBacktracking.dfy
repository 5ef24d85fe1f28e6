/** The leader's search for the point where a follower's log agrees with its own: a stable leader needs
    exactly one rejection per index down to it. */
module RaftBacktracking {
  import opened RaftTypes
  import opened RaftHandlers
  import opened RaftLog

  // Lockstep: one request, one reply

  /** A leader and a follower that meet at least at the sentinel. */
  ghost predicate Meets(l: NodeState, f: NodeState) {
    l.role == Leader && f.term <= l.term && |l.log| > 0 && |f.log| > 0 && l.log[0].term == f.log[0].term
  }

  ghost function FollowerAfter(self: NodeId, l: NodeState, f: NodeState, p: NodeId): NodeState
    requires Meets(l, f)
  {
    AfterAppend(f, AppendFor(self, l, p, 0))
  }

  /** The leader after a rejection. */
  ghost function LeaderAfter(c: Cluster, self: NodeId, l: NodeState, f: NodeState, p: NodeId): NodeState
    requires Meets(l, f) && c.members != {}
  {
    AfterAppendReply(c, self, AfterSend(l, p),
      AppendReply(AppendFor(self, l, p, 0), FollowerAfter(self, l, f, p).term, false))
  }

  lemma Rejected(c: Cluster, self: NodeId, l: NodeState, f: NodeState, p: NodeId)
    requires Meets(l, f) && c.members != {} && !Accepts(f, AppendFor(self, l, p, 0))
    ensures var l', f' := LeaderAfter(c, self, l, f, p), FollowerAfter(self, l, f, p);
      && Meets(l', f') && l'.log == l.log && f'.log == f.log && l'.term == l.term
      && NextFor(l, p) >= 2 && NextFor(l', p) == NextFor(l, p) - 1
  {
  }

  ghost function Rejections(c: Cluster, self: NodeId, l: NodeState, f: NodeState, p: NodeId): nat
    requires Meets(l, f) && c.members != {}
    decreases NextFor(l, p)
  {
    if Accepts(f, AppendFor(self, l, p, 0)) then 0
    else
      Rejected(c, self, l, f, p);
      1 + Rejections(c, self, LeaderAfter(c, self, l, f, p), FollowerAfter(self, l, f, p), p)
  }

  /** The follower when the search is over. */
  ghost function Settled(c: Cluster, self: NodeId, l: NodeState, f: NodeState, p: NodeId): NodeState
    requires Meets(l, f) && c.members != {}
    decreases NextFor(l, p)
  {
    if Accepts(f, AppendFor(self, l, p, 0)) then FollowerAfter(self, l, f, p)
    else
      Rejected(c, self, l, f, p);
      Settled(c, self, LeaderAfter(c, self, l, f, p), FollowerAfter(self, l, f, p), p)
  }

  /** The greatest index up to `hi` at which both logs have the same term. */
  ghost function MeetingPoint(a: seq<Entry>, b: seq<Entry>, hi: nat): (m: nat)
    requires hi < |a| && |b| > 0 && a[0].term == b[0].term
    ensures m <= hi && m < |b| && a[m].term == b[m].term
    ensures forall j | m < j <= hi && j < |b| :: a[j].term != b[j].term
  {
    if hi < |b| && a[hi].term == b[hi].term then hi else MeetingPoint(a, b, hi - 1)
  }

  /** One rejection for each index from the next index down to the meeting point, so at most
      `nextIndex - 1` of them. */
  lemma {:induction false} RejectionCount(c: Cluster, self: NodeId, l: NodeState, f: NodeState, p: NodeId)
    requires Meets(l, f) && c.members != {}
    ensures NextFor(l, p) >= 1
    ensures Rejections(c, self, l, f, p) == NextFor(l, p) - 1 - MeetingPoint(l.log, f.log, NextFor(l, p) - 1)
    decreases NextFor(l, p)
  {
    if !Accepts(f, AppendFor(self, l, p, 0)) {
      Rejected(c, self, l, f, p);
      hide LeaderAfter, FollowerAfter, Meets;
      RejectionCount(c, self, LeaderAfter(c, self, l, f, p), FollowerAfter(self, l, f, p), p);
    }
  }

  /** Two consistent logs: the search ends with the follower holding the leader's log. */
  lemma {:induction false} SearchConverges(c: Cluster, self: NodeId, l: NodeState, f: NodeState, p: NodeId,
        tl: TermLogs)
    requires Meets(l, f) && c.members != {} && LogOk(tl, l.log) && LogOk(tl, f.log)
    ensures Settled(c, self, l, f, p).log == l.log
    decreases NextFor(l, p)
  {
    var r := AppendFor(self, l, p, 0);
    if Accepts(f, r) {
      SamePrefix(tl, f.log, l.log, r.prevIndex);
      forall k: nat | r.prevIndex < k < |l.log|
        ensures Spliced(f.log, r)[k] == l.log[k] { assert EntryOk(tl, l.log, k); }
    } else {
      Rejected(c, self, l, f, p);
      hide LeaderAfter, FollowerAfter, LogOk;
      SearchConverges(c, self, LeaderAfter(c, self, l, f, p), FollowerAfter(self, l, f, p), p, tl);
    }
  }
}
