/** State Machine Safety: what a node has committed or applied, a quorum holds in some term, and
    so no two nodes ever apply different entries at one index. */
module RaftCommit {
  import opened RaftTypes
  import opened RaftHandlers
  import opened RaftSystem
  import opened Quorums
  import opened RaftElection
  import opened RaftLog
  import opened RaftRetention

  ghost predicate AllBeyond(acks: Acks, q: set<NodeId>, t: nat, i: nat) {
    forall v | v in q :: Beyond(acks, v, t, i)
  }

  /** A commit quorum has held entry `i` of term `t` in that term, and the entry was created in it. */
  ghost predicate Committed(c: Cluster, acks: Acks, tl: TermLogs, t: nat, i: nat) {
    Own(tl, t, i) && exists q :: CommitQuorum(c, q) && AllBeyond(acks, q, t, i)
  }

  lemma CommittedLater(c: Cluster, acks: Acks, tl: TermLogs, acks': Acks, tl': TermLogs, t: nat, i: nat)
    requires Committed(c, acks, tl, t, i) && acks <= acks' && Extends(tl, tl')
    ensures Committed(c, acks', tl', t, i)
  {
    var q :| CommitQuorum(c, q) && AllBeyond(acks, q, t, i);
    forall v | v in q ensures Beyond(acks', v, t, i) {
      var k: nat :| k > i && Ack(v, t, k) in acks;
      assert Ack(v, t, k) in acks';
    }
    assert AllBeyond(acks', q, t, i);
    hide CommitQuorum;
  }

  /** What is committed can be committed, in a term that was won. */
  lemma CommittedChoosable(c: Cluster, nodes: Nodes, elections: Elections, acks: Acks, tl: TermLogs, t: nat, i: nat)
    requires AcksOk(nodes, elections, tl, acks) && Committed(c, acks, tl, t, i)
    ensures t in elections && Choosable(c, nodes, acks, t, i)
  {
    var q :| CommitQuorum(c, q) && AllBeyond(acks, q, t, i);
    forall v | v in q ensures t in elections && MayHold(nodes, acks, v, t, i) {
      var k: nat :| k > i && Ack(v, t, k) in acks;
      assert AckOk(nodes, elections, tl, Ack(v, t, k));
    }
    assert AllMayHold(nodes, acks, q, t, i);
    assert |q| > 0;
    var v :| v in q;
  }

  // The invariant

  /** The committed prefix of a node's log is committed in some term up to its own. */
  ghost predicate Witness(c: Cluster, acks: Acks, tl: TermLogs, n: NodeId, x: NodeState, t: nat, i: nat) {
    && Committed(c, acks, tl, t, i)
    && x.commitIndex <= i && t <= x.term && Agree(x.log, tl[t], x.commitIndex + 1)
    && (t == x.term ==> Beyond(acks, n, t, x.commitIndex))
  }

  ghost predicate Justified(c: Cluster, acks: Acks, tl: TermLogs, n: NodeId, x: NodeState) {
    x.commitIndex == 0 || exists t: nat, i: nat :: Witness(c, acks, tl, n, x, t, i)
  }

  /** The state machine has been given the log, in order, up to `lastApplied`. */
  ghost predicate AppliedOk(x: NodeState) {
    && x.lastApplied <= x.commitIndex < |x.log|
    && x.applied == x.log[1..x.lastApplied + 1]
  }

  /** A leader has its whole log, and its record of a peer is no more than the peer has held. */
  ghost predicate BookOk(acks: Acks, n: NodeId, x: NodeState) {
    x.role == Leader ==>
      && Ack(n, x.term, |x.log|) in acks
      && forall p | p in x.matchIndex && x.matchIndex[p] > 0 :: Beyond(acks, p, x.term, x.matchIndex[p])
  }

  ghost predicate CommitsOk(c: Cluster, nodes: Nodes, acks: Acks, tl: TermLogs) {
    forall n | n in nodes :: AppliedOk(nodes[n]) && Justified(c, acks, tl, n, nodes[n]) && BookOk(acks, n, nodes[n])
  }

  ghost predicate Announced(c: Cluster, acks: Acks, tl: TermLogs, r: AppendRequest, t: nat, i: nat) {
    Committed(c, acks, tl, t, i) && r.leaderCommit <= i && t <= r.term && r.term in tl
    && Agree(tl[t], tl[r.term], r.leaderCommit + 1)
  }

  ghost predicate AnnouncedOk(c: Cluster, acks: Acks, tl: TermLogs, r: AppendRequest) {
    r.leaderCommit == 0 || exists t: nat, i: nat :: Announced(c, acks, tl, r, t, i)
  }

  ghost predicate AnnouncementsOk(c: Cluster, acks: Acks, tl: TermLogs, requests: set<AppendRequest>) {
    forall r | r in requests :: AnnouncedOk(c, acks, tl, r)
  }

  ghost predicate RepliesOk(acks: Acks, requests: set<AppendRequest>, replies: set<AppendReply>) {
    forall r | r in replies :: r.req in requests
      && (r.success ==> Ack(r.req.follower, r.req.term, r.req.Length()) in acks)
  }

  ghost predicate CommitInv(c: Cluster, s: System) {
    && CommitsOk(c, s.nodes, s.acks, s.termLog)
    && AnnouncementsOk(c, s.acks, s.termLog, s.appendRequests)
    && RepliesOk(s.acks, s.appendRequests, s.appendReplies)
  }

  lemma CommitInvInitial(c: Cluster)
    requires c.members != {}
    ensures CommitInv(c, Initial(c))
  {
  }

  // Carrying the invariant to a later state

  lemma JustifiedLater(c: Cluster, acks: Acks, tl: TermLogs, acks': Acks, tl': TermLogs, n: NodeId, x: NodeState,
        y: NodeState)
    requires Justified(c, acks, tl, n, x) && acks <= acks' && Extends(tl, tl')
    requires y.commitIndex == x.commitIndex && x.term <= y.term && Agree(x.log, y.log, x.commitIndex + 1)
    ensures Justified(c, acks', tl', n, y)
  {
    if x.commitIndex > 0 {
      var t: nat, i: nat :| Witness(c, acks, tl, n, x, t, i);
      CommittedLater(c, acks, tl, acks', tl', t, i);
      assert Witness(c, acks', tl', n, y, t, i) by { hide Committed; }
    }
  }

  lemma AnnouncementsLater(c: Cluster, acks: Acks, tl: TermLogs, acks': Acks, tl': TermLogs,
        requests: set<AppendRequest>)
    requires AnnouncementsOk(c, acks, tl, requests) && acks <= acks' && Extends(tl, tl')
    ensures AnnouncementsOk(c, acks', tl', requests)
  {
    forall r | r in requests ensures AnnouncedOk(c, acks', tl', r) {
      assert AnnouncedOk(c, acks, tl, r);
      if r.leaderCommit > 0 {
        var t: nat, i: nat :| Announced(c, acks, tl, r, t, i);
        CommittedLater(c, acks, tl, acks', tl', t, i);
        assert Announced(c, acks', tl', r, t, i) by { hide Committed; }
      }
    }
  }

  lemma BookLater(acks: Acks, acks': Acks, n: NodeId, x: NodeState)
    requires BookOk(acks, n, x) && acks <= acks'
    ensures BookOk(acks', n, x)
  {
    if x.role == Leader {
      forall p | p in x.matchIndex && x.matchIndex[p] > 0 ensures Beyond(acks', p, x.term, x.matchIndex[p]) {
        var k: nat :| k > x.matchIndex[p] && Ack(p, x.term, k) in acks;
        assert Ack(p, x.term, k) in acks';
      }
    }
  }

  lemma CommitsLater(c: Cluster, nodes: Nodes, acks: Acks, tl: TermLogs, n: NodeId, y: NodeState, acks': Acks,
        tl': TermLogs)
    requires CommitsOk(c, nodes, acks, tl) && acks <= acks' && Extends(tl, tl')
    requires AppliedOk(y) && Justified(c, acks', tl', n, y) && BookOk(acks', n, y)
    ensures CommitsOk(c, nodes[n := y], acks', tl')
  {
    forall m | m in nodes && m != n
      ensures AppliedOk(nodes[m]) && Justified(c, acks', tl', m, nodes[m]) && BookOk(acks', m, nodes[m])
    {
      JustifiedLater(c, acks, tl, acks', tl', m, nodes[m], nodes[m]);
      BookLater(acks, acks', m, nodes[m]);
    }
    hide AppliedOk, Justified, BookOk;
  }

  lemma ExtendsItself(tl: TermLogs)
    ensures Extends(tl, tl)
  {
  }

  /** What is committed survives the arrival of a leader's log. */
  lemma SnapshotKeepsCommitted(c: Cluster, s: System, r: AppendRequest)
    requires LogInv(s) && RetentionInv(c, s) && CommitInv(c, s)
    requires r in s.appendRequests && r.follower in s.nodes && Accepts(s.nodes[r.follower], r)
    requires NoShrink(s, DeliverAppend(r))
    ensures var x, y := s.nodes[r.follower], AfterAppend(s.nodes[r.follower], r);
      x.commitIndex < |y.log| && Agree(x.log, y.log, x.commitIndex + 1)
  {
    hide TermRetains, NodesRetain, CandidatesRetain, VoteRequestsOk, LogInv, AnnouncementsOk;
    hide RepliesOk, AfterAppend, NoShrink, AcksOk;
    var n, x := r.follower, s.nodes[r.follower];
    AcceptFacts(s, r);
    LogInvAt(s, r);
    assert Justified(c, s.acks, s.termLog, n, x);
    hide CommitsOk, RetentionInv;
    if x.commitIndex > 0 {
      var t: nat, i: nat :| Witness(c, s.acks, s.termLog, n, x, t, i);
      if t < r.term {
        LaterLeaderAgrees(c, s, r.term, t, i);
      } else {
        SameTermCovered(s, r, x.commitIndex);
      }
    }
  }

  /** The leader of a later term has the entry. */
  lemma LaterLeaderAgrees(c: Cluster, s: System, u: nat, t: nat, i: nat)
    requires RetentionInv(c, s) && Committed(c, s.acks, s.termLog, t, i) && t < u && u in s.elections
    ensures Agree(s.termLog[t], s.termLog[u], i + 1)
  {
    hide TermRetains, NodesRetain, CandidatesRetain, VoteRequestsOk, AcksOk;
    CommittedChoosable(c, s.nodes, s.elections, s.acks, s.termLog, t, i);
  }

  lemma SameTermCovered(s: System, r: AppendRequest, ci: nat)
    requires NoShrink(s, DeliverAppend(r)) && r.follower in s.nodes && Accepts(s.nodes[r.follower], r)
    requires Beyond(s.acks, r.follower, r.term, ci)
    ensures ci < r.Length()
  {
    var k: nat :| k > ci && Ack(r.follower, r.term, k) in s.acks;
  }

  lemma LogInvAt(s: System, r: AppendRequest)
    requires LogInv(s) && r in s.appendRequests && r.follower in s.nodes && r.term in s.termLog
    ensures r.term in s.elections && StartOk(s.termLog[r.term], r.term, s.elections[r.term].start)
    ensures |s.nodes[r.follower].log| > 0 && s.nodes[r.follower].log[0] == SENTINEL
    ensures |s.termLog[r.term]| > 0 && s.termLog[r.term][0] == SENTINEL
  {
    hide EntryOk, Sorted;
    RequestOkAt(s, r);
    NodeLogOkAt(s, r.follower);
    StartOkIn(s.termLog, s.elections, r.term);
    LogOkIn(s.termLog, s.elections, r.term);
  }

  // Steps

  lemma CommitAt(c: Cluster, s: System, n: NodeId)
    requires CommitInv(c, s) && n in s.nodes
    ensures AppliedOk(s.nodes[n]) && Justified(c, s.acks, s.termLog, n, s.nodes[n]) && BookOk(s.acks, n, s.nodes[n])
  {
    hide AppliedOk, Justified, BookOk, AnnouncementsOk, RepliesOk;
  }

  /** A node that neither commits nor changes its log. */
  lemma CommitsQuiet(c: Cluster, s: System, n: NodeId, y: NodeState)
    requires CommitInv(c, s) && n in s.nodes
    requires var x := s.nodes[n];
      && y.log == x.log && y.commitIndex == x.commitIndex && y.lastApplied == x.lastApplied && y.applied == x.applied
      && y.term >= x.term
      && (y.role == Leader ==> x.role == Leader && y.term == x.term && y.matchIndex == x.matchIndex)
    ensures CommitsOk(c, s.nodes[n := y], s.acks, s.termLog)
  {
    hide CommitsOk, Justified, Extends, AnnouncementsOk, RepliesOk;
    CommitAt(c, s, n);
    ExtendsItself(s.termLog);
    JustifiedLater(c, s.acks, s.termLog, s.acks, s.termLog, n, s.nodes[n], y);
    CommitsLater(c, s.nodes, s.acks, s.termLog, n, y, s.acks, s.termLog);
  }

  lemma CommitApply(c: Cluster, s: System, n: NodeId)
    requires CommitInv(c, s) && n in s.nodes && s.nodes[n].lastApplied < s.nodes[n].commitIndex
    ensures s.nodes[n].lastApplied + 1 < |s.nodes[n].log|
    ensures CommitInv(c, AfterApply(s, n))
  {
    CommitAt(c, s, n);
    hide CommitsOk, Justified, Extends, AnnouncementsOk, RepliesOk;
    var x, y := s.nodes[n], ApplyNext(s.nodes[n]);
    ExtendsItself(s.termLog);
    JustifiedLater(c, s.acks, s.termLog, s.acks, s.termLog, n, x, y);
    CommitsLater(c, s.nodes, s.acks, s.termLog, n, y, s.acks, s.termLog);
  }

  lemma SendAnnounces(c: Cluster, s: System, n: NodeId, peer: NodeId)
    requires LogInv(s) && CommitInv(c, s) && n in s.nodes && s.nodes[n].role == Leader && |s.nodes[n].log| > 0
    ensures AnnouncedOk(c, s.acks, s.termLog, AppendFor(n, s.nodes[n], peer, s.sent))
  {
    hide LogInv, CommitInv, Committed;
    var x, r := s.nodes[n], AppendFor(n, s.nodes[n], peer, s.sent);
    CommitAt(c, s, n);
    NodeLogOkAt(s, n);
    if x.commitIndex > 0 {
      var t: nat, i: nat :| Witness(c, s.acks, s.termLog, n, x, t, i);
      assert Announced(c, s.acks, s.termLog, r, t, i);
    }
  }

  lemma CommitSend(c: Cluster, s: System, n: NodeId, peer: NodeId)
    requires LogInv(s) && CommitInv(c, s) && n in s.nodes && s.nodes[n].role == Leader && |s.nodes[n].log| > 0
    ensures CommitInv(c, AfterSendAppend(s, n, peer))
  {
    hide LogInv, CommitsOk, AnnouncedOk;
    SendAnnounces(c, s, n, peer);
    CommitsQuiet(c, s, n, AfterSend(s.nodes[n], peer));
  }

  lemma CommitWin(c: Cluster, s: System, n: NodeId)
    requires SafeSize(c) && ElectionInv(c, s) && LogInv(s) && CommitInv(c, s) && n in s.nodes && HasWon(c, s.nodes[n])
    ensures CommitInv(c, AfterWin(c, s, n))
  {
    hide ElectionInv, LogInv, CommitsOk, AnnouncementsOk, Justified, Extends, HasWon, Later;
    var s' := AfterWin(c, s, n);
    var y := s'.nodes[n];
    CommitAt(c, s, n);
    WinFacts(c, s, n);
    JustifiedLater(c, s.acks, s.termLog, s'.acks, s'.termLog, n, s.nodes[n], y);
    CommitsLater(c, s.nodes, s.acks, s.termLog, n, y, s'.acks, s'.termLog);
    AnnouncementsLater(c, s.acks, s.termLog, s'.acks, s'.termLog, s.appendRequests);
  }

  /** A node on its own is a commit quorum. */
  lemma SoleCommits(c: Cluster, acks: Acks, tl: TermLogs, n: NodeId, t: nat, i: nat)
    requires n in c.members && |c.members| == 1 && Own(tl, t, i) && Beyond(acks, n, t, i)
    ensures Committed(c, acks, tl, t, i)
  {
    assert CommitQuorum(c, {n}) && AllBeyond(acks, {n}, t, i);
  }

  lemma ProposeJustified(c: Cluster, s: System, n: NodeId, cmd: Command)
    requires Shaped(c, s.nodes) && ElectionInv(c, s) && LogInv(s) && CommitInv(c, s) && n in s.nodes
    requires s.nodes[n].role == Leader
    ensures var s' := AfterPropose(c, s, n, cmd); Justified(c, s'.acks, s'.termLog, n, s'.nodes[n])
  {
    hide ElectionInv, LogInv, CommitInv, Later, Extends;
    var x, s' := s.nodes[n], AfterPropose(c, s, n, cmd);
    var y := s'.nodes[n];
    ProposeFacts(c, s, n, cmd);
    CommitAt(c, s, n);
    if |c.members| == 1 {
      assert Ack(n, x.term, |x.log| + 1) in s'.acks;
      SoleCommits(c, s'.acks, s'.termLog, n, x.term, |x.log|);
      hide Committed, Justified;
      assert Witness(c, s'.acks, s'.termLog, n, y, x.term, |x.log|);
    } else {
      hide Justified;
      JustifiedLater(c, s.acks, s.termLog, s'.acks, s'.termLog, n, x, y);
    }
  }

  lemma CommitPropose(c: Cluster, s: System, n: NodeId, cmd: Command)
    requires Shaped(c, s.nodes) && ElectionInv(c, s) && LogInv(s) && CommitInv(c, s) && n in s.nodes
    requires s.nodes[n].role == Leader
    ensures CommitInv(c, AfterPropose(c, s, n, cmd))
  {
    hide ElectionInv, LogInv, CommitsOk, AnnouncementsOk, Justified, Extends, Later;
    var x, s' := s.nodes[n], AfterPropose(c, s, n, cmd);
    var y := s'.nodes[n];
    CommitAt(c, s, n);
    ProposeFacts(c, s, n, cmd);
    ProposeJustified(c, s, n, cmd);
    BookLater(s.acks, s'.acks, n, x);
    CommitsLater(c, s.nodes, s.acks, s.termLog, n, y, s'.acks, s'.termLog);
    AnnouncementsLater(c, s.acks, s.termLog, s'.acks, s'.termLog, s.appendRequests);
  }

  // Accepting

  lemma AcceptJustified(c: Cluster, s: System, r: AppendRequest)
    requires LogInv(s) && RetentionInv(c, s) && CommitInv(c, s)
    requires r in s.appendRequests && r.follower in s.nodes && Accepts(s.nodes[r.follower], r)
    requires NoShrink(s, DeliverAppend(r))
    ensures var s' := AfterDeliverAppend(s, r); Justified(c, s'.acks, s'.termLog, r.follower, s'.nodes[r.follower])
  {
    hide LogInv, RetentionInv, NoShrink, Later, Extends;
    var n, x, s' := r.follower, s.nodes[r.follower], AfterDeliverAppend(s, r);
    var y := s'.nodes[n];
    AcceptFacts(s, r);
    SnapshotKeepsCommitted(c, s, r);
    CommitAt(c, s, n);
    ExtendsItself(s.termLog);
    if r.leaderCommit > x.commitIndex {
      assert AnnouncedOk(c, s.acks, s.termLog, r);
      hide CommitInv, Justified;
      var t: nat, i: nat :| Announced(c, s.acks, s.termLog, r, t, i);
      CommittedLater(c, s.acks, s.termLog, s'.acks, s.termLog, t, i);
      hide Committed;
      assert Ack(n, r.term, r.Length()) in s'.acks;
      assert Witness(c, s'.acks, s.termLog, n, y, t, i);
      WitnessJustifies(c, s'.acks, s.termLog, n, y, t, i);
    } else {
      hide CommitInv, Justified;
      JustifiedLater(c, s.acks, s.termLog, s'.acks, s.termLog, n, x, y);
    }
  }

  lemma WitnessJustifies(c: Cluster, acks: Acks, tl: TermLogs, n: NodeId, x: NodeState, t: nat, i: nat)
    requires Witness(c, acks, tl, n, x, t, i)
    ensures Justified(c, acks, tl, n, x)
  {
  }

  lemma CommitAccept(c: Cluster, s: System, r: AppendRequest)
    requires LogInv(s) && RetentionInv(c, s) && CommitInv(c, s)
    requires r in s.appendRequests && r.follower in s.nodes && Accepts(s.nodes[r.follower], r)
    requires NoShrink(s, DeliverAppend(r))
    ensures var s' := AfterDeliverAppend(s, r); CommitsOk(c, s'.nodes, s'.acks, s'.termLog)
  {
    hide LogInv, RetentionInv, NoShrink, Later, Extends, Justified, CommitsOk, AnnouncementsOk, RepliesOk;
    var x, s' := s.nodes[r.follower], AfterDeliverAppend(s, r);
    AcceptFacts(s, r);
    SnapshotKeepsCommitted(c, s, r);
    AcceptJustified(c, s, r);
    CommitAt(c, s, r.follower);
    ExtendsItself(s.termLog);
    CommitsLater(c, s.nodes, s.acks, s.termLog, r.follower, s'.nodes[r.follower], s'.acks, s.termLog);
  }

  lemma CommitAppend(c: Cluster, s: System, r: AppendRequest)
    requires LogInv(s) && RetentionInv(c, s) && CommitInv(c, s)
    requires r in s.appendRequests && r.follower in s.nodes && NoShrink(s, DeliverAppend(r))
    ensures CommitInv(c, AfterDeliverAppend(s, r))
  {
    hide LogInv, RetentionInv, NoShrink, Extends, CommitsOk, AnnouncementsOk;
    var s' := AfterDeliverAppend(s, r);
    if Accepts(s.nodes[r.follower], r) {
      CommitAccept(c, s, r);
    } else {
      CommitsQuiet(c, s, r.follower, s'.nodes[r.follower]);
    }
    ExtendsItself(s.termLog);
    AnnouncementsLater(c, s.acks, s.termLog, s'.acks, s.termLog, s.appendRequests);
  }

  // Counting replicas

  lemma LastEntryIndex(s: System, r: AppendRequest)
    requires LogInv(s) && r in s.appendRequests && r.entries != []
    ensures r.entries[|r.entries| - 1].index == r.Length() - 1
  {
    hide TermLogsOk, NodeLogsOk, RequestsOk, Sorted, StartOk;
    RequestOkAt(s, r);
    LogOkIn(s.termLog, s.elections, r.term);
    assert EntryOk(s.termLog, s.termLog[r.term], r.Length() - 1);
    assert r.entries[|r.entries| - 1] == s.termLog[r.term][r.Length() - 1];
  }

  /** An acknowledged request is recorded truthfully. */
  lemma RecordBook(s: System, n: NodeId, r: AppendRequest)
    requires LogInv(s) && n in s.nodes && r in s.appendRequests && r.term == s.nodes[n].term
    requires Ack(r.follower, r.term, r.Length()) in s.acks && BookOk(s.acks, n, s.nodes[n])
    ensures BookOk(s.acks, n, Record(s.nodes[n], r))
  {
    hide LogInv;
    if r.entries != [] {
      LastEntryIndex(s, r);
      assert Beyond(s.acks, r.follower, r.term, r.Length() - 1);
    }
  }

  /** The scan finds the greatest committable index, if there is one past the commit index. */
  lemma {:induction false} CommitScanSpec(c: Cluster, self: NodeId, s: NodeState, hi: nat)
    requires c.members != {}
    ensures var r := CommitScan(c, self, s, hi);
      && (r == s.commitIndex || (s.commitIndex < r <= hi && Committable(c, self, s, r)))
      && forall j: nat | r < j <= hi && s.commitIndex < j :: !Committable(c, self, s, j)
  {
    hide Committable;
    if hi > s.commitIndex && !Committable(c, self, s, hi) { CommitScanSpec(c, self, s, hi - 1); }
  }

  /** An index the leader finds on enough nodes is committed. */
  lemma CommittableIsCommitted(c: Cluster, acks: Acks, tl: TermLogs, n: NodeId, x: NodeState, index: nat)
    requires c.members != {} && n in c.members && x.role == Leader && BookOk(acks, n, x)
    requires x.term in tl && x.log == tl[x.term] && Committable(c, n, x, index)
    ensures Committed(c, acks, tl, x.term, index)
    ensures Beyond(acks, n, x.term, index)
  {
    var q := Holders(c, n, x, index);
    assert Ack(n, x.term, |x.log|) in acks;
    forall v | v in q ensures Beyond(acks, v, x.term, index) {
      if v != n {
        var k: nat :| k > x.matchIndex[v] && Ack(v, x.term, k) in acks;
      }
    }
    assert CommitQuorum(c, q) && AllBeyond(acks, q, x.term, index);
  }

  lemma AdvanceJustified(c: Cluster, acks: Acks, tl: TermLogs, n: NodeId, x: NodeState)
    requires c.members != {} && n in c.members && x.role == Leader && |x.log| > 0
    requires AppliedOk(x) && Justified(c, acks, tl, n, x) && BookOk(acks, n, x)
    requires x.term in tl && x.log == tl[x.term]
    ensures var y := Advance(c, n, x); AppliedOk(y) && Justified(c, acks, tl, n, y) && BookOk(acks, n, y)
  {
    hide Committable, CommitScan;
    var y := Advance(c, n, x);
    CommitScanSpec(c, n, x, |x.log| - 1);
    if y.commitIndex == x.commitIndex {
      assert y == x;
    } else {
      CommittableBounds(c, n, x, y.commitIndex);
      CommittableIsCommitted(c, acks, tl, n, x, y.commitIndex);
      hide Committed, Justified;
      assert Witness(c, acks, tl, n, y, x.term, y.commitIndex);
      WitnessJustifies(c, acks, tl, n, y, x.term, y.commitIndex);
    }
  }

  lemma CommittableBounds(c: Cluster, n: NodeId, x: NodeState, index: nat)
    requires c.members != {} && Committable(c, n, x, index)
    ensures index < |x.log|
  {
  }

  /** Recording an answer leaves the commit index as justified as it was. */
  lemma RecordJustified(c: Cluster, s: System, n: NodeId, r: AppendReply)
    requires LogInv(s) && CommitInv(c, s) && n in s.nodes && r in s.appendReplies
    requires r.success && s.nodes[n].role == Leader && r.req.term == s.nodes[n].term
    ensures var z := Record(s.nodes[n], r.req);
      AppliedOk(z) && Justified(c, s.acks, s.termLog, n, z) && BookOk(s.acks, n, z)
  {
    assert r.req in s.appendRequests && Ack(r.req.follower, r.req.term, r.req.Length()) in s.acks;
    hide LogInv, CommitInv, Justified, Extends, BookOk;
    CommitAt(c, s, n);
    RecordBook(s, n, r.req);
    ExtendsItself(s.termLog);
    JustifiedLater(c, s.acks, s.termLog, s.acks, s.termLog, n, s.nodes[n], Record(s.nodes[n], r.req));
  }

  lemma LeaderLog(s: System, n: NodeId)
    requires LogInv(s) && n in s.nodes && s.nodes[n].role == Leader
    ensures var x := s.nodes[n]; x.term in s.termLog && x.log == s.termLog[x.term] && |x.log| > 0
  {
    hide TermLogsOk, RequestsOk, EntryOk, Sorted;
    NodeLogOkAt(s, n);
  }

  lemma CountedReply(c: Cluster, s: System, n: NodeId, r: AppendReply)
    requires Shaped(c, s.nodes) && LogInv(s) && CommitInv(c, s) && n in s.nodes && r in s.appendReplies
    requires r.success && s.nodes[n].role == Leader && r.req.term == s.nodes[n].term
    ensures CommitsOk(c, s.nodes[n := Advance(c, n, Record(s.nodes[n], r.req))], s.acks, s.termLog)
  {
    var z := Record(s.nodes[n], r.req);
    hide LogInv, AnnouncementsOk, RepliesOk, AppliedOk, Justified, BookOk, Extends, Advance;
    RecordJustified(c, s, n, r);
    LeaderLog(s, n);
    AdvanceJustified(c, s.acks, s.termLog, n, z);
    ExtendsItself(s.termLog);
    hide CommitsOk;
    CommitsLater(c, s.nodes, s.acks, s.termLog, n, Advance(c, n, z), s.acks, s.termLog);
  }

  lemma CommitReply(c: Cluster, s: System, r: AppendReply)
    requires Shaped(c, s.nodes) && LogInv(s) && CommitInv(c, s) && r in s.appendReplies && r.req.leader in s.nodes
    ensures CommitInv(c, AfterDeliverAppendReply(c, s, r))
  {
    hide LogInv, CommitsOk, AnnouncementsOk, RepliesOk, Advance;
    var n, x := r.req.leader, s.nodes[r.req.leader];
    if r.term <= x.term && x.role == Leader && r.req.term == x.term && r.success {
      CountedReply(c, s, n, r);
    } else {
      CommitsQuiet(c, s, n, AfterAppendReply(c, n, x, r));
    }
  }

  lemma CommitQuietSteps(c: Cluster, s: System, step: Step)
    requires Shaped(c, s.nodes) && CommitInv(c, s) && Enabled(c, s, step)
    requires step.Timeout? || step.DeliverVoteRequest? || step.DeliverVoteReply? || step.AnswerLate?
    ensures CommitInv(c, Next(c, s, step))
  {
    hide CommitsOk, AnnouncementsOk;
    match step
    case Timeout(n) => CommitsQuiet(c, s, n, StartElection(n, s.nodes[n]));
    case DeliverVoteRequest(n, r) => CommitsQuiet(c, s, n, AfterVoteRequest(s.nodes[n], r));
    case DeliverVoteReply(r) => CommitsQuiet(c, s, r.candidate, AfterVoteReply(s.nodes[r.candidate], r));
    case AnswerLate(r) =>
  }

  lemma StepCommitInv(c: Cluster, s: System, step: Step)
    requires SafeSize(c) && ElectionInv(c, s) && LogInv(s) && RetentionInv(c, s) && CommitInv(c, s)
    requires Enabled(c, s, step) && NoShrink(s, step)
    ensures CommitInv(c, Next(c, s, step))
  {
    hide VotesOk, LogInv, RetentionInv, CommitInv, NoShrink;
    match step
    case WinElection(n) => CommitWin(c, s, n);
    case SendAppend(n, peer) => CommitSend(c, s, n, peer);
    case DeliverAppend(r) => CommitAppend(c, s, r);
    case DeliverAppendReply(r) => CommitReply(c, s, r);
    case ProposeCommand(n, cmd) => CommitPropose(c, s, n, cmd);
    case Apply(n) => CommitApply(c, s, n);
    case _ => CommitQuietSteps(c, s, step);
  }

  // What the invariants say

  /** Two nodes agree on what both have committed. */
  lemma CommittedLogsAgree(c: Cluster, s: System, m: NodeId, n: NodeId)
    requires LogInv(s) && RetentionInv(c, s) && CommitInv(c, s) && m in s.nodes && n in s.nodes
    ensures var k := Min(s.nodes[m].commitIndex, s.nodes[n].commitIndex) + 1; Agree(s.nodes[m].log, s.nodes[n].log, k)
  {
    hide LogInv, RetentionInv, CommitInv, Committed, Witness;
    CommitAt(c, s, m);
    CommitAt(c, s, n);
    NodeLogOkAt(s, m);
    NodeLogOkAt(s, n);
    var x, y := s.nodes[m], s.nodes[n];
    if x.commitIndex > 0 && y.commitIndex > 0 {
      var t: nat, i: nat :| Witness(c, s.acks, s.termLog, m, x, t, i);
      var u: nat, j: nat :| Witness(c, s.acks, s.termLog, n, y, u, j);
      if t <= u { WitnessesAgree(c, s, m, n, t, i, u, j); } else { WitnessesAgree(c, s, n, m, u, j, t, i); }
    }
  }

  lemma WitnessesAgree(c: Cluster, s: System, m: NodeId, n: NodeId, t: nat, i: nat, u: nat, j: nat)
    requires RetentionInv(c, s) && m in s.nodes && n in s.nodes && t <= u
    requires Witness(c, s.acks, s.termLog, m, s.nodes[m], t, i) && Witness(c, s.acks, s.termLog, n, s.nodes[n], u, j)
    ensures var k := Min(s.nodes[m].commitIndex, s.nodes[n].commitIndex) + 1; Agree(s.nodes[m].log, s.nodes[n].log, k)
  {
    hide AcksOk, NodesRetain, TermRetains, CandidatesRetain, VoteRequestsOk;
    CommittedChoosable(c, s.nodes, s.elections, s.acks, s.termLog, t, i);
    CommittedChoosable(c, s.nodes, s.elections, s.acks, s.termLog, u, j);
    hide Committed, Choosable;
    if t < u { assert Agree(s.termLog[t], s.termLog[u], i + 1); }
  }
}
