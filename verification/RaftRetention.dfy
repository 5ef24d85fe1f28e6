/** Leader Completeness: what a term's leader may still commit is in the log of every later
    leader. The code truncates a follower's log at every accepted AppendEntries, so this needs
    that no accepted request is shorter than one the follower accepted before in the same term. */
module RaftRetention {
  import opened RaftTypes
  import opened RaftHandlers
  import opened RaftSystem
  import opened Quorums
  import opened RaftElection
  import opened RaftLog

  type Acks = set<Ack>

  // What may still be committed

  /** Entry `i` of the leader of term `t` was created in that term. */
  ghost predicate Own(tl: TermLogs, t: nat, i: nat) {
    t in tl && i < |tl[t]| && tl[t][i].term == t
  }

  /** `v` has held entry `i` of term `t` in that term. */
  ghost predicate Beyond(acks: Acks, v: NodeId, t: nat, i: nat) {
    exists k: nat :: k > i && Ack(v, t, k) in acks
  }

  ghost predicate MayHold(nodes: Nodes, acks: Acks, v: NodeId, t: nat, i: nat) {
    v in nodes && (nodes[v].term <= t || Beyond(acks, v, t, i))
  }

  ghost predicate AllMayHold(nodes: Nodes, acks: Acks, q: set<NodeId>, t: nat, i: nat) {
    forall v | v in q :: MayHold(nodes, acks, v, t, i)
  }

  /** A commit quorum holds entry `i` of term `t`, or may still come to hold it in that term. */
  ghost predicate Choosable(c: Cluster, nodes: Nodes, acks: Acks, t: nat, i: nat) {
    exists q :: CommitQuorum(c, q) && AllMayHold(nodes, acks, q, t, i)
  }

  /** From one state to a later one: terms grow, and whoever acknowledges was not past the term. */
  ghost predicate Later(nodes: Nodes, acks: Acks, nodes': Nodes, acks': Acks) {
    && nodes'.Keys == nodes.Keys
    && (forall n | n in nodes :: nodes[n].term <= nodes'[n].term)
    && (forall a | a in acks' && a !in acks :: a.node in nodes && nodes[a.node].term <= a.term)
  }

  /** What is choosable later was choosable before. */
  lemma ChoosableShrinks(c: Cluster, nodes: Nodes, acks: Acks, nodes': Nodes, acks': Acks, t: nat, i: nat)
    requires Later(nodes, acks, nodes', acks') && Choosable(c, nodes', acks', t, i)
    ensures Choosable(c, nodes, acks, t, i)
  {
    var q :| CommitQuorum(c, q) && AllMayHold(nodes', acks', q, t, i);
    forall v | v in q ensures MayHold(nodes, acks, v, t, i) {
      assert MayHold(nodes', acks', v, t, i);
      if nodes'[v].term > t {
        var k :| k > i && Ack(v, t, k) in acks';
        assert Ack(v, t, k) in acks || nodes[v].term <= t;
      }
    }
    assert AllMayHold(nodes, acks, q, t, i);
    hide CommitQuorum, MayHold;
  }

  // The invariant

  ghost predicate AckOk(nodes: Nodes, elections: Elections, tl: TermLogs, a: Ack) {
    && a.node in nodes && a.term <= nodes[a.node].term
    && a.term in elections && a.term in tl
    && elections[a.term].start <= a.length <= |tl[a.term]|
  }

  ghost predicate AcksOk(nodes: Nodes, elections: Elections, tl: TermLogs, acks: Acks) {
    forall a | a in acks :: AckOk(nodes, elections, tl, a)
  }

  /** `log` still has every choosable entry that acknowledgement `a` vouched for. */
  ghost predicate Retains(c: Cluster, nodes: Nodes, acks: Acks, tl: TermLogs, a: Ack, log: seq<Entry>) {
    forall i: nat | i < a.length && Own(tl, a.term, i) && Choosable(c, nodes, acks, a.term, i) ::
      Agree(log, tl[a.term], i + 1)
  }

  ghost predicate NodesRetain(c: Cluster, nodes: Nodes, acks: Acks, tl: TermLogs) {
    forall a | a in acks :: a.node in nodes && Retains(c, nodes, acks, tl, a, nodes[a.node].log)
  }

  /** Within the term nothing acknowledged is lost. */
  ghost predicate TermRetains(nodes: Nodes, acks: Acks, tl: TermLogs) {
    forall a | a in acks && a.node in nodes && nodes[a.node].term == a.term ::
      a.term in tl && Agree(nodes[a.node].log, tl[a.term], a.length)
  }

  ghost predicate RunsIn(nodes: Nodes, n: NodeId, t: nat) {
    n in nodes && nodes[n].role == Candidate && nodes[n].term == t
  }

  /** A candidate has every choosable entry its voters vouched for before voting. */
  ghost predicate CandidatesRetain(c: Cluster, nodes: Nodes, grants: set<Grant>, acks: Acks, tl: TermLogs) {
    forall g, a | g in grants && a in acks && g.voter == a.node && a.term < g.term
      && RunsIn(nodes, g.candidate, g.term) ::
      Retains(c, nodes, acks, tl, a, nodes[g.candidate].log)
  }

  ghost predicate LeadersComplete(c: Cluster, nodes: Nodes, acks: Acks, elections: Elections, tl: TermLogs) {
    forall t, u, i: nat | t in elections && u in elections && t < u && Own(tl, t, i)
      && Choosable(c, nodes, acks, t, i) ::
      u in tl && Agree(tl[t], tl[u], i + 1)
  }

  /** A vote request of a running candidate describes the log it still has. */
  ghost predicate VoteRequestsOk(nodes: Nodes, requests: set<VoteRequest>) {
    forall r | r in requests ::
      && r.candidate in nodes && r.term <= nodes[r.candidate].term
      && (RunsIn(nodes, r.candidate, r.term) ==>
            |nodes[r.candidate].log| > 0 && r == VoteRequestOf(r.candidate, nodes[r.candidate]))
  }

  ghost predicate CandidatesKnown(nodes: Nodes, grants: set<Grant>) {
    forall g | g in grants :: g.candidate in nodes && g.term <= nodes[g.candidate].term
  }

  ghost predicate RetentionInv(c: Cluster, s: System) {
    && AcksOk(s.nodes, s.elections, s.termLog, s.acks)
    && NodesRetain(c, s.nodes, s.acks, s.termLog)
    && TermRetains(s.nodes, s.acks, s.termLog)
    && CandidatesRetain(c, s.nodes, s.grants, s.acks, s.termLog)
    && LeadersComplete(c, s.nodes, s.acks, s.elections, s.termLog)
    && VoteRequestsOk(s.nodes, s.voteRequests)
    && CandidatesKnown(s.nodes, s.grants)
  }

  lemma RetentionInvInitial(c: Cluster)
    requires c.members != {}
    ensures RetentionInv(c, Initial(c))
  {
  }

  /** The step accepts no request shorter than one the follower accepted before in that term. */
  ghost predicate NoShrink(s: System, step: Step) {
    step.DeliverAppend? && step.areq.follower in s.nodes && Accepts(s.nodes[step.areq.follower], step.areq) ==>
      forall k: nat :: Ack(step.areq.follower, step.areq.term, k) in s.acks ==> k <= step.areq.Length()
  }

  // Carrying the invariant to a later state

  lemma RetainsLater(c: Cluster, nodes: Nodes, acks: Acks, tl: TermLogs, nodes': Nodes, acks': Acks, tl': TermLogs,
                     a: Ack, log: seq<Entry>, log': seq<Entry>)
    requires Later(nodes, acks, nodes', acks') && Extends(tl, tl')
    requires Retains(c, nodes, acks, tl, a, log) && a.term in tl && a.length <= |tl[a.term]|
    requires Agree(log, log', |log|)
    ensures Retains(c, nodes', acks', tl', a, log')
  {
    forall i: nat | i < a.length && Own(tl', a.term, i) && Choosable(c, nodes', acks', a.term, i)
      ensures Agree(log', tl'[a.term], i + 1)
    {
      ChoosableShrinks(c, nodes, acks, nodes', acks', a.term, i);
      assert Own(tl, a.term, i);
    }
  }

  lemma CompleteLater(c: Cluster, nodes: Nodes, acks: Acks, nodes': Nodes, acks': Acks, elections: Elections,
        tl: TermLogs)
    requires Later(nodes, acks, nodes', acks') && LeadersComplete(c, nodes, acks, elections, tl)
    ensures LeadersComplete(c, nodes', acks', elections, tl)
  {
    forall t, u, i: nat | t in elections && u in elections && t < u && Own(tl, t, i)
      && Choosable(c, nodes', acks', t, i)
      ensures u in tl && Agree(tl[t], tl[u], i + 1)
    {
      ChoosableShrinks(c, nodes, acks, nodes', acks', t, i);
    }
    hide Choosable, Own, Agree;
  }

  /** The other candidates' logs do not change. */
  lemma CandidatesLater(c: Cluster, nodes: Nodes, grants: set<Grant>, acks: Acks, tl: TermLogs, elections: Elections,
                        n: NodeId, y: NodeState, acks': Acks, tl': TermLogs)
    requires CandidatesRetain(c, nodes, grants, acks, tl) && AcksOk(nodes, elections, tl, acks)
    requires n in nodes && Later(nodes, acks, nodes[n := y], acks') && Extends(tl, tl')
    requires y.role == Candidate ==> nodes[n].role == Candidate && y.term == nodes[n].term && y.log == nodes[n].log
    requires forall a, g | a in acks' && a !in acks && g in grants && g.voter == a.node :: g.term <= a.term
    ensures CandidatesRetain(c, nodes[n := y], grants, acks', tl')
  {
    var nodes' := nodes[n := y];
    forall g, a | g in grants && a in acks' && g.voter == a.node && a.term < g.term
      && RunsIn(nodes', g.candidate, g.term)
      ensures Retains(c, nodes', acks', tl', a, nodes'[g.candidate].log)
    {
      assert RunsIn(nodes, g.candidate, g.term) && a in acks;
      assert AckOk(nodes, elections, tl, a);
      RetainsLater(c, nodes, acks, tl, nodes', acks', tl', a, nodes[g.candidate].log, nodes'[g.candidate].log);
    }
    hide Retains, RunsIn;
  }

  lemma NodesLater(c: Cluster, nodes: Nodes, acks: Acks, tl: TermLogs, elections: Elections,
                   n: NodeId, y: NodeState, acks': Acks, tl': TermLogs)
    requires NodesRetain(c, nodes, acks, tl) && AcksOk(nodes, elections, tl, acks)
    requires n in nodes && Later(nodes, acks, nodes[n := y], acks') && Extends(tl, tl')
    requires forall a | a in acks' && a !in acks :: Retains(c, nodes[n := y], acks', tl', a, nodes[n := y][a.node].log)
    requires forall a | a in acks && a.node == n :: Retains(c, nodes[n := y], acks', tl', a, y.log)
    ensures NodesRetain(c, nodes[n := y], acks', tl')
  {
    forall a | a in acks && a.node != n
      ensures a.node in nodes && Retains(c, nodes[n := y], acks', tl', a, nodes[a.node].log)
    {
      assert AckOk(nodes, elections, tl, a);
      RetainsLater(c, nodes, acks, tl, nodes[n := y], acks', tl', a, nodes[a.node].log, nodes[a.node].log);
    }
    hide Retains, AckOk;
  }

  /** A log that only grows retains what it retained. */
  lemma GrowingRetains(c: Cluster, nodes: Nodes, acks: Acks, tl: TermLogs, elections: Elections,
                       n: NodeId, y: NodeState, acks': Acks, tl': TermLogs)
    requires NodesRetain(c, nodes, acks, tl) && AcksOk(nodes, elections, tl, acks)
    requires n in nodes && Later(nodes, acks, nodes[n := y], acks') && Extends(tl, tl')
    requires Agree(nodes[n].log, y.log, |nodes[n].log|)
    ensures forall a | a in acks && a.node == n :: Retains(c, nodes[n := y], acks', tl', a, y.log)
  {
    forall a | a in acks && a.node == n ensures Retains(c, nodes[n := y], acks', tl', a, y.log) {
      assert AckOk(nodes, elections, tl, a);
      RetainsLater(c, nodes, acks, tl, nodes[n := y], acks', tl', a, nodes[n].log, y.log);
    }
    hide Retains, AckOk;
  }

  lemma AcksLater(nodes: Nodes, elections: Elections, tl: TermLogs, acks: Acks, n: NodeId, y: NodeState)
    requires AcksOk(nodes, elections, tl, acks) && n in nodes && nodes[n].term <= y.term
    ensures AcksOk(nodes[n := y], elections, tl, acks)
  {
    forall a | a in acks ensures AckOk(nodes[n := y], elections, tl, a) { assert AckOk(nodes, elections, tl, a); }
    hide AckOk;
  }

  lemma TermRetainsLater(nodes: Nodes, elections: Elections, tl: TermLogs, acks: Acks, n: NodeId, y: NodeState)
    requires TermRetains(nodes, acks, tl) && AcksOk(nodes, elections, tl, acks)
    requires n in nodes && nodes[n].term <= y.term && y.log == nodes[n].log
    ensures TermRetains(nodes[n := y], acks, tl)
  {
    forall a | a in acks && a.node in nodes && nodes[n := y][a.node].term == a.term
      ensures a.term in tl && Agree(nodes[n := y][a.node].log, tl[a.term], a.length)
    {
      assert AckOk(nodes, elections, tl, a);
    }
    hide Agree, AckOk;
  }

  lemma VoteRequestsLater(nodes: Nodes, requests: set<VoteRequest>, n: NodeId, y: NodeState)
    requires VoteRequestsOk(nodes, requests) && n in nodes && nodes[n].term <= y.term
    requires y.role == Candidate && y.term == nodes[n].term ==> nodes[n].role == Candidate && y.log == nodes[n].log
    ensures VoteRequestsOk(nodes[n := y], requests)
  {
  }

  // Steps

  /** One node changes, but no log, no acknowledgement and no vote. */
  lemma RetentionQuiet(c: Cluster, s: System, s': System, n: NodeId, y: NodeState)
    requires RetentionInv(c, s) && n in s.nodes
    requires s'.nodes == s.nodes[n := y] && s'.termLog == s.termLog && s'.elections == s.elections
    requires s'.acks == s.acks && s'.grants == s.grants && s'.voteRequests == s.voteRequests
    requires y.log == s.nodes[n].log && y.term >= s.nodes[n].term
    requires y.role == Candidate ==> s.nodes[n].role == Candidate && y.term == s.nodes[n].term
    ensures RetentionInv(c, s')
  {
    hide AcksOk, NodesRetain, TermRetains, CandidatesRetain, LeadersComplete, VoteRequestsOk, Retains;
    AcksLater(s.nodes, s.elections, s.termLog, s.acks, n, y);
    TermRetainsLater(s.nodes, s.elections, s.termLog, s.acks, n, y);
    GrowingRetains(c, s.nodes, s.acks, s.termLog, s.elections, n, y, s.acks, s.termLog);
    NodesLater(c, s.nodes, s.acks, s.termLog, s.elections, n, y, s.acks, s.termLog);
    CandidatesLater(c, s.nodes, s.grants, s.acks, s.termLog, s.elections, n, y, s.acks, s.termLog);
    CompleteLater(c, s.nodes, s.acks, s'.nodes, s.acks, s.elections, s.termLog);
    VoteRequestsLater(s.nodes, s.voteRequests, n, y);
  }

  // Votes

  lemma EqualLastTerms(tl: TermLogs, mine: seq<Entry>, theirs: seq<Entry>)
    requires LogOk(tl, mine) && LogOk(tl, theirs) && LastTerm(theirs) == LastTerm(mine) && |theirs| >= |mine|
    ensures Agree(mine, theirs, |mine|)
  {
    assert EntryOk(tl, mine, |mine| - 1) && EntryOk(tl, theirs, |theirs| - 1);
  }

  /** A log whose last entry a later leader created reaches past every older entry of that leader's log. */
  lemma LaterLeaderCovers(tl: TermLogs, log: seq<Entry>, t: nat, i: nat)
    requires LogOk(tl, log) && LastTerm(log) > t && LastTerm(log) in tl && LogOk(tl, tl[LastTerm(log)])
    requires Own(tl, t, i) && Agree(tl[t], tl[LastTerm(log)], i + 1)
    ensures Agree(log, tl[t], i + 1)
  {
    var last := |log| - 1;
    assert EntryOk(tl, log, last);
    var full := tl[LastTerm(log)];
    assert full[last].term == LastTerm(log) && full[i].term == t;
  }

  /** A candidate log at least as up to date as the voter's has the choosable entries the voter has. */
  lemma UpToDateRetains(c: Cluster, nodes: Nodes, acks: Acks, elections: Elections, tl: TermLogs,
                        a: Ack, mine: seq<Entry>, theirs: seq<Entry>)
    requires TermLogsOk(tl, elections) && LogOk(tl, mine) && LogOk(tl, theirs) && a.term in elections
    requires LeadersComplete(c, nodes, acks, elections, tl) && Retains(c, nodes, acks, tl, a, mine)
    requires LastTerm(theirs) > LastTerm(mine) || (LastTerm(theirs) == LastTerm(mine) && |theirs| >= |mine|)
    ensures Retains(c, nodes, acks, tl, a, theirs)
  {
    forall i: nat | i < a.length && Own(tl, a.term, i) && Choosable(c, nodes, acks, a.term, i)
      ensures Agree(theirs, tl[a.term], i + 1)
    {
      assert Agree(mine, tl[a.term], i + 1);
      if LastTerm(theirs) == LastTerm(mine) {
        EqualLastTerms(tl, mine, theirs);
      } else {
        assert a.term <= LastTerm(mine);
        assert EntryOk(tl, theirs, |theirs| - 1);
        LaterLeaderCovers(tl, theirs, a.term, i);
      }
    }
  }

  lemma TimeoutCandidates(c: Cluster, s: System, n: NodeId)
    requires RetentionInv(c, s) && n in s.nodes && |s.nodes[n].log| > 0
    ensures var s' := AfterTimeout(s, n); CandidatesRetain(c, s'.nodes, s'.grants, s'.acks, s'.termLog)
  {
    hide TermRetains, LeadersComplete, VoteRequestsOk, Retains;
    var y, s' := StartElection(n, s.nodes[n]), AfterTimeout(s, n);
    assert Later(s.nodes, s.acks, s'.nodes, s.acks);
    forall g, a | g in s'.grants && a in s.acks && g.voter == a.node && a.term < g.term
      && RunsIn(s'.nodes, g.candidate, g.term)
      ensures Retains(c, s'.nodes, s.acks, s.termLog, a, s'.nodes[g.candidate].log)
    {
      assert AckOk(s.nodes, s.elections, s.termLog, a);
      RetainsLater(c, s.nodes, s.acks, s.termLog, s'.nodes, s.acks, s.termLog, a, s.nodes[g.candidate].log,
        s.nodes[g.candidate].log);
    }
  }

  lemma RetentionTimeout(c: Cluster, s: System, n: NodeId)
    requires RetentionInv(c, s) && n in s.nodes && |s.nodes[n].log| > 0
    ensures RetentionInv(c, AfterTimeout(s, n))
  {
    hide AcksOk, NodesRetain, TermRetains, CandidatesRetain, LeadersComplete, Retains;
    var y, s' := StartElection(n, s.nodes[n]), AfterTimeout(s, n);
    AcksLater(s.nodes, s.elections, s.termLog, s.acks, n, y);
    TermRetainsLater(s.nodes, s.elections, s.termLog, s.acks, n, y);
    GrowingRetains(c, s.nodes, s.acks, s.termLog, s.elections, n, y, s.acks, s.termLog);
    NodesLater(c, s.nodes, s.acks, s.termLog, s.elections, n, y, s.acks, s.termLog);
    TimeoutCandidates(c, s, n);
    CompleteLater(c, s.nodes, s.acks, s'.nodes, s.acks, s.elections, s.termLog);
  }

  /** Granting a vote: the candidate has what the voter vouched for. */
  lemma GrantRetains(c: Cluster, s: System, n: NodeId, r: VoteRequest, a: Ack)
    requires RetentionInv(c, s) && LogInv(s) && n in s.nodes && r in s.voteRequests && |s.nodes[n].log| > 0
    requires GrantsVote(s.nodes[n], r) && RunsIn(s.nodes, r.candidate, r.term)
    requires a in s.acks && a.node == n
    ensures Retains(c, s.nodes, s.acks, s.termLog, a, s.nodes[r.candidate].log)
  {
    hide TermRetains, CandidatesRetain, LeadersComplete, Retains, RequestsOk, TermLogsOk, LogOk;
    assert AckOk(s.nodes, s.elections, s.termLog, a);
    assert NodeLogOk(s.termLog, s.nodes[n]) && NodeLogOk(s.termLog, s.nodes[r.candidate]);
    UpToDateRetains(c, s.nodes, s.acks, s.elections, s.termLog, a, s.nodes[n].log, s.nodes[r.candidate].log);
  }

  lemma GrantCandidates(c: Cluster, s: System, n: NodeId, r: VoteRequest)
    requires RetentionInv(c, s) && LogInv(s) && n in s.nodes && r in s.voteRequests && n != r.candidate
    requires |s.nodes[n].log| > 0
    requires GrantsVote(s.nodes[n], r)
    ensures var s' := AfterDeliverVoteRequest(s, n, r); CandidatesRetain(c, s'.nodes, s'.grants, s'.acks, s'.termLog)
  {
    hide TermRetains, LeadersComplete, NodesRetain, Retains, LogInv;
    var s' := AfterDeliverVoteRequest(s, n, r);
    assert Later(s.nodes, s.acks, s'.nodes, s.acks);
    forall g, a | g in s'.grants && a in s.acks && g.voter == a.node && a.term < g.term
      && RunsIn(s'.nodes, g.candidate, g.term)
      ensures Retains(c, s'.nodes, s.acks, s.termLog, a, s'.nodes[g.candidate].log)
    {
      assert AckOk(s.nodes, s.elections, s.termLog, a);
      assert RunsIn(s.nodes, g.candidate, g.term);
      if g !in s.grants { GrantRetains(c, s, n, r, a); }
      RetainsLater(c, s.nodes, s.acks, s.termLog, s'.nodes, s.acks, s.termLog, a, s.nodes[g.candidate].log,
        s.nodes[g.candidate].log);
    }
  }

  lemma RetentionVoteRequest(c: Cluster, s: System, n: NodeId, r: VoteRequest)
    requires RetentionInv(c, s) && LogInv(s) && n in s.nodes && r in s.voteRequests && n != r.candidate
    requires |s.nodes[n].log| > 0
    ensures RetentionInv(c, AfterDeliverVoteRequest(s, n, r))
  {
    hide AcksOk, NodesRetain, TermRetains, CandidatesRetain, LeadersComplete, Retains, LogInv;
    var y, s' := AfterVoteRequest(s.nodes[n], r), AfterDeliverVoteRequest(s, n, r);
    if GrantsVote(s.nodes[n], r) {
      AcksLater(s.nodes, s.elections, s.termLog, s.acks, n, y);
      TermRetainsLater(s.nodes, s.elections, s.termLog, s.acks, n, y);
      GrowingRetains(c, s.nodes, s.acks, s.termLog, s.elections, n, y, s.acks, s.termLog);
      NodesLater(c, s.nodes, s.acks, s.termLog, s.elections, n, y, s.acks, s.termLog);
      GrantCandidates(c, s, n, r);
      CompleteLater(c, s.nodes, s.acks, s'.nodes, s.acks, s.elections, s.termLog);
    } else {
      RetentionQuiet(c, s, s', n, y);
    }
  }

  // Winning

  /** The winner of term `u` has every entry an earlier term may still commit: some voter vouched for it. */
  lemma WinnerHas(c: Cluster, s: System, n: NodeId, t: nat, i: nat)
    requires SafeSize(c) && ElectionInv(c, s) && RetentionInv(c, s) && n in s.nodes && HasWon(c, s.nodes[n])
    requires t < s.nodes[n].term && Own(s.termLog, t, i) && Choosable(c, s.nodes, s.acks, t, i)
    ensures Agree(s.nodes[n].log, s.termLog[t], i + 1)
  {
    var x := s.nodes[n];
    WinnerIsFirst(c, s, n);
    NodeOkAt(c, s, n);
    hide NodesOk, WinsOk, OneVoteEach, AcksOk, NodesRetain, TermRetains, LeadersComplete, VoteRequestsOk, Agree;
    var q :| CommitQuorum(c, q) && AllMayHold(s.nodes, s.acks, q, t, i);
    ElectionMeetsCommit(c, x.votes, q);
    var v :| v in x.votes && v in q;
    var g := Grant(v, n, x.term);
    assert GrantOk(s.nodes, s.elections, g);
    assert MayHold(s.nodes, s.acks, v, t, i);
    var k: nat :| k > i && Ack(v, t, k) in s.acks;
    assert RunsIn(s.nodes, n, x.term);
    assert Retains(c, s.nodes, s.acks, s.termLog, Ack(v, t, k), x.log);
  }

  /** Nobody has voted in a term it has not reached. */
  lemma GrantsBounded(c: Cluster, s: System, n: NodeId)
    requires ElectionInv(c, s) && n in s.nodes
    ensures forall g | g in s.grants && g.voter == n :: g.term <= s.nodes[n].term
  {
    forall g | g in s.grants && g.voter == n ensures g.term <= s.nodes[n].term {
      assert GrantOk(s.nodes, s.elections, g);
    }
  }

  /** What changes when `n` wins: a term log appears that holds nothing of its own term. */
  lemma WinFacts(c: Cluster, s: System, n: NodeId)
    requires SafeSize(c) && ElectionInv(c, s) && LogInv(s) && n in s.nodes && HasWon(c, s.nodes[n])
    ensures s.nodes[n].term !in s.elections && s.nodes[n].term !in s.termLog && s.nodes[n].role == Candidate
    ensures forall i: nat | i < |s.nodes[n].log| :: s.nodes[n].log[i].term < s.nodes[n].term
    ensures var s' := AfterWin(c, s, n); Later(s.nodes, s.acks, s'.nodes, s'.acks) && Extends(s.termLog, s'.termLog)
  {
    hide ElectionInv, LogInv, EntryOk;
    WinnerIsFirst(c, s, n);
    FreshTerm(s, n);
  }

  lemma WinComplete(c: Cluster, s: System, n: NodeId)
    requires SafeSize(c) && ElectionInv(c, s) && LogInv(s) && RetentionInv(c, s) && n in s.nodes
    requires HasWon(c, s.nodes[n])
    ensures var s' := AfterWin(c, s, n); LeadersComplete(c, s'.nodes, s'.acks, s'.elections, s'.termLog)
  {
    hide ElectionInv, LogInv, AcksOk, NodesRetain, TermRetains, CandidatesRetain, VoteRequestsOk;
    hide Choosable, Later, Extends, HasWon;
    var x, s' := s.nodes[n], AfterWin(c, s, n);
    WinFacts(c, s, n);
    forall t, u, i: nat | t in s'.elections && u in s'.elections && t < u && Own(s'.termLog, t, i)
      && Choosable(c, s'.nodes, s'.acks, t, i)
      ensures u in s'.termLog && Agree(s'.termLog[t], s'.termLog[u], i + 1)
    {
      ChoosableShrinks(c, s.nodes, s.acks, s'.nodes, s'.acks, t, i);
      if u == x.term { WinnerHas(c, s, n, t, i); }
    }
  }

  lemma WinAcks(c: Cluster, s: System, n: NodeId)
    requires SafeSize(c) && ElectionInv(c, s) && LogInv(s) && RetentionInv(c, s) && n in s.nodes
    requires HasWon(c, s.nodes[n])
    ensures var s' := AfterWin(c, s, n); AcksOk(s'.nodes, s'.elections, s'.termLog, s'.acks)
  {
    hide ElectionInv, LogInv, NodesRetain, TermRetains, CandidatesRetain, VoteRequestsOk;
    hide LeadersComplete, Later, Extends, HasWon;
    var s' := AfterWin(c, s, n);
    WinFacts(c, s, n);
    forall a | a in s'.acks ensures AckOk(s'.nodes, s'.elections, s'.termLog, a) {
      if a in s.acks { assert AckOk(s.nodes, s.elections, s.termLog, a); }
    }
    hide AckOk;
  }

  lemma WinTermRetains(c: Cluster, s: System, n: NodeId)
    requires SafeSize(c) && ElectionInv(c, s) && LogInv(s) && RetentionInv(c, s) && n in s.nodes
    requires HasWon(c, s.nodes[n])
    ensures var s' := AfterWin(c, s, n); TermRetains(s'.nodes, s'.acks, s'.termLog)
  {
    hide ElectionInv, LogInv, NodesRetain, CandidatesRetain, VoteRequestsOk, LeadersComplete, Later, Extends, HasWon;
    var s' := AfterWin(c, s, n);
    WinFacts(c, s, n);
    forall a | a in s'.acks && a.node in s'.nodes && s'.nodes[a.node].term == a.term
      ensures a.term in s'.termLog && Agree(s'.nodes[a.node].log, s'.termLog[a.term], a.length)
    {
      if a in s.acks { assert AckOk(s.nodes, s.elections, s.termLog, a); }
    }
  }

  /** The new leader's own acknowledgement covers nothing of its term yet. */
  lemma WinNodes(c: Cluster, s: System, n: NodeId)
    requires SafeSize(c) && ElectionInv(c, s) && LogInv(s) && RetentionInv(c, s) && n in s.nodes
    requires HasWon(c, s.nodes[n])
    ensures var s' := AfterWin(c, s, n); NodesRetain(c, s'.nodes, s'.acks, s'.termLog)
  {
    hide ElectionInv, LogInv, AcksOk, NodesRetain, TermRetains, CandidatesRetain, VoteRequestsOk;
    hide LeadersComplete, Choosable, Later, Extends, HasWon;
    var x, s' := s.nodes[n], AfterWin(c, s, n);
    WinFacts(c, s, n);
    assert Retains(c, s'.nodes, s'.acks, s'.termLog, Ack(n, x.term, |x.log|), x.log);
    GrowingRetains(c, s.nodes, s.acks, s.termLog, s.elections, n, s'.nodes[n], s'.acks, s'.termLog);
    hide Retains;
    NodesLater(c, s.nodes, s.acks, s.termLog, s.elections, n, s'.nodes[n], s'.acks, s'.termLog);
  }

  lemma WinCandidates(c: Cluster, s: System, n: NodeId)
    requires SafeSize(c) && ElectionInv(c, s) && LogInv(s) && RetentionInv(c, s) && n in s.nodes
    requires HasWon(c, s.nodes[n])
    ensures var s' := AfterWin(c, s, n); CandidatesRetain(c, s'.nodes, s'.grants, s'.acks, s'.termLog)
  {
    hide ElectionInv, LogInv, AcksOk, NodesRetain, TermRetains, CandidatesRetain, VoteRequestsOk;
    hide LeadersComplete, Choosable, Later, Extends, HasWon;
    var s' := AfterWin(c, s, n);
    WinFacts(c, s, n);
    GrantsBounded(c, s, n);
    CandidatesLater(c, s.nodes, s.grants, s.acks, s.termLog, s.elections, n, s'.nodes[n], s'.acks, s'.termLog);
  }

  lemma RetentionWin(c: Cluster, s: System, n: NodeId)
    requires SafeSize(c) && ElectionInv(c, s) && LogInv(s) && RetentionInv(c, s) && n in s.nodes
    requires HasWon(c, s.nodes[n])
    ensures RetentionInv(c, AfterWin(c, s, n))
  {
    hide ElectionInv, LogInv, AcksOk, NodesRetain, TermRetains, CandidatesRetain, LeadersComplete, VoteRequestsOk;
    WinAcks(c, s, n);
    WinTermRetains(c, s, n);
    WinNodes(c, s, n);
    WinCandidates(c, s, n);
    WinComplete(c, s, n);
    VoteRequestsLater(s.nodes, s.voteRequests, n, AfterWin(c, s, n).nodes[n]);
  }

  // Proposing

  /** An entry created after a later term was won can no longer be committed. */
  lemma TooLate(c: Cluster, s: System, n: NodeId, u: nat, acks': Acks, i: nat)
    requires SafeSize(c) && WinsOk(c, s.nodes, s.elections) && AcksOk(s.nodes, s.elections, s.termLog, s.acks)
    requires n in s.nodes && u in s.elections && s.nodes[n].term < u
    requires s.nodes[n].term in s.termLog && i >= |s.termLog[s.nodes[n].term]|
    requires forall a | a in acks' && a !in s.acks :: a.node == n
    ensures !Choosable(c, s.nodes, acks', s.nodes[n].term, i)
  {
    var t := s.nodes[n].term;
    forall q | CommitQuorum(c, q) ensures !AllMayHold(s.nodes, acks', q, t, i) {
      assert WinOk(c, s.nodes, u, s.elections[u]);
      ElectionMeetsCommit(c, s.elections[u].voters, q);
      var v :| v in s.elections[u].voters && v in q;
      assert Binds(s.nodes[v], s.elections[u].leader, u);
      forall a | a in s.acks && a.term == t ensures a.length <= i { assert AckOk(s.nodes, s.elections, s.termLog, a); }
      assert !MayHold(s.nodes, acks', v, t, i);
    }
  }

  lemma StartOkIn(tl: TermLogs, elections: Elections, t: nat)
    requires TermLogsOk(tl, elections) && t in elections
    ensures t in tl && StartOk(tl[t], t, elections[t].start)
  {
    hide LogOk, StartOk;
  }

  lemma ProposeFacts(c: Cluster, s: System, n: NodeId, cmd: Command)
    requires ElectionInv(c, s) && LogInv(s) && n in s.nodes && s.nodes[n].role == Leader
    ensures var x, s' := s.nodes[n], AfterPropose(c, s, n, cmd);
      && x.term in s.termLog && x.term in s.elections && x.log == s.termLog[x.term]
      && s.elections[x.term].start <= |x.log|
      && Later(s.nodes, s.acks, s'.nodes, s'.acks) && Extends(s.termLog, s'.termLog)
  {
    hide ElectionInv, TermLogsOk, RequestsOk, NodeLogsOk, LogOk;
    NodeLogOkAt(s, n);
    OnlyLeader(c, s, n);
    StartOkIn(s.termLog, s.elections, s.nodes[n].term);
  }

  lemma ProposeComplete(c: Cluster, s: System, n: NodeId, cmd: Command)
    requires SafeSize(c) && ElectionInv(c, s) && LogInv(s) && RetentionInv(c, s) && n in s.nodes
    requires s.nodes[n].role == Leader
    ensures var s' := AfterPropose(c, s, n, cmd); LeadersComplete(c, s'.nodes, s'.acks, s'.elections, s'.termLog)
  {
    hide LogInv, NodesOk, GrantsOk, OneVoteEach, WinsOk, AcksOk, NodesRetain, TermRetains;
    hide CandidatesRetain, VoteRequestsOk, Choosable, Later, Extends;
    var x, s' := s.nodes[n], AfterPropose(c, s, n, cmd);
    ProposeFacts(c, s, n, cmd);
    SameTermsLater(s.nodes, s'.acks, s'.nodes);
    forall t, u, i: nat | t in s'.elections && u in s'.elections && t < u && Own(s'.termLog, t, i)
      && Choosable(c, s'.nodes, s'.acks, t, i)
      ensures u in s'.termLog && Agree(s'.termLog[t], s'.termLog[u], i + 1)
    {
      if t == x.term && i >= |x.log| {
        ChoosableShrinks(c, s.nodes, s'.acks, s'.nodes, s'.acks, t, i);
        TooLate(c, s, n, u, s'.acks, i);
      } else {
        ChoosableShrinks(c, s.nodes, s.acks, s'.nodes, s'.acks, t, i);
        assert Own(s.termLog, t, i) && Agree(s.termLog[t], s.termLog[u], i + 1);
      }
    }
  }

  lemma SameTermsLater(nodes: Nodes, acks: Acks, nodes': Nodes)
    requires nodes'.Keys == nodes.Keys && forall n | n in nodes :: nodes'[n].term == nodes[n].term
    ensures Later(nodes, acks, nodes', acks)
  {
  }

  lemma ProposeAcks(c: Cluster, s: System, n: NodeId, cmd: Command)
    requires ElectionInv(c, s) && LogInv(s) && RetentionInv(c, s) && n in s.nodes && s.nodes[n].role == Leader
    ensures var s' := AfterPropose(c, s, n, cmd); AcksOk(s'.nodes, s'.elections, s'.termLog, s'.acks)
    ensures var s' := AfterPropose(c, s, n, cmd); TermRetains(s'.nodes, s'.acks, s'.termLog)
  {
    hide ElectionInv, LogInv, NodesRetain, CandidatesRetain, VoteRequestsOk, LeadersComplete, Later, Extends;
    var x, s' := s.nodes[n], AfterPropose(c, s, n, cmd);
    ProposeFacts(c, s, n, cmd);
    forall a | a in s'.acks ensures AckOk(s'.nodes, s'.elections, s'.termLog, a) {
      if a in s.acks { assert AckOk(s.nodes, s.elections, s.termLog, a); }
    }
    forall a | a in s'.acks && a.node in s'.nodes && s'.nodes[a.node].term == a.term
      ensures a.term in s'.termLog && Agree(s'.nodes[a.node].log, s'.termLog[a.term], a.length)
    {
      assert AckOk(s'.nodes, s'.elections, s'.termLog, a);
      if a in s.acks { assert AckOk(s.nodes, s.elections, s.termLog, a); }
    }
    hide AckOk;
  }

  lemma ProposeNodes(c: Cluster, s: System, n: NodeId, cmd: Command)
    requires ElectionInv(c, s) && LogInv(s) && RetentionInv(c, s) && n in s.nodes && s.nodes[n].role == Leader
    ensures var s' := AfterPropose(c, s, n, cmd); NodesRetain(c, s'.nodes, s'.acks, s'.termLog)
    ensures var s' := AfterPropose(c, s, n, cmd); CandidatesRetain(c, s'.nodes, s'.grants, s'.acks, s'.termLog)
  {
    hide ElectionInv, LogInv, AcksOk, NodesRetain, TermRetains, CandidatesRetain, VoteRequestsOk;
    hide LeadersComplete, Choosable, Later, Extends;
    var x, s' := s.nodes[n], AfterPropose(c, s, n, cmd);
    var y := s'.nodes[n];
    ProposeFacts(c, s, n, cmd);
    GrantsBounded(c, s, n);
    assert Retains(c, s'.nodes, s'.acks, s'.termLog, Ack(n, x.term, |y.log|), y.log);
    GrowingRetains(c, s.nodes, s.acks, s.termLog, s.elections, n, y, s'.acks, s'.termLog);
    hide Retains;
    NodesLater(c, s.nodes, s.acks, s.termLog, s.elections, n, y, s'.acks, s'.termLog);
    CandidatesLater(c, s.nodes, s.grants, s.acks, s.termLog, s.elections, n, y, s'.acks, s'.termLog);
  }

  lemma RetentionPropose(c: Cluster, s: System, n: NodeId, cmd: Command)
    requires SafeSize(c) && ElectionInv(c, s) && LogInv(s) && RetentionInv(c, s) && n in s.nodes
    requires s.nodes[n].role == Leader
    ensures RetentionInv(c, AfterPropose(c, s, n, cmd))
  {
    hide ElectionInv, LogInv, AcksOk, NodesRetain, TermRetains, CandidatesRetain, LeadersComplete, VoteRequestsOk;
    ProposeAcks(c, s, n, cmd);
    ProposeNodes(c, s, n, cmd);
    ProposeComplete(c, s, n, cmd);
    VoteRequestsLater(s.nodes, s.voteRequests, n, AfterPropose(c, s, n, cmd).nodes[n]);
  }

  // Accepting

  /** The follower's log becomes the leader's of the moment of sending, which holds everything
      earlier terms may still commit. */
  lemma SnapshotRetains(c: Cluster, s: System, nodes': Nodes, acks': Acks, r: AppendRequest, a: Ack)
    requires LogInv(s) && RetentionInv(c, s) && r in s.appendRequests && a in s.acks && a.term <= r.term
    requires a.term == r.term ==> a.length <= r.Length()
    requires Later(s.nodes, s.acks, nodes', acks')
    ensures r.term in s.termLog && r.Length() <= |s.termLog[r.term]|
    ensures Retains(c, nodes', acks', s.termLog, a, s.termLog[r.term][..r.Length()])
  {
    hide NodesRetain, TermRetains, CandidatesRetain, VoteRequestsOk, NodeLogsOk, LogOk, Later, Choosable;
    assert AckOk(s.nodes, s.elections, s.termLog, a);
    assert RequestOk(s.termLog, s.elections, r);
    StartOkIn(s.termLog, s.elections, r.term);
    hide TermLogsOk, RequestsOk, AcksOk;
    forall i: nat | i < a.length && Own(s.termLog, a.term, i) && Choosable(c, nodes', acks', a.term, i)
      ensures Agree(s.termLog[r.term][..r.Length()], s.termLog[a.term], i + 1)
    {
      if a.term < r.term {
        ChoosableShrinks(c, s.nodes, s.acks, nodes', acks', a.term, i);
        assert Agree(s.termLog[a.term], s.termLog[r.term], i + 1);
        assert s.termLog[r.term][i].term < r.term;
      }
    }
  }

  lemma AcceptFacts(s: System, r: AppendRequest)
    requires LogInv(s) && r in s.appendRequests && r.follower in s.nodes && Accepts(s.nodes[r.follower], r)
    ensures r.term in s.termLog && r.term in s.elections
    ensures s.elections[r.term].start <= r.Length() <= |s.termLog[r.term]|
    ensures var y := AfterAppend(s.nodes[r.follower], r);
      y.log == s.termLog[r.term][..r.Length()] && y.role == Follower && y.term == r.term
    ensures var s' := AfterDeliverAppend(s, r); Later(s.nodes, s.acks, s'.nodes, s'.acks)
  {
    hide LogOk, NodeLogsOk, RequestsOk;
    NodeLogOkAt(s, r.follower);
    assert RequestOk(s.termLog, s.elections, r) by { RequestOkAt(s, r); }
    hide LogInv, TermLogsOk, NodeLogOk, RequestOk;
    AcceptKeepsNode(s.termLog, s.elections, s.nodes[r.follower], r);
  }

  lemma RequestOkAt(s: System, r: AppendRequest)
    requires LogInv(s) && r in s.appendRequests
    ensures RequestOk(s.termLog, s.elections, r)
  {
    hide TermLogsOk, NodeLogsOk, RequestOk;
  }

  lemma AcceptAcks(c: Cluster, s: System, r: AppendRequest)
    requires LogInv(s) && RetentionInv(c, s) && r in s.appendRequests && r.follower in s.nodes
    requires Accepts(s.nodes[r.follower], r) && NoShrink(s, DeliverAppend(r))
    ensures var s' := AfterDeliverAppend(s, r); AcksOk(s'.nodes, s'.elections, s'.termLog, s'.acks)
    ensures var s' := AfterDeliverAppend(s, r); TermRetains(s'.nodes, s'.acks, s'.termLog)
  {
    hide LogInv, NodesRetain, CandidatesRetain, VoteRequestsOk, LeadersComplete, Later, AfterAppend;
    var s' := AfterDeliverAppend(s, r);
    AcceptFacts(s, r);
    forall a | a in s'.acks ensures AckOk(s'.nodes, s'.elections, s'.termLog, a) {
      if a in s.acks { assert AckOk(s.nodes, s.elections, s.termLog, a); }
    }
    forall a | a in s'.acks && a.node in s'.nodes && s'.nodes[a.node].term == a.term
      ensures a.term in s'.termLog && Agree(s'.nodes[a.node].log, s'.termLog[a.term], a.length)
    {
      assert AckOk(s'.nodes, s'.elections, s'.termLog, a);
      if a.node == r.follower { assert Ack(r.follower, r.term, a.length) in s'.acks; }
    }
    hide AckOk;
  }

  lemma AcceptNodes(c: Cluster, s: System, r: AppendRequest)
    requires LogInv(s) && RetentionInv(c, s) && r in s.appendRequests && r.follower in s.nodes
    requires Accepts(s.nodes[r.follower], r) && NoShrink(s, DeliverAppend(r))
    ensures var s' := AfterDeliverAppend(s, r); NodesRetain(c, s'.nodes, s'.acks, s'.termLog)
  {
    hide LogInv, NodesRetain, TermRetains, CandidatesRetain, VoteRequestsOk, LeadersComplete, Later;
    hide AfterAppend, Choosable;
    var n, s' := r.follower, AfterDeliverAppend(s, r);
    var y := s'.nodes[n];
    AcceptFacts(s, r);
    assert Retains(c, s'.nodes, s'.acks, s.termLog, Ack(n, r.term, r.Length()), y.log);
    hide Retains;
    forall a | a in s.acks && a.node == n ensures Retains(c, s'.nodes, s'.acks, s.termLog, a, y.log) {
      assert AckOk(s.nodes, s.elections, s.termLog, a);
      assert a == Ack(n, a.term, a.length);
      SnapshotRetains(c, s, s'.nodes, s'.acks, r, a);
    }
    hide AcksOk;
    NodesLater(c, s.nodes, s.acks, s.termLog, s.elections, n, y, s'.acks, s.termLog);
  }

  lemma AcceptCandidates(c: Cluster, s: System, r: AppendRequest)
    requires ElectionInv(c, s) && LogInv(s) && RetentionInv(c, s) && r in s.appendRequests && r.follower in s.nodes
    requires Accepts(s.nodes[r.follower], r)
    ensures var s' := AfterDeliverAppend(s, r); CandidatesRetain(c, s'.nodes, s'.grants, s'.acks, s'.termLog)
  {
    hide ElectionInv, LogInv, AcksOk, NodesRetain, TermRetains, CandidatesRetain, VoteRequestsOk;
    hide LeadersComplete, Later, AfterAppend;
    var s' := AfterDeliverAppend(s, r);
    AcceptFacts(s, r);
    GrantsBounded(c, s, r.follower);
    CandidatesLater(c, s.nodes, s.grants, s.acks, s.termLog, s.elections, r.follower, s'.nodes[r.follower], s'.acks,
      s.termLog);
  }

  lemma RetentionAccept(c: Cluster, s: System, r: AppendRequest)
    requires ElectionInv(c, s) && LogInv(s) && RetentionInv(c, s) && r in s.appendRequests && r.follower in s.nodes
    requires Accepts(s.nodes[r.follower], r) && NoShrink(s, DeliverAppend(r))
    ensures RetentionInv(c, AfterDeliverAppend(s, r))
  {
    hide ElectionInv, LogInv, AcksOk, NodesRetain, TermRetains, CandidatesRetain, LeadersComplete;
    hide VoteRequestsOk, Later, NoShrink, AfterAppend;
    var s' := AfterDeliverAppend(s, r);
    AcceptFacts(s, r);
    AcceptAcks(c, s, r);
    AcceptNodes(c, s, r);
    AcceptCandidates(c, s, r);
    CompleteLater(c, s.nodes, s.acks, s'.nodes, s'.acks, s.elections, s.termLog);
    VoteRequestsLater(s.nodes, s.voteRequests, r.follower, s'.nodes[r.follower]);
  }

  lemma RetentionAppend(c: Cluster, s: System, r: AppendRequest)
    requires ElectionInv(c, s) && LogInv(s) && RetentionInv(c, s) && r in s.appendRequests && r.follower in s.nodes
    requires NoShrink(s, DeliverAppend(r))
    ensures RetentionInv(c, AfterDeliverAppend(s, r))
  {
    hide ElectionInv, LogInv, RetentionInv, NoShrink;
    if Accepts(s.nodes[r.follower], r) {
      RetentionAccept(c, s, r);
    } else {
      RetentionQuiet(c, s, AfterDeliverAppend(s, r), r.follower, AfterAppend(s.nodes[r.follower], r));
    }
  }

  lemma RetentionQuietSteps(c: Cluster, s: System, step: Step)
    requires Shaped(c, s.nodes) && RetentionInv(c, s) && Enabled(c, s, step)
    requires step.DeliverVoteReply? || step.SendAppend? || step.AnswerLate? || step.DeliverAppendReply? || step.Apply?
    ensures RetentionInv(c, Next(c, s, step))
  {
    hide RetentionInv;
    match step
    case DeliverVoteReply(r) =>
      RetentionQuiet(c, s, AfterDeliverVoteReply(s, r), r.candidate, AfterVoteReply(s.nodes[r.candidate], r));
    case SendAppend(n, peer) => RetentionQuiet(c, s, AfterSendAppend(s, n, peer), n, AfterSend(s.nodes[n], peer));
    case AnswerLate(r) => SameRetention(c, s, AfterAnswerLate(s, r));
    case DeliverAppendReply(r) =>
      RetentionQuiet(c, s, AfterDeliverAppendReply(c, s, r), r.req.leader,
        AfterAppendReply(c, r.req.leader, s.nodes[r.req.leader], r));
    case Apply(n) => RetentionQuiet(c, s, AfterApply(s, n), n, ApplyNext(s.nodes[n]));
  }

  lemma StepRetentionInv(c: Cluster, s: System, step: Step)
    requires SafeSize(c) && ElectionInv(c, s) && LogInv(s) && RetentionInv(c, s) && Enabled(c, s, step)
    requires NoShrink(s, step)
    ensures RetentionInv(c, Next(c, s, step))
  {
    hide VotesOk, LogInv, RetentionInv, NoShrink;
    match step
    case Timeout(n) => RetentionTimeout(c, s, n);
    case DeliverVoteRequest(n, r) => RetentionVoteRequest(c, s, n, r);
    case WinElection(n) => RetentionWin(c, s, n);
    case DeliverAppend(r) => RetentionAppend(c, s, r);
    case ProposeCommand(n, cmd) => RetentionPropose(c, s, n, cmd);
    case _ => RetentionQuietSteps(c, s, step);
  }

  lemma SameRetention(c: Cluster, s: System, s': System)
    requires RetentionInv(c, s) && s' == s.(appendReplies := s'.appendReplies)
    ensures RetentionInv(c, s')
  {
    hide AcksOk, NodesRetain, TermRetains, CandidatesRetain, LeadersComplete, VoteRequestsOk;
  }
}
