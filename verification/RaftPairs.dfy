/** Clusters of at most two members are safe under every delivery: each election needs every vote, so
    every leader starts from the whole log of the leader before it, and all logs lie on one chain. */
module RaftPairs {
  import opened RaftTypes
  import opened RaftHandlers
  import opened RaftSystem
  import opened Quorums
  import opened RaftElection
  import opened RaftLog
  import opened RaftRetention
  import opened RaftTheorems
  import opened RaftSafety

  // The invariant

  /** Each leader's log extends every earlier leader's, which it had from the start. */
  ghost predicate Chain(tl: TermLogs, elections: Elections) {
    forall t, u | t in tl && u in elections && t < u ::
      u in tl && tl[t] <= tl[u] && |tl[t]| <= elections[u].start
  }

  /** A node keeps every log it led with. */
  ghost predicate Kept(nodes: Nodes, elections: Elections, tl: TermLogs) {
    forall t | t in elections :: t in tl && elections[t].leader in nodes && tl[t] <= nodes[elections[t].leader].log
  }

  /** A running candidate has every log its voters led with. */
  ghost predicate Vouched(nodes: Nodes, grants: set<Grant>, elections: Elections, tl: TermLogs) {
    forall g, t | g in grants && RunsIn(nodes, g.candidate, g.term) && t in elections && t < g.term
                  && elections[t].leader == g.voter :: t in tl && tl[t] <= nodes[g.candidate].log
  }

  /** What was applied lies on the chain. */
  ghost predicate Handed(tl: TermLogs, x: NodeState) {
    x.lastApplied == |x.applied| && exists t :: t in tl && [SENTINEL] + x.applied <= tl[t]
  }

  ghost predicate AllHanded(tl: TermLogs, nodes: Nodes) {
    forall n | n in nodes :: Handed(tl, nodes[n])
  }

  ghost predicate PairInv(s: System) {
    && Chain(s.termLog, s.elections)
    && Kept(s.nodes, s.elections, s.termLog)
    && Vouched(s.nodes, s.grants, s.elections, s.termLog)
    && AllHanded(s.termLog, s.nodes)
    && VoteRequestsOk(s.nodes, s.voteRequests)
    && CandidatesKnown(s.nodes, s.grants)
  }

  lemma PairInvInitial(c: Cluster)
    requires c.members != {}
    ensures PairInv(Initial(c))
  {
    var s := Initial(c);
    forall n | n in s.nodes ensures Handed(s.termLog, s.nodes[n]) {
      assert 0 in s.termLog && [SENTINEL] + s.nodes[n].applied <= s.termLog[0];
    }
  }

  // Logs on a chain

  lemma LogOnChain(tl: TermLogs, log: seq<Entry>)
    requires LogOk(tl, log)
    ensures |log| > 0 && LastTerm(log) in tl && log <= tl[LastTerm(log)]
  {
    assert EntryOk(tl, log, |log| - 1);
  }

  lemma ChainOrder(tl: TermLogs, elections: Elections, t: nat, u: nat)
    requires Chain(tl, elections) && TermLogsOk(tl, elections) && t in tl && u in tl && t <= u
    ensures tl[t] <= tl[u]
  {
    hide LogOk, StartOk;
  }

  lemma PrefixesCompare<T>(a: seq<T>, b: seq<T>, whole: seq<T>)
    requires a <= whole && b <= whole
    ensures a <= b || b <= a
  {
  }

  lemma LogsCompare(tl: TermLogs, elections: Elections, a: seq<Entry>, b: seq<Entry>)
    requires Chain(tl, elections) && TermLogsOk(tl, elections) && LogOk(tl, a) && LogOk(tl, b)
    ensures a <= b || b <= a
  {
    LogOnChain(tl, a);
    LogOnChain(tl, b);
    hide LogOk, TermLogsOk, Chain;
    var t, u := LastTerm(a), LastTerm(b);
    if t <= u {
      ChainOrder(tl, elections, t, u);
      PrefixesCompare(a, b, tl[u]);
    } else {
      ChainOrder(tl, elections, u, t);
      PrefixesCompare(a, b, tl[t]);
    }
  }

  /** On a chain an up-to-date log contains the other. */
  lemma UpToDateContains(tl: TermLogs, elections: Elections, mine: seq<Entry>, theirs: seq<Entry>, r: VoteRequest)
    requires Chain(tl, elections) && TermLogsOk(tl, elections) && LogOk(tl, mine) && LogOk(tl, theirs)
    requires r.lastTerm == LastTerm(theirs) && r.lastIndex == |theirs| - 1 && UpToDate(r, mine)
    ensures mine <= theirs
  {
    LogsCompare(tl, elections, mine, theirs);
  }

  /** In a cluster of at most two, every member has reached every term that was won. */
  lemma TermsReached(c: Cluster, s: System, n: NodeId, t: nat)
    requires ElectionInv(c, s) && |c.members| <= 2 && n in s.nodes && t in s.elections
    ensures t <= s.nodes[n].term && s.elections[t].leader in s.nodes
  {
    assert WinOk(c, s.nodes, t, s.elections[t]);
    FullQuorum(c, s.elections[t].voters);
  }

  lemma FullQuorum(c: Cluster, q: set<NodeId>)
    requires ElectionQuorum(c, q) && |c.members| <= 2
    ensures q == c.members
  {
    var rest := c.members - q;
    assert |rest| == |c.members| - |q|;
    assert |q| > 0;
  }

  // Steps

  /** The new state of a node whose log stays and that does not become a candidate. */
  ghost predicate Quiet(x: NodeState, y: NodeState) {
    && y.log == x.log && y.term >= x.term && (y.role == Candidate ==> x.role == Candidate && y.term == x.term)
    && y.lastApplied == x.lastApplied && y.applied == x.applied
  }

  lemma KeptAfter(nodes: Nodes, elections: Elections, tl: TermLogs, n: NodeId, y: NodeState)
    requires Kept(nodes, elections, tl) && n in nodes && nodes[n].log <= y.log
    ensures Kept(nodes[n := y], elections, tl)
  {
  }

  lemma VouchedAfter(nodes: Nodes, grants: set<Grant>, elections: Elections, tl: TermLogs, n: NodeId, y: NodeState)
    requires Vouched(nodes, grants, elections, tl) && n in nodes
    requires y.role == Candidate ==> nodes[n].role == Candidate && y.term == nodes[n].term && nodes[n].log <= y.log
    ensures Vouched(nodes[n := y], grants, elections, tl)
  {
    forall g, t | g in grants && RunsIn(nodes[n := y], g.candidate, g.term) && t in elections && t < g.term
                  && elections[t].leader == g.voter
      ensures t in tl && tl[t] <= nodes[n := y][g.candidate].log
    {
      assert RunsIn(nodes, g.candidate, g.term);
    }
  }

  lemma HandedAfter(tl: TermLogs, nodes: Nodes, n: NodeId, y: NodeState, tl': TermLogs)
    requires AllHanded(tl, nodes) && n in nodes && Handed(tl', y) && forall t | t in tl :: t in tl' && tl[t] <= tl'[t]
    ensures AllHanded(tl', nodes[n := y])
  {
    forall m | m in nodes ensures Handed(tl', nodes[n := y][m]) {
      if m != n { HandedLater(tl, tl', nodes[m]); }
    }
  }

  lemma HandedLater(tl: TermLogs, tl': TermLogs, x: NodeState)
    requires Handed(tl, x) && forall t | t in tl :: t in tl' && tl[t] <= tl'[t]
    ensures Handed(tl', x)
  {
    var t :| t in tl && [SENTINEL] + x.applied <= tl[t];
    assert t in tl' && [SENTINEL] + x.applied <= tl'[t];
  }

  lemma SameHanded(tl: TermLogs, nodes: Nodes, n: NodeId, y: NodeState)
    requires AllHanded(tl, nodes) && n in nodes && y.applied == nodes[n].applied
    requires y.lastApplied == nodes[n].lastApplied
    ensures AllHanded(tl, nodes[n := y])
  {
    assert Handed(tl, nodes[n]);
    assert Handed(tl, y);
    hide Handed;
  }

  lemma KnownAfter(nodes: Nodes, grants: set<Grant>, n: NodeId, y: NodeState)
    requires CandidatesKnown(nodes, grants) && n in nodes && nodes[n].term <= y.term
    ensures CandidatesKnown(nodes[n := y], grants)
  {
  }

  /** One node changes quietly. */
  lemma PairQuiet(s: System, s': System, n: NodeId, y: NodeState)
    requires PairInv(s) && n in s.nodes && Quiet(s.nodes[n], y)
    requires s'.nodes == s.nodes[n := y] && s'.termLog == s.termLog && s'.elections == s.elections
    requires s'.grants == s.grants && s'.voteRequests == s.voteRequests
    ensures PairInv(s')
  {
    hide Chain, Kept, Vouched, VoteRequestsOk, CandidatesKnown, AllHanded;
    KeptAfter(s.nodes, s.elections, s.termLog, n, y);
    VouchedAfter(s.nodes, s.grants, s.elections, s.termLog, n, y);
    SameHanded(s.termLog, s.nodes, n, y);
    VoteRequestsLater(s.nodes, s.voteRequests, n, y);
    KnownAfter(s.nodes, s.grants, n, y);
  }

  lemma TimeoutVouched(s: System, n: NodeId)
    requires Vouched(s.nodes, s.grants, s.elections, s.termLog) && Kept(s.nodes, s.elections, s.termLog)
    requires CandidatesKnown(s.nodes, s.grants) && n in s.nodes && |s.nodes[n].log| > 0
    ensures var s' := AfterTimeout(s, n); Vouched(s'.nodes, s'.grants, s'.elections, s'.termLog)
  {
    var s' := AfterTimeout(s, n);
    forall g, t | g in s'.grants && RunsIn(s'.nodes, g.candidate, g.term) && t in s'.elections && t < g.term
                  && s'.elections[t].leader == g.voter
      ensures t in s'.termLog && s'.termLog[t] <= s'.nodes[g.candidate].log
    {
      if g.candidate != n { assert RunsIn(s.nodes, g.candidate, g.term); }
    }
  }

  lemma TimeoutRequests(s: System, n: NodeId)
    requires VoteRequestsOk(s.nodes, s.voteRequests) && CandidatesKnown(s.nodes, s.grants)
    requires n in s.nodes && |s.nodes[n].log| > 0
    ensures var s' := AfterTimeout(s, n);
      VoteRequestsOk(s'.nodes, s'.voteRequests) && CandidatesKnown(s'.nodes, s'.grants)
  {
  }

  lemma PairTimeout(s: System, n: NodeId)
    requires PairInv(s) && n in s.nodes && |s.nodes[n].log| > 0
    ensures PairInv(AfterTimeout(s, n))
  {
    hide Chain, Kept, Vouched, VoteRequestsOk, CandidatesKnown, AllHanded;
    var y := StartElection(n, s.nodes[n]);
    KeptAfter(s.nodes, s.elections, s.termLog, n, y);
    TimeoutVouched(s, n);
    TimeoutRequests(s, n);
    SameHanded(s.termLog, s.nodes, n, y);
  }

  /** A vote is given to a candidate that has all the voter led with. */
  lemma PairGrant(s: System, n: NodeId, r: VoteRequest)
    requires PairInv(s) && LogInv(s) && n in s.nodes && r in s.voteRequests && n != r.candidate && |s.nodes[n].log| > 0
    requires GrantsVote(s.nodes[n], r)
    ensures PairInv(AfterDeliverVoteRequest(s, n, r))
  {
    var y := AfterVoteRequest(s.nodes[n], r);
    GrantKnown(s, n, r);
    hide Chain, Kept, Vouched, VoteRequestsOk, CandidatesKnown, AllHanded, LogInv;
    KeptAfter(s.nodes, s.elections, s.termLog, n, y);
    GrantVouched(s, n, r);
    SameHanded(s.termLog, s.nodes, n, y);
    VoteRequestsLater(s.nodes, s.voteRequests, n, y);
  }

  lemma GrantKnown(s: System, n: NodeId, r: VoteRequest)
    requires VoteRequestsOk(s.nodes, s.voteRequests) && CandidatesKnown(s.nodes, s.grants)
    requires n in s.nodes && r in s.voteRequests && |s.nodes[n].log| > 0
    ensures var s' := AfterDeliverVoteRequest(s, n, r); CandidatesKnown(s'.nodes, s'.grants)
  {
  }

  /** The candidate's log contains the voter's. */
  lemma GrantContains(s: System, n: NodeId, r: VoteRequest)
    requires Chain(s.termLog, s.elections) && VoteRequestsOk(s.nodes, s.voteRequests) && LogInv(s)
    requires n in s.nodes && r in s.voteRequests && |s.nodes[n].log| > 0 && RunsIn(s.nodes, r.candidate, r.term)
    requires GrantsVote(s.nodes[n], r)
    ensures s.nodes[n].log <= s.nodes[r.candidate].log
  {
    assert r == VoteRequestOf(r.candidate, s.nodes[r.candidate]);
    NodeLogOkAt(s, n);
    NodeLogOkAt(s, r.candidate);
    hide Chain, VoteRequestsOk, TermLogsOk, NodeLogsOk, RequestsOk, LogOk;
    UpToDateContains(s.termLog, s.elections, s.nodes[n].log, s.nodes[r.candidate].log, r);
  }

  lemma GrantVouched(s: System, n: NodeId, r: VoteRequest)
    requires PairInv(s) && LogInv(s) && n in s.nodes && r in s.voteRequests && n != r.candidate && |s.nodes[n].log| > 0
    requires GrantsVote(s.nodes[n], r)
    ensures var s' := AfterDeliverVoteRequest(s, n, r); Vouched(s'.nodes, s'.grants, s'.elections, s'.termLog)
  {
    hide LogInv, Chain, AllHanded, VoteRequestsOk, CandidatesKnown;
    var y, s' := AfterVoteRequest(s.nodes[n], r), AfterDeliverVoteRequest(s, n, r);
    if RunsIn(s.nodes, r.candidate, r.term) { GrantContains(s, n, r); }
    VouchedAfter(s.nodes, s.grants, s.elections, s.termLog, n, y);
    hide GrantsVote, AfterVoteRequest;
    forall g, t | g in s'.grants && RunsIn(s'.nodes, g.candidate, g.term) && t in s'.elections && t < g.term
                  && s'.elections[t].leader == g.voter
      ensures t in s'.termLog && s'.termLog[t] <= s'.nodes[g.candidate].log
    {
      assert g in s.grants || (g.voter == n && g.candidate == r.candidate && g.term == r.term);
      assert g !in s.grants ==> RunsIn(s.nodes, r.candidate, r.term);
    }
  }

  // Winning and proposing

  lemma EveryVote(c: Cluster, s: System, n: NodeId)
    requires |c.members| <= 2 && ElectionInv(c, s) && n in s.nodes && HasWon(c, s.nodes[n])
    ensures SafeSize(c) && s.nodes.Keys == c.members && s.nodes[n].role == Candidate
    ensures forall v | v in c.members :: Grant(v, n, s.nodes[n].term) in s.grants
  {
    SmallIsSafe(c);
    WinnerIsFirst(c, s, n);
    FullQuorum(c, s.nodes[n].votes);
    NodeOkAt(c, s, n);
  }

  lemma SmallIsSafe(c: Cluster)
    requires c.members != {} && |c.members| <= 2
    ensures SafeSize(c)
  {
    assert |c.members| != 0;
  }

  lemma TermKnown(s: System, t: nat)
    requires LogInv(s) && t in s.termLog
    ensures (t == 0 && s.termLog[t] == [SENTINEL]) || t in s.elections
  {
    hide NodeLogsOk, RequestsOk, LogOk, StartOk;
  }

  lemma VotersLogs(s: System, n: NodeId, t: nat)
    requires Vouched(s.nodes, s.grants, s.elections, s.termLog) && n in s.nodes && RunsIn(s.nodes, n, s.nodes[n].term)
    requires t in s.elections && t < s.nodes[n].term && Grant(s.elections[t].leader, n, s.nodes[n].term) in s.grants
    ensures t in s.termLog && s.termLog[t] <= s.nodes[n].log
  {
  }

  /** The winner has every log that was ever led with. */
  lemma WinnerHasAll(c: Cluster, s: System, n: NodeId, t: nat)
    requires |c.members| <= 2 && ElectionInv(c, s) && LogInv(s) && PairInv(s)
    requires n in s.nodes && HasWon(c, s.nodes[n]) && t in s.termLog
    ensures t < s.nodes[n].term && s.termLog[t] <= s.nodes[n].log
  {
    hide ElectionInv, LogInv, HasWon, SafeSize, Later, Extends;
    hide Chain, Kept, Vouched, VoteRequestsOk, CandidatesKnown, AllHanded;
    EveryVote(c, s, n);
    WinFacts(c, s, n);
    TermKnown(s, t);
    if t in s.elections {
      TermsReached(c, s, n, t);
      VotersLogs(s, n, t);
    } else {
      NodeLogOkAt(s, n);
    }
  }

  lemma WinChain(c: Cluster, s: System, n: NodeId)
    requires |c.members| <= 2 && ElectionInv(c, s) && LogInv(s) && PairInv(s) && n in s.nodes && HasWon(c, s.nodes[n])
    ensures var s' := AfterWin(c, s, n);
      Chain(s'.termLog, s'.elections) && forall t | t in s.termLog :: t in s'.termLog && s.termLog[t] <= s'.termLog[t]
  {
    hide ElectionInv, LogInv, HasWon, SafeSize, Later, Extends, Kept, Vouched, VoteRequestsOk;
    hide CandidatesKnown, AllHanded;
    EveryVote(c, s, n);
    WinFacts(c, s, n);
    forall t | t in s.termLog ensures t < s.nodes[n].term
      && s.termLog[t] <= s.nodes[n].log { WinnerHasAll(c, s, n, t); }
    forall u | u in s.elections ensures u < s.nodes[n].term {
      TermsReached(c, s, n, u);
    }
  }

  lemma WinKept(c: Cluster, s: System, n: NodeId)
    requires |c.members| <= 2 && ElectionInv(c, s) && LogInv(s) && PairInv(s) && n in s.nodes && HasWon(c, s.nodes[n])
    ensures var s' := AfterWin(c, s, n); Kept(s'.nodes, s'.elections, s'.termLog)
  {
    hide ElectionInv, LogInv, HasWon, SafeSize, Later, Extends, Chain, Vouched, VoteRequestsOk;
    hide CandidatesKnown, AllHanded;
    EveryVote(c, s, n);
    WinFacts(c, s, n);
  }

  lemma WinVouched(c: Cluster, s: System, n: NodeId)
    requires |c.members| <= 2 && ElectionInv(c, s) && LogInv(s) && PairInv(s) && n in s.nodes && HasWon(c, s.nodes[n])
    ensures var s' := AfterWin(c, s, n); Vouched(s'.nodes, s'.grants, s'.elections, s'.termLog)
  {
    hide ElectionInv, LogInv, HasWon, SafeSize, Later, Extends, Chain, Kept, VoteRequestsOk, CandidatesKnown, AllHanded;
    EveryVote(c, s, n);
    GrantsBounded(c, s, n);
    WinFacts(c, s, n);
    var s' := AfterWin(c, s, n);
    forall g, t | g in s'.grants && RunsIn(s'.nodes, g.candidate, g.term) && t in s'.elections && t < g.term
                  && s'.elections[t].leader == g.voter
      ensures t in s'.termLog && s'.termLog[t] <= s'.nodes[g.candidate].log
    {
      assert RunsIn(s.nodes, g.candidate, g.term);
    }
  }

  lemma PairWin(c: Cluster, s: System, n: NodeId)
    requires |c.members| <= 2 && ElectionInv(c, s) && LogInv(s) && PairInv(s) && n in s.nodes && HasWon(c, s.nodes[n])
    ensures PairInv(AfterWin(c, s, n))
  {
    hide ElectionInv, LogInv, HasWon, SafeSize, Chain, Kept, Vouched, VoteRequestsOk, CandidatesKnown, AllHanded;
    WinChain(c, s, n);
    WinKept(c, s, n);
    WinVouched(c, s, n);
    EveryVote(c, s, n);
    var y, s' := BecomeLeader(c, n, s.nodes[n]), AfterWin(c, s, n);
    SameHanded(s.termLog, s.nodes, n, y);
    AllHandedLater(s.termLog, s'.termLog, s'.nodes);
    VoteRequestsLater(s.nodes, s.voteRequests, n, y);
    KnownAfter(s.nodes, s.grants, n, y);
  }

  lemma AllHandedLater(tl: TermLogs, tl': TermLogs, nodes: Nodes)
    requires AllHanded(tl, nodes) && forall t | t in tl :: t in tl' && tl[t] <= tl'[t]
    ensures AllHanded(tl', nodes)
  {
    forall n | n in nodes ensures Handed(tl', nodes[n]) { HandedLater(tl, tl', nodes[n]); }
  }

  /** The term of a leader is the latest won. */
  lemma ProposeChain(c: Cluster, s: System, n: NodeId, cmd: Command)
    requires |c.members| <= 2 && ElectionInv(c, s) && LogInv(s) && PairInv(s) && n in s.nodes
    requires s.nodes[n].role == Leader
    ensures var s' := AfterPropose(c, s, n, cmd);
      Chain(s'.termLog, s'.elections) && forall t | t in s.termLog :: t in s'.termLog && s.termLog[t] <= s'.termLog[t]
  {
    hide ElectionInv, LogInv, Later, Extends, Kept, Vouched, VoteRequestsOk, CandidatesKnown, AllHanded;
    ProposeFacts(c, s, n, cmd);
    forall u | u in s.elections ensures u <= s.nodes[n].term { TermsReached(c, s, n, u); }
  }

  lemma ProposeKept(c: Cluster, s: System, n: NodeId, cmd: Command)
    requires ElectionInv(c, s) && LogInv(s) && PairInv(s) && n in s.nodes && s.nodes[n].role == Leader
    ensures var s' := AfterPropose(c, s, n, cmd); Kept(s'.nodes, s'.elections, s'.termLog)
  {
    hide ElectionInv, LogInv, Later, Extends, Chain, Vouched, VoteRequestsOk, CandidatesKnown, AllHanded;
    ProposeFacts(c, s, n, cmd);
    LeaderElected(c, s, n);
    KeptAfter(s.nodes, s.elections, s.termLog, n, Propose(c, s.nodes[n], cmd));
  }

  lemma ProposeVouched(c: Cluster, s: System, n: NodeId, cmd: Command)
    requires ElectionInv(c, s) && LogInv(s) && PairInv(s) && n in s.nodes && s.nodes[n].role == Leader
    ensures var s' := AfterPropose(c, s, n, cmd); Vouched(s'.nodes, s'.grants, s'.elections, s'.termLog)
  {
    hide ElectionInv, LogInv, Later, Extends, Chain, Kept, VoteRequestsOk, CandidatesKnown, AllHanded;
    LeaderElected(c, s, n);
    GrantsBounded(c, s, n);
    var s' := AfterPropose(c, s, n, cmd);
    forall g, t | g in s'.grants && RunsIn(s'.nodes, g.candidate, g.term) && t in s'.elections && t < g.term
                  && s'.elections[t].leader == g.voter
      ensures t in s'.termLog && s'.termLog[t] <= s'.nodes[g.candidate].log
    {
      assert RunsIn(s.nodes, g.candidate, g.term);
    }
  }

  lemma PairPropose(c: Cluster, s: System, n: NodeId, cmd: Command)
    requires |c.members| <= 2 && ElectionInv(c, s) && LogInv(s) && PairInv(s) && n in s.nodes
    requires s.nodes[n].role == Leader
    ensures PairInv(AfterPropose(c, s, n, cmd))
  {
    hide ElectionInv, LogInv, Chain, Kept, Vouched, VoteRequestsOk, CandidatesKnown, AllHanded;
    ProposeChain(c, s, n, cmd);
    ProposeKept(c, s, n, cmd);
    ProposeVouched(c, s, n, cmd);
    var y, s' := Propose(c, s.nodes[n], cmd), AfterPropose(c, s, n, cmd);
    SameHanded(s.termLog, s.nodes, n, y);
    AllHandedLater(s.termLog, s'.termLog, s'.nodes);
    VoteRequestsLater(s.nodes, s.voteRequests, n, y);
    KnownAfter(s.nodes, s.grants, n, y);
  }

  // Accepting and applying

  lemma AcceptKept(c: Cluster, s: System, r: AppendRequest)
    requires |c.members| <= 2 && ElectionInv(c, s) && LogInv(s) && PairInv(s)
    requires r in s.appendRequests && r.follower in s.nodes && Accepts(s.nodes[r.follower], r)
    ensures var s' := AfterDeliverAppend(s, r); Kept(s'.nodes, s'.elections, s'.termLog)
  {
    hide ElectionInv, LogInv, Vouched, VoteRequestsOk, CandidatesKnown, AllHanded, Later, AfterAppend;
    AcceptFacts(s, r);
    FollowerIsNotLeader(c, s, r);
    var f, y := r.follower, AfterAppend(s.nodes[r.follower], r);
    forall t | t in s.elections && s.elections[t].leader == f ensures s.termLog[t] <= y.log {
      TermsReached(c, s, f, t);
      assert t < r.term;
    }
  }

  lemma PairAccept(c: Cluster, s: System, r: AppendRequest)
    requires |c.members| <= 2 && ElectionInv(c, s) && LogInv(s) && PairInv(s)
    requires r in s.appendRequests && r.follower in s.nodes && Accepts(s.nodes[r.follower], r)
    ensures PairInv(AfterDeliverAppend(s, r))
  {
    hide ElectionInv, LogInv, Chain, Kept, Vouched, VoteRequestsOk, CandidatesKnown, AllHanded, Later, Spliced;
    AcceptKept(c, s, r);
    AcceptFacts(s, r);
    var f, y := r.follower, AfterAppend(s.nodes[r.follower], r);
    VouchedAfter(s.nodes, s.grants, s.elections, s.termLog, f, y);
    SameHanded(s.termLog, s.nodes, f, y);
    VoteRequestsLater(s.nodes, s.voteRequests, f, y);
    KnownAfter(s.nodes, s.grants, f, y);
  }

  /** An entry applied from a log on the chain stays on it. */
  lemma ApplyHanded(tl: TermLogs, elections: Elections, x: NodeState)
    requires Chain(tl, elections) && TermLogsOk(tl, elections) && LogOk(tl, x.log) && Handed(tl, x)
    requires x.lastApplied + 1 < |x.log|
    ensures Handed(tl, ApplyNext(x))
  {
    hide LogOk, TermLogsOk, Chain;
    var t :| t in tl && [SENTINEL] + x.applied <= tl[t];
    assert |x.log| > 0;
    LogOnChain(tl, x.log);
    var u := LastTerm(x.log);
    var top := if t <= u then u else t;
    if t <= u { ChainOrder(tl, elections, t, u); } else { ChainOrder(tl, elections, u, t); }
    OneMoreApplied(x, tl[top]);
  }

  lemma OneMoreApplied(x: NodeState, whole: seq<Entry>)
    requires [SENTINEL] + x.applied <= whole && x.log <= whole && |x.applied| == x.lastApplied
    requires x.lastApplied + 1 < |x.log|
    ensures [SENTINEL] + ApplyNext(x).applied <= whole
  {
    var given := [SENTINEL] + x.applied;
    assert [SENTINEL] + ApplyNext(x).applied == given + [x.log[|given|]];
  }

  lemma PairApply(s: System, n: NodeId)
    requires LogInv(s) && PairInv(s) && n in s.nodes && s.nodes[n].lastApplied + 1 < |s.nodes[n].log|
    ensures PairInv(AfterApply(s, n))
  {
    hide NodeLogsOk, RequestsOk, TermLogsOk, LogOk, Chain, Kept, Vouched, VoteRequestsOk, CandidatesKnown, Handed;
    var y := ApplyNext(s.nodes[n]);
    NodeLogOkAt(s, n);
    ApplyHanded(s.termLog, s.elections, s.nodes[n]);
    hide AllHanded;
    HandedAfter(s.termLog, s.nodes, n, y, s.termLog);
    KeptAfter(s.nodes, s.elections, s.termLog, n, y);
    VouchedAfter(s.nodes, s.grants, s.elections, s.termLog, n, y);
    VoteRequestsLater(s.nodes, s.voteRequests, n, y);
    KnownAfter(s.nodes, s.grants, n, y);
  }

  // Every run

  lemma StepPairInv(c: Cluster, s: System, step: Step)
    requires |c.members| <= 2 && ElectionInv(c, s) && LogInv(s) && PairInv(s) && Enabled(c, s, step)
    ensures PairInv(Next(c, s, step))
  {
    hide VotesOk, VoteRepliesOk, AppendsFromLeaders, LogInv, PairInv;
    match step
    case Timeout(n) => PairTimeout(s, n);
    case DeliverVoteRequest(n, r) =>
      if GrantsVote(s.nodes[n], r) { PairGrant(s, n, r); } else { PairMessages(c, s, step); }
    case WinElection(n) => PairWin(c, s, n);
    case DeliverAppend(r) =>
      if Accepts(s.nodes[r.follower], r) { PairAccept(c, s, r); } else { PairMessages(c, s, step); }
    case ProposeCommand(n, cmd) => PairPropose(c, s, n, cmd);
    case Apply(n) => PairApply(s, n);
    case _ => PairMessages(c, s, step);
  }

  /** The steps that change one node quietly. */
  lemma PairMessages(c: Cluster, s: System, step: Step)
    requires Shaped(c, s.nodes) && PairInv(s) && Enabled(c, s, step)
    requires step.DeliverVoteReply? || step.SendAppend? || step.AnswerLate? || step.DeliverAppendReply?
          || (step.DeliverVoteRequest? && !GrantsVote(s.nodes[step.n], step.vreq))
          || (step.DeliverAppend? && !Accepts(s.nodes[step.areq.follower], step.areq))
    ensures PairInv(Next(c, s, step))
  {
    hide PairInv;
    var s' := Next(c, s, step);
    match step
    case DeliverVoteRequest(n, r) => PairQuiet(s, s', n, AfterVoteRequest(s.nodes[n], r));
    case DeliverVoteReply(r) => PairQuiet(s, s', r.candidate, AfterVoteReply(s.nodes[r.candidate], r));
    case SendAppend(n, peer) => PairQuiet(s, s', n, AfterSend(s.nodes[n], peer));
    case DeliverAppend(r) => PairQuiet(s, s', r.follower, AfterAppend(s.nodes[r.follower], r));
    case AnswerLate(r) => PairSame(s, s');
    case DeliverAppendReply(r) => PairReply(c, s, r);
    case _ =>
  }

  lemma PairReply(c: Cluster, s: System, r: AppendReply)
    requires PairInv(s) && c.members != {} && r.req.leader in s.nodes && |s.nodes[r.req.leader].log| > 0
    ensures PairInv(AfterDeliverAppendReply(c, s, r))
  {
    hide PairInv;
    var n := r.req.leader;
    PairQuiet(s, AfterDeliverAppendReply(c, s, r), n, AfterAppendReply(c, n, s.nodes[n], r));
  }

  lemma PairSame(s: System, s': System)
    requires PairInv(s) && s' == s.(appendReplies := s'.appendReplies)
    ensures PairInv(s')
  {
    hide Chain, Kept, Vouched, VoteRequestsOk, CandidatesKnown, AllHanded;
  }

  lemma {:induction false} RunPairInv(c: Cluster, states: seq<System>, steps: seq<Step>, k: nat)
    requires |c.members| <= 2 && IsRun(c, states, steps) && k < |states|
    ensures ElectionInv(c, states[k]) && LogInv(states[k]) && PairInv(states[k])
  {
    hide ElectionInv, LogInv, PairInv;
    SmallIsSafe(c);
    RunInv(c, states, steps, k);
    if k == 0 {
      PairInvInitial(c);
    } else {
      RunPairInv(c, states, steps, k - 1);
      assert StepAt(c, states, steps, k - 1);
      StepPairInv(c, states[k - 1], steps[k - 1]);
    }
  }

  lemma HandedAgree(s: System, m: NodeId, n: NodeId, i: nat)
    requires LogInv(s) && PairInv(s) && m in s.nodes && n in s.nodes
    requires i < |s.nodes[m].applied| && i < |s.nodes[n].applied|
    ensures s.nodes[m].applied[i] == s.nodes[n].applied[i]
  {
    hide NodeLogsOk, RequestsOk, TermLogsOk, Chain, Kept, Vouched, VoteRequestsOk, CandidatesKnown;
    var x, y := s.nodes[m], s.nodes[n];
    assert Handed(s.termLog, x) && Handed(s.termLog, y);
    var t :| t in s.termLog && [SENTINEL] + x.applied <= s.termLog[t];
    var u :| u in s.termLog && [SENTINEL] + y.applied <= s.termLog[u];
    if t <= u { ChainOrder(s.termLog, s.elections, t, u); } else { ChainOrder(s.termLog, s.elections, u, t); }
    assert ([SENTINEL] + x.applied)[i + 1] == ([SENTINEL] + y.applied)[i + 1];
  }

  /** With at most two members no two nodes apply different entries at one index, however requests
      are lost, repeated or reordered. */
  lemma SmallClusterSafety(c: Cluster, states: seq<System>, steps: seq<Step>, j: nat, k: nat, m: NodeId, n: NodeId,
        i: nat)
    requires |c.members| <= 2 && IsRun(c, states, steps) && j <= k < |states|
    requires m in states[j].nodes && n in states[k].nodes
    requires i < |states[j].nodes[m].applied| && i < |states[k].nodes[n].applied|
    ensures states[j].nodes[m].applied[i] == states[k].nodes[n].applied[i]
  {
    hide ElectionInv, LogInv, PairInv, IsRun;
    RunPairInv(c, states, steps, k);
    AppliedGrows(c, states, steps, j, k, m);
    HandedAgree(states[k], m, n, i);
  }
}
