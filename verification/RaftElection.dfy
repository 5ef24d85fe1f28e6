/** Election Safety: at most one node is ever leader of a term, although a candidate that
    steps down within its term forgets its vote and may vote again. */
module RaftElection {
  import opened Commons
  import opened RaftTypes
  import opened RaftHandlers
  import opened RaftSystem
  import opened Quorums

  type Nodes = map<NodeId, NodeState>
  type Elections = map<nat, Election>

  /** A node in this state can no longer vote in `term` for anyone but `cand`. */
  ghost predicate Binds(x: NodeState, cand: NodeId, term: nat) {
    x.term > term || (x.term == term && x.votedFor == Some(cand))
  }

  // The invariant

  /** A candidate's and a leader's vote is its own, counted votes were given, a leader won
      its term, and a node that names a leader names the one its term elected. */
  ghost predicate NodeOk(grants: set<Grant>, elections: Elections, n: NodeId, x: NodeState) {
    && (x.role != Follower ==> x.votedFor == Some(n))
    && (x.role == Candidate ==> n in x.votes)
    && (x.role == Candidate ==> forall v | v in x.votes :: Grant(v, n, x.term) in grants)
    && (x.role == Candidate && x.term in elections ==> elections[x.term].leader != n)
    && (x.role == Leader ==> x.term in elections && elections[x.term].leader == n)
    && (x.leaderId.Some? ==> x.term in elections && elections[x.term].leader == x.leaderId.value)
  }

  ghost predicate NodesOk(nodes: Nodes, grants: set<Grant>, elections: Elections) {
    forall n | n in nodes :: NodeOk(grants, elections, n, nodes[n])
  }

  /** Before its term has a leader a vote binds its voter; afterwards no voter of the
      winning quorum has voted for anyone else. */
  ghost predicate GrantOk(nodes: Nodes, elections: Elections, g: Grant) {
    && g.voter in nodes
    && g.term <= nodes[g.voter].term
    && (g.term !in elections ==> Binds(nodes[g.voter], g.candidate, g.term))
    && (g.term in elections && g.voter in elections[g.term].voters ==> g.candidate == elections[g.term].leader)
  }

  ghost predicate GrantsOk(nodes: Nodes, grants: set<Grant>, elections: Elections) {
    forall g | g in grants :: GrantOk(nodes, elections, g)
  }

  /** Nobody votes twice in a term that has no leader yet. */
  ghost predicate OneVoteEach(grants: set<Grant>, elections: Elections) {
    forall g, h | g in grants && h in grants && g.voter == h.voter && g.term == h.term && g.term !in elections ::
      g.candidate == h.candidate
  }

  /** Once a term has a leader, the quorum that elected it stays bound to it. */
  ghost predicate WinOk(c: Cluster, nodes: Nodes, t: nat, e: Election) {
    && ElectionQuorum(c, e.voters)
    && e.leader in e.voters
    && forall v | v in e.voters :: v in nodes && Binds(nodes[v], e.leader, t)
  }

  ghost predicate WinsOk(c: Cluster, nodes: Nodes, elections: Elections) {
    forall t | t in elections :: WinOk(c, nodes, t, elections[t])
  }

  ghost predicate VoteRepliesOk(replies: set<VoteReply>, grants: set<Grant>) {
    forall r | r in replies :: r.granted ==> Grant(r.voter, r.candidate, r.reqTerm) in grants
  }

  ghost predicate AppendsFromLeaders(requests: set<AppendRequest>, elections: Elections) {
    forall r | r in requests ::
      r.term in elections && elections[r.term].leader == r.leader && r.follower != r.leader
  }

  ghost predicate VotesOk(c: Cluster, nodes: Nodes, grants: set<Grant>, elections: Elections) {
    && NodesOk(nodes, grants, elections)
    && GrantsOk(nodes, grants, elections)
    && OneVoteEach(grants, elections)
    && WinsOk(c, nodes, elections)
  }

  ghost predicate ElectionInv(c: Cluster, s: System) {
    && Shaped(c, s.nodes)
    && VotesOk(c, s.nodes, s.grants, s.elections)
    && VoteRepliesOk(s.voteReplies, s.grants)
    && AppendsFromLeaders(s.appendRequests, s.elections)
  }

  lemma ElectionInvInitial(c: Cluster)
    requires c.members != {}
    ensures ElectionInv(c, Initial(c))
  {
  }

  // One node changes

  /** `y` may replace the state of `n`: it breaks none of the bonds `n` is under. */
  ghost predicate KeepsBonds(nodes: Nodes, grants: set<Grant>, elections: Elections, n: NodeId, y: NodeState) {
    && n in nodes
    && nodes[n].term <= y.term
    && (forall g | g in grants && g.voter == n && g.term !in elections :: Binds(y, g.candidate, g.term))
    && (forall t | t in elections && n in elections[t].voters :: Binds(y, elections[t].leader, t))
  }

  ghost predicate Casts(cast: set<Grant>, n: NodeId, y: NodeState) {
    forall g | g in cast :: g.voter == n && g.term == y.term && y.votedFor == Some(g.candidate)
  }

  lemma NodesOkAfter(nodes: Nodes, grants: set<Grant>, elections: Elections, n: NodeId, y: NodeState, cast: set<Grant>)
    requires NodesOk(nodes, grants, elections) && NodeOk(grants + cast, elections, n, y)
    ensures NodesOk(nodes[n := y], grants + cast, elections)
  {
    forall m | m in nodes && m != n ensures NodeOk(grants + cast, elections, m, nodes[m]) {
      assert NodeOk(grants, elections, m, nodes[m]);
    }
    hide NodeOk;
  }

  lemma GrantsOkAfter(nodes: Nodes, grants: set<Grant>, elections: Elections, n: NodeId, y: NodeState, cast: set<Grant>)
    requires GrantsOk(nodes, grants, elections) && WinsOkFor(elections, n, y)
    requires KeepsBonds(nodes, grants, elections, n, y) && Casts(cast, n, y)
    ensures GrantsOk(nodes[n := y], grants + cast, elections)
  {
    forall g | g in grants + cast ensures GrantOk(nodes[n := y], elections, g) {
      if g in grants { assert GrantOk(nodes, elections, g); }
    }
    hide GrantOk;
  }

  ghost predicate WinsOkFor(elections: Elections, n: NodeId, y: NodeState) {
    forall t | t in elections && n in elections[t].voters :: Binds(y, elections[t].leader, t)
  }

  lemma WinsOkAfter(c: Cluster, nodes: Nodes, elections: Elections, n: NodeId, y: NodeState)
    requires WinsOk(c, nodes, elections) && WinsOkFor(elections, n, y)
    ensures WinsOk(c, nodes[n := y], elections)
  {
    forall t | t in elections ensures WinOk(c, nodes[n := y], t, elections[t]) {
      assert WinOk(c, nodes, t, elections[t]);
    }
    hide WinOk;
  }

  lemma OneVoteEachAfter(nodes: Nodes, grants: set<Grant>, elections: Elections, n: NodeId, y: NodeState,
        cast: set<Grant>)
    requires OneVoteEach(grants, elections)
    requires KeepsBonds(nodes, grants, elections, n, y) && Casts(cast, n, y)
    ensures OneVoteEach(grants + cast, elections)
  {
  }

  /** One node changes, perhaps casting a vote. */
  lemma OneNodeChanges(c: Cluster, nodes: Nodes, grants: set<Grant>, elections: Elections,
                       n: NodeId, y: NodeState, cast: set<Grant>)
    requires VotesOk(c, nodes, grants, elections)
    requires KeepsBonds(nodes, grants, elections, n, y) && Casts(cast, n, y)
    requires NodeOk(grants + cast, elections, n, y)
    ensures VotesOk(c, nodes[n := y], grants + cast, elections)
  {
    assert WinsOkFor(elections, n, y);
    hide NodesOk, GrantsOk, WinsOk, OneVoteEach, NodeOk, KeepsBonds, Casts, WinsOkFor;
    NodesOkAfter(nodes, grants, elections, n, y, cast);
    GrantsOkAfter(nodes, grants, elections, n, y, cast);
    WinsOkAfter(c, nodes, elections, n, y);
    OneVoteEachAfter(nodes, grants, elections, n, y, cast);
  }

  lemma OneNodeQuiet(c: Cluster, nodes: Nodes, grants: set<Grant>, elections: Elections, n: NodeId, y: NodeState)
    requires VotesOk(c, nodes, grants, elections)
    requires KeepsBonds(nodes, grants, elections, n, y)
    requires NodeOk(grants, elections, n, y)
    ensures VotesOk(c, nodes[n := y], grants, elections)
  {
    assert grants + {} == grants;
    hide VotesOk, NodeOk, KeepsBonds;
    OneNodeChanges(c, nodes, grants, elections, n, y, {});
  }

  /** Moving to a later term, or staying without dropping a vote, breaks no bond. */
  lemma VoteKept(c: Cluster, nodes: Nodes, grants: set<Grant>, elections: Elections, n: NodeId, y: NodeState)
    requires VotesOk(c, nodes, grants, elections) && n in nodes
    requires y.term > nodes[n].term ||
             (y.term == nodes[n].term && (nodes[n].votedFor == None || y.votedFor == nodes[n].votedFor))
    ensures KeepsBonds(nodes, grants, elections, n, y)
  {
    hide NodesOk, OneVoteEach;
    forall g | g in grants && g.voter == n && g.term !in elections ensures Binds(y, g.candidate, g.term) {
      assert GrantOk(nodes, elections, g);
    }
    forall t | t in elections && n in elections[t].voters ensures Binds(y, elections[t].leader, t) {
      assert WinOk(c, nodes, t, elections[t]);
    }
  }

  /** Stepping down within a term drops a vote, but that term has a leader and the node
      stepping down did not help to elect it. */
  lemma StepDownKeepsBonds(c: Cluster, nodes: Nodes, grants: set<Grant>, elections: Elections,
                           n: NodeId, leader: NodeId, y: NodeState)
    requires VotesOk(c, nodes, grants, elections) && n in nodes && n != leader
    requires nodes[n].role != Follower && y.term == nodes[n].term
    requires y.term in elections && elections[y.term].leader == leader
    ensures KeepsBonds(nodes, grants, elections, n, y)
  {
    assert NodeOk(grants, elections, n, nodes[n]);
    hide NodesOk, OneVoteEach;
    forall g | g in grants && g.voter == n && g.term !in elections ensures Binds(y, g.candidate, g.term) {
      assert GrantOk(nodes, elections, g);
    }
    forall t | t in elections && n in elections[t].voters ensures Binds(y, elections[t].leader, t) {
      assert WinOk(c, nodes, t, elections[t]);
    }
  }

  // Steps

  lemma NodeOkAt(c: Cluster, s: System, n: NodeId)
    requires VotesOk(c, s.nodes, s.grants, s.elections) && n in s.nodes
    ensures NodeOk(s.grants, s.elections, n, s.nodes[n])
  {
    hide GrantsOk, WinsOk, OneVoteEach, NodeOk;
  }

  lemma ShapedAfter(c: Cluster, nodes: Nodes, n: NodeId, y: NodeState)
    requires Shaped(c, nodes) && n in nodes && |y.log| > 0
    ensures Shaped(c, nodes[n := y])
  {
  }

  /** A node without the votes of a term did not win it. */
  lemma NotYetLeader(c: Cluster, s: System, n: NodeId, t: nat)
    requires VotesOk(c, s.nodes, s.grants, s.elections) && n in s.nodes && s.nodes[n].term < t
    ensures t in s.elections ==> s.elections[t].leader != n
  {
    hide NodesOk, GrantsOk, OneVoteEach;
    if t in s.elections { assert WinOk(c, s.nodes, t, s.elections[t]); }
  }

  lemma StepTimeout(c: Cluster, s: System, n: NodeId)
    requires ElectionInv(c, s) && n in s.nodes
    ensures ElectionInv(c, AfterTimeout(s, n))
  {
    hide VotesOk, KeepsBonds, AppendsFromLeaders, VoteRepliesOk;
    var y := StartElection(n, s.nodes[n]);
    NotYetLeader(c, s, n, y.term);
    VoteKept(c, s.nodes, s.grants, s.elections, n, y);
    OneNodeChanges(c, s.nodes, s.grants, s.elections, n, y, {Grant(n, n, y.term)});
    ShapedAfter(c, s.nodes, n, y);
    MoreGrants(s.voteReplies, s.grants, {Grant(n, n, y.term)});
  }

  lemma MoreGrants(replies: set<VoteReply>, grants: set<Grant>, cast: set<Grant>)
    requires VoteRepliesOk(replies, grants)
    ensures VoteRepliesOk(replies, grants + cast)
  {
  }

  lemma VoteRequestKeepsVotes(c: Cluster, s: System, n: NodeId, r: VoteRequest)
    requires VotesOk(c, s.nodes, s.grants, s.elections) && n in s.nodes && n != r.candidate && |s.nodes[n].log| > 0
    ensures var s' := AfterDeliverVoteRequest(s, n, r); VotesOk(c, s'.nodes, s'.grants, s'.elections)
  {
    hide VotesOk, KeepsBonds;
    var y := AfterVoteRequest(s.nodes[n], r);
    NodeOkAt(c, s, n);
    VoteKept(c, s.nodes, s.grants, s.elections, n, y);
    if GrantsVote(s.nodes[n], r) {
      OneNodeChanges(c, s.nodes, s.grants, s.elections, n, y, {Grant(n, r.candidate, r.term)});
    } else {
      OneNodeQuiet(c, s.nodes, s.grants, s.elections, n, y);
    }
  }

  lemma StepVoteRequest(c: Cluster, s: System, n: NodeId, r: VoteRequest)
    requires ElectionInv(c, s) && n in s.nodes && n != r.candidate
    ensures ElectionInv(c, AfterDeliverVoteRequest(s, n, r))
  {
    hide VotesOk, AppendsFromLeaders;
    VoteRequestKeepsVotes(c, s, n, r);
    ShapedAfter(c, s.nodes, n, AfterVoteRequest(s.nodes[n], r));
    hide Shaped;
  }

  lemma StepVoteReply(c: Cluster, s: System, r: VoteReply)
    requires ElectionInv(c, s) && r in s.voteReplies && r.candidate in s.nodes
    ensures ElectionInv(c, AfterDeliverVoteReply(s, r))
  {
    hide VotesOk, KeepsBonds, AppendsFromLeaders;
    var n, y := r.candidate, AfterVoteReply(s.nodes[r.candidate], r);
    NodeOkAt(c, s, n);
    VoteKept(c, s.nodes, s.grants, s.elections, n, y);
    OneNodeQuiet(c, s.nodes, s.grants, s.elections, n, y);
    ShapedAfter(c, s.nodes, n, y);
  }

  /** Whoever gathers a quorum in a term that already has a leader is that leader. */
  lemma QuorumNamesLeader(c: Cluster, s: System, n: NodeId, votes: set<NodeId>, t: nat)
    requires SafeSize(c) && GrantsOk(s.nodes, s.grants, s.elections) && WinsOk(c, s.nodes, s.elections)
    requires ElectionQuorum(c, votes) && forall v | v in votes :: Grant(v, n, t) in s.grants
    ensures t in s.elections ==> s.elections[t].leader == n
  {
    if t in s.elections {
      assert WinOk(c, s.nodes, t, s.elections[t]);
      ElectionsOverlap(c, votes, s.elections[t].voters);
      var v :| v in votes && v in s.elections[t].voters;
      assert GrantOk(s.nodes, s.elections, Grant(v, n, t));
    }
  }

  /** A term is won at most once, and by a quorum. */
  lemma WinnerIsFirst(c: Cluster, s: System, n: NodeId)
    requires SafeSize(c) && ElectionInv(c, s) && n in s.nodes && HasWon(c, s.nodes[n])
    ensures ElectionQuorum(c, s.nodes[n].votes)
    ensures s.nodes[n].term !in s.elections
  {
    var x := s.nodes[n];
    assert NodeOk(s.grants, s.elections, n, x);
    forall v | v in x.votes ensures v in c.members {
      assert GrantOk(s.nodes, s.elections, Grant(v, n, x.term));
    }
    QuorumNamesLeader(c, s, n, x.votes, x.term);
  }

  lemma WinKeepsGrants(c: Cluster, s: System, n: NodeId, y: NodeState, e: Election)
    requires VotesOk(c, s.nodes, s.grants, s.elections) && n in s.nodes
    requires y.term == s.nodes[n].term && y.term !in s.elections && y.votedFor == s.nodes[n].votedFor && e.leader == n
    requires forall v | v in e.voters :: Grant(v, n, y.term) in s.grants
    ensures GrantsOk(s.nodes[n := y], s.grants, s.elections[y.term := e])
  {
    forall g | g in s.grants ensures GrantOk(s.nodes[n := y], s.elections[y.term := e], g) {
      assert GrantOk(s.nodes, s.elections, g);
      if g.term == y.term && g.voter in e.voters {
        assert Grant(g.voter, n, y.term) in s.grants;
      }
    }
    hide GrantOk, VotesOk;
  }

  lemma WinKeepsWins(c: Cluster, s: System, n: NodeId, y: NodeState, e: Election)
    requires VotesOk(c, s.nodes, s.grants, s.elections) && n in s.nodes
    requires y.term == s.nodes[n].term && y.term !in s.elections && y.votedFor == s.nodes[n].votedFor && e.leader == n
    requires ElectionQuorum(c, e.voters) && n in e.voters
    requires forall v | v in e.voters :: Grant(v, n, y.term) in s.grants
    ensures WinsOk(c, s.nodes[n := y], s.elections[y.term := e])
  {
    hide NodesOk, OneVoteEach, ElectionQuorum;
    forall t | t in s.elections ensures WinOk(c, s.nodes[n := y], t, s.elections[t]) {
      assert WinOk(c, s.nodes, t, s.elections[t]);
    }
    forall v | v in e.voters ensures v in s.nodes[n := y] && Binds(s.nodes[n := y][v], n, y.term) {
      assert GrantOk(s.nodes, s.elections, Grant(v, n, y.term));
    }
  }

  lemma WinKeepsNodes(s: System, n: NodeId, y: NodeState, e: Election)
    requires NodesOk(s.nodes, s.grants, s.elections) && y.term !in s.elections
    requires y.role == Leader && y.leaderId == Some(n) && y.votedFor == Some(n) && e.leader == n
    ensures NodesOk(s.nodes[n := y], s.grants, s.elections[y.term := e])
  {
    forall m | m in s.nodes && m != n ensures NodeOk(s.grants, s.elections[y.term := e], m, s.nodes[m]) {
      assert NodeOk(s.grants, s.elections, m, s.nodes[m]);
    }
    assert NodeOk(s.grants, s.elections[y.term := e], n, y);
    hide NodeOk;
  }

  lemma WinKeepsVotes(c: Cluster, s: System, n: NodeId)
    requires SafeSize(c) && ElectionInv(c, s) && n in s.nodes && HasWon(c, s.nodes[n])
    ensures var s' := AfterWin(c, s, n); VotesOk(c, s'.nodes, s'.grants, s'.elections)
  {
    WinnerIsFirst(c, s, n);
    hide GrantsOk, NodesOk, WinsOk, ElectionQuorum, VoteRepliesOk, Shaped, AppendsFromLeaders;
    var y := BecomeLeader(c, n, s.nodes[n]);
    var e := Election(n, y.votes, |y.log|);
    NodeOkAt(c, s, n);
    WinKeepsGrants(c, s, n, y, e);
    WinKeepsWins(c, s, n, y, e);
    WinKeepsNodes(s, n, y, e);
    assert OneVoteEach(s.grants, s.elections[y.term := e]);
  }

  lemma StepWin(c: Cluster, s: System, n: NodeId)
    requires SafeSize(c) && ElectionInv(c, s) && n in s.nodes && HasWon(c, s.nodes[n])
    ensures ElectionInv(c, AfterWin(c, s, n))
  {
    hide VotesOk, VoteRepliesOk;
    WinnerIsFirst(c, s, n);
    WinKeepsVotes(c, s, n);
  }

  lemma SendKeepsOrigin(c: Cluster, s: System, n: NodeId, peer: NodeId)
    requires n in s.nodes && |s.nodes[n].log| > 0 && peer != n && s.nodes[n].role == Leader
    requires AppendsFromLeaders(s.appendRequests, s.elections) && NodeOk(s.grants, s.elections, n, s.nodes[n])
    ensures AppendsFromLeaders(AfterSendAppend(s, n, peer).appendRequests, s.elections)
  {
  }

  lemma StepSend(c: Cluster, s: System, n: NodeId, peer: NodeId)
    requires ElectionInv(c, s) && n in s.nodes && peer != n && s.nodes[n].role == Leader
    ensures ElectionInv(c, AfterSendAppend(s, n, peer))
  {
    hide VotesOk, KeepsBonds, VoteRepliesOk, AppendsFromLeaders, NodeOk;
    NodeOkAt(c, s, n);
    SendKeepsOrigin(c, s, n, peer);
    StepLocal(c, s, n, AfterSend(s.nodes[n], peer));
    ShapedAfter(c, s.nodes, n, AfterSend(s.nodes[n], peer));
  }

  /** Handling an AppendEntries leaves a consistent node. */
  lemma AppendKeepsNode(s: System, r: AppendRequest)
    requires AppendsFromLeaders(s.appendRequests, s.elections) && r in s.appendRequests && r.follower in s.nodes
    requires NodeOk(s.grants, s.elections, r.follower, s.nodes[r.follower])
    ensures NodeOk(s.grants, s.elections, r.follower, AfterAppend(s.nodes[r.follower], r))
    ensures r.term in s.elections && s.elections[r.term].leader == r.leader && r.follower != r.leader
  {
    var n, x, y := r.follower, s.nodes[r.follower], AfterAppend(s.nodes[r.follower], r);
    assert y == x || (y.role == Follower && y.leaderId == Some(r.leader) && y.term == r.term);
  }

  lemma AppendKeepsVotes(c: Cluster, s: System, r: AppendRequest)
    requires VotesOk(c, s.nodes, s.grants, s.elections)
    requires AppendsFromLeaders(s.appendRequests, s.elections) && r in s.appendRequests && r.follower in s.nodes
    ensures VotesOk(c, s.nodes[r.follower := AfterAppend(s.nodes[r.follower], r)], s.grants, s.elections)
  {
    hide VotesOk, KeepsBonds, NodeOk, AppendsFromLeaders;
    var n, x, y := r.follower, s.nodes[r.follower], AfterAppend(s.nodes[r.follower], r);
    NodeOkAt(c, s, n);
    AppendKeepsNode(s, r);
    if x.role == Follower || r.term != x.term {
      VoteKept(c, s.nodes, s.grants, s.elections, n, y);
    } else {
      StepDownKeepsBonds(c, s.nodes, s.grants, s.elections, n, r.leader, y);
    }
    OneNodeQuiet(c, s.nodes, s.grants, s.elections, n, y);
  }

  lemma StepAppend(c: Cluster, s: System, r: AppendRequest)
    requires ElectionInv(c, s) && r in s.appendRequests && r.follower in s.nodes
    ensures ElectionInv(c, AfterDeliverAppend(s, r))
  {
    hide VotesOk, VoteRepliesOk, AppendsFromLeaders;
    AppendKeepsVotes(c, s, r);
    ShapedAfter(c, s.nodes, r.follower, AfterAppend(s.nodes[r.follower], r));
  }

  lemma ReplyKeepsVotes(c: Cluster, s: System, n: NodeId, r: AppendReply)
    requires VotesOk(c, s.nodes, s.grants, s.elections) && Shaped(c, s.nodes) && n in s.nodes
    ensures VotesOk(c, s.nodes[n := AfterAppendReply(c, n, s.nodes[n], r)], s.grants, s.elections)
  {
    hide VotesOk, KeepsBonds;
    var y := AfterAppendReply(c, n, s.nodes[n], r);
    NodeOkAt(c, s, n);
    VoteKept(c, s.nodes, s.grants, s.elections, n, y);
    OneNodeQuiet(c, s.nodes, s.grants, s.elections, n, y);
  }

  lemma StepAppendReply(c: Cluster, s: System, r: AppendReply)
    requires ElectionInv(c, s) && r.req.leader in s.nodes
    ensures ElectionInv(c, AfterDeliverAppendReply(c, s, r))
  {
    hide VotesOk, VoteRepliesOk, AppendsFromLeaders;
    ReplyKeepsVotes(c, s, r.req.leader, r);
    ShapedAfter(c, s.nodes, r.req.leader, AfterAppendReply(c, r.req.leader, s.nodes[r.req.leader], r));
  }

  /** Only fields that elections ignore change. */
  lemma StepLocal(c: Cluster, s: System, n: NodeId, y: NodeState)
    requires VotesOk(c, s.nodes, s.grants, s.elections) && n in s.nodes
    requires var x := s.nodes[n];
             y.role == x.role && y.term == x.term && y.votedFor == x.votedFor && y.leaderId == x.leaderId
               && y.votes == x.votes
    ensures VotesOk(c, s.nodes[n := y], s.grants, s.elections)
  {
    hide VotesOk, KeepsBonds;
    NodeOkAt(c, s, n);
    VoteKept(c, s.nodes, s.grants, s.elections, n, y);
    OneNodeQuiet(c, s.nodes, s.grants, s.elections, n, y);
  }

  lemma StepElectionInv(c: Cluster, s: System, step: Step)
    requires SafeSize(c) && ElectionInv(c, s) && Enabled(c, s, step)
    ensures ElectionInv(c, Next(c, s, step))
  {
    hide VotesOk, VoteRepliesOk, AppendsFromLeaders;
    match step
    case Timeout(n) => StepTimeout(c, s, n);
    case DeliverVoteRequest(n, r) => StepVoteRequest(c, s, n, r);
    case DeliverVoteReply(r) => StepVoteReply(c, s, r);
    case WinElection(n) => StepWin(c, s, n);
    case SendAppend(n, peer) => StepSend(c, s, n, peer);
    case DeliverAppend(r) => StepAppend(c, s, r);
    case AnswerLate(r) =>
    case DeliverAppendReply(r) => StepAppendReply(c, s, r);
    case ProposeCommand(n, cmd) => StepLocal(c, s, n, Propose(c, s.nodes[n], cmd));
    case Apply(n) => StepLocal(c, s, n, ApplyNext(s.nodes[n]));
  }
}
