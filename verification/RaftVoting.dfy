/** Who votes for whom, whatever their logs: of any two nodes one would vote for the other, so every set of
    nodes has one that all the others would vote for, and a large enough set can always get a leader. */
module RaftVoting {
  import opened Commons
  import opened RaftTypes
  import opened RaftHandlers
  import opened RaftSystem
  import opened Quorums
  import opened RaftRuns

  // The order that votes put on nodes

  /** `y` votes for `x`, which calls itself `a`, in every term that is new to `y`. */
  ghost predicate WouldVote(a: NodeId, x: NodeState, y: NodeState)
    requires |x.log| > 0 && |y.log| > 0
  {
    forall t: nat | t > y.term :: GrantsVote(y, VoteRequestOf(a, x.(term := t)))
  }

  /** Of any two nodes, one would vote for the other. */
  lemma VotesAreTotal(a: NodeId, x: NodeState, b: NodeId, y: NodeState)
    requires |x.log| > 0 && |y.log| > 0
    ensures WouldVote(a, x, y) || WouldVote(b, y, x)
  {
  }

  lemma VotesAreTransitive(a: NodeId, x: NodeState, b: NodeId, y: NodeState, z: NodeState)
    requires |x.log| > 0 && |y.log| > 0 && |z.log| > 0 && WouldVote(a, x, y) && WouldVote(b, y, z)
    ensures WouldVote(a, x, z)
  {
    assert GrantsVote(y, VoteRequestOf(a, x.(term := y.term + 1)));
    assert GrantsVote(z, VoteRequestOf(b, y.(term := z.term + 1)));
  }

  ghost predicate Favourite(nodes: map<NodeId, NodeState>, q: set<NodeId>, m: NodeId)
    requires q <= nodes.Keys && forall n | n in nodes :: |nodes[n].log| > 0
  {
    m in q && forall v | v in q && v != m :: WouldVote(m, nodes[m], nodes[v])
  }

  /** Every set of nodes has a member for which all the others would vote. */
  lemma {:induction false} FavouriteExists(nodes: map<NodeId, NodeState>, q: set<NodeId>) returns (m: NodeId)
    requires q <= nodes.Keys && q != {} && forall n | n in nodes :: |nodes[n].log| > 0
    ensures Favourite(nodes, q, m)
    decreases q
  {
    hide WouldVote;
    var b :| b in q;
    if q == {b} {
      m := b;
    } else {
      var a := FavouriteExists(nodes, q - {b});
      VotesAreTotal(a, nodes[a], b, nodes[b]);
      m := if WouldVote(a, nodes[a], nodes[b]) then a else b;
      forall v | v in q && v != m ensures WouldVote(m, nodes[m], nodes[v]) {
        if m == b && v != a { VotesAreTransitive(b, nodes[b], a, nodes[a], nodes[v]); }
      }
    }
  }

  /** In every reachable state every set of members has one that all its others would vote for. */
  lemma FavouriteReached(c: Cluster, d: Delivery, s: System, q: set<NodeId>) returns (m: NodeId)
    requires Reaches(c, d, s) && q <= c.members && q != {}
    ensures Shaped(c, s.nodes) && Favourite(s.nodes, q, m)
  {
    ReachedShaped(c, d, s);
    hide Reaches, Favourite;
    m := FavouriteExists(s.nodes, q);
  }

  // Steps that touch few nodes

  ghost predicate Untouched(s: System, s': System, except: set<NodeId>) {
    forall n | n in s.nodes && n !in except :: n in s'.nodes && s'.nodes[n] == s.nodes[n]
  }

  lemma UntouchedBoth(s: System, s': System, s'': System, except: set<NodeId>, more: set<NodeId>)
    requires Untouched(s, s', except) && Untouched(s', s'', more)
    ensures Untouched(s, s'', except + more)
  {
  }

  lemma UntouchedAt(s: System, s': System, except: set<NodeId>, n: NodeId)
    requires Untouched(s, s', except) && n in s.nodes && n !in except
    ensures n in s'.nodes && s'.nodes[n] == s.nodes[n]
  {
  }

  lemma MembersThere(c: Cluster, s: System)
    requires Shaped(c, s.nodes)
    ensures c.members != {} && s.nodes.Keys == c.members
  {
  }

  /** What elections leave alone. */
  ghost predicate SameData(x: NodeState, y: NodeState) {
    y.log == x.log && y.commitIndex == x.commitIndex && y.lastApplied == x.lastApplied && y.applied == x.applied
  }

  // Single steps

  lemma VoteRequestStep(c: Cluster, d: Delivery, s: System, v: NodeId, r: VoteRequest) returns (s': System)
    requires Reaches(c, d, s) && Shaped(c, s.nodes) && v in s.nodes && |s.nodes[v].log| > 0
    requires r in s.voteRequests && v != r.candidate
    ensures Reaches(c, d, s') && Shaped(c, s'.nodes) && s'.nodes == s.nodes[v := AfterVoteRequest(s.nodes[v], r)]
    ensures VoteReply(v, r.candidate, r.term, AfterVoteRequest(s.nodes[v], r).term, GrantsVote(s.nodes[v], r))
            in s'.voteReplies
    ensures s'.voteRequests == s.voteRequests
    ensures s'.appendRequests == s.appendRequests && s'.appendReplies == s.appendReplies
  {
    hide Reaches, AfterVoteRequest, GrantsVote;
    ReachesNext(c, d, s, DeliverVoteRequest(v, r));
    s' := AfterDeliverVoteRequest(s, v, r);
  }

  lemma VoteReplyStep(c: Cluster, d: Delivery, s: System, r: VoteReply) returns (s': System)
    requires Reaches(c, d, s) && Shaped(c, s.nodes) && r in s.voteReplies && r.candidate in s.nodes
    ensures Reaches(c, d, s') && Shaped(c, s'.nodes)
    ensures s'.nodes == s.nodes[r.candidate := AfterVoteReply(s.nodes[r.candidate], r)]
    ensures s'.voteRequests == s.voteRequests
    ensures s'.appendRequests == s.appendRequests && s'.appendReplies == s.appendReplies
  {
    hide Reaches, AfterVoteReply;
    ReachesNext(c, d, s, DeliverVoteReply(r));
    s' := AfterDeliverVoteReply(s, r);
  }

  lemma TimeoutStep(c: Cluster, d: Delivery, s: System, a: NodeId) returns (s': System)
    requires Reaches(c, d, s) && Shaped(c, s.nodes) && a in s.nodes && s.nodes[a].role != Leader
    requires |s.nodes[a].log| > 0
    ensures Reaches(c, d, s') && Shaped(c, s'.nodes) && s'.nodes == s.nodes[a := StartElection(a, s.nodes[a])]
    ensures VoteRequestOf(a, StartElection(a, s.nodes[a])) in s'.voteRequests
    ensures s'.appendRequests == s.appendRequests && s'.appendReplies == s.appendReplies
  {
    hide Reaches;
    ReachesNext(c, d, s, Timeout(a));
    s' := AfterTimeout(s, a);
  }

  lemma WinStep(c: Cluster, d: Delivery, s: System, a: NodeId) returns (s': System)
    requires Reaches(c, d, s) && Shaped(c, s.nodes) && a in s.nodes && c.members != {} && HasWon(c, s.nodes[a])
    ensures Reaches(c, d, s') && Shaped(c, s'.nodes) && s'.nodes == s.nodes[a := BecomeLeader(c, a, s.nodes[a])]
    ensures s'.voteRequests == s.voteRequests
    ensures s'.appendRequests == s.appendRequests && s'.appendReplies == s.appendReplies
  {
    hide Reaches, HasWon;
    ReachesNext(c, d, s, WinElection(a));
    s' := AfterWin(c, s, a);
  }

  lemma SendStep(c: Cluster, d: Delivery, s: System, a: NodeId, v: NodeId) returns (s': System, r: AppendRequest)
    requires Reaches(c, d, s) && Shaped(c, s.nodes) && a in s.nodes && v in s.nodes && a != v
    requires s.nodes[a].role == Leader && |s.nodes[a].log| > 0
    ensures Reaches(c, d, s') && Shaped(c, s'.nodes) && s'.nodes == s.nodes[a := AfterSend(s.nodes[a], v)]
    ensures r == AppendFor(a, s.nodes[a], v, s.sent) && s'.appendRequests == s.appendRequests + {r}
    ensures Prompt(d, s', DeliverAppend(r)) && s'.appendReplies == s.appendReplies
    ensures s'.voteRequests == s.voteRequests
  {
    hide Reaches, AfterSend;
    ReachesNext(c, d, s, SendAppend(a, v));
    s', r := AfterSendAppend(s, a, v), AppendFor(a, s.nodes[a], v, s.sent);
  }

  lemma DeliverStep(c: Cluster, d: Delivery, s: System, r: AppendRequest) returns (s': System)
    requires Reaches(c, d, s) && Shaped(c, s.nodes) && r in s.appendRequests && r.follower in s.nodes
    requires Prompt(d, s, DeliverAppend(r))
    ensures Reaches(c, d, s') && Shaped(c, s'.nodes)
    ensures s'.nodes == s.nodes[r.follower := AfterAppend(s.nodes[r.follower], r)]
    ensures s'.appendReplies == s.appendReplies
      + {AppendReply(r, AfterAppend(s.nodes[r.follower], r).term, Accepts(s.nodes[r.follower], r))}
    ensures s'.appendRequests == s.appendRequests && s'.voteRequests == s.voteRequests
  {
    hide Reaches, AfterAppend, Accepts;
    ReachesNext(c, d, s, DeliverAppend(r));
    s' := AfterDeliverAppend(s, r);
  }

  lemma ReplyStep(c: Cluster, d: Delivery, s: System, r: AppendReply) returns (s': System)
    requires Reaches(c, d, s) && Shaped(c, s.nodes) && r in s.appendReplies && r.req.leader in s.nodes
    requires c.members != {} && |s.nodes[r.req.leader].log| > 0
    ensures Reaches(c, d, s') && Shaped(c, s'.nodes)
    ensures s'.nodes == s.nodes[r.req.leader := AfterAppendReply(c, r.req.leader, s.nodes[r.req.leader], r)]
    ensures s'.appendRequests == s.appendRequests && s'.appendReplies == s.appendReplies
  {
    hide Reaches, AfterAppendReply;
    ReachesNext(c, d, s, DeliverAppendReply(r));
    s' := AfterDeliverAppendReply(c, s, r);
  }

  // Votes

  ghost predicate Campaigns(s: System, a: NodeId) {
    a in s.nodes && |s.nodes[a].log| > 0 && s.nodes[a].role == Candidate
    && VoteRequestOf(a, s.nodes[a]) in s.voteRequests
  }

  /** The voters have not reached the term of the request and would grant it. */
  ghost predicate Ready(s: System, voters: set<NodeId>, r: VoteRequest) {
    forall v | v in voters ::
      && v in s.nodes && v != r.candidate && |s.nodes[v].log| > 0
      && s.nodes[v].term < r.term && GrantsVote(s.nodes[v], r)
  }

  ghost predicate Voted(s: System, s': System, voters: set<NodeId>, r: VoteRequest) {
    forall v | v in voters ::
      v in s.nodes && v in s'.nodes && |s.nodes[v].log| > 0 && s'.nodes[v] == AfterVoteRequest(s.nodes[v], r)
  }

  /** A vote is asked for, given and counted. */
  lemma OneVote(c: Cluster, d: Delivery, s: System, a: NodeId, v: NodeId) returns (s': System)
    requires Reaches(c, d, s) && Shaped(c, s.nodes) && Campaigns(s, a) && Ready(s, {v}, VoteRequestOf(a, s.nodes[a]))
    ensures Reaches(c, d, s') && Shaped(c, s'.nodes) && Untouched(s, s', {a, v})
    ensures Voted(s, s', {v}, VoteRequestOf(a, s.nodes[a])) && Campaigns(s', a)
    ensures s'.nodes[a] == s.nodes[a].(votes := s.nodes[a].votes + {v})
    ensures s'.appendRequests == s.appendRequests && s'.appendReplies == s.appendReplies
  {
    hide Reaches, Shaped, GrantsVote, AfterVoteRequest, AfterVoteReply;
    var x, r := s.nodes[a], VoteRequestOf(a, s.nodes[a]);
    assert v in {v};
    var s1 := VoteRequestStep(c, d, s, v, r);
    GrantedState(s.nodes[v], r);
    var reply := VoteReply(v, a, r.term, r.term, true);
    s' := VoteReplyStep(c, d, s1, reply);
    CountedState(x, reply);
  }

  lemma GrantedState(y: NodeState, r: VoteRequest)
    requires |y.log| > 0 && y.term < r.term && GrantsVote(y, r)
    ensures var z := AfterVoteRequest(y, r); z.term == r.term && z.role == Follower && SameData(y, z)
  {
  }

  lemma CountedState(x: NodeState, reply: VoteReply)
    requires x.role == Candidate && reply.granted && reply.term == x.term == reply.reqTerm
    ensures AfterVoteReply(x, reply) == x.(votes := x.votes + {reply.voter})
  {
  }

  lemma {:induction false} AllVotes(c: Cluster, d: Delivery, s: System, a: NodeId, voters: set<NodeId>)
    returns (s': System)
    requires Reaches(c, d, s) && Shaped(c, s.nodes) && Campaigns(s, a) && Ready(s, voters, VoteRequestOf(a, s.nodes[a]))
    ensures Reaches(c, d, s') && Shaped(c, s'.nodes) && Untouched(s, s', voters + {a})
    ensures Voted(s, s', voters, VoteRequestOf(a, s.nodes[a])) && Campaigns(s', a)
    ensures s'.nodes[a] == s.nodes[a].(votes := s.nodes[a].votes + voters)
    ensures s'.appendRequests == s.appendRequests && s'.appendReplies == s.appendReplies
    decreases voters
  {
    hide Reaches, Shaped, GrantsVote, AfterVoteRequest;
    var r := VoteRequestOf(a, s.nodes[a]);
    if voters == {} {
      s' := s;
      assert s.nodes[a].votes + voters == s.nodes[a].votes;
    } else {
      var v :| v in voters;
      var rest := voters - {v};
      var s1 := AllVotes(c, d, s, a, rest);
      assert s1.nodes[v] == s.nodes[v] by { assert v !in rest + {a}; }
      s' := OneVote(c, d, s1, a, v);
      assert s.nodes[a].votes + rest + {v} == s.nodes[a].votes + voters;
      forall w | w in voters ensures w in s'.nodes && s'.nodes[w] == AfterVoteRequest(s.nodes[w], r) {
        if w != v { assert w in rest && w !in {a, v}; }
      }
    }
  }

  lemma EnoughVotes(c: Cluster, x: NodeState)
    requires c.members != {} && x.role == Candidate
    requires |c.members| == 1 || (|x.votes| >= 2 && |x.votes| >= c.Majority())
    ensures HasWon(c, x)
  {
  }

  /** A node that does not lead stands for election and wins with these votes. */
  lemma ElectFrom(c: Cluster, d: Delivery, s: System, a: NodeId, voters: set<NodeId>) returns (s': System)
    requires Reaches(c, d, s) && Shaped(c, s.nodes) && a in s.nodes && |s.nodes[a].log| > 0 && s.nodes[a].role != Leader
    requires Ready(s, voters, VoteRequestOf(a, StartElection(a, s.nodes[a])))
    requires c.members != {} && (|c.members| == 1 || (|voters| >= 1 && |voters| + 1 >= c.Majority()))
    ensures Reaches(c, d, s') && Shaped(c, s'.nodes) && Untouched(s, s', voters + {a})
    ensures Voted(s, s', voters, VoteRequestOf(a, StartElection(a, s.nodes[a])))
    ensures a in s'.nodes
         && s'.nodes[a] == BecomeLeader(c, a, StartElection(a, s.nodes[a]).(votes := {a} + voters))
    ensures VoteRequestOf(a, StartElection(a, s.nodes[a])) in s'.voteRequests
    ensures s'.appendRequests == s.appendRequests && s'.appendReplies == s.appendReplies
  {
    hide Reaches, Shaped, GrantsVote, AfterVoteRequest, HasWon;
    var x, r := StartElection(a, s.nodes[a]), VoteRequestOf(a, StartElection(a, s.nodes[a]));
    var s1 := TimeoutStep(c, d, s, a);
    assert Ready(s1, voters, r) && a !in voters;
    var s2 := AllVotes(c, d, s1, a, voters);
    assert |{a} + voters| == |voters| + 1;
    EnoughVotes(c, s2.nodes[a]);
    s' := WinStep(c, d, s2, a);
    hide Voted, Ready;
    VotedVia(s, s1, s2, s', a, voters, r);
  }

  lemma VotedVia(s: System, s1: System, s2: System, s': System, a: NodeId, voters: set<NodeId>, r: VoteRequest)
    requires a in s.nodes && a !in voters && Voted(s1, s2, voters, r) && Untouched(s1, s2, voters + {a})
    requires a in s1.nodes && a in s2.nodes && a in s'.nodes
    requires s1.nodes == s.nodes[a := s1.nodes[a]] && s'.nodes == s2.nodes[a := s'.nodes[a]]
    ensures Voted(s, s', voters, r) && Untouched(s, s', voters + {a})
  {
    hide AfterVoteRequest;
  }

  // From any state on

  /** Timeouts bring a node that does not lead to any later term. */
  lemma {:induction false} RaiseTerm(c: Cluster, d: Delivery, s: System, a: NodeId, t: nat) returns (s': System)
    requires Reaches(c, d, s) && Shaped(c, s.nodes) && a in s.nodes && s.nodes[a].role != Leader
    requires s.nodes[a].term <= t && |s.nodes[a].log| > 0
    ensures Reaches(c, d, s') && Shaped(c, s'.nodes) && Untouched(s, s', {a}) && a in s'.nodes
    ensures s'.nodes[a].role != Leader && s'.nodes[a].term == t && SameData(s.nodes[a], s'.nodes[a])
    decreases t - s.nodes[a].term
  {
    hide Reaches, Shaped;
    if s.nodes[a].term == t {
      s' := s;
    } else {
      var s1 := AfterTimeout(s, a);
      ReachesNext(c, d, s, Timeout(a));
      s' := RaiseTerm(c, d, s1, a, t);
    }
  }

  /** A leader steps down when it hears from a node of a later term. */
  lemma Depose(c: Cluster, d: Delivery, s: System, a: NodeId, v: NodeId) returns (s': System)
    requires Reaches(c, d, s) && Shaped(c, s.nodes) && a in s.nodes && v in s.nodes && |s.nodes[a].log| > 0
    requires s.nodes[a].role == Leader && s.nodes[a].term < s.nodes[v].term
    ensures Reaches(c, d, s') && Shaped(c, s'.nodes) && Untouched(s, s', {a}) && a in s'.nodes
    ensures s'.nodes[a].role == Follower && s'.nodes[a].term == s.nodes[v].term && SameData(s.nodes[a], s'.nodes[a])
  {
    hide Reaches, Shaped, AfterSend, AfterAppend, AfterAppendReply, Accepts, Prompt;
    MembersThere(c, s);
    var x, y := s.nodes[a], s.nodes[v];
    var s1, r := SendStep(c, d, s, a, v);
    SentState(a, x, v, s.sent);
    var s2 := DeliverStep(c, d, s1, r);
    StaleState(y, r);
    s' := ReplyStep(c, d, s2, AppendReply(r, y.term, false));
    DeposedState(c, a, AfterSend(x, v), AppendReply(r, y.term, false));
  }

  lemma SentState(a: NodeId, x: NodeState, v: NodeId, seqNo: nat)
    requires |x.log| > 0
    ensures var y, r := AfterSend(x, v), AppendFor(a, x, v, seqNo);
      && y == x.(nextIndex := x.nextIndex[v := NextFor(x, v)])
      && r.leader == a && r.follower == v && r.term == x.term
  {
  }

  lemma StaleState(y: NodeState, r: AppendRequest)
    requires r.term < y.term
    ensures AfterAppend(y, r) == y && !Accepts(y, r)
  {
  }

  lemma DeposedState(c: Cluster, a: NodeId, x: NodeState, r: AppendReply)
    requires c.members != {} && |x.log| > 0 && r.term > x.term
    ensures AfterAppendReply(c, a, x, r) == BecomeFollower(x, r.term, None)
  {
  }

  ghost function LatestTerm(nodes: map<NodeId, NodeState>, q: set<NodeId>): (t: nat)
    requires q <= nodes.Keys
    ensures forall v | v in q :: nodes[v].term <= t
    ensures q != {} ==> exists v :: v in q && nodes[v].term == t
  {
    if q == {} then 0
    else
      var v :| v in q;
      var rest := LatestTerm(nodes, q - {v});
      if nodes[v].term > rest then nodes[v].term else rest
  }

  /** Elections and timeouts leave every log and state machine alone. */
  ghost predicate AllSameData(s: System, s': System) {
    s'.nodes.Keys == s.nodes.Keys && forall n | n in s.nodes :: SameData(s.nodes[n], s'.nodes[n])
  }

  /** `m` leads, in a term that is not behind any of `q`. */
  ghost predicate LeadsAll(s: System, q: set<NodeId>, m: NodeId) {
    && m in q && q <= s.nodes.Keys && s.nodes[m].role == Leader
    && forall v | v in q :: s.nodes[v].term <= s.nodes[m].term
  }

  lemma FavouriteReady(s: System, s1: System, q: set<NodeId>, m: NodeId, t: nat)
    requires q <= s.nodes.Keys && (forall n | n in s.nodes :: |s.nodes[n].log| > 0) && Favourite(s.nodes, q, m)
    requires Untouched(s, s1, {m}) && m in s1.nodes && SameData(s.nodes[m], s1.nodes[m]) && s1.nodes[m].term == t
    requires forall v | v in q :: s.nodes[v].term <= t
    ensures Ready(s1, q - {m}, VoteRequestOf(m, StartElection(m, s1.nodes[m])))
  {
    var r := VoteRequestOf(m, StartElection(m, s1.nodes[m]));
    assert r == VoteRequestOf(m, s.nodes[m].(term := t + 1));
    hide GrantsVote, VoteRequestOf;
    forall v | v in q - {m}
      ensures v in s1.nodes && |s1.nodes[v].log| > 0 && s1.nodes[v].term < r.term && GrantsVote(s1.nodes[v], r)
    {
      assert WouldVote(m, s.nodes[m], s.nodes[v]);
      assert t + 1 > s.nodes[v].term;
    }
  }

  lemma VotedData(s: System, s': System, voters: set<NodeId>, r: VoteRequest)
    requires Voted(s, s', voters, r) && Ready(s, voters, r)
    ensures forall v | v in voters :: v in s.nodes && v in s'.nodes && SameData(s.nodes[v], s'.nodes[v])
                                      && s'.nodes[v].term == r.term
  {
    hide GrantsVote, AfterVoteRequest, SameData;
    forall v | v in voters ensures v in s'.nodes && SameData(s.nodes[v], s'.nodes[v]) && s'.nodes[v].term == r.term {
      GrantedState(s.nodes[v], r);
    }
  }

  /** The favourite of an electing set, brought to their latest term, wins the next. */
  lemma FavouriteWins(c: Cluster, d: Delivery, s: System, s1: System, q: set<NodeId>, m: NodeId, t: nat)
    returns (s': System)
    requires Reaches(c, d, s1) && Shaped(c, s.nodes) && Shaped(c, s1.nodes) && ElectionQuorum(c, q)
    requires Favourite(s.nodes, q, m) && Untouched(s, s1, {m}) && SameData(s.nodes[m], s1.nodes[m])
    requires s1.nodes[m].role != Leader && s1.nodes[m].term == t && forall v | v in q :: s.nodes[v].term <= t
    ensures Reaches(c, d, s') && Shaped(c, s'.nodes) && LeadsAll(s', q, m) && AllSameData(s, s')
  {
    hide Reaches, GrantsVote, AfterVoteRequest, Favourite, ElectionQuorum, Shaped, Voted, Ready, SameData, Untouched;
    QuorumThere(c, s, q);
    FavouriteIn(s, q, m);
    QuorumVotes(c, q, m);
    MembersThere(c, s);
    MembersThere(c, s1);
    FavouriteReady(s, s1, q, m, t);
    s' := ElectFrom(c, d, s1, m, q - {m}) by { QuorumThere(c, s1, q); }
    VotedData(s1, s', q - {m}, VoteRequestOf(m, StartElection(m, s1.nodes[m])));
    MembersThere(c, s');
    ElectedData(c, s1.nodes[m], m, q);
    WonData(c, s, s1, s', q, m);
  }

  lemma ElectedData(c: Cluster, x: NodeState, m: NodeId, q: set<NodeId>)
    ensures SameData(x, BecomeLeader(c, m, StartElection(m, x).(votes := {m} + (q - {m}))))
  {
  }

  lemma QuorumVotes(c: Cluster, q: set<NodeId>, m: NodeId)
    requires ElectionQuorum(c, q) && m in q
    ensures c.members != {} && q - {m} + {m} == q
    ensures |c.members| == 1 || (|q - {m}| >= 1 && |q - {m}| + 1 >= c.Majority())
  {
    assert |q - {m}| == |q| - 1;
  }

  lemma WonData(c: Cluster, s: System, s1: System, s': System, q: set<NodeId>, m: NodeId)
    requires m in q && Untouched(s, s1, {m}) && Untouched(s1, s', q) && m in s1.nodes && m in s'.nodes && m in s.nodes
    requires s.nodes.Keys == s1.nodes.Keys == s'.nodes.Keys && q <= s.nodes.Keys && SameData(s.nodes[m], s1.nodes[m])
    requires s'.nodes[m].role == Leader && SameData(s1.nodes[m], s'.nodes[m])
    requires forall v | v in q - {m} :: v in s1.nodes && v in s'.nodes && SameData(s1.nodes[v], s'.nodes[v])
                                        && s'.nodes[v].term == s'.nodes[m].term
    ensures LeadsAll(s', q, m) && AllSameData(s, s')
  {
    forall n | n in s.nodes ensures SameData(s.nodes[n], s'.nodes[n]) {
      if n in q && n != m { assert n in q - {m} && s1.nodes[n] == s.nodes[n]; }
    }
    forall v | v in q ensures s'.nodes[v].term <= s'.nodes[m].term {
      if v != m { assert v in q - {m}; }
    }
  }

  lemma FavouriteIn(s: System, q: set<NodeId>, m: NodeId)
    requires q <= s.nodes.Keys && (forall n | n in s.nodes :: |s.nodes[n].log| > 0) && Favourite(s.nodes, q, m)
    ensures m in q
  {
  }

  /** From every reachable state, any electing set of nodes that hear each other can get a leader among
      them, without any log being touched. */
  lemma CanElect(c: Cluster, d: Delivery, s: System, q: set<NodeId>) returns (s': System, m: NodeId)
    requires Reaches(c, d, s) && Shaped(c, s.nodes) && ElectionQuorum(c, q)
    ensures Reaches(c, d, s') && Shaped(c, s'.nodes) && LeadsAll(s', q, m) && AllSameData(s, s')
  {
    hide Reaches, Favourite;
    QuorumThere(c, s, q);
    m := FavouriteExists(s.nodes, q);
    FavouriteIn(s, q, m);
    var t := LatestTerm(s.nodes, q);
    var v :| v in q && s.nodes[v].term == t;
    if s.nodes[m].role == Leader && s.nodes[m].term == t {
      s' := s;
    } else {
      hide ElectionQuorum, Shaped;
      var s1 := s;
      if s.nodes[m].role == Leader { s1 := Depose(c, d, s, m, v); }
      var s2 := RaiseTerm(c, d, s1, m, t);
      s' := FavouriteWins(c, d, s, s2, q, m, t);
    }
  }

  lemma QuorumThere(c: Cluster, s: System, q: set<NodeId>)
    requires Shaped(c, s.nodes) && ElectionQuorum(c, q)
    ensures q != {} && q <= s.nodes.Keys && forall n | n in s.nodes :: |s.nodes[n].log| > 0
  {
  }
}
