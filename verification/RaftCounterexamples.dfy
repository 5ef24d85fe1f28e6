/** Even clusters of four or more: two leaders of one term are reachable, even when requests are
    delivered in the order they were sent, and with them go Log Matching and State Machine Safety. */
module RaftCounterexamples {
  import opened Commons
  import opened RaftTypes
  import opened RaftHandlers
  import opened RaftSystem
  import opened Quorums
  import opened RaftElection
  import opened RaftRuns
  import opened RaftTheorems
  import opened RaftSafety
  import opened RaftPairs
  import opened RaftVoting
  import opened RaftScripts

  /** Two halves, each large enough to elect and to commit. */
  ghost predicate Halves(c: Cluster, left: set<NodeId>, right: set<NodeId>) {
    && c.members == left + right && left !! right && |c.members| > 1
    && |left| >= 2 && |right| >= 2 && |left| >= c.Majority() && |right| >= c.Majority()
  }

  lemma Halve(c: Cluster) returns (left: set<NodeId>, right: set<NodeId>)
    requires c.members != {} && !SafeSize(c)
    ensures Halves(c, left, right)
  {
    left := Pick(c.members, c.Majority());
    right := c.members - left;
    assert |right| == |c.members| - |left|;
  }

  /** A leader in one half has followers enough to commit. */
  lemma HalfCommits(c: Cluster, half: set<NodeId>, a: NodeId)
    requires c.members != {} && half <= c.members && a in half && |half| >= 2 && |half| >= c.Majority()
    ensures var peers := half - {a};
      |peers| >= 1 && peers != {} && peers <= c.members - {a} && |peers| + 1 >= c.Majority() && peers + {a} == half
  {
    assert |half - {a}| == |half| - 1;
  }

  /** Each half follows a leader of its own in term 1, and nobody has proposed anything. */
  ghost predicate Split(c: Cluster, s: System, left: set<NodeId>, right: set<NodeId>, a: NodeId, b: NodeId) {
    && Halves(c, left, right) && a in left && b in right && a in s.nodes && b in s.nodes
    && Poised(c, a, s.nodes[a], 1, []) && Poised(c, b, s.nodes[b], 1, [])
    && Hold(s, left - {a}, 1, []) && Hold(s, right - {b}, 1, [])
  }

  lemma SplitReached(c: Cluster, d: Delivery) returns (s: System, left: set<NodeId>, right: set<NodeId>, a: NodeId,
        b: NodeId)
    requires c.members != {} && !d.After? && !SafeSize(c)
    ensures Reaches(c, d, s) && Shaped(c, s.nodes) && Split(c, s, left, right, a, b)
  {
    hide Reaches, Poised, Hold, Shaped, Untouched, Initial, Idle, SafeSize;
    left, right := Halve(c);
    a :| a in left;
    b :| b in right;
    HalfCommits(c, left, a);
    HalfCommits(c, right, b);
    var s0 := Initial(c);
    Fresh(c, d, a, left - {a});
    Fresh(c, d, b, right - {b});
    var s1 := Elect(c, d, s0, a, left - {a}, 1);
    UntouchedAt(s0, s1, left, b);
    StillIdle(s0, s1, left, right - {b}, 1);
    s := Elect(c, d, s1, b, right - {b}, 1);
    UntouchedAt(s1, s, right, a);
    StillHold(s1, s, right, left - {a}, 1, []);
  }

  ghost predicate OneLeaderPerTerm(c: Cluster, d: Delivery) {
    forall s, m, n, t: nat | Reaches(c, d, s) && LeadsIn(s, m, t) && LeadsIn(s, n, t) :: m == n
  }

  /** Every cluster of another size can have two leaders in its first term. */
  lemma TwoLeaders(c: Cluster, d: Delivery) returns (s: System, a: NodeId, b: NodeId)
    requires c.members != {} && !d.After? && !SafeSize(c)
    ensures Reaches(c, d, s) && a != b && LeadsIn(s, a, 1) && LeadsIn(s, b, 1)
  {
    hide Reaches;
    var left, right;
    s, left, right, a, b := SplitReached(c, d);
  }

  /** A fixed cluster never has two leaders in one term exactly when its size is safe. */
  lemma ElectionSafetyIff(c: Cluster, d: Delivery)
    requires c.members != {} && !d.After?
    ensures OneLeaderPerTerm(c, d) <==> SafeSize(c)
  {
    if SafeSize(c) {
      forall s, m, n, t: nat | Reaches(c, d, s) && LeadsIn(s, m, t) && LeadsIn(s, n, t) ensures m == n {
        var states, steps :| IsRun(c, states, steps) && states[|steps|] == s;
        ElectionSafety(c, states, steps, |steps|, |steps|, m, n, t);
      }
    } else {
      var s, a, b := TwoLeaders(c, d);
    }
  }

  // Each half commits an entry of its own

  /** Both leaders commit and apply their own first entry. */
  lemma SplitCommits(c: Cluster, d: Delivery, first: Command, second: Command) returns (s: System, a: NodeId, b: NodeId)
    requires c.members != {} && !d.After? && !SafeSize(c)
    ensures Reaches(c, d, s) && a != b && a in s.nodes && b in s.nodes
    ensures s.nodes[a].applied == [Entry(1, 1, first)] && s.nodes[b].applied == [Entry(1, 1, second)]
  {
    var s0, left, right;
    hide Reaches, Poised, Hold, Shaped, Untouched, SafeSize, Counting;
    s0, left, right, a, b := SplitReached(c, d);
    HalfCommits(c, left, a);
    HalfCommits(c, right, b);
    var s2 := ApplyFirst(c, d, s0, a, left - {a}, first);
    UntouchedAt(s0, s2, left, b);
    StillHold(s0, s2, left, right - {b}, 1, []);
    s := ApplyFirst(c, d, s2, b, right - {b}, second);
    UntouchedAt(s2, s, right, a);
  }

  lemma ApplyFirst(c: Cluster, d: Delivery, s: System, a: NodeId, peers: set<NodeId>, cmd: Command)
    returns (s': System)
    requires Reaches(c, d, s) && Shaped(c, s.nodes) && a in s.nodes && Poised(c, a, s.nodes[a], 1, [])
    requires |c.members| > 1 && peers != {} && peers <= c.members - {a} && |peers| + 1 >= c.Majority()
    requires Hold(s, peers, 1, [])
    ensures Reaches(c, d, s') && Shaped(c, s'.nodes) && Untouched(s, s', peers + {a})
    ensures a in s'.nodes && s'.nodes[a].applied == [Entry(1, 1, cmd)]
  {
    hide Reaches, Poised, Hold, Shaped, Untouched, Counting;
    var s1 := CommitOn(c, d, s, a, 1, peers, [cmd]);
    s' := ApplyCounted(c, d, s1, a, 1, Proposed(1, [cmd]), peers);
    UntouchedBoth(s, s1, s', peers + {a}, {a});
    assert peers + {a} + {a} == peers + {a};
  }

  /** Where requests arrive in send order, State Machine Safety holds of a cluster exactly when its size
      is safe. */
  lemma SafeInSendOrderIff(c: Cluster)
    requires c.members != {}
    ensures AppliesConsistently(c, SendOrder) <==> SafeSize(c)
  {
    if SafeSize(c) {
      forall s, m, n, i: nat | Reaches(c, SendOrder, s) && m in s.nodes && n in s.nodes
                               && i < |s.nodes[m].applied| && i < |s.nodes[n].applied|
        ensures s.nodes[m].applied[i] == s.nodes[n].applied[i]
      {
        var states, steps :| IsRun(c, states, steps) && Obeys(SendOrder, states, steps) && states[|steps|] == s;
        hide IsRun, InSendOrder, SafeSize;
        StateMachineSafetyInSendOrder(c, states, steps, |steps|, |steps|, m, n, i);
      }
    } else {
      var s, a, b := SplitCommits(c, SendOrder, Noop, RemoveMember(0));
      assert s.nodes[a].applied[0] != s.nodes[b].applied[0];
    }
  }

  // The logs of the two halves

  ghost predicate LogsMatch(c: Cluster, d: Delivery) {
    forall s, m, n, i: nat | Reaches(c, d, s) && m in s.nodes && n in s.nodes ::
      var a, b := s.nodes[m].log, s.nodes[n].log;
      i < |a| && i < |b| && a[i].term == b[i].term ==> a[..i + 1] == b[..i + 1]
  }

  /** Two leaders of term 1 with different first entries. */
  lemma SplitLogs(c: Cluster, d: Delivery, first: Command, second: Command) returns (s: System, a: NodeId, b: NodeId)
    requires c.members != {} && !d.After? && !SafeSize(c)
    ensures Reaches(c, d, s) && a in s.nodes && b in s.nodes
    ensures s.nodes[a].log == [SENTINEL, Entry(1, 1, first)] && s.nodes[b].log == [SENTINEL, Entry(1, 1, second)]
  {
    var s0, left, right;
    hide Reaches, Hold, Shaped, SafeSize;
    s0, left, right, a, b := SplitReached(c, d);
    var s1 := ProposeAll(c, d, s0, a, 1, [first]);
    s := ProposeAll(c, d, s1, b, 1, [second]);
    assert [SENTINEL] + Proposed(1, [first]) == [SENTINEL, Entry(1, 1, first)];
    assert [SENTINEL] + Proposed(1, [second]) == [SENTINEL, Entry(1, 1, second)];
  }

  /** Log Matching, too, holds of a cluster exactly when its size is safe. */
  lemma LogMatchingIff(c: Cluster, d: Delivery)
    requires c.members != {} && !d.After?
    ensures LogsMatch(c, d) <==> SafeSize(c)
  {
    if SafeSize(c) {
      forall s, m, n, i: nat | Reaches(c, d, s) && m in s.nodes && n in s.nodes
        ensures var a, b := s.nodes[m].log, s.nodes[n].log;
          i < |a| && i < |b| && a[i].term == b[i].term ==> a[..i + 1] == b[..i + 1]
      {
        var states, steps :| IsRun(c, states, steps) && states[|steps|] == s;
        hide IsRun, SafeSize;
        LogMatching(c, states, steps, |steps|, m, n, i);
      }
    } else {
      var s, a, b := SplitLogs(c, d, Noop, RemoveMember(0));
      assert s.nodes[a].log[..2][1] != s.nodes[b].log[..2][1];
    }
  }

  // Votes

  /** No node gives its vote to two candidates of one term. */
  ghost predicate VotesOnce(c: Cluster, d: Delivery) {
    forall s, g, h | Reaches(c, d, s) && g in s.grants && h in s.grants && g.voter == h.voter && g.term == h.term ::
      g.candidate == h.candidate
  }

  lemma GrantsGrow(c: Cluster, d: Delivery, s: System, s': System)
    requires Reaches(c, After(d, s), s')
    ensures s.grants <= s'.grants
  {
    var states, steps :| IsRun(c, states, steps) && Obeys(After(d, s), states, steps) && states[|steps|] == s';
    var k :| 0 <= k < |states| && states[k] == s;
    RunGrants(c, states, steps, k, |steps|);
  }

  lemma {:induction false} RunGrants(c: Cluster, states: seq<System>, steps: seq<Step>, j: nat, k: nat)
    requires IsRun(c, states, steps) && j <= k < |states|
    ensures states[j].grants <= states[k].grants
    decreases k
  {
    if j < k {
      RunGrants(c, states, steps, j, k - 1);
      assert StepAt(c, states, steps, k - 1);
    }
  }

  /** A candidate that steps down for the leader of its own term forgets its vote, and then votes for that
      leader when the request arrives late. */
  lemma VotesTwice(c: Cluster, d: Delivery, a: NodeId, b: NodeId) returns (s: System)
    requires |c.members| >= 3 && a in c.members && b in c.members && a != b && !d.After?
    ensures Reaches(c, d, s) && Grant(a, a, 1) in s.grants && Grant(a, b, 1) in s.grants
  {
    hide Reaches, Shaped, Untouched, Idle, Blank, Poised, Hold, VotesOnce;
    var voters := c.members - {a, b};
    assert |c.members - {a} - {b}| == |c.members| - 2 && voters == c.members - {a} - {b};
    Fresh(c, d, a, {});
    Fresh(c, d, b, voters);
    var s0 := Initial(c);
    var s1 := AfterTimeout(s0, a);
    ReachesNext(c, d, s0, Timeout(a));
    ReachesAfter(c, d, s1);
    var d' := After(d, s1);
    StillIdle(s0, s1, {a}, voters, 1) by { assert Untouched(s0, s1, {a}) by { OneTouched(s0, s1, a); } }
    var s4, r := Rival(c, d', s1, a, b, voters);
    ReachesNext(c, d', s4, DeliverVoteRequest(a, r));
    s := AfterDeliverVoteRequest(s4, a, r);
    GrantsGrow(c, d, s1, s);
    ReachesAnyway(c, d, s1, s);
  }

  lemma OneTouched(s: System, s': System, a: NodeId)
    requires a in s'.nodes && s'.nodes == s.nodes[a := s'.nodes[a]]
    ensures Untouched(s, s', {a})
  {
  }

  /** `b` wins the term in which `a` is a candidate, and makes `a` its follower. */
  lemma Rival(c: Cluster, d: Delivery, s: System, a: NodeId, b: NodeId, voters: set<NodeId>)
    returns (s': System, r: VoteRequest)
    requires Reaches(c, d, s) && Shaped(c, s.nodes) && a in s.nodes && b in s.nodes && a != b
    requires a !in voters && b !in voters
    requires Idle(s, voters, 1) && s.nodes[b] == NewNode() && |voters| >= 1 && |voters| + 1 >= c.Majority()
    requires s.nodes[a] == StartElection(a, NewNode())
    ensures Reaches(c, d, s') && Shaped(c, s'.nodes) && r == VoteRequest(b, 1, 0, 0) && r in s'.voteRequests
    ensures a in s'.nodes && s'.nodes[a] == BecomeFollower(StartElection(a, NewNode()), 1, Some(b))
  {
    hide Reaches, Shaped, Idle, Prompt, AfterAppend, AfterSend, AppendFor, Ready, Voted;
    MembersThere(c, s);
    IdleReady(s, voters, 1, b);
    var s1 := ElectFrom(c, d, s, b, voters);
    r := VoteRequestOf(b, StartElection(b, s.nodes[b]));
    UntouchedAt(s, s1, voters + {b}, a);
    var s2, q := SendStep(c, d, s1, b, a);
    YieldsTo(b, s1.nodes[b], a, s1.sent);
    s' := DeliverStep(c, d, s2, q);
  }

  lemma YieldsTo(b: NodeId, x: NodeState, a: NodeId, seqNo: nat)
    requires x.role == Leader && x.term == 1 && x.log == [SENTINEL] && x.commitIndex == 0
    ensures var q := AppendFor(b, x, a, seqNo);
      q.follower == a
      && AfterAppend(StartElection(a, NewNode()), q) == BecomeFollower(StartElection(a, NewNode()), 1, Some(b))
  {
    var q := AppendFor(b, x, a, seqNo);
    assert q.entries == [] && q.prevIndex == 0 && q.prevTerm == 0;
    assert Spliced([SENTINEL], q) == [SENTINEL];
  }

  /** With at most two members every winner has every vote, so nobody votes twice. */
  lemma FewVoteOnce(c: Cluster, s: System, g: Grant, h: Grant)
    requires ElectionInv(c, s) && |c.members| <= 2 && g in s.grants && h in s.grants
    requires g.voter == h.voter && g.term == h.term
    ensures g.candidate == h.candidate
  {
    hide VoteRepliesOk, AppendsFromLeaders;
    if g.term in s.elections {
      assert WinOk(c, s.nodes, g.term, s.elections[g.term]);
      FullQuorum(c, s.elections[g.term].voters);
      assert GrantOk(s.nodes, s.elections, g) && GrantOk(s.nodes, s.elections, h);
    }
  }

  /** Nobody ever votes for two candidates of one term exactly in clusters of at most two members. */
  lemma VotesOnceIff(c: Cluster, d: Delivery)
    requires c.members != {} && !d.After?
    ensures VotesOnce(c, d) <==> |c.members| <= 2
  {
    if |c.members| <= 2 {
      forall s, g, h | Reaches(c, d, s) && g in s.grants && h in s.grants && g.voter == h.voter && g.term == h.term
        ensures g.candidate == h.candidate
      {
        var states, steps :| IsRun(c, states, steps) && states[|steps|] == s;
        SmallIsSafe(c);
        RunInv(c, states, steps, |steps|);
        FewVoteOnce(c, s, g, h);
      }
    } else {
      var two := Pick(c.members, 2);
      var a :| a in two;
      assert |two - {a}| == 1;
      var b :| b in two - {a};
      var s := VotesTwice(c, d, a, b);
    }
  }
}
