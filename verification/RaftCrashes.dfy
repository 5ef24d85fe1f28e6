/** The apply loop reads the entry after the last one applied. It reads outside the log, and the node
    goes down, when the log was cut while committed entries waited to be applied
    (internal/raft/node.go:517-527 gives up its lock between two entries). */
module RaftCrashes {
  import opened RaftTypes
  import opened RaftHandlers
  import opened RaftSystem
  import opened Quorums
  import opened RaftRuns
  import opened RaftSafety
  import opened RaftVoting
  import opened RaftScripts
  import opened RaftCounterexamples

  ghost predicate NeverReadsOutside(c: Cluster, d: Delivery) {
    forall s, n | Reaches(c, d, s) && n in s.nodes :: ReadsInLog(s.nodes[n])
  }

  // A follower between two applications

  /** A follower that holds and has committed `entries`, and applied the first of them. */
  ghost predicate Midway(x: NodeState, t: nat, entries: seq<Entry>) {
    && x.role == Follower && x.term == t && x.log == [SENTINEL] + entries
    && x.commitIndex == |entries| && x.lastApplied == 1
  }

  /** The leader tells a follower that all it holds is committed. */
  lemma Announce(c: Cluster, d: Delivery, s: System, a: NodeId, p: NodeId, t: nat, cmds: seq<Command>,
        done: set<NodeId>)
    returns (s': System, r: AppendRequest)
    requires Reaches(c, d, s) && Shaped(c, s.nodes) && a in s.nodes && p in c.members - {a} && p in done && cmds != []
    requires c.members != {} && Counting(c, s.nodes[a], t, Proposed(t, cmds), done)
    requires s.nodes[a].commitIndex == |cmds|
    ensures Reaches(c, d, s') && Shaped(c, s'.nodes) && s'.nodes == s.nodes && s.appendRequests <= s'.appendRequests
    ensures r in s'.appendRequests && Prompt(d, s', DeliverAppend(r))
    ensures r == AppendRequest(a, p, t, |cmds|, t, [], |cmds|, r.seqNo)
  {
    hide Reaches;
    var x := s.nodes[a];
    ReachesNext(c, d, s, SendAppend(a, p));
    s', r := AfterSendAppend(s, a, p), AppendFor(a, x, p, s.sent);
    hide Shaped;
    assert x.nextIndex[p := |cmds| + 1] == x.nextIndex;
    assert s.nodes[a := x] == s.nodes;
    assert x.log[|cmds| + 1..] == [];
  }

  /** The follower applies the first of several entries it learns to be committed. */
  lemma ApplyOne(c: Cluster, d: Delivery, s: System, p: NodeId, t: nat, cmds: seq<Command>, r: AppendRequest)
    returns (s': System)
    requires Reaches(c, d, s) && Shaped(c, s.nodes) && p in s.nodes && cmds != []
    requires Holds(s.nodes[p], t, Proposed(t, cmds)) && r in s.appendRequests && Prompt(d, s, DeliverAppend(r))
    requires r.follower == p && r == AppendRequest(r.leader, p, t, |cmds|, t, [], |cmds|, r.seqNo)
    ensures Reaches(c, d, s') && Shaped(c, s'.nodes) && s'.appendRequests == s.appendRequests && Untouched(s, s', {p})
    ensures p in s'.nodes && Midway(s'.nodes[p], t, Proposed(t, cmds))
  {
    hide Reaches;
    hide AfterAppend, Proposed;
    var s1 := AfterDeliverAppend(s, r);
    ReachesNext(c, d, s, DeliverAppend(r));
    TakesCommit(s.nodes[p], t, cmds, r);
    ReachesNext(c, d, s1, Apply(p));
    s' := AfterApply(s1, p);
  }

  lemma TakesCommit(x: NodeState, t: nat, cmds: seq<Command>, r: AppendRequest)
    requires Holds(x, t, Proposed(t, cmds)) && cmds != []
    requires r.term == t && r.prevIndex == |cmds| && r.prevTerm == t && r.entries == [] && r.leaderCommit == |cmds|
    ensures var y := AfterAppend(x, r);
      && y.role == Follower && y.term == t && y.log == x.log && y.commitIndex == |cmds| && y.lastApplied == 0
  {
    assert Spliced(x.log, r) == x.log;
  }

  /** Any heartbeat of the term that starts at the sentinel then cuts the log below what it reads next. */
  lemma CutShort(c: Cluster, d: Delivery, s: System, p: NodeId, t: nat, entries: seq<Entry>, r: AppendRequest,
        l: NodeId)
    returns (s': System)
    requires Reaches(c, d, s) && Shaped(c, s.nodes) && p in s.nodes && Midway(s.nodes[p], t, entries) && |entries| >= 2
    requires r in s.appendRequests && IsFrom(r, l, p, t, []) && Prompt(d, s, DeliverAppend(r))
    ensures Reaches(c, d, s') && p in s'.nodes
    ensures var x := s'.nodes[p]; x.lastApplied == 1 && x.commitIndex == |entries| && |x.log| == 1
  {
    hide Reaches;
    s' := AfterDeliverAppend(s, r);
    ReachesNext(c, d, s, DeliverAppend(r));
    hide Shaped;
  }

  /** A follower of a leader that has committed `cmds` is midway through applying them. */
  lemma MidwayReached(c: Cluster, d: Delivery, s: System, a: NodeId, p: NodeId, cmds: seq<Command>, done: set<NodeId>)
    returns (s': System)
    requires Reaches(c, d, s) && Shaped(c, s.nodes) && a in s.nodes && p in c.members - {a} && p in done && cmds != []
    requires c.members != {} && Counting(c, s.nodes[a], 1, Proposed(1, cmds), done)
    requires s.nodes[a].commitIndex == |cmds| && Hold(s, done, 1, Proposed(1, cmds))
    ensures Reaches(c, d, s') && Shaped(c, s'.nodes) && s.appendRequests <= s'.appendRequests && Untouched(s, s', {p})
    ensures p in s'.nodes && Midway(s'.nodes[p], 1, Proposed(1, cmds))
  {
    hide Reaches, Shaped, Counting, Holds, Midway, Prompt, Untouched, Proposed;
    var s1, r := Announce(c, d, s, a, p, 1, cmds, done);
    s' := ApplyOne(c, d, s1, p, 1, cmds, r);
    SameNodesUntouched(s, s1, s', {p});
  }

  // The runs

  lemma SameNodes(s: System, s': System)
    requires s'.nodes == s.nodes
    ensures Untouched(s, s', {})
  {
  }

  /** In any order: a heartbeat sent before two proposals reaches a follower that has applied one. */
  lemma LateHeartbeat(c: Cluster, a: NodeId, p: NodeId, first: Command, second: Command) returns (s: System)
    requires a in c.members && p in c.members && a != p
    ensures Reaches(c, AnyOrder, s) && p in s.nodes
    ensures s.nodes[p].lastApplied == 1 && s.nodes[p].commitIndex == 2 && |s.nodes[p].log| == 1
  {
    hide Reaches, Untouched, Hold, Poised, Counting, Shaped, Idle, IsFrom, Midway;
    var others, cmds := c.members - {a}, [first, second];
    assert p in others && |others| == |c.members| - 1;
    Fresh(c, AnyOrder, a, others);
    var s1 := Elect(c, AnyOrder, Initial(c), a, others, 1);
    var s2, stale := SendOne(c, AnyOrder, s1, a, p, 1, []);
    assert Proposed(1, []) == [];
    StillHold(s1, s2, {}, others, 1, []) by { SameNodes(s1, s2); }
    var s3 := CommitOn(c, AnyOrder, s2, a, 1, others, cmds);
    var s4 := MidwayReached(c, AnyOrder, s3, a, p, cmds, others);
    s := CutShort(c, AnyOrder, s4, p, 1, Proposed(1, cmds), stale, a);
  }

  /** In send order: the other leader of the term sends its first heartbeat to that follower. */
  lemma RivalHeartbeat(c: Cluster, d: Delivery, first: Command, second: Command) returns (s: System, p: NodeId)
    requires c.members != {} && !d.After? && !SafeSize(c)
    ensures Reaches(c, d, s) && p in s.nodes
    ensures s.nodes[p].lastApplied == 1 && s.nodes[p].commitIndex == 2 && |s.nodes[p].log| == 1
  {
    hide Reaches, Untouched, Hold, Poised, Counting, Shaped, IsFrom, Midway, Prompt, SafeSize;
    var cmds := [first, second];
    var s0, left, right, a, b := SplitReached(c, d);
    HalfCommits(c, left, a);
    p :| p in left - {a};
    var s1 := CommitOn(c, d, s0, a, 1, left - {a}, cmds);
    UntouchedAt(s0, s1, left, b);
    var s2 := MidwayReached(c, d, s1, a, p, cmds, left - {a});
    UntouchedAt(s1, s2, {p}, b);
    var s3, rival := SendOne(c, d, s2, b, p, 1, []);
    assert Proposed(1, []) == [];
    s := CutShort(c, d, s3, p, 1, Proposed(1, cmds), rival, b);
  }

  // Where it cannot happen

  /** A node alone sends nothing, so its log is never cut, and it commits every entry at once. */
  ghost predicate AloneInv(s: System) {
    && s.appendRequests == {} && s.appendReplies == {}
    && forall n | n in s.nodes :: s.nodes[n].commitIndex == |s.nodes[n].log| - 1
  }

  lemma StepAlone(c: Cluster, s: System, step: Step)
    requires |c.members| == 1 && Shaped(c, s.nodes) && AloneInv(s) && Enabled(c, s, step)
    ensures AloneInv(Next(c, s, step))
  {
    if step.SendAppend? { OnlyOne(c.members, step.n, step.peer); }
  }

  lemma OnlyOne(members: set<NodeId>, m: NodeId, n: NodeId)
    requires |members| == 1 && m in members && n in members
    ensures m == n
  {
    assert |members - {m}| == 0;
  }

  lemma {:induction false} RunAlone(c: Cluster, states: seq<System>, steps: seq<Step>, k: nat)
    requires |c.members| == 1 && IsRun(c, states, steps) && k < |states|
    ensures AloneInv(states[k])
  {
    if k > 0 {
      RunAlone(c, states, steps, k - 1);
      hide AloneInv;
      assert StepAt(c, states, steps, k - 1);
      StepAlone(c, states[k - 1], steps[k - 1]);
    }
  }

  /** In every run of a cluster of one, everything in the log is committed. */
  lemma AloneCommitsAll(c: Cluster, states: seq<System>, steps: seq<Step>, k: nat, n: NodeId)
    requires |c.members| == 1 && IsRun(c, states, steps) && k < |states| && n in states[k].nodes
    ensures states[k].nodes[n].commitIndex == |states[k].nodes[n].log| - 1
  {
    RunAlone(c, states, steps, k);
  }

  // The exact conditions

  /** Under arbitrary delivery the apply loop stays within the log exactly in a cluster of one. */
  lemma ReadsInLogUnderReorderingIff(c: Cluster)
    requires c.members != {}
    ensures NeverReadsOutside(c, AnyOrder) <==> |c.members| == 1
  {
    if |c.members| == 1 {
      forall s, n | Reaches(c, AnyOrder, s) && n in s.nodes ensures ReadsInLog(s.nodes[n]) {
        var states, steps :| IsRun(c, states, steps) && states[|steps|] == s;
        RunAlone(c, states, steps, |steps|);
      }
    } else {
      var two := Pick(c.members, 2);
      var a :| a in two;
      assert |two - {a}| == 1;
      var p :| p in two - {a};
      var s := LateHeartbeat(c, a, p, Noop, Noop);
      assert !ReadsInLog(s.nodes[p]);
    }
  }

  /** Where requests arrive in send order it does exactly when the size of the cluster is safe. */
  lemma ReadsInLogInSendOrderIff(c: Cluster)
    requires c.members != {}
    ensures NeverReadsOutside(c, SendOrder) <==> SafeSize(c)
  {
    if SafeSize(c) {
      forall s, n | Reaches(c, SendOrder, s) && n in s.nodes ensures ReadsInLog(s.nodes[n]) {
        var states, steps :| IsRun(c, states, steps) && Obeys(SendOrder, states, steps) && states[|steps|] == s;
        SendOrderNeverShrinks(c, states, steps);
        hide IsRun, InSendOrder, SafeSize, NonShrinking;
        AppliedIsLog(c, states, steps, |steps|, n);
      }
    } else {
      var s, p := RivalHeartbeat(c, SendOrder, Noop, Noop);
      assert !ReadsInLog(s.nodes[p]);
    }
  }
}
