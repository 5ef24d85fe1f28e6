/** Reachable states, and how the handlers that send or apply in one go are runs of single steps. */
module RaftRuns {
  import opened RaftTypes
  import opened RaftHandlers
  import opened RaftSystem
  import opened RaftElection

  // How requests are delivered

  /** In any order, or those of one term on one link in the order they were sent; `After` asks of a run
      that it also passes through a state. */
  datatype Delivery = AnyOrder | SendOrder | After(delivery: Delivery, via: System)

  /** Requests of one term on one link are handled in the order they were sent (some may be lost,
      and the latest one may be handled again). */
  ghost predicate InSendOrder(steps: seq<Step>) {
    forall j, k | 0 <= j < k < |steps| && steps[j].DeliverAppend? && steps[k].DeliverAppend?
      && steps[j].areq.leader == steps[k].areq.leader && steps[j].areq.follower == steps[k].areq.follower
      && steps[j].areq.term == steps[k].areq.term :: steps[j].areq.seqNo <= steps[k].areq.seqNo
  }

  ghost predicate Obeys(d: Delivery, states: seq<System>, steps: seq<Step>) {
    match d
    case AnyOrder => true
    case SendOrder => InSendOrder(steps)
    case After(d', s) => Obeys(d', states, steps) && s in states
  }

  ghost predicate Reaches(c: Cluster, d: Delivery, s: System) {
    exists states, steps :: IsRun(c, states, steps) && Obeys(d, states, steps) && states[|steps|] == s
  }

  /** Requests arrive in send order. */
  predicate InOrder(d: Delivery) {
    match d
    case AnyOrder => false
    case SendOrder => true
    case After(d', _) => InOrder(d')
  }

  lemma {:induction false} InOrderRun(d: Delivery, states: seq<System>, steps: seq<Step>)
    requires Obeys(d, states, steps) && InOrder(d)
    ensures InSendOrder(steps)
  {
    if d.After? { InOrderRun(d.delivery, states, steps); }
  }

  /** A state is reached by a run through it, and what such a run reaches is reached. */
  lemma ReachesAfter(c: Cluster, d: Delivery, s: System)
    requires Reaches(c, d, s)
    ensures Reaches(c, After(d, s), s)
  {
    var states, steps :| IsRun(c, states, steps) && Obeys(d, states, steps) && states[|steps|] == s;
    assert Obeys(After(d, s), states, steps);
  }

  lemma ReachesAnyway(c: Cluster, d: Delivery, s: System, s': System)
    requires Reaches(c, After(d, s), s')
    ensures Reaches(c, d, s')
  {
    var states, steps :| IsRun(c, states, steps) && Obeys(After(d, s), states, steps) && states[|steps|] == s';
    assert Obeys(d, states, steps);
  }

  /** No two nodes have applied different entries at one index. */
  ghost predicate AppliesConsistently(c: Cluster, d: Delivery) {
    forall s, m, n, i: nat | Reaches(c, d, s) && m in s.nodes && n in s.nodes
                             && i < |s.nodes[m].applied| && i < |s.nodes[n].applied| ::
      s.nodes[m].applied[i] == s.nodes[n].applied[i]
  }

  lemma ReachesInitial(c: Cluster, d: Delivery)
    requires c.members != {} && !d.After?
    ensures Reaches(c, d, Initial(c)) && Shaped(c, Initial(c).nodes)
  {
    assert IsRun(c, [Initial(c)], []) && Obeys(d, [Initial(c)], []);
  }

  lemma {:induction false} SentGrows(c: Cluster, states: seq<System>, steps: seq<Step>, j: nat, k: nat)
    requires IsRun(c, states, steps) && j <= k < |states|
    ensures states[j].sent <= states[k].sent
    ensures j < k && steps[j].SendAppend? ==> states[j].sent < states[k].sent
    decreases k
  {
    if j < k {
      SentGrows(c, states, steps, j, k - 1);
      assert StepAt(c, states, steps, k - 1);
    }
  }

  /** Requests are numbered as they are sent. */
  lemma {:induction false} NumbersBelow(c: Cluster, states: seq<System>, steps: seq<Step>, k: nat, r: AppendRequest)
    requires IsRun(c, states, steps) && k < |states| && r in states[k].appendRequests
    ensures r.seqNo < states[k].sent
  {
    assert StepAt(c, states, steps, k - 1);
    if r in states[k - 1].appendRequests { NumbersBelow(c, states, steps, k - 1, r); }
  }

  /** Where order matters, a request is delivered right after it was sent. */
  ghost predicate Prompt(d: Delivery, s: System, step: Step) {
    InOrder(d) && step.DeliverAppend? ==> step.areq.seqNo + 1 == s.sent
  }

  lemma {:induction false} PromptObeys(c: Cluster, d: Delivery, states: seq<System>, steps: seq<Step>, step: Step,
        s': System)
    requires IsRun(c, states, steps) && Obeys(d, states, steps) && Prompt(d, states[|steps|], step)
    ensures Obeys(d, states + [s'], steps + [step])
  {
    if d.After? {
      PromptObeys(c, d.delivery, states, steps, step, s');
    } else if d == SendOrder && step.DeliverAppend? {
      forall j | 0 <= j < |steps| && steps[j].DeliverAppend? ensures steps[j].areq.seqNo <= step.areq.seqNo {
        assert StepAt(c, states, steps, j);
        NumbersBelow(c, states, steps, j, steps[j].areq);
        SentGrows(c, states, steps, j, |steps|);
      }
    }
  }

  lemma RunGrows(c: Cluster, d: Delivery, s: System, step: Step)
    requires Reaches(c, d, s) && Shaped(c, s.nodes) && Enabled(c, s, step) && Prompt(d, s, step)
    ensures Reaches(c, d, Next(c, s, step))
  {
    var states, steps :| IsRun(c, states, steps) && Obeys(d, states, steps) && states[|steps|] == s;
    var states', steps' := states + [Next(c, s, step)], steps + [step];
    PromptObeys(c, d, states, steps, step, Next(c, s, step));
    hide Shaped, Enabled, Obeys, Prompt;
    forall k | 0 <= k < |steps'| ensures StepAt(c, states', steps', k) {
      if k < |steps| { assert StepAt(c, states, steps, k); }
    }
    hide StepOf;
    assert IsRun(c, states', steps') && Obeys(d, states', steps') && states'[|steps'|] == Next(c, s, step);
  }

  lemma ReachesNext(c: Cluster, d: Delivery, s: System, step: Step)
    requires Reaches(c, d, s) && Shaped(c, s.nodes) && Enabled(c, s, step) && Prompt(d, s, step)
    ensures Reaches(c, d, Next(c, s, step)) && Shaped(c, Next(c, s, step).nodes)
  {
    RunGrows(c, d, s, step);
    hide Reaches, Next;
    NextShaped(c, s, step);
  }

  lemma {:induction false} RunShaped(c: Cluster, states: seq<System>, steps: seq<Step>, k: nat)
    requires IsRun(c, states, steps) && k < |states|
    ensures Shaped(c, states[k].nodes)
  {
    if k > 0 {
      assert StepAt(c, states, steps, k - 1);
      hide Next;
      NextShaped(c, states[k - 1], steps[k - 1]);
    }
  }

  lemma ReachedShaped(c: Cluster, d: Delivery, s: System)
    requires Reaches(c, d, s)
    ensures Shaped(c, s.nodes)
  {
    var states, steps :| IsRun(c, states, steps) && states[|steps|] == s;
    hide IsRun;
    RunShaped(c, states, steps, |steps|);
  }

  lemma NextShaped(c: Cluster, s: System, step: Step)
    requires Shaped(c, s.nodes) && Enabled(c, s, step)
    ensures Shaped(c, Next(c, s, step).nodes)
  {
    assert c.members != {} && forall n | n in s.nodes :: |s.nodes[n].log| > 0;
    hide Shaped, UpToDate, CommitScan, HasWon, Matches;
    match step
    case Timeout(n) => ShapedAfter(c, s.nodes, n, StartElection(n, s.nodes[n]));
    case DeliverVoteRequest(n, r) => ShapedAfter(c, s.nodes, n, AfterVoteRequest(s.nodes[n], r));
    case DeliverVoteReply(r) => ShapedAfter(c, s.nodes, r.candidate, AfterVoteReply(s.nodes[r.candidate], r));
    case WinElection(n) => ShapedAfter(c, s.nodes, n, BecomeLeader(c, n, s.nodes[n]));
    case SendAppend(n, peer) => ShapedAfter(c, s.nodes, n, AfterSend(s.nodes[n], peer));
    case DeliverAppend(r) => ShapedAfter(c, s.nodes, r.follower, AfterAppend(s.nodes[r.follower], r));
    case AnswerLate(r) =>
    case DeliverAppendReply(r) =>
      ShapedAfter(c, s.nodes, r.req.leader, AfterAppendReply(c, r.req.leader, s.nodes[r.req.leader], r));
    case ProposeCommand(n, cmd) => ShapedAfter(c, s.nodes, n, Propose(c, s.nodes[n], cmd));
    case Apply(n) => ShapedAfter(c, s.nodes, n, ApplyNext(s.nodes[n]));
  }

  /** The apply loop is as many single steps as there are entries to apply. */
  lemma {:induction false} ApplyAllReaches(c: Cluster, d: Delivery, s: System, n: NodeId)
    requires Reaches(c, d, s) && Shaped(c, s.nodes) && n in s.nodes
    ensures var s' := s.(nodes := s.nodes[n := ApplyAll(s.nodes[n])]); Reaches(c, d, s') && Shaped(c, s'.nodes)
    decreases s.nodes[n].commitIndex - s.nodes[n].lastApplied
  {
    hide Reaches;
    var x := s.nodes[n];
    if x.lastApplied < x.commitIndex { ApplyAllNext(x); }
    if x.lastApplied < x.commitIndex && ReadsInLog(x) {
      var s1 := AfterApply(s, n);
      ReachesNext(c, d, s, Apply(n));
      ApplyAllReaches(c, d, s1, n);
      assert s1.nodes[n := ApplyAll(s1.nodes[n])] == s.nodes[n := ApplyAll(x)];
    } else {
      assert s.nodes[n := x] == s.nodes;
    }
  }

  lemma SendsStep(self: NodeId, x: NodeState, p: NodeId, peers: set<NodeId>)
    requires p in peers && |x.log| > 0
    ensures AfterSends(AfterSend(x, p), peers - {p}) == AfterSends(x, peers)
    ensures forall q, k: nat | q in peers - {p} :: AppendFor(self, AfterSend(x, p), q, k) == AppendFor(self, x, q, k)
  {
    var y := AfterSend(x, p);
    forall q | q in peers - {p} ensures NextFor(y, q) == NextFor(x, q) {}
    assert AfterSends(y, peers - {p}).nextIndex == AfterSends(x, peers).nextIndex;
  }

  /** `s'` follows `s` with a request to each of the peers under way. */
  ghost predicate RoundSent(s: System, s': System, n: NodeId, peers: set<NodeId>)
    requires n in s.nodes && |s.nodes[n].log| > 0
  {
    && s.appendRequests <= s'.appendRequests && s'.nodes == s.nodes[n := AfterSends(s.nodes[n], peers)]
    && forall p | p in peers :: exists k: nat :: AppendFor(n, s.nodes[n], p, k) in s'.appendRequests
  }

  lemma RoundSentNone(s: System, n: NodeId)
    requires n in s.nodes && |s.nodes[n].log| > 0
    ensures RoundSent(s, s, n, {})
  {
    assert AfterSends(s.nodes[n], {}).nextIndex == s.nodes[n].nextIndex;
    assert s.nodes[n := s.nodes[n]] == s.nodes;
  }

  lemma RoundSentStep(s: System, s': System, n: NodeId, p: NodeId, peers: set<NodeId>)
    requires n in s.nodes && |s.nodes[n].log| > 0 && p in peers
    requires RoundSent(AfterSendAppend(s, n, p), s', n, peers - {p})
    ensures RoundSent(s, s', n, peers)
  {
    var x, s1 := s.nodes[n], AfterSendAppend(s, n, p);
    SendsStep(n, x, p, peers);
    hide AppendFor, AfterSends, AfterSend;
    assert AppendFor(n, x, p, s.sent) in s1.appendRequests;
    forall q | q in peers ensures exists k: nat :: AppendFor(n, x, q, k) in s'.appendRequests {
      if q == p {
        assert AppendFor(n, x, p, s.sent) in s'.appendRequests;
      } else {
        assert q in peers - {p};
        var k: nat :| AppendFor(n, s1.nodes[n], q, k) in s'.appendRequests;
        assert AppendFor(n, x, q, k) in s'.appendRequests;
      }
    }
  }

  /** A round of requests is one sending step for each peer. */
  lemma {:induction false} RoundReaches(c: Cluster, d: Delivery, s: System, n: NodeId, peers: set<NodeId>)
    returns (s': System)
    requires Reaches(c, d, s) && Shaped(c, s.nodes) && n in s.nodes && s.nodes[n].role == Leader
    requires peers <= c.members - {n}
    ensures Reaches(c, d, s') && Shaped(c, s'.nodes) && |s.nodes[n].log| > 0 && RoundSent(s, s', n, peers)
    decreases peers
  {
    hide Reaches, RoundSent;
    if peers == {} {
      RoundSentNone(s, n);
      s' := s;
    } else {
      var p :| p in peers;
      ReachesNext(c, d, s, SendAppend(n, p));
      s' := RoundReaches(c, d, AfterSendAppend(s, n, p), n, peers - {p});
      RoundSentStep(s, s', n, p, peers);
    }
  }
}
