/** Leader Completeness and State Machine Safety (section 5.4 of "In Search of an Understandable
    Consensus Algorithm"). They need that a follower never accepts a request shorter than one it
    accepted before in the same term, which delivery in send order gives. */
module RaftSafety {
  import opened RaftTypes
  import opened RaftHandlers
  import opened RaftSystem
  import opened Quorums
  import opened RaftElection
  import opened RaftLog
  import opened RaftRetention
  import opened RaftCommit
  import opened RaftRuns
  import opened RaftTheorems

  // Runs in which followers do not go back

  /** No follower accepts a request shorter than one it accepted before in the same term. */
  ghost predicate NonShrinking(states: seq<System>, steps: seq<Step>)
    requires |states| == |steps| + 1
  {
    forall j, k, q, r | 0 <= j < k && AcceptedAt(states, steps, j, q) && AcceptedAt(states, steps, k, r)
      && q.follower == r.follower && q.term == r.term :: q.Length() <= r.Length()
  }

  /** Each acknowledgement is the term's leader's own or was given for an accepted request. */
  ghost predicate AckFrom(states: seq<System>, steps: seq<Step>, k: nat, a: Ack)
    requires |states| == |steps| + 1 && k < |states|
  {
    || (a.term in states[k].elections && states[k].elections[a.term].leader == a.node)
    || exists j: nat, r :: j < k && AcceptedAt(states, steps, j, r) && a == Ack(r.follower, r.term, r.Length())
  }

  lemma StepAck(c: Cluster, states: seq<System>, steps: seq<Step>, k: nat, a: Ack)
    requires IsRun(c, states, steps) && k < |steps| && a in states[k + 1].acks && a !in states[k].acks
    requires ElectionInv(c, states[k])
    ensures AckFrom(states, steps, k + 1, a)
  {
    var s, step := states[k], steps[k];
    assert StepAt(c, states, steps, k);
    hide VotesOk;
    match step
    case WinElection(n) =>
    case ProposeCommand(n, cmd) => LeaderElected(c, s, n);
    case DeliverAppend(r) => assert AcceptedAt(states, steps, k, r);
    case _ =>
  }

  lemma {:induction false} AckOrigin(c: Cluster, states: seq<System>, steps: seq<Step>, k: nat, a: Ack)
    requires SafeSize(c) && IsRun(c, states, steps) && k < |states| && a in states[k].acks
    ensures AckFrom(states, steps, k, a)
  {
    hide ElectionInv, LogInv, SafeSize;
    if k > 0 {
      RunInv(c, states, steps, k - 1);
      if a in states[k - 1].acks {
        AckOrigin(c, states, steps, k - 1, a);
        RunRemembers(c, states, steps, k - 1, k);
      } else {
        StepAck(c, states, steps, k - 1, a);
      }
    }
  }

  lemma AckedEarlier(c: Cluster, states: seq<System>, steps: seq<Step>, k: nat, r: AppendRequest, h: nat)
    requires SafeSize(c) && IsRun(c, states, steps) && NonShrinking(states, steps) && AcceptedAt(states, steps, k, r)
    requires r.term in states[k].elections && states[k].elections[r.term].leader != r.follower
    requires Ack(r.follower, r.term, h) in states[k].acks
    ensures h <= r.Length()
  {
    hide SafeSize, StepOf;
    AckOrigin(c, states, steps, k, Ack(r.follower, r.term, h));
    var j: nat, q :| j < k && AcceptedAt(states, steps, j, q)
      && Ack(r.follower, r.term, h) == Ack(q.follower, q.term, q.Length());
    hide AcceptedAt;
  }

  lemma FollowerIsNotLeader(c: Cluster, s: System, r: AppendRequest)
    requires ElectionInv(c, s) && r in s.appendRequests
    ensures r.term in s.elections && s.elections[r.term].leader != r.follower
  {
    hide VotesOk, VoteRepliesOk;
  }

  lemma NonShrinkingStep(c: Cluster, states: seq<System>, steps: seq<Step>, k: nat)
    requires SafeSize(c) && IsRun(c, states, steps) && k < |steps| && NonShrinking(states, steps)
    ensures NoShrink(states[k], steps[k])
  {
    hide ElectionInv, LogInv, SafeSize, NonShrinking, Accepts, StepOf;
    if steps[k].DeliverAppend? {
      var r := steps[k].areq;
      assert StepAt(c, states, steps, k);
      DeliverAppendStep(c, states[k], r, states[k + 1]);
      RunInv(c, states, steps, k);
      FollowerIsNotLeader(c, states[k], r);
      forall h: nat | Ack(r.follower, r.term, h) in states[k].acks && Accepts(states[k].nodes[r.follower], r)
        ensures h <= r.Length()
      {
        AckedEarlier(c, states, steps, k, r, h);
      }
    }
  }

  lemma {:induction false} SafeRunInv(c: Cluster, states: seq<System>, steps: seq<Step>, k: nat)
    requires SafeSize(c) && IsRun(c, states, steps) && NonShrinking(states, steps) && k < |states|
    ensures ElectionInv(c, states[k]) && LogInv(states[k]) && RetentionInv(c, states[k]) && CommitInv(c, states[k])
  {
    hide ElectionInv, LogInv, RetentionInv, CommitInv, SafeSize, NonShrinking, NoShrink;
    RunInv(c, states, steps, k);
    if k == 0 {
      RetentionInvInitial(c);
      CommitInvInitial(c);
    } else {
      SafeRunInv(c, states, steps, k - 1);
      assert StepAt(c, states, steps, k - 1);
      NonShrinkingStep(c, states, steps, k - 1);
      StepRetentionInv(c, states[k - 1], steps[k - 1]);
      StepCommitInv(c, states[k - 1], steps[k - 1]);
    }
  }

  /** An entry once committed by any node is in the log of every leader of a later term, whether
      it led before the commit or after, and of every leader of that node's term from then on. */
  lemma LeaderCompleteness(c: Cluster, states: seq<System>, steps: seq<Step>, j: nat, k: nat, m: NodeId, n: NodeId)
    requires SafeSize(c) && IsRun(c, states, steps) && NonShrinking(states, steps) && j < |states| && k < |states|
    requires m in states[j].nodes && n in states[k].nodes && states[k].nodes[n].role == Leader
    requires states[j].nodes[m].term < states[k].nodes[n].term
          || (states[j].nodes[m].term == states[k].nodes[n].term && j <= k)
    ensures var x, y := states[j].nodes[m], states[k].nodes[n];
      x.commitIndex < |x.log| && x.log[..x.commitIndex + 1] <= y.log
  {
    hide ElectionInv, LogInv, RetentionInv, CommitInv, SafeSize, IsRun, NonShrinking, Remembers;
    SafeRunInv(c, states, steps, j);
    SafeRunInv(c, states, steps, k);
    CommitAt(c, states[j], m);
    if j <= k {
      RunRemembers(c, states, steps, j, k);
      LeaderHasEarlier(c, states[j], states[k], m, n);
    } else {
      RunRemembers(c, states, steps, k, j);
      LeaderHadAlready(c, states[k], states[j], m, n);
    }
  }

  /** What is committed later in an earlier term lies below the start of the leader's own entries. */
  lemma LeaderHadAlready(c: Cluster, s: System, s': System, m: NodeId, n: NodeId)
    requires ElectionInv(c, s) && LogInv(s) && LogInv(s') && RetentionInv(c, s') && CommitInv(c, s') && Remembers(s, s')
    requires m in s'.nodes && n in s.nodes && s.nodes[n].role == Leader && s'.nodes[m].term < s.nodes[n].term
    ensures Agree(s'.nodes[m].log, s.nodes[n].log, s'.nodes[m].commitIndex + 1)
  {
    hide ElectionInv, LogInv, RetentionInv, CommitInv, StartOk, LogOk;
    var u := s.nodes[n].term;
    OnlyLeader(c, s, n);
    CommittedBelow(c, s', m, u);
    NodeLogOkAt(s, n);
    StartAt(s, u);
    AgreeBelow(s'.nodes[m].log, s'.termLog[u], s.nodes[n].log, s'.nodes[m].commitIndex, s.elections[u].start, u);
  }

  /** What a node has committed lies below the start of every later leader's own entries. */
  lemma CommittedBelow(c: Cluster, s: System, m: NodeId, u: nat)
    requires LogInv(s) && RetentionInv(c, s) && CommitInv(c, s)
    requires m in s.nodes && u in s.elections && s.nodes[m].term < u
    ensures u in s.termLog && s.nodes[m].commitIndex < s.elections[u].start
    ensures Agree(s.nodes[m].log, s.termLog[u], s.nodes[m].commitIndex + 1)
  {
    hide LogInv, RetentionInv, CommitInv, StartOk, LogOk;
    var x := s.nodes[m];
    CommitAt(c, s, m);
    NodeLogOkAt(s, m);
    StartAt(s, u);
    if x.commitIndex == 0 {
      LogOkAtTerm(s, u);
      SentinelsAgree(x.log, s.termLog[u], s.termLog, u, s.elections[u].start);
    } else {
      var t: nat, i: nat :| Witness(c, s.acks, s.termLog, m, x, t, i);
      LaterLeaderAgrees(c, s, u, t, i);
      OwnBelowStart(s.termLog, t, i, u, s.elections[u].start);
    }
  }

  lemma LogOkAtTerm(s: System, t: nat)
    requires LogInv(s) && t in s.termLog
    ensures LogOk(s.termLog, s.termLog[t])
  {
    hide TermLogsOk, NodeLogsOk, RequestsOk, LogOk;
    LogOkIn(s.termLog, s.elections, t);
  }

  lemma SentinelsAgree(a: seq<Entry>, b: seq<Entry>, tl: TermLogs, u: nat, start: nat)
    requires LogOk(tl, a) && LogOk(tl, b) && StartOk(b, u, start)
    ensures Agree(a, b, 1) && 0 < start
  {
  }

  lemma AgreeBelow(a: seq<Entry>, later: seq<Entry>, log: seq<Entry>, ci: nat, start: nat, u: nat)
    requires Agree(a, later, ci + 1) && Agree(log, later, |log|) && ci < start && StartOk(log, u, start)
    ensures Agree(a, log, ci + 1)
  {
  }

  lemma StartAt(s: System, t: nat)
    requires LogInv(s) && t in s.elections
    ensures t in s.termLog && StartOk(s.termLog[t], t, s.elections[t].start)
  {
    hide TermLogsOk, NodeLogsOk, RequestsOk, StartOk;
    StartOkIn(s.termLog, s.elections, t);
  }

  lemma OwnBelowStart(tl: TermLogs, t: nat, i: nat, u: nat, start: nat)
    requires Own(tl, t, i) && u in tl && t < u && Agree(tl[t], tl[u], i + 1) && StartOk(tl[u], u, start)
    ensures i < start
  {
  }

  lemma LeaderHasEarlier(c: Cluster, s: System, s': System, m: NodeId, n: NodeId)
    requires ElectionInv(c, s') && LogInv(s) && LogInv(s') && RetentionInv(c, s') && CommitInv(c, s) && Remembers(s, s')
    requires m in s.nodes && n in s'.nodes && s'.nodes[n].role == Leader && s.nodes[m].term <= s'.nodes[n].term
    ensures Agree(s.nodes[m].log, s'.nodes[n].log, s.nodes[m].commitIndex + 1)
  {
    hide ElectionInv, LogInv, CommitInv, AcksOk, NodesRetain, TermRetains, CandidatesRetain, VoteRequestsOk;
    var x, y := s.nodes[m], s'.nodes[n];
    CommitAt(c, s, m);
    NodeLogOkAt(s, m);
    NodeLogOkAt(s', n);
    OnlyLeader(c, s', n);
    if x.commitIndex > 0 {
      var t: nat, i: nat :| Witness(c, s.acks, s.termLog, m, x, t, i);
      CommittedLater(c, s.acks, s.termLog, s'.acks, s'.termLog, t, i);
      CommittedChoosable(c, s'.nodes, s'.elections, s'.acks, s'.termLog, t, i);
      hide Committed, Choosable;
      if t < y.term { assert Agree(s'.termLog[t], s'.termLog[y.term], i + 1); }
    }
  }

  // The state machine

  lemma StepApplied(c: Cluster, s: System, step: Step, n: NodeId)
    requires Shaped(c, s.nodes) && Enabled(c, s, step) && n in s.nodes
    ensures var s' := Next(c, s, step); n in s'.nodes && s.nodes[n].applied <= s'.nodes[n].applied
  {
    hide Shaped;
    match step
    case DeliverAppend(r) => DeliveryApplies(s, r, n);
    case DeliverAppendReply(r) =>
    case Apply(m) =>
    case _ =>
  }

  lemma DeliveryApplies(s: System, r: AppendRequest, n: NodeId)
    requires r.follower in s.nodes && n in s.nodes
    ensures s.nodes[n].applied <= AfterDeliverAppend(s, r).nodes[n].applied
  {
  }

  /** What was handed to the state machine stays handed to it. */
  lemma {:induction false} AppliedGrows(c: Cluster, states: seq<System>, steps: seq<Step>, j: nat, k: nat, n: NodeId)
    requires IsRun(c, states, steps) && j <= k < |states| && n in states[j].nodes
    ensures n in states[k].nodes && states[j].nodes[n].applied <= states[k].nodes[n].applied
    decreases k
  {
    hide StepOf;
    if j < k {
      AppliedGrows(c, states, steps, j, k - 1, n);
      assert StepAt(c, states, steps, k - 1);
      OneStepApplied(c, states[k - 1], steps[k - 1], states[k], n);
    }
  }

  lemma OneStepApplied(c: Cluster, s: System, step: Step, s': System, n: NodeId)
    requires StepOf(c, s, step, s') && n in s.nodes
    ensures n in s'.nodes && s.nodes[n].applied <= s'.nodes[n].applied
  {
    hide Next;
    StepApplied(c, s, step, n);
  }

  lemma AppliedAgree(c: Cluster, s: System, m: NodeId, n: NodeId, i: nat)
    requires LogInv(s) && RetentionInv(c, s) && CommitInv(c, s) && m in s.nodes && n in s.nodes
    requires i < |s.nodes[m].applied| && i < |s.nodes[n].applied|
    ensures s.nodes[m].applied[i] == s.nodes[n].applied[i]
  {
    hide LogInv, RetentionInv, CommitInv, Justified, BookOk;
    CommittedLogsAgree(c, s, m, n);
    CommitAt(c, s, m);
    CommitAt(c, s, n);
  }

  /** No two nodes ever apply different entries at one index. */
  lemma StateMachineSafety(c: Cluster, states: seq<System>, steps: seq<Step>, j: nat, k: nat, m: NodeId, n: NodeId,
        i: nat)
    requires SafeSize(c) && IsRun(c, states, steps) && NonShrinking(states, steps) && j <= k < |states|
    requires m in states[j].nodes && n in states[k].nodes
    requires i < |states[j].nodes[m].applied| && i < |states[k].nodes[n].applied|
    ensures states[j].nodes[m].applied[i] == states[k].nodes[n].applied[i]
  {
    hide ElectionInv, LogInv, RetentionInv, CommitInv, SafeSize, IsRun, NonShrinking;
    SafeRunInv(c, states, steps, k);
    AppliedGrows(c, states, steps, j, k, m);
    AppliedAgree(c, states[k], m, n, i);
  }

  /** The apply loop never reads past the log, and hands over exactly the committed log in order. */
  lemma AppliedIsLog(c: Cluster, states: seq<System>, steps: seq<Step>, k: nat, n: NodeId)
    requires SafeSize(c) && IsRun(c, states, steps) && NonShrinking(states, steps) && k < |states|
    requires n in states[k].nodes
    ensures var x := states[k].nodes[n];
      x.lastApplied <= x.commitIndex < |x.log| && x.applied == x.log[1..x.lastApplied + 1]
  {
    hide ElectionInv, LogInv, RetentionInv, CommitInv, SafeSize, IsRun, NonShrinking;
    SafeRunInv(c, states, steps, k);
    CommitAt(c, states[k], n);
  }

  // Delivery in send order

  /** A request sent later in a term is at least as long. */
  lemma LaterIsLonger(c: Cluster, states: seq<System>, steps: seq<Step>, k: nat, q: AppendRequest, r: AppendRequest)
    requires SafeSize(c) && IsRun(c, states, steps) && k < |states| && q in states[k].appendRequests
    requires r in states[k].appendRequests
    requires q.term == r.term && q.seqNo <= r.seqNo
    ensures q.Length() <= r.Length()
  {
    var i := RequestWasSent(c, states, steps, k, q);
    var j := RequestWasSent(c, states, steps, k, r);
    hide ElectionInv, LogInv, SafeSize, IsRun, LeadsIn;
    if j < i { SentGrows(c, states, steps, j, i); }
    RunInv(c, states, steps, i);
    RunInv(c, states, steps, j);
    RunRemembers(c, states, steps, i, j);
    RunRemembers(c, states, steps, j, j);
    hide Remembers;
    SnapshotOfSender(states[i], states[j], q);
    SnapshotOfSender(states[j], states[j], r);
  }

  lemma {:induction false} RequestsStay(c: Cluster, states: seq<System>, steps: seq<Step>, j: nat, k: nat)
    requires IsRun(c, states, steps) && j <= k < |states|
    ensures states[j].appendRequests <= states[k].appendRequests
    decreases k
  {
    if j < k {
      RequestsStay(c, states, steps, j, k - 1);
      assert StepAt(c, states, steps, k - 1);
    }
  }

  lemma DeliveredWasSent(c: Cluster, states: seq<System>, steps: seq<Step>, k: nat, r: AppendRequest)
    requires SafeSize(c) && IsRun(c, states, steps) && AcceptedAt(states, steps, k, r)
    ensures r in states[k].appendRequests && r.term in states[k].elections
    ensures states[k].elections[r.term].leader == r.leader
  {
    assert StepAt(c, states, steps, k);
    hide VotesOk, VoteRepliesOk, LogInv, SafeSize, StepOf;
    DeliverAppendStep(c, states[k], r, states[k + 1]);
    RunInv(c, states, steps, k);
  }

  /** Delivery in send order keeps followers from going back. */
  lemma SendOrderNeverShrinks(c: Cluster, states: seq<System>, steps: seq<Step>)
    requires SafeSize(c) && IsRun(c, states, steps) && InSendOrder(steps)
    ensures NonShrinking(states, steps)
  {
    hide SafeSize, StepOf;
    forall j, k, q, r | 0 <= j < k && AcceptedAt(states, steps, j, q) && AcceptedAt(states, steps, k, r)
      && q.follower == r.follower && q.term == r.term ensures q.Length() <= r.Length()
    {
      DeliveredWasSent(c, states, steps, j, q);
      DeliveredWasSent(c, states, steps, k, r);
      RunRemembers(c, states, steps, j, k);
      RequestsStay(c, states, steps, j, k);
      hide Accepts;
      LaterIsLonger(c, states, steps, k, q, r);
    }
  }

  /** State Machine Safety for every run that delivers in send order. */
  lemma StateMachineSafetyInSendOrder(c: Cluster, states: seq<System>, steps: seq<Step>, j: nat, k: nat, m: NodeId,
        n: NodeId, i: nat)
    requires SafeSize(c) && IsRun(c, states, steps) && InSendOrder(steps) && j <= k < |states|
    requires m in states[j].nodes && n in states[k].nodes
    requires i < |states[j].nodes[m].applied| && i < |states[k].nodes[n].applied|
    ensures states[j].nodes[m].applied[i] == states[k].nodes[n].applied[i]
  {
    SendOrderNeverShrinks(c, states, steps);
    hide SafeSize, IsRun, NonShrinking, InSendOrder;
    StateMachineSafety(c, states, steps, j, k, m, n, i);
  }

  /** Accepting a request keeps everything the follower acknowledged in that term exactly when the
      request is no shorter than any it accepted before in that term. */
  lemma AcknowledgedKeptIff(c: Cluster, states: seq<System>, steps: seq<Step>, k: nat, r: AppendRequest)
    requires SafeSize(c) && IsRun(c, states, steps) && AcceptedAt(states, steps, k, r)
    ensures r.follower in states[k + 1].nodes && r.term in states[k].termLog
    ensures NoShrink(states[k], steps[k]) <==>
      forall h: nat :: Ack(r.follower, r.term, h) in states[k].acks ==>
        Agree(states[k + 1].nodes[r.follower].log, states[k].termLog[r.term], h)
  {
    hide ElectionInv, LogInv, SafeSize, StepOf, AfterAppend, Later;
    assert StepAt(c, states, steps, k);
    DeliverAppendStep(c, states[k], r, states[k + 1]);
    RunInv(c, states, steps, k);
    AcceptFacts(states[k], r);
  }

  /** In such runs a follower that accepts has afterwards committed as much as before and as much as the leader
      had when it sent, whichever is more. */
  lemma AcceptCatchesUp(c: Cluster, states: seq<System>, steps: seq<Step>, k: nat, r: AppendRequest) returns (j: nat)
    requires SafeSize(c) && IsRun(c, states, steps) && NonShrinking(states, steps) && AcceptedAt(states, steps, k, r)
    ensures j < k && SentAt(states, steps, r, j) && r.follower in states[k + 1].nodes
    ensures var l, f, f' := states[j].nodes[r.leader], states[k].nodes[r.follower], states[k + 1].nodes[r.follower];
      f'.commitIndex == if f.commitIndex > l.commitIndex then f.commitIndex else l.commitIndex
  {
    hide SafeSize, NonShrinking, StepOf, Accepts;
    j := AcceptTakesCommit(c, states, steps, k, r);
    AppliedIsLog(c, states, steps, j, r.leader);
    StepCommitGrows(c, states, steps, k, r.follower);
  }

  /** In such runs no commit index ever falls. */
  lemma StepCommitGrows(c: Cluster, states: seq<System>, steps: seq<Step>, k: nat, n: NodeId)
    requires SafeSize(c) && IsRun(c, states, steps) && NonShrinking(states, steps)
    requires k < |steps| && n in states[k].nodes
    ensures n in states[k + 1].nodes && states[k].nodes[n].commitIndex <= states[k + 1].nodes[n].commitIndex
  {
    hide SafeSize, NonShrinking, ElectionInv, LogInv, RetentionInv, CommitInv;
    assert StepAt(c, states, steps, k);
    SafeRunInv(c, states, steps, k);
    NonShrinkingStep(c, states, steps, k);
    hide NoShrink;
    CommitGrows(c, states[k], steps[k], n);
  }

  lemma CommitGrows(c: Cluster, s: System, step: Step, n: NodeId)
    requires LogInv(s) && RetentionInv(c, s) && CommitInv(c, s) && NoShrink(s, step)
    requires Shaped(c, s.nodes) && Enabled(c, s, step) && n in s.nodes
    ensures n in Next(c, s, step).nodes && s.nodes[n].commitIndex <= Next(c, s, step).nodes[n].commitIndex
  {
    hide LogInv, RetentionInv, CommitInv, NoShrink, Shaped;
    match step
    case DeliverAppend(r) => DeliveryCommits(c, s, r, n);
    case DeliverAppendReply(r) =>
    case ProposeCommand(m, cmd) => CommitAt(c, s, m);
    case _ =>
  }

  lemma DeliveryCommits(c: Cluster, s: System, r: AppendRequest, n: NodeId)
    requires LogInv(s) && RetentionInv(c, s) && CommitInv(c, s) && NoShrink(s, DeliverAppend(r)) && n in s.nodes
    requires r in s.appendRequests && r.follower in s.nodes
    ensures s.nodes[n].commitIndex <= AfterDeliverAppend(s, r).nodes[n].commitIndex
  {
    hide LogInv, RetentionInv, CommitInv, NoShrink;
    if Accepts(s.nodes[r.follower], r) { SnapshotKeepsCommitted(c, s, r); }
  }
}
