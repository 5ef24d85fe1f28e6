/** What holds of every run, whatever the network does (sections 5.2 and 5.3 of "In Search of an
    Understandable Consensus Algorithm"): Election Safety, Log Matching, and that an accepted request
    leaves the log its sender had. */
module RaftTheorems {
  import opened RaftTypes
  import opened RaftHandlers
  import opened RaftSystem
  import opened Quorums
  import opened RaftElection
  import opened RaftLog
  import opened RaftRetention
  import opened RaftCommit

  // Every run

  lemma {:induction false} RunInv(c: Cluster, states: seq<System>, steps: seq<Step>, k: nat)
    requires SafeSize(c) && IsRun(c, states, steps) && k < |states|
    ensures ElectionInv(c, states[k]) && LogInv(states[k])
  {
    hide ElectionInv, LogInv, SafeSize;
    if k == 0 {
      ElectionInvInitial(c);
      LogInvInitial(c);
    } else {
      RunInv(c, states, steps, k - 1);
      assert StepAt(c, states, steps, k - 1);
      StepElectionInv(c, states[k - 1], steps[k - 1]);
      StepLogInv(c, states[k - 1], steps[k - 1]);
    }
  }

  /** What the history keeps for good. */
  ghost predicate Remembers(s: System, s': System) {
    && (forall t | t in s.elections :: t in s'.elections && s'.elections[t] == s.elections[t])
    && Extends(s.termLog, s'.termLog)
    && s.acks <= s'.acks
  }

  lemma StepRemembers(c: Cluster, s: System, step: Step)
    requires SafeSize(c) && ElectionInv(c, s) && LogInv(s) && Enabled(c, s, step)
    ensures Remembers(s, Next(c, s, step))
  {
    hide VotesOk, VoteRepliesOk, AppendsFromLeaders, LogInv, Extends;
    ExtendsItself(s.termLog);
    match step
    case WinElection(n) => WinFacts(c, s, n);
    case ProposeCommand(n, cmd) => ProposeFacts(c, s, n, cmd);
    case DeliverAppend(r) =>
    case _ => QuietRemembers(c, s, step);
  }

  lemma QuietRemembers(c: Cluster, s: System, step: Step)
    requires Shaped(c, s.nodes) && Enabled(c, s, step)
    requires !step.WinElection? && !step.ProposeCommand? && !step.DeliverAppend?
    ensures var s' := Next(c, s, step); s'.elections == s.elections && s'.termLog == s.termLog && s'.acks == s.acks
  {
    hide Shaped;
  }

  lemma RemembersTransitive(a: System, b: System, c: System)
    requires Remembers(a, b) && Remembers(b, c)
    ensures Remembers(a, c)
  {
  }

  lemma {:induction false} RunRemembers(c: Cluster, states: seq<System>, steps: seq<Step>, j: nat, k: nat)
    requires SafeSize(c) && IsRun(c, states, steps) && j <= k < |states|
    ensures Remembers(states[j], states[k])
    decreases k
  {
    hide ElectionInv, LogInv, SafeSize;
    if j < k {
      RunRemembers(c, states, steps, j, k - 1);
      RunInv(c, states, steps, k - 1);
      assert StepAt(c, states, steps, k - 1);
      StepRemembers(c, states[k - 1], steps[k - 1]);
      hide Remembers;
      RemembersTransitive(states[j], states[k - 1], states[k]);
    } else {
      ExtendsItself(states[j].termLog);
    }
  }

  ghost predicate LeadsIn(s: System, n: NodeId, t: nat) {
    n in s.nodes && s.nodes[n].role == Leader && s.nodes[n].term == t
  }

  /** At most one node is ever leader of a term. */
  lemma ElectionSafety(c: Cluster, states: seq<System>, steps: seq<Step>, j: nat, k: nat, m: NodeId, n: NodeId, t: nat)
    requires SafeSize(c) && IsRun(c, states, steps) && j < |states| && k < |states|
    requires LeadsIn(states[j], m, t) && LeadsIn(states[k], n, t)
    ensures m == n
  {
    hide ElectionInv, LogInv, SafeSize, IsRun;
    RunInv(c, states, steps, j);
    RunInv(c, states, steps, k);
    LeaderElected(c, states[j], m);
    LeaderElected(c, states[k], n);
    if j <= k { RunRemembers(c, states, steps, j, k); } else { RunRemembers(c, states, steps, k, j); }
  }

  lemma LeaderElected(c: Cluster, s: System, n: NodeId)
    requires ElectionInv(c, s) && n in s.nodes && s.nodes[n].role == Leader
    ensures s.nodes[n].term in s.elections && s.elections[s.nodes[n].term].leader == n
  {
    hide VotesOk, VoteRepliesOk, AppendsFromLeaders;
    NodeOkAt(c, s, n);
  }

  /** A node that names a leader names the node that won its term: if that node leads in any
      state of the run at that term, it is the named one. */
  lemma NamedLeaderIsElected(c: Cluster, states: seq<System>, steps: seq<Step>, j: nat, k: nat, m: NodeId, n: NodeId)
    requires SafeSize(c) && IsRun(c, states, steps) && j < |states| && k < |states|
    requires m in states[j].nodes && states[j].nodes[m].leaderId.Some? && LeadsIn(states[k], n, states[j].nodes[m].term)
    ensures states[j].nodes[m].leaderId.value == n
  {
    hide LogInv, SafeSize, IsRun, VotesOk, VoteRepliesOk, AppendsFromLeaders;
    RunInv(c, states, steps, j);
    RunInv(c, states, steps, k);
    NodeOkAt(c, states[j], m);
    LeaderElected(c, states[k], n);
    if j <= k { RunRemembers(c, states, steps, j, k); } else { RunRemembers(c, states, steps, k, j); }
  }

  /** Logs that agree on the term at an index agree up to it. */
  lemma LogMatching(c: Cluster, states: seq<System>, steps: seq<Step>, k: nat, m: NodeId, n: NodeId, i: nat)
    requires SafeSize(c) && IsRun(c, states, steps) && k < |states| && m in states[k].nodes && n in states[k].nodes
    ensures var a, b := states[k].nodes[m].log, states[k].nodes[n].log;
      i < |a| && i < |b| && a[i].term == b[i].term ==> a[..i + 1] == b[..i + 1]
  {
    hide ElectionInv, LogInv, SafeSize, IsRun;
    RunInv(c, states, steps, k);
    var a, b := states[k].nodes[m].log, states[k].nodes[n].log;
    NodeLogOkAt(states[k], m);
    NodeLogOkAt(states[k], n);
    if i < |a| && i < |b| && a[i].term == b[i].term { SamePrefix(states[k].termLog, a, b, i); }
  }

  // Where requests come from

  ghost predicate SentAt(states: seq<System>, steps: seq<Step>, r: AppendRequest, j: nat)
    requires |states| == |steps| + 1
  {
    && j < |steps| && steps[j] == SendAppend(r.leader, r.follower)
    && LeadsIn(states[j], r.leader, r.term) && |states[j].nodes[r.leader].log| > 0
    && r == AppendFor(r.leader, states[j].nodes[r.leader], r.follower, states[j].sent)
  }

  lemma {:induction false} RequestWasSent(c: Cluster, states: seq<System>, steps: seq<Step>, k: nat,
        r: AppendRequest) returns (j: nat)
    requires IsRun(c, states, steps) && k < |states| && r in states[k].appendRequests
    ensures j < k && SentAt(states, steps, r, j)
  {
    var h := k - 1;
    assert StepAt(c, states, steps, h);
    if r in states[h].appendRequests {
      j := RequestWasSent(c, states, steps, h, r);
    } else {
      j := h;
    }
  }

  ghost predicate AcceptedAt(states: seq<System>, steps: seq<Step>, k: nat, r: AppendRequest)
    requires |states| == |steps| + 1
  {
    && k < |steps| && steps[k] == DeliverAppend(r)
    && r.follower in states[k].nodes && Accepts(states[k].nodes[r.follower], r)
  }

  lemma DeliverAppendStep(c: Cluster, s: System, r: AppendRequest, s': System)
    requires StepOf(c, s, DeliverAppend(r), s')
    ensures r in s.appendRequests && r.follower in s.nodes && s' == AfterDeliverAppend(s, r)
  {
  }

  /** A request still shows the log its leader had when sending it. */
  lemma SnapshotOfSender(s: System, s': System, r: AppendRequest)
    requires LogInv(s) && Remembers(s, s') && LeadsIn(s, r.leader, r.term) && |s.nodes[r.leader].log| > 0
    requires r == AppendFor(r.leader, s.nodes[r.leader], r.follower, s.sent)
    ensures r.term in s'.termLog && r.Length() <= |s'.termLog[r.term]|
    ensures s.nodes[r.leader].log == s'.termLog[r.term][..r.Length()]
    ensures r.term in s.termLog && r.Length() == |s.termLog[r.term]|
  {
    hide LogInv, LogOk;
    NodeLogOkAt(s, r.leader);
  }

  /** Whenever a follower accepts, its whole log is the leader's of the moment the request was sent. */
  lemma AcceptEqualsSnapshot(c: Cluster, states: seq<System>, steps: seq<Step>, k: nat, r: AppendRequest)
    returns (j: nat)
    requires SafeSize(c) && IsRun(c, states, steps) && AcceptedAt(states, steps, k, r)
    ensures j < k && SentAt(states, steps, r, j)
    ensures r.follower in states[k + 1].nodes && states[k + 1].nodes[r.follower].log == states[j].nodes[r.leader].log
  {
    hide ElectionInv, LogInv, SafeSize, Remembers, StepOf, LeadsIn, AfterAppend, Accepts;
    assert StepAt(c, states, steps, k);
    DeliverAppendStep(c, states[k], r, states[k + 1]);
    j := RequestWasSent(c, states, steps, k, r);
    RunInv(c, states, steps, j);
    RunInv(c, states, steps, k);
    AcceptFacts(states[k], r);
    RunRemembers(c, states, steps, j, k);
    SnapshotOfSender(states[j], states[k], r);
  }

  /** Whenever a follower accepts, it commits at least what the leader had committed when it sent, as far as that
      was in the leader's log, and commits no more than that of its own accord. */
  lemma AcceptTakesCommit(c: Cluster, states: seq<System>, steps: seq<Step>, k: nat, r: AppendRequest) returns (j: nat)
    requires IsRun(c, states, steps) && AcceptedAt(states, steps, k, r)
    ensures j < k && SentAt(states, steps, r, j) && r.follower in states[k + 1].nodes
    ensures var l, f, f' := states[j].nodes[r.leader], states[k].nodes[r.follower], states[k + 1].nodes[r.follower];
      && (l.commitIndex < |l.log| ==> f'.commitIndex >= l.commitIndex)
      && (l.commitIndex >= |l.log| ==> f'.commitIndex >= |l.log| - 1)
      && (f'.commitIndex == f.commitIndex || f'.commitIndex <= l.commitIndex)
  {
    assert StepAt(c, states, steps, k);
    hide StepOf, IsRun;
    DeliverAppendStep(c, states[k], r, states[k + 1]);
    j := RequestWasSent(c, states, steps, k, r);
  }
}
