/** From every reachable state a new command can still be committed and applied, as long as an electing set of
    nodes hear each other: nothing that happened before gets the cluster stuck. */
module RaftProgress {
  import opened Commons
  import opened RaftTypes
  import opened RaftHandlers
  import opened RaftSystem
  import opened Quorums
  import opened RaftElection
  import opened RaftLog
  import opened RaftRetention
  import opened RaftBounds
  import opened RaftCommit
  import opened RaftRuns
  import opened RaftTheorems
  import opened RaftSafety
  import opened RaftVoting

  // What holds of reachable states

  /** A leader keeps a next index for every peer. */
  ghost predicate PeersKnown(c: Cluster, nodes: Nodes) {
    forall n | n in nodes && nodes[n].role == Leader :: c.members - {n} <= nodes[n].nextIndex.Keys
  }

  ghost predicate KnowsPeers(c: Cluster, n: NodeId, x: NodeState) {
    x.role == Leader ==> c.members - {n} <= x.nextIndex.Keys
  }

  lemma PeersAfter(c: Cluster, nodes: Nodes, n: NodeId, y: NodeState)
    requires PeersKnown(c, nodes) && n in nodes && (KnowsPeers(c, n, nodes[n]) ==> KnowsPeers(c, n, y))
    ensures PeersKnown(c, nodes[n := y])
  {
  }

  lemma StepPeersKnown(c: Cluster, s: System, step: Step)
    requires Shaped(c, s.nodes) && Enabled(c, s, step) && PeersKnown(c, s.nodes)
    ensures PeersKnown(c, Next(c, s, step).nodes)
  {
    hide PeersKnown, CommitScan, UpToDate, HasWon, Spliced, Matches;
    match step
    case Timeout(n) => PeersAfter(c, s.nodes, n, StartElection(n, s.nodes[n]));
    case DeliverVoteRequest(n, r) => PeersAfter(c, s.nodes, n, AfterVoteRequest(s.nodes[n], r));
    case DeliverVoteReply(r) => PeersAfter(c, s.nodes, r.candidate, AfterVoteReply(s.nodes[r.candidate], r));
    case WinElection(n) => PeersAfter(c, s.nodes, n, BecomeLeader(c, n, s.nodes[n]));
    case SendAppend(n, peer) => PeersAfter(c, s.nodes, n, AfterSend(s.nodes[n], peer));
    case DeliverAppend(r) => PeersAfter(c, s.nodes, r.follower, AfterAppend(s.nodes[r.follower], r));
    case AnswerLate(r) =>
    case DeliverAppendReply(r) => ReplyPeersKnown(c, s, r);
    case ProposeCommand(n, cmd) => PeersAfter(c, s.nodes, n, Propose(c, s.nodes[n], cmd));
    case Apply(n) => PeersAfter(c, s.nodes, n, ApplyNext(s.nodes[n]));
  }

  lemma ReplyPeersKnown(c: Cluster, s: System, r: AppendReply)
    requires c.members != {} && r.req.leader in s.nodes && |s.nodes[r.req.leader].log| > 0 && PeersKnown(c, s.nodes)
    ensures PeersKnown(c, AfterDeliverAppendReply(c, s, r).nodes)
  {
    hide PeersKnown, CommitScan;
    var n := r.req.leader;
    PeersAfter(c, s.nodes, n, AfterAppendReply(c, n, s.nodes[n], r));
  }

  lemma {:induction false} RunPeersKnown(c: Cluster, states: seq<System>, steps: seq<Step>, k: nat)
    requires IsRun(c, states, steps) && k < |states|
    ensures PeersKnown(c, states[k].nodes)
  {
    if k > 0 {
      RunPeersKnown(c, states, steps, k - 1);
      assert StepAt(c, states, steps, k - 1);
      hide PeersKnown;
      StepPeersKnown(c, states[k - 1], steps[k - 1]);
    }
  }

  lemma Reached(c: Cluster, d: Delivery, s: System)
    requires SafeSize(c) && Reaches(c, d, s)
    ensures LogInv(s) && BoundsInv(s) && PeersKnown(c, s.nodes) && (InOrder(d) ==> CommitInv(c, s))
  {
    var states, steps :| IsRun(c, states, steps) && Obeys(d, states, steps) && states[|steps|] == s;
    hide LogInv, BoundsInv, PeersKnown, CommitInv, ElectionInv, IsRun, SafeSize, Obeys;
    RunInv(c, states, steps, |steps|);
    RunBounds(c, states, steps, |steps|);
    RunPeersKnown(c, states, steps, |steps|);
    if InOrder(d) {
      InOrderRun(d, states, steps);
      SendOrderNeverShrinks(c, states, steps);
      SafeRunInv(c, states, steps, |steps|);
    }
  }

  // A leader brings a follower up to date

  /** A follower of term `t` with the log given. */
  ghost predicate HasAll(y: NodeState, t: nat, log: seq<Entry>) {
    y.role == Follower && y.term == t && y.log == log
  }

  lemma AcceptedLog(c: Cluster, s: System, m: NodeId, v: NodeId, r: AppendRequest)
    requires LogInv(s) && m in s.nodes && v in s.nodes && s.nodes[m].role == Leader && |s.nodes[m].log| > 0
    requires r in s.appendRequests && r.follower == v && r.term == s.nodes[m].term && r.Length() == |s.nodes[m].log|
    requires Accepts(s.nodes[v], r)
    ensures HasAll(AfterAppend(s.nodes[v], r), r.term, s.nodes[m].log)
  {
    hide LogInv, AfterAppend, LogOk, Accepts, Later;
    AcceptFacts(s, r);
    NodeLogOkAt(s, m);
  }

  /** One request, its delivery and its answer. */
  lemma Exchange(c: Cluster, d: Delivery, s: System, m: NodeId, v: NodeId) returns (s': System, r: AppendRequest)
    requires SafeSize(c) && Reaches(c, d, s) && Shaped(c, s.nodes) && m in s.nodes && v in s.nodes && m != v
    requires c.members != {} && s.nodes[m].role == Leader && |s.nodes[m].log| > 0
    ensures Reaches(c, d, s') && Shaped(c, s'.nodes) && r == AppendFor(m, s.nodes[m], v, r.seqNo)
    ensures Accepts(s.nodes[v], r) ==> HasAll(AfterAppend(s.nodes[v], r), s.nodes[m].term, s.nodes[m].log)
    ensures var y := AfterAppend(s.nodes[v], r);
      s'.nodes == s.nodes[v := y][m := AfterAppendReply(c, m, AfterSend(s.nodes[m], v),
                                        AppendReply(r, y.term, Accepts(s.nodes[v], r)))]
  {
    hide Reaches, Shaped, AfterAppend, AfterAppendReply, Accepts, Prompt, SafeSize, LogInv, BoundsInv, CommitInv;
    hide PeersKnown, HasAll;
    var s1;
    s1, r := SendStep(c, d, s, m, v);
    if Accepts(s.nodes[v], r) {
      Reached(c, d, s1);
      AcceptedLog(c, s1, m, v, r);
    }
    hide AfterSend, AppendFor;
    SentState(m, s.nodes[m], v, s.sent);
    var s2 := DeliverStep(c, d, s1, r);
    var reply := AppendReply(r, AfterAppend(s.nodes[v], r).term, Accepts(s.nodes[v], r));
    s' := ReplyStep(c, d, s2, reply);
    assert s'.nodes == s.nodes[v := AfterAppend(s.nodes[v], r)][m := s'.nodes[m]];
  }

  /** `y` changes of `x` only its record of `v`, and maybe its commit index. */
  ghost predicate OnlyRecord(x: NodeState, y: NodeState, v: NodeId) {
    && y.role == x.role && y.term == x.term && y.log == x.log
    && (forall w | w != v :: w in y.nextIndex <==> w in x.nextIndex)
    && (forall w | w != v && w in x.nextIndex :: y.nextIndex[w] == x.nextIndex[w])
    && (forall w | w != v && w in x.matchIndex :: w in y.matchIndex && y.matchIndex[w] == x.matchIndex[w])
  }

  lemma RejectedExchange(c: Cluster, m: NodeId, x: NodeState, y: NodeState, v: NodeId, r: AppendRequest)
    requires c.members != {} && x.role == Leader && y.term <= x.term && |x.log| > 0 && |y.log| > 0
    requires r == AppendFor(m, x, v, r.seqNo) && x.log[0] == y.log[0] && !Accepts(y, r)
    ensures var y' := AfterAppend(y, r);
      var x' := AfterAppendReply(c, m, AfterSend(x, v), AppendReply(r, y'.term, false));
      && y'.term == x.term && OnlyRecord(x, x', v) && x'.commitIndex == x.commitIndex
      && v in x'.nextIndex && x'.nextIndex[v] == NextFor(x, v) - 1 >= 1
  {
  }

  /** `v` is recorded as having everything. */
  ghost predicate Matched(x: NodeState, v: NodeId) {
    v in x.matchIndex && x.matchIndex[v] == |x.log| - 1 && v in x.nextIndex && x.nextIndex[v] == |x.log|
  }

  lemma AcceptedExchange(c: Cluster, m: NodeId, x: NodeState, t: nat, v: NodeId, r: AppendRequest)
    requires c.members != {} && x.role == Leader && x.term == t && |x.log| > 0
    requires r == AppendFor(m, x, v, r.seqNo) && r.entries != [] && x.log[|x.log| - 1].index == |x.log| - 1
    ensures var x' := AfterAppendReply(c, m, AfterSend(x, v), AppendReply(r, t, true));
      && OnlyRecord(x, x', v) && Matched(x', v)
      && x'.commitIndex == CommitScan(c, m, x'.(commitIndex := x.commitIndex), |x.log| - 1)
  {
    hide CommitScan;
    assert r.entries[|r.entries| - 1] == x.log[|x.log| - 1];
    var x', z := AfterAppendReply(c, m, AfterSend(x, v), AppendReply(r, t, true)), Record(AfterSend(x, v), r);
    assert z == x'.(commitIndex := x.commitIndex);
  }

  /** `m` leads in term `t` with `log`, which everyone in `done` has and is recorded to have. */
  ghost predicate Carried(c: Cluster, s: System, m: NodeId, t: nat, log: seq<Entry>, done: set<NodeId>)
    requires c.members != {}
  {
    && m in s.nodes && s.nodes[m].role == Leader && s.nodes[m].term == t && s.nodes[m].log == log && |log| > 1
    && (forall v | v in done :: v != m && v in s.nodes && HasAll(s.nodes[v], t, log) && Matched(s.nodes[m], v))
    && (done != {} && |done| + 1 >= c.Majority() ==> s.nodes[m].commitIndex >= |log| - 1)
  }

  /** Those not yet served are not ahead in term, and will be sent at least the last entry. */
  ghost predicate Waiting(s: System, m: NodeId, t: nat, todo: set<NodeId>) {
    m in s.nodes && forall v | v in todo ::
      v != m && v in s.nodes && s.nodes[v].term <= t && v in s.nodes[m].nextIndex
      && 1 <= s.nodes[m].nextIndex[v] < |s.nodes[m].log|
  }

  lemma CommitsLast(c: Cluster, a: NodeId, x: NodeState, done: set<NodeId>)
    requires a in c.members && done <= c.members - {a} && |done| + 1 >= c.Majority() && |x.log| > 1
    requires x.log[|x.log| - 1].term == x.term && forall v | v in done :: Matched(x, v)
    ensures CommitScan(c, a, x, |x.log| - 1) >= |x.log| - 1
  {
    SubsetCard(done + {a}, Holders(c, a, x, |x.log| - 1));
    assert |done + {a}| == |done| + 1;
    hide Holders;
  }

  /** One more follower has everything. */
  lemma CarriedMore(c: Cluster, s: System, s': System, m: NodeId, t: nat, log: seq<Entry>, done: set<NodeId>, v: NodeId)
    requires c.members != {} && Carried(c, s, m, t, log, done) && m in c.members && v !in done && v != m
    requires done + {v} <= c.members - {m} && log[|log| - 1].term == t && m in s'.nodes && v in s'.nodes
    requires Untouched(s, s', {m, v}) && HasAll(s'.nodes[v], t, log)
    requires OnlyRecord(s.nodes[m], s'.nodes[m], v) && Matched(s'.nodes[m], v)
    requires var x, x' := s.nodes[m], s'.nodes[m];
      x'.commitIndex == CommitScan(c, m, x'.(commitIndex := x.commitIndex), |log| - 1)
    ensures Carried(c, s', m, t, log, done + {v})
  {
    hide CommitScan;
    var x, x' := s.nodes[m], s'.nodes[m];
    forall w | w in done + {v} ensures w != m && w in s'.nodes && HasAll(s'.nodes[w], t, log) && Matched(x', w) {
      if w != v { assert w in done && s'.nodes[w] == s.nodes[w]; }
    }
    if |done + {v}| + 1 >= c.Majority() {
      var z := x'.(commitIndex := x.commitIndex);
      assert forall w | w in done + {v} :: Matched(z, w);
      CommitsLast(c, m, z, done + {v});
    }
  }

  /** Others wait as before. */
  lemma StillWaiting(s: System, s': System, m: NodeId, t: nat, todo: set<NodeId>, v: NodeId)
    requires Waiting(s, m, t, todo) && v !in todo && v != m && m !in todo && m in s'.nodes
    requires Untouched(s, s', {m, v}) && OnlyRecord(s.nodes[m], s'.nodes[m], v)
    ensures Waiting(s', m, t, todo)
  {
    forall w | w in todo ensures w in s'.nodes && s'.nodes[w] == s.nodes[w] { assert w !in {m, v}; }
  }

  lemma CarriedStill(c: Cluster, s: System, s': System, m: NodeId, t: nat, log: seq<Entry>, done: set<NodeId>,
        v: NodeId)
    requires c.members != {} && Carried(c, s, m, t, log, done) && v !in done && v != m && m in s'.nodes
    requires Untouched(s, s', {m, v}) && OnlyRecord(s.nodes[m], s'.nodes[m], v)
    requires s'.nodes[m].commitIndex == s.nodes[m].commitIndex
    ensures Carried(c, s', m, t, log, done)
  {
    forall w | w in done ensures w in s'.nodes && s'.nodes[w] == s.nodes[w] && Matched(s'.nodes[m], w) {
      assert w !in {m, v} && Matched(s.nodes[m], w);
    }
  }

  lemma FitLogs(s: System, m: NodeId, v: NodeId)
    requires BoundsInv(s) && m in s.nodes && v in s.nodes
    ensures var a, b := s.nodes[m].log, s.nodes[v].log;
      |a| > 0 && |b| > 0 && a[0] == b[0] && a[|a| - 1].index == |a| - 1
  {
    hide BoundsInv;
    NodeAt(s, m);
    NodeAt(s, v);
  }

  /** The search for the meeting point ends, and leaves the follower with everything. */
  lemma {:induction false} CatchUp(c: Cluster, d: Delivery, s: System, m: NodeId, t: nat, log: seq<Entry>,
        done: set<NodeId>, v: NodeId)
    returns (s': System)
    requires SafeSize(c) && Reaches(c, d, s) && Shaped(c, s.nodes) && c.members != {} && m in c.members
    requires Carried(c, s, m, t, log, done) && log[|log| - 1].term == t && v !in done && done + {v} <= c.members - {m}
    requires Waiting(s, m, t, {v})
    ensures Reaches(c, d, s') && Shaped(c, s'.nodes) && Carried(c, s', m, t, log, done + {v})
    ensures Untouched(s, s', {m, v}) && m in s'.nodes && OnlyRecord(s.nodes[m], s'.nodes[m], v)
    decreases if m in s.nodes && v in s.nodes[m].nextIndex then s.nodes[m].nextIndex[v] else 0
  {
    hide Reaches, Shaped, AfterAppend, AfterAppendReply, AfterSend, AppendFor, Accepts, SafeSize, LogInv, BoundsInv;
    hide PeersKnown, CommitInv, HasAll, OnlyRecord, Matched, CommitScan;
    assert v in {v};
    var x, y := s.nodes[m], s.nodes[v];
    Reached(c, d, s);
    FitLogs(s, m, v);
    var s1, r := Exchange(c, d, s, m, v);
    if Accepts(y, r) {
      SentLast(m, x, v, r);
      AcceptedExchange(c, m, x, t, v, r);
      AllTerm(AfterAppend(y, r), t, log);
      s' := s1;
      CarriedMore(c, s, s1, m, t, log, done, v);
    } else {
      RejectedExchange(c, m, x, y, v, r);
      CarriedStill(c, s, s1, m, t, log, done, v);
      BackedOff(x, v);
      s' := CatchUp(c, d, s1, m, t, log, done, v);
      RecordTwice(x, s1.nodes[m], s'.nodes[m], v);
    }
  }

  lemma AllTerm(y: NodeState, t: nat, log: seq<Entry>)
    requires HasAll(y, t, log)
    ensures y.term == t
  {
  }

  lemma BackedOff(x: NodeState, v: NodeId)
    requires v in x.nextIndex && 1 <= x.nextIndex[v] < |x.log|
    ensures NextFor(x, v) == x.nextIndex[v]
  {
  }

  lemma SentLast(m: NodeId, x: NodeState, v: NodeId, r: AppendRequest)
    requires |x.log| > 0 && v in x.nextIndex && 1 <= x.nextIndex[v] < |x.log| && r == AppendFor(m, x, v, r.seqNo)
    ensures r.entries != []
  {
  }

  lemma RecordTwice(x: NodeState, y: NodeState, z: NodeState, v: NodeId)
    requires OnlyRecord(x, y, v) && OnlyRecord(y, z, v)
    ensures OnlyRecord(x, z, v)
  {
  }

  /** One after the other, all are brought up to date. */
  lemma {:induction false} ServeAll(c: Cluster, d: Delivery, s: System, m: NodeId, t: nat, log: seq<Entry>,
        done: set<NodeId>, todo: set<NodeId>)
    returns (s': System)
    requires SafeSize(c) && Reaches(c, d, s) && Shaped(c, s.nodes) && c.members != {} && m in c.members
    requires Carried(c, s, m, t, log, done) && log[|log| - 1].term == t && done !! todo
    requires done + todo <= c.members - {m} && Waiting(s, m, t, todo)
    ensures Reaches(c, d, s') && Shaped(c, s'.nodes) && Carried(c, s', m, t, log, done + todo)
    ensures todo == {} ==> s' == s
    decreases todo
  {
    hide Reaches, Shaped, SafeSize, Carried, OnlyRecord, Untouched;
    if todo == {} {
      s' := s;
      assert done + todo == done;
    } else {
      var v :| v in todo;
      assert Waiting(s, m, t, {v}) && Waiting(s, m, t, todo - {v});
      var s1 := CatchUp(c, d, s, m, t, log, done, v);
      StillWaiting(s, s1, m, t, todo - {v}, v);
      hide Waiting;
      s' := ServeAll(c, d, s1, m, t, log, done + {v}, todo - {v});
      assert done + {v} + (todo - {v}) == done + todo;
    }
  }

  // A new command

  lemma ProposeStep(c: Cluster, d: Delivery, s: System, m: NodeId, cmd: Command) returns (s': System)
    requires Reaches(c, d, s) && Shaped(c, s.nodes) && m in s.nodes && s.nodes[m].role == Leader
    ensures Reaches(c, d, s') && Shaped(c, s'.nodes) && s'.nodes == s.nodes[m := Propose(c, s.nodes[m], cmd)]
  {
    hide Reaches;
    ReachesNext(c, d, s, ProposeCommand(m, cmd));
    s' := AfterPropose(c, s, m, cmd);
  }

  /** After a proposal every peer still has the new entry before it. */
  lemma ProposedWaits(c: Cluster, s: System, s': System, q: set<NodeId>, m: NodeId, cmd: Command)
    requires LeadsAll(s, q, m) && q <= c.members && BoundsInv(s) && PeersKnown(c, s.nodes) && m in c.members
    requires c.members != {} && s'.nodes == s.nodes[m := Propose(c, s.nodes[m], cmd)]
    ensures Waiting(s', m, s.nodes[m].term, q - {m})
    ensures Carried(c, s', m, s.nodes[m].term, s.nodes[m].log + [Entry(s.nodes[m].term, |s.nodes[m].log|, cmd)], {})
  {
    hide BoundsInv;
    NodeAt(s, m);
    forall v | v in q - {m} ensures v in s.nodes[m].nextIndex && 1 <= s.nodes[m].nextIndex[v] <= |s.nodes[m].log| {
      assert v in c.members - {m};
    }
  }

  /** `q` hold the same log, ending with `cmd`, and know it to be committed. */
  ghost predicate CommittedBy(s: System, q: set<NodeId>, m: NodeId, log: seq<Entry>) {
    && m in q && |log| > 1
    && forall v | v in q :: v in s.nodes && s.nodes[v].log == log && s.nodes[v].commitIndex >= |log| - 1
  }

  lemma ToldState(m: NodeId, x: NodeState, v: NodeId, y: NodeState, t: nat, log: seq<Entry>, seqNo: nat)
    requires x.log == log && |log| > 1 && x.term == t && Matched(x, v) && HasAll(y, t, log)
    requires x.commitIndex >= |log| - 1
    ensures AfterSend(x, v) == x
    ensures var y' := AfterAppend(y, AppendFor(m, x, v, seqNo)); HasAll(y', t, log) && y'.commitIndex >= |log| - 1
  {
    assert x.nextIndex[v := |log|] == x.nextIndex;
    var r := AppendFor(m, x, v, seqNo);
    assert Spliced(log, r) == log;
  }

  /** The leader tells its followers that everything is committed. */
  lemma {:induction false} TellAll(c: Cluster, d: Delivery, s: System, m: NodeId, t: nat, log: seq<Entry>,
        done: set<NodeId>, todo: set<NodeId>)
    returns (s': System)
    requires Reaches(c, d, s) && Shaped(c, s.nodes) && c.members != {} && todo <= done
    requires Carried(c, s, m, t, log, done) && s.nodes[m].commitIndex >= |log| - 1
    ensures Reaches(c, d, s') && Shaped(c, s'.nodes) && Carried(c, s', m, t, log, done)
    ensures s'.nodes[m] == s.nodes[m] && Untouched(s, s', todo)
    ensures forall v | v in todo :: v in s'.nodes && s'.nodes[v].commitIndex >= |log| - 1
    decreases todo
  {
    hide Reaches, Shaped, AfterAppend, AfterSend, AppendFor, Accepts, Prompt, HasAll, Matched;
    if todo == {} {
      s' := s;
    } else {
      var v :| v in todo;
      var s1 := TellAll(c, d, s, m, t, log, done, todo - {v});
      var x, y := s1.nodes[m], s1.nodes[v];
      var s2, r := SendStep(c, d, s1, m, v);
      SentState(m, x, v, s1.sent);
      ToldState(m, x, v, y, t, log, s1.sent);
      s' := DeliverStep(c, d, s2, r);
      assert s'.nodes == s1.nodes[v := AfterAppend(y, r)] by { assert s1.nodes[m := x] == s1.nodes; }
      forall w | w in todo ensures w in s'.nodes && s'.nodes[w].commitIndex >= |log| - 1 {
        if w != v { assert w in todo - {v}; }
      }
    }
  }

  lemma OnlyMember(c: Cluster, q: set<NodeId>, m: NodeId)
    requires |c.members| == 1 && m in q && q <= c.members
    ensures q - {m} == {}
  {
    assert |c.members - {m}| == 0;
    assert q - {m} <= c.members - {m};
  }

  ghost function WithCommand(x: NodeState, cmd: Command): seq<Entry> {
    x.log + [Entry(x.term, |x.log|, cmd)]
  }

  /** A leader whose term is not behind any of an electing set can commit a new command with them. */
  lemma LeaderCommits(c: Cluster, d: Delivery, s: System, q: set<NodeId>, m: NodeId, cmd: Command) returns (s': System)
    requires SafeSize(c) && Reaches(c, d, s) && Shaped(c, s.nodes) && ElectionQuorum(c, q) && LeadsAll(s, q, m)
    ensures Reaches(c, d, s') && Shaped(c, s'.nodes) && CommittedBy(s', q, m, WithCommand(s.nodes[m], cmd))
  {
    hide Reaches, SafeSize, BoundsInv, LogInv, CommitInv, PeersKnown, Waiting, Carried, Shaped;
    var t, log := s.nodes[m].term, WithCommand(s.nodes[m], cmd);
    MembersThere(c, s);
    Reached(c, d, s);
    var s1 := ProposeStep(c, d, s, m, cmd);
    ProposedWaits(c, s, s1, q, m, cmd) by { QuorumWithin(c, q); }
    QuorumVotes(c, q, m);
    QuorumWithin(c, q);
    hide ElectionQuorum, LeadsAll;
    CarriedShape(c, s1, m, t, log, {});
    var s2 := ServeAll(c, d, s1, m, t, log, {}, q - {m});
    assert {} + (q - {m}) == q - {m};
    CarriedShape(c, s2, m, t, log, q - {m});
    if |c.members| == 1 { OnlyMember(c, q, m); }
    s' := TellAll(c, d, s2, m, t, log, q - {m}, q - {m});
    ToldAll(c, s', q, m, t, log);
  }

  lemma QuorumWithin(c: Cluster, q: set<NodeId>)
    requires ElectionQuorum(c, q)
    ensures c.members != {} && q <= c.members
  {
  }

  lemma CarriedShape(c: Cluster, s: System, m: NodeId, t: nat, log: seq<Entry>, done: set<NodeId>)
    requires c.members != {} && Carried(c, s, m, t, log, done)
    ensures |log| > 1 && m in s.nodes && s.nodes[m].log == log
    ensures |done| >= 1 && |done| + 1 >= c.Majority() ==> s.nodes[m].commitIndex >= |log| - 1
  {
  }

  lemma ToldAll(c: Cluster, s: System, q: set<NodeId>, m: NodeId, t: nat, log: seq<Entry>)
    requires c.members != {} && m in q && Carried(c, s, m, t, log, q - {m}) && s.nodes[m].commitIndex >= |log| - 1
    requires forall v | v in q - {m} :: v in s.nodes && s.nodes[v].commitIndex >= |log| - 1
    ensures CommittedBy(s, q, m, log)
  {
    forall v | v in q ensures v in s.nodes && s.nodes[v].log == log && s.nodes[v].commitIndex >= |log| - 1 {
      if v != m { assert v in q - {m}; }
    }
  }

  /** From every reachable state of a cluster of safe size, under any delivery, an electing set of nodes that hear
      each other can get a leader, and a new command of it committed by all of them. */
  lemma CanCommit(c: Cluster, d: Delivery, s: System, q: set<NodeId>, cmd: Command)
    returns (s': System, m: NodeId, log: seq<Entry>)
    requires SafeSize(c) && Reaches(c, d, s) && ElectionQuorum(c, q)
    ensures Reaches(c, After(d, s), s') && Shaped(c, s'.nodes) && CommittedBy(s', q, m, log)
    ensures m in s.nodes && s.nodes[m].log + [log[|log| - 1]] == log && log[|log| - 1].command == cmd
  {
    hide Reaches, SafeSize, Shaped, ElectionQuorum, SameData;
    ReachesAfter(c, d, s);
    ReachedShaped(c, d, s);
    var s1;
    s1, m := CanElect(c, After(d, s), s, q);
    s' := LeaderCommits(c, After(d, s), s1, q, m, cmd);
    log := WithCommand(s1.nodes[m], cmd);
    assert SameData(s.nodes[m], s1.nodes[m]);
    SameLogs(s.nodes[m], s1.nodes[m]);
  }

  lemma SameLogs(x: NodeState, y: NodeState)
    requires SameData(x, y)
    ensures x.log == y.log
  {
  }

  // And applied

  lemma AppliedState(x: NodeState)
    requires AppliedOk(x) && x.commitIndex >= |x.log| - 1
    ensures var y := ApplyAll(x); y.applied == x.log[1..] && y.log == x.log && y.commitIndex == x.commitIndex
  {
    assert x.log[1..x.lastApplied + 1] + x.log[x.lastApplied + 1..|x.log|] == x.log[1..];
  }

  /** Where requests arrive in order, all of them apply what they have committed. */
  lemma {:induction false} ApplyEach(c: Cluster, d: Delivery, s: System, q: set<NodeId>, m: NodeId, log: seq<Entry>,
        todo: set<NodeId>)
    returns (s': System)
    requires SafeSize(c) && Reaches(c, d, s) && Shaped(c, s.nodes) && InOrder(d)
    requires CommittedBy(s, q, m, log) && todo <= q
    ensures Reaches(c, d, s') && Shaped(c, s'.nodes) && CommittedBy(s', q, m, log)
    ensures forall v | v in todo :: v in s'.nodes && s'.nodes[v].applied == log[1..]
    decreases todo
  {
    hide Reaches, SafeSize, Shaped, LogInv, BoundsInv, PeersKnown, CommitInv, ApplyAll, AppliedOk, Justified, BookOk;
    if todo == {} {
      s' := s;
    } else {
      var v :| v in todo;
      var s1 := ApplyEach(c, d, s, q, m, log, todo - {v});
      Reached(c, d, s1);
      CommitAt(c, s1, v);
      AppliedState(s1.nodes[v]);
      ApplyAllReaches(c, d, s1, v);
      s' := s1.(nodes := s1.nodes[v := ApplyAll(s1.nodes[v])]);
    }
  }

  /** From every reachable state of a cluster of safe size whose requests arrive in order, an electing set of nodes
      that hear each other can get a new command applied by all of them, after everything applied so far. */
  lemma CommandGoesThrough(c: Cluster, d: Delivery, s: System, q: set<NodeId>, cmd: Command)
    returns (s': System, applied: seq<Entry>)
    requires SafeSize(c) && Reaches(c, d, s) && InOrder(d) && ElectionQuorum(c, q)
    ensures Reaches(c, After(d, s), s') && applied != [] && applied[|applied| - 1].command == cmd
    ensures forall v | v in q :: v in s.nodes && v in s'.nodes && s.nodes[v].applied <= s'.nodes[v].applied == applied
  {
    hide Reaches, SafeSize, Shaped, ElectionQuorum;
    var s1, m, log := CanCommit(c, d, s, q, cmd);
    s' := ApplyEach(c, After(d, s), s1, q, m, log, q);
    applied := log[1..];
    forall v | v in q ensures v in s.nodes && s.nodes[v].applied <= s'.nodes[v].applied {
      ReachedShaped(c, d, s);
      QuorumThere(c, s, q);
      AppliedSince(c, d, s, s', v);
    }
  }

  lemma AppliedSince(c: Cluster, d: Delivery, s: System, s': System, v: NodeId)
    requires Reaches(c, After(d, s), s') && v in s.nodes
    ensures v in s'.nodes && s.nodes[v].applied <= s'.nodes[v].applied
  {
    var states, steps :| IsRun(c, states, steps) && Obeys(After(d, s), states, steps) && states[|steps|] == s';
    var k :| 0 <= k < |states| && states[k] == s;
    hide Obeys;
    AppliedGrows(c, states, steps, k, |steps|, v);
  }
}
