/** Log Matching, under arbitrary message reordering: two logs that agree on the term at some
    index are identical up to that index. */
module RaftLog {
  import opened RaftTypes
  import opened RaftHandlers
  import opened RaftSystem
  import opened Quorums
  import opened RaftElection

  type TermLogs = map<nat, seq<Entry>>

  /** The first `k` entries of both logs exist and are the same. */
  ghost predicate Agree(a: seq<Entry>, b: seq<Entry>, k: nat) {
    k <= |a| && k <= |b| && forall j | 0 <= j < k :: a[j] == b[j]
  }

  ghost predicate Sorted(log: seq<Entry>) {
    forall i, j | 0 <= i <= j < |log| :: log[i].term <= log[j].term
  }

  /** The log up to index `i` is the log of the leader that created entry `i`. */
  ghost predicate EntryOk(tl: TermLogs, log: seq<Entry>, i: nat) {
    i < |log| && log[i].index == i && log[i].term in tl && Agree(log, tl[log[i].term], i + 1)
  }

  ghost predicate LogOk(tl: TermLogs, log: seq<Entry>) {
    |log| > 0 && log[0] == SENTINEL && Sorted(log) && forall i | 0 <= i < |log| :: EntryOk(tl, log, i)
  }

  /** Below `start` the leader's log predates its term; from there on it is the leader's own. */
  ghost predicate StartOk(log: seq<Entry>, t: nat, start: nat) {
    && 1 <= start <= |log|
    && (forall i | 0 <= i < start :: log[i].term < t)
    && (forall i | start <= i < |log| :: log[i].term == t)
  }

  ghost predicate TermLogsOk(tl: TermLogs, elections: Elections) {
    && 0 in tl && tl[0] == [SENTINEL] && 0 !in elections
    && (forall t | t in tl :: t == 0 || t in elections)
    && (forall t | t in elections :: t in tl && StartOk(tl[t], t, elections[t].start))
    && (forall t | t in tl :: LogOk(tl, tl[t]))
  }

  ghost predicate NodeLogOk(tl: TermLogs, x: NodeState) {
    && LogOk(tl, x.log)
    && LastTerm(x.log) <= x.term
    && (x.role == Candidate ==> LastTerm(x.log) < x.term)
    && (x.role == Leader ==> x.term in tl && x.log == tl[x.term])
  }

  ghost predicate NodeLogsOk(tl: TermLogs, nodes: Nodes) {
    forall n | n in nodes :: NodeLogOk(tl, nodes[n])
  }

  /** A request carries the leader's whole log of some moment, from `prevIndex` on. */
  ghost predicate RequestOk(tl: TermLogs, elections: Elections, r: AppendRequest) {
    && r.term in elections && r.term in tl
    && elections[r.term].start <= r.Length() <= |tl[r.term]|
    && r.prevTerm == tl[r.term][r.prevIndex].term
    && forall j | 0 <= j < |r.entries| :: r.entries[j] == tl[r.term][r.prevIndex + 1 + j]
  }

  ghost predicate RequestsOk(tl: TermLogs, elections: Elections, requests: set<AppendRequest>) {
    forall r | r in requests :: RequestOk(tl, elections, r)
  }

  ghost predicate LogInv(s: System) {
    && TermLogsOk(s.termLog, s.elections)
    && NodeLogsOk(s.termLog, s.nodes)
    && RequestsOk(s.termLog, s.elections, s.appendRequests)
  }

  lemma LogInvInitial(c: Cluster)
    requires c.members != {}
    ensures LogInv(Initial(c))
  {
    assert LogOk(map[0 := [SENTINEL]], [SENTINEL]);
  }

  // Logs

  /** Equal terms at one index mean equal logs up to it. */
  lemma SamePrefix(tl: TermLogs, a: seq<Entry>, b: seq<Entry>, i: nat)
    requires LogOk(tl, a) && LogOk(tl, b) && i < |a| && i < |b| && a[i].term == b[i].term
    ensures Agree(a, b, i + 1)
  {
    assert EntryOk(tl, a, i) && EntryOk(tl, b, i);
  }

  lemma PrefixOk(tl: TermLogs, log: seq<Entry>, k: nat)
    requires LogOk(tl, log) && 0 < k <= |log|
    ensures LogOk(tl, log[..k])
  {
    forall i | 0 <= i < k ensures EntryOk(tl, log[..k], i) {
      assert EntryOk(tl, log, i);
    }
  }

  /** A request is accepted only by a log that agrees with the leader's up to `prevIndex`, and
      leaves the leader's log of the moment of sending. */
  lemma AcceptedIsSnapshot(tl: TermLogs, elections: Elections, log: seq<Entry>, r: AppendRequest)
    requires TermLogsOk(tl, elections) && LogOk(tl, log) && RequestOk(tl, elections, r) && Matches(log, r)
    ensures Spliced(log, r) == tl[r.term][..r.Length()]
  {
    var full := tl[r.term];
    SamePrefix(tl, log, full, r.prevIndex);
    assert forall k | 0 <= k < |full| :: EntryOk(tl, full, k) && full[k].index == k;
    hide TermLogsOk, LogOk, EntryOk;
    SpliceOnto(log, r, full);
  }

  /** A suffix spliced onto a log that agrees below it gives the whole. */
  lemma SpliceOnto(log: seq<Entry>, r: AppendRequest, full: seq<Entry>)
    requires r.prevIndex < |log| && r.Length() <= |full| && Agree(log, full, r.prevIndex + 1)
    requires forall k | 0 <= k < |full| :: full[k].index == k
    requires forall j | 0 <= j < |r.entries| :: r.entries[j] == full[r.prevIndex + 1 + j]
    ensures Spliced(log, r) == full[..r.Length()]
  {
    forall k | r.prevIndex < k < r.Length() ensures Spliced(log, r)[k] == full[k] {
      assert r.entries[k - r.prevIndex - 1] == full[k];
    }
  }

  // Leaders' logs only grow

  ghost predicate Extends(tl: TermLogs, tl': TermLogs) {
    forall t | t in tl :: t in tl' && Agree(tl[t], tl'[t], |tl[t]|)
  }

  lemma LogOkExtends(tl: TermLogs, tl': TermLogs, log: seq<Entry>)
    requires Extends(tl, tl') && LogOk(tl, log)
    ensures LogOk(tl', log)
  {
    forall i | 0 <= i < |log| ensures EntryOk(tl', log, i) {
      assert EntryOk(tl, log, i);
    }
  }

  lemma RequestsOkExtends(tl: TermLogs, tl': TermLogs, elections: Elections, elections': Elections,
        requests: set<AppendRequest>)
    requires Extends(tl, tl') && RequestsOk(tl, elections, requests)
    requires forall t | t in elections :: t in elections' && elections'[t] == elections[t]
    ensures RequestsOk(tl', elections', requests)
  {
    forall r | r in requests ensures RequestOk(tl', elections', r) {
      assert RequestOk(tl, elections, r);
    }
    hide RequestOk;
  }

  lemma GrownLogOk(tl: TermLogs, t: nat, e: Entry)
    requires t in tl && LogOk(tl, tl[t]) && e.term == t && e.index == |tl[t]| && LastTerm(tl[t]) <= t
    ensures LogOk(tl[t := tl[t] + [e]], tl[t] + [e])
  {
    var log, tl' := tl[t] + [e], tl[t := tl[t] + [e]];
    forall i | 0 <= i < |log| ensures EntryOk(tl', log, i) {
      if i < |tl[t]| { assert EntryOk(tl, tl[t], i); }
    }
    hide EntryOk;
  }

  lemma ProposeKeepsTermLogs(tl: TermLogs, elections: Elections, t: nat, e: Entry)
    requires TermLogsOk(tl, elections) && t in elections && e.term == t && e.index == |tl[t]|
    ensures var tl' := tl[t := tl[t] + [e]]; Extends(tl, tl') && TermLogsOk(tl', elections)
  {
    var tl' := tl[t := tl[t] + [e]];
    assert StartOk(tl[t], t, elections[t].start);
    GrownLogOk(tl, t, e);
    forall u | u in tl && u != t ensures LogOk(tl', tl'[u]) {
      LogOkExtends(tl, tl', tl[u]);
    }
    hide LogOk;
  }

  lemma WinKeepsTermLogs(tl: TermLogs, elections: Elections, t: nat, log: seq<Entry>, e: Election)
    requires TermLogsOk(tl, elections) && t !in tl
    requires LogOk(tl, log) && LastTerm(log) < t && e.start == |log|
    ensures var tl' := tl[t := log]; Extends(tl, tl') && TermLogsOk(tl', elections[t := e])
  {
    var tl' := tl[t := log];
    forall u | u in tl ensures LogOk(tl', tl[u]) {
      LogOkExtends(tl, tl', tl[u]);
    }
    LogOkExtends(tl, tl', log);
    assert StartOk(log, t, |log|);
    hide LogOk, StartOk;
  }

  // Nodes

  lemma NodeLogOkAt(s: System, n: NodeId)
    requires LogInv(s) && n in s.nodes
    ensures NodeLogOk(s.termLog, s.nodes[n])
  {
    hide TermLogsOk, RequestsOk, NodeLogOk;
  }

  lemma OneNodeLog(tl: TermLogs, nodes: Nodes, n: NodeId, y: NodeState)
    requires NodeLogsOk(tl, nodes) && NodeLogOk(tl, y)
    ensures NodeLogsOk(tl, nodes[n := y])
  {
    hide NodeLogOk;
  }

  /** A node that keeps its log and does not become leader stays consistent. */
  lemma SameLogNode(tl: TermLogs, x: NodeState, y: NodeState)
    requires NodeLogOk(tl, x) && y.log == x.log && y.term >= x.term
    requires y.role == Candidate ==> y.term > x.term || x.role == Candidate
    requires y.role == Leader ==> x.role == Leader && y.term == x.term
    ensures NodeLogOk(tl, y)
  {
    hide LogOk;
  }

  lemma AcceptKeepsNode(tl: TermLogs, elections: Elections, x: NodeState, r: AppendRequest)
    requires TermLogsOk(tl, elections) && NodeLogOk(tl, x) && RequestOk(tl, elections, r) && Accepts(x, r)
    ensures NodeLogOk(tl, AfterAppend(x, r))
    ensures AfterAppend(x, r).log == tl[r.term][..r.Length()]
  {
    AcceptedIsSnapshot(tl, elections, x.log, r);
    PrefixOk(tl, tl[r.term], r.Length());
    assert StartOk(tl[r.term], r.term, elections[r.term].start);
    hide LogOk;
  }

  lemma AppendKeepsNodeLog(tl: TermLogs, elections: Elections, x: NodeState, r: AppendRequest)
    requires TermLogsOk(tl, elections) && NodeLogOk(tl, x) && RequestOk(tl, elections, r)
    ensures NodeLogOk(tl, AfterAppend(x, r))
  {
    if Accepts(x, r) {
      AcceptKeepsNode(tl, elections, x, r);
    } else {
      hide LogOk, TermLogsOk, RequestOk;
      SameLogNode(tl, x, AfterAppend(x, r));
    }
  }

  lemma GrowKeepsNodes(tl: TermLogs, tl': TermLogs, nodes: Nodes, n: NodeId, y: NodeState)
    requires NodeLogsOk(tl, nodes) && Extends(tl, tl') && n in nodes && NodeLogOk(tl', y)
    requires forall t | t in tl && tl[t] != tl'[t] :: t == y.term
    requires forall m | m in nodes && m != n && nodes[m].role == Leader :: nodes[m].term != y.term
    ensures NodeLogsOk(tl', nodes[n := y])
  {
    forall m | m in nodes && m != n ensures NodeLogOk(tl', nodes[m]) {
      assert NodeLogOk(tl, nodes[m]);
      LogOkExtends(tl, tl', nodes[m].log);
    }
    hide NodeLogOk;
  }

  // Steps

  /** Steps that change one node's role, term or bookkeeping but no log. */
  lemma StepSameLog(s: System, s': System, n: NodeId, y: NodeState)
    requires LogInv(s) && n in s.nodes
    requires s'.nodes == s.nodes[n := y] && s'.termLog == s.termLog && s'.elections == s.elections
    requires s'.appendRequests == s.appendRequests
    requires var x := s.nodes[n];
      && y.log == x.log && y.term >= x.term
      && (y.role == Candidate ==> y.term > x.term || x.role == Candidate)
      && (y.role == Leader ==> x.role == Leader && y.term == x.term)
    ensures LogInv(s')
  {
    NodeLogOkAt(s, n);
    hide TermLogsOk, RequestsOk, NodeLogsOk, NodeLogOk;
    SameLogNode(s.termLog, s.nodes[n], y);
    OneNodeLog(s.termLog, s.nodes, n, y);
  }

  lemma FreshTerm(s: System, n: NodeId)
    requires LogInv(s) && n in s.nodes && s.nodes[n].role == Candidate && s.nodes[n].term !in s.elections
    ensures s.nodes[n].term !in s.termLog && NodeLogOk(s.termLog, s.nodes[n])
  {
    hide RequestsOk, LogOk, StartOk;
    assert NodeLogOk(s.termLog, s.nodes[n]);
  }

  lemma StepWinLog(c: Cluster, s: System, n: NodeId)
    requires LogInv(s) && ElectionInv(c, s) && n in s.nodes && s.nodes[n].role == Candidate
    requires s.nodes[n].term !in s.elections
    ensures LogInv(AfterWin(c, s, n))
  {
    hide TermLogsOk, RequestsOk, NodeLogsOk, LogOk, Extends, VotesOk, VoteRepliesOk, AppendsFromLeaders, Shaped;
    var x, s' := s.nodes[n], AfterWin(c, s, n);
    FreshTerm(s, n);
    NoLeaderYet(c, s, x.term);
    WinKeepsTermLogs(s.termLog, s.elections, x.term, x.log, s'.elections[x.term]);
    LogOkExtends(s.termLog, s'.termLog, x.log);
    RequestsOkExtends(s.termLog, s'.termLog, s.elections, s'.elections, s.appendRequests);
    GrowKeepsNodes(s.termLog, s'.termLog, s.nodes, n, s'.nodes[n]);
  }

  lemma NoLeaderYet(c: Cluster, s: System, t: nat)
    requires ElectionInv(c, s) && t !in s.elections
    ensures forall m | m in s.nodes && s.nodes[m].role == Leader :: s.nodes[m].term != t
  {
    forall m | m in s.nodes && s.nodes[m].role == Leader ensures s.nodes[m].term != t {
      NodeOkAt(c, s, m);
    }
  }

  lemma OnlyLeader(c: Cluster, s: System, n: NodeId)
    requires ElectionInv(c, s) && n in s.nodes && s.nodes[n].role == Leader
    ensures s.nodes[n].term in s.elections
    ensures forall m | m in s.nodes && m != n && s.nodes[m].role == Leader :: s.nodes[m].term != s.nodes[n].term
  {
    NodeOkAt(c, s, n);
    forall m | m in s.nodes && m != n && s.nodes[m].role == Leader ensures s.nodes[m].term != s.nodes[n].term {
      NodeOkAt(c, s, m);
    }
  }

  lemma StepProposeLog(c: Cluster, s: System, n: NodeId, cmd: Command)
    requires LogInv(s) && ElectionInv(c, s) && n in s.nodes && s.nodes[n].role == Leader
    ensures LogInv(AfterPropose(c, s, n, cmd))
  {
    hide TermLogsOk, RequestsOk, NodeLogsOk, LogOk, Extends, VotesOk, VoteRepliesOk, AppendsFromLeaders, Shaped;
    var x, y, s' := s.nodes[n], Propose(c, s.nodes[n], cmd), AfterPropose(c, s, n, cmd);
    NodeLogOkAt(s, n);
    OnlyLeader(c, s, n);
    var e := Entry(x.term, |x.log|, cmd);
    ProposeKeepsTermLogs(s.termLog, s.elections, x.term, e);
    LogOkIn(s'.termLog, s'.elections, x.term);
    RequestsOkExtends(s.termLog, s'.termLog, s.elections, s'.elections, s.appendRequests);
    GrowKeepsNodes(s.termLog, s'.termLog, s.nodes, n, y);
  }

  lemma LogOkIn(tl: TermLogs, elections: Elections, t: nat)
    requires TermLogsOk(tl, elections) && t in tl
    ensures LogOk(tl, tl[t])
  {
    hide LogOk, StartOk;
  }

  lemma SentIsSnapshot(tl: TermLogs, elections: Elections, n: NodeId, x: NodeState, peer: NodeId, seqNo: nat)
    requires TermLogsOk(tl, elections) && NodeLogOk(tl, x) && x.role == Leader && x.term in elections
    ensures RequestOk(tl, elections, AppendFor(n, x, peer, seqNo))
    ensures AppendFor(n, x, peer, seqNo).Length() == |tl[x.term]|
  {
    hide LogOk;
  }

  lemma StepSendLog(c: Cluster, s: System, n: NodeId, peer: NodeId)
    requires LogInv(s) && ElectionInv(c, s) && n in s.nodes && s.nodes[n].role == Leader
    ensures LogInv(AfterSendAppend(s, n, peer))
  {
    NodeOkAt(c, s, n);
    NodeLogOkAt(s, n);
    hide TermLogsOk, NodeLogsOk, NodeLogOk, RequestOk, VotesOk;
    SentIsSnapshot(s.termLog, s.elections, n, s.nodes[n], peer, s.sent);
    SameLogNode(s.termLog, s.nodes[n], AfterSend(s.nodes[n], peer));
    OneNodeLog(s.termLog, s.nodes, n, AfterSend(s.nodes[n], peer));
  }

  lemma StepAppendLog(s: System, r: AppendRequest)
    requires LogInv(s) && r in s.appendRequests && r.follower in s.nodes
    ensures LogInv(AfterDeliverAppend(s, r))
  {
    NodeLogOkAt(s, r.follower);
    assert RequestOk(s.termLog, s.elections, r);
    hide TermLogsOk, NodeLogsOk, NodeLogOk, RequestsOk, RequestOk;
    AppendKeepsNodeLog(s.termLog, s.elections, s.nodes[r.follower], r);
    OneNodeLog(s.termLog, s.nodes, r.follower, AfterAppend(s.nodes[r.follower], r));
  }

  lemma StepLogInv(c: Cluster, s: System, step: Step)
    requires SafeSize(c) && ElectionInv(c, s) && LogInv(s) && Enabled(c, s, step)
    ensures LogInv(Next(c, s, step))
  {
    hide VotesOk, VoteRepliesOk, AppendsFromLeaders, TermLogsOk, NodeLogsOk, RequestsOk;
    match step
    case WinElection(n) => WinnerIsFirst(c, s, n); StepWinLog(c, s, n);
    case SendAppend(n, peer) => StepSendLog(c, s, n, peer);
    case DeliverAppend(r) => StepAppendLog(s, r);
    case AnswerLate(r) =>
    case ProposeCommand(n, cmd) => StepProposeLog(c, s, n, cmd);
    case _ => StepQuietLog(c, s, step);
  }

  /** The steps that change no log and send no entries. */
  lemma StepQuietLog(c: Cluster, s: System, step: Step)
    requires SafeSize(c) && ElectionInv(c, s) && LogInv(s) && Enabled(c, s, step)
    requires step.Timeout? || step.DeliverVoteRequest? || step.DeliverVoteReply? || step.DeliverAppendReply?
      || step.Apply?
    ensures LogInv(Next(c, s, step))
  {
    hide VotesOk, VoteRepliesOk, AppendsFromLeaders, LogInv;
    match step
    case Timeout(n) => StepSameLog(s, AfterTimeout(s, n), n, StartElection(n, s.nodes[n]));
    case DeliverVoteRequest(n, r) => StepSameLog(s, AfterDeliverVoteRequest(s, n, r), n,
      AfterVoteRequest(s.nodes[n], r));
    case DeliverVoteReply(r) =>
      StepSameLog(s, AfterDeliverVoteReply(s, r), r.candidate, AfterVoteReply(s.nodes[r.candidate], r));
    case DeliverAppendReply(r) => StepReplyLog(c, s, r);
    case Apply(n) => StepSameLog(s, AfterApply(s, n), n, ApplyNext(s.nodes[n]));
  }

  lemma StepReplyLog(c: Cluster, s: System, r: AppendReply)
    requires LogInv(s) && c.members != {} && r.req.leader in s.nodes && |s.nodes[r.req.leader].log| > 0
    ensures LogInv(AfterDeliverAppendReply(c, s, r))
  {
    hide LogInv;
    StepSameLog(s, AfterDeliverAppendReply(c, s, r), r.req.leader,
      AfterAppendReply(c, r.req.leader, s.nodes[r.req.leader], r));
  }
}
