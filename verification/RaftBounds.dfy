/** What holds in every run of every cluster, even one that elects two leaders in a term: the shape of
    the logs, and that the leader's next indexes stay within its log. */
module RaftBounds {
  import opened RaftTypes
  import opened RaftHandlers
  import opened RaftSystem
  import opened RaftElection
  import opened RaftLog

  // The invariant

  /** Entries are numbered by position from `first` on. */
  ghost predicate NumberedFrom(entries: seq<Entry>, first: nat) {
    forall j | 0 <= j < |entries| :: entries[j].index == first + j
  }

  ghost predicate TermsUpTo(entries: seq<Entry>, lo: nat, hi: nat) {
    lo <= hi && forall j | 0 <= j < |entries| :: lo <= entries[j].term <= hi
  }

  /** A log starts with the sentinel, numbers its entries, and its terms never fall. */
  ghost predicate LogShaped(log: seq<Entry>, term: nat) {
    log != [] && log[0] == SENTINEL && NumberedFrom(log, 0) && Sorted(log) && TermsUpTo(log, 0, term)
  }

  ghost predicate NextOk(x: NodeState) {
    x.role == Leader ==> forall p | p in x.nextIndex :: 1 <= x.nextIndex[p] <= |x.log|
  }

  ghost predicate NodesShaped(nodes: Nodes) {
    forall n | n in nodes :: LogShaped(nodes[n].log, nodes[n].term) && NextOk(nodes[n])
  }

  ghost predicate RequestShaped(r: AppendRequest) {
    NumberedFrom(r.entries, r.prevIndex + 1) && Sorted(r.entries) && TermsUpTo(r.entries, r.prevTerm, r.term)
  }

  /** A sender has not gone back to the term of its request as a candidate, and while it still leads in
      that term its log is at least as long as when it sent. */
  ghost predicate SenderOk(x: NodeState, r: AppendRequest) {
    r.term <= x.term && (r.term == x.term ==> x.role != Candidate && (x.role == Leader ==> r.Length() <= |x.log|))
  }

  ghost predicate RequestsShaped(nodes: Nodes, requests: set<AppendRequest>) {
    forall r | r in requests :: RequestShaped(r) && r.leader in nodes && SenderOk(nodes[r.leader], r)
  }

  ghost predicate RepliesKnown(requests: set<AppendRequest>, replies: set<AppendReply>) {
    forall r | r in replies :: r.req in requests
  }

  ghost predicate BoundsInv(s: System) {
    && NodesShaped(s.nodes) && RequestsShaped(s.nodes, s.appendRequests)
    && RepliesKnown(s.appendRequests, s.appendReplies)
  }

  lemma BoundsInitial(c: Cluster)
    ensures BoundsInv(Initial(c))
  {
  }

  // What the steps do to one node

  /** `y` may follow `x`: a node that stays in its term keeps its log while it leads, and leads only after
      it was a candidate. */
  ghost predicate Follows(x: NodeState, y: NodeState) {
    x.term <= y.term && (x.term == y.term ==>
      && (y.role == Candidate ==> x.role == Candidate)
      && (y.role == Leader ==> x.role == Candidate || (x.role == Leader && |x.log| <= |y.log|)))
  }

  lemma SenderStill(x: NodeState, y: NodeState, r: AppendRequest)
    requires SenderOk(x, r) && Follows(x, y)
    ensures SenderOk(y, r)
  {
  }

  lemma NodeAfter(s: System, n: NodeId, y: NodeState)
    requires BoundsInv(s) && n in s.nodes && LogShaped(y.log, y.term) && NextOk(y) && Follows(s.nodes[n], y)
    ensures NodesShaped(s.nodes[n := y]) && RequestsShaped(s.nodes[n := y], s.appendRequests)
  {
    hide LogShaped, NextOk, RequestShaped, Follows, SenderOk, RepliesKnown;
    forall r | r in s.appendRequests && r.leader == n ensures SenderOk(y, r) {
      SenderStill(s.nodes[n], y, r);
    }
  }

  lemma NodeAt(s: System, n: NodeId)
    requires BoundsInv(s) && n in s.nodes
    ensures LogShaped(s.nodes[n].log, s.nodes[n].term) && NextOk(s.nodes[n])
  {
    hide LogShaped, NextOk;
  }

  lemma RequestAt(s: System, r: AppendRequest)
    requires BoundsInv(s) && r in s.appendRequests
    ensures RequestShaped(r) && r.leader in s.nodes && SenderOk(s.nodes[r.leader], r)
  {
    hide RequestShaped, SenderOk, NodesShaped;
  }

  lemma LaterTerm(log: seq<Entry>, t: nat, u: nat)
    requires LogShaped(log, t) && t <= u
    ensures LogShaped(log, u)
  {
  }

  /** The log stays and a leader's next indexes are fit for it. */
  ghost predicate SameLog(x: NodeState, y: NodeState) {
    y.log == x.log && Follows(x, y) && NextOk(y)
  }

  lemma BoundsQuiet(s: System, n: NodeId, y: NodeState)
    requires BoundsInv(s) && n in s.nodes && SameLog(s.nodes[n], y)
    ensures NodesShaped(s.nodes[n := y]) && RequestsShaped(s.nodes[n := y], s.appendRequests)
  {
    hide BoundsInv, LogShaped, NodesShaped, RequestsShaped, NextOk;
    NodeAt(s, n);
    LaterTerm(y.log, s.nodes[n].term, y.term);
    NodeAfter(s, n, y);
  }

  /** Elections leave the log alone, and a winner takes every peer to be up to date. */
  lemma BoundsElection(c: Cluster, s: System, step: Step)
    requires Shaped(c, s.nodes) && BoundsInv(s) && Enabled(c, s, step)
    requires step.Timeout? || step.DeliverVoteRequest? || step.DeliverVoteReply? || step.WinElection?
    ensures BoundsInv(Next(c, s, step))
  {
    hide LogShaped, NodesShaped, RequestsShaped, RepliesKnown, UpToDate;
    match step
    case Timeout(n) => BoundsQuiet(s, n, StartElection(n, s.nodes[n]));
    case DeliverVoteRequest(n, r) =>
      NodeAt(s, n);
      BoundsQuiet(s, n, AfterVoteRequest(s.nodes[n], r));
    case DeliverVoteReply(r) =>
      NodeAt(s, r.candidate);
      BoundsQuiet(s, r.candidate, AfterVoteReply(s.nodes[r.candidate], r));
    case WinElection(n) => BoundsWin(c, s, n);
  }

  lemma BoundsWin(c: Cluster, s: System, n: NodeId)
    requires Shaped(c, s.nodes) && BoundsInv(s) && n in s.nodes && s.nodes[n].role == Candidate
    ensures BoundsInv(AfterWin(c, s, n))
  {
    hide LogShaped, NodesShaped, RequestsShaped, RepliesKnown;
    BoundsQuiet(s, n, BecomeLeader(c, n, s.nodes[n]));
  }

  // Replication

  lemma SentShaped(n: NodeId, x: NodeState, peer: NodeId, seqNo: nat)
    requires LogShaped(x.log, x.term) && x.role == Leader
    ensures RequestShaped(AppendFor(n, x, peer, seqNo)) && SenderOk(x, AppendFor(n, x, peer, seqNo))
  {
  }

  lemma OneMoreRequest(nodes: Nodes, requests: set<AppendRequest>, r: AppendRequest)
    requires RequestsShaped(nodes, requests) && RequestShaped(r) && r.leader in nodes && SenderOk(nodes[r.leader], r)
    ensures RequestsShaped(nodes, requests + {r})
  {
    hide RequestShaped, SenderOk;
  }

  lemma BoundsSend(c: Cluster, s: System, n: NodeId, peer: NodeId)
    requires BoundsInv(s) && n in s.nodes && s.nodes[n].role == Leader && |s.nodes[n].log| > 0
    ensures BoundsInv(AfterSendAppend(s, n, peer))
  {
    hide LogShaped, NodesShaped, RequestsShaped, RequestShaped, SenderOk, AppendFor;
    var x, y, r := s.nodes[n], AfterSend(s.nodes[n], peer), AppendFor(n, s.nodes[n], peer, s.sent);
    NodeAt(s, n);
    BoundsQuiet(s, n, y);
    SentShaped(n, x, peer, s.sent);
    SenderStill(x, y, r);
    OneMoreRequest(s.nodes[n := y], s.appendRequests, r) by { assert r.leader == n by { SentBy(n, x, peer, s.sent); } }
  }

  lemma SentBy(n: NodeId, x: NodeState, peer: NodeId, seqNo: nat)
    requires |x.log| > 0
    ensures AppendFor(n, x, peer, seqNo).leader == n
  {
  }

  lemma SplicedShaped(log: seq<Entry>, term: nat, r: AppendRequest)
    requires LogShaped(log, term) && RequestShaped(r) && Matches(log, r) && term <= r.term
    ensures LogShaped(Spliced(log, r), r.term)
  {
    var l, p := Spliced(log, r), r.prevIndex + 1;
    forall j | p <= j < |l| ensures l[j].index == j && l[j].term == r.entries[j - p].term {}
    forall j | 0 <= j < p ensures l[j] == log[j] {}
    SplicedSorted(log, r);
  }

  lemma SplicedSorted(log: seq<Entry>, r: AppendRequest)
    requires Sorted(log) && Matches(log, r) && Sorted(r.entries) && TermsUpTo(r.entries, r.prevTerm, r.term)
    ensures Sorted(Spliced(log, r))
  {
    var l, p := Spliced(log, r), r.prevIndex + 1;
    forall i, j | 0 <= i <= j < |l| ensures l[i].term <= l[j].term {
      if i < p { assert l[i].term <= log[p - 1].term; }
    }
  }

  lemma BoundsAppend(s: System, r: AppendRequest)
    requires BoundsInv(s) && r in s.appendRequests && r.follower in s.nodes
    ensures BoundsInv(AfterDeliverAppend(s, r))
  {
    hide LogShaped, NodesShaped, RequestsShaped, RequestShaped, Matches, Spliced;
    var x, y := s.nodes[r.follower], AfterAppend(s.nodes[r.follower], r);
    NodeAt(s, r.follower);
    RequestAt(s, r);
    if r.term >= x.term {
      if Matches(x.log, r) { SplicedShaped(x.log, x.term, r); } else { LaterTerm(x.log, x.term, r.term); }
    }
    NodeAfter(s, r.follower, y);
  }

  /** The index a success is recorded with is the last the leader had sent, still within its log. */
  lemma RecordedNext(x: NodeState, r: AppendRequest)
    requires NextOk(x) && RequestShaped(r) && SenderOk(x, r) && x.role == Leader && r.term == x.term
    ensures NextOk(Record(x, r))
  {
  }

  lemma ReplyKeeps(c: Cluster, x: NodeState, n: NodeId, r: AppendReply)
    requires c.members != {} && |x.log| > 0 && NextOk(x) && RequestShaped(r.req) && SenderOk(x, r.req)
    ensures SameLog(x, AfterAppendReply(c, n, x, r))
  {
    hide RequestShaped, SenderOk, Committable;
    if x.role == Leader && r.req.term == x.term { RecordedNext(x, r.req); }
  }

  lemma BoundsReply(c: Cluster, s: System, r: AppendReply)
    requires c.members != {} && BoundsInv(s) && r in s.appendReplies && r.req.leader in s.nodes
    requires |s.nodes[r.req.leader].log| > 0
    ensures BoundsInv(AfterDeliverAppendReply(c, s, r))
  {
    var n := r.req.leader;
    NodeAt(s, n);
    RequestAt(s, r.req);
    hide LogShaped, NodesShaped, RequestsShaped, RequestShaped, SenderOk, SameLog, AfterAppendReply, NextOk;
    ReplyKeeps(c, s.nodes[n], n, r);
    BoundsQuiet(s, n, AfterAppendReply(c, n, s.nodes[n], r));
  }

  lemma GrownShaped(log: seq<Entry>, term: nat, cmd: Command)
    requires LogShaped(log, term)
    ensures LogShaped(log + [Entry(term, |log|, cmd)], term)
  {
  }

  lemma BoundsPropose(c: Cluster, s: System, n: NodeId, cmd: Command)
    requires BoundsInv(s) && n in s.nodes && s.nodes[n].role == Leader
    ensures BoundsInv(AfterPropose(c, s, n, cmd))
  {
    hide LogShaped, NodesShaped, RequestsShaped;
    NodeAt(s, n);
    GrownShaped(s.nodes[n].log, s.nodes[n].term, cmd);
    NodeAfter(s, n, Propose(c, s.nodes[n], cmd));
  }

  lemma BoundsApply(s: System, n: NodeId)
    requires BoundsInv(s) && n in s.nodes && s.nodes[n].lastApplied + 1 < |s.nodes[n].log|
    ensures BoundsInv(AfterApply(s, n))
  {
    hide LogShaped, NodesShaped, RequestsShaped;
    NodeAt(s, n);
    BoundsQuiet(s, n, ApplyNext(s.nodes[n]));
  }

  // Every run

  lemma StepBounds(c: Cluster, s: System, step: Step)
    requires Shaped(c, s.nodes) && BoundsInv(s) && Enabled(c, s, step)
    ensures BoundsInv(Next(c, s, step))
  {
    hide NodesShaped, RequestsShaped, AfterSendAppend, AfterDeliverAppend, AfterDeliverAppendReply, AfterPropose;
    hide AfterApply;
    match step
    case SendAppend(n, peer) => BoundsSend(c, s, n, peer);
    case DeliverAppend(r) => BoundsAppend(s, r);
    case AnswerLate(r) =>
    case DeliverAppendReply(r) => BoundsReply(c, s, r);
    case ProposeCommand(n, cmd) => BoundsPropose(c, s, n, cmd);
    case Apply(n) => BoundsApply(s, n);
    case _ => BoundsElection(c, s, step);
  }

  lemma {:induction false} RunBounds(c: Cluster, states: seq<System>, steps: seq<Step>, k: nat)
    requires IsRun(c, states, steps) && k < |states|
    ensures BoundsInv(states[k])
  {
    hide BoundsInv;
    if k == 0 {
      BoundsInitial(c);
    } else {
      RunBounds(c, states, steps, k - 1);
      assert StepAt(c, states, steps, k - 1);
      StepBounds(c, states[k - 1], steps[k - 1]);
    }
  }

  /** Every log starts with the sentinel, numbers its entries by position and never falls in term. */
  lemma LogShape(c: Cluster, states: seq<System>, steps: seq<Step>, k: nat, n: NodeId)
    requires IsRun(c, states, steps) && k < |states| && n in states[k].nodes
    ensures var x := states[k].nodes[n];
      && x.log != [] && x.log[0] == SENTINEL
      && (forall j | 0 <= j < |x.log| :: x.log[j].index == j && x.log[j].term <= x.term)
      && (forall j, h | 0 <= j <= h < |x.log| :: x.log[j].term <= x.log[h].term)
  {
    RunBounds(c, states, steps, k);
    hide IsRun, BoundsInv;
    NodeAt(states[k], n);
  }

  /** Whenever a leader uses a peer's next index it lies within 1 and the length of the log, so the
      code never has to correct it and never reads outside the log. */
  lemma NextIndexInBounds(c: Cluster, states: seq<System>, steps: seq<Step>, k: nat, n: NodeId, p: NodeId)
    requires IsRun(c, states, steps) && k < |states| && n in states[k].nodes
    requires states[k].nodes[n].role == Leader && p in states[k].nodes[n].nextIndex
    ensures var x := states[k].nodes[n]; 1 <= x.nextIndex[p] <= |x.log| && NextFor(x, p) == x.nextIndex[p]
  {
    RunBounds(c, states, steps, k);
    hide IsRun, BoundsInv, LogShaped;
    NodeAt(states[k], n);
  }
}
