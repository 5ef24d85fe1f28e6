/** A fixed cluster of Raft nodes over a network that may lose, delay, reorder and
    duplicate every message: each message ever sent stays available for delivery.
    A step is one critical section of the code. */
module RaftSystem {
  import opened RaftTypes
  import opened RaftHandlers

  // History: what happened so far. It is written by the steps and read by none of them.

  /** `voter` voted for `candidate` in `term`. */
  datatype Grant = Grant(voter: NodeId, candidate: NodeId, term: nat)

  /** `node` held the first `length` entries of the leader's log of `term`, in that term. */
  datatype Ack = Ack(node: NodeId, term: nat, length: nat)

  /** `leader` won its term with the votes of `voters` and a log of `start` entries. */
  datatype Election = Election(leader: NodeId, voters: set<NodeId>, start: nat)

  datatype System = System(
    nodes: map<NodeId, NodeState>,
    voteRequests: set<VoteRequest>,
    voteReplies: set<VoteReply>,
    appendRequests: set<AppendRequest>,
    appendReplies: set<AppendReply>,
    sent: nat,
    grants: set<Grant>,
    acks: set<Ack>,
    elections: map<nat, Election>,
    termLog: map<nat, seq<Entry>>)   // the log of each term's leader; term 0 holds the sentinel

  datatype Step =
    | Timeout(n: NodeId)
    | DeliverVoteRequest(n: NodeId, vreq: VoteRequest)
    | DeliverVoteReply(vrep: VoteReply)
    | WinElection(n: NodeId)
    | SendAppend(n: NodeId, peer: NodeId)
    | DeliverAppend(areq: AppendRequest)
    | AnswerLate(arep: AppendReply)       // the handler reads its term again after applying entries
    | DeliverAppendReply(arep: AppendReply)
    | ProposeCommand(n: NodeId, cmd: Command)
    | Apply(n: NodeId)

  function Initial(c: Cluster): System {
    System(map n | n in c.members :: NewNode(), {}, {}, {}, {}, 0, {}, {}, map[], map[0 := [SENTINEL]])
  }

  ghost predicate Shaped(c: Cluster, nodes: map<NodeId, NodeState>) {
    c.members != {} && nodes.Keys == c.members && forall n | n in nodes :: |nodes[n].log| > 0
  }

  /** An apply loop that would read outside the log has no step: there the node goes down
      (see `RaftCrashes`). The other steps of such a node stay, so no run of the code is lost. */
  ghost predicate Enabled(c: Cluster, s: System, step: Step)
    requires Shaped(c, s.nodes)
  {
    match step
    case Timeout(n) => n in s.nodes && s.nodes[n].role != Leader
    case DeliverVoteRequest(n, r) => n in s.nodes && r in s.voteRequests && n != r.candidate
    case DeliverVoteReply(r) => r in s.voteReplies && r.candidate in s.nodes
    case WinElection(n) => n in s.nodes && HasWon(c, s.nodes[n])
    case SendAppend(n, peer) => n in s.nodes && peer in s.nodes && peer != n && s.nodes[n].role == Leader
    case DeliverAppend(r) => r in s.appendRequests && r.follower in s.nodes
    case AnswerLate(r) => r in s.appendReplies && r.success && r.req.follower in s.nodes
    case DeliverAppendReply(r) => r in s.appendReplies && r.req.leader in s.nodes
    case ProposeCommand(n, cmd) => n in s.nodes && s.nodes[n].role == Leader
    case Apply(n) => n in s.nodes && s.nodes[n].lastApplied < s.nodes[n].commitIndex && ReadsInLog(s.nodes[n])
  }

  function AfterTimeout(s: System, n: NodeId): System
    requires n in s.nodes && |s.nodes[n].log| > 0
  {
    var x := StartElection(n, s.nodes[n]);
    s.(nodes := s.nodes[n := x],
       voteRequests := s.voteRequests + {VoteRequestOf(n, x)},
       grants := s.grants + {Grant(n, n, x.term)})
  }

  function AfterDeliverVoteRequest(s: System, n: NodeId, r: VoteRequest): System
    requires n in s.nodes && |s.nodes[n].log| > 0
  {
    var granted := GrantsVote(s.nodes[n], r);
    var x := AfterVoteRequest(s.nodes[n], r);
    s.(nodes := s.nodes[n := x],
       voteReplies := s.voteReplies + {VoteReply(n, r.candidate, r.term, x.term, granted)},
       grants := if granted then s.grants + {Grant(n, r.candidate, r.term)} else s.grants)
  }

  function AfterDeliverVoteReply(s: System, r: VoteReply): System
    requires r.candidate in s.nodes
  {
    s.(nodes := s.nodes[r.candidate := AfterVoteReply(s.nodes[r.candidate], r)])
  }

  function AfterWin(c: Cluster, s: System, n: NodeId): System
    requires n in s.nodes
  {
    var x := s.nodes[n];
    s.(nodes := s.nodes[n := BecomeLeader(c, n, x)],
       elections := s.elections[x.term := Election(n, x.votes, |x.log|)],
       termLog := s.termLog[x.term := x.log],
       acks := s.acks + {Ack(n, x.term, |x.log|)})
  }

  function AfterSendAppend(s: System, n: NodeId, peer: NodeId): System
    requires n in s.nodes && |s.nodes[n].log| > 0
  {
    s.(nodes := s.nodes[n := AfterSend(s.nodes[n], peer)],
       appendRequests := s.appendRequests + {AppendFor(n, s.nodes[n], peer, s.sent)},
       sent := s.sent + 1)
  }

  function AfterDeliverAppend(s: System, r: AppendRequest): System
    requires r.follower in s.nodes
  {
    var accepted := Accepts(s.nodes[r.follower], r);
    var x := AfterAppend(s.nodes[r.follower], r);
    s.(nodes := s.nodes[r.follower := x],
       appendReplies := s.appendReplies + {AppendReply(r, x.term, accepted)},
       acks := if accepted then s.acks + {Ack(r.follower, r.term, r.Length())} else s.acks)
  }

  function AfterAnswerLate(s: System, r: AppendReply): System
    requires r.req.follower in s.nodes
  {
    s.(appendReplies := s.appendReplies + {AppendReply(r.req, s.nodes[r.req.follower].term, true)})
  }

  function AfterDeliverAppendReply(c: Cluster, s: System, r: AppendReply): System
    requires c.members != {} && r.req.leader in s.nodes && |s.nodes[r.req.leader].log| > 0
  {
    var n := r.req.leader;
    s.(nodes := s.nodes[n := AfterAppendReply(c, n, s.nodes[n], r)])
  }

  function AfterPropose(c: Cluster, s: System, n: NodeId, cmd: Command): System
    requires n in s.nodes
  {
    var x := Propose(c, s.nodes[n], cmd);
    s.(nodes := s.nodes[n := x],
       termLog := s.termLog[x.term := x.log],
       acks := s.acks + {Ack(n, x.term, |x.log|)})
  }

  function AfterApply(s: System, n: NodeId): System
    requires n in s.nodes && s.nodes[n].lastApplied + 1 < |s.nodes[n].log|
  {
    s.(nodes := s.nodes[n := ApplyNext(s.nodes[n])])
  }

  ghost function Next(c: Cluster, s: System, step: Step): System
    requires Shaped(c, s.nodes) && Enabled(c, s, step)
  {
    match step
    case Timeout(n) => AfterTimeout(s, n)
    case DeliverVoteRequest(n, r) => AfterDeliverVoteRequest(s, n, r)
    case DeliverVoteReply(r) => AfterDeliverVoteReply(s, r)
    case WinElection(n) => AfterWin(c, s, n)
    case SendAppend(n, peer) => AfterSendAppend(s, n, peer)
    case DeliverAppend(r) => AfterDeliverAppend(s, r)
    case AnswerLate(r) => AfterAnswerLate(s, r)
    case DeliverAppendReply(r) => AfterDeliverAppendReply(c, s, r)
    case ProposeCommand(n, cmd) => AfterPropose(c, s, n, cmd)
    case Apply(n) => AfterApply(s, n)
  }

  /** `states` is a run: it starts fresh and `steps[k]` leads from `states[k]` to `states[k + 1]`. */
  ghost predicate IsRun(c: Cluster, states: seq<System>, steps: seq<Step>) {
    && c.members != {}
    && |states| == |steps| + 1
    && states[0] == Initial(c)
    && forall k | 0 <= k < |steps| :: StepAt(c, states, steps, k)
  }

  ghost predicate StepAt(c: Cluster, states: seq<System>, steps: seq<Step>, k: nat)
    requires k < |steps| < |states|
  {
    StepOf(c, states[k], steps[k], states[k + 1])
  }

  ghost predicate StepOf(c: Cluster, s: System, step: Step, s': System) {
    Shaped(c, s.nodes) && Enabled(c, s, step) && s' == Next(c, s, step)
  }
}
