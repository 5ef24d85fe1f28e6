/** What each handler of internal/raft/node.go does to the fields of its node,
    as functions on `NodeState`. `RaftNode` proves the imperative handlers equal to these. */
module RaftHandlers {
  import opened Commons
  import opened RaftTypes

  function LastTerm(log: seq<Entry>): nat
    requires |log| > 0
  {
    log[|log| - 1].term
  }

  function NewNode(): NodeState {
    NodeState(Follower, 0, None, None, [SENTINEL], 0, 0, map[], map[], {}, [])
  }

  /** The vote is forgotten even when the term stays the same. */
  function BecomeFollower(s: NodeState, term: nat, leader: Option<NodeId>): NodeState {
    s.(role := Follower, term := term, votedFor := None, leaderId := leader)
  }

  // Elections

  function StartElection(self: NodeId, s: NodeState): NodeState {
    s.(role := Candidate, term := s.term + 1, votedFor := Some(self), leaderId := None, votes := {self})
  }

  function VoteRequestOf(self: NodeId, s: NodeState): VoteRequest
    requires |s.log| > 0
  {
    VoteRequest(self, s.term, |s.log| - 1, LastTerm(s.log))
  }

  predicate UpToDate(r: VoteRequest, log: seq<Entry>)
    requires |log| > 0
  {
    r.lastTerm > LastTerm(log) || (r.lastTerm == LastTerm(log) && r.lastIndex >= |log| - 1)
  }

  function CatchUp(s: NodeState, r: VoteRequest): NodeState {
    if r.term > s.term then BecomeFollower(s, r.term, None) else s
  }

  predicate GrantsVote(s: NodeState, r: VoteRequest)
    requires |s.log| > 0
  {
    var t := CatchUp(s, r);
    r.term >= s.term && (t.votedFor == None || t.votedFor == Some(r.candidate)) && UpToDate(r, s.log)
  }

  function AfterVoteRequest(s: NodeState, r: VoteRequest): NodeState
    requires |s.log| > 0
  {
    if GrantsVote(s, r) then CatchUp(s, r).(votedFor := Some(r.candidate)) else CatchUp(s, r)
  }

  /** A vote only counts for the election it was asked for. */
  function AfterVoteReply(s: NodeState, r: VoteReply): NodeState {
    if r.term > s.term then BecomeFollower(s, r.term, None)
    else if r.granted && s.role == Candidate && s.term == r.reqTerm then s.(votes := s.votes + {r.voter})
    else s
  }

  /** The counter is compared with the threshold only when a vote arrives, so a node
      with peers never wins on its own vote alone. */
  predicate HasWon(c: Cluster, s: NodeState)
    requires c.members != {}
  {
    s.role == Candidate && (|c.members| == 1 || (|s.votes| >= 2 && |s.votes| >= c.Majority()))
  }

  function BecomeLeader(c: Cluster, self: NodeId, s: NodeState): NodeState {
    s.(role := Leader,
       leaderId := Some(self),
       nextIndex := map p | p in c.members - {self} :: |s.log|,
       matchIndex := map p | p in c.members - {self} :: 0)
  }

  // Replication

  function NextFor(s: NodeState, peer: NodeId): (next: nat) {
    if peer in s.nextIndex && 0 < s.nextIndex[peer] <= |s.log| then s.nextIndex[peer] else |s.log|
  }

  function AppendFor(self: NodeId, s: NodeState, peer: NodeId, seqNo: nat): AppendRequest
    requires |s.log| > 0
  {
    var next := NextFor(s, peer);
    AppendRequest(self, peer, s.term, next - 1, s.log[next - 1].term, s.log[next..], s.commitIndex, seqNo)
  }

  function AfterSend(s: NodeState, peer: NodeId): NodeState {
    s.(nextIndex := s.nextIndex[peer := NextFor(s, peer)])
  }

  /** After a round of requests, one to each of the peers. */
  function AfterSends(s: NodeState, peers: set<NodeId>): NodeState {
    s.(nextIndex := map p | p in s.nextIndex.Keys + peers :: if p in peers then NextFor(s, p) else s.nextIndex[p])
  }

  /** Next indexes within the log are used as they are. */
  lemma NothingToClamp(s: NodeState, peers: set<NodeId>)
    requires forall p | p in peers :: p in s.nextIndex && 0 < s.nextIndex[p] <= |s.log|
    ensures AfterSends(s, peers) == s
  {
    assert AfterSends(s, peers).nextIndex == s.nextIndex;
  }

  function Adopt(s: NodeState, r: AppendRequest): NodeState {
    if r.term > s.term || s.role != Follower then BecomeFollower(s, r.term, Some(r.leader))
    else s.(leaderId := Some(r.leader))
  }

  predicate Matches(log: seq<Entry>, r: AppendRequest) {
    r.prevIndex < |log| && log[r.prevIndex].term == r.prevTerm
  }

  predicate Accepts(s: NodeState, r: AppendRequest) {
    r.term >= s.term && Matches(s.log, r)
  }

  /** Appended entries are renumbered by position. */
  function Renumbered(entries: seq<Entry>, first: nat): (es: seq<Entry>)
    ensures |es| == |entries|
  {
    seq(|entries|, j requires 0 <= j < |entries| => entries[j].(index := first + j))
  }

  /** Everything after `prevIndex` is dropped before the new entries go in. */
  function Spliced(log: seq<Entry>, r: AppendRequest): (l: seq<Entry>)
    requires r.prevIndex < |log|
    ensures |l| == r.Length()
  {
    log[..r.prevIndex + 1] + Renumbered(r.entries, r.prevIndex + 1)
  }

  function Min(a: nat, b: nat): nat { if a < b then a else b }

  function AfterAppend(s: NodeState, r: AppendRequest): NodeState {
    if r.term < s.term then s
    else if !Matches(s.log, r) then Adopt(s, r)
    else Adopt(s, r).(log := Spliced(s.log, r),
                      commitIndex := if r.leaderCommit > s.commitIndex
                                     then Min(r.leaderCommit, r.Length() - 1) else s.commitIndex)
  }

  /** The peers whose recorded match covers `index`, and the leader itself. */
  function Holders(c: Cluster, self: NodeId, s: NodeState, index: nat): set<NodeId> {
    {self} + set p | p in c.members && p != self && p in s.matchIndex && s.matchIndex[p] >= index
  }

  predicate Committable(c: Cluster, self: NodeId, s: NodeState, index: nat)
    requires c.members != {}
  {
    0 < index < |s.log| && s.log[index].term == s.term && |Holders(c, self, s, index)| >= c.Majority()
  }

  /** The greatest committable index at most `hi`, or the old commit index. */
  function CommitScan(c: Cluster, self: NodeId, s: NodeState, hi: nat): (index: nat)
    requires c.members != {}
    ensures index == s.commitIndex || s.commitIndex < index < |s.log|
  {
    if hi <= s.commitIndex then s.commitIndex
    else if Committable(c, self, s, hi) then hi
    else CommitScan(c, self, s, hi - 1)
  }

  function Advance(c: Cluster, self: NodeId, s: NodeState): NodeState
    requires c.members != {} && |s.log| > 0
  {
    s.(commitIndex := CommitScan(c, self, s, |s.log| - 1))
  }

  function Record(s: NodeState, r: AppendRequest): NodeState {
    if r.entries == [] then s
    else
      var last := r.entries[|r.entries| - 1].index;
      s.(matchIndex := s.matchIndex[r.follower := last], nextIndex := s.nextIndex[r.follower := last + 1])
  }

  function BackOff(s: NodeState, peer: NodeId): NodeState {
    if peer in s.nextIndex && s.nextIndex[peer] > 1
    then s.(nextIndex := s.nextIndex[peer := s.nextIndex[peer] - 1]) else s
  }

  function AfterAppendReply(c: Cluster, self: NodeId, s: NodeState, r: AppendReply): NodeState
    requires c.members != {} && |s.log| > 0
  {
    if r.term > s.term then BecomeFollower(s, r.term, None)
    else if s.role != Leader || r.req.term != s.term then s
    else if !r.success then BackOff(s, r.req.follower)
    else Advance(c, self, Record(s, r.req))
  }

  // Proposals and the state machine

  /** A node without peers commits at once. */
  function Propose(c: Cluster, s: NodeState, cmd: Command): NodeState {
    s.(log := s.log + [Entry(s.term, |s.log|, cmd)],
       commitIndex := if |c.members| == 1 then |s.log| else s.commitIndex)
  }

  function ApplyNext(s: NodeState): NodeState
    requires s.lastApplied + 1 < |s.log|
  {
    s.(lastApplied := s.lastApplied + 1, applied := s.applied + [s.log[s.lastApplied + 1]])
  }

  /** What the apply loop reads next, if anything, is in the log; otherwise the node goes down. */
  predicate ReadsInLog(s: NodeState) {
    s.lastApplied < s.commitIndex ==> s.lastApplied + 1 < |s.log|
  }

  /** The apply loop run as far as the commit index and the log go. */
  function ApplyAll(s: NodeState): NodeState
    requires |s.log| > 0
  {
    var stop := Min(s.commitIndex, |s.log| - 1);
    if s.lastApplied < stop
    then s.(lastApplied := stop, applied := s.applied + s.log[s.lastApplied + 1..stop + 1]) else s
  }

  /** A turn of the apply loop leaves the rest of it to do. */
  lemma ApplyAllNext(x: NodeState)
    requires |x.log| > 0 && x.lastApplied < x.commitIndex
    ensures if ReadsInLog(x) then ApplyAll(x) == ApplyAll(ApplyNext(x)) else ApplyAll(x) == x
  {
    if ReadsInLog(x) {
      var i, k := x.lastApplied + 1, Min(x.commitIndex, |x.log| - 1) + 1;
      assert x.applied + [x.log[i]] + x.log[i + 1..k] == x.applied + x.log[i..k];
      if i + 1 == k { assert x.log[i..k] == [x.log[i]]; }
    }
  }
}
