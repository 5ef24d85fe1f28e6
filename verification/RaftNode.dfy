/** The node object of internal/raft/node.go: its handlers, with their loops, do to the fields
    exactly what the functions of `RaftHandlers` say. */
module RaftNode {
  import opened Commons
  import opened RaftTypes
  import opened RaftHandlers

  /** One request to each of the peers, as a leader in state `s` makes them. */
  ghost predicate IsRound(self: NodeId, requests: map<NodeId, AppendRequest>, s: NodeState, peers: set<NodeId>)
    requires |s.log| > 0
  {
    requests.Keys == peers && forall p | p in requests :: requests[p] == AppendFor(self, s, p, requests[p].seqNo)
  }

  lemma NothingSent(self: NodeId, s: NodeState)
    requires |s.log| > 0
    ensures AfterSends(s, {}) == s && IsRound(self, map[], s, {})
  {
    assert AfterSends(s, {}).nextIndex == s.nextIndex;
  }

  /** What goes to a peer depends only on the leader's log and that peer's next index. */
  lemma SendsOneMore(self: NodeId, s: NodeState, sent: set<NodeId>, p: NodeId, seqNo: nat)
    requires |s.log| > 0 && p !in sent
    ensures var t := AfterSends(s, sent);
      AfterSend(t, p) == AfterSends(s, sent + {p}) && AppendFor(self, t, p, seqNo) == AppendFor(self, s, p, seqNo)
  {
    var t := AfterSends(s, sent);
    assert AfterSend(t, p).nextIndex == AfterSends(s, sent + {p}).nextIndex;
  }

  lemma RoundOneMore(self: NodeId, requests: map<NodeId, AppendRequest>, s: NodeState, sent: set<NodeId>, p: NodeId,
        r: AppendRequest)
    requires |s.log| > 0 && IsRound(self, requests, s, sent) && r == AppendFor(self, s, p, r.seqNo)
    ensures IsRound(self, requests[p := r], s, sent + {p})
  {
  }

  /** The entries of a request that matches the log, and what they commit. */
  ghost function Taken(s: NodeState, r: AppendRequest): NodeState
    requires Matches(s.log, r)
  {
    s.(log := Spliced(s.log, r),
       commitIndex := if r.leaderCommit > s.commitIndex then Min(r.leaderCommit, r.Length() - 1) else s.commitIndex)
  }

  lemma AcceptTakes(s: NodeState, r: AppendRequest)
    requires Accepts(s, r)
    ensures AfterAppend(s, r) == Taken(Adopt(s, r), r) && SameProgress(s, Adopt(s, r))
  {
  }

  ghost predicate SameProgress(s: NodeState, t: NodeState) {
    t.log == s.log && t.commitIndex == s.commitIndex && t.lastApplied == s.lastApplied && t.applied == s.applied
  }

  /** The first requests of a leader carry nothing and start at the end of its log. */
  lemma FirstRound(c: Cluster, self: NodeId, s: NodeState, requests: map<NodeId, AppendRequest>)
    requires |s.log| > 0 && IsRound(self, requests, BecomeLeader(c, self, s), c.members - {self})
    ensures forall p | p in requests ::
      requests[p].entries == [] && requests[p].prevIndex == |s.log| - 1
      && requests[p].prevTerm == s.log[|s.log| - 1].term
  {
  }

  lemma SameHolders(c: Cluster, id: NodeId, s: NodeState, t: NodeState, index: nat)
    requires t == s.(commitIndex := t.commitIndex)
    ensures Holders(c, id, s, index) == Holders(c, id, t, index)
  {
  }

  lemma ScanBeyond(c: Cluster, id: NodeId, s: NodeState, hi: nat)
    requires c.members != {} && |s.log| > 0 && (hi == |s.log| - 1 || (hi == s.commitIndex && hi >= |s.log| - 1))
    ensures CommitScan(c, id, s, hi) == CommitScan(c, id, s, |s.log| - 1)
  {
  }

  class Node {
    const id: NodeId
    const cluster: Cluster
    var role: Role
    var currentTerm: nat
    var votedFor: Option<NodeId>
    var leaderId: Option<NodeId>
    var log: seq<Entry>
    var commitIndex: nat
    var lastApplied: nat
    var nextIndex: map<NodeId, nat>
    var matchIndex: map<NodeId, nat>
    var votes: set<NodeId>
    var applied: seq<Entry>

    function View(): NodeState
      reads this
    {
      NodeState(role, currentTerm, votedFor, leaderId, log, commitIndex, lastApplied, nextIndex, matchIndex, votes,
        applied)
    }

    ghost predicate Valid()
      reads this
    {
      |log| > 0 && id in cluster.members
    }

    function Peers(): set<NodeId> { cluster.members - {id} }

    constructor (id: NodeId, cluster: Cluster)
      requires id in cluster.members
      ensures Valid() && this.id == id && this.cluster == cluster && View() == NewNode()
    {
      this.id, this.cluster := id, cluster;
      role, currentTerm, votedFor, leaderId := Follower, 0, None, None;
      log := [SENTINEL];
      commitIndex, lastApplied := 0, 0;
      nextIndex, matchIndex := map[], map[];
      votes, applied := {}, [];
    }

    method StepDown(term: nat, leader: Option<NodeId>)
      modifies this
      ensures View() == BecomeFollower(old(View()), term, leader)
    {
      role := Follower;
      currentTerm := term;
      votedFor := None;
      leaderId := leader;
    }

    method StartElection() returns (r: VoteRequest)
      requires Valid()
      modifies this
      ensures Valid() && View() == RaftHandlers.StartElection(id, old(View())) && r == VoteRequestOf(id, View())
    {
      role := Candidate;
      currentTerm := currentTerm + 1;
      votedFor := Some(id);
      leaderId := None;
      votes := {id};
      r := VoteRequest(id, currentTerm, |log| - 1, log[|log| - 1].term);
    }

    method HandleRequestVote(r: VoteRequest) returns (reply: VoteReply)
      requires Valid()
      modifies this
      ensures Valid() && View() == AfterVoteRequest(old(View()), r)
      ensures reply == VoteReply(id, r.candidate, r.term, currentTerm, GrantsVote(old(View()), r))
    {
      if r.term < currentTerm {
        return VoteReply(id, r.candidate, r.term, currentTerm, false);
      }
      if r.term > currentTerm {
        StepDown(r.term, None);
      }
      var lastIndex, lastTerm := |log| - 1, log[|log| - 1].term;
      var upToDate := r.lastTerm > lastTerm || (r.lastTerm == lastTerm && r.lastIndex >= lastIndex);
      var canVote := (votedFor == None || votedFor == Some(r.candidate)) && upToDate;
      if canVote {
        votedFor := Some(r.candidate);
      }
      reply := VoteReply(id, r.candidate, r.term, currentTerm, canVote);
    }

    method HandleVoteReply(r: VoteReply)
      requires Valid()
      modifies this
      ensures Valid() && View() == AfterVoteReply(old(View()), r)
    {
      if r.term > currentTerm {
        StepDown(r.term, None);
        return;
      }
      if r.granted && role == Candidate && currentTerm == r.reqTerm {
        votes := votes + {r.voter};
      }
    }

    method TakeOffice(seqNo: nat) returns (requests: map<NodeId, AppendRequest>)
      requires Valid()
      modifies this
      ensures Valid() && View() == BecomeLeader(cluster, id, old(View()))
      ensures IsRound(id, requests, View(), Peers())
      ensures forall p | p in requests ::
        requests[p].entries == [] && requests[p].prevIndex == |log| - 1 && requests[p].prevTerm == log[|log| - 1].term
    {
      role := Leader;
      leaderId := Some(id);
      ResetPeers();
      assert View() == BecomeLeader(cluster, id, old(View()));
      NothingToClamp(View(), Peers());
      hide AfterSends, AppendFor, NextFor, BecomeLeader, IsRound;
      requests := Replicate(seqNo);
      FirstRound(cluster, id, old(View()), requests);
    }

    /** Every peer is assumed up to date and unconfirmed. */
    method ResetPeers()
      modifies `nextIndex, `matchIndex
      ensures nextIndex == map p | p in cluster.members - {id} :: |log|
      ensures matchIndex == map p | p in cluster.members - {id} :: 0
    {
      nextIndex, matchIndex := map[], map[];
      var next, todo := |log|, cluster.members;
      while todo != {}
        invariant todo <= cluster.members
        invariant nextIndex.Keys == cluster.members - todo - {id} && matchIndex.Keys == nextIndex.Keys
        invariant forall p | p in nextIndex :: nextIndex[p] == next && matchIndex[p] == 0
        decreases todo
      {
        var p :| p in todo;
        todo := todo - {p};
        if p == id { continue; }
        nextIndex := nextIndex[p := next];
        matchIndex := matchIndex[p := 0];
      }
    }

    method ClampNext(p: NodeId) returns (next: nat)
      requires Valid()
      modifies `nextIndex
      ensures next == NextFor(old(View()), p) && 1 <= next <= |log|
      ensures p !in old(nextIndex) || old(nextIndex)[p] == 0 || old(nextIndex)[p] > |log| ==> next == |log|
      ensures p in old(nextIndex) && 1 <= old(nextIndex)[p] <= |log| ==> next == old(nextIndex)[p]
      ensures nextIndex == old(nextIndex)[p := next]
    {
      next := if p in nextIndex then nextIndex[p] else 0;
      if next == 0 {
        next := |log|;
        nextIndex := nextIndex[p := next];
      }
      if next > |log| {
        next := |log|;
        nextIndex := nextIndex[p := next];
      }
    }

    method SendTo(p: NodeId, seqNo: nat) returns (r: AppendRequest)
      requires Valid()
      modifies `nextIndex
      ensures r == AppendFor(id, old(View()), p, seqNo) && r.seqNo == seqNo && View() == AfterSend(old(View()), p)
    {
      var next := ClampNext(p);
      r := AppendRequest(id, p, currentTerm, next - 1, log[next - 1].term, log[next..], commitIndex, seqNo);
    }

    /** One round of AppendEntries calls, one to each peer, numbered from `seqNo` on. */
    method Replicate(seqNo: nat) returns (requests: map<NodeId, AppendRequest>)
      requires Valid()
      modifies `nextIndex
      ensures IsRound(id, requests, old(View()), if role == Leader then Peers() else {})
      ensures View() == if role == Leader then AfterSends(old(View()), Peers()) else old(View())
    {
      requests := map[];
      NothingSent(id, View());
      if role != Leader { return; }
      var todo, n := cluster.members - {id}, seqNo;
      ghost var sent: set<NodeId> := {};
      hide AfterSends, AfterSend, AppendFor, IsRound;
      while todo != {}
        invariant todo + sent == Peers() && todo !! sent
        invariant IsRound(id, requests, old(View()), sent) && View() == AfterSends(old(View()), sent)
        decreases todo
      {
        var p :| p in todo;
        SendsOneMore(id, old(View()), sent, p, n);
        var r := SendTo(p, n);
        RoundOneMore(id, requests, old(View()), sent, p, r);
        todo, sent := todo - {p}, sent + {p};
        requests := requests[p := r];
        n := n + 1;
      }
    }

    /** One turn of the apply loop: what it does between two times it gives up the lock. */
    method ApplyOne() returns (crashed: bool)
      requires Valid() && lastApplied < commitIndex
      modifies `lastApplied, `applied
      ensures crashed == !ReadsInLog(old(View()))
      ensures View() == if crashed then old(View()) else ApplyNext(old(View()))
    {
      if lastApplied + 1 >= |log| { return true; }
      lastApplied := lastApplied + 1;
      applied := applied + [log[lastApplied]];
      crashed := false;
    }

    method ApplyCommitted() returns (crashed: bool)
      requires Valid()
      modifies `lastApplied, `applied
      ensures View() == ApplyAll(old(View())) && crashed == !ReadsInLog(View())
    {
      crashed := false;
      while lastApplied < commitIndex
        invariant ApplyAll(View()) == ApplyAll(old(View()))
      {
        ApplyAllNext(View());
        hide ApplyAll;
        crashed := ApplyOne();
        if crashed { break; }
      }
    }

    /** Truncates after `prevIndex`, then appends, renumbering each entry by its position. */
    method Splice(r: AppendRequest)
      requires r.prevIndex < |log|
      modifies `log
      ensures log == Spliced(old(log), r)
    {
      var insertAt := r.prevIndex + 1;
      if insertAt < |log| {
        log := log[..insertAt];
      }
      assert log == old(log)[..insertAt];
      for i := 0 to |r.entries|
        invariant log == old(log)[..insertAt] + Renumbered(r.entries, insertAt)[..i]
      {
        log := log + [r.entries[i].(index := |log|)];
      }
    }

    /** Appends what a request that matches the log brings, and applies what it commits. */
    method TakeEntries(r: AppendRequest)
      requires Valid() && Matches(log, r)
      modifies `log, `commitIndex, `lastApplied, `applied
      ensures Valid()
      ensures View() == if r.leaderCommit > old(commitIndex) then ApplyAll(Taken(old(View()), r))
                        else Taken(old(View()), r)
      ensures |log| == r.Length() && commitIndex >= Min(r.leaderCommit, |log| - 1)
      ensures r.leaderCommit > old(commitIndex) ==> lastApplied >= commitIndex
      ensures r.leaderCommit > old(commitIndex) && old(lastApplied) < commitIndex ==>
        lastApplied == commitIndex < |log| && applied == old(applied) + log[old(lastApplied) + 1..commitIndex + 1]
    {
      hide Spliced;
      Splice(r);
      if r.leaderCommit > commitIndex {
        commitIndex := Min(r.leaderCommit, |log| - 1);
        var crashed := ApplyCommitted();
        assert !crashed;
      }
    }

    method HandleAppendEntries(r: AppendRequest) returns (reply: AppendReply)
      requires Valid()
      modifies this
      ensures Valid()
      ensures View() == if Accepts(old(View()), r) && r.leaderCommit > old(commitIndex)
                        then ApplyAll(AfterAppend(old(View()), r)) else AfterAppend(old(View()), r)
      ensures reply == AppendReply(r, currentTerm, Accepts(old(View()), r))
      ensures reply.success ==> |log| == r.Length() && commitIndex >= Min(r.leaderCommit, |log| - 1)
      ensures reply.success && r.leaderCommit > old(commitIndex) ==> lastApplied >= commitIndex
      ensures reply.success && r.leaderCommit > old(commitIndex) && old(lastApplied) < commitIndex ==>
        lastApplied == commitIndex < |log| && applied == old(applied) + log[old(lastApplied) + 1..commitIndex + 1]
    {
      if r.term < currentTerm {
        return AppendReply(r, currentTerm, false);
      }
      if r.term > currentTerm || role != Follower {
        StepDown(r.term, Some(r.leader));
      } else {
        leaderId := Some(r.leader);
      }
      if r.prevIndex >= |log| {
        return AppendReply(r, currentTerm, false);
      }
      if log[r.prevIndex].term != r.prevTerm {
        return AppendReply(r, currentTerm, false);
      }
      AcceptTakes(old(View()), r);
      assert View() == Adopt(old(View()), r);
      hide Taken, AfterAppend, ApplyAll, Adopt;
      TakeEntries(r);
      reply := AppendReply(r, currentTerm, true);
    }

    method CountHolders(index: nat) returns (count: nat)
      requires Valid()
      ensures count == |Holders(cluster, id, View(), index)|
    {
      count := 1;
      var todo := cluster.members;
      ghost var counted: set<NodeId> := {id};
      while todo != {}
        invariant todo <= cluster.members && count == |counted|
        invariant counted == {id} + set p | p in cluster.members && p !in todo
          && p in Holders(cluster, id, View(), index)
        decreases todo
      {
        var p :| p in todo;
        todo := todo - {p};
        if p == id { continue; }
        if p in matchIndex && matchIndex[p] >= index {
          count := count + 1;
          counted := counted + {p};
        }
      }
      assert counted == Holders(cluster, id, View(), index);
    }

    /** The commit index moves to the greatest index of the current term that enough nodes hold. */
    method AdvanceCommit()
      requires Valid()
      modifies `commitIndex
      ensures View() == Advance(cluster, id, old(View()))
    {
      hide Holders;
      var index := commitIndex + 1;
      while index < |log|
        invariant old(commitIndex) + 1 <= index && (index <= |log| || index == old(commitIndex) + 1)
        invariant commitIndex == CommitScan(cluster, id, old(View()), index - 1)
        decreases |log| - index
      {
        if log[index].term == currentTerm {
          var count := CountHolders(index);
          SameHolders(cluster, id, old(View()), View(), index);
          if count >= cluster.Majority() {
            commitIndex := index;
          }
        }
        index := index + 1;
      }
      ScanBeyond(cluster, id, old(View()), index - 1);
    }

    method HandleAppendReply(r: AppendReply, seqNo: nat)
      returns (crashed: bool, requests: map<NodeId, AppendRequest>)
      requires Valid() && r.req.leader == id
      modifies this
      ensures Valid()
      ensures var next := AfterAppendReply(cluster, id, old(View()), r);
        if r.term <= old(currentTerm) && old(role) == Leader && r.req.term == old(currentTerm) then
          var settled := if r.success then ApplyAll(next) else next;
          && crashed == (r.success && !ReadsInLog(settled))
          && View() == (if crashed then settled else AfterSends(settled, Peers()))
          && (if crashed then requests == map[] else IsRound(id, requests, settled, Peers()))
        else View() == next && requests == map[] && !crashed
    {
      crashed, requests := false, map[];
      if r.term > currentTerm {
        StepDown(r.term, None);
        return;
      }
      if role != Leader || r.req.term != currentTerm { return; }
      if !r.success {
        Retreat(r.req.follower);
      } else {
        crashed := Credit(r.req);
        if crashed { return; }
      }
      hide AfterSends, IsRound, ApplyAll, BackOff, Advance, Record;
      requests := Replicate(seqNo);
    }

    /** A refused request is tried again one entry earlier. */
    method Retreat(peer: NodeId)
      modifies `nextIndex
      ensures View() == BackOff(old(View()), peer)
    {
      if peer in nextIndex && nextIndex[peer] > 1 {
        nextIndex := nextIndex[peer := nextIndex[peer] - 1];
      }
    }

    /** An accepted request is recorded, and what it commits is applied. */
    method Credit(r: AppendRequest) returns (crashed: bool)
      requires Valid()
      modifies `matchIndex, `nextIndex, `commitIndex, `lastApplied, `applied
      ensures Valid() && View() == ApplyAll(Advance(cluster, id, Record(old(View()), r)))
      ensures crashed == !ReadsInLog(View())
    {
      if |r.entries| > 0 {
        var lastIndex := r.entries[|r.entries| - 1].index;
        matchIndex := matchIndex[r.follower := lastIndex];
        nextIndex := nextIndex[r.follower := lastIndex + 1];
      }
      AdvanceCommit();
      crashed := ApplyCommitted();
    }

    method Submit(cmd: Command, seqNo: nat) returns (accepted: bool, requests: map<NodeId, AppendRequest>)
      requires Valid()
      modifies this
      ensures Valid() && accepted == (old(role) == Leader)
      ensures var next := Propose(cluster, old(View()), cmd);
        if !accepted then View() == old(View()) && requests == map[]
        else if |cluster.members| == 1 then View() == ApplyAll(next) && requests == map[]
        else View() == AfterSends(next, Peers()) && IsRound(id, requests, next, Peers())
      ensures accepted ==> log == old(log) + [Entry(currentTerm, |old(log)|, cmd)]
      ensures accepted && cluster.members == {id} && old(lastApplied) < |old(log)| ==>
        && lastApplied == commitIndex == |log| - 1
        && applied != [] && applied[|applied| - 1] == Entry(currentTerm, |old(log)|, cmd)
    {
      requests := map[];
      if role != Leader { return false, requests; }
      var index := |log|;
      log := log + [Entry(currentTerm, index, cmd)];
      if |cluster.members| == 1 {
        commitIndex := index;
        var crashed := ApplyCommitted();
        assert !crashed;
      } else {
        requests := Replicate(seqNo);
      }
      accepted := true;
    }
  }
}
