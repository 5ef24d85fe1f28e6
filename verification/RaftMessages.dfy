/** What a node takes from the messages it hears, in every state and every cluster. */
module RaftMessages {
  import opened Commons
  import opened RaftTypes
  import opened RaftHandlers
  import opened RaftSystem

  /** The node that hears a message and the term that the message carries. */
  function Heard(step: Step): Option<(NodeId, nat)> {
    match step
    case DeliverVoteRequest(n, r) => Some((n, r.term))
    case DeliverVoteReply(r) => Some((r.candidate, r.term))
    case DeliverAppend(r) => Some((r.follower, r.term))
    case DeliverAppendReply(r) => Some((r.req.leader, r.term))
    case _ => None
  }

  /** A node is never behind the terms it has heard of, and a later term than its own makes it a follower. */
  lemma HearsTerms(c: Cluster, s: System, step: Step)
    requires Shaped(c, s.nodes) && Enabled(c, s, step) && Heard(step).Some?
    ensures var (n, t) := Heard(step).value;
      && n in s.nodes && n in Next(c, s, step).nodes
      && var x, y := s.nodes[n], Next(c, s, step).nodes[n];
      && y.term == (if t > x.term then t else x.term) && (t > x.term ==> y.role == Follower)
  {
    hide Shaped, UpToDate, CommitScan, Spliced;
  }

  /** A request that is not stale makes its receiver a follower of the sender, whether it is accepted or not. */
  lemma HearsLeader(c: Cluster, s: System, r: AppendRequest)
    requires Shaped(c, s.nodes) && Enabled(c, s, DeliverAppend(r)) && r.term >= s.nodes[r.follower].term
    ensures var y := Next(c, s, DeliverAppend(r)).nodes[r.follower];
      y.role == Follower && y.term == r.term && y.leaderId == Some(r.leader)
  {
    hide Shaped, Spliced;
  }

  /** No step lowers a term. */
  lemma TermsGrow(c: Cluster, s: System, step: Step, n: NodeId)
    requires Shaped(c, s.nodes) && Enabled(c, s, step) && n in s.nodes
    ensures n in Next(c, s, step).nodes && s.nodes[n].term <= Next(c, s, step).nodes[n].term
  {
    hide AfterVoteRequest, AfterVoteReply, AfterAppend, AfterAppendReply, HasWon, GrantsVote, Accepts;
    if Heard(step).Some? { HearsTerms(c, s, step); }
  }

  /** A vote that was given is given again to the same request, and to nobody else in that term. */
  lemma VoteIsKept(x: NodeState, r: VoteRequest, other: VoteRequest)
    requires |x.log| > 0 && GrantsVote(x, r) && other.term == r.term
    ensures var y := AfterVoteRequest(x, r);
      && y.term == r.term && y.votedFor == Some(r.candidate) && y.log == x.log
      && GrantsVote(y, r) && AfterVoteRequest(y, r) == y
      && (other.candidate != r.candidate ==> !GrantsVote(y, other))
  {
  }

  /** An answer to an empty request changes a leader's record of nobody: only the entries sent are recorded. */
  lemma AnswerRecords(c: Cluster, self: NodeId, x: NodeState, r: AppendReply)
    requires c.members != {} && |x.log| > 0 && x.role == Leader && r.term <= x.term && r.req.term == x.term && r.success
    ensures var y := AfterAppendReply(c, self, x, r);
      && (r.req.entries == [] ==> y.matchIndex == x.matchIndex && y.nextIndex == x.nextIndex)
      && (r.req.entries != [] ==>
            var last := r.req.entries[|r.req.entries| - 1].index;
            && y.matchIndex == x.matchIndex[r.req.follower := last]
            && y.nextIndex == x.nextIndex[r.req.follower := last + 1])
      && y.role == Leader && y.term == x.term && y.log == x.log && y.commitIndex >= x.commitIndex
  {
    hide CommitScan;
  }

  /** Whatever numbers the entries of an accepted request carry, in the log they are numbered by position; all
      else of them is kept, and so is the log before them. */
  lemma AcceptNumbers(x: NodeState, r: AppendRequest)
    requires Accepts(x, r)
    ensures var log := AfterAppend(x, r).log;
      && |log| == r.prevIndex + 1 + |r.entries| && log[..r.prevIndex + 1] == x.log[..r.prevIndex + 1]
      && forall j | 0 <= j < |r.entries| ::
        log[r.prevIndex + 1 + j] == Entry(r.entries[j].term, r.prevIndex + 1 + j, r.entries[j].command)
  {
  }
}
