/** Data of the Raft core: log entries, messages and the fields of one node
    (internal/raft/command.go, rpc.go and the Node struct of node.go). */
module RaftTypes {
  import opened Commons

  /** Node identifiers are only ever compared, so any countable type will do. */
  type NodeId = nat

  datatype Command = Noop | AddMember(member: NodeId, addr: string) | RemoveMember(gone: NodeId)

  datatype Entry = Entry(term: nat, index: nat, command: Command)

  /** The entry every log starts with. */
  const SENTINEL := Entry(0, 0, Noop)

  datatype Role = Follower | Candidate | Leader

  /** The fields of one node. `votes` is the vote counter of the node's latest
      election, `applied` the entries handed to the state machine so far, in order. */
  datatype NodeState = NodeState(
    role: Role,
    term: nat,
    votedFor: Option<NodeId>,
    leaderId: Option<NodeId>,
    log: seq<Entry>,
    commitIndex: nat,
    lastApplied: nat,
    nextIndex: map<NodeId, nat>,
    matchIndex: map<NodeId, nat>,
    votes: set<NodeId>,
    applied: seq<Entry>)

  /** A RequestVote call goes unchanged to every peer, so it names no receiver. */
  datatype VoteRequest = VoteRequest(candidate: NodeId, term: nat, lastIndex: nat, lastTerm: nat)

  datatype VoteReply = VoteReply(voter: NodeId, candidate: NodeId, reqTerm: nat, term: nat, granted: bool)

  /** An AppendEntries call. `seqNo` is its position among all calls sent; the code
      does not carry it, and no handler reads it. */
  datatype AppendRequest = AppendRequest(
    leader: NodeId,
    follower: NodeId,
    term: nat,
    prevIndex: nat,
    prevTerm: nat,
    entries: seq<Entry>,
    leaderCommit: nat,
    seqNo: nat)
  {
    /** Length of the leader's log when the call was made: the call carries the whole suffix. */
    function Length(): nat { prevIndex + 1 + |entries| }
  }

  datatype AppendReply = AppendReply(req: AppendRequest, term: nat, success: bool)

  /** A fixed set of voting nodes. `selfListed` says whether each node's peer map
      also lists the node itself; the shipped start-up code leaves it out. */
  datatype Cluster = Cluster(members: set<NodeId>, selfListed: bool)
  {
    function PeerCount(): nat
      requires members != {}
    {
      if selfListed then |members| else |members| - 1
    }

    /** `len(peers)/2 + 1`, the threshold for both votes and replicas. */
    function Majority(): nat
      requires members != {}
    {
      PeerCount() / 2 + 1
    }
  }
}
