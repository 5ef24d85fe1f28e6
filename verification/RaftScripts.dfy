/** Building blocks of concrete runs: elections in which nobody has an entry yet, and a leader that
    proposes commands, brings them to some followers and commits them. */
module RaftScripts {
  import opened Commons
  import opened RaftTypes
  import opened RaftHandlers
  import opened RaftSystem
  import opened RaftRuns
  import opened RaftVoting

  // Elections

  /** A node whose log and state machine are still empty. */
  ghost predicate Blank(x: NodeState) {
    x.log == [SENTINEL] && x.commitIndex == 0 && x.lastApplied == 0 && x.applied == []
  }

  /** Followers with an empty log that have not reached term `t`. */
  ghost predicate Idle(s: System, voters: set<NodeId>, t: nat) {
    forall v | v in voters :: v in s.nodes && s.nodes[v].role == Follower && s.nodes[v].term < t && Blank(s.nodes[v])
  }

  /** Followers of term `t` that hold just `entries`, uncommitted. */
  ghost predicate Hold(s: System, nodes: set<NodeId>, t: nat, entries: seq<Entry>) {
    forall v | v in nodes :: v in s.nodes && Holds(s.nodes[v], t, entries)
  }

  ghost predicate Holds(x: NodeState, t: nat, entries: seq<Entry>) {
    && x.role == Follower && x.term == t && x.log == [SENTINEL] + entries
    && x.commitIndex == 0 && x.lastApplied == 0 && x.applied == []
  }

  lemma StillIdle(s: System, s': System, except: set<NodeId>, voters: set<NodeId>, t: nat)
    requires Untouched(s, s', except) && Idle(s, voters, t) && voters !! except
    ensures Idle(s', voters, t)
  {
  }

  lemma StillHold(s: System, s': System, except: set<NodeId>, nodes: set<NodeId>, t: nat, entries: seq<Entry>)
    requires Untouched(s, s', except) && Hold(s, nodes, t, entries) && nodes !! except
    ensures Hold(s', nodes, t, entries)
  {
  }

  // Proposals

  /** The entries a leader of term `t` with an empty log makes of `cmds`. */
  ghost function Proposed(t: nat, cmds: seq<Command>): (es: seq<Entry>)
    ensures |es| == |cmds| && forall i | 0 <= i < |es| :: es[i] == Entry(t, i + 1, cmds[i])
  {
    seq(|cmds|, i requires 0 <= i < |cmds| => Entry(t, i + 1, cmds[i]))
  }

  /** A leader of term `t` that has proposed `cmds` and nothing else, and brought them to nobody. */
  ghost predicate Poised(c: Cluster, a: NodeId, x: NodeState, t: nat, cmds: seq<Command>) {
    && x.role == Leader && x.term == t && x.log == [SENTINEL] + Proposed(t, cmds)
    && x.commitIndex == 0 && x.lastApplied == 0 && x.applied == []
    && forall p | p in c.members - {a} :: p in x.nextIndex && x.nextIndex[p] == 1
  }

  lemma WinnerPoised(c: Cluster, a: NodeId, x: NodeState)
    requires Blank(x)
    ensures Poised(c, a, BecomeLeader(c, a, x), x.term, [])
  {
    assert [SENTINEL] + Proposed(x.term, []) == [SENTINEL];
  }

  /** With the votes of enough idle nodes a node takes over. */
  lemma Elect(c: Cluster, d: Delivery, s: System, a: NodeId, voters: set<NodeId>, t: nat) returns (s': System)
    requires Reaches(c, d, s) && Shaped(c, s.nodes) && a in s.nodes && a !in voters && Idle(s, voters, t)
    requires s.nodes[a].role == Follower && Blank(s.nodes[a]) && t == s.nodes[a].term + 1
    requires |voters| >= 1 && |voters| + 1 >= c.Majority()
    ensures Reaches(c, d, s') && Shaped(c, s'.nodes) && Untouched(s, s', voters + {a})
    ensures s'.appendRequests == s.appendRequests
    ensures a in s'.nodes && Poised(c, a, s'.nodes[a], t, []) && Hold(s', voters, t, [])
  {
    hide Reaches, Shaped, Untouched, Poised;
    MembersThere(c, s);
    var x := StartElection(a, s.nodes[a]);
    IdleReady(s, voters, t, a);
    s' := ElectFrom(c, d, s, a, voters);
    WinnerPoised(c, a, x.(votes := {a} + voters));
    IdleHolds(s, s', voters, t, a);
  }

  lemma IdleReady(s: System, voters: set<NodeId>, t: nat, a: NodeId)
    requires Idle(s, voters, t) && a in s.nodes && Blank(s.nodes[a]) && a !in voters && t == s.nodes[a].term + 1
    ensures Ready(s, voters, VoteRequestOf(a, StartElection(a, s.nodes[a])))
  {
  }

  lemma IdleHolds(s: System, s': System, voters: set<NodeId>, t: nat, a: NodeId)
    requires Idle(s, voters, t) && a in s.nodes && Blank(s.nodes[a]) && a !in voters && t == s.nodes[a].term + 1
    requires Voted(s, s', voters, VoteRequestOf(a, StartElection(a, s.nodes[a])))
    ensures Hold(s', voters, t, [])
  {
    assert [SENTINEL] + [] == [SENTINEL];
  }

  lemma ProposeOne(c: Cluster, a: NodeId, x: NodeState, t: nat, cmds: seq<Command>, cmd: Command)
    requires |c.members| > 1 && Poised(c, a, x, t, cmds)
    ensures Poised(c, a, Propose(c, x, cmd), t, cmds + [cmd])
  {
    assert Proposed(t, cmds + [cmd]) == Proposed(t, cmds) + [Entry(t, |cmds| + 1, cmd)];
  }

  lemma {:induction false} ProposeAll(c: Cluster, d: Delivery, s: System, a: NodeId, t: nat, cmds: seq<Command>)
    returns (s': System)
    requires Reaches(c, d, s) && Shaped(c, s.nodes) && |c.members| > 1 && a in s.nodes
    requires Poised(c, a, s.nodes[a], t, [])
    ensures Reaches(c, d, s') && Shaped(c, s'.nodes) && Untouched(s, s', {a}) && s'.appendRequests == s.appendRequests
    ensures a in s'.nodes && Poised(c, a, s'.nodes[a], t, cmds)
    decreases |cmds|
  {
    hide Reaches, Shaped, Proposed;
    if cmds == [] {
      s' := s;
    } else {
      var k := |cmds| - 1;
      var s1 := ProposeAll(c, d, s, a, t, cmds[..k]);
      ReachesNext(c, d, s1, ProposeCommand(a, cmds[k]));
      s' := AfterPropose(c, s1, a, cmds[k]);
      ProposeOne(c, a, s1.nodes[a], t, cmds[..k], cmds[k]);
      assert cmds[..k] + [cmds[k]] == cmds;
    }
  }

  // Replication

  ghost predicate IsFrom(r: AppendRequest, a: NodeId, p: NodeId, t: nat, entries: seq<Entry>) {
    r.leader == a && r.follower == p && r.term == t && r.entries == entries
    && r.prevIndex == 0 && r.prevTerm == 0 && r.leaderCommit == 0
  }

  /** A leader that has committed nothing sends all it has. */
  lemma SendOne(c: Cluster, d: Delivery, s: System, a: NodeId, p: NodeId, t: nat, cmds: seq<Command>)
    returns (s': System, r: AppendRequest)
    requires Reaches(c, d, s) && Shaped(c, s.nodes) && a in s.nodes && p in c.members - {a}
    requires Poised(c, a, s.nodes[a], t, cmds)
    ensures Reaches(c, d, s') && Shaped(c, s'.nodes) && s'.nodes == s.nodes && s'.appendReplies == s.appendReplies
    ensures s'.appendRequests == s.appendRequests + {r} && IsFrom(r, a, p, t, Proposed(t, cmds))
    ensures Prompt(d, s', DeliverAppend(r))
  {
    hide Reaches;
    var x := s.nodes[a];
    ReachesNext(c, d, s, SendAppend(a, p));
    s', r := AfterSendAppend(s, a, p), AppendFor(a, x, p, s.sent);
    assert x.nextIndex[p := 1] == x.nextIndex;
    assert s.nodes[a := x] == s.nodes;
    assert x.log[1..] == Proposed(t, cmds);
  }

  /** A follower of the leader's term takes over the leader's log, whatever it held. */
  lemma TakeOne(c: Cluster, d: Delivery, s: System, r: AppendRequest, a: NodeId, p: NodeId, t: nat, held: seq<Entry>,
        cmds: seq<Command>)
    returns (s': System)
    requires Reaches(c, d, s) && Shaped(c, s.nodes) && r in s.appendRequests && IsFrom(r, a, p, t, Proposed(t, cmds))
    requires p in s.nodes && Holds(s.nodes[p], t, held) && Prompt(d, s, DeliverAppend(r))
    ensures Reaches(c, d, s') && Shaped(c, s'.nodes) && Untouched(s, s', {p}) && s'.appendRequests == s.appendRequests
    ensures Hold(s', {p}, t, Proposed(t, cmds)) && s'.appendReplies == s.appendReplies + {AppendReply(r, t, true)}
  {
    hide Reaches;
    s' := AfterDeliverAppend(s, r);
    ReachesNext(c, d, s, DeliverAppend(r));
    hide Shaped;
    assert s.nodes[p].log[..1] == [SENTINEL];
    assert Renumbered(r.entries, 1) == Proposed(t, cmds);
  }

  ghost predicate Answered(replies: set<AppendReply>, a: NodeId, t: nat, peers: set<NodeId>, entries: seq<Entry>) {
    forall p | p in peers :: exists r :: AppendReply(r, t, true) in replies && IsFrom(r, a, p, t, entries)
  }

  lemma AnsweredMore(replies: set<AppendReply>, more: set<AppendReply>, a: NodeId, t: nat, peers: set<NodeId>,
        entries: seq<Entry>, p: NodeId, r: AppendRequest)
    requires Answered(replies, a, t, peers, entries) && replies <= more
    requires AppendReply(r, t, true) in more && IsFrom(r, a, p, t, entries)
    ensures Answered(more, a, t, peers + {p}, entries)
  {
    forall q | q in peers + {p} ensures exists r :: AppendReply(r, t, true) in more && IsFrom(r, a, q, t, entries) {
      if q in peers {
        var r' :| AppendReply(r', t, true) in replies && IsFrom(r', a, q, t, entries);
        assert AppendReply(r', t, true) in more;
      }
    }
  }

  /** The leader sends to its followers one by one, and each takes over its log at once. */
  lemma {:induction false} SpreadAll(c: Cluster, d: Delivery, s: System, a: NodeId, t: nat, peers: set<NodeId>,
        cmds: seq<Command>)
    returns (s': System)
    requires Reaches(c, d, s) && Shaped(c, s.nodes) && a in s.nodes && peers <= c.members - {a}
    requires Poised(c, a, s.nodes[a], t, cmds) && Hold(s, peers, t, [])
    ensures Reaches(c, d, s') && Shaped(c, s'.nodes) && Untouched(s, s', peers)
    ensures s.appendRequests <= s'.appendRequests && Hold(s', peers, t, Proposed(t, cmds))
    ensures Answered(s'.appendReplies, a, t, peers, Proposed(t, cmds))
    decreases peers
  {
    hide Reaches, Shaped, Holds, IsFrom, Poised, Untouched, Answered, Prompt;
    if peers == {} {
      s' := s;
      NothingYet(s, a, t, Proposed(t, cmds));
    } else {
      var p :| p in peers;
      var rest := peers - {p};
      var s1 := SpreadAll(c, d, s, a, t, rest, cmds);
      UntouchedAt(s, s1, rest, a);
      UntouchedAt(s, s1, rest, p) by { MembersThere(c, s); }
      var s2, r := SendOne(c, d, s1, a, p, t, cmds);
      s' := TakeOne(c, d, s2, r, a, p, t, [], cmds);
      SameNodesUntouched(s1, s2, s', {p});
      UntouchedBoth(s, s1, s', rest, {p});
      AnsweredMore(s1.appendReplies, s'.appendReplies, a, t, rest, Proposed(t, cmds), p, r);
      StillHold(s1, s', {p}, rest, t, Proposed(t, cmds));
      assert rest + {p} == peers;
    }
  }

  lemma NothingYet(s: System, a: NodeId, t: nat, entries: seq<Entry>)
    ensures Answered(s.appendReplies, a, t, {}, entries) && Untouched(s, s, {})
  {
  }

  lemma SameNodesUntouched(s: System, s': System, s'': System, except: set<NodeId>)
    requires s'.nodes == s.nodes && Untouched(s', s'', except)
    ensures Untouched(s, s'', except)
  {
  }

  // The leader counts the answers

  /** The leader holds `entries` of its term and has recorded the answers of `done`. */
  ghost predicate Counting(c: Cluster, x: NodeState, t: nat, entries: seq<Entry>, done: set<NodeId>)
    requires c.members != {}
  {
    && x.role == Leader && x.term == t && x.log == [SENTINEL] + entries
    && x.commitIndex <= |entries| && x.lastApplied == 0 && x.applied == []
    && (forall p | p in done :: p in x.matchIndex && x.matchIndex[p] == |entries|)
    && (forall p | p in done :: p in x.nextIndex && x.nextIndex[p] == |entries| + 1)
    && (done != {} && |done| + 1 >= c.Majority() ==> x.commitIndex == |entries|)
  }

  /** When enough followers hold the last entry, the scan ends there. */
  lemma EnoughHold(c: Cluster, a: NodeId, x: NodeState, done: set<NodeId>)
    requires a in c.members && done <= c.members - {a} && |done| + 1 >= c.Majority() && |x.log| > 1
    requires x.commitIndex < |x.log| && x.log[|x.log| - 1].term == x.term
    requires forall p | p in done :: p in x.matchIndex && x.matchIndex[p] == |x.log| - 1
    ensures CommitScan(c, a, x, |x.log| - 1) == |x.log| - 1
  {
    SubsetCard(done + {a}, Holders(c, a, x, |x.log| - 1));
    assert |done + {a}| == |done| + 1;
    hide Holders;
  }

  lemma Recorded(x: NodeState, t: nat, cmds: seq<Command>, r: AppendRequest)
    requires cmds != [] && r.entries == Proposed(t, cmds) && x.log == [SENTINEL] + Proposed(t, cmds)
    ensures LastTerm(x.log) == t && |Proposed(t, cmds)| == |cmds|
    ensures Record(x, r) == x.(matchIndex := x.matchIndex[r.follower := |cmds|],
                               nextIndex := x.nextIndex[r.follower := |cmds| + 1])
  {
  }

  lemma RecordCounts(c: Cluster, a: NodeId, x: NodeState, t: nat, cmds: seq<Command>, done: set<NodeId>,
        r: AppendRequest)
    requires cmds != [] && c.members != {} && Counting(c, x, t, Proposed(t, cmds), done)
    requires done + {r.follower} <= c.members - {a} && a in c.members && r.entries == Proposed(t, cmds)
    ensures Counting(c, Advance(c, a, Record(x, r)), t, Proposed(t, cmds), done + {r.follower})
  {
    hide CommitScan, Proposed, Record;
    Recorded(x, t, cmds, r);
    RecordScans(c, a, x, t, cmds, done, r);
  }

  lemma RecordScans(c: Cluster, a: NodeId, x: NodeState, t: nat, cmds: seq<Command>, done: set<NodeId>,
        r: AppendRequest)
    requires cmds != [] && c.members != {} && Counting(c, x, t, Proposed(t, cmds), done)
    requires done + {r.follower} <= c.members - {a} && a in c.members && r.entries == Proposed(t, cmds)
    ensures var index := CommitScan(c, a, Record(x, r), |cmds|);
      index <= |cmds| && (|done + {r.follower}| + 1 >= c.Majority() ==> index == |cmds|)
  {
    hide CommitScan, Proposed, Record;
    Recorded(x, t, cmds, r);
    if |done + {r.follower}| + 1 >= c.Majority() { EnoughHold(c, a, Record(x, r), done + {r.follower}); }
  }

  lemma CountOne(c: Cluster, d: Delivery, s: System, a: NodeId, t: nat, cmds: seq<Command>, done: set<NodeId>,
        r: AppendRequest, p: NodeId)
    returns (s': System)
    requires Reaches(c, d, s) && Shaped(c, s.nodes) && a in s.nodes && c.members != {} && cmds != []
    requires Counting(c, s.nodes[a], t, Proposed(t, cmds), done)
    requires done + {p} <= c.members - {a} && IsFrom(r, a, p, t, Proposed(t, cmds))
    requires AppendReply(r, t, true) in s.appendReplies
    ensures Reaches(c, d, s') && Shaped(c, s'.nodes) && Untouched(s, s', {a}) && s'.appendRequests == s.appendRequests
    ensures s'.appendReplies == s.appendReplies
    ensures a in s'.nodes && Counting(c, s'.nodes[a], t, Proposed(t, cmds), done + {p})
  {
    hide Reaches, Advance, Record, Proposed;
    var reply := AppendReply(r, t, true);
    ReachesNext(c, d, s, DeliverAppendReply(reply));
    s' := AfterDeliverAppendReply(c, s, reply);
    RecordCounts(c, a, s.nodes[a], t, cmds, done, r);
  }

  lemma {:induction false} CountAll(c: Cluster, d: Delivery, s: System, a: NodeId, t: nat, cmds: seq<Command>,
        done: set<NodeId>, peers: set<NodeId>)
    returns (s': System)
    requires Reaches(c, d, s) && Shaped(c, s.nodes) && a in s.nodes && c.members != {} && cmds != []
    requires Counting(c, s.nodes[a], t, Proposed(t, cmds), done)
    requires done + peers <= c.members - {a} && Answered(s.appendReplies, a, t, peers, Proposed(t, cmds))
    ensures Reaches(c, d, s') && Shaped(c, s'.nodes) && Untouched(s, s', {a}) && s'.appendRequests == s.appendRequests
    ensures a in s'.nodes && Counting(c, s'.nodes[a], t, Proposed(t, cmds), done + peers)
    decreases peers
  {
    hide Reaches, Shaped, Counting, IsFrom, Proposed;
    if peers == {} {
      s' := s;
      assert done + peers == done;
    } else {
      var p :| p in peers;
      var r :| AppendReply(r, t, true) in s.appendReplies && IsFrom(r, a, p, t, Proposed(t, cmds));
      var s1 := CountOne(c, d, s, a, t, cmds, done, r, p);
      s' := CountAll(c, d, s1, a, t, cmds, done + {p}, peers - {p});
      assert done + {p} + (peers - {p}) == done + peers;
    }
  }

  /** The leader proposes `cmds`, enough followers take them, and they are committed. */
  lemma CommitOn(c: Cluster, d: Delivery, s: System, a: NodeId, t: nat, peers: set<NodeId>, cmds: seq<Command>)
    returns (s': System)
    requires Reaches(c, d, s) && Shaped(c, s.nodes) && a in s.nodes && Poised(c, a, s.nodes[a], t, [])
    requires |c.members| > 1 && cmds != [] && peers != {} && peers <= c.members - {a} && |peers| + 1 >= c.Majority()
    requires Hold(s, peers, t, [])
    ensures Reaches(c, d, s') && Shaped(c, s'.nodes) && Untouched(s, s', peers + {a})
    ensures s.appendRequests <= s'.appendRequests && Hold(s', peers, t, Proposed(t, cmds))
    ensures a in s'.nodes && Counting(c, s'.nodes[a], t, Proposed(t, cmds), peers)
    ensures s'.nodes[a].commitIndex == |cmds|
  {
    hide Reaches, Shaped, Untouched, Holds, Poised, Answered, Proposed;
    var s1 := ProposeAll(c, d, s, a, t, cmds);
    StillHold(s, s1, {a}, peers, t, []);
    var s2 := SpreadAll(c, d, s1, a, t, peers, cmds);
    UntouchedAt(s1, s2, peers, a);
    PoisedCounts(c, a, s2.nodes[a], t, cmds);
    var s3 := CountAll(c, d, s2, a, t, cmds, {}, peers);
    s' := s3;
    assert {} + peers == peers;
    StillHold(s2, s3, {a}, peers, t, Proposed(t, cmds));
    UntouchedBoth(s, s1, s2, {a}, peers);
    UntouchedBoth(s, s2, s3, {a} + peers, {a});
    assert {a} + peers + {a} == peers + {a};
  }

  lemma PoisedCounts(c: Cluster, a: NodeId, x: NodeState, t: nat, cmds: seq<Command>)
    requires c.members != {} && Poised(c, a, x, t, cmds)
    ensures Counting(c, x, t, Proposed(t, cmds), {})
  {
  }

  /** The leader hands all it has committed to its state machine. */
  lemma ApplyCounted(c: Cluster, d: Delivery, s: System, a: NodeId, t: nat, entries: seq<Entry>, done: set<NodeId>)
    returns (s': System)
    requires Reaches(c, d, s) && Shaped(c, s.nodes) && a in s.nodes && c.members != {}
    requires Counting(c, s.nodes[a], t, entries, done) && s.nodes[a].commitIndex == |entries|
    ensures Reaches(c, d, s') && Shaped(c, s'.nodes) && Untouched(s, s', {a}) && s'.appendRequests == s.appendRequests
    ensures a in s'.nodes && s'.nodes[a].applied == entries
  {
    hide Reaches, Shaped;
    ApplyAllReaches(c, d, s, a);
    var x := s.nodes[a];
    s' := s.(nodes := s.nodes[a := ApplyAll(x)]);
    assert x.log[1..|entries| + 1] == entries;
  }

  /** At the start every node is ready to vote. */
  lemma Fresh(c: Cluster, d: Delivery, a: NodeId, others: set<NodeId>)
    requires others <= c.members && a in c.members && !d.After?
    ensures var s := Initial(c);
      Reaches(c, d, s) && Shaped(c, s.nodes) && Idle(s, others, 1) && a in s.nodes && s.nodes[a] == NewNode()
  {
    ReachesInitial(c, d);
  }
}
