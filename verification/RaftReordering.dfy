/** Late, shorter AppendEntries requests. From three members on they let two nodes apply different
    entries at one index; with fewer they do no harm. */
module RaftReordering {
  import opened RaftTypes
  import opened RaftSystem
  import opened Quorums
  import opened RaftRuns
  import opened RaftPairs
  import opened RaftVoting
  import opened RaftScripts

  ghost predicate Sent(requests: set<AppendRequest>, a: NodeId, t: nat, peers: set<NodeId>) {
    forall p | p in peers :: exists r :: r in requests && IsFrom(r, a, p, t, [])
  }

  /** A leader that has proposed nothing sends heartbeats. */
  lemma {:induction false} Heartbeats(c: Cluster, d: Delivery, s: System, a: NodeId, t: nat, peers: set<NodeId>)
    returns (s': System)
    requires Reaches(c, d, s) && Shaped(c, s.nodes) && a in s.nodes && peers <= c.members - {a}
    requires Poised(c, a, s.nodes[a], t, [])
    ensures Reaches(c, d, s') && Shaped(c, s'.nodes) && s'.nodes == s.nodes && Sent(s'.appendRequests, a, t, peers)
    decreases peers
  {
    hide Reaches, Shaped, Poised, IsFrom, Prompt;
    if peers == {} {
      s' := s;
    } else {
      var p :| p in peers;
      var s1 := Heartbeats(c, d, s, a, t, peers - {p});
      var r;
      s', r := SendOne(c, d, s1, a, p, t, []);
      assert Proposed(t, []) == [];
      StillSent(s1.appendRequests, s'.appendRequests, a, t, peers - {p});
      forall q | q in peers ensures exists r :: r in s'.appendRequests && IsFrom(r, a, q, t, []) {
        if q == p { assert r in s'.appendRequests; } else { assert q in peers - {p}; }
      }
    }
  }

  lemma StillSent(requests: set<AppendRequest>, more: set<AppendRequest>, a: NodeId, t: nat, peers: set<NodeId>)
    requires Sent(requests, a, t, peers) && requests <= more
    ensures Sent(more, a, t, peers)
  {
    forall p | p in peers ensures exists r :: r in more && IsFrom(r, a, p, t, []) {
      var r :| r in requests && IsFrom(r, a, p, t, []);
      assert r in more;
    }
  }

  /** Heartbeats that arrive late make followers drop what they hold. */
  lemma {:induction false} DropAll(c: Cluster, s: System, a: NodeId, t: nat, peers: set<NodeId>, held: seq<Entry>)
    returns (s': System)
    requires Reaches(c, AnyOrder, s) && Shaped(c, s.nodes) && Sent(s.appendRequests, a, t, peers)
    requires Hold(s, peers, t, held)
    ensures Reaches(c, AnyOrder, s') && Shaped(c, s'.nodes) && Untouched(s, s', peers) && Hold(s', peers, t, [])
    ensures s'.appendRequests == s.appendRequests
    decreases peers
  {
    hide Reaches, Shaped, Holds, IsFrom, Untouched;
    if peers == {} {
      s' := s;
      NothingYet(s, a, t, []);
    } else {
      var p :| p in peers;
      var rest := peers - {p};
      var s1 := DropAll(c, s, a, t, rest, held);
      var r :| r in s.appendRequests && IsFrom(r, a, p, t, []);
      UntouchedAt(s, s1, rest, p);
      assert Proposed(t, []) == [];
      s' := TakeOne(c, AnyOrder, s1, r, a, p, t, held, []);
      UntouchedBoth(s, s1, s', rest, {p});
      StillHold(s1, s', {p}, rest, t, []);
      assert rest + {p} == peers;
    }
  }

  /** Followers with nothing but the sentinel may elect one of them in the next term. */
  lemma HoldIsIdle(s: System, nodes: set<NodeId>, t: nat, b: NodeId)
    requires Hold(s, nodes, t, []) && b in nodes
    ensures Idle(s, nodes - {b}, t + 1)
    ensures b in s.nodes && s.nodes[b].role == Follower && s.nodes[b].term == t && Blank(s.nodes[b])
  {
    assert [SENTINEL] + [] == [SENTINEL];
  }

  /** The first leader commits its entry on all other nodes, which then lose it to late heartbeats. */
  lemma EntryLost(c: Cluster, a: NodeId, first: Command) returns (s: System)
    requires |c.members| >= 3 && a in c.members
    ensures Reaches(c, AnyOrder, s) && Shaped(c, s.nodes)
    ensures a in s.nodes && s.nodes[a].applied == [Entry(1, 1, first)] && Hold(s, c.members - {a}, 1, [])
  {
    hide Reaches, Untouched, Hold, Sent, Poised, Counting, Shaped, Idle;
    var others := c.members - {a};
    assert |others| == |c.members| - 1;
    Fresh(c, AnyOrder, a, others);
    var s1 := Elect(c, AnyOrder, Initial(c), a, others, 1);
    var s2 := Heartbeats(c, AnyOrder, s1, a, 1, others);
    SameNodesHold(s1, s2, others, 1);
    var s3 := CommitOn(c, AnyOrder, s2, a, 1, others, [first]);
    var s4 := ApplyCounted(c, AnyOrder, s3, a, 1, Proposed(1, [first]), others);
    StillSent(s2.appendRequests, s4.appendRequests, a, 1, others);
    StillHold(s3, s4, {a}, others, 1, Proposed(1, [first]));
    s := DropAll(c, s4, a, 1, others, Proposed(1, [first]));
    UntouchedAt(s4, s, others, a);
  }

  lemma SameNodesHold(s: System, s': System, nodes: set<NodeId>, t: nat)
    requires s'.nodes == s.nodes && Hold(s, nodes, t, [])
    ensures Hold(s', nodes, t, [])
  {
  }

  /** One of the followers is elected by the others and commits an entry of its own. */
  lemma NextTerm(c: Cluster, s: System, a: NodeId, b: NodeId, cmd: Command) returns (s': System)
    requires Reaches(c, AnyOrder, s) && Shaped(c, s.nodes) && |c.members| >= 3 && a in s.nodes && b in c.members - {a}
    requires Hold(s, c.members - {a}, 1, [])
    ensures Reaches(c, AnyOrder, s') && Untouched(s, s', c.members - {a})
    ensures b in s'.nodes && s'.nodes[b].applied == [Entry(2, 1, cmd)]
  {
    hide Reaches, Untouched, Shaped, Poised, Counting, Hold, Idle, Blank;
    var others := c.members - {a};
    var voters := others - {b};
    assert |others| >= |c.members| - 1 && |voters| == |others| - 1;
    HoldIsIdle(s, others, 1, b);
    var s2 := Elect(c, AnyOrder, s, b, voters, 2);
    var s3 := CommitOn(c, AnyOrder, s2, b, 2, voters, [cmd]);
    s' := ApplyCounted(c, AnyOrder, s3, b, 2, Proposed(2, [cmd]), voters);
    assert voters + {b} == others && others + others == others && others + {b} == others;
    UntouchedBoth(s, s2, s3, others, others);
    UntouchedBoth(s, s3, s', others, {b});
  }

  /** A heartbeat sent before the first proposal and delivered after it makes a follower drop the entry
      it acknowledged. With at least three members the followers can then elect one of them without it,
      and commit another entry in its place. */
  lemma ReorderingBreaksSafety(c: Cluster, a: NodeId, b: NodeId, first: Command, second: Command) returns (s: System)
    requires |c.members| >= 3 && a in c.members && b in c.members && a != b
    ensures Reaches(c, AnyOrder, s) && a in s.nodes && b in s.nodes
    ensures s.nodes[a].applied == [Entry(1, 1, first)] && s.nodes[b].applied == [Entry(2, 1, second)]
  {
    hide Reaches, Untouched, Shaped, Hold;
    var s1 := EntryLost(c, a, first);
    s := NextTerm(c, s1, a, b, second);
    UntouchedAt(s1, s, c.members - {a}, a);
  }

  /** Under arbitrary delivery, State Machine Safety holds of a cluster exactly when it has at most two members. */
  lemma SafeUnderReorderingIff(c: Cluster)
    requires c.members != {}
    ensures AppliesConsistently(c, AnyOrder) <==> |c.members| <= 2
  {
    if |c.members| <= 2 {
      forall s, m, n, i: nat | Reaches(c, AnyOrder, s) && m in s.nodes && n in s.nodes
                               && i < |s.nodes[m].applied| && i < |s.nodes[n].applied|
        ensures s.nodes[m].applied[i] == s.nodes[n].applied[i]
      {
        var states, steps :| IsRun(c, states, steps) && states[|steps|] == s;
        SmallClusterSafety(c, states, steps, |steps|, |steps|, m, n, i);
      }
    } else {
      var two := Pick(c.members, 2);
      var a :| a in two;
      assert |two - {a}| == 1;
      var b :| b in two - {a};
      var s := ReorderingBreaksSafety(c, a, b, Noop, Noop);
      assert s.nodes[a].applied[0] != s.nodes[b].applied[0];
    }
  }
}
