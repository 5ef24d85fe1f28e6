/** The ring object of internal/cluster/ring.go: a sorted array of positions and a lookup table,
    kept in step, that answer as the table of `HashRing` does. */
module Ring {
  import opened Commons
  import opened SortedSeqs
  import opened HashRing
  import opened Decimals

  datatype Node = Node(id: Id, addr: string)

  datatype Config = Config(vnodes: nat, hash: string -> nat)

  datatype Error = IdRequired | AddrRequired | NodeExists | NodeMissing | NotPositive | EmptyRing

  datatype Outcome = Owners(nodes: seq<Node>) | Failed(error: Error)

  const DEFAULT_VNODES := 128

  function VnodeKey(id: Id, i: nat): string { id + "#" + Decimal(i) }

  function Position(cfg: Config, id: Id, i: nat): nat { cfg.hash(VnodeKey(id, i)) }

  /** The positions of the first `n` virtual nodes of `id`, in order. */
  function Vnodes(cfg: Config, id: Id, n: nat): (s: seq<nat>)
    ensures |s| == n && forall i | 0 <= i < n :: s[i] == Position(cfg, id, i)
  {
    seq(n, i requires 0 <= i < n => Position(cfg, id, i))
  }

  ghost function Positions(cfg: Config, id: Id): set<nat> {
    Elements(Vnodes(cfg, id, cfg.vnodes))
  }

  /** `h` is the hash of the id with one of the numbers below the count. */
  ghost predicate Labels(cfg: Config, id: Id, h: nat) {
    exists i: nat :: i < cfg.vnodes && h == cfg.hash(id + "#" + Decimal(i))
  }

  lemma PositionsOf(cfg: Config, id: Id)
    ensures forall h :: h in Positions(cfg, id) <==> Labels(cfg, id, h)
  {
    var vs := Vnodes(cfg, id, cfg.vnodes);
    forall h ensures h in Positions(cfg, id) <==> Labels(cfg, id, h) {
      if h in Positions(cfg, id) {
        var i: nat :| i < |vs| && vs[i] == h;
        assert h == cfg.hash(id + "#" + Decimal(i));
      }
      if Labels(cfg, id, h) {
        var i: nat :| i < cfg.vnodes && h == cfg.hash(id + "#" + Decimal(i));
        assert vs[i] == h;
      }
    }
  }

  datatype State = State(nodes: map<Id, Node>, lookup: Table, hashes: seq<nat>)

  /** The array lists the positions of the table, and every position belongs to a member. */
  ghost predicate StateOk(cfg: Config, s: State) {
    && cfg.vnodes > 0
    && Ascending(s.hashes) && Elements(s.hashes) == s.lookup.Keys
    && (forall h | h in s.lookup :: s.lookup[h] in s.nodes && h in Positions(cfg, s.lookup[h]))
    && (forall id | id in s.nodes :: s.nodes[id].id == id)
  }

  ghost function Joined(cfg: Config, s: State, node: Node): State {
    State(s.nodes[node.id := node],
          Claimed(s.lookup, Positions(cfg, node.id), node.id),
          Sort(s.hashes + Vnodes(cfg, node.id, cfg.vnodes)))
  }

  ghost function Left(cfg: Config, s: State, id: Id): State {
    var lookup := Released(s.lookup, Positions(cfg, id));
    State(s.nodes - {id}, lookup, Listing(lookup.Keys))
  }

  lemma JoinedHashes(cfg: Config, s: State, node: Node)
    requires Elements(s.hashes) == s.lookup.Keys
    ensures var s' := Joined(cfg, s, node); Ascending(s'.hashes) && Elements(s'.hashes) == s'.lookup.Keys
  {
    SortElements(s.hashes + Vnodes(cfg, node.id, cfg.vnodes));
    ElementsConcat(s.hashes, Vnodes(cfg, node.id, cfg.vnodes));
  }

  lemma JoinedOk(cfg: Config, s: State, node: Node)
    requires StateOk(cfg, s)
    ensures StateOk(cfg, Joined(cfg, s, node))
  {
    hide Positions, Sort, Ascending, Elements, Vnodes;
    JoinedHashes(cfg, s, node);
  }

  lemma LeftOk(cfg: Config, s: State, id: Id)
    requires StateOk(cfg, s)
    ensures StateOk(cfg, Left(cfg, s, id))
  {
    hide Positions;
    var lookup := Released(s.lookup, Positions(cfg, id));
    assert Ascending(Listing(lookup.Keys));
  }

  // Histories of joins and leaves

  datatype Op = Join(node: Node) | Leave(id: Id)

  ghost function Step(cfg: Config, s: State, op: Op): State {
    match op
    case Join(node) => if node.id == "" || node.addr == "" || node.id in s.nodes then s else Joined(cfg, s, node)
    case Leave(id) => if id in s.nodes then Left(cfg, s, id) else s
  }

  ghost function Replay(cfg: Config, ops: seq<Op>): State {
    if ops == [] then State(map[], map[], []) else Step(cfg, Replay(cfg, ops[..|ops| - 1]), ops[|ops| - 1])
  }

  ghost predicate Mentions(ops: seq<Op>, ids: set<Id>) {
    forall op | op in ops && op.Join? :: op.node.id in ids
  }

  /** No position is shared by two of these nodes. */
  ghost predicate Apart(cfg: Config, ids: set<Id>) {
    forall a, b | a in ids && b in ids && a != b :: Positions(cfg, a) !! Positions(cfg, b)
  }

  /** No two virtual nodes of `id` share a position. */
  ghost predicate Spread(cfg: Config, id: Id) {
    forall i, j | 0 <= i < j < cfg.vnodes :: Position(cfg, id, i) != Position(cfg, id, j)
  }

  /** The table gives every member all its positions, and there are no others. */
  ghost predicate Canonical(cfg: Config, ids: set<Id>, t: Table) {
    && (forall h | h in t :: t[h] in ids && h in Positions(cfg, t[h]))
    && (forall id, h | id in ids && h in Positions(cfg, id) :: h in t && t[h] == id)
  }

  lemma CanonicalUnique(cfg: Config, ids: set<Id>, t: Table, u: Table)
    requires Canonical(cfg, ids, t) && Canonical(cfg, ids, u)
    ensures t == u
  {
    hide Positions;
    forall h ensures h in t <==> h in u {}
  }

  lemma StepCanonical(cfg: Config, s: State, op: Op, ids: set<Id>)
    requires Apart(cfg, ids) && s.nodes.Keys <= ids && Canonical(cfg, s.nodes.Keys, s.lookup)
    requires op.Join? ==> op.node.id in ids
    ensures var s' := Step(cfg, s, op); s'.nodes.Keys <= ids && Canonical(cfg, s'.nodes.Keys, s'.lookup)
  {
    hide Positions, Sort, Vnodes, Listing;
  }

  lemma {:induction false} ReplayCanonical(cfg: Config, ops: seq<Op>, ids: set<Id>)
    requires Apart(cfg, ids) && Mentions(ops, ids)
    ensures var s := Replay(cfg, ops); s.nodes.Keys <= ids && Canonical(cfg, s.nodes.Keys, s.lookup)
  {
    hide Apart, Canonical, Step;
    if ops == [] {
      CanonicalEmpty(cfg);
      assert Replay(cfg, ops).nodes.Keys == {};
    } else {
      ReplayCanonical(cfg, ops[..|ops| - 1], ids);
      StepCanonical(cfg, Replay(cfg, ops[..|ops| - 1]), ops[|ops| - 1], ids);
    }
  }

  lemma CanonicalEmpty(cfg: Config)
    ensures Canonical(cfg, {}, map[])
  {
  }

  /** No position listed twice. */
  ghost predicate Tight(s: State) {
    s.hashes == Listing(s.lookup.Keys)
  }

  lemma JoinedTight(cfg: Config, s: State, node: Node)
    requires Tight(s) && Spread(cfg, node.id) && Positions(cfg, node.id) !! s.lookup.Keys
    ensures Tight(Joined(cfg, s, node))
  {
    var vs := Vnodes(cfg, node.id, cfg.vnodes);
    var all := s.hashes + vs;
    forall i, j | 0 <= i < j < |all| ensures all[i] != all[j] {
      if i < |s.hashes| && |s.hashes| <= j {
        assert s.hashes[i] in Elements(s.hashes) && vs[j - |s.hashes|] in Elements(vs);
      }
    }
    ElementsConcat(s.hashes, vs);
    SortIsListing(all);
  }

  lemma ClearOfMembers(cfg: Config, s: State, id: Id, ids: set<Id>)
    requires Apart(cfg, ids) && s.nodes.Keys <= ids && id in ids && id !in s.nodes
    requires Canonical(cfg, s.nodes.Keys, s.lookup)
    ensures Positions(cfg, id) !! s.lookup.Keys && id !in s.lookup.Values
  {
    hide Positions;
  }

  lemma {:induction false} ReplayTight(cfg: Config, ops: seq<Op>, ids: set<Id>)
    requires Apart(cfg, ids) && Mentions(ops, ids) && forall id | id in ids :: Spread(cfg, id)
    ensures Tight(Replay(cfg, ops))
  {
    hide Apart, Canonical, Spread, Positions, Joined, Sort;
    if ops == [] {
      EmptyTight();
    } else {
      var before, op := Replay(cfg, ops[..|ops| - 1]), ops[|ops| - 1];
      ReplayTight(cfg, ops[..|ops| - 1], ids);
      ReplayCanonical(cfg, ops[..|ops| - 1], ids);
      if op.Join? && op.node.id !in before.nodes {
        ClearOfMembers(cfg, before, op.node.id, ids);
        JoinedTight(cfg, before, op.node);
      }
    }
  }

  lemma EmptyTight()
    ensures Tight(State(map[], map[], []))
  {
    assert Listing({}) == [];
  }

  /** Without collisions the ring depends only on who its members are, whatever the history. */
  lemma RingDependsOnMembers(cfg: Config, ops: seq<Op>, ops': seq<Op>, ids: set<Id>)
    requires Apart(cfg, ids) && Mentions(ops, ids) && Mentions(ops', ids)
    requires Replay(cfg, ops).nodes.Keys == Replay(cfg, ops').nodes.Keys
    ensures Replay(cfg, ops).lookup == Replay(cfg, ops').lookup
    ensures (forall id | id in ids :: Spread(cfg, id)) ==> Replay(cfg, ops).hashes == Replay(cfg, ops').hashes
  {
    hide Apart, Canonical, Spread, Replay;
    ReplayCanonical(cfg, ops, ids);
    ReplayCanonical(cfg, ops', ids);
    CanonicalUnique(cfg, Replay(cfg, ops).nodes.Keys, Replay(cfg, ops).lookup, Replay(cfg, ops').lookup);
    if forall id | id in ids :: Spread(cfg, id) {
      ReplayTight(cfg, ops, ids);
      ReplayTight(cfg, ops', ids);
    }
  }

  /** Without collisions, leaving undoes joining. */
  lemma LeaveUndoesJoin(cfg: Config, s: State, node: Node)
    requires Tight(s) && node.id !in s.nodes && node.id !in s.lookup.Values && Positions(cfg, node.id) !! s.lookup.Keys
    ensures Left(cfg, Joined(cfg, s, node), node.id) == s
  {
    ClaimedMinus(s.lookup, Positions(cfg, node.id), node.id);
    assert s.nodes[node.id := node] - {node.id} == s.nodes;
  }

  /** Without collisions a join takes replicas from no other node, after any history. */
  lemma JoinKeepsReplicas(cfg: Config, ops: seq<Op>, node: Node, ids: set<Id>)
    requires Apart(cfg, ids) && Mentions(ops, ids) && node.id in ids && node.id !in Replay(cfg, ops).nodes
    ensures var s := Replay(cfg, ops); KeepsReplicas(Joined(cfg, s, node).lookup, s.lookup, node.id)
  {
    hide Replay, Apart, Canonical, KeepsReplicas, Positions, Sort;
    var s := Replay(cfg, ops);
    ReplayCanonical(cfg, ops, ids);
    ClearOfMembers(cfg, s, node.id, ids);
    JoinKeepsReplicasIff(s.lookup, Positions(cfg, node.id), node.id);
  }

  /** Nor does a leave, which leaves the others in their order. */
  lemma LeaveKeepsReplicas(cfg: Config, ops: seq<Op>, id: Id, ids: set<Id>)
    requires Apart(cfg, ids) && Mentions(ops, ids) && id in Replay(cfg, ops).nodes
    ensures var s := Replay(cfg, ops); KeepsReplicas(s.lookup, Left(cfg, s, id).lookup, id)
  {
    hide Replay, KeepsReplicas, Positions, Listing;
    var s := Replay(cfg, ops);
    ReplayCanonical(cfg, ops, ids);
    LeaveKeepsReplicasIff(s.lookup, Positions(cfg, id), id);
  }

  // Collisions

  ghost predicate Named(node: Node) {
    node.id != "" && node.addr != ""
  }

  /** `a` and `x` share all their positions, of which `b` has none. */
  ghost predicate Collide(cfg: Config, a: Node, b: Node, x: Node) {
    && cfg.vnodes > 0 && a.id != b.id && a.id != x.id && b.id != x.id && Named(a) && Named(b) && Named(x)
    && Positions(cfg, a.id) == Positions(cfg, x.id) && Positions(cfg, a.id) !! Positions(cfg, b.id)
  }

  /** For any number of virtual nodes some hash makes any three nodes do so. */
  lemma CollisionsExist(vnodes: nat, a: Node, b: Node, x: Node) returns (cfg: Config)
    requires vnodes > 0 && a.id != b.id && a.id != x.id && b.id != x.id && Named(a) && Named(b) && Named(x)
    ensures cfg.vnodes == vnodes && Collide(cfg, a, b, x)
  {
    var keys := set i | 0 <= i < vnodes :: VnodeKey(b.id, i);
    cfg := Config(vnodes, (key: string) => if key in keys then 7 else 5);
    forall i: nat, id | id == a.id || id == x.id ensures VnodeKey(id, i) !in keys {
      forall j: nat | VnodeKey(b.id, j) == VnodeKey(id, i) ensures false { VnodeKeyInjective(b.id, j, id, i); }
    }
    OnePosition(cfg, a.id, 5);
    OnePosition(cfg, b.id, 7);
    OnePosition(cfg, x.id, 5);
  }

  /** The number after the last `#` has none itself. */
  lemma VnodeKeyInjective(a: Id, i: nat, b: Id, j: nat)
    requires VnodeKey(a, i) == VnodeKey(b, j)
    ensures a == b
  {
    var s, t := VnodeKey(a, i), VnodeKey(b, j);
    assert s[..|a|] == a && t[..|b|] == b && s[|a|] == '#' && t[|b|] == '#';
    forall k | |a| < k < |s| ensures s[k] != '#' { assert s[k] == Decimal(i)[k - |a| - 1] && IsDigit(s[k]); }
    forall k | |b| < k < |t| ensures t[k] != '#' { assert t[k] == Decimal(j)[k - |b| - 1] && IsDigit(t[k]); }
  }

  lemma OnePosition(cfg: Config, id: Id, h: nat)
    requires cfg.vnodes > 0 && forall i: nat | i < cfg.vnodes :: Position(cfg, id, i) == h
    ensures Positions(cfg, id) == {h}
  {
    assert Vnodes(cfg, id, cfg.vnodes)[0] == h;
  }

  lemma SomePosition(cfg: Config, id: Id)
    requires cfg.vnodes > 0
    ensures Positions(cfg, id) != {}
  {
    assert Vnodes(cfg, id, cfg.vnodes)[0] in Positions(cfg, id);
  }

  lemma ReplayJoin(cfg: Config, ops: seq<Op>, node: Node)
    requires Named(node) && node.id !in Replay(cfg, ops).nodes
    ensures var s, s' := Replay(cfg, ops), Replay(cfg, ops + [Join(node)]);
      s'.nodes == s.nodes[node.id := node] && s'.lookup == Claimed(s.lookup, Positions(cfg, node.id), node.id)
  {
    assert (ops + [Join(node)])[..|ops|] == ops;
  }

  lemma TwoJoined(cfg: Config, a: Node, b: Node)
    requires a.id != b.id && Named(a) && Named(b)
    ensures var s := Replay(cfg, [Join(a), Join(b)]);
      && s.nodes == map[a.id := a, b.id := b]
      && s.lookup == Claimed(Claimed(map[], Positions(cfg, a.id), a.id), Positions(cfg, b.id), b.id)
  {
    hide Positions, Replay;
    EmptyReplay(cfg);
    ReplayJoin(cfg, [], a);
    assert [] + [Join(a)] == [Join(a)] && [Join(a)] + [Join(b)] == [Join(a), Join(b)];
    ReplayJoin(cfg, [Join(a)], b);
  }

  lemma EmptyReplay(cfg: Config)
    ensures Replay(cfg, []) == State(map[], map[], [])
  {
  }

  /** The joining node takes over all positions of `a`, and there are others. */
  lemma TakenOver(t: Table, mine: set<nat>, a: Id, x: Id)
    requires mine != {} && mine <= t.Keys && t.Keys - mine != {} && a != x
    requires forall h | h in t :: if h in mine then t[h] == a else t[h] != a && t[h] != x
    ensures var t' := Claimed(t, mine, x);
      && !KeepsReplicas(t', t, x) && !KeepsReplicas(t', Released(t', mine), a)
      && exists k :: !KeepsOwner(t', Released(t', mine), k, a)
  {
    var t' := Claimed(t, mine, x);
    var p :| p in mine;
    assert t'.Keys - mine == t.Keys - mine;
    SuccessorExists(t.Keys - mine, p);
    var g :| IsSuccessor(t.Keys - mine, p, g);
    assert !Covered(t, mine);
    assert x !in t.Values && OwnedBy(t', a) <= mine;
    assert !Follows(t', mine, p, x);
    assert !PassedOn(t', mine, a);
    hide KeepsReplicas, KeepsOwner, Covered, PassedOn;
    JoinKeepsReplicasIff(t, mine, x);
    LeaveKeepsReplicasIff(t', mine, a);
    LeaveMovesOnlyItsOwnIff(t', mine, a);
  }

  /** A join that takes over the positions of `a` moves `b` to the front of a replica list that `a`
      headed; when `a` then leaves, it gives up the positions of the joining node. */
  lemma CollisionBreaksReplicas(cfg: Config, a: Node, b: Node, x: Node)
    requires Collide(cfg, a, b, x)
    ensures var s, s' := Replay(cfg, [Join(a), Join(b)]), Replay(cfg, [Join(a), Join(b), Join(x)]);
      && !KeepsReplicas(s'.lookup, s.lookup, x.id)
      && !KeepsReplicas(s'.lookup, Left(cfg, s', a.id).lookup, a.id)
      && exists k :: !KeepsOwner(s'.lookup, Left(cfg, s', a.id).lookup, k, a.id)
  {
    hide Replay, KeepsReplicas, KeepsOwner, Positions, Listing;
    var ops := [Join(a), Join(b)];
    TwoJoined(cfg, a, b);
    assert ops + [Join(x)] == [Join(a), Join(b), Join(x)];
    ReplayJoin(cfg, ops, x);
    SomePosition(cfg, a.id);
    SomePosition(cfg, b.id);
    var t := Replay(cfg, ops).lookup;
    assert t.Keys - Positions(cfg, a.id) == Positions(cfg, b.id);
    TakenOver(t, Positions(cfg, a.id), a.id, x.id);
  }

  /** A leave can empty the ring while another member is still in it. */
  lemma CollisionEmptiesRing(cfg: Config, a: Node, x: Node)
    requires Positions(cfg, a.id) == Positions(cfg, x.id) && a.id != x.id && Named(a) && Named(x)
    ensures var s := Replay(cfg, [Join(a), Join(x), Leave(a.id)]);
      x.id in s.nodes && s.lookup == map[] && s.hashes == []
  {
    var ops := [Join(a), Join(x)];
    assert ops + [Leave(a.id)] == [Join(a), Join(x), Leave(a.id)];
    hide Positions, Replay;
    TwoJoined(cfg, a, x);
    var s := Replay(cfg, ops);
    assert s.lookup.Keys == Positions(cfg, a.id);
    hide Claimed, Left;
    ReplayLeave(cfg, ops, a.id);
    LeaveAll(cfg, s, a.id);
  }

  lemma LeaveAll(cfg: Config, s: State, id: Id)
    requires s.lookup.Keys == Positions(cfg, id)
    ensures var s' := Left(cfg, s, id); s'.nodes == s.nodes - {id} && s'.lookup == map[] && s'.hashes == []
  {
    hide Positions;
    EmptyTight();
    assert Released(s.lookup, Positions(cfg, id)) == map[];
  }

  lemma ReplayLeave(cfg: Config, ops: seq<Op>, id: Id)
    requires id in Replay(cfg, ops).nodes
    ensures Replay(cfg, ops + [Leave(id)]) == Left(cfg, Replay(cfg, ops), id)
  {
    assert (ops + [Leave(id)])[..|ops|] == ops;
  }

  /** Each member owns a position, so a replica list reaches every member. */
  lemma EveryMemberOwns(cfg: Config, ids: set<Id>, t: Table, k: nat)
    requires Canonical(cfg, ids, t) && cfg.vnodes > 0
    ensures t.Values == ids && |HashRing.Owners(t, k)| == |ids|
  {
    OwnersCount(t, k);
    hide HashRing.Owners;
    forall id | id in ids ensures id in t.Values { MemberOwns(cfg, ids, t, id); }
  }

  lemma MemberOwns(cfg: Config, ids: set<Id>, t: Table, id: Id)
    requires Canonical(cfg, ids, t) && cfg.vnodes > 0 && id in ids
    ensures id in t.Values
  {
    var h := Vnodes(cfg, id, cfg.vnodes)[0];
    assert h in Positions(cfg, id);
    assert h in t && t[h] == id;
  }

  // The object

  lemma VnodesOneMore(cfg: Config, id: Id, i: nat)
    ensures Vnodes(cfg, id, i + 1) == Vnodes(cfg, id, i) + [Position(cfg, id, i)]
    ensures Elements(Vnodes(cfg, id, i + 1)) == Elements(Vnodes(cfg, id, i)) + {Position(cfg, id, i)}
  {
    ElementsConcat(Vnodes(cfg, id, i), [Position(cfg, id, i)]);
  }

  function Ids(nodes: seq<Node>): (ids: seq<Id>)
    ensures |ids| == |nodes| && forall i | 0 <= i < |ids| :: ids[i] == nodes[i].id
  {
    seq(|nodes|, i requires 0 <= i < |nodes| => nodes[i].id)
  }

  lemma {:induction false} SplitAtLeast(s: seq<nat>, k: nat, start: nat)
    requires start <= |s|
    requires (forall i | 0 <= i < start :: s[i] < k) && forall i | start <= i < |s| :: s[i] >= k
    ensures AtLeast(s, k) == s[start..] && Below(s, k) == s[..start]
  {
    if s != [] {
      if start == 0 {
        SplitAtLeast(s[1..], k, 0);
      } else {
        SplitAtLeast(s[1..], k, start - 1);
        assert s[1..][start - 1..] == s[start..] && s[..start] == [s[0]] + s[1..][..start - 1];
      }
    }
  }

  lemma Wrap(a: nat, n: nat)
    requires 0 < n && a < 2 * n
    ensures a % n == if a < n then a else a - n
  {
  }

  /** Indexing from `start` modulo the length reads the positions clockwise. */
  lemma RotationIsClockwise(s: seq<nat>, k: nat, start: nat, i: nat)
    requires start <= |s| && i < |s|
    requires (forall j | 0 <= j < start :: s[j] < k) && forall j | start <= j < |s| :: s[j] >= k
    ensures |Clockwise(s, k)| == |s| && (start + i) % |s| < |s| && Clockwise(s, k)[i] == s[(start + i) % |s|]
  {
    SplitAtLeast(s, k, start);
    Wrap(start + i, |s|);
  }

  lemma MemberAt(cfg: Config, s: State, index: nat)
    requires StateOk(cfg, s) && index < |s.hashes|
    ensures s.hashes[index] in s.lookup && s.lookup[s.hashes[index]] in s.nodes
    ensures var id := s.lookup[s.hashes[index]]; s.nodes[id].id == id
  {
    assert s.hashes[index] in Elements(s.hashes);
    hide Positions;
  }

  /** After `step` positions, `owners` are the distinct members met and `seen` their ids. */
  ghost predicate Visited(nodes: map<Id, Node>, os: seq<Id>, step: nat, owners: seq<Node>, seen: set<Id>) {
    && step <= |os| && Ids(owners) == Dedupe(os[..step])
    && (forall id :: id in seen <==> id in os[..step])
    && forall node | node in owners :: node.id in nodes && nodes[node.id] == node
  }

  lemma Visit(nodes: map<Id, Node>, os: seq<Id>, step: nat, owners: seq<Node>, seen: set<Id>)
    requires Visited(nodes, os, step, owners, seen) && step < |os| && os[step] in nodes
    requires nodes[os[step]].id == os[step]
    ensures os[step] in seen ==> Visited(nodes, os, step + 1, owners, seen)
    ensures os[step] !in seen ==> Visited(nodes, os, step + 1, owners + [nodes[os[step]]], seen + {os[step]})
  {
    hide Dedupe;
    DedupeStep(os, step);
    assert Ids(owners + [nodes[os[step]]]) == Ids(owners) + [os[step]];
  }

  lemma WalkDone(nodes: map<Id, Node>, os: seq<Id>, step: nat, owners: seq<Node>, seen: set<Id>, n: nat)
    requires Visited(nodes, os, step, owners, seen) && |owners| <= n && (step == |os| || |owners| == n)
    ensures Ids(owners) == Take(Dedupe(os), n)
    ensures forall node | node in owners :: node.id in nodes && nodes[node.id] == node
  {
    hide Dedupe;
    DedupePrefix(os, step);
    assert step == |os| ==> os[..step] == os;
  }

  lemma ClaimedNone(t: Table, x: Id)
    ensures Claimed(t, {}, x) == t
  {
  }

  class Ring {
    const cfg: Config
    var nodes: map<Id, Node>
    var hashes: seq<nat>
    var lookup: Table

    function View(): State
      reads this
    {
      State(nodes, lookup, hashes)
    }

    ghost predicate Valid()
      reads this
    {
      StateOk(cfg, View())
    }

    constructor (vnodes: int, hash: string -> nat)
      ensures Valid() && cfg.hash == hash && cfg.vnodes == (if vnodes <= 0 then 128 else vnodes)
      ensures View() == State(map[], map[], [])
    {
      cfg := Config(if vnodes <= 0 then DEFAULT_VNODES else vnodes, hash);
      nodes, hashes, lookup := map[], [], map[];
    }

    method AddNode(node: Node) returns (err: Option<Error>)
      requires Valid()
      modifies this
      ensures Valid()
      ensures err == if node.id == "" then Some(IdRequired) else if node.addr == "" then Some(AddrRequired)
                     else if node.id in old(nodes) then Some(NodeExists) else None
      ensures View() == if err == None then Joined(cfg, old(View()), node) else old(View())
    {
      if node.id == "" { return Some(IdRequired); }
      if node.addr == "" { return Some(AddrRequired); }
      if node.id in nodes { return Some(NodeExists); }
      JoinedOk(cfg, View(), node);
      hide StateOk;
      nodes := nodes[node.id := node];
      ClaimVnodes(node.id);
      hashes := Sort(hashes);
      err := None;
    }

    method ClaimVnodes(id: Id)
      modifies `lookup, `hashes
      ensures lookup == Claimed(old(lookup), Positions(cfg, id), id)
      ensures hashes == old(hashes) + Vnodes(cfg, id, cfg.vnodes)
    {
      hide Claimed, Elements;
      assert Elements(Vnodes(cfg, id, 0)) == {} by { NoElements([]); }
      assert lookup == Claimed(lookup, {}, id) by { ClaimedNone(lookup, id); }
      for i := 0 to cfg.vnodes
        invariant lookup == Claimed(old(lookup), Elements(Vnodes(cfg, id, i)), id)
        invariant hashes == old(hashes) + Vnodes(cfg, id, i)
      {
        var hash := Position(cfg, id, i);
        ClaimedOneMore(old(lookup), Elements(Vnodes(cfg, id, i)), id, hash);
        VnodesOneMore(cfg, id, i);
        lookup := lookup[hash := id];
        hashes := hashes + [hash];
      }
    }

    method RemoveNode(id: Id) returns (err: Option<Error>)
      requires Valid()
      modifies this
      ensures Valid()
      ensures err == if id in old(nodes) then None else Some(NodeMissing)
      ensures View() == if err == None then Left(cfg, old(View()), id) else old(View())
    {
      if id !in nodes { return Some(NodeMissing); }
      LeftOk(cfg, View(), id);
      hide StateOk;
      nodes := nodes - {id};
      ReleaseVnodes(id);
      RebuildHashes();
      err := None;
    }

    method ReleaseVnodes(id: Id)
      modifies `lookup
      ensures lookup == Released(old(lookup), Positions(cfg, id))
    {
      for i := 0 to cfg.vnodes
        invariant lookup == Released(old(lookup), Elements(Vnodes(cfg, id, i)))
      {
        var hash := Position(cfg, id, i);
        ClaimedOneMore(old(lookup), Elements(Vnodes(cfg, id, i)), id, hash);
        VnodesOneMore(cfg, id, i);
        lookup := lookup - {hash};
      }
    }

    method RebuildHashes()
      modifies `hashes
      ensures hashes == Listing(lookup.Keys)
    {
      hashes := [];
      var todo := lookup.Keys;
      NoElements(hashes);
      assert Repeatless(hashes);
      hide Elements, Repeatless, Sort, Listing;
      while todo != {}
        invariant todo <= lookup.Keys && Elements(hashes) == lookup.Keys - todo && Repeatless(hashes)
        decreases todo
      {
        var hash :| hash in todo;
        RepeatlessAppend(hashes, hash);
        todo := todo - {hash};
        hashes := hashes + [hash];
      }
      assert Elements(hashes) == lookup.Keys;
      SortIsListing(hashes);
      hashes := Sort(hashes);
    }

    /** The first index whose position is at least `k`, as `sort.Search` finds it. */
    method Search(k: nat) returns (index: nat)
      requires Ascending(hashes)
      ensures index <= |hashes|
      ensures (forall i | 0 <= i < index :: hashes[i] < k) && forall i | index <= i < |hashes| :: hashes[i] >= k
    {
      var lo, hi := 0, |hashes|;
      while lo < hi
        invariant 0 <= lo <= hi <= |hashes|
        invariant forall i | 0 <= i < lo :: hashes[i] < k
        invariant forall i | hi <= i < |hashes| :: hashes[i] >= k
      {
        var mid := (lo + hi) / 2;
        if hashes[mid] < k { lo := mid + 1; } else { hi := mid; }
      }
      index := lo;
    }

    /** The owner of a key is the member at the clockwise successor of its hash. */
    method Lookup(key: string) returns (node: Option<Node>)
      requires Valid()
      ensures node == None <==> hashes == []
      ensures node != None ==>
        && node.value.id in nodes && node.value == nodes[node.value.id]
        && (exists h :: IsSuccessor(lookup.Keys, cfg.hash(key), h) && lookup[h] == node.value.id)
        && HashRing.Owners(lookup, cfg.hash(key)) != [] && HashRing.Owners(lookup, cfg.hash(key))[0] == node.value.id
    {
      if |hashes| == 0 { return None; }
      var k := cfg.hash(key);
      var index := Search(k);
      if index == |hashes| { index := 0; }
      assert hashes[index] in Elements(hashes);
      forall g | g in lookup.Keys ensures exists i ::
        0 <= i < |hashes| && hashes[i] == g { assert g in Elements(hashes); }
      assert IsSuccessor(lookup.Keys, k, hashes[index]);
      OwnersStart(lookup, k, hashes[index]);
      node := Some(nodes[lookup[hashes[index]]]);
    }

    /** The first `n` distinct owners met clockwise from the hash of the key. */
    method LookupN(key: string, n: int) returns (r: Outcome)
      requires Valid()
      ensures r == Failed(NotPositive) <==> n <= 0
      ensures r == Failed(EmptyRing) <==> n > 0 && hashes == []
      ensures n > 0 && hashes != [] ==>
        && r.Owners? && Ids(r.nodes) == Take(HashRing.Owners(lookup, cfg.hash(key)), n)
        && forall node | node in r.nodes :: node.id in nodes && nodes[node.id] == node
    {
      if n <= 0 { return Failed(NotPositive); }
      if |hashes| == 0 { return Failed(EmptyRing); }
      var k := cfg.hash(key);
      var start := Search(k);
      var owners := Walk(k, start, n);
      WalkOwners(lookup, hashes, k);
      r := Owners(owners);
    }

    method Walk(ghost k: nat, start: nat, n: nat) returns (owners: seq<Node>)
      requires Valid() && hashes != [] && start <= |hashes| && n > 0
      requires (forall i | 0 <= i < start :: hashes[i] < k) && forall i | start <= i < |hashes| :: hashes[i] >= k
      ensures Covers(lookup, Clockwise(hashes, k))
      ensures Ids(owners) == Take(Dedupe(OwnersOf(lookup, Clockwise(hashes, k))), n)
      ensures forall node | node in owners :: node.id in nodes && nodes[node.id] == node
    {
      RotationIsClockwise(hashes, k, start, 0);
      WalkOwners(lookup, hashes, k);
      ghost var os := OwnersOf(lookup, Clockwise(hashes, k));
      assert os[..0] == [] && Dedupe(os[..0]) == [];
      hide Clockwise, StateOk, Dedupe, OwnersOf;
      owners := [];
      var seen: set<Id> := {};
      var step := 0;
      assert Visited(nodes, os, step, owners, seen);
      hide Visited;
      while step < |hashes| && |owners| < n
        invariant 0 <= step <= |hashes| == |os| && |owners| <= n && Visited(nodes, os, step, owners, seen)
        decreases |hashes| - step
      {
        RotationIsClockwise(hashes, k, start, step);
        var index := (start + step) % |hashes|;
        MemberAt(cfg, View(), index);
        var id := lookup[hashes[index]];
        Visit(nodes, os, step, owners, seen);
        step := step + 1;
        if id in seen { continue; }
        if id !in nodes { continue; }
        seen := seen + {id};
        owners := owners + [nodes[id]];
      }
      WalkDone(nodes, os, step, owners, seen, n);
    }
  }
}
