/** When the threshold `len(peers)/2 + 1` really makes vote sets and replica sets overlap. */
module Quorums {
  import opened Commons
  import opened RaftTypes

  /** Enough votes to become leader (see `HasWon`). */
  ghost predicate ElectionQuorum(c: Cluster, q: set<NodeId>) {
    && c.members != {}
    && q <= c.members
    && if |c.members| == 1 then q != {} else |q| >= 2 && |q| >= c.Majority()
  }

  /** Enough holders to commit an entry. */
  ghost predicate CommitQuorum(c: Cluster, q: set<NodeId>) {
    c.members != {} && q <= c.members && |q| >= c.Majority()
  }

  ghost predicate SafeSize(c: Cluster) {
    c.selfListed || |c.members| % 2 == 1 || |c.members| == 2
  }

  lemma Overlap(m: set<NodeId>, a: set<NodeId>, b: set<NodeId>)
    requires a <= m && b <= m && |a| + |b| > |m|
    ensures exists v :: v in a && v in b
  {
    SubsetCard(a + b, m);
    assert |a + b| + |a * b| == |a| + |b|;
    var v :| v in a * b;
  }

  lemma ElectionsOverlap(c: Cluster, a: set<NodeId>, b: set<NodeId>)
    requires SafeSize(c) && ElectionQuorum(c, a) && ElectionQuorum(c, b)
    ensures exists v :: v in a && v in b
  {
    SubsetCard({}, a);
    assert |a| > 0 && |b| > 0;
    Overlap(c.members, a, b);
  }

  lemma ElectionMeetsCommit(c: Cluster, a: set<NodeId>, b: set<NodeId>)
    requires SafeSize(c) && ElectionQuorum(c, a) && CommitQuorum(c, b)
    ensures exists v :: v in a && v in b
  {
    assert |a| > 0;
    Overlap(c.members, a, b);
  }

  /** Any subset of the wanted size. */
  ghost function Pick(m: set<NodeId>, k: nat): (q: set<NodeId>)
    requires k <= |m|
    ensures q <= m && |q| == k
  {
    if k == 0 then {}
    else
      var v :| v in m;
      Pick(m - {v}, k - 1) + {v}
  }

  /** Election quorums overlap exactly in clusters of safe size: for every other size two
      disjoint ones exist. */
  lemma ElectionsOverlapIff(c: Cluster)
    requires c.members != {}
    ensures SafeSize(c) <==> forall a, b :: ElectionQuorum(c, a) && ElectionQuorum(c, b) ==> exists v ::
      v in a && v in b
  {
    if SafeSize(c) {
      forall a, b | ElectionQuorum(c, a) && ElectionQuorum(c, b) ensures exists v :: v in a && v in b {
        ElectionsOverlap(c, a, b);
      }
    } else {
      var a := Pick(c.members, c.Majority());
      var b := c.members - a;
      assert |b| == |c.members| - |a|;
      assert ElectionQuorum(c, a) && ElectionQuorum(c, b);
    }
  }
}
