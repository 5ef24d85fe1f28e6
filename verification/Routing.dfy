/** Where a server sends a request: the routing decisions of internal/server/server.go over the ring. */
module Routing {
  import opened HashRing
  import Ring

  /** A server as its routing sees it. `clustered` is false when it has no cluster view of its own;
      `factor` is the replication factor of its replication manager, 1 or less when replication is off. */
  datatype Server = Server(self: Id, clustered: bool, factor: int, readPrimary: bool)

  datatype Route = Serve | Moved(node: Ring.Node) | NotClustered | EmptyRing

  // Decisions over the owners of a key, in clockwise order

  ghost predicate IsPrimary(owners: seq<Ring.Node>, self: Id) {
    owners != [] && owners[0].id == self
  }

  ghost predicate InReplicaSet(owners: seq<Ring.Node>, self: Id, factor: int)
    requires factor > 1
  {
    self in Ring.Ids(Take(owners, factor))
  }

  ghost function ToPrimary(owners: seq<Ring.Node>, clustered: bool): Route {
    if !clustered then NotClustered else if owners == [] then EmptyRing else Moved(owners[0])
  }

  /** Without replication only the owner serves a key; without a cluster everyone does. */
  ghost function Ownership(owners: seq<Ring.Node>, sv: Server): Route {
    if !sv.clustered || IsPrimary(owners, sv.self) then Serve else ToPrimary(owners, true)
  }

  ghost function RouteWrite(owners: seq<Ring.Node>, sv: Server): Route {
    if sv.factor <= 1 then Ownership(owners, sv)
    else if IsPrimary(owners, sv.self) then Serve
    else ToPrimary(owners, sv.clustered)
  }

  /** A member of the replica set serves a read, unless reads are for the primary alone. */
  ghost function RouteRead(owners: seq<Ring.Node>, sv: Server): Route {
    if sv.factor <= 1 then Ownership(owners, sv)
    else if !InReplicaSet(owners, sv.self, sv.factor) then ToPrimary(owners, sv.clustered)
    else if sv.readPrimary && !IsPrimary(owners, sv.self) then ToPrimary(owners, sv.clustered)
    else Serve
  }

  lemma PrimaryIsReplica(owners: seq<Ring.Node>, factor: int)
    requires owners != [] && factor > 1
    ensures InReplicaSet(owners, owners[0].id, factor)
  {
    assert Ring.Ids(Take(owners, factor))[0] == owners[0].id;
  }

  // The owners that the ring gives

  ghost predicate OwnersOfKey(cfg: Ring.Config, ring: Ring.State, key: string, owners: seq<Ring.Node>) {
    && Ring.Ids(owners) == HashRing.Owners(ring.lookup, cfg.hash(key))
    && forall node | node in owners :: node.id in ring.nodes && ring.nodes[node.id] == node
  }

  /** A redirect names a current member that serves the request itself: one hop is enough. */
  lemma OneHop(cfg: Ring.Config, ring: Ring.State, key: string, owners: seq<Ring.Node>, sv: Server)
    requires OwnersOfKey(cfg, ring, key, owners)
    ensures var r := RouteWrite(owners, sv);
      r.Moved? ==> r.node.id in ring.nodes && ring.nodes[r.node.id] == r.node
                   && RouteWrite(owners, sv.(self := r.node.id)) == Serve
    ensures var r := RouteRead(owners, sv);
      r.Moved? ==> r.node.id in ring.nodes && ring.nodes[r.node.id] == r.node
                   && RouteRead(owners, sv.(self := r.node.id)) == Serve
  {
    hide HashRing.Owners, InReplicaSet;
    if owners != [] {
      assert owners[0] in owners;
      if sv.factor > 1 { PrimaryIsReplica(owners, sv.factor); }
    }
  }

  /** In a cluster with members exactly one node serves the writes of a key, and it serves its reads. */
  lemma WriterOfKey(cfg: Ring.Config, ring: Ring.State, key: string, owners: seq<Ring.Node>, sv: Server)
    requires OwnersOfKey(cfg, ring, key, owners) && sv.clustered && ring.lookup != map[]
    ensures owners != [] && owners[0].id in ring.nodes
    ensures RouteWrite(owners, sv) == Serve <==> sv.self == owners[0].id
    ensures RouteWrite(owners, sv) == Serve ==> RouteRead(owners, sv) == Serve
  {
    OwnersThere(cfg, ring, key, owners);
    hide OwnersOfKey, RouteWrite, RouteRead, HashRing.Owners;
    PrimaryServes(owners, sv);
  }

  lemma PrimaryServes(owners: seq<Ring.Node>, sv: Server)
    requires owners != [] && sv.clustered
    ensures RouteWrite(owners, sv) == Serve <==> sv.self == owners[0].id
    ensures RouteWrite(owners, sv) == Serve ==> RouteRead(owners, sv) == Serve
  {
    hide InReplicaSet;
    if sv.factor > 1 { PrimaryIsReplica(owners, sv.factor); }
  }

  /** Without replication, or with reads for the primary alone, a server of a cluster serves a read
      exactly when it is the first owner, and otherwise sends the client there. */
  lemma PrimaryReads(owners: seq<Ring.Node>, sv: Server)
    requires sv.clustered && (sv.factor <= 1 || sv.readPrimary)
    ensures RouteRead(owners, sv) == Serve <==> owners != [] && owners[0].id == sv.self
    ensures RouteRead(owners, sv) != Serve ==>
      RouteRead(owners, sv) == if owners == [] then EmptyRing else Moved(owners[0])
  {
    hide InReplicaSet;
    if owners != [] && sv.factor > 1 { PrimaryIsReplica(owners, sv.factor); }
  }

  /** A server without a cluster and without replication serves everything itself. */
  lemma AloneServes(owners: seq<Ring.Node>, sv: Server)
    requires !sv.clustered && sv.factor <= 1
    ensures RouteRead(owners, sv) == Serve && RouteWrite(owners, sv) == Serve
  {
  }

  /** A server that does not serve a write sends the client to the first owner, if there is any. */
  lemma WriteRedirect(owners: seq<Ring.Node>, sv: Server)
    requires sv.clustered && !(owners != [] && owners[0].id == sv.self)
    ensures RouteWrite(owners, sv) == if owners == [] then EmptyRing else Moved(owners[0])
  {
  }

  /** With replication the nodes that serve the reads of a key are, unless reads are for the primary
      alone, exactly its replica set, as many as the factor or as there are owners. */
  lemma ReadersOfKey(cfg: Ring.Config, ring: Ring.State, key: string, owners: seq<Ring.Node>, sv: Server)
    requires OwnersOfKey(cfg, ring, key, owners) && sv.clustered && ring.lookup != map[]
    requires sv.factor > 1 && !sv.readPrimary
    ensures var replicas := Take(HashRing.Owners(ring.lookup, cfg.hash(key)), sv.factor);
      && (RouteRead(owners, sv) == Serve <==> sv.self in replicas)
      && |replicas| == if sv.factor < |ring.lookup.Values| then sv.factor else |ring.lookup.Values|
  {
    OwnersThere(cfg, ring, key, owners);
    hide HashRing.Owners, OwnersOfKey, RouteRead, Take;
    ReplicasServe(owners, sv);
    TakeLength(Ring.Ids(owners), sv.factor);
  }

  lemma TakeLength(s: seq<Id>, n: nat)
    ensures |Take(s, n)| == if n < |s| then n else |s|
  {
  }

  lemma ReplicasServe(owners: seq<Ring.Node>, sv: Server)
    requires owners != [] && sv.clustered && sv.factor > 1 && !sv.readPrimary
    ensures RouteRead(owners, sv) == Serve <==> sv.self in Take(Ring.Ids(owners), sv.factor)
  {
    assert Ring.Ids(Take(owners, sv.factor)) == Take(Ring.Ids(owners), sv.factor);
  }

  lemma OwnersThere(cfg: Ring.Config, ring: Ring.State, key: string, owners: seq<Ring.Node>)
    requires OwnersOfKey(cfg, ring, key, owners) && ring.lookup != map[]
    ensures owners != [] && |owners| == |ring.lookup.Values| && owners[0].id in ring.nodes
    ensures Ring.Ids(owners) == HashRing.Owners(ring.lookup, cfg.hash(key))
  {
    OwnersCount(ring.lookup, cfg.hash(key));
    hide HashRing.Owners;
    var h :| h in ring.lookup;
    assert ring.lookup[h] in ring.lookup.Values;
    assert owners != [] ==> owners[0] in owners;
  }
}
