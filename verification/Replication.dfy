/** Replicated writes, deletes and quorum reads of one key, as internal/replication/manager.go performs them.
    What the network does to each call is a parameter. Expiry and eviction do not occur. */
module Replication {
  import opened Commons
  import opened ReplicationConfig
  import opened QuorumReads

  /** How a call to a peer ended. A failed call leaves the peer with `left`: what it had, the new
      content with the answer lost, or nothing at all. */
  datatype Reply = Done | Failed(left: Report)

  datatype WriteError = NotPrimary | LocalRefusal | Cancelled | WriteQuorumNotMet(got: nat, need: int)

  datatype ReadReply = Answer(read: Read) | NoOwners | ReadCancelled

  predicate IsHealthy(healthy: map<Id, bool>, id: Id) {
    id !in healthy || healthy[id]
  }

  /** The peers that a write is sent to. */
  function Targets(owners: seq<Id>, self: Id, healthy: map<Id, bool>): set<Id> {
    set id | id in owners && id != self && IsHealthy(healthy, id)
  }

  function Acks(targets: set<Id>, reply: Id -> Reply): set<Id> {
    set id | id in targets && reply(id).Done?
  }

  /** The contents after sending `x` to every target. */
  function AfterCalls(held: map<Id, Report>, targets: set<Id>, reply: Id -> Reply, x: Report): map<Id, Report> {
    map id | id in held ::
      if id !in targets then held[id] else if reply(id).Done? then x else reply(id).left
  }

  function AfterMarks(healthy: map<Id, bool>, targets: set<Id>, reply: Id -> Reply): map<Id, bool> {
    map id | id in healthy.Keys + targets :: if id in targets then reply(id).Done? else healthy[id]
  }

  lemma CallOneMore(held: map<Id, Report>, targets: set<Id>, reply: Id -> Reply, x: Report, id: Id)
    requires id in held && id !in targets
    ensures AfterCalls(held, targets + {id}, reply, x)
         == AfterCalls(held, targets, reply, x)[id := if reply(id).Done? then x else reply(id).left]
    ensures Acks(targets + {id}, reply) == Acks(targets, reply) + if reply(id).Done? then {id} else {}
  {
  }

  lemma MarkOneMore(healthy: map<Id, bool>, targets: set<Id>, reply: Id -> Reply, id: Id)
    requires id !in targets
    ensures AfterMarks(healthy, targets + {id}, reply) == AfterMarks(healthy, targets, reply)[id := reply(id).Done?]
  {
  }

  /** Nothing sent is nothing changed. */
  lemma NoCalls(held: map<Id, Report>, healthy: map<Id, bool>, reply: Id -> Reply, x: Report)
    ensures AfterCalls(held, {}, reply, x) == held && AfterMarks(healthy, {}, reply) == healthy && Acks({}, reply) == {}
  {
  }

  lemma TargetsOneMore(owners: seq<Id>, k: nat, self: Id, healthy: map<Id, bool>)
    requires Distinct(owners) && k < |owners|
    ensures owners[k] !in Targets(owners[..k], self, healthy)
    ensures var targets := Targets(owners[..k], self, healthy);
      Targets(owners[..k + 1], self, healthy)
        == if owners[k] == self || !IsHealthy(healthy, owners[k]) then targets else targets + {owners[k]}
  {
    assert owners[..k + 1] == owners[..k] + [owners[k]];
  }

  /** A target not yet called keeps its mark. */
  lemma MarkKept(healthy: map<Id, bool>, targets: set<Id>, reply: Id -> Reply, id: Id)
    requires id !in targets
    ensures IsHealthy(AfterMarks(healthy, targets, reply), id) == IsHealthy(healthy, id)
  {
  }

  lemma {:induction false} DistinctCount(ids: seq<Id>)
    requires Distinct(ids)
    ensures |Ids(ids)| == |ids|
  {
    if ids != [] {
      var n := |ids| - 1;
      IdsPrefix(ids, n);
      DistinctCount(ids[..n]);
    }
  }

  lemma DistinctAppend(ids: seq<Id>, id: Id)
    requires Distinct(ids) && id !in Ids(ids)
    ensures Distinct(ids + [id]) && Ids(ids + [id]) == Ids(ids) + {id}
  {
    assert forall i | 0 <= i < |ids| :: ids[i] in Ids(ids);
  }

  function Answers(arrivals: seq<Id>): Id -> Reply {
    id => if id in arrivals then Done else Failed(None)
  }

  /** The primary and the peers that acknowledged hold what was written. */
  lemma AckedHold(held: map<Id, Report>, owners: seq<Id>, self: Id, healthy: map<Id, bool>, reply: Id -> Reply,
        x: Report)
    requires self in owners && Ids(owners) <= held.Keys
    ensures var targets := Targets(owners, self, healthy);
      |Holding(AfterCalls(held, targets, reply, x)[self := x], Ids(owners), x)| >= |Acks(targets, reply)| + 1
  {
    var targets := Targets(owners, self, healthy);
    var after := AfterCalls(held, targets, reply, x)[self := x];
    SubsetCard(Acks(targets, reply) + {self}, Holding(after, Ids(owners), x));
  }

  /** `held`, `healthy` and `acked` are as sending `x` to the targets leaves them. */
  ghost predicate Sent(targets: set<Id>, held0: map<Id, Report>, healthy0: map<Id, bool>,
      reply: Id -> Reply, x: Report, held: map<Id, Report>, healthy: map<Id, bool>, acked: seq<Id>)
  {
    && held == AfterCalls(held0, targets, reply, x) && healthy == AfterMarks(healthy0, targets, reply)
    && Distinct(acked) && Ids(acked) == Acks(targets, reply)
  }

  lemma SentNone(held: map<Id, Report>, healthy: map<Id, bool>, reply: Id -> Reply, x: Report)
    ensures Sent({}, held, healthy, reply, x, held, healthy, [])
  {
    NoCalls(held, healthy, reply, x);
    assert Ids([]) == {};
  }

  lemma SentMeans(targets: set<Id>, held0: map<Id, Report>, healthy0: map<Id, bool>,
      reply: Id -> Reply, x: Report, held: map<Id, Report>, healthy: map<Id, bool>, acked: seq<Id>)
    requires Sent(targets, held0, healthy0, reply, x, held, healthy, acked)
    ensures held == AfterCalls(held0, targets, reply, x) && healthy == AfterMarks(healthy0, targets, reply)
    ensures Distinct(acked) && Ids(acked) == Acks(targets, reply)
  {
  }

  lemma SentOneMore(targets: set<Id>, id: Id, held0: map<Id, Report>, healthy0: map<Id, bool>,
      reply: Id -> Reply, x: Report, held: map<Id, Report>, healthy: map<Id, bool>, acked: seq<Id>)
    requires id in held0 && id !in targets
    requires Sent(targets, held0, healthy0, reply, x, held, healthy, acked)
    ensures IsHealthy(healthy, id) == IsHealthy(healthy0, id)
    ensures Sent(targets + {id}, held0, healthy0, reply, x,
      held[id := if reply(id).Done? then x else reply(id).left], healthy[id := reply(id).Done?],
      if reply(id).Done? then acked + [id] else acked)
  {
    MarkKept(healthy0, targets, reply, id);
    CallOneMore(held0, targets, reply, x, id);
    MarkOneMore(healthy0, targets, reply, id);
    assert id !in Acks(targets, reply);
    hide AfterCalls, AfterMarks, IsHealthy, Distinct, Acks, Ids;
    if reply(id).Done? { DistinctAppend(acked, id); }
  }

  // What the consistency levels promise

  /** The other owners that count as healthy and do what they are asked. */
  ghost function Acknowledged(owners: seq<Id>, self: Id, healthy: map<Id, bool>, reply: Id -> Reply): set<Id> {
    set id | id in owners && id != self && (id in healthy ==> healthy[id]) && reply(id).Done?
  }

  /** When a write whose primary took it succeeds: at level one always, at level quorum when the
      acknowledgements and the primary make up the write quorum, at level all when they make up the factor.
      A write that waits for nobody does not notice that its caller has given up. */
  ghost predicate Suffices(cfg: Config, acknowledged: set<Id>, cancelled: bool) {
    if cfg.replicationFactor <= 1 || cfg.writeConsistency == "one" then true
    else if cfg.writeConsistency == "all" then !cancelled && |acknowledged| + 1 >= cfg.replicationFactor
    else cfg.writeQuorum == 1 || (!cancelled && |acknowledged| + 1 >= cfg.writeQuorum)
  }

  /** What success means for the contents: some owner holds what was written, at level quorum as many as
      the write quorum, at level all every owner of a full replica set. */
  ghost predicate KeepsPromise(cfg: Config, owners: seq<Id>, held: map<Id, Report>, x: Report) {
    && (exists id :: id in owners && id in held && held[id] == x)
    && (cfg.replicationFactor > 1 && cfg.writeConsistency == "quorum" ==>
          |set id | id in owners && id in held && held[id] == x| >= cfg.writeQuorum)
    && (cfg.replicationFactor > 1 && cfg.writeConsistency == "all" && |owners| == cfg.replicationFactor ==>
          forall id | id in owners :: id in held && held[id] == x)
  }

  /** Holders as many as acknowledgements are counted keep the promise. */
  lemma HoldersKeepPromise(cfg: Config, owners: seq<Id>, held: map<Id, Report>, x: Report)
    requires Distinct(owners) && Validate(cfg).None? && |Holding(held, Ids(owners), x)| >= WriteCount(cfg)
    ensures KeepsPromise(cfg, owners, held, x)
  {
    var holding := Holding(held, Ids(owners), x);
    assert holding == set id | id in owners && id in held && held[id] == x;
    assert |holding| >= 1;
    var id :| id in holding;
    if cfg.replicationFactor > 1 && cfg.writeConsistency == "all" && |owners| == cfg.replicationFactor {
      DistinctCount(owners);
      WholeSet(holding, Ids(owners));
      forall id | id in owners ensures id in held && held[id] == x { assert id in Ids(owners); }
    }
  }

  lemma SelfHolds(held: map<Id, Report>, owners: seq<Id>, self: Id, x: Report)
    requires self in owners && self in held && held[self] == x
    ensures |Holding(held, Ids(owners), x)| >= 1
  {
    SubsetCard({self}, Holding(held, Ids(owners), x));
  }

  lemma WholeSet(part: set<Id>, whole: set<Id>)
    requires part <= whole && |part| >= |whole|
    ensures part == whole
  {
    SubsetCard(whole - part, whole);
    assert |whole - part| == |whole| - |part|;
  }

  lemma EnoughAcks(cfg: Config, owners: seq<Id>, self: Id, healthy: map<Id, bool>, reply: Id -> Reply, cancelled: bool)
    requires Validate(cfg).None?
    ensures Suffices(cfg, Acknowledged(owners, self, healthy, reply), cancelled) <==>
      || !Enabled(cfg) || RequiredWriteAcks(cfg) == 0
      || (!cancelled && |Acks(Targets(owners, self, healthy), reply)| >= RequiredWriteAcks(cfg))
  {
    assert Acknowledged(owners, self, healthy, reply) == Acks(Targets(owners, self, healthy), reply);
  }

  /** Another owner that nothing speaks against. */
  ghost predicate Asked(owners: seq<Id>, self: Id, healthy: map<Id, bool>, id: Id) {
    id in owners && id != self && (id in healthy ==> healthy[id])
  }

  lemma SentTo(owners: seq<Id>, self: Id, held: map<Id, Report>, healthy: map<Id, bool>, reply: Id -> Reply, x: Report,
        acked: seq<Id>)
    requires Ids(acked) == Acks(Targets(owners, self, healthy), reply)
    ensures var targets := Targets(owners, self, healthy);
      var held', healthy' := AfterCalls(held, targets, reply, x), AfterMarks(healthy, targets, reply);
      && held'.Keys == held.Keys
      && (forall id | id in held' :: held'[id] == if !Asked(owners, self, healthy, id) then held[id]
                                                  else match reply(id) case Done => x case Failed(left) => left)
      && (forall id :: Asked(owners, self, healthy, id) ==> id in healthy' && healthy'[id] == reply(id).Done?)
      && (forall id :: !Asked(owners, self, healthy, id) ==>
            (id in healthy' <==> id in healthy) && (id in healthy' ==> healthy'[id] == healthy[id]))
      && (forall id :: id in acked <==> Asked(owners, self, healthy, id) && reply(id).Done?)
  {
    forall id ensures id in acked <==> Asked(owners, self, healthy, id) && reply(id).Done? {
      assert id in acked <==> id in Ids(acked);
    }
  }

  class Manager {
    const cfg: Config
    const self: Id
    /** The replica set of the key, primary first. */
    const owners: seq<Id>
    /** The content under the key at each node, this one included. */
    var held: map<Id, Report>
    var healthy: map<Id, bool>

    ghost predicate Valid()
      reads this
    {
      && Validate(cfg).None? && Distinct(owners) && |owners| <= cfg.replicationFactor
      && Ids(owners) <= held.Keys && self in held
    }

    constructor (cfg: Config, self: Id, owners: seq<Id>, held: map<Id, Report>)
      ensures this.cfg == cfg && this.self == self && this.owners == owners && this.held == held && healthy == map[]
    {
      this.cfg, this.self, this.owners, this.held, healthy := cfg, self, owners, held, map[];
    }

    predicate IsPrimary() {
      owners != [] && owners[0] == self
    }

    /** Whether a write waits for peers at all. */
    predicate Replicates() {
      Enabled(cfg) && RequiredWriteAcks(cfg) != 0
    }

    /** Sends `x` to every healthy peer and collects those that acknowledge. */
    method Broadcast(x: Report, reply: Id -> Reply) returns (acked: seq<Id>)
      requires Distinct(owners) && Ids(owners) <= held.Keys
      modifies this
      ensures held == AfterCalls(old(held), Targets(owners, self, old(healthy)), reply, x)
      ensures healthy == AfterMarks(old(healthy), Targets(owners, self, old(healthy)), reply)
      ensures Distinct(acked) && Ids(acked) == Acks(Targets(owners, self, old(healthy)), reply)
      ensures held.Keys == old(held).Keys && forall id | id in held ::
        held[id] == if !Asked(owners, self, old(healthy), id) then old(held)[id]
                    else match reply(id) case Done => x case Failed(left) => left
      ensures forall id :: Asked(owners, self, old(healthy), id) ==> id in healthy && healthy[id] == reply(id).Done?
      ensures forall id :: !Asked(owners, self, old(healthy), id) ==>
        (id in healthy <==> id in old(healthy)) && (id in healthy ==> healthy[id] == old(healthy)[id])
      ensures forall id :: id in acked <==> Asked(owners, self, old(healthy), id) && reply(id).Done?
    {
      acked := [];
      SentNone(held, healthy, reply, x);
      assert Targets(owners[..0], self, healthy) == {};
      assert forall k | 0 <= k < |owners| :: owners[k] in held;
      hide Sent, Targets, IsHealthy, Ids;
      for k := 0 to |owners|
        invariant Sent(Targets(owners[..k], self, old(healthy)), old(held), old(healthy), reply, x, held, healthy,
          acked)
      {
        var id := owners[k];
        TargetsOneMore(owners, k, self, old(healthy));
        SentOneMore(Targets(owners[..k], self, old(healthy)), id, old(held), old(healthy), reply, x, held, healthy,
          acked);
        if id == self || !IsHealthy(healthy, id) { continue; }
        match reply(id)
        case Failed(left) =>
          held, healthy := held[id := left], healthy[id := false];
        case Done =>
          held, healthy := held[id := x], healthy[id := true];
          acked := acked + [id];
      }
      assert owners[..|owners|] == owners;
      SentMeans(Targets(owners, self, old(healthy)), old(held), old(healthy), reply, x, held, healthy, acked);
      SentTo(owners, self, old(held), old(healthy), reply, x, acked);
    }

    /** Sends `x` to the peers that acknowledged, ignoring how the calls end. */
    method Undo(acked: seq<Id>, x: Report, reply: Id -> Reply)
      requires Distinct(acked) && Ids(acked) <= held.Keys
      modifies `held
      ensures held == AfterCalls(old(held), Ids(acked), reply, x)
    {
      NoCalls(held, healthy, reply, x);
      assert Ids(acked[..0]) == {};
      for k := 0 to |acked|
        invariant held == AfterCalls(old(held), Ids(acked[..k]), reply, x)
      {
        var id := acked[k];
        assert id in Ids(acked) && acked[..k + 1][..k] == acked[..k];
        IdsPrefix(acked[..k + 1], k);
        CallOneMore(old(held), Ids(acked[..k]), reply, x, id);
        hide AfterCalls, Ids;
        held := held[id := match reply(id) case Done => x case Failed(left) => left];
      }
      assert acked[..|acked|] == acked;
    }

    method WriteSet(value: Value, refused: bool, reply: Id -> Reply, cancelled: bool, undo: Id -> Reply)
      returns (err: Option<WriteError>)
      requires Valid()
      modifies this
      ensures Valid()
      ensures var targets := Targets(owners, self, old(healthy));
        var sent := AfterCalls(old(held)[self := Some(value)], targets, reply, Some(value));
        var acks := Acks(targets, reply);
        if !IsPrimary() then err == Some(NotPrimary) && held == old(held)
        else if refused then err == Some(LocalRefusal) && held == old(held)[self := None]
        else if !Replicates() then err == None && held == old(held)[self := Some(value)]
        else if cancelled then err == Some(Cancelled) && held == sent[self := None]
        else if |acks| < RequiredWriteAcks(cfg) then
          && err == Some(WriteQuorumNotMet(|acks|, RequiredWriteAcks(cfg)))
          && held == AfterCalls(sent, acks, undo, None)[self := None]
        else err == None && held == sent
      ensures healthy == if IsPrimary() && !refused && Replicates()
        then AfterMarks(old(healthy), Targets(owners, self, old(healthy)), reply) else old(healthy)
      ensures err == None ==> |Holding(held, Ids(owners), Some(value))| >= WriteCount(cfg)
      ensures err == None ==> KeepsPromise(cfg, owners, held, Some(value))
      ensures owners != [] && owners[0] == self && !refused ==>
        (err == None <==> Suffices(cfg, Acknowledged(owners, self, old(healthy), reply), cancelled))
    {
      EnoughAcks(cfg, owners, self, healthy, reply, cancelled);
      hide Suffices, Acknowledged, KeepsPromise, Asked, Holding, IsHealthy, Targets, Acks, AfterMarks, Validate;
      if !IsPrimary() { return Some(NotPrimary); }
      assert self in Ids(owners);
      if !Enabled(cfg) || RequiredWriteAcks(cfg) == 0 {
        if refused { held := held[self := None]; return Some(LocalRefusal); }
        held := held[self := Some(value)];
        SelfHolds(held, owners, self, Some(value));
        HoldersKeepPromise(cfg, owners, held, Some(value));
        return None;
      }
      if refused { held := held[self := None]; return Some(LocalRefusal); }
      held := held[self := Some(value)];
      hide AfterCalls;
      err := Collect(value, reply, cancelled, undo);
      if err == None { HoldersKeepPromise(cfg, owners, held, Some(value)); }
    }

    /** Sends what the primary has stored to its peers, and takes it back when too few acknowledge. */
    method Collect(value: Value, reply: Id -> Reply, cancelled: bool, undo: Id -> Reply)
      returns (err: Option<WriteError>)
      requires Valid() && self in owners && held[self] == Some(value) && Replicates()
      modifies this
      ensures Valid()
      ensures var targets := Targets(owners, self, old(healthy));
        var sent := AfterCalls(old(held), targets, reply, Some(value));
        var acks := Acks(targets, reply);
        if cancelled then err == Some(Cancelled) && held == sent[self := None]
        else if |acks| < RequiredWriteAcks(cfg) then
          && err == Some(WriteQuorumNotMet(|acks|, RequiredWriteAcks(cfg)))
          && held == AfterCalls(sent, acks, undo, None)[self := None]
        else err == None && held == sent
      ensures healthy == AfterMarks(old(healthy), Targets(owners, self, old(healthy)), reply)
      ensures err == None ==> |Holding(held, Ids(owners), Some(value))| >= WriteCount(cfg)
    {
      hide Asked, IsHealthy, AfterMarks, Validate;
      AckedHold(held, owners, self, healthy, reply, Some(value));
      var acked := Broadcast(Some(value), reply);
      if cancelled { held := held[self := None]; return Some(Cancelled); }
      DistinctCount(acked);
      if |acked| < RequiredWriteAcks(cfg) {
        Undo(acked, None, undo);
        held := held[self := None];
        return Some(WriteQuorumNotMet(|acked|, RequiredWriteAcks(cfg)));
      }
      assert held[self := Some(value)] == held;
      err := None;
    }

    method WriteDelete(reply: Id -> Reply, undo: Id -> Reply) returns (existed: bool, err: Option<WriteError>)
      requires Valid()
      modifies this
      ensures Valid()
      ensures existed ==> err == None
      ensures var targets := Targets(owners, self, old(healthy));
        var sent := AfterCalls(old(held), targets, reply, None);
        var acks := Acks(targets, reply);
        if !IsPrimary() then err == Some(NotPrimary) && held == old(held)
        else if old(held)[self] == None then !existed && err == None && held == old(held)
        else if !Replicates() then existed && held == old(held)[self := None]
        else if |acks| < RequiredWriteAcks(cfg) then
          && err == Some(WriteQuorumNotMet(|acks|, RequiredWriteAcks(cfg)))
          && held == AfterCalls(sent, acks, undo, old(held)[self])
        else existed && held == sent[self := None]
      ensures healthy == if IsPrimary() && old(held)[self].Some? && Replicates()
        then AfterMarks(old(healthy), Targets(owners, self, old(healthy)), reply) else old(healthy)
      ensures existed ==> |Holding(held, Ids(owners), None)| >= WriteCount(cfg)
      ensures existed ==> KeepsPromise(cfg, owners, held, None)
      ensures owners != [] && owners[0] == self && old(held)[self].Some? ==>
        (existed <==> Suffices(cfg, Acknowledged(owners, self, old(healthy), reply), false))
    {
      EnoughAcks(cfg, owners, self, healthy, reply, false);
      hide Suffices, Acknowledged, KeepsPromise, Asked, Holding, IsHealthy, Targets, Acks, AfterMarks, Validate;
      if !IsPrimary() { return false, Some(NotPrimary); }
      assert self in Ids(owners);
      var existing := held[self];
      if existing.None? { return false, None; }
      if !Enabled(cfg) || RequiredWriteAcks(cfg) == 0 {
        held := held[self := None];
        SelfHolds(held, owners, self, None);
        HoldersKeepPromise(cfg, owners, held, None);
        return true, None;
      }
      AckedHold(held, owners, self, healthy, reply, None);
      var acked := Broadcast(None, reply);
      DistinctCount(acked);
      if |acked| < RequiredWriteAcks(cfg) {
        Undo(acked, existing, undo);
        return false, Some(WriteQuorumNotMet(|acked|, RequiredWriteAcks(cfg)));
      }
      held := held[self := None];
      HoldersKeepPromise(cfg, owners, held, None);
      return true, None;
    }

    /** Asks every healthy owner. The nodes that answer do so in the order `arrivals`; a caller that
        gives up first gets no answer. */
    method ReadQuorum(arrivals: seq<Id>, cancelled: bool) returns (reply: ReadReply)
      requires Valid()
      requires Responders(held, Ids(owners), arrivals) && forall id | id in arrivals :: IsHealthy(healthy, id)
      modifies `healthy
      ensures reply == if owners == [] then NoOwners else if cancelled then ReadCancelled
                       else Answer(ReadOf(Reports(held, arrivals), cfg.readQuorum))
      ensures forall v | cfg.replicationFactor > 1 && forall id | id in owners :: held[id] == Some(v) ::
        reply.Answer? ==> reply.read == if |arrivals| >= cfg.readQuorum then Got(v)
                                        else if arrivals == [] then NotFound else QuorumNotMet
      ensures healthy == AfterMarks(old(healthy), Targets(owners, self, old(healthy)), Answers(arrivals))
    {
      MarkAnswers(arrivals);
      if |owners| == 0 { return NoOwners; }
      if cancelled { return ReadCancelled; }
      var read := CountReports(arrivals);
      forall v | cfg.replicationFactor > 1 && forall id | id in owners :: held[id] == Some(v)
        ensures read == if |arrivals| >= cfg.readQuorum then Got(v)
                        else if arrivals == [] then NotFound else QuorumNotMet
      {
        assert forall id | id in arrivals :: id in Ids(arrivals) && id in owners;
        UnanimousRead(held, Ids(owners), arrivals, v, cfg.readQuorum);
      }
      reply := Answer(read);
    }

    /** A peer that is asked is marked by whether it answers. */
    method MarkAnswers(arrivals: seq<Id>)
      requires Distinct(owners)
      modifies `healthy
      ensures healthy == AfterMarks(old(healthy), Targets(owners, self, old(healthy)), Answers(arrivals))
    {
      NoCalls(held, healthy, Answers(arrivals), None);
      assert Targets(owners[..0], self, healthy) == {};
      hide Targets, IsHealthy, AfterMarks;
      for k := 0 to |owners|
        invariant healthy == AfterMarks(old(healthy), Targets(owners[..k], self, old(healthy)), Answers(arrivals))
      {
        var id := owners[k];
        TargetsOneMore(owners, k, self, old(healthy));
        MarkKept(old(healthy), Targets(owners[..k], self, old(healthy)), Answers(arrivals), id);
        MarkOneMore(old(healthy), Targets(owners[..k], self, old(healthy)), Answers(arrivals), id);
        if id == self || !IsHealthy(healthy, id) { continue; }
        healthy := healthy[id := id in arrivals];
      }
      assert owners[..|owners|] == owners;
    }

    /** Counts the reports as they arrive. */
    method CountReports(arrivals: seq<Id>) returns (result: Read)
      requires Valid()
      requires Responders(held, Ids(owners), arrivals)
      ensures result == ReadOf(Reports(held, arrivals), cfg.readQuorum)
    {
      ghost var reports := Reports(held, arrivals);
      var values: map<Value, int> := map[];
      var found := 0;
      var winner: Report := None;
      var k := 0;
      assert Counted(reports, k, cfg.readQuorum, values, found, winner);
      hide Counted;
      while k < |arrivals|
        invariant 0 <= k <= |arrivals| && Counted(reports, k, cfg.readQuorum, values, found, winner)
      {
        assert arrivals[k] in Ids(arrivals);
        var report := held[arrivals[k]];
        CountOneMore(reports, k, cfg.readQuorum, values, found, winner);
        k := k + 1;
        if report.None? { continue; }
        found := found + 1;
        values := values[report.value := Tally(values, report.value) + 1];
        if values[report.value] >= cfg.readQuorum { return Got(report.value); }
        if winner.None? { winner := report; }
      }
      CountedAll(reports, cfg.readQuorum, values, found, winner);
      if found >= cfg.readQuorum { return if winner.Some? then Got(winner.value) else GotNil; }
      if found == 0 { return NotFound; }
      return QuorumNotMet;
    }
  }

  datatype Created = Created(manager: Manager) | Invalid(error: Error) | NoCluster | NoStore

  /** What the cluster says of the key: this node, and its replica set. */
  datatype ClusterView = ClusterView(self: Id, owners: seq<Id>)

  /** A manager starts with normalized settings, if those are valid and it is given a cluster and a store,
      and takes every node for healthy. */
  method NewManager(c: Config, cluster: Option<ClusterView>, store: Option<map<Id, Report>>) returns (r: Created)
    requires cluster.Some? && store.Some? ==>
      var owners, held := cluster.value.owners, store.value;
      && Distinct(owners) && |owners| <= Normalize(c).replicationFactor && Ids(owners) <= held.Keys
      && cluster.value.self in held
    ensures r.Invalid? ==> Validate(Normalize(c)) == Some(r.error)
    ensures r.NoCluster? <==> Validate(Normalize(c)).None? && cluster.None?
    ensures r.NoStore? <==> Validate(Normalize(c)).None? && cluster.Some? && store.None?
    ensures r.Created? <==> Validate(Normalize(c)).None? && cluster.Some? && store.Some?
    ensures r.Created? ==>
      && fresh(r.manager) && r.manager.Valid() && r.manager.cfg == Normalize(c) && r.manager.held == store.value
      && r.manager.self == cluster.value.self && r.manager.owners == cluster.value.owners
      && forall id :: IsHealthy(r.manager.healthy, id)
  {
    var cfg := Normalize(c);
    var error := Validate(cfg);
    if error.Some? { return Invalid(error.value); }
    if cluster.None? { return NoCluster; }
    if store.None? { return NoStore; }
    var manager := new Manager(cfg, cluster.value.self, cluster.value.owners, store.value);
    r := Created(manager);
  }

  /** With default quorums and writes that wait for one: what `r` holders answer is read back, and an
      acknowledged delete is never undone by a read. */
  lemma DefaultsReadBack(c: Config, held: map<Id, Report>, owners: seq<Id>, arrivals: seq<Id>, v: Value)
    requires c.replicationFactor > 1 && c.writeQuorum <= 0 && c.readQuorum <= 0 && c.writeConsistency != WRITE_ONE
    requires Distinct(owners) && |owners| <= c.replicationFactor && Responders(held, Ids(owners), arrivals)
    ensures var n := Normalize(c);
      |Holding(held, Ids(owners), Some(v))| >= WriteCount(n) && |Holding(held, Ids(arrivals), Some(v))| >= n.readQuorum
      ==> ReadOf(Reports(held, arrivals), n.readQuorum) == Got(v)
    ensures var n := Normalize(c);
      |Holding(held, Ids(owners), None)| >= WriteCount(n) ==> !ReadOf(Reports(held, arrivals), n.readQuorum).Got?
  {
    var n := Normalize(c);
    DefaultsOverlapIff(c);
    DistinctCount(owners);
    hide Holding, Reports, ReadOf, Responders, Ids;
    if |Holding(held, Ids(owners), Some(v))| >= WriteCount(n)
      && |Holding(held, Ids(arrivals), Some(v))| >= n.readQuorum {
      AcknowledgedIsReadBack(held, Ids(owners), arrivals, v, WriteCount(n), n.readQuorum);
    }
    if |Holding(held, Ids(owners), None)| >= WriteCount(n) {
      DeletedStaysDeleted(held, Ids(owners), arrivals, WriteCount(n), n.readQuorum);
    }
  }

  /** The count of a value, zero when it is not in the map. */
  function Tally(values: map<Value, int>, v: Value): int {
    if v in values then values[v] else 0
  }

  ghost predicate Tallied(values: map<Value, int>, reports: seq<Report>) {
    forall v :: Tally(values, v) == Count(reports, v)
  }

  /** Where the count stands after `k` reports, none of which made a match. */
  ghost predicate Counted(reports: seq<Report>, k: nat, r: int, values: map<Value, int>, found: int, winner: Report)
    requires k <= |reports|
  {
    && Tallied(values, reports[..k]) && found == Found(reports[..k]) && winner == First(reports[..k])
    && Match(reports[..k], r) == None
  }

  lemma TallyStep(values: map<Value, int>, reports: seq<Report>, k: nat)
    requires k < |reports| && Tallied(values, reports[..k])
    ensures reports[k].None? ==> Tallied(values, reports[..k + 1])
    ensures reports[k].Some? ==>
      Tallied(values[reports[k].value := Tally(values, reports[k].value) + 1], reports[..k + 1])
  {
    assert reports[..k + 1][..k] == reports[..k];
    var values' := if reports[k].None? then values else values[reports[k].value := Tally(values, reports[k].value) + 1];
    forall v ensures Tally(values', v) == Count(reports[..k + 1], v) {
      assert Tally(values, v) == Count(reports[..k], v);
    }
  }

  lemma CountOneMore(reports: seq<Report>, k: nat, r: int, values: map<Value, int>, found: int, winner: Report)
    requires k < |reports| && Counted(reports, k, r, values, found, winner)
    ensures reports[k].None? ==> Counted(reports, k + 1, r, values, found, winner)
    ensures reports[k].Some? ==>
      var v := reports[k].value;
      var values' := values[v := Tally(values, v) + 1];
      if values'[v] >= r then ReadOf(reports, r) == Got(v)
      else Counted(reports, k + 1, r, values', found + 1, if winner.None? then reports[k] else winner)
  {
    TallyStep(values, reports, k);
    assert reports[..k + 1][..k] == reports[..k];
    if reports[k].Some? {
      var v := reports[k].value;
      var values' := values[v := Tally(values, v) + 1];
      assert values'[v] == Tally(values', v) == Count(reports[..k + 1], v);
      if values'[v] >= r { MatchStays(reports, k + 1, r); }
    }
  }

  lemma CountedAll(reports: seq<Report>, r: int, values: map<Value, int>, found: int, winner: Report)
    requires Counted(reports, |reports|, r, values, found, winner)
    ensures ReadOf(reports, r)
         == if found >= r then (if winner.Some? then Got(winner.value) else GotNil)
            else if found == 0 then NotFound else QuorumNotMet
  {
    assert reports[..|reports|] == reports;
  }

  lemma {:induction false} MatchStays(reports: seq<Report>, k: nat, r: int)
    requires k <= |reports| && Match(reports[..k], r).Some?
    ensures Match(reports, r) == Match(reports[..k], r)
  {
    if k < |reports| {
      var n := |reports| - 1;
      assert reports[..n][..k] == reports[..k];
      MatchStays(reports[..n], k, r);
    } else {
      assert reports[..k] == reports;
    }
  }
}
