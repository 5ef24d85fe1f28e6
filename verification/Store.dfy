/** The store itself: an index of list elements, the recency list and a running byte count. */
module Store {
  import opened Commons
  import opened StoreSpec

  /** A list element. Its contents never change once it is linked. */
  class Element {
    const key: string
    const value: string
    const expiresAt: Option<int>

    constructor (key: string, value: string, expiresAt: Option<int>)
      ensures this.key == key && this.value == value && this.expiresAt == expiresAt
    {
      this.key, this.value, this.expiresAt := key, value, expiresAt;
    }
  }

  ghost predicate DistinctKeys(lru: seq<Element>) {
    forall i, j | 0 <= i < j < |lru| :: lru[i].key != lru[j].key
  }

  /** The index and the list hold the same elements, each under its own key. */
  ghost predicate Linked(entries: map<string, Element>, lru: seq<Element>) {
    && (forall i | 0 <= i < |lru| :: lru[i].key in entries && entries[lru[i].key] == lru[i])
    && DistinctKeys(lru)
    && (forall k | k in entries :: entries[k].key == k && entries[k] in lru)
  }

  ghost function RecOf(e: Element, touched: map<string, nat>): Rec {
    Rec(e.key, e.value, e.expiresAt, if e.key in touched then touched[e.key] else 0)
  }

  ghost function Recs(lru: seq<Element>, touched: map<string, nat>): seq<Rec> {
    seq(|lru|, i requires 0 <= i < |lru| => RecOf(lru[i], touched))
  }

  /** Unlinking an element leaves the others in order. */
  function Unlink(lru: seq<Element>, e: Element): seq<Element> {
    if lru == [] then [] else if lru[0] == e then lru[1..] else [lru[0]] + Unlink(lru[1..], e)
  }

  lemma RecsCons(e: Element, lru: seq<Element>, touched: map<string, nat>)
    ensures Recs([e] + lru, touched) == [RecOf(e, touched)] + Recs(lru, touched)
  {
  }

  lemma {:induction false} UnlinkIsRemove(lru: seq<Element>, touched: map<string, nat>, e: Element)
    requires e in lru && DistinctKeys(lru)
    ensures Recs(Unlink(lru, e), touched) == Remove(Recs(lru, touched), e.key)
    ensures Sum(Recs(lru, touched)) == Size(RecOf(e, touched)) + Sum(Recs(Unlink(lru, e), touched))
  {
    assert Recs(lru, touched)[1..] == Recs(lru[1..], touched);
    if lru[0] == e {
      RemoveAbsent(Recs(lru[1..], touched), e.key);
    } else {
      UnlinkIsRemove(lru[1..], touched, e);
      RecsCons(lru[0], Unlink(lru[1..], e), touched);
    }
  }

  lemma {:induction false} UnlinkFrom(lru: seq<Element>, e: Element)
    requires DistinctKeys(lru)
    ensures forall i | 0 <= i < |Unlink(lru, e)| :: Unlink(lru, e)[i] in lru && Unlink(lru, e)[i] != e
    ensures DistinctKeys(Unlink(lru, e))
  {
    if lru != [] {
      if lru[0] != e {
        UnlinkFrom(lru[1..], e);
        var rest := Unlink(lru[1..], e);
        forall i | 0 <= i < |rest| ensures rest[i] in lru && rest[i].key != lru[0].key {
          assert rest[i] in lru[1..];
        }
      }
    }
  }

  lemma {:induction false} UnlinkKeeps(lru: seq<Element>, e: Element, x: Element)
    requires x in lru && x != e
    ensures x in Unlink(lru, e)
  {
    if lru[0] != e && lru[0] != x { UnlinkKeeps(lru[1..], e, x); }
  }

  lemma UnlinkKeepsLinked(entries: map<string, Element>, lru: seq<Element>, e: Element)
    requires Linked(entries, lru) && e in lru
    ensures Linked(entries - {e.key}, Unlink(lru, e))
  {
    UnlinkFrom(lru, e);
    forall k | k in entries - {e.key} ensures entries[k] in Unlink(lru, e) { UnlinkKeeps(lru, e, entries[k]); }
    hide Unlink, DistinctKeys;
    var rest := Unlink(lru, e);
    forall i | 0 <= i < |rest| ensures rest[i].key in entries && rest[i].key != e.key
      && entries[rest[i].key] == rest[i] {
      assert rest[i] in lru && rest[i] != e;
    }
  }

  lemma FindLinked(entries: map<string, Element>, lru: seq<Element>, touched: map<string, nat>, key: string)
    requires Linked(entries, lru)
    ensures key in entries ==>
      && entries[key] in lru && entries[key].key == key
      && Find(Recs(lru, touched), key) == Some(RecOf(entries[key], touched))
    ensures key !in entries ==>
      && Find(Recs(lru, touched), key) == None
      && Remove(Recs(lru, touched), key) == Recs(lru, touched)
  {
    if key in entries {
      var i :| 0 <= i < |lru| && lru[i] == entries[key];
      assert Recs(lru, touched)[i].key == key;
    } else {
      RemoveAbsent(Recs(lru, touched), key);
    }
  }

  lemma RecsOther(lru: seq<Element>, touched: map<string, nat>, key: string, tick: nat)
    requires forall i | 0 <= i < |lru| :: lru[i].key != key
    ensures Recs(lru, touched[key := tick]) == Recs(lru, touched)
  {
  }

  lemma LinkFrontLinked(entries: map<string, Element>, lru: seq<Element>, e: Element)
    requires Linked(entries, lru) && e.key !in entries
    ensures Linked(entries[e.key := e], [e] + lru)
  {
    var entries', lru' := entries[e.key := e], [e] + lru;
    assert forall k | k in entries' :: entries'[k] in lru';
  }

  /** Linking an element whose key is not in use. */
  lemma LinkFront(entries: map<string, Element>, lru: seq<Element>, touched: map<string, nat>, e: Element, tick: nat)
    requires Linked(entries, lru) && e.key !in entries
    ensures Linked(entries[e.key := e], [e] + lru)
    ensures Recs([e] + lru, touched[e.key := tick]) == [Rec(e.key, e.value, e.expiresAt, tick)] + Recs(lru, touched)
    ensures Sum(Recs([e] + lru, touched[e.key := tick])) == |e.key| + |e.value| + Sum(Recs(lru, touched))
  {
    LinkFrontLinked(entries, lru, e);
    assert forall i | 0 <= i < |lru| :: lru[i].key != e.key;
    hide Linked;
    RecsOther(lru, touched, e.key, tick);
    RecsCons(e, lru, touched[e.key := tick]);
    assert Recs([e] + lru, touched[e.key := tick])[1..] == Recs(lru, touched);
  }

  lemma ToFront(entries: map<string, Element>, lru: seq<Element>, touched: map<string, nat>, e: Element, tick: nat)
    requires Linked(entries, lru) && e in lru
    ensures Linked(entries, [e] + Unlink(lru, e))
    ensures Recs([e] + Unlink(lru, e), touched[e.key := tick])
         == [RecOf(e, touched).(touched := tick)] + Remove(Recs(lru, touched), e.key)
    ensures Sum(Recs([e] + Unlink(lru, e), touched[e.key := tick])) == Sum(Recs(lru, touched))
  {
    UnlinkIsRemove(lru, touched, e);
    UnlinkKeepsLinked(entries, lru, e);
    LinkFront(entries - {e.key}, Unlink(lru, e), touched, e, tick);
    hide Recs, Unlink, Filter, Sum;
    assert (entries - {e.key})[e.key := e] == entries by { assert e.key in entries && entries[e.key] == e; }
  }

  lemma {:induction false} LiveRemove(recs: seq<Rec>, key: string, now: int)
    requires forall r | r in recs && r.key == key :: Expired(r.expires, now)
    ensures Live(Remove(recs, key), now) == Live(recs, now)
  {
    if recs != [] {
      LiveRemove(recs[1..], key, now);
      if recs[0].key != key {
        assert Remove(recs, key)[1..] == Remove(recs[1..], key);
      }
    }
  }

  lemma {:induction false} LiveAll(recs: seq<Rec>, now: int)
    requires forall r | r in recs :: !Expired(r.expires, now)
    ensures Live(recs, now) == recs
  {
    if recs != [] { LiveAll(recs[1..], now); }
  }

  class Store {
    const maxBytes: int
    var entries: map<string, Element>
    var lru: seq<Element>
    var memoryBytes: int
    /** The operations so far, and for each key the last one that stored or returned it. */
    ghost var history: seq<Timed>
    ghost var touched: map<string, nat>

    ghost function View(): seq<Rec>
      reads this
    {
      Recs(lru, touched)
    }

    ghost predicate Consistent()
      reads this
    {
      Linked(entries, lru) && memoryBytes == Sum(View())
    }

    /** The fields agree with each other and with what the history replays to. */
    ghost predicate Valid()
      reads this
    {
      Consistent() && View() == Replay(maxBytes, history)
    }

    constructor (maxBytes: int)
      ensures Valid() && this.maxBytes == maxBytes && history == []
    {
      this.maxBytes := maxBytes;
      entries, lru, memoryBytes := map[], [], 0;
      history, touched := [], map[];
    }

    method RemoveElement(e: Element)
      requires Consistent() && e in lru
      modifies `entries, `lru, `memoryBytes
      ensures Consistent() && View() == Remove(old(View()), e.key)
      ensures entries == old(entries) - {e.key} && lru == Unlink(old(lru), e)
    {
      UnlinkIsRemove(lru, touched, e);
      UnlinkKeepsLinked(entries, lru, e);
      memoryBytes := memoryBytes - (|e.key| + |e.value|);
      lru := Unlink(lru, e);
      entries := entries - {e.key};
    }

    method EnsureCapacity(needed: nat)
      requires Consistent()
      modifies `entries, `lru, `memoryBytes
      ensures Consistent() && View() == Evict(old(View()), maxBytes, needed)
      ensures entries.Keys <= old(entries.Keys)
    {
      while maxBytes > 0 && memoryBytes + needed > maxBytes
        invariant Consistent() && entries.Keys <= old(entries.Keys)
        invariant Evict(View(), maxBytes, needed) == Evict(old(View()), maxBytes, needed)
        decreases |lru|
      {
        if |lru| == 0 { return; }
        var oldest := lru[|lru| - 1];
        LastUnlinked(lru, touched);
        RemoveElement(oldest);
      }
    }

    method Set(key: string, value: string, ttl: int, now: int) returns (err: Option<SetError>)
      requires Valid()
      modifies this
      ensures Valid() && history == old(history) + [Timed(Op.Set(key, value, ttl), now)]
      ensures err == Refusal(old(View()), maxBytes, key, value)
    {
      ghost var tick := |history|;
      ReplayOneMore(maxBytes, history, Timed(Op.Set(key, value, ttl), now));
      hide Linked, Recs, Filter, Sum, Replay, Evict;
      history := history + [Timed(Op.Set(key, value, ttl), now)];
      Discard(key);
      var size := |key| + |value|;
      if maxBytes > 0 && size > maxBytes { return Some(EntryTooLarge); }
      EnsureCapacity(size);
      if maxBytes > 0 && memoryBytes + size > maxBytes { return Some(MemoryLimit); }
      PushFront(key, value, if ttl > 0 then Some(now + ttl) else None, tick);
      err := None;
    }

    /** An entry already under the key goes first. */
    method Discard(key: string)
      requires Consistent()
      modifies `entries, `lru, `memoryBytes
      ensures Consistent() && View() == Remove(old(View()), key) && key !in entries
    {
      FindLinked(entries, lru, touched, key);
      hide Linked, Recs, Filter, Sum;
      if key in entries { RemoveElement(entries[key]); }
    }

    method PushFront(key: string, value: string, expiresAt: Option<int>, ghost tick: nat)
      requires Consistent() && key !in entries
      modifies `entries, `lru, `memoryBytes, `touched
      ensures Consistent() && View() == [Rec(key, value, expiresAt, tick)] + old(View())
    {
      hide Linked, Recs, Sum;
      var e := new Element(key, value, expiresAt);
      LinkFront(entries, lru, touched, e, tick);
      lru, entries, touched := [e] + lru, entries[key := e], touched[key := tick];
      memoryBytes := memoryBytes + (|key| + |value|);
    }

    method Get(key: string, now: int) returns (value: Option<string>)
      requires Valid()
      modifies this
      ensures Valid() && history == old(history) + [Timed(Op.Get(key), now)]
      ensures Outcome(old(View()), maxBytes, Timed(Op.Get(key), now)) == if value.Some? then Found(value.value)
        else Missing
    {
      ghost var tick := |history|;
      hide Linked, Recs, Filter, Find, Sum, Unlink, Replay, Evict, Remove, AfterSet, Refusal, Live;
      ReplayOneMore(maxBytes, history, Timed(Op.Get(key), now));
      FindLinked(entries, lru, touched, key);
      history := history + [Timed(Op.Get(key), now)];
      if key !in entries { return None; }
      var e := entries[key];
      if Expired(e.expiresAt, now) {
        RemoveElement(e);
        return None;
      }
      ToFront(entries, lru, touched, e, tick);
      lru, touched := [e] + Unlink(lru, e), touched[key := tick];
      value := Some(e.value);
    }

    method Delete(key: string, now: int) returns (existed: bool)
      requires Valid()
      modifies this
      ensures Valid() && history == old(history) + [Timed(Op.Delete(key), now)]
      ensures Outcome(old(View()), maxBytes, Timed(Op.Delete(key), now)) == Deleted(existed)
    {
      hide Linked, Recs, Filter, Find, Sum, Unlink, Replay, Evict, Remove, AfterSet, Refusal, Live;
      ReplayOneMore(maxBytes, history, Timed(Op.Delete(key), now));
      FindLinked(entries, lru, touched, key);
      history := history + [Timed(Op.Delete(key), now)];
      if key !in entries { return false; }
      var e := entries[key];
      existed := !Expired(e.expiresAt, now);
      RemoveElement(e);
    }

    method CleanupExpired(now: int)
      requires Valid()
      modifies this
      ensures Valid() && history == old(history) + [Timed(Cleanup, now)]
    {
      ReplayOneMore(maxBytes, history, Timed(Cleanup, now));
      var expired := CollectExpired(now);
      history := history + [Timed(Cleanup, now)];
      var i := 0;
      while i < |expired|
        invariant 0 <= i <= |expired| && Consistent() && Pending(entries, expired[i..], now)
        invariant history == old(history) + [Timed(Cleanup, now)]
        invariant Live(View(), now) == Live(old(View()), now)
      {
        PendingNext(entries, lru, touched, expired[i..], now);
        RemoveElement(expired[i]);
        assert expired[i..][1..] == expired[i + 1..];
        i := i + 1;
      }
      NonePending(entries, lru, touched, now);
    }

    /** The expired elements, in whatever order the index is walked. */
    method CollectExpired(now: int) returns (expired: seq<Element>)
      requires Linked(entries, lru)
      ensures Pending(entries, expired, now)
    {
      expired := [];
      var todo := entries.Keys;
      while todo != {}
        invariant todo <= entries.Keys
        invariant forall i | 0 <= i < |expired| :: expired[i].key !in todo
        invariant Pending(map k | k in entries && k !in todo :: entries[k], expired, now)
        decreases todo
      {
        var k :| k in todo;
        todo := todo - {k};
        if entries[k].expiresAt.None? || now < entries[k].expiresAt.value { continue; }
        expired := expired + [entries[k]];
      }
      assert (map k | k in entries && k !in todo :: entries[k]) == entries;
    }

    method Len() returns (n: nat)
      requires Valid()
      ensures n == |View()|
    {
      CountLinked(entries, lru);
      n := |entries|;
    }

    method MemoryBytes() returns (n: int)
      requires Valid()
      ensures n == Sum(View()) && (maxBytes > 0 ==> n <= maxBytes)
    {
      ReplayInv(maxBytes, history);
      n := memoryBytes;
    }
  }

  /** `expired` lists the elements of the index that have expired, once each. */
  ghost predicate Pending(entries: map<string, Element>, expired: seq<Element>, now: int) {
    && DistinctKeys(expired)
    && (forall i | 0 <= i < |expired| ::
          expired[i].key in entries && entries[expired[i].key] == expired[i] && Expired(expired[i].expiresAt, now))
    && (forall k | k in entries && Expired(entries[k].expiresAt, now) :: entries[k] in expired)
  }

  lemma PendingNext(entries: map<string, Element>, lru: seq<Element>, touched: map<string, nat>,
        expired: seq<Element>, now: int)
    requires Linked(entries, lru) && Pending(entries, expired, now) && expired != []
    ensures expired[0] in lru
    ensures Pending(entries - {expired[0].key}, expired[1..], now)
    ensures Live(Remove(Recs(lru, touched), expired[0].key), now) == Live(Recs(lru, touched), now)
  {
    var key := expired[0].key;
    forall r | r in Recs(lru, touched) && r.key == key ensures Expired(r.expires, now) {
      var i :| 0 <= i < |lru| && Recs(lru, touched)[i] == r;
    }
    LiveRemove(Recs(lru, touched), key, now);
    assert expired == [expired[0]] + expired[1..];
  }

  lemma NonePending(entries: map<string, Element>, lru: seq<Element>, touched: map<string, nat>, now: int)
    requires Linked(entries, lru) && Pending(entries, [], now)
    ensures Live(Recs(lru, touched), now) == Recs(lru, touched)
  {
    forall r | r in Recs(lru, touched) ensures !Expired(r.expires, now) {
      var i :| 0 <= i < |lru| && Recs(lru, touched)[i] == r;
    }
    LiveAll(Recs(lru, touched), now);
  }

  lemma LastUnlinked(lru: seq<Element>, touched: map<string, nat>)
    requires DistinctKeys(lru) && lru != []
    ensures var last := |lru| - 1;
      Remove(Recs(lru, touched), lru[last].key) == Recs(lru, touched)[..last]
    ensures Unlink(lru, lru[|lru| - 1]) == lru[..|lru| - 1]
  {
    var last := |lru| - 1;
    UnlinkLast(lru);
    UnlinkIsRemove(lru, touched, lru[last]);
  }

  lemma {:induction false} UnlinkLast(lru: seq<Element>)
    requires DistinctKeys(lru) && lru != []
    ensures Unlink(lru, lru[|lru| - 1]) == lru[..|lru| - 1]
  {
    if |lru| > 1 { UnlinkLast(lru[1..]); }
  }

  lemma {:induction false} CountLinked(entries: map<string, Element>, lru: seq<Element>)
    requires Linked(entries, lru)
    ensures |entries| == |lru|
  {
    if lru == [] {
      assert entries == map[];
    } else {
      var e := lru[0];
      UnlinkKeepsLinked(entries, lru, e);
      assert Unlink(lru, e) == lru[1..] && entries[e.key] == e;
      CountLinked(entries - {e.key}, lru[1..]);
      hide Linked, Unlink;
      assert entries == (entries - {e.key})[e.key := e];
    }
  }
}
