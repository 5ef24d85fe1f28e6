/** What the store of internal/cache/store.go means: a list of entries, most recently touched
    first, with expiry times and a bound on the bytes held. */
module StoreSpec {
  import opened Commons

  /** `touched` is the number of the operation that last stored or returned the entry. */
  datatype Rec = Rec(key: string, value: string, expires: Option<int>, touched: nat)

  datatype SetError = EntryTooLarge | MemoryLimit

  /** An entry without a lifetime never expires. */
  predicate Expired(expires: Option<int>, now: int) {
    expires.Some? && !(now < expires.value)
  }

  function Size(r: Rec): nat { |r.key| + |r.value| }

  function Sum(recs: seq<Rec>): nat {
    if recs == [] then 0 else Size(recs[0]) + Sum(recs[1..])
  }

  function Filter(recs: seq<Rec>, keep: Rec -> bool): seq<Rec> {
    if recs == [] then []
    else if keep(recs[0]) then [recs[0]] + Filter(recs[1..], keep) else Filter(recs[1..], keep)
  }

  function Remove(recs: seq<Rec>, key: string): seq<Rec> {
    Filter(recs, (r: Rec) => r.key != key)
  }

  /** Only the live entries. */
  function Live(recs: seq<Rec>, now: int): seq<Rec> {
    Filter(recs, (r: Rec) => !Expired(r.expires, now))
  }

  lemma {:induction false} RemoveAbsent(recs: seq<Rec>, key: string)
    requires forall r | r in recs :: r.key != key
    ensures Remove(recs, key) == recs
  {
    if recs != [] { RemoveAbsent(recs[1..], key); }
  }

  function Find(recs: seq<Rec>, key: string): (r: Option<Rec>)
    ensures r.Some? ==> r.value in recs && r.value.key == key
    ensures r.None? ==> forall x | x in recs :: x.key != key
  {
    if recs == [] then None
    else assert recs == [recs[0]] + recs[1..]; if recs[0].key == key then Some(recs[0]) else Find(recs[1..], key)
  }

  // Operations

  /** Entries are evicted from the least recently touched end until the new one fits. */
  function Evict(recs: seq<Rec>, max: int, need: nat): seq<Rec> {
    if max > 0 && Sum(recs) + need > max && recs != [] then Evict(recs[..|recs| - 1], max, need) else recs
  }

  function Expiry(ttl: int, now: int): Option<int> {
    if ttl > 0 then Some(now + ttl) else None
  }

  function Refusal(recs: seq<Rec>, max: int, key: string, value: string): Option<SetError> {
    var need := |key| + |value|;
    if max > 0 && need > max then Some(EntryTooLarge)
    else if max > 0 && Sum(Evict(Remove(recs, key), max, need)) + need > max then Some(MemoryLimit)
    else None
  }

  /** The previous entry goes first, even when the new one is then refused. */
  function AfterSet(recs: seq<Rec>, max: int, key: string, value: string, ttl: int, now: int, tick: nat): seq<Rec> {
    var need := |key| + |value|;
    match Refusal(recs, max, key, value)
    case Some(EntryTooLarge) => Remove(recs, key)
    case Some(MemoryLimit) => Evict(Remove(recs, key), max, need)
    case None => [Rec(key, value, Expiry(ttl, now), tick)] + Evict(Remove(recs, key), max, need)
  }

  /** The live entry under `key`, if any. */
  function Lookup(recs: seq<Rec>, key: string, now: int): Option<Rec> {
    match Find(recs, key)
    case None => None
    case Some(r) => if Expired(r.expires, now) then None else Some(r)
  }

  function AfterGet(recs: seq<Rec>, key: string, now: int, tick: nat): seq<Rec> {
    match Lookup(recs, key, now)
    case None => Remove(recs, key)
    case Some(r) => [r.(touched := tick)] + Remove(recs, key)
  }

  // Runs

  datatype Op =
    | Set(key: string, value: string, ttl: int)
    | Get(key: string)
    | Delete(key: string)
    | Cleanup

  datatype Timed = Timed(op: Op, now: int)

  datatype Result =
    | Stored
    | Refused(error: SetError)
    | Found(value: string)
    | Missing
    | Deleted(existed: bool)
    | Cleaned

  function Step(recs: seq<Rec>, max: int, t: Timed, tick: nat): seq<Rec> {
    match t.op
    case Set(key, value, ttl) => AfterSet(recs, max, key, value, ttl, t.now, tick)
    case Get(key) => AfterGet(recs, key, t.now, tick)
    case Delete(key) => Remove(recs, key)
    case Cleanup => Live(recs, t.now)
  }

  function Outcome(recs: seq<Rec>, max: int, t: Timed): Result {
    match t.op
    case Set(key, value, ttl) =>
      (match Refusal(recs, max, key, value)
       case None => Stored
       case Some(e) => Refused(e))
    case Get(key) =>
      (match Lookup(recs, key, t.now)
       case None => Missing
       case Some(r) => Found(r.value))
    case Delete(key) => Deleted(Lookup(recs, key, t.now).Some?)
    case Cleanup => Cleaned
  }

  function Replay(max: int, ops: seq<Timed>): seq<Rec> {
    if ops == [] then [] else Step(Replay(max, ops[..|ops| - 1]), max, ops[|ops| - 1], |ops| - 1)
  }

  // The byte bound

  /** All keys and values, one after the other. */
  function AllBytes(recs: seq<Rec>): string {
    if recs == [] then "" else recs[0].key + recs[0].value + AllBytes(recs[1..])
  }

  /** What is counted is every byte of every key and value. */
  lemma {:induction false} SumIsBytes(recs: seq<Rec>)
    ensures Sum(recs) == |AllBytes(recs)|
  {
    if recs != [] { SumIsBytes(recs[1..]); }
  }

  lemma {:induction false} SumConcat(a: seq<Rec>, b: seq<Rec>)
    ensures Sum(a + b) == Sum(a) + Sum(b)
  {
    if a == [] {
      assert a + b == b;
    } else {
      assert (a + b)[1..] == a[1..] + b;
      SumConcat(a[1..], b);
    }
  }

  lemma {:induction false} FilterMembers(recs: seq<Rec>, keep: Rec -> bool)
    ensures forall r :: r in Filter(recs, keep) <==> r in recs && keep(r)
  {
    if recs != [] {
      assert recs == [recs[0]] + recs[1..];
      FilterMembers(recs[1..], keep);
    }
  }

  lemma {:induction false} FilterShrinks(recs: seq<Rec>, keep: Rec -> bool)
    ensures Sum(Filter(recs, keep)) <= Sum(recs)
  {
    if recs != [] { FilterShrinks(recs[1..], keep); }
  }

  /** Eviction keeps the longest prefix that leaves room, that is, it drops the shortest sufficient tail. */
  lemma {:induction false} EvictShortest(recs: seq<Rec>, max: int, need: nat)
    ensures var kept := Evict(recs, max, need);
      && kept <= recs
      && (max > 0 && need <= max ==> Sum(kept) + need <= max)
      && (forall k | |kept| < k <= |recs| :: max > 0 && Sum(recs[..k]) + need > max)
  {
    if max > 0 && Sum(recs) + need > max && recs != [] {
      var shorter := recs[..|recs| - 1];
      EvictShortest(shorter, max, need);
      forall k | |Evict(shorter, max, need)| < k <= |recs| ensures max > 0 && Sum(recs[..k]) + need > max {
        if k < |recs| { assert shorter[..k] == recs[..k]; } else { assert recs[..k] == recs; }
      }
    } else {
      if recs == [] { assert Sum(recs) == 0; }
    }
  }

  /** `Set` never reports that memory could not be freed. */
  lemma NeverMemoryLimit(recs: seq<Rec>, max: int, key: string, value: string)
    ensures Refusal(recs, max, key, value) != Some(MemoryLimit)
    ensures Refusal(recs, max, key, value) == Some(EntryTooLarge) <==> max > 0 && |key| + |value| > max
  {
    EvictShortest(Remove(recs, key), max, |key| + |value|);
  }

  ghost predicate Bounded(recs: seq<Rec>, max: int) {
    max > 0 ==> Sum(recs) <= max
  }

  lemma StepBounded(recs: seq<Rec>, max: int, t: Timed, tick: nat)
    requires Bounded(recs, max)
    ensures Bounded(Step(recs, max, t, tick), max)
  {
    match t.op
    case Set(key, value, ttl) =>
      NeverMemoryLimit(recs, max, key, value);
      FilterShrinks(recs, (r: Rec) => r.key != key);
      EvictShortest(Remove(recs, key), max, |key| + |value|);
    case Get(key) => GetKeepsSum(recs, key, t.now, tick);
    case Delete(key) => FilterShrinks(recs, (r: Rec) => r.key != key);
    case Cleanup => FilterShrinks(recs, (r: Rec) => !Expired(r.expires, t.now));
  }

  lemma {:induction false} FoundIsRemoved(recs: seq<Rec>, key: string)
    requires Find(recs, key).Some?
    ensures Sum(Remove(recs, key)) + Size(Find(recs, key).value) <= Sum(recs)
  {
    if recs[0].key == key {
      FilterShrinks(recs[1..], (r: Rec) => r.key != key);
    } else {
      FoundIsRemoved(recs[1..], key);
    }
  }

  lemma GetKeepsSum(recs: seq<Rec>, key: string, now: int, tick: nat)
    ensures Sum(AfterGet(recs, key, now, tick)) <= Sum(recs)
  {
    FilterShrinks(recs, (r: Rec) => r.key != key);
    if Lookup(recs, key, now).Some? {
      FoundIsRemoved(recs, key);
      var front := Lookup(recs, key, now).value.(touched := tick);
      assert ([front] + Remove(recs, key))[1..] == Remove(recs, key);
    }
  }

  // Recency

  ghost predicate Before(a: Rec, b: Rec) {
    a.key != b.key && a.touched > b.touched
  }

  /** No key occurs twice, and the order is that of the last touch, latest first. */
  ghost predicate Ranked(recs: seq<Rec>) {
    forall i, j | 0 <= i < j < |recs| :: Before(recs[i], recs[j])
  }

  ghost predicate Past(recs: seq<Rec>, now: nat) {
    forall r | r in recs :: r.touched < now
  }

  lemma RankedCons(first: Rec, rest: seq<Rec>)
    requires Ranked(rest) && forall r | r in rest :: Before(first, r)
    ensures Ranked([first] + rest)
  {
  }

  lemma {:induction false} FilterRanked(recs: seq<Rec>, keep: Rec -> bool)
    requires Ranked(recs)
    ensures Ranked(Filter(recs, keep))
  {
    if recs != [] {
      FilterRanked(recs[1..], keep);
      FilterMembers(recs[1..], keep);
      if keep(recs[0]) {
        forall r | r in Filter(recs[1..], keep) ensures Before(recs[0], r) {
          assert r in recs[1..];
        }
        RankedCons(recs[0], Filter(recs[1..], keep));
      }
    }
  }

  lemma RemoveRanked(recs: seq<Rec>, key: string, tick: nat)
    requires Ranked(recs) && Past(recs, tick)
    ensures Ranked(Remove(recs, key)) && Past(Remove(recs, key), tick)
    ensures forall r | r in Remove(recs, key) :: r in recs && r.key != key
  {
    FilterRanked(recs, (r: Rec) => r.key != key);
    FilterMembers(recs, (r: Rec) => r.key != key);
  }

  lemma StepRanked(recs: seq<Rec>, max: int, t: Timed, tick: nat)
    requires Ranked(recs) && Past(recs, tick)
    ensures Ranked(Step(recs, max, t, tick)) && Past(Step(recs, max, t, tick), tick + 1)
  {
    match t.op
    case Set(key, value, ttl) =>
      RemoveRanked(recs, key, tick);
      EvictShortest(Remove(recs, key), max, |key| + |value|);
      var kept := Evict(Remove(recs, key), max, |key| + |value|);
      assert Ranked(kept);
      assert forall r | r in kept :: r in Remove(recs, key);
      RankedCons(Rec(key, value, Expiry(ttl, t.now), tick), kept);
    case Get(key) =>
      RemoveRanked(recs, key, tick);
    case Delete(key) =>
      RemoveRanked(recs, key, tick);
    case Cleanup =>
      FilterRanked(recs, (r: Rec) => !Expired(r.expires, t.now));
      FilterMembers(recs, (r: Rec) => !Expired(r.expires, t.now));
  }

  /** Every run keeps the order, the distinct keys and the byte bound. */
  lemma {:induction false} ReplayInv(max: int, ops: seq<Timed>)
    ensures Ranked(Replay(max, ops)) && Past(Replay(max, ops), |ops|) && Bounded(Replay(max, ops), max)
  {
    if ops != [] {
      var n := |ops| - 1;
      ReplayInv(max, ops[..n]);
      StepRanked(Replay(max, ops[..n]), max, ops[n], n);
      StepBounded(Replay(max, ops[..n]), max, ops[n], n);
    }
  }

  lemma ReplayOneMore(max: int, ops: seq<Timed>, t: Timed)
    ensures Replay(max, ops + [t]) == Step(Replay(max, ops), max, t, |ops|)
  {
    assert (ops + [t])[..|ops|] == ops;
  }
}
