/** What holds of the store over every sequence of operations. */
module StoreRuns {
  import opened Commons
  import opened StoreSpec

  // What the recency order means

  /** Operation `j` stored `key` or returned its value. */
  ghost predicate TouchedAt(max: int, ops: seq<Timed>, j: nat, key: string)
    requires j < |ops|
  {
    var result := Outcome(Replay(max, ops[..j]), max, ops[j]);
    match ops[j].op
    case Set(k, _, _) => k == key && result == Stored
    case Get(k) => k == key && result.Found?
    case _ => false
  }

  ghost predicate LastTouchedAt(max: int, ops: seq<Timed>, j: nat, key: string) {
    && j < |ops|
    && TouchedAt(max, ops, j, key)
    && forall k: nat | j < k < |ops| :: !TouchedAt(max, ops, k, key)
  }

  /** A step puts the touched key in front and stamps it; every other entry left was there before. */
  lemma StepTouches(recs: seq<Rec>, max: int, t: Timed, tick: nat, r: Rec)
    requires r in Step(recs, max, t, tick)
    ensures r in recs || (r.touched == tick && ((t.op.Set? && t.op.key == r.key && Outcome(recs, max, t) == Stored)
                                                || (t.op.Get? && t.op.key == r.key && Outcome(recs, max, t).Found?)))
    ensures t.op.Set? && t.op.key == r.key && Outcome(recs, max, t) == Stored ==> r.touched == tick
    ensures t.op.Get? && t.op.key == r.key && Outcome(recs, max, t).Found? ==> r.touched == tick
  {
    match t.op
    case Set(key, value, ttl) =>
      FilterMembers(recs, (x: Rec) => x.key != key);
      EvictShortest(Remove(recs, key), max, |key| + |value|);
    case Get(key) => FilterMembers(recs, (x: Rec) => x.key != key);
    case Delete(key) => FilterMembers(recs, (x: Rec) => x.key != key);
    case Cleanup => FilterMembers(recs, (x: Rec) => !Expired(x.expires, t.now));
  }

  lemma TouchedInPrefix(max: int, ops: seq<Timed>, n: nat, j: nat, key: string)
    requires j < n <= |ops|
    ensures TouchedAt(max, ops[..n], j, key) == TouchedAt(max, ops, j, key)
  {
    assert ops[..n][..j] == ops[..j];
  }

  /** The stamp of an entry is the number of the last operation that stored or returned it. */
  lemma {:induction false} StampIsLastTouch(max: int, ops: seq<Timed>, r: Rec)
    requires r in Replay(max, ops)
    ensures LastTouchedAt(max, ops, r.touched, r.key)
  {
    var n := |ops| - 1;
    ReplayInv(max, ops[..n]);
    TouchedLast(max, ops, r);
    if r.touched < n {
      StampIsLastTouch(max, ops[..n], r);
      hide TouchedAt, Replay;
      LastInPrefix(max, ops, r.touched, r.key);
    }
  }

  /** The last operation either stamped the entry or left it as it was without touching its key. */
  lemma TouchedLast(max: int, ops: seq<Timed>, r: Rec)
    requires ops != [] && r in Replay(max, ops) && Past(Replay(max, ops[..|ops| - 1]), |ops| - 1)
    ensures r.touched < |ops|
    ensures r.touched == |ops| - 1 <==> TouchedAt(max, ops, |ops| - 1, r.key)
    ensures r.touched < |ops| - 1 ==> r in Replay(max, ops[..|ops| - 1])
  {
    var n := |ops| - 1;
    StepTouches(Replay(max, ops[..n]), max, ops[n], n, r);
    hide Step;
  }

  lemma LastInPrefix(max: int, ops: seq<Timed>, j: nat, key: string)
    requires ops != [] && LastTouchedAt(max, ops[..|ops| - 1], j, key) && !TouchedAt(max, ops, |ops| - 1, key)
    ensures LastTouchedAt(max, ops, j, key)
  {
    hide TouchedAt;
    var n := |ops| - 1;
    forall k: nat | k < n ensures TouchedAt(max, ops[..n], k, key) == TouchedAt(max, ops, k, key) {
      TouchedInPrefix(max, ops, n, k, key);
    }
  }

  lemma PrefixIsLater(recs: seq<Rec>, k: nat, gone: Rec, kept: Rec)
    requires Ranked(recs) && k <= |recs| && gone in recs && gone !in recs[..k] && kept in recs[..k]
    ensures gone.touched < kept.touched
  {
    var i :| 0 <= i < |recs| && recs[i] == gone;
    var j :| 0 <= j < k && recs[..k][j] == kept;
    assert forall x | 0 <= x < k :: recs[x] in recs[..k];
    assert Before(recs[j], recs[i]);
  }

  /** A `Set` that is not refused puts the new entry first and keeps, of the entries under other keys, the
      longest prefix in order of last touch that leaves room for it. */
  lemma SetKeepsLongest(max: int, ops: seq<Timed>, key: string, value: string, ttl: int, now: int)
    requires max <= 0 || |key| + |value| <= max
    ensures var others, after := Remove(Replay(max, ops), key), Replay(max, ops + [Timed(Set(key, value, ttl), now)]);
      && after != [] && after[0].key == key && after[0].value == value
      && after[1..] <= others
      && (max > 0 ==> |AllBytes(after)| <= max)
      && (forall k | |after| <= k <= |others| :: max > 0 && |AllBytes(others[..k])| + |key| + |value| > max)
  {
    var t, recs := Timed(Set(key, value, ttl), now), Replay(max, ops);
    var others, after := Remove(recs, key), Replay(max, ops + [t]);
    ReplayOneMore(max, ops, t);
    NeverMemoryLimit(recs, max, key, value);
    EvictShortest(others, max, |key| + |value|);
    ReplayInv(max, ops + [t]);
    SumIsBytes(after);
    hide Replay, Evict, Filter;
    assert after[1..] == Evict(others, max, |key| + |value|);
    forall k | |after| <= k <= |others| ensures max > 0 && |AllBytes(others[..k])| + |key| + |value| > max {
      SumIsBytes(others[..k]);
    }
  }

  lemma RemoveMembers(recs: seq<Rec>, key: string, r: Rec)
    ensures r in Remove(recs, key) <==> r in recs && r.key != key
  {
    FilterMembers(recs, (x: Rec) => x.key != key);
  }

  /** What a `Set` evicts was last touched before everything it keeps. */
  lemma {:induction false} EvictsLeastRecent(max: int, ops: seq<Timed>, key: string, value: string, ttl: int, now: int,
        gone: Rec, kept: Rec)
    requires var after := Replay(max, ops + [Timed(Set(key, value, ttl), now)]);
      gone in Replay(max, ops) && gone !in after && kept in Replay(max, ops) && kept in after
    requires gone.key != key && kept.key != key
    ensures gone.touched < kept.touched
    ensures LastTouchedAt(max, ops, gone.touched, gone.key) && LastTouchedAt(max, ops, kept.touched, kept.key)
  {
    StampIsLastTouch(max, ops, gone);
    StampIsLastTouch(max, ops, kept);
    hide TouchedAt;
    ReplayInv(max, ops);
    RemoveRanked(Replay(max, ops), key, |ops|);
    RemoveMembers(Replay(max, ops), key, gone);
    RemoveMembers(Replay(max, ops), key, kept);
    ReplayOneMore(max, ops, Timed(Set(key, value, ttl), now));
    NeverMemoryLimit(Replay(max, ops), max, key, value);
    hide Replay;
    EvictedBefore(Replay(max, ops), max, key, value, gone, kept);
  }

  lemma EvictedBefore(recs: seq<Rec>, max: int, key: string, value: string, gone: Rec, kept: Rec)
    requires Ranked(Remove(recs, key)) && gone in Remove(recs, key)
    requires kept in Evict(Remove(recs, key), max, |key| + |value|)
    requires gone !in Evict(Remove(recs, key), max, |key| + |value|)
    ensures gone.touched < kept.touched
  {
    var rest := Remove(recs, key);
    EvictShortest(rest, max, |key| + |value|);
    hide Evict;
    PrefixIsLater(rest, |Evict(rest, max, |key| + |value|)|, gone, kept);
  }

  /** A `Get` that misses leaves nothing under its key, one that hits leaves the entry first; either way
      the other entries stay as they were. */
  lemma GetLeaves(max: int, ops: seq<Timed>, key: string, now: int)
    ensures var t := Timed(Get(key), now);
      var before, after := Replay(max, ops), Replay(max, ops + [t]);
      var result := Outcome(before, max, t);
      && result == (if after != [] && after[0].key == key then Found(after[0].value) else Missing)
      && (forall r: Rec | r.key != key :: r in after <==> r in before)
      && (result == Missing ==> forall r | r in after :: r.key != key)
  {
    var t, before := Timed(Get(key), now), Replay(max, ops);
    ReplayOneMore(max, ops, t);
    hide Replay;
    FilterMembers(before, (x: Rec) => x.key != key);
    if Remove(before, key) != [] { assert Remove(before, key)[0] in Remove(before, key); }
  }

  // The store against a map with expiry times

  datatype Cell = Cell(value: string, expires: Option<int>)

  /** A map that forgets only what is deleted, replaced or refused for its size. */
  function MapStep(m: map<string, Cell>, max: int, t: Timed): map<string, Cell> {
    match t.op
    case Set(key, value, ttl) =>
      if max > 0 && |key| + |value| > max then m - {key} else m[key := Cell(value, Expiry(ttl, t.now))]
    case Delete(key) => m - {key}
    case _ => m
  }

  function MapReplay(max: int, ops: seq<Timed>): map<string, Cell> {
    if ops == [] then map[] else MapStep(MapReplay(max, ops[..|ops| - 1]), max, ops[|ops| - 1])
  }

  function MapOutcome(m: map<string, Cell>, max: int, t: Timed): Result {
    match t.op
    case Set(key, value, _) => if max > 0 && |key| + |value| > max then Refused(EntryTooLarge) else Stored
    case Get(key) => if key in m && !Expired(m[key].expires, t.now) then Found(m[key].value) else Missing
    case Delete(key) => Deleted(key in m && !Expired(m[key].expires, t.now))
    case Cleanup => Cleaned
  }

  ghost predicate Sound(recs: seq<Rec>, m: map<string, Cell>) {
    forall r | r in recs :: r.key in m && m[r.key] == Cell(r.value, r.expires)
  }

  ghost predicate Complete(recs: seq<Rec>, m: map<string, Cell>, now: int) {
    forall k | k in m && !Expired(m[k].expires, now) :: Find(recs, k).Some?
  }

  ghost predicate Monotone(ops: seq<Timed>) {
    forall i, j | 0 <= i < j < |ops| :: ops[i].now <= ops[j].now
  }

  lemma StepSound(recs: seq<Rec>, m: map<string, Cell>, max: int, t: Timed, tick: nat)
    requires Sound(recs, m)
    ensures Sound(Step(recs, max, t, tick), MapStep(m, max, t))
  {
    match t.op
    case Set(key, value, ttl) =>
      FilterMembers(recs, (x: Rec) => x.key != key);
      EvictShortest(Remove(recs, key), max, |key| + |value|);
      assert forall r | r in Evict(Remove(recs, key), max, |key| + |value|) :: r in Remove(recs, key);
      NeverMemoryLimit(recs, max, key, value);
    case Get(key) => FilterMembers(recs, (x: Rec) => x.key != key);
    case Delete(key) => FilterMembers(recs, (x: Rec) => x.key != key);
    case Cleanup => FilterMembers(recs, (x: Rec) => !Expired(x.expires, t.now));
  }

  lemma {:induction false} ReplaySound(max: int, ops: seq<Timed>)
    ensures Sound(Replay(max, ops), MapReplay(max, ops))
  {
    if ops != [] {
      var n := |ops| - 1;
      ReplaySound(max, ops[..n]);
      StepSound(Replay(max, ops[..n]), MapReplay(max, ops[..n]), max, ops[n], n);
    }
  }

  /** A hit returns what the map holds, whatever the limit and the clock; a `Set` succeeds or fails alike. */
  lemma HitsAreCurrent(max: int, ops: seq<Timed>, t: Timed)
    ensures var result := Outcome(Replay(max, ops), max, t);
      result.Found? || result == Deleted(true) || t.op.Set? ==> result == MapOutcome(MapReplay(max, ops), max, t)
  {
    ReplaySound(max, ops);
    if t.op.Set? { NeverMemoryLimit(Replay(max, ops), max, t.op.key, t.op.value); }
  }

  lemma Kept(recs: seq<Rec>, keep: Rec -> bool, r: Rec)
    requires r in recs && keep(r)
    ensures Find(Filter(recs, keep), r.key).Some?
  {
    FilterMembers(recs, keep);
  }

  lemma StepComplete(recs: seq<Rec>, m: map<string, Cell>, max: int, t: Timed, tick: nat, now: int)
    requires Sound(recs, m) && Complete(recs, m, now) && max <= 0 && now <= t.now
    ensures Complete(Step(recs, max, t, tick), MapStep(m, max, t), t.now)
  {
    var after, cells := Step(recs, max, t, tick), MapStep(m, max, t);
    forall k | k in cells && !Expired(cells[k].expires, t.now) ensures Find(after, k).Some? {
      if k in m && m[k] == cells[k] {
        var r := Find(recs, k).value;
        match t.op
        case Set(key, value, ttl) => if k != key { Kept(recs, (x: Rec) => x.key != key, r); }
        case Get(key) => if k != key { Kept(recs, (x: Rec) => x.key != key, r); }
        case Delete(key) => if k != key { Kept(recs, (x: Rec) => x.key != key, r); }
        case Cleanup => Kept(recs, (x: Rec) => !Expired(x.expires, t.now), r);
      }
    }
  }

  lemma {:induction false} ReplayComplete(max: int, ops: seq<Timed>)
    requires Monotone(ops) && max <= 0
    ensures ops != [] ==> Complete(Replay(max, ops), MapReplay(max, ops), ops[|ops| - 1].now)
  {
    if ops != [] {
      var n := |ops| - 1;
      ReplayComplete(max, ops[..n]);
      ReplaySound(max, ops[..n]);
      var now := if n == 0 then ops[n].now else ops[n - 1].now;
      StepComplete(Replay(max, ops[..n]), MapReplay(max, ops[..n]), max, ops[n], n, now);
    }
  }

  /** Without a limit and with a clock that never goes back, the store answers exactly as the map. */
  lemma RefinesMap(max: int, ops: seq<Timed>, t: Timed)
    requires Monotone(ops + [t]) && max <= 0
    ensures Outcome(Replay(max, ops), max, t) == MapOutcome(MapReplay(max, ops), max, t)
  {
    forall i, j | 0 <= i < j < |ops| ensures ops[i].now <= ops[j].now {
      assert (ops + [t])[i].now <= (ops + [t])[j].now;
    }
    ReplayComplete(max, ops);
    ReplaySound(max, ops);
    if ops != [] {
      var i := |ops| - 1;
      assert (ops + [t])[i].now <= (ops + [t])[i + 1].now;
    }
    if t.op.Set? { NeverMemoryLimit(Replay(max, ops), max, t.op.key, t.op.value); }
  }

  // What the last write of a key means for its answers

  /** Operation `j` is the last one of the run that sets or deletes `key`. */
  ghost predicate LastWriteAt(ops: seq<Timed>, j: nat, key: string) {
    && j < |ops| && (ops[j].op.Set? || ops[j].op.Delete?) && ops[j].op.key == key
    && forall i | j < i < |ops| && (ops[i].op.Set? || ops[i].op.Delete?) :: ops[i].op.key != key
  }

  lemma {:induction false} MapHoldsLastWrite(max: int, ops: seq<Timed>, j: nat, key: string)
    requires LastWriteAt(ops, j, key)
    ensures var m, t := MapReplay(max, ops), ops[j];
      if t.op.Set? && !(max > 0 && |key| + |t.op.value| > max)
      then key in m && m[key] == Cell(t.op.value, Expiry(t.op.ttl, t.now)) else key !in m
  {
    var n := |ops| - 1;
    if j < n {
      MapHoldsLastWrite(max, ops[..n], j, key);
    }
  }

  lemma {:induction false} MapHoldsNothing(max: int, ops: seq<Timed>, key: string)
    requires forall i | 0 <= i < |ops| && (ops[i].op.Set? || ops[i].op.Delete?) :: ops[i].op.key != key
    ensures key !in MapReplay(max, ops)
  {
    if ops != [] { MapHoldsNothing(max, ops[..|ops| - 1], key); }
  }

  /** Without a limit and with a clock that never goes back, an entry lives from its `Set` for as long as
      its lifetime says, and for good when that is not positive: `Get` and `Delete` find it just then. */
  lemma LivesForItsLifetime(max: int, ops: seq<Timed>, j: nat, key: string, now: int)
    requires max <= 0 && Monotone(ops + [Timed(Get(key), now)]) && LastWriteAt(ops, j, key) && ops[j].op.Set?
    ensures var ttl, u := ops[j].op.ttl, ops[j].now;
      && Outcome(Replay(max, ops), max, Timed(Get(key), now))
         == (if ttl <= 0 || now < u + ttl then Found(ops[j].op.value) else Missing)
      && Outcome(Replay(max, ops), max, Timed(Delete(key), now)) == Deleted(ttl <= 0 || now < u + ttl)
  {
    var t, t' := Timed(Get(key), now), Timed(Delete(key), now);
    MapHoldsLastWrite(max, ops, j, key);
    RefinesMap(max, ops, t);
    assert Monotone(ops + [t']) by {
      forall i, k | 0 <= i < k < |ops + [t']| ensures (ops + [t'])[i].now <= (ops + [t'])[k].now {
        assert (ops + [t])[i].now <= (ops + [t])[k].now;
      }
    }
    RefinesMap(max, ops, t');
  }

  /** Under any limit and any clock, a key is found only with the value of its last write, and within
      the lifetime given there; a key that was deleted last or never set is not found. */
  lemma FoundIsLastSet(max: int, ops: seq<Timed>, key: string, now: int)
    ensures var result := Outcome(Replay(max, ops), max, Timed(Get(key), now));
      result.Found? ==> exists j: nat :: LastWriteAt(ops, j, key) && ops[j].op.Set? && result.value == ops[j].op.value
                                         && (ops[j].op.ttl <= 0 || now < ops[j].now + ops[j].op.ttl)
  {
    HitsAreCurrent(max, ops, Timed(Get(key), now));
    if Outcome(Replay(max, ops), max, Timed(Get(key), now)).Found? {
      if forall i | 0 <= i < |ops| && (ops[i].op.Set? || ops[i].op.Delete?) :: ops[i].op.key != key {
        MapHoldsNothing(max, ops, key);
        assert false;
      }
      var j := LastWriteOf(ops, key);
      MapHoldsLastWrite(max, ops, j, key);
    }
  }

  lemma {:induction false} LastWriteOf(ops: seq<Timed>, key: string) returns (j: nat)
    requires exists i :: 0 <= i < |ops| && (ops[i].op.Set? || ops[i].op.Delete?) && ops[i].op.key == key
    ensures LastWriteAt(ops, j, key)
  {
    var n := |ops| - 1;
    if (ops[n].op.Set? || ops[n].op.Delete?) && ops[n].op.key == key {
      j := n;
    } else {
      var i :| 0 <= i < |ops| && (ops[i].op.Set? || ops[i].op.Delete?) && ops[i].op.key == key;
      assert ops[..n][i] == ops[i];
      j := LastWriteOf(ops[..n], key);
    }
  }

  /** Under any limit and any clock, a cleanup keeps an entry exactly when its lifetime is not over. */
  lemma CleanupKeepsIff(max: int, ops: seq<Timed>, j: nat, r: Rec, now: int)
    requires r in Replay(max, ops) && LastWriteAt(ops, j, r.key)
    ensures ops[j].op.Set? && r.value == ops[j].op.value
    ensures r in Replay(max, ops + [Timed(Cleanup, now)]) <==> ops[j].op.ttl <= 0 || now < ops[j].now + ops[j].op.ttl
  {
    ReplaySound(max, ops);
    MapHoldsLastWrite(max, ops, j, r.key);
    ReplayOneMore(max, ops, Timed(Cleanup, now));
    hide Replay;
    FilterMembers(Replay(max, ops), (x: Rec) => !Expired(x.expires, now));
  }

  lemma {:induction false} MapIgnoresCleanup(max: int, a: seq<Timed>, now: int, b: seq<Timed>)
    ensures MapReplay(max, a + [Timed(Cleanup, now)] + b) == MapReplay(max, a + b)
  {
    var with := a + [Timed(Cleanup, now)] + b;
    if b == [] {
      assert with[..|with| - 1] == a && a + b == a;
    } else {
      var n := |b| - 1;
      MapIgnoresCleanup(max, a, now, b[..n]);
      assert with[..|with| - 1] == a + [Timed(Cleanup, now)] + b[..n];
      assert (a + b)[..|a + b| - 1] == a + b[..n];
    }
  }

  /** A cleanup at any point of any run changes no later answer, when there is no limit. */
  lemma CleanupInvisible(max: int, a: seq<Timed>, now: int, b: seq<Timed>, t: Timed)
    requires max <= 0 && Monotone(a + [Timed(Cleanup, now)] + b + [t])
    ensures Outcome(Replay(max, a + [Timed(Cleanup, now)] + b), max, t) == Outcome(Replay(max, a + b), max, t)
  {
    var with := a + [Timed(Cleanup, now)] + b;
    RefinesMap(max, with, t);
    assert Monotone(a + b + [t]) by {
      forall i, j | 0 <= i < j < |a + b + [t]| ensures (a + b + [t])[i].now <= (a + b + [t])[j].now {
        var i', j' := if i < |a| then i else i + 1, if j < |a| then j else j + 1;
        assert (with + [t])[i'].now <= (with + [t])[j'].now;
      }
    }
    RefinesMap(max, a + b, t);
    MapIgnoresCleanup(max, a, now, b);
  }

  // Exactly when a cleanup can show

  /** In this run, whose clock never goes back, the cleanup changes the answer to `t`. */
  ghost predicate CleanupShows(max: int, a: seq<Timed>, now: int, b: seq<Timed>, t: Timed) {
    && Monotone(a + [Timed(Cleanup, now)] + b + [t])
    && Outcome(Replay(max, a + [Timed(Cleanup, now)] + b), max, t) != Outcome(Replay(max, a + b), max, t)
  }

  lemma SetWithRoom(recs: seq<Rec>, max: int, key: string, value: string, ttl: int, now: int, tick: nat)
    requires forall r | r in recs :: r.key != key
    requires max > 0 && Sum(recs) + |key| + |value| <= max
    ensures AfterSet(recs, max, key, value, ttl, now, tick) == [Rec(key, value, Expiry(ttl, now), tick)] + recs
  {
    RemoveAbsent(recs, key);
  }

  /** An entry as large as the limit is stored alone, when the newest entry takes any room. */
  lemma SetEvictsAll(recs: seq<Rec>, max: int, key: string, value: string, ttl: int, now: int, tick: nat)
    requires (forall r | r in recs :: r.key != key) && recs != [] && Size(recs[0]) > 0
    requires 0 < max == |key| + |value|
    ensures AfterSet(recs, max, key, value, ttl, now, tick) == [Rec(key, value, Expiry(ttl, now), tick)]
  {
    RemoveAbsent(recs, key);
    EvictShortest(recs, max, max);
    var kept := Evict(recs, max, max);
    PrefixSum(recs, kept);
  }

  lemma PrefixSum(recs: seq<Rec>, kept: seq<Rec>)
    requires recs != [] && kept <= recs
    ensures kept == [] || Sum(kept) >= Size(recs[0])
  {
  }

  lemma LivePair(a: Rec, b: Rec, now: int)
    requires Expired(a.expires, now) && !Expired(b.expires, now)
    ensures Live([a, b], now) == [b]
  {
    assert [a, b][1..] == [b] && [b][1..] == [];
    assert Live([b], now) == [b] + Live([], now);
  }

  lemma LookupPair(a: Rec, b: Rec, now: int)
    requires a.key != b.key && !Expired(b.expires, now)
    ensures Lookup([a], b.key, now) == None && Lookup([a] + [b], b.key, now) == Some(b)
  {
    assert [a][1..] == [] && ([a] + [b])[1..] == [b];
  }

  /** Keys of the given length that differ in every letter. */
  function Filled(n: nat, c: char): string { seq(n, _ => c) }

  /** An entry without size, then one that fills the limit and has expired by time 1. */
  lemma {:induction false} FilledStore(max: nat) returns (a: seq<Timed>, live: Rec, expiring: Rec)
    requires max > 0
    ensures live == Rec("", "", None, 0) && expiring == Rec(Filled(max, 'e'), "", Some(1), 1)
    ensures |a| == 2 && a[0].now == 0 && a[1].now == 0 && Replay(max, a) == [expiring, live]
  {
    var s, s' := Timed(Set("", "", 0), 0), Timed(Set(Filled(max, 'e'), "", 1), 0);
    live, expiring := Rec("", "", None, 0), Rec(Filled(max, 'e'), "", Some(1), 1);
    a := [s] + [s'];
    assert [] + [s] == [s] && [live] + [] == [live] && [expiring] + [live] == [expiring, live];
    hide Replay, AfterSet;
    ReplayOneMore(max, [], s);
    SetWithRoom([], max, "", "", 0, 0, 0);
    EmptyReplay(max);
    assert Sum([live]) == 0 by { assert [live][1..] == []; }
    ReplayOneMore(max, [s], s');
    SetWithRoom([live], max, Filled(max, 'e'), "", 1, 0, 1);
  }

  lemma EmptyReplay(max: int)
    ensures Replay(max, []) == [] && Sum([]) == 0
  {
  }

  /** The entry whose insertion needs all the room there is. */
  function Filler(max: nat): Timed { Timed(Set(Filled(max, 'x'), "", 0), 1) }

  lemma FilledKeysDiffer(max: nat)
    requires max > 0
    ensures |Filled(max, 'x')| == |Filled(max, 'e')| == max && Filled(max, 'x') != Filled(max, 'e')
  {
    assert Filled(max, 'x')[0] != Filled(max, 'e')[0];
  }

  lemma {:induction false} EvictedWithoutCleanup(max: nat, a: seq<Timed>, live: Rec, expiring: Rec)
    requires max > 0 && live == Rec("", "", None, 0) && expiring == Rec(Filled(max, 'e'), "", Some(1), 1)
    requires |a| == 2 && Replay(max, a) == [expiring, live]
    ensures Outcome(Replay(max, a + [Filler(max)]), max, Timed(Get(""), 1)) == Missing
  {
    FilledKeysDiffer(max);
    hide Replay, AfterSet, Filled;
    var x := Rec(Filled(max, 'x'), "", None, 2);
    ReplayOneMore(max, a, Filler(max));
    SetEvictsAll([expiring, live], max, x.key, "", 0, 1, 2);
    LookupPair(x, live, 1);
  }

  lemma {:induction false} SavedByCleanup(max: nat, a: seq<Timed>, live: Rec, expiring: Rec)
    requires max > 0 && live == Rec("", "", None, 0) && expiring == Rec(Filled(max, 'e'), "", Some(1), 1)
    requires |a| == 2 && Replay(max, a) == [expiring, live]
    ensures Outcome(Replay(max, a + [Timed(Cleanup, 1)] + [Filler(max)]), max, Timed(Get(""), 1)) == Found("")
  {
    FilledKeysDiffer(max);
    assert Sum([live]) == 0 by { assert [live][1..] == []; }
    hide Replay, AfterSet, Filled, Sum;
    var x := Rec(Filled(max, 'x'), "", None, 3);
    ReplayOneMore(max, a, Timed(Cleanup, 1));
    LivePair(expiring, live, 1);
    ReplayOneMore(max, a + [Timed(Cleanup, 1)], Filler(max));
    SetWithRoom([live], max, x.key, "", 0, 1, 3);
    LookupPair(x, live, 1);
  }

  /** Under any limit a cleanup can save a live entry from eviction. The entry saved takes no room, so its
      key is empty: the store takes such keys, though none comes over the wire. */
  lemma CleanupShowsUnderLimit(max: nat) returns (a: seq<Timed>, b: seq<Timed>, t: Timed)
    requires max > 0
    ensures CleanupShows(max, a, 1, b, t)
  {
    var live, expiring;
    a, live, expiring := FilledStore(max);
    b, t := [Filler(max)], Timed(Get(""), 1);
    EvictedWithoutCleanup(max, a, live, expiring);
    SavedByCleanup(max, a, live, expiring);
    hide Replay, Outcome, Filled;
  }

  /** A cleanup anywhere in a run of the store whose clock never goes back changes no later answer, for all
      runs, exactly when there is no limit. */
  lemma CleanupInvisibleIff(max: int)
    ensures (forall a, now, b, t :: !CleanupShows(max, a, now, b, t)) <==> max <= 0
  {
    if max <= 0 {
      forall a, now, b, t ensures !CleanupShows(max, a, now, b, t) {
        if Monotone(a + [Timed(Cleanup, now)] + b + [t]) { CleanupInvisible(max, a, now, b, t); }
      }
    } else {
      var a, b, t := CleanupShowsUnderLimit(max);
    }
  }

  // What the length counts

  lemma {:induction false} LiveIsPart(recs: seq<Rec>, now: int)
    ensures |Live(recs, now)| <= |recs|
    ensures |Live(recs, now)| == |recs| <==> forall r | r in recs :: !Expired(r.expires, now)
  {
    if recs != [] {
      LiveIsPart(recs[1..], now);
      assert recs == [recs[0]] + recs[1..];
    }
  }

  /** After any run the length is the number of live entries exactly when none has expired. */
  lemma LenCountsLiveIff(max: int, ops: seq<Timed>, now: int)
    ensures var recs := Replay(max, ops);
      |recs| == |Live(recs, now)| <==> forall r | r in recs :: !Expired(r.expires, now)
  {
    LiveIsPart(Replay(max, ops), now);
  }

  /** A single entry that has expired is counted, and nothing is live. */
  lemma ExpiredIsCounted(max: int, key: string, value: string, ttl: int, now: int, later: int)
    requires ttl > 0 && later >= now + ttl && (max <= 0 || |key| + |value| <= max)
    ensures var recs := Replay(max, [Timed(Set(key, value, ttl), now)]); |recs| == 1 && Live(recs, later) == []
  {
    var t := Timed(Set(key, value, ttl), now);
    ReplayOneMore(max, [], t);
    EmptyReplay(max);
    assert [] + [t] == [t];
    RemoveAbsent([], key);
    var rec := Rec(key, value, Some(now + ttl), 0);
    assert Replay(max, [t]) == [rec];
    LiveNone(rec, later);
  }

  lemma LiveNone(rec: Rec, now: int)
    requires Expired(rec.expires, now)
    ensures Live([rec], now) == []
  {
    assert [rec][1..] == [];
    assert Live([rec], now) == Live([], now);
  }
}
