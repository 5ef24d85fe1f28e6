/** The meaning of the consistent-hash ring (internal/cluster/ring.go): a table from positions to
    node ids, read clockwise from the position of a key. The hash function is left open. */
module HashRing {
  import opened SortedSeqs

  type Id = string
  type Table = map<nat, Id>

  // Sequences

  function Without<T(==, !new)>(s: seq<T>, x: T): (r: seq<T>)
    ensures |r| <= |s| && forall y :: y in r <==> y in s && y != x
  {
    if s == [] then []
    else assert s == [s[0]] + s[1..]; if s[0] == x then Without(s[1..], x) else [s[0]] + Without(s[1..], x)
  }

  /** Every element once, in the order of first occurrence. */
  function Dedupe<T(==, !new)>(s: seq<T>): (r: seq<T>)
    ensures forall y :: y in r <==> y in s
    ensures forall i, j | 0 <= i < j < |r| :: r[i] != r[j]
    decreases |s|
  {
    if s == [] then []
    else
      var rest := Dedupe(Without(s[1..], s[0]));
      assert s == [s[0]] + s[1..];
      assert forall i | 0 <= i < |rest| :: rest[i] in rest;
      [s[0]] + rest
  }

  lemma {:induction false} WithoutConcat<T(!new)>(a: seq<T>, b: seq<T>, x: T)
    ensures Without(a + b, x) == Without(a, x) + Without(b, x)
  {
    if a == [] {
      assert a + b == b;
    } else {
      assert (a + b)[1..] == a[1..] + b;
      WithoutConcat(a[1..], b, x);
    }
  }

  lemma {:induction false} WithoutSwap<T(!new)>(s: seq<T>, x: T, y: T)
    ensures Without(Without(s, x), y) == Without(Without(s, y), x)
  {
    if s != [] { WithoutSwap(s[1..], x, y); }
  }

  lemma {:induction false} WithoutAbsent<T(!new)>(s: seq<T>, x: T)
    requires x !in s
    ensures Without(s, x) == s
  {
    if s != [] { WithoutAbsent(s[1..], x); }
  }

  /** Deleting and keeping first occurrences commute. */
  lemma {:induction false} DedupeWithout<T(!new)>(s: seq<T>, x: T)
    ensures Without(Dedupe(s), x) == Dedupe(Without(s, x))
    decreases |s|
  {
    if s != [] {
      var rest := Without(s[1..], s[0]);
      DedupeWithout(rest, x);
      if s[0] == x {
        WithoutAbsent(rest, x);
      } else {
        WithoutSwap(s[1..], s[0], x);
      }
    }
  }

  lemma {:induction false} DedupeAppend<T(!new)>(s: seq<T>, x: T)
    ensures Dedupe(s + [x]) == if x in s then Dedupe(s) else Dedupe(s) + [x]
    decreases |s|
  {
    if s == [] {
      assert s + [x] == [x];
    } else {
      assert (s + [x])[1..] == s[1..] + [x];
      assert s == [s[0]] + s[1..];
      WithoutConcat(s[1..], [x], s[0]);
      if x == s[0] {
        assert Without(s[1..], x) + Without([x], x) == Without(s[1..], x);
      } else {
        assert Without([x], s[0]) == [x];
        DedupeAppend(Without(s[1..], s[0]), x);
      }
    }
  }

  /** A longer walk only adds owners at the end. */
  lemma {:induction false} DedupePrefix<T(!new)>(s: seq<T>, k: nat)
    requires k <= |s|
    ensures Dedupe(s[..k]) <= Dedupe(s)
    decreases |s|
  {
    if k == |s| {
      assert s[..k] == s;
    } else {
      var front, last := s[..|s| - 1], s[|s| - 1];
      DedupePrefix(front, k);
      assert front[..k] == s[..k] && s == front + [last];
      DedupeAppend(front, last);
    }
  }

  lemma DedupeStep<T(!new)>(s: seq<T>, k: nat)
    requires k < |s|
    ensures Dedupe(s[..k + 1]) == if s[k] in s[..k] then Dedupe(s[..k]) else Dedupe(s[..k]) + [s[k]]
    ensures forall x :: x in s[..k + 1] <==> x in s[..k] || x == s[k]
  {
    assert s[..k + 1] == s[..k] + [s[k]];
    DedupeAppend(s[..k], s[k]);
  }

  // Reading clockwise

  function AtLeast(s: seq<nat>, k: nat): seq<nat> {
    if s == [] then [] else if s[0] >= k then [s[0]] + AtLeast(s[1..], k) else AtLeast(s[1..], k)
  }

  function Below(s: seq<nat>, k: nat): seq<nat> {
    if s == [] then [] else if s[0] < k then [s[0]] + Below(s[1..], k) else Below(s[1..], k)
  }

  /** From position `k` on, then around to it. */
  function Clockwise(s: seq<nat>, k: nat): seq<nat> {
    AtLeast(s, k) + Below(s, k)
  }

  ghost predicate Covers(t: Table, s: seq<nat>) {
    forall h | h in s :: h in t
  }

  ghost function OwnersOf(t: Table, s: seq<nat>): (r: seq<Id>)
    requires Covers(t, s)
    ensures |r| == |s| && forall i | 0 <= i < |s| :: r[i] == t[s[i]]
  {
    seq(|s|, i requires 0 <= i < |s| => t[s[i]])
  }

  lemma {:induction false} ClockwiseElements(s: seq<nat>, k: nat)
    ensures forall h :: h in Clockwise(s, k) <==> h in s
    ensures forall h :: h in AtLeast(s, k) <==> h in s && h >= k
    ensures forall h :: h in Below(s, k) <==> h in s && h < k
  {
    if s != [] {
      ClockwiseElements(s[1..], k);
      assert s == [s[0]] + s[1..];
    }
  }

  lemma ListingCovers(t: Table, k: nat)
    ensures Covers(t, Clockwise(Listing(t.Keys), k))
  {
    var s := Listing(t.Keys);
    ClockwiseElements(s, k);
    forall h | h in Clockwise(s, k) ensures h in t { assert h in Elements(s); }
  }

  /** The distinct owners met clockwise from `k`, first met first. */
  ghost function Owners(t: Table, k: nat): seq<Id> {
    ListingCovers(t, k);
    Dedupe(OwnersOf(t, Clockwise(Listing(t.Keys), k)))
  }

  ghost function Take<T>(s: seq<T>, n: nat): (r: seq<T>)
    ensures |r| <= n && r <= s
  {
    if n < |s| then s[..n] else s
  }

  // The clockwise successor

  /** The first position at or after `k`, or the least one if there is none. */
  ghost predicate IsSuccessor(keys: set<nat>, k: nat, h: nat) {
    && h in keys
    && if h >= k then forall g | g in keys && g >= k :: h <= g else forall g | g in keys :: g < k && h <= g
  }

  lemma SuccessorUnique(keys: set<nat>, k: nat, g: nat, h: nat)
    requires IsSuccessor(keys, k, g) && IsSuccessor(keys, k, h)
    ensures g == h
  {
  }

  lemma {:induction false} FirstIsLeast(s: seq<nat>, k: nat)
    requires Ascending(s)
    ensures AtLeast(s, k) != [] ==> forall g | g in s && g >= k :: AtLeast(s, k)[0] <= g
    ensures Below(s, k) != [] ==> forall g | g in s :: Below(s, k)[0] <= g
  {
    if s != [] {
      FirstIsLeast(s[1..], k);
      assert s == [s[0]] + s[1..];
      ClockwiseElements(s[1..], k);
      if Below(s[1..], k) != [] { assert Below(s[1..], k)[0] in s[1..]; }
    }
  }

  /** The walk from `k` starts at the successor. */
  lemma WalkStartsAtSuccessor(s: seq<nat>, k: nat)
    requires Ascending(s) && s != []
    ensures Clockwise(s, k) != [] && IsSuccessor(Elements(s), k, Clockwise(s, k)[0])
  {
    ClockwiseElements(s, k);
    FirstIsLeast(s, k);
    assert s[0] in Clockwise(s, k);
    var h := Clockwise(s, k)[0];
    if AtLeast(s, k) != [] {
      assert h == AtLeast(s, k)[0] && h in AtLeast(s, k);
    } else {
      assert h == Below(s, k)[0] && h in Below(s, k);
      forall g | g in s ensures g < k { assert g !in AtLeast(s, k); }
    }
  }

  // Deleting a node

  function Drop(s: seq<nat>, gone: set<nat>): (r: seq<nat>)
    ensures forall h :: h in r <==> h in s && h !in gone
  {
    if s == [] then []
    else assert s == [s[0]] + s[1..]; if s[0] in gone then Drop(s[1..], gone) else [s[0]] + Drop(s[1..], gone)
  }

  lemma {:induction false} DropConcat(a: seq<nat>, b: seq<nat>, gone: set<nat>)
    ensures Drop(a + b, gone) == Drop(a, gone) + Drop(b, gone)
  {
    if a == [] {
      assert a + b == b;
    } else {
      assert (a + b)[1..] == a[1..] + b;
      DropConcat(a[1..], b, gone);
    }
  }

  lemma {:induction false} DropFilters(s: seq<nat>, k: nat, gone: set<nat>)
    ensures Drop(AtLeast(s, k), gone) == AtLeast(Drop(s, gone), k)
    ensures Drop(Below(s, k), gone) == Below(Drop(s, gone), k)
  {
    if s != [] { DropFilters(s[1..], k, gone); }
  }

  lemma DropClockwise(s: seq<nat>, k: nat, gone: set<nat>)
    ensures Drop(Clockwise(s, k), gone) == Clockwise(Drop(s, gone), k)
  {
    DropConcat(AtLeast(s, k), Below(s, k), gone);
    DropFilters(s, k, gone);
  }

  lemma {:induction false} DropStrict(s: seq<nat>, gone: set<nat>)
    requires Strict(s)
    ensures Strict(Drop(s, gone))
  {
    if s != [] {
      DropStrict(s[1..], gone);
      var rest := Drop(s[1..], gone);
      forall i | 0 <= i < |rest| ensures s[0] < rest[i] { assert rest[i] in s[1..]; }
    }
  }

  lemma DropListing(keys: set<nat>, gone: set<nat>)
    ensures Drop(Listing(keys), gone) == Listing(keys - gone)
  {
    DropStrict(Listing(keys), gone);
    var a, b := Drop(Listing(keys), gone), Listing(keys - gone);
    forall h ensures h in a <==> h in b {
      assert h in Listing(keys) <==> h in Elements(Listing(keys));
      assert h in b <==> h in Elements(b);
    }
    assert Elements(a) == Elements(b);
    ListingUnique(a, b);
  }

  /** The positions `x` owns. */
  ghost function OwnedBy(t: Table, x: Id): set<nat> {
    set h | h in t && t[h] == x
  }

  /** The table without the positions of `x`. */
  ghost function Minus(t: Table, x: Id): (r: Table)
    ensures r.Keys == t.Keys - OwnedBy(t, x)
  {
    map h | h in t && t[h] != x :: t[h]
  }

  lemma OwnersCons(t: Table, s: seq<nat>)
    requires Covers(t, s) && s != []
    ensures s[0] in t && Covers(t, s[1..]) && OwnersOf(t, s) == [t[s[0]]] + OwnersOf(t, s[1..])
  {
  }

  lemma {:induction false} OwnersWithout(t: Table, s: seq<nat>, x: Id)
    requires Covers(t, s)
    ensures Covers(Minus(t, x), Drop(s, OwnedBy(t, x)))
    ensures Without(OwnersOf(t, s), x) == OwnersOf(Minus(t, x), Drop(s, OwnedBy(t, x)))
  {
    if s != [] {
      OwnersWithout(t, s[1..], x);
      OwnersCons(t, s);
      var kept := Drop(s, OwnedBy(t, x));
      if t[s[0]] != x { OwnersCons(Minus(t, x), kept); }
      hide Covers, OwnersOf, Minus;
    }
  }

  /** The owners of every key without `x` are the owners in the table without `x`. */
  lemma OwnersMinus(t: Table, k: nat, x: Id)
    ensures Without(Owners(t, k), x) == Owners(Minus(t, x), k)
  {
    var s, gone := Listing(t.Keys), OwnedBy(t, x);
    ListingCovers(t, k);
    ListingCovers(Minus(t, x), k);
    DropClockwise(s, k, gone);
    DropListing(t.Keys, gone);
    OwnersWithout(t, Clockwise(s, k), x);
    DedupeWithout(OwnersOf(t, Clockwise(s, k)), x);
  }

  lemma {:induction false} TakeWithout<T(!new)>(s: seq<T>, n: nat, x: T)
    ensures Without(Take(s, n), x) <= Take(Without(s, x), n)
  {
    if n < |s| {
      assert s == s[..n] + s[n..];
      WithoutConcat(s[..n], s[n..], x);
    }
  }

  /** Deleting `x` from the first `n` owners leaves a prefix of the first `n` owners without `x`. */
  lemma ReplicasMinus(t: Table, k: nat, n: nat, x: Id)
    ensures Without(Take(Owners(t, k), n), x) <= Take(Owners(Minus(t, x), k), n)
  {
    OwnersMinus(t, k, x);
    TakeWithout(Owners(t, k), n, x);
  }

  // A walk may meet a position more than once

  lemma {:induction false} OwnersSkip(t: Table, s: seq<nat>, h: nat)
    requires Covers(t, s) && h in t
    ensures Covers(t, Without(s, h))
    ensures Without(OwnersOf(t, Without(s, h)), t[h]) == Without(OwnersOf(t, s), t[h])
  {
    if s != [] {
      OwnersSkip(t, s[1..], h);
      OwnersCons(t, s);
      if s[0] != h { OwnersCons(t, Without(s, h)); }
    }
  }

  /** Meeting a position again changes no owner list. */
  lemma {:induction false} OwnersDedupe(t: Table, s: seq<nat>)
    requires Covers(t, s)
    ensures Covers(t, Dedupe(s)) && Dedupe(OwnersOf(t, s)) == Dedupe(OwnersOf(t, Dedupe(s)))
    decreases |s|
  {
    if s != [] {
      var h, rest := s[0], Without(s[1..], s[0]);
      OwnersDedupe(t, rest);
      OwnersSkip(t, s[1..], h);
      assert OwnersOf(t, s)[1..] == OwnersOf(t, s[1..]);
      assert OwnersOf(t, Dedupe(s))[1..] == OwnersOf(t, Dedupe(rest));
      DedupeWithout(OwnersOf(t, rest), t[h]);
      DedupeWithout(OwnersOf(t, Dedupe(rest)), t[h]);
      DedupeWithout(OwnersOf(t, s[1..]), t[h]);
    }
  }

  lemma {:induction false} DedupeConcat<T(!new)>(a: seq<T>, b: seq<T>)
    requires forall x | x in a :: x !in b
    ensures Dedupe(a + b) == Dedupe(a) + Dedupe(b)
    decreases |a|
  {
    if a == [] {
      assert a + b == b;
    } else {
      assert (a + b)[1..] == a[1..] + b && a == [a[0]] + a[1..];
      WithoutConcat(a[1..], b, a[0]);
      WithoutAbsent(b, a[0]);
      DedupeConcat(Without(a[1..], a[0]), b);
    }
  }

  lemma {:induction false} WithoutFilters(s: seq<nat>, k: nat, h: nat)
    ensures Without(AtLeast(s, k), h) == AtLeast(Without(s, h), k)
    ensures Without(Below(s, k), h) == Below(Without(s, h), k)
  {
    if s != [] { WithoutFilters(s[1..], k, h); }
  }

  lemma {:induction false} DedupeFilters(s: seq<nat>, k: nat)
    ensures Dedupe(AtLeast(s, k)) == AtLeast(Dedupe(s), k)
    ensures Dedupe(Below(s, k)) == Below(Dedupe(s), k)
    decreases |s|
  {
    if s != [] {
      var rest := Without(s[1..], s[0]);
      DedupeFilters(rest, k);
      WithoutFilters(s[1..], k, s[0]);
      assert s[0] !in rest;
      ClockwiseElements(rest, k);
      DropHeadFilters(s, k);
    }
  }

  /** Filtering before or after setting the head aside. */
  lemma DropHeadFilters(s: seq<nat>, k: nat)
    requires s != []
    ensures var rest := Without(s[1..], s[0]);
      && Dedupe(AtLeast(s, k)) == (if s[0] >= k then [s[0]] else []) + Dedupe(AtLeast(rest, k))
      && Dedupe(Below(s, k)) == (if s[0] < k then [s[0]] else []) + Dedupe(Below(rest, k))
  {
    WithoutFilters(s[1..], k, s[0]);
    ClockwiseElements(s[1..], k);
    if s[0] >= k {
      assert AtLeast(s, k)[1..] == AtLeast(s[1..], k);
      WithoutAbsent(Below(s[1..], k), s[0]);
    } else {
      assert Below(s, k)[1..] == Below(s[1..], k);
      WithoutAbsent(AtLeast(s[1..], k), s[0]);
    }
  }

  lemma DedupeClockwise(s: seq<nat>, k: nat)
    ensures Dedupe(Clockwise(s, k)) == Clockwise(Dedupe(s), k)
  {
    ClockwiseElements(s, k);
    DedupeConcat(AtLeast(s, k), Below(s, k));
    DedupeFilters(s, k);
  }

  lemma {:induction false} WithoutAscending(s: seq<nat>, h: nat)
    requires Ascending(s)
    ensures Ascending(Without(s, h))
  {
    if s != [] {
      WithoutAscending(s[1..], h);
      var rest := Without(s[1..], h);
      forall i | 0 <= i < |rest| ensures s[0] <= rest[i] { assert rest[i] in s[1..]; }
    }
  }

  lemma {:induction false} DedupeStrict(s: seq<nat>)
    requires Ascending(s)
    ensures Strict(Dedupe(s))
    decreases |s|
  {
    if s != [] {
      var rest := Without(s[1..], s[0]);
      WithoutAscending(s[1..], s[0]);
      DedupeStrict(rest);
      var r := Dedupe(rest);
      forall i | 0 <= i < |r| ensures s[0] < r[i] { assert r[i] in rest && r[i] in s[1..]; }
    }
  }

  /** Walking any ascending listing of the positions, repeats included, meets the owners in order. */
  lemma WalkOwners(t: Table, hashes: seq<nat>, k: nat)
    requires Ascending(hashes) && Elements(hashes) == t.Keys
    ensures Covers(t, Clockwise(hashes, k)) && Dedupe(OwnersOf(t, Clockwise(hashes, k))) == Owners(t, k)
  {
    ClockwiseElements(hashes, k);
    forall h | h in Clockwise(hashes, k) ensures h in t { assert h in Elements(hashes); }
    hide Clockwise, Dedupe, Listing, Elements;
    OwnersDedupe(t, Clockwise(hashes, k));
    DedupeClockwise(hashes, k);
    DedupeIsListing(hashes);
  }

  /** Keeping first occurrences of an ascending sequence lists its elements. */
  lemma DedupeIsListing(s: seq<nat>)
    requires Ascending(s)
    ensures Dedupe(s) == Listing(Elements(s))
  {
    DedupeStrict(s);
    hide Dedupe, Listing;
    assert Elements(Dedupe(s)) == Elements(s);
    ListingUnique(Dedupe(s), Listing(Elements(s)));
  }

  // Owners and their number

  lemma OwnersStart(t: Table, k: nat, h: nat)
    requires IsSuccessor(t.Keys, k, h)
    ensures Owners(t, k) != [] && Owners(t, k)[0] == t[h]
  {
    var s := Listing(t.Keys);
    assert h in Elements(s);
    NoElements(s);
    WalkStartsAtSuccessor(s, k);
    SuccessorUnique(t.Keys, k, h, Clockwise(s, k)[0]);
    ListingCovers(t, k);
    assert OwnersOf(t, Clockwise(s, k))[0] == t[h];
  }

  lemma {:induction false} DistinctLength<T(!new)>(s: seq<T>, elems: set<T>)
    requires (forall i, j | 0 <= i < j < |s| :: s[i] != s[j]) && forall x :: x in s <==> x in elems
    ensures |s| == |elems|
  {
    if s == [] {
      assert elems == {};
    } else {
      forall x ensures x in s[1..] <==> x in elems - {s[0]} { assert s == [s[0]] + s[1..]; }
      DistinctLength(s[1..], elems - {s[0]});
    }
  }

  lemma WalkMeetsAll(t: Table, w: seq<nat>, x: Id)
    requires Covers(t, w) && forall h | h in t :: h in w
    ensures x in OwnersOf(t, w) <==> x in t.Values
  {
    if x in t.Values {
      var h :| h in t && t[h] == x;
      var i :| 0 <= i < |w| && w[i] == h;
      assert OwnersOf(t, w)[i] == x;
    }
  }

  /** Every node that owns a position is met, once. */
  lemma OwnersCount(t: Table, k: nat)
    ensures |Owners(t, k)| == |t.Values|
    ensures forall x :: x in Owners(t, k) <==> x in t.Values
    ensures forall i, j | 0 <= i < j < |Owners(t, k)| :: Owners(t, k)[i] != Owners(t, k)[j]
  {
    var w := Clockwise(Listing(t.Keys), k);
    ListingCovers(t, k);
    forall h | h in t ensures h in w {
      ClockwiseElements(Listing(t.Keys), k);
      assert h in Elements(Listing(t.Keys));
    }
    hide Clockwise, OwnersOf, Covers, Dedupe;
    forall x ensures x in Owners(t, k) <==> x in t.Values { WalkMeetsAll(t, w, x); }
    DistinctLength(Owners(t, k), t.Values);
  }

  // Joining and leaving

  /** The table after `x` claims `positions`, taking over any that were owned. */
  ghost function Claimed(t: Table, positions: set<nat>, x: Id): (r: Table)
    ensures r.Keys == t.Keys + positions
  {
    t + map h | h in positions :: x
  }

  /** The table after the node with `positions` gives them up, whoever owns them by now. */
  ghost function Released(t: Table, positions: set<nat>): (r: Table)
    ensures r.Keys == t.Keys - positions
  {
    t - positions
  }

  lemma ClaimedOneMore(t: Table, positions: set<nat>, x: Id, h: nat)
    ensures Claimed(t, positions, x)[h := x] == Claimed(t, positions + {h}, x)
    ensures Released(t, positions) - {h} == Released(t, positions + {h})
  {
  }

  lemma SuccessorExists(keys: set<nat>, k: nat)
    requires keys != {}
    ensures exists h :: IsSuccessor(keys, k, h)
  {
    var s := Listing(keys);
    NoElements(s);
    WalkStartsAtSuccessor(s, k);
  }

  /** Whatever the hash function, a join moves keys only to the joining node. */
  lemma JoinMovesOnlyToJoiner(t: Table, positions: set<nat>, x: Id, k: nat)
    requires t != map[]
    ensures Owners(t, k) != [] && Owners(Claimed(t, positions, x), k) != []
    ensures Owners(Claimed(t, positions, x), k)[0] in {x, Owners(t, k)[0]}
  {
    var t' := Claimed(t, positions, x);
    assert t.Keys != {} by { var h :| h in t; }
    assert t'.Keys != {};
    SuccessorExists(t.Keys, k);
    SuccessorExists(t'.Keys, k);
    var h :| IsSuccessor(t.Keys, k, h);
    var h' :| IsSuccessor(t'.Keys, k, h');
    OwnersStart(t, k, h);
    OwnersStart(t', k, h');
    if h' !in positions { SuccessorUnique(t.Keys, k, h, h'); }
  }

  /** Keys of other nodes keep their owner when a node leaves exactly when every position of its
      that another node had taken over is followed, outside its positions, by one of that node. */
  lemma LeaveMovesOnlyItsOwnIff(t: Table, positions: set<nat>, x: Id)
    ensures (forall k :: KeepsOwner(t, Released(t, positions), k, x)) <==> PassedOn(t, positions, x)
  {
    var t' := Released(t, positions);
    if PassedOn(t, positions, x) {
      forall k ensures KeepsOwner(t, t', k, x) { LeaveKeeps(t, positions, x, k); }
    } else {
      var h :| h in positions && h in t && t[h] != x && !Follows(t, positions, h, t[h]);
      OwnersStart(t, h, h);
      assert !KeepsOwner(t, t', h, x) by {
        if KeepsOwner(t, t', h, x) { var g := FirstOwner(t', h); }
      }
    }
  }

  /** A key of a node other than `x` has the same owner in both tables. */
  ghost predicate KeepsOwner(t: Table, t': Table, k: nat, x: Id) {
    Owners(t, k) != [] && Owners(t, k)[0] != x ==> Owners(t', k) != [] && Owners(t', k)[0] == Owners(t, k)[0]
  }

  /** The first position from `h` on outside `positions` exists and belongs to `y`. */
  ghost predicate Follows(t: Table, positions: set<nat>, h: nat, y: Id) {
    exists g :: IsSuccessor(t.Keys - positions, h, g) && t[g] == y
  }

  /** Each of the positions that belongs to another node than `x` is followed by one of that node. */
  ghost predicate PassedOn(t: Table, positions: set<nat>, x: Id) {
    forall h | h in positions && h in t && t[h] != x :: Follows(t, positions, h, t[h])
  }

  lemma FirstOwner(t: Table, k: nat) returns (h: nat)
    requires Owners(t, k) != []
    ensures IsSuccessor(t.Keys, k, h) && Owners(t, k)[0] == t[h]
  {
    OwnersCount(t, k);
    assert Owners(t, k)[0] in t.Values;
    assert t.Keys != {};
    SuccessorExists(t.Keys, k);
    h :| IsSuccessor(t.Keys, k, h);
    OwnersStart(t, k, h);
  }

  lemma LeaveKeeps(t: Table, positions: set<nat>, x: Id, k: nat)
    requires PassedOn(t, positions, x)
    ensures KeepsOwner(t, Released(t, positions), k, x)
  {
    var t' := Released(t, positions);
    if Owners(t, k) != [] && Owners(t, k)[0] != x {
      var h := FirstOwner(t, k);
      var g := h;
      if h in positions {
        g :| IsSuccessor(t'.Keys, h, g) && t[g] == t[h];
      }
      assert IsSuccessor(t'.Keys, k, g);
      OwnersStart(t', k, g);
    }
  }

  /** Without the joining node nothing is left at the positions it claims. */
  lemma ClaimedMinus(t: Table, positions: set<nat>, x: Id)
    requires x !in t.Values
    ensures Minus(Claimed(t, positions, x), x) == Released(t, positions)
    ensures Released(Claimed(t, positions, x), positions) == Released(t, positions)
    ensures positions !! t.Keys ==> Released(t, positions) == t
  {
    forall h | h in t ensures t[h] != x { assert t[h] in t.Values; }
    assert Minus(Claimed(t, positions, x), x).Keys == Released(t, positions).Keys;
  }

  // Replica lists when positions collide

  /** `b` comes after `a` on the walk from `k`. */
  ghost predicate After(k: nat, a: nat, b: nat) {
    if a >= k then b < k || a < b else a < b < k
  }

  lemma {:induction false} FiltersAscend(s: seq<nat>, k: nat)
    requires Strict(s)
    ensures Strict(AtLeast(s, k)) && Strict(Below(s, k))
  {
    if s != [] {
      FiltersAscend(s[1..], k);
      ClockwiseElements(s[1..], k);
      var a, b := AtLeast(s[1..], k), Below(s[1..], k);
      forall i | 0 <= i < |a| ensures s[0] < a[i] { assert a[i] in s[1..]; }
      forall i | 0 <= i < |b| ensures s[0] < b[i] { assert b[i] in s[1..]; }
    }
  }

  lemma ClockwiseOrder(s: seq<nat>, k: nat)
    requires Strict(s)
    ensures var w := Clockwise(s, k); forall i, j | 0 <= i < j < |w| :: After(k, w[i], w[j])
  {
    FiltersAscend(s, k);
    ClockwiseElements(s, k);
    var a, b := AtLeast(s, k), Below(s, k);
    assert forall i | 0 <= i < |a| :: a[i] in a;
    assert forall i | 0 <= i < |b| :: b[i] in b;
  }

  /** The first element that is not dropped, where there is one. */
  lemma {:induction false} DropStart(s: seq<nat>, gone: set<nat>) returns (m: nat)
    requires Drop(s, gone) != []
    ensures m < |s| && s[m] == Drop(s, gone)[0] && s[m] !in gone && forall i | 0 <= i < m :: s[i] in gone
  {
    if s[0] in gone {
      m := DropStart(s[1..], gone);
      m := m + 1;
    } else {
      m := 0;
    }
  }

  /** What comes first after `h` on a walk that passes it is its successor. */
  lemma FirstAfter(keys: set<nat>, k: nat, h: nat, g: nat)
    requires g in keys && After(k, h, g) && forall e | e in keys :: e == g || After(k, e, h) || After(k, g, e)
    ensures IsSuccessor(keys, h, g)
  {
  }

  lemma WalkInOrder(keys: set<nat>, k: nat)
    ensures var w := Clockwise(Listing(keys), k);
      (forall i, j | 0 <= i < j < |w| :: After(k, w[i], w[j])) && forall h :: h in w <==> h in keys
  {
    ClockwiseOrder(Listing(keys), k);
    ClockwiseElements(Listing(keys), k);
    hide Clockwise, After;
    forall h ensures h in Listing(keys) <==> h in keys {
      assert h in Listing(keys) <==> h in Elements(Listing(keys));
    }
  }

  /** Past a dropped position the walk goes on at its successor among the others. */
  lemma NextIsSuccessor(keys: set<nat>, w: seq<nat>, gone: set<nat>, k: nat, i: nat)
    requires (forall i, j | 0 <= i < j < |w| :: After(k, w[i], w[j])) && forall h :: h in w <==> h in keys
    requires i < |w| && w[i] in gone && Drop(w[i..], gone) != []
    ensures IsSuccessor(keys - gone, w[i], Drop(w[i..], gone)[0])
  {
    var m := DropStart(w[i..], gone);
    var h, g := w[i], w[i + m];
    assert g in w && After(k, h, g);
    forall j | i <= j < i + m ensures w[j] in gone { assert w[i..][j - i] in gone; }
    forall e | e in keys - gone ensures e == g || After(k, e, h) || After(k, g, e) {
      var j :| 0 <= j < |w| && w[j] == e;
      assert j < i || j >= i + m;
    }
    FirstAfter(keys - gone, k, h, g);
  }

  lemma PrefixWithout<T(!new)>(a: seq<T>, b: seq<T>, x: T)
    requires a <= b
    ensures Without(a, x) <= Without(b, x)
  {
    assert b == a + b[|a|..];
    WithoutConcat(a, b[|a|..], x);
  }

  /** Meeting the first owner once more in front changes nothing. */
  lemma DedupeAgain<T(!new)>(s: seq<T>)
    requires s != []
    ensures Dedupe([s[0]] + s) == Dedupe(s)
  {
    assert ([s[0]] + s)[1..] == s;
    assert Without(s, s[0]) == Without(s[1..], s[0]);
  }

  /** Each dropped position is followed by one of the same owner, if by any. */
  ghost predicate Relayed(t: Table, s: seq<nat>, gone: set<nat>) {
    forall i | 0 <= i < |s| && s[i] in gone && Drop(s[i..], gone) != [] ::
      s[i] in t && Drop(s[i..], gone)[0] in t && t[Drop(s[i..], gone)[0]] == t[s[i]]
  }

  lemma RelayedRest(t: Table, s: seq<nat>, gone: set<nat>)
    requires s != [] && Relayed(t, s, gone)
    ensures Relayed(t, s[1..], gone)
  {
    forall i | 0 <= i < |s[1..]| ensures s[1..][i..] == s[i + 1..] && s[1..][i] == s[i + 1] {}
  }

  lemma {:induction false} DropRelayed(t: Table, s: seq<nat>, gone: set<nat>)
    requires Covers(t, s) && Relayed(t, s, gone)
    ensures Covers(t, Drop(s, gone)) && Dedupe(OwnersOf(t, Drop(s, gone))) <= Dedupe(OwnersOf(t, s))
  {
    if s != [] {
      RelayedRest(t, s, gone);
      OwnersCons(t, s);
      DropRelayed(t, s[1..], gone);
      var kept := Drop(s[1..], gone);
      assert s[0..] == s;
      if s[0] in gone {
        if kept != [] {
          OwnersCons(t, kept);
          DedupeAgain(OwnersOf(t, s[1..]));
        }
      } else {
        OwnersCons(t, [s[0]] + kept);
        PrefixWithout(Dedupe(OwnersOf(t, kept)), Dedupe(OwnersOf(t, s[1..])), t[s[0]]);
        DedupeWithout(OwnersOf(t, kept), t[s[0]]);
        DedupeWithout(OwnersOf(t, s[1..]), t[s[0]]);
      }
    }
  }

  /** Each of the positions on the ring is followed, outside them, by one of the same owner, if by any. */
  ghost predicate Covered(t: Table, positions: set<nat>) {
    forall h, g | h in positions && h in t && IsSuccessor(t.Keys - positions, h, g) :: t[g] == t[h]
  }

  /** Releasing positions leaves a prefix of every owner list exactly when each is followed by its own owner. */
  lemma ReleaseKeepsOrderIff(t: Table, positions: set<nat>)
    ensures (forall k :: Owners(Released(t, positions), k) <= Owners(t, k)) <==> Covered(t, positions)
  {
    var t' := Released(t, positions);
    if Covered(t, positions) {
      forall k ensures Owners(t', k) <= Owners(t, k) { CoveredRelease(t, positions, k); }
    } else {
      var h, g :| h in positions && h in t && IsSuccessor(t'.Keys, h, g) && t[g] != t[h];
      OwnersStart(t, h, h);
      OwnersStart(t', h, g);
      assert !(Owners(t', h) <= Owners(t, h));
    }
  }

  lemma CoveredRelease(t: Table, positions: set<nat>, k: nat)
    requires Covered(t, positions)
    ensures Owners(Released(t, positions), k) <= Owners(t, k)
  {
    var t', s := Released(t, positions), Listing(t.Keys);
    var w := Clockwise(s, k);
    ListingCovers(t, k);
    ListingCovers(t', k);
    DropClockwise(s, k, positions);
    DropListing(t.Keys, positions);
    WalkRelayed(t, positions, k);
    DropRelayed(t, w, positions);
    assert OwnersOf(t', Drop(w, positions)) == OwnersOf(t, Drop(w, positions));
  }

  lemma WalkRelayed(t: Table, positions: set<nat>, k: nat)
    requires Covered(t, positions)
    ensures Relayed(t, Clockwise(Listing(t.Keys), k), positions)
  {
    var w := Clockwise(Listing(t.Keys), k);
    WalkInOrder(t.Keys, k);
    hide Clockwise, Listing, After;
    forall i | 0 <= i < |w| && w[i] in positions && Drop(w[i..], positions) != []
      ensures w[i] in t && Drop(w[i..], positions)[0] in t && t[Drop(w[i..], positions)[0]] == t[w[i]]
    {
      assert w[i] in w;
      NextIsSuccessor(t.Keys, w, positions, k, i);
    }
  }

  lemma TakePrefix<T(!new)>(a: seq<T>, b: seq<T>, n: nat)
    requires a <= b
    ensures Take(a, n) <= Take(b, n)
  {
  }

  /** Deleting `x` from every list of the first owners in `t` leaves a prefix of the list in `t'`. */
  ghost predicate KeepsReplicas(t: Table, t': Table, x: Id) {
    forall k: nat, n: nat :: Without(Take(Owners(t, k), n), x) <= Take(Owners(t', k), n)
  }

  /** That is so exactly when the owner lists of `t` without `x` are prefixes of those of `t'`. */
  lemma KeepsReplicasIff(t: Table, t': Table, x: Id)
    ensures KeepsReplicas(t, t', x) <==> forall k :: Owners(Minus(t, x), k) <= Owners(t', k)
  {
    if KeepsReplicas(t, t', x) {
      forall k ensures Owners(Minus(t, x), k) <= Owners(t', k) {
        OwnersMinus(t, k, x);
        var n := |Owners(t, k)|;
        assert Without(Take(Owners(t, k), n), x) <= Take(Owners(t', k), n);
      }
    }
    if forall k :: Owners(Minus(t, x), k) <= Owners(t', k) {
      forall k: nat, n: nat ensures Without(Take(Owners(t, k), n), x) <= Take(Owners(t', k), n) {
        ReplicasMinus(t, k, n, x);
        TakePrefix(Owners(Minus(t, x), k), Owners(t', k), n);
      }
    }
  }

  /** A join leaves everything of a replica list but the joining node in place exactly when each
      position it takes over is followed, outside its positions, by one of the node that loses it. */
  lemma JoinKeepsReplicasIff(t: Table, positions: set<nat>, x: Id)
    requires x !in t.Values
    ensures KeepsReplicas(Claimed(t, positions, x), t, x) <==> Covered(t, positions)
  {
    ClaimedMinus(t, positions, x);
    KeepsReplicasIff(Claimed(t, positions, x), t, x);
    ReleaseKeepsOrderIff(t, positions);
  }

  /** A leave keeps the other nodes of every replica list in place exactly when each position that
      another node had taken over is followed, outside the released ones, by one of that node. */
  lemma LeaveKeepsReplicasIff(t: Table, positions: set<nat>, x: Id)
    requires OwnedBy(t, x) <= positions
    ensures KeepsReplicas(t, Released(t, positions), x) <==> PassedOn(t, positions, x)
  {
    var v, t' := Minus(t, x), Released(t, positions);
    KeepsReplicasIff(t, t', x);
    assert Released(v, positions) == t';
    if PassedOn(t, positions, x) {
      forall k ensures Owners(v, k) <= Owners(t', k) { PassedOnKeeps(t, positions, x, k); }
    } else {
      var h :| h in positions && h in t && t[h] != x && !Follows(t, positions, h, t[h]);
      OwnersStart(v, h, h);
      if Owners(v, h) <= Owners(t', h) { var g := FirstOwner(t', h); }
    }
  }

  lemma PassedOnKeeps(t: Table, positions: set<nat>, x: Id, k: nat)
    requires OwnedBy(t, x) <= positions && PassedOn(t, positions, x)
    ensures Owners(Minus(t, x), k) == Owners(Released(t, positions), k)
  {
    var v, t' := Minus(t, x), Released(t, positions);
    assert Released(v, positions) == t' && v.Keys - positions == t'.Keys;
    assert Covered(v, positions) by {
      forall h, g | h in positions && h in v && IsSuccessor(t'.Keys, h, g) ensures v[g] == v[h] {
        var g' :| IsSuccessor(t'.Keys, h, g') && t[g'] == t[h];
        SuccessorUnique(t'.Keys, h, g, g');
      }
    }
    CoveredRelease(v, positions, k);
    SameOwners(t, positions, x);
    OwnersCount(v, k);
    OwnersCount(t', k);
  }

  lemma SameOwners(t: Table, positions: set<nat>, x: Id)
    requires OwnedBy(t, x) <= positions && PassedOn(t, positions, x)
    ensures Minus(t, x).Values == Released(t, positions).Values
  {
    var v, t' := Minus(t, x), Released(t, positions);
    forall y | y in v.Values ensures y in t'.Values {
      var h :| h in v && v[h] == y;
      if h in positions {
        var g :| IsSuccessor(t'.Keys, h, g) && t[g] == y;
        assert t'[g] == y;
      } else {
        assert t'[h] == y;
      }
    }
    forall y | y in t'.Values ensures y in v.Values {
      var h :| h in t' && t'[h] == y;
      assert v[h] == y;
    }
  }
}
