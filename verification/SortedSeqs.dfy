/** Sorted sequences of ring positions: sorting, and the one sorted listing of a set. */
module SortedSeqs {

  ghost predicate Ascending(s: seq<nat>) {
    forall i, j | 0 <= i < j < |s| :: s[i] <= s[j]
  }

  ghost predicate Strict(s: seq<nat>) {
    forall i, j | 0 <= i < j < |s| :: s[i] < s[j]
  }

  ghost function Elements(s: seq<nat>): set<nat> {
    set x | x in s
  }

  function Insert(s: seq<nat>, x: nat): (r: seq<nat>)
    ensures multiset(r) == multiset(s) + multiset{x}
  {
    if s == [] || x <= s[0] then [x] + s
    else assert s == [s[0]] + s[1..]; [s[0]] + Insert(s[1..], x)
  }

  lemma {:induction false} InsertAscending(s: seq<nat>, x: nat)
    requires Ascending(s)
    ensures Ascending(Insert(s, x))
  {
    if s != [] && x > s[0] {
      InsertAscending(s[1..], x);
      var r := Insert(s[1..], x);
      InsertFrom(s[1..], x);
      forall j | 0 <= j < |r| ensures s[0] <= r[j] {
        assert r[j] in r;
      }
    }
  }

  lemma {:induction false} InsertFrom(s: seq<nat>, x: nat)
    ensures forall y | y in Insert(s, x) :: y in s || y == x
  {
    if s != [] && x > s[0] { InsertFrom(s[1..], x); }
  }

  /** What `sort.Slice` returns. */
  function Sort(s: seq<nat>): (r: seq<nat>)
    ensures multiset(r) == multiset(s)
  {
    if s == [] then [] else assert s == [s[0]] + s[1..]; Insert(Sort(s[1..]), s[0])
  }

  lemma {:induction false} SortAscending(s: seq<nat>)
    ensures Ascending(Sort(s))
  {
    if s != [] {
      SortAscending(s[1..]);
      InsertAscending(Sort(s[1..]), s[0]);
    }
  }

  lemma SameElements(a: seq<nat>, b: seq<nat>)
    requires multiset(a) == multiset(b)
    ensures Elements(a) == Elements(b)
  {
    forall x ensures x in a <==> x in b {
      assert x in a <==> x in multiset(a);
      assert x in b <==> x in multiset(b);
    }
  }

  lemma SortElements(s: seq<nat>)
    ensures Ascending(Sort(s)) && Elements(Sort(s)) == Elements(s)
  {
    SortAscending(s);
    SameElements(Sort(s), s);
  }

  ghost predicate IsLeast(s: set<nat>, m: nat) {
    m in s && forall x | x in s :: m <= x
  }

  lemma {:induction false} LeastExists(s: set<nat>)
    requires s != {}
    ensures exists m :: IsLeast(s, m)
  {
    var x :| x in s;
    var rest := s - {x};
    assert s == rest + {x};
    if rest == {} {
      assert IsLeast(s, x);
    } else {
      LeastExists(rest);
      var m :| IsLeast(rest, m);
      var least := if m < x then m else x;
      assert IsLeast(s, least);
    }
  }

  ghost function Least(s: set<nat>): (m: nat)
    requires s != {}
    ensures IsLeast(s, m)
  {
    LeastExists(s);
    var m :| IsLeast(s, m); m
  }

  /** The elements of `s` in ascending order. */
  ghost function Listing(s: set<nat>): (r: seq<nat>)
    ensures Strict(r) && Elements(r) == s
  {
    if s == {} then []
    else
      var m := Least(s);
      ListingFrom(m, Listing(s - {m}), s);
      [m] + Listing(s - {m})
  }

  lemma ListingFrom(m: nat, rest: seq<nat>, s: set<nat>)
    requires IsLeast(s, m) && Strict(rest) && Elements(rest) == s - {m}
    ensures Strict([m] + rest) && Elements([m] + rest) == s
  {
    forall i | 0 <= i < |rest| ensures m < rest[i] {
      assert rest[i] in Elements(rest);
    }
    forall x ensures x in [m] + rest <==> x in s {
      assert x in Elements(rest) <==> x in rest;
    }
  }

  lemma NoElements(s: seq<nat>)
    ensures s == [] <==> Elements(s) == {}
  {
    if s != [] { assert s[0] in Elements(s); }
  }

  /** A set has one ascending listing. */
  lemma {:induction false} ListingUnique(a: seq<nat>, b: seq<nat>)
    requires Strict(a) && Strict(b) && Elements(a) == Elements(b)
    ensures a == b
  {
    NoElements(a);
    NoElements(b);
    if a != [] {
      assert a[0] in Elements(a) && a[0] in b;
      assert b[0] in Elements(b) && b[0] in a;
      assert a[0] == b[0];
      forall x ensures x in a[1..] <==> x in b[1..] {
        if x in a[1..] { assert x in Elements(a) && x != a[0]; assert x in Elements(b); }
        if x in b[1..] { assert x in Elements(b) && x != b[0]; assert x in Elements(a); }
      }
      assert Elements(a[1..]) == Elements(b[1..]);
      ListingUnique(a[1..], b[1..]);
      assert a == [a[0]] + a[1..] && b == [b[0]] + b[1..];
    }
  }

  lemma ElementsConcat(a: seq<nat>, b: seq<nat>)
    ensures Elements(a + b) == Elements(a) + Elements(b)
  {
    forall x ensures x in a + b <==> x in Elements(a) + Elements(b) { assert x in a <==> x in Elements(a); }
  }

  ghost predicate Repeatless(s: seq<nat>) {
    forall i, j | 0 <= i < j < |s| :: s[i] != s[j]
  }

  lemma RepeatlessAppend(s: seq<nat>, x: nat)
    requires Repeatless(s) && x !in Elements(s)
    ensures Repeatless(s + [x]) && Elements(s + [x]) == Elements(s) + {x}
  {
    forall i | 0 <= i < |s| ensures s[i] != x { assert s[i] in Elements(s); }
    ElementsConcat(s, [x]);
  }

  /** Sorting a list without repeats gives its elements' listing. */
  lemma SortIsListing(s: seq<nat>)
    requires Repeatless(s)
    ensures Sort(s) == Listing(Elements(s))
  {
    SortElements(s);
    NoRepeats(s, Sort(s));
    ListingUnique(Sort(s), Listing(Elements(s)));
  }

  lemma {:induction false} CountOnce(s: seq<nat>, x: nat)
    requires Repeatless(s)
    ensures multiset(s)[x] <= 1
  {
    if s != [] {
      assert s == [s[0]] + s[1..];
      CountOnce(s[1..], x);
      if x == s[0] { assert x !in s[1..]; }
    }
  }

  lemma CountTwice(r: seq<nat>, i: nat, j: nat)
    requires i < j < |r| && r[i] == r[j]
    ensures multiset(r)[r[i]] >= 2
  {
    assert r == r[..i] + [r[i]] + r[i + 1..j] + [r[j]] + r[j + 1..];
  }

  lemma NoRepeats(s: seq<nat>, r: seq<nat>)
    requires Repeatless(s) && multiset(r) == multiset(s) && Ascending(r)
    ensures Strict(r)
  {
    forall i, j | 0 <= i < j < |r| ensures r[i] < r[j] {
      if r[i] == r[j] {
        CountTwice(r, i, j);
        CountOnce(s, r[i]);
      }
    }
  }
}
