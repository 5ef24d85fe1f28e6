/** Counting the reports of a quorum read, and what they say about an acknowledged write. */
module QuorumReads {
  import opened Commons

  type Id = string
  type Value = string

  /** `None` is a node answering that it has no live entry. */
  type Report = Option<Value>

  /** `GotNil` is a success without a value. */
  datatype Read = Got(value: Value) | GotNil | NotFound | QuorumNotMet

  function Count(reports: seq<Report>, v: Value): nat {
    if reports == [] then 0
    else Count(reports[..|reports| - 1], v) + (if reports[|reports| - 1] == Some(v) then 1 else 0)
  }

  function Found(reports: seq<Report>): nat {
    if reports == [] then 0 else Found(reports[..|reports| - 1]) + (if reports[|reports| - 1].Some? then 1 else 0)
  }

  function First(reports: seq<Report>): Report {
    if reports == [] then None
    else if First(reports[..|reports| - 1]).Some? then First(reports[..|reports| - 1]) else reports[|reports| - 1]
  }

  /** The value whose reports first number `r`, in order of arrival. */
  function Match(reports: seq<Report>, r: int): Report {
    if reports == [] then None
    else
      var n := |reports| - 1;
      var earlier := Match(reports[..n], r);
      if earlier.Some? then earlier
      else if reports[n].Some? && Count(reports, reports[n].value) >= r then reports[n] else None
  }

  /** A value reported `r` times, or else the first one reported when `r` nodes reported some value. */
  function ReadOf(reports: seq<Report>, r: int): Read {
    if Match(reports, r).Some? then Got(Match(reports, r).value)
    else if Found(reports) >= r then (if First(reports).Some? then Got(First(reports).value) else GotNil)
    else if Found(reports) == 0 then NotFound
    else QuorumNotMet
  }

  lemma {:induction false} FirstExists(reports: seq<Report>)
    ensures First(reports).Some? <==> Found(reports) > 0
    ensures First(reports).Some? ==> First(reports) in reports
  {
    if reports != [] { FirstExists(reports[..|reports| - 1]); }
  }

  lemma {:induction false} CountGrows(reports: seq<Report>, n: nat, v: Value)
    requires n <= |reports|
    ensures Count(reports[..n], v) <= Count(reports, v)
  {
    if n < |reports| {
      CountGrows(reports[..|reports| - 1], n, v);
      assert reports[..|reports| - 1][..n] == reports[..n];
    } else {
      assert reports[..n] == reports;
    }
  }

  /** Some value is matched exactly when some value is reported `r` times, whatever the order. */
  lemma {:induction false} MatchSpec(reports: seq<Report>, r: int)
    requires r >= 1
    ensures Match(reports, r).Some? ==> Count(reports, Match(reports, r).value) >= r
    ensures forall v | Count(reports, v) >= r :: Match(reports, r).Some?
  {
    if reports != [] {
      var n := |reports| - 1;
      MatchSpec(reports[..n], r);
      if Match(reports[..n], r).Some? { CountGrows(reports, n, Match(reports[..n], r).value); }
    }
  }

  /** `v` is the first value that as many as `r` of the reports name, in order of arrival. */
  ghost predicate FirstToReach(reports: seq<Report>, r: int, v: Value, k: nat) {
    && k < |reports| && reports[k] == Some(v) && Count(reports[..k + 1], v) >= r
    && forall u, i: nat | i <= k :: Count(reports[..i], u) < r
  }

  /** The match is the value that reaches the quorum first. */
  lemma {:induction false} MatchIsFirst(reports: seq<Report>, r: int) returns (k: nat)
    requires r >= 1 && Match(reports, r).Some?
    ensures FirstToReach(reports, r, Match(reports, r).value, k)
  {
    var n := |reports| - 1;
    if Match(reports[..n], r).Some? {
      k := MatchIsFirst(reports[..n], r);
      assert reports[..n][..k + 1] == reports[..k + 1];
      forall u, i: nat | i <= k ensures Count(reports[..i], u) < r { assert reports[..n][..i] == reports[..i]; }
    } else {
      k := n;
      assert reports[..k + 1] == reports;
      forall u, i: nat | i <= k ensures Count(reports[..i], u) < r {
        assert reports[..n][..i] == reports[..i];
        MatchSpec(reports[..n], r);
        CountGrows(reports[..n], i, u);
      }
    }
  }

  /** When all that answer hold one value, the read gives it if there are enough of them, and else none. */
  lemma UnanimousRead(held: map<Id, Report>, nodes: set<Id>, arrivals: seq<Id>, v: Value, r: int)
    requires Responders(held, nodes, arrivals) && r >= 1 && forall id | id in arrivals :: held[id] == Some(v)
    ensures ReadOf(Reports(held, arrivals), r)
         == if |arrivals| >= r then Got(v) else if arrivals == [] then NotFound else QuorumNotMet
  {
    var reports := Reports(held, arrivals);
    assert forall i | 0 <= i < |reports| :: reports[i] == Some(v) && arrivals[i] in arrivals;
    AllCounted(reports, v);
    MatchSpec(reports, r);
    FirstExists(reports);
    if Match(reports, r).Some? { CountsNamed(reports, Match(reports, r).value); }
  }

  lemma {:induction false} AllCounted(reports: seq<Report>, v: Value)
    requires forall i | 0 <= i < |reports| :: reports[i] == Some(v)
    ensures Count(reports, v) == |reports| == Found(reports)
  {
    if reports != [] { AllCounted(reports[..|reports| - 1], v); }
  }

  lemma {:induction false} CountsNamed(reports: seq<Report>, v: Value)
    ensures Count(reports, v) > 0 ==> Some(v) in reports
  {
    if reports != [] { CountsNamed(reports[..|reports| - 1], v); }
  }

  /** A missing key is reported as found, without a value, exactly when the quorum is not positive. */
  lemma NilIff(reports: seq<Report>, r: int)
    ensures ReadOf(reports, r) == GotNil <==> r <= 0 && Found(reports) == 0
  {
    FirstExists(reports);
    if Found(reports) == 0 { NoMatch(reports, r); }
  }

  lemma {:induction false} NoMatch(reports: seq<Report>, r: int)
    requires Found(reports) == 0
    ensures Match(reports, r) == None
  {
    if reports != [] { NoMatch(reports[..|reports| - 1], r); }
  }

  // Reports of the nodes of a replica set

  ghost predicate Distinct(ids: seq<Id>) {
    forall i, j | 0 <= i < j < |ids| :: ids[i] != ids[j]
  }

  function Ids(s: seq<Id>): set<Id> {
    set id | id in s
  }

  /** The nodes of a set whose content under the key is `x`. */
  function Holding(held: map<Id, Report>, nodes: set<Id>, x: Report): set<Id> {
    set id | id in nodes && id in held && held[id] == x
  }

  /** Those with some value. */
  function Full(held: map<Id, Report>, nodes: set<Id>): set<Id> {
    set id | id in nodes && id in held && held[id].Some?
  }

  /** What the nodes report, in order of arrival. */
  function Reports(held: map<Id, Report>, arrivals: seq<Id>): seq<Report>
    requires Ids(arrivals) <= held.Keys
  {
    seq(|arrivals|, i requires 0 <= i < |arrivals| => assert arrivals[i] in Ids(arrivals); held[arrivals[i]])
  }

  /** A read of distinct nodes of the replica set. */
  ghost predicate Responders(held: map<Id, Report>, nodes: set<Id>, arrivals: seq<Id>) {
    Distinct(arrivals) && Ids(arrivals) <= nodes <= held.Keys
  }

  lemma IdsPrefix(arrivals: seq<Id>, n: nat)
    requires Distinct(arrivals) && n == |arrivals| - 1
    ensures Ids(arrivals) == Ids(arrivals[..n]) + {arrivals[n]} && arrivals[n] !in Ids(arrivals[..n])
  {
    assert arrivals == arrivals[..n] + [arrivals[n]];
  }

  lemma HoldingOneMore(held: map<Id, Report>, nodes: set<Id>, id: Id, x: Report)
    requires id in held && id !in nodes
    ensures |Holding(held, nodes + {id}, x)| == |Holding(held, nodes, x)| + (if held[id] == x then 1 else 0)
  {
    var before, after := Holding(held, nodes, x), Holding(held, nodes + {id}, x);
    if held[id] == x { assert after == before + {id}; } else { assert after == before; }
  }

  lemma FullOneMore(held: map<Id, Report>, nodes: set<Id>, id: Id)
    requires id in held && id !in nodes
    ensures |Full(held, nodes + {id})| == |Full(held, nodes)| + (if held[id].Some? then 1 else 0)
  {
    var before, after := Full(held, nodes), Full(held, nodes + {id});
    if held[id].Some? { assert after == before + {id}; } else { assert after == before; }
  }

  lemma {:induction false} CountIsHolding(held: map<Id, Report>, nodes: set<Id>, arrivals: seq<Id>, v: Value)
    requires Responders(held, nodes, arrivals)
    ensures Count(Reports(held, arrivals), v) == |Holding(held, Ids(arrivals), Some(v))|
    ensures Found(Reports(held, arrivals)) == |Full(held, Ids(arrivals))|
  {
    if arrivals != [] {
      var n := |arrivals| - 1;
      IdsPrefix(arrivals, n);
      CountIsHolding(held, nodes, arrivals[..n], v);
      assert Reports(held, arrivals)[..n] == Reports(held, arrivals[..n]);
      HoldingOneMore(held, Ids(arrivals[..n]), arrivals[n], Some(v));
      FullOneMore(held, Ids(arrivals[..n]), arrivals[n]);
    }
  }

  /** When `w` nodes of the set hold `x`, at most the rest hold anything else. */
  lemma OthersAreFew(held: map<Id, Report>, nodes: set<Id>, x: Report, w: int, others: set<Id>)
    requires |Holding(held, nodes, x)| >= w && others <= nodes && others !! Holding(held, nodes, x)
    ensures |others| <= |nodes| - w
  {
    SubsetCard(others, nodes - Holding(held, nodes, x));
  }

  /** No other value is ever matched. */
  lemma MatchedIsAcknowledged(
      held: map<Id, Report>, nodes: set<Id>, arrivals: seq<Id>, v: Value, w: int, r: int, u: Value)
    requires Responders(held, nodes, arrivals) && |Holding(held, nodes, Some(v))| >= w && |nodes| - w < r
    requires Count(Reports(held, arrivals), u) >= r
    ensures u == v
  {
    CountIsHolding(held, nodes, arrivals, u);
    if u != v { OthersAreFew(held, nodes, Some(v), w, Holding(held, Ids(arrivals), Some(u))); }
  }

  /** If `r` of the holders answer, the read returns the acknowledged value in every order of arrival. */
  lemma AcknowledgedIsReadBack(held: map<Id, Report>, nodes: set<Id>, arrivals: seq<Id>, v: Value, w: int, r: int)
    requires Responders(held, nodes, arrivals) && |Holding(held, nodes, Some(v))| >= w && |nodes| - w < r && r >= 1
    requires |Holding(held, Ids(arrivals), Some(v))| >= r
    ensures ReadOf(Reports(held, arrivals), r) == Got(v)
  {
    var reports := Reports(held, arrivals);
    CountIsHolding(held, nodes, arrivals, v);
    MatchSpec(reports, r);
    MatchedIsAcknowledged(held, nodes, arrivals, v, w, r, Match(reports, r).value);
  }

  /** The read returns another value exactly when too few holders answer, enough nodes report some
      value, and the first to report one is not a holder. */
  lemma StaleReadIff(held: map<Id, Report>, nodes: set<Id>, arrivals: seq<Id>, v: Value, w: int, r: int)
    requires Responders(held, nodes, arrivals) && |Holding(held, nodes, Some(v))| >= w && |nodes| - w < r && r >= 1
    ensures var reports := Reports(held, arrivals);
      ReadOf(reports, r).Got? && ReadOf(reports, r) != Got(v) <==>
        && |Holding(held, Ids(arrivals), Some(v))| < r <= |Full(held, Ids(arrivals))|
        && First(reports) != Some(v)
  {
    var reports := Reports(held, arrivals);
    CountIsHolding(held, nodes, arrivals, v);
    MatchSpec(reports, r);
    FirstExists(reports);
    if Match(reports, r).Some? {
      MatchedIsAcknowledged(held, nodes, arrivals, v, w, r, Match(reports, r).value);
    }
  }

  /** After an acknowledged delete no read returns a value. */
  lemma DeletedStaysDeleted(held: map<Id, Report>, nodes: set<Id>, arrivals: seq<Id>, w: int, r: int)
    requires Responders(held, nodes, arrivals) && |Holding(held, nodes, None)| >= w && |nodes| - w < r && r >= 1
    ensures var full := Full(held, Ids(arrivals));
      ReadOf(Reports(held, arrivals), r) == if full == {} then NotFound else QuorumNotMet
  {
    var reports := Reports(held, arrivals);
    MatchSpec(reports, r);
    var v := if Match(reports, r).Some? then Match(reports, r).value else "";
    CountIsHolding(held, nodes, arrivals, v);
    OthersAreFew(held, nodes, None, w, Full(held, Ids(arrivals)));
    OthersAreFew(held, nodes, None, w, Holding(held, Ids(arrivals), Some(v)));
  }

  // When a read can be stale at all

  /** A read that returns something other than the value `w` of `n` replicas acknowledged. */
  ghost predicate StaleRead(
      held: map<Id, Report>, nodes: set<Id>, arrivals: seq<Id>, v: Value, n: nat, w: int, r: int)
  {
    && Responders(held, nodes, arrivals) && |nodes| == n && |Holding(held, nodes, Some(v))| >= w && r >= 1
    && ReadOf(Reports(held, arrivals), r).Got? && ReadOf(Reports(held, arrivals), r) != Got(v)
  }

  function Name(k: nat): Id {
    seq(k + 1, _ => 'n')
  }

  function Names(k: nat): set<Id> {
    set i | 0 <= i < k :: Name(i)
  }

  lemma {:induction false} NamesCount(k: nat)
    ensures |Names(k)| == k && forall id | id in Names(k) :: 1 <= |id| <= k
  {
    if k > 0 {
      NamesCount(k - 1);
      assert Names(k) == Names(k - 1) + {Name(k - 1)};
      assert |Name(k - 1)| == k;
    }
  }

  lemma {:induction false} TwoRuns(reports: seq<Report>, k: nat, u: Value, v: Value)
    requires u != v
    requires forall i | 0 <= i < |reports| :: reports[i] == Some(if i < k then u else v)
    ensures Count(reports, v) == if |reports| <= k then 0 else |reports| - k
    ensures Found(reports) == |reports|
    ensures reports != [] && k > 0 ==> First(reports) == Some(u)
  {
    if reports != [] { TwoRuns(reports[..|reports| - 1], k, u, v); }
  }

  /** All but `w` of the replicas missed the write. */
  function LateReplicas(n: nat, w: nat): map<Id, Report> {
    map id | id in Names(n) :: if |id| <= w then Some("new") else Some("old")
  }

  lemma WrittenOnSome(n: nat, w: nat)
    requires w <= n
    ensures |Names(n)| == n && |Holding(LateReplicas(n, w), Names(n), Some("new"))| >= w
  {
    NamesCount(n);
    NamesCount(w);
    forall i | 0 <= i < w ensures Name(i) in Names(n) {}
    SubsetCard(Names(w), Holding(LateReplicas(n, w), Names(n), Some("new")));
  }

  /** Those that missed it answer first. */
  function LastFirst(n: nat, m: nat): seq<Id>
    requires m <= n
  {
    seq(m, i requires 0 <= i < m => Name(n - 1 - i))
  }

  lemma LastFirstReports(n: nat, w: nat, m: nat)
    requires w <= n && m <= n
    ensures Responders(LateReplicas(n, w), Names(n), LastFirst(n, m))
    ensures var reports := Reports(LateReplicas(n, w), LastFirst(n, m));
      && Count(reports, "new") == (if m <= n - w then 0 else m - (n - w))
      && Found(reports) == m
      && (m > 0 && w < n ==> First(reports) == Some("old"))
  {
    var arrivals := LastFirst(n, m);
    forall i | 0 <= i < m ensures arrivals[i] in Names(n) && |arrivals[i]| == n - i {}
    TwoRuns(Reports(LateReplicas(n, w), arrivals), n - w, "old", "new");
  }

  /** Too few reports of `v`, enough of some value, and another one first. */
  lemma FallsBack(reports: seq<Report>, r: int, v: Value)
    requires r >= 1 && Count(reports, v) < r <= Found(reports) && First(reports) != Some(v)
    ensures ReadOf(reports, r).Got? && ReadOf(reports, r) != Got(v)
  {
    MatchSpec(reports, r);
    FirstExists(reports);
  }

  lemma LateReplicasAnswerFirst(n: nat, w: nat, r: nat)
    returns (held: map<Id, Report>, nodes: set<Id>, arrivals: seq<Id>)
    requires 1 <= w < n && 1 <= r <= n
    ensures StaleRead(held, nodes, arrivals, "new", n, w, r)
  {
    var m := if w <= r - 1 then n else n - w + r - 1;
    held, nodes, arrivals := LateReplicas(n, w), Names(n), LastFirst(n, m);
    WrittenOnSome(n, w);
    LastFirstReports(n, w, m);
    hide Names, LateReplicas, LastFirst, Holding, Full;
    FallsBack(Reports(held, arrivals), r, "new");
  }

  /** Overlapping quorums do not rule out a stale read: it is ruled out, over all contents, all
      responders and all orders of arrival, exactly when a write waits for every replica. */
  lemma NeverStaleIffWriteAll(n: nat, w: nat, r: nat)
    requires 1 <= w <= n && 1 <= r <= n
    ensures (forall held, nodes, arrivals, v :: !StaleRead(held, nodes, arrivals, v, n, w, r)) <==> w == n
  {
    if w < n {
      var held, nodes, arrivals := LateReplicasAnswerFirst(n, w, r);
    } else {
      forall held, nodes, arrivals, v ensures !StaleRead(held, nodes, arrivals, v, n, w, r) {
        if StaleRead(held, nodes, arrivals, v, n, w, r) { AllHold(held, nodes, arrivals, v, n, r); }
      }
    }
  }

  lemma AllHold(held: map<Id, Report>, nodes: set<Id>, arrivals: seq<Id>, v: Value, n: nat, r: nat)
    requires Responders(held, nodes, arrivals) && |nodes| == n && |Holding(held, nodes, Some(v))| >= n && r >= 1
    ensures ReadOf(Reports(held, arrivals), r).Got? ==> ReadOf(Reports(held, arrivals), r) == Got(v)
  {
    OthersAreFew(held, nodes, Some(v), n, nodes - Holding(held, nodes, Some(v)));
    assert nodes - Holding(held, nodes, Some(v)) == {};
    assert forall id | id in nodes :: id in Holding(held, nodes, Some(v));
    var reports := Reports(held, arrivals);
    forall i | 0 <= i < |reports| ensures reports[i] == Some(v) { assert arrivals[i] in Ids(arrivals); }
    StaleReadIff(held, nodes, arrivals, v, n, r);
    FirstExists(reports);
    CountIsHolding(held, nodes, arrivals, v);
  }
}
