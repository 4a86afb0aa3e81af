/**
 * What the vehicle-routing solvers share: a sub-instance (distance matrix,
 * demands, capacity), the Clarke-Wright saving of a customer pair, the
 * order in which the solvers visit savings, the demand of a route and the
 * wrapping of a route between two depot visits.
 *
 * Node 0 is the depot; nodes 1 .. n-1 are customers.
 */
module RouteCommon {

  /** A sub-instance: `num_nodes`, `distance_matrix`, `demands` and `max_capacity`. */
  datatype SubInstance = SubInstance(n: nat, d: seq<seq<int>>, demands: seq<int>, capacity: int)

  /** The shape every solver indexes by: an n-by-n matrix, n demands, at least the depot. */
  predicate Valid(inst: SubInstance) {
    inst.n >= 1 && |inst.d| == inst.n && |inst.demands| == inst.n &&
    forall k :: 0 <= k < inst.n ==> |inst.d[k]| == inst.n
  }

  /** `d[i][0] + d[0][j] - d[i][j]`: the distance saved by serving i and j on one trip. */
  function Saving(inst: SubInstance, i: nat, j: nat): int
    requires Valid(inst) && i < inst.n && j < inst.n
  {
    inst.d[i][0] + inst.d[0][j] - inst.d[i][j]
  }

  /** A saving entry `(score, i, j)`. */
  datatype Entry = Entry(score: int, i: nat, j: nat)

  /** `e` is the saving of a customer pair i < j. */
  predicate IsPairEntry(inst: SubInstance, e: Entry)
    requires Valid(inst)
  {
    1 <= e.i < e.j < inst.n && e.score == Saving(inst, e.i, e.j)
  }

  /** `(i, j)` comes strictly before `(i', j')` in the nested-loop order. */
  predicate PairBefore(a: Entry, b: Entry) {
    a.i < b.i || (a.i == b.i && a.j < b.j)
  }

  /** Rust's tuple order on `(score, i, j)`: `a >= b`. */
  predicate AtLeast(a: Entry, b: Entry) {
    a.score > b.score || (a.score == b.score && (a.i > b.i || (a.i == b.i && a.j >= b.j)))
  }

  /** Non-increasing in the tuple order. */
  predicate SortedDown(s: seq<Entry>) {
    forall a, b :: 0 <= a < b < |s| ==> AtLeast(s[a], s[b])
  }

  /** Non-decreasing in the tuple order. */
  predicate SortedUp(s: seq<Entry>) {
    forall a, b :: 0 <= a < b < |s| ==> AtLeast(s[b], s[a])
  }

  /** `x` inserted into a non-increasing sequence. */
  function InsertDown(x: Entry, s: seq<Entry>): (r: seq<Entry>)
    requires SortedDown(s)
    ensures SortedDown(r) && multiset(r) == multiset(s) + multiset{x}
  {
    if s == [] then [x]
    else if AtLeast(x, s[0]) then [x] + s
    else
      assert s == [s[0]] + s[1..];
      var t := InsertDown(x, s[1..]);
      InsertDownHead(x, s, t);
      [s[0]] + t
  }

  lemma InsertDownHead(x: Entry, s: seq<Entry>, t: seq<Entry>)
    requires s != [] && SortedDown(s) && !AtLeast(x, s[0])
    requires SortedDown(t) && multiset(t) == multiset(s[1..]) + multiset{x}
    ensures SortedDown([s[0]] + t)
  {
    forall k | 0 <= k < |t| ensures AtLeast(s[0], t[k]) {
      assert t[k] in multiset(t);
      if t[k] != x {
        assert t[k] in multiset(s[1..]);
        var m :| 0 <= m < |s[1..]| && s[1..][m] == t[k];
        assert s[m + 1] == t[k];
      }
    }
  }

  /**
   * The order in which a max-heap of `(score, i, j)` tuples pops its
   * entries; read backwards, the order of a min-heap of `Reverse` tuples.
   * It is also one of the orders `sort_unstable_by` by descending score may
   * produce.
   */
  function SortDown(s: seq<Entry>): (r: seq<Entry>)
    ensures SortedDown(r) && multiset(r) == multiset(s)
  {
    if s == [] then []
    else
      assert s == [s[0]] + s[1..];
      InsertDown(s[0], SortDown(s[1..]))
  }

  function Reverse<T>(s: seq<T>): (r: seq<T>)
    ensures |r| == |s| && forall k :: 0 <= k < |s| ==> r[k] == s[|s| - 1 - k]
  {
    if s == [] then [] else Reverse(s[1..]) + [s[0]]
  }

  lemma ReverseSortedDown(s: seq<Entry>)
    requires SortedDown(s)
    ensures SortedUp(Reverse(s))
  {
  }

  lemma ReverseMultiset<T>(s: seq<T>)
    ensures multiset(Reverse(s)) == multiset(s)
  {
    if s != [] {
      ReverseMultiset(s[1..]);
      assert s == [s[0]] + s[1..];
    }
  }

  lemma ReverseElems<T>(s: seq<T>)
    ensures forall x :: x in Reverse(s) <==> x in s
  {
    forall x | x in s ensures x in Reverse(s) {
      var k :| 0 <= k < |s| && s[k] == x;
      assert Reverse(s)[|s| - 1 - k] == x;
    }
  }

  /** The total demand of the customers on a route. */
  function Demand(demands: seq<int>, route: seq<nat>): int
  {
    if route == [] then 0
    else (if route[0] < |demands| then demands[route[0]] else 0) + Demand(demands, route[1..])
  }

  lemma {:induction false} DemandAppend(demands: seq<int>, a: seq<nat>, b: seq<nat>)
    ensures Demand(demands, a + b) == Demand(demands, a) + Demand(demands, b)
  {
    if a != [] {
      assert (a + b)[0] == a[0];
      assert (a + b)[1..] == a[1..] + b;
      DemandAppend(demands, a[1..], b);
    } else {
      assert a + b == b;
    }
  }

  lemma {:induction false} DemandReverse(demands: seq<int>, a: seq<nat>)
    ensures Demand(demands, Reverse(a)) == Demand(demands, a)
  {
    if a != [] {
      DemandReverse(demands, a[1..]);
      DemandAppend(demands, Reverse(a[1..]), [a[0]]);
      assert [a[0]][1..] == [];
    }
  }

  /** `[0] + route + [0]`: a route leaves the depot and returns to it. */
  function Wrap(route: seq<nat>): (r: seq<nat>)
    ensures |r| == |route| + 2 && r[0] == 0 && r[|r| - 1] == 0 && r[1..|r| - 1] == route
  {
    [0] + route + [0]
  }

  /** The customers a wrapped route visits between its two depot stops. */
  function Interior(route: seq<nat>): seq<nat>
    requires |route| >= 2
  {
    route[1..|route| - 1]
  }

  /** No node occurs twice. */
  predicate NoDup(s: seq<nat>) {
    forall a, b :: 0 <= a < b < |s| ==> s[a] != s[b]
  }

  /** Some route passes through customer `x`. */
  predicate Visits(routes: seq<seq<nat>>, x: nat) {
    exists t :: 0 <= t < |routes| && |routes[t]| >= 2 && x in Interior(routes[t])
  }

  /**
   * The properties a sub-solution's routes should have: each leaves from and
   * returns to the depot, every customer is visited on exactly one route and
   * only once, and a route serving several customers stays within capacity.
   */
  predicate Feasible(inst: SubInstance, routes: seq<seq<nat>>)
    requires Valid(inst)
  {
    (forall t :: 0 <= t < |routes| ==>
      |routes[t]| >= 3 && routes[t][0] == 0 && routes[t][|routes[t]| - 1] == 0 &&
      NoDup(Interior(routes[t])) &&
      forall x :: x in Interior(routes[t]) ==> 1 <= x < inst.n) &&
    (forall x :: 1 <= x < inst.n ==> Visits(routes, x)) &&
    (forall t1, t2, x :: 0 <= t1 < t2 < |routes| && x in Interior(routes[t1]) ==>
      x !in Interior(routes[t2])) &&
    (forall t :: 0 <= t < |routes| && |routes[t]| > 3 ==>
      Demand(inst.demands, Interior(routes[t])) <= inst.capacity)
  }

  /**
   * The nested savings loop of `solve_sub_instance`: the saving of every
   * customer pair i < j, in loop order, kept only when `keepAll` or when it
   * is strictly positive.
   */
  method PairSavings(inst: SubInstance, keepAll: bool) returns (scores: seq<Entry>)
    requires Valid(inst)
    ensures forall e :: e in scores <==> IsPairEntry(inst, e) && (keepAll || e.score > 0)
    ensures forall a, b :: 0 <= a < b < |scores| ==> PairBefore(scores[a], scores[b])
  {
    scores := [];
    for i := 1 to inst.n
      invariant forall e :: e in scores <==> IsPairEntry(inst, e) && (keepAll || e.score > 0) && e.i < i
      invariant forall a, b :: 0 <= a < b < |scores| ==> PairBefore(scores[a], scores[b])
      invariant forall a :: 0 <= a < |scores| ==> scores[a].i < i
    {
      for j := i + 1 to inst.n
        invariant forall e :: e in scores <==>
          IsPairEntry(inst, e) && (keepAll || e.score > 0) && (e.i < i || (e.i == i && e.j < j))
        invariant forall a, b :: 0 <= a < b < |scores| ==> PairBefore(scores[a], scores[b])
        invariant forall a :: 0 <= a < |scores| ==> scores[a].i < i || (scores[a].i == i && scores[a].j < j)
      {
        var score := inst.d[i][0] + inst.d[0][j] - inst.d[i][j];
        if keepAll || score > 0 {
          scores := scores + [Entry(score, i, j)];
        }
      }
    }
  }

  /** Entries listed in strictly increasing pair order are distinct. */
  lemma PairOrderDistinct(s: seq<Entry>)
    requires forall a, b :: 0 <= a < b < |s| ==> PairBefore(s[a], s[b])
    ensures forall a, b :: 0 <= a < b < |s| ==> s[a] != s[b]
  {
  }
}
