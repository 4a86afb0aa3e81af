/**
 * Model of the Clarke-Wright savings heuristic in
 * tig-algorithms/src/vehicle_routing/clarke_wright_who/benchmarker_outbound.rs.
 *
 * `routes` is a vector indexed by node: an entry holds a route exactly when
 * the node is the first or the last node of that route.  `route_demands`
 * holds the demand of a route at its two end nodes.  Savings are visited in
 * non-increasing order; a pair (i, j) joins the route ending in i with the
 * route starting in j, reversing either route to bring i and j together.
 *
 * The ghost sequence `routeOf` names, for each customer, the route it is on;
 * `Inv` ties the vector and the demands to it, and `StepKeeps` proves that
 * one merge step preserves it.
 */
module ClarkeWrightWho {
  import opened Common
  import opened RouteCommon

  /** The two per-node vectors the merge loop updates. */
  datatype Table = Table(routes: seq<Option<seq<nat>>>, demands: seq<int>)

  /** Every stored route is nonempty and lists nodes below `n`. */
  predicate Shaped(n: nat, t: Table) {
    |t.routes| == n && |t.demands| == n &&
    forall k :: 0 <= k < n && t.routes[k].Some? ==>
      t.routes[k].value != [] && forall m :: 0 <= m < |t.routes[k].value| ==> t.routes[k].value[m] < n
  }

  /** The vectors before the loop: `Some([i])` for every customer, none at the depot. */
  function Initial(inst: SubInstance): (t: Table)
    requires Valid(inst)
    ensures Shaped(inst.n, t)
  {
    Table(seq(inst.n, k => if k == 0 then None else Some([k])), inst.demands)
  }

  /**
   * The joined route: the left route turned to end in `i`, followed by the
   * right route turned to start in `j`.
   */
  function Joined(left: seq<nat>, right: seq<nat>, i: nat, j: nat): (r: seq<nat>)
    requires left != [] && right != []
    ensures |r| == |left| + |right|
  {
    (if left[0] == i then Reverse(left) else left) +
    (if right[|right| - 1] == j then Reverse(right) else right)
  }

  /**
   * One iteration of the loop over the sorted savings.  The pair is skipped
   * when i or j holds no route, when both hold the same route (equal start
   * nodes), or when the joined demand exceeds the capacity.  Otherwise the
   * six entries of the old end nodes are cleared, the joined route is stored
   * at its two end nodes, and so is its demand.
   */
  function Step(inst: SubInstance, t: Table, e: Entry): (r: Table)
    requires Valid(inst) && Shaped(inst.n, t) && 1 <= e.i < inst.n && 1 <= e.j < inst.n
    ensures Shaped(inst.n, r)
  {
    var i, j := e.i, e.j;
    if t.routes[i].None? || t.routes[j].None? then t
    else
      var left, right := t.routes[i].value, t.routes[j].value;
      var ls, rs := left[0], right[0];
      var le, re := left[|left| - 1], right[|right| - 1];
      var merged := t.demands[ls] + t.demands[rs];
      if ls == rs || merged > inst.capacity then t else Merge(inst.n, t, i, j, merged)
  }

  /**
   * The merge of the routes at i and j: the six entries of i, j and the old
   * end nodes are cleared, and the joined route and the demand `merged` are
   * stored at its two end nodes.
   */
  function Merge(n: nat, t: Table, i: nat, j: nat, merged: int): (r: Table)
    requires Shaped(n, t) && i < n && j < n && t.routes[i].Some? && t.routes[j].Some?
    ensures Shaped(n, r)
  {
    var left, right := t.routes[i].value, t.routes[j].value;
    var route := Joined(left, right, i, j);
    JoinedRange(0, n, left, right, i, j);
    var first, last := route[0], route[|route| - 1];
    var routes := t.routes[i := None][j := None][left[0] := None][right[0] := None]
      [left[|left| - 1] := None][right[|right| - 1] := None];
    var r := Table(routes[first := Some(route)][last := Some(route)],
                   t.demands[first := merged][last := merged]);
    StoredShaped(n, t, r, route);
    r
  }

  /** The joined route of two routes of nodes in `lo .. n-1` lists nodes in that range. */
  lemma JoinedRange(lo: nat, n: nat, left: seq<nat>, right: seq<nat>, i: nat, j: nat)
    requires left != [] && right != []
    requires forall m :: 0 <= m < |left| ==> lo <= left[m] < n
    requires forall m :: 0 <= m < |right| ==> lo <= right[m] < n
    ensures var route := Joined(left, right, i, j);
      route != [] && forall m :: 0 <= m < |route| ==> lo <= route[m] < n
  {
    var route := Joined(left, right, i, j);
    ReverseElems(left);
    ReverseElems(right);
    forall m | 0 <= m < |route| ensures lo <= route[m] < n {
      assert route[m] in left || route[m] in right;
    }
  }

  /** Entries that are kept, cleared or set to one in-range route keep the table shaped. */
  lemma StoredShaped(n: nat, t: Table, r: Table, route: seq<nat>)
    requires Shaped(n, t) && |r.routes| == n && |r.demands| == n
    requires route != [] && forall m :: 0 <= m < |route| ==> route[m] < n
    requires forall k :: 0 <= k < n ==>
      r.routes[k] == t.routes[k] || r.routes[k] == None || r.routes[k] == Some(route)
    ensures Shaped(n, r)
  {
  }

  /** The loop over a prefix of the sorted savings. */
  function Run(inst: SubInstance, order: seq<Entry>): (r: Table)
    requires Valid(inst) && Customers(inst.n, order)
    ensures Shaped(inst.n, r)
  {
    if order == [] then Initial(inst)
    else
      assert Customers(inst.n, order[..|order| - 1]);
      Step(inst, Run(inst, order[..|order| - 1]), order[|order| - 1])
  }

  /** Every entry names two customers. */
  predicate Customers(n: nat, order: seq<Entry>) {
    forall t :: 0 <= t < |order| ==> 1 <= order[t].i < n && 1 <= order[t].j < n
  }

  /** The indices whose entry holds a route that starts at that index, in order. */
  function Kept(routes: seq<Option<seq<nat>>>): (ks: seq<nat>)
    ensures forall t :: 0 <= t < |ks| ==>
      ks[t] < |routes| && routes[ks[t]].Some? && routes[ks[t]].value != [] &&
      routes[ks[t]].value[0] == ks[t]
    ensures forall t1, t2 :: 0 <= t1 < t2 < |ks| ==> ks[t1] < ks[t2]
    ensures forall k :: (0 <= k < |routes| && routes[k].Some? && routes[k].value != [] &&
      routes[k].value[0] == k) ==> k in ks
  {
    if routes == [] then []
    else
      var k := |routes| - 1;
      var pre := Kept(routes[..k]);
      if routes[k].Some? && routes[k].value != [] && routes[k].value[0] == k then pre + [k] else pre
  }

  /** `Kept` over one more index. */
  lemma KeptPrefix(routes: seq<Option<seq<nat>>>, k: nat)
    requires k < |routes|
    ensures Kept(routes[..k + 1]) ==
      if routes[k].Some? && routes[k].value != [] && routes[k].value[0] == k
      then Kept(routes[..k]) + [k] else Kept(routes[..k])
  {
    assert routes[..k + 1][..k] == routes[..k];
  }

  /** No index holds a route starting there: nothing is kept. */
  lemma {:induction false} KeptNone(routes: seq<Option<seq<nat>>>)
    requires forall k :: 0 <= k < |routes| && routes[k].Some? && routes[k].value != [] ==>
      routes[k].value[0] != k
    ensures Kept(routes) == []
  {
    if routes != [] {
      KeptNone(routes[..|routes| - 1]);
    }
  }

  /** The output: one copy of each route, the one stored at its first node, between depot stops. */
  function Collect(routes: seq<Option<seq<nat>>>): (out: seq<seq<nat>>)
  {
    var ks := Kept(routes);
    seq(|ks|, t requires 0 <= t < |ks| => Wrap(routes[ks[t]].value))
  }

  // ---------------------------------------------------------------------
  // The invariant

  /** `k` is the first or the last node of `r`. */
  predicate IsEnd(r: seq<nat>, k: nat) {
    r != [] && (r[0] == k || r[|r| - 1] == k)
  }

  /** `routeOf` partitions the customers into duplicate-free routes. */
  ghost predicate Partition(n: nat, routeOf: seq<seq<nat>>) {
    |routeOf| == n &&
    (forall k :: 1 <= k < n ==> k in routeOf[k] && NoDup(routeOf[k])) &&
    (forall k, x :: 1 <= k < n && x in routeOf[k] ==> 1 <= x < n) &&
    (forall k, x :: 1 <= k < n && x in routeOf[k] && x < n ==> routeOf[x] == routeOf[k])
  }

  /** A node's entry holds its route exactly when it is an end node of that route. */
  ghost predicate Stored(n: nat, routes: seq<Option<seq<nat>>>, routeOf: seq<seq<nat>>) {
    n >= 1 && |routes| == n && |routeOf| == n && routes[0] == None &&
    forall k :: 1 <= k < n ==>
      routes[k] == if IsEnd(routeOf[k], k) then Some(routeOf[k]) else None
  }

  /** The demand entry of every end node is the demand of its route. */
  ghost predicate DemandsKept(inst: SubInstance, demands: seq<int>, routeOf: seq<seq<nat>>) {
    |demands| == inst.n && |routeOf| == inst.n &&
    forall k :: 1 <= k < inst.n && IsEnd(routeOf[k], k) ==>
      demands[k] == Demand(inst.demands, routeOf[k])
  }

  /** Every route that was formed by a merge is within capacity. */
  ghost predicate WithinCapacity(inst: SubInstance, routeOf: seq<seq<nat>>) {
    |routeOf| == inst.n &&
    forall k :: 1 <= k < inst.n && |routeOf[k]| > 1 ==>
      Demand(inst.demands, routeOf[k]) <= inst.capacity
  }

  ghost predicate Inv(inst: SubInstance, t: Table, routeOf: seq<seq<nat>>) {
    Partition(inst.n, routeOf) && Stored(inst.n, t.routes, routeOf) &&
    DemandsKept(inst, t.demands, routeOf) && WithinCapacity(inst, routeOf)
  }

  lemma InitialInv(inst: SubInstance)
    requires Valid(inst)
    ensures Inv(inst, Initial(inst), seq(inst.n, k => [k]))
  {
    var routeOf := seq(inst.n, k => [k]);
    forall k | 1 <= k < inst.n ensures Demand(inst.demands, routeOf[k]) == inst.demands[k] {
      assert routeOf[k][1..] == [];
    }
  }

  /** What joining two disjoint routes yields. */
  lemma JoinedFacts(left: seq<nat>, right: seq<nat>, i: nat, j: nat, demands: seq<int>)
    requires left != [] && right != [] && NoDup(left) && NoDup(right)
    requires forall x :: x in left ==> x !in right
    ensures var r := Joined(left, right, i, j);
      (forall x :: x in r <==> x in left || x in right) && NoDup(r) &&
      (r[0] == left[0] || r[0] == left[|left| - 1]) &&
      (r[|r| - 1] == right[0] || r[|r| - 1] == right[|right| - 1]) &&
      Demand(demands, r) == Demand(demands, left) + Demand(demands, right)
  {
    var l := if left[0] == i then Reverse(left) else left;
    var q := if right[|right| - 1] == j then Reverse(right) else right;
    ReverseElems(left);
    ReverseElems(right);
    DemandReverse(demands, left);
    DemandReverse(demands, right);
    DemandAppend(demands, l, q);
    assert NoDup(l) && NoDup(q);
    var r := l + q;
    forall a, b | 0 <= a < b < |r| ensures r[a] != r[b] {
      if a < |l| && b >= |l| {
        assert r[a] in left && r[b] in right;
      } else if b < |l| {
        assert r[a] == l[a] && r[b] == l[b];
      } else {
        assert r[a] == q[a - |l|] && r[b] == q[b - |l|];
      }
    }
  }

  /** The ghost partition after joining `left` and `right` into `route`. */
  function Regroup(routeOf: seq<seq<nat>>, left: seq<nat>, right: seq<nat>, route: seq<nat>)
    : (r: seq<seq<nat>>)
    ensures |r| == |routeOf|
  {
    seq(|routeOf|, x requires 0 <= x < |routeOf| =>
      if x in left || x in right then route else routeOf[x])
  }

  /** Every node of `route` is a customer whose route is `route`. */
  ghost predicate Owns(n: nat, routeOf: seq<seq<nat>>, route: seq<nat>) {
    |routeOf| == n && forall y :: y in route ==> 1 <= y < n && routeOf[y] == route
  }

  lemma PartitionOwns(n: nat, routeOf: seq<seq<nat>>, k: nat)
    requires Partition(n, routeOf) && 1 <= k < n
    ensures Owns(n, routeOf, routeOf[k]) && k in routeOf[k]
  {
  }

  lemma PartitionAt(n: nat, routeOf: seq<seq<nat>>, k: nat, x: nat)
    requires Partition(n, routeOf) && 1 <= k < n && x in routeOf[k]
    ensures 1 <= x < n && routeOf[x] == routeOf[k]
  {
  }

  /** The nodes of an owned route are exactly the customers whose route it is. */
  lemma OwnsIff(n: nat, routeOf: seq<seq<nat>>, route: seq<nat>)
    requires Partition(n, routeOf) && Owns(n, routeOf, route)
    ensures forall y :: 1 <= y < n ==> (y in route <==> routeOf[y] == route)
  {
    forall y | 1 <= y < n && routeOf[y] == route ensures y in route {
      assert y in routeOf[y];
    }
  }

  lemma RegroupPartition(n: nat, routeOf: seq<seq<nat>>, left: seq<nat>, right: seq<nat>,
                         route: seq<nat>)
    requires Partition(n, routeOf) && Owns(n, routeOf, left) && Owns(n, routeOf, right)
    requires left != right && left != [] && right != []
    requires forall x :: x in route <==> x in left || x in right
    requires NoDup(route)
    ensures Partition(n, Regroup(routeOf, left, right, route))
  {
    var r := Regroup(routeOf, left, right, route);
    OwnsIff(n, routeOf, left);
    OwnsIff(n, routeOf, right);
    forall k, x | 1 <= k < n && x in r[k] ensures 1 <= x < n && r[x] == r[k] {
      if k in left || k in right {
        assert r[k] == route;
        assert x in left || x in right;
        assert r[x] == route;
      } else {
        assert r[k] == routeOf[k];
        PartitionAt(n, routeOf, k, x);
        assert (x in left <==> k in left) && (x in right <==> k in right);
      }
    }
    forall k | 1 <= k < n ensures k in r[k] && NoDup(r[k]) {
      if !(k in left || k in right) {
        assert k in routeOf[k];
      }
    }
  }

  /** The merge conditions of `Step` on table `t` and entry `e`. */
  ghost predicate Merges(inst: SubInstance, t: Table, e: Entry)
    requires Valid(inst) && Shaped(inst.n, t) && 1 <= e.i < inst.n && 1 <= e.j < inst.n
  {
    t.routes[e.i].Some? && t.routes[e.j].Some? &&
    var left, right := t.routes[e.i].value, t.routes[e.j].value;
    left[0] != right[0] && t.demands[left[0]] + t.demands[right[0]] <= inst.capacity
  }

  /** The entries after a merge, node by node. */
  lemma StepEntries(inst: SubInstance, t: Table, e: Entry)
    requires Valid(inst) && Shaped(inst.n, t) && 1 <= e.i < inst.n && 1 <= e.j < inst.n
    requires Merges(inst, t, e)
    ensures var left, right := t.routes[e.i].value, t.routes[e.j].value;
      MergedEntries(inst.n, t, Step(inst, t, e), e, left, right, Joined(left, right, e.i, e.j))
  {
  }

  /** One step of the loop keeps the invariant, with the partition regrouped on a merge. */
  lemma StepKeeps(inst: SubInstance, t: Table, e: Entry, routeOf: seq<seq<nat>>)
    returns (routeOf': seq<seq<nat>>)
    requires Valid(inst) && Shaped(inst.n, t) && 1 <= e.i < inst.n && 1 <= e.j < inst.n
    requires Inv(inst, t, routeOf)
    ensures Inv(inst, Step(inst, t, e), routeOf')
  {
    if Merges(inst, t, e) {
      routeOf' := MergeKeeps(inst, t, e, routeOf);
    } else {
      routeOf' := routeOf;
    }
  }

  /** A merging step keeps the invariant with the two routes regrouped into one. */
  lemma MergeKeeps(inst: SubInstance, t: Table, e: Entry, routeOf: seq<seq<nat>>)
    returns (routeOf': seq<seq<nat>>)
    requires Valid(inst) && Shaped(inst.n, t) && 1 <= e.i < inst.n && 1 <= e.j < inst.n
    requires Inv(inst, t, routeOf) && Merges(inst, t, e)
    ensures Inv(inst, Step(inst, t, e), routeOf')
  {
    var i, j := e.i, e.j;
    var left, right := t.routes[i].value, t.routes[j].value;
    assert left == routeOf[i] && right == routeOf[j];
    PartitionOwns(inst.n, routeOf, i);
    PartitionOwns(inst.n, routeOf, j);
    assert left != right by {
      assert left[0] != right[0];
    }
    var route := Joined(left, right, i, j);
    JoinedFacts(left, right, i, j, inst.demands);
    routeOf' := Regroup(routeOf, left, right, route);
    RegroupPartition(inst.n, routeOf, left, right, route);
    StepEntries(inst, t, e);
    assert left[0] in left && right[0] in right;
    assert IsEnd(routeOf[left[0]], left[0]) && IsEnd(routeOf[right[0]], right[0]);
    var r := Step(inst, t, e);
    assert MergeFacts(inst, t, e, routeOf, left, right, route);
    MergedStored(inst, t, r, e, routeOf, left, right, route);
    MergedDemands(inst, t, r, e, routeOf, left, right, route);
  }

  /** The entries after a merge of `left` and `right` into `route`, node by node. */
  ghost predicate MergedEntries(n: nat, t: Table, r: Table, e: Entry,
                                left: seq<nat>, right: seq<nat>, route: seq<nat>)
  {
    |t.routes| == n && |r.routes| == n && |t.demands| == n && |r.demands| == n &&
    left != [] && right != [] && route != [] && left[0] < n && right[0] < n &&
    forall k :: 0 <= k < n ==>
      r.routes[k] == (if k == route[0] || k == route[|route| - 1] then Some(route)
                      else if k == e.i || k == e.j || k == left[0] || k == right[0] ||
                              k == left[|left| - 1] || k == right[|right| - 1] then None
                      else t.routes[k]) &&
      r.demands[k] == (if k == route[0] || k == route[|route| - 1]
                       then t.demands[left[0]] + t.demands[right[0]] else t.demands[k])
  }

  /** The facts about a merge that the regrouped invariant rests on. */
  ghost predicate MergeFacts(inst: SubInstance, t: Table, e: Entry, routeOf: seq<seq<nat>>,
                             left: seq<nat>, right: seq<nat>, route: seq<nat>)
  {
    Valid(inst) && Inv(inst, t, routeOf) && left != [] && right != [] && route != [] &&
    1 <= e.i < inst.n && 1 <= e.j < inst.n && left == routeOf[e.i] && right == routeOf[e.j] &&
    left[0] < inst.n && right[0] < inst.n &&
    Owns(inst.n, routeOf, left) && Owns(inst.n, routeOf, right) &&
    IsEnd(left, e.i) && IsEnd(right, e.j) &&
    (forall x :: x in route <==> x in left || x in right) &&
    (route[0] == left[0] || route[0] == left[|left| - 1]) &&
    (route[|route| - 1] == right[0] || route[|route| - 1] == right[|right| - 1]) &&
    t.demands[left[0]] + t.demands[right[0]] == Demand(inst.demands, route) &&
    Demand(inst.demands, route) <= inst.capacity
  }

  lemma MergedStored(inst: SubInstance, t: Table, r: Table, e: Entry, routeOf: seq<seq<nat>>,
                     left: seq<nat>, right: seq<nat>, route: seq<nat>)
    requires MergeFacts(inst, t, e, routeOf, left, right, route)
    requires MergedEntries(inst.n, t, r, e, left, right, route)
    ensures Stored(inst.n, r.routes, Regroup(routeOf, left, right, route))
  {
    var g := Regroup(routeOf, left, right, route);
    assert route[0] in route && route[|route| - 1] in route;
    assert left[0] in left && left[|left| - 1] in left;
    assert right[0] in right && right[|right| - 1] in right;
    forall k | 1 <= k < inst.n
      ensures r.routes[k] == if IsEnd(g[k], k) then Some(g[k]) else None
    {
      if k in left || k in right {
        assert g[k] == route;
        assert t.routes[k] == if IsEnd(routeOf[k], k) then Some(routeOf[k]) else None;
      } else {
        assert g[k] == routeOf[k];
      }
    }
  }

  lemma MergedDemands(inst: SubInstance, t: Table, r: Table, e: Entry, routeOf: seq<seq<nat>>,
                      left: seq<nat>, right: seq<nat>, route: seq<nat>)
    requires MergeFacts(inst, t, e, routeOf, left, right, route)
    requires MergedEntries(inst.n, t, r, e, left, right, route)
    ensures DemandsKept(inst, r.demands, Regroup(routeOf, left, right, route))
    ensures WithinCapacity(inst, Regroup(routeOf, left, right, route))
  {
    var g := Regroup(routeOf, left, right, route);
    forall k | 1 <= k < inst.n && IsEnd(g[k], k)
      ensures r.demands[k] == Demand(inst.demands, g[k])
    {
      if k in left || k in right {
        assert g[k] == route;
      } else {
        assert g[k] == routeOf[k];
      }
    }
    forall k | 1 <= k < inst.n && |g[k]| > 1
      ensures Demand(inst.demands, g[k]) <= inst.capacity
    {
      if k in left || k in right {
        assert g[k] == route;
      } else {
        assert g[k] == routeOf[k];
      }
    }
  }

  /** Every loop prefix keeps the invariant for some partition. */
  lemma {:induction false} RunInv(inst: SubInstance, order: seq<Entry>)
    returns (routeOf: seq<seq<nat>>)
    requires Valid(inst) && Customers(inst.n, order)
    ensures Inv(inst, Run(inst, order), routeOf)
  {
    if order == [] {
      InitialInv(inst);
      routeOf := seq(inst.n, k => [k]);
    } else {
      var pre := order[..|order| - 1];
      assert Customers(inst.n, pre);
      var g := RunInv(inst, pre);
      routeOf := StepKeeps(inst, Run(inst, pre), order[|order| - 1], g);
    }
  }

  /** Output route `tt` is the partition's route of its first node `ks[tt]`, wrapped. */
  ghost predicate Collected(n: nat, routeOf: seq<seq<nat>>, ks: seq<nat>, out: seq<seq<nat>>) {
    |out| == |ks| && |routeOf| == n &&
    forall tt :: 0 <= tt < |out| ==>
      1 <= ks[tt] < n && routeOf[ks[tt]] != [] && routeOf[ks[tt]][0] == ks[tt] &&
      out[tt] == Wrap(routeOf[ks[tt]])
  }

  lemma CollectedRoutes(inst: SubInstance, t: Table, routeOf: seq<seq<nat>>)
    requires Valid(inst) && Inv(inst, t, routeOf)
    ensures Collected(inst.n, routeOf, Kept(t.routes), Collect(t.routes))
  {
    var ks := Kept(t.routes);
    forall tt | 0 <= tt < |ks| ensures 1 <= ks[tt] && t.routes[ks[tt]] == Some(routeOf[ks[tt]]) {
      assert ks[tt] != 0;
    }
  }

  lemma CollectedShape(inst: SubInstance, routeOf: seq<seq<nat>>, ks: seq<nat>, out: seq<seq<nat>>)
    requires Valid(inst) && Partition(inst.n, routeOf) && WithinCapacity(inst, routeOf)
    requires Collected(inst.n, routeOf, ks, out)
    ensures forall tt :: 0 <= tt < |out| ==>
      |out[tt]| >= 3 && out[tt][0] == 0 && out[tt][|out[tt]| - 1] == 0 &&
      NoDup(Interior(out[tt])) && (forall x :: x in Interior(out[tt]) ==> 1 <= x < inst.n)
    ensures forall tt :: 0 <= tt < |out| && |out[tt]| > 3 ==>
      Demand(inst.demands, Interior(out[tt])) <= inst.capacity
  {
    forall tt | 0 <= tt < |out| ensures Interior(out[tt]) == routeOf[ks[tt]] && Owns(inst.n, routeOf, routeOf[ks[tt]]) {
      PartitionOwns(inst.n, routeOf, ks[tt]);
    }
  }

  lemma CollectedDisjoint(n: nat, routeOf: seq<seq<nat>>, ks: seq<nat>, out: seq<seq<nat>>)
    requires Partition(n, routeOf) && Collected(n, routeOf, ks, out)
    requires forall t1, t2 :: 0 <= t1 < t2 < |ks| ==> ks[t1] < ks[t2]
    ensures forall t1, t2, x :: 0 <= t1 < t2 < |out| && x in Interior(out[t1]) ==>
      x !in Interior(out[t2])
  {
    forall t1, t2, x | 0 <= t1 < t2 < |out| && x in Interior(out[t1])
      ensures x !in Interior(out[t2])
    {
      var k1, k2 := ks[t1], ks[t2];
      assert Interior(out[t1]) == routeOf[k1] && Interior(out[t2]) == routeOf[k2];
      assert routeOf[x] == routeOf[k1];
      assert routeOf[k1] != routeOf[k2] by {
        assert routeOf[k1][0] != routeOf[k2][0];
      }
      PartitionOwns(n, routeOf, k2);
    }
  }

  lemma CollectedVisits(inst: SubInstance, t: Table, routeOf: seq<seq<nat>>)
    requires Valid(inst) && Inv(inst, t, routeOf)
    requires Collected(inst.n, routeOf, Kept(t.routes), Collect(t.routes))
    ensures forall x :: 1 <= x < inst.n ==> Visits(Collect(t.routes), x)
  {
    var ks := Kept(t.routes);
    var out := Collect(t.routes);
    forall x | 1 <= x < inst.n ensures Visits(out, x) {
      PartitionOwns(inst.n, routeOf, x);
      var k := routeOf[x][0];
      assert k in routeOf[x];
      assert IsEnd(routeOf[k], k);
      assert k in ks;
      var tt :| 0 <= tt < |ks| && ks[tt] == k;
      assert Interior(out[tt]) == routeOf[x];
    }
  }

  /** The routes collected from a table that keeps the invariant form a feasible sub-solution. */
  lemma CollectFeasible(inst: SubInstance, t: Table, routeOf: seq<seq<nat>>)
    requires Valid(inst) && Inv(inst, t, routeOf)
    ensures Feasible(inst, Collect(t.routes))
  {
    var ks, out := Kept(t.routes), Collect(t.routes);
    CollectedRoutes(inst, t, routeOf);
    CollectedShape(inst, routeOf, ks, out);
    CollectedDisjoint(inst.n, routeOf, ks, out);
    CollectedVisits(inst, t, routeOf);
  }

  /**
   * Whatever order the savings are visited in, the collected routes are
   * feasible; in particular for every order `sort_unstable_by` may choose
   * among equal scores.
   */
  lemma RunFeasible(inst: SubInstance, order: seq<Entry>)
    requires Valid(inst) && Customers(inst.n, order)
    ensures Feasible(inst, Collect(Run(inst, order).routes))
  {
    var routeOf := RunInv(inst, order);
    CollectFeasible(inst, Run(inst, order), routeOf);
  }

  // ---------------------------------------------------------------------
  // The imperative solver

  /** `Step` on a merging entry, written out. */
  lemma StepMerged(inst: SubInstance, t: Table, e: Entry, left: seq<nat>, right: seq<nat>,
                   route: seq<nat>, merged: int)
    requires Valid(inst) && Shaped(inst.n, t) && 1 <= e.i < inst.n && 1 <= e.j < inst.n
    requires t.routes[e.i] == Some(left) && t.routes[e.j] == Some(right)
    requires left != [] && right != [] && left[0] != right[0]
    requires merged == t.demands[left[0]] + t.demands[right[0]] && merged <= inst.capacity
    requires route == Joined(left, right, e.i, e.j)
    ensures route != [] && route[0] < inst.n && route[|route| - 1] < inst.n
    ensures Step(inst, t, e) ==
      Table(t.routes[e.i := None][e.j := None][left[0] := None][right[0] := None]
              [left[|left| - 1] := None][right[|right| - 1] := None]
              [route[0] := Some(route)][route[|route| - 1] := Some(route)],
            t.demands[route[0] := merged][route[|route| - 1] := merged])
  {
    JoinedRange(0, inst.n, left, right, e.i, e.j);
  }

  lemma RunSnoc(inst: SubInstance, order: seq<Entry>, k: nat)
    requires Valid(inst) && Customers(inst.n, order) && k < |order|
    ensures Customers(inst.n, order[..k]) && Customers(inst.n, order[..k + 1])
    ensures Run(inst, order[..k + 1]) == Step(inst, Run(inst, order[..k]), order[k])
  {
    assert order[..k + 1][..k] == order[..k];
  }

  /** One iteration of the merge loop, in place on the two vectors. */
  method MergeStep(inst: SubInstance, routes: array<Option<seq<nat>>>, routeDemands: array<int>,
                   e: Entry)
    requires Valid(inst) && 1 <= e.i < inst.n && 1 <= e.j < inst.n
    requires Shaped(inst.n, Table(routes[..], routeDemands[..]))
    modifies routes, routeDemands
    ensures Table(routes[..], routeDemands[..]) ==
      Step(inst, old(Table(routes[..], routeDemands[..])), e)
  {
    ghost var before := Table(routes[..], routeDemands[..]);
    var i, j := e.i, e.j;
    if routes[i].None? || routes[j].None? {
      return;
    }
    var leftRoute := routes[i].value;
    var rightRoute := routes[j].value;
    ghost var left, right := leftRoute, rightRoute;
    var leftStart, rightStart := leftRoute[0], rightRoute[0];
    var leftEnd, rightEnd := leftRoute[|leftRoute| - 1], rightRoute[|rightRoute| - 1];
    var mergedDemand := routeDemands[leftStart] + routeDemands[rightStart];
    if leftStart == rightStart || mergedDemand > inst.capacity {
      return;
    }
    routes[i] := None;
    routes[j] := None;
    routes[leftStart] := None;
    routes[rightStart] := None;
    routes[leftEnd] := None;
    routes[rightEnd] := None;
    ghost var cleared := routes[..];
    assert cleared == before.routes[i := None][j := None][leftStart := None]
      [rightStart := None][leftEnd := None][rightEnd := None];
    if leftStart == i {
      leftRoute := Reverse(leftRoute);
    }
    if rightEnd == j {
      rightRoute := Reverse(rightRoute);
    }
    var newRoute := leftRoute + rightRoute;
    assert newRoute == Joined(left, right, i, j);
    StepMerged(inst, before, e, left, right, newRoute, mergedDemand);
    var newStart, newEnd := newRoute[0], newRoute[|newRoute| - 1];
    routes[newStart] := Some(newRoute);
    routes[newEnd] := Some(newRoute);
    assert routes[..] == cleared[newStart := Some(newRoute)][newEnd := Some(newRoute)];
    routeDemands[newStart] := mergedDemand;
    routeDemands[newEnd] := mergedDemand;
    assert routeDemands[..] == before.demands[newStart := mergedDemand][newEnd := mergedDemand];
  }

  /** The merge loop over the sorted savings. */
  method MergeRoutes(inst: SubInstance, order: seq<Entry>)
    returns (routes: array<Option<seq<nat>>>, routeDemands: array<int>)
    requires Valid(inst) && Customers(inst.n, order)
    ensures Table(routes[..], routeDemands[..]) == Run(inst, order)
  {
    var n := inst.n;
    routes := new Option<seq<nat>>[n](k => Some([k]));
    routes[0] := None;
    routeDemands := new int[n](k requires 0 <= k < n => inst.demands[k]);
    assert Table(routes[..], routeDemands[..]) == Initial(inst);
    for k := 0 to |order|
      invariant Customers(n, order[..k])
      invariant Table(routes[..], routeDemands[..]) == Run(inst, order[..k])
    {
      RunSnoc(inst, order, k);
      MergeStep(inst, routes, routeDemands, order[k]);
    }
    assert order[..|order|] == order;
  }

  /**
   * `solve_sub_instance`: positive savings, sorted by non-increasing score,
   * merged, and collected.  The result is always `Some` and feasible.
   */
  method SolveSubInstance(inst: SubInstance) returns (solution: Option<seq<seq<nat>>>)
    requires Valid(inst)
    ensures solution.Some? && Feasible(inst, solution.value)
  {
    var scores := PairSavings(inst, false);
    var order := SortDown(scores);
    assert Customers(inst.n, order) by {
      forall t | 0 <= t < |order| ensures 1 <= order[t].i < inst.n && 1 <= order[t].j < inst.n {
        assert order[t] in multiset(scores);
      }
    }
    var routes, routeDemands := MergeRoutes(inst, order);
    RunFeasible(inst, order);
    solution := Some(Collect(routes[..]));
  }
}
