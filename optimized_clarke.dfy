/**
 * Model of the savings heuristic in
 * tig-algorithms/src/vehicle_routing/optimized_clarke/open_data.rs.
 *
 * Routes live in a hash map keyed by node.  The merge step follows the
 * Clarke-Wright rule, but it removes only the keys `i` and `j` and stores
 * the joined route under the start node of the left route and the end node
 * of the right route as they were BEFORE either route was reversed.  Other
 * end nodes keep stale copies of routes that no longer exist, and a later
 * pair can join a stale copy with a live route.
 *
 * The as-written step is `Step`; `FixedStep` removes every old end node and
 * stores the joined route under its real end nodes.  Viewed as a vector
 * indexed by node, `FixedStep` is the step of `ClarkeWrightWho`, so its
 * output is feasible for every visiting order.
 */
module OptimizedClarke {
  import opened Common
  import opened RouteCommon
  import CW = ClarkeWrightWho

  /** The route map and the demand vector. */
  datatype State = State(routes: map<nat, seq<nat>>, demands: seq<int>)

  /** Keys and the nodes of stored routes are customers; stored routes are nonempty. */
  predicate Shaped(n: nat, s: State) {
    |s.demands| == n &&
    forall k :: k in s.routes ==>
      1 <= k < n && s.routes[k] != [] &&
      forall m :: 0 <= m < |s.routes[k]| ==> 1 <= s.routes[k][m] < n
  }

  /** The map before the loop: `{i: [i]}` for every customer; demands as given. */
  function Initial(inst: SubInstance): (s: State)
    requires Valid(inst)
    ensures Shaped(inst.n, s)
    ensures forall k :: k in s.routes <==> 1 <= k < inst.n
  {
    State(map k | 1 <= k < inst.n :: [k], inst.demands)
  }

  /** One iteration of the `while let` loop, as written. */
  function Step(inst: SubInstance, s: State, e: Entry): (r: State)
    requires Valid(inst) && Shaped(inst.n, s) && 1 <= e.i < inst.n && 1 <= e.j < inst.n
    ensures Shaped(inst.n, r)
  {
    var i, j := e.i, e.j;
    if i !in s.routes || j !in s.routes then s
    else
      var left, right := s.routes[i], s.routes[j];
      var ls, rs := left[0], right[0];
      var re := right[|right| - 1];
      var merged := s.demands[ls] + s.demands[rs];
      if ls == rs || merged > inst.capacity then s
      else
        var route := CW.Joined(left, right, i, j);
        CW.JoinedRange(1, inst.n, left, right, i, j);
        var rest := s.routes - {i} - {j};
        var r := State(rest[ls := route][re := route], s.demands[ls := merged][re := merged]);
        StoredShaped(inst.n, s, r, route);
        r
  }

  /** Keys that keep their route or hold one in-range route keep the state shaped. */
  lemma StoredShaped(n: nat, s: State, r: State, route: seq<nat>)
    requires Shaped(n, s) && |r.demands| == n
    requires route != [] && forall m :: 0 <= m < |route| ==> 1 <= route[m] < n
    requires forall k :: k in r.routes ==>
      1 <= k < n && ((k in s.routes && r.routes[k] == s.routes[k]) || r.routes[k] == route)
    ensures Shaped(n, r)
  {
  }

  /** The loop over a sequence of popped savings, as written. */
  function Run(inst: SubInstance, order: seq<Entry>): (r: State)
    requires Valid(inst) && CW.Customers(inst.n, order)
    ensures Shaped(inst.n, r)
  {
    if order == [] then Initial(inst)
    else
      assert CW.Customers(inst.n, order[..|order| - 1]);
      Step(inst, Run(inst, order[..|order| - 1]), order[|order| - 1])
  }

  /** The map as a vector indexed by node. */
  function View(n: nat, m: map<nat, seq<nat>>): (v: seq<Option<seq<nat>>>)
    ensures |v| == n && forall k :: 0 <= k < n ==> v[k] == if k in m then Some(m[k]) else None
  {
    seq(n, k => if k in m then Some(m[k]) else None)
  }

  /**
   * The output: the stored routes whose key is their first node, each wrapped
   * between depot stops.  The hash map's iteration order is replaced by
   * ascending key order.
   */
  function Output(n: nat, m: map<nat, seq<nat>>): seq<seq<nat>> {
    CW.Collect(View(n, m))
  }

  // ---------------------------------------------------------------------
  // The discrepancy

  /** Four nodes, all customers ten from the depot, demand 1 each, capacity 10. */
  function Witness(): (inst: SubInstance)
    ensures Valid(inst)
  {
    SubInstance(4, [[0, 10, 10, 10], [10, 0, 1, 5], [10, 1, 0, 6], [10, 5, 6, 0]],
                [0, 1, 1, 1], 10)
  }

  /** The order a max-heap pops the positive savings of `Witness` in. */
  function WitnessOrder(): seq<Entry> {
    [Entry(19, 1, 2), Entry(15, 1, 3), Entry(14, 2, 3)]
  }

  lemma WitnessSavings()
    ensures forall e :: e in WitnessOrder() <==> IsPairEntry(Witness(), e) && e.score > 0
    ensures SortedDown(WitnessOrder()) && CW.Customers(4, WitnessOrder())
  {
    forall e | IsPairEntry(Witness(), e) && e.score > 0 ensures e in WitnessOrder() {
      assert e.i == 1 || e.i == 2;
    }
  }

  lemma WitnessInitial()
    ensures Initial(Witness()) == State(map[1 := [1], 2 := [2], 3 := [3]], [0, 1, 1, 1])
  {
    var m := Initial(Witness()).routes;
    assert m.Keys == {1, 2, 3};
  }

  lemma WitnessStep1()
    ensures Step(Witness(), State(map[1 := [1], 2 := [2], 3 := [3]], [0, 1, 1, 1]),
                 Entry(19, 1, 2)) ==
      State(map[1 := [1, 2], 2 := [1, 2], 3 := [3]], [0, 2, 2, 1])
  {
    assert Reverse([1]) == [1] && Reverse([2]) == [2];
    assert CW.Joined([1], [2], 1, 2) == [1, 2];
  }

  lemma WitnessStep2()
    ensures Step(Witness(), State(map[1 := [1, 2], 2 := [1, 2], 3 := [3]], [0, 2, 2, 1]),
                 Entry(15, 1, 3)) ==
      State(map[1 := [2, 1, 3], 2 := [1, 2], 3 := [2, 1, 3]], [0, 3, 2, 3])
  {
    assert Reverse([1, 2]) == [2, 1] && Reverse([3]) == [3];
    assert CW.Joined([1, 2], [3], 1, 3) == [2, 1, 3];
  }

  lemma WitnessStep3()
    ensures Step(Witness(), State(map[1 := [2, 1, 3], 2 := [1, 2], 3 := [2, 1, 3]], [0, 3, 2, 3]),
                 Entry(14, 2, 3)).routes ==
      map[1 := [1, 2, 3, 1, 2], 3 := [1, 2, 3, 1, 2]]
  {
    assert Reverse([2, 1, 3]) == [3, 1, 2];
    assert CW.Joined([1, 2], [2, 1, 3], 2, 3) == [1, 2, 3, 1, 2];
  }

  lemma WitnessRun1()
    ensures CW.Customers(4, [Entry(19, 1, 2)])
    ensures Run(Witness(), [Entry(19, 1, 2)]) ==
      State(map[1 := [1, 2], 2 := [1, 2], 3 := [3]], [0, 2, 2, 1])
  {
    var order := [Entry(19, 1, 2)];
    assert order[..0] == [];
    WitnessInitial();
    WitnessStep1();
  }

  lemma WitnessRun2()
    ensures CW.Customers(4, [Entry(19, 1, 2), Entry(15, 1, 3)])
    ensures Run(Witness(), [Entry(19, 1, 2), Entry(15, 1, 3)]) ==
      State(map[1 := [2, 1, 3], 2 := [1, 2], 3 := [2, 1, 3]], [0, 3, 2, 3])
  {
    var order := [Entry(19, 1, 2), Entry(15, 1, 3)];
    assert order[..1] == [Entry(19, 1, 2)];
    WitnessRun1();
    WitnessStep2();
  }

  lemma WitnessRun()
    ensures CW.Customers(4, WitnessOrder())
    ensures Run(Witness(), WitnessOrder()).routes == map[1 := [1, 2, 3, 1, 2], 3 := [1, 2, 3, 1, 2]]
  {
    var order := WitnessOrder();
    assert order[..2] == [Entry(19, 1, 2), Entry(15, 1, 3)];
    WitnessRun2();
    WitnessStep3();
  }

  lemma WitnessKept(v: seq<Option<seq<nat>>>)
    requires v == [None, Some([1, 2, 3, 1, 2]), None, Some([1, 2, 3, 1, 2])]
    ensures CW.Kept(v) == [1]
  {
    assert v[..0] == [] && v[..4] == v;
    CW.KeptPrefix(v, 0);
    CW.KeptPrefix(v, 1);
    CW.KeptPrefix(v, 2);
    CW.KeptPrefix(v, 3);
  }

  lemma WitnessOutput()
    ensures Output(4, map[1 := [1, 2, 3, 1, 2], 3 := [1, 2, 3, 1, 2]]) == [[0, 1, 2, 3, 1, 2, 0]]
  {
    var v := View(4, map[1 := [1, 2, 3, 1, 2], 3 := [1, 2, 3, 1, 2]]);
    assert v == [None, Some([1, 2, 3, 1, 2]), None, Some([1, 2, 3, 1, 2])];
    WitnessKept(v);
    assert Wrap([1, 2, 3, 1, 2]) == [0, 1, 2, 3, 1, 2, 0];
  }

  lemma NotFeasible(inst: SubInstance, out: seq<seq<nat>>)
    requires Valid(inst) && out == [[0, 1, 2, 3, 1, 2, 0]]
    ensures !Feasible(inst, out)
  {
    var r := Interior(out[0]);
    assert r == [1, 2, 3, 1, 2];
    assert r[0] == r[3];
  }

  /**
   * On `Witness` the positive savings are (19, 1, 2), (15, 1, 3) and
   * (14, 2, 3), which a max-heap pops in this order.  The as-written loop
   * returns one route that visits customers 1 and 2 twice, so the output
   * is not feasible.
   */
  lemma StaleKeysDuplicate()
    ensures forall e :: e in WitnessOrder() <==> IsPairEntry(Witness(), e) && e.score > 0
    ensures SortedDown(WitnessOrder()) && CW.Customers(4, WitnessOrder())
    ensures Output(4, Run(Witness(), WitnessOrder()).routes) == [[0, 1, 2, 3, 1, 2, 0]]
    ensures !Feasible(Witness(), Output(4, Run(Witness(), WitnessOrder()).routes))
  {
    WitnessSavings();
    WitnessRun();
    WitnessOutput();
    NotFeasible(Witness(), [[0, 1, 2, 3, 1, 2, 0]]);
  }

  // ---------------------------------------------------------------------
  // The corrected step

  /**
   * The step the map was evidently meant to perform: remove the keys of all
   * four old end nodes, and store the joined route under its own first and
   * last node.
   */
  function FixedStep(inst: SubInstance, s: State, e: Entry): (r: State)
    requires Valid(inst) && Shaped(inst.n, s) && 1 <= e.i < inst.n && 1 <= e.j < inst.n
    ensures Shaped(inst.n, r)
  {
    var i, j := e.i, e.j;
    if i !in s.routes || j !in s.routes then s
    else
      var left, right := s.routes[i], s.routes[j];
      var ls, rs := left[0], right[0];
      var le, re := left[|left| - 1], right[|right| - 1];
      var merged := s.demands[ls] + s.demands[rs];
      if ls == rs || merged > inst.capacity then s
      else
        var route := CW.Joined(left, right, i, j);
        CW.JoinedRange(1, inst.n, left, right, i, j);
        var first, last := route[0], route[|route| - 1];
        var rest := s.routes - {i, j, ls, rs, le, re};
        var r := State(rest[first := route][last := route],
                       s.demands[first := merged][last := merged]);
        StoredShaped(inst.n, s, r, route);
        r
  }

  function FixedRun(inst: SubInstance, order: seq<Entry>): (r: State)
    requires Valid(inst) && CW.Customers(inst.n, order)
    ensures Shaped(inst.n, r)
  {
    if order == [] then Initial(inst)
    else
      assert CW.Customers(inst.n, order[..|order| - 1]);
      FixedStep(inst, FixedRun(inst, order[..|order| - 1]), order[|order| - 1])
  }

  /** Removing six keys and storing a route under two keys, seen as a vector by node. */
  lemma ViewUpdate(n: nat, m: map<nat, seq<nat>>, a: nat, b: nat, c: nat, d: nat, e: nat, f: nat,
                   x: nat, y: nat, route: seq<nat>)
    requires a < n && b < n && c < n && d < n && e < n && f < n && x < n && y < n
    ensures View(n, (m - {a, b, c, d, e, f})[x := route][y := route]) ==
      View(n, m)[a := None][b := None][c := None][d := None][e := None][f := None]
        [x := Some(route)][y := Some(route)]
  {
    var lhs := View(n, (m - {a, b, c, d, e, f})[x := route][y := route]);
    var rhs := View(n, m)[a := None][b := None][c := None][d := None][e := None][f := None]
        [x := Some(route)][y := Some(route)];
    forall k | 0 <= k < n ensures lhs[k] == rhs[k] {
    }
  }

  /** `FixedStep` on a merging entry, written out. */
  lemma FixedStepMerged(inst: SubInstance, s: State, e: Entry, left: seq<nat>, right: seq<nat>,
                        route: seq<nat>, merged: int)
    requires Valid(inst) && Shaped(inst.n, s) && 1 <= e.i < inst.n && 1 <= e.j < inst.n
    requires e.i in s.routes && e.j in s.routes && s.routes[e.i] == left && s.routes[e.j] == right
    requires left != [] && right != [] && left[0] != right[0]
    requires merged == s.demands[left[0]] + s.demands[right[0]] && merged <= inst.capacity
    requires route == CW.Joined(left, right, e.i, e.j)
    ensures FixedStep(inst, s, e) ==
      State((s.routes - {e.i, e.j, left[0], right[0], left[|left| - 1], right[|right| - 1]})
              [route[0] := route][route[|route| - 1] := route],
            s.demands[route[0] := merged][route[|route| - 1] := merged])
  {
  }

  /** A merging entry: the corrected step, seen as a vector, is the Clarke-Wright merge. */
  lemma FixedMergeView(inst: SubInstance, s: State, e: Entry)
    requires Valid(inst) && Shaped(inst.n, s) && 1 <= e.i < inst.n && 1 <= e.j < inst.n
    requires e.i in s.routes && e.j in s.routes
    requires s.routes[e.i][0] != s.routes[e.j][0]
    requires s.demands[s.routes[e.i][0]] + s.demands[s.routes[e.j][0]] <= inst.capacity
    ensures var t := CW.Table(View(inst.n, s.routes), s.demands);
      CW.Shaped(inst.n, t) &&
      CW.Table(View(inst.n, FixedStep(inst, s, e).routes), FixedStep(inst, s, e).demands) ==
        CW.Step(inst, t, e)
  {
    var n := inst.n;
    var t := CW.Table(View(n, s.routes), s.demands);
    var left, right := s.routes[e.i], s.routes[e.j];
    var route := CW.Joined(left, right, e.i, e.j);
    var merged := s.demands[left[0]] + s.demands[right[0]];
    CW.StepMerged(inst, t, e, left, right, route, merged);
    FixedStepMerged(inst, s, e, left, right, route, merged);
    ViewUpdate(n, s.routes, e.i, e.j, left[0], right[0], left[|left| - 1], right[|right| - 1],
               route[0], route[|route| - 1], route);
  }

  /** Seen as a vector by node, the corrected step is the Clarke-Wright step. */
  lemma FixedStepView(inst: SubInstance, s: State, e: Entry)
    requires Valid(inst) && Shaped(inst.n, s) && 1 <= e.i < inst.n && 1 <= e.j < inst.n
    ensures var t := CW.Table(View(inst.n, s.routes), s.demands);
      CW.Shaped(inst.n, t) &&
      CW.Table(View(inst.n, FixedStep(inst, s, e).routes), FixedStep(inst, s, e).demands) ==
        CW.Step(inst, t, e)
  {
    if e.i in s.routes && e.j in s.routes &&
       s.routes[e.i][0] != s.routes[e.j][0] &&
       s.demands[s.routes[e.i][0]] + s.demands[s.routes[e.j][0]] <= inst.capacity {
      FixedMergeView(inst, s, e);
    }
  }

  /** Seen as a vector by node, the corrected run is the Clarke-Wright run. */
  lemma {:induction false} FixedRunView(inst: SubInstance, order: seq<Entry>)
    requires Valid(inst) && CW.Customers(inst.n, order)
    ensures CW.Table(View(inst.n, FixedRun(inst, order).routes), FixedRun(inst, order).demands) ==
      CW.Run(inst, order)
  {
    if order == [] {
      assert View(inst.n, Initial(inst).routes) == CW.Initial(inst).routes;
    } else {
      var pre := order[..|order| - 1];
      assert CW.Customers(inst.n, pre);
      FixedRunView(inst, pre);
      FixedStepView(inst, FixedRun(inst, pre), order[|order| - 1]);
    }
  }

  /** With the corrected step, the output is feasible for every visiting order. */
  lemma FixedRunFeasible(inst: SubInstance, order: seq<Entry>)
    requires Valid(inst) && CW.Customers(inst.n, order)
    ensures Feasible(inst, Output(inst.n, FixedRun(inst, order).routes))
  {
    FixedRunView(inst, order);
    CW.RunFeasible(inst, order);
  }

  // ---------------------------------------------------------------------
  // The imperative solver

  /** One iteration of the loop as written, on the map and in place on the demands. */
  method MergeStep(inst: SubInstance, routes: map<nat, seq<nat>>, routeDemands: array<int>,
                   e: Entry) returns (routes': map<nat, seq<nat>>)
    requires Valid(inst) && 1 <= e.i < inst.n && 1 <= e.j < inst.n
    requires Shaped(inst.n, State(routes, routeDemands[..]))
    modifies routeDemands
    ensures State(routes', routeDemands[..]) == Step(inst, State(routes, old(routeDemands[..])), e)
  {
    var i, j := e.i, e.j;
    routes' := routes;
    if i !in routes || j !in routes {
      return;
    }
    var leftRoute := routes[i];
    var rightRoute := routes[j];
    var leftStart, rightStart := leftRoute[0], rightRoute[0];
    var rightEnd := rightRoute[|rightRoute| - 1];
    var mergedDemand := routeDemands[leftStart] + routeDemands[rightStart];
    if leftStart == rightStart || mergedDemand > inst.capacity {
      return;
    }
    routes' := routes' - {i};
    routes' := routes' - {j};
    if leftStart == i {
      leftRoute := Reverse(leftRoute);
    }
    if rightEnd == j {
      rightRoute := Reverse(rightRoute);
    }
    leftRoute := leftRoute + rightRoute;
    routes' := routes'[leftStart := leftRoute];
    routes' := routes'[rightEnd := leftRoute];
    routeDemands[leftStart] := mergedDemand;
    routeDemands[rightEnd] := mergedDemand;
  }

  lemma RunSnoc(inst: SubInstance, order: seq<Entry>, k: nat)
    requires Valid(inst) && CW.Customers(inst.n, order) && k < |order|
    ensures CW.Customers(inst.n, order[..k]) && CW.Customers(inst.n, order[..k + 1])
    ensures Run(inst, order[..k + 1]) == Step(inst, Run(inst, order[..k]), order[k])
  {
    assert order[..k + 1][..k] == order[..k];
  }

  /** The `while let` loop over the popped savings, as written. */
  method MergeRoutes(inst: SubInstance, order: seq<Entry>)
    returns (routes: map<nat, seq<nat>>, routeDemands: array<int>)
    requires Valid(inst) && CW.Customers(inst.n, order)
    ensures State(routes, routeDemands[..]) == Run(inst, order)
  {
    routes := map k | 1 <= k < inst.n :: [k];
    routeDemands := new int[inst.n](k requires 0 <= k < inst.n => inst.demands[k]);
    assert State(routes, routeDemands[..]) == Initial(inst);
    for k := 0 to |order|
      invariant CW.Customers(inst.n, order[..k])
      invariant State(routes, routeDemands[..]) == Run(inst, order[..k])
    {
      RunSnoc(inst, order, k);
      routes := MergeStep(inst, routes, routeDemands, order[k]);
    }
    assert order[..|order|] == order;
  }

  /**
   * `solve_sub_instance` as written: the positive savings, popped from a
   * max-heap in non-increasing tuple order, merged, and collected.
   */
  method SolveSubInstance(inst: SubInstance) returns (solution: Option<seq<seq<nat>>>)
    requires Valid(inst)
    ensures solution.Some?
    ensures forall r :: r in solution.value ==> |r| >= 3 && r[0] == 0 && r[|r| - 1] == 0
  {
    var scores := PairSavings(inst, false);
    var order := SortDown(scores);
    assert CW.Customers(inst.n, order) by {
      forall t | 0 <= t < |order| ensures 1 <= order[t].i < inst.n && 1 <= order[t].j < inst.n {
        assert order[t] in multiset(scores);
      }
    }
    var routes, routeDemands := MergeRoutes(inst, order);
    solution := Some(Output(inst.n, routes));
  }
}
