/**
 * Model of the union-find Clarke-Wright variant in
 * tig-algorithms/src/vehicle_routing/super_heaped/innovator_outbound.rs.
 *
 * The union-find keeps a `parent` vector and a `rank` vector.  `Root`
 * follows parents to the representative; rank strictly increases along
 * every parent edge, which is what makes `Root` terminate.  `Compress` is
 * the effect of `find` on `parent` (every node on the visited path points
 * to the root afterwards), and `Link` is `union` applied to two roots.
 */
module SuperHeaped {
  import opened Common
  import opened RouteCommon
  import CW = ClarkeWrightWho

  // ---------------------------------------------------------------------
  // Union-find

  /** The `parent` and `rank` vectors. */
  datatype UF = UF(parent: seq<nat>, rank: seq<nat>)

  /** Parents are in range and rank strictly increases along every parent edge. */
  predicate Forest(uf: UF) {
    |uf.parent| == |uf.rank| &&
    forall x :: 0 <= x < |uf.parent| ==>
      uf.parent[x] < |uf.parent| && (uf.parent[x] != x ==> uf.rank[x] < uf.rank[uf.parent[x]])
  }

  /** The nodes of strictly higher rank than `x`; it shrinks along parent edges. */
  ghost function Above(rank: seq<nat>, x: nat): set<nat>
    requires x < |rank|
  {
    set y | 0 <= y < |rank| && rank[y] > rank[x]
  }

  lemma AboveShrinks(uf: UF, x: nat)
    requires Forest(uf) && x < |uf.parent| && uf.parent[x] != x
    ensures Above(uf.rank, uf.parent[x]) < Above(uf.rank, x)
  {
    var p := uf.parent[x];
    assert p in Above(uf.rank, x) && p !in Above(uf.rank, p);
  }

  /** The representative of `x`. */
  function Root(uf: UF, x: nat): (r: nat)
    requires Forest(uf) && x < |uf.parent|
    ensures r < |uf.parent| && uf.parent[r] == r
    decreases Above(uf.rank, x)
  {
    if uf.parent[x] == x then x
    else
      AboveShrinks(uf, x);
      Root(uf, uf.parent[x])
  }

  /** A node below its root has a smaller rank than the root. */
  lemma RootRank(uf: UF, x: nat)
    requires Forest(uf) && x < |uf.parent|
    ensures Root(uf, x) != x ==> uf.rank[x] < uf.rank[Root(uf, x)]
    decreases Above(uf.rank, x)
  {
    if uf.parent[x] != x {
      AboveShrinks(uf, x);
      RootRank(uf, uf.parent[x]);
    }
  }

  /** The nodes `find(x)` visits: `x`, its parent, and so on up to the root. */
  ghost function Path(uf: UF, x: nat): (p: set<nat>)
    requires Forest(uf) && x < |uf.parent|
    ensures x in p && Root(uf, x) in p
    ensures forall y :: y in p ==> y < |uf.parent| && uf.rank[y] >= uf.rank[x]
    decreases Above(uf.rank, x)
  {
    if uf.parent[x] == x then {x}
    else
      AboveShrinks(uf, x);
      {x} + Path(uf, uf.parent[x])
  }

  /** Two forests over the same nodes with the same representatives. */
  ghost predicate SameRoots(u: UF, v: UF) {
    Forest(u) && Forest(v) && |u.parent| == |v.parent| &&
    forall z :: 0 <= z < |u.parent| ==> Root(u, z) == Root(v, z)
  }

  /** Pointing `x` straight at its root keeps the forest and every representative. */
  lemma RedirectAt(uf: UF, x: nat, z: nat)
    requires Forest(uf) && x < |uf.parent| && z < |uf.parent|
    requires Forest(UF(uf.parent[x := Root(uf, x)], uf.rank))
    ensures Root(UF(uf.parent[x := Root(uf, x)], uf.rank), z) == Root(uf, z)
    decreases Above(uf.rank, z)
  {
    var v := UF(uf.parent[x := Root(uf, x)], uf.rank);
    if uf.parent[z] != z {
      AboveShrinks(uf, z);
      if z == x {
        var r := Root(uf, x);
        assert v.parent[r] == r;
      } else {
        RedirectAt(uf, x, uf.parent[z]);
      }
    }
  }

  lemma Redirect(uf: UF, x: nat)
    requires Forest(uf) && x < |uf.parent|
    ensures Forest(UF(uf.parent[x := Root(uf, x)], uf.rank))
    ensures SameRoots(uf, UF(uf.parent[x := Root(uf, x)], uf.rank))
  {
    RootRank(uf, x);
    var v := UF(uf.parent[x := Root(uf, x)], uf.rank);
    forall z | 0 <= z < |uf.parent| ensures Root(uf, z) == Root(v, z) {
      RedirectAt(uf, x, z);
    }
  }

  /**
   * The parent vector after `find(x)`: every node on the path from `x` points
   * at the root, every other entry is unchanged, and no representative moves.
   */
  function Compress(uf: UF, x: nat): (p: seq<nat>)
    requires Forest(uf) && x < |uf.parent|
    ensures |p| == |uf.parent| && Forest(UF(p, uf.rank)) && SameRoots(uf, UF(p, uf.rank))
    ensures forall y :: 0 <= y < |p| ==>
      p[y] == if y in Path(uf, x) then Root(uf, x) else uf.parent[y]
    decreases Above(uf.rank, x)
  {
    if uf.parent[x] == x then uf.parent
    else
      AboveShrinks(uf, x);
      var p1 := Compress(uf, uf.parent[x]);
      var u1 := UF(p1, uf.rank);
      assert x !in Path(uf, uf.parent[x]);
      assert Root(u1, x) == Root(uf, x) by {
        assert u1.parent[x] == uf.parent[x];
      }
      Redirect(u1, x);
      p1[x := Root(uf, x)]
  }

  /** `find` on a root changes nothing. */
  lemma CompressRoot(uf: UF, x: nat)
    requires Forest(uf) && x < |uf.parent| && uf.parent[x] == x
    ensures Compress(uf, x) == uf.parent && Root(uf, x) == x
  {
  }

  /** The root that stays a root when `rx` and `ry` are linked. */
  function Winner(uf: UF, rx: nat, ry: nat): nat
    requires |uf.rank| == |uf.parent| && rx < |uf.parent| && ry < |uf.parent|
  {
    if uf.rank[rx] >= uf.rank[ry] then rx else ry
  }

  /**
   * `union` on two roots: nothing when they are equal; otherwise the root of
   * lower rank goes under the other, and on a tie `ry` goes under `rx` and
   * the rank of `rx` rises by one.
   */
  function Link(uf: UF, rx: nat, ry: nat): (r: UF)
    requires Forest(uf) && rx < |uf.parent| && ry < |uf.parent|
    requires uf.parent[rx] == rx && uf.parent[ry] == ry
    ensures Forest(r) && |r.parent| == |uf.parent|
  {
    if rx == ry then uf
    else if uf.rank[rx] > uf.rank[ry] then UF(uf.parent[ry := rx], uf.rank)
    else if uf.rank[rx] < uf.rank[ry] then UF(uf.parent[rx := ry], uf.rank)
    else UF(uf.parent[ry := rx], uf.rank[rx := uf.rank[rx] + 1])
  }

  lemma LinkRootAt(uf: UF, rx: nat, ry: nat, z: nat)
    requires Forest(uf) && rx < |uf.parent| && ry < |uf.parent| && z < |uf.parent|
    requires uf.parent[rx] == rx && uf.parent[ry] == ry
    ensures Root(Link(uf, rx, ry), z) ==
      if Root(uf, z) == rx || Root(uf, z) == ry then Winner(uf, rx, ry) else Root(uf, z)
    decreases Above(uf.rank, z)
  {
    var v := Link(uf, rx, ry);
    if uf.parent[z] != z {
      AboveShrinks(uf, z);
      LinkRootAt(uf, rx, ry, uf.parent[z]);
    } else if rx != ry && z == (if Winner(uf, rx, ry) == rx then ry else rx) {
      assert v.parent[Winner(uf, rx, ry)] == Winner(uf, rx, ry);
    }
  }

  /** After linking, the members of both roots share the winner as representative. */
  lemma LinkRoots(uf: UF, rx: nat, ry: nat)
    requires Forest(uf) && rx < |uf.parent| && ry < |uf.parent|
    requires uf.parent[rx] == rx && uf.parent[ry] == ry
    ensures forall z :: 0 <= z < |uf.parent| ==>
      Root(Link(uf, rx, ry), z) ==
        if Root(uf, z) == rx || Root(uf, z) == ry then Winner(uf, rx, ry) else Root(uf, z)
  {
    forall z | 0 <= z < |uf.parent|
      ensures Root(Link(uf, rx, ry), z) ==
        if Root(uf, z) == rx || Root(uf, z) == ry then Winner(uf, rx, ry) else Root(uf, z)
    {
      LinkRootAt(uf, rx, ry, z);
    }
  }

  /** Linking the same roots in two forests with the same representatives keeps them alike. */
  lemma LinkSameRoots(u: UF, v: UF, rx: nat, ry: nat)
    requires SameRoots(u, v) && u.rank == v.rank && rx < |u.parent| && ry < |u.parent|
    requires u.parent[rx] == rx && u.parent[ry] == ry && v.parent[rx] == rx && v.parent[ry] == ry
    ensures SameRoots(Link(u, rx, ry), Link(v, rx, ry))
    ensures Link(u, rx, ry).rank == Link(v, rx, ry).rank
  {
    LinkRoots(u, rx, ry);
    LinkRoots(v, rx, ry);
  }

  /** `find`: the representative of `x`, compressing the path to it. */
  method Find(x: nat, parent: array<nat>, ghost rank: seq<nat>) returns (r: nat)
    requires Forest(UF(parent[..], rank)) && x < parent.Length
    modifies parent
    ensures r == Root(UF(old(parent[..]), rank), x)
    ensures parent[..] == Compress(UF(old(parent[..]), rank), x)
    decreases Above(rank, x)
  {
    ghost var uf := UF(parent[..], rank);
    if parent[x] != x {
      AboveShrinks(uf, x);
      var root := Find(parent[x], parent, rank);
      ghost var u1 := UF(parent[..], rank);
      assert x !in Path(uf, uf.parent[x]);
      assert Root(u1, x) == Root(uf, x) by {
        assert u1.parent[x] == uf.parent[x];
      }
      parent[x] := root;
    }
    r := parent[x];
  }

  /** `union`: find both representatives, then link them by rank. */
  method Union(x: nat, y: nat, parent: array<nat>, rank: array<nat>)
    requires parent != rank
    requires Forest(UF(parent[..], rank[..])) && x < parent.Length && y < parent.Length
    modifies parent, rank
    ensures var u0 := UF(old(parent[..]), old(rank[..]));
      var c1 := UF(Compress(u0, x), u0.rank);
      var c2 := UF(Compress(c1, y), u0.rank);
      UF(parent[..], rank[..]) == Link(c2, Root(u0, x), Root(u0, y))
  {
    ghost var u0 := UF(parent[..], rank[..]);
    var rootX := Find(x, parent, rank[..]);
    ghost var c1 := UF(parent[..], rank[..]);
    var rootY := Find(y, parent, rank[..]);
    ghost var c2 := UF(parent[..], rank[..]);
    assert Root(c1, y) == Root(u0, y);
    assert c2.parent[rootX] == rootX by {
      assert Root(c2, rootX) == Root(c1, rootX) == Root(c1, Root(u0, x));
    }
    if rootX != rootY {
      if rank[rootX] > rank[rootY] {
        parent[rootY] := rootX;
      } else if rank[rootX] < rank[rootY] {
        parent[rootX] := rootY;
      } else {
        parent[rootY] := rootX;
        rank[rootX] := rank[rootX] + 1;
      }
    }
  }

  // ---------------------------------------------------------------------
  // The merge loop

  /** The route vector, the demand vector and the union-find. */
  datatype Heaped = Heaped(routes: seq<Option<seq<nat>>>, demands: seq<int>, uf: UF)

  /** All vectors have length `n`; stored routes are nonempty lists of customers. */
  predicate Shaped(n: nat, s: Heaped) {
    |s.routes| == n && |s.demands| == n && |s.uf.parent| == n && Forest(s.uf) &&
    forall k :: 0 <= k < n && s.routes[k].Some? ==>
      s.routes[k].value != [] &&
      forall m :: 0 <= m < |s.routes[k].value| ==> 1 <= s.routes[k].value[m] < n
  }

  /** Before the loop: `Some([i])` at every customer, every node its own root of rank 0. */
  function Initial(inst: SubInstance): (s: Heaped)
    requires Valid(inst)
    ensures Shaped(inst.n, s)
  {
    Heaped(seq(inst.n, k => if k == 0 then None else Some([k])), inst.demands,
           UF(seq(inst.n, k => k), seq(inst.n, k => 0)))
  }

  /**
   * A merge of the routes held at the roots `ri` and `rj`: the entries of
   * the four old end nodes are cleared, both roots get left ++ right and the
   * demand `merged`, and the roots are linked.
   */
  function Merged(n: nat, s: Heaped, ri: nat, rj: nat, merged: int): (r: Heaped)
    requires Shaped(n, s) && ri < n && rj < n && s.routes[ri].Some? && s.routes[rj].Some?
    requires s.uf.parent[ri] == ri && s.uf.parent[rj] == rj
    ensures Shaped(n, r)
  {
    var left, right := s.routes[ri].value, s.routes[rj].value;
    var routes := s.routes[left[0] := None][right[0] := None]
      [left[|left| - 1] := None][right[|right| - 1] := None];
    Heaped(routes[ri := Some(left + right)][rj := Some(left + right)],
           s.demands[ri := merged][rj := merged],
           Link(s.uf, ri, rj))
  }

  /**
   * One iteration of the `while let` loop after the sign test, as written.
   * The pair is skipped when i and j share a root, when either root holds no
   * route, or when the demands stored at the two START nodes add up to more
   * than the capacity; otherwise the two routes are merged.
   */
  function Step(inst: SubInstance, s: Heaped, e: Entry): (r: Heaped)
    requires Valid(inst) && Shaped(inst.n, s) && 1 <= e.i < inst.n && 1 <= e.j < inst.n
    ensures Shaped(inst.n, r)
  {
    var ri, rj := Root(s.uf, e.i), Root(s.uf, e.j);
    if ri == rj || s.routes[ri].None? || s.routes[rj].None? then s
    else
      var merged := s.demands[s.routes[ri].value[0]] + s.demands[s.routes[rj].value[0]];
      if merged > inst.capacity then s else Merged(inst.n, s, ri, rj, merged)
  }

  function Run(inst: SubInstance, order: seq<Entry>): (r: Heaped)
    requires Valid(inst) && CW.Customers(inst.n, order)
    ensures Shaped(inst.n, r)
  {
    if order == [] then Initial(inst)
    else
      assert CW.Customers(inst.n, order[..|order| - 1]);
      Step(inst, Run(inst, order[..|order| - 1]), order[|order| - 1])
  }

  lemma RunSnoc(inst: SubInstance, order: seq<Entry>, k: nat)
    requires Valid(inst) && CW.Customers(inst.n, order) && k < |order|
    ensures CW.Customers(inst.n, order[..k]) && CW.Customers(inst.n, order[..k + 1])
    ensures Run(inst, order[..k + 1]) == Step(inst, Run(inst, order[..k]), order[k])
  {
    assert order[..k + 1][..k] == order[..k];
  }

  /** The number of pops before the first negative score, where the loop breaks. */
  function Stop(order: seq<Entry>): (k: nat)
    ensures k <= |order| && (forall t :: 0 <= t < k ==> order[t].score >= 0)
    ensures k < |order| ==> order[k].score < 0
  {
    if order == [] || order[0].score < 0 then 0 else 1 + Stop(order[1..])
  }

  // ---------------------------------------------------------------------
  // A counterexample to the as-written loop

  /**
   * Six nodes: every customer is 10 from the depot, and customers i and j
   * are `20 - saving` apart, so the savings of the ten pairs are 0 .. 9 in
   * the order (2,3), (1,2), (1,3), (1,4), (2,4), (3,4), (1,5), (2,5), (3,5),
   * (4,5).  Every customer has demand 1 and the capacity is 4.
   */
  function Witness(): (inst: SubInstance)
    ensures Valid(inst)
  {
    SubInstance(6, [[0, 10, 10, 10, 10, 10], [10, 0, 19, 18, 17, 14], [10, 19, 0, 20, 16, 13],
                    [10, 18, 20, 0, 15, 12], [10, 17, 16, 15, 0, 11], [10, 14, 13, 12, 11, 0]],
                [0, 1, 1, 1, 1, 1], 4)
  }

  /** The order the min-heap of `Reverse` tuples pops the savings of `Witness` in. */
  function WitnessOrder(): seq<Entry> {
    [Entry(0, 2, 3), Entry(1, 1, 2), Entry(2, 1, 3), Entry(3, 1, 4), Entry(4, 2, 4),
     Entry(5, 3, 4), Entry(6, 1, 5), Entry(7, 2, 5), Entry(8, 3, 5), Entry(9, 4, 5)]
  }

  lemma WitnessPairs()
    ensures forall e :: e in WitnessOrder() <==> IsPairEntry(Witness(), e)
  {
    forall e | IsPairEntry(Witness(), e) ensures e in WitnessOrder() {
      assert e.i == 1 || e.i == 2 || e.i == 3 || e.i == 4;
    }
  }

  lemma WitnessSorted()
    ensures SortedUp(WitnessOrder()) && CW.Customers(6, WitnessOrder())
  {
    var o := WitnessOrder();
    assert forall t :: 0 <= t < |o| ==> o[t].score == t;
  }

  lemma WitnessStop()
    ensures Stop(WitnessOrder()) == 10
  {
    var o := WitnessOrder();
    assert forall t :: 0 <= t < |o| ==> o[t].score >= 0;
  }

  lemma WitnessSavings()
    ensures forall e :: e in WitnessOrder() <==> IsPairEntry(Witness(), e)
    ensures SortedUp(WitnessOrder()) && Stop(WitnessOrder()) == 10
    ensures CW.Customers(6, WitnessOrder())
  {
    WitnessPairs();
    WitnessSorted();
    WitnessStop();
  }

  function S0(): Heaped {
    Heaped([None, Some([1]), Some([2]), Some([3]), Some([4]), Some([5])], [0, 1, 1, 1, 1, 1],
           UF([0, 1, 2, 3, 4, 5], [0, 0, 0, 0, 0, 0]))
  }

  function S1(): Heaped {
    Heaped([None, Some([1]), Some([2, 3]), Some([2, 3]), Some([4]), Some([5])], [0, 1, 2, 2, 1, 1],
           UF([0, 1, 2, 2, 4, 5], [0, 0, 1, 0, 0, 0]))
  }

  function S2(): Heaped {
    Heaped([None, Some([1, 2, 3]), Some([1, 2, 3]), None, Some([4]), Some([5])], [0, 3, 3, 2, 1, 1],
           UF([0, 2, 2, 2, 4, 5], [0, 0, 1, 0, 0, 0]))
  }

  function S4(): Heaped {
    Heaped([None, None, Some([1, 2, 3, 4]), None, Some([1, 2, 3, 4]), Some([5])], [0, 3, 4, 2, 4, 1],
           UF([0, 2, 2, 2, 2, 5], [0, 0, 1, 0, 0, 0]))
  }

  function S7(): Heaped {
    Heaped([None, None, Some([1, 2, 3, 4, 5]), None, None, Some([1, 2, 3, 4, 5])], [0, 3, 4, 2, 4, 4],
           UF([0, 2, 2, 2, 2, 2], [0, 0, 1, 0, 0, 0]))
  }

  lemma WitnessInitial()
    ensures Initial(Witness()) == S0()
  {
  }

  lemma WitnessStep0()
    ensures Shaped(6, S0()) && Step(Witness(), S0(), Entry(0, 2, 3)) == S1()
  {
    assert Root(S0().uf, 2) == 2 && Root(S0().uf, 3) == 3;
    assert Link(S0().uf, 2, 3) == S1().uf;
    assert S0().routes[2].value + S0().routes[3].value == S1().routes[2].value;
    assert Merged(6, S0(), 2, 3, 2).routes == S1().routes;
    assert Merged(6, S0(), 2, 3, 2) == S1();
  }

  lemma WitnessStep1()
    ensures Shaped(6, S1()) && Step(Witness(), S1(), Entry(1, 1, 2)) == S2()
  {
    assert Root(S1().uf, 1) == 1 && Root(S1().uf, 2) == 2;
    assert Link(S1().uf, 1, 2) == S2().uf;
    assert S1().routes[1].value + S1().routes[2].value == S2().routes[1].value;
    assert Merged(6, S1(), 1, 2, 3).routes == S2().routes;
    assert Merged(6, S1(), 1, 2, 3) == S2();
  }

  lemma WitnessStep2()
    ensures Shaped(6, S2()) && Step(Witness(), S2(), Entry(2, 1, 3)) == S2()
  {
    assert Root(S2().uf, 1) == 2 && Root(S2().uf, 3) == 2;
  }

  lemma WitnessStep3()
    ensures Shaped(6, S2()) && Step(Witness(), S2(), Entry(3, 1, 4)) == S4()
  {
    assert Root(S2().uf, 1) == 2 && Root(S2().uf, 4) == 4;
    assert Link(S2().uf, 2, 4) == S4().uf;
    assert S2().routes[2].value + S2().routes[4].value == S4().routes[2].value;
    assert Merged(6, S2(), 2, 4, 4).routes == S4().routes;
    assert Merged(6, S2(), 2, 4, 4) == S4();
  }

  lemma WitnessStep4()
    ensures Shaped(6, S4()) && Step(Witness(), S4(), Entry(4, 2, 4)) == S4()
  {
    assert Root(S4().uf, 2) == 2 && Root(S4().uf, 4) == 2;
  }

  lemma WitnessStep5()
    ensures Shaped(6, S4()) && Step(Witness(), S4(), Entry(5, 3, 4)) == S4()
  {
    assert Root(S4().uf, 3) == 2 && Root(S4().uf, 4) == 2;
  }

  lemma WitnessStep6()
    ensures Shaped(6, S4()) && Step(Witness(), S4(), Entry(6, 1, 5)) == S7()
  {
    assert Root(S4().uf, 1) == 2 && Root(S4().uf, 5) == 5;
    assert Link(S4().uf, 2, 5) == S7().uf;
    assert S4().routes[2].value + S4().routes[5].value == S7().routes[2].value;
    assert Merged(6, S4(), 2, 5, 4).routes == S7().routes;
    assert Merged(6, S4(), 2, 5, 4) == S7();
  }

  lemma WitnessStep7()
    ensures Shaped(6, S7()) && Step(Witness(), S7(), Entry(7, 2, 5)) == S7()
    ensures Step(Witness(), S7(), Entry(8, 3, 5)) == S7()
    ensures Step(Witness(), S7(), Entry(9, 4, 5)) == S7()
  {
    assert Root(S7().uf, 2) == 2 && Root(S7().uf, 3) == 2;
    assert Root(S7().uf, 4) == 2 && Root(S7().uf, 5) == 2;
  }

  /** Two more steps of `Run`, given the state before and the two steps. */
  lemma RunTwo(inst: SubInstance, order: seq<Entry>, k: nat, a: Heaped, b: Heaped, c: Heaped)
    requires Valid(inst) && CW.Customers(inst.n, order) && k + 2 <= |order|
    requires Shaped(inst.n, a) && Shaped(inst.n, b)
    requires CW.Customers(inst.n, order[..k]) && Run(inst, order[..k]) == a
    requires Step(inst, a, order[k]) == b && Step(inst, b, order[k + 1]) == c
    ensures CW.Customers(inst.n, order[..k + 2]) && Run(inst, order[..k + 2]) == c
  {
    RunSnoc(inst, order, k);
    RunSnoc(inst, order, k + 1);
  }

  /*
   * The chain below takes the instance and the order as parameters, so
   * that `Run` is unfolded one step at a time rather than evaluated.
   */

  lemma WitnessRun2(inst: SubInstance, o: seq<Entry>)
    requires inst == Witness() && o == WitnessOrder()
    ensures CW.Customers(6, o) && Run(inst, o[..2]) == S2()
  {
    WitnessSorted();
    WitnessInitial();
    WitnessStep0();
    WitnessStep1();
    assert o[..0] == [];
    assert o[0] == Entry(0, 2, 3) && o[1] == Entry(1, 1, 2);
    RunTwo(inst, o, 0, S0(), S1(), S2());
  }

  lemma WitnessRun4(inst: SubInstance, o: seq<Entry>)
    requires inst == Witness() && o == WitnessOrder()
    ensures CW.Customers(6, o) && Run(inst, o[..4]) == S4()
  {
    WitnessRun2(inst, o);
    WitnessStep2();
    WitnessStep3();
    assert o[2] == Entry(2, 1, 3) && o[3] == Entry(3, 1, 4);
    RunTwo(inst, o, 2, S2(), S2(), S4());
  }

  lemma WitnessRun6(inst: SubInstance, o: seq<Entry>)
    requires inst == Witness() && o == WitnessOrder()
    ensures CW.Customers(6, o) && Run(inst, o[..6]) == S4()
  {
    WitnessRun4(inst, o);
    WitnessStep4();
    WitnessStep5();
    assert o[4] == Entry(4, 2, 4) && o[5] == Entry(5, 3, 4);
    RunTwo(inst, o, 4, S4(), S4(), S4());
  }

  lemma WitnessRun8(inst: SubInstance, o: seq<Entry>)
    requires inst == Witness() && o == WitnessOrder()
    ensures CW.Customers(6, o) && Run(inst, o[..8]) == S7()
  {
    WitnessRun6(inst, o);
    WitnessStep6();
    WitnessStep7();
    assert o[6] == Entry(6, 1, 5) && o[7] == Entry(7, 2, 5);
    RunTwo(inst, o, 6, S4(), S7(), S7());
  }

  lemma WitnessRun(inst: SubInstance, o: seq<Entry>)
    requires inst == Witness() && o == WitnessOrder()
    ensures CW.Customers(6, o) && Run(inst, o) == S7()
  {
    WitnessRun8(inst, o);
    WitnessStep7();
    assert o[8] == Entry(8, 3, 5) && o[9] == Entry(9, 4, 5);
    RunTwo(inst, o, 8, S7(), S7(), S7());
    assert o[..10] == o;
  }

  lemma WitnessKept(v: seq<Option<seq<nat>>>)
    requires v == [None, None, Some([1, 2, 3, 4, 5]), None, None, Some([1, 2, 3, 4, 5])]
    ensures CW.Kept(v) == []
  {
    CW.KeptNone(v);
  }


  lemma WitnessOutput()
    ensures CW.Collect(S7().routes) == []
  {
    WitnessKept(S7().routes);
  }


  /**
   * On `Witness` the as-written loop merges every customer into one route,
   * stored at nodes 2 and 5, that starts at node 1.  The entry is accepted
   * with the stale demand 3 read at node 1, so the route's demand is 5,
   * over the capacity 4; and since no stored route starts at its own
   * index, the output has no route at all and leaves every customer
   * unvisited.
   */
  lemma StaleDemandAndEmptyOutput()
    ensures forall e :: e in WitnessOrder() <==> IsPairEntry(Witness(), e)
    ensures SortedUp(WitnessOrder()) && Stop(WitnessOrder()) == 10
    ensures CW.Customers(6, WitnessOrder())
    ensures var r := Run(Witness(), WitnessOrder());
      r.routes[2] == Some([1, 2, 3, 4, 5]) &&
      Demand(Witness().demands, r.routes[2].value) == 5 > Witness().capacity
    ensures CW.Collect(Run(Witness(), WitnessOrder()).routes) == []
    ensures !Feasible(Witness(), CW.Collect(Run(Witness(), WitnessOrder()).routes))
  {
    WitnessSavings();
    WitnessRun(Witness(), WitnessOrder());
    WitnessOutput();
    WitnessDemand();
    NothingVisited(Witness());
  }

  lemma WitnessDemand()
    ensures Demand(Witness().demands, [1, 2, 3, 4, 5]) == 5
  {
    var r := [1, 2, 3, 4, 5];
    assert r[1..] == [2, 3, 4, 5] && r[1..][1..] == [3, 4, 5] && r[1..][1..][1..] == [4, 5];
    assert r[1..][1..][1..][1..] == [5] && r[1..][1..][1..][1..][1..] == [];
  }

  lemma NothingVisited(inst: SubInstance)
    requires Valid(inst) && inst.n >= 2
    ensures !Feasible(inst, [])
  {
    assert !Visits([], 1);
  }

  // ---------------------------------------------------------------------
  // The corrected loop

  /**
   * The step the loop was evidently meant to perform: the capacity test
   * reads the demands stored at the two roots, where the merged demand is
   * written.
   */
  function FixedStep(inst: SubInstance, s: Heaped, e: Entry): (r: Heaped)
    requires Valid(inst) && Shaped(inst.n, s) && 1 <= e.i < inst.n && 1 <= e.j < inst.n
    ensures Shaped(inst.n, r)
  {
    var ri, rj := Root(s.uf, e.i), Root(s.uf, e.j);
    if ri == rj || s.routes[ri].None? || s.routes[rj].None? then s
    else
      var merged := s.demands[ri] + s.demands[rj];
      if merged > inst.capacity then s else Merged(inst.n, s, ri, rj, merged)
  }

  function FixedRun(inst: SubInstance, order: seq<Entry>): (r: Heaped)
    requires Valid(inst) && CW.Customers(inst.n, order)
    ensures Shaped(inst.n, r)
  {
    if order == [] then Initial(inst)
    else
      assert CW.Customers(inst.n, order[..|order| - 1]);
      FixedStep(inst, FixedRun(inst, order[..|order| - 1]), order[|order| - 1])
  }

  /** The indices, in increasing order, of the roots that hold a route. */
  function RootsKept(routes: seq<Option<seq<nat>>>, parent: seq<nat>): (ks: seq<nat>)
    requires |routes| <= |parent|
    ensures forall t :: 0 <= t < |ks| ==>
      ks[t] < |routes| && routes[ks[t]].Some? && parent[ks[t]] == ks[t]
    ensures forall t1, t2 :: 0 <= t1 < t2 < |ks| ==> ks[t1] < ks[t2]
    ensures forall k :: 0 <= k < |routes| && routes[k].Some? && parent[k] == k ==> k in ks
  {
    if routes == [] then []
    else
      var k := |routes| - 1;
      var pre := RootsKept(routes[..k], parent);
      if routes[k].Some? && parent[k] == k then pre + [k] else pre
  }

  /** The corrected output: the route held at each root, between depot stops. */
  function FixedOutput(s: Heaped): (out: seq<seq<nat>>)
    requires |s.routes| <= |s.uf.parent|
  {
    var ks := RootsKept(s.routes, s.uf.parent);
    seq(|ks|, t requires 0 <= t < |ks| => Wrap(s.routes[ks[t]].value))
  }

  /**
   * The route at root `r` lists each customer of the set `r` represents
   * exactly once; its stored demand is its demand, within capacity when it
   * serves several customers.
   */
  ghost predicate Component(inst: SubInstance, s: Heaped, r: nat)
    requires Valid(inst) && Shaped(inst.n, s) && r < inst.n
  {
    s.routes[r].Some? && NoDup(s.routes[r].value) &&
    (forall y :: 1 <= y < inst.n ==> (y in s.routes[r].value <==> Root(s.uf, y) == r)) &&
    s.demands[r] == Demand(inst.demands, s.routes[r].value) &&
    (|s.routes[r].value| > 1 ==> s.demands[r] <= inst.capacity)
  }

  /** The invariant of the corrected loop. */
  ghost predicate FixedInv(inst: SubInstance, s: Heaped)
    requires Valid(inst)
  {
    Shaped(inst.n, s) && s.routes[0].None? &&
    (forall x :: 1 <= x < inst.n ==> s.uf.parent[x] >= 1) &&
    (forall r :: 1 <= r < inst.n && s.uf.parent[r] == r ==> Component(inst, s, r))
  }

  /** A customer's representative is a customer. */
  lemma RootPositive(uf: UF, x: nat)
    requires Forest(uf) && 1 <= x < |uf.parent|
    requires forall y :: 1 <= y < |uf.parent| ==> uf.parent[y] >= 1
    ensures Root(uf, x) >= 1
    decreases Above(uf.rank, x)
  {
    if uf.parent[x] != x {
      AboveShrinks(uf, x);
      RootPositive(uf, uf.parent[x]);
    }
  }

  lemma FixedInitialInv(inst: SubInstance)
    requires Valid(inst)
    ensures FixedInv(inst, Initial(inst))
  {
    var s := Initial(inst);
    forall r | 1 <= r < inst.n && s.uf.parent[r] == r ensures Component(inst, s, r) {
      assert s.routes[r].value == [r];
      forall y | 1 <= y < inst.n ensures Root(s.uf, y) == y {
      }
      assert Demand(inst.demands, [r]) == inst.demands[r] by {
        assert [r][1..] == [];
      }
    }
  }

  /** The facts a corrected merge of the routes at `ri` and `rj` starts from. */
  ghost predicate MergeReady(inst: SubInstance, s: Heaped, ri: nat, rj: nat)
    requires Valid(inst)
  {
    FixedInv(inst, s) && 1 <= ri < inst.n && 1 <= rj < inst.n && ri != rj &&
    s.uf.parent[ri] == ri && s.uf.parent[rj] == rj &&
    s.demands[ri] + s.demands[rj] <= inst.capacity
  }

  /** A root other than the two merged ones keeps its route, demand and members. */
  lemma MergedOther(inst: SubInstance, s: Heaped, ri: nat, rj: nat, r: nat)
    requires Valid(inst) && MergeReady(inst, s, ri, rj)
    requires 1 <= r < inst.n && r != ri && r != rj && s.uf.parent[r] == r
    ensures var t := Merged(inst.n, s, ri, rj, s.demands[ri] + s.demands[rj]);
      t.uf.parent[r] == r && Component(inst, t, r)
  {
    var t := Merged(inst.n, s, ri, rj, s.demands[ri] + s.demands[rj]);
    var left, right := s.routes[ri].value, s.routes[rj].value;
    assert Component(inst, s, ri) && Component(inst, s, rj) && Component(inst, s, r);
    assert Root(s.uf, r) == r;
    assert r !in left && r !in right;
    assert left[0] in left && right[0] in right;
    assert left[|left| - 1] in left && right[|right| - 1] in right;
    assert t.routes[r] == s.routes[r] && t.demands[r] == s.demands[r];
    LinkRoots(s.uf, ri, rj);
    forall y | 1 <= y < inst.n ensures (y in t.routes[r].value <==> Root(t.uf, y) == r) {
      assert Winner(s.uf, ri, rj) != r;
    }
  }

  /** The winning root holds the joined route, with its members, demand and capacity. */
  lemma MergedWinner(inst: SubInstance, s: Heaped, ri: nat, rj: nat)
    requires Valid(inst) && MergeReady(inst, s, ri, rj)
    ensures var t := Merged(inst.n, s, ri, rj, s.demands[ri] + s.demands[rj]);
      var w := Winner(s.uf, ri, rj);
      t.uf.parent[w] == w && Component(inst, t, w)
  {
    var t := Merged(inst.n, s, ri, rj, s.demands[ri] + s.demands[rj]);
    var w := Winner(s.uf, ri, rj);
    var left, right := s.routes[ri].value, s.routes[rj].value;
    assert Component(inst, s, ri) && Component(inst, s, rj);
    assert t.routes[w] == Some(left + right);
    LinkRoots(s.uf, ri, rj);
    forall a, b | 0 <= a < b < |left + right| ensures (left + right)[a] != (left + right)[b] {
      if a < |left| && b >= |left| {
        assert (left + right)[a] in left && (left + right)[b] in right;
      }
    }
    forall y | 1 <= y < inst.n ensures (y in left + right <==> Root(t.uf, y) == w) {
    }
    DemandAppend(inst.demands, left, right);
  }

  /** A root after the merge is a root before it. */
  lemma MergedRoots(inst: SubInstance, s: Heaped, ri: nat, rj: nat, r: nat)
    requires Valid(inst) && MergeReady(inst, s, ri, rj) && r < inst.n
    requires Merged(inst.n, s, ri, rj, s.demands[ri] + s.demands[rj]).uf.parent[r] == r
    ensures s.uf.parent[r] == r && (r == ri || r == rj ==> r == Winner(s.uf, ri, rj))
  {
  }

  lemma MergedInv(inst: SubInstance, s: Heaped, ri: nat, rj: nat)
    requires Valid(inst) && MergeReady(inst, s, ri, rj)
    ensures FixedInv(inst, Merged(inst.n, s, ri, rj, s.demands[ri] + s.demands[rj]))
  {
    var t := Merged(inst.n, s, ri, rj, s.demands[ri] + s.demands[rj]);
    var left, right := s.routes[ri].value, s.routes[rj].value;
    assert left[0] in left && right[0] in right;
    assert left[|left| - 1] in left && right[|right| - 1] in right;
    assert t.routes[0].None?;
    assert forall x :: 1 <= x < inst.n ==> t.uf.parent[x] >= 1;
    forall r | 1 <= r < inst.n && t.uf.parent[r] == r ensures Component(inst, t, r) {
      MergedRoots(inst, s, ri, rj, r);
      if r == ri || r == rj {
        MergedWinner(inst, s, ri, rj);
      } else {
        MergedOther(inst, s, ri, rj, r);
      }
    }
  }

  lemma FixedStepInv(inst: SubInstance, s: Heaped, e: Entry)
    requires Valid(inst) && FixedInv(inst, s) && 1 <= e.i < inst.n && 1 <= e.j < inst.n
    ensures FixedInv(inst, FixedStep(inst, s, e))
  {
    var ri, rj := Root(s.uf, e.i), Root(s.uf, e.j);
    RootPositive(s.uf, e.i);
    RootPositive(s.uf, e.j);
    if ri != rj && s.routes[ri].Some? && s.routes[rj].Some? &&
       s.demands[ri] + s.demands[rj] <= inst.capacity {
      MergedInv(inst, s, ri, rj);
    }
  }

  lemma {:induction false} FixedRunInv(inst: SubInstance, order: seq<Entry>)
    requires Valid(inst) && CW.Customers(inst.n, order)
    ensures FixedInv(inst, FixedRun(inst, order))
  {
    if order == [] {
      FixedInitialInv(inst);
    } else {
      var pre := order[..|order| - 1];
      assert CW.Customers(inst.n, pre);
      FixedRunInv(inst, pre);
      FixedStepInv(inst, FixedRun(inst, pre), order[|order| - 1]);
    }
  }

  /** Each output route is the route of a root, between depot stops. */
  lemma FixedOutputRoutes(inst: SubInstance, s: Heaped)
    requires Valid(inst) && FixedInv(inst, s)
    ensures var out, ks := FixedOutput(s), RootsKept(s.routes, s.uf.parent);
      |out| == |ks| &&
      forall t :: 0 <= t < |out| ==>
        |out[t]| >= 3 && out[t][0] == 0 && out[t][|out[t]| - 1] == 0 &&
        1 <= ks[t] < inst.n && s.uf.parent[ks[t]] == ks[t] && Component(inst, s, ks[t]) &&
        Interior(out[t]) == s.routes[ks[t]].value
  {
  }

  lemma FixedOutputShape(inst: SubInstance, s: Heaped)
    requires Valid(inst) && FixedInv(inst, s)
    ensures var out := FixedOutput(s);
      forall t :: 0 <= t < |out| ==>
        |out[t]| >= 3 && out[t][0] == 0 && out[t][|out[t]| - 1] == 0 &&
        NoDup(Interior(out[t])) && forall x :: x in Interior(out[t]) ==> 1 <= x < inst.n
  {
    var out, ks := FixedOutput(s), RootsKept(s.routes, s.uf.parent);
    FixedOutputRoutes(inst, s);
    forall t, x | 0 <= t < |out| && x in Interior(out[t]) ensures 1 <= x < inst.n {
      var comp := s.routes[ks[t]].value;
      var m :| 0 <= m < |comp| && comp[m] == x;
    }
  }

  lemma FixedOutputVisits(inst: SubInstance, s: Heaped)
    requires Valid(inst) && FixedInv(inst, s)
    ensures forall x :: 1 <= x < inst.n ==> Visits(FixedOutput(s), x)
  {
    var out, ks := FixedOutput(s), RootsKept(s.routes, s.uf.parent);
    FixedOutputRoutes(inst, s);
    forall x | 1 <= x < inst.n ensures Visits(out, x) {
      var r := Root(s.uf, x);
      RootPositive(s.uf, x);
      assert Component(inst, s, r);
      var t :| 0 <= t < |ks| && ks[t] == r;
      assert x in Interior(out[t]);
    }
  }

  lemma FixedOutputDisjoint(inst: SubInstance, s: Heaped)
    requires Valid(inst) && FixedInv(inst, s)
    ensures var out := FixedOutput(s);
      forall t1, t2, x :: 0 <= t1 < t2 < |out| && x in Interior(out[t1]) ==>
        x !in Interior(out[t2])
  {
    var out, ks := FixedOutput(s), RootsKept(s.routes, s.uf.parent);
    FixedOutputRoutes(inst, s);
    forall t1, t2, x | 0 <= t1 < t2 < |out| && x in Interior(out[t1])
      ensures x !in Interior(out[t2])
    {
      var comp := s.routes[ks[t1]].value;
      var m :| 0 <= m < |comp| && comp[m] == x;
      assert Root(s.uf, x) == ks[t1] != ks[t2];
    }
  }

  lemma FixedOutputCapacity(inst: SubInstance, s: Heaped)
    requires Valid(inst) && FixedInv(inst, s)
    ensures var out := FixedOutput(s);
      forall t :: 0 <= t < |out| && |out[t]| > 3 ==>
        Demand(inst.demands, Interior(out[t])) <= inst.capacity
  {
    FixedOutputRoutes(inst, s);
  }

  /** Under the invariant the corrected output is a feasible sub-solution. */
  lemma FixedOutputFeasible(inst: SubInstance, s: Heaped)
    requires Valid(inst) && FixedInv(inst, s)
    ensures Feasible(inst, FixedOutput(s))
  {
    FixedOutputShape(inst, s);
    FixedOutputVisits(inst, s);
    FixedOutputDisjoint(inst, s);
    FixedOutputCapacity(inst, s);
  }

  /** The corrected loop yields a feasible sub-solution for every order of the savings. */
  lemma FixedRunFeasible(inst: SubInstance, order: seq<Entry>)
    requires Valid(inst) && CW.Customers(inst.n, order)
    ensures Feasible(inst, FixedOutput(FixedRun(inst, order)))
  {
    FixedRunInv(inst, order);
    FixedOutputFeasible(inst, FixedRun(inst, order));
  }

  // ---------------------------------------------------------------------
  // The imperative solver

  /** The concrete vectors hold the abstract state, up to path compression. */
  ghost predicate Holds(routes: seq<Option<seq<nat>>>, demands: seq<int>, parent: seq<nat>,
                        rank: seq<nat>, s: Heaped)
  {
    routes == s.routes && demands == s.demands && rank == s.uf.rank &&
    SameRoots(UF(parent, rank), s.uf)
  }

  lemma SameRootsTrans(u: UF, v: UF, w: UF)
    requires SameRoots(u, v) && SameRoots(v, w)
    ensures SameRoots(u, w)
  {
  }

  /** The merge conditions of `Step`. */
  predicate Merges(inst: SubInstance, s: Heaped, e: Entry)
    requires Valid(inst) && Shaped(inst.n, s) && 1 <= e.i < inst.n && 1 <= e.j < inst.n
  {
    var ri, rj := Root(s.uf, e.i), Root(s.uf, e.j);
    ri != rj && s.routes[ri].Some? && s.routes[rj].Some? &&
    s.demands[s.routes[ri].value[0]] + s.demands[s.routes[rj].value[0]] <= inst.capacity
  }

  lemma StepSkips(inst: SubInstance, s: Heaped, e: Entry)
    requires Valid(inst) && Shaped(inst.n, s) && 1 <= e.i < inst.n && 1 <= e.j < inst.n
    requires !Merges(inst, s, e)
    ensures Step(inst, s, e) == s
  {
  }

  /** `Step` on a merging entry. */
  lemma StepMerged(inst: SubInstance, s: Heaped, e: Entry)
    requires Valid(inst) && Shaped(inst.n, s) && 1 <= e.i < inst.n && 1 <= e.j < inst.n
    requires Merges(inst, s, e)
    ensures var ri, rj := Root(s.uf, e.i), Root(s.uf, e.j);
      Step(inst, s, e) ==
        Merged(inst.n, s, ri, rj, s.demands[s.routes[ri].value[0]] + s.demands[s.routes[rj].value[0]])
  {
  }

  /** The writes of a merge into the route and demand vectors. */
  method StoreMerged(n: nat, routes: array<Option<seq<nat>>>, routeDemands: array<int>,
                     ghost s: Heaped, ri: nat, rj: nat, mergedDemand: int)
    requires Shaped(n, s) && ri < n && rj < n && s.routes[ri].Some? && s.routes[rj].Some?
    requires s.uf.parent[ri] == ri && s.uf.parent[rj] == rj
    requires routes[..] == s.routes && routeDemands[..] == s.demands
    modifies routes, routeDemands
    ensures routes[..] == Merged(n, s, ri, rj, mergedDemand).routes
    ensures routeDemands[..] == Merged(n, s, ri, rj, mergedDemand).demands
  {
    var leftRoute := routes[ri].value;
    var rightRoute := routes[rj].value;
    var leftStart, rightStart := leftRoute[0], rightRoute[0];
    var leftEnd, rightEnd := leftRoute[|leftRoute| - 1], rightRoute[|rightRoute| - 1];
    var newRoute := leftRoute + rightRoute;
    ghost var cleared := s.routes[leftStart := None][rightStart := None]
      [leftEnd := None][rightEnd := None];
    routes[leftStart] := None;
    routes[rightStart] := None;
    routes[leftEnd] := None;
    routes[rightEnd] := None;
    assert routes[..] == cleared;
    routes[ri] := Some(newRoute);
    assert routes[..] == cleared[ri := Some(newRoute)];
    routes[rj] := Some(newRoute);
    routeDemands[ri] := mergedDemand;
    assert routeDemands[..] == s.demands[ri := mergedDemand];
    routeDemands[rj] := mergedDemand;
  }

  /** One iteration after the sign test, in place on the four vectors. */
  method MergeStep(inst: SubInstance, routes: array<Option<seq<nat>>>, routeDemands: array<int>,
                   parent: array<nat>, rank: array<nat>, e: Entry, ghost s: Heaped)
    requires Valid(inst) && Shaped(inst.n, s) && 1 <= e.i < inst.n && 1 <= e.j < inst.n
    requires parent != rank
    requires Holds(routes[..], routeDemands[..], parent[..], rank[..], s)
    modifies routes, routeDemands, parent, rank
    ensures Holds(routes[..], routeDemands[..], parent[..], rank[..], Step(inst, s, e))
  {
    ghost var u0 := UF(parent[..], rank[..]);
    var rootI := Find(e.i, parent, rank[..]);
    ghost var u1 := UF(parent[..], rank[..]);
    SameRootsTrans(u1, u0, s.uf);
    var rootJ := Find(e.j, parent, rank[..]);
    ghost var u := UF(parent[..], rank[..]);
    SameRootsTrans(u, u1, s.uf);
    assert rootI == Root(s.uf, e.i) && rootJ == Root(s.uf, e.j);
    if rootI == rootJ || routes[rootI].None? || routes[rootJ].None? {
      StepSkips(inst, s, e);
      assert Holds(routes[..], routeDemands[..], parent[..], rank[..], s);
      return;
    }
    var leftStart, rightStart := routes[rootI].value[0], routes[rootJ].value[0];
    var mergedDemand := routeDemands[leftStart] + routeDemands[rightStart];
    assert routes[rootI] == s.routes[rootI] && routes[rootJ] == s.routes[rootJ];
    assert mergedDemand == s.demands[s.routes[rootI].value[0]] + s.demands[s.routes[rootJ].value[0]];
    if mergedDemand > inst.capacity {
      StepSkips(inst, s, e);
      assert Holds(routes[..], routeDemands[..], parent[..], rank[..], s);
      return;
    }
    StepMerged(inst, s, e);
    ghost var next := Merged(inst.n, s, rootI, rootJ, mergedDemand);
    assert Step(inst, s, e) == next;
    MergeRoots(inst.n, routes, routeDemands, parent, rank, s, rootI, rootJ, mergedDemand);
    assert Holds(routes[..], routeDemands[..], parent[..], rank[..], next);
  }

  /** The merge branch of `MergeStep`, on the two roots it found. */
  method MergeRoots(n: nat, routes: array<Option<seq<nat>>>, routeDemands: array<int>,
                    parent: array<nat>, rank: array<nat>, ghost s: Heaped,
                    rootI: nat, rootJ: nat, mergedDemand: int)
    requires Shaped(n, s) && rootI < n && rootJ < n && parent != rank
    requires s.routes[rootI].Some? && s.routes[rootJ].Some?
    requires s.uf.parent[rootI] == rootI && s.uf.parent[rootJ] == rootJ
    requires Holds(routes[..], routeDemands[..], parent[..], rank[..], s)
    modifies routes, routeDemands, parent, rank
    ensures Holds(routes[..], routeDemands[..], parent[..], rank[..],
                  Merged(n, s, rootI, rootJ, mergedDemand))
  {
    ghost var u := UF(parent[..], rank[..]);
    assert u.parent[rootI] == rootI && u.parent[rootJ] == rootJ by {
      assert Root(u, rootI) == Root(s.uf, rootI) == rootI;
      assert Root(u, rootJ) == Root(s.uf, rootJ) == rootJ;
    }
    ghost var next := Merged(n, s, rootI, rootJ, mergedDemand);
    StoreMerged(n, routes, routeDemands, s, rootI, rootJ, mergedDemand);
    ghost var stored, storedDemands := routes[..], routeDemands[..];
    assert stored == next.routes && storedDemands == next.demands;
    CompressRoot(u, rootI);
    CompressRoot(u, rootJ);
    assert (routes as object) != parent && (routes as object) != rank;
    assert (routeDemands as object) != parent && (routeDemands as object) != rank;
    Union(rootI, rootJ, parent, rank);
    LinkSameRoots(u, s.uf, rootI, rootJ);
    assert routes[..] == stored;
    assert routeDemands[..] == storedDemands;
    assert rank[..] == next.uf.rank;
    assert SameRoots(UF(parent[..], rank[..]), next.uf);
  }

  /** The `while let` loop: merge steps over the popped savings until a negative score. */
  method MergeLoop(inst: SubInstance, order: seq<Entry>)
    returns (routes: array<Option<seq<nat>>>, routeDemands: array<int>)
    requires Valid(inst) && CW.Customers(inst.n, order)
    ensures routes[..] == Run(inst, order[..Stop(order)]).routes
  {
    var n := inst.n;
    routes := new Option<seq<nat>>[n](k => Some([k]));
    routes[0] := None;
    routeDemands := new int[n](k requires 0 <= k < n => inst.demands[k]);
    var parent := new nat[n](k => k);
    var rank := new nat[n](k => 0);
    assert Holds(routes[..], routeDemands[..], parent[..], rank[..], Initial(inst));
    var k := 0;
    while k < |order|
      invariant k <= Stop(order)
      invariant CW.Customers(n, order[..k])
      invariant Holds(routes[..], routeDemands[..], parent[..], rank[..], Run(inst, order[..k]))
      decreases |order| - k
    {
      if order[k].score < 0 {
        break;
      }
      RunSnoc(inst, order, k);
      MergeStep(inst, routes, routeDemands, parent, rank, order[k], Run(inst, order[..k]));
      k := k + 1;
    }
    assert k == Stop(order);
  }

  /**
   * `solve_sub_instance` as written: every pair's saving is pushed as a
   * `Reverse` tuple, so the heap pops in ascending tuple order; the loop
   * stops at the first negative score; the output keeps the entries whose
   * route starts at their own index.
   */
  method SolveSubInstance(inst: SubInstance) returns (solution: Option<seq<seq<nat>>>)
    requires Valid(inst)
    ensures solution.Some?
    ensures forall r :: r in solution.value ==> |r| >= 3 && r[0] == 0 && r[|r| - 1] == 0
  {
    var scores := PairSavings(inst, true);
    var order := Reverse(SortDown(scores));
    ReverseMultiset(SortDown(scores));
    assert CW.Customers(inst.n, order) by {
      forall t | 0 <= t < |order| ensures 1 <= order[t].i < inst.n && 1 <= order[t].j < inst.n {
        assert order[t] in multiset(scores);
      }
    }
    var routes, routeDemands := MergeLoop(inst, order);
    solution := Some(CW.Collect(routes[..]));
  }
}
