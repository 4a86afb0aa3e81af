/**
 * Model of the greedy cluster-expansion router in
 * tig-algorithms/src/vehicle_routing/adaptive_cluster/inbound.rs.
 *
 * Every customer i starts as the singleton cluster `[i]` at index i - 1,
 * and every customer also starts in the `unassigned` set.  A max-heap holds
 * expansion candidates `(score, cluster_idx, node)`; the loop pops the
 * greatest, discards it when its node is no longer unassigned, and otherwise
 * appends the node to the cluster, adds the node's demand, removes the node
 * from `unassigned` and pushes the cluster's new candidates.
 *
 * Candidates are `Entry(score, i, j)` values with i the cluster index and
 * j the node; the heap compares them as Rust compares the tuples.  The
 * heap is specified as a multiset with "pop the greatest"; the imperative
 * code keeps it as a sequence sorted in non-increasing order, which pops the
 * same element.  The result of `score_cluster_expansions` is a set of
 * candidates, so the hash set's iteration order does not matter.
 */
module AdaptiveCluster {
  import opened Common
  import opened RouteCommon

  // ---------------------------------------------------------------------
  // The heap

  /** Two candidates at least as great as each other are the same candidate. */
  lemma AtLeastAntisymmetric(a: Entry, b: Entry)
    requires AtLeast(a, b) && AtLeast(b, a)
    ensures a == b
  {
  }

  /** A nonempty multiset of candidates has a greatest element. */
  lemma {:induction false} GreatestExists(h: multiset<Entry>)
    requires h != multiset{}
    ensures exists e :: e in h && forall x :: x in h ==> AtLeast(e, x)
  {
    var y :| y in h;
    var rest := h - multiset{y};
    assert h == rest + multiset{y};
    if rest == multiset{} {
      assert h == multiset{y};
    } else {
      GreatestExists(rest);
      var m :| m in rest && forall x :: x in rest ==> AtLeast(m, x);
      if AtLeast(m, y) {
        assert forall x :: x in h ==> x == y || x in rest;
      } else {
        forall x | x in h ensures AtLeast(y, x) {
          if x != y {
            assert x in rest;
          }
        }
      }
    }
  }

  /** `BinaryHeap::pop`: the greatest candidate. */
  ghost function Top(h: multiset<Entry>): (e: Entry)
    requires h != multiset{}
    ensures e in h && forall x :: x in h ==> AtLeast(e, x)
  {
    GreatestExists(h);
    var e :| e in h && forall x :: x in h ==> AtLeast(e, x);
    e
  }

  /** The head of a non-increasing sequence is what the heap of its elements pops. */
  lemma SortedTop(h: seq<Entry>)
    requires h != [] && SortedDown(h)
    ensures Top(multiset(h)) == h[0]
    ensures multiset(h[1..]) == multiset(h) - multiset{h[0]}
  {
    var t := Top(multiset(h));
    var k :| 0 <= k < |h| && h[k] == t;
    if k > 0 {
      assert AtLeast(h[0], h[k]);
    }
    assert h[0] in multiset(h);
    AtLeastAntisymmetric(t, h[0]);
    assert h == [h[0]] + h[1..];
  }

  // ---------------------------------------------------------------------
  // The state

  /** `clusters`, `cluster_demands`, `unassigned` and the heap of candidates. */
  datatype Growth = Growth(clusters: seq<seq<nat>>, demands: seq<int>, unassigned: set<nat>,
                           heap: multiset<Entry>)

  /** The customers `1 .. n-1`. */
  function Customers(n: nat): (s: set<nat>)
    ensures forall x :: x in s <==> 1 <= x < n
  {
    if n <= 1 then {} else Customers(n - 1) + {n - 1}
  }

  /**
   * One cluster per customer, every cluster nonempty and made of customers,
   * unassigned nodes are customers, and every candidate names a cluster and
   * a customer.
   */
  predicate Shaped(inst: SubInstance, g: Growth) {
    Valid(inst) && |g.clusters| == inst.n - 1 && |g.demands| == inst.n - 1 &&
    (forall c :: 0 <= c < |g.clusters| ==> g.clusters[c] != []) &&
    (forall c, m :: 0 <= c < |g.clusters| && 0 <= m < |g.clusters[c]| ==>
      1 <= g.clusters[c][m] < inst.n) &&
    (forall x :: x in g.unassigned ==> 1 <= x < inst.n) &&
    (forall e {:trigger g.heap[e]} :: e in g.heap ==> e.i < inst.n - 1 && 1 <= e.j < inst.n)
  }

  /** `-(d[last][node] + d[node][0] - d[last][0])`: the detour to `node` after `last`. */
  function ExpansionScore(inst: SubInstance, last: nat, node: nat): int
    requires Valid(inst) && last < inst.n && node < inst.n
  {
    -(inst.d[last][node] + inst.d[node][0] - inst.d[last][0])
  }

  /** The capacity test of `score_cluster_expansions`: `demand + d[last][node] <= max_capacity`. */
  predicate Admits(inst: SubInstance, last: nat, demand: int, node: nat)
    requires Valid(inst) && last < inst.n && node < inst.n
  {
    demand + inst.d[last][node] <= inst.capacity
  }

  /**
   * What `score_cluster_expansions` pushes for the cluster at `idx` ending
   * at `last` with demand `demand`: one candidate per unassigned node that
   * passes the test `demand + d[last][node] <= max_capacity`.  The test adds
   * a distance, not the node's demand, as the source does.
   */
  function Candidates(inst: SubInstance, idx: nat, last: nat, demand: int, unassigned: set<nat>)
    : (r: set<Entry>)
    requires Valid(inst) && last < inst.n && forall x :: x in unassigned ==> x < inst.n
    ensures forall e {:trigger e in r} :: e in r <==>
      e.i == idx && e.j in unassigned && Admits(inst, last, demand, e.j) &&
      e.score == ExpansionScore(inst, last, e.j)
  {
    set x | x in unassigned && Admits(inst, last, demand, x) ::
      Entry(ExpansionScore(inst, last, x), idx, x)
  }

  /** The candidates of the first `k` singleton clusters, before any expansion. */
  function Seeded(inst: SubInstance, k: nat): (h: multiset<Entry>)
    requires Valid(inst) && k < inst.n
    ensures forall e {:trigger h[e]} :: e in h ==> e.i < k && 1 <= e.j < inst.n
  {
    if k == 0 then multiset{}
    else
      Seeded(inst, k - 1) +
      multiset(Candidates(inst, k - 1, k, inst.demands[k], Customers(inst.n)))
  }

  /** The clusters `[1], [2], .., [k]`. */
  function Singletons(k: nat): (cs: seq<seq<nat>>)
    ensures |cs| == k && forall c :: 0 <= c < k ==> cs[c] == [c + 1]
  {
    if k == 0 then [] else Singletons(k - 1) + [[k]]
  }

  /** The state before the main loop. */
  function Initial(inst: SubInstance): (g: Growth)
    requires Valid(inst)
    ensures Shaped(inst, g)
  {
    Growth(Singletons(inst.n - 1), inst.demands[1..], Customers(inst.n), Seeded(inst, inst.n - 1))
  }

  /**
   * An expansion by candidate `e`: node `e.j` is appended to cluster `e.i`,
   * its demand added, the node removed from `unassigned`, and the cluster's
   * new candidates pushed on the rest of the heap.
   */
  function Expand(inst: SubInstance, g: Growth, e: Entry, rest: multiset<Entry>): (r: Growth)
    requires Shaped(inst, g) && e in g.heap && rest == g.heap - multiset{e}
    ensures Shaped(inst, r)
    ensures r.clusters == g.clusters[e.i := g.clusters[e.i] + [e.j]]
    ensures r.demands == g.demands[e.i := g.demands[e.i] + inst.demands[e.j]]
    ensures r.unassigned == g.unassigned - {e.j}
  {
    var clusters := g.clusters[e.i := g.clusters[e.i] + [e.j]];
    var demands := g.demands[e.i := g.demands[e.i] + inst.demands[e.j]];
    var unassigned := g.unassigned - {e.j};
    var pushed := Candidates(inst, e.i, e.j, demands[e.i], unassigned);
    Growth(clusters, demands, unassigned, rest + multiset(pushed))
  }

  /**
   * The main loop: pop the greatest candidate; discard it when its node is
   * assigned; otherwise expand, and stop once no node is unassigned.  It ends
   * when the heap is empty.
   */
  ghost function Loop(inst: SubInstance, g: Growth): (r: Growth)
    requires Shaped(inst, g)
    ensures Shaped(inst, r)
    decreases |g.unassigned|, |g.heap|
  {
    if g.heap == multiset{} then g
    else
      var e := Top(g.heap);
      var rest := g.heap - multiset{e};
      if e.j !in g.unassigned then Loop(inst, g.(heap := rest))
      else
        var next := Expand(inst, g, e, rest);
        if next.unassigned == {} then next else Loop(inst, next)
  }

  /** The routes: each nonempty cluster between two depot stops, in cluster order. */
  function Output(clusters: seq<seq<nat>>): (out: seq<seq<nat>>)
    ensures |out| <= |clusters|
  {
    if clusters == [] then []
    else
      var pre := Output(clusters[..|clusters| - 1]);
      var c := clusters[|clusters| - 1];
      if c == [] then pre else pre + [Wrap(c)]
  }

  // ---------------------------------------------------------------------
  // What the loop keeps

  /** Each cluster's entry in `cluster_demands` is the total demand of its nodes. */
  predicate DemandsTracked(inst: SubInstance, g: Growth)
    requires Shaped(inst, g)
  {
    forall c :: 0 <= c < |g.clusters| ==> g.demands[c] == Demand(inst.demands, g.clusters[c])
  }

  /** How often node `x` occurs over all clusters. */
  function Count(cs: seq<seq<nat>>, x: nat): nat {
    if cs == [] then 0 else Count(cs[..|cs| - 1], x) + multiset(cs[|cs| - 1])[x]
  }

  /**
   * Every customer occurs once while it is unassigned and twice once it has
   * been appended: the seeding puts it in its own cluster, and an expansion
   * appends it a second time.
   */
  predicate Occurrences(inst: SubInstance, g: Growth) {
    forall x :: 1 <= x < inst.n ==> Count(g.clusters, x) == if x in g.unassigned then 1 else 2
  }

  lemma {:induction false} CountSingletons(k: nat, x: nat)
    ensures Count(Singletons(k), x) == if 1 <= x <= k then 1 else 0
  {
    if k > 0 {
      assert Singletons(k)[..k - 1] == Singletons(k - 1);
      CountSingletons(k - 1, x);
    }
  }

  lemma {:induction false} CountAppend(cs: seq<seq<nat>>, c: nat, y: nat, x: nat)
    requires c < |cs|
    ensures Count(cs[c := cs[c] + [y]], x) == Count(cs, x) + if x == y then 1 else 0
  {
    var cs' := cs[c := cs[c] + [y]];
    var k := |cs| - 1;
    if c == k {
      assert cs'[..k] == cs[..k];
    } else {
      assert cs'[..k] == cs[..k][c := cs[c] + [y]];
      CountAppend(cs[..k], c, y, x);
    }
  }

  lemma InitialKeeps(inst: SubInstance)
    requires Valid(inst)
    ensures DemandsTracked(inst, Initial(inst)) && Occurrences(inst, Initial(inst))
  {
    var g := Initial(inst);
    forall c | 0 <= c < |g.clusters| ensures g.demands[c] == Demand(inst.demands, g.clusters[c]) {
      assert g.clusters[c] == [c + 1] && [c + 1][1..] == [];
    }
    forall x | 1 <= x < inst.n ensures Count(g.clusters, x) == 1 {
      CountSingletons(inst.n - 1, x);
    }
  }

  lemma ExpandKeeps(inst: SubInstance, g: Growth, e: Entry, rest: multiset<Entry>)
    requires Shaped(inst, g) && e in g.heap && rest == g.heap - multiset{e}
    requires e.j in g.unassigned && DemandsTracked(inst, g) && Occurrences(inst, g)
    ensures DemandsTracked(inst, Expand(inst, g, e, rest)) && Occurrences(inst, Expand(inst, g, e, rest))
  {
    var r := Expand(inst, g, e, rest);
    DemandAppend(inst.demands, g.clusters[e.i], [e.j]);
    assert [e.j][1..] == [];
    forall x | 1 <= x < inst.n
      ensures Count(r.clusters, x) == if x in r.unassigned then 1 else 2
    {
      CountAppend(g.clusters, e.i, e.j, x);
    }
  }

  /** The loop keeps the demand totals and the occurrence counts. */
  lemma {:induction false} LoopKeeps(inst: SubInstance, g: Growth)
    requires Shaped(inst, g) && DemandsTracked(inst, g) && Occurrences(inst, g)
    ensures DemandsTracked(inst, Loop(inst, g)) && Occurrences(inst, Loop(inst, g))
    decreases |g.unassigned|, |g.heap|
  {
    if g.heap != multiset{} {
      var e := Top(g.heap);
      var rest := g.heap - multiset{e};
      if e.j !in g.unassigned {
        LoopKeeps(inst, g.(heap := rest));
      } else {
        ExpandKeeps(inst, g, e, rest);
        var next := Expand(inst, g, e, rest);
        if next.unassigned != {} {
          LoopKeeps(inst, next);
        }
      }
    }
  }

  /** The loop ends with an empty heap or with no node unassigned. */
  lemma {:induction false} LoopEnds(inst: SubInstance, g: Growth)
    requires Shaped(inst, g)
    ensures Loop(inst, g).heap == multiset{} || Loop(inst, g).unassigned == {}
    decreases |g.unassigned|, |g.heap|
  {
    if g.heap != multiset{} {
      var e := Top(g.heap);
      var rest := g.heap - multiset{e};
      if e.j !in g.unassigned {
        LoopEnds(inst, g.(heap := rest));
      } else {
        var next := Expand(inst, g, e, rest);
        if next.unassigned != {} {
          LoopEnds(inst, next);
        }
      }
    }
  }

  // ---------------------------------------------------------------------
  // Every customer is visited twice

  /** Customer x's candidate to extend its own singleton cluster by itself. */
  function SelfEntry(inst: SubInstance, x: nat): Entry
    requires Valid(inst) && 1 <= x < inst.n
  {
    Entry(ExpansionScore(inst, x, x), x - 1, x)
  }

  /**
   * Every customer passes the capacity test against its own cluster:
   * `demands[x] + d[x][x] <= max_capacity`, as with a zero diagonal and
   * demands within the capacity.
   */
  predicate OwnFits(inst: SubInstance)
    requires Valid(inst)
  {
    forall x :: 1 <= x < inst.n ==> Admits(inst, x, inst.demands[x], x)
  }

  /** Every unassigned customer still has its own candidate on the heap. */
  predicate SelfQueued(inst: SubInstance, g: Growth)
    requires Valid(inst)
  {
    forall x :: x in g.unassigned && 1 <= x < inst.n ==> SelfEntry(inst, x) in g.heap
  }

  lemma SelfCandidate(inst: SubInstance, x: nat)
    requires Valid(inst) && 1 <= x < inst.n && Admits(inst, x, inst.demands[x], x)
    ensures SelfEntry(inst, x) in Candidates(inst, x - 1, x, inst.demands[x], Customers(inst.n))
  {
    assert x in Customers(inst.n);
  }

  /** Customer `k`'s own candidate is among the seeds once cluster `k - 1` is scored. */
  lemma SeededOwn(inst: SubInstance, k: nat)
    requires Valid(inst) && 1 <= k < inst.n && Admits(inst, k, inst.demands[k], k)
    ensures SelfEntry(inst, k) in Seeded(inst, k)
  {
    var pushed := Candidates(inst, k - 1, k, inst.demands[k], Customers(inst.n));
    assert k in Customers(inst.n);
    assert SelfEntry(inst, k) in pushed;
  }

  /** `Seeded` only grows with `k`. */
  lemma SeededGrows(inst: SubInstance, k: nat, e: Entry)
    requires Valid(inst) && 1 <= k < inst.n && e in Seeded(inst, k - 1)
    ensures e in Seeded(inst, k)
  {
  }

  lemma {:induction false} SeededSelf(inst: SubInstance, k: nat, x: nat)
    requires Valid(inst) && 1 <= x <= k < inst.n && Admits(inst, x, inst.demands[x], x)
    ensures SelfEntry(inst, x) in Seeded(inst, k)
  {
    if x == k {
      SeededOwn(inst, k);
    } else {
      SeededSelf(inst, k - 1, x);
      SeededGrows(inst, k, SelfEntry(inst, x));
    }
  }

  lemma InitialQueued(inst: SubInstance)
    requires Valid(inst) && OwnFits(inst)
    ensures SelfQueued(inst, Initial(inst))
  {
    var g := Initial(inst);
    assert g.heap == Seeded(inst, inst.n - 1);
    forall x | x in g.unassigned && 1 <= x < inst.n ensures SelfEntry(inst, x) in g.heap {
      SeededSelf(inst, inst.n - 1, x);
    }
  }

  /** While every unassigned customer's own candidate is queued, the loop assigns every customer. */
  lemma {:induction false} LoopAssignsAll(inst: SubInstance, g: Growth)
    requires Shaped(inst, g) && SelfQueued(inst, g)
    ensures Loop(inst, g).unassigned == {}
    decreases |g.unassigned|, |g.heap|
  {
    if g.heap == multiset{} {
      forall x | x in g.unassigned ensures SelfEntry(inst, x) in g.heap {
      }
    } else {
      var e := Top(g.heap);
      var rest := g.heap - multiset{e};
      if e.j !in g.unassigned {
        var g' := g.(heap := rest);
        forall x | x in g'.unassigned && 1 <= x < inst.n ensures SelfEntry(inst, x) in g'.heap {
          assert SelfEntry(inst, x) != e;
        }
        LoopAssignsAll(inst, g');
      } else {
        var next := Expand(inst, g, e, rest);
        if next.unassigned != {} {
          forall x | x in next.unassigned && 1 <= x < inst.n
            ensures SelfEntry(inst, x) in next.heap
          {
            assert SelfEntry(inst, x) != e;
          }
          LoopAssignsAll(inst, next);
        }
      }
    }
  }

  /**
   * When every customer fits its own cluster, the loop assigns every
   * customer, and so every customer ends up in the clusters twice.
   */
  lemma VisitsTwice(inst: SubInstance)
    requires Valid(inst) && OwnFits(inst)
    ensures Loop(inst, Initial(inst)).unassigned == {}
    ensures forall x :: 1 <= x < inst.n ==> Count(Loop(inst, Initial(inst)).clusters, x) == 2
  {
    InitialQueued(inst);
    LoopAssignsAll(inst, Initial(inst));
    InitialKeeps(inst);
    LoopKeeps(inst, Initial(inst));
  }

  /** With every cluster nonempty, the output wraps every cluster, in order. */
  lemma {:induction false} OutputAll(cs: seq<seq<nat>>)
    requires forall c :: 0 <= c < |cs| ==> cs[c] != []
    ensures |Output(cs)| == |cs| && forall c :: 0 <= c < |cs| ==> Output(cs)[c] == Wrap(cs[c])
  {
    if cs != [] {
      var pre := cs[..|cs| - 1];
      assert forall c :: 0 <= c < |pre| ==> pre[c] == cs[c];
      OutputAll(pre);
      assert Output(cs) == Output(pre) + [Wrap(cs[|cs| - 1])];
    }
  }

  lemma {:induction false} CountFound(cs: seq<seq<nat>>, x: nat)
    requires Count(cs, x) >= 1
    ensures exists c :: 0 <= c < |cs| && x in cs[c]
  {
    var k := |cs| - 1;
    if multiset(cs[k])[x] == 0 {
      CountFound(cs[..k], x);
      var c :| 0 <= c < k && x in cs[..k][c];
      assert x in cs[c];
    }
  }

  /** A node counted twice occurs twice in one cluster or in two clusters. */
  lemma {:induction false} CountTwice(cs: seq<seq<nat>>, x: nat)
    requires Count(cs, x) >= 2
    ensures (exists c :: 0 <= c < |cs| && multiset(cs[c])[x] >= 2) ||
            (exists c1, c2 :: 0 <= c1 < c2 < |cs| && x in cs[c1] && x in cs[c2])
  {
    var k := |cs| - 1;
    var m := multiset(cs[k])[x];
    if m == 1 {
      CountFound(cs[..k], x);
      var c :| 0 <= c < k && x in cs[..k][c];
      assert x in cs[c] && x in cs[k];
    } else if m == 0 {
      CountTwice(cs[..k], x);
      if exists c :: 0 <= c < k && multiset(cs[..k][c])[x] >= 2 {
        var c :| 0 <= c < k && multiset(cs[..k][c])[x] >= 2;
        assert cs[..k][c] == cs[c];
      } else {
        var c1, c2 :| 0 <= c1 < c2 < k && x in cs[..k][c1] && x in cs[..k][c2];
        assert x in cs[c1] && x in cs[c2];
      }
    }
  }

  /** A node occurring twice in a sequence breaks `NoDup`. */
  lemma {:induction false} TwiceNotNoDup(s: seq<nat>, x: nat)
    requires multiset(s)[x] >= 2
    ensures !NoDup(s)
  {
    var k := |s| - 1;
    assert s == s[..k] + [s[k]];
    if s[k] == x {
      assert x in multiset(s[..k]);
      var m :| 0 <= m < k && s[..k][m] == x;
      assert s[m] == s[k];
    } else {
      TwiceNotNoDup(s[..k], x);
      var a, b :| 0 <= a < b < k && s[..k][a] == s[..k][b];
      assert s[a] == s[b];
    }
  }

  /**
   * On an instance with a customer, where every customer fits its own
   * cluster, the routes visit every customer twice, so they are not a
   * feasible sub-solution.
   */
  lemma OutputNotFeasible(inst: SubInstance)
    requires Valid(inst) && inst.n >= 2 && OwnFits(inst)
    ensures !Feasible(inst, Output(Loop(inst, Initial(inst)).clusters))
  {
    var cs := Loop(inst, Initial(inst)).clusters;
    var out := Output(cs);
    VisitsTwice(inst);
    OutputAll(cs);
    CountTwice(cs, 1);
    if exists c :: 0 <= c < |cs| && multiset(cs[c])[1] >= 2 {
      var c :| 0 <= c < |cs| && multiset(cs[c])[1] >= 2;
      TwiceNotNoDup(cs[c], 1);
      assert Interior(out[c]) == cs[c];
    } else {
      var c1, c2 :| 0 <= c1 < c2 < |cs| && 1 in cs[c1] && 1 in cs[c2];
      assert Interior(out[c1]) == cs[c1] && Interior(out[c2]) == cs[c2];
    }
  }

  /**
   * The state before the main loop with each seed customer counted as
   * assigned: nothing is left unassigned, so nothing is queued.
   */
  function FixedInitial(inst: SubInstance): (g: Growth)
    requires Valid(inst)
    ensures Shaped(inst, g) && g.unassigned == {} && g.heap == multiset{}
  {
    Growth(Singletons(inst.n - 1), inst.demands[1..], {}, multiset{})
  }

  /**
   * With the seeds counted as assigned, the loop keeps the singleton
   * clusters and the routes are `[0, x, 0]` for every customer x, in order:
   * a feasible sub-solution on every instance.
   */
  lemma FixedOutputFeasible(inst: SubInstance)
    requires Valid(inst)
    ensures var out := Output(Loop(inst, FixedInitial(inst)).clusters);
      |out| == inst.n - 1 && (forall t :: 0 <= t < |out| ==> out[t] == [0, t + 1, 0]) &&
      Feasible(inst, out)
  {
    var cs := Singletons(inst.n - 1);
    assert Loop(inst, FixedInitial(inst)).clusters == cs;
    OutputAll(cs);
    SingleStopsFeasible(inst, Output(cs));
  }

  /** One route `[0, x, 0]` per customer x, in order, is feasible. */
  lemma SingleStopsFeasible(inst: SubInstance, out: seq<seq<nat>>)
    requires Valid(inst) && |out| == inst.n - 1
    requires forall t :: 0 <= t < |out| ==> out[t] == [0, t + 1, 0]
    ensures Feasible(inst, out)
  {
    assert forall t :: 0 <= t < |out| ==> Interior(out[t]) == [t + 1];
    forall x | 1 <= x < inst.n
      ensures Visits(out, x)
    {
      assert x in Interior(out[x - 1]);
    }
  }

  // ---------------------------------------------------------------------
  // The imperative router

  /** Scoring one more node adds its candidate, if it passes the test, to the candidates so far. */
  lemma CandidatesAdd(inst: SubInstance, idx: nat, last: nat, demand: int, done: set<nat>, node: nat)
    requires Valid(inst) && last < inst.n && node < inst.n && node !in done
    requires forall x :: x in done ==> x < inst.n
    ensures var before := Candidates(inst, idx, last, demand, done);
      var after := Candidates(inst, idx, last, demand, done + {node});
      var e := Entry(ExpansionScore(inst, last, node), idx, node);
      multiset(after) ==
        multiset(before) + if Admits(inst, last, demand, node) then multiset{e} else multiset{}
  {
    var before := Candidates(inst, idx, last, demand, done);
    var after := Candidates(inst, idx, last, demand, done + {node});
    var e := Entry(ExpansionScore(inst, last, node), idx, node);
    if Admits(inst, last, demand, node) {
      assert after == before + {e};
      assert e !in before;
    } else {
      assert after == before;
    }
  }

  /**
   * `score_cluster_expansions`: push a candidate for every unassigned node
   * that passes the capacity test, visiting the set in some order.
   */
  method ScoreClusterExpansions(inst: SubInstance, idx: nat, cluster: seq<nat>, heap: seq<Entry>,
                                demands: seq<int>, unassigned: set<nat>)
    returns (pushed: seq<Entry>)
    requires Valid(inst) && cluster != [] && cluster[|cluster| - 1] < inst.n && idx < |demands|
    requires (forall x :: x in unassigned ==> x < inst.n) && SortedDown(heap)
    ensures SortedDown(pushed)
    ensures multiset(pushed) == multiset(heap) +
      multiset(Candidates(inst, idx, cluster[|cluster| - 1], demands[idx], unassigned))
  {
    var last := cluster[|cluster| - 1];
    pushed := heap;
    var todo := unassigned;
    while todo != {}
      invariant todo <= unassigned && SortedDown(pushed)
      invariant multiset(pushed) ==
        multiset(heap) + multiset(Candidates(inst, idx, last, demands[idx], unassigned - todo))
      decreases |todo|
    {
      var node := Choose(todo);
      CandidatesAdd(inst, idx, last, demands[idx], unassigned - todo, node);
      if demands[idx] + inst.d[last][node] <= inst.capacity {
        var score := -(inst.d[last][node] + inst.d[node][0] - inst.d[last][0]);
        pushed := InsertDown(Entry(score, idx, node), pushed);
      }
      assert unassigned - (todo - {node}) == (unassigned - todo) + {node};
      todo := todo - {node};
    }
    assert unassigned - todo == unassigned;
  }

  /** A popped candidate whose node is assigned is dropped and the loop goes on. */
  lemma LoopDiscards(inst: SubInstance, g: Growth)
    requires Shaped(inst, g) && g.heap != multiset{} && Top(g.heap).j !in g.unassigned
    ensures Loop(inst, g) == Loop(inst, g.(heap := g.heap - multiset{Top(g.heap)}))
  {
  }

  /** A popped candidate whose node is unassigned expands its cluster. */
  lemma LoopExpands(inst: SubInstance, g: Growth)
    requires Shaped(inst, g) && g.heap != multiset{} && Top(g.heap).j in g.unassigned
    ensures var next := Expand(inst, g, Top(g.heap), g.heap - multiset{Top(g.heap)});
      Loop(inst, g) == if next.unassigned == {} then next else Loop(inst, next)
  {
  }

  /** Scoring singleton cluster `i` extends the seeded heap by one cluster. */
  method SeedCluster(inst: SubInstance, i: nat, cluster: seq<nat>, heap: seq<Entry>,
                     clusterDemands: seq<int>, unassigned: set<nat>)
    returns (heap': seq<Entry>)
    requires Valid(inst) && i < inst.n - 1 && cluster == [i + 1]
    requires clusterDemands == inst.demands[1..] && unassigned == Customers(inst.n)
    requires SortedDown(heap) && multiset(heap) == Seeded(inst, i)
    ensures SortedDown(heap') && multiset(heap') == Seeded(inst, i + 1)
  {
    assert clusterDemands[i] == inst.demands[i + 1];
    heap' := ScoreClusterExpansions(inst, i, cluster, heap, clusterDemands, unassigned);
  }

  /** The initial scoring: every singleton cluster scored against every customer. */
  method SeedExpansions(inst: SubInstance, clusters: seq<seq<nat>>, clusterDemands: seq<int>,
                        unassigned: set<nat>)
    returns (heap: seq<Entry>)
    requires Valid(inst) && clusters == Singletons(inst.n - 1)
    requires clusterDemands == inst.demands[1..] && unassigned == Customers(inst.n)
    ensures SortedDown(heap) && multiset(heap) == Seeded(inst, inst.n - 1)
  {
    heap := [];
    for i := 0 to inst.n - 1
      invariant SortedDown(heap) && multiset(heap) == Seeded(inst, i)
    {
      heap := SeedCluster(inst, i, clusters[i], heap, clusterDemands, unassigned);
    }
  }

  /** One expansion: append, add the demand, unassign, rescore the cluster. */
  method ExpandCluster(inst: SubInstance, clusters: seq<seq<nat>>, clusterDemands: seq<int>,
                       unassigned: set<nat>, heap: seq<Entry>, e: Entry, ghost g: Growth)
    returns (clusters': seq<seq<nat>>, clusterDemands': seq<int>, unassigned': set<nat>,
             heap': seq<Entry>)
    requires Shaped(inst, g) && e in g.heap && multiset(heap) == g.heap - multiset{e}
    requires clusters == g.clusters && clusterDemands == g.demands && unassigned == g.unassigned
    requires SortedDown(heap)
    ensures SortedDown(heap')
    ensures Growth(clusters', clusterDemands', unassigned', multiset(heap')) ==
      Expand(inst, g, e, multiset(heap))
  {
    clusters' := clusters[e.i := clusters[e.i] + [e.j]];
    clusterDemands' := clusterDemands[e.i := clusterDemands[e.i] + inst.demands[e.j]];
    unassigned' := unassigned - {e.j};
    heap' := ScoreClusterExpansions(inst, e.i, clusters'[e.i], heap, clusterDemands', unassigned');
  }

  /** A popped candidate whose node is still unassigned: expand, and stop once every node is taken. */
  method TakeCandidate(inst: SubInstance, clusters: seq<seq<nat>>, clusterDemands: seq<int>,
                       unassigned: set<nat>, rest: seq<Entry>, e: Entry, ghost g: Growth)
    returns (clusters': seq<seq<nat>>, clusterDemands': seq<int>, unassigned': set<nat>,
             heap': seq<Entry>, stop: bool)
    requires Shaped(inst, g) && g.heap != multiset{} && e == Top(g.heap) && e.j in g.unassigned
    requires clusters == g.clusters && clusterDemands == g.demands && unassigned == g.unassigned
    requires SortedDown(rest) && multiset(rest) == g.heap - multiset{e}
    ensures SortedDown(heap')
    ensures Shaped(inst, Growth(clusters', clusterDemands', unassigned', multiset(heap')))
    ensures Loop(inst, g) ==
      var g' := Growth(clusters', clusterDemands', unassigned', multiset(heap'));
      if stop then g' else Loop(inst, g')
    ensures |unassigned'| < |unassigned|
  {
    LoopExpands(inst, g);
    clusters', clusterDemands', unassigned', heap' :=
      ExpandCluster(inst, clusters, clusterDemands, unassigned, rest, e, g);
    stop := unassigned' == {};
  }

  /**
   * One turn of the main loop: pop the best candidate, drop it when its
   * node is taken, otherwise expand; `stop` says the last node was taken.
   */
  method PopCandidate(inst: SubInstance, clusters: seq<seq<nat>>, clusterDemands: seq<int>,
                      unassigned: set<nat>, heap: seq<Entry>)
    returns (clusters': seq<seq<nat>>, clusterDemands': seq<int>, unassigned': set<nat>,
             heap': seq<Entry>, stop: bool)
    requires heap != [] && SortedDown(heap)
    requires Shaped(inst, Growth(clusters, clusterDemands, unassigned, multiset(heap)))
    ensures SortedDown(heap')
    ensures Shaped(inst, Growth(clusters', clusterDemands', unassigned', multiset(heap')))
    ensures Loop(inst, Growth(clusters, clusterDemands, unassigned, multiset(heap))) ==
      var g' := Growth(clusters', clusterDemands', unassigned', multiset(heap'));
      if stop then g' else Loop(inst, g')
    ensures |unassigned'| < |unassigned| || (unassigned' == unassigned && |heap'| < |heap|)
  {
    ghost var g := Growth(clusters, clusterDemands, unassigned, multiset(heap));
    SortedTop(heap);
    var e := heap[0];
    var rest := heap[1..];
    if e.j !in unassigned {
      LoopDiscards(inst, g);
      clusters', clusterDemands', unassigned', heap', stop :=
        clusters, clusterDemands, unassigned, rest, false;
      assert Growth(clusters', clusterDemands', unassigned', multiset(heap')) ==
        g.(heap := g.heap - multiset{Top(g.heap)});
    } else {
      clusters', clusterDemands', unassigned', heap', stop :=
        TakeCandidate(inst, clusters, clusterDemands, unassigned, rest, e, g);
    }
  }

  /** The starting state: singleton clusters, all customers unassigned, the seeded heap. */
  method Start(inst: SubInstance)
    returns (clusters: seq<seq<nat>>, clusterDemands: seq<int>, unassigned: set<nat>,
             heap: seq<Entry>)
    requires Valid(inst)
    ensures SortedDown(heap)
    ensures Growth(clusters, clusterDemands, unassigned, multiset(heap)) == Initial(inst)
  {
    clusters := Singletons(inst.n - 1);
    clusterDemands := inst.demands[1..];
    unassigned := Customers(inst.n);
    heap := SeedExpansions(inst, clusters, clusterDemands, unassigned);
  }

  /** `solve_sub_instance`: seed, score, expand until the heap or the unassigned set is empty. */
  method SolveSubInstance(inst: SubInstance) returns (routes: seq<seq<nat>>)
    requires Valid(inst)
    ensures routes == Output(Loop(inst, Initial(inst)).clusters)
  {
    var clusters, clusterDemands, unassigned, heap := Start(inst);
    ghost var final := Loop(inst, Initial(inst));
    var stop := false;
    while heap != [] && !stop
      invariant SortedDown(heap)
      invariant Shaped(inst, Growth(clusters, clusterDemands, unassigned, multiset(heap)))
      invariant final == var g := Growth(clusters, clusterDemands, unassigned, multiset(heap));
        if stop then g else Loop(inst, g)
      decreases |unassigned|, |heap|
    {
      clusters, clusterDemands, unassigned, heap, stop :=
        PopCandidate(inst, clusters, clusterDemands, unassigned, heap);
    }
    if !stop {
      assert multiset(heap) == multiset{};
    }
    routes := Output(clusters);
  }
}
