/**
 * Model of the greedy SAT assigner in
 * tig-algorithms/src/satisfiability/need_for_speed/innovator_outbound.rs.
 *
 * `vars_map` maps each literal to the set of indices of the clauses that
 * contain it and are not yet covered.  Each round picks a literal whose set
 * is largest, sets its variable to the literal's polarity, drops the literal
 * and its negation, subtracts the picked set from every other set and drops
 * the sets that become empty.
 *
 * The state is characterised by the ghost sequence `chosen` of literals
 * picked so far: the map is the residual map of `chosen` (`IsResidual`) and
 * the variables are `Assignment(n, chosen)`.
 */
module NeedForSpeed {
  import opened Common

  /** Every literal is nonzero and names one of `n` variables. */
  predicate WellFormed(clauses: seq<seq<int>>, n: nat) {
    forall j, i :: 0 <= j < |clauses| && 0 <= i < |clauses[j]| ==>
      clauses[j][i] != 0 && Abs(clauses[j][i]) <= n
  }

  /** The indices of the clauses that contain literal `l`. */
  ghost function Containing(clauses: seq<seq<int>>, l: int): set<nat> {
    set j | 0 <= j < |clauses| && l in clauses[j]
  }

  /** `m` is `vars_map` as the nested loop leaves it: each occurring literal to its clauses. */
  ghost predicate IsIndex(m: map<int, set<nat>>, clauses: seq<seq<int>>) {
    forall l :: (l in m <==> Containing(clauses, l) != {}) &&
      (l in m ==> m[l] == Containing(clauses, l))
  }

  /** Some picked literal occurs in the clause. */
  ghost predicate CoveredBy(clause: seq<int>, chosen: seq<int>) {
    exists i :: 0 <= i < |chosen| && chosen[i] in clause
  }

  /** Some picked literal names variable `v` (as `abs` of a literal). */
  ghost predicate Decided(chosen: seq<int>, v: int) {
    exists i :: 0 <= i < |chosen| && Abs(chosen[i]) == v
  }

  /** The clauses that contain `l` and that no picked literal covers. */
  ghost function Uncovered(clauses: seq<seq<int>>, chosen: seq<int>, l: int): set<nat> {
    set j | 0 <= j < |clauses| && l in clauses[j] && !CoveredBy(clauses[j], chosen)
  }

  /**
   * `m` is the map after `chosen` has been picked: every literal whose
   * variable is undecided and that still has uncovered clauses, mapped to
   * those clauses.
   */
  ghost predicate IsResidual(m: map<int, set<nat>>, clauses: seq<seq<int>>, chosen: seq<int>) {
    forall l :: (l in m <==> !Decided(chosen, Abs(l)) && Uncovered(clauses, chosen, l) != {}) &&
      (l in m ==> m[l] == Uncovered(clauses, chosen, l))
  }

  /** No undecided literal has an uncovered clause left: the map is empty. */
  ghost predicate Exhausted(clauses: seq<seq<int>>, chosen: seq<int>) {
    forall l :: !Decided(chosen, Abs(l)) ==> Uncovered(clauses, chosen, l) == {}
  }

  /** The `retain` pass: subtract `c` from every set and keep the nonempty ones. */
  function Subtract(m: map<int, set<nat>>, c: set<nat>): (r: map<int, set<nat>>)
    ensures forall l :: l in r <==> l in m && m[l] - c != {}
    ensures forall l :: l in r ==> r[l] == m[l] - c
  {
    map l | l in m && m[l] - c != {} :: m[l] - c
  }

  /** What one round does to the map, given the picked literal `s`. */
  function Retain(m: map<int, set<nat>>, s: int): (r: map<int, set<nat>>)
    requires s in m
    ensures forall l :: l in r ==> l in m && l != s && l != -s && r[l] != {}
    ensures forall l :: l in r ==> r[l] == m[l] - m[s]
    ensures forall l :: l in m && l != s && l != -s && m[l] - m[s] != {} ==> l in r
    ensures r.Keys < m.Keys
  {
    Subtract(m - {s} - {-s}, m[s])
  }

  /**
   * The variables after `chosen` has been picked, starting from all false:
   * variable `x` is true exactly when the positive literal `x + 1` was picked.
   */
  ghost function Assignment(n: nat, chosen: seq<int>): seq<bool> {
    seq(n, x => x + 1 in chosen)
  }

  /** `s` is a largest key of the map after `chosen`. */
  ghost predicate Largest(clauses: seq<seq<int>>, chosen: seq<int>, s: int) {
    !Decided(chosen, Abs(s)) && Uncovered(clauses, chosen, s) != {} &&
    forall l :: !Decided(chosen, Abs(l)) ==>
      |Uncovered(clauses, chosen, l)| <= |Uncovered(clauses, chosen, s)|
  }

  /** Each literal of `chosen` was a largest key of the map at its round. */
  ghost predicate Greedy(clauses: seq<seq<int>>, chosen: seq<int>) {
    forall i :: 0 <= i < |chosen| ==> Largest(clauses, chosen[..i], chosen[i])
  }

  /** A clause is true under an assignment. */
  ghost predicate ClauseTrue(clause: seq<int>, vals: seq<bool>) {
    exists i :: 0 <= i < |clause| && clause[i] != 0 && Abs(clause[i]) <= |vals| &&
      vals[Abs(clause[i]) - 1] == (clause[i] > 0)
  }

  // ---------------------------------------------------------------------
  // Lemmas about the specification

  lemma ContainingSnoc(cs: seq<seq<int>>, c: seq<int>, l: int, x: int)
    ensures Containing(cs + [c + [l]], x) ==
      Containing(cs + [c], x) + (if x == l then {|cs|} else {})
  {
    var a := cs + [c + [l]];
    var b := cs + [c];
    forall j | 0 <= j < |cs| ensures a[j] == b[j] { }
    assert x in a[|cs|] <==> x in c || x == l;
  }

  /** One step of the inner building loop inserts the clause index under the literal. */
  lemma IndexSnoc(m: map<int, set<nat>>, cs: seq<seq<int>>, c: seq<int>, l: int)
    requires IsIndex(m, cs + [c])
    ensures IsIndex(m[l := (if l in m then m[l] else {}) + {|cs|}], cs + [c + [l]])
  {
    var r := m[l := (if l in m then m[l] else {}) + {|cs|}];
    forall x ensures (x in r <==> Containing(cs + [c + [l]], x) != {}) &&
      (x in r ==> r[x] == Containing(cs + [c + [l]], x))
    {
      ContainingSnoc(cs, c, l, x);
    }
  }

  /** Adding an empty clause adds no literal. */
  lemma IndexEmptyClause(m: map<int, set<nat>>, cs: seq<seq<int>>)
    requires IsIndex(m, cs)
    ensures IsIndex(m, cs + [[]])
  {
    var a := cs + [[]];
    forall j | 0 <= j < |cs| ensures a[j] == cs[j] { }
    forall x ensures Containing(a, x) == Containing(cs, x) { }
  }

  /** Before any pick, the residual map is the full index. */
  lemma ResidualInitial(m: map<int, set<nat>>, clauses: seq<seq<int>>)
    requires IsIndex(m, clauses)
    ensures IsResidual(m, clauses, [])
  {
    forall l ensures Uncovered(clauses, [], l) == Containing(clauses, l) { }
  }

  lemma CoveredSnoc(clause: seq<int>, chosen: seq<int>, s: int)
    ensures CoveredBy(clause, chosen + [s]) <==> CoveredBy(clause, chosen) || s in clause
  {
    var c := chosen + [s];
    if CoveredBy(clause, c) && !(s in clause) {
      var i :| 0 <= i < |c| && c[i] in clause;
      assert chosen[i] == c[i];
    }
    if CoveredBy(clause, chosen) {
      var i :| 0 <= i < |chosen| && chosen[i] in clause;
      assert c[i] == chosen[i];
    }
    assert c[|chosen|] == s;
  }

  lemma DecidedSnoc(chosen: seq<int>, s: int, v: int)
    ensures Decided(chosen + [s], v) <==> Decided(chosen, v) || Abs(s) == v
  {
    var c := chosen + [s];
    if Decided(c, v) && Abs(s) != v {
      var i :| 0 <= i < |c| && Abs(c[i]) == v;
      assert chosen[i] == c[i];
    }
    if Decided(chosen, v) {
      var i :| 0 <= i < |chosen| && Abs(chosen[i]) == v;
      assert c[i] == chosen[i];
    }
    assert c[|chosen|] == s;
  }

  /** Picking `s` removes its uncovered clauses from every other literal's set. */
  lemma UncoveredSnoc(clauses: seq<seq<int>>, chosen: seq<int>, s: int, l: int)
    ensures Uncovered(clauses, chosen + [s], l) ==
      Uncovered(clauses, chosen, l) - Uncovered(clauses, chosen, s)
  {
    forall j | 0 <= j < |clauses|
      ensures CoveredBy(clauses[j], chosen + [s]) <==> CoveredBy(clauses[j], chosen) || s in clauses[j]
    {
      CoveredSnoc(clauses[j], chosen, s);
    }
  }

  /**
   * One round of the loop (two removals and the `retain`) turns the residual
   * map of `chosen` into the residual map of `chosen + [s]`.
   */
  lemma ResidualStep(m: map<int, set<nat>>, clauses: seq<seq<int>>, chosen: seq<int>, s: int)
    requires IsResidual(m, clauses, chosen) && s in m
    ensures IsResidual(Retain(m, s), clauses, chosen + [s])
  {
    var r := Retain(m, s);
    var c := chosen + [s];
    forall l ensures (l in r <==> !Decided(c, Abs(l)) && Uncovered(clauses, c, l) != {}) &&
      (l in r ==> r[l] == Uncovered(clauses, c, l))
    {
      UncoveredSnoc(clauses, chosen, s, l);
      DecidedSnoc(chosen, s, Abs(l));
      assert Abs(l) == Abs(s) <==> l == s || l == -s;
      if !Decided(chosen, Abs(l)) && Uncovered(clauses, chosen, l) == {} {
        assert l !in m;
      }
    }
  }

  /** A largest key of the residual map is a largest key in the sense of `Largest`. */
  lemma LargestKeyIsLargest(m: map<int, set<nat>>, clauses: seq<seq<int>>, chosen: seq<int>, s: int)
    requires IsResidual(m, clauses, chosen)
    requires s in m && forall l :: l in m ==> |m[l]| <= |m[s]|
    ensures Largest(clauses, chosen, s)
  {
    forall l | !Decided(chosen, Abs(l))
      ensures |Uncovered(clauses, chosen, l)| <= |Uncovered(clauses, chosen, s)|
    {
      if l !in m {
        assert Uncovered(clauses, chosen, l) == {};
      }
    }
  }

  /**
   * Everything one round of the loop needs: the picked literal is in range,
   * undecided and largest, and the updated map is the residual map of the
   * longer pick list.
   */
  lemma Round(m: map<int, set<nat>>, clauses: seq<seq<int>>, n: nat, chosen: seq<int>, s: int)
    requires WellFormed(clauses, n) && IsResidual(m, clauses, chosen)
    requires s in m && forall l :: l in m ==> |m[l]| <= |m[s]|
    ensures s != 0 && Abs(s) <= n && |m[s]| != 0
    ensures !Decided(chosen, Abs(s)) && Largest(clauses, chosen, s)
    ensures IsResidual(Retain(m, s), clauses, chosen + [s])
  {
    var j :| j in m[s];
    var i :| 0 <= i < |clauses[j]| && clauses[j][i] == s;
    LargestKeyIsLargest(m, clauses, chosen, s);
    ResidualStep(m, clauses, chosen, s);
  }

  /** One greedy round extends a greedy run. */
  lemma GreedySnoc(clauses: seq<seq<int>>, chosen: seq<int>, s: int)
    requires Greedy(clauses, chosen) && Largest(clauses, chosen, s)
    ensures Greedy(clauses, chosen + [s])
  {
    var c := chosen + [s];
    forall i | 0 <= i < |c| ensures Largest(clauses, c[..i], c[i]) {
      assert c[..i] == chosen[..i];
      if i < |chosen| {
        assert c[i] == chosen[i];
      } else {
        assert chosen[..i] == chosen;
      }
    }
  }

  /** Writing the picked literal's polarity gives the assignment of the longer pick list. */
  lemma AssignmentSnoc(n: nat, chosen: seq<int>, s: int)
    requires s != 0 && Abs(s) <= n && !Decided(chosen, Abs(s))
    ensures Assignment(n, chosen + [s]) == Assignment(n, chosen)[Abs(s) - 1 := s > 0]
  {
    var c := chosen + [s];
    assert -s !in chosen by {
      forall i | 0 <= i < |chosen| ensures chosen[i] != -s {
        assert Abs(chosen[i]) != Abs(s);
      }
    }
    forall v ensures (v in c) == (v in chosen || v == s) {
      if v in c {
        var i :| 0 <= i < |c| && c[i] == v;
        if i < |chosen| {
          assert chosen[i] == v;
        }
      }
      if v in chosen {
        var i :| 0 <= i < |chosen| && chosen[i] == v;
        assert c[i] == v;
      }
      assert c[|chosen|] == s;
    }
  }

  /** The literals picked by a greedy run name distinct variables. */
  lemma GreedyDistinct(clauses: seq<seq<int>>, chosen: seq<int>)
    requires Greedy(clauses, chosen)
    ensures forall i, k :: 0 <= i < k < |chosen| ==> Abs(chosen[i]) != Abs(chosen[k])
  {
    forall i, k | 0 <= i < k < |chosen| ensures Abs(chosen[i]) != Abs(chosen[k]) {
      assert chosen[..k][i] == chosen[i];
      assert !Decided(chosen[..k], Abs(chosen[k]));
    }
  }

  /** Each picked literal occurs in some clause, so it fits the variable range. */
  lemma GreedyInRange(clauses: seq<seq<int>>, n: nat, chosen: seq<int>)
    requires WellFormed(clauses, n) && Greedy(clauses, chosen)
    ensures forall i :: 0 <= i < |chosen| ==> chosen[i] != 0 && Abs(chosen[i]) <= n
  {
    forall i | 0 <= i < |chosen| ensures chosen[i] != 0 && Abs(chosen[i]) <= n {
      assert Uncovered(clauses, chosen[..i], chosen[i]) != {};
      var j :| j in Uncovered(clauses, chosen[..i], chosen[i]);
      var k :| 0 <= k < |clauses[j]| && clauses[j][k] == chosen[i];
    }
  }

  /** A clause that a picked literal covers is true: no variable is picked both ways. */
  lemma CoveredClauseTrue(clauses: seq<seq<int>>, n: nat, chosen: seq<int>, j: nat)
    requires forall i :: 0 <= i < |chosen| ==> chosen[i] != 0 && Abs(chosen[i]) <= n
    requires forall i, k :: 0 <= i < k < |chosen| ==> Abs(chosen[i]) != Abs(chosen[k])
    requires j < |clauses| && CoveredBy(clauses[j], chosen)
    ensures ClauseTrue(clauses[j], Assignment(n, chosen))
  {
    var vals := Assignment(n, chosen);
    var i :| 0 <= i < |chosen| && chosen[i] in clauses[j];
    var k :| 0 <= k < |clauses[j]| && clauses[j][k] == chosen[i];
    var l := chosen[i];
    assert l != 0 && Abs(l) <= n;
    if l < 0 {
      assert -l !in chosen by {
        forall i' | 0 <= i' < |chosen| ensures chosen[i'] != -l {
          if i' < i || i' > i {
            assert Abs(chosen[i']) != Abs(chosen[i]);
          }
        }
      }
    }
    assert vals[Abs(l) - 1] == (l > 0);
  }

  /**
   * Once the map is empty, a true clause was covered: any true literal of an
   * uncovered clause would name an undecided variable with a clause left.
   */
  lemma TrueClauseCovered(clauses: seq<seq<int>>, n: nat, chosen: seq<int>, j: nat)
    requires Exhausted(clauses, chosen)
    requires j < |clauses| && ClauseTrue(clauses[j], Assignment(n, chosen))
    ensures CoveredBy(clauses[j], chosen)
  {
    var vals := Assignment(n, chosen);
    var k :| 0 <= k < |clauses[j]| && clauses[j][k] != 0 && Abs(clauses[j][k]) <= |vals| &&
      vals[Abs(clauses[j][k]) - 1] == (clauses[j][k] > 0);
    var l := clauses[j][k];
    if l !in chosen {
      assert -l !in chosen by {
        assert vals[Abs(l) - 1] == (Abs(l) in chosen);
      }
      assert !Decided(chosen, Abs(l)) by {
        forall i | 0 <= i < |chosen| ensures Abs(chosen[i]) != Abs(l) {
          assert chosen[i] != l && chosen[i] != -l;
        }
      }
      assert j !in Uncovered(clauses, chosen, l);
      assert l in clauses[j];
    } else {
      var i :| 0 <= i < |chosen| && chosen[i] == l;
      assert chosen[i] in clauses[j];
    }
  }

  /**
   * What the greedy run achieves once the map is empty: the assignment
   * satisfies a clause exactly when one of the picked literals covered it.
   */
  lemma GreedySatisfiesCovered(clauses: seq<seq<int>>, n: nat, chosen: seq<int>)
    requires WellFormed(clauses, n) && Greedy(clauses, chosen)
    requires Exhausted(clauses, chosen)
    ensures forall j :: 0 <= j < |clauses| ==>
      (ClauseTrue(clauses[j], Assignment(n, chosen)) <==> CoveredBy(clauses[j], chosen))
  {
    GreedyInRange(clauses, n, chosen);
    GreedyDistinct(clauses, chosen);
    forall j | 0 <= j < |clauses|
      ensures ClauseTrue(clauses[j], Assignment(n, chosen)) <==> CoveredBy(clauses[j], chosen)
    {
      if CoveredBy(clauses[j], chosen) {
        CoveredClauseTrue(clauses, n, chosen, j);
      }
      if ClauseTrue(clauses[j], Assignment(n, chosen)) {
        TrueClauseCovered(clauses, n, chosen, j);
      }
    }
  }

  // ---------------------------------------------------------------------
  // The imperative solver

  /** The nested loop that builds `vars_map`. */
  method BuildIndex(clauses: seq<seq<int>>) returns (varsMap: map<int, set<nat>>)
    ensures IsIndex(varsMap, clauses)
  {
    varsMap := map[];
    assert IsIndex(varsMap, clauses[..0]) by {
      forall l ensures Containing(clauses[..0], l) == {} { }
    }
    for idx := 0 to |clauses|
      invariant IsIndex(varsMap, clauses[..idx])
    {
      var clause := clauses[idx];
      ghost var done := clauses[..idx];
      assert done + [clause[..0]] == done + [[]];
      IndexEmptyClause(varsMap, done);
      for m := 0 to |clause|
        invariant IsIndex(varsMap, done + [clause[..m]])
      {
        var v := clause[m];
        assert clause[..m + 1] == clause[..m] + [v];
        IndexSnoc(varsMap, done, clause[..m], v);
        varsMap := varsMap[v := (if v in varsMap then varsMap[v] else {}) + {idx}];
      }
      assert clause[..|clause|] == clause;
      assert clauses[..idx + 1] == done + [clause];
    }
    assert clauses[..|clauses|] == clauses;
  }

  /** `lens` collected and sorted by decreasing size: its head is a largest key. */
  method LargestKey(varsMap: map<int, set<nat>>) returns (s: int)
    requires varsMap != map[]
    ensures s in varsMap
    ensures forall l :: l in varsMap ==> |varsMap[l]| <= |varsMap[s]|
  {
    var keys := varsMap.Keys;
    s := Choose(keys);
    keys := keys - {s};
    while keys != {}
      invariant s in varsMap && keys <= varsMap.Keys
      invariant forall l :: l in varsMap && l !in keys ==> |varsMap[l]| <= |varsMap[s]|
      decreases keys
    {
      var l := Choose(keys);
      if |varsMap[l]| > |varsMap[s]| {
        s := l;
      }
      keys := keys - {l};
    }
  }

  /**
   * `solve_challenge`: always `Some`.  The ghost `chosen` is the sequence of
   * picked literals, each a largest key of its round; the final map is
   * empty, and the variables are the ones the picks set.
   */
  method SolveChallenge(numVariables: nat, clauses: seq<seq<int>>)
    returns (solution: Option<seq<bool>>, ghost chosen: seq<int>)
    requires WellFormed(clauses, numVariables)
    ensures solution.Some?
    ensures Greedy(clauses, chosen) && Exhausted(clauses, chosen)
    ensures solution.value == Assignment(numVariables, chosen)
    ensures forall j :: 0 <= j < |clauses| ==>
      (ClauseTrue(clauses[j], solution.value) <==> CoveredBy(clauses[j], chosen))
  {
    var variables := new bool[numVariables](_ => false);
    var varsMap := BuildIndex(clauses);
    ResidualInitial(varsMap, clauses);
    chosen := [];
    while varsMap != map[]
      invariant Greedy(clauses, chosen)
      invariant IsResidual(varsMap, clauses, chosen)
      invariant variables[..] == Assignment(numVariables, chosen)
      decreases varsMap.Keys
    {
      var s := LargestKey(varsMap);
      Round(varsMap, clauses, numVariables, chosen, s);
      if |varsMap[s]| == 0 {
        assert false;
        break;
      }
      AssignmentSnoc(numVariables, chosen, s);
      GreedySnoc(clauses, chosen, s);
      variables[Abs(s) - 1] := s > 0;
      var c := varsMap[s];
      varsMap := varsMap - {s};
      varsMap := varsMap - {-s};
      varsMap := Subtract(varsMap, c);
      chosen := chosen + [s];
    }
    solution := Some(variables[..]);
    GreedySatisfiesCovered(clauses, numVariables, chosen);
  }
}
