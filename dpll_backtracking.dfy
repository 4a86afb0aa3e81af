/**
 * Model of the DPLL-style SAT routine in
 * tig-algorithms/src/satisfiability/dpll_backtracking/open_data.rs.
 *
 * `dpll` works on a fixed clause list (it is never simplified) and a slice
 * of partial assignments, modelled as an `array<Option<bool>>`.  A Rust
 * panic (the `unwrap()` of the search for an unassigned variable) is an
 * explicit outcome here, because every run that reaches branching ends in it.
 */
module DpllBacktracking {
  import opened Common

  /** The outcome of one call of `dpll`: true, false, or a panic that aborts the solver. */
  datatype Outcome = Sat | Unsat | Panic

  /** An outcome together with the assignment slice as the call leaves it. */
  datatype Run = Run(outcome: Outcome, assignment: seq<Option<bool>>)

  /** What `solve_challenge` yields: an `Ok(Some(..))`/`Ok(None)` result, or a panic. */
  datatype Verdict = Returned(solution: Option<seq<bool>>) | Panicked

  /** The variable index a literal names: `literal.abs() as usize - 1`. */
  function VarOf(l: int): nat
    requires l != 0
  {
    Abs(l) - 1
  }

  /** Every literal is nonzero and names one of `n` variables. */
  predicate LiteralsIn(lits: seq<int>, n: nat) {
    forall i :: 0 <= i < |lits| ==> lits[i] != 0 && Abs(lits[i]) <= n
  }

  /** The instance shape the solver's indexing relies on. */
  predicate WellFormed(clauses: seq<seq<int>>, n: nat) {
    forall k :: 0 <= k < |clauses| ==> LiteralsIn(clauses[k], n)
  }

  predicate HasEmptyClause(clauses: seq<seq<int>>) {
    exists k :: 0 <= k < |clauses| && clauses[k] == []
  }

  /** `b` assigns (some value to) every slot that `a` assigns. */
  ghost predicate Covers(a: seq<Option<bool>>, b: seq<Option<bool>>) {
    |a| == |b| && forall i :: 0 <= i < |a| && a[i].Some? ==> b[i].Some?
  }

  /** `b` keeps every value that `a` has assigned. */
  ghost predicate Extends(a: seq<Option<bool>>, b: seq<Option<bool>>) {
    |a| == |b| && forall i :: 0 <= i < |a| && a[i].Some? ==> b[i] == a[i]
  }

  /** A literal is true under a total assignment. */
  predicate LiteralTrue(l: int, vals: seq<bool>)
    requires l != 0 && Abs(l) <= |vals|
  {
    vals[VarOf(l)] == (l > 0)
  }

  /** Every clause has a true literal. */
  predicate Satisfies(clauses: seq<seq<int>>, vals: seq<bool>)
    requires WellFormed(clauses, |vals|)
  {
    forall k :: 0 <= k < |clauses| ==>
      exists m :: 0 <= m < |clauses[k]| && LiteralTrue(clauses[k][m], vals)
  }

  /** `x.unwrap_or(false)` for every slot. */
  function Defaulted(a: seq<Option<bool>>): (vals: seq<bool>)
    ensures |vals| == |a|
    ensures forall i :: 0 <= i < |a| ==> vals[i] == (a[i] == Some(true))
  {
    seq(|a|, i requires 0 <= i < |a| => a[i] == Some(true))
  }

  // ---------------------------------------------------------------------
  // Unit clauses

  /** The literals of the unit clauses, in clause order. */
  function UnitLiterals(clauses: seq<seq<int>>): seq<int>
  {
    if clauses == [] then []
    else
      var last := clauses[|clauses| - 1];
      UnitLiterals(clauses[..|clauses| - 1]) + (if |last| == 1 then [last[0]] else [])
  }

  lemma {:induction false} UnitLiteralsIn(clauses: seq<seq<int>>, n: nat)
    requires WellFormed(clauses, n)
    ensures LiteralsIn(UnitLiterals(clauses), n)
    ensures forall i :: 0 <= i < |UnitLiterals(clauses)| ==> [UnitLiterals(clauses)[i]] in clauses
  {
    if clauses != [] {
      UnitLiteralsIn(clauses[..|clauses| - 1], n);
      var last := clauses[|clauses| - 1];
      assert WellFormed(clauses[..|clauses| - 1], n);
      assert LiteralsIn(last, n);
      if |last| == 1 {
        assert last == [last[0]];
      }
    }
  }

  /**
   * The unit loop: each unit literal assigns its variable, and the loop stops
   * with `false` at a unit whose variable already holds the opposite value.
   * The sequence returned is the slice as the loop leaves it.
   */
  function UnitPass(units: seq<int>, a: seq<Option<bool>>): (r: (bool, seq<Option<bool>>))
    requires LiteralsIn(units, |a|)
    ensures |r.1| == |a|
  {
    if units == [] then (true, a)
    else
      var p := UnitPass(units[..|units| - 1], a);
      var l := units[|units| - 1];
      if !p.0 then p
      else if p.1[VarOf(l)].Some? && p.1[VarOf(l)] != Some(l > 0) then (false, p.1)
      else (true, p.1[VarOf(l) := Some(l > 0)])
  }

  /** No two unit literals are complementary. */
  predicate NoComplementary(units: seq<int>) {
    forall i, j :: 0 <= i < |units| && 0 <= j < |units| ==> units[i] != -units[j]
  }

  /** Every unit literal agrees with what `a` already assigns to its variable. */
  predicate Compatible(units: seq<int>, a: seq<Option<bool>>)
    requires LiteralsIn(units, |a|)
  {
    forall i :: 0 <= i < |units| ==>
      a[VarOf(units[i])] == None || a[VarOf(units[i])] == Some(units[i] > 0)
  }

  /** The unit pass only ever adds assignments or rewrites a slot with its own value. */
  lemma {:induction false} UnitPassExtends(units: seq<int>, a: seq<Option<bool>>)
    requires LiteralsIn(units, |a|)
    ensures Extends(a, UnitPass(units, a).1)
  {
    if units != [] {
      assert LiteralsIn(units[..|units| - 1], |a|);
      UnitPassExtends(units[..|units| - 1], a);
    }
  }

  /**
   * After a successful unit pass every unit literal's variable holds that
   * literal's polarity, and every other variable is as it was.
   */
  lemma {:induction false} UnitPassValues(units: seq<int>, a: seq<Option<bool>>)
    requires LiteralsIn(units, |a|)
    requires UnitPass(units, a).0
    ensures forall i :: 0 <= i < |units| ==> UnitPass(units, a).1[VarOf(units[i])] == Some(units[i] > 0)
    ensures forall y :: 0 <= y < |a| && y !in VarsOf(units) ==> UnitPass(units, a).1[y] == a[y]
  {
    if units != [] {
      var pre := units[..|units| - 1];
      var l := units[|units| - 1];
      var x := VarOf(l);
      assert LiteralsIn(pre, |a|);
      var p := UnitPass(pre, a);
      var r := UnitPass(units, a);
      assert p.0;
      UnitPassValues(pre, a);
      assert r.1 == p.1[x := Some(l > 0)];
      forall i | 0 <= i < |units| ensures r.1[VarOf(units[i])] == Some(units[i] > 0) {
        if i < |pre| {
          assert units[i] == pre[i];
        }
      }
      forall y | 0 <= y < |a| && y !in VarsOf(units) ensures r.1[y] == a[y] {
        assert y != VarOf(units[|units| - 1]);
        assert forall i :: 0 <= i < |pre| ==> pre[i] == units[i];
        assert y !in VarsOf(pre);
      }
    }
  }

  /** The variables the unit literals name. */
  ghost function VarsOf(units: seq<int>): set<nat>
    requires forall i :: 0 <= i < |units| ==> units[i] != 0
  {
    set i | 0 <= i < |units| :: VarOf(units[i])
  }

  /** Compatibility of `pre + [l]` from that of `pre` and of `l`. */
  lemma CompatibleSnoc(units: seq<int>, a: seq<Option<bool>>)
    requires units != [] && LiteralsIn(units, |a|)
    requires LiteralsIn(units[..|units| - 1], |a|)
    requires Compatible(units[..|units| - 1], a)
    requires var l := units[|units| - 1]; a[VarOf(l)] == None || a[VarOf(l)] == Some(l > 0)
    ensures Compatible(units, a)
  {
    var pre := units[..|units| - 1];
    forall i | 0 <= i < |units|
      ensures a[VarOf(units[i])] == None || a[VarOf(units[i])] == Some(units[i] > 0)
    {
      if i < |pre| {
        assert units[i] == pre[i];
      }
    }
  }

  /** No complementary pair in `pre + [l]` from none in `pre` and none against `l`. */
  lemma NoComplementarySnoc(units: seq<int>)
    requires units != []
    requires NoComplementary(units[..|units| - 1])
    requires forall i :: 0 <= i < |units| - 1 ==> units[i] != -units[|units| - 1]
    requires units[|units| - 1] != 0
    ensures NoComplementary(units)
  {
    var pre := units[..|units| - 1];
    forall i, j | 0 <= i < |units| && 0 <= j < |units| ensures units[i] != -units[j] {
      if i < |pre| && j < |pre| {
        assert units[i] == pre[i] && units[j] == pre[j];
      } else if j < |pre| {
        assert units[j] != -units[i];
      }
    }
  }

  /** A successful unit pass means the units are consistent with each other and with `a`. */
  lemma {:induction false} UnitPassOkSound(units: seq<int>, a: seq<Option<bool>>)
    requires LiteralsIn(units, |a|)
    requires UnitPass(units, a).0
    ensures Compatible(units, a) && NoComplementary(units)
  {
    if units != [] {
      var pre := units[..|units| - 1];
      var l := units[|units| - 1];
      var x := VarOf(l);
      assert LiteralsIn(pre, |a|);
      var p := UnitPass(pre, a);
      assert p.0;
      UnitPassOkSound(pre, a);
      UnitPassValues(pre, a);
      // The last literal met no conflict: p.1[x] is None or agrees with it.
      assert p.1[x] == None || p.1[x] == Some(l > 0);
      if x in VarsOf(pre) {
        var j :| 0 <= j < |pre| && x == VarOf(pre[j]);
        assert p.1[x] == Some(pre[j] > 0);
      } else {
        assert p.1[x] == a[x];
      }
      CompatibleSnoc(units, a);
      forall i | 0 <= i < |units| - 1 ensures units[i] != -l {
        assert units[i] == pre[i];
        assert VarOf(pre[i]) in VarsOf(pre);
      }
      NoComplementarySnoc(units);
    }
  }

  /** Consistent unit literals make the unit pass succeed. */
  lemma {:induction false} UnitPassOkComplete(units: seq<int>, a: seq<Option<bool>>)
    requires LiteralsIn(units, |a|)
    requires Compatible(units, a) && NoComplementary(units)
    ensures UnitPass(units, a).0
  {
    if units != [] {
      var pre := units[..|units| - 1];
      var l := units[|units| - 1];
      var x := VarOf(l);
      assert LiteralsIn(pre, |a|);
      assert Compatible(pre, a) by {
        forall i | 0 <= i < |pre|
          ensures a[VarOf(pre[i])] == None || a[VarOf(pre[i])] == Some(pre[i] > 0)
        {
          assert units[i] == pre[i];
        }
      }
      assert NoComplementary(pre) by {
        forall i, j | 0 <= i < |pre| && 0 <= j < |pre| ensures pre[i] != -pre[j] {
          assert units[i] == pre[i] && units[j] == pre[j];
        }
      }
      UnitPassOkComplete(pre, a);
      UnitPassValues(pre, a);
      var p := UnitPass(pre, a);
      if x in VarsOf(pre) {
        var j :| 0 <= j < |pre| && x == VarOf(pre[j]);
        assert units[j] == pre[j];
        assert pre[j] != -l;
        assert pre[j] == l;
      } else {
        assert p.1[x] == a[x];
      }
    }
  }

  /** The unit pass succeeds exactly when the unit literals are consistent. */
  lemma UnitPassSpec(units: seq<int>, a: seq<Option<bool>>)
    requires LiteralsIn(units, |a|)
    ensures Extends(a, UnitPass(units, a).1)
    ensures UnitPass(units, a).0 <==> Compatible(units, a) && NoComplementary(units)
    ensures UnitPass(units, a).0 ==>
      forall i :: 0 <= i < |units| ==> UnitPass(units, a).1[VarOf(units[i])] == Some(units[i] > 0)
  {
    UnitPassExtends(units, a);
    if UnitPass(units, a).0 {
      UnitPassOkSound(units, a);
      UnitPassValues(units, a);
    } else if Compatible(units, a) && NoComplementary(units) {
      UnitPassOkComplete(units, a);
    }
  }

  /** Once the unit pass has failed on a prefix, processing more units changes nothing. */
  lemma {:induction false} UnitPassFailFrozen(units: seq<int>, k: nat, a: seq<Option<bool>>)
    requires k <= |units| && LiteralsIn(units, |a|)
    requires LiteralsIn(units[..k], |a|)
    requires !UnitPass(units[..k], a).0
    ensures UnitPass(units, a) == UnitPass(units[..k], a)
  {
    if k < |units| {
      var pre := units[..|units| - 1];
      assert pre[..k] == units[..k];
      assert LiteralsIn(pre, |a|);
      UnitPassFailFrozen(pre, k, a);
    } else {
      assert units[..k] == units;
    }
  }

  // ---------------------------------------------------------------------
  // The "pure literal" map

  /** All literals of all clauses, in order. */
  function Flatten(clauses: seq<seq<int>>): seq<int>
  {
    if clauses == [] then [] else Flatten(clauses[..|clauses| - 1]) + clauses[|clauses| - 1]
  }

  lemma {:induction false} FlattenIn(clauses: seq<seq<int>>, n: nat)
    requires WellFormed(clauses, n)
    ensures LiteralsIn(Flatten(clauses), n)
  {
    if clauses != [] {
      assert WellFormed(clauses[..|clauses| - 1], n);
      FlattenIn(clauses[..|clauses| - 1], n);
      assert LiteralsIn(clauses[|clauses| - 1], n);
    }
  }

  /**
   * The map built by the nested loop: each variable (`literal.abs()`) that
   * occurs is mapped to the polarity of its first occurrence.
   */
  function Polarities(lits: seq<int>): map<int, bool>
  {
    if lits == [] then map[]
    else
      var m := Polarities(lits[..|lits| - 1]);
      var l := lits[|lits| - 1];
      if Abs(l) in m then m else m[Abs(l) := l > 0]
  }

  lemma PolaritiesSnoc(lits: seq<int>, l: int)
    ensures Polarities(lits + [l]) ==
      (var m := Polarities(lits); if Abs(l) in m then m else m[Abs(l) := l > 0])
  {
    assert (lits + [l])[..|lits|] == lits;
  }

  lemma FlattenPrefix(clauses: seq<seq<int>>, k: nat)
    requires k < |clauses|
    ensures Flatten(clauses[..k + 1]) == Flatten(clauses[..k]) + clauses[k]
  {
    assert clauses[..k + 1][..k] == clauses[..k];
  }

  /** The keys of the map are exactly the variables that occur. */
  lemma {:induction false} PolaritiesKeys(lits: seq<int>)
    ensures Polarities(lits).Keys == set i | 0 <= i < |lits| :: Abs(lits[i])
  {
    if lits != [] {
      var pre := lits[..|lits| - 1];
      PolaritiesKeys(pre);
      var s := set i | 0 <= i < |lits| :: Abs(lits[i]);
      var sp := set i | 0 <= i < |pre| :: Abs(pre[i]);
      assert s == sp + {Abs(lits[|lits| - 1])} by {
        forall v | v in s ensures v in sp + {Abs(lits[|lits| - 1])} {
          var i :| 0 <= i < |lits| && v == Abs(lits[i]);
          if i < |pre| { assert pre[i] == lits[i]; }
        }
        forall v | v in sp ensures v in s {
          var i :| 0 <= i < |pre| && v == Abs(pre[i]);
          assert lits[i] == pre[i];
        }
      }
    }
  }

  /** A variable's entry is the polarity of its first occurrence. */
  lemma {:induction false} PolaritiesFirst(lits: seq<int>, k: nat)
    requires k < |lits|
    requires forall j :: 0 <= j < k ==> Abs(lits[j]) != Abs(lits[k])
    ensures Abs(lits[k]) in Polarities(lits) && Polarities(lits)[Abs(lits[k])] == (lits[k] > 0)
  {
    var pre := lits[..|lits| - 1];
    if k < |lits| - 1 {
      assert pre[k] == lits[k];
      PolaritiesFirst(pre, k);
    } else {
      PolaritiesKeys(pre);
      assert forall i :: 0 <= i < |pre| ==> pre[i] == lits[i];
    }
  }

  lemma PolaritiesRange(lits: seq<int>, n: nat)
    requires LiteralsIn(lits, n)
    ensures forall v :: v in Polarities(lits) ==> 1 <= v <= n
  {
    PolaritiesKeys(lits);
  }

  /**
   * The fill loop over the map: every still-unassigned variable that occurs
   * gets its first-occurrence polarity; assigned variables are untouched.
   */
  function PureFill(pol: map<int, bool>, a: seq<Option<bool>>): (b: seq<Option<bool>>)
    ensures |b| == |a|
  {
    seq(|a|, i requires 0 <= i < |a| => if a[i].None? && i + 1 in pol then Some(pol[i + 1]) else a[i])
  }

  // ---------------------------------------------------------------------
  // Counting unassigned slots (the termination measure of the recursion)

  function NoneCount(a: seq<Option<bool>>): nat
  {
    if a == [] then 0 else (if a[0].None? then 1 else 0) + NoneCount(a[1..])
  }

  lemma {:induction false} NoneCountCovers(a: seq<Option<bool>>, b: seq<Option<bool>>)
    requires Covers(a, b)
    ensures NoneCount(b) <= NoneCount(a)
    ensures (exists i :: 0 <= i < |a| && a[i].None? && b[i].Some?) ==> NoneCount(b) < NoneCount(a)
  {
    if a != [] {
      assert Covers(a[1..], b[1..]) by {
        forall i | 0 <= i < |a[1..]| && a[1..][i].Some? ensures b[1..][i].Some? {
          assert a[1..][i] == a[i + 1] && b[1..][i] == b[i + 1];
        }
      }
      NoneCountCovers(a[1..], b[1..]);
      if exists i :: 0 <= i < |a| && a[i].None? && b[i].Some? {
        var i :| 0 <= i < |a| && a[i].None? && b[i].Some?;
        if i > 0 {
          assert a[1..][i - 1] == a[i] && b[1..][i - 1] == b[i];
        }
      }
    }
  }

  // ---------------------------------------------------------------------
  // The recursion

  /** The position of the first unassigned slot (`position(|x| x.is_none())`). */
  function FirstNone(a: seq<Option<bool>>): (r: Option<nat>)
    ensures r.Some? ==> r.value < |a| && a[r.value].None? && forall i :: 0 <= i < r.value ==> a[i].Some?
    ensures r.None? ==> forall i :: 0 <= i < |a| ==> a[i].Some?
  {
    if a == [] then None
    else if a[0].None? then Some(0)
    else match FirstNone(a[1..])
      case None => None
      case Some(i) => Some(i + 1)
  }

  /**
   * `dpll` as the source writes it, on values: the outcome and the slice it
   * leaves.  Its contract (the slice keeps every assigned value) is what
   * makes the second recursive call terminate.
   */
  function DpllRun(clauses: seq<seq<int>>, a: seq<Option<bool>>): (r: Run)
    requires WellFormed(clauses, |a|)
    ensures Extends(a, r.assignment)
    decreases NoneCount(a)
  {
    if clauses == [] then Run(Sat, a)
    else if HasEmptyClause(clauses) then Run(Unsat, a)
    else
      var units := UnitLiterals(clauses);
      UnitLiteralsIn(clauses, |a|);
      UnitPassSpec(units, a);
      var p := UnitPass(units, a);
      if !p.0 then Run(Unsat, p.1)
      else
        var lits := Flatten(clauses);
        FlattenIn(clauses, |a|);
        PolaritiesRange(lits, |a|);
        var a2 := PureFill(Polarities(lits), p.1);
        match FirstNone(a2)
        case None => Run(Panic, a2)
        case Some(v) =>
          var a3 := a2[v := Some(true)];
          NoneCountCovers(a, a3);
          var t := DpllRun(clauses, a3);
          if t.outcome != Unsat then t
          else
            var a4 := t.assignment[v := Some(false)];
            NoneCountCovers(a3, a4);
            
            var f := DpllRun(clauses, a4);
            if f.outcome != Unsat then f
            else Run(Unsat, f.assignment[v := None])
  }

  /**
   * What `dpll` returns, in closed form: true only for an empty clause list;
   * false for an empty clause or a conflicting unit clause; otherwise it
   * panics, because the clause list is never simplified and branching ends
   * when no unassigned variable is left.
   */
  function ClosedForm(clauses: seq<seq<int>>, a: seq<Option<bool>>): Outcome
    requires WellFormed(clauses, |a|)
  {
    UnitLiteralsIn(clauses, |a|);
    var units := UnitLiterals(clauses);
    if clauses == [] then Sat
    else if HasEmptyClause(clauses) then Unsat
    else if !(Compatible(units, a) && NoComplementary(units)) then Unsat
    else Panic
  }

  /** Unit literals that already hold their values make the unit pass a no-op. */
  lemma {:induction false} UnitPassSettled(units: seq<int>, a: seq<Option<bool>>)
    requires LiteralsIn(units, |a|)
    requires forall i :: 0 <= i < |units| ==> a[VarOf(units[i])] == Some(units[i] > 0)
    ensures UnitPass(units, a) == (true, a)
  {
    if units != [] {
      assert LiteralsIn(units[..|units| - 1], |a|);
      UnitPassSettled(units[..|units| - 1], a);
      var l := units[|units| - 1];
      assert a[VarOf(l) := Some(l > 0)] == a;
    }
  }

  /** The recursion always reaches the closed form. */
  lemma {:induction false} DpllRunClosedForm(clauses: seq<seq<int>>, a: seq<Option<bool>>)
    requires WellFormed(clauses, |a|)
    ensures DpllRun(clauses, a).outcome == ClosedForm(clauses, a)
    decreases NoneCount(a)
  {
    if clauses != [] && !HasEmptyClause(clauses) {
      var units := UnitLiterals(clauses);
      UnitLiteralsIn(clauses, |a|);
      UnitPassSpec(units, a);
      var p := UnitPass(units, a);
      if p.0 {
        var lits := Flatten(clauses);
        FlattenIn(clauses, |a|);
        PolaritiesRange(lits, |a|);
        var a2 := PureFill(Polarities(lits), p.1);
        match FirstNone(a2)
        case None =>
        case Some(v) =>
          var a3 := a2[v := Some(true)];
          assert Extends(p.1, a3);
          NoneCountCovers(a, a3);
          assert forall i :: 0 <= i < |units| ==> a3[VarOf(units[i])] == Some(units[i] > 0);
          UnitPassSettled(units, a3);
          UnitPassSpec(units, a3);
          DpllRunClosedForm(clauses, a3);
      }
    }
  }

  // ---------------------------------------------------------------------
  // The imperative solver

  /** The unit loop, in place; `false` at the first conflicting unit clause. */
  method AssignUnits(clauses: seq<seq<int>>, assignment: array<Option<bool>>) returns (ok: bool)
    requires WellFormed(clauses, assignment.Length)
    modifies assignment
    ensures LiteralsIn(UnitLiterals(clauses), assignment.Length)
    ensures (ok, assignment[..]) == UnitPass(UnitLiterals(clauses), old(assignment[..]))
  {
    ghost var a := assignment[..];
    var units: seq<int> := [];
    for k := 0 to |clauses|
      invariant units == UnitLiterals(clauses[..k])
    {
      assert clauses[..k + 1][..k] == clauses[..k];
      if |clauses[k]| == 1 {
        units := units + [clauses[k][0]];
      }
    }
    assert clauses[..|clauses|] == clauses;
    UnitLiteralsIn(clauses, assignment.Length);
    for k := 0 to |units|
      invariant LiteralsIn(units[..k], |a|)
      invariant UnitPass(units[..k], a) == (true, assignment[..])
    {
      assert units[..k + 1][..k] == units[..k];
      var literal := units[k];
      var v := Abs(literal) - 1;
      var value := literal > 0;
      if assignment[v].Some? && assignment[v] != Some(value) {
        UnitPassFailFrozen(units, k + 1, a);
        return false;
      }
      assignment[v] := Some(value);
    }
    assert units[..|units|] == units;
    ok := true;
  }

  /** The map of first-occurrence polarities, built by the nested loop over the clauses. */
  method FirstPolarities(clauses: seq<seq<int>>) returns (pure: map<int, bool>)
    ensures pure == Polarities(Flatten(clauses))
  {
    pure := map[];
    for k := 0 to |clauses|
      invariant pure == Polarities(Flatten(clauses[..k]))
    {
      var clause := clauses[k];
      ghost var done := Flatten(clauses[..k]);
      assert done + clause[..0] == done;
      for m := 0 to |clause|
        invariant pure == Polarities(done + clause[..m])
      {
        var literal := clause[m];
        assert done + clause[..m + 1] == (done + clause[..m]) + [literal];
        PolaritiesSnoc(done + clause[..m], literal);
        var v := Abs(literal);
        if v !in pure {
          pure := pure[v := literal > 0];
        }
      }
      assert clause[..|clause|] == clause;
      FlattenPrefix(clauses, k);
    }
    assert clauses[..|clauses|] == clauses;
  }

  /** The fill loop over the map, in place. */
  method AssignPolarities(pure: map<int, bool>, assignment: array<Option<bool>>)
    requires forall v :: v in pure ==> 1 <= v <= assignment.Length
    modifies assignment
    ensures assignment[..] == PureFill(pure, old(assignment[..]))
  {
    ghost var a := assignment[..];
    var keys := pure.Keys;
    ghost var filled: set<int> := {};
    while keys != {}
      invariant keys + filled == pure.Keys && keys !! filled
      invariant forall i :: 0 <= i < assignment.Length ==>
        assignment[i] == if a[i].None? && i + 1 in filled then Some(pure[i + 1]) else a[i]
      decreases keys
    {
      var v := Choose(keys);
      filled := filled + {v};
      var index := v - 1;
      if assignment[index].None? {
        assignment[index] := Some(pure[v]);
      }
      keys := keys - {v};
    }
    assert assignment[..] == PureFill(pure, a);
  }

  /** `dpll`, in place on the assignment slice. */
  method Dpll(clauses: seq<seq<int>>, assignment: array<Option<bool>>) returns (r: Outcome)
    requires WellFormed(clauses, assignment.Length)
    modifies assignment
    ensures Run(r, assignment[..]) == DpllRun(clauses, old(assignment[..]))
    decreases NoneCount(assignment[..])
  {
    ghost var a := assignment[..];
    if |clauses| == 0 {
      return Sat;
    }
    if HasEmptyClause(clauses) {
      return Unsat;
    }
    var ok := AssignUnits(clauses, assignment);
    if !ok {
      return Unsat;
    }
    ghost var a1 := assignment[..];
    UnitPassSpec(UnitLiterals(clauses), a);
    var pure := FirstPolarities(clauses);
    FlattenIn(clauses, assignment.Length);
    PolaritiesRange(Flatten(clauses), assignment.Length);
    AssignPolarities(pure, assignment);
    ghost var a2 := assignment[..];
    var first := FirstNone(assignment[..]);
    if first.None? {
      return Panic;
    }
    var v := first.value;
    assignment[v] := Some(true);
    ghost var a3 := assignment[..];
    assert a3 == a2[v := Some(true)];
    NoneCountCovers(a, a3);
    r := Dpll(clauses, assignment);
    if r != Unsat {
      return;
    }
    ghost var t := assignment[..];
    assignment[v] := Some(false);
    ghost var a4 := assignment[..];
    assert a4 == t[v := Some(false)];
    NoneCountCovers(a3, a4);
    
    r := Dpll(clauses, assignment);
    if r != Unsat {
      return;
    }
    ghost var f := assignment[..];
    assignment[v] := None;
    assert assignment[..] == f[v := None];
    r := Unsat;
  }

  /** `solve_challenge`: every slot starts unassigned; a true answer is defaulted to false. */
  method SolveChallenge(numVariables: nat, clauses: seq<seq<int>>) returns (verdict: Verdict)
    requires WellFormed(clauses, numVariables)
    ensures verdict == Panicked <==> DpllRun(clauses, seq(numVariables, _ => None)).outcome == Panic
    ensures verdict.Returned? ==>
      (verdict.solution.Some? <==> DpllRun(clauses, seq(numVariables, _ => None)).outcome == Sat)
    ensures verdict == Returned(Some(seq(numVariables, _ => false))) <==> clauses == []
    ensures verdict == Returned(None) <==>
      clauses != [] && (HasEmptyClause(clauses) || !NoComplementary(UnitLiterals(clauses)))
    ensures verdict == Panicked <==>
      clauses != [] && !HasEmptyClause(clauses) && NoComplementary(UnitLiterals(clauses))
  {
    var assignment := new Option<bool>[numVariables](_ => None);
    ghost var a := assignment[..];
    assert a == seq(numVariables, _ => None);
    var out := Dpll(clauses, assignment);
    DpllRunClosedForm(clauses, a);
    UnitLiteralsIn(clauses, numVariables);
    if out == Sat {
      assert assignment[..] == a;
      var variables := Defaulted(assignment[..]);
      assert variables == seq(numVariables, _ => false);
      verdict := Returned(Some(variables));
    } else if out == Unsat {
      verdict := Returned(None);
    } else {
      verdict := Panicked;
    }
  }

  /**
   * The smallest satisfiable instance, one variable and the clause `[1]`,
   * makes the source panic.
   */
  lemma SatisfiableUnitClausePanics()
    ensures WellFormed([[1]], 1) && Satisfies([[1]], [true])
    ensures DpllRun([[1]], [None]).outcome == Panic
  {
    UnitClauseRun([[1]], [None]);
    assert LiteralTrue(1, [true]);
  }

  /**
   * The run on the unit clause, with the clauses and the assignment as
   * parameters so that the recursion is unfolded through its closed form.
   */
  lemma UnitClauseRun(clauses: seq<seq<int>>, a: seq<Option<bool>>)
    requires clauses == [[1]] && a == [None]
    ensures WellFormed(clauses, |a|) && DpllRun(clauses, a).outcome == Panic
  {
    assert LiteralsIn(clauses[0], 1);
    DpllRunClosedForm(clauses, a);
    assert UnitLiterals(clauses) == [1] by {
      assert clauses[..0] == [];
    }
    assert !HasEmptyClause(clauses);
  }


  // ---------------------------------------------------------------------
  // The corrected solver

  /**
   * `dpll` with the missing case supplied: when no unassigned variable is
   * left, the call answers whether the complete assignment satisfies every
   * clause instead of unwrapping an absent position.  It never panics, and
   * a true answer leaves a satisfying assignment in the slice.
   */
  method DpllFixed(clauses: seq<seq<int>>, assignment: array<Option<bool>>) returns (sat: bool)
    requires WellFormed(clauses, assignment.Length)
    modifies assignment
    ensures Extends(old(assignment[..]), assignment[..])
    ensures sat ==> Satisfies(clauses, Defaulted(assignment[..]))
    decreases NoneCount(assignment[..])
  {
    ghost var a := assignment[..];
    if |clauses| == 0 {
      return true;
    }
    if HasEmptyClause(clauses) {
      return false;
    }
    var ok := AssignUnits(clauses, assignment);
    UnitPassExtends(UnitLiterals(clauses), a);
    if !ok {
      return false;
    }
    var pure := FirstPolarities(clauses);
    FlattenIn(clauses, assignment.Length);
    PolaritiesRange(Flatten(clauses), assignment.Length);
    AssignPolarities(pure, assignment);
    ghost var a2 := assignment[..];
    assert Extends(a, a2);
    var first := FirstNone(assignment[..]);
    if first.None? {
      sat := Satisfies(clauses, Defaulted(assignment[..]));
      return;
    }
    var v := first.value;
    assert a[v].None?;
    assignment[v] := Some(true);
    NoneCountCovers(a, assignment[..]);
    sat := DpllFixed(clauses, assignment);
    if sat {
      return;
    }
    assignment[v] := Some(false);
    NoneCountCovers(a, assignment[..]);
    sat := DpllFixed(clauses, assignment);
    if sat {
      return;
    }
    assignment[v] := None;
    sat := false;
  }

  /** `solve_challenge` over the corrected recursion: every solution it returns is one. */
  method SolveChallengeFixed(numVariables: nat, clauses: seq<seq<int>>)
    returns (solution: Option<seq<bool>>)
    requires WellFormed(clauses, numVariables)
    ensures solution.Some? ==>
      |solution.value| == numVariables && Satisfies(clauses, solution.value)
  {
    var assignment := new Option<bool>[numVariables](_ => None);
    var sat := DpllFixed(clauses, assignment);
    if sat {
      solution := Some(Defaulted(assignment[..]));
    } else {
      solution := None;
    }
  }
}
