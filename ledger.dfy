/**
 * The entities the protocol's algorithm and advance contracts read and
 * write, and the exact arithmetic they use. `PreciseNumber` is an exact
 * number type; it is modelled by `real` (exact rationals here).
 */
module Ledger {
  import opened Common

  /** Identifiers of players, challenges, algorithms and advances. */
  type Id = string

  /** The configuration values the contracts read. Thresholds are exact rationals. */
  datatype Config = Config(
    advanceSubmissionFee: real,
    algorithmSubmissionFee: real,
    voteStartDelay: nat,
    votePeriod: nat,
    pushDelayPeriod: nat,
    algorithmAdoptionThreshold: real,
    advanceAdoptionThreshold: real,
    algorithmMergePointsThreshold: nat,
    advanceMergePointsThreshold: nat,
    blocksPerRound: nat,
    minPercentYesVotes: real)

  /** The `{true: yes, false: no}` tally of an advance's deposit-weighted votes. */
  datatype Tally = Tally(yes: real, no: real)

  /** The state of an advance that is in its voting window. */
  datatype VotingAdvance = VotingAdvance(roundActive: Option<nat>, roundVotesTallied: nat,
                                         votesTally: Tally)

  /** The part of a player's state the update reads: its vote on each advance. */
  datatype PlayerState = PlayerState(votes: map<Id, bool>)

  /** The part of a player's block data the update reads: deposits by rounds still locked. */
  datatype PlayerData = PlayerData(depositByLockedPeriod: seq<real>)

  /** A player's qualifier count on one algorithm, one entry of `num_qualifiers_by_player`. */
  datatype Qualifier = Qualifier(player: Id, count: nat)

  /** A player's proof-of-work block data: its influence and qualifiers per challenge. */
  datatype OpowData = OpowData(influence: real, qualifiersByChallenge: map<Id, nat>)

  /** The details recorded for a submitted advance. */
  datatype AdvanceDetails = AdvanceDetails(name: string, challenge: Id, player: Id, feePaid: real)

  /** The details recorded for a submitted algorithm, with the advance it builds on, if any. */
  datatype AlgorithmDetails =
    AlgorithmDetails(name: string, challenge: Id, player: Id, advance: Option<Id>, feePaid: real)

  /** The adoption and merge points in the block data of an algorithm or of an advance. */
  datatype Standing = Standing(adoption: real, mergePoints: nat)

  /** The elements of a sequence are pairwise distinct (the keys of a Rust hash set). */
  predicate Distinct<T(==)>(s: seq<T>) {
    forall a, b :: 0 <= a < b < |s| ==> s[a] != s[b]
  }

  // ---------------------------------------------------------------------
  // Exact sums and normalisation

  /** The sum of a sequence of exact numbers. */
  function Sum(s: seq<real>): real {
    if s == [] then 0.0 else s[0] + Sum(s[1..])
  }

  lemma {:induction false} SumAppend(a: seq<real>, b: seq<real>)
    ensures Sum(a + b) == Sum(a) + Sum(b)
  {
    if a != [] {
      assert (a + b)[0] == a[0] && (a + b)[1..] == a[1..] + b;
      SumAppend(a[1..], b);
      assert Sum(a + b) == a[0] + Sum(a[1..] + b);
    } else {
      assert a + b == b;
    }
  }

  /** The sum of a sequence is the sum of all but its last element, plus the last. */
  lemma SumSnoc(s: seq<real>)
    requires s != []
    ensures Sum(s) == Sum(s[..|s| - 1]) + s[|s| - 1]
  {
    assert s == s[..|s| - 1] + [s[|s| - 1]];
    SumAppend(s[..|s| - 1], [s[|s| - 1]]);
  }

  lemma {:induction false} SumNonNegative(s: seq<real>)
    requires forall k :: 0 <= k < |s| ==> s[k] >= 0.0
    ensures Sum(s) >= 0.0
  {
    if s != [] {
      SumNonNegative(s[1..]);
    }
  }

  lemma DivAdd(a: real, b: real, t: real)
    requires t != 0.0
    ensures a / t + b / t == (a + b) / t
  {
    var u, v := a / t, b / t;
    assert u * t == a && v * t == b;
    assert (u + v) * t == a + b;
  }

  /** Every element of a sequence scaled down by `t`. */
  function Scale(ws: seq<real>, t: real): (r: seq<real>)
    requires t != 0.0
    ensures |r| == |ws| && forall k :: 0 <= k < |ws| ==> r[k] == ws[k] / t
    ensures Sum(r) == Sum(ws) / t
  {
    if ws == [] then []
    else
      var rest := Scale(ws[1..], t);
      assert ([ws[0] / t] + rest)[1..] == rest;
      DivAdd(ws[0], Sum(ws[1..]), t);
      [ws[0] / t] + rest
  }

  /**
   * `normalise`: the weights divided by their total, so that they sum to one;
   * a vector whose total is zero becomes all zeros.
   */
  function Normalise(ws: seq<real>): (r: seq<real>)
    ensures |r| == |ws|
    ensures Sum(ws) != 0.0 ==> Sum(r) == 1.0
    ensures Sum(ws) != 0.0 ==> forall k :: 0 <= k < |ws| ==> r[k] == ws[k] / Sum(ws)
    ensures Sum(ws) == 0.0 ==> forall k :: 0 <= k < |ws| ==> r[k] == 0.0
  {
    var total := Sum(ws);
    if total == 0.0 then seq(|ws|, k => 0.0)
    else
      assert total / total == 1.0;
      Scale(ws, total)
  }

  lemma {:induction false} ElementBelowSum(ws: seq<real>, k: nat)
    requires forall j :: 0 <= j < |ws| ==> ws[j] >= 0.0
    requires k < |ws|
    ensures ws[k] <= Sum(ws)
  {
    SumNonNegative(ws[1..]);
    if k > 0 {
      ElementBelowSum(ws[1..], k - 1);
    }
  }

  /** Normalising non-negative weights gives shares between zero and one. */
  lemma NormaliseShares(ws: seq<real>)
    requires forall j :: 0 <= j < |ws| ==> ws[j] >= 0.0
    ensures forall k :: 0 <= k < |ws| ==> 0.0 <= Normalise(ws)[k] <= 1.0
  {
    var r := Normalise(ws);
    var t := Sum(ws);
    forall k | 0 <= k < |ws|
      ensures 0.0 <= r[k] <= 1.0
    {
      if t != 0.0 {
        ElementBelowSum(ws, k);
        DivUnit(ws[k], t);
      }
    }
  }

  lemma DivUnit(x: real, t: real)
    requires 0.0 <= x <= t && t > 0.0
    ensures 0.0 <= x / t <= 1.0
  {
    var q := x / t;
    assert q * t == x;
  }
}
