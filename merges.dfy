/**
 * The last steps of the block update: merge points for the algorithms and
 * advances whose adoption clears their threshold, and, at the last block of
 * a round, the merges of the leading algorithm per challenge and of the
 * advances with enough points, and the activation of advances whose vote
 * passed.
 */
module Merges {
  import opened Common
  import opened Ledger

  // ---------------------------------------------------------------------
  // Merge points

  /** An unmerged entity whose adoption meets the threshold earns a merge point. */
  predicate Earns(standing: Standing, roundMerged: Option<nat>, threshold: real) {
    roundMerged.None? && standing.adoption >= threshold
  }

  /** Every entity listed has block data and a state. */
  predicate Tracked(data: map<Id, Standing>, merged: map<Id, Option<nat>>, ids: seq<Id>) {
    forall k :: 0 <= k < |ids| ==> ids[k] in data && ids[k] in merged
  }

  /** The merge-points loop over the active ids, in order. */
  function AddPoints(data: map<Id, Standing>, merged: map<Id, Option<nat>>, ids: seq<Id>,
                     threshold: real): (r: map<Id, Standing>)
    requires Tracked(data, merged, ids)
    ensures r.Keys == data.Keys
  {
    if ids == [] then data
    else
      var n := |ids| - 1;
      var a := ids[n];
      var prev := AddPoints(data, merged, ids[..n], threshold);
      if Earns(prev[a], merged[a], threshold) then
        prev[a := prev[a].(mergePoints := prev[a].mergePoints + 1)]
      else prev
  }

  /**
   * With distinct ids, an entity's merge points rise by exactly one when it
   * is listed, unmerged and adopted at least at the threshold; everything
   * else about every entity is unchanged.
   */
  lemma {:induction false} AddPointsExact(data: map<Id, Standing>, merged: map<Id, Option<nat>>,
                                          ids: seq<Id>, threshold: real, a: Id)
    requires Tracked(data, merged, ids) && Distinct(ids) && a in data
    ensures AddPoints(data, merged, ids, threshold)[a] ==
      if a in ids && Earns(data[a], merged[a], threshold)
      then data[a].(mergePoints := data[a].mergePoints + 1)
      else data[a]
  {
    if ids != [] {
      var n := |ids| - 1;
      assert Distinct(ids[..n]);
      AddPointsExact(data, merged, ids[..n], threshold, a);
      assert a in ids <==> a in ids[..n] || a == ids[n];
      if a == ids[n] {
        assert a !in ids[..n];
      }
    }
  }

  /** Merge points never decrease, and never change for an entity already merged. */
  lemma {:induction false} AddPointsMonotone(data: map<Id, Standing>, merged: map<Id, Option<nat>>,
                                             ids: seq<Id>, threshold: real, a: Id)
    requires Tracked(data, merged, ids) && a in data
    ensures var r := AddPoints(data, merged, ids, threshold);
      r[a].adoption == data[a].adoption && r[a].mergePoints >= data[a].mergePoints &&
      (a in merged && merged[a].Some? ==> r[a] == data[a])
  {
    if ids != [] {
      AddPointsMonotone(data, merged, ids[..|ids| - 1], threshold, a);
    }
  }

  // ---------------------------------------------------------------------
  // Round-boundary merges

  /** Every algorithm of every list has block data. */
  predicate Scored(groups: map<Id, seq<Id>>, data: map<Id, Standing>) {
    forall c :: c in groups ==> groups[c] != [] && forall k :: 0 <= k < |groups[c]| ==> groups[c][k] in data
  }

  /** `max_by_key` on merge points: a maximal element, the last one on ties. */
  function Best(ids: seq<Id>, data: map<Id, Standing>): (b: Id)
    requires ids != [] && forall k :: 0 <= k < |ids| ==> ids[k] in data
    ensures b in ids && b in data
    ensures forall k :: 0 <= k < |ids| ==> data[ids[k]].mergePoints <= data[b].mergePoints
  {
    if |ids| == 1 then ids[0]
    else
      var n := |ids| - 1;
      var b := Best(ids[..n], data);
      assert forall k :: 0 <= k < n ==> ids[..n][k] == ids[k];
      if data[ids[n]].mergePoints >= data[b].mergePoints then ids[n] else b
  }

  /** Every element after the chosen one has strictly fewer merge points. */
  lemma {:induction false} BestIsLast(ids: seq<Id>, data: map<Id, Standing>)
    requires ids != [] && forall k :: 0 <= k < |ids| ==> ids[k] in data
    ensures exists k :: 0 <= k < |ids| && ids[k] == Best(ids, data) &&
                        forall j :: k < j < |ids| ==> data[ids[j]].mergePoints < data[ids[k]].mergePoints
  {
    var n := |ids| - 1;
    var best := Best(ids, data);
    if |ids| == 1 {
      assert ids[0] == best;
    } else {
      var pre := ids[..n];
      var b := Best(pre, data);
      if data[ids[n]].mergePoints >= data[b].mergePoints {
        assert ids[n] == best;
      } else {
        assert best == b;
        BestIsLast(pre, data);
        var k :| 0 <= k < n && pre[k] == b &&
                 forall j :: k < j < n ==> data[pre[j]].mergePoints < data[pre[k]].mergePoints;
        assert ids[k] == best;
        forall j | k < j < |ids|
          ensures data[ids[j]].mergePoints < data[ids[k]].mergePoints
        {
          if j < n {
            assert pre[j] == ids[j];
          }
        }
      }
    }
  }

  /** The algorithms that merge: the leader of each list in `cs`, when it has enough points. */
  function Winners(groups: map<Id, seq<Id>>, cs: set<Id>, data: map<Id, Standing>,
                   threshold: nat): set<Id>
    requires Scored(groups, data)
  {
    set c | c in cs && c in groups && data[Best(groups[c], data)].mergePoints >= threshold ::
      Best(groups[c], data)
  }

  /** Before any list is considered, nobody wins. */
  lemma WinnersNone(groups: map<Id, seq<Id>>, data: map<Id, Standing>, threshold: nat)
    requires Scored(groups, data)
    ensures Winners(groups, {}, data, threshold) == {}
  {
  }

  /** A winner is the leader of one of the lists considered, with enough points. */
  lemma WinnerIsLeader(groups: map<Id, seq<Id>>, cs: set<Id>, data: map<Id, Standing>,
                       threshold: nat, a: Id)
    requires Scored(groups, data)
    ensures a in Winners(groups, cs, data, threshold) <==>
      exists c :: c in cs && c in groups && a == Best(groups[c], data) && data[a].mergePoints >= threshold
  {
  }

  /** Taking one more list into account adds at most its leader to the winners. */
  lemma WinnersStep(groups: map<Id, seq<Id>>, done: set<Id>, c: Id, data: map<Id, Standing>,
                    threshold: nat)
    requires Scored(groups, data) && c in groups
    ensures var b := Best(groups[c], data);
      Winners(groups, done + {c}, data, threshold) ==
        Winners(groups, done, data, threshold) +
        (if data[b].mergePoints >= threshold then {b} else {})
  {
  }

  /** `round_merged` set to the next round for the ids in `w`, the others as they were. */
  function Stamp(merged: map<Id, Option<nat>>, w: set<Id>, round: nat): (r: map<Id, Option<nat>>)
    ensures r.Keys == merged.Keys
  {
    map a | a in merged :: if a in w then Some(round + 1) else merged[a]
  }

  /** Stamping no id changes nothing. */
  lemma StampNone(merged: map<Id, Option<nat>>, round: nat)
    ensures Stamp(merged, {}, round) == merged
  {
  }

  /** Stamping one more id is one more map update. */
  lemma StampOneMore(merged: map<Id, Option<nat>>, w: set<Id>, b: Id, round: nat)
    requires b in merged
    ensures Stamp(merged, w + {b}, round) == Stamp(merged, w, round)[b := Some(round + 1)]
  {
  }

  /** The algorithm merges: `round_merged` becomes the next round for every winner. */
  function PromoteAlgorithms(merged: map<Id, Option<nat>>, groups: map<Id, seq<Id>>,
                             data: map<Id, Standing>, threshold: nat, round: nat)
    : (r: map<Id, Option<nat>>)
    requires Scored(groups, data)
    ensures r.Keys == merged.Keys
  {
    Stamp(merged, Winners(groups, groups.Keys, data, threshold), round)
  }

  /**
   * After the algorithm merges, an algorithm's `round_merged` is the next round
   * when it leads some challenge's list with enough points, and otherwise it
   * keeps its own.
   */
  lemma PromoteAlgorithmsExact(merged: map<Id, Option<nat>>, groups: map<Id, seq<Id>>,
                               data: map<Id, Standing>, threshold: nat, round: nat, a: Id)
    requires Scored(groups, data) && a in merged
    ensures var r := PromoteAlgorithms(merged, groups, data, threshold, round);
      var leads := (exists c :: c in groups && a == Best(groups[c], data) &&
                                data[a].mergePoints >= threshold);
      (leads ==> r[a] == Some(round + 1)) && (!leads ==> r[a] == merged[a])
  {
    WinnerIsLeader(groups, groups.Keys, data, threshold, a);
  }

  /** The leader of every list with enough points is merged from the next round. */
  lemma LeaderPromoted(merged: map<Id, Option<nat>>, groups: map<Id, seq<Id>>,
                       data: map<Id, Standing>, threshold: nat, round: nat, c: Id)
    requires Scored(groups, data) && c in groups
    requires forall k :: 0 <= k < |groups[c]| ==> groups[c][k] in merged
    ensures Best(groups[c], data) in merged
    ensures data[Best(groups[c], data)].mergePoints >= threshold ==>
      PromoteAlgorithms(merged, groups, data, threshold, round)[Best(groups[c], data)] ==
        Some(round + 1)
  {
    var b := Best(groups[c], data);
    var k :| 0 <= k < |groups[c]| && groups[c][k] == b;
    PromoteAlgorithmsExact(merged, groups, data, threshold, round, b);
  }

  /**
   * With lists of algorithms of their own challenge, at most one algorithm
   * per challenge is merged, and it is the one with the most merge points.
   */
  lemma OneWinnerPerChallenge(groups: map<Id, seq<Id>>, data: map<Id, Standing>, threshold: nat,
                              details: map<Id, AlgorithmDetails>, c: Id, a: Id, b: Id)
    requires Scored(groups, data)
    requires forall c :: c in groups ==> forall k :: 0 <= k < |groups[c]| ==>
      groups[c][k] in details && details[groups[c][k]].challenge == c
    requires c in groups && a in groups[c] && b in groups[c]
    requires a in Winners(groups, groups.Keys, data, threshold)
    requires b in Winners(groups, groups.Keys, data, threshold)
    ensures a == b && a == Best(groups[c], data)
  {
    WinnerIsLeader(groups, groups.Keys, data, threshold, a);
    WinnerIsLeader(groups, groups.Keys, data, threshold, b);
    var ca :| ca in groups && a == Best(groups[ca], data) && data[a].mergePoints >= threshold;
    var cb :| cb in groups && b == Best(groups[cb], data) && data[b].mergePoints >= threshold;
    assert details[a].challenge == ca && details[a].challenge == c;
    assert details[b].challenge == cb && details[b].challenge == c;
  }

  /** The advance merges: every active advance with enough points gets the next round. */
  function PromoteAdvances(merged: map<Id, Option<nat>>, ids: seq<Id>, data: map<Id, Standing>,
                           threshold: nat, round: nat): (r: map<Id, Option<nat>>)
    requires forall k :: 0 <= k < |ids| ==> ids[k] in data
    ensures r.Keys == merged.Keys
  {
    map v | v in merged ::
      if v in ids && data[v].mergePoints >= threshold then Some(round + 1) else merged[v]
  }

  /** Merging again at the same boundary changes nothing. */
  lemma PromoteIdempotent(merged: map<Id, Option<nat>>, groups: map<Id, seq<Id>>,
                          ids: seq<Id>, data: map<Id, Standing>,
                          algorithmThreshold: nat, advanceThreshold: nat, round: nat)
    requires Scored(groups, data) && forall k :: 0 <= k < |ids| ==> ids[k] in data
    ensures var once := PromoteAlgorithms(merged, groups, data, algorithmThreshold, round);
      PromoteAlgorithms(once, groups, data, algorithmThreshold, round) == once
    ensures var once := PromoteAdvances(merged, ids, data, advanceThreshold, round);
      PromoteAdvances(once, ids, data, advanceThreshold, round) == once
  {
  }

  /**
   * The advance merge makes no existing-merge check: an advance merged in an
   * earlier round that is still active with enough points is stamped again.
   */
  lemma AdvanceMergeRestamps(merged: map<Id, Option<nat>>, ids: seq<Id>, data: map<Id, Standing>,
                             threshold: nat, round: nat, v: Id)
    requires forall k :: 0 <= k < |ids| ==> ids[k] in data
    requires v in merged && merged[v].Some? && merged[v].value <= round
    requires v in ids && data[v].mergePoints >= threshold
    ensures PromoteAdvances(merged, ids, data, threshold, round)[v] == Some(round + 1)
    ensures PromoteAdvances(merged, ids, data, threshold, round)[v] != merged[v]
  {
  }

  /**
   * After the advance merges, an advance's `round_merged` is the next round
   * exactly when it is active with enough points; every other one keeps its own.
   */
  lemma PromoteAdvancesExact(merged: map<Id, Option<nat>>, ids: seq<Id>, data: map<Id, Standing>,
                             threshold: nat, round: nat, v: Id)
    requires forall k :: 0 <= k < |ids| ==> ids[k] in data
    requires v in merged
    ensures var r := PromoteAdvances(merged, ids, data, threshold, round);
      (v in ids && data[v].mergePoints >= threshold ==> r[v] == Some(round + 1)) &&
      (!(v in ids && data[v].mergePoints >= threshold) ==> r[v] == merged[v])
  {
  }

  // ---------------------------------------------------------------------
  // Activation by vote

  /** The yes-share of a tally: yes over all votes. */
  function YesShare(t: Tally): (r: real)
    requires t.yes + t.no != 0.0
    ensures r * (t.yes + t.no) == t.yes
  {
    t.yes / (t.yes + t.no)
  }

  /** The advance's tally is due next round, has votes, and the yes-share clears the threshold. */
  predicate Passes(v: VotingAdvance, round: nat, minYes: real) {
    v.roundVotesTallied == round + 1 &&
    v.votesTally.yes + v.votesTally.no != 0.0 &&
    YesShare(v.votesTally) >= minYes
  }

  /** The advance activation: every voting advance that passes becomes active next round. */
  function Activate(voting: map<Id, VotingAdvance>, round: nat, minYes: real)
    : (r: map<Id, VotingAdvance>)
    ensures r.Keys == voting.Keys
  {
    map a | a in voting ::
      if Passes(voting[a], round, minYes) then voting[a].(roundActive := Some(round + 1))
      else voting[a]
  }

  /**
   * Activation changes only `round_active`, only of advances whose vote
   * passed, and it is idempotent.
   */
  lemma ActivateChanges(voting: map<Id, VotingAdvance>, round: nat, minYes: real, a: Id)
    requires a in voting
    ensures var r := Activate(voting, round, minYes);
      r[a].roundVotesTallied == voting[a].roundVotesTallied &&
      r[a].votesTally == voting[a].votesTally &&
      (r[a] != voting[a] ==> Passes(voting[a], round, minYes)) &&
      Activate(r, round, minYes) == r
  {
  }

  /**
   * An advance whose vote passes gets `round_active` set to the next round;
   * every other one is left exactly as it was.
   */
  lemma ActivateExact(voting: map<Id, VotingAdvance>, round: nat, minYes: real, a: Id)
    requires a in voting
    ensures var r := Activate(voting, round, minYes);
      (Passes(voting[a], round, minYes) ==>
        r[a] == voting[a].(roundActive := Some(round + 1))) &&
      (!Passes(voting[a], round, minYes) ==> r[a] == voting[a])
  {
  }

  /** An advance nobody voted on, or whose tally is not due next round, is never activated. */
  lemma NoVotesNoActivation(voting: map<Id, VotingAdvance>, round: nat, minYes: real, a: Id)
    requires a in voting
    requires voting[a].votesTally == Tally(0.0, 0.0) || voting[a].roundVotesTallied != round + 1
    ensures Activate(voting, round, minYes)[a] == voting[a]
  {
  }

  /**
   * Without negative votes, an advance passes exactly when its tally is due
   * next round, has votes, and the yes votes are at least `minYes` of all votes.
   */
  lemma PassesIff(v: VotingAdvance, round: nat, minYes: real)
    requires v.votesTally.yes >= 0.0 && v.votesTally.no >= 0.0
    ensures Passes(v, round, minYes) <==>
      v.roundVotesTallied == round + 1 &&
      v.votesTally.yes + v.votesTally.no != 0.0 &&
      v.votesTally.yes >= minYes * (v.votesTally.yes + v.votesTally.no)
  {
    var y, n := v.votesTally.yes, v.votesTally.no;
    if y + n != 0.0 {
      var share := YesShare(v.votesTally);
      assert (share - minYes) * (y + n) == y - minYes * (y + n);
      assert y + n > 0.0;
      if share >= minYes {
        assert (share - minYes) * (y + n) >= 0.0;
      } else {
        assert (minYes - share) * (y + n) > 0.0;
      }
    }
  }
}
