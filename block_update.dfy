/**
 * The per-block update of the algorithm and advance contracts: the block
 * cache, the update as a function of the cache (`UpdateSpec`), the loops
 * that compute each step, and the cache object whose `Update` method
 * rewrites its fields in place and is proved to agree with `UpdateSpec`.
 */
module BlockUpdate {
  import opened Common
  import opened Ledger
  import opened VoteTally
  import opened Adoption
  import opened Merges

  /** The part of the block cache the update only reads. */
  datatype Inputs = Inputs(
    config: Config,
    round: nat,
    height: nat,
    activeAlgorithms: seq<Id>,                 // active ids, in hash-set iteration order
    activeAdvances: seq<Id>,
    activeChallenges: seq<Id>,
    activePlayers: seq<Id>,
    algorithmDetails: map<Id, AlgorithmDetails>,
    qualifiers: map<Id, seq<Qualifier>>,       // `num_qualifiers_by_player` of each algorithm
    opow: map<Id, OpowData>,
    playerStates: map<Id, PlayerState>,
    playerData: map<Id, PlayerData>)

  /** The part of the block cache the update writes. */
  datatype CacheState = CacheState(
    votingAdvances: map<Id, VotingAdvance>,
    algorithmData: map<Id, Standing>,
    advanceData: map<Id, Standing>,
    algorithmRoundMerged: map<Id, Option<nat>>, // `round_merged` of the active algorithms' states
    advanceRoundMerged: map<Id, Option<nat>>)   // `round_merged` of the active advances' states

  /** An active algorithm has qualifier data, apportionable when its challenge is active. */
  predicate Qualified(inp: Inputs, a: Id)
    requires a in inp.algorithmDetails
  {
    var c := inp.algorithmDetails[a].challenge;
    a in inp.qualifiers && (c in inp.activeChallenges ==> Apportionable(inp.qualifiers[a], inp.opow, c))
  }

  /**
   * What the update's lookups need to find: a round length to divide by,
   * and the state and block data of every active entity. The active ids
   * come from hash sets, so they are distinct.
   */
  predicate Consistent(inp: Inputs, st: CacheState) {
    inp.config.blocksPerRound > 0 &&
    Distinct(inp.activeAlgorithms) && Distinct(inp.activeAdvances) &&
    Distinct(inp.activeChallenges) &&
    Known(inp.activePlayers, inp.playerStates, inp.playerData) &&
    Described(inp.activeAlgorithms, inp.algorithmDetails) &&
    Tracked(st.algorithmData, st.algorithmRoundMerged, inp.activeAlgorithms) &&
    Tracked(st.advanceData, st.advanceRoundMerged, inp.activeAdvances) &&
    forall k :: 0 <= k < |inp.activeAlgorithms| ==> Qualified(inp, inp.activeAlgorithms[k])
  }

  /** The block is the last of its round. */
  predicate LastBlockOfRound(inp: Inputs)
    requires inp.config.blocksPerRound > 0
  {
    (inp.height + 1) % inp.config.blocksPerRound == 0
  }

  lemma ConsistentReady(inp: Inputs, st: CacheState)
    requires Consistent(inp, st)
    ensures var groups := Group(inp.activeAlgorithms, inp.algorithmDetails);
      Grouped(groups, inp.algorithmDetails) &&
      Ready(Adoptions(st.algorithmData, st.advanceData), inp.activeChallenges, groups,
            inp.qualifiers, inp.opow, inp.algorithmDetails) &&
      Scored(groups, st.algorithmData)
  {
    var groups := Group(inp.activeAlgorithms, inp.algorithmDetails);
    GroupGrouped(inp.activeAlgorithms, inp.algorithmDetails);
    forall c | c in groups
      ensures forall k :: 0 <= k < |groups[c]| ==>
        groups[c][k] in st.algorithmData && groups[c][k] in inp.qualifiers &&
        (c in inp.activeChallenges ==> Apportionable(inp.qualifiers[groups[c][k]], inp.opow, c))
    {
      GroupIsOfChallenge(inp.activeAlgorithms, inp.algorithmDetails, c);
      forall k | 0 <= k < |groups[c]|
        ensures groups[c][k] in st.algorithmData && groups[c][k] in inp.qualifiers
        ensures c in inp.activeChallenges ==> Apportionable(inp.qualifiers[groups[c][k]], inp.opow, c)
      {
        var x := groups[c][k];
        assert x in OfChallenge(inp.activeAlgorithms, inp.algorithmDetails, c);
        var j :| 0 <= j < |inp.activeAlgorithms| && inp.activeAlgorithms[j] == x;
        assert Qualified(inp, inp.activeAlgorithms[j]);
      }
    }
  }

  /** What the merges look up: every listed algorithm has block data and a state. */
  lemma ConsistentMerges(inp: Inputs, st: CacheState)
    requires Consistent(inp, st)
    ensures var groups := Group(inp.activeAlgorithms, inp.algorithmDetails);
      Scored(groups, st.algorithmData) &&
      forall c :: c in groups ==> forall k :: 0 <= k < |groups[c]| ==>
        groups[c][k] in st.algorithmRoundMerged
  {
    var groups := Group(inp.activeAlgorithms, inp.algorithmDetails);
    ConsistentReady(inp, st);
    forall c | c in groups
      ensures forall k :: 0 <= k < |groups[c]| ==> groups[c][k] in st.algorithmRoundMerged
    {
      GroupIsOfChallenge(inp.activeAlgorithms, inp.algorithmDetails, c);
      forall k | 0 <= k < |groups[c]|
        ensures groups[c][k] in st.algorithmRoundMerged
      {
        assert groups[c][k] in OfChallenge(inp.activeAlgorithms, inp.algorithmDetails, c);
      }
    }
  }

  /** The adoption step on the cache's block data. */
  function Adopted(inp: Inputs, st: CacheState): (r: Adoptions)
    requires Consistent(inp, st)
    ensures r.algorithms.Keys == st.algorithmData.Keys && r.advances.Keys == st.advanceData.Keys
  {
    ConsistentReady(inp, st);
    AdoptChallenges(Adoptions(st.algorithmData, st.advanceData), inp.activeChallenges,
                    Group(inp.activeAlgorithms, inp.algorithmDetails), inp.qualifiers, inp.opow,
                    inp.algorithmDetails)
  }

  /**
   * The steps of every block: the vote tally, the adoptions and the merge
   * points. They keep the cache consistent and merge nothing.
   */
  function Accrued(inp: Inputs, st: CacheState): (r: CacheState)
    requires Consistent(inp, st)
    ensures Consistent(inp, r)
    ensures r.algorithmRoundMerged == st.algorithmRoundMerged
    ensures r.advanceRoundMerged == st.advanceRoundMerged
  {
    var adopted := Adopted(inp, st);
    CacheState(
      Tallied(st.votingAdvances, inp.activePlayers, inp.playerStates, inp.playerData, inp.round),
      AddPoints(adopted.algorithms, st.algorithmRoundMerged, inp.activeAlgorithms,
                inp.config.algorithmAdoptionThreshold),
      AddPoints(adopted.advances, st.advanceRoundMerged, inp.activeAdvances,
                inp.config.advanceAdoptionThreshold),
      st.algorithmRoundMerged,
      st.advanceRoundMerged)
  }

  /** The steps of a round's last block: the merges and the activations; block data stays. */
  function Closed(inp: Inputs, st: CacheState): (r: CacheState)
    requires Consistent(inp, st)
    ensures r.algorithmData == st.algorithmData && r.advanceData == st.advanceData
  {
    ConsistentMerges(inp, st);
    CacheState(
      Activate(st.votingAdvances, inp.round, inp.config.minPercentYesVotes),
      st.algorithmData,
      st.advanceData,
      PromoteAlgorithms(st.algorithmRoundMerged, Group(inp.activeAlgorithms, inp.algorithmDetails),
                        st.algorithmData, inp.config.algorithmMergePointsThreshold, inp.round),
      PromoteAdvances(st.advanceRoundMerged, inp.activeAdvances, st.advanceData,
                      inp.config.advanceMergePointsThreshold, inp.round))
  }

  /** The update pass, step by step in the order the code takes them. */
  function UpdateSpec(inp: Inputs, st: CacheState): CacheState
    requires Consistent(inp, st)
  {
    var p := Accrued(inp, st);
    if LastBlockOfRound(inp) then Closed(inp, p) else p
  }

  /** The update writes the block data the every-block steps compute. */
  lemma UpdateData(inp: Inputs, st: CacheState)
    requires Consistent(inp, st)
    ensures UpdateSpec(inp, st).algorithmData == Accrued(inp, st).algorithmData
    ensures UpdateSpec(inp, st).advanceData == Accrued(inp, st).advanceData
  {
  }

  // ---------------------------------------------------------------------
  // What one update does

  /**
   * Off the last block of a round, no algorithm or advance merges and no
   * advance is activated.
   */
  lemma OffBoundaryKeepsRounds(inp: Inputs, st: CacheState)
    requires Consistent(inp, st) && !LastBlockOfRound(inp)
    ensures var r := UpdateSpec(inp, st);
      r.algorithmRoundMerged == st.algorithmRoundMerged &&
      r.advanceRoundMerged == st.advanceRoundMerged &&
      r.votingAdvances.Keys == st.votingAdvances.Keys &&
      forall a :: a in st.votingAdvances ==>
        r.votingAdvances[a].roundActive == st.votingAdvances[a].roundActive
  {
    var r := UpdateSpec(inp, st);
    assert r == Accrued(inp, st);
    forall a | a in st.votingAdvances
      ensures r.votingAdvances[a].roundActive == st.votingAdvances[a].roundActive
    {
      TalliedIsReceived(st.votingAdvances, inp.activePlayers, inp.playerStates, inp.playerData,
                        inp.round, a);
    }
  }

  /**
   * After the update, each voting advance's tally holds exactly the
   * deposit-weighted yes and no votes of the active players.
   */
  lemma UpdateTallies(inp: Inputs, st: CacheState, a: Id)
    requires Consistent(inp, st) && a in st.votingAdvances
    ensures var t := st.votingAdvances[a].roundVotesTallied;
      UpdateSpec(inp, st).votingAdvances[a].votesTally ==
        Tally(Received(a, true, t, inp.activePlayers, inp.playerStates, inp.playerData, inp.round),
              Received(a, false, t, inp.activePlayers, inp.playerStates, inp.playerData, inp.round))
  {
    var p := Accrued(inp, st);
    TalliedIsReceived(st.votingAdvances, inp.activePlayers, inp.playerStates, inp.playerData,
                      inp.round, a);
    if LastBlockOfRound(inp) {
      ActivateChanges(p.votingAdvances, inp.round, inp.config.minPercentYesVotes, a);
      assert UpdateSpec(inp, st).votingAdvances ==
        Activate(p.votingAdvances, inp.round, inp.config.minPercentYesVotes);
    } else {
      assert UpdateSpec(inp, st) == p;
    }
  }

  /** The adoptions the update gives the active algorithms of challenge `c`, in list order. */
  function AdoptionsOf(inp: Inputs, st: CacheState, c: Id): (r: seq<real>)
    requires Consistent(inp, st)
    requires c in Group(inp.activeAlgorithms, inp.algorithmDetails)
    ensures |r| == |Group(inp.activeAlgorithms, inp.algorithmDetails)[c]|
  {
    var ids := Group(inp.activeAlgorithms, inp.algorithmDetails)[c];
    var data := UpdateSpec(inp, st).algorithmData;
    ConsistentReady(inp, st);
    UpdateData(inp, st);
    assert forall k :: 0 <= k < |ids| ==> ids[k] in data;
    seq(|ids|, k requires 0 <= k < |ids| => data[ids[k]].adoption)
  }

  /** The algorithms of an active challenge qualify on it. */
  lemma ActiveWeighable(inp: Inputs, st: CacheState, c: Id)
    requires Consistent(inp, st)
    requires c in inp.activeChallenges && c in Group(inp.activeAlgorithms, inp.algorithmDetails)
    ensures Weighable(Group(inp.activeAlgorithms, inp.algorithmDetails)[c], inp.qualifiers, inp.opow, c)
  {
    ConsistentReady(inp, st);
    var i :| 0 <= i < |inp.activeChallenges| && inp.activeChallenges[i] == c;
  }

  /** The update gives the `k`-th algorithm of an active challenge's list its normalised weight. */
  lemma AdoptionAt(inp: Inputs, st: CacheState, c: Id, k: nat)
    requires Consistent(inp, st)
    requires c in inp.activeChallenges && c in Group(inp.activeAlgorithms, inp.algorithmDetails)
    requires k < |Group(inp.activeAlgorithms, inp.algorithmDetails)[c]|
    ensures var ids := Group(inp.activeAlgorithms, inp.algorithmDetails)[c];
      Weighable(ids, inp.qualifiers, inp.opow, c) &&
      AdoptionsOf(inp, st, c)[k] == ChallengeAdoption(ids, inp.qualifiers, inp.opow, c)[k]
  {
    var groups := Group(inp.activeAlgorithms, inp.algorithmDetails);
    var a := groups[c][k];
    ConsistentReady(inp, st);
    ActiveWeighable(inp, st, c);
    var adopted := Adopted(inp, st);
    UpdateData(inp, st);
    assert inp.algorithmDetails[a].challenge == c;
    AlgorithmAdoption(Adoptions(st.algorithmData, st.advanceData), inp.activeChallenges, groups,
                      inp.qualifiers, inp.opow, inp.algorithmDetails, a);
    AddPointsMonotone(adopted.algorithms, st.algorithmRoundMerged, inp.activeAlgorithms,
                      inp.config.algorithmAdoptionThreshold, a);
  }

  /**
   * For an active challenge with active algorithms, the update sets their
   * adoptions to the normalised weights; with non-negative influences these
   * are shares in [0, 1] that sum to one unless every weight is zero.
   */
  lemma UpdateAdoptions(inp: Inputs, st: CacheState, c: Id)
    requires Consistent(inp, st) && InfluenceNonNegative(inp.opow)
    requires c in inp.activeChallenges && c in Group(inp.activeAlgorithms, inp.algorithmDetails)
    ensures var ids := Group(inp.activeAlgorithms, inp.algorithmDetails)[c];
      Weighable(ids, inp.qualifiers, inp.opow, c) &&
      AdoptionsOf(inp, st, c) == ChallengeAdoption(ids, inp.qualifiers, inp.opow, c) &&
      (Sum(AdoptionsOf(inp, st, c)) == 1.0 ||
       forall k :: 0 <= k < |ids| ==> AdoptionsOf(inp, st, c)[k] == 0.0) &&
      forall k :: 0 <= k < |ids| ==> 0.0 <= AdoptionsOf(inp, st, c)[k] <= 1.0
  {
    var ids := Group(inp.activeAlgorithms, inp.algorithmDetails)[c];
    ActiveWeighable(inp, st, c);
    var shares := ChallengeAdoption(ids, inp.qualifiers, inp.opow, c);
    var got := AdoptionsOf(inp, st, c);
    forall k | 0 <= k < |ids|
      ensures got[k] == shares[k]
    {
      AdoptionAt(inp, st, c, k);
    }
    assert got == shares;
    AdoptionShares(ids, inp.qualifiers, inp.opow, c);
  }

  /**
   * An active algorithm earns exactly one merge point when it is unmerged and
   * its new adoption clears the threshold, and none otherwise; the same holds
   * for the active advances.
   */
  lemma UpdateMergePoints(inp: Inputs, st: CacheState)
    requires Consistent(inp, st)
    ensures var r := UpdateSpec(inp, st);
      (forall k :: 0 <= k < |inp.activeAlgorithms| ==>
        var a := inp.activeAlgorithms[k];
        r.algorithmData[a].mergePoints == st.algorithmData[a].mergePoints +
          if Earns(r.algorithmData[a], st.algorithmRoundMerged[a],
                   inp.config.algorithmAdoptionThreshold) then 1 else 0) &&
      (forall k :: 0 <= k < |inp.activeAdvances| ==>
        var v := inp.activeAdvances[k];
        r.advanceData[v].mergePoints == st.advanceData[v].mergePoints +
          if Earns(r.advanceData[v], st.advanceRoundMerged[v],
                   inp.config.advanceAdoptionThreshold) then 1 else 0)
  {
    var groups := Group(inp.activeAlgorithms, inp.algorithmDetails);
    ConsistentReady(inp, st);
    var st0 := Adoptions(st.algorithmData, st.advanceData);
    var adopted := Adopted(inp, st);
    UpdateData(inp, st);
    forall k | 0 <= k < |inp.activeAlgorithms|
      ensures adopted.algorithms[inp.activeAlgorithms[k]].mergePoints ==
        st.algorithmData[inp.activeAlgorithms[k]].mergePoints
    {
      AlgorithmAdoption(st0, inp.activeChallenges, groups, inp.qualifiers, inp.opow,
                        inp.algorithmDetails, inp.activeAlgorithms[k]);
    }
    forall k | 0 <= k < |inp.activeAdvances|
      ensures adopted.advances[inp.activeAdvances[k]].mergePoints ==
        st.advanceData[inp.activeAdvances[k]].mergePoints
    {
      AdvanceGains(st0, inp.activeChallenges, groups, inp.qualifiers, inp.opow,
                   inp.algorithmDetails, inp.activeAdvances[k]);
    }
    forall k | 0 <= k < |inp.activeAlgorithms|
    {
      AddPointsExact(adopted.algorithms, st.algorithmRoundMerged, inp.activeAlgorithms,
                     inp.config.algorithmAdoptionThreshold, inp.activeAlgorithms[k]);
    }
    forall k | 0 <= k < |inp.activeAdvances|
    {
      AddPointsExact(adopted.advances, st.advanceRoundMerged, inp.activeAdvances,
                     inp.config.advanceAdoptionThreshold, inp.activeAdvances[k]);
    }
  }

  /**
   * At the end of a round, an algorithm whose `round_merged` changes leads its
   * challenge's list in merge points and has at least the threshold; it is
   * then merged from the next round.
   */
  lemma CloseMergesLeaders(inp: Inputs, st: CacheState, a: Id)
    requires Consistent(inp, st) && a in st.algorithmRoundMerged
    requires Closed(inp, st).algorithmRoundMerged[a] != st.algorithmRoundMerged[a]
    ensures a in inp.algorithmDetails && a in st.algorithmData
    ensures var c := inp.algorithmDetails[a].challenge;
      var groups := Group(inp.activeAlgorithms, inp.algorithmDetails);
      c in groups &&
      Closed(inp, st).algorithmRoundMerged[a] == Some(inp.round + 1) &&
      st.algorithmData[a].mergePoints >= inp.config.algorithmMergePointsThreshold &&
      forall k :: 0 <= k < |groups[c]| ==>
        groups[c][k] in st.algorithmData &&
        st.algorithmData[groups[c][k]].mergePoints <= st.algorithmData[a].mergePoints
  {
    var groups := Group(inp.activeAlgorithms, inp.algorithmDetails);
    var data := st.algorithmData;
    var thr := inp.config.algorithmMergePointsThreshold;
    ConsistentReady(inp, st);
    var w := Winners(groups, groups.Keys, data, thr);
    assert Closed(inp, st).algorithmRoundMerged == Stamp(st.algorithmRoundMerged, w, inp.round);
    assert a in w;
    WinnerIsLeader(groups, groups.Keys, data, thr, a);
    var c :| c in groups && a == Best(groups[c], data) && data[a].mergePoints >= thr;
    assert a in groups[c];
    assert inp.algorithmDetails[a].challenge == c;
  }

  /**
   * Conversely, at the end of a round the leader of every challenge's list
   * with at least the threshold of merge points is merged from the next round.
   */
  lemma CloseMergesWinners(inp: Inputs, st: CacheState, c: Id)
    requires Consistent(inp, st)
    requires c in Group(inp.activeAlgorithms, inp.algorithmDetails)
    ensures var groups := Group(inp.activeAlgorithms, inp.algorithmDetails);
      Scored(groups, st.algorithmData) &&
      var b := Best(groups[c], st.algorithmData);
      b in st.algorithmRoundMerged &&
      (st.algorithmData[b].mergePoints >= inp.config.algorithmMergePointsThreshold ==>
        Closed(inp, st).algorithmRoundMerged[b] == Some(inp.round + 1))
  {
    var groups := Group(inp.activeAlgorithms, inp.algorithmDetails);
    var data, thr := st.algorithmData, inp.config.algorithmMergePointsThreshold;
    ConsistentMerges(inp, st);
    LeaderPromoted(st.algorithmRoundMerged, groups, data, thr, inp.round, c);
    assert Closed(inp, st).algorithmRoundMerged ==
      PromoteAlgorithms(st.algorithmRoundMerged, groups, data, thr, inp.round);
  }

  /**
   * On the last block of a round, the leader of every challenge's list whose
   * merge points after this block's accrual reach the threshold is merged
   * from the next round.
   */
  lemma BoundaryMergesLeader(inp: Inputs, st: CacheState, c: Id)
    requires Consistent(inp, st) && LastBlockOfRound(inp)
    requires c in Group(inp.activeAlgorithms, inp.algorithmDetails)
    ensures var groups := Group(inp.activeAlgorithms, inp.algorithmDetails);
      var r := UpdateSpec(inp, st);
      Scored(groups, r.algorithmData) &&
      var b := Best(groups[c], r.algorithmData);
      b in st.algorithmRoundMerged &&
      (r.algorithmData[b].mergePoints >= inp.config.algorithmMergePointsThreshold ==>
        r.algorithmRoundMerged[b] == Some(inp.round + 1))
  {
    var p := Accrued(inp, st);
    CloseMergesWinners(inp, p, c);
    assert UpdateSpec(inp, st) == Closed(inp, p);
  }

  /**
   * On the last block of a round, an advance's `round_merged` becomes the
   * next round exactly when it is active and its merge points after this
   * block's accrual reach the threshold; otherwise it stays.
   */
  lemma BoundaryMergesAdvances(inp: Inputs, st: CacheState, v: Id)
    requires Consistent(inp, st) && LastBlockOfRound(inp) && v in st.advanceRoundMerged
    ensures var r := UpdateSpec(inp, st);
      var merges := v in inp.activeAdvances && v in r.advanceData &&
        r.advanceData[v].mergePoints >= inp.config.advanceMergePointsThreshold;
      r.advanceRoundMerged[v] == if merges then Some(inp.round + 1) else st.advanceRoundMerged[v]
  {
    var p := Accrued(inp, st);
    PromoteAdvancesExact(p.advanceRoundMerged, inp.activeAdvances, p.advanceData,
                         inp.config.advanceMergePointsThreshold, inp.round, v);
    assert UpdateSpec(inp, st) == Closed(inp, p);
  }

  /**
   * On the last block of a round, an advance becomes active from the next
   * round exactly when its tally is due next round, it received votes, and
   * the yes-share of the deposit-weighted votes reaches the threshold.
   * Otherwise its `round_active` stays.
   */
  lemma BoundaryActivates(inp: Inputs, st: CacheState, a: Id)
    requires Consistent(inp, st) && LastBlockOfRound(inp) && a in st.votingAdvances
    ensures var t := st.votingAdvances[a].roundVotesTallied;
      var y := Received(a, true, t, inp.activePlayers, inp.playerStates, inp.playerData, inp.round);
      var n := Received(a, false, t, inp.activePlayers, inp.playerStates, inp.playerData, inp.round);
      var passes := t == inp.round + 1 && y + n != 0.0 &&
        y / (y + n) >= inp.config.minPercentYesVotes;
      UpdateSpec(inp, st).votingAdvances[a].roundActive ==
        if passes then Some(inp.round + 1) else st.votingAdvances[a].roundActive
  {
    ActivateTallied(st.votingAdvances, inp.activePlayers, inp.playerStates, inp.playerData,
                    inp.round, inp.config.minPercentYesVotes, a);
    assert UpdateSpec(inp, st).votingAdvances ==
      Activate(Accrued(inp, st).votingAdvances, inp.round, inp.config.minPercentYesVotes);
  }

  /** The activation of a freshly tallied advance, in terms of the votes it received. */
  lemma ActivateTallied(voting: map<Id, VotingAdvance>, players: seq<Id>,
                        states: map<Id, PlayerState>, datas: map<Id, PlayerData>, round: nat,
                        minYes: real, a: Id)
    requires Known(players, states, datas) && a in voting
    ensures var t := voting[a].roundVotesTallied;
      var y := Received(a, true, t, players, states, datas, round);
      var n := Received(a, false, t, players, states, datas, round);
      var passes := t == round + 1 && y + n != 0.0 && y / (y + n) >= minYes;
      Activate(Tallied(voting, players, states, datas, round), round, minYes)[a].roundActive ==
        if passes then Some(round + 1) else voting[a].roundActive
  {
    var tallied := Tallied(voting, players, states, datas, round);
    TalliedIsReceived(voting, players, states, datas, round, a);
    ActivateExact(tallied, round, minYes, a);
  }

  // ---------------------------------------------------------------------
  // The loops of the update

  /** Every voting advance's tally set to zero, advance by advance. */
  method ResetTallies(voting: map<Id, VotingAdvance>) returns (r: map<Id, VotingAdvance>)
    ensures r == Reset(voting)
  {
    r := voting;
    var todo := voting.Keys;
    while todo != {}
      invariant todo <= voting.Keys && r.Keys == voting.Keys
      invariant forall a :: a in voting ==>
        r[a] == if a in todo then voting[a] else voting[a].(votesTally := Tally(0.0, 0.0))
      decreases |todo|
    {
      var a := Choose(todo);
      r := r[a := r[a].(votesTally := Tally(0.0, 0.0))];
      todo := todo - {a};
    }
  }

  /** One player's votes added, vote by vote, to the advances in their voting window. */
  method CastPlayerVotes(voting: map<Id, VotingAdvance>, votes: map<Id, bool>,
                         deposits: seq<real>, round: nat)
    returns (r: map<Id, VotingAdvance>)
    ensures r == CastVotes(voting, votes, deposits, round)
  {
    r := voting;
    var todo := votes.Keys;
    assert votes.Keys - todo == {};
    CastNone(voting, votes, deposits, round);
    while todo != {}
      invariant todo <= votes.Keys
      invariant r == CastVotes(voting, Restrict(votes, votes.Keys - todo), deposits, round)
      decreases |todo|
    {
      var a := Choose(todo);
      CastOneMore(voting, votes, deposits, round, votes.Keys - todo, a);
      if a in r {
        var weight := VoteWeight(deposits, r[a].roundVotesTallied, round);
        r := r[a := r[a].(votesTally := Credit(r[a].votesTally, votes[a], weight))];
      }
      assert (votes.Keys - todo) + {a} == votes.Keys - (todo - {a});
      todo := todo - {a};
    }
    assert votes.Keys - todo == votes.Keys;
    RestrictAll(votes);
  }

  /** The vote step: reset, then each active player's votes. */
  method TallyVotes(voting: map<Id, VotingAdvance>, players: seq<Id>,
                    states: map<Id, PlayerState>, datas: map<Id, PlayerData>, round: nat)
    returns (r: map<Id, VotingAdvance>)
    requires Known(players, states, datas)
    ensures r == Tallied(voting, players, states, datas, round)
  {
    r := ResetTallies(voting);
    for i := 0 to |players|
      invariant Known(players[..i], states, datas)
      invariant r == CastAll(Reset(voting), players[..i], states, datas, round)
    {
      CastAllSnoc(Reset(voting), players, states, datas, round, i);
      var p := players[i];
      r := CastPlayerVotes(r, states[p].votes, datas[p].depositByLockedPeriod, round);
    }
    assert players[..|players|] == players;
  }

  /** `algorithms_by_challenge`, built by one pass over the active algorithms. */
  method GroupByChallenge(algs: seq<Id>, details: map<Id, AlgorithmDetails>)
    returns (groups: map<Id, seq<Id>>)
    requires Described(algs, details)
    ensures groups == Group(algs, details)
  {
    groups := map[];
    for i := 0 to |algs|
      invariant groups == Group(algs[..i], details)
    {
      assert algs[..i + 1][..i] == algs[..i];
      var a := algs[i];
      var c := details[a].challenge;
      var list := if c in groups then groups[c] else [];
      groups := groups[c := list + [a]];
    }
    assert algs[..|algs|] == algs;
  }

  /** One algorithm's weight, summed over the players who qualified with it. */
  method ComputeWeight(qs: seq<Qualifier>, opow: map<Id, OpowData>, c: Id) returns (w: real)
    requires Apportionable(qs, opow, c)
    ensures w == AlgorithmWeight(qs, opow, c)
  {
    w := 0.0;
    for k := 0 to |qs|
      invariant w == AlgorithmWeight(qs[..k], opow, c)
    {
      assert qs[..k + 1][..k] == qs[..k];
      var q := qs[k];
      var data := opow[q.player];
      w := w + data.influence * (q.count as real) / (data.qualifiersByChallenge[c] as real);
    }
    assert qs[..|qs|] == qs;
  }

  /** The weights of one challenge's algorithms, in list order. */
  method ComputeWeights(ids: seq<Id>, qualifiers: map<Id, seq<Qualifier>>,
                        opow: map<Id, OpowData>, c: Id) returns (ws: seq<real>)
    requires Weighable(ids, qualifiers, opow, c)
    ensures ws == Weights(ids, qualifiers, opow, c)
  {
    ws := [];
    for k := 0 to |ids|
      invariant |ws| == k
      invariant forall j :: 0 <= j < k ==> ws[j] == AlgorithmWeight(qualifiers[ids[j]], opow, c)
    {
      var w := ComputeWeight(qualifiers[ids[k]], opow, c);
      ws := ws + [w];
    }
  }

  /** Each algorithm of the list takes its adoption, which its advance also gains. */
  method WriteAdoptions(st: Adoptions, ids: seq<Id>, shares: seq<real>,
                        details: map<Id, AlgorithmDetails>) returns (r: Adoptions)
    requires |shares| == |ids| && Adoptable(st, ids, details)
    ensures r == AdoptAll(st, ids, shares, details)
  {
    r := st;
    for k := 0 to |ids|
      invariant r == AdoptAll(st, ids[..k], shares[..k], details)
    {
      assert ids[..k + 1][..k] == ids[..k] && shares[..k + 1][..k] == shares[..k];
      var a := ids[k];
      var algorithms := r.algorithms[a := r.algorithms[a].(adoption := shares[k])];
      var advances := r.advances;
      var advance := details[a].advance;
      if advance.Some? && advance.value in advances {
        var v := advance.value;
        advances := advances[v := advances[v].(adoption := advances[v].adoption + shares[k])];
      }
      r := Adoptions(algorithms, advances);
    }
    assert ids[..|ids|] == ids && shares[..|shares|] == shares;
  }

  /** The adoption step, challenge by active challenge; challenges without algorithms are skipped. */
  method AdoptActiveChallenges(st: Adoptions, challenges: seq<Id>, groups: map<Id, seq<Id>>,
                               qualifiers: map<Id, seq<Qualifier>>, opow: map<Id, OpowData>,
                               details: map<Id, AlgorithmDetails>) returns (r: Adoptions)
    requires Ready(st, challenges, groups, qualifiers, opow, details)
    ensures r == AdoptChallenges(st, challenges, groups, qualifiers, opow, details)
  {
    r := st;
    ReadyKeys(st, st, challenges, groups, qualifiers, opow, details, 0);
    for i := 0 to |challenges|
      invariant Ready(st, challenges[..i], groups, qualifiers, opow, details)
      invariant r == AdoptChallenges(st, challenges[..i], groups, qualifiers, opow, details)
    {
      var c := challenges[i];
      ReadyKeys(st, st, challenges, groups, qualifiers, opow, details, i + 1);
      assert challenges[..i + 1][..i] == challenges[..i];
      if c !in groups {
        continue;
      }
      var ids := groups[c];
      var weights := ComputeWeights(ids, qualifiers, opow, c);
      var adoption := Normalise(weights);
      r := WriteAdoptions(r, ids, adoption, details);
    }
    assert challenges[..|challenges|] == challenges;
  }

  /** The merge-points loop over the active ids. */
  method AddMergePoints(data: map<Id, Standing>, merged: map<Id, Option<nat>>, ids: seq<Id>,
                        threshold: real) returns (r: map<Id, Standing>)
    requires Tracked(data, merged, ids)
    ensures r == AddPoints(data, merged, ids, threshold)
  {
    r := data;
    for k := 0 to |ids|
      invariant r == AddPoints(data, merged, ids[..k], threshold)
    {
      assert ids[..k + 1][..k] == ids[..k];
      var a := ids[k];
      var isMerged := merged[a].Some?;
      if !isMerged && r[a].adoption >= threshold {
        r := r[a := r[a].(mergePoints := r[a].mergePoints + 1)];
      }
    }
    assert ids[..|ids|] == ids;
  }

  /** One list of the algorithm merges: its leader merges when it has enough points. */
  method MergeLeader(merged: map<Id, Option<nat>>, groups: map<Id, seq<Id>>,
                     data: map<Id, Standing>, threshold: nat, round: nat, todo: set<Id>,
                     r: map<Id, Option<nat>>) returns (r': map<Id, Option<nat>>, todo': set<Id>)
    requires Scored(groups, data) && todo != {} && todo <= groups.Keys
    requires forall c :: c in groups ==> forall k :: 0 <= k < |groups[c]| ==> groups[c][k] in merged
    requires r == Stamp(merged, Winners(groups, groups.Keys - todo, data, threshold), round)
    ensures todo' < todo
    ensures r' == Stamp(merged, Winners(groups, groups.Keys - todo', data, threshold), round)
  {
    var c := Choose(todo);
    var best := Best(groups[c], data);
    ghost var done := groups.Keys - todo;
    ghost var w := Winners(groups, done, data, threshold);
    WinnersStep(groups, done, c, data, threshold);
    if data[best].mergePoints >= threshold {
      StampOneMore(merged, w, best, round);
      r' := r[best := Some(round + 1)];
    } else {
      r' := r;
    }
    todo' := todo - {c};
    assert groups.Keys - todo' == done + {c};
  }

  /** The algorithm merges, list by list: the leader merges when it has enough points. */
  method MergeAlgorithms(merged: map<Id, Option<nat>>, groups: map<Id, seq<Id>>,
                         data: map<Id, Standing>, threshold: nat, round: nat)
    returns (r: map<Id, Option<nat>>)
    requires Scored(groups, data)
    requires forall c :: c in groups ==> forall k :: 0 <= k < |groups[c]| ==> groups[c][k] in merged
    ensures r == PromoteAlgorithms(merged, groups, data, threshold, round)
  {
    r := merged;
    var todo := groups.Keys;
    assert groups.Keys - todo == {};
    WinnersNone(groups, data, threshold);
    StampNone(merged, round);
    while todo != {}
      invariant todo <= groups.Keys
      invariant r == Stamp(merged, Winners(groups, groups.Keys - todo, data, threshold), round)
      decreases todo
    {
      r, todo := MergeLeader(merged, groups, data, threshold, round, todo, r);
    }
    assert groups.Keys - todo == groups.Keys;
  }

  /** The advance merges, over the active advances. */
  method MergeAdvances(merged: map<Id, Option<nat>>, ids: seq<Id>, data: map<Id, Standing>,
                       threshold: nat, round: nat) returns (r: map<Id, Option<nat>>)
    requires forall k :: 0 <= k < |ids| ==> ids[k] in data && ids[k] in merged
    ensures r == PromoteAdvances(merged, ids, data, threshold, round)
  {
    r := merged;
    for k := 0 to |ids|
      invariant r.Keys == merged.Keys
      invariant forall v :: v in merged ==>
        r[v] == if v in ids[..k] && data[v].mergePoints >= threshold then Some(round + 1)
                else merged[v]
    {
      assert ids[..k + 1] == ids[..k] + [ids[k]];
      var v := ids[k];
      if data[v].mergePoints >= threshold {
        r := r[v := Some(round + 1)];
      }
    }
    assert ids[..|ids|] == ids;
  }

  /** The activation loop over the voting advances. */
  method ActivateAdvances(voting: map<Id, VotingAdvance>, round: nat, minYes: real)
    returns (r: map<Id, VotingAdvance>)
    ensures r == Activate(voting, round, minYes)
  {
    r := voting;
    var todo := voting.Keys;
    while todo != {}
      invariant todo <= voting.Keys && r.Keys == voting.Keys
      invariant forall a :: a in voting ==>
        r[a] == if a !in todo && Passes(voting[a], round, minYes)
                then voting[a].(roundActive := Some(round + 1)) else voting[a]
      decreases |todo|
    {
      var a := Choose(todo);
      var advance := r[a];
      if advance.roundVotesTallied == round + 1 {
        var yes := advance.votesTally.yes;
        var no := advance.votesTally.no;
        var total := yes + no;
        if total != 0.0 && yes / total >= minYes {
          r := r[a := advance.(roundActive := Some(round + 1))];
        }
      }
      todo := todo - {a};
    }
  }

  // ---------------------------------------------------------------------
  // The block cache

  /** `AddBlockCache`: the cache one block's update rewrites in place. */
  class BlockCache {
    const config: Config
    const round: nat
    const height: nat
    const activeAlgorithms: seq<Id>
    const activeAdvances: seq<Id>
    const activeChallenges: seq<Id>
    const activePlayers: seq<Id>
    const algorithmDetails: map<Id, AlgorithmDetails>
    const qualifiers: map<Id, seq<Qualifier>>
    const opow: map<Id, OpowData>
    const playerStates: map<Id, PlayerState>
    const playerData: map<Id, PlayerData>
    var votingAdvances: map<Id, VotingAdvance>
    var algorithmData: map<Id, Standing>
    var advanceData: map<Id, Standing>
    var algorithmRoundMerged: map<Id, Option<nat>>
    var advanceRoundMerged: map<Id, Option<nat>>

    /** The fields the update only reads. */
    function Given(): Inputs {
      Inputs(config, round, height, activeAlgorithms, activeAdvances, activeChallenges,
             activePlayers, algorithmDetails, qualifiers, opow, playerStates, playerData)
    }

    /** The fields the update writes. */
    function State(): CacheState
      reads this
    {
      CacheState(votingAdvances, algorithmData, advanceData, algorithmRoundMerged,
                 advanceRoundMerged)
    }

    constructor (inp: Inputs, st: CacheState)
      ensures Given() == inp && State() == st
    {
      config, round, height := inp.config, inp.round, inp.height;
      activeAlgorithms, activeAdvances := inp.activeAlgorithms, inp.activeAdvances;
      activeChallenges, activePlayers := inp.activeChallenges, inp.activePlayers;
      algorithmDetails, qualifiers, opow := inp.algorithmDetails, inp.qualifiers, inp.opow;
      playerStates, playerData := inp.playerStates, inp.playerData;
      votingAdvances, algorithmData, advanceData := st.votingAdvances, st.algorithmData, st.advanceData;
      algorithmRoundMerged, advanceRoundMerged := st.algorithmRoundMerged, st.advanceRoundMerged;
    }

    /** `update`: votes, adoption, merge points, and at a round's last block merges and activations. */
    method Update()
      requires Consistent(Given(), State())
      modifies this
      ensures State() == UpdateSpec(Given(), old(State()))
    {
      ghost var inp, st := Given(), State();
      var groups := GroupByChallenge(activeAlgorithms, algorithmDetails);
      Accrue(groups);
      ghost var p := State();
      assert p == Accrued(inp, st);
      if (height + 1) % config.blocksPerRound == 0 {
        CloseRound(groups);
        assert LastBlockOfRound(inp) && State() == Closed(inp, p);
      } else {
        assert !LastBlockOfRound(inp);
      }
    }

    /** The steps of every block, on the cache's own maps. */
    method Accrue(groups: map<Id, seq<Id>>)
      requires Consistent(Given(), State())
      requires groups == Group(activeAlgorithms, algorithmDetails)
      modifies this
      ensures State() == Accrued(Given(), old(State()))
    {
      ConsistentReady(Given(), State());
      votingAdvances := TallyVotes(votingAdvances, activePlayers, playerStates, playerData, round);
      var adopted := AdoptActiveChallenges(Adoptions(algorithmData, advanceData), activeChallenges,
                                           groups, qualifiers, opow, algorithmDetails);
      algorithmData, advanceData := adopted.algorithms, adopted.advances;

      algorithmData := AddMergePoints(algorithmData, algorithmRoundMerged, activeAlgorithms,
                                      config.algorithmAdoptionThreshold);
      advanceData := AddMergePoints(advanceData, advanceRoundMerged, activeAdvances,
                                    config.advanceAdoptionThreshold);
    }

    /** The steps of a round's last block, on the cache's own maps. */
    method CloseRound(groups: map<Id, seq<Id>>)
      requires Consistent(Given(), State())
      requires groups == Group(activeAlgorithms, algorithmDetails)
      modifies this
      ensures State() == Closed(Given(), old(State()))
    {
      ConsistentMerges(Given(), State());
      algorithmRoundMerged := MergeAlgorithms(algorithmRoundMerged, groups, algorithmData,
                                              config.algorithmMergePointsThreshold, round);
      advanceRoundMerged := MergeAdvances(advanceRoundMerged, activeAdvances, advanceData,
                                          config.advanceMergePointsThreshold, round);
      votingAdvances := ActivateAdvances(votingAdvances, round, config.minPercentYesVotes);
    }
  }
}
