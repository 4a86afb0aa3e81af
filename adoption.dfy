/**
 * The second step of the block update: per active challenge, each active
 * algorithm's weight apportions every player's influence by the share of
 * the player's qualifiers it produced; the weights are normalised into
 * adoptions, and each adoption is also added into the algorithm's advance.
 */
module Adoption {
  import opened Common
  import opened Ledger

  // ---------------------------------------------------------------------
  // Algorithms by challenge

  /** Every algorithm named has details. */
  predicate Described(algs: seq<Id>, details: map<Id, AlgorithmDetails>) {
    forall k :: 0 <= k < |algs| ==> algs[k] in details
  }

  /** The algorithms of challenge `c`, in order. */
  function OfChallenge(algs: seq<Id>, details: map<Id, AlgorithmDetails>, c: Id): (r: seq<Id>)
    requires Described(algs, details)
    ensures forall x :: x in r <==> x in algs && details[x].challenge == c
    ensures Distinct(algs) ==> Distinct(r)
  {
    if algs == [] then []
    else
      var a := algs[|algs| - 1];
      var pre := OfChallenge(algs[..|algs| - 1], details, c);
      assert forall x :: x in algs <==> x in algs[..|algs| - 1] || x == a;
      if details[a].challenge == c then pre + [a] else pre
  }

  /** `algorithms_by_challenge`: each active algorithm appended to its challenge's list. */
  function Group(algs: seq<Id>, details: map<Id, AlgorithmDetails>): (g: map<Id, seq<Id>>)
    requires Described(algs, details)
  {
    if algs == [] then map[]
    else
      var a := algs[|algs| - 1];
      var g := Group(algs[..|algs| - 1], details);
      var c := details[a].challenge;
      g[c := (if c in g then g[c] else []) + [a]]
  }

  /**
   * The list of a challenge is exactly its active algorithms in order, and a
   * challenge has a list exactly when it has an active algorithm.
   */
  lemma {:induction false} GroupIsOfChallenge(algs: seq<Id>, details: map<Id, AlgorithmDetails>,
                                              c: Id)
    requires Described(algs, details)
    ensures c in Group(algs, details) <==> OfChallenge(algs, details, c) != []
    ensures c in Group(algs, details) ==> Group(algs, details)[c] == OfChallenge(algs, details, c)
  {
    if algs != [] {
      GroupIsOfChallenge(algs[..|algs| - 1], details, c);
    }
  }

  /** The lists, as the later steps use them: nonempty, of algorithms of their own challenge. */
  predicate Grouped(groups: map<Id, seq<Id>>, details: map<Id, AlgorithmDetails>) {
    forall c :: c in groups ==>
      groups[c] != [] && Distinct(groups[c]) &&
      forall k :: 0 <= k < |groups[c]| ==>
        groups[c][k] in details && details[groups[c][k]].challenge == c
  }

  lemma GroupGrouped(algs: seq<Id>, details: map<Id, AlgorithmDetails>)
    requires Described(algs, details) && Distinct(algs)
    ensures Grouped(Group(algs, details), details)
  {
    var g := Group(algs, details);
    forall c | c in g
      ensures g[c] != [] && Distinct(g[c])
      ensures forall k :: 0 <= k < |g[c]| ==> g[c][k] in details && details[g[c][k]].challenge == c
    {
      GroupIsOfChallenge(algs, details, c);
      assert forall k :: 0 <= k < |g[c]| ==> g[c][k] in OfChallenge(algs, details, c);
    }
  }

  // ---------------------------------------------------------------------
  // Weights

  /** The qualifying player has proof-of-work data with positive qualifiers on `c`. */
  predicate Counted(q: Qualifier, opow: map<Id, OpowData>, c: Id) {
    q.player in opow && c in opow[q.player].qualifiersByChallenge &&
    opow[q.player].qualifiersByChallenge[c] > 0
  }

  /** Every qualifying player is counted on `c`. */
  predicate Apportionable(qs: seq<Qualifier>, opow: map<Id, OpowData>, c: Id) {
    forall k :: 0 <= k < |qs| ==> Counted(qs[k], opow, c)
  }

  /** The part of a player's influence due to one algorithm: by its share of the qualifiers. */
  function Share(q: Qualifier, opow: map<Id, OpowData>, c: Id): real
    requires Counted(q, opow, c)
  {
    var data := opow[q.player];
    data.influence * (q.count as real) / (data.qualifiersByChallenge[c] as real)
  }

  /** An algorithm's weight on challenge `c`: the shares of all players who qualified with it. */
  function AlgorithmWeight(qs: seq<Qualifier>, opow: map<Id, OpowData>, c: Id): real
    requires Apportionable(qs, opow, c)
  {
    if qs == [] then 0.0
    else
      AlgorithmWeight(qs[..|qs| - 1], opow, c) + Share(qs[|qs| - 1], opow, c)
  }

  /** Every algorithm of the list has qualifier data, apportionable on `c`. */
  predicate Weighable(ids: seq<Id>, qualifiers: map<Id, seq<Qualifier>>, opow: map<Id, OpowData>,
                      c: Id) {
    forall k :: 0 <= k < |ids| ==> ids[k] in qualifiers && Apportionable(qualifiers[ids[k]], opow, c)
  }

  /** The weights of the algorithms of a challenge, in list order. */
  function Weights(ids: seq<Id>, qualifiers: map<Id, seq<Qualifier>>, opow: map<Id, OpowData>,
                   c: Id): (ws: seq<real>)
    requires Weighable(ids, qualifiers, opow, c)
    ensures |ws| == |ids|
    ensures forall k :: 0 <= k < |ids| ==> ws[k] == AlgorithmWeight(qualifiers[ids[k]], opow, c)
  {
    seq(|ids|, k requires 0 <= k < |ids| => AlgorithmWeight(qualifiers[ids[k]], opow, c))
  }

  /** Players' influences are not negative. */
  predicate InfluenceNonNegative(opow: map<Id, OpowData>) {
    forall p :: p in opow ==> opow[p].influence >= 0.0
  }

  lemma {:induction false} AlgorithmWeightNonNegative(qs: seq<Qualifier>, opow: map<Id, OpowData>,
                                                      c: Id)
    requires Apportionable(qs, opow, c) && InfluenceNonNegative(opow)
    ensures AlgorithmWeight(qs, opow, c) >= 0.0
  {
    if qs != [] {
      var q := qs[|qs| - 1];
      AlgorithmWeightNonNegative(qs[..|qs| - 1], opow, c);
      var data := opow[q.player];
      assert data.influence * (q.count as real) >= 0.0;
    }
  }

  /**
   * With non-negative influences, each algorithm's adoption on its challenge
   * is a share between zero and one, and the shares sum to one unless every
   * weight is zero.
   */
  lemma AdoptionShares(ids: seq<Id>, qualifiers: map<Id, seq<Qualifier>>, opow: map<Id, OpowData>,
                       c: Id)
    requires Weighable(ids, qualifiers, opow, c) && InfluenceNonNegative(opow)
    ensures var ws := Weights(ids, qualifiers, opow, c);
      (forall k :: 0 <= k < |ids| ==> 0.0 <= Normalise(ws)[k] <= 1.0) &&
      (Sum(Normalise(ws)) == 1.0 || forall k :: 0 <= k < |ids| ==> Normalise(ws)[k] == 0.0)
  {
    var ws := Weights(ids, qualifiers, opow, c);
    forall k | 0 <= k < |ids|
      ensures ws[k] >= 0.0
    {
      AlgorithmWeightNonNegative(qualifiers[ids[k]], opow, c);
    }
    NormaliseShares(ws);
  }

  // ---------------------------------------------------------------------
  // Writing the adoptions

  /** The block data of the algorithms and of the advances. */
  datatype Adoptions = Adoptions(algorithms: map<Id, Standing>, advances: map<Id, Standing>)

  /** Algorithm `a` takes adoption `x`; its advance, if it has block data, gains `x`. */
  function AdoptOne(st: Adoptions, a: Id, x: real, details: map<Id, AlgorithmDetails>): (r: Adoptions)
    requires a in st.algorithms && a in details
    ensures r.algorithms.Keys == st.algorithms.Keys && r.advances.Keys == st.advances.Keys
  {
    var algorithms := st.algorithms[a := st.algorithms[a].(adoption := x)];
    var advance := details[a].advance;
    if advance.Some? && advance.value in st.advances then
      var v := advance.value;
      Adoptions(algorithms, st.advances[v := st.advances[v].(adoption := st.advances[v].adoption + x)])
    else Adoptions(algorithms, st.advances)
  }

  /** Every algorithm of the list has block data and details. */
  predicate Adoptable(st: Adoptions, ids: seq<Id>, details: map<Id, AlgorithmDetails>) {
    forall k :: 0 <= k < |ids| ==> ids[k] in st.algorithms && ids[k] in details
  }

  /** The adoptions written one algorithm after another, in list order. */
  function AdoptAll(st: Adoptions, ids: seq<Id>, shares: seq<real>,
                    details: map<Id, AlgorithmDetails>): (r: Adoptions)
    requires |shares| == |ids| && Adoptable(st, ids, details)
    ensures r.algorithms.Keys == st.algorithms.Keys && r.advances.Keys == st.advances.Keys
  {
    if ids == [] then st
    else
      var n := |ids| - 1;
      AdoptOne(AdoptAll(st, ids[..n], shares[..n], details), ids[n], shares[n], details)
  }

  /** What all the algorithms of the list built on advance `v` add to it. */
  function Gain(v: Id, ids: seq<Id>, shares: seq<real>, details: map<Id, AlgorithmDetails>): real
    requires |shares| == |ids| && forall k :: 0 <= k < |ids| ==> ids[k] in details
  {
    if ids == [] then 0.0
    else
      var n := |ids| - 1;
      Gain(v, ids[..n], shares[..n], details) +
      if details[ids[n]].advance == Some(v) then shares[n] else 0.0
  }

  /** Writing a list of distinct algorithms gives each its share and leaves the others alone. */
  lemma {:induction false} AdoptAllAlgorithms(st: Adoptions, ids: seq<Id>, shares: seq<real>,
                                              details: map<Id, AlgorithmDetails>, a: Id)
    requires |shares| == |ids| && Adoptable(st, ids, details) && Distinct(ids)
    requires a in st.algorithms
    ensures var r := AdoptAll(st, ids, shares, details);
      (forall k :: 0 <= k < |ids| && ids[k] == a ==>
         r.algorithms[a] == st.algorithms[a].(adoption := shares[k])) &&
      (a !in ids ==> r.algorithms[a] == st.algorithms[a])
  {
    if ids != [] {
      var n := |ids| - 1;
      AdoptAllAlgorithms(st, ids[..n], shares[..n], details, a);
      assert forall k :: 0 <= k < n ==> ids[..n][k] == ids[k];
      assert a in ids[..n] ==> a != ids[n];
    }
  }

  /** Writing a list adds to each advance with block data the shares of the algorithms built on it. */
  lemma {:induction false} AdoptAllAdvances(st: Adoptions, ids: seq<Id>, shares: seq<real>,
                                            details: map<Id, AlgorithmDetails>, v: Id)
    requires |shares| == |ids| && Adoptable(st, ids, details)
    requires v in st.advances
    ensures AdoptAll(st, ids, shares, details).advances[v] ==
      st.advances[v].(adoption := st.advances[v].adoption + Gain(v, ids, shares, details))
  {
    if ids != [] {
      var n := |ids| - 1;
      AdoptAllAdvances(st, ids[..n], shares[..n], details, v);
    }
  }

  /** Every listed algorithm of an active challenge can be weighed and written. */
  predicate Ready(st: Adoptions, challenges: seq<Id>, groups: map<Id, seq<Id>>,
                  qualifiers: map<Id, seq<Qualifier>>, opow: map<Id, OpowData>,
                  details: map<Id, AlgorithmDetails>) {
    forall i :: 0 <= i < |challenges| && challenges[i] in groups ==>
      Weighable(groups[challenges[i]], qualifiers, opow, challenges[i]) &&
      Adoptable(st, groups[challenges[i]], details)
  }

  /** The adoptions of the listed algorithms of one challenge: the normalised weights. */
  function ChallengeAdoption(ids: seq<Id>, qualifiers: map<Id, seq<Qualifier>>,
                             opow: map<Id, OpowData>, c: Id): (r: seq<real>)
    requires Weighable(ids, qualifiers, opow, c)
    ensures |r| == |ids|
  {
    Normalise(Weights(ids, qualifiers, opow, c))
  }

  /** Readiness depends only on the keys of the block data. */
  lemma ReadyKeys(st: Adoptions, st': Adoptions, challenges: seq<Id>, groups: map<Id, seq<Id>>,
                  qualifiers: map<Id, seq<Qualifier>>, opow: map<Id, OpowData>,
                  details: map<Id, AlgorithmDetails>, i: nat)
    requires Ready(st, challenges, groups, qualifiers, opow, details) && i <= |challenges|
    requires st'.algorithms.Keys == st.algorithms.Keys
    ensures Ready(st', challenges[..i], groups, qualifiers, opow, details)
  {
    forall j | 0 <= j < i && challenges[..i][j] in groups
      ensures Adoptable(st', groups[challenges[..i][j]], details)
    {
      assert Adoptable(st, groups[challenges[j]], details);
    }
  }

  /** The adoption step: for each active challenge with algorithms, in order, write its adoptions. */
  function AdoptChallenges(st: Adoptions, challenges: seq<Id>, groups: map<Id, seq<Id>>,
                           qualifiers: map<Id, seq<Qualifier>>, opow: map<Id, OpowData>,
                           details: map<Id, AlgorithmDetails>): (r: Adoptions)
    requires Ready(st, challenges, groups, qualifiers, opow, details)
    ensures r.algorithms.Keys == st.algorithms.Keys && r.advances.Keys == st.advances.Keys
  {
    if challenges == [] then st
    else
      var n := |challenges| - 1;
      var c := challenges[n];
      ReadyKeys(st, st, challenges, groups, qualifiers, opow, details, n);
      var prev := AdoptChallenges(st, challenges[..n], groups, qualifiers, opow, details);
      if c !in groups then prev
      else
        assert Adoptable(st, groups[c], details);
        AdoptAll(prev, groups[c], ChallengeAdoption(groups[c], qualifiers, opow, c), details)
  }

  /** What every active challenge's algorithms built on advance `v` add to it. */
  function ChallengesGain(v: Id, challenges: seq<Id>, groups: map<Id, seq<Id>>,
                          qualifiers: map<Id, seq<Qualifier>>, opow: map<Id, OpowData>,
                          details: map<Id, AlgorithmDetails>): real
    requires forall i :: 0 <= i < |challenges| && challenges[i] in groups ==>
      Weighable(groups[challenges[i]], qualifiers, opow, challenges[i]) &&
      forall k :: 0 <= k < |groups[challenges[i]]| ==> groups[challenges[i]][k] in details
  {
    if challenges == [] then 0.0
    else
      var n := |challenges| - 1;
      var c := challenges[n];
      ChallengesGain(v, challenges[..n], groups, qualifiers, opow, details) +
      if c in groups then Gain(v, groups[c], ChallengeAdoption(groups[c], qualifiers, opow, c), details)
      else 0.0
  }

  /**
   * After the adoption step, each advance with block data has gained exactly
   * the adoptions of the algorithms built on it, over all active challenges,
   * and its merge points are untouched.
   */
  lemma {:induction false} AdvanceGains(st: Adoptions, challenges: seq<Id>, groups: map<Id, seq<Id>>,
                                        qualifiers: map<Id, seq<Qualifier>>, opow: map<Id, OpowData>,
                                        details: map<Id, AlgorithmDetails>, v: Id)
    requires Ready(st, challenges, groups, qualifiers, opow, details) && v in st.advances
    ensures AdoptChallenges(st, challenges, groups, qualifiers, opow, details).advances[v] ==
      st.advances[v].(adoption := st.advances[v].adoption +
                                 ChallengesGain(v, challenges, groups, qualifiers, opow, details))
  {
    if challenges != [] {
      var n := |challenges| - 1;
      var c := challenges[n];
      ReadyKeys(st, st, challenges, groups, qualifiers, opow, details, n);
      AdvanceGains(st, challenges[..n], groups, qualifiers, opow, details, v);
      var prev := AdoptChallenges(st, challenges[..n], groups, qualifiers, opow, details);
      if c in groups {
        assert Adoptable(st, groups[c], details);
        AdoptAllAdvances(prev, groups[c], ChallengeAdoption(groups[c], qualifiers, opow, c),
                         details, v);
      }
    }
  }

  /**
   * After the adoption step, an algorithm whose challenge is active and listed
   * holds the normalised weight at its place in the list; any other algorithm
   * keeps the adoption it had.
   */
  lemma {:induction false} AlgorithmAdoption(st: Adoptions, challenges: seq<Id>,
                                             groups: map<Id, seq<Id>>,
                                             qualifiers: map<Id, seq<Qualifier>>,
                                             opow: map<Id, OpowData>,
                                             details: map<Id, AlgorithmDetails>, a: Id)
    requires Ready(st, challenges, groups, qualifiers, opow, details)
    requires Grouped(groups, details) && Distinct(challenges) && a in st.algorithms && a in details
    ensures var r := AdoptChallenges(st, challenges, groups, qualifiers, opow, details);
      var c := details[a].challenge;
      if c in challenges && c in groups && a in groups[c] then
        forall k :: 0 <= k < |groups[c]| && groups[c][k] == a ==>
          r.algorithms[a] ==
            st.algorithms[a].(adoption := ChallengeAdoption(groups[c], qualifiers, opow, c)[k])
      else r.algorithms[a] == st.algorithms[a]
  {
    if challenges != [] {
      var n := |challenges| - 1;
      var last := challenges[n];
      var c := details[a].challenge;
      ReadyKeys(st, st, challenges, groups, qualifiers, opow, details, n);
      assert Distinct(challenges[..n]);
      AlgorithmAdoption(st, challenges[..n], groups, qualifiers, opow, details, a);
      var prev := AdoptChallenges(st, challenges[..n], groups, qualifiers, opow, details);
      assert c in challenges <==> c in challenges[..n] || c == last;
      if last in groups {
        assert Adoptable(st, groups[last], details);
        AdoptAllAlgorithms(prev, groups[last], ChallengeAdoption(groups[last], qualifiers, opow, last),
                           details, a);
        if a in groups[last] {
          var k :| 0 <= k < |groups[last]| && groups[last][k] == a;
          assert details[a].challenge == last;
          assert c !in challenges[..n];
        }
      }
    }
  }
}
