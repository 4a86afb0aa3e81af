/**
 * The first step of the block update: every voting advance's tally is reset,
 * then every active player's votes are weighed by the deposits still locked
 * when the advance's votes are tallied, and added to the matching bucket.
 */
module VoteTally {
  import opened Common
  import opened Ledger

  /** The number of `u32` values. */
  const U32: int := 0x1_0000_0000

  /**
   * `round_votes_tallied - round` computed on `u32`: the rounds left until
   * the tally, wrapping around below zero as in a release build.
   */
  function LockOffset(tallied: nat, round: nat): (n: nat)
    ensures n < U32
    ensures round <= tallied < round + U32 ==> n == tallied - round
    ensures tallied < round <= tallied + U32 ==> n == U32 + tallied - round
  {
    (tallied - round) % U32
  }

  /** `iter().skip(n)`: the elements from index `n` on, none when `n` is past the end. */
  function Skip(s: seq<real>, n: nat): (r: seq<real>)
    ensures |r| == if n < |s| then |s| - n else 0
    ensures forall k :: 0 <= k < |r| ==> r[k] == s[n + k]
  {
    if n < |s| then s[n..] else []
  }

  /** A player's vote weight: its deposits that stay locked until the advance's tally. */
  function VoteWeight(deposits: seq<real>, tallied: nat, round: nat): real {
    Sum(Skip(deposits, LockOffset(tallied, round)))
  }

  lemma {:induction false} SkipFurther(s: seq<real>, n: nat)
    requires forall k :: 0 <= k < |s| ==> s[k] >= 0.0
    ensures Sum(Skip(s, n + 1)) <= Sum(Skip(s, n))
  {
    if n < |s| {
      assert Skip(s, n)[1..] == Skip(s, n + 1);
      SumNonNegative(Skip(s, n + 1));
    }
  }

  /** With non-negative deposits, the more rounds a vote waits, the less it weighs. */
  lemma {:induction false} SkipMonotone(s: seq<real>, m: nat, n: nat)
    requires forall k :: 0 <= k < |s| ==> s[k] >= 0.0
    requires m <= n
    ensures Sum(Skip(s, n)) <= Sum(Skip(s, m))
    decreases n - m
  {
    if m < n {
      SkipMonotone(s, m, n - 1);
      SkipFurther(s, n - 1);
    }
  }

  /** A tally the same period counts every deposit in full. */
  lemma WeightAtTally(deposits: seq<real>, round: nat)
    ensures VoteWeight(deposits, round, round) == Sum(deposits)
  {
    assert Skip(deposits, 0) == deposits;
  }

  /** Every voting advance's tally back to `{true: 0, false: 0}`. */
  function Reset(voting: map<Id, VotingAdvance>): (r: map<Id, VotingAdvance>)
    ensures r.Keys == voting.Keys
    ensures forall a :: a in r ==> r[a] == voting[a].(votesTally := Tally(0.0, 0.0))
  {
    map a | a in voting :: voting[a].(votesTally := Tally(0.0, 0.0))
  }

  /** Weight `w` added to the bucket of the vote's value. */
  function Credit(t: Tally, yes: bool, w: real): Tally {
    if yes then t.(yes := t.yes + w) else t.(no := t.no + w)
  }

  /** What one player's votes add, to the voting advances among the ones it voted on. */
  function CastVotes(voting: map<Id, VotingAdvance>, votes: map<Id, bool>, deposits: seq<real>,
                     round: nat): (r: map<Id, VotingAdvance>)
    ensures r.Keys == voting.Keys
  {
    map a | a in voting ::
      if a in votes then
        voting[a].(votesTally := Credit(voting[a].votesTally, votes[a],
                                        VoteWeight(deposits, voting[a].roundVotesTallied, round)))
      else voting[a]
  }

  /** Every player named has a state and block data. */
  predicate Known(players: seq<Id>, states: map<Id, PlayerState>, datas: map<Id, PlayerData>) {
    forall k :: 0 <= k < |players| ==> players[k] in states && players[k] in datas
  }

  /** The votes of the players, cast one player after another. */
  function CastAll(voting: map<Id, VotingAdvance>, players: seq<Id>, states: map<Id, PlayerState>,
                   datas: map<Id, PlayerData>, round: nat): (r: map<Id, VotingAdvance>)
    requires Known(players, states, datas)
    ensures r.Keys == voting.Keys
  {
    if players == [] then voting
    else
      var p := players[|players| - 1];
      CastVotes(CastAll(voting, players[..|players| - 1], states, datas, round),
                states[p].votes, datas[p].depositByLockedPeriod, round)
  }

  /** The tally step: reset every tally, then cast every active player's votes. */
  function Tallied(voting: map<Id, VotingAdvance>, players: seq<Id>, states: map<Id, PlayerState>,
                   datas: map<Id, PlayerData>, round: nat): (r: map<Id, VotingAdvance>)
    requires Known(players, states, datas)
    ensures r.Keys == voting.Keys
  {
    CastAll(Reset(voting), players, states, datas, round)
  }

  // ---------------------------------------------------------------------
  // The tally in closed form

  /** What one player's vote on advance `a` adds to the bucket for `yes`. */
  function Contribution(a: Id, yes: bool, tallied: nat, votes: map<Id, bool>, deposits: seq<real>,
                        round: nat): real {
    if a in votes && votes[a] == yes then VoteWeight(deposits, tallied, round) else 0.0
  }

  /** The deposit-weighted votes of value `yes` the players cast on advance `a`. */
  function Received(a: Id, yes: bool, tallied: nat, players: seq<Id>, states: map<Id, PlayerState>,
                    datas: map<Id, PlayerData>, round: nat): real
    requires Known(players, states, datas)
  {
    if players == [] then 0.0
    else
      var p := players[|players| - 1];
      Received(a, yes, tallied, players[..|players| - 1], states, datas, round) +
      Contribution(a, yes, tallied, states[p].votes, datas[p].depositByLockedPeriod, round)
  }

  /** The prefix of a known player sequence is known. */
  lemma KnownPrefix(players: seq<Id>, states: map<Id, PlayerState>, datas: map<Id, PlayerData>,
                    i: nat)
    requires Known(players, states, datas) && i <= |players|
    ensures Known(players[..i], states, datas)
  {
  }

  /** One player's votes add its contribution to both buckets of every voting advance. */
  lemma CastVotesAdds(voting: map<Id, VotingAdvance>, votes: map<Id, bool>, deposits: seq<real>,
                      round: nat, a: Id)
    requires a in voting
    ensures var v := voting[a];
      CastVotes(voting, votes, deposits, round)[a] ==
        v.(votesTally := Tally(
          v.votesTally.yes + Contribution(a, true, v.roundVotesTallied, votes, deposits, round),
          v.votesTally.no + Contribution(a, false, v.roundVotesTallied, votes, deposits, round)))
  {
  }

  /**
   * After the players cast their votes, each voting advance's buckets have
   * grown by exactly the deposit-weighted votes of that value, and nothing
   * else about it has changed.
   */
  lemma {:induction false} CastAllReceived(voting: map<Id, VotingAdvance>, players: seq<Id>,
                                           states: map<Id, PlayerState>,
                                           datas: map<Id, PlayerData>, round: nat, a: Id)
    requires Known(players, states, datas) && a in voting
    ensures var v := voting[a];
      CastAll(voting, players, states, datas, round)[a] ==
        v.(votesTally := Tally(
          v.votesTally.yes + Received(a, true, v.roundVotesTallied, players, states, datas, round),
          v.votesTally.no + Received(a, false, v.roundVotesTallied, players, states, datas, round)))
  {
    if players != [] {
      var pre := players[..|players| - 1];
      var p := players[|players| - 1];
      KnownPrefix(players, states, datas, |players| - 1);
      CastAllReceived(voting, pre, states, datas, round, a);
      CastVotesAdds(CastAll(voting, pre, states, datas, round), states[p].votes,
                    datas[p].depositByLockedPeriod, round, a);
    }
  }

  /**
   * The tally step leaves each voting advance's schedule and activation as
   * they were and sets its tally to exactly the deposit-weighted yes and no
   * votes of the active players.
   */
  lemma TalliedIsReceived(voting: map<Id, VotingAdvance>, players: seq<Id>,
                          states: map<Id, PlayerState>, datas: map<Id, PlayerData>, round: nat,
                          a: Id)
    requires Known(players, states, datas) && a in voting
    ensures var v := voting[a];
      Tallied(voting, players, states, datas, round)[a] ==
        v.(votesTally := Tally(
          Received(a, true, v.roundVotesTallied, players, states, datas, round),
          Received(a, false, v.roundVotesTallied, players, states, datas, round)))
  {
    CastAllReceived(Reset(voting), players, states, datas, round, a);
  }

  /** Tallying again changes nothing: the tally is recomputed from scratch every block. */
  lemma TalliedIdempotent(voting: map<Id, VotingAdvance>, players: seq<Id>,
                          states: map<Id, PlayerState>, datas: map<Id, PlayerData>, round: nat)
    requires Known(players, states, datas)
    ensures var once := Tallied(voting, players, states, datas, round);
      Tallied(once, players, states, datas, round) == once
  {
    var once := Tallied(voting, players, states, datas, round);
    var twice := Tallied(once, players, states, datas, round);
    forall a | a in voting
      ensures twice[a] == once[a]
    {
      TalliedIsReceived(voting, players, states, datas, round, a);
      TalliedIsReceived(once, players, states, datas, round, a);
    }
  }

  // ---------------------------------------------------------------------
  // Steps of the imperative tally

  /** The votes restricted to the advances in `done`. */
  function Restrict(votes: map<Id, bool>, done: set<Id>): (r: map<Id, bool>)
    ensures r.Keys == votes.Keys * done
    ensures forall a :: a in r ==> r[a] == votes[a]
  {
    map a | a in votes && a in done :: votes[a]
  }

  /** Casting one more vote updates only the advance voted on, from its current state. */
  lemma CastOneMore(start: map<Id, VotingAdvance>, votes: map<Id, bool>, deposits: seq<real>,
                    round: nat, done: set<Id>, a: Id)
    requires a in votes && a !in done
    ensures var before := CastVotes(start, Restrict(votes, done), deposits, round);
      var after := CastVotes(start, Restrict(votes, done + {a}), deposits, round);
      if a in before then
        after == before[a := before[a].(votesTally := Credit(before[a].votesTally, votes[a],
                                          VoteWeight(deposits, before[a].roundVotesTallied, round)))]
      else after == before
  {
    var before := CastVotes(start, Restrict(votes, done), deposits, round);
    if a in start {
      assert a !in Restrict(votes, done);
      assert before[a] == start[a];
    }
  }

  /** With every vote considered, the restricted votes are the votes. */
  lemma RestrictAll(votes: map<Id, bool>)
    ensures Restrict(votes, votes.Keys) == votes
  {
  }

  /** Casting no votes changes nothing. */
  lemma CastNone(start: map<Id, VotingAdvance>, votes: map<Id, bool>, deposits: seq<real>,
                 round: nat)
    ensures CastVotes(start, Restrict(votes, {}), deposits, round) == start
  {
  }

  /** Casting the votes of one more player extends the cast of the prefix. */
  lemma CastAllSnoc(voting: map<Id, VotingAdvance>, players: seq<Id>,
                    states: map<Id, PlayerState>, datas: map<Id, PlayerData>, round: nat, i: nat)
    requires Known(players, states, datas) && i < |players|
    ensures Known(players[..i], states, datas) && Known(players[..i + 1], states, datas)
    ensures CastAll(voting, players[..i + 1], states, datas, round) ==
      CastVotes(CastAll(voting, players[..i], states, datas, round),
                states[players[i]].votes, datas[players[i]].depositByLockedPeriod, round)
  {
    assert players[..i + 1][..i] == players[..i];
  }
}
