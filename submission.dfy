/**
 * The three submission gates of the algorithm and advance contracts. Each is
 * an ordered chain of checks against committed state: the first failing check
 * is the error returned; when all pass, a record is handed to the mempool.
 */
module Submission {
  import opened Common
  import opened Ledger

  /** The committed state a gate reads; each map or set is an optional lookup by id. */
  datatype Context = Context(
    config: Config,
    latestRound: nat,                   // round of the latest block
    challengeRoundActive: map<Id, nat>, // challenges with a state, and their `round_active`
    feeBalance: map<Id, real>,          // players with a state, and their `available_fee_balance`
    advances: set<Id>,                  // advances with a state
    algorithms: set<Id>,                // algorithms with a state
    binaries: set<Id>)                  // algorithms whose binary details are recorded

  /** The contents of an algorithm's code, handed through unchanged. */
  type Code = string

  datatype BinaryDetails = BinaryDetails(compileSuccess: bool, downloadUrl: Option<string>)

  /** What a gate hands to the mempool when every check passes. */
  datatype Entry =
    | AdvanceEntry(advance: AdvanceDetails, evidence: string)
    | AlgorithmEntry(algorithm: AlgorithmDetails, code: Code)
    | BinaryEntry(algorithmId: Id, binary: BinaryDetails)

  datatype Error =
    | InvalidChallenge(challenge: Id)
    | InsufficientBalance
    | InvalidAdvance(advanceId: Id)
    | InvalidAlgorithm(algorithmId: Id)
    | BinaryAlreadySubmitted(algorithmId: Id)
    | MissingDownloadUrl

  /** The gate's verdict: the first failing check, or the record to enqueue. */
  datatype Gate = Reject(error: Error) | Enqueue(entry: Entry)

  /** The challenge has a state and became active no later than `slack` rounds after the latest. */
  predicate ChallengeOpen(ctx: Context, challenge: Id, slack: nat) {
    challenge in ctx.challengeRoundActive &&
    ctx.challengeRoundActive[challenge] <= ctx.latestRound + slack
  }

  /** The player has a state and its fee balance covers `fee`. */
  predicate CanPay(ctx: Context, player: Id, fee: real) {
    player in ctx.feeBalance && ctx.feeBalance[player] >= fee
  }

  /** How many rounds ahead of the latest a challenge may start and still take algorithms. */
  function AlgorithmSlack(config: Config): nat {
    config.voteStartDelay + config.votePeriod + config.pushDelayPeriod
  }

  /** `submit_advance`. */
  function SubmitAdvance(ctx: Context, player: Id, name: string, challenge: Id,
                         evidence: string): (r: Gate)
    ensures r.Enqueue? <==>
      ChallengeOpen(ctx, challenge, 0) && CanPay(ctx, player, ctx.config.advanceSubmissionFee)
    ensures !ChallengeOpen(ctx, challenge, 0) ==> r == Reject(InvalidChallenge(challenge))
    ensures (ChallengeOpen(ctx, challenge, 0) &&
             !CanPay(ctx, player, ctx.config.advanceSubmissionFee)) ==> r == Reject(InsufficientBalance)
    ensures r.Enqueue? ==>
      r.entry == AdvanceEntry(
        AdvanceDetails(name, challenge, player, ctx.config.advanceSubmissionFee), evidence)
  {
    if !ChallengeOpen(ctx, challenge, 0) then Reject(InvalidChallenge(challenge))
    else if !CanPay(ctx, player, ctx.config.advanceSubmissionFee) then Reject(InsufficientBalance)
    else
      Enqueue(AdvanceEntry(
        AdvanceDetails(name, challenge, player, ctx.config.advanceSubmissionFee), evidence))
  }

  /** `submit_algorithm`. */
  function SubmitAlgorithm(ctx: Context, player: Id, name: string, challenge: Id,
                           advance: Option<Id>, code: Code): (r: Gate)
    ensures r.Enqueue? <==>
      ChallengeOpen(ctx, challenge, AlgorithmSlack(ctx.config)) &&
      (advance.Some? ==> advance.value in ctx.advances) &&
      CanPay(ctx, player, ctx.config.algorithmSubmissionFee)
    ensures !ChallengeOpen(ctx, challenge, AlgorithmSlack(ctx.config)) ==>
      r == Reject(InvalidChallenge(challenge))
    ensures (ChallengeOpen(ctx, challenge, AlgorithmSlack(ctx.config)) &&
             advance.Some? && advance.value !in ctx.advances) ==>
      r == Reject(InvalidAdvance(advance.value))
    ensures r.Reject? && r.error == InsufficientBalance <==>
      ChallengeOpen(ctx, challenge, AlgorithmSlack(ctx.config)) &&
      (advance.Some? ==> advance.value in ctx.advances) &&
      !CanPay(ctx, player, ctx.config.algorithmSubmissionFee)
    ensures r.Enqueue? ==> r.entry == AlgorithmEntry(
      AlgorithmDetails(name, challenge, player, advance, ctx.config.algorithmSubmissionFee), code)
  {
    if !ChallengeOpen(ctx, challenge, AlgorithmSlack(ctx.config)) then
      Reject(InvalidChallenge(challenge))
    else if advance.Some? && advance.value !in ctx.advances then
      Reject(InvalidAdvance(advance.value))
    else if !CanPay(ctx, player, ctx.config.algorithmSubmissionFee) then
      Reject(InsufficientBalance)
    else
      Enqueue(AlgorithmEntry(
        AlgorithmDetails(name, challenge, player, advance, ctx.config.algorithmSubmissionFee), code))
  }

  /** `submit_binary`. */
  function SubmitBinary(ctx: Context, algorithm: Id, compileSuccess: bool,
                        downloadUrl: Option<string>): (r: Gate)
    ensures r.Enqueue? <==>
      algorithm in ctx.algorithms && algorithm !in ctx.binaries && (compileSuccess ==> downloadUrl.Some?)
    ensures algorithm !in ctx.algorithms ==> r == Reject(InvalidAlgorithm(algorithm))
    ensures (algorithm in ctx.algorithms && algorithm in ctx.binaries) ==>
      r == Reject(BinaryAlreadySubmitted(algorithm))
    ensures r.Reject? && r.error == MissingDownloadUrl <==>
      algorithm in ctx.algorithms && algorithm !in ctx.binaries && compileSuccess && downloadUrl.None?
    ensures r.Enqueue? ==> r.entry == BinaryEntry(algorithm, BinaryDetails(compileSuccess, downloadUrl))
  {
    if algorithm !in ctx.algorithms then Reject(InvalidAlgorithm(algorithm))
    else if algorithm in ctx.binaries then Reject(BinaryAlreadySubmitted(algorithm))
    else if compileSuccess && downloadUrl.None? then Reject(MissingDownloadUrl)
    else Enqueue(BinaryEntry(algorithm, BinaryDetails(compileSuccess, downloadUrl)))
  }

  // ---------------------------------------------------------------------
  // Relations between the gates

  /** A challenge open to advances is open to algorithms: the algorithm window only extends it. */
  lemma AdvanceWindowWithinAlgorithmWindow(ctx: Context, player: Id, challenge: Id,
                                           name: string, advance: Option<Id>, code: Code)
    requires SubmitAdvance(ctx, player, name, challenge, "").Enqueue?
    ensures SubmitAlgorithm(ctx, player, name, challenge, advance, code) != Reject(InvalidChallenge(challenge))
  {
  }

  /** The context the gates see, with one player's fee balance raised to `balance`. */
  function WithBalance(ctx: Context, player: Id, balance: real): (c: Context)
    requires player in ctx.feeBalance && ctx.feeBalance[player] <= balance
    ensures c.feeBalance.Keys == ctx.feeBalance.Keys && c.feeBalance[player] == balance
  {
    ctx.(feeBalance := ctx.feeBalance[player := balance])
  }

  /** Raising a player's balance never turns an accepted advance into a rejected one. */
  lemma AdvanceBalanceMonotone(ctx: Context, player: Id, name: string, challenge: Id,
                               evidence: string, balance: real)
    requires player in ctx.feeBalance && ctx.feeBalance[player] <= balance
    requires SubmitAdvance(ctx, player, name, challenge, evidence).Enqueue?
    ensures SubmitAdvance(WithBalance(ctx, player, balance), player, name, challenge, evidence) ==
      SubmitAdvance(ctx, player, name, challenge, evidence)
  {
  }

  /** Raising a player's balance never turns an accepted algorithm into a rejected one. */
  lemma AlgorithmBalanceMonotone(ctx: Context, player: Id, name: string, challenge: Id,
                                 advance: Option<Id>, code: Code, balance: real)
    requires player in ctx.feeBalance && ctx.feeBalance[player] <= balance
    requires SubmitAlgorithm(ctx, player, name, challenge, advance, code).Enqueue?
    ensures SubmitAlgorithm(WithBalance(ctx, player, balance), player, name, challenge, advance, code) ==
      SubmitAlgorithm(ctx, player, name, challenge, advance, code)
  {
  }

  /** An enqueued binary that compiled always comes with a download URL. */
  lemma BinaryCompiledHasUrl(ctx: Context, algorithm: Id, compileSuccess: bool,
                             downloadUrl: Option<string>)
    requires SubmitBinary(ctx, algorithm, compileSuccess, downloadUrl).Enqueue?
    ensures var b := SubmitBinary(ctx, algorithm, compileSuccess, downloadUrl).entry.binary;
      b.compileSuccess ==> b.downloadUrl.Some?
  {
  }

  /** Recording the binary closes the gate: a second submission for the algorithm is refused. */
  lemma BinaryOnce(ctx: Context, algorithm: Id, compileSuccess: bool, downloadUrl: Option<string>,
                   compileSuccess': bool, downloadUrl': Option<string>)
    requires SubmitBinary(ctx, algorithm, compileSuccess, downloadUrl).Enqueue?
    ensures SubmitBinary(ctx.(binaries := ctx.binaries + {algorithm}), algorithm,
                         compileSuccess', downloadUrl') == Reject(BinaryAlreadySubmitted(algorithm))
  {
  }
}
