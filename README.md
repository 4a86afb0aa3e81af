# TIG algorithm ledger and solver heuristics, modelled in Dafny

The project models two parts of The Innovation Game (TIG) repository.

**The protocol's algorithm and advance contracts** (`tig-protocol/src/contracts/algorithms.rs`):

- Three submission gates. `submit_advance`, `submit_algorithm` and `submit_binary` are pure chains of checks. The first failing check is the error; otherwise the gate hands a record to the mempool.
- The per-block `update` of the block cache. This is imperative bookkeeping.
  - Every block:
    1. The deposit-weighted vote tally is reset and recomputed.
    2. Each active challenge's algorithms get adoptions: player influence apportioned by qualifiers, then normalised. Each adoption is also added to the advance the algorithm builds on.
    3. Merge points are added against the adoption thresholds.
  - At the last block of a round:
    1. Each challenge's leading algorithm (by merge points) is merged.
    2. Every advance with enough merge points is merged.
    3. Advances whose vote passes are activated.

**Six integer-only solver heuristics** from `tig-algorithms`. None uses a random number generator, but two depend on hash iteration order: `optimized_clarke` in its output order and `need_for_speed` in its ties (see "Left out"):

- three Clarke–Wright savings route-mergers: `clarke_wright_who`, `optimized_clarke` (a hash map of routes) and `super_heaped` (union-find and a min-heap);
- a greedy cluster-expansion router, `adaptive_cluster`;
- a DPLL-style SAT routine, `dpll_backtracking`;
- a greedy max-coverage SAT assigner, `need_for_speed`.

Modules follow the repository's files:

| module | file | models |
|---|---|---|
| `Common` | common.dfy | `Option`, the choice of a next hash-collection key, `abs` |
| `Ledger` | ledger.dfy | the entities the contracts touch; `PreciseNumber` as exact `real`; `normalise` |
| `Submission` | submission.dfy | the three gates, as functions over a `Context` of optional lookups |
| `VoteTally` | vote_tally.dfy | the vote step, with the `u32` subtraction made explicit |
| `Adoption` | adoption.dfy | grouping by challenge, weights, normalised adoption, advance accumulation |
| `Merges` | merges.dfy | merge points, the round-boundary merges and the advance activation |
| `BlockUpdate` | block_update.dfy | the whole update as a function (`UpdateSpec`); the loops of each step; the class `BlockCache` whose `Update` rewrites its fields in place |
| `RouteCommon` | route_common.dfy | sub-instances, savings, heap and sort orders, route feasibility |
| `ClarkeWrightWho` | clarke_wright_who.dfy | `clarke_wright_who`: arrays of routes and demands updated in place |
| `OptimizedClarke` | optimized_clarke.dfy | `optimized_clarke` as written, and the corrected step |
| `SuperHeaped` | super_heaped.dfy | `find` and `union` on arrays; the heap loop as written, and the corrected loop |
| `AdaptiveCluster` | adaptive_cluster.dfy | `adaptive_cluster` and `score_cluster_expansions` |
| `DpllBacktracking` | dpll_backtracking.dfy | `dpll` on the assignment array, its closed form, and a corrected recursion |
| `NeedForSpeed` | need_for_speed.dfy | `need_for_speed`'s index building and greedy loop |

**How the model is proved.**

- Each imperative operation is a `method` with the loops of the source. Its `ensures` ties the result or the new state to a specification function of the inputs. The method also keeps the arrays, maps and sequences the source mutates.
- The properties the source promises are proved as lemmas about those specification functions:
  - exact vote tallies;
  - adoption shares in [0, 1] that sum to one;
  - exactly one merge point when earned;
  - one merged algorithm per challenge, and it leads its list;
  - no merge or activation off a round boundary;
  - feasible routes: each customer visited exactly once, and every route serving two or more customers within capacity;
  - the DPLL outcome in closed form;
  - greedy coverage.

**Where the code differs from its evident intent, the model follows the code.**

- `max_by_key` picks the LAST of the tied maxima, not the first (`Merges.BestIsLast`).
- The advance merge makes no existing-merge check, so `round_merged` can be stamped again in a later round (`Merges.AdvanceMergeRestamps`).
- Every algorithm group is considered at the round boundary, also that of a challenge that is no longer active. This is because the loop runs over `algorithms_by_challenge.values()`.
- The adoption step rewrites only algorithms of active challenges. An algorithm of any other challenge keeps its adoption (`Adoption.AlgorithmAdoption`).
- An advance's adoption is not reset by `update`. Its gains accumulate on whatever the block data held (`Adoption.AdvanceGains`).
- The tally runs before the activation in the same call, so the activation reads the freshly computed tally.
- `merge_points += 1` is a plain `u32` increment, not a saturating one. It is modelled as unbounded `nat` (see "Left out").

## Model

| member | source | states |
|---|---|---|
| Submission.SubmitAdvance | tig-protocol/src/contracts/algorithms.rs:9-47 | Enqueues exactly when the challenge has a state with `round_active` ≤ latest round and the player's `available_fee_balance` covers the advance fee. A challenge failure is `InvalidChallenge` and comes first, then `InsufficientBalance`. The record carries the given name, challenge and player, with `fee_paid` = the fee |
| Submission.SubmitAlgorithm | tig-protocol/src/contracts/algorithms.rs:50-102 | Three checks in order. First, the challenge window is `round_active` ≤ round + vote_start_delay + vote_period + push_delay_period. Second, a supplied advance must have a state. Third, the balance must cover the algorithm fee. The error of each check is pinned down, both directions for the balance error. On success the record is exactly the given fields and the fee |
| Submission.SubmitBinary | tig-protocol/src/contracts/algorithms.rs:105-133 | Rejects, in order, an unknown algorithm, an already recorded binary, and `compile_success` without a download URL. Enqueues exactly `(compile_success, download_url)` otherwise, both directions |
| Submission.AdvanceWindowWithinAlgorithmWindow | tig-protocol/src/contracts/algorithms.rs:61-73 | A challenge that accepts advances never fails the algorithm gate's challenge check |
| Submission.AdvanceBalanceMonotone | tig-protocol/src/contracts/algorithms.rs:27-33 | Raising the player's balance keeps an accepted advance accepted with the same record |
| Submission.AlgorithmBalanceMonotone | tig-protocol/src/contracts/algorithms.rs:81-87 | Raising the player's balance keeps an accepted algorithm accepted with the same record |
| Submission.BinaryCompiledHasUrl | tig-protocol/src/contracts/algorithms.rs:120-122 | An enqueued binary that compiled has a download URL |
| Submission.BinaryOnce | tig-protocol/src/contracts/algorithms.rs:114-119 | Once a binary is recorded, any second submission for that algorithm is `BinaryAlreadySubmitted` |
| VoteTally.LockOffset | tig-protocol/src/contracts/algorithms.rs:171 | `round_votes_tallied - round` on `u32`: below 2^32. It is the difference when the tally is not earlier than the round, and the wrapped value 2^32 + tallied − round when it is |
| VoteTally.Skip | tig-protocol/src/contracts/algorithms.rs:172-175 | `skip(n)` keeps the elements from index n on, element for element, and none when n is past the end |
| VoteTally.SkipMonotone | tig-protocol/src/contracts/algorithms.rs:172-176 | With non-negative deposits, a larger skip never gives a larger vote weight |
| VoteTally.WeightAtTally | tig-protocol/src/contracts/algorithms.rs:171-176 | A tally in the current round counts all of a player's deposits |
| VoteTally.Reset | tig-protocol/src/contracts/algorithms.rs:159-164 | Every voting advance keeps its key and state, with its tally set to `{true: 0, false: 0}` |
| VoteTally.CastVotesAdds | tig-protocol/src/contracts/algorithms.rs:168-178 | One player's votes add that player's weight to the bucket of the vote's value on each voting advance voted on; nothing else changes |
| VoteTally.CastAllReceived | tig-protocol/src/contracts/algorithms.rs:165-180 | After all active players vote, each voting advance's two buckets have grown by exactly the deposit-weighted votes of that value (`Received`), and nothing else about it changed |
| VoteTally.TalliedIsReceived | tig-protocol/src/contracts/algorithms.rs:159-180 | The vote step sets each voting advance's tally to exactly (`Received` yes, `Received` no) and keeps its schedule and activation |
| VoteTally.TalliedIdempotent | tig-protocol/src/contracts/algorithms.rs:159-180 | Tallying again gives the same map: the tally is recomputed from scratch |
| VoteTally.CastOneMore | tig-protocol/src/contracts/algorithms.rs:168-178 | Handling one more of a player's votes updates only the advance voted on, from its current state; a vote on an advance outside the voting set changes nothing |
| Ledger.Normalise | tig-protocol/src/contracts/algorithms.rs:215 | Same length as the weights. Sums to one when the total is nonzero. Each element is the weight divided by the total, and all zeros when the total is zero |
| Ledger.NormaliseShares | tig-protocol/src/contracts/algorithms.rs:215 | Normalising non-negative weights gives elements in [0, 1] |
| Adoption.OfChallenge | tig-protocol/src/contracts/algorithms.rs:183-190 | Exactly the given algorithms whose challenge is c, duplicate-free when the given ones are |
| Adoption.GroupIsOfChallenge | tig-protocol/src/contracts/algorithms.rs:183-190 | `algorithms_by_challenge` has a list for c exactly when some active algorithm is of c, and that list is exactly c's active algorithms in order |
| Adoption.GroupGrouped | tig-protocol/src/contracts/algorithms.rs:183-190 | With distinct ids, every list of the grouping is nonempty and holds only algorithms of its own challenge |
| Adoption.Weights | tig-protocol/src/contracts/algorithms.rs:198-213 | One weight per listed algorithm, in list order. Each is Σ over qualifying players of influence · qualifiers / the player's qualifiers on the challenge |
| Adoption.AlgorithmWeightNonNegative | tig-protocol/src/contracts/algorithms.rs:199-212 | With non-negative influences an algorithm's weight is non-negative |
| Adoption.AdoptionShares | tig-protocol/src/contracts/algorithms.rs:198-215 | Each algorithm's adoption on its challenge is in [0, 1], and the adoptions sum to one unless every weight is zero |
| Adoption.AdoptOne | tig-protocol/src/contracts/algorithms.rs:216-226 | Writing one adoption keeps the keys of both block-data maps |
| Adoption.AdoptAllAlgorithms | tig-protocol/src/contracts/algorithms.rs:216-227 | Writing a list of distinct algorithms gives the k-th its k-th share and leaves every other algorithm alone |
| Adoption.AdoptAllAdvances | tig-protocol/src/contracts/algorithms.rs:216-227 | Writing a list adds to each advance with block data exactly the shares of the listed algorithms built on it; other advances are unchanged |
| Adoption.ChallengeAdoption | tig-protocol/src/contracts/algorithms.rs:198-215 | One adoption per listed algorithm (their values are stated by `AdoptionShares` and `AlgorithmAdoption`) |
| Adoption.AdoptChallenges | tig-protocol/src/contracts/algorithms.rs:192-228 | The adoption step, over active challenges in order, skipping those without algorithms; keeps the keys of both block-data maps |
| Adoption.AdvanceGains | tig-protocol/src/contracts/algorithms.rs:192-228 | Each advance with block data gains exactly the adoptions of the algorithms built on it, over all active challenges, and keeps its merge points |
| Adoption.AlgorithmAdoption | tig-protocol/src/contracts/algorithms.rs:192-228 | An algorithm listed under an active challenge holds the normalised weight at its place in the list. Any other algorithm keeps the adoption it had |
| Merges.AddPoints | tig-protocol/src/contracts/algorithms.rs:232-250 | The merge-points loop over the active ids keeps the keys of the block data |
| Merges.AddPointsExact | tig-protocol/src/contracts/algorithms.rs:232-250 | With distinct ids, an entity's merge points rise by exactly one when it is listed, unmerged and adopted at least at the threshold. Everything else about every entity is unchanged |
| Merges.AddPointsMonotone | tig-protocol/src/contracts/algorithms.rs:236-238 | Merge points never decrease, adoption is untouched, and an already merged entity is unchanged |
| Merges.Best | tig-protocol/src/contracts/algorithms.rs:255-258 | `max_by_key`: an element of the list whose merge points are at least those of every element |
| Merges.BestIsLast | tig-protocol/src/contracts/algorithms.rs:255-258 | The chosen element is the last maximum: every later element has strictly fewer merge points |
| Merges.WinnerIsLeader | tig-protocol/src/contracts/algorithms.rs:254-264 | An algorithm wins exactly when it is the `max_by_key` leader of a considered list and has at least the threshold of merge points, both directions |
| Merges.WinnersStep | tig-protocol/src/contracts/algorithms.rs:254-270 | Considering one more list adds its leader to the winners when the leader meets the threshold, and nothing otherwise |
| Merges.Stamp | tig-protocol/src/contracts/algorithms.rs:266-269 | `round_merged` set to round + 1 for the chosen ids; the keys are kept |
| Merges.StampOneMore | tig-protocol/src/contracts/algorithms.rs:266-269 | Stamping one more id is a single map update to `Some(round + 1)` |
| Merges.PromoteAlgorithms | tig-protocol/src/contracts/algorithms.rs:254-270 | The algorithm merges keep the keys of `round_merged` |
| Merges.PromoteAlgorithmsExact | tig-protocol/src/contracts/algorithms.rs:254-270 | An algorithm's `round_merged` becomes `Some(round + 1)` when it is the `max_by_key` leader of some list with at least the threshold of merge points, and is unchanged otherwise |
| Merges.LeaderPromoted | tig-protocol/src/contracts/algorithms.rs:254-270 | The leader of a list whose algorithms all have a `round_merged` entry has one too, and gets `Some(round + 1)` when it has at least the threshold of merge points |
| Merges.OneWinnerPerChallenge | tig-protocol/src/contracts/algorithms.rs:254-270 | At most one algorithm per challenge is merged, and it is the list's `max_by_key` leader |
| Merges.PromoteAdvances | tig-protocol/src/contracts/algorithms.rs:272-283 | The advance merges keep the keys of `round_merged` |
| Merges.PromoteAdvancesExact | tig-protocol/src/contracts/algorithms.rs:272-283 | An advance's `round_merged` becomes `Some(round + 1)` when it is active with at least the threshold of merge points, and is unchanged otherwise |
| Merges.PromoteIdempotent | tig-protocol/src/contracts/algorithms.rs:253-284 | Running either merge twice at the same boundary gives the same map as once |
| Merges.AdvanceMergeRestamps | tig-protocol/src/contracts/algorithms.rs:272-283 | An advance merged in an earlier round that is active with enough points gets `round_merged` = `Some(round + 1)` again, a new value: no existing-merge check is made |
| Merges.YesShare | tig-protocol/src/contracts/algorithms.rs:292-295 | yes / (yes + no): the share times the total is the yes votes |
| Merges.Activate | tig-protocol/src/contracts/algorithms.rs:287-300 | The activation keeps the keys of the voting map |
| Merges.ActivateChanges | tig-protocol/src/contracts/algorithms.rs:290-299 | Only `round_active` can change, only for an advance whose tally is due next round with a nonzero total and a yes-share at the threshold; activating twice is activating once |
| Merges.ActivateExact | tig-protocol/src/contracts/algorithms.rs:290-299 | An advance whose vote passes gets `round_active` = `Some(round + 1)` with everything else kept; any other advance is unchanged |
| Merges.NoVotesNoActivation | tig-protocol/src/contracts/algorithms.rs:291-295 | An advance with a zero tally, or whose tally is not due next round, is not activated |
| Merges.PassesIff | tig-protocol/src/contracts/algorithms.rs:291-296 | With non-negative votes, an advance passes exactly when its tally is due next round, the total is nonzero and yes ≥ threshold · (yes + no), both directions |
| BlockUpdate.ConsistentReady | tig-protocol/src/contracts/algorithms.rs:183-216 | On a consistent cache, the grouping is well formed and every listed algorithm of an active challenge can be weighed and written, so none of the lookups at these lines panics |
| BlockUpdate.ConsistentMerges | tig-protocol/src/contracts/algorithms.rs:254-269 | On a consistent cache, every listed algorithm has block data and a state, so none of the lookups at these lines panics |
| BlockUpdate.Accrued | tig-protocol/src/contracts/algorithms.rs:158-250 | The every-block steps keep the cache consistent and leave every `round_merged` unchanged |
| BlockUpdate.Closed | tig-protocol/src/contracts/algorithms.rs:253-300 | The round-boundary steps leave the block data unchanged |
| BlockUpdate.UpdateData | tig-protocol/src/contracts/algorithms.rs:158-300 | The block data after the update is what the every-block steps compute, at a boundary or not |
| BlockUpdate.OffBoundaryKeepsRounds | tig-protocol/src/contracts/algorithms.rs:253 | Off the last block of a round no algorithm or advance gets a new `round_merged` and no voting advance a new `round_active` |
| BlockUpdate.UpdateTallies | tig-protocol/src/contracts/algorithms.rs:159-180 | After the update each voting advance's tally is exactly the deposit-weighted yes and no votes of the active players |
| BlockUpdate.ActiveWeighable | tig-protocol/src/contracts/algorithms.rs:192-213 | The list of an active challenge can be weighed on it |
| BlockUpdate.AdoptionAt | tig-protocol/src/contracts/algorithms.rs:192-227 | The update gives the k-th algorithm of an active challenge's list its normalised weight |
| BlockUpdate.UpdateAdoptions | tig-protocol/src/contracts/algorithms.rs:192-228 | An active challenge's algorithms end with the normalised weights as adoptions. With non-negative influences each is in [0, 1], and they sum to one unless every weight is zero |
| BlockUpdate.UpdateMergePoints | tig-protocol/src/contracts/algorithms.rs:230-250 | Every active algorithm and advance gains exactly one merge point when unmerged and its new adoption meets its threshold, and none otherwise |
| BlockUpdate.CloseMergesLeaders | tig-protocol/src/contracts/algorithms.rs:254-270 | An algorithm whose `round_merged` changes at the boundary gets `Some(round + 1)`. It has at least the threshold of merge points, and no algorithm of its challenge's list has more |
| BlockUpdate.CloseMergesWinners | tig-protocol/src/contracts/algorithms.rs:254-270 | Conversely, the leader of each challenge's list that has at least the threshold of merge points gets `Some(round + 1)` |
| BlockUpdate.BoundaryMergesLeader | tig-protocol/src/contracts/algorithms.rs:230-270 | On a round's last block, the leader of each challenge's list by the merge points after this block's accrual gets `Some(round + 1)` when it reaches the threshold |
| BlockUpdate.BoundaryMergesAdvances | tig-protocol/src/contracts/algorithms.rs:230-283 | On a round's last block, an advance's `round_merged` becomes `Some(round + 1)` exactly when it is active and its merge points after this block's accrual reach the threshold; otherwise it stays |
| BlockUpdate.ActivateTallied | tig-protocol/src/contracts/algorithms.rs:159-180 | Activating a freshly tallied map sets `round_active` from the received deposit-weighted votes: next round exactly when the tally is due next round, the total is nonzero and yes / total reaches the threshold |
| BlockUpdate.BoundaryActivates | tig-protocol/src/contracts/algorithms.rs:286-300 | On a round's last block, an advance becomes active from the next round exactly when its tally is due next round, it received votes, and yes / (yes + no) of this block's deposit-weighted votes reaches the threshold; otherwise `round_active` stays |
| BlockUpdate.ResetTallies | tig-protocol/src/contracts/algorithms.rs:159-164 | The reset loop computes `Reset` |
| BlockUpdate.CastPlayerVotes | tig-protocol/src/contracts/algorithms.rs:168-179 | The loop over one player's votes computes that player's `CastVotes` |
| BlockUpdate.TallyVotes | tig-protocol/src/contracts/algorithms.rs:159-180 | The two vote loops compute `Tallied` |
| BlockUpdate.GroupByChallenge | tig-protocol/src/contracts/algorithms.rs:183-190 | The grouping loop computes `Group` |
| BlockUpdate.ComputeWeight | tig-protocol/src/contracts/algorithms.rs:200-211 | The loop over the qualifying players computes the algorithm's weight |
| BlockUpdate.ComputeWeights | tig-protocol/src/contracts/algorithms.rs:198-213 | The loop over the list computes `Weights` |
| BlockUpdate.WriteAdoptions | tig-protocol/src/contracts/algorithms.rs:216-227 | The zip loop computes `AdoptAll` of the normalised weights |
| BlockUpdate.AdoptActiveChallenges | tig-protocol/src/contracts/algorithms.rs:192-228 | The loop over active challenges computes `AdoptChallenges` |
| BlockUpdate.AddMergePoints | tig-protocol/src/contracts/algorithms.rs:232-250 | The merge-points loop computes `AddPoints` |
| BlockUpdate.MergeLeader | tig-protocol/src/contracts/algorithms.rs:255-269 | One more list of the merge loop: the stamped map grows from the winners of the lists done to those of one more list, and the lists left shrink |
| BlockUpdate.MergeAlgorithms | tig-protocol/src/contracts/algorithms.rs:254-270 | The loop over the lists computes `PromoteAlgorithms` |
| BlockUpdate.MergeAdvances | tig-protocol/src/contracts/algorithms.rs:272-283 | The loop over active advances computes `PromoteAdvances` |
| BlockUpdate.ActivateAdvances | tig-protocol/src/contracts/algorithms.rs:287-300 | The loop over voting advances computes `Activate` |
| BlockUpdate.BlockCache.constructor | tig-protocol/src/contracts/algorithms.rs:137-151 | The cache's fields are the given inputs and state |
| BlockUpdate.BlockCache.Update | tig-protocol/src/contracts/algorithms.rs:136-301 | On a consistent cache, `update` rewrites the cache's maps in place to exactly `UpdateSpec` of the old state, about which the `Update*` lemmas above state the properties |
| BlockUpdate.BlockCache.Accrue | tig-protocol/src/contracts/algorithms.rs:158-250 | The every-block steps turn the cache's state into `Accrued` of it |
| BlockUpdate.BlockCache.CloseRound | tig-protocol/src/contracts/algorithms.rs:253-300 | The round-boundary steps turn the cache's state into `Closed` of it |
| RouteCommon.PairSavings | tig-algorithms/src/vehicle_routing/clarke_wright_who/benchmarker_outbound.rs:39-47 | The nested loop lists exactly the savings d[i][0] + d[0][j] − d[i][j] of the customer pairs i < j (only the positive ones unless all are kept), in loop order, without repeats |
| RouteCommon.SortDown | tig-algorithms/src/vehicle_routing/clarke_wright_who/benchmarker_outbound.rs:48 | A permutation of the savings in non-increasing order |
| RouteCommon.Wrap | tig-algorithms/src/vehicle_routing/clarke_wright_who/benchmarker_outbound.rs:104-109 | `[0] + route + [0]`: starts and ends at the depot, the route in between |
| ClarkeWrightWho.Initial | tig-algorithms/src/vehicle_routing/clarke_wright_who/benchmarker_outbound.rs:51-53 | The table before the loop is well shaped: every stored route is nonempty and in range |
| ClarkeWrightWho.Step | tig-algorithms/src/vehicle_routing/clarke_wright_who/benchmarker_outbound.rs:56-99 | One iteration over a saving keeps every stored route nonempty and in range |
| ClarkeWrightWho.Joined | tig-algorithms/src/vehicle_routing/clarke_wright_who/benchmarker_outbound.rs:82-90 | The joined route is as long as both routes together (what it holds is stated by `JoinedFacts`) |
| ClarkeWrightWho.JoinedFacts | tig-algorithms/src/vehicle_routing/clarke_wright_who/benchmarker_outbound.rs:82-98 | The joined route of two disjoint routes with i and j at their ends lists exactly their nodes once each. It starts at the left route's far end and ends at the right route's far end, and its demand is the sum |
| ClarkeWrightWho.Merge | tig-algorithms/src/vehicle_routing/clarke_wright_who/benchmarker_outbound.rs:74-98 | The merge writes keep every stored route nonempty and in range |
| ClarkeWrightWho.StepKeeps | tig-algorithms/src/vehicle_routing/clarke_wright_who/benchmarker_outbound.rs:56-99 | One iteration keeps the invariant. The routes partition the customers, a route is stored exactly at its two end nodes with its demand there, and every merged route is within capacity |
| ClarkeWrightWho.RunInv | tig-algorithms/src/vehicle_routing/clarke_wright_who/benchmarker_outbound.rs:56-99 | Every prefix of the loop keeps that invariant |
| ClarkeWrightWho.Kept | tig-algorithms/src/vehicle_routing/clarke_wright_who/benchmarker_outbound.rs:101-103 | The increasing indices whose entry holds a route starting at that index, and all of them |
| ClarkeWrightWho.CollectFeasible | tig-algorithms/src/vehicle_routing/clarke_wright_who/benchmarker_outbound.rs:101-110 | Collecting a table that keeps the invariant yields routes that each leave and return to the depot, visit every customer exactly once overall, and keep every route with two or more customers within capacity |
| ClarkeWrightWho.RunFeasible | tig-algorithms/src/vehicle_routing/clarke_wright_who/benchmarker_outbound.rs:48-110 | For every visiting order of the savings (so every order `sort_unstable_by` may pick among ties) the output is feasible |
| ClarkeWrightWho.MergeStep | tig-algorithms/src/vehicle_routing/clarke_wright_who/benchmarker_outbound.rs:56-99 | The loop body, in place on the two arrays, performs exactly `Step` |
| ClarkeWrightWho.MergeRoutes | tig-algorithms/src/vehicle_routing/clarke_wright_who/benchmarker_outbound.rs:50-99 | The merge loop leaves the arrays equal to `Run` over the order |
| ClarkeWrightWho.SolveSubInstance | tig-algorithms/src/vehicle_routing/clarke_wright_who/benchmarker_outbound.rs:33-113 | `solve_sub_instance` always returns `Some` of a feasible set of routes |
| OptimizedClarke.Initial | tig-algorithms/src/vehicle_routing/optimized_clarke/open_data.rs:51-52 | The route map has exactly the customers 1..n−1 as keys, each mapped to a shaped route |
| OptimizedClarke.Step | tig-algorithms/src/vehicle_routing/optimized_clarke/open_data.rs:54-87 | One iteration as written, inserting under the pre-reversal keys, keeps stored routes nonempty and in range |
| OptimizedClarke.MergeStep | tig-algorithms/src/vehicle_routing/optimized_clarke/open_data.rs:55-86 | The loop body on the map and in place on the demand array performs exactly `Step` |
| OptimizedClarke.MergeRoutes | tig-algorithms/src/vehicle_routing/optimized_clarke/open_data.rs:51-87 | The `while let` loop leaves the map and the demands equal to `Run` |
| OptimizedClarke.SolveSubInstance | tig-algorithms/src/vehicle_routing/optimized_clarke/open_data.rs:34-101 | Always `Some`; every output route has at least one customer between two depot stops |
| OptimizedClarke.StaleKeysDuplicate | tig-algorithms/src/vehicle_routing/optimized_clarke/open_data.rs:71-86 | On a four-node instance the as-written loop returns `[[0, 1, 2, 3, 1, 2, 0]]`, which is not feasible |
| OptimizedClarke.FixedStepView | tig-algorithms/src/vehicle_routing/optimized_clarke/open_data.rs:54-87 | Viewed as a vector by node, the corrected step is the Clarke–Wright step of `clarke_wright_who` |
| OptimizedClarke.FixedRunView | tig-algorithms/src/vehicle_routing/optimized_clarke/open_data.rs:54-87 | Viewed as a vector by node, the corrected loop is the Clarke–Wright loop |
| OptimizedClarke.FixedRunFeasible | tig-algorithms/src/vehicle_routing/optimized_clarke/open_data.rs:54-98 | With the corrected step the output is feasible for every visiting order |
| SuperHeaped.Root | tig-algorithms/src/vehicle_routing/super_heaped/innovator_outbound.rs:57-62 | The representative `find` returns is a node whose parent is itself |
| SuperHeaped.RootRank | tig-algorithms/src/vehicle_routing/super_heaped/innovator_outbound.rs:57-62 | A node that is not its own root has a smaller rank than its root |
| SuperHeaped.Compress | tig-algorithms/src/vehicle_routing/super_heaped/innovator_outbound.rs:57-62 | After `find(x)` every node on the path from x points at the root, every other entry is unchanged, the forest is kept and no representative moves |
| SuperHeaped.CompressRoot | tig-algorithms/src/vehicle_routing/super_heaped/innovator_outbound.rs:58 | `find` on a root returns it and changes nothing |
| SuperHeaped.Find | tig-algorithms/src/vehicle_routing/super_heaped/innovator_outbound.rs:57-62 | `find`, recursive and in place on `parent`, returns `Root` and leaves `parent` equal to `Compress` |
| SuperHeaped.Link | tig-algorithms/src/vehicle_routing/super_heaped/innovator_outbound.rs:67-76 | Linking two roots keeps a forest of the same size |
| SuperHeaped.LinkRoots | tig-algorithms/src/vehicle_routing/super_heaped/innovator_outbound.rs:67-76 | After the link every member of either root has the winning root as representative, all others keep theirs. The winner is the root of higher rank, with `x`'s root winning a tie |
| SuperHeaped.Union | tig-algorithms/src/vehicle_routing/super_heaped/innovator_outbound.rs:64-77 | `union`, in place on both arrays, is `find(x)`, then `find(y)`, then `Link` of the two roots. On a tie y's root goes under x's and x's rank rises by one; equal roots change nothing |
| SuperHeaped.Stop | tig-algorithms/src/vehicle_routing/super_heaped/innovator_outbound.rs:80-84 | The number of pops before the first negative score: all earlier scores are non-negative and the next one is negative |
| SuperHeaped.Initial | tig-algorithms/src/vehicle_routing/super_heaped/innovator_outbound.rs:49-55 | The state before the loop is well shaped: a forest, and stored routes nonempty and in range |
| SuperHeaped.Merged | tig-algorithms/src/vehicle_routing/super_heaped/innovator_outbound.rs:107-121 | The merge writes and the union keep the state shaped |
| SuperHeaped.Step | tig-algorithms/src/vehicle_routing/super_heaped/innovator_outbound.rs:86-121 | One iteration as written keeps the state shaped |
| SuperHeaped.MergeStep | tig-algorithms/src/vehicle_routing/super_heaped/innovator_outbound.rs:86-121 | The loop body on the four arrays performs exactly `Step` |
| SuperHeaped.MergeLoop | tig-algorithms/src/vehicle_routing/super_heaped/innovator_outbound.rs:80-122 | The loop leaves the route array equal to `Run` over the pops before the first negative score |
| SuperHeaped.SolveSubInstance | tig-algorithms/src/vehicle_routing/super_heaped/innovator_outbound.rs:35-137 | Always `Some`; every output route has at least one customer between two depot stops |
| SuperHeaped.StaleDemandAndEmptyOutput | tig-algorithms/src/vehicle_routing/super_heaped/innovator_outbound.rs:101-128 | On a six-node instance the as-written loop builds a route of demand 5 over capacity 4, and returns no route at all |
| SuperHeaped.FixedRunFeasible | tig-algorithms/src/vehicle_routing/super_heaped/innovator_outbound.rs:80-136 | With the capacity test on the roots' demands and the output taken per root, the result is feasible for every order |
| AdaptiveCluster.Top | tig-algorithms/src/vehicle_routing/adaptive_cluster/inbound.rs:53 | `BinaryHeap::pop` returns an element of the heap at least as great as every other in tuple order |
| AdaptiveCluster.Candidates | tig-algorithms/src/vehicle_routing/adaptive_cluster/inbound.rs:96-101 | The pushed candidates are exactly (score, idx, node) for the unassigned nodes with cluster demand + d[last][node] ≤ capacity, where score = −(d[last][node] + d[node][0] − d[last][0]) |
| AdaptiveCluster.ScoreClusterExpansions | tig-algorithms/src/vehicle_routing/adaptive_cluster/inbound.rs:87-103 | The heap after the call holds exactly the old entries plus those candidates, and stays in heap order |
| AdaptiveCluster.Initial | tig-algorithms/src/vehicle_routing/adaptive_cluster/inbound.rs:40-50 | The state before the main loop is well shaped |
| AdaptiveCluster.Expand | tig-algorithms/src/vehicle_routing/adaptive_cluster/inbound.rs:58-64 | The node is appended to its cluster, its demand added to the cluster's, and it is removed from the unassigned set |
| AdaptiveCluster.Loop | tig-algorithms/src/vehicle_routing/adaptive_cluster/inbound.rs:53-70 | The main loop keeps the state shaped; it terminates on the unassigned count and the heap size |
| AdaptiveCluster.LoopDiscards | tig-algorithms/src/vehicle_routing/adaptive_cluster/inbound.rs:54-56 | A popped candidate whose node is assigned is dropped with no other change |
| AdaptiveCluster.LoopExpands | tig-algorithms/src/vehicle_routing/adaptive_cluster/inbound.rs:58-69 | A popped candidate whose node is unassigned expands its cluster, and the loop stops once nothing is unassigned |
| AdaptiveCluster.LoopEnds | tig-algorithms/src/vehicle_routing/adaptive_cluster/inbound.rs:53-69 | The loop ends with an empty heap or with no node unassigned |
| AdaptiveCluster.LoopKeeps | tig-algorithms/src/vehicle_routing/adaptive_cluster/inbound.rs:58-61 | Cluster demands stay the sums of their nodes' demands, and each node's occurrences in the clusters plus its unassigned mark stay constant, so expansion appends each node at most once |
| AdaptiveCluster.VisitsTwice | tig-algorithms/src/vehicle_routing/adaptive_cluster/inbound.rs:40-70 | When every customer fits its own cluster, the loop assigns every customer, so each ends up twice in the clusters |
| AdaptiveCluster.OutputNotFeasible | tig-algorithms/src/vehicle_routing/adaptive_cluster/inbound.rs:40-84 | On such an instance the routes visit a customer twice, so they are not a feasible sub-solution |
| AdaptiveCluster.FixedInitial | tig-algorithms/src/vehicle_routing/adaptive_cluster/inbound.rs:40-42 | The corrected start, with every seed customer counted as assigned: well shaped, nothing unassigned and nothing queued |
| AdaptiveCluster.FixedOutputFeasible | tig-algorithms/src/vehicle_routing/adaptive_cluster/inbound.rs:40-84 | From the corrected start the expansion loop does nothing: the routes are `[0, x, 0]` for every customer x, in order, and feasible on every instance |
| AdaptiveCluster.Output | tig-algorithms/src/vehicle_routing/adaptive_cluster/inbound.rs:73-82 | At most one route per cluster (each nonempty cluster wrapped with depot stops) |
| AdaptiveCluster.OutputAll | tig-algorithms/src/vehicle_routing/adaptive_cluster/inbound.rs:73-82 | With every cluster nonempty, the output is every cluster wrapped, in order |
| AdaptiveCluster.SeedExpansions | tig-algorithms/src/vehicle_routing/adaptive_cluster/inbound.rs:47-50 | The initial scoring loop leaves a heap holding exactly the candidates of all singleton clusters |
| AdaptiveCluster.PopCandidate | tig-algorithms/src/vehicle_routing/adaptive_cluster/inbound.rs:53-70 | One turn of the loop, on the mutable vectors, set and heap, is a turn of `Loop`, and decreases its measure |
| AdaptiveCluster.SolveSubInstance | tig-algorithms/src/vehicle_routing/adaptive_cluster/inbound.rs:34-85 | The routes are exactly `Output` of the clusters `Loop` leaves from `Initial` |
| DpllBacktracking.Defaulted | tig-algorithms/src/satisfiability/dpll_backtracking/open_data.rs:26 | `unwrap_or(false)` per slot: true exactly where the slot holds `Some(true)` |
| DpllBacktracking.UnitPassSpec | tig-algorithms/src/satisfiability/dpll_backtracking/open_data.rs:42-51 | The unit loop only adds assignments. It succeeds exactly when no two unit literals clash and none clashes with the assignment, and then every unit's variable holds that unit's polarity |
| DpllBacktracking.UnitPassValues | tig-algorithms/src/satisfiability/dpll_backtracking/open_data.rs:43-51 | After a successful unit pass every other variable is as it was |
| DpllBacktracking.UnitPassFailFrozen | tig-algorithms/src/satisfiability/dpll_backtracking/open_data.rs:47-49 | Once a unit conflicts, the early return leaves the slice as it was at that point |
| DpllBacktracking.PolaritiesKeys | tig-algorithms/src/satisfiability/dpll_backtracking/open_data.rs:53-61 | The keys of `pure_literals` are exactly the variables that occur |
| DpllBacktracking.PolaritiesFirst | tig-algorithms/src/satisfiability/dpll_backtracking/open_data.rs:53-61 | Each variable's entry is the polarity of its first occurrence |
| DpllBacktracking.PureFill | tig-algorithms/src/satisfiability/dpll_backtracking/open_data.rs:62-67 | The fill keeps the slice's length. It gives every unassigned variable in the map that variable's polarity and leaves assigned ones untouched |
| DpllBacktracking.FirstNone | tig-algorithms/src/satisfiability/dpll_backtracking/open_data.rs:69 | `position(is_none)`: the first unassigned slot, or none when every slot is assigned |
| DpllBacktracking.DpllRun | tig-algorithms/src/satisfiability/dpll_backtracking/open_data.rs:33-80 | `dpll` on values, including the panic of the `unwrap`; the slice it leaves keeps every value that was assigned |
| DpllBacktracking.DpllRunClosedForm | tig-algorithms/src/satisfiability/dpll_backtracking/open_data.rs:33-80 | `dpll` returns true exactly on an empty clause list. It returns false on an empty clause or clashing unit literals, and panics in every other case (the clauses are never simplified) |
| DpllBacktracking.AssignUnits | tig-algorithms/src/satisfiability/dpll_backtracking/open_data.rs:42-51 | The unit loop, in place on the assignment array, computes `UnitPass` |
| DpllBacktracking.FirstPolarities | tig-algorithms/src/satisfiability/dpll_backtracking/open_data.rs:53-61 | The nested loop builds exactly the first-occurrence polarity map |
| DpllBacktracking.AssignPolarities | tig-algorithms/src/satisfiability/dpll_backtracking/open_data.rs:62-67 | The fill loop, in place, computes `PureFill` |
| DpllBacktracking.Dpll | tig-algorithms/src/satisfiability/dpll_backtracking/open_data.rs:33-80 | The recursive method, in place on the slice, produces exactly the outcome and the slice of `DpllRun` |
| DpllBacktracking.SolveChallenge | tig-algorithms/src/satisfiability/dpll_backtracking/open_data.rs:21-31 | Returns `Some(all false)` exactly on an empty clause list, and `None` exactly on an empty clause or clashing units. It panics exactly otherwise, and `Some` exactly when `dpll` answers true |
| DpllBacktracking.SatisfiableUnitClausePanics | tig-algorithms/src/satisfiability/dpll_backtracking/open_data.rs:69 | The satisfiable instance `[[1]]` over one variable makes `dpll` panic |
| DpllBacktracking.DpllFixed | tig-algorithms/src/satisfiability/dpll_backtracking/open_data.rs:33-80 | With the missing all-assigned case answered by checking the clauses, the recursion never panics, only extends the slice, and true means the defaulted assignment satisfies every clause |
| DpllBacktracking.SolveChallengeFixed | tig-algorithms/src/satisfiability/dpll_backtracking/open_data.rs:21-31 | Every solution returned over the corrected recursion has one value per variable and satisfies every clause |
| NeedForSpeed.BuildIndex | tig-algorithms/src/satisfiability/need_for_speed/innovator_outbound.rs:23-28 | `vars_map` maps each occurring literal to exactly the indices of the clauses containing it, and has no other key |
| NeedForSpeed.IndexSnoc | tig-algorithms/src/satisfiability/need_for_speed/innovator_outbound.rs:26 | One `entry().or_insert().insert(idx)` extends the index by one literal occurrence |
| NeedForSpeed.LargestKey | tig-algorithms/src/satisfiability/need_for_speed/innovator_outbound.rs:30-35 | The head of `lens` sorted by decreasing size is a key whose set is as large as any |
| NeedForSpeed.Subtract | tig-algorithms/src/satisfiability/need_for_speed/innovator_outbound.rs:42-45 | `retain` with the set difference: a key is kept exactly when its set minus c is nonempty, and then holds that difference |
| NeedForSpeed.Retain | tig-algorithms/src/satisfiability/need_for_speed/innovator_outbound.rs:40-45 | s and −s are removed, every other set loses s's clauses, empty sets are dropped, and the key set strictly shrinks |
| NeedForSpeed.ResidualStep | tig-algorithms/src/satisfiability/need_for_speed/innovator_outbound.rs:39-45 | One round turns the map of uncovered clauses of the undecided literals after `chosen` into the same map after `chosen + [s]` |
| NeedForSpeed.Round | tig-algorithms/src/satisfiability/need_for_speed/innovator_outbound.rs:30-45 | The picked literal is in range and undecided, has a nonempty set, and covers as many uncovered clauses as any literal (so the `s.1 == 0` break never fires) |
| NeedForSpeed.GreedyDistinct | tig-algorithms/src/satisfiability/need_for_speed/innovator_outbound.rs:39-41 | The picked literals name distinct variables |
| NeedForSpeed.CoveredClauseTrue | tig-algorithms/src/satisfiability/need_for_speed/innovator_outbound.rs:39 | A clause covered by a picked literal is true under the assignment the picks write |
| NeedForSpeed.GreedySatisfiesCovered | tig-algorithms/src/satisfiability/need_for_speed/innovator_outbound.rs:29-46 | Once the map is empty, a clause is true exactly when a picked literal covers it |
| NeedForSpeed.SolveChallenge | tig-algorithms/src/satisfiability/need_for_speed/innovator_outbound.rs:19-49 | Always `Some`. The variables are false except where a greedy pick of a largest literal set them to its polarity, the map ends empty, and a clause is true exactly when covered |

## Left out

- Storage and the mempool. The async `get_*` lookups of the submission gates are an immutable `Context` of optional lookups. `add_*_to_mempool` is the gate's `Enqueue` verdict. The ids the mempool assigns, and storage errors (which are only propagated), are not modelled.
- `PreciseNumber` is exact `real`. Its fixed-point rounding and overflow are not modelled, and neither is `from_f64` on the configured thresholds, which are given rationals.
- `normalise` is not part of this model's source files. `Ledger.Normalise` defines it as division by the total, with all zeros for a zero total, and proves the "sums to one or all zeros" contract about that definition.
- Division by zero in the weights (a qualifying player with zero qualifiers on the challenge) is excluded by `Consistent`. The map-index panics (`[]`, `unwrap`) at the lookups of `update` are excluded the same way; the submission gates handle their own missing challenge, advance and algorithm entries with an error.
- Hash iteration order. The active id sets are given as duplicate-free sequences. The order of the `algorithms_by_challenge` values, of `votes` and of the `voting_advances_state` values is either a `Choose` over the remaining keys or made irrelevant by the map comprehensions. The same holds for the `unassigned` set in `adaptive_cluster`, the `pure_literals` map in `dpll_backtracking` and `vars_map` in `need_for_speed`. The output order of `optimized_clarke` follows increasing keys instead of the hash map's order.
- Merges.AddPoints: `merge_points += 1` is on `u32` and would overflow at 2^32; the model uses unbounded `nat`.
- Routing and SAT arithmetic (savings, scores, demands) uses unbounded `int` instead of `i32`, so `i32` overflow is not modelled.
- Sorting ties. `sort_unstable_by` in `clarke_wright_who` is modelled by one non-increasing order (`SortDown`). `ClarkeWrightWho.RunFeasible` covers every other order. The `lens.sort_by` of `need_for_speed` is any key of largest size.
- `solve_challenge` of the four routing files loops over the sub-instances and returns `None` as soon as one sub-instance gives `None`. It is not modelled: every modelled `solve_sub_instance` returns `Some`.
- `#[time]` instrumentation and logging have no behaviour to model.
- OptimizedClarke.SolveSubInstance and SuperHeaped.SolveSubInstance state the output's shape only. Feasibility fails as written, as the Findings show; the exact routes are stated by their `MergeRoutes`/`MergeLoop` and the `Run` functions.
- Submission: the gates' `get_block_details(..).unwrap()` (algorithms.rs:18 and 60) is not modelled: `Context.latestRound` is the latest block's round, always present. The `u32` sum of the algorithm window (algorithms.rs:65-69) is the unbounded `AlgorithmSlack`, so its overflow is not modelled.
- VoteTally.LockOffset: models the release-build wrap of the `u32` subtraction at algorithms.rs:171; a debug build panics there instead, which is not modelled.
- RouteCommon.Valid: requires at least the depot node, a square distance matrix and one demand per node. The solvers index out of bounds otherwise, and that panic is not modelled. At n = 0, `optimized_clarke` does not panic: it returns `Some` with no routes, and that case is not modelled either.
- DpllBacktracking.WellFormed: requires every literal nonzero with its variable at most `num_variables`. The source panics on literal 0 and on a larger variable (open_data.rs:45 and 63), and that panic is not modelled.
- NeedForSpeed.WellFormed: the same requirement on literals. The source panics on literal 0 or a larger variable (innovator_outbound.rs:39), and that panic is not modelled.
- BlockUpdate.Consistent: requires `blocks_per_round > 0`. A config with `blocks_per_round == 0` makes `update` panic on the remainder at algorithms.rs:253 and 287, and that panic is not modelled.
- RouteCommon.Feasible: a single customer's demand is never checked against capacity, because no modelled solver checks it. A route `[0, x, 0]` counts as feasible even when x's demand exceeds the capacity, so the feasibility lemmas promise capacity only for routes with two or more customers.
- Common.Abs: unbounded, so the overflow of Rust's `abs` on `i32::MIN` is not modelled.

## Findings

| source | as written | input that shows it | evidently intended | confidence | as-written member | corrected member |
|---|---|---|---|---|---|---|
| tig-algorithms/src/satisfiability/dpll_backtracking/open_data.rs:69 | When every variable is assigned and clauses remain, `position(..).unwrap()` panics. The clauses are never simplified, so this happens on every instance without an empty clause or clashing units | one variable, clauses `[[1]]` (satisfiable by `[true]`) | answer whether the complete assignment satisfies every clause | not executed | DpllBacktracking.SatisfiableUnitClausePanics | DpllBacktracking.DpllFixed |
| tig-algorithms/src/vehicle_routing/adaptive_cluster/inbound.rs:40-42 | Every customer x is seeded as its own cluster `[x]` but also left in `unassigned`. Its own candidate, with score −d[x][x] and the test demand + d[x][x] ≤ capacity (lines 97-100), then appends it to a cluster a second time (line 59). Every customer is visited twice | any instance with a customer where each customer's demand plus d[x][x] fits the capacity, e.g. two nodes, d = 0 everywhere, demands 0 and 1, capacity 1: output `[[0, 1, 1, 0]]` | No fuller design is evident. The least change that gives feasible routes counts each seed as assigned, which leaves one route `[0, x, 0]` per customer. That corrected half checks the output shape only: from it the expansion loop never runs, so it does not exercise the clustering heuristic | not executed | AdaptiveCluster.OutputNotFeasible | AdaptiveCluster.FixedOutputFeasible |
| tig-algorithms/src/vehicle_routing/optimized_clarke/open_data.rs:71-86 | Only the keys i and j are removed, and the joined route is inserted under the pre-reversal keys `left_startnode` and `right_endnode`. Other end nodes keep stale routes that later merges join with live ones | four nodes, every customer 10 from the depot, d12 = 1, d13 = 5, d23 = 6, demands 1, capacity 10: output `[[0, 1, 2, 3, 1, 2, 0]]` | remove every old end node and store the route under its real first and last nodes | not executed | OptimizedClarke.StaleKeysDuplicate | OptimizedClarke.FixedRunFeasible |
| tig-algorithms/src/vehicle_routing/super_heaped/innovator_outbound.rs:101-128 | The capacity test reads demands at the routes' start nodes, but merged demands are written at the roots. The output keeps only routes stored at their own first node, while routes live at roots | six nodes, every customer 10 from the depot, customer distances 20 − saving with savings 0..9, demands 1, capacity 4: one route of demand 5 is built and the output is empty | read the demands at the roots and output the route of each root | not executed | SuperHeaped.StaleDemandAndEmptyOutput | SuperHeaped.FixedRunFeasible |
