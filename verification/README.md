# bye_machine: a verified model of the pool

`bye_machine` is a Solana program that runs a lottery over deposited NFTs. A pool keeps a
weighted draw domain over its active positions, a count of "blank" slots that steers the ticket
price, a ranked top tier that shares in fees, and fee accumulators that pay each position when it
leaves. A separate reader of the VRF provider's queue decides whether a batch may be refunded.
This project models those parts in Dafny and proves what they promise, over every input and every
run of instructions.

## How it is laid out

| file | what it holds |
|---|---|
| `Machine.dfy` | machine widths, error codes, checked arithmetic, division facts |
| `FeeMath.dfy` | inverse weighting, the published quote, accumulator units and payouts |
| `Leaves.dfy` | sums over the naive array of leaf weights, and the draw as a left-to-right scan |
| `Fenwick.dfy` | the range-sum tree in an array: add, subtract, prefix, leaf, binary descent |
| `IndexSpec.dfy` | the weight index as naive leaves with a stack of freed slots; whole runs of it |
| `WeightIndex.dfy` | the index account as a class over arrays, refining `IndexSpec` |
| `Rebalance.dfy` | blank targeting: the anchor, the eight-candidate scan, its loops |
| `RebalanceTheorems.dfy` | unique argmin, dominance, residual, saturation, price bound, success |
| `State.dfy` | pool, position and wallet accounts, as values and as objects |
| `TierSpec.dfy`, `TierTheorems.dfy` | the tier as a ranked sequence; sort-and-take; best-`k` reference |
| `TopTier.dfy` | the member array as a class shifted in place, refining `TierSpec` |
| `TierResolver.dfy` | the TypeScript resolver that predicts displacement and picks successors |
| `Accounting.dfy` | the accounting half of every instruction; `apply_withdraw` over the objects |
| `Sums.dfy` | sums of a measure over a sequence |
| `Ledger.dfy` | all instructions of a pool as one state machine |
| `LedgerInvariant.dfy`, `LedgerSteps.dfy`, `LedgerCloses.dfy` | the invariant and its preservation |
| `LedgerEffects.dfy`, `LedgerRefusals.dfy` | what each instruction leaves, field by field, and which error it returns otherwise |
| `LedgerTheorems.dfy` | runs, fee conservation, when exits succeed, draws |
| `LedgerUndo.dfy`, `LedgerLife.dfy` | what a withdrawal undoes; when a deposit can be approved; one position's whole life |
| `LedgerRecord.dfy` | when a re-attestation, a promotion and a configuration change succeed |
| `LedgerPrice.dfy`, `LedgerBest.dfy`, `LedgerFees.dfy` | which runs keep the blanks on target, which keep the tier the best, and where every position's earnings go |
| `LedgerDebt.dfy`, `LedgerFrozen.dfy` | what stays owed after a discard; the clock of activations, and what stands still while a batch is open |
| `LedgerWitnesses.dfy` | runs that reach the states the program's comments rule out |
| `VrfQueue.dfy`, `VrfQueueTheorems.dfy`, `VrfQueueReprint.dfy` | the queue reader, what its answers prove, its printer, and printing what was read |

Machine integers are bounded integers and each checked operation is a `Result`. An instruction
that returns an error is reverted by the chain, so objects promise nothing after an error and the
ledger stays where it was. Capacity is a parameter everywhere; nothing depends on 16,384 except
where a bound is stated.

A position's account key and its position id are both its index in `positions`: ids come from a
counter that only deposits advance, and an account is never reused in the model. Accounts passed
along with an instruction (`remaining_accounts`) are the `supplied` keys. Time, values and fees are
arguments. Committing a batch is modelled in full; what later advances or finishes it is an arbitrary
change of `openBatches` and of the pending liability.

## The main results

1. **Index.** For any capacity the tree's nodes hold the sums they must after every successful
   insert, remove and update; the class agrees with a naive array result for result, error for
   error. The panics and the two defensive checks of the allocator cannot be reached. The binary
   descent is the naive scan, so each slot wins exactly its weight in draws.
2. **Blank targeting.** Of the eight candidates the answer misses the target least, then has the
   fewest blanks, then the fewest of the first and last denominations, and is the only one to; no number
   of middle blanks beats it; its residual is at most half a middle blank's shift; the published quote
   misses the target by no more than that and one unit of flooring. Success is characterised exactly, at
   every machine width, by three inequalities on the target, the weights and the count.
3. **Tier.** Promotion from empty is sort-and-take, and nothing offered is lost. The best tier is
   unique. Activation, crossing, shrinking and succession by the resolver keep it; for the
   operations that do not always keep it the exact condition is proved, and over whole runs the
   tier is the best of the active positions as long as every step meets its condition.
4. **Whole runs.** After any run of deposits, approvals, re-attestations, withdrawals, seizures,
   promotions, configuration changes, commits and accruals: the pool's weight, counters and wallets are
   the totals of its active positions, each holding its own slot; the vault's debt covers every claim;
   the tier is exactly the flagged positions, ranked. Fees credited are fees paid plus fees owed, and
   what each single position earned is what it was paid, what a claimed card discarded and what it still
   claims, less than one unit short per settled leg; it is paid or discarded once. What a claimed card
   discarded stays owed on top of every claim.
5. **Every instruction.** What each leaves is stated field by field, on any reachable pool and without
   the functions that compute it: who joins or leaves the tier, what is due and paid, which parameter is
   written, and that nothing else moves. When it succeeds is a condition a caller can check beforehand,
   and otherwise the error is that of the first guard that fails, never one of bookkeeping. Exactly those
   configurations are identified under which no market the slots can hold is ever out of reach. A run
   ends on target unless its last change of faces or target was not followed by a move of weight, and an
   on-target pool that holds a position publishes a quote. From a committed batch until its life is
   advanced, whatever else happens, every draw selects the position it selected.
6. **Queue.** Exactly which bytes are a header, an item and a live region is stated on the bytes; the
   verdict is true exactly when a used item targets the program with the key; a printed queue reads back,
   and what was read prints back byte for byte exactly when the bytes the reader skips are zero.

## Where the code and its comments disagree

- `programs/bye_machine/src/common/rebalance.rs:90-94` says every face below the ticket target
  outweighs it, so a saturated pool yields no blanks. The floor division breaks this for very
  large faces: `LargeFaceUnderweighs` gives one, `SaturatedRunKeepsBlank` a run under a configuration
  the guard admits that ends saturated with a blank, `OutweighsIff` the exact condition on a face,
  `SmallFaceOutweighs` a sufficient one that any realistic face meets, and `SaturatedIff` exactly
  when a saturated evaluation always yields none.
- `programs/bye_machine/src/common/rebalance.rs:90-94` also rests on the configuration guard for the
  middle face outweighing the target. The same division breaks that: `ConfigCanStrand` reaches, by
  three changes the guard admits, a pool none of whose positions can be withdrawn while others remain.
- `scripts/lib/tier-resolve.ts:37-40` says a newly activating candidate never wins a tie. Position
  ids are assigned at deposit (`programs/bye_machine/src/instructions/deposit/deposit.rs:118`), not
  at approval, so of two positions approved in one second the later approval may carry the smaller
  id: `SameSecondTieRefused` gives the run, in which the second approval is refused for the account
  the resolver did not ask for, `ActivatingKeyAgreesIff` the condition on any tier, and
  `ClockedApproveSucceedsIff` shows that with a clock that never runs backwards nothing else goes wrong.

## Model

| member | source | states |
|---|---|---|
| FeeMath.WeightOf | programs/bye_machine/src/common/math.rs:9-17 | a weight exists exactly for values in 1..10^18, is never zero, and the error names the cause |
| FeeMath.WeightBrackets | programs/bye_machine/src/common/math.rs:6-17 | the weight is the integer whose product with the value brackets 10^18 |
| FeeMath.WeightAntitone | programs/bye_machine/src/common/math.rs:159-188 | a dearer card never weighs more; inverting a weight never lands below the value |
| FeeMath.AggregateWeight | programs/bye_machine/src/common/math.rs:21-34 | the loop over denominations computes the specified aggregate, error for error |
| RebalanceTheorems.AggregateIsWeighted | programs/bye_machine/src/common/math.rs:21-34 | a successful aggregate is the real weight plus every blank's weight times its count |
| FeeMath.QuoteBrackets | programs/bye_machine/src/common/math.rs:38-47 | the quote is the integer bracketing C times the slots over the weight |
| FeeMath.ShareBrackets | programs/bye_machine/src/common/math.rs:51-74 | a share is the integer bracketing the fee times its ten-thousandths |
| FeeMath.UnitBrackets | programs/bye_machine/src/common/math.rs:51-74 | a unit is the floor of 10^12 times the whole-unit share over the claimants, and exists exactly when there are any |
| LedgerEffects.SharesOfPool | programs/bye_machine/src/instructions/admin/update_config.rs:177-192 | under any accepted configuration the three shares of a fee lose at most two units of it between them |
| FeeMath.PayoutBrackets | programs/bye_machine/src/common/math.rs:78-90 | a payout takes the claim down to less than one unit, and no further |
| FeeMath.SplitSettlement | programs/bye_machine/src/common/math.rs:78-90 | splitting a span over m settlements pays at most the single amount and at least that minus m - 1 |
| Fenwick.LowBitIsAndNeg | programs/bye_machine/src/state/weight_index.rs:22-24 | `i & -i` in any word width is the largest power of two dividing `i` |
| Fenwick.Climb | programs/bye_machine/src/state/weight_index.rs:26-44 | the update walk visits exactly the nodes covering a leaf |
| Fenwick.Add | programs/bye_machine/src/state/weight_index.rs:26-34 | adding in place keeps every node the sum it covers and changes one leaf; no node overflows |
| Fenwick.Sub | programs/bye_machine/src/state/weight_index.rs:36-44 | subtracting in place keeps every node the sum it covers; no node underflows |
| Fenwick.Prefix | programs/bye_machine/src/state/weight_index.rs:47-56 | the downward walk sums exactly the first leaves, without overflow |
| Fenwick.Leaf | programs/bye_machine/src/state/weight_index.rs:60-64 | the difference of two prefixes is the leaf |
| Fenwick.Find | programs/bye_machine/src/state/weight_index.rs:66-83 | the descent lands where the cumulative sum passes the draw, for every capacity |
| Leaves.DrawIsInterval | programs/bye_machine/src/state/weight_index.rs:209-214 | a slot is drawn exactly on its prefix interval, and nobody exactly past the total |
| Leaves.DrawOdds | programs/bye_machine/src/state/weight_index.rs:295-299 | a slot wins exactly as many draws as it weighs, an empty slot none |
| IndexSpec.InsertWeightKeeps | programs/bye_machine/src/state/weight_index.rs:89-148 | an insert lands on a weightless slot, changes that leaf alone and keeps the slot partition |
| IndexSpec.InsertKeeps | programs/bye_machine/src/state/weight_index.rs:230-241 | the same, with the weight derived from the value |
| IndexSpec.RemoveKeeps | programs/bye_machine/src/state/weight_index.rs:150-173 | a remove is of a live slot, empties that leaf alone, and the free stack still has room |
| IndexSpec.UpdateKeeps | programs/bye_machine/src/state/weight_index.rs:175-207 | an update is of a live slot and moves that leaf alone |
| IndexSpec.Run | programs/bye_machine/src/state/weight_index.rs:215-300 | every run of inserts, removes and updates keeps the partition and the capacity |
| IndexSpec.RunPartition | programs/bye_machine/src/state/weight_index.rs:12-20 | after any run the occupied and freed slots are disjoint and together exactly those handed out |
| IndexSpec.InsertFailsOnlyWhen | programs/bye_machine/src/state/weight_index.rs:89-148 | after any run an insert fails only when all slots are occupied, the total overflows or the expected total is wrong |
| IndexSpec.Refusals | programs/bye_machine/src/state/weight_index.rs:89-207 | which error each operation is refused with, and exactly when a remove or an update succeeds |
| IndexSpec.RemoveUndoesInsert | programs/bye_machine/src/state/weight_index.rs:85-130 | a remove undoes an insert, and its slot is the next one handed out |
| WeightIndexState.WeightIndex.SlotAlloc | programs/bye_machine/src/state/weight_index.rs:89-115 | hands back the recycled or next fresh slot, whose bound and zero leaf hold |
| WeightIndexState.WeightIndex.SlotRelease | programs/bye_machine/src/state/weight_index.rs:122-130 | pushes a slot onto a stack that always has room |
| WeightIndexState.WeightIndex.InsertWeight | programs/bye_machine/src/state/weight_index.rs:132-148 | result, error and state after success are the naive index's |
| WeightIndexState.WeightIndex.Insert | programs/bye_machine/src/state/weight_index.rs:230-241 | the same, with the weight derived from the value |
| WeightIndexState.WeightIndex.Remove | programs/bye_machine/src/state/weight_index.rs:150-262 | result, error and state after success are the naive index's |
| WeightIndexState.WeightIndex.MoveLeaf | programs/bye_machine/src/state/weight_index.rs:190-204 | tree and aggregate move by the difference of two weights in either direction |
| WeightIndexState.WeightIndex.Update | programs/bye_machine/src/state/weight_index.rs:175-293 | result, error and state after success are the naive index's |
| WeightIndexState.WeightIndex.PrefixSearch | programs/bye_machine/src/state/weight_index.rs:209-299 | the draw on the tree is the naive scan, and only selects occupied slots |
| Rebalance.ScoreOf | programs/bye_machine/src/common/rebalance.rs:25-53 | the absolute price error, failing exactly when one of its four totals does not fit |
| Rebalance.EvaluateScan | programs/bye_machine/src/common/rebalance.rs:61-146 | the anchor and the nested loops compute the least of the eight candidates, error for error |
| Rebalance.SolveScan | programs/bye_machine/src/common/rebalance.rs:76-145 | the same for resolved weights |
| Rebalance.ScanAround | programs/bye_machine/src/common/rebalance.rs:115-142 | the inner loop extends the least key by two candidates or reports one that does not fit |
| RebalanceTheorems.GapIsLinear | programs/bye_machine/src/common/rebalance.rs:23-24 | each blank shifts the price error by its own constant |
| RebalanceTheorems.ScanIsUniqueArgmin | programs/bye_machine/src/common/rebalance.rs:112-145 | the answer is the one candidate every other is worse than, so visiting order does not matter |
| RebalanceTheorems.SolvedIsFirst | programs/bye_machine/src/common/rebalance.rs:55-60 | over the anchor and one more beside at most one of each other denomination the answer misses least, then has fewest blanks, then fewest of the first, then fewest of the last |
| RebalanceTheorems.EvaluatedIsFirst | programs/bye_machine/src/common/rebalance.rs:112-145 | the same of a whole evaluation, with the miss written out over the faces and the anchor as the last middle count that does not overshoot |
| RebalanceTheorems.SolvedCounts | programs/bye_machine/src/common/rebalance.rs:104-128 | the counts are the anchor or one more beside at most one of each other denomination |
| RebalanceTheorems.AnchorCrossing | programs/bye_machine/src/common/rebalance.rs:86-110 | the anchor is the last middle count that does not overshoot |
| RebalanceTheorems.Dominance | programs/bye_machine/src/common/rebalance.rs:55-60 | no number of pure middle blanks scores lower than the answer |
| RebalanceTheorems.Residual | programs/bye_machine/src/common/rebalance.rs:84-145 | without overshoot, twice the score is at most one middle blank's shift |
| RebalanceTheorems.SaturatedIsOptimal | programs/bye_machine/src/common/rebalance.rs:90-100 | when the reals overshoot and no blank is light, none is the answer and the optimum over all triples |
| RebalanceTheorems.SaturatedIff | programs/bye_machine/src/common/rebalance.rs:90-110 | over every weight that many positions can have, saturation always gives no blanks, and no blanks are the optimum over all triples, exactly when both outer faces outweigh the target |
| RebalanceTheorems.OutweighsIff | programs/bye_machine/src/common/rebalance.rs:90-93 | a face outweighs every higher target exactly when the division's remainder is below the weight |
| RebalanceTheorems.SmallFaceOutweighs | programs/bye_machine/src/common/rebalance.rs:90-93 | a face whose square is at most 10^18 outweighs every higher target |
| RebalanceTheorems.LargeFaceUnderweighs | programs/bye_machine/src/common/rebalance.rs:90-100 | a face below its target that does not outweigh it, and a blank returned although the one real position, at the greatest weight it can have, overshoots |
| RebalanceTheorems.PublishedQuote | programs/bye_machine/src/common/math.rs:36-47 | the quote for the evaluated set misses the target by at most half a shift per weight and one unit |
| RebalanceTheorems.SolveSucceedsIff | programs/bye_machine/src/common/rebalance.rs:61-146 | at every machine width the scan succeeds exactly when the middle face outweighs the target, the shortfall is under `u32::MAX` shifts and one blank of each kind fits |
| RebalanceTheorems.EvaluateSucceedsIff | programs/bye_machine/src/common/rebalance.rs:61-146 | an evaluation succeeds exactly over no positions, then with no blanks, or over faces that weigh something in a market the scan can solve |
| RebalanceTheorems.EvaluateNeverFails | programs/bye_machine/src/common/rebalance.rs:61-146 | with a heavy enough middle face and up to 16,384 positions it never fails and asks for at most one middle blank more than positions |
| RebalanceTheorems.AlwaysTargetableIff | programs/bye_machine/src/common/rebalance.rs:61-146 | exactly which faces and target can target every market up to a number of positions: three inequalities at the extreme weights |
| TierSpec.InsertKeepsSorted | programs/bye_machine/src/common/tier.rs:34-63 | the shifting insertion keeps the tier ranked |
| TierSpec.InsertCommutesWithTake | programs/bye_machine/src/common/tier.rs:36-63 | cutting to the size before or after an insertion gives the same tier |
| TierSpec.PromotionIsSortAndTake | programs/bye_machine/src/common/tier.rs:11-63 | any run of promotions from empty holds the best `size` of everything offered, ranked |
| TierSpec.PromotionLosesNothing | programs/bye_machine/src/common/tier.rs:24-63 | every offer is held at the end or was swapped out or rejected, once |
| TierTheorems.OutranksIff | programs/bye_machine/src/common/tier.rs:15-33 | dearer first, then longer active, then the lower id |
| TierTheorems.PromotionOutcome | programs/bye_machine/src/common/tier.rs:34-63 | a tier with room takes an offer, a full one takes it for its last member exactly when that one is outranked, and otherwise stays as it is |
| TierTheorems.SeatsIff | programs/bye_machine/src/common/tier.rs:66-127 | exactly when a seat can be filled, a member refreshed and a key demoted, and the error otherwise |
| TierTheorems.SortAndTakeIsBest | programs/bye_machine/src/common/tier.rs:9-63 | that tier is the best of the offered set |
| TierTheorems.BestIsUnique | programs/bye_machine/src/state/top_tier.rs:12-22 | there is one best tier of a set |
| TierTheorems.ActivationKeepsBest | programs/bye_machine/src/common/tier.rs:182-202 | offering a new position keeps the tier the best of the larger set |
| TierTheorems.DemoteRemoves | programs/bye_machine/src/common/tier.rs:66-77 | demotion takes out that member alone and keeps the order |
| TierTheorems.VacancyIff | programs/bye_machine/src/common/tier.rs:129-145 | an open vacancy keeps the tier the best exactly when nobody waits |
| TierTheorems.SuccessionIff | programs/bye_machine/src/common/tier.rs:118-163 | a successor always lands, and keeps the tier the best exactly when it outranks every other non-member |
| TierTheorems.RefreshIff | programs/bye_machine/src/common/tier.rs:79-98 | a refresh always lands, and keeps the tier the best exactly when the new entry outranks every non-member |
| TierTheorems.ShrinkKeepsBest | programs/bye_machine/src/common/tier.rs:204-218 | a shrink keeps the best and returns the ranked suffix |
| TierTheorems.GrowIff | programs/bye_machine/src/instructions/admin/update_config.rs:223-234 | a larger size keeps the tier the best exactly when nobody waits or it is full |
| TopTierState.TopTier.Place | programs/bye_machine/src/common/tier.rs:40-45 | the shifting loop is the ranked insertion |
| TopTierState.TopTier.Promote | programs/bye_machine/src/common/tier.rs:36-63 | members and outcome are the specification's |
| TopTierState.TopTier.Demote | programs/bye_machine/src/common/tier.rs:66-77 | members and removed entry are the specification's |
| TopTierState.TopTier.FillVacancy | programs/bye_machine/src/common/tier.rs:120-127 | succeeds exactly when there is room, with the specified members |
| TopTierState.TopTier.RefreshMember | programs/bye_machine/src/common/tier.rs:84-98 | succeeds exactly when the member is found, with the specified members |
| TopTierState.TopTier.Vacate | programs/bye_machine/src/common/tier.rs:104-116 | the entry leaves and the position carries its settled tier leg |
| TopTierState.TopTier.CrossIntoTier | programs/bye_machine/src/common/tier.rs:182-202 | the membership effect follows the outcome, and a rejection touches nothing |
| TopTierState.TopTier.Shrink | programs/bye_machine/src/common/tier.rs:209-218 | members and evicted suffix are the specification's |
| TopTierState.SettleDisplacedMember | programs/bye_machine/src/common/tier.rs:224-240 | the first supplied account with the key is settled, and no other is touched |
| TierResolver.ResolverAgreesIff | scripts/lib/tier-resolve.ts:237-247 | for a stored key the prediction is the chain's unless the tier is over-full |
| TierResolver.ActivatingKeyAgreesIff | scripts/lib/tier-resolve.ts:36-55 | the activating key predicts the chain on every tier, full, roomy or over-full, except in the tie and the over-full case it names |
| TierResolver.HighestFromLeads | scripts/lib/tier-resolve.ts:224-226 | the reduction returns a candidate nobody outranks |
| TierResolver.SuccessorIs | scripts/lib/tier-resolve.ts:281-305 | nobody succeeds a position that holds no seat; a member's successor is a candidate no other outranks, or nobody when there is none |
| TierResolver.ResolvedSuccessorKeepsBest | scripts/lib/tier-resolve.ts:294-305 | landing the resolved successor, or none when there is none, keeps the tier the best |
| Accounting.ApplyWithdrawInPlace | programs/bye_machine/src/common/exit_accounting.rs:50-118 | the exit over the three accounts computes the specified effect, error for error |
| Accounting.DepartInPlace | programs/bye_machine/src/common/exit_accounting.rs:83-108 | the four checked decrements and the rebalance in place |
| LedgerSteps.ExitPays | programs/bye_machine/src/common/exit_accounting.rs:39-81 | an exit pays the claim down to less than one unit per leg, leaves nothing accrued, and vacating settles nothing again |
| LedgerSteps.WithdrawalEffect | programs/bye_machine/src/common/exit_accounting.rs:50-118 | what a successful exit leaves of pool, position and wallet |
| LedgerSteps.WithdrawIsFilledDeparture | programs/bye_machine/src/instructions/exit/withdraw.rs:21-64 | settle, remove, vacate, fill and close amounts to a departure and a filled seat |
| LedgerSteps.WithdrawKeeps | programs/bye_machine/src/instructions/exit/withdraw.rs:21-64 | a withdrawal keeps the whole invariant |
| LedgerSteps.ApproveKeeps | programs/bye_machine/src/instructions/deposit/approve_deposit.rs:60-154 | an approval keeps the whole invariant |
| LedgerSteps.CrossKeeps | programs/bye_machine/src/common/tier.rs:182-240 | a crossing with its displaced member settled keeps fees and tier |
| LedgerSteps.FilledKeeps | programs/bye_machine/src/common/tier.rs:134-163 | filling an open seat succeeds exactly for an eligible candidate or none, and keeps the invariant |
| LedgerInvariant.LeavingKeepsClaim | programs/bye_machine/src/common/tier.rs:111-115 | settling a tier leg never fails and loses less than one unit of the claim |
| LedgerInvariant.AccrualGrowth | programs/bye_machine/src/common/math.rs:66-74 | an accrual raises the claims by its units, once per active position and once per member |
| LedgerCloses.CloseSettles | programs/bye_machine/src/instructions/value/record_value.rs:118-131 | a close settles each leg once onto the position and loses less than one unit per leg |
| LedgerCloses.RecordingEffect | programs/bye_machine/src/instructions/value/record_value.rs:84-154 | when a re-attestation closes, and what either outcome leaves |
| LedgerCloses.ClosingRecordKeeps | programs/bye_machine/src/instructions/value/record_value.rs:156-219 | a below-floor close keeps the whole invariant |
| LedgerCloses.MovingRecordKeeps | programs/bye_machine/src/instructions/value/record_value.rs:156-254 | a refresh, retention or crossing keeps the whole invariant |
| LedgerCloses.SeizeKeeps | programs/bye_machine/src/instructions/exit/close_seized.rs:168-340 | a seizure from any source state keeps the whole invariant |
| LedgerCloses.UpdateTierKeeps | programs/bye_machine/src/instructions/tier/update_tier.rs:9-43 | a promotion keeps the whole invariant |
| LedgerCloses.SettleEvictedKeeps | programs/bye_machine/src/instructions/admin/update_config.rs:227-260 | settling every evicted member leaves exactly the kept tier, solvent |
| LedgerCloses.ConfigKeeps | programs/bye_machine/src/instructions/admin/update_config.rs:40-107 | a configuration change keeps the whole invariant |
| LedgerCloses.AccrueKeeps | programs/bye_machine/src/common/events.rs:429-432 | an accrual built from the share units stays solvent |
| LedgerEffects.GenesisIsEmpty | programs/bye_machine/src/instructions/admin/init_pool.rs:105-200 | a new pool holds and owes nothing and is neither paused nor swept, with its parameters as configured |
| LedgerEffects.TierIsFlagged | programs/bye_machine/src/state/top_tier.rs:12-22 | after any run the tier is exactly the flagged positions, in rank order |
| LedgerEffects.DepositAppends | programs/bye_machine/src/instructions/deposit/deposit.rs:118-148 | a deposit appends one waiting account with nothing on it, unless deposits are paused |
| LedgerEffects.RejectionMarks | programs/bye_machine/src/instructions/deposit/reject_deposit.rs:9-30 | a rejection marks one waiting account, never the treasury's, and moves nothing else |
| LedgerEffects.ReleaseCloses | programs/bye_machine/src/instructions/exit/claim_nft_core.rs:80-90 | a claimed card closes a rejected, closed or seized account and no other |
| LedgerEffects.ApprovalActivates | programs/bye_machine/src/instructions/deposit/approve_deposit.rs:87-154 | an approval activates the deposit in the next slot at the attested value and lock, its equal leg starting now, and offers it to the tier; only the blanks move besides |
| LedgerEffects.CrossEffect | programs/bye_machine/src/common/tier.rs:182-240 | a crossing seats the position and evicts the least member of a full tier, its leg settled, or changes nothing when outranked |
| LedgerEffects.WithdrawalLeaves | programs/bye_machine/src/instructions/exit/withdraw.rs:21-64 | a withdrawal pays exactly what is due, each leg floored by itself, frees weight, slot and wallet share, and hands a member's seat to the successor; nobody else moves |
| LedgerEffects.RecordMoves | programs/bye_machine/src/instructions/value/record_value.rs:84-254 | what a close, a refresh or retention and a non-member's crossing leave on any reachable tier |
| LedgerEffects.SeizureMarks | programs/bye_machine/src/instructions/exit/close_seized.rs:226-280 | waiting, rejected and closed accounts are only marked, seized and released ones refused, and an active one leaves with what it is due on it |
| LedgerEffects.PromotionSeats | programs/bye_machine/src/instructions/tier/update_tier.rs:9-43 | a promotion seats the position and stamps its checkpoint; only a full tier's least member is evicted for it |
| LedgerEffects.ConfigWrites | programs/bye_machine/src/instructions/admin/update_config.rs:40-107 | each update writes the parameters it names and no other |
| LedgerEffects.ConfigEvicts | programs/bye_machine/src/instructions/admin/update_config.rs:95-260 | a smaller tier keeps its best members and settles every other; no other change moves anybody |
| LedgerEffects.AccrualCredits | programs/bye_machine/src/common/math.rs:49-74 | an accrual credits every slot and every member its floored part of the two shares and owes both |
| LedgerEffects.AccrualSucceedsIff | programs/bye_machine/src/common/math.rs:49-74 | it fails exactly over no slots or no members, or when a total no longer fits |
| LedgerEffects.SweepMoves | programs/bye_machine/src/instructions/value/begin_sweep.rs:10-16 | a sweep opens once and counts from zero, its end advances the epoch, and a pause sets the two switches |
| LedgerEffects.CommitOpens | programs/bye_machine/src/instructions/roll/commit_rolls.rs:124-160 | a commit opens the one batch, counts it and owes its price, and nothing else moves |
| LedgerRefusals.ApprovalRefuses | programs/bye_machine/src/instructions/deposit/approve_deposit.rs:60-186 | which error a refused approval returns, in the order of its guards |
| LedgerRefusals.ExitRefuses | programs/bye_machine/src/instructions/exit/withdraw.rs:21-95 | which error a refused exit returns, never one of bookkeeping |
| LedgerRefusals.RecordRefuses | programs/bye_machine/src/instructions/value/record_value.rs:84-254 | which error a refused re-attestation returns |
| LedgerRefusals.SeizureRefuses | programs/bye_machine/src/instructions/exit/close_seized.rs:226-280 | which error a refused seizure of an active position returns |
| LedgerRefusals.PromotionRefuses | programs/bye_machine/src/instructions/tier/update_tier.rs:9-52 | which error a refused promotion returns |
| LedgerRefusals.ConfigRefuses | programs/bye_machine/src/instructions/admin/update_config.rs:44-216 | which error a refused configuration change returns, in numbers and in the guard's order; an evicted member's fees never refuse it |
| LedgerRefusals.CommitRefuses | programs/bye_machine/src/instructions/roll/commit_rolls.rs:124-160 | which error a refused commit returns |
| LedgerTheorems.Run | programs/bye_machine/src/lib.rs:1-198 | after any run of instructions from a valid configuration the invariant holds |
| LedgerTheorems.WeightIsAttainable | programs/bye_machine/src/common/math.rs:9-17 | after any run a pool weighs at least one and at most 10^18 for each of its positions |
| LedgerTheorems.OccupiedByActive | programs/bye_machine/src/state/weight_index.rs:12-20 | after any run as many slots are occupied as positions are active |
| LedgerTheorems.StepConserves | programs/bye_machine/src/common/exit_accounting.rs:78-81 | one transaction moves what is owed by what it credits and pays |
| LedgerTheorems.FeesAreConserved | programs/bye_machine/src/common/exit_accounting.rs:68-81 | over any run fees credited are fees paid plus fees owed, and what is owed covers every claim |
| LedgerTheorems.RemoveNeverDesyncs | programs/bye_machine/src/common/exit_accounting.rs:83-108 | the index remove that follows a departure always succeeds |
| LedgerTheorems.ApplyWithdrawSucceedsIff | programs/bye_machine/src/common/exit_accounting.rs:57-106 | the exit's accounting fails only on its guards or when the remaining weight and count cannot be targeted, as inequalities |
| LedgerTheorems.WithdrawSucceedsIff | programs/bye_machine/src/instructions/exit/withdraw.rs:21-64 | exactly when an exit's state changes succeed after any run, as a check on state, configuration and the supplied successor |
| LedgerTheorems.ExitSucceedsIff | programs/bye_machine/src/instructions/exit/withdraw.rs:21-95 | exactly when the whole exit succeeds after any run: as above, and an account for the fees was brought unless less than a unit is due on each leg |
| LedgerTheorems.WithdrawAlwaysAvailable | programs/bye_machine/src/common/rebalance.rs:90-100 | in a pool that can target every market its slots can hold an unlocked position can always leave once no batch is open, and only then |
| LedgerTheorems.SeizeSucceedsIff | programs/bye_machine/src/instructions/exit/close_seized.rs:226-276 | exactly when an active position can be seized after any run, as a check on state and configuration |
| LedgerTheorems.DrawSelectsOnePosition | programs/bye_machine/src/state/weight_index.rs:295-299 | after any run every draw below the weight selects exactly one active position |
| LedgerTheorems.PositionOdds | programs/bye_machine/src/common/math.rs:6-17 | after any run a position wins exactly its weight out of the pool's weight draws |
| LedgerBest.ApproveKeepsBest | programs/bye_machine/src/instructions/deposit/approve_deposit.rs:126-146 | an approval keeps the tier the best of the active positions |
| LedgerBest.NonMemberRecordKeepsBest | programs/bye_machine/src/instructions/value/record_value.rs:233-253 | re-attesting a non-member keeps the tier the best |
| LedgerBest.MemberRecordKeepsBestIff | programs/bye_machine/src/instructions/value/record_value.rs:219-232 | a re-attestation that leaves a member in place, refreshed or retained, keeps the tier the best exactly when it still outranks every non-member |
| LedgerBest.WithdrawKeepsBest | scripts/lib/tier-resolve.ts:281-305 | a withdrawal handed the resolver's successor succeeds exactly when it would with none, and keeps the tier the best |
| LedgerBest.WithdrawKeepsBestIff | programs/bye_machine/src/instructions/exit/withdraw.rs:37-57 | a withdrawal keeps the tier the best exactly when the leaver was no member or the right successor was supplied |
| LedgerBest.ClosingRecordKeepsBestIff | programs/bye_machine/src/instructions/value/record_value.rs:200-219 | a below-floor close of a member keeps the tier the best exactly for the right successor |
| LedgerBest.SeizeKeepsBestIff | programs/bye_machine/src/instructions/exit/close_seized.rs:225-340 | a seizure keeps the tier the best exactly when the position was no member or nobody waits |
| LedgerBest.ConfigKeepsBestIff | programs/bye_machine/src/instructions/admin/update_config.rs:40-107 | a configuration change keeps the tier the best unless it opens seats while somebody waits |
| LedgerBest.PromotionRefused | programs/bye_machine/src/instructions/tier/update_tier.rs:9-52 | with the best tier in place every promotion is refused |
| LedgerBest.ResolverIsRight | scripts/lib/tier-resolve.ts:206-226 | the resolver's successor is eligible and the best of those who wait, or nobody when nobody waits |
| LedgerBest.StepKeepsBestIff | programs/bye_machine/src/lib.rs:1-198 | any one transaction keeps the best tier exactly when it fails or meets its condition |
| LedgerBest.RunKeepsBest | programs/bye_machine/src/lib.rs:1-198 | a run whose every successful step meets its condition ends with the best tier of its active positions |
| LedgerBest.TierGateIff | programs/bye_machine/src/instructions/roll/commit_rolls.rs:34-44 | after any run the tier holds at most what a commit requires, and exactly that when it is full or nobody waits |
| LedgerBest.BestTierPassesGate | programs/bye_machine/src/instructions/roll/commit_rolls.rs:124-145 | the best tier always has the length a commit requires |
| LedgerBest.CommitSucceedsIff | programs/bye_machine/src/instructions/roll/commit_rolls.rs:124-160 | exactly when a batch can be committed after any run |
| LedgerUndo.ApprovalEffect | programs/bye_machine/src/instructions/deposit/approve_deposit.rs:87-146 | what an approval leaves of pool, index, wallet and position |
| LedgerUndo.WithdrawUndoesApprove | programs/bye_machine/src/instructions/exit/withdraw.rs:31-45 | a withdrawal undoes the approval before it: weight, count, leaves, wallets and fees |
| LedgerLife.CrossSucceedsIff | programs/bye_machine/src/common/tier.rs:182-240 | a crossing fails only for a displaced member that was not supplied |
| LedgerLife.ApproveSucceedsIff | programs/bye_machine/src/instructions/deposit/approve_deposit.rs:60-186 | exactly when an approval succeeds after any run: guards, limits, widths, a free slot, the observation age, a market that can be targeted, and the displaced member supplied |
| LedgerLife.ResolvedApproveSucceedsIff | scripts/lib/tier-resolve.ts:237-247 | an approval given the account the resolver names succeeds exactly when it is admissible and a full tier's minimum is not the tie the resolver gets wrong |
| LedgerLife.LifeOfAPosition | programs/bye_machine/src/instructions/exit/withdraw.rs:21-64 | in any new pool that can target every market it can hold, any deposit within its limits can be approved and later withdrawn, leaving the pool empty |
| LedgerLife.LaunchConfigIsSteady | programs/bye_machine/src/common/constants.rs:23-36 | the launch defaults can target every market 16,384 slots can hold |
| LedgerRecord.RecordSucceedsIff | programs/bye_machine/src/instructions/value/record_value.rs:84-254 | exactly when a re-attestation succeeds after any run, closing or staying |
| LedgerRecord.UpdateTierSucceedsIff | programs/bye_machine/src/instructions/tier/update_tier.rs:9-52 | exactly when an eligible candidate is promoted |
| LedgerRecord.GuardIs | programs/bye_machine/src/instructions/admin/update_config.rs:177-220 | what the configuration guard asks, in numbers |
| LedgerRecord.ConfigSucceedsIff | programs/bye_machine/src/instructions/admin/update_config.rs:40-107 | exactly when a configuration change succeeds: the guard's clauses on the resulting configuration, the freeze, and every evicted member supplied |
| LedgerFees.StepAccounts | programs/bye_machine/src/common/exit_accounting.rs:39-81 | one transaction, one position: what it had and earned is what it has, was paid and lost to a discarded claim, less than one unit short per settled leg |
| LedgerFees.GoneStays | programs/bye_machine/src/common/exit_accounting.rs:68-81 | a closed account is never paid, discarded or closed again |
| LedgerFees.EarningsAreAccountedFor | programs/bye_machine/src/common/exit_accounting.rs:68-81 | the same over any run: no position is paid more than it earned, or short by a unit per settled leg, and it is paid or discarded at most once |
| LedgerDebt.StepClaims | programs/bye_machine/src/instructions/exit/close_seized.rs:150-160 | one transaction takes what it pays and discards out of the sum of claims, and adds at most what it credits |
| LedgerDebt.DiscardsStayOwed | programs/bye_machine/src/instructions/exit/close_seized.rs:150-160 | over any run what the vault owes covers every remaining claim and, on top, every unit a claimed card discarded |
| LedgerFrozen.ActivatedInThePast | programs/bye_machine/src/instructions/deposit/approve_deposit.rs:107-125 | with a clock that does not run backwards nobody was activated later than now |
| LedgerFrozen.ClockedApproveSucceedsIff | scripts/lib/tier-resolve.ts:36-43 | with such a clock an approval that trusts the resolver fails on the tier's account only for two approvals in one second, the earlier deposit second |
| LedgerFrozen.FrozenStep | programs/bye_machine/src/common/guards.rs:8-21 | while a batch is open no transaction moves the index, the blanks, the faces or the target |
| LedgerFrozen.FrozenRun | programs/bye_machine/src/common/guards.rs:8-21 | over any run while a batch is open every draw selects the position it selected |
| LedgerFrozen.CommittedRun | programs/bye_machine/src/common/guards.rs:8-21 | over any run from a successful commit until its life is advanced the batch stays open and every draw selects the position it would have selected before |
| LedgerPrice.WeightMovesRetarget | programs/bye_machine/src/common/exit_accounting.rs:97-104 | every instruction that moves weight leaves the blanks evaluation asks for |
| LedgerPrice.StepKeepsTarget | programs/bye_machine/src/instructions/admin/update_config.rs:110-118 | one transaction keeps a pool on target unless it changes the faces or the target |
| LedgerPrice.RunOnTarget | programs/bye_machine/src/instructions/admin/update_config.rs:110-118 | a run ends on target when weight has moved since its last change of faces or target |
| LedgerPrice.QuoteExistsIff | programs/bye_machine/src/common/math.rs:36-47 | after any run an on-target pool publishes a quote exactly when it holds a position, and never above 10^18 |
| LedgerPrice.PriceOnTarget | programs/bye_machine/src/common/math.rs:36-47 | after any run the quote an on-target pool publishes is within the residual and one unit of the target |
| LedgerWitnesses.SaturatedRunKeepsBlank | programs/bye_machine/src/common/rebalance.rs:90-100 | a run under an admitted configuration that ends saturated, on target and with a blank |
| LedgerWitnesses.LightFaceStrands | programs/bye_machine/src/common/rebalance.rs:76-85 | while the middle face does not outweigh the target no position can be withdrawn or seized unless it is the last |
| LedgerWitnesses.ConfigCanStrand | programs/bye_machine/src/instructions/admin/update_config.rs:175-192 | three changes the guard admits bring that about |
| LedgerWitnesses.SameSecondTieRefused | scripts/lib/tier-resolve.ts:36-43 | a run after which the resolver predicts nobody is displaced and the approval that believes it is refused for a missing account |
| VrfQueue.ScanLiveItems | programs/bye_machine/src/common/vrf_queue.rs:220-307 | the loop computes the specified scan and hands the visitor exactly the specified items |
| VrfQueueTheorems.ReadItemIff | programs/bye_machine/src/common/vrf_queue.rs:244-270 | an item is read exactly when its bytes are laid out contiguously within the limits |
| VrfQueueTheorems.WalkIff | programs/bye_machine/src/common/vrf_queue.rs:241-306 | the walk succeeds with exactly the items that tile the live region |
| VrfQueueTheorems.RegionsStayInside | programs/bye_machine/src/common/vrf_queue.rs:262-270 | every region lies inside its own slot and slots are consecutive |
| VrfQueueTheorems.VisitHands | programs/bye_machine/src/common/vrf_queue.rs:213-219 | the visitor gets the live items in order, its state passing from one to the next, until it answers, and all of them if it never does |
| VrfQueueTheorems.ReadLeWeighs | programs/bye_machine/src/common/vrf_queue.rs:150-175 | the first byte of a number weighs one and each next one 256 times as much |
| VrfQueueTheorems.ParseHeaderIff | programs/bye_machine/src/common/vrf_queue.rs:176-211 | exactly which bytes are a header and what it says: a cursor never written with nothing declared, or one inside the account |
| VrfQueueTheorems.ParseHeaderRefuses | programs/bye_machine/src/common/vrf_queue.rs:176-211 | which error any other account returns |
| VrfQueueTheorems.ReadItemRefuses | programs/bye_machine/src/common/vrf_queue.rs:244-270 | which error a refused item returns |
| VrfQueueTheorems.WalkRefuses | programs/bye_machine/src/common/vrf_queue.rs:241-306 | where a failing walk stops, and why |
| VrfQueueTheorems.BatchVerdict | programs/bye_machine/src/common/vrf_queue.rs:309-334 | on any bytes, when there is an answer, that it is true exactly when a used item matches, and its statistics |
| VrfQueueTheorems.MiscountIff | programs/bye_machine/src/common/vrf_queue.rs:328-334 | a miscount is reported exactly when items tile the region but not as many used ones as declared |
| VrfQueueTheorems.PrintedItemAt | programs/bye_machine/src/common/vrf_queue.rs:438-489 | an item printed at an offset is laid out there |
| VrfQueueTheorems.QueueRoundTrip | programs/bye_machine/src/common/vrf_queue.rs:220-307 | a printed queue walks back to exactly the printed items and scans to its live ones with complete statistics, whatever stale bytes follow |
| VrfQueueTheorems.PrintedVerdict | programs/bye_machine/src/common/vrf_queue.rs:309-334 | the verdict on a printed queue is about the printed items |
| VrfQueueReprint.ItemRewritesIff | programs/bye_machine/src/common/vrf_queue.rs:438-489 | an item read from a body prints back to its bytes exactly when its padding is zero |
| VrfQueueReprint.RegionRewritesIff | programs/bye_machine/src/common/vrf_queue.rs:438-489 | the items walked print back to the whole live region exactly when every padding byte is zero |
| VrfQueueReprint.ReprintsIff | programs/bye_machine/src/common/vrf_queue.rs:438-489 | a whole parsed account is re-emitted byte for byte exactly when its header's and items' padding is zero |

## Left out

- Token and NFT transfers, escrow, PDA derivation, signer and account validation: foreign calls and plumbing. Of a payout's optional USDC destination only whether one was brought is modelled, as `payable`.
- Core asset classification: whether a card is reachable is the `arrangeable` argument of a seizure.
- LedgerTheorems.Run: what advances and finishes a batch (callback, draw expansion, settlement) appears only as an arbitrary change of `openBatches` and the pending liability, which every theorem about runs allows. The instruction that accrues fees is not part of the repository; `Accrue` is built from the share units and the event's description of where each part stays.
- A commit's transfer from the roller, its VRF request and its batch account; collections, authorities and the VRF queue setting.
- Fields that nothing modelled reads: a position's observation time, value at deposit and rejection reason, and the pool's time of its last sweep.
- Acquisition by the treasury is not part of the repository; its exclusion from approval and rejection is modelled.
- Handlers other than `apply_withdraw` are modelled on values, as functions from ledger to ledger; updating their accounts in place and serialising them back is not captured. The index, the tier and the exit are modelled in place.
- Accounts of the supplied list are keys: whether they are writable, or deserialise, is not modelled, so a foreign account is refused as an ineligible candidate.
- VrfQueue.ScanLiveItems: what the visitor's own state is after a parse that fails is not stated.
- RebalanceTheorems.SaturatedIsOptimal: global optimality is stated for outer faces that weigh at least the target's inverse, because `SaturatedIff` shows that without that it fails for some attainable pool.
- Account byte layouts, the TypeScript cursors and RPC reads: the resolver is given the decoded tier and candidates.
