# Solana Vault Standard: verified model

A Dafny model of the share vaults of the Solana Vault Standard and proofs of what their users
rely on. The model follows the on-chain programs, in their default build (no optional modules):

| files | what they model |
|---|---|
| `Common`, `Conversion`, `Sums` | 64-bit checked arithmetic, the conversion kernel with its virtual offset (`modules/svs-math`), sums over accounts |
| `PublicLedger`, `PublicPricing`, `PublicRuns`, `PublicExchanges`, `PublicInflation`, `PublicTightness`, `PublicSync`, `PublicVault` | the live-balance vault (SVS-1) and the stored-balance vault (SVS-2) |
| `StreamLedger`, `StreamAccrual`, `StreamRuns`, `StreamExchanges`, `StreamVault` | the streaming vault (SVS-5) |
| `AsyncLedger`, `AsyncConservation`, `AsyncSettlement`, `AsyncPricing`, `AsyncRequests`, `AsyncWitnesses`, `AsyncVault` | the request, fulfil, claim protocol (SVS-10) |
| `Waterfall`, `TrancheLedger`, `TrancheRuns`, `TrancheGuarantees`, `TrancheEffects`, `TrancheExits`, `TrancheWitnesses`, `TranchedVault` | the tranched vault and its loops (SVS-12) |
| `TlvScan` | the extension scan of the devnet scripts |

Each vault appears twice. A `...Ledger` module states every instruction as a function from account
states to account states, with the program's checks in the program's order, the program's error
codes, its 64-bit overflow checks, and the token program's own refusals. The `...Vault` module is
the program's form: a class whose methods update the accounts in place, each proved to do exactly
what the ledger function says or, refused, to leave everything as it was. In `StreamVault`, whose
handlers write before their last check, an instruction is its handler and the runtime's rollback.
Theorems about whole runs quantify over all sequences of committed instructions of any users,
together with what may happen outside the program: token transfers and burns, and in SVS-10
addresses that change hands between the system and other programs. A transaction that fails is
rolled back as a whole, so it does not appear in a run.

The virtual asset is 1 and the virtual shares are `10^offset` in every program, and so here.
Clocks, callers and oracle prices are parameters.

## Where the programs and their description differ

The model follows the programs. Each difference below is a theorem: a reachable state or concrete
input that shows it, and the exact condition under which the described behaviour holds.

- SVS-10, exits while paused. `docs/SVS-10.md:313,325` and `scripts/svs-10/cancel-expiration.ts:244-270`
  let an expired request be cancelled while the vault is paused; both cancel instructions refuse a
  paused vault (`ExpiredCancelIffUnpaused`, `ExpiredButPaused`). Conversely `docs/SVS-10.md:318` says
  claims fail while paused; they succeed (`ClaimDepositEnabled`, `ClaimRedeemEnabled`).
- SVS-10, claims. `programs/svs-10/src/instructions/claim_redeem.rs:23-25` wants committed assets never
  to be trapped, and so does `programs/svs-10/src/instructions/claim_deposit.rs:23-25`. Two inputs trap them.
  A claim closes the claimable-tokens account, which needs it to hold exactly what is claimed
  (`ClaimRedeemEnabled`). Once it has been sent anything else no run ever claims it or lets its owner
  request another redeem (`OverfundedForever`, `OverfundedRefused`, `OverfundedReached`). And a request may
  name any receiver, but a claim wants an account of the system program (`ClaimDepositEnabled`,
  `ClaimRedeemEnabled`). A fulfilled request for an address of a program, such as the vault's own, is
  claimed in no run in which the address stays one, and its owner can neither cancel it nor make another
  (`ProgramDepositStays`, `ProgramRedeemStays`, `ProgramRefused`, `ProgramDepositReached`, `ProgramRedeemReached`).
- SVS-10, totals. `docs/SVS-10.md:339-343` moves `total_shares` at fulfilment; the program moves both
  totals at the claim (`TotalsMoveAtClaim`), so `total_shares` is the supply plus shares burned outside
  (`RunConserved`).
- SVS-10, full drain. `scripts/svs-10/full-drain.ts:146-201` expects a user who holds everything to
  redeem it at the vault price. The program prices a redeem at the shares not in escrow, and refuses
  that redeem (`LastExitIff`, `FullDrainRefused`, `FullDrainReached`). For the same reason a
  vault-priced redeem can pay more than its share of the vault (`OverpaidReached`): `ExactRedeemIff` and
  `RedeemKeepsPriceIff` give the exact conditions under which it does not.
- SVS-10, first price. `docs/SVS-10.md:211-213` skips the deviation check in an empty vault; the
  program compares with `PRICE_SCALE` (`FirstOraclePriceIff`).
- SVS-1, inflation. `scripts/svs-1/inflation-attack.ts:87-146` expects no profit from a donation. There
  is none with as many deposits of others as there are virtual shares (`InflationUnprofitable`), and one
  deposit more is enough for one (`InflationBoundTight`; for an asset without decimals 55 more,
  `InflationBoundWithoutDecimals`).
- SVS-5, checkpoints. `docs/SVS-5.md:83-93` and `scripts/svs-5/live-balance.ts:156-174` shrink the
  stream amount at a checkpoint; the program keeps it and counts what it has released. So
  `base + stream <= balance` (`scripts/svs-5/withdraw-mint.ts:194-196`) holds exactly while no more
  was released than donated (`ClaimedBoundIff`, `ClaimedBoundFails`). A running stream cannot be
  replaced, as `scripts/svs-5/edge-cases.ts:196-228` tries (`DistributeYieldIff`), and the program's
  provision for an unreleased remainder is never used (`NothingLeftToReplace`).
- SVS-12, the sum of the tranches. `docs/SVS-12.md:140` has every instruction keep
  `total_assets == sum(allocations)`. A rebalance does if and only if its two tranches differ
  (`RebalanceConservesIff`, `SelfRebalanceBreaksSum`): given one account twice, the framework loads
  two copies and the second one written back stays. Over a run the sum gains on the total exactly what
  was so rebalanced (`RunConserves`).
- SVS-12, exits. Holders cannot redeem one after another in any order: not after a loss
  (`LossTrapsSeniors`), not once a more senior tranche has left dust behind (`DustTrapsJuniors`), and, without
  a loss or a requirement, not once a tranche was rebalanced with itself and its holders have left with
  the assets of others (`SelfRebalanceTrapsJuniors`). `ExitIff` and, for whole sequences, `ExitsIff` say exactly
  which redeems succeed in every reachable state (`ReachableValid`). While the total is the sum of the
  tranches only subordination refuses a payment (`ExitWhileSumIff`). The largest junior redeem of
  `docs/SVS-12.md:169-171` is 2000, not 1600 (`JuniorLimit`).
- SVS-12, recovery. `programs/svs-12/src/instructions/record_loss.rs:6-12` has holders redeem after a full
  wipe once a yield was distributed. A yield is accepted only up to what the tranches still hold
  (`RecoveryIff`). So a wipe is final if and only if they hold nothing (`WipedFinalIff`, `WipeReached`),
  which is so unless a tranche was rebalanced with itself (`WipeFinalIffNoSelfRebalance`, `WipeRecovers`).

## Model

| member | source | states |
|---|---|---|
| Conversion.Quotient | modules/svs-math/src/mul_div.rs:31-64 | adding the divisor less one before a truncating division rounds up, leaving it out rounds down |
| Conversion.MulDiv | modules/svs-math/src/mul_div.rs:31-64 | the result is the rounded quotient; it is refused exactly for a zero divisor or when it leaves 64 bits |
| Conversion.IntermediatesFit | modules/svs-math/src/mul_div.rs:31-64 | the 128-bit product and ceiling adjustment never overflow, so those checks cannot fail |
| Conversion.RoundedUnique | modules/svs-math/src/rounding.rs:1-14 | each rounding direction determines its quotient |
| Conversion.ToSharesRounded | modules/svs-math/src/convert.rs:32-50 | assets to shares is the quotient at the virtual totals, in the given direction |
| Conversion.ToAssetsRounded | modules/svs-math/src/convert.rs:62-80 | shares to assets is the quotient at the virtual totals, in the given direction |
| Conversion.FavoursPoolIffPriceKept | README.md:224-229 | an exchange favours the vault exactly when it does not lower the share price, on products |
| Conversion.DepositFavoursPool | README.md:226 | deposit rounds in the vault's favour |
| Conversion.MintFavoursPool | README.md:227 | mint rounds in the vault's favour |
| Conversion.WithdrawFavoursPool | README.md:228 | withdraw rounds in the vault's favour |
| Conversion.RedeemFavoursPool | README.md:229 | redeem rounds in the vault's favour |
| Conversion.Adjoint | scripts/svs-1/withdraw-mint.ts:85-112 | deposit buys at least m shares iff it is at least mint's charge for m |
| Conversion.AdjointWithdraw | scripts/svs-1/withdraw-mint.ts:149-175 | redeem pays at least x iff it burns at least withdraw's charge for x |
| Conversion.RedeemSolvent | scripts/svs-1/full-drain.ts:169-209 | redeeming any part of the supply never asks for more than the vault is priced at |
| Conversion.RedeemSucceeds | modules/svs-math/src/convert.rs:62-80 | converting up to the whole supply fits in 64 bits whenever the virtual totals do |
| Conversion.RoundTripBounds | scripts/svs-1/inflation-attack.ts:176-214 | deposit then redeem returns no more than went in, and loses less than one unit and one share price |
| Conversion.ExactToShares | scripts/svs-10/multi-user.ts:149-220 | in a vault at the initial rate, assets convert to exactly `10^offset` shares each, rounded either way |
| Conversion.ExactToAssets | scripts/svs-10/multi-user.ts:149-220 | in a vault at the initial rate, whole-asset share amounts convert back exactly |
| PublicVault.Vault.constructor | programs/svs-2/src/instructions/initialize.rs:62-154 | a new vault is empty and not paused |
| PublicVault.Vault.Deposit | programs/svs-2/src/instructions/deposit.rs:67-190 | the whole new state and both amounts, or the error and no change; both balance models |
| PublicVault.Vault.Mint | programs/svs-2/src/instructions/mint.rs:70-186 | the same for mint |
| PublicVault.Vault.Withdraw | programs/svs-2/src/instructions/withdraw.rs:67-192 | the same for withdraw |
| PublicVault.Vault.Redeem | programs/svs-1/src/instructions/redeem.rs:71-187 | the same for redeem |
| PublicVault.Vault.Issue | programs/svs-2/src/instructions/deposit.rs:134-169 | assets in, shares minted, recorded total raised only in the stored model |
| PublicVault.Vault.Return | programs/svs-2/src/instructions/redeem.rs:123-175 | shares burned, assets out, recorded total lowered only in the stored model |
| PublicVault.Vault.Sync | programs/svs-2/src/instructions/admin.rs:238-260 | only the authority, only SVS-2; afterwards the priced total is the balance |
| PublicVault.Vault.SetPaused | programs/svs-1/src/instructions/admin.rs:40-70 | only the authority, and only to the other setting |
| PublicVault.Vault.OutcomeKeepsPrice | README.md:224-229 | no committed method call lowers the share price |
| PublicPricing.StepKeeps | README.md:224-229 | every step keeps the supply equal to the holdings, the price from falling, and the balance accounted for |
| PublicPricing.RunKeeps | README.md:224-229 | over any run the price never falls and the balance is what came in less what went out |
| PublicPricing.NoFreeAssets | README.md:224-229 | a run ending with no fewer shares than it began with pays out at most what was paid in and given |
| PublicPricing.LeaveEnabled | programs/svs-1/src/instructions/redeem.rs:126-167 | a payment up to the priced total always settles |
| PublicRuns.OthersHold | scripts/svs-1/full-drain.ts:169-209 | while one user acts, everyone else's shares together stay the same |
| PublicRuns.ActingAloneGainsNothing | README.md:224-229 | a user acting alone who ends with their initial shares gains nothing, by any mix of operations |
| PublicRuns.RedeemIff | programs/svs-1/src/instructions/redeem.rs:71-187 | exactly when a redeem succeeds; the asset check can never be the reason it fails |
| PublicRuns.EveryoneCanLeave | scripts/svs-1/full-drain.ts:169-209 | from any state, all redeems within the holdings succeed in any order and split, and pay at most the total |
| PublicRuns.DustStep | scripts/svs-5/full-drain.ts:125-126 | each redeem keeps back less than one more unit |
| PublicRuns.DrainDust | scripts/svs-5/full-drain.ts:240-247 | `n` redeems of the whole supply leave between the virtual shares' worth c and c + n - 1 |
| PublicExchanges.DepositIff | programs/svs-2/src/instructions/deposit.rs:67-190 | exactly when a deposit succeeds, on products of the amounts and totals |
| PublicExchanges.MintIff | programs/svs-2/src/instructions/mint.rs:70-186 | the same for mint |
| PublicExchanges.WithdrawIff | programs/svs-1/src/instructions/withdraw.rs:71-187 | the same for withdraw: not paused, within the priced total, and shares worth it held and allowed |
| PublicExchanges.ExchangePriced | README.md:224-229 | the user's amount is exchanged at the price before, rounded down what the user gets and up what the user gives; so withdraw burns the fewest shares and mint charges the least assets |
| PublicExchanges.ExchangeBooked | programs/svs-2/src/instructions/deposit.rs:134-169 | an exchange moves the balance, the supply, the recorded total and the user's shares by its amounts, and nobody else's |
| PublicExchanges.RunHoldings | programs/svs-1/src/instructions/redeem.rs:126-167 | over any run an account holds what it bought and was sent, less what it sold, sent and burned |
| PublicExchanges.ErrorTells | programs/svs-1/src/error.rs:5-30 | every refused exchange of a reachable vault names the check that failed |
| PublicExchanges.PausedRefuses | programs/svs-1/src/instructions/withdraw.rs:22-30 | a paused vault exchanges nothing, nor does one whose virtual totals leave 64 bits |
| PublicExchanges.AdminIff | programs/svs-2/src/instructions/admin.rs:104-260 | only the authority pauses, unpauses and syncs, and nothing else changes the configuration or, outside exchanges, the recorded total |
| PublicInflation.VictimStepContained | scripts/svs-1/inflation-attack.ts:87-146 | a deposit of others moves at most one share's worth to the earlier holder, a mint at most one unit, a donation or sync its amount |
| PublicInflation.SoleHolderBound | scripts/svs-12/inflation-attack.ts:7-12 | after any number k of others' deposits, and any mints, the holder of the whole supply S redeems at most S/(S + 10^offset - k) of what the vault held and was given, and one unit |
| PublicInflation.SoleHolderGainsNothing | scripts/svs-12/inflation-attack.ts:7-12 | with up to `10^offset` deposits and any mints of others the holder of the whole supply redeems for at most what the vault held and was given |
| PublicInflation.InflationUnprofitable | scripts/svs-1/inflation-attack.ts:87-146 | first into a new vault, any preparation, up to `10^offset` deposits and any mints of others, full redeem: no profit beyond the donations and a unit a mint |
| PublicTightness.InflationBoundTight | scripts/svs-1/inflation-attack.ts:87-146 | that number is exact: for every offset up to 8 a run with one deposit more in which the first holder gains |
| PublicTightness.InflationBoundWithoutDecimals | scripts/svs-1/inflation-attack.ts:87-146 | for offset 9 such a run with 55 deposits more than virtual shares |
| PublicInflation.ExactExchange | scripts/svs-1/full-drain.ts:169-209 | at the initial rate every exchange in whole assets is exact |
| PublicInflation.ExactRun | scripts/svs-1/full-drain.ts:169-209 | without yield the rate never changes over a run, and redeeming everything leaves nothing |
| PublicSync.SyncedStep | scripts/svs-2/stored-balance.ts:104-189 | a synced stored vault and the live vault give the same result, amounts and error on every instruction |
| PublicSync.SyncedDonation | scripts/svs-2/sync.ts:102-171 | a donation followed by a sync is a donation to the live vault |
| PublicSync.SyncedRun | scripts/svs-2/sync.ts:102-171 | with a sync after every donation the whole run succeeds alike, with the same receipts and final state |
| PublicSync.UnsyncedStep | scripts/svs-2/inflation-attack.ts:108-146 | unrecorded assets change no amount and no error, and no success unless the assets paid in no longer fit beside them in 64 bits |
| PublicSync.UnsyncedRun | scripts/svs-2/inflation-attack.ts:108-146 | erasing all donations from a run without syncs changes no receipt, only the unrecorded balance |
| StreamVault.Vault.constructor | programs/svs-5/src/instructions/initialize.rs:62-144 | a new vault is empty, idle and not paused |
| StreamVault.Vault.Checkpoint | programs/svs-5/src/state.rs:128-157 | the new state and what was moved to the base |
| StreamVault.Vault.Deposit | programs/svs-5/src/instructions/deposit.rs:71-194 | the whole new state and both amounts, or the error |
| StreamVault.Vault.Mint | programs/svs-5/src/instructions/mint.rs:71-185 | the same for mint, which has no minimum here |
| StreamVault.Vault.Withdraw | programs/svs-5/src/instructions/withdraw.rs:67-187 | the same for withdraw |
| StreamVault.Vault.Redeem | programs/svs-5/src/instructions/redeem.rs:67-186 | the same for redeem |
| StreamVault.Vault.Issue | programs/svs-5/src/instructions/deposit.rs:131-173 | assets in, shares minted, base raised |
| StreamVault.Vault.Return | programs/svs-5/src/instructions/redeem.rs:130-174 | shares burned, assets out, base lowered |
| StreamVault.Vault.DistributeYield | programs/svs-5/src/instructions/distribute_yield.rs:50-123 | the started stream and the finished one's effect, or the error |
| StreamVault.Vault.SetPaused | programs/svs-5/src/instructions/admin.rs:41-70 | only the authority, and only to the other setting |
| StreamVault.Vault.OutcomeBacked | scripts/svs-5/withdraw-mint.ts:189-199 | every committed method call keeps the vault backed |
| StreamAccrual.ReleasedBounds | programs/svs-5/src/state.rs:67-122 | a stream has released everything exactly from its end on |
| StreamAccrual.ReleasedMonotone | programs/svs-5/src/state.rs:67-122 | what a stream has released never falls with time |
| StreamAccrual.EffectiveIsWorth | programs/svs-5/src/state.rs:75-122 | the interpolated total is the base plus the straight line less what was moved, and never overflows |
| StreamAccrual.RefusedOnlyBackwards | programs/svs-5/src/state.rs:115-117 | within a stream a price is refused exactly when the clock precedes an earlier checkpoint's release |
| StreamAccrual.CheckpointKeepsWorth | programs/svs-5/src/state.rs:124-157 | a checkpoint moves exactly what was released and changes no price at any later time |
| StreamAccrual.CheckpointsCompose | scripts/svs-5/live-balance.ts:134-174 | any sequence of checkpoints moves exactly what one at the last time would |
| StreamAccrual.NothingLeftToReplace | programs/svs-5/src/instructions/distribute_yield.rs:58-90 | when a new stream may start, the checkpoint has already emptied the old one |
| StreamRuns.CheckpointBacked | programs/svs-5/src/state.rs:124-157 | a checkpoint at any clock reading keeps the vault backed and touches no token account |
| StreamRuns.RedeemNeverShort | programs/svs-5/src/instructions/redeem.rs:121-128 | neither asset check can refuse a redeem |
| StreamRuns.RedeemIff | programs/svs-5/src/instructions/redeem.rs:67-186 | exactly when a redeem succeeds at any moment of a stream, and what it pays |
| StreamRuns.EveryoneCanLeave | scripts/svs-5/full-drain.ts:240-247 | at any moments of a stream all redeems within the holdings succeed in any order and split, and pay what the vault's worth falls by |
| StreamExchanges.CheckpointIff | programs/svs-5/src/state.rs:124-157 | a checkpoint is refused exactly when the clock has run backwards past an earlier one within the stream |
| StreamExchanges.CheckpointMarks | programs/svs-5/src/state.rs:124-157 | what it moves is marked as distributed at that time, an ended stream is cleared, and without anything to move nothing changes |
| StreamExchanges.DepositIff | programs/svs-5/src/instructions/deposit.rs:71-194 | exactly when a deposit succeeds at any moment of a stream, at the vault's worth then |
| StreamExchanges.MintIff | programs/svs-5/src/instructions/mint.rs:71-185 | the same for mint |
| StreamExchanges.WithdrawIff | programs/svs-5/src/instructions/withdraw.rs:67-187 | the same for withdraw |
| StreamExchanges.ExchangePriced | README.md:224-229 | the user's amount is exchanged at the worth of that moment, rounded in the vault's favour |
| StreamExchanges.ExchangeBooked | programs/svs-5/src/instructions/deposit.rs:131-173 | an exchange moves base, balance, supply and the user's shares by its amounts, and nothing else of the checkpointed vault |
| StreamExchanges.RunHoldings | programs/svs-5/src/instructions/redeem.rs:130-174 | over any run an account holds what it bought and was sent, less what it sold, sent and burned |
| StreamExchanges.ErrorTells | programs/svs-5/src/instructions/withdraw.rs:67-187 | every refused exchange of a reachable vault names the check that failed |
| StreamExchanges.PausedRefuses | programs/svs-5/src/instructions/deposit.rs:22-30 | a paused vault exchanges nothing and starts no stream |
| StreamExchanges.AdminIff | programs/svs-5/src/instructions/admin.rs:41-70 | only the authority pauses, unpauses and starts streams |
| StreamRuns.DistributeYieldIff | programs/svs-5/src/instructions/distribute_yield.rs:50-123 | exactly when a new stream starts; never over a running one |
| StreamRuns.StepBacked | scripts/svs-5/withdraw-mint.ts:189-199 | every step keeps base, unreleased stream and donations equal to the balance |
| StreamRuns.RunBacked | scripts/svs-5/edge-cases.ts:150-166 | so does every run, whatever the clock does |
| StreamRuns.ClaimedBoundIff | scripts/svs-5/withdraw-mint.ts:194-196 | base plus stream amount is within the balance iff no more was released than donated |
| StreamRuns.ClaimedBoundFails | scripts/svs-5/withdraw-mint.ts:194-196 | three instructions after which it is not |
| StreamRuns.PreviewsAgree | programs/svs-5/src/instructions/view.rs:35-110 | every preview equals the amount the instruction exchanges at that time |
| StreamRuns.StepPrice | README.md:36-44 | no step lowers the interpolated price |
| StreamRuns.RunPrice | README.md:36-44 | over any run with an ordered clock the price never falls and the balance is accounted for |
| StreamRuns.NothingPaidEarly | README.md:351 | between moments of equal supply, what is not yet released has not been paid out |
| StreamRuns.RedeemAsStored | programs/svs-5/src/instructions/redeem.rs:67-186 | between streams a redeem is a stored-balance vault's redeem |
| StreamRuns.StreamDrainDust | scripts/svs-5/full-drain.ts:240-247 | draining after a finished stream leaves between c and c + n - 1 |
| AsyncVault.Vault.constructor | programs/svs-10/src/instructions/initialize.rs:78-222 | a new vault is empty, not paused, without a deadline and with a 5% deviation bound |
| AsyncVault.Vault.RequestDeposit | programs/svs-10/src/instructions/request_deposit.rs:60-137 | the whole new state, or the error and no change |
| AsyncVault.Vault.PriceDeposit | programs/svs-10/src/instructions/fulfill_deposit.rs:50-193 | pause, status, authority, deadline, price, deviation and slippage, in that order |
| AsyncVault.Vault.FulfillDeposit | programs/svs-10/src/instructions/fulfill_deposit.rs:45-221 | the same; assets move between counters, totals do not |
| AsyncVault.Vault.ClaimDeposit | programs/svs-10/src/instructions/claim_deposit.rs:22-179 | the same; who may claim, for whom, and when |
| AsyncVault.Vault.IssueShares | programs/svs-10/src/instructions/claim_deposit.rs:127-155 | the minted shares and the totals that move with them |
| AsyncVault.Vault.CancelDeposit | programs/svs-10/src/instructions/cancel_deposit.rs:58-117 | the whole new state, or the error and no change |
| AsyncVault.Vault.RequestRedeem | programs/svs-10/src/instructions/request_redeem.rs:62-123 | the same for redeem requests |
| AsyncVault.Vault.PriceRedeem | programs/svs-10/src/instructions/fulfill_redeem.rs:98-251 | the same for a redeem, priced at the shares not in escrow |
| AsyncVault.Vault.FulfillRedeem | programs/svs-10/src/instructions/fulfill_redeem.rs:93-339 | the same for their fulfilment |
| AsyncVault.Vault.Settle | programs/svs-10/src/instructions/fulfill_redeem.rs:253-319 | escrow burned, assets set aside, three counters moved |
| AsyncVault.Vault.ClaimRedeem | programs/svs-10/src/instructions/claim_redeem.rs:18-162 | the same; the claimable account is paid out and both accounts are closed |
| AsyncVault.Vault.CancelRedeem | programs/svs-10/src/instructions/cancel_redeem.rs:60-101 | escrowed shares go back to their owner |
| AsyncVault.Vault.Configure | programs/svs-10/src/instructions/admin.rs:36-204 | pause, operator, deviation bound and deadline, by the authority only |
| AsyncVault.Vault.Delegate | programs/svs-10/src/instructions/set_operator.rs:29-120 | approvals are created, changed and revoked by their owner |
| AsyncVault.Vault.OutcomeConserved | scripts/svs-10/helpers.ts:152-268 | every committed method call keeps the vault conserved |
| AsyncConservation.StepConserved | scripts/svs-10/helpers.ts:152-268 | every step keeps all counters equal to the accounts they summarise |
| AsyncConservation.RunConserved | scripts/svs-10/full-drain.ts:348-361 | in every reachable state: asset vault = totals + pending + fulfilled + donations; escrow = pending redeems + donated shares; supply = holdings + escrow; total shares = supply + burned; claimable accounts = fulfilled redeems + what was sent to them, each holding at least its own |
| AsyncSettlement.CancelDepositEnabled | programs/svs-10/src/instructions/cancel_deposit.rs:15-117 | exactly when a deposit can be cancelled, and that it returns what was requested |
| AsyncSettlement.CancelRedeemEnabled | programs/svs-10/src/instructions/cancel_redeem.rs:60-101 | exactly when a redeem can be cancelled, and that it returns what was escrowed |
| AsyncSettlement.ClaimRedeemEnabled | programs/svs-10/src/instructions/claim_redeem.rs:22-152 | a fulfilled redeem can be claimed, paused or not, exactly while its owner and receiver are accounts of the system and its claimable account holds nothing but what is claimed |
| AsyncSettlement.OverfundedRefused | programs/svs-10/src/instructions/claim_redeem.rs:144-152 | with anything more in it, nobody can claim it and its owner can neither cancel nor request again |
| AsyncSettlement.OverfundedForever | programs/svs-10/src/instructions/claim_redeem.rs:144-152 | no run takes anything out of such an account or settles its request |
| AsyncWitnesses.OneUnitOverfunds | programs/svs-10/src/instructions/claim_redeem.rs:144-152 | one unit sent to a fulfilled redeem's account is enough |
| AsyncWitnesses.OverfundedReached | programs/svs-10/src/instructions/claim_redeem.rs:144-152 | six transactions of a new vault that reach such a state |
| AsyncSettlement.ClaimDepositEnabled | programs/svs-10/src/instructions/claim_deposit.rs:23-179 | a fulfilled deposit can be claimed, paused or not, exactly while its owner and receiver are accounts of the system, unless total shares would overflow |
| AsyncSettlement.ProgramRefused | programs/svs-10/src/instructions/claim_redeem.rs:44-62 | a fulfilled request whose owner or receiver belongs to a program can be claimed by nobody, and its owner can neither cancel it nor request again |
| AsyncSettlement.ProgramDepositStays | programs/svs-10/src/instructions/claim_deposit.rs:44-61 | no run in which the address stays a program's claims such a deposit or changes it |
| AsyncSettlement.ProgramRedeemStays | programs/svs-10/src/instructions/claim_redeem.rs:44-62 | the same for a redeem |
| AsyncWitnesses.ProgramDepositReached | programs/svs-10/src/instructions/request_deposit.rs:60-62 | a request for such an address is accepted and fulfilled in a new vault |
| AsyncWitnesses.ProgramRedeemReached | programs/svs-10/src/instructions/request_redeem.rs:62-64 | the same for a redeem |
| AsyncSettlement.ExpiredNeverFulfilled | scripts/svs-10/cancel-expiration.ts:166-175 | no fulfilment of an expired request succeeds, by anyone at any price |
| AsyncSettlement.ExpiredCancelIffUnpaused | scripts/svs-10/cancel-expiration.ts:220-319 | an expired request can be cancelled iff the vault is not paused |
| AsyncSettlement.ExpiredButPaused | scripts/svs-10/cancel-expiration.ts:244-270 | a reachable state where it can neither be fulfilled, by anyone at any price or time, nor cancelled |
| AsyncSettlement.ExpiredDepositLeavesByCancel | scripts/svs-10/cancel-expiration.ts:220-319 | past its deadline, while the deadline period is unchanged, a pending deposit stays as it is over any run until its owner cancels |
| AsyncSettlement.ExpiredRedeemLeavesByCancel | scripts/svs-10/cancel-expiration.ts:220-319 | the same for a pending redeem |
| AsyncSettlement.DepositsSettledOnce | scripts/svs-10/edge-cases.ts:50-132 | over any run, everything an owner requested is held, returned or claimed, once |
| AsyncSettlement.EscrowSettledOnce | scripts/svs-10/edge-cases.ts:50-132 | over any run, every share an owner escrowed is held, returned or burned, once |
| AsyncSettlement.PayoutsSettledOnce | scripts/svs-10/edge-cases.ts:50-132 | over any run, every asset promised to an owner is still promised or paid out, once |
| AsyncRequests.AcceptedIff | modules/svs-oracle/src/functions.rs:82-119 | an oracle price passes, for deposits and redeems alike, exactly within the configured fraction of the price of all assets in the vault |
| AsyncRequests.FulfillDepositIff | programs/svs-10/src/instructions/fulfill_deposit.rs:45-221 | exactly when a deposit is fulfilled, at either price, in every reachable state, and how many shares it is granted |
| AsyncRequests.FulfillDepositGrants | programs/svs-10/src/instructions/fulfill_deposit.rs:155-211 | a fulfilment grants to the one request what its assets buy at the vault's totals, rounded down, and changes nothing else but two counters |
| AsyncRequests.ClaimDepositPays | programs/svs-10/src/instructions/claim_deposit.rs:127-155 | a claim credits the receiver, and nobody else, with the granted shares |
| AsyncRequests.ClaimKeepsPriceIff | programs/svs-10/src/instructions/claim_deposit.rs:127-155 | a claim keeps the share price iff its shares were granted at no lower a price than it has become |
| AsyncRequests.VaultPricedClaimKeepsPrice | programs/svs-10/src/instructions/fulfill_deposit.rs:155-211 | so it does after a vault-priced fulfilment unless the price has risen since |
| AsyncRequests.RequestDepositIff | programs/svs-10/src/instructions/request_deposit.rs:60-137 | exactly when a deposit is requested, and that it alone is recorded |
| AsyncRequests.RequestRedeemIff | programs/svs-10/src/instructions/request_redeem.rs:62-123 | exactly when a redeem is requested, and that the user's shares move to the escrow |
| AsyncRequests.CancelEffects | programs/svs-10/src/instructions/cancel_redeem.rs:60-101 | a cancellation closes the one request and returns what it locked to its owner, and to nobody else |
| AsyncRequests.FulfillRedeemIff | programs/svs-10/src/instructions/fulfill_redeem.rs:93-339 | exactly when a redeem is fulfilled, at either price, in every reachable state, and what it is paid |
| AsyncRequests.FulfillRedeemPays | programs/svs-10/src/instructions/fulfill_redeem.rs:253-319 | a fulfilment burns the escrowed shares, sets the assets aside for the one owner, and touches no holder and no other request |
| AsyncRequests.ClaimRedeemPays | programs/svs-10/src/instructions/claim_redeem.rs:112-152 | a claim pays out exactly the one claimable account and closes it and its request |
| AsyncRequests.RunHoldings | programs/svs-10/src/instructions/claim_deposit.rs:127-138 | over any run an account holds what was claimed for it, given back and sent to it, less what it escrowed, sent and burned |
| AsyncRequests.FulfillDepositTells | programs/svs-10/src/instructions/fulfill_deposit.rs:45-103 | a refused fulfilment names the guard that refused it, and a price only after all guards |
| AsyncRequests.FulfillRedeemTells | programs/svs-10/src/instructions/fulfill_redeem.rs:93-150 | the same for a redeem |
| AsyncRequests.FulfillDepositRefused | programs/svs-10/src/instructions/fulfill_deposit.rs:118-190 | past the guards, exactly which of price, bound, slippage and nothing granted refused it |
| AsyncRequests.FulfillRedeemRefused | programs/svs-10/src/instructions/fulfill_redeem.rs:151-265 | the same for a redeem, and for want of counted assets |
| AsyncRequests.PausedRefuses | docs/SVS-10.md:315-321 | a paused vault takes, fulfils and cancels no request |
| AsyncRequests.ConfigureIff | programs/svs-10/src/instructions/admin.rs:36-204 | only the authority configures the vault, within the permitted values, one setting at a time |
| AsyncRequests.DelegateIff | programs/svs-10/src/instructions/set_operator.rs:29-120 | approvals are given, changed and taken by their owner alone, and no other pair is affected |
| AsyncPricing.ExactRedeemIff | programs/svs-10/src/instructions/fulfill_redeem.rs:103-112 | at the initial rate a redeem pays at least its exact worth, and exactly that iff few enough shares are left out of the price |
| AsyncPricing.FairRedeemPays | scripts/svs-10/multi-user.ts:149-220 | a redeem within that condition pays back exactly the deposit |
| AsyncPricing.FairRunExact | scripts/svs-10/multi-user.ts:149-220 | in any interleaving and fulfilment order of vault-priced steps the rate stays exact for issued and promised shares |
| AsyncPricing.FairFromStart | scripts/svs-10/full-drain.ts:193-201 | the same for every such run of a new vault |
| AsyncPricing.OverpaidIff | programs/svs-10/src/instructions/fulfill_redeem.rs:214-220 | pricing at fewer shares keeps the share price iff rounding absorbs the difference |
| AsyncPricing.RedeemKeepsPriceIff | programs/svs-10/src/instructions/fulfill_redeem.rs:103-112 | a vault-priced redeem keeps the share price iff pricing at the live shares adds no unit |
| AsyncWitnesses.OverpaidReached | programs/svs-10/src/instructions/fulfill_redeem.rs:103-112 | five transactions of a new vault whose last pays 666 for shares worth 500, and lowers the price |
| AsyncPricing.SettleEnabled | programs/svs-10/src/instructions/fulfill_redeem.rs:253-319 | a quoted redeem settles iff the counted assets cover it |
| AsyncPricing.LastExitIff | scripts/svs-10/full-drain.ts:146-201 | with every share in escrow a vault-priced redeem is accepted iff it is below the virtual shares and worth a unit |
| AsyncPricing.FullDrainRefused | scripts/svs-10/full-drain.ts:193-201 | redeeming an exact vault's whole supply in one request is always refused |
| AsyncWitnesses.FullDrainReached | scripts/svs-10/full-drain.ts:146-201 | one deposit and one request reach that state |
| AsyncPricing.OracleDeposit | programs/svs-10/src/instructions/fulfill_deposit.rs:109-154 | an accepted oracle price is within the bound and never grants more than the deposit is worth at it |
| AsyncPricing.FirstOraclePriceIff | programs/svs-10/src/instructions/fulfill_deposit.rs:118-148 | without assets or shares an oracle price is accepted exactly within the bound around `PRICE_SCALE` |
| AsyncPricing.TotalsMoveAtClaim | programs/svs-10/src/instructions/fulfill_deposit.rs:200-211 | a fulfilment moves neither total, a claim moves both |
| AsyncPricing.OracleRoundTrip | modules/svs-oracle/src/functions.rs:172-215 | deposit and redeem at one oracle price return no more than was deposited |
| Waterfall.AbsorbLosses | programs/svs-12/src/waterfall.rs:101-124 | the in-place loop leaves the closed form, reports the closed-form losses, and fails iff the loss exceeds the sum |
| Waterfall.LossesConserve | scripts/svs-12/edge-cases.ts:153-170 | losses sum to the recorded loss and leave the rest of the sum |
| Waterfall.JuniorFirst | scripts/svs-12/loss-rebalance.ts:71-100 | a tranche loses only when all more junior ones have lost everything |
| Waterfall.LossesUnique | scripts/svs-12/loss-rebalance.ts:71-100 | the closed form is the only bounded junior-first split |
| Waterfall.LossesCompose | scripts/svs-12/edge-cases.ts:153-170 | two losses in turn are their sum |
| Waterfall.DistributeYieldSequential | programs/svs-12/src/waterfall.rs:11-51 | the loop is the closed form, with its exact error conditions |
| Waterfall.YieldsConserve | programs/svs-12/src/waterfall.rs:11-51 | all of the yield is distributed |
| Waterfall.SeniorFirst | programs/svs-12/src/waterfall.rs:5-10 | a tranche is paid only when every more senior one has its full entitlement |
| Waterfall.NoOverflowUpTo100Percent | programs/svs-12/src/waterfall.rs:29-35 | with targets up to 100% the distribution never fails |
| Waterfall.SumAllocations | programs/svs-12/src/waterfall.rs:57-60 | the checked fold is the sum, or fails when it leaves 64 bits |
| Waterfall.DistributeYieldProRata | programs/svs-12/src/waterfall.rs:54-95 | the loop is the proportional split with the dust on the last tranche |
| Waterfall.ProRataFair | programs/svs-12/src/waterfall.rs:53-95 | it distributes everything, each tranche within a unit below its proportion, only the last above it |
| Waterfall.DustBelowCount | programs/svs-12/src/waterfall.rs:84-92 | the dust is less than one unit a tranche |
| Waterfall.CheckSubordination | programs/svs-12/src/waterfall.rs:132-166 | the loop is the per-tranche check, first failure first |
| Waterfall.CheckSubordinationIff | programs/svs-12/src/waterfall.rs:126-166 | it accepts exactly the allocations where every tranche has its share of the total below it, of those whose junior sums fit in 64 bits |
| Waterfall.ExitAllowedIff | programs/svs-12/src/waterfall.rs:126-166 | when a payment leaves every tranche protected, whatever the total: what the more senior tranches hold fits beside their shares of the rest, and the others are protected of it |
| Waterfall.ProtectedExitIff | docs/SVS-12.md:142 | from protected allocations only the first half is in question |
| TranchedVault.Vault.constructor | programs/svs-12/src/instructions/initialize.rs:45-85 | a new vault is empty, not paused and not wiped |
| TranchedVault.Vault.Deposit | programs/svs-12/src/instructions/deposit.rs:78-261 | the whole new state and both amounts, or the error |
| TranchedVault.Vault.Admit | programs/svs-12/src/instructions/deposit.rs:120-238 | accounting, cap, subordination, transfer, mint and reconciliation |
| TranchedVault.Vault.Redeem | programs/svs-12/src/instructions/redeem.rs:77-243 | the whole new state and both amounts, or the error |
| TranchedVault.Vault.Release | programs/svs-12/src/instructions/redeem.rs:128-227 | liquidity, accounting, subordination, burn and transfer |
| TranchedVault.Vault.Split | programs/svs-12/src/instructions/distribute_yield.rs:139-146 | the waterfall of the vault's mode |
| TranchedVault.Vault.Credit | programs/svs-12/src/instructions/distribute_yield.rs:165-186 | every tranche is credited its part, or the write-back overflows |
| TranchedVault.Vault.DistributeYield | programs/svs-12/src/instructions/distribute_yield.rs:72-203 | the whole new state, or the error |
| TranchedVault.Vault.RecordLoss | programs/svs-12/src/instructions/record_loss.rs:49-129 | the same, with the wipe flag |
| TranchedVault.Vault.Rebalance | programs/svs-12/src/instructions/rebalance.rs:37-121 | the same, also when one account is passed twice |
| TranchedVault.Vault.AddTranche | programs/svs-12/src/instructions/add_tranche.rs:51-157 | the new tranche takes its place in priority order, or the error |
| TranchedVault.Vault.UpdateTranche | programs/svs-12/src/instructions/update_tranche_config.rs:30-92 | the changed fields, subject to subordination, or the error |
| TranchedVault.Vault.SetPaused | programs/svs-12/src/instructions/admin.rs:24-42 | only the authority, and only to the other setting |
| TranchedVault.Vault.OutcomeSum | docs/SVS-12.md:140 | every committed method call moves the sum of the tranches with the reported total, but for the amount of a self-rebalance |
| TrancheRuns.StepWellFormed | docs/SVS-12.md:141 | at most four tranches, distinct ordered priorities, fractions up to 100%, supply equal to holdings and within the counted shares |
| TrancheRuns.RebalanceConservesIff | scripts/svs-12/loss-rebalance.ts:102-123 | a rebalance keeps the sum iff its tranches differ, and otherwise adds the amount |
| TrancheRuns.StepExcess | scripts/svs-12/multi-user.ts:244-265 | every step moves the sum with the total, but for a self-rebalance, which adds its amount |
| TrancheRuns.RunConserves | scripts/svs-12/inflation-attack.ts:139-158 | in every run the balance gains on the total the recorded losses and donations, and the sum of the tranches gains on it exactly what was self-rebalanced; so total = sum is kept iff nothing was |
| TrancheRuns.ReachableValid | docs/SVS-12.md:138-144 | in every reachable state the balance and the sum of the tranches are each at least the total |
| TrancheGuarantees.RebalanceGates | programs/svs-12/src/instructions/rebalance.rs:60-108 | a rebalance leaves the paid tranche under its cap and, between two tranches, every tranche protected; of a tranche with itself it takes no protection away |
| TrancheGuarantees.GatesProtect | docs/SVS-12.md:142-143 | the same of every deposit, redeem, rebalance and configuration change |
| TrancheGuarantees.RedeemIff | programs/svs-12/src/instructions/redeem.rs:77-243 | exactly when a redeem succeeds in a reachable state: not paused, worth something and the minimum, within the total, and subordination left intact |
| TrancheGuarantees.ExitIff | scripts/svs-12/edge-cases.ts:153-170 | exactly when a holder can leave, in every reachable state and so after any loss or self-rebalance, in terms of what the tranches hold |
| TrancheGuarantees.ExitWhileSumIff | scripts/svs-12/edge-cases.ts:153-170 | while the total is the sum of the tranches, subordination is all that can refuse a payment |
| TrancheGuarantees.SeniorsCanLeave | docs/SVS-12.md:142 | from a protected state, exactly when: beside the total only what more senior tranches still hold is in question |
| TrancheGuarantees.EmptySeniorsFit | docs/SVS-12.md:142 | tranches that hold nothing never stand in the way |
| TrancheExits.ExitStep | programs/svs-12/src/instructions/redeem.rs:77-243 | a redeem commits exactly when the pool of amounts can pay it, and pays its worth |
| TrancheExits.ExitsIff | scripts/svs-12/edge-cases.ts:153-170 | a sequence of redeems within the holdings, from every reachable state, commits exactly when the pool can pay it one by one, and pays what the total falls by |
| TrancheExits.UnsubordinatedPayable | scripts/svs-12/edge-cases.ts:153-170 | without requirements an exit is refused exactly when it is worth nothing or more than the total, the latter never while the total is the sum of the tranches |
| TrancheWitnesses.LossTrapsSeniors | scripts/svs-12/edge-cases.ts:153-170 | a reachable state after a loss in which either half of the seniors is refused, though all together could be paid |
| TrancheWitnesses.DustTrapsJuniors | docs/SVS-12.md:142 | a reachable protected state in which a unit left by the seniors refuses the last junior |
| TrancheWitnesses.SelfRebalanceTrapsJuniors | programs/svs-12/src/instructions/rebalance.rs:37-121 | six instructions, without loss or requirement, after which the junior holder is refused for want of assets |
| TrancheWitnesses.JuniorLimit | docs/SVS-12.md:169-171 | in the documented example, reached from a new vault, a junior redeem is accepted exactly when it is worth something up to 2000 |
| TrancheGuarantees.AdmitIff | programs/svs-12/src/instructions/deposit.rs:120-238 | when a quoted deposit is admitted: cap, subordination, reconciliation and 64-bit sums |
| TrancheGuarantees.DepositIff | programs/svs-12/src/instructions/deposit.rs:78-261 | exactly when a deposit succeeds; not once a share of the tranche was burned outside |
| TrancheEffects.ExchangePriced | docs/SVS-12.md:144 | the user's amount is exchanged at its tranche's price, rounded down |
| TrancheEffects.ExchangeBooked | programs/svs-12/src/instructions/redeem.rs:128-227 | an exchange moves the total, the balance, the one tranche and the user's shares of it by its amounts, and nothing else |
| TrancheEffects.DepositTells | programs/svs-12/src/instructions/deposit.rs:78-261 | every refused deposit names the check that failed |
| TrancheEffects.RedeemTells | programs/svs-12/src/instructions/redeem.rs:77-243 | the same of a redeem |
| TrancheEffects.DistributeYieldIff | programs/svs-12/src/instructions/distribute_yield.rs:72-203 | exactly when a yield is distributed, while amounts fit in 64 bits |
| TrancheEffects.YieldBooked | programs/svs-12/src/instructions/distribute_yield.rs:147-203 | all of it is booked to the vault and to the allocations, and nothing else changes but the time of the last one |
| TrancheEffects.ProRataByAllocation | programs/svs-12/src/instructions/distribute_yield.rs:139-146 | in a pro-rata vault every tranche gains its proportion rounded down, only the last more |
| TrancheEffects.SequentialByPriority | programs/svs-12/src/instructions/distribute_yield.rs:139-146 | in a sequential vault a tranche gains only after every more senior one has gained exactly its target |
| TrancheEffects.RunCooldown | programs/svs-12/src/instructions/distribute_yield.rs:67-84 | over any run two distributions are at least an hour apart |
| TrancheEffects.RecordLossIff | programs/svs-12/src/instructions/record_loss.rs:49-129 | exactly when a loss is recorded, and that it touches the total, the allocations and the flag of a total loss only |
| TrancheEffects.LossJuniorFirst | programs/svs-12/src/instructions/record_loss.rs:80-110 | a tranche of the vault loses only if every more junior one is left with nothing |
| TrancheEffects.RebalanceMoves | programs/svs-12/src/instructions/rebalance.rs:37-60 | the paying tranche holds the amount less, the paid one the amount more, and nothing else changes |
| TrancheEffects.RebalanceIff | programs/svs-12/src/instructions/rebalance.rs:37-121 | exactly when assets are moved between two tranches: pause, wipe, allocation, cap and subordination |
| TrancheEffects.SelfRebalanceIff | programs/svs-12/src/instructions/rebalance.rs:37-121 | exactly when a tranche is rebalanced with itself, checked as a paying and a paid copy with another tranche left out |
| TrancheEffects.AddTrancheIff | programs/svs-12/src/instructions/add_tranche.rs:51-80 | exactly when a tranche is added |
| TrancheEffects.AddTrancheInserts | programs/svs-12/src/instructions/add_tranche.rs:115-143 | it is empty, takes the place of its priority, and the others keep everything |
| TrancheEffects.UpdateTrancheIff | programs/svs-12/src/instructions/update_tranche_config.rs:30-92 | exactly when a tranche is reconfigured, and that only the given fields change |
| TrancheEffects.PausedRefuses | programs/svs-12/src/instructions/redeem.rs:24-40 | while paused nothing is exchanged and the manager can do nothing |
| TrancheEffects.AdminIff | programs/svs-12/src/instructions/admin.rs:24-42 | only the authority pauses and unpauses, and nothing else changes the configuration |
| TrancheEffects.RunHoldings | programs/svs-12/src/instructions/redeem.rs:195-215 | over any run, wherever a tranche is sorted to, an account holds of it what it bought and was sent, less what it sold, sent and burned |
| TrancheGuarantees.BurnedForever | programs/svs-12/src/instructions/deposit.rs:231-238 | after such a burn no run reaches a state in which anyone can deposit into the tranche |
| TrancheGuarantees.PriceFallsOnlyByLossOrRebalance | docs/SVS-12.md:144 | no exchange, yield or outside transfer lowers any tranche's price |
| TrancheGuarantees.RunFollows | docs/SVS-12.md:141-144 | over any run every tranche stays under its priority, wherever it is sorted to, and without losses and rebalances its price never falls |
| TrancheGuarantees.RecordLossCompose | scripts/svs-12/edge-cases.ts:153-170 | recording two losses does exactly what recording their sum does, or both ways fail |
| TrancheGuarantees.RecoveryIff | programs/svs-12/src/instructions/record_loss.rs:6-12 | a yield is accepted exactly up to what the tranches still hold, whatever the total |
| TrancheGuarantees.WipedEmptyKept | programs/svs-12/src/instructions/record_loss.rs:117-119 | over runs without a self-rebalance the wipe flag is only up when nothing is left |
| TrancheGuarantees.WipedFinal | programs/svs-12/src/instructions/record_loss.rs:117-119 | once wiped with nothing left in the tranches, no run, of any instructions, moves an asset or adds a tranche |
| TrancheGuarantees.WipedFinalIff | programs/svs-12/src/instructions/record_loss.rs:117-119 | a wipe is final iff the tranches hold nothing |
| TrancheGuarantees.WipeFinalIffNoSelfRebalance | programs/svs-12/src/instructions/record_loss.rs:117-119 | after any run that wiped a new vault to a zero total, iff that run rebalanced no tranche with itself |
| TrancheWitnesses.WipeReached | programs/svs-12/src/instructions/record_loss.rs:117-119 | four transactions that wipe a vault for good, after which no yield can be distributed |
| TrancheWitnesses.WipeRecovers | programs/svs-12/src/instructions/record_loss.rs:117-119 | six that wipe one which still accepts a yield, because a tranche was rebalanced with itself |
| TrancheWitnesses.SelfRebalanceAccepted | programs/svs-12/src/instructions/rebalance.rs:37-121 | a self-rebalance within total, cap and subordination commits and raises the tranche by the amount |
| TrancheWitnesses.SelfRebalanceBreaksSum | docs/SVS-12.md:140 | five instructions after which the total is not the sum |
| TlvScan.ReadAvailableBalance | scripts/shared/proof-helpers.ts:214-237 | the loop ends on every input with what the recursive scan finds |
| TlvScan.FindSkips | scripts/shared/proof-helpers.ts:224-234 | records of other kinds are skipped, whatever surrounds them |
| TlvScan.RoundTrip | scripts/shared/proof-helpers.ts:229-233 | scanning an encoded account returns the balance field of its first confidential-transfer record |
| TlvScan.NotFound | scripts/shared/proof-helpers.ts:228-236 | without such a record the scan fails, at the end of the data or at an empty record |

## Left out

- Fees, caps, locks, access lists and rewards (`modules/`): the programs' default build does not contain them; `cumulative_exit_fees` and `cumulative_redeem_fees` therefore stay 0.
- Asset mints with Token-2022 transfer fees, transfer hooks or freezing, which the programs' token interface accepts: here a transfer moves its whole amount, and the conservation results do not hold where a fee is withheld.
- Payers' own asset accounts: a transfer they cannot fund never commits, so no run contains it.
- Two-step authority transfer, manager change and fee recipients: single assignments.
- Derived addresses, account creation, rent, events and the order in which a caller lists tranche accounts.
- Views other than the SVS-5 previews: they repeat the conversions.
- SVS-3, SVS-4 and SVS-6: confidential balances rest on proofs and encryption outside any account state; their conversion is the same kernel.
- SVS-7, SVS-8, SVS-9 and SVS-11: other products (native SOL, baskets, allocators, credit) on the same kernel.
- The TypeScript SDK, the proofs backend and the devnet scripts, except the extension scan.
- Donations of shares to the vaults other than SVS-10: they are transfers between share accounts there.
- AsyncSettlement.PayoutsSettledOnce: the receiver's own asset account is not modelled; a payment is what leaves the claimable account.
- PublicTightness.InflationBoundTight: not offset 9, an asset without decimals, where the amounts of its run do not fit in 64 bits; there it is left open whether 1 to 54 deposits more than virtual shares can already gain.
- TrancheRuns.RunConserves: names tranches by their place at the time of each instruction, as the programs' accounts are sorted anew each time.
