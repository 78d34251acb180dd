# Verification of the Spacewalk bridge

A Dafny model of the money-handling parts of the Spacewalk bridge between a Substrate
chain and Stellar, and of the vault client's concurrent protocols, with proofs.
`dafny verify dfyconfig.toml` checks all of it.

- **Pooled rewards** (`RewardLedger`, `RewardProofs`, `RewardHistory`, `RewardCalls`,
  `PooledRewards`). The pallet keeps one reward-per-token number per currency and pool and one
  signed tally per staker. The ledger functions say what each call does to storage, the class
  does it in place, and an independent eager account of any history of calls (each staker
  credited at each distribution) is the reference. The lazy ledger agrees with it to the inner
  unit, and can always pay.
- **Issue requests** (`IssueLedger`, `IssueProofs`, `IssueEffects`, `IssueHistory`,
  `IssueTheorems`, `IssueLiveness`, `IssueReachability`, `IssueRefusals`, `IssuePallet`). Requests go
  from pending to completed or cancelled, with exact, under- and overpayments, execution after
  cancellation and liquidation of vaults in between. The counters of the vault registry, the
  griefing collateral and the wrapped supply are explained request by request in every run,
  beside whatever other pallets book in the same counters.
- **Fixed-point arithmetic** (`FixedPoint`, `Floors`, `Amounts`, `StellarConversion`, `Fees`,
  `Oracle`, `Currencies`, `Payments`). Amount scalings, Stellar rounding, the fee split, price
  conversion, and counting a Stellar payment, with their 128- and 64-bit limits.
- **Vault client** (`CancellationSpec`, `Cancellation`, `SlotTasks`, `RequestIds`, `MemoIndex`,
  `Shutdown`, `CacheText`, `WalletStore`). The cancellation scheduler, the per-slot status
  protocol, the memo index and the shutdown broadcast as steps in any interleaving, and the
  wallet's transaction cache.

## How the model reads the code

- A call of a pallet is a function from the storage to the new storage or an error, and a
  class method that performs it step by step on the storage fields and is proved to do the
  same. An error may leave fields half written; the dispatch around it restores them, as the
  transactional layer does. A history is any sequence of calls, failed ones included.
- `FixedU128` and `FixedI128` multiply and divide with a wide intermediate, round toward
  zero, and fail only on division by zero or when the result does not fit.
- What the runtime supplies to an issue call (block number, periods, rates, the oracle's
  conversion, the issuable tokens of a vault and its Stellar account, and whether volume, ban,
  key, proof and reward distribution steps go through) is a parameter that may be anything at
  every call. So is the Stellar transaction of an execution: its memo is checked against the
  shortened id, and what it pays is counted over its operations.
- Request ids come from a hash over a nonce and are taken to be fresh. An id is the part that
  is kept in a memo and the part that is dropped, so two ids may have the same shortened form;
  where that matters it is a hypothesis.
- Balances of the griefing currency are unbounded, since no call here changes its issuance.
- Oneshot and broadcast channels, locks, the XDR codec and the shortening of request ids are
  taken at their documented behaviour. Both maps of the memo index are written under both
  locks, so an update of the two is one step.

## What the proofs found

- An overpaid pending request on an active vault that has stopped accepting issues cannot
  be executed: `get_issuable_tokens_from_vault` then reports zero in the collateral currency,
  and comparing it with the wrapped surplus is an error, although the code around it means a
  vault that cannot take the surplus to be no error. The other refused family are payments so
  large that the fee of the raised request overflows. `IssueLiveness.OverpaidExecutes` says
  exactly when an overpayment executes, and `IssueReachability.RefusalIsReachable` gives runs
  after which the exact payment executes and every larger one errs.
- A Stellar transaction backs at most one mint as long as no two requests have the same
  shortened id (`IssueTheorems.SupplyIsBackedOnce`), and nothing but the memo ties it to its
  request (`IssueLiveness.MemoTiesPayment`, `IssueReachability.SharedMemoIsPaidTwice`).
- A long-rewarded staker can be refused a full withdrawal, because one product of the stake and
  the reward-per-token overflows. `RewardCalls.WithdrawIff` says exactly when, and
  `RewardCalls.ExitRefused` gives a run. Nobody is locked in: every staker can leave unit by
  unit (`RewardCalls.ExitInUnits`).
- The cancellation scheduler can forget requests: a refresh that gets no answer empties the
  list, and any event but `Opened` then marks it valid. `Cancellation.NothingLostIffHarmless`
  says exactly when nothing is lost, `Cancellation.OneBlockLoses` gives a run of one block.
- The memo index is broken by exactly those steps that touch an id whose shortened form
  another listed request has (`MemoIndex.InverseIffDistinct`, `MemoIndex.SharedMemoHides`).
- The order of Stellar operations matters for the counted payment when 64-bit saturation comes
  between credits and debits. `Payments.OrderIrrelevantIff` says exactly when it does not
  matter, `Payments.OrderMatters` gives an instance of each.
- The text cache does not read back an empty byte vector (`CacheText.RoundTrip`), and listing
  it panics exactly if some file is not UTF-8, has fewer than two characters that are not
  spaces, or begins or ends with a character of more than one byte
  (`WalletStore.ListTxEnvelopes`, `WalletStore.FilesThatPanic`).
- The comment above `round_to_compatible_with_target` says it rounds down; the code rounds to
  nearest, ties up, and the model follows the code.

## Model

| member | source | states |
|---|---|---|
| RewardHistory.LazyRefinesEager | pallets/pooled-rewards/src/lib.rs:304-322 | after every history of calls, the computed reward is the eager debt (stake then times floored share, summed since the last claim) rounded down to whole units, and fails only if the product or the debt overflows |
| RewardHistory.PendingIsOwed | pallets/pooled-rewards/src/lib.rs:248-382 | the untruncated lazy reward equals the eager debt exactly, for every staker, pool and currency |
| RewardHistory.TwoSidedSolvency | pallets/pooled-rewards/src/lib.rs:277-382 | in every history total rewards cover the sum of all pending rewards, and exceed it by at most total stake less one per distribution and one unit less one per claim |
| RewardHistory.ClaimsNeverStuck | pallets/pooled-rewards/src/lib.rs:357-382 | a claim succeeds exactly when the reward can be computed, pays the floored debt and keeps total rewards non-negative |
| RewardHistory.TotalIsSumOfStakes | pallets/pooled-rewards/src/lib.rs:120-159 | total stake is the sum of the pool's non-negative whole stakes, each as the stake calls alone say |
| RewardHistory.StakeCallNeutral | pallets/pooled-rewards/src/lib.rs:421-445 | deposit, withdraw, set and withdraw-all leave every pending reward and the slack of every currency unchanged, and set the stake asked for |
| RewardHistory.StakeCallTotals | pallets/pooled-rewards/src/lib.rs:248-254 | a stake call moves its pool's total by the change of the touched stake and no other pool's |
| RewardHistory.CurrenciesBounded | pallets/pooled-rewards/src/lib.rs:288-293 | no pool ever tracks more reward currencies than the configured maximum |
| RewardCalls.WithdrawIff | pallets/pooled-rewards/src/lib.rs:324-355 | after every history a withdrawal succeeds if and only if it is within the stake and its product with the reward-per-token of every reward currency fits |
| RewardCalls.WithdrawAllIff | pallets/pooled-rewards/src/lib.rs:421-425 | after every history a staker can leave in one call if and only if every product of the whole stake fits |
| RewardCalls.DepositIff | pallets/pooled-rewards/src/lib.rs:248-275 | after every history a deposit succeeds if and only if the new total fits and, for every reward currency of the pool, the product and the raised tally do |
| RewardCalls.SetStakeUpIff | pallets/pooled-rewards/src/lib.rs:434-445 | raising a stake succeeds exactly when the deposit of the difference does |
| RewardCalls.SetStakeDownIff | pallets/pooled-rewards/src/lib.rs:434-445 | lowering a stake succeeds exactly when the withdrawal of the difference does |
| RewardCalls.SetStakeIdle | pallets/pooled-rewards/src/lib.rs:434-445 | setting a stake to what it is succeeds and changes nothing |
| RewardCalls.DistributeIff | pallets/pooled-rewards/src/lib.rs:277-302 | after every history a distribution succeeds if and only if it is zero, or something is staked, its currency is tracked or there is room, and both sums fit |
| RewardCalls.DistributeTracks | pallets/pooled-rewards/src/lib.rs:278-293 | distributing nothing changes nothing, and a distribution tracks its own currency in its own pool only |
| RewardCalls.RefusedWith | pallets/pooled-rewards/src/lib.rs:277-330 | the errors for too large a withdrawal, an empty pool and too many currencies |
| RewardCalls.ExitInUnits | pallets/pooled-rewards/src/lib.rs:324-355 | after every history every staker can withdraw the whole stake one unit at a time |
| RewardCalls.ExitRefused | pallets/pooled-rewards/src/lib.rs:304-322 | a run after which a full withdrawal errs and the same stake leaves in two |
| RewardCalls.RunKeepsStored | pallets/pooled-rewards/src/lib.rs:120-159 | every number in storage fits its fixed-point type after every history |
| RewardProofs.StakeChangeKeepsPending | pallets/pooled-rewards/src/lib.rs:256-266 | the tally loop offsets a stake change exactly in every currency, tracked or not |
| RewardProofs.DistributeAddsShares | pallets/pooled-rewards/src/lib.rs:295-298 | a distribution adds the floored share times the stake to each staker of that pool and currency, and nothing to others |
| RewardProofs.DistributeSlack | pallets/pooled-rewards/src/lib.rs:277-302 | a distribution leaves less than the total stake undistributed, and no other currency is touched |
| RewardProofs.ClaimSlack | pallets/pooled-rewards/src/lib.rs:357-382 | a claim leaves behind less than one whole unit |
| RewardProofs.ComputeIsFloor | pallets/pooled-rewards/src/lib.rs:304-322 | the computed reward is the floor of the pending reward, with its exact failure condition |
| PooledRewards.MoveTallies | pallets/pooled-rewards/src/lib.rs:256-266 | the loop over reward currencies moves every tally of the staker once, or fails if any checked operation does |
| PooledRewards.Pallet.DepositStake | pallets/pooled-rewards/src/lib.rs:248-275 | storage becomes the ledger's deposit, or the call errs as the ledger does |
| PooledRewards.Pallet.WithdrawStake | pallets/pooled-rewards/src/lib.rs:324-355 | the same for a withdrawal, which cannot exceed the stake |
| PooledRewards.Pallet.DistributeReward | pallets/pooled-rewards/src/lib.rs:277-302 | the same for a distribution |
| PooledRewards.Pallet.WithdrawReward | pallets/pooled-rewards/src/lib.rs:357-382 | the same for a claim, and returns the reward |
| PooledRewards.Pallet.SetStake | pallets/pooled-rewards/src/lib.rs:434-445 | deposits or withdraws the difference to the current stake |
| PooledRewards.Pallet.WithdrawAllStake | pallets/pooled-rewards/src/lib.rs:421-425 | withdraws the whole current stake |
| PooledRewards.Pallet.ApiDepositStake | pallets/pooled-rewards/src/lib.rs:512-522 | converts the unsigned amount to fixed point and deposits it |
| PooledRewards.Pallet.ApiWithdrawStake | pallets/pooled-rewards/src/lib.rs:524-534 | converts the unsigned amount to fixed point and withdraws it |
| PooledRewards.Pallet.ApiWithdrawReward | pallets/pooled-rewards/src/lib.rs:486-494 | claims and returns the reward as an unsigned balance |
| PooledRewards.Pallet.Dispatch | pallets/pooled-rewards/src/lib.rs:451-534 | a call takes storage to the ledger's result, or errs and leaves storage as it was |
| PooledRewards.Pallet.Replay | pallets/pooled-rewards/src/lib.rs:451-534 | dispatching any sequence of calls reaches the ledger of that history, valid and with the two-sided bound on what it holds |
| IssueTheorems.SupplyIsBacked | pallets/issue/src/lib.rs:487-499 | in every run the supply of a wrapped currency equals the issued tokens booked over all vaults and liquidation vaults, and is at most what the transactions of the executions paid |
| IssueTheorems.SupplyIsBackedOnce | pallets/issue/src/lib.rs:782-826 | in every run without two requests of one shortened id, the supply is at most the sum over the distinct Stellar transactions used of what each paid for its request |
| IssueTheorems.SpentExecutesNothing | pallets/issue/src/lib.rs:803-808 | with distinct shortened ids, a transaction that backed an execution executes nothing more |
| IssueTheorems.MintsAtMostOnce | pallets/issue/src/lib.rs:663-679 | no run executes the same request twice |
| IssueTheorems.CompletedIsFinal | pallets/issue/src/lib.rs:663-690 | a completed request stays completed, and executing or cancelling it errs |
| IssueTheorems.ToBeIssuedIsPending | pallets/issue/src/lib.rs:382-637 | in every run the to-be-issued tokens of each vault, and of each liquidation vault, are those of the pending requests it stands for, beside other pallets' |
| IssueTheorems.ReserveIsPendingCollateral | pallets/issue/src/lib.rs:403-410 | in every run a user's reserve is the collateral of their pending requests, beside other pallets' |
| IssueTheorems.CollateralConserved | pallets/issue/src/lib.rs:518-612 | no run creates or destroys any of the griefing currency |
| IssueTheorems.RunKeepsInv | pallets/issue/src/lib.rs:382-887 | the whole accounting invariant holds after every sequence of calls, registrations, liquidations and foreign bookings |
| IssueHistory.LiquidateKeepsInv | pallets/vault-registry/src/types.rs:618-634 | liquidation moves a vault's counters to the liquidation vault together with the requests they stand for |
| IssueHistory.ReleaseKeepsInv | pallets/vault-registry/src/lib.rs:1533-1560 | other pallets releasing bookings that were carried to a liquidation vault keep the accounting invariant |
| IssueHistory.StepKeepsInv | pallets/issue/src/lib.rs:382-887 | every single step keeps the accounting invariant |
| IssueEffects.RequestEffect | pallets/issue/src/lib.rs:382-458 | a request books its whole amount, locks its collateral and is stored pending with parts that add up |
| IssueEffects.RequestAdmits | pallets/issue/src/lib.rs:387-439 | an accepted request is compatible, at least the minimum, within the limit of an accepting vault; its fee is the rate's share rounded to an integer and then to whole stroops, its amount is the rest, and the rounded share of its value is locked |
| IssueEffects.ExecuteEffect | pallets/issue/src/lib.rs:461-515 | an execution adds to issued tokens exactly what it mints to requester and fee pool, at most the amount paid and exactly it when underpaid, exact or cancelled; an exact payment leaves both parts as requested; the request is unbooked, rewritten and completed, and its collateral split exactly |
| IssueEffects.ExecuteGuards | pallets/issue/src/lib.rs:663-679 | only the requester executes an underpaid request, and a cancelled one executes only on an accepting vault and within its limit |
| IssueEffects.UnderpaidEffect | pallets/issue/src/lib.rs:586-612 | an underpayment unbooks the deficit, slashes in proportion and reduces the request to the amount transferred |
| IssueEffects.OverpaidEffect | pallets/issue/src/lib.rs:614-637 | an overpayment raises the request to at most the amount transferred, booking exactly the raise |
| IssueEffects.SetAmountEffect | pallets/issue/src/lib.rs:693-721 | the rewritten amount and fee add up to the amount transferred; storage gets only the new amount |
| IssueEffects.CancelEffect | pallets/issue/src/lib.rs:518-584 | a cancellation unbooks the whole request and splits its collateral between requester and vault by elapsed time, all of it after both periods, none of it slashed if the vault is liquidated |
| IssueEffects.SlashedWithin | pallets/issue/src/lib.rs:530-551 | before expiry the proportional slash is defined and never more than the collateral |
| IssueLiveness.CancelNeverStuck | pallets/issue/src/lib.rs:518-584 | a pending request can be cancelled if and only if the caller is its requester or both periods are over, and the expiry block fits |
| IssueLiveness.RequesterCanAlwaysCancel | pallets/issue/src/lib.rs:526-552 | after every run the requester of a pending request can cancel it, provided its opening block plus the larger period fits a block number |
| IssueLiveness.ExactPaymentExecutes | pallets/issue/src/lib.rs:856-882 | an exact payment executes unless the supply itself would overflow: no subtraction or unlock can fail |
| IssueLiveness.ExactPaymentMints | pallets/issue/src/lib.rs:487-502 | an exact payment mints the request's amount to its requester, its fee to the fee pool, and nothing else |
| IssueLiveness.RequestedIsMinted | pallets/issue/src/lib.rs:382-515 | whoever requests an amount and has it paid exactly gets it less the fee, and the fee pool gets the fee, in closed form |
| IssueLiveness.UnderpaidExecutes | pallets/issue/src/lib.rs:860-868 | an underpaid request executes if and only if its requester executes it, the fee of the payment can be computed and the supply has room |
| IssueLiveness.OverpaidExecutes | pallets/issue/src/lib.rs:869-878 | an overpaid request executes if and only if its vault is liquidated, or its limit is comparable with the surplus and the fee of the raised amount can be computed, and the supply has room for that amount |
| IssueLiveness.CancelledExecutes | pallets/issue/src/lib.rs:839-855 | a cancelled request executes if and only if an accepting vault can take on the whole payment, the requester executes a short one, a new fee can be computed, and the supply has room |
| IssueLiveness.ExecuteIff | pallets/issue/src/lib.rs:461-515 | after every run, exactly which executions go through: the memo matches, the asset is a Stellar one, and the condition of the request's branch holds |
| IssueLiveness.RequestIff | pallets/issue/src/lib.rs:382-458 | at a fee rate of at most one, exactly which requests are accepted |
| IssueLiveness.MemoTiesPayment | pallets/issue/src/lib.rs:803-808 | after paying one request, a transaction that would pay another exactly executes it if and only if the two ids have the same shortened form |
| IssueLiveness.OverpaymentRefused | pallets/vault-registry/src/lib.rs:1873-1884 | on an active vault that stopped accepting issues every overpayment errs |
| IssueLiveness.SurplusTaken | pallets/issue/src/lib.rs:614-637 | the exact condition under which a surplus is dealt with, and the exact amount the request is raised to |
| IssueReachability.RefusalIsReachable | pallets/issue/src/lib.rs:869-878 | a run of registration, request and closing of the vault after which the exact payment executes and every larger one errs |
| IssueReachability.SharedMemoIsPaidTwice | pallets/issue/src/lib.rs:803-808 | for any two ids with one shortened form, a run in which one transaction executes both requests |
| IssueRefusals.LiquidateIff | pallets/vault-registry/src/types.rs:618-634 | after every run a vault can be liquidated if and only if it is active and the to-be-issued counters fit together; the issued ones always do |
| IssueRefusals.SupplyFits | pallets/issue/src/lib.rs:493-502 | in every run every supply fits 128 bits |
| IssueRefusals.RegisterIff | pallets/vault-registry/src/lib.rs:791-838 | a vault is registered once, accepting issues, without tokens |
| IssueRefusals.AcceptIff | pallets/vault-registry/src/lib.rs:287-299 | whether a vault accepts issues can be changed until it is liquidated, and nothing else changes |
| IssueRefusals.PaidForIff | pallets/issue/src/lib.rs:473-483 | a transaction counts for a request if and only if its memo is the shortened id, the checks pass and the currency is a Stellar one, and then what it pays to the request's account |
| IssueRefusals.ExecuteRefusedWith | pallets/issue/src/lib.rs:663-679 | the errors for an unknown, completed or cancelled request and a wrong memo |
| IssueRefusals.WrongExecutor | pallets/issue/src/lib.rs:858-863 | the error for an underpayment executed by someone else |
| IssueRefusals.CancelRefusedWith | pallets/issue/src/lib.rs:681-690 | the errors for an unknown, completed or cancelled request and for cancelling early |
| IssueRefusals.RequestRefusedWith | pallets/issue/src/lib.rs:389-400 | the errors for an incompatible amount and for an unknown, liquidated or closed vault |
| IssueRefusals.RequestTooBig | pallets/issue/src/lib.rs:405-419 | the errors for too little collateral, too small and too large an amount |
| IssuePallet.Replay | pallets/issue/src/lib.rs:246-309 | dispatching any sequence of events reaches the chain of that run; the storage then has the accounting invariant and a supply backed by what was paid, by distinct transactions if no shortened id is shared |
| IssuePallet.Dispatch | pallets/issue/src/lib.rs:246-309 | an event takes storage to the step of the run, with its error, and an error leaves storage as it was |
| IssuePallet.Pallet.RequestIssue | pallets/issue/src/lib.rs:382-458 | storage becomes the ledger's request, or the call errs as the ledger does |
| IssuePallet.Pallet.ExecuteIssue | pallets/issue/src/lib.rs:461-515 | the same for an execution |
| IssuePallet.Pallet.CancelIssue | pallets/issue/src/lib.rs:518-584 | the same for a cancellation |
| IssuePallet.Pallet.HandleIssueRequests | pallets/issue/src/lib.rs:828-887 | the same for handling a payment, and returns the edited request |
| IssuePallet.Pallet.HandlePendingIssue | pallets/issue/src/lib.rs:856-882 | the pending branch: underpaid, overpaid and exact |
| IssuePallet.Pallet.HandleCancelledIssue | pallets/issue/src/lib.rs:839-855 | the cancelled branch: books the payment again first |
| IssuePallet.Pallet.DecreaseIssueAmount | pallets/issue/src/lib.rs:586-612 | the underpayment, and returns the collateral to release |
| IssuePallet.Pallet.TryIncreaseIssueAmount | pallets/issue/src/lib.rs:614-637 | the overpayment, leaving the request as it was if the vault cannot take it |
| IssuePallet.Pallet.SetIssueAmount | pallets/issue/src/lib.rs:693-721 | edits the request in hand and the stored amount |
| IssuePallet.Pallet.ReleaseUnslashedCollateral | pallets/issue/src/lib.rs:521-558 | releases what is not slashed and returns what is |
| IssuePallet.Pallet.TryIncreaseToBeIssuedTokens | pallets/vault-registry/src/lib.rs:1125-1140 | books tokens within the issuable limit, and changes nothing on an error |
| IssuePallet.Pallet.DecreaseToBeIssuedTokens | pallets/vault-registry/src/types.rs:276-287 | unbooks tokens from the vault, or from the liquidation vault if it is liquidated |
| IssuePallet.Pallet.IncreaseIssuedTokens | pallets/vault-registry/src/types.rs:228-239 | adds issued tokens to the vault or the liquidation vault |
| IssuePallet.Pallet.TransferFunds | pallets/vault-registry/src/lib.rs:1034-1073 | moves griefing collateral from a user's reserve to a free balance |
| IssuePallet.Pallet.LiquidateVault | pallets/vault-registry/src/types.rs:618-634 | moves the counters of a vault to the liquidation vault of its pair |
| Amounts.RoundedMulIsNearest | pallets/currency/src/amount.rs:236-252 | the rounded product is the nearest integer, ties up, with its exact overflow condition |
| Amounts.RoundedUpIsCeiling | pallets/currency/src/amount.rs:155-183 | the rounded-up product is the exact ceiling, with its exact overflow condition |
| Amounts.FixedPointMulIsFloor | pallets/currency/src/amount.rs:147-153 | the integer product is the exact floor, with its exact overflow condition |
| Amounts.CheckedSubIff | pallets/currency/src/amount.rs:109-120 | subtraction succeeds exactly within one currency and above zero, and undoes addition |
| Amounts.CheckedDivIsSingleFloor | pallets/currency/src/amount.rs:185-193 | two roundings amount to the single floor of the exact quotient, with the exact failure condition |
| Amounts.ScalingsOrdered | pallets/currency/src/amount.rs:147-252 | floor, nearest and ceiling are in order and within one of each other |
| Amounts.DivThenMulNeverGains | pallets/currency/src/amount.rs:147-193 | dividing and multiplying back never gains |
| StellarConversion.RoundIsNearest | primitives/src/lib.rs:850-874 | rounding succeeds exactly when the scaled amount fits, is the nearest multiple of 10^5, and its final check never fails |
| StellarConversion.CarrySurvives | primitives/src/lib.rs:850-874 | the saturating addition inside the rounding keeps the carry even at the top of the range |
| StellarConversion.RoundMonotone | primitives/src/lib.rs:850-874 | rounding is monotone and defined below any amount it is defined for |
| StellarConversion.RoundIdempotent | primitives/src/lib.rs:843-874 | the result is compatible, can be rounded again and is then unchanged |
| StellarConversion.LookupRoundTrip | primitives/src/lib.rs:802-819 | to stroops and back restores exactly the compatible amounts, with the exact range |
| StellarConversion.UnlookupRoundTrip | primitives/src/lib.rs:797-819 | from stroops and back restores every non-negative amount |
| Fees.SplitIsExact | pallets/issue/src/lib.rs:387-427 | at a rate of at most one the fee split never underflows and gives the rounded fee and the rest, both Stellar amounts; the exact success condition |
| Fees.FeeWithinAmount | pallets/fee/src/lib.rs:395-397 | at a rate of at most one the fee is at most the amount |
| Oracle.ConvertBound | pallets/oracle/src/lib.rs:369-419 | a conversion never exceeds the exact rational and falls short by less than one plus the scaled rounding of the first product |
| Oracle.ConvertIsOneFloor | pallets/oracle/src/lib.rs:369-419 | the chain of floors is one floor of the floored value |
| Oracle.ConvertIff | pallets/oracle/src/lib.rs:369-419 | a conversion succeeds if and only if the amount is zero, or the target has a price and each step fits 128 bits |
| Oracle.SameCurrencyIsFree | pallets/oracle/src/lib.rs:316-332 | a conversion to the same currency is the amount itself, whatever the feed |
| Oracle.FeedIff | pallets/oracle/src/lib.rs:316-367 | any other conversion succeeds exactly when the chain runs, the prices are there and every step fits |
| Oracle.ThereAndBack | pallets/oracle/src/lib.rs:369-419 | converting there and back never returns more than the start |
| Oracle.ConvertMonotone | pallets/oracle/src/lib.rs:369-419 | a larger amount never converts to less |
| Oracle.ConvertedAtPrice | pallets/oracle/src/lib.rs:316-367 | each conversion by currency is bounded at its own prices and decimals, in its direction |
| Oracle.NoGainByConverting | pallets/oracle/src/lib.rs:316-367 | no round trip through a currency or dollars gains |
| Payments.AmountFromEnvelope | pallets/currency/src/lib.rs:127-177 | the pallet's loop counts what the client's fold counts, and errs exactly without a Stellar asset |
| Payments.CountedIff | pallets/currency/src/lib.rs:127-133 | exactly the Stellar currencies are counted, in their own asset |
| Payments.VersionsAgree | primitives/src/lib.rs:420-434 | both envelope versions give the same memo and count, and other envelopes neither memo nor payment |
| Payments.PaymentIsCappedSum | primitives/src/lib.rs:905-959 | for non-negative amounts the count is 10^5 times the credited sum capped at the largest stroop amount |
| Payments.OrderIrrelevantIff | primitives/src/lib.rs:928-955 | every order of the operations counts the same if and only if the count with all credits first equals the count with all debits first, both in closed form |
| Payments.CountedWithin | primitives/src/lib.rs:928-955 | every order counts at least as much as credits first and at most as much as debits first |
| Payments.CountsReached | primitives/src/lib.rs:928-955 | some order reaches each of the two bounds |
| Payments.PaymentPermutes | primitives/src/lib.rs:928-955 | the order of non-negative operations does not matter |
| Payments.OrderMatters | primitives/src/lib.rs:928-955 | operations with a negative amount whose order matters, and some whose order does not |
| Cancellation.NothingLostIffHarmless | clients/vault/src/cancellation.rs:254-293 | a run never loses a pending request if and only if each unanswered refresh falls on an opened event or finds nothing else pending |
| Cancellation.HarmlessRunLosesNothing | clients/vault/src/cancellation.rs:254-293 | each request pending at the last refresh is listed, cancelled, reported executed, or the list is invalid |
| Cancellation.HarmfulLoses | clients/vault/src/cancellation.rs:262-273 | an unanswered refresh on another event does lose a request |
| Cancellation.OneBlockLoses | clients/vault/src/cancellation.rs:254-293 | a run of one block from the start that loses a request |
| Cancellation.NothingCancelledEarly | clients/vault/src/cancellation.rs:170-183 | every cancellation sent is for a request past both its own and the global period at that block |
| Cancellation.ExpiredIsSent | clients/vault/src/cancellation.rs:218-250 | a listed request past both periods is sent at that block, unless an earlier cancellation of the block failed |
| Cancellation.AsksIff | clients/vault/src/cancellation.rs:254-293 | the next event asks the chain if and only if the run is at its start, a request was just opened, or a cancellation just failed |
| Cancellation.RefreshIff | clients/vault/src/cancellation.rs:296-322 | a refresh succeeds if and only if both queries are answered and every deadline fits |
| Cancellation.ReportedIsAccounted | clients/vault/src/cancellation.rs:254-293 | whatever an answered refresh reports is then listed with its deadline, cancelled, reported executed, or asked for again |
| Cancellation.OpenedIsPickedUp | clients/vault/src/cancellation.rs:288-291 | the event after an opened one picks the request up, if the chain answers |
| Cancellation.OpenedIsCancelled | clients/vault/src/cancellation.rs:254-293 | an opened request that the next block finds past both periods is cancelled at that block |
| Cancellation.NothingStale | clients/vault/src/cancellation.rs:274-287 | after a block nothing listed is past its deadline, and after an execution nothing listed has its id |
| Cancellation.DrainExpired | clients/vault/src/cancellation.rs:170-183 | takes out the expired requests and keeps the others, both in order |
| Cancellation.FilterMembers | clients/vault/src/cancellation.rs:170-183 | a request is drained or kept exactly by its deadline |
| Cancellation.CancellationScheduler.CancelRequests | clients/vault/src/cancellation.rs:218-250 | cancels in order up to the first failure, which makes the list invalid |
| Cancellation.CancellationScheduler.ProcessEvent | clients/vault/src/cancellation.rs:254-293 | one event, as the specification's step, with what it sends |
| Cancellation.CancellationScheduler.HandleCancellation | clients/vault/src/cancellation.rs:203-216 | the loop over any events reaches the specification's run and sends what it sends |
| Cancellation.RefreshedMembers | clients/vault/src/cancellation.rs:296-322 | a refreshed list holds exactly the open requests with their deadlines |
| SlotTasks.SingleFlight | clients/vault/src/issue.rs:184-204 | in every interleaving each slot has at most one live status sender |
| SlotTasks.FinalIsAbsorbing | clients/wallet/src/task.rs:41-63 | a final status never changes until its slot is cleaned up |
| SlotTasks.DroppedTogether | clients/vault/src/issue.rs:206-243 | a slot is dropped only by its cleanup, in a final status, from both maps together |
| SlotTasks.SentIsReceived | clients/wallet/src/task.rs:41-63 | a status that was sent is what the next look at the slot finds |
| SlotTasks.LostTaskIsRetried | clients/wallet/src/task.rs:80-97 | a recoverable or abandoned slot gets a new live sender at the next poll |
| SlotTasks.RunningTaskIsLeftAlone | clients/wallet/src/task.rs:80-97 | a slot still running gets no second sender |
| SlotTasks.RunIsPerSlot | clients/vault/src/issue.rs:184-300 | in every interleaving each slot follows its own automaton, whatever happens to the others |
| SlotTasks.FirstPollSpawns | clients/vault/src/issue.rs:184-204 | a transaction that arrives and is polled has a live sender |
| SlotTasks.FinishIsSent | clients/wallet/src/task.rs:41-63 | a status that a live sender sends is on its channel |
| SlotTasks.SlotTask.UpdateStatus | clients/wallet/src/task.rs:41-63 | one non-blocking receive, as the specification says |
| SlotTasks.SlotTask.SetReceiver | clients/wallet/src/task.rs:66-76 | replaces the receiver exactly in a non-final status |
| SlotTasks.SlotTask.RecoverWithNewSender | clients/wallet/src/task.rs:80-97 | gives out a fresh sender exactly for a recoverable error |
| MemoIndex.InverseIffDistinct | clients/vault/src/issue.rs:87-91 | the index is the exact inverse of the requests at every point of a run if and only if no step touches an id that shares its memo with another listed request |
| MemoIndex.ListedIff | clients/vault/src/issue.rs:85-163 | a request is listed if and only if it was added and since neither removed nor executed by a task that found it, with the content added last |
| MemoIndex.IndexedIff | clients/vault/src/issue.rs:85-163 | a memo leads to the id added last with it, unless it was taken off since |
| MemoIndex.RemovedIsIrrelevant | clients/vault/src/issue.rs:123-129 | the filter finds nothing for a removed memo until a request with it is added |
| MemoIndex.FoundIsInFlight | clients/vault/src/issue.rs:335-341 | a lookup puts exactly the indexed id in flight |
| MemoIndex.SharedMemoHides | clients/vault/src/issue.rs:85-91 | after two requests with one memo are listed, the filter finds only the second |
| MemoIndex.DistinctMemosKeepIndex | clients/vault/src/issue.rs:125-163 | if no two ids that the events mention share a memo, every interleaving keeps the index |
| MemoIndex.RunIsSound | clients/vault/src/issue.rs:335-360 | an index entry, and an execution in flight, always lead to an id with that memo |
| MemoIndex.RelevantFindsListed | clients/vault/src/issue.rs:413-452 | with the index intact the filter finds a request exactly when one with that memo is listed |
| MemoIndex.Maps.Initialize | clients/vault/src/issue.rs:23-46 | inserting the active requests at start-up is the run of those additions |
| MemoIndex.Maps.Interleave | clients/vault/src/issue.rs:85-360 | the maps after any start-up and any interleaving of listeners and execution tasks are those of the run; they are sound, and exactly inverse if no two ids share a memo |
| Shutdown.NeverMissed | clients/runtime/src/shutdown.rs:20-38 | in every interleaving, once any send completed, the first receive of every receiver returns |
| Shutdown.NeverSpurious | clients/runtime/src/shutdown.rs:56-63 | a receive returns only after some send has written the flag |
| Shutdown.FirstRecv | clients/runtime/src/shutdown.rs:20-63 | exactly what the first receive does: it succeeds if a shutdown was read, else waits for a send, and fails if more than the capacity were missed |
| Shutdown.OncePerSend | clients/runtime/src/shutdown.rs:56-63 | a receiver that read no shutdown returns once per send, as long as it never lags |
| CacheText.RoundTrip | clients/wallet/src/cache.rs:265-281 | parsing the printed form restores every non-empty byte vector, and rejects the empty one |
| CacheText.ParsePanicsIff | clients/wallet/src/cache.rs:265-267 | slicing by byte indices panics if and only if the text without spaces lacks a first and a last character of one byte each |
| CacheText.ParseIff | clients/wallet/src/cache.rs:265-281 | exactly which texts parse, and to which bytes |
| CacheText.ParseByteIff | clients/wallet/src/cache.rs:273-278 | a byte is read exactly from digits after at most one plus sign whose value fits |
| CacheText.SplitIsJoined | clients/wallet/src/cache.rs:268 | the parts join to the text again |
| WalletStore.ListTxEnvelopes | clients/wallet/src/cache.rs:217-326 | on any directory: panics if and only if some file is not UTF-8, has fewer than two characters that are not spaces, or begins or ends with a wide one; fails if and only if there are files and none is readable; otherwise lists exactly the readable files in ascending sequence |
| WalletStore.FilesThatPanic | clients/wallet/src/cache.rs:265-326 | a file that is not UTF-8, an empty one, one character among spaces, and a wide character at either end make the reader panic |
| WalletStore.SortBySequence | clients/wallet/src/cache.rs:257-258 | a sorted permutation |
| WalletStore.ReadAll | clients/wallet/src/cache.rs:224-250 | the pass over the directory panics under that condition, and otherwise finds each readable file once and each unreadable one |
| WalletStore.WalletStateStorage.SaveTxEnvelope | clients/wallet/src/cache.rs:121-153 | saves under an unused sequence number, with both errors |
| WalletStore.WalletStateStorage.RemoveTxEnvelope | clients/wallet/src/cache.rs:156-164 | removes the file of a sequence number |
| WalletStore.WalletStateStorage.GetTxEnvelopes | clients/wallet/src/cache.rs:217-261 | after any saves and removals, lists every saved envelope once in strictly ascending sequence, without error |

## Left out

- The volume limit of issue requests: it is checked at request and counted at execution, so it caps nothing over an interval; its steps are part of the runtime parameter.
- Redeem, replace, nomination, staking and reward distribution: in the issue runs they appear only as other pallets' bookings of to-be-issued tokens and locks of collateral; they do not change issued tokens or the wrapped supply there.
- The collateral side of vaults: thresholds, bans, ceilings and what liquidation does with collateral; the issuable tokens of a vault are a parameter of each call.
- Existential deposits and other refusals of the token pallet beyond insufficient balance and supply overflow.
- Overflow and underflow are one error in the reward and issue ledgers, and the order in which a loop over currencies meets them is not modelled.
- The setters of fee rates and periods: single bounded writes; the rate of at most one that they enforce is a hypothesis of the fee lemmas.
- `begin_block` of the oracle and the DIA key tables: status flags and lookups.
- 10^n for price conversion is an error, not a wrapped or panicking power, when it exceeds 128 bits; no registered currency has such decimals.
- Slots that carry two relevant transactions: the ledger map keeps one per slot, and the model has slots only.
- Closing of channels when all senders are gone, and the timing of the polling loop: only which receives return is modelled.
- File-system errors of the cache; a directory is a map from sequence numbers to contents, read in any order.
- SCP validation, signatures, hashing, base58, XDR and RPC plumbing; that a transaction was externalized on Stellar is one of the runtime's checks.
