# Verified model of the meme-token market

The repository is a market for meme tokens: Linera contracts (pool, meme, proxy) that hold value in 128-bit
ledgers, and a Python service that replays trades, folds candles and prices pools. This project models those state
machines and algorithms in Dafny and proves what they keep over every run.

| files | subject |
|---|---|
| `Common`, `MapSums`, `Arithmetic`, `Sequences` | vocabulary; sums over nested maps; multiplication, quotients and powers; orderings of one multiset |
| `PoolLedger`, `PoolContract`, `PoolMessages` | reserves, shares, claimable and claiming balances; the stored state; the message handlers |
| `PoolCurve`, `PoolTrades` | share and swap formulas; what each message does, owner by owner, and exactly when |
| `PoolConservation`, `PoolCoverage`, `PoolQuotes` | custody over whole runs; native balance against native claims; quotes against execution |
| `MemeLedger`, `MemeContract`, `MemeConservation`, `MemeStatements`, `MemeInstantiation` | token ledger with escrowed allowances; supply conservation; the statement of every account; token creation |
| `Mining` | halving and 256-bit retargeting over whole runs |
| `PoolClaims`, `ClaimProtocol`, `ClaimDuplicates` | when the pool accepts claims and receipts; pool and token ledgers with claim messages in flight; a duplicate receipt |
| `Approvals`, `ProxyLedger`, `ProxyContract`, `Governance`, `MinerRegistry` | ballots, operator and miner records, provenance of every record, miner lookup |
| `Simulator` | integer constant-product replay |
| `Tvl`, `Candles`, `Hashes`, `AccountCodec` | price propagation, candle fold and buckets, big-endian hashes, account text |

Each stateful Rust type is a class (`PoolState`, `MemeState`, `MiningInfo`, `ProxyState`, `Approval`,
`InstantiationHandler`) whose methods assign its fields in the order the source does. Every method is proved equal to
a function on the state's value, including what an error has already written, and the theorems are about those
functions. A call ends as `Ok`, as `Err` with the state as far as it was written, or as `Panic`. Handlers turn errors
into a rejected block, except where the source catches them: then what was written stays, and the model keeps it.

The pool's curve is a record of functions that may be anything: conservation, shares, claims and quotes hold for
every choice of them that is `Sound`. `PoolCurve` models the contract's own integer formulas for shares, fees,
withdrawals and swap prices and proves them sound; only its decimal-rounded deposit ratios stay open.

## What the proofs found

- A swap commits the error of a failed credit. When an owner's claimable balance would pass 128 bits, the input (or
  the output, after the reserves moved) is in no balance any more. `SwapConserves` and `CustodyExact` give the exact
  condition for a swap and for a run to conserve value, `SwapCanLoseOutput` a run of the contract that does not. It
  needs virtual liquidity: swaps that leave the virtual part in reserve always fit (`NothingLostAboveVirtual`).
- An application's native balance covers its native claims exactly as long as the reserve, with what rejected messages
  left on the account, holds the virtual part of the initial liquidity (`NativeClaimsCovered`); a claim beyond the balance
  is refused (`NativeClaimRefusedExactly`). The swap compares its output with the whole native balance, without what is
  already claimable, so its guard does not keep that condition (`CoverageCanBeLost`).
- A deposit's minimum is compared with its leg only when that leg is trimmed to match the other (`DepositLegs`).
- The mining target can reach zero at the 118th retarget and stays zero; 117 retargets are always safe
  (`RetargetToZero`, `TargetPositive`, `TargetCanReachZero`, `ZeroTargetStays`).
- A reward halved to zero makes every later mining call panic, because the transfer refuses a zero amount
  (`RewardGoneExactly`, `ZeroRewardEndsMining`, `MiningCanEnd`).
- The unguarded token move adds the amount to the supply when both accounts are the same; only its two callers' guard
  prevents it (`MoveTokensTotal`).
- The comment in the receipt handler counts on the claiming balance to reject a duplicate receipt. It does exactly when
  the owner's unsettled claims of that token do not cover the amount (`ReceiptAcceptedExactly`); while another claim is
  open, a duplicate from outside the protocol is accepted in its place (`DuplicateReceiptAccepted`). The protocol itself
  has at most one receipt for each claim (`PaidOrReturnedOnce`).
- Replaying a trade is idempotent for the first and last trade of a candle only. Each repeat inside the candle it meets
  is counted again, and nothing else is (`CountExact`, `CountIsRightExactly`, `InteriorReplayIsCounted`).
- Two approved genesis miners may share an account owner. Then the lookup by account owner depends on the order in
  which the stored map is read, unless that owner is also registered (`OrderFreeExactly`). Founders alone cannot cause
  it, one proposal can (`FoundersAreOrderFree`, `SharedOwnersAreReachable`).
- Governance ends exactly when a message completes the ban of the only approved operator, which that operator may do
  alone; then no operator or genesis miner record changes any more (`GovernanceEndsExactly`, `RunEndsExactly`,
  `FounderCanResign`, `UngovernedIsFrozen`).

## Model

| member | source | states |
|---|---|---|
| PoolContract.PoolState.Mint | pool/src/state/state_impl.rs:307-313 | refines the ledger's mint: the total rises first and panics past 128 bits, then the receiver's share |
| PoolContract.PoolState.Burn | pool/src/state/state_impl.rs:315-323 | refines the ledger's burn, with an error below the total supply and a panic below the share |
| PoolContract.PoolState.MintShares | pool/src/state/state_impl.rs:325-343 | refines fee mint, share calculation at the raised supply, and mint to the receiver |
| PoolContract.PoolState.AddLiquidity | pool/src/state/state_impl.rs:108-126 | refines the deposit: both reserve sums are checked before anything is written |
| PoolContract.PoolState.InitializeLiquidity | pool/src/state/state_impl.rs:128-150 | refines the first deposit, refused on a live pool or a zero leg |
| PoolContract.PoolState.RemoveLiquidity | pool/src/state/state_impl.rs:152-179 | refines the withdrawal: fee mint, pair at the raised supply, burn, reserves |
| PoolContract.PoolState.Credit | pool/src/state/state_impl.rs:211-227 | refines the rise of one claimable balance; zero panics, overflow is an error that changes nothing |
| PoolContract.PoolState.Debit | pool/src/state/state_impl.rs:229-252 | refines the fall of one claimable balance, dropping the owner's entry at zero |
| PoolContract.PoolState.Claim | pool/src/state/state_impl.rs:254-270 | refines the move from claimable to claiming |
| PoolContract.PoolState.ClaimSuccess | pool/src/state/state_impl.rs:272-295 | refines the end of a delivered claim |
| PoolContract.PoolState.ClaimFail | pool/src/state/state_impl.rs:297-305 | refines the return of a claim to claimable |
| PoolContract.PoolState.SetFeeTo | pool/src/state/state_impl.rs:351-358 | only the setter redirects the fee |
| PoolContract.PoolState.SetFeeToSetter | pool/src/state/state_impl.rs:360-367 | only the setter hands its right on |
| PoolLedger.SwapAmountPair | abi/src/swap/pool/mod.rs:653-705 | a deposit uses no more than either desired amount and all of at least one |
| PoolMessages.SwapPlan | pool/src/contract_inner/handlers/message/swap.rs:119-294 | a plan that fills takes its inputs into the reserves and its outputs out of them and leaves both funded; which swaps fill, and at which outputs, is `PoolTrades.SwapExact` |
| PoolMessages.MintBalances | pool/src/state/state_impl.rs:307-313 | with shares summing to the total, minting fails only on the total: a share addition cannot overflow after it |
| PoolMessages.BurnBalances | pool/src/state/state_impl.rs:315-323 | burning keeps the sum and succeeds exactly when the share covers it |
| PoolMessages.MintSharesBalances | pool/src/state/state_impl.rs:325-343 | fee and shares together keep the sum, also when the fee receiver is the depositor |
| PoolMessages.FailedAddLeavesState | pool/src/state/state_impl.rs:108-126 | an addition that ends in an error has changed nothing |
| PoolMessages.RemoveBalances | pool/src/state/state_impl.rs:152-179 | a withdrawal keeps the sum, also when the fee receiver withdraws |
| PoolMessages.StepKeepsShares | pool/src/state/state_impl.rs:307-367 | every message keeps total supply equal to the sum of shares |
| PoolMessages.SharesAddUp | pool/src/state/state_impl.rs:108-179 | total supply is the sum of all shares after any run, for any fees and any change of fee receiver |
| PoolCurve.Root | abi/src/swap/pool/mod.rs:391-410 | the integer square root: the greatest number whose square does not pass |
| PoolCurve.RootFits | abi/src/swap/pool/mod.rs:464-473 | the root of a product of two amounts is an amount, and positive for positive amounts |
| PoolCurve.PortionLeaves | pool/src/state/state_impl.rs:152-179 | part of the shares leaves something in a reserve, all of them leave nothing |
| PoolCurve.PriceKeepsProduct | abi/src/swap/pool/mod.rs:527-589 | the rounded output leaves at least the old product on the reserves net of the fee |
| PoolCurve.QuotePassesCheck | abi/src/swap/pool/mod.rs:591-651 | a one-sided swap at the quoted output is never refused by the contract's product check, and the product of the reserves does not fall, for every fee |
| PoolCurve.ContractCurveSound | abi/src/swap/pool/mod.rs:391-462 | the contract's share, fee and withdrawal formulas satisfy what conservation asks of a curve, for every fee and every rounding of the deposit ratios |
| PoolCurve.PriceExact | abi/src/swap/pool/mod.rs:527-589 | the price is the largest output within the proportion of the input net of its fee, and no other number is |
| PoolCurve.ContractRoot | abi/src/swap/pool/mod.rs:464-473 | the root recorded at a settlement is that of the new reserves, rounded down |
| PoolCurve.ContractFirstShares | abi/src/swap/pool/mod.rs:391-432 | a first deposit earns the root of the product of its legs |
| PoolCurve.ContractShares | abi/src/swap/pool/mod.rs:391-432 | a later deposit earns the most shares that stay within the proportions of both legs, and can panic only when both are past 128 bits |
| PoolCurve.ContractFee | abi/src/swap/pool/mod.rs:434-462 | the fee never panics: of the supply it leads to, it is the largest part not above a sixth of the growth of the root since the last settlement, and nothing without growth |
| PoolCurve.ContractWithdrawal | abi/src/swap/pool/mod.rs:707-746 | a withdrawal of no more than the supply never panics, and each leg is the largest part of its reserve within the proportion of the shares |
| PoolConservation.RaiseTouchesOne | pool/src/state/state_impl.rs:211-227 | a credit fits exactly below 128 bits and changes one balance of one token |
| PoolConservation.LowerTouchesOne | pool/src/state/state_impl.rs:229-252 | a debit needs the balance and changes one balance of one token, removed entries counting as zero |
| PoolConservation.ClaimKeepsClaims | pool/src/state/state_impl.rs:254-270 | opening a claim keeps claimable plus claiming of every token |
| PoolConservation.SuccessLowersClaims | pool/src/state/state_impl.rs:272-295 | a delivered claim lowers claimable plus claiming of its token by its amount, of no other |
| PoolConservation.FailKeepsClaims | pool/src/state/state_impl.rs:297-305 | a returned claim keeps claimable plus claiming of every token |
| PoolConservation.CreditPairClaims | pool/src/contract_inner/handlers/message/swap.rs:63-116 | crediting two sides adds both amounts exactly when both fit, and strictly less in total otherwise |
| PoolConservation.SwapConserves | pool/src/contract_inner/handlers/message/swap.rs:119-383 | reserve plus claimable plus claiming is conserved on both sides if and only if the committed credits fit; it never grows beyond the input |
| PoolConservation.FailedSwapReturnsInput | pool/src/contract_inner/handlers/message/swap.rs:131-294 | a refused swap credits its whole input to the sender and changes nothing else |
| PoolConservation.FailedAddReturnsInput | pool/src/contract_inner/handlers/message/add_liquidity.rs:86-198 | a failed addition credits its whole input to the sender and changes nothing else |
| PoolCoverage.SwapCanLoseOutput | pool/src/contract_inner/handlers/message/swap.rs:354-383 | three messages the contract sends, from an empty pool and with its own curve at 0.3 percent, after which a filled sale's output is in neither the reserve nor any balance |
| PoolConservation.AddEffect | pool/src/state/state_impl.rs:108-126 | an addition raises the reserves by exactly its amounts and touches no claim |
| PoolConservation.RemoveEffect | pool/src/state/state_impl.rs:152-179 | a withdrawal lowers the reserves by exactly what it pays and leaves the pool live or empty |
| PoolConservation.RemoveAbsorbs | pool/src/contract_inner/handlers/message/remove_liquidity.rs:82-133 | a remove message credits, in all, exactly what left the reserves; to whom is `PoolTrades.RemoveExact` |
| PoolConservation.InitializeAbsorbs | pool/src/contract_inner/handlers/message/initialize_liquidity.rs:53-94 | a first deposit's value is all in the reserves afterwards |
| PoolConservation.ClaimAccounted | pool/src/contract_inner/handlers/message/claim.rs:53-119 | an accepted native claim delivers exactly its amount at once, a fungible claim delivers nothing yet |
| PoolConservation.ReceiptAccounted | pool/src/contract_inner/handlers/message/claim_transfer_receipt.rs:37-71 | a success receipt delivers its amount, a failure receipt delivers nothing |
| PoolConservation.LegAccounted | pool/src/contract_inner/handlers/message/add_liquidity_transfer_receipt.rs:87-105 | a returned deposit leg adds exactly its amount to its own side |
| PoolConservation.StepConserves | pool/src/state/state_impl.rs:108-305 | no message creates value or leaves the pool half empty; both sides are conserved if and only if it is not a swap whose credits do not fit |
| PoolConservation.CustodyExact | pool/src/state/state_impl.rs:108-305 | over any run, reserve plus claimable plus claiming never exceeds deposits less deliveries, and equals it if and only if every swap's credits fitted |
| PoolConservation.CustodyIsDepositsMinusDeliveries | pool/src/state/state_impl.rs:108-305 | if before every swap what was received, less what was delivered, leaves room for the input in 128 bits, custody changes only by deposits taken in and claims delivered, however often tokens go round |
| PoolConservation.AttachedExact | pool/src/contract_inner/handlers/message/add_liquidity.rs:145-199 | against all value attached to messages, custody and deliveries fall short by what rejected messages stranded, and by nothing else if and only if every swap's credits fitted |
| PoolCoverage.NativeClaimsCovered | pool/src/contract_inner/handlers/message/swap.rs:242-257 | after any run without leaks the native balance covers all outstanding native claims if and only if the reserve, with what rejected messages left on the account, still holds the virtual liquidity |
| PoolCoverage.SwapAboveVirtualFits | pool/src/contract_inner/handlers/message/swap.rs:265-299 | a swap that leaves at least the virtual liquidity in the native reserve always fits, as long as the account's real balances are amounts |
| PoolCoverage.NothingLostAboveVirtual | pool/src/contract_inner/handlers/message/swap.rs:354-383 | a run in which every swap does that loses nothing; without virtual liquidity no run does |
| PoolCoverage.CoverageCanBeLost | pool/src/contract_inner/handlers/message/swap.rs:242-257 | with the contract's curve at 0.3 percent, a pool opened with virtual liquidity fills two sales, each within the native balance, and then owes more than the balance |
| PoolQuotes.FeeRaisesSupply | pool/src/service.rs:74-76 | the service's effective supply is the supply after the fee is minted, and exists exactly when that mint succeeds |
| PoolQuotes.RemovePaysQuote | pool/src/service.rs:78-91 | a withdrawal without minimums pays exactly the quote, and succeeds if and only if the quote is nonzero, burnable and covered |
| PoolQuotes.MintMatchesEffectiveSupply | pool/src/service.rs:74-86 | minted shares are the curve's shares at the effective supply |
| PoolQuotes.AddMatchesQuote | pool/src/service.rs:150-189 | an executed deposit uses the quoted legs and mints the quoted shares |
| PoolTrades.SwapExact | pool/src/contract_inner/handlers/message/swap.rs:119-383 | on a live pool a swap moves the reserves, by its inputs and their prices, if and only if every input buys something, no output is under its minimum or empties a reserve, the product check passes, the native balance covers a native output and the sums fit; the outputs are then credited to the receiver, and otherwise the input to the sender, unless the product check panics |
| PoolTrades.DeadSwap | pool/src/contract_inner/handlers/message/swap.rs:354-363 | on a pool that is not live a swap is credited back whole, or rejected if the sender has no room |
| PoolTrades.UnpricedSwap | pool/src/contract_inner/handlers/message/swap.rs:119-180 | a one-sided swap the curve does not price is credited back; one it panics on is rejected unless a minimum on its own side refuses it first |
| PoolTrades.BuyAtContractPrice | pool/src/contract_inner/handlers/message/swap.rs:119-294 | buying at a fee is filled at the largest output within the fee-adjusted proportion if and only if that is positive, not under the minimum and the sum fits |
| PoolTrades.SaleAtContractPrice | pool/src/contract_inner/handlers/message/swap.rs:119-294 | the same for a sale, whose native output the native balance must also cover |
| PoolTrades.SwapNeverLowersProduct | abi/src/swap/pool/mod.rs:591-651 | on the contract's curve no swap, with one input or two, lowers the product of the reserves |
| PoolTrades.RemoveExact | pool/src/contract_inner/handlers/message/remove_liquidity.rs:82-133 | a withdrawal is carried out if and only if each leg at the supply after the fee is positive and meets its minimum, the origin has the shares, and reserves and receiver have room; the receiver alone is credited what leaves each reserve, and the origin alone loses the shares |
| PoolTrades.DepositLegs | abi/src/swap/pool/mod.rs:653-705 | which legs of a deposit are used: one in full and its match of the other, where only the trimmed leg is compared with its minimum |
| PoolTrades.AddExact | pool/src/contract_inner/handlers/message/add_liquidity.rs:86-199 | a deposit adds exactly its used legs to the reserves, mints the earned shares to the receiver alone and credits the origin what was not used; without room in the reserves, or with a leg of nothing, it is credited back whole |
| PoolTrades.UnusableAdd | pool/src/contract_inner/handlers/message/add_liquidity.rs:86-143 | a deposit with no usable legs is credited back to its origin, or rejected when a ratio panics |
| PoolTrades.OpeningExact | pool/src/contract_inner/handlers/message/initialize_liquidity.rs:53-94 | a pool is opened if and only if it is not live, both legs are positive and the shares fit; the reserves are the legs and the receiver alone gets the first shares |
| PoolTrades.ReturnExact | pool/src/contract_inner/handlers/message/add_liquidity_transfer_receipt.rs:87-105 | a returned leg raises its owner's claimable balance of its own token and nothing else |
| PoolTrades.SetterExact | pool/src/state/state_impl.rs:351-367 | the fee receiver and the setter change exactly at the setter's message, and nothing else does |
| PoolClaims.SettlementExact | pool/src/contract_inner/handlers/message/claim_transfer_receipt.rs:37-71 | a receipt is accepted exactly when the claiming balance covers it and a refund fits; then it changes that one balance |
| PoolClaims.ClaimRaisesClaiming | pool/src/contract_inner/handlers/message/claim.rs:53-119 | an accepted fungible claim is positive, of a pool token, and raises its own claiming balance only |
| ClaimProtocol.NextKeeps | meme/src/contract_inner/handlers/message/transfer_from_application_with_receipt.rs:58-101 | every protocol event, a refused settlement included, keeps each claim in exactly one place and payments equal to the places that record them |
| ClaimProtocol.ClaimingIsUnsettled | pool/src/state/state_impl.rs:254-305 | in every interleaving, the claiming balance of an owner is the sum of that owner's unsettled claims |
| ClaimProtocol.PaidOrReturnedOnce | meme/src/state/state_impl.rs:197-218 | each claim is paid at most once or returned at most once and never both; no other identity is ever paid |
| ClaimProtocol.PendingSettlementAccepted | pool/src/contract_inner/handlers/message/claim_transfer_receipt.rs:51-66 | a waiting settlement is refused exactly when it is a refund that would not fit |
| ClaimProtocol.UncoveredReceiptRejected | meme/src/contract_inner/handlers/message/transfer_from_application_receipt.rs:81-83 | a receipt for more than the owner's unsettled claims is refused in every reachable state |
| ClaimProtocol.ReceiptAcceptedExactly | pool/src/contract_inner/handlers/message/claim_transfer_receipt.rs:37-71 | in every reachable state a receipt is accepted if and only if it is positive, for a traded token, covered by the owner's unsettled claims, and a refund fits |
| PoolClaims.ClaimExact | pool/src/contract_inner/handlers/message/claim.rs:53-119 | a fungible claim is accepted exactly when the claimable balance covers it and the claiming balance has room |
| PoolClaims.NativeClaimExact | pool/src/contract_inner/handlers/message/claim.rs:53-80 | a native claim is accepted exactly when the claimable balance and the application's native balance both cover it |
| PoolClaims.NativeNeverClaiming | pool/src/contract_inner/handlers/message/claim.rs:59-66 | in every reachable state no native amount is being claimed |
| PoolClaims.NativeClaimRefusedExactly | pool/src/contract_inner/handlers/message/claim.rs:53-80 | so in every reachable state a native claim is refused exactly when one of the two balances is short |
| ClaimDuplicates.DuplicateReceiptAccepted | pool/src/contract_inner/handlers/message/claim_transfer_receipt.rs:51-66 | whenever two equal claims can be made, a second receipt for the settled first one is accepted and the other claim's own receipt is then refused |
| ClaimDuplicates.DuplicateIsReachable | pool/src/contract_inner/handlers/message/claim_transfer_receipt.rs:51-66 | the same from the creation of a token and an empty pool of it, by a transfer to the pool and a swap that the unopened pool credits |
| ClaimProtocol.QuietWorldIsSettled | meme/src/contract_inner/handlers/message/transfer_from_application_receipt.rs:62-68 | with nothing in flight and nothing lost, nothing is claiming and every claim was delivered or returned once |
| ClaimProtocol.LedgerPaysClaims | meme/src/contract_inner/handlers/message/transfer_from_application_with_receipt.rs:84-98 | in every interleaving the pool's account on a token's ledger falls by exactly the claims paid, beside what other messages to that ledger do to it |
| ClaimProtocol.PayExact | meme/src/contract_inner/handlers/message/transfer_from_application_with_receipt.rs:58-101 | a request is paid if and only if the pool's account covers a positive amount for somebody else; then the claim's owner alone gains it, the pool's account alone loses it, and the receipt says which it was |
| MemeContract.MemeState.Instantiate | meme/src/state/state_impl.rs:100-135 | refines the first write: the whole supply on the application's account, mining from the given or the full supply |
| MemeContract.MemeState.MoveTokens | meme/src/state/state_impl.rs:157-173 | refines the unguarded move |
| MemeContract.MemeState.Transfer | meme/src/state/state_impl.rs:175-195 | refines the move whose guards panic |
| MemeContract.MemeState.TransferEnsure | meme/src/state/state_impl.rs:197-218 | refines the move whose guards return errors |
| MemeContract.MemeState.Approve | meme/src/state/state_impl.rs:220-258 | refines the escrow of part of a balance for a spender |
| MemeContract.MemeState.TransferFrom | meme/src/state/state_impl.rs:260-281 | refines spending an escrow |
| MemeContract.MemeState.Mint | meme/src/state/state_impl.rs:137-139 | refines minting as a transfer from the holder |
| MemeContract.MemeState.MiningReward | meme/src/state/state_impl.rs:411-424 | refines payment of the current reward followed by halving, counting and retargeting |
| MemeContract.MemeState.TransferOwnership | meme/src/state/state_impl.rs:312-316 | only the owner names a new owner |
| MemeContract.MemeState.InitializeLiquidity | meme/src/state/state_impl.rs:40-98 | refines the trimmed escrow for the swap application |
| MemeConservation.MoveTokensTotal | meme/src/state/state_impl.rs:157-173 | the unguarded move keeps the supply when the accounts differ and inflates it by the amount when they are one |
| MemeConservation.TransferExact | meme/src/state/state_impl.rs:175-218 | with the supply backed, both transfers succeed exactly when their guards pass; no 128-bit addition can overflow |
| MemeConservation.ApproveExact | meme/src/state/state_impl.rs:220-258 | with the supply backed, approval succeeds exactly for an allowed spender and a covered amount, and moves it into escrow |
| MemeConservation.TransferFromExact | meme/src/state/state_impl.rs:260-281 | with the supply backed, spending succeeds exactly when the recorded allowance covers it |
| MemeConservation.MiningRewardExact | meme/src/state/state_impl.rs:411-424 | a block is paid exactly for a positive affordable reward to somebody else, at the reward before this block's halving |
| MemeConservation.StepKeepsBacking | meme/src/state/state_impl.rs:137-281 | every message keeps balances plus nested allowances equal to the supply |
| MemeConservation.SupplyIsConserved | meme/src/state/state_impl.rs:137-281 | balances plus all nested allowances are the initial supply in every reachable state |
| MemeConservation.MiningPaysTheSchedule | meme/src/state/state_impl.rs:411-424 | over any run of messages of every kind, what mining takes from the holder is the sum of the rewards announced before each paid block, and the schedule is where those blocks took it |
| MemeConservation.ZeroRewardEndsMining | meme/src/state/state_impl.rs:411-424 | with a zero reward the schedule never changes in any run, and after any run a mining call changes nothing |
| MemeStatements.StepIsPosted | meme/src/state/state_impl.rs:137-281 | a message changes every account's balance and every allowance by exactly what it sends, receives, grants and uses, or leaves the ledger as it was |
| MemeStatements.StepKeepsSettings | meme/src/state/state_impl.rs:312-316 | only the owner's own message changes the owner, only mining moves the schedule, and no message changes holder, supply or configuration |
| MemeStatements.BalanceStatement | meme/src/state/state_impl.rs:137-281 | after any run an account holds what it held, less all it sent and with all it received in executed messages |
| MemeStatements.AllowanceStatement | meme/src/state/state_impl.rs:220-281 | after any run a spender may spend what it could, with all it was granted and less all it used, so never more than was escrowed for it |
| MemeInstantiation.InstantiationHandler.Instantiate | meme/src/contract_inner/instantiation_handler.rs:162-210 | refines signer check, supply, owner mint and escrow in that order |
| MemeInstantiation.OwnerMint | meme/src/contract_inner/instantiation_handler.rs:185-199 | the owner's 100 tokens are minted exactly when the supply holds them and the creator is not the application |
| MemeInstantiation.InstantiationExact | meme/src/contract_inner/instantiation_handler.rs:162-210 | creation succeeds if and only if a condition on its arguments holds, and then leaves exactly one state |
| MemeInstantiation.SupplySplit | meme/src/contract_inner/instantiation_handler.rs:185-210 | the supply is split into 100 owner tokens, an escrow within the request, and a holder balance that covers the mining supply |
| MemeInstantiation.CreatedSchedule | abi/src/meme.rs:126-170 | a created token mines exactly when mining is on, at 1.7 of 21 million parts of the given mining supply, or of the whole supply when none is given, for a year, from the easiest target and an empty counter |
| MemeInstantiation.EscrowIsSpendable | meme/src/state/state_impl.rs:40-98 | the swap application can move all of the escrow to a pool, which empties it |
| MemeInstantiation.MiningCanEnd | meme/src/state/state_impl.rs:411-424 | a created token whose first paid block, a cycle later, leaves no reward |
| Mining.MiningInfo.TryHalf | abi/src/meme.rs:172-180 | refines one halving, at most one a call |
| Mining.MiningInfo.TryAdjustTarget | abi/src/meme.rs:182-227 | refines one retarget with its early returns; which target it sets is `AdjustTargetExact` |
| Mining.InitialRewardExact | abi/src/meme.rs:145-152 | the first reward is 1.7 of 21 million parts of the mining supply, rounded down |
| Mining.HalvingClosedForm | abi/src/meme.rs:172-180 | after h halvings the reward is the initial reward over 2^h rounded down once, and the next is at start plus h + 1 cycles, saturating |
| Mining.HalvingsBounded | abi/src/meme.rs:172-180 | with a clock that does not run back there are at most as many halvings as whole cycles passed and as blocks mined |
| Mining.RewardGoneExactly | abi/src/meme.rs:172-180 | the reward is zero if and only if two to the number of halvings exceeds the initial reward |
| Mining.RewardCanRunOut | abi/src/meme.rs:172-180 | from every start with room for 128 cycles, one block a cycle uses up any reward |
| Mining.YearlyHalvings | abi/src/meme.rs:172-180 | a block at the end of each cycle halves the reward every time |
| Mining.RetargetWindow | abi/src/meme.rs:182-227 | a retarget stays between a quarter and four times the target, or resets to the initial one exactly on overflow; which it is for how many seconds is `RetargetExact` |
| Mining.RetargetExact | abi/src/meme.rs:198-219 | up to 2700 seconds the next target is a quarter, from 43200 on four times, between them the target times the seconds over 10800, and the initial one when that product passes 256 bits |
| Mining.AdjustTargetExact | abi/src/meme.rs:182-227 | the target moves like that if and only if 2160 blocks are counted and a whole second has passed; then counter and period start again, and otherwise nothing changes |
| Mining.RetargetMonotone | abi/src/meme.rs:198-219 | a longer period never gives a lower target while its product fits |
| Mining.StalledClock | abi/src/meme.rs:182-192 | while no whole second passes, any number of blocks moves only the 16-bit counter, modulo 65536 |
| Mining.RetargetToZero | abi/src/meme.rs:182-227 | a retarget yields zero if and only if the target times the clamped seconds is below 10800 |
| Mining.TargetBounds | abi/src/meme.rs:126-227 | over any run the target is at most (2^256-1)/10800 and at least the initial target over 4^n after n retargets |
| Mining.TargetPositive | abi/src/meme.rs:182-227 | through 117 retargets the target is not zero |
| Mining.ZeroTargetStays | abi/src/meme.rs:182-227 | a zero target is never left |
| Mining.BurstQuarters | abi/src/meme.rs:182-227 | 2160 blocks one second after an adjustment quarter the target and cause one adjustment |
| Mining.TargetCanReachZero | abi/src/meme.rs:182-227 | from every start some clock makes the target zero at retarget 118, so 117 is the best bound |
| Approvals.Approval.Approve | abi/src/approval.rs:33-36 | records a vote in favour and panics exactly on a second vote |
| Approvals.Approval.Reject | abi/src/approval.rs:38-41 | records a vote against and panics exactly on a second vote |
| Approvals.FirstVoteStands | abi/src/approval.rs:12-42 | after any votes a ballot holds the first vote of every account and nothing else |
| Approvals.ApprovedExactly | abi/src/approval.rs:20-27 | a ballot passes exactly when enough distinct accounts voted for it the first time they voted |
| ProxyContract.ProxyState.Instantiate | proxy/src/state/state_impl.rs:18-49 | refines founding: every named operator vouched for by the first owner, every owner a genesis miner |
| ProxyContract.ProxyState.ValidateOperator | proxy/src/state/state_impl.rs:131-137 | passes exactly for an operator whose own ballot has passed |
| ProxyContract.ProxyState.AddOperator | proxy/src/state/state_impl.rs:139-147 | refines opening a ballot at the quorum of that moment |
| ProxyContract.ProxyState.ApproveAddOperator | proxy/src/state/state_impl.rs:149-158 | refines one vote on an operator's ballot |
| ProxyContract.ProxyState.BanOperator | proxy/src/state/state_impl.rs:160-172 | refines opening a ban of an existing operator |
| ProxyContract.ProxyState.ApproveBanOperator | proxy/src/state/state_impl.rs:174-191 | refines one vote on a ban, which deletes ban and operator at the quorum |
| ProxyContract.ProxyState.AddGenesisMiner | proxy/src/state/state_impl.rs:56-66 | refines opening a genesis miner's ballot |
| ProxyContract.ProxyState.ApproveAddGenesisMiner | proxy/src/state/state_impl.rs:68-77 | refines one vote on a genesis miner's ballot |
| ProxyContract.ProxyState.RemoveGenesisMiner | proxy/src/state/state_impl.rs:193-202 | refines opening a removal; repeating it is accepted, an unknown miner is an error |
| ProxyContract.ProxyState.ApproveRemoveGenesisMiner | proxy/src/state/state_impl.rs:204-217 | refines one vote on a removal, which deletes removal and miner at the quorum |
| ProxyContract.ProxyState.GenesisMiners | proxy/src/state/state_impl.rs:79-94 | lists the approved genesis miners in the order the map is read, registered at zero |
| ProxyContract.ProxyState.Miners | proxy/src/state/state_impl.rs:109-120 | lists registered miners, then approved genesis miners |
| ProxyContract.ProxyState.RegisterMiner | proxy/src/state/state_impl.rs:254-272 | refines registration, refused for an account owner that any listed miner has |
| ProxyContract.ProxyState.DeregisterMiner | proxy/src/state/state_impl.rs:274-279 | refines the removal of a registration |
| ProxyContract.ProxyState.GetMinerWithAccountOwner | proxy/src/state/state_impl.rs:281-294 | returns the first listed miner of an account owner, or not found |
| Governance.AcceptedExactly | proxy/src/contract_inner/handlers/message/propose_ban_operator.rs:42-63 | a proposal or approval is accepted if and only if there is something to vote on and an approved operator votes for the first time |
| Governance.StepEffect | proxy/src/contract_inner/handlers/message/approve_ban_operator.rs:44-58 | every message casts one vote of an approved operator on one ballot, or leaves all ballots alone |
| Governance.LossExact | proxy/src/state/state_impl.rs:174-217 | an operator or genesis miner record disappears if and only if the message completes its removal |
| Governance.EveryRecord | proxy/src/state/state_impl.rs:131-217 | in every reachable state each record is a founding one or has a proposal, the quorum of that moment and only votes cast since |
| Governance.ApprovedHasQuorum | proxy/src/state/state_impl.rs:51-54 | an approved record has at least one voter and at least 2n/3 of them, rounded down, n the operator records at its proposal, each distinct and an approved operator when voting |
| Governance.ThresholdIsTwoThirds | proxy/src/state/state_impl.rs:51-54 | a proposal opens an empty ballot whose threshold is two thirds of the operator records, rounded down, and at least one |
| Governance.BallotPassesExactly | abi/src/approval.rs:20-27 | a ballot at that threshold for n records passes if and only if it has a vote in favour and 3v + 2 >= 2n |
| Governance.VotedRecordPassesExactly | proxy/src/state/state_impl.rs:51-54 | in every reachable state a record that was voted on is approved if and only if it has those two thirds of the records at its proposal |
| Governance.BanAtOnceExactly | proxy/src/state/state_impl.rs:160-191 | a ban takes effect with its proposer's vote alone if and only if there are at most two operator records |
| Governance.FoundingExact | proxy/src/state/state_impl.rs:18-49 | a proxy is founded if and only if it has an owner or names no operator; the named are its approved operators, the owners its approved genesis miners, and nothing else is on record |
| Governance.OperatorsAreNamedOrVotedIn | proxy/src/state/state_impl.rs:131-158 | from instantiation, an approved operator was named there and kept its record, or was voted in by such a quorum |
| Governance.LossHasQuorum | proxy/src/state/state_impl.rs:160-217 | a record disappears in a run only on a removal proposal with such a quorum behind it |
| Governance.RunIsOrderly | proxy/src/state/state_impl.rs:160-279 | over any run bans are of operators, removals of genesis miners, no removal ballot is left decided, miners are distinct |
| Governance.RegisteredMinersAreFound | proxy/src/state/state_impl.rs:254-294 | after any run a registered miner is found by its account owner in every listing order, whatever genesis miners exist |
| Governance.UngovernedIsFrozen | proxy/src/state/state_impl.rs:131-137 | without an approved operator no ballot or record changes in any run |
| Governance.OperatorKept | proxy/src/state/state_impl.rs:131-191 | an approved operator stays approved through a message if and only if the message does not complete its ban |
| Governance.GovernanceEndsExactly | proxy/src/state/state_impl.rs:174-191 | one message leaves no approved operator if and only if it completes the ban of the only one |
| Governance.RunEndsExactly | proxy/src/state/state_impl.rs:131-191 | a run ends without an approved operator if and only if one of its messages does that |
| Governance.SoleOperatorCanResign | proxy/src/state/state_impl.rs:174-191 | a sole operator's own ban proposal removes it at once |
| Governance.FounderCanResign | proxy/src/state/state_impl.rs:18-49 | the sole founder of an instantiated proxy is in that position from the start |
| MinerRegistry.RegisteredIsFound | proxy/src/state/state_impl.rs:281-294 | a registered miner is what its account owner looks up, in every listing order |
| MinerRegistry.ListedExactly | proxy/src/state/state_impl.rs:254-272 | the list holds an account owner exactly when a registered or approved genesis miner has it |
| MinerRegistry.LookupExact | proxy/src/state/state_impl.rs:281-294 | a lookup fails exactly for owners registration would accept, and otherwise returns a miner of that owner, registered first |
| MinerRegistry.RegistrationExact | proxy/src/state/state_impl.rs:254-279 | a registration is accepted if and only if its account owner looks up nobody; it adds that account at that time alone, and deregistering it restores the records |
| MinerRegistry.RegisteredThenFound | proxy/src/state/state_impl.rs:254-294 | a miner just registered is what its account owner looks up, in every listing order |
| MinerRegistry.DeregistrationExact | proxy/src/state/state_impl.rs:274-279 | a deregistration is accepted if and only if the account is registered, and removes it alone |
| MinerRegistry.OrderFreeExactly | proxy/src/state/state_impl.rs:79-120 | a lookup is independent of the listing order if and only if the owner is registered or at most one approved genesis miner has it |
| MinerRegistry.FoundersAreOrderFree | proxy/src/contract_impl.rs:16-28 | founding owners sit on one chain, so a freshly instantiated proxy's lookups do not depend on the listing order |
| MinerRegistry.SharedOwnersAreReachable | proxy/src/state/state_impl.rs:56-77 | one proposal of the founding operator, of a genesis miner that shares a founder's account owner on another chain, makes the listing order matter |
| Simulator.Simulate | service/kline/src/position_metrics_fee_free_open_state_simulator.py:9-45 | returns the replayed reserves and exactly the distinct blockers that occurred, sorted; start indices count from the end when negative, and outside the list it is an error |
| Simulator.BlockersExact | service/kline/src/position_metrics_fee_free_open_state_simulator.py:21-40 | which code each entry gets: liquidity changes, swaps whose own input is absent or not positive, and unknown types; every other entry gets none |
| Simulator.SuffixExact | service/kline/src/position_metrics_fee_free_open_state_simulator.py:19 | the entries replayed are the end of the history: from the start on, or as many as a negative start counts, as far as there are any |
| Simulator.EntryExact | service/kline/src/position_metrics_fee_free_open_state_simulator.py:21-36 | a valid swap adds its amount to the input reserve and leaves the least output reserve that keeps the product; every other entry changes nothing |
| Simulator.OutRounding | service/kline/src/position_metrics_fee_free_open_state_simulator.py:26-36 | floor division leaves the product no smaller and adds less than one unit of the new input side |
| Simulator.ApplyGrows | service/kline/src/position_metrics_fee_free_open_state_simulator.py:19-40 | one entry keeps both reserves positive and grows the product by less than the new input reserve |
| Simulator.BlockedEntriesChangeNothing | service/kline/src/position_metrics_fee_free_open_state_simulator.py:23-40 | an entry is reported exactly when it moves no reserve |
| Simulator.ReplayGrows | service/kline/src/position_metrics_fee_free_open_state_simulator.py:19-40 | any history keeps both reserves positive and the product from falling |
| Simulator.NoFreeLunch | service/kline/src/position_metrics_fee_free_open_state_simulator.py:19-40 | no history leaves one reserve smaller and the other no larger |
| Simulator.SplitBuy | service/kline/src/position_metrics_fee_free_open_state_simulator.py:21-28 | k positive buys pay at most what one buy of their sum pays and at most k - 1 units less, for all positive reserves |
| Simulator.SplitSell | service/kline/src/position_metrics_fee_free_open_state_simulator.py:29-36 | the same for sells |
| Simulator.SplitLossIsTight | service/kline/src/position_metrics_fee_free_open_state_simulator.py:26-28 | for every k some pool and split lose exactly k - 1 units |
| Tvl.BuildEdges | scripts/product_workflow_e2e.py:826-835 | collects the two edges of every funded pool in pool order |
| Tvl.EdgesExact | scripts/product_workflow_e2e.py:828-835 | an edge exists exactly for a direction of a pool with two positive reserves, at the ratio of its reserves |
| Tvl.SpreadPrices | scripts/product_workflow_e2e.py:837-844 | the loop ends; every price comes from a route to the native token and no edge could price another token |
| Tvl.PricedExactly | scripts/product_workflow_e2e.py:837-844 | priced tokens are exactly those connected to the native token, each at a positive product of ratios |
| Tvl.PricesAreTheBalance | scripts/product_workflow_e2e.py:837-844 | if a vector with native price 1 balances every connected pool, the result is that vector for any edge order |
| Tvl.BalanceExists | scripts/product_workflow_e2e.py:837-844 | the result balances the pools if and only if any vector does, and if and only if no two routes disagree |
| Tvl.ExpectedTvlNative | scripts/product_workflow_e2e.py:826-854 | the total is the value of every pool's priced reserves at prices the loop can leave |
| Tvl.PoolWorth | scripts/product_workflow_e2e.py:846-854 | with balanced prices a funded pool connected to the native token is worth twice either reserve at its balancing value, and any other funded pool nothing |
| Tvl.NativePoolWorth | scripts/product_workflow_e2e.py:826-854 | a funded pool against the native token prices its token at native reserve over token reserve, and is worth twice its native reserve |
| Tvl.NativeTvl | scripts/product_workflow_e2e.py:826-854 | when all pools are of that kind, the total is twice their native reserves |
| Tvl.TvlIgnoresOrder | scripts/product_workflow_e2e.py:846-854 | for balanced pools prices and total are the same in every pool order |
| Candles.FoldSummarises | service/kline/src/candle_schema.py:121-181 | a candle opens and closes at the least and greatest (time, id) and spans the lowest and highest price |
| Candles.ShapeDependsOnSet | service/kline/src/candle_schema.py:121-181 | open, high, low, close and boundary trades depend on the set of trades only, whatever order and repetition |
| Candles.FoldCounts | service/kline/src/candle_schema.py:169-181 | without repeats every trade is counted and every volume added once |
| Candles.FoldIsOrderIndependent | service/kline/src/candle_schema.py:121-181 | without repeats the whole candle is the same in every order |
| Candles.ReplayIsNoOpExactly | service/kline/src/candle_schema.py:147-149 | an update is without effect if and only if it is at the candle's first or last trade |
| Candles.CountExact | service/kline/src/candle_schema.py:147-181 | for any reports, count and volumes are those of the first reports plus those of the repeats inside the candle they met |
| Candles.CountIsRightExactly | service/kline/src/candle_schema.py:147-181 | the count is the number of distinct trades if and only if no report repeats a trade inside the candle it meets; volumes likewise |
| Candles.FirstReportsAreTheTrades | service/kline/src/candle_schema.py:121-181 | the first reports are the set of trades, each once, in whatever order they came |
| Candles.ReportsOfOneSetAgree | service/kline/src/candle_schema.py:121-181 | two reports of one set of trades without interior repeats fold to the same candle, counts and volumes included |
| Candles.InteriorReplayIsCounted | service/kline/src/candle_schema.py:147-149 | the same reports count as three or four trades depending on when the middle one is repeated |
| Candles.IntervalsHaveWidths | service/kline/src/candle_schema.py:80-98 | storage names are fixed points of the alias table and each has a positive width |
| Candles.BucketUnique | service/kline/src/candle_schema.py:108-110 | a bucket start is the only multiple of the width whose window holds the time, also before the epoch |
| Candles.BucketKeyExact | service/kline/src/candle_schema.py:101-118 | a key exists exactly for accepted intervals, and its window holds the trade; where the window starts is `BucketKeyParts` |
| Candles.BucketKeyParts | service/kline/src/candle_schema.py:101-118 | a key carries the pool, the direction and the storage name of the interval, and starts at the multiple of its width whose window holds the trade |
| Candles.OneCandleExactly | service/kline/src/candle_schema.py:101-118 | two trades share a key if and only if pool, direction and storage interval agree and one window of that width holds both |
| Candles.MinuteWidths | service/kline/src/candle_schema.py:4-32 | "1m" and "1min" are one interval of a minute, "5m" and "5min" one of five |
| Candles.LongWidths | service/kline/src/candle_schema.py:4-32 | hours, days and weeks are as long as they say under each name, and a month is 30 days |
| Candles.BucketsNest | service/kline/src/candle_schema.py:101-118 | when one width divides another, wide buckets are unions of narrow ones |
| Hashes.U256AsHashValue | abi/src/hash.rs:17-32 | conversion to a hash is reduction modulo 2^256 |
| Hashes.HashRoundTrip | abi/src/hash.rs:6-32 | hash to number and back is the identity on all 32-byte hashes, in spite of the minimal byte string in between |
| Hashes.U256ToHash | abi/src/hash.rs:17-32 | cuts or pads the minimal byte string to the low 32 bytes |
| Hashes.HashIncrement | abi/src/hash.rs:34-38 | is plus one modulo 2^256, and on the bytes a ripple carry |
| Hashes.IncrementIsSuccessor | abi/src/hash.rs:34-38 | adding one to the number and converting back is the ripple carry |
| Hashes.AllOnesWrap | abi/src/hash.rs:34-38 | all ones become all zeros |
| Hashes.NumericIsLexicographic | abi/src/hash.rs:10-15 | on equal lengths numeric order is dictionary order of the bytes |
| Hashes.HashCmpIsLexicographic | abi/src/hash.rs:10-15 | hash comparison is byte order, and equal exactly for equal hashes |
| AccountCodec.FormatIsSpelling | service/kline/src/account_codec.py:4-13 | an owner is accepted exactly when absent or 0x and hex digits, and prints as its lower-case spelling |
| AccountCodec.OwnerNormalForm | service/kline/src/account_codec.py:4-13 | a printed owner holds no separator and prints as itself |
| AccountCodec.ParsePrinted | service/kline/src/account_codec.py:15-33 | a printed account parses to its chain and normalised owner if and only if the chain has no colon |
| AccountCodec.PrintParsed | service/kline/src/account_codec.py:15-33 | printing and reparsing an accepted string gives the same parse |
| AccountCodec.PrintingInjective | service/kline/src/account_codec.py:4-17 | two accounts print alike exactly when chains are equal and owners differ at most in hex case or in how absence is written |

## Left out

- PoolLedger.SwapAmountPair: the decimal-rounded deposit ratios are open functions of the curve, so nothing is said
  about the ratio itself; every pool result holds for all of them.
- PoolContract.PoolState.AddLiquidity: price cumulatives are not modelled, so neither is their decimal panic when one
  overflows; the contract then rejects the message where the model executes it.
- PoolContract.PoolState.InitializeLiquidity: the same, for a pool that is emptied and opened again.
- PoolContract.PoolState.RemoveLiquidity: the same.
- PoolQuotes.RemovePaysQuote: success is stated up to that panic; what a successful withdrawal pays is not affected.
- PoolConservation.FailedSwapReturnsInput: a swap that panics in arithmetic is rejected, not refunded: its input stays on
  the pool's account in no book, which `AttachedExact` counts as stranded.
- PoolConservation.FailedAddReturnsInput: the same for an addition that panics after its tokens were moved.
- PoolConservation.InitializeAbsorbs: virtual native liquidity counts as value taken in; `NativeClaimsCovered` separates it.
- Transaction records and transaction counters of the pool: they carry no value.
- Message handlers are functions on values rather than classes: they hold a message and two handles, and all state they
  change is in the classes above. Aliasing of the shared state handle is therefore not captured.
- Funding requests and deposits before they reach the pool's creator chain: a deposit's message arrives with its value
  attached. When the second funding request of a deposit fails on the depositor's own chain, the source credits the first
  leg in that chain's copy of the books; claims are executed on the creator chain only, and only its books are modelled.
  A second leg that fails on the creator chain arrives as the returned first leg.
- Liveness of the claim protocol: a receipt that bounces is deliberately ignored by the source and its claim stays open.
- The identity of a claim in `ClaimProtocol` is bookkeeping of the model; messages carry only owner, token and amount.
- Nonce and hash checks, mining height and the chain's permission to mine: cryptography and scheduling outside the ledger.
- Block numbers, chains and tokens created by the proxy, and its funding of new chains.
- Tracking of which map key comes first: the order in which stored maps list their keys is a parameter.
- Balances of binary floats and decimal rounding: candle volumes are integers in units of 1e-12, prices and valuations are reals.
- Inputs of the account codec that are not strings or absent: the source turns them into text first.
- Negative recorded reserves in the simulator's input: no history produces them.
- Facts about libraries taken from their documentation: time differences and timestamp sums saturate, the block counter
  of 16 bits wraps, the shortest big-endian form of zero is one zero byte.
- Registration of logos and applications, the pool creation call and the remaining services, web front ends, makers and
  the database layer: plumbing around the models above.
