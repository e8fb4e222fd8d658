# The cross-chain bridge stack as a verified state machine

This project models the bridge pallets of the Nexus runtime and proves what they keep, over
every run. It covers

- the NEX burn/mint bridge: outbound transfers with their pause, limit and window guards,
  inbound mints, cross-chain orders, tracked payouts and their refund contexts, the
  time-locked withdrawal queue, callbacks inside nested storage layers;
- the request side of the ISMP host and its fee layers: per-byte protocol fee, relayer fee
  escrow, nonces, top-ups and refunds, and the bounded store of state commitments with the
  drain of its legacy predecessor;
- the fungible-token bridge: its forward, reverse and precision registry, and lock-mode and
  burn-mode transfers;
- the retirement migrations of the advertising, group-robot and prediction pallets;
- two arithmetic kernels: decimal scaling between ERC-20 amounts and balances, and the fixed
  annual inflation.

## How it is built

Every stateful file of the runtime appears twice. A module of functions gives, for each call
and callback, the storage it leaves behind or the error it returns (`BridgeState`,
`HftRegistry`, `HftTransfers`, `IsmpHost`, `CommitmentStore`, ...). A class changes storage
step by step as the pallet does, loops and rollbacks included, and each of its methods is
proved to do exactly what the function says (`BridgePallet`, `HftGovernance`, `HftPallet`,
`IsmpHost.IsmpHost`, `CommitmentStore.Host`, `TrieDrain.LegacyDrains`,
`PrefixWalk.Namespace`, `RetireAds`, `RetireGroupRobot`). The laws are then lemmas about the
functions, over every sequence of operations. `BridgeTrace` shows that every bridge
operation, whatever its handlers do inside it, is a sequence of some twenty primitive storage
changes, so that a law kept by each primitive is kept by every run.

Choices a reader should know:

- Hashes and byte encodings are injective. A commitment is represented by the request it
  hashes, a message body by the value it decodes to or by `Undecodable`, an EVM-derived
  account by the address it is derived from.
- A business handler (order placement, payout refund, any other pallet that pays out through
  the bridge) is a script: any sequence of fund movements, outbound payouts and writes to
  storage of its own, followed by success or failure. The laws hold for every script.
- Messages arrive in batches, and a batch that fails anywhere leaves nothing behind
  (`HftTransfers.Execute`); a batch that succeeds is its messages one after the other, which
  is how the NEX bridge's machine takes them. Delivery is a step of the environment, as are
  the encoded body length and the timeout stamp of a request.
- The event log is extended by four notes of the model (`Burned`, `Minted`, `PayoutTracked`,
  `ContextTaken`), which the laws about runs count; the token bridge has a similar log.
- The native currency has free, reserved and frozen balances, an existential deposit, and
  reaping: the dust of a reaped account goes to the treasury if that leaves the treasury
  alive, and otherwise out of the issuance, which `burnedDust` records. The currency pallet
  itself is not part of the repository; its rules are the documented ones.
- The assets pallet is not part of the repository either. That a remainder below an asset's
  minimum leaves the account too, and moves on to the receiver of a transfer or is burned
  with the rest, is an assumption about it, which every statement about a swept remainder
  rests on. An asset's decimals and minimum do not change.
- The other chains are honest where a law speaks of two of them (`TwoChain`, `HftTwoChain`):
  their contracts mint what a delivered request carries and burn what they send back, and a
  request is delivered or timed out, never both. A lane keeps its decimals for the run, and a
  token lane its contract.
- Balances are 128 bits wide, nonces and ids 64, block numbers 32. Saturation and wrap-around
  are written out where the code has them; unchecked 128-bit products wrap.
- The minimum bridge amount is at least the existential deposit (`Config.Sound`), as the
  runtime configures it.

## Where the code falls short of its own promises

Each of these is a theorem with its exact condition, or with the input that shows it.

- The "rolling" daily limit restarts its window on the first transfer after it has elapsed,
  so one window's length of blocks can carry twice the limit, which a run shows
  (`BridgeDaily.TwiceTheLimitIsAdmitted`), and never more (`BridgeDaily.DailyLimitLaw`). A
  transfer keeps the limit as a rolling one iff the last window-long stretch of blocks has
  room for it (`BridgeDaily.RollingLimitIff`).
- Re-registering a lane with other decimals makes the refund of every earlier transfer
  inexact; lowered decimals mint more than was burned, out of what other senders have booked
  (`BridgeRefunds.TimeoutExactIffDecimalsUnchanged`). A run shows it: of two senders of m and
  9m the first gets 10m back, and the second's refund is then refused
  (`BridgeRescale.LoweredDecimalsStrandAnother`).
- The withdrawal id counter saturates, after which a new entry replaces the pending one
  (`BridgeWithdraw.SaturatedIdOverwrites`, `BridgeWithdraw.QueueKeepsEntriesIff`).
- A refund from the fee account may reap its remainder and leave another record unpayable;
  a run shows it (`FeeCoverage.RefundCanStrandAnother`), and the records stay covered iff the
  refund leaves enough (`FeeCoverage.RefundKeepsCoverIff`, `FeeCoverage.CoverageLaw`). A fee
  account that cannot pay a recorded fee back also holds up the re-mint of the NEX burned
  with it (`TwoChainRuns.LaterTimeoutGoesThroughIff`).
- The token registry has no cap on the decimal gap: it accepts any
  (`HftRefunds.AnyGapIsRegistered`). Above 38 a message is not worth what was taken for it
  (`HftRefunds.MessageWorthIff`), although up to 127 its timeout still gives it back; from
  128 on it carries nothing and its timeout is refused, so that everything sent is lost
  (`HftRefunds.SendIsLostBeyondTheScale`, and the run of `HftRefunds.RegisteredGapLosesValue`).
- A token release may sweep from custody, and give to its beneficiary, a remainder that is
  owed to somebody else, whose genuine request is then refused
  (`HftStranded.SweptRemainderStrandsClaim`); a native release has it reaped
  (`HftStranded.ReapedRemainderStrandsClaim`). Custody covers what it owes iff the remainders
  its releases swept stay within what it had besides (`HftClaims.CustodyCoverage`).
- The registry's state check alone is not kept by a registration
  (`HftRegistryLaws.RegisterKeepsCheckIff`, `HftRegistryLaws.StateCheckIsNotKept`).
- Two vetoes in a row leave the latest height without its commitment
  (`CommitmentStore.VetoKeepsLatestLiveIff`, `CommitmentStore.SecondVetoStrandsTheLatest`).
- The retirement preflight asks neither whether payees end at the existential deposit nor
  whether locks hold the source back (`Retirement.ApplyPlan`, with the plans of
  `Retirement.PreflightMissesDeadPayee` and `Retirement.PreflightMissesLock`), and the check
  after the upgrade rejects correct retirements of some plans
  (`Retirement.PostCheckPassesIff`, `Retirement.PostCheckRejectsExactSettlement`).
- A bare prefix that is itself a key is invisible to the idle check and deleted by the wipe
  (`PrefixWalk.IdleWipeIsHarmlessIff`, `PrefixWalk.BareKeyIsWiped`).
- Where the numerator of a whole period saturates, cutting it into eras can pay more
  (`Inflation.SaturatedSplittingPaysMore`).

Two comments disagree with the code, and the model follows the code. The comment on the
token adapter (`runtime/src/configs/ismp.rs:84-91`) says that the effects of a callback whose
calldata failed are not rolled back. The callback indeed leaves its credit in place
(`HftDelivery.CallbackKeepsCreditIff`), but the only call that changes storage through
messages is transactional and fails as a whole when any module does
(`pallets/bridge/pallet-ismp/src/impls.rs:64-85`, `pallets/bridge/pallet-ismp/src/lib.rs:617-629`),
so nothing of it stays on chain (`HftDelivery.BatchIsAllOrNothing`). And a comment in
`pallets/bridge/pallet-ismp/src/dispatcher.rs` gives the withdrawal message another codec
index than the code. The runtime router's own arm for that module cannot be reached, because
the host router takes it first.

## Model

| member | source | states |
|---|---|---|
| Balances.WithdrawBurns | pallets/bridge/ismp/src/lib.rs:792-799 | a burn takes exactly the amount from the payer and the issuance, and leaves the payer above its locks and, if it was, above the existential deposit |
| Balances.DepositMints | pallets/bridge/ismp/src/lib.rs:923-939 | a mint adds exactly the amount, or nothing at all when it would open an account below the existential deposit |
| Balances.KeepAliveMovesExactly | runtime/src/migrations/retire_support.rs:141-152 | a keep-alive transfer moves exactly the amount and leaves the source at or above the existential deposit |
| Precision.ParsePrint | pallets/bridge/ismp/src/impls.rs:21-30 | printing a number and parsing it back is exact, and fails for exactly the numbers above the balance maximum |
| Precision.ScaleFactorExactIffGapAtMost38 | pallets/bridge/ismp/src/lib.rs:549-553 | the 128-bit scale factor is the true power of ten iff the decimal gap is at most 38, the cap of the lane registration |
| Precision.ToBalanceIsFloor | pallets/bridge/ismp/src/impls.rs:21-30 | within the cap an inbound amount is the floor of the division by the power of ten, failing iff that exceeds the balance maximum |
| Precision.RoundTrip | pallets/bridge/ismp/src/impls.rs:21-39 | at any decimal gap below 128 every balance survives the trip to ERC-20 and back, from 128 on none does; its ERC-20 amount always fits 256 bits |
| Precision.ScaleFactorZeroIff | pallets/bridge/hft/src/impls.rs:27-40 | the wrapped scale factor is zero iff the gap is at least 128 |
| Precision.QuotientIsDivision | pallets/bridge/ismp/src/impls.rs:21-30 | the repeated subtraction the conversions are defined by is integer division |
| Precision.DustBelowOneUnit | pallets/bridge/ismp/src/impls.rs:21-39 | what an inbound conversion drops is worth less than one native unit |
| Precision.SplittingNeverYieldsMore | pallets/bridge/ismp/src/impls.rs:21-30 | splitting a transfer never yields more, and at most one unit less; more in never means less out |
| Precision.RefundExactIffSameScale | pallets/bridge/ismp/src/lib.rs:549-560 | converting with today's decimals what was sent under earlier ones is exact iff they are equal |
| Precision.RescaledAmount | pallets/bridge/ismp/src/impls.rs:21-39 | lowering the decimals multiplies what comes back by the power of ten between them, raising them divides it |
| IsmpHost.IsmpHost.DispatchRequest | pallets/bridge/pallet-ismp/src/dispatcher.rs:92-151 | both fees are escrowed, the request takes the nonce and is recorded, exactly as the dispatch function says, or it fails |
| IsmpHost.IsmpHost.TakeNonce | pallets/bridge/pallet-ismp/src/host.rs:123-127 | returns the current nonce and moves to the next, wrapping at 64 bits |
| IsmpHost.IsmpHost.RecordRequest | pallets/bridge/pallet-ismp/src/impls.rs:97-131 | records a new commitment and refuses a duplicate, leaving the records alone |
| IsmpHost.IsmpHost.FundMessage | pallets/bridge/pallet-ismp/src/lib.rs:693-729 | adds a paid top-up to an outstanding record; on failure nothing changes |
| IsmpHost.IsmpHost.HandleTimeout | pallets/bridge/pallet-ismp/src/host.rs:323-336 | a timed-out record goes and its fee returns, unless the module refuses or the refund fails, and then it is back |
| FeeEscrow.EscrowLaw | pallets/bridge/hyperbridge/src/lib.rs:198-243 | over every run the fee account holds its opening balance plus fees and top-ups minus refunds, withdrawals and reaped remainders; each record is worth what was paid into it; nothing is dispatched or refunded twice |
| FeeEscrow.DuplicateBranchUnreachable | pallets/bridge/pallet-ismp/src/impls.rs:97-102 | in every reachable state a dispatch fails only for want of funds, never as a duplicate |
| FeeEscrow.PayoutExactIff | pallets/bridge/pallet-ismp/src/dispatcher.rs:205-215 | a payout takes exactly its amount from the fee account iff it leaves nothing, enough, or a reserve behind |
| FeeCoverage.RefundKeepsCoverIff | pallets/bridge/pallet-ismp/src/host.rs:323-336 | a refund leaves all other records covered by the fee account iff what it leaves there, after reaping, still covers them |
| FeeCoverage.StaysCoveredIff | pallets/bridge/pallet-ismp/src/lib.rs:693-729 | exactly when an operation keeps the records covered; dispatches and top-ups always do |
| FeeCoverage.CoveredNeverWraps | pallets/bridge/pallet-ismp/src/lib.rs:715-724 | no top-up of a covered escrow wraps its 128-bit sum |
| FeeCoverage.CoverageLaw | pallets/bridge/hyperbridge/src/lib.rs:198-243 | over every run the records are covered iff what was withdrawn and reaped does not exceed the opening balance and the protocol fees |
| FeeCoverage.RefundCanStrandAnother | pallets/bridge/pallet-ismp/src/host.rs:323-336 | a run of two dispatches and a refund after which the other record, covered until then, cannot be refunded |
| BridgePallet.Bridge.DoOutbound | pallets/bridge/ismp/src/lib.rs:756-842 | guards, burn, booking and dispatch leave exactly the outbound function's storage, or its error with the burn and booking possibly done, for the caller's layer to roll back |
| BridgePallet.Bridge.DoOutboundTracked | pallets/bridge/ismp/src/lib.rs:859-876 | an outbound transfer and the refund context stored under its commitment |
| BridgePallet.Bridge.BridgeOut | pallets/bridge/ismp/src/lib.rs:473-490 | the transactional call: on error the storage is what it was |
| BridgePallet.Bridge.InNestedLayer | pallets/bridge/ismp/src/module.rs:249-262 | a handler runs to success, or nothing it did remains |
| BridgePallet.Bridge.DoCreditInbound | pallets/bridge/ismp/src/lib.rs:923-939 | un-books lane and total and mints, or refuses with the ledger untouched |
| BridgePallet.Bridge.DoCrossOrder | pallets/bridge/ismp/src/module.rs:235-283 | a failed order keeps exactly the mint |
| BridgePallet.Bridge.DoQueueWithdraw | pallets/bridge/ismp/src/lib.rs:718-742 | stores the entry under the next id with its due block and advances the counter, which saturates |
| BridgePallet.Bridge.DoWithdraw | pallets/bridge/ismp/src/module.rs:304-336 | queues a decoded withdrawal order, moving no funds |
| BridgePallet.Bridge.Accept | pallets/bridge/ismp/src/module.rs:82-146 | an inbound request as a whole: accepted with its receipt, or refused with nothing changed |
| BridgePallet.Bridge.Timeout | pallets/bridge/ismp/src/module.rs:159-217 | a timeout as a whole: record gone, sender re-minted, context handed on, relayer fee back; or nothing changed |
| BridgePallet.Bridge.Execute | pallets/bridge/ismp/src/lib.rs:636-659 | a due withdrawal burns and leaves the queue; a failed one leaves entry, balances and ledger unchanged |
| BridgePallet.Bridge.Cancel | pallets/bridge/ismp/src/lib.rs:670-678 | removes a pending entry and nothing else |
| BridgePallet.Bridge.PrunePayoutRefunds | pallets/bridge/ismp/src/lib.rs:600-616 | removes exactly the visited contexts past their time to live |
| BridgePallet.Bridge.SetPaused | pallets/bridge/ismp/src/lib.rs:496-510 | pauses or resumes all lanes or one |
| BridgePallet.Bridge.SetLimits | pallets/bridge/ismp/src/lib.rs:514-525 | replaces both limits and nothing else |
| BridgePallet.Bridge.Register | pallets/bridge/ismp/src/lib.rs:540-567 | registers an EVM lane whose decimals are at least native and at most 38 above, overwriting an earlier row |
| BridgePallet.Bridge.TopUpRecord | pallets/bridge/pallet-ismp/src/lib.rs:693-729 | adds a payment to an outstanding record's fee, or changes nothing |
| BridgePallet.Bridge.Deregister | pallets/bridge/ismp/src/lib.rs:573-578 | removes a lane row and leaves its booked amount |
| BridgePallet.Bridge.CheckLedgerInvariant | pallets/bridge/ismp/src/lib.rs:698-709 | sums the lanes and holds iff they add up to the total |
| BridgeTrace.OperationTraced | pallets/bridge/ismp/src/module.rs:56-71 | every successful operation, with all its handlers do, equals a sequence of primitive storage changes |
| BridgeLaws.OutboundEffect | pallets/bridge/ismp/src/lib.rs:756-842 | what a successful outbound transfer implies: guards passed, one burn booked on one lane, a fresh commitment, nothing else touched |
| BridgeLaws.CreditConservesIffItMints | pallets/bridge/ismp/src/lib.rs:923-939 | a credit keeps the supply constant iff it is not silently dropped by the currency |
| BridgeLaws.StepLawful | pallets/bridge/ismp/src/lib.rs:698-709 | every operation keeps the ledger law: lanes add up, each lane is its burns minus its mints, supply constant |
| BridgeLaws.ConservationLaw | pallets/bridge/ismp/src/lib.rs:792-810 | over every run from genesis, issuance plus bridged-out (plus unreceivable dust) is constant and the lanes add up to the total |
| BridgeLaws.NeverMintsMoreThanBurned | pallets/bridge/ismp/src/lib.rs:923-939 | at every prefix of every run a lane's mints never exceed its burns |
| BridgeDaily.DailyLimitLaw | pallets/bridge/ismp/src/lib.rs:780-810 | with fixed limits, the accounting window carries at most the daily limit and any window's length of blocks at most twice it |
| BridgeDaily.TwiceTheLimitIsAdmitted | pallets/bridge/ismp/src/lib.rs:780-790 | a run of the bridge, under every sound configuration with a window longer than a block and untouched limits, that burns twice the limit in two consecutive blocks |
| BridgeDaily.RollingLimitIff | pallets/bridge/ismp/src/lib.rs:780-810 | a transfer keeps the limit in every window-long stretch of blocks iff it was kept before and the last window-long stretch has room for it |
| BridgeDaily.RollingLimitOverRuns | pallets/bridge/ismp/src/lib.rs:780-810 | the same in every reachable storage, whatever the limits were |
| BridgeWithdraw.WithdrawalLaw | pallets/bridge/ismp/src/lib.rs:636-678 | over every run below id saturation: ids fresh, each entry ended at most once, executed no earlier than due, burning exactly the queued amount from its owner to its lane |
| BridgeWithdraw.QueueKeepsEntriesIff | pallets/bridge/ismp/src/lib.rs:718-742 | queueing keeps every pending entry iff the next id is free or already holds this very entry |
| BridgeWithdraw.SaturatedIdOverwrites | pallets/bridge/ismp/src/lib.rs:718-742 | at saturation the second entry replaces the first |
| BridgeRefunds.RefundContextLaw | pallets/bridge/ismp/src/module.rs:159-217 | over every run a refund context is taken at most once, carries exactly the dispatched meta, and survives until taken or past its time to live |
| BridgeRefunds.TimeoutUnderNewDecimals | pallets/bridge/ismp/src/module.rs:159-217 | the timeout of a transfer whose lane was re-registered with other decimals goes through iff the re-decoded amount is a balance of at least the minimum and booked on the lane, and mints just that |
| BridgeRefunds.TimeoutExactIffDecimalsUnchanged | pallets/bridge/ismp/src/module.rs:159-217 | a timeout mints what was burned iff the decimals are those of the dispatch; lowered by j they mint 10^j times as much, out of what others have booked on the lane; raised, too little |
| BridgeRescale.LoweredDecimalsStrandAnother | pallets/bridge/ismp/src/lib.rs:540-567 | a run from genesis: two transfers, the lane re-registered with one decimal less, the first timeout mints ten times its burn and the timeout of the other transfer is then refused |
| BridgeRefunds.SendThenTimeoutIsIdentity | pallets/bridge/ismp/src/module.rs:159-217 | send then timeout: it goes through unless locks or reserves hold the fee account back, restores lane ledger and records, and leaves sender and fee account as before up to the protocol fee iff no remainder of theirs was reaped |
| TwoChainRuns.TwoChainSafety | pallets/bridge/ismp/src/lib.rs:923-966 | over every run of both chains, a lane's booked amount covers outbound in flight, supply over there and inbound in flight, exceeding them by less than one unit per credit |
| TwoChainRuns.LegitimateInboundAccepted | pallets/bridge/ismp/src/module.rs:82-146 | after any run of both chains a legitimate inbound request is accepted iff it is new and well formed; the ledger check never refuses it |
| TwoChainRuns.UndeliveredRefunds | pallets/bridge/ismp/src/module.rs:159-217 | after any run the refund of an undelivered request goes through iff its lane is still registered with the same contract |
| TwoChainRuns.RecordStays | pallets/bridge/pallet-ismp/src/host.rs:234-241 | no change but its own refund or top-up touches an outstanding record, and no new request takes its place |
| TwoChainRuns.LaterTimeoutIsExact | pallets/bridge/ismp/src/module.rs:159-217 | after any run a send, tracked or not, then anything but its delivery or timeout, then its timeout under the same lane row: exactly the burned amount is re-minted and un-booked, a stored context handed on, and the dispatched fee with every top-up since paid back to its sender |
| TwoChainRuns.LaterTimeoutGoesThroughIff | pallets/bridge/pallet-ismp/src/host.rs:323-336 | such a timeout, without a stored context, goes through iff the fee account is free to pay the recorded fee; where it is not, nothing is re-minted |
| HftGovernance.Registry.RegisterToken | pallets/bridge/hft/src/lib.rs:343-376 | validates the whole batch, then writes it; on error no row changed |
| HftGovernance.Registry.UpdateToken | pallets/bridge/hft/src/lib.rs:381-424 | validates additions and removals, then replaces and removes; on error no row changed |
| HftGovernance.Registry.RemoveLane | pallets/bridge/hft/src/lib.rs:512-523 | removes the three rows of a lane, or refuses with nothing changed when the reverse row points elsewhere |
| HftGovernance.Registry.ValidateEntries | pallets/bridge/hft/src/lib.rs:469-489 | reports the first fault of the batch in its order |
| HftGovernance.Registry.CheckRegistryInvariants | pallets/bridge/hft/src/lib.rs:428-452 | the three passes succeed iff every row of every table is matched and well formed |
| HftGovernance.SetIsFullIffDistinct | pallets/bridge/hft/src/lib.rs:386-397 | comparing set size with sequence length finds exactly the repeated chains |
| HftRegistryLaws.ValidatedUpdateSucceeds | pallets/bridge/hft/src/lib.rs:399-424 | once validation has passed, no removal can report inconsistency, whatever the tables; the result is the planned rewiring |
| HftRegistryLaws.RegisterKeepsOneToOne | pallets/bridge/hft/src/lib.rs:343-376 | a registration keeps the registry one-to-one and rewires exactly its chains |
| HftRegistryLaws.UpdateKeepsOneToOne | pallets/bridge/hft/src/lib.rs:381-424 | an update keeps the registry one-to-one and rewires exactly its chains |
| HftRegistryLaws.RegistryLaw | pallets/bridge/hft/src/lib.rs:428-452 | over every run of registrations and updates the registry is one-to-one, with valid EVM contracts and registered assets |
| HftRegistryLaws.ModeNeverChanges | pallets/bridge/hft/src/lib.rs:350-367 | whatever follows, an asset keeps the custody mode of its registration |
| HftRegistryLaws.ContractsAreUnique | pallets/bridge/hft/src/lib.rs:469-489 | two assets share a contract on a chain iff they are the same asset |
| HftRegistryLaws.RegisterKeepsCheckIff | pallets/bridge/hft/src/lib.rs:343-376 | over tables that merely pass the state check, a registration keeps them passing iff no named chain holds a stale row of the asset |
| HftRegistryLaws.StateCheckIsNotKept | pallets/bridge/hft/src/lib.rs:428-452 | tables that pass the state check and fail it after a registration |
| HftRegistryLaws.RegisterThenRemoveAll | pallets/bridge/hft/src/lib.rs:381-424 | removing all lanes of a fresh registration restores every row but the mode |
| HftRegistryLaws.CanonicalIffRegistered | runtime/src/configs/ismp.rs:483-501 | under the invariant the receipt adapter's descriptor exists iff the lane is registered, burn-mode and has six decimals |
| HftPallet.Pallet.Send | pallets/bridge/hft/src/lib.rs:221-301 | moves value out and dispatches; a failed dispatch leaves the state unchanged |
| HftPallet.Pallet.CollectFrom | pallets/bridge/hft/src/lib.rs:236-262 | native and locked value goes to custody, other tokens are burned, or nothing changes |
| HftPallet.Pallet.ReleaseTo | pallets/bridge/hft/src/module.rs:78-98 | native and locked value leaves custody, other tokens are minted, or nothing changes |
| HftPallet.Pallet.AcceptBody | pallets/bridge/hft/src/module.rs:39-190 | credits, then runs calldata whose failure leaves the credit in place |
| HftPallet.Pallet.NoCallDataAccept | runtime/src/configs/ismp.rs:93-106 | refuses calldata before anything moves |
| HftPallet.Pallet.TimeoutBody | pallets/bridge/hft/src/module.rs:196-262 | refunds a timed-out request to its sender |
| HftPallet.Pallet.HandleDelivery | pallets/bridge/pallet-ismp/src/host.rs:259-265 | inside a batch: the receipt written first and deleted when the callback fails, the rest as the callback left it |
| HftPallet.Pallet.HandleMessages | pallets/bridge/pallet-ismp/src/impls.rs:40-83 | runs a batch on past the errors of modules, stopping at a rejection, and reports the first error |
| HftPallet.Pallet.ExecuteBatch | pallets/bridge/pallet-ismp/src/lib.rs:617-629 | the transactional call: the batch as a whole, or the storage as it was |
| HftPallet.Pallet.HandleTimeout | pallets/bridge/pallet-ismp/src/host.rs:323-336 | record, refund and relayer fee together, or nothing |
| HftLaws.HftConservation | pallets/bridge/hft/src/module.rs:78-98 | tokens, over every run of sends, batches, governance and outside transfers: a locked token keeps its supply and custody holds its opening balance and the net outflow; a burned token's supply plus net outflow is constant; the mode stands |
| HftLaws.SentBalancesIff | pallets/bridge/hft/src/lib.rs:255-262 | in burn mode the amounts sent and released alone account for the supply iff no send swept a remainder |
| HftLaws.NativeCustodyLaw | pallets/bridge/hft/src/module.rs:78-84 | native currency, over every run: custody is its opening balance plus sent and given, minus released and reaped; issuance and dust together are constant |
| HftLaws.NativeReleaseExactIff | pallets/bridge/hft/src/module.rs:78-84 | a native release takes exactly its amount from custody iff nothing, at least the existential deposit, or a reserve stays |
| HftDelivery.GuardedCallbackIsAtomic | runtime/src/configs/ismp.rs:93-106 | the adapter refuses without a trace, and accepts iff the message is well formed, without calldata, and its credit possible |
| HftDelivery.CallbackKeepsCreditIff | pallets/bridge/hft/src/module.rs:39-190 | the callback alone, refused, changes nothing iff undecodable, without calldata, with calldata that runs, or with an impossible credit: the credit precedes the calldata |
| HftDelivery.BatchIsAllOrNothing | pallets/bridge/pallet-ismp/src/impls.rs:40-83 | what a batch leaves on chain: each message's effect in order if every one succeeds, otherwise what was there before, receipts included, with or without the adapter |
| HftDelivery.DeliverySucceedsIff | pallets/bridge/pallet-ismp/src/lib.rs:617-629 | a delivery succeeds on chain iff the request is new, its credit possible, and its calldata empty or, without the adapter, runs |
| HftDelivery.EachRequestCreditsOnce | pallets/bridge/pallet-ismp/src/impls.rs:40-83 | over every run of batches, with or without the adapter, a request is credited once if accepted and never otherwise |
| HftRefunds.SendThenTimeout | pallets/bridge/hft/src/module.rs:196-262 | a timed-out token send restores every holding iff the decimal gap is below 128 and no remainder was swept on the way out (or it was swept back) |
| HftRefunds.NativeSendThenTimeout | pallets/bridge/hft/src/module.rs:196-262 | a timed-out native send goes through iff the gap is below 128, custody is free to pay and the sender may receive; it then returns exactly the amount, and custody is as before iff what it had could stay behind |
| HftRefunds.AnyGapIsRegistered | pallets/bridge/hft/src/lib.rs:343-376 | a registration with any decimal gap is accepted |
| HftRefunds.MessageWorthIff | pallets/bridge/hft/src/lib.rs:265-278 | a message carries what was taken, in the lane's decimals, iff the gap is at most 38 or nothing was sent |
| HftRefunds.SendIsLostBeyondTheScale | pallets/bridge/hft/src/lib.rs:221-301 | from a gap of 128 on a send succeeds, carries nothing, and its timeout is refused |
| HftRefunds.RegisteredGapLosesValue | pallets/bridge/hft/src/lib.rs:343-376 | a run: such a lane is registered, a whole supply is sent and burned, and the refund is refused |
| HftTwoChain.HftTwoChainSafety | pallets/bridge/hft/src/module.rs:39-104 | over every run of both chains, at any decimal gap, what each token lane has out covers outbound in flight, supply over there and inbound in flight, up to less than one unit per credit; all lanes of an asset together have out no more than was sent and not released |
| HftClaims.CustodyCoverage | pallets/bridge/hft/src/module.rs:78-98 | over every run of both chains custody, native or locked, holds what was sent and not released iff the remainders its releases swept stay within its opening balance, gifts and remainders swept in |
| HftClaims.LegitimateDeliveryIff | pallets/bridge/hft/src/module.rs:39-104 | after any run of both chains, while custody covers what it owes, a genuine request still under way is delivered iff calldata does not stop it, its amount and address decode, and the beneficiary can receive it: never refused for want of value |
| HftClaims.UndeliveredRefundIff | pallets/bridge/hft/src/module.rs:196-262 | likewise the timeout of an outstanding, undelivered request goes through iff the lane is still registered, its scale is not zero and the sender can receive it, and it returns exactly what was sent |
| HftStranded.SweptRemainderStrandsClaim | pallets/bridge/hft/src/module.rs:85-93 | a run of both chains in which a release sweeps what another genuine, admissible request claims, which is then refused |
| HftStranded.ReapedRemainderStrandsClaim | pallets/bridge/hft/src/module.rs:78-84 | a native release whose reaped remainder leaves nothing for the next |
| CommitmentStore.Host.StoreCommitment | pallets/bridge/pallet-ismp/src/lib.rs:960-975 | evicts the oldest of a full set, then inserts; the store function's result |
| CommitmentStore.Host.DeleteCommitment | pallets/bridge/pallet-ismp/src/host.rs:200-220 | removes a height everywhere and falls back to the previous latest |
| CommitmentStore.Host.StoreLatestHeight | pallets/bridge/pallet-ismp/src/host.rs:227-232 | keeps the old latest as previous |
| CommitmentStore.Host.StoreUpdateTime | pallets/bridge/pallet-ismp/src/lib.rs:980-982 | stores a timestamp under its height |
| CommitmentStore.InsertionNeverRefused | pallets/bridge/pallet-ismp/src/lib.rs:960-975 | the insertion whose result is ignored always succeeds; one height in, the oldest out of a full set |
| CommitmentStore.StoreLaw | pallets/bridge/pallet-ismp/src/lib.rs:960-975 | over every run stored commitments are exactly the indexed heights, at most 1024 per state machine |
| CommitmentStore.VetoNeverFails | pallets/bridge/pallet-ismp/src/host.rs:200-220 | the missing-predecessor error is unreachable |
| CommitmentStore.TimesStayIndexed | pallets/bridge/pallet-ismp/src/lib.rs:980-982 | timestamps stay within stored heights iff each is stored for a stored height |
| CommitmentStore.IncreasingKeepsNewest | pallets/bridge/pallet-ismp/src/lib.rs:960-975 | whatever is stored in between, timestamps, latest heights, other machines, n increasing insertions without a veto leave exactly the newest min(n, 1024) heights |
| CommitmentStore.OnlyTheOldestIsEvicted | pallets/bridge/pallet-ismp/src/lib.rs:960-975 | whatever the order, only a full store evicts, only one height, and it is older than all it keeps |
| CommitmentStore.VetoKeepsLatestLiveIff | pallets/bridge/pallet-ismp/src/host.rs:200-220 | after a veto the latest height has its commitment iff the previous one is another, stored height (or zero) |
| CommitmentStore.SecondVetoStrandsTheLatest | pallets/bridge/pallet-ismp/src/host.rs:200-220 | two vetoes in a row leave the latest height without its commitment |
| LexKeys.PrefixIsContiguous | runtime/src/migrations/retire_support.rs:64-75 | between two keys with a prefix every key has it |
| LexKeys.NextStaysUnder | runtime/src/migrations/retire_support.rs:64-75 | the next key has the prefix iff any key under the prefix is still ahead, and then is the first of them |
| TrieDrain.LegacyDrains.DrainChildTrie | pallets/bridge/pallet-ismp/src/lib.rs:531-598 | removes exactly the first 190 keys under the prefix or all there are, done iff there were fewer, no other key touched, cursor resumable |
| TrieDrain.LegacyDrains.OnIdle | pallets/bridge/pallet-ismp/src/lib.rs:418-601 | each drain runs iff funded, and the consumed weight never exceeds what was given |
| TrieDrain.EveryBatchCounts | pallets/bridge/pallet-ismp/src/lib.rs:531-598 | over every history each funded batch removes a full 190 until the drain is done |
| TrieDrain.DrainEnds | pallets/bridge/pallet-ismp/src/lib.rs:418-601 | after enough funded batches the drain is done and no key properly extending the prefix is left |
| PrefixWalk.CountKeysWithPrefix | runtime/src/migrations/retire_support.rs:64-75 | the walk ends and counts exactly the keys properly extending the prefix |
| PrefixWalk.CountNonVersionKeys | runtime/src/migrations/retire_support.rs:79-94 | that count less a present version key |
| PrefixWalk.Namespace.AssertIdle | runtime/src/migrations/retire_prediction.rs:171-194 | newly stamps the version iff every prefix holds nothing but its version key |
| PrefixWalk.Namespace.RemoveAfterIdle | runtime/src/migrations/retire_prediction.rs:241-247 | wipes only once stamped |
| PrefixWalk.IdleIffNoUserKey | runtime/src/migrations/retire_prediction.rs:171-194 | idle means no user key under any prefix |
| PrefixWalk.IdleWipeIsHarmlessIff | runtime/src/migrations/retire_prediction.rs:171-247 | after the idle check the wipe deletes only version keys iff no bare prefix is a key |
| PrefixWalk.BareKeyIsWiped | runtime/src/migrations/retire_prediction.rs:171-247 | an idle namespace whose wipe deletes its bare prefix key |
| Retirement.AddTable | runtime/src/migrations/retire_ads.rs:228-235 | in any row order, each account gains what the table attributes to it, up to the balance maximum; fails iff a row that matters has no owner |
| Retirement.TakeTableAway | runtime/src/migrations/retire_ads.rs:301-376 | a table's attribution partitions its total |
| Retirement.Preflight | runtime/src/migrations/retire_support.rs:156-179 | passes iff every reserve covers its amount and the source can pay all and keep the existential deposit |
| Retirement.ReleaseReserves | runtime/src/migrations/retire_support.rs:127-137 | after the preflight no reserve falls short |
| Retirement.TransferGoesThroughIff | runtime/src/migrations/retire_support.rs:141-152 | the next payment goes through iff the payee becomes viable and the source keeps deposit and locks |
| Retirement.ApplyPlan | runtime/src/migrations/retire_ads.rs:378-390 | after the preflight it succeeds, in any order, iff every payee ends viable and no lock of the source is in the way, and then exactly the planned amounts moved, issuance unchanged |
| Retirement.SourceKeepsDeposit | runtime/src/migrations/retire_support.rs:156-166 | the source ends at or above the existential deposit |
| Retirement.PreflightMissesDeadPayee | runtime/src/migrations/retire_support.rs:156-179 | a plan the preflight passes and the transfers refuse, for a payee below the existential deposit |
| Retirement.PreflightMissesLock | runtime/src/migrations/retire_support.rs:156-166 | another, for a lock on the source |
| Retirement.PostCheckPassesIff | runtime/src/migrations/retire_ads.rs:490-528 | the check after the upgrade passes iff no account is both released and paid and the source is in neither set |
| Retirement.PostCheckRejectsExactSettlement | runtime/src/migrations/retire_ads.rs:490-528 | a plan carried out exactly and rejected by that check |
| RetireAds.AdsRetirement.CollectPlan | runtime/src/migrations/retire_ads.rs:301-376 | the one plan the seven tables call for, or an error iff a row has no owner or the preflight fails |
| RetireAds.PlanIsExact | runtime/src/migrations/retire_ads.rs:301-376 | each account's amounts are the sums of its rows, and all together the totals of the tables |
| RetireAds.AdsRetirement.OnRuntimeUpgrade | runtime/src/migrations/retire_ads.rs:392-402 | succeeds iff the refund can be carried out in full, stamps the version only then, and does nothing when already stamped |
| RetireAds.AdsRetirement.RemoveAfterRefund | runtime/src/migrations/retire_ads.rs:274-280 | wipes only once the version is stamped |
| RetireGroupRobot.GroupRobotRetirement.CollectPlan | runtime/src/migrations/retire_grouprobot.rs:258-315 | the one plan the four tables call for; node rows must decode even without stake |
| RetireGroupRobot.PlanIsExact | runtime/src/migrations/retire_grouprobot.rs:258-315 | each account's amounts are the sums of its rows, and all together the totals of the tables |
| RetireGroupRobot.GroupRobotRetirement.OnRuntimeUpgrade | runtime/src/migrations/retire_grouprobot.rs:329-339 | succeeds iff the refund can be carried out in full, stamps the version only then, and does nothing when already stamped |
| Inflation.SharesAddUp | runtime/src/configs/mod.rs:361-411 | for every issuance and era length nothing overflows, and staker, treasury and pool shares add up to the era total |
| Inflation.YearPaysAtMostFivePercent | runtime/src/configs/mod.rs:361-384 | however a year is cut into eras it pays at most five percent of the largest issuance in it |
| Inflation.SplittingPaysAlmostTheSame | runtime/src/configs/mod.rs:361-384 | at fixed issuance, n eras pay less than one period by fewer than n units, on all inputs, and no more unless the period's numerator saturates |
| Inflation.SaturatedSplittingPaysMore | runtime/src/configs/mod.rs:361-384 | two eras that pay twice what their period pays at once, where it saturates |
| Inflation.SplitterIsExactIff | runtime/src/configs/mod.rs:393-411 | the remainder reaches treasury and pool exactly iff each share makes a viable account; a dropped share leaves the issuance |

## Left out

- The external message handler, consensus clients, proofs and the offchain request store: delivery, acceptance and timeout are steps of the environment; the handler's order of effects around a callback is taken from what the host methods and the runtime's comments promise.
- Byte-level ABI and SCALE encodings, hashing and signature checks: encodings and hashes are injective.
- Origins: who may call an operation is not modelled; every law holds for every caller.
- Weights, except those of the legacy drain.
- What clearing a legacy storage map reports is an input of the drain step, no more than a batch at a time.
- Token accounts beyond balances and minimum balance (freezing, sufficiency, approvals).
- Which storage keys the retired pallets use: prefixes and the version tail are parameters of the walk.
- Adapters of other pallets, chat, archiver, notifiers, inscription, epoch and deposit helpers, node and service code: they wrap code that is not in the repository or would add only easy members.
- Handlers other than scripts: a handler that reads its storage and decides is one script on each storage it meets.
- BridgeRefunds.SendThenTimeoutIsIdentity: speaks of the timeout right after an untracked send, from an account other than the fee account and the treasury; for any later point of any run, tracked sends and every sender see `TwoChainRuns.LaterTimeoutIsExact`.
- IsmpHost.IsmpHost.FundMessage: covers requests, not responses; nothing in the runtime records a response any more.
- HftPallet.Pallet.AcceptBody: calldata is reduced to success or failure, its signature check and the effects of the runtime call it dispatches are not modelled, because the runtime's adapter refuses calldata.
- Inflation.SplittingPaysAlmostTheSame: says nothing about how much more a saturating period pays when it is cut.
