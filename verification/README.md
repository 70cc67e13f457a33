# Verified model of the StellarIQ contracts

This project models three coupled parts of the StellarIQ Soroban contracts and proves properties of them in Dafny 4.11.

- **The swap router** (`Routing`, `RouterSteps`, `Router`). A swap checks its request, pulls the trader's tokens, and
  then, hop by hop, forwards the amount to an adapter and chains what the recipient's balance gained. `Router` is a
  class with the contract's storage as fields and `swap` as a loop; `Routing.Execute` is the function it is proved
  against, and `RouterSteps.Run` is the state after any history of transactions. `Custody` says where the money is while
  adapters are untrusted, `Refusals` and `Failures` exactly how a swap can fail before and after funds move,
  `RouterCalls` that storage and management events are what the committed calls asked for, `RouterLog` what the event
  log tells, and `RouterBooks` that the log accounts for the tokens.
- **The donations ledger** (`Giving`, `Donations`). `Donations` is a class that updates campaigns, donor totals, receipts
  and counters entry by entry; `Giving.Donated` and its neighbours are the functions it is proved against.
  `GivingBooks` ties the totals to the receipts, `GivingHistory` says what never changes, and `GivingCalls` that campaigns,
  receipts, events and token movements are what the committed calls asked for.
- **Fixed-point pricing and the test adapter** (`FixedPoint`, `TestAdapter`), which give a concrete adapter, so that a
  swap can be proved to be a pure fold of prices (`Refinement`).

`Tokens` models SEP-41 token contracts: one book of balances per deployed token. `dafny verify dfyconfig.toml` checks
everything.

## How to read it

- A call returns a value (`Ok`), an error code (`Err`) or traps (`Trap`). The host undoes a call that does not return a
  value: `RouterSteps.Transact`, `Giving.GiveTransact`, and the `Invoke` methods that save and restore the fields.
- Integers are unbounded; the widths of `i128`, `u64` and `u32` are subset types, and every addition the contracts make
  is preceded by its range test: a checked one becomes the contract's error, a plain one a trap (the release profile
  keeps overflow checks on).
- `require_auth` is a test against the set of signers in `Env`; timestamp and ledger sequence are in `Env` too.
- What the adapters do during one swap is an arbitrary function `Venue` from hop, call and ledger to a reply: a failure,
  or a reported amount and the ledger left behind. Results about untrusted adapters state what they assume of it:
  `Lawful` (tokens stay standard and deployed), `Spares` (a party is never debited), `Scoped` (a party is only ever
  credited the output token as the recipient). `Refinement.TestVenueScoped` shows that the test adapters meet all three.
- `Custody.SwapSettles`, `Custody.RouterCustodyOverRuns` and `RouterBooks.LogReconciles` carry flags: set, they assume
  scoped adapters and state equality; clear, they state a lower bound.
- A history of the router is a sequence of transactions on the deployed code. An `upgrade` in it emits its event and
  replaces nothing, so a result about histories holds up to the first upgrade that changes the code's behaviour.
- The iteration of the hop loop is the method `Router.Router.RunHop`, the loop `RunHops`, the checks `Check`; the
  contract has them inline in `swap`. `Donations.Donations.Admit` is likewise the first part of `donate`.

## Where the code differs from what one may expect of it

- Once funds have moved a swap can fail through an adapter, a missed minimum or a used-up nonce, and also because a
  hop's output token is not deployed, which traps. `Failures.Solvency` says of each outcome exactly when it occurs.
  Before the call, a trap is possible exactly when some hop's output token is not deployed and every earlier hop has
  room under the supply cap to deliver its minimum (`Failures.MayTrap`); it is certain when the first hop's is not
  (`Failures.FirstUndeployedTraps`) and excluded when all are (`Failures.DeployedNeverTraps`).
  Over test adapters `Refinement.FailsAsFold` decides every ending before the call, and
  `Refinement.UndeployedSecondHopTraps` is a literal swap that traps at its second hop.
- The trader may be the adapter of a hop of its own swap, as long as it is not the last hop; `Refinement.SettlesIffFillable`
  has the exact condition. `Refinement.TraderFillsOwnHop` is a literal such swap. It supposes that the trader signs,
  which a plain test adapter cannot do: the trader would be a contract that also authorizes calls.
- `docs/architecture.md` says `set_admin` rejects a zero address and `ZeroAmount` covers hop inputs. The code rejects only
  a rotation to the current admin, and tests only the swap's input; hop inputs are positive because every verified
  output is (`RouterLog.AmountsPositive`). The model follows the code.
- The plain addition on the donor's total in `donate` traps where the checked one on `raised` would answer
  `InvalidAmount`. In reachable states it overflows only when the checked one would fail as well, so it never decides
  whether a donation is accepted, only how a refused one ends. `GivingBooks.OverflowOrder` says exactly which donations
  end in which way, and `GivingBooks.OverflowReached` is a literal history in which both ways occur.

## Model

| member | source | states |
|---|---|---|
| FixedPoint.CheckedMulDiv | interfaces/src/lib.rs:309-314 | defined exactly when the inputs are in range and the true product fits an i128, and then the floor of the quotient |
| FixedPoint.ThereAndBack | interfaces/src/lib.rs:309-314 | converting at n/d and back at d/n never gains, and loses less than 1 + (d-1)/n |
| FixedPoint.MinOutWithSlippage | interfaces/src/lib.rs:322-327 | defined exactly for tolerances in 0..=10000 whose product fits, and then the amount less the tolerance, rounded down, between 0 and the amount |
| FixedPoint.MinOutExtremes | interfaces/src/lib.rs:365-373 | no tolerance asks for the whole amount, full tolerance for nothing |
| FixedPoint.MinOutMonotone | interfaces/src/lib.rs:322-327 | monotone in the amount and antitone in the tolerance |
| FixedPoint.MinOutSplit | interfaces/src/lib.rs:322-327 | splitting an order lowers its floor by at most one unit, never raises it |
| FixedPoint.TruncationBound | interfaces/src/lib.rs:309-314 | along any route the truncated amount stays within the accumulated rounding loss of the exact product of the rates |
| FixedPoint.SuccessiveDivisions | contracts/router/src/test_aggregation.rs:45-70 | with unit numerators the whole route is one floor division by the product of the denominators |
| Tokens.MovedEffect | docs/architecture.md:104-105 | a covered transfer in a sound ledger succeeds, moves exactly the amount, conserves every supply and keeps the ledger sound |
| Tokens.TokenLedger.Transfer | contracts/router/src/lib.rs:277 | the token contracts' transfer, trapping without effect on an unknown token, a shortfall or an overflow |
| Routing.ValidatePath | contracts/router/src/lib.rs:391-411 | Ok exactly for routes that chain end to end with no negative minimum; otherwise the error of the earliest fault, link before minimum, endpoint last |
| Routing.PreflightDecides | contracts/router/src/lib.rs:226-274 | helper fact: the ordered checks pass exactly when the request is admissible |
| Refusals.RefusalCodes | contracts/router/src/lib.rs:226-274 | for every request and every adapter behaviour, exactly which requests answer each error of the checks; no hop answers any of them |
| RouterSteps.OnlySignersAct | contracts/router/src/lib.rs:82-154 | helper fact, read off one step: admin, pause flag and registry change only in transactions the stored admin signed; an unsigned swap changes nothing |
| RouterCalls.ManagementDecides | contracts/router/src/lib.rs:62-169 | read off one step: exactly when each management call commits, and which error or trap it answers otherwise |
| RouterCalls.StorageFollowsCalls | contracts/router/src/lib.rs:62-154 | after any history the admin is the one named last, the pause flag the one given last, each protocol's adapter the one given last unless removed since, and the nonce the number of settled swaps |
| RouterCalls.PausedExactly | contracts/router/src/lib.rs:103-117 | a swap answers Paused exactly from a committed set_paused(true) up to the next committed set_paused(false) |
| RouterCalls.EventsFollowCalls | contracts/router/src/lib.rs:62-169 | after any history the management events are those of the committed calls, with their arguments and the admin who made each |
| RouterSteps.UninitializedIsFresh | contracts/router/src/lib.rs:62-78 | without an admin nothing has been stored or emitted |
| Router.Router.constructor | contracts/router/src/lib.rs:54-57 | a deployed router has empty storage |
| Router.Router.Initialize | contracts/router/src/lib.rs:62-78 | binds the admin once, with its event |
| Router.Router.SetAdmin | contracts/router/src/lib.rs:82-99 | rotates the admin under the old admin's signature, rejecting a rotation to itself |
| Router.Router.SetPaused | contracts/router/src/lib.rs:103-117 | stores exactly the given flag under the admin's signature, with its event |
| Router.Router.SetProtocol | contracts/router/src/lib.rs:122-137 | registers or replaces an adapter, with its event |
| Router.Router.RemoveProtocol | contracts/router/src/lib.rs:140-154 | removes a registered adapter, or answers ProtocolNotFound |
| Router.Router.Upgrade | contracts/router/src/lib.rs:158-169 | under the admin's signature, emits its event and leaves storage alone; the code replacement is left out |
| Router.Router.NextNonce | contracts/router/src/lib.rs:413-428 | allocates the next execution id or answers Overflow |
| Router.Router.Check | contracts/router/src/lib.rs:226-274 | the checks made before funds move, in order |
| Router.Router.RunHop | contracts/router/src/lib.rs:287-334 | one hop advances the flow by the verified amount, or fails the swap |
| Router.Router.RunHops | contracts/router/src/lib.rs:279-352 | the loop reaches the flow after the last hop, for any path length, and has logged one record per hop |
| Router.Router.Swap | contracts/router/src/lib.rs:216-375 | answers, stores, logs and moves what the specification of a swap says |
| Router.Router.SwapTransaction | contracts/router/src/lib.rs:216-376 | a swap transaction commits exactly when the call succeeds and otherwise restores storage, events and ledger |
| Router.Router.Invoke | contracts/router/src/lib.rs:57-376 | the same for every entry point: a failed management call has changed nothing to begin with |
| Custody.LoopInvariant | contracts/router/src/lib.rs:276-352 | before every hop the ledger is sound, every verified amount is positive and at least its minimum, the router holds its initial balances plus the hop's input, and the trader its own less what was pulled; exactly so for scoped adapters |
| Custody.HopSolvent | contracts/router/src/lib.rs:286-334 | the router can always forward the hop's input, the recipient's gain is never negative and fits an i128, and how the hop ends is decided by the output token being deployed, the report being covered and the gain meeting the minimum |
| Failures.Solvency | contracts/router/src/lib.rs:259-356 | once the checks have passed, exactly when a swap ends in Overflow, in a trap, in SwapFailed, in InsufficientOutput and in success; it ends in no other way |
| Failures.SubtractionNeverFails | contracts/router/src/lib.rs:309-327 | at every hop a swap reaches, the subtraction of the balances around the adapter's call stays within an i128 |
| Failures.DeployedNeverTraps | contracts/router/src/lib.rs:307-308 | a swap whose output tokens are all deployed never traps, for every adapter behaviour |
| Failures.FirstUndeployedTraps | contracts/router/src/lib.rs:307-308 | a swap whose first output token is not deployed always traps, for every adapter behaviour |
| Failures.MayTrap | contracts/router/src/lib.rs:307-308 | some untrusted adapters make a swap trap exactly when a hop's output token is not deployed and all earlier hops have room to deliver under the supply cap |
| Custody.SwapSettles | contracts/router/src/lib.rs:298-356 | on success every hop meets its minimum, the result meets the global one, and for every token router and trader hold at least, or for scoped adapters exactly, what they should |
| Custody.ChainedIsDelivered | contracts/router/src/lib.rs:307-334 | helper fact, read off one hop: every chained amount is the recipient's gain across the adapter's call, and its report was positive and no larger |
| Custody.ReportIndependence | contracts/router/src/lib.rs:307-334 | two behaviours that deliver alike at the calls the swap makes end in the same outcome, ledger, nonce and events, whatever they report |
| Failures.UncoveredReportUndone | contracts/router/src/test_aggregation.rs:204-257 | a failing adapter, or a report that is not positive or exceeds the delivery, at any hop the swap reaches, ends in SwapFailed with everything restored |
| Custody.RouterCustodyOverRuns | contracts/router/src/lib.rs:294-296 | over any history the router's balances never end lower, and with scoped adapters never change |
| RouterLog.AmountsPositive | contracts/router/src/lib.rs:320-334 | every amount a swap chains is positive, whatever the adapters do |
| RouterLog.LogWellFormed | docs/events.md:76-80 | after any history the log is management events and whole swap blocks, dense, chained and matching their summary, with ids 1, 2, ..., nonce |
| RouterLog.IndexerRecovers | docs/events.md:48-52 | joining hops to summaries by execution id recovers exactly the swaps that settled, with their steps and verified amounts |
| RouterLog.LogReplays | contracts/router/src/lib.rs:62-154 | folding the log from the empty state gives admin, pause flag, registry and nonce |
| RouterLog.InitializedOnce | contracts/router/src/lib.rs:62-78 | there is an admin exactly when the log holds an Initialized event, and it never holds two |
| RouterBooks.LogReconciles | docs/architecture.md:97-102 | over any history, an account that nothing but swaps debits, and that no adapter can debit, never has less than before plus what the rows of the event log say it received less what they say it paid; it has exactly that if it is no adapter and nothing but swaps touches it |
| TestAdapter.SwapDelivers | contracts/test-adapter/src/lib.rs:98-141 | exactly when the adapter accepts, that it then delivers the floor at the pool's stored rate, or one to one without one, reports what it was told to or what it delivers, and that supplies are conserved |
| TestAdapter.SwapRefusals | contracts/test-adapter/src/lib.rs:98-141 | exactly which calls answer each error and trap |
| TestAdapter.SwapAtNewRate | contracts/test-adapter/src/lib.rs:42-57 | after a rate is set, a swap on that pool that succeeds moves the floor at that rate |
| TestAdapter.SwapAfterSetFail | contracts/test-adapter/src/lib.rs:59-68 | a swap on a pool told to fail fails and moves nothing; on one told not to, it is accepted exactly when funded and priced |
| TestAdapter.SwapMisreporting | contracts/test-adapter/src/lib.rs:70-81 | a swap that succeeds on a pool told what to report reports that |
| TestAdapter.SwapReportingHonestly | contracts/test-adapter/src/lib.rs:83-89 | once cleared, a swap that succeeds reports what the recipient receives |
| TestAdapter.TestAdapter.Initialize | contracts/test-adapter/src/lib.rs:34-40 | binds the adapter's admin once |
| TestAdapter.TestAdapter.SetRate | contracts/test-adapter/src/lib.rs:42-57 | stores a valid rate for the admin; otherwise answers the first failing check and stores nothing |
| TestAdapter.TestAdapter.SetFail | contracts/test-adapter/src/lib.rs:59-68 | stores the failure flag for the admin, or answers the first failing check |
| TestAdapter.TestAdapter.SetMisreport | contracts/test-adapter/src/lib.rs:70-81 | stores the reported amount for the admin, or answers the first failing check |
| TestAdapter.TestAdapter.ClearMisreport | contracts/test-adapter/src/lib.rs:83-89 | removes the reported amount for the admin, or answers the first failing check |
| TestAdapter.TestAdapter.Swap | contracts/test-adapter/src/lib.rs:98-141 | how every call ends, which error or trap a refused one answers, and that exactly an accepted one moves the tokens |
| Refinement.SettlesIffFillable | contracts/router/src/lib.rs:216-375 | over test adapters a swap settles exactly when it is admissible, an id is left, every hop of the price fold can be filled and the last amount meets the minimum |
| Refinement.SettlesIffInRange | contracts/router/src/lib.rs:216-375 | with the rates the adapters accept, a hop is unpriced only when amount times numerator overflows; a swap settles exactly when no hop's product does, every hop is covered, and the last amount meets the minimum |
| Refinement.FailsAsFold | contracts/router/src/lib.rs:286-356 | an admissible swap over test adapters with an id left ends as the first hop of the fold that cannot be filled does: in a trap exactly when its output token is not deployed, in SwapFailed exactly when its adapter cannot deliver what it reports, in InsufficientOutput exactly when it, or the swap, falls short of its minimum |
| Refinement.SettlesAsFold | contracts/test-adapter/src/lib.rs:98-141 | it then settles for the fold's amounts, conserves every supply, and changes every balance by the fold's net change, in which the router has no part |
| Refinement.SettledWithinTruncation | contracts/router/src/test_aggregation.rs:45-70 | what a settled swap pays obeys the truncation bound of its rates |
| Refinement.TestVenueScoped | contracts/test-adapter/src/lib.rs:121-141 | test adapters meet the assumptions made of untrusted ones |
| Refinement.TraderFillsOwnHop | contracts/router/src/lib.rs:298-302 | a literal swap in which the trader is the adapter of the first hop, and which settles if the trader signs |
| Refinement.UndeployedSecondHopTraps | contracts/router/src/lib.rs:307-308 | a literal swap over test adapters whose first hop is filled and which traps at the second |
| Refinement.CallDeployed | contracts/test-adapter/src/lib.rs:98-141 | deployed test adapter objects answer a call, and move the tokens, as their states say |
| Refinement.SwapOverTestAdapters | contracts/router/src/lib.rs:216-375 | the router object, over adapters answering as their states say, commits exactly when the fold can be filled without overflow; it then answers the fold's last amount, stores and logs the fold's amounts and changes every balance by the fold's net change, and otherwise is as it was |
| Donations.Donations.constructor | contracts/donations/src/lib.rs:140-147 | storage right after deployment |
| Donations.Donations.SetPaused | contracts/donations/src/lib.rs:154-158 | sets the pause flag under the admin's signature |
| Donations.Donations.PutCampaign | contracts/donations/src/lib.rs:387-393 | stores a campaign under its own id |
| Donations.Donations.CreateCampaign | contracts/donations/src/lib.rs:170-226 | stores the next campaign exactly as asked, with empty totals, or answers the first failing check |
| Donations.Donations.CloseCampaign | contracts/donations/src/lib.rs:229-247 | closes an open campaign for its creator or the admin, and for no one else |
| Donations.Donations.Admit | contracts/donations/src/lib.rs:280-297 | the checks made before funds move, in order |
| Donations.Donations.Donate | contracts/donations/src/lib.rs:273-347 | answers, stores, logs and moves what the specification of a donation says |
| Donations.Donations.Invoke | contracts/donations/src/lib.rs:136-368 | a transaction commits exactly when the call succeeds and otherwise restores storage, events and ledger |
| GivingCalls.CreateDecides | contracts/donations/src/lib.rs:180-190 | read off one step: exactly when a campaign is created, and which error or trap is answered otherwise |
| GivingCalls.CloseDecides | contracts/donations/src/lib.rs:229-238 | read off one step: exactly when a close commits, and which error or trap is answered otherwise |
| GivingCalls.PauseDecides | contracts/donations/src/lib.rs:154-158 | read off one step: the flag is set exactly under the admin's signature |
| GivingCalls.DonateRefusals | contracts/donations/src/lib.rs:280-294 | which donations answer each error of the checks |
| GivingCalls.DonateEnds | contracts/donations/src/lib.rs:295-318 | how a donation that passes the checks ends: the transfer decides first, then the totals in order |
| GivingCalls.ClosesExactly | contracts/donations/src/lib.rs:229-247 | an open campaign is closed by a transaction exactly when that is a close of it, signed by its caller, who is the creator or the admin |
| GivingCalls.StorageFollowsCalls | contracts/donations/src/lib.rs:192-327 | after any history every campaign is as its create call asked and open unless a committed call closed it, has raised what the committed donations gave, every receipt is for the donation of its number with its memo, time and sequence, and the contract is paused as told last |
| GivingCalls.TokensFollowCalls | contracts/donations/src/lib.rs:295-299 | over any history without other transfers, every holder's change in every token is what the committed donations paid them, as the beneficiary named in the create call, less what they gave |
| GivingCalls.EventsFollowCalls | contracts/donations/src/lib.rs:215-345 | after any history the log is the committed creations, donations and closures in order, with their arguments, numbers and running totals |
| GivingBooks.RaisedIsGiven | contracts/donations/src/lib.rs:301-314 | the receipts' amounts for a campaign are the sum of what each donor gave |
| GivingBooks.DonationIssues | contracts/donations/src/lib.rs:318-335 | helper fact, read off one step: a donation appends one receipt under a fresh id and touches one campaign |
| GivingBooks.AlwaysTallied | contracts/donations/src/lib.rs:301-335 | in every reachable state keys are exactly 1..count, receipts are positive, refer to campaigns and never to their beneficiary, and every stored total is the one the receipts give |
| GivingBooks.CampaignMatchesReceipts | contracts/donations/src/lib.rs:301-316 | in every reachable state a campaign's `raised`, `donation_count` and `donor_count` are the sum, the number and the distinct donors of its receipts |
| GivingBooks.CampaignBalances | contracts/donations/src/lib.rs:301-316 | in every reachable state `raised` is also the sum of the donors' totals, and `donor_count` the number of donors with a positive total |
| GivingBooks.CountsBalance | contracts/donations/src/lib.rs:315-335 | in every reachable state the campaigns' donation counts add up to `receipt_count` |
| GivingBooks.AcceptedIffAcceptable | contracts/donations/src/lib.rs:273-347 | in every reachable state over a sound ledger, exactly when a donation is accepted |
| GivingBooks.OverflowOrder | contracts/donations/src/lib.rs:302-318 | in every reachable state the totals are ordered, a donation is countable exactly when `raised`, `donation_count` and `receipt_count` have room, and exactly which donations answer InvalidAmount and which trap |
| GivingBooks.OverflowReached | contracts/donations/src/lib.rs:302-309 | a literal history after which one more unit from one donor traps and one from another answers InvalidAmount |
| GivingHistory.HistoryEvolves | contracts/donations/src/lib.rs:229-247 | over whole histories totals never decrease, identity fields never change, closed campaigns are frozen and receipts stay as issued |
| GivingHistory.ReceiptsTimely | contracts/donations/src/lib.rs:292-294 | under monotone ledger time every receipt is dated between its campaign's creation and deadline |
| GivingHistory.TokensReconcile | contracts/donations/src/lib.rs:295-316 | every holder's change in every token is what was raised for them less what they gave |
| GivingHistory.BystandersUntouched | contracts/donations/src/lib.rs:10-12 | an account that is neither a beneficiary nor a donor, such as the contract, keeps its balances |
| GivingHistory.ReceiptsAnnounced | contracts/donations/src/lib.rs:337-345 | the donation events are the receipts in order, each with its campaign's running total |

## Left out

- Storage lifetime (`extend_ttl`), fees, event encoding and wasm replacement: host mechanics; `upgrade` only emits its event.
- Signature checking inside `require_auth`: the set of signers is an input.
- Calls from an adapter back into the router: an adapter's call is one atomic step that cannot touch router storage.
- Fee-on-transfer, rebasing or hostile tokens: the repository declares them unsupported; `Lawful` and `Sound` say what is assumed of tokens.
- `version`, plain getters, error numbering, the counter demo contract, and off-chain quoting.
- Error codes that no path returns (`NotAuthorized` of the router; `AlreadyInitialized`, `NotInitialized` and `ReceiptNotFound` of the donations contract outside its getters): the donations admin is a plain field because the constructor always sets it.
- Custody.SwapSettles: for adapters that are not scoped it gives lower bounds, because such an adapter may hand router or trader more than the swap asks for.
- Router.Router.Upgrade: does not replace the code, because what the new code does is unknown; see "How to read it".
- Refinement.TraderFillsOwnHop: supposes a signature that the test adapter contract itself cannot give.
