# smile4money: verified models of the tournament, escrow and settlement logic

This project models nine components of smile4money, a chess wagering system built from Soroban contracts and a
TypeScript backend, and proves what each of them keeps over every run.

| Component | Files | Main results |
|---|---|---|
| Tournament bracket contract | `TournamentModel`, `TournamentBracket`, `TournamentTheorems`, `TournamentRuns`, `TournamentHistory`, `TournamentSeeding`, `TournamentAcceptance`, `TournamentRefusals`, `TournamentContract` | who can meet whom, conservation over interleaved tournaments, settlement of every participant, progress and its bound |
| Escrow contract | `EscrowModel`, `EscrowProofs`, `EscrowAcceptance`, `EscrowRefusals`, `EscrowHistory`, `EscrowContract` | conservation per token, payouts never short, the dispute window, exactly when each payout is accepted, one payout to the last named winner |
| Settlement outbox | `SettlementOutbox` | one envelope per record under crashes at any await, and what an undisturbed call achieves |
| Outcome disagreement monitor | `DisagreementMonitor` | the sliding window refines a batch reading of the whole history |
| OpenAPI compatibility checker | `OpenApiCompat`, `OpenApiSoundness`, `OpenApiGaps`, `OpenApiReferences` | what its silence says about JSON values, and what it does not |
| Leaderboard contract | `LeaderboardModel`, `LeaderboardRanking`, `LeaderboardAccounts`, `LeaderboardContract` | one ranking, complete paging exactly when the step fits, double entry |
| Circuit breaker | `CircuitBreaker` | timed invariants through restarts, the exact length of each refusal |
| Token-bucket limiter | `RateLimit`, `RateLimitEviction` | exactly when the admission bound holds, and exactly when eviction is unobservable |
| Contract registry | `ContractRegistry` | the sorted index agrees with the records |

## How the models are built

- **Specification and object.** Each contract or class of the source is a Dafny `class` with its fields and loops.
  Every method is proved equal to a function on an immutable snapshot of the state. The theorems are about these
  functions and about `Run`, the state after any sequence of calls, accepted or not. The table below lists the
  methods with loops or with writes that a failure takes back; the straight-line entry points are methods of the
  same classes, and their contract is the specification function alone.
- **Transactions.** A contract call that returns an error or traps leaves no trace, as the host guarantees. The
  payout checks of the final happen after `Completed` was written (contracts/tournament-bracket/src/lib.rs:528-536),
  so the methods restore what they had written.
- **Host.** Addresses are opaque and totally ordered, so numbers stand for them; `0` is the zero address. A call
  carries the set of its signers. The contract's own address never signs a call of its own, and so never sends
  tokens except by the code modelled here. Tokens are conserving SEP-41 tokens. Nodes are kept together with their
  tournament. Integer overflow traps, because the workspace sets `overflow-checks = true` (Cargo.toml:22).
- **Clocks** are parameters. The backend theorems that need a clock that never runs backwards say so
  (`ClockForward`); the contract theorems do not need it.
- **Arithmetic.** Rates, cooldowns and times of the monitor and the breaker are reals; the limiter is configured
  with whole numbers and works on whole milliseconds.
- **JSON.** A value keeps its entries in `Object.entries` order, so that equality is equality of `JSON.stringify`.
  A number is the text that JavaScript prints. Property names that every JavaScript object inherits are visible to
  `in` and to indexing, as they are in the source.

## Where the code and its documentation differ

The models follow the code.

- A funded round-0 node can be decided while its tournament is still in `Registration`
  (contracts/tournament-bracket/src/lib.rs:478-493), although contracts/tournament-bracket/src/types.rs:24-26 says
  that no match can be decided then. `TopSeedsMeetFromGenesis` ends in such a tournament, `ResultAcceptedIff` is the
  exact guard, and `FinalMeansAllPaid` shows that the champion's prize is nevertheless covered.
- "The top two seeds only meet in the final" (contracts/tournament-bracket/src/lib.rs:197-201) holds exactly for
  fields of at most four: `TopTwoInRuns`. `TopSeedsMeetEarly` is a run, with every call accepted, in which the first
  two players of any larger list meet in round 1.
- `prize_schedule` is validated and stored, but the final pays the whole pool to the champion.
- docs/adr/003-tournament-bracket.md describes separate claim and settlement steps; the code pays inline.
- A deadline (report ledger plus dispute window, or creation plus timeout) that does not fit 32 bits traps. Then
  neither override nor finalize is ever possible, and no timeout can be claimed: `OneWindowIsOpen`, `TimeoutAlwaysRefunds`.
- The escrow README and some tests describe an immediate payout; `submit_result` only makes the result pending.
- contracts/escrow/src/lib.rs defines `pause` and `unpause` twice (:127 and :412) and types the stake in two ways.
  The model has one of each and takes the stake as an integer within its bounds.
- `getStatus` of the monitor is documented as free of side effects, but prunes the window.
- The leaderboard compares the optional `matches_played()` with `0` (contracts/leaderboard/src/lib.rs:353); the
  model reads it as "has a value and the value is positive", so a total beyond 32 bits falls off the board.
- The leaderboard is paged by offset and caps the limit at fifty (contracts/leaderboard/src/lib.rs:294-314). A
  client that steps by the limit it asked for, when that is above fifty, misses rows: `PagingIsCompleteIff`.
- `restoreState` says that it mirrors `allowRequest`. The decision is the same (`RestartDecidesAlike`), but where
  the running breaker becomes half-open and keeps its back-off, the restored one is closed and forgets it
  (`RestoreMirrorsAllow`).
- docs/api-compatibility.md promises that removed response properties and changed types are reported. A removed
  property is reported exactly if its name is not one that JavaScript objects inherit, such as `constructor`
  (`RemovalIsReportedIff`). A dropped `type` or `enum`, and a required but undeclared property, are never reported;
  the lemmas of `OpenApiGaps` say when that is harmless.
- The limiter is configured as so many requests per interval (apps/backend/src/middleware/rate-limit.ts:54-58).
  Cleanup can hand a client a second quota early; `BoundHoldsIff` says for which configurations it cannot.

## Model

| member | source | states |
|---|---|---|
| TournamentBracket.SeedPositionBijective | contracts/tournament-bracket/src/lib.rs:639-654 | Seeding is a permutation of the field with an explicit inverse: seed a sits in match min(a, n-1-a) of the opening round. |
| TournamentBracket.NewBracketSlot | contracts/tournament-bracket/src/lib.rs:363-377 | After creation entry slot k holds exactly the entrant that snake seeding assigns to it, unpaid. |
| TournamentBracket.NewBracketInv | contracts/tournament-bracket/src/lib.rs:318-386 | Every accepted field starts in a bracket that satisfies the tree invariant, every node awaiting funding. |
| TournamentBracket.FundInv | contracts/tournament-bracket/src/lib.rs:410-431 | A deposit keeps the tree invariant, decides nothing and raises the funded count by exactly one, never beyond the field size. |
| TournamentBracket.DecideInv | contracts/tournament-bracket/src/lib.rs:498-529 | A result keeps the tree invariant (the winner moves to the right slot of the parent, which opens exactly when both are known) and takes exactly that node off the undecided ones. |
| TournamentBracket.ClosedInv | contracts/tournament-bracket/src/lib.rs:720-748 | Cancelling keeps the tree invariant and decides no node. |
| TournamentTheorems.AcceptedFieldNodeCounts | contracts/tournament-bracket/src/lib.rs:318-340 | For every accepted field size 2^rounds = n, and the node counts of the rounds add up to n-1. |
| Types.IdBytesAreTheAlphabet | contracts/tournament-bracket/src/lib.rs:685-698 | The bytes of a game identifier are exactly the letters, the digits, the underscore and the hyphen. |
| Types.ValidGameIdIff | contracts/escrow/src/lib.rs:229-242 | A game identifier is valid if and only if it consists of one to sixty-four of them. |
| TournamentTheorems.TreeHasOneNodeFewer | contracts/tournament-bracket/src/lib.rs:336-360 | The tree that the nested loops build has exactly n-1 nodes. |
| TournamentTheorems.EntrantWonChild | contracts/tournament-bracket/src/lib.rs:498-516 | An entry above round 0 is exactly the recorded winner of the child that feeds it, and is filled exactly when that child is decided. |
| TournamentTheorems.EntrantsDiffer | contracts/tournament-bracket/src/lib.rs:363-377 | No node ever pairs a player with themselves. |
| TournamentHistory.EntriesAsCreated | contracts/tournament-bracket/src/lib.rs:363-377 | Over any run, each entry slot of each tournament still holds the player that snake seeding of the list given at its creation put there. |
| TournamentHistory.EntrantsAreTheField | contracts/tournament-bracket/src/lib.rs:363-377 | The entrants of a tournament are exactly the players on that list. |
| TournamentHistory.TermsAsCreated | contracts/tournament-bracket/src/lib.rs:311-328 | Over any run, each tournament was created by an accepted call, and its creation ledger, fee, size, rounds and schedule are those of that call, its token and admin those of the configuration. |
| TournamentHistory.ReportsAreRecorded | contracts/tournament-bracket/src/lib.rs:498-544 | Over any run, every node holds exactly the winner and the ledger of its accepted result; a tournament ended at the ledger of its last accepted call, cancelled by a cancellation or a timeout claim, or completed by a result whose winner is the champion. |
| TournamentAcceptance.ConfigAsCalled | contracts/tournament-bracket/src/lib.rs:159-193 | Over any run the configuration is that of the one accepted initialisation. |
| TournamentAcceptance.CreateAcceptedIff | contracts/tournament-bracket/src/lib.rs:243-312 | A creation is accepted if and only if the admin signs, the fee is positive, the field has 2, 4, 8, 16, 32 or 64 different non-zero entrants, the pool is within its bound and the schedule has between one and n positive prizes within the pool. |
| TournamentAcceptance.DepositAcceptedIff | contracts/tournament-bracket/src/lib.rs:399-431 | In every run a deposit is accepted if and only if a player of the list signs, has not paid and owns the fee, and the tournament is not over. |
| TournamentAcceptance.CancelAcceptedIff | contracts/tournament-bracket/src/lib.rs:557-583 | In every covered run a cancellation is accepted if and only if the admin signs and the tournament is in Registration. |
| TournamentRefusals.ErrorsAreTruthful | contracts/tournament-bracket/src/lib.rs:159-674 | In every run, an error of any call says something true about the state, the caller or the arguments, for each call and each error it can return. |
| TournamentRefusals.PayoutsLeaveTheReserve | contracts/tournament-bracket/src/lib.rs:706-748 | In every run, covered or not, a call that pays something out pays exactly what the tournament stops holding and leaves at least the reserve buffer. |
| TournamentSeeding.EntrantFromItsBlock | contracts/tournament-bracket/src/lib.rs:498-516 | In every run, whoever stands in an entry of node (r,i) is a player of the list given at creation whose seed lies in the block of slots below that entry, for every field size and every order of results. |
| TournamentSeeding.SeedsMeetInRuns | contracts/tournament-bracket/src/lib.rs:648-654 | In every run, the players at positions a and c of the list can share a node only where min(a, n-1-a) and min(c, n-1-c) shifted by the round coincide, and in no earlier round. |
| TournamentSeeding.TopTwoInRuns | contracts/tournament-bracket/src/lib.rs:197-201 | In every run, the node that pairs the first two players of the list is the final if and only if the list has at most four; otherwise it is node (1,0). |
| TournamentSeeding.TopSeedsMeetEarly | contracts/tournament-bracket/src/lib.rs:197-201 | For every field of eight or more, from every state in which it can be created: a run of creation, four deposits and two results, every call accepted, pairs the first two players of the list in node (1,0), which is not the final, while the tournament is still in Registration. |
| TournamentSeeding.TopSeedsMeetFromGenesis | contracts/tournament-bracket/src/lib.rs:197-201 | Such a run of a new contract, with eight named players and every call accepted. |
| TournamentSeeding.AwaitsIffReady | contracts/tournament-bracket/src/lib.rs:410-516 | Unless the tournament is cancelled, an opening node awaits a result exactly when it is undecided and both its entrants have paid, a later node exactly when it is undecided and both its children are decided. |
| TournamentSeeding.ResultAcceptedIff | contracts/tournament-bracket/src/lib.rs:462-544 | In every covered run, a result is accepted if and only if the oracle signs it, the game identifier is valid, the tournament is not over, the node exists, is undecided and ready, and the winner is one of its entrants; Registration is no obstacle. |
| TournamentTheorems.FinalMeansAllPaid | contracts/tournament-bracket/src/lib.rs:478-536 | If the final is decided then every node is decided and every entrant has paid, although results are accepted before the field has paid. |
| TournamentTheorems.FullyPaidCanProgress | contracts/tournament-bracket/src/lib.rs:478-529 | A fully paid tournament that is not over always has a node that awaits a result. |
| TournamentRuns.RefundsPayEveryoneOnce | contracts/tournament-bracket/src/lib.rs:720-748 | The refund loop succeeds whenever the contract holds what is owed, pays each funded entrant exactly one fee and nobody else, and costs the contract exactly that. |
| TournamentRuns.CompletedStanding | contracts/tournament-bracket/src/lib.rs:526-543 | In a completed tournament the champion has been paid n fees, each entrant has paid one, and n is the number of fees collected. |
| TournamentRuns.DecideAccounts | contracts/tournament-bracket/src/lib.rs:498-543 | A result other than the final moves no money; the final moves exactly the collected pot to its winner. |
| TournamentRuns.AbandonBook | contracts/tournament-bracket/src/lib.rs:706-748 | With the reserve in place a cancellation returns the pot to those who paid it, participant by participant. |
| TournamentRuns.TargetedStep | contracts/tournament-bracket/src/lib.rs:399-624 | Every accepted call on a tournament keeps the state invariant, leaves every other tournament alone, moves tokens by exactly the change of what the tournament holds and of each participant's standing, and uses up one of the calls left. |
| TournamentRuns.NextInv | contracts/tournament-bracket/src/lib.rs:243-624 | The invariant over all tournaments survives every call, accepted or not. |
| TournamentHistory.TokensAreConserved | contracts/tournament-bracket/src/lib.rs:399-624 | Over any run of interleaved tournaments, the contract's balance in any token is what it began with plus outside gifts plus the fees of the tournaments that are not over. |
| TournamentHistory.FlowIsStanding | contracts/tournament-bracket/src/lib.rs:399-624 | Over any run a tournament has moved exactly each participant's standing, and a tournament that does not exist has moved nothing. |
| TournamentHistory.FinalSettlement | contracts/tournament-bracket/src/lib.rs:526-543 | For the n players on the list given at creation and for everybody else: a cancelled tournament leaves everyone at zero; a completed one has a champion from the list, leaves the champion at plus n-1 of the fees named at creation, every other player of the list at minus one and outsiders at zero. |
| TournamentHistory.PlayIsCounted | contracts/tournament-bracket/src/lib.rs:403-431 | The accepted calls and results of any run are exactly what the undecided nodes and missing deposits leave of 2n-1 and n-1. |
| TournamentHistory.PlayIsBounded | contracts/tournament-bracket/src/lib.rs:478-529 | At most 2n-1 calls on a tournament are ever accepted, and it is completed if and only if n-1 results were. |
| TournamentHistory.NeverShortOfReserve | contracts/tournament-bracket/src/lib.rs:706-717 | Once gifts cover the reserve buffer, no call in any run fails with InsufficientReserve. |
| TournamentHistory.TimeoutAlwaysRefunds | contracts/tournament-bracket/src/lib.rs:600-624 | For every open tournament of a covered run, a timeout claim is accepted if and only if the caller signs it, whoever that is, and the ledger of the creation call plus the timeout fits 32 bits and has passed. |
| TournamentContract.TournamentBracketContract.ScheduleAccepted | contracts/tournament-bracket/src/lib.rs:281-293 | The checking loop accepts a prize schedule exactly when the specification does, including the running-sum bound. |
| TournamentContract.TournamentBracketContract.CheckEntrants | contracts/tournament-bracket/src/lib.rs:295-309 | The nested duplicate scan gives the specified verdict, in the order in which the code meets the offences. |
| TournamentContract.TournamentBracketContract.BuildTree | contracts/tournament-bracket/src/lib.rs:336-360 | The nested loops store exactly the empty nodes of the complete tree. |
| TournamentContract.TournamentBracketContract.SeatEntrants | contracts/tournament-bracket/src/lib.rs:363-377 | The seeding loop turns the empty tree into the seeded one and never misses an entrant. |
| TournamentContract.TournamentBracketContract.CreateTournamentWithPrizes | contracts/tournament-bracket/src/lib.rs:243-386 | Creation as a whole: the specified verdict in the source's order of checks, and the seeded tournament under the next id. |
| TournamentContract.TournamentBracketContract.CreateTournament | contracts/tournament-bracket/src/lib.rs:221-231 | The convenience form puts the whole pool on first place and reports InvalidAmount exactly when that pool overflows. |
| TournamentContract.TournamentBracketContract.FindEntrySlot | contracts/tournament-bracket/src/lib.rs:657-674 | The scan finds the first entry slot of a player, or none. |
| TournamentContract.TournamentBracketContract.SubmitMatchResult | contracts/tournament-bracket/src/lib.rs:462-544 | The result commits the specified state (winner, parent slot, champion, prize) or leaves no trace, even when the reserve check fails after Completed was written. |
| TournamentContract.TournamentBracketContract.RefundLoop | contracts/tournament-bracket/src/lib.rs:720-748 | The refund loop pays and clears slot by slot what the specification pays and clears. |
| TournamentContract.TournamentBracketContract.RefundAll | contracts/tournament-bracket/src/lib.rs:720-748 | All refunds, or nothing when a transfer traps. |
| EscrowProofs.TargetedStep | contracts/escrow/src/lib.rs:608-1143 | Every accepted call on a match keeps the state invariant, leaves other matches alone and moves tokens by exactly the change of the match's escrow balance and of each player's standing. |
| EscrowProofs.NextInv | contracts/escrow/src/lib.rs:469-1143 | The state invariant survives every call, accepted or not. |
| EscrowProofs.RunInv | contracts/escrow/src/lib.rs:469-1143 | The state invariant holds in every run. |
| EscrowProofs.GameIdsAreUnique | contracts/escrow/src/lib.rs:516-596 | No run stores two matches with the same game identifier. |
| EscrowProofs.EscrowedCovers | contracts/escrow/src/lib.rs:1296-1313 | In every reachable state each match's escrow balance is covered by the sum over the matches in its token. |
| EscrowProofs.TokensAreConserved | contracts/escrow/src/lib.rs:1296-1313 | Over any run, all matches and all tokens: the contract's balance in a token is what it began with plus outside inflow plus the sum of get_escrow_balance over the matches in that token; drains are counted as negative inflow. |
| EscrowProofs.NeverShortOfReserve | contracts/escrow/src/lib.rs:265-276 | While the inflow covers the reserve buffer, no result, override, finalize, timeout claim or cancel in any run is refused with InsufficientReserve or TransferFailed; the iffs of EscrowAcceptance exclude a trap inside the token as well. |
| EscrowAcceptance.TimeoutAcceptedIff | contracts/escrow/src/lib.rs:1000-1056 | In every covered run, a timeout claim is accepted if and only if the match is Active, the caller is a signing player, and activation plus timeout fits 32 bits and has passed: neither reserve nor token can refuse it. |
| EscrowAcceptance.CancelAcceptedIff | contracts/escrow/src/lib.rs:1068-1143 | In every covered run, a cancellation is accepted if and only if a player of a Pending match signs it, or a player of an Active match makes it and both players sign. |
| EscrowAcceptance.FinalizeAcceptedIff | contracts/escrow/src/lib.rs:889-980 | In every covered run, finalize is accepted if and only if the match is in dispute, a player, the oracle or the admin signs, and the deadline fits 32 bits and has passed. |
| EscrowAcceptance.OverrideAcceptedIff | contracts/escrow/src/lib.rs:808-870 | In every run, an override is accepted if and only if the match is in dispute, the admin signs, and the deadline fits 32 bits and has not passed. |
| EscrowAcceptance.CreateAcceptedIff | contracts/escrow/src/lib.rs:469-605 | In every run a match is created if and only if player1 signs, the contract is not paused, the stake is within its bounds, the players differ and are not zero, the game identifier is valid and no match has it, and the token is allowed. |
| EscrowAcceptance.DepositAcceptedIff | contracts/escrow/src/lib.rs:608-718 | In every run a deposit is accepted if and only if a player of a Pending match who has not deposited signs, allows and owns the stake, and the contract is not paused. |
| EscrowAcceptance.ReportAcceptedIff | contracts/escrow/src/lib.rs:726-795 | In every run a report is accepted if and only if the oracle signs it for an Active match of that game, and the contract is not paused. |
| EscrowAcceptance.DrainAcceptedIff | contracts/escrow/src/lib.rs:1159-1229 | In every run a drain is accepted if and only if the admin signs, the contract is paused and no match is Active; it moves the whole balance of the default token to the safe address. |
| EscrowAcceptance.AdminAcceptedIff | contracts/escrow/src/lib.rs:305-449 | Initialisation, pause, oracle change and admin transfer are accepted exactly under their documented conditions. |
| EscrowRefusals.ErrorsAreTruthful | contracts/escrow/src/lib.rs:305-1229 | In every run, an error of any call says something true about the state, the caller or the arguments, for each call and each error it can return; NotFunded, AlreadyExists and NotInitialized are never returned. |
| EscrowRefusals.PayoutsLeaveTheReserve | contracts/escrow/src/lib.rs:265-276 | In every run, covered or not, a finalize, timeout claim or cancellation pays out exactly the match's escrow balance and, if that is positive, leaves at least the reserve buffer. |
| EscrowProofs.RunIsRecorded | contracts/escrow/src/lib.rs:726-966 | Over any run a match has moved exactly each player's standing, its pending winner is the one last named by report or override, and it was finalized once if it is Completed and never otherwise. |
| EscrowHistory.SettledAsAgreed | contracts/escrow/src/lib.rs:562-579 | In every run a completed match paid whom the last accepted report or override named, by the position that the accepted creation gave them: plus one stake of that call, minus one for the other, in the token of that call or the default one, once; a draw or a cancellation leaves everyone at zero. |
| EscrowHistory.TermsAsCreated | contracts/escrow/src/lib.rs:562-579 | Over any run, each match was created by an accepted call of its player1, and its players in that order, stake, token (the argument or the configured default), game, platform and creation ledger are those of that call. |
| EscrowHistory.LedgersAsCalled | contracts/escrow/src/lib.rs:608-980 | Over any run, deposits are flagged for exactly the players whose deposit was accepted, a match is activated at the ledger of the second one, in dispute since the ledger of its one accepted report, which named its game, and completed or cancelled at the ledger of its last accepted call. |
| EscrowHistory.ConfigAsCalled | contracts/escrow/src/lib.rs:305-449 | Over any run, oracle, admin and pause are those last set by an accepted call; token, safe address, window and timeout are those of the one initialisation, with its defaults. |
| EscrowProofs.OneWindowIsOpen | contracts/escrow/src/lib.rs:837-928 | For every disputed match and every ledger the override is accepted exactly up to the deadline, and finalize, for a signing player, oracle or admin, exactly after it, if and only if the deadline fits 32 bits; otherwise neither ever is. |
| EscrowProofs.WinnerIsFrozen | contracts/escrow/src/lib.rs:837-852 | Once the deadline has passed the pending winner is the same in every later run; with a deadline beyond 32 bits the match never changes at all. |
| EscrowProofs.NoEarlyPayout | contracts/escrow/src/lib.rs:917-928 | No run pays out a disputed match up to its deadline. |
| EscrowProofs.CompletedStays | contracts/escrow/src/lib.rs:889-1143 | Completed and Cancelled matches never change. |
| EscrowProofs.DrainSparesActiveMatches | contracts/escrow/src/lib.rs:1159-1229 | A drain is accepted only while paused and with no Active match, and changes no match. |
| EscrowContract.Escrow.PayBoth | contracts/escrow/src/lib.rs:955-958 | Two transfers that both happen or both do not. |
| EscrowContract.Escrow.CancelMatch | contracts/escrow/src/lib.rs:1068-1143 | The cancellation refunds what was deposited, or leaves no trace. |
| EscrowContract.Escrow.EmergencyDrain | contracts/escrow/src/lib.rs:1159-1229 | The scan loop refuses as soon as it meets an Active match; otherwise the whole balance of the default token goes to the safe. |
| SettlementOutbox.OneEnvelopeIsBroadcast | apps/backend/src/services/oracle-submit.ts:394-441 | With crashes and reloads at any await and any status answers, every envelope ever broadcast is the stored one, so no two broadcasts differ. |
| SettlementOutbox.DurableBeforeBroadcast | apps/backend/src/services/oracle-submit.ts:409-429 | A step that broadcasts sends the envelope that was already stored, and no terminal state is stored. |
| SettlementOutbox.ConfirmedWasReported | apps/backend/src/services/oracle-submit.ts:414-441 | Confirmed is stored only after the chain reported SUCCESS for the stored hash. |
| SettlementOutbox.NothingAfterFinal | apps/backend/src/services/oracle-submit.ts:403-408 | Once confirmed or quarantined is stored it stays and nothing is broadcast any more. |
| SettlementOutbox.CallSettles | apps/backend/src/services/oracle-submit.ts:398-441 | A call on an unsettled record with a submission, in which every await returns: a first SUCCESS stores Confirmed, a first FAILED or an expired NOT_FOUND stores Quarantined, none of them broadcasting; an unexpired NOT_FOUND broadcasts the stored envelope exactly once and stores the outcome of the second answer. |
| SettlementOutbox.ReadySettles | apps/backend/src/services/oracle-submit.ts:398-441 | A waiting record that becomes ready is stored as pending with its submission, and the first undisturbed call on it prepares an envelope and settles as above. |
| SettlementOutbox.RecoverySettles | apps/backend/src/services/oracle-submit.ts:390-441 | Wherever the process dies, nothing is kept in memory, and an undisturbed call on the record read back from the store settles it. |
| SettlementOutbox.RetrySettles | apps/backend/src/services/oracle-submit.ts:390-441 | After an exception the record in memory is kept, and the next undisturbed call settles it. |
| SettlementOutbox.NothingToSettle | apps/backend/src/services/oracle-submit.ts:403-408 | A call on a settled record, or on one without a submission, does nothing at all. |
| SettlementOutbox.RunKeepsInv | apps/backend/src/services/oracle-submit.ts:398-441 | The invariant between store, memory, chain and broadcasts holds after any steps. |
| SettlementOutbox.PlayIsARun | apps/backend/src/services/oracle-submit.ts:398-441 | Playing out one call with any answers is a run of the step system, so the safety results hold inside every call. |
| SettlementOutbox.Worker.AdvanceSettlement | apps/backend/src/services/oracle-submit.ts:398-441 | The function itself, await by await, does exactly the steps of the step system; when every await returns on an unsettled record with a submission it settles as CallSettles says, and on any other record it changes nothing. |
| SettlementOutbox.Worker.Finish | apps/backend/src/services/oracle-submit.ts:414-441 | From the status query on, the branches and saves are the steps of the step system. |
| SettlementOutbox.Worker.AskStatus | apps/backend/src/services/oracle-submit.ts:414-429 | The first status answer leads to confirmed, quarantined by failure, quarantined by expiry, or on to the broadcast. |
| SettlementOutbox.Worker.Save | apps/backend/src/services/oracle-submit.ts:409-413 | An awaited save happens, is lost, or happens and is not reported back. |
| DisagreementMonitor.WindowIsBatch | apps/backend/src/services/outcome-disagreement-monitor.ts:358-388 | For a clock and observation times that never go back, the incrementally kept window is the batch window of the whole history: the latest observation of each match, not older than the maximum age, and of those the last windowSize. |
| DisagreementMonitor.RecordingTheWindow | apps/backend/src/services/outcome-disagreement-monitor.ts:358-369 | Recording turns the batch window of a history into the batch window of the history with the new observation. |
| DisagreementMonitor.AgeingTheWindow | apps/backend/src/services/outcome-disagreement-monitor.ts:382-388 | Pruning an earlier batch window later gives the batch window at the later time. |
| DisagreementMonitor.FreshOfLastN | apps/backend/src/services/outcome-disagreement-monitor.ts:382-388 | In time order, eviction by age and eviction by size commute. |
| DisagreementMonitor.CutThenReplace | apps/backend/src/services/outcome-disagreement-monitor.ts:358-369 | Evicting by size before or after a match is re-observed gives the same window. |
| DisagreementMonitor.LatestAppend | apps/backend/src/services/outcome-disagreement-monitor.ts:359-364 | Replacing an earlier entry of the match is what keeping the latest observation of each match means. |
| DisagreementMonitor.OneSignalPerEdge | apps/backend/src/services/outcome-disagreement-monitor.ts:440-467 | The review callback fires exactly once for each time the batch status turns from not required to required, with that status. |
| DisagreementMonitor.WindowHolds | apps/backend/src/services/outcome-disagreement-monitor.ts:358-388 | In terms of the history alone: the window has as many observations as are the last of their match and younger than the maximum age, at most windowSize, and the one with m such observations after it stands m places from the end. |
| DisagreementMonitor.StatusDescribes | apps/backend/src/services/outcome-disagreement-monitor.ts:390-437 | In terms of the window alone: the counts are the numbers of positions of each kind, in all and per platform; review is required exactly when enough are decided, enough disagree and their share reaches the rate; evidence is degraded exactly when at least half of enough observations are unverifiable; the reported ids are those of the last twenty disagreements in order. |
| DisagreementMonitor.AgreementNeedsNoReview | apps/backend/src/services/outcome-disagreement-monitor.ts:415-418 | A window without disagreements never asks for review. |
| DisagreementMonitor.DisagreementKeepsReview | apps/backend/src/services/outcome-disagreement-monitor.ts:415-418 | Turning an agreement into a disagreement never withdraws a review. |
| DisagreementMonitor.WinnerKeepsTheName | apps/backend/src/services/outcome-disagreement-monitor.ts:154-170 | The mapped outcome names player 1 or player 2 exactly as the name of the game's winner does, and a draw stays a draw. |
| DisagreementMonitor.MappedIff | apps/backend/src/services/outcome-disagreement-monitor.ts:154-170 | A game is mapped if and only if it is finished, all four names say something and the two pairs of names are the same. |
| DisagreementMonitor.KindsAddUp | apps/backend/src/services/outcome-disagreement-monitor.ts:404-413 | Agreements, disagreements and unverifiable observations add up to the window. |
| DisagreementMonitor.PlatformsStep | apps/backend/src/services/outcome-disagreement-monitor.ts:397-409 | The per-platform table grows by exactly the new observation. |
| DisagreementMonitor.ColoursDoNotMatter | apps/backend/src/services/outcome-disagreement-monitor.ts:154-170 | Exchanging colours and result leaves the classification unchanged, except exactly for a decisive game among names that all normalise alike. |
| DisagreementMonitor.PerspectiveFlips | apps/backend/src/services/outcome-disagreement-monitor.ts:141-170 | Naming the players the other way round turns every mapped outcome around and maps the same games. |
| DisagreementMonitor.Monitor.Prune | apps/backend/src/services/outcome-disagreement-monitor.ts:382-388 | Pruning keeps what is young enough, and of that the last windowSize. |
| DisagreementMonitor.Monitor.ComputeStatus | apps/backend/src/services/outcome-disagreement-monitor.ts:390-437 | The counting loop computes the specified status, and for a valid configuration a status that describes the window as StatusDescribes says. |
| DisagreementMonitor.Monitor.HandleTransitions | apps/backend/src/services/outcome-disagreement-monitor.ts:440-467 | The callback fires on a rising edge only, and both flags follow the status. |
| DisagreementMonitor.Monitor.Record | apps/backend/src/services/outcome-disagreement-monitor.ts:358-369 | Recording is one step of the run specification and reports its status. |
| DisagreementMonitor.Monitor.GetStatus | apps/backend/src/services/outcome-disagreement-monitor.ts:372-375 | Reading the status prunes but signals nothing. |
| OpenApiSoundness.ResponseSound | apps/backend/src/contract/openapi-compat.ts:68-116 | When compareResponse is silent and the head speaks wherever the base does, every value valid under the head that nests within the compared levels is valid under the base (sections 6.1.1, 6.1.2 and 6.5.3 of JSON Schema Validation 2020-12), also through references and recursive schemas. |
| OpenApiSoundness.RequestSound | apps/backend/src/contract/openapi-compat.ts:119-160 | When compareRequest is silent and the base speaks wherever the head does, every value valid under the base that uses only properties the base declares is valid under the head. |
| OpenApiSoundness.SilentIffProvides | apps/backend/src/contract/openapi-compat.ts:68-116 | compareResponse reports nothing exactly when every clause of the response policy holds at every level down to the tenth. |
| OpenApiSoundness.SilentIffAccepts | apps/backend/src/contract/openapi-compat.ts:119-160 | compareRequest reports nothing exactly when every clause of the request policy holds at every level down to the tenth. |
| OpenApiSoundness.NoChangeIsSilent | apps/backend/src/contract/openapi-compat.ts:68-160 | A contract compared with itself raises no finding, whatever it contains. |
| OpenApiReferences.ChainResolvesIff | apps/backend/src/contract/openapi-compat.ts:39-48 | A reference into components/schemas, through any chain of such references, resolves to the entries of the schema at its end if and only if the chain has at most twenty links; a longer one resolves to no keywords. |
| OpenApiReferences.ResponseThroughReferences | apps/backend/src/contract/openapi-compat.ts:68-116 | Comparing two references in a response reports exactly what comparing the schemas they reach does, unless the base refers to ErrorCode; then at most one finding of added enum values is missing. |
| OpenApiReferences.RequestThroughReferences | apps/backend/src/contract/openapi-compat.ts:119-160 | Comparing two references in a request reports exactly what comparing the schemas they reach does. |
| OpenApiReferences.ValidThroughReferences | apps/backend/src/contract/openapi-compat.ts:39-48 | A value is valid under a reference exactly if it is valid under the schema it reaches. |
| OpenApiReferences.LocalReferenceIff | apps/backend/src/contract/openapi-compat.ts:42-42 | A reference is followed exactly if it is a string that starts with `#/`. |
| OpenApiReferences.ErrorCodeIff | apps/backend/src/contract/openapi-compat.ts:88-88 | The exemption covers exactly the bases whose own reference ends in `/ErrorCode`. |
| OpenApiReferences.TypeMeans | apps/backend/src/contract/openapi-compat.ts:50-53 | A lone type admits exactly the values of that type, a list of types the values of any of them. |
| OpenApiReferences.EnumMeans | apps/backend/src/contract/openapi-compat.ts:55-57 | A lone enum admits exactly the values that are the same instance as a listed one. |
| OpenApiReferences.RequiredMeans | apps/backend/src/contract/openapi-compat.ts:59-61 | A lone required admits exactly the objects with every listed name, and everything that is no object. |
| OpenApiReferences.PropertiesMean | apps/backend/src/contract/openapi-compat.ts:63-65 | Lone properties ask exactly that each declared property that the value has is valid for its schema. |
| OpenApiReferences.TextIsJavaScript | apps/backend/src/contract/openapi-compat.ts:50-53 | Names of types that are no strings read as JavaScript prints them. |
| OpenApiReferences.AddingToResponseIsSilent | apps/backend/src/contract/openapi-compat.ts:68-116 | A response that gains a lone type, enum or required is never reported and loses nothing. |
| OpenApiReferences.DroppingFromRequestIsSilent | apps/backend/src/contract/openapi-compat.ts:119-160 | A request that loses a lone type, enum or required is never reported and loses nothing. |
| OpenApiReferences.AddedRequestKeyword | apps/backend/src/contract/openapi-compat.ts:119-160 | A request that gains a lone required is reported exactly if it names something; a gained type or enum never is, although it loses requests unless it lists every type or is no list. |
| OpenApiReferences.ResponseFindingsSay | apps/backend/src/contract/openapi-compat.ts:80-95 | A clash of types comes first and quotes both sides; a finding of added enum values holds exactly the added ones. |
| OpenApiReferences.RequestFindingsSay | apps/backend/src/contract/openapi-compat.ts:131-146 | The same for requests, and every newly required name is reported under its path. |
| OpenApiReferences.PresenceIsReported | apps/backend/src/contract/openapi-compat.ts:104-105 | A property that the base always has and the head has only sometimes is reported as such. |
| OpenApiSoundness.ShallowSchema | apps/backend/src/contract/openapi-compat.ts:79-79 | Below a schema that nests at most ten levels every value lies within the compared levels. |
| OpenApiSoundness.ShallowValue | apps/backend/src/contract/openapi-compat.ts:79-79 | A value that nests at most ten levels lies within the compared levels under any schema, recursive ones included. |
| OpenApiGaps.RemovalIsReportedIff | apps/backend/src/contract/openapi-compat.ts:98-103 | For any two schemas above the depth cut: a property the base declares and the head does not own is reported as removed if and only if JavaScript objects do not inherit its name. |
| OpenApiGaps.FindingsArePassedOn | apps/backend/src/contract/openapi-compat.ts:104-115 | Every finding below a property that both sides have is among the findings of the whole comparison. |
| OpenApiGaps.RemovalBelow | apps/backend/src/contract/openapi-compat.ts:99-115 | Every removal is reported under a path that continues the path of the comparison. |
| OpenApiGaps.SilentTypeIsHarmlessIff | apps/backend/src/contract/openapi-compat.ts:80-84 | For any two schemas without a reported clash of types: the change of type keeps every head value valid for the base if and only if the base has no type, the head has one, or the base lists every type there is. |
| OpenApiGaps.EnumIsHarmlessIff | apps/backend/src/contract/openapi-compat.ts:85-95 | For any two schemas, error codes included: the change of enum keeps every head value valid for the base if and only if the base has none, or the head has one whose every value the base lists up to instance equality. |
| OpenApiGaps.SilentEnumIsHarmlessIff | apps/backend/src/contract/openapi-compat.ts:85-95 | For any two schemas without a reported enum value: the change is harmless if and only if the base has no enum or the head has one. |
| OpenApiGaps.SilentRequiredIsHarmlessIff | apps/backend/src/contract/openapi-compat.ts:96-105 | For any two schemas without a reported loss: the change of required is harmless if and only if the head also requires the names that the base requires without declaring them. |
| OpenApiGaps.DroppedKeywordIsHarmlessIff | apps/backend/src/contract/openapi-compat.ts:68-116 | A schema that loses its only keyword, type, enum or required, is never reported, and loses nothing if and only if the types were missing or all there, the enum was no list, and no name was required. |
| OpenApiCompat.Own | apps/backend/src/contract/openapi-compat.ts:63-65 | Looking a name up finds one of the object's own entries of that name, or there is none. |
| OpenApiCompat.Distinct | apps/backend/src/contract/openapi-compat.ts:59-61 | The set of required names has exactly the listed names. |
| OpenApiCompat.ResolveSchema | apps/backend/src/contract/openapi-compat.ts:39-48 | The walk along a reference and the chain of references resolve to the specified schema. |
| OpenApiCompat.Report.CompareResponse | apps/backend/src/contract/openapi-compat.ts:68-116 | The recursive comparison pushes exactly the specified findings, in order, behind those already there. |
| OpenApiCompat.Report.CompareRequest | apps/backend/src/contract/openapi-compat.ts:119-160 | The recursive comparison pushes exactly the specified findings, in order, behind those already there. |
| LeaderboardRanking.RankingIsTotal | contracts/leaderboard/src/lib.rs:463-471 | ranks_after is a strict total order on rows of different players. |
| LeaderboardRanking.OneRanking | contracts/leaderboard/src/lib.rs:369-379 | A set of rows with one row per player can be ranked in one way only. |
| LeaderboardRanking.RankingRanks | contracts/leaderboard/src/lib.rs:369-379 | The specified ranking is sorted and a permutation of the rows. |
| LeaderboardRanking.BoardOrder | contracts/leaderboard/src/lib.rs:456-471 | On the board more wins come first, among equal wins more earnings, among equal records the smaller address. |
| LeaderboardRanking.RosterOrderDoesNotShow | contracts/leaderboard/src/lib.rs:341-379 | Boards with the same players and records rank alike whatever the order of the roster. |
| LeaderboardRanking.PagesAdvance | contracts/leaderboard/src/lib.rs:381-393 | With steps of at most a page size, k pages are exactly the first k steps of the ranking. |
| LeaderboardRanking.PagingIsCompleteIff | contracts/leaderboard/src/lib.rs:325-393 | Collecting pages by steps of the requested limit shows the whole ranking, each row once and in order, if and only if the limit is at most fifty or the board fits one page. |
| LeaderboardAccounts.RunBalances | contracts/leaderboard/src/lib.rs:186-270 | In every run each counter of each player is exactly what the accepted results add up to, and the roster holds each participant once. |
| LeaderboardAccounts.DoubleEntry | contracts/leaderboard/src/lib.rs:217-259 | In every run, summed over the roster: wins and losses both equal the decisive results, draws twice the drawn ones, earnings the decisive payouts; the result count is the number of accepted results, saturated. |
| LeaderboardAccounts.RosterIsThePlayers | contracts/leaderboard/src/lib.rs:436-454 | In every run the roster is duplicate-free and is exactly the set of players with a non-zero record. |
| LeaderboardAccounts.BoardOfARun | contracts/leaderboard/src/lib.rs:320-393 | In every run the board lists, ranked and once each, exactly the players whose match total is positive and fits 32 bits, and paging shows all of it exactly when the step fits. |
| LeaderboardAccounts.RecordCredits | contracts/leaderboard/src/lib.rs:217-245 | An accepted result moves every counter of every player by exactly its credit. |
| LeaderboardAccounts.RecordAcceptedIff | contracts/leaderboard/src/lib.rs:186-235 | In every run a result is accepted if and only if a source signs, recording is not paused, the players differ, the payout is not negative, and what was accepted before leaves room in every counter it raises. |
| LeaderboardAccounts.TokensAreLastWon | contracts/leaderboard/src/lib.rs:226-230 | In every run a record is denominated in the token of the last decisive result its player won, and in none before. |
| LeaderboardAccounts.RunIsGoverned | contracts/leaderboard/src/lib.rs:64-160 | In every run the admin is the one of the accepted initialisation, the pause the one last set, and the sources those added and not removed since, each exactly with the signatures the code asks for. |
| LeaderboardAccounts.PageRefusedIff | contracts/leaderboard/src/lib.rs:325-383 | A page is refused if and only if the limit is zero, or the offset is not zero and not below the number of rows. |
| LeaderboardAccounts.AdminAcceptedIff | contracts/leaderboard/src/lib.rs:64-160 | Administration is accepted exactly with the admin's signature, a new source exactly with its own as well, a removal exactly of a source there is. |
| LeaderboardAccounts.ErrorsAreTruthful | contracts/leaderboard/src/lib.rs:64-235 | In every run, an error of any call says something true about the state, the caller or the arguments; overflow of a counter aborts and Overflow is never returned. |
| LeaderboardContract.Leaderboard.RecordResult | contracts/leaderboard/src/lib.rs:186-270 | Recording commits the specified state, or an error or overflow half-way leaves no trace. |
| LeaderboardContract.Leaderboard.AddToRoster | contracts/leaderboard/src/lib.rs:436-454 | The scan adds a player exactly when absent. |
| LeaderboardContract.InsertionSort | contracts/leaderboard/src/lib.rs:369-379 | The insertion sort by neighbour swaps produces the one ranking of its rows. |
| LeaderboardContract.Leaderboard.GetLeaderboard | contracts/leaderboard/src/lib.rs:320-393 | The page is cut from the one ranking of the players on the board; a zero limit or an offset beyond it is InvalidRange. |
| Breaker.RunInv | apps/backend/src/services/circuit-breaker.ts:204-310 | In every run through any number of restarts: half-open means the cooldown was served, open means the opening time is known and past, closed means no back-off is left. |
| Breaker.RestoreMirrorsAllow | apps/backend/src/services/circuit-breaker.ts:204-228 | Any state of a run restored at any later time: closed comes back as it was, half-open always comes back closed and forgotten, and open comes back open exactly when allowRequest would still refuse. |
| Breaker.RestartDecidesAlike | apps/backend/src/services/circuit-breaker.ts:192-228 | Restarting at the moment of a request decides it as the running breaker would. |
| Breaker.OpensAndClosesAtTheThreshold | apps/backend/src/services/circuit-breaker.ts:233-281 | In every run a closed breaker opens exactly at the failureThreshold-th failure in a row, and a half-open one closes exactly at the successThreshold-th success and opens at any failure. |
| Breaker.AllowProbes | apps/backend/src/services/circuit-breaker.ts:286-310 | In every run a request let through by an open breaker leaves it half-open with nothing counted and the back-off kept; any other request changes nothing. |
| Breaker.CountersAreShown | apps/backend/src/services/circuit-breaker.ts:230-281 | In every run successes are counted only while half-open, the failure count is the failures in a row while closed and those that opened it while open, and the last failure time is that of the last failure not forgotten. |
| Breaker.CountsReopenings | apps/backend/src/services/circuit-breaker.ts:233-281 | In every run attemptCount is the number of consecutive re-openings and openedAt the time of the last opening, read off the phases that the run went through. |
| Breaker.RefusesForTheCooldown | apps/backend/src/services/circuit-breaker.ts:283-331 | The k-th consecutive re-opening refuses for exactly min(cooldownMs * backoffMultiplier^k, maxCooldownMs) after it opened. |
| Breaker.NothingExtendsIt | apps/backend/src/services/circuit-breaker.ts:254-310 | While it refuses, no requests, successes, failures or restarts from a snapshot since the opening end or extend the refusal. |
| Breaker.BackoffGrows | apps/backend/src/services/circuit-breaker.ts:328-331 | With a multiplier of at least one the refusals never get shorter and never exceed the maximum. |
| Breaker.CircuitBreaker.CalculateCooldown | apps/backend/src/services/circuit-breaker.ts:328-331 | The computed cooldown is the exponential one, capped. |
| RateLimit.AdmittedWithinAllowance | apps/backend/src/middleware/rate-limit.ts:75-99 | Between two clean-ups, for each client, any request times and any interleaving with other clients: at most capacity plus one refill for each whole interval since its first request is admitted, although each refill forgets the fraction. With clean-ups see BoundHoldsIff. |
| RateLimit.TokensAreBacked | apps/backend/src/middleware/rate-limit.ts:86-99 | Requests admitted and tokens left together never exceed the allowance up to the last refill. |
| RateLimit.NoCapacityStillAdmits | apps/backend/src/middleware/rate-limit.ts:79-84 | The bound holds for a first request if and only if the capacity is positive. |
| RateLimitEviction.EvictionIsUnobservableIff | apps/backend/src/middleware/rate-limit.ts:132-141 | No run gives a different answer because of cleanup calls, wherever they are inserted, if and only if capacity >= 1 and floor((30 min + 1 ms) / refillIntervalMs) * refillAmount >= capacity. |
| RateLimitEviction.SweepsDoNotShow | apps/backend/src/middleware/rate-limit.ts:132-141 | Under that condition every run with cleanup calls gives the answers of the run without them. |
| RateLimitEviction.ShowsOtherwise | apps/backend/src/middleware/rate-limit.ts:132-141 | Without it a concrete run gives a different answer. |
| RateLimitEviction.AdmittedDespiteSweeps | apps/backend/src/middleware/rate-limit.ts:75-141 | Under that condition no client exceeds that bound in any run with cleanup calls at any time. |
| RateLimitEviction.BoundHoldsIff | apps/backend/src/middleware/rate-limit.ts:59-141 | With the cleanup timer that every limiter starts, every client of every run stays within its allowance if and only if capacity >= 1 and floor((30 min + 1 ms) / refillIntervalMs) * refillAmount >= capacity. |
| RateLimitEviction.TellingAdmitsTwice | apps/backend/src/middleware/rate-limit.ts:79-141 | For every positive capacity, a client that spends its quota, waits just over thirty minutes and meets a cleanup is let through with a second full quota. |
| RateLimitEviction.WaitingIsEnough | apps/backend/src/middleware/rate-limit.ts:101-110 | A denied client that stays silent for its retryAfterSeconds (section 10.2.3 of RFC 9110) is then admitted, whatever other clients and cleanups do meanwhile. |
| RateLimitEviction.WaitingIsNeeded | apps/backend/src/middleware/rate-limit.ts:101-110 | The told waiting time is at least one second and is the first whole number of seconds after which the next refill is due; asked before that refill, the client is denied again. |
| RateLimitEviction.SweepDropsStale | apps/backend/src/middleware/rate-limit.ts:132-141 | Clean-up drops exactly the buckets without a refill for more than thirty minutes, and changes no other. |
| RateLimit.RateLimitStore.IsAllowed | apps/backend/src/middleware/rate-limit.ts:75-110 | Answer and new buckets are those of the specification. |
| RateLimit.RateLimitStore.GetRemainingTokens | apps/backend/src/middleware/rate-limit.ts:115-126 | The diagnostic answer is that of the specification. |
| RateLimit.RateLimitStore.Cleanup | apps/backend/src/middleware/rate-limit.ts:132-141 | The loop drops exactly the buckets not refilled for more than thirty minutes and keeps the others unchanged. |
| ContractRegistry.RunAgrees | contracts/contract-registry/src/lib.rs:123-255 | In every run the names are strictly ascending, are exactly the keys with a record, each record carries its key, and the counter is their number. |
| ContractRegistry.DeregisterAgrees | contracts/contract-registry/src/lib.rs:237-250 | Deregistering keeps the agreement and the saturating subtraction never saturates. |
| ContractRegistry.RegisterAgrees | contracts/contract-registry/src/lib.rs:140-172 | Registering keeps the agreement. |
| ContractRegistry.DeregisterUndoes | contracts/contract-registry/src/lib.rs:123-255 | Deregistering right after registering restores the whole state. |
| ContractRegistry.HistoryDoesNotShow | contracts/contract-registry/src/lib.rs:152-157 | Two runs that end with the same registered names list the same names in the same order. |
| ContractRegistry.RecordsAsCalled | contracts/contract-registry/src/lib.rs:161-255 | In every run, a name is registered exactly if its last accepted registration was not followed by an accepted deregistration; its record names the caller of that registration, the address last given by a registration or update, and is active. |
| ContractRegistry.AcceptedIff | contracts/contract-registry/src/lib.rs:123-236 | In every run registration, update, deregistration, pause and initialisation are accepted exactly under the documented conditions; the registrant may deregister too. |
| ContractRegistry.RunIsGoverned | contracts/contract-registry/src/lib.rs:62-121 | In every run the admin is the one of the accepted initialisation and the pause the one last accepted. |
| ContractRegistry.PageRefusedIff | contracts/contract-registry/src/lib.rs:276-279 | A page is refused if and only if the limit is zero, and a page from the end on is empty. |
| ContractRegistry.ErrorsAreTruthful | contracts/contract-registry/src/lib.rs:62-255 | In every run, an error of any call says something true about the state, the caller or the arguments. |
| ContractRegistry.WalkListsAll | contracts/contract-registry/src/lib.rs:276-291 | At a fixed state, moving on by as many names as were received lists the first k page sizes of the index after k pages, for every limit. |
| ContractRegistry.WalkFindsRegistered | contracts/contract-registry/src/lib.rs:273-291 | In every run enough pages list exactly the registered names, once each and ascending. |
| ContractRegistry.Position | contracts/contract-registry/src/lib.rs:152-155 | The insertion loop stops behind the names that are smaller. |
| ContractRegistry.Registry.InsertName | contracts/contract-registry/src/lib.rs:147-157 | The name is inserted at the position where the loop stops. |
| ContractRegistry.Registry.RemoveName | contracts/contract-registry/src/lib.rs:237-246 | The first occurrence of the name is removed, and nothing else. |
| ContractRegistry.Registry.ListNames | contracts/contract-registry/src/lib.rs:276-291 | The loop returns the specified page; a zero limit is InvalidRange and an exhausted page is empty. |

## Left out

Host and surroundings:

- Events, TTL bumps, storage expiry, XDR, strkey and WASM buffers: storage is permanent, and a call either commits or fails.
- Signature checks beyond membership in the set of signers of a call.
- Token internals: any SEP-41 token is a conserving table of balances; allowances appear only where the escrow deposit reads one.
- The worker loop, retries and the SQLite stores around `advanceSettlement`: assumed is one worker per record. A status answer, a save or a send may be lost at any await.
- Express middleware, fetchers, routes, logger callbacks, tracing, frontend and command-line tools.
- Randomness and clocks: every time is a parameter; the two clock readings inside one `recordFailure` are one.

Contracts:

- Escrow `add_token` and `remove_token`: the source has no such code, only tests that call it. The allowlist starts as any set, and `initialize` adds the default token. `update_oracle`, `transfer_admin`, `pause` and `unpause` are calls of the run model without a class method of their own.
- Escrow `list_matches` and `list_matches_after`: paging by id; a walk that starts from the largest id gets an empty page, since the addition saturates.
- Escrow `player_label` is not in scope at its use in the source and only feeds an event.
- `emergency_drain` is counted as an outflow in the conservation theorem, since it takes the balance that pending matches may need.
- Payout by `prize_schedule`: no code pays by it, so only its validation is modelled.
- The tournament getters, and the registry's bounded list of event names: easy members.
- The oracle contract: write-once results and a two-step admin transfer.
- Leaderboard tokens: earnings are compared as plain numbers across tokens, as the code does. That a roster stays within a 32-bit length is a premise of `BoardOfARun`.

Backend:

- `submitWithRetry`, `calculateBackoffDelay` and `assertChainBinding`.
- PlatformsStep: does not model that the per-platform table is a plain JavaScript object, where a platform named like an inherited property, such as `constructor`, finds a function instead of counts and adds no entry.
- Monitor: reading chain and provider before an observation is recorded, and logging. Names are normalised by any function `norm`.
- OpenAPI checker: `findBreakingChanges` above the two schema comparisons (paths, methods, statuses, security, major version), and the removal of error codes.
- ResponseSound: does not cover enums reached through a reference to `ErrorCode`, because the policy exempts them; nor keywords other than `type`, `enum`, `required` and `properties`, because the checker does not read them.
- RequestSound: does not cover requests with undeclared properties, because a new optional property of the head may constrain them.
- ResolveSchema: a property schema that is `null` makes the source throw on `base.$ref`, where the model resolves it to an empty schema.
- Resolving in general: a reference chain longer than twenty, a schema that is no object, and keywords beside a reference read as the source reads them, which is not how JSON Schema does.
- Breaker persistence: a snapshot may be stale, but is never corrupt; the configuration does not change across restarts.
- Limiter: the SQLite backend and several instances behind one balancer; fractional configurations.
- AdmittedWithinAllowance: excludes zero capacity, because then the first request of a client is still let through (`NoCapacityStillAdmits`), and cleanup calls, because with them the bound holds exactly under the condition of `BoundHoldsIff`.
