# Verified model of the Solana OCR2 feeds

This project models the on-chain oracle programs (the feed store, the OCR2 aggregator, the access
controller) and the off-chain Go code that has to agree with them (report codec, config digests,
transaction manager, monitoring), and proves what they promise: for every input, every run, or every
interleaving.

- `StoreFeed.dfy`: a feed account with two ring buffers, refining an append-only log of rounds; the node's
  byte-offset read of the same account.
- `Ocr2Types.dfy`, `Ocr2.dfy`: the aggregator's accounts and every instruction as a function; `Run` is a
  whole run, in which a failed instruction changes nothing. `Ocr2Invariants.dfy`, `Ocr2Authority.dfy`,
  `Ocr2Ledger.dfy`, `Ocr2Solvency.dfy`, `Ocr2Surplus.dfy` and `Ocr2Stuck.dfy` prove what runs keep;
  `Ocr2Exact.dfy` and `Ocr2Proposals.dfy` say exactly when instructions succeed and what they then do, down to the
  bytes of a transmission and the history of a proposal; `Ocr2Witnesses.dfy` gives concrete runs and states; `Ocr2Program.dfy` is the program itself, with accounts
  updated in place by loops, each handler proved to do what its instruction is specified to do.
- `BitMask.dfy`: the 32-bit signer mask. `Encodings.dfy`: both digests, on both sides. `Report.dfy`,
  `Medians.dfy`: the report and its medians. `Bytes.dfy`, `Collections.dfy`, `Sorting.dfy`: integer encodings,
  facts about collections, and the insertion sort the others share.
- `PendingTx.dfy`, `Confirm.dfy`, `Fees.dfy`, `ComputeBudget.dfy`: the transaction manager.
- `AccessList.dfy`: the array vector and the access list. `LogEvents.dfy`: the event extractor.

`dafny verify dfyconfig.toml` checks everything.

## Conventions

- The contracts are built with overflow checks (`contracts/Cargo.toml` line 12), so an unchecked arithmetic
  overflow aborts the instruction: `Abort` in the feed, `Err(Aborted)` in the aggregator.
- SHA-256 and key recovery are arbitrary functions in `Env`; every theorem holds for all of them. Only
  `DigestPinsConfig` and `ReportNamesConfig` ask that the hash not collide on the two inputs at hand.
- Token transfers debit and credit accounts of one mint and fail when funds are short. Between
  instructions, other parties may do anything to token accounts except debit the vault, and anything to
  access lists. In a `Run`, whether the store accepts a submission is an input; `Program.Transmit` submits to
  the feed itself, and only whether the aggregator is the feed's writer is an input.
- libocr's `SerializeSigned` and `StandardOnchainConfigCodec` are big-endian two's complement, of 16 and 8
  bytes in reports and 24 bytes in the onchain config. A transmitter's base58 string stands for its key.
- Clocks become inputs: expiry and bump timing are arbitrary booleans, in any order.

## Findings

Each is a theorem with its exact condition, and an input that shows it.

- With no historical ring, `fetch` of the latest multiple of the granularity aborts once that round has
  left the live ring (`AccountSizeRulesOutOverflow`; `FetchAborts`): the guard of the second branch is
  satisfied by a range of one round, and the index computation underflows.
- Rounds after the latest multiple of the granularity that have left the live ring are in neither ring, and
  `fetch` does not find them although it finds older ones. This never happens exactly when the live
  ring is at least one less than the granularity (`UncoveredBand`, `FoundUnlessUncovered`; `FetchLosesRound`).
- `is_valid` rejects a change too large to scale in 128 bits even when the ratio is within the threshold
  (`IsValidExact`; `WideJumpRejected`).
- An oracle owed more than 64 bits blocks everyone: `pay_oracles`, `set_billing`, `withdraw_funds`,
  `accept_proposal` and `close` fail, and nothing undoes it, in any continuation of the run (`StuckBlocks`,
  `StuckForever`). One accepted report with a negative price per lamport and the largest unit price is enough
  (`OneReportSticks`); eight instructions from a fresh aggregator get there (`StuckReachable`, `StuckRun`).
- `CalculateFee` is the clamped exact price except when the price overflows and the bounds are crossed,
  where it returns the minimum (`CalculateFee`; `CrossedBoundsFee`).
- A negative juels-per-fee-coin value is encoded by the node and read back by the program as a huge
  positive one (`UnpackLayout`; `NegativePriceReadBack`).
- `getLinkAvailableForPayment` is exact exactly when the amount due fits in 64 bits
  (`LinkAvailableForPayment`; `ReportsNothingDue`); the program's own total also fails when the unpaid rounds
  of all oracles together exceed 32 bits (`TotalDueExact`; `TotalDueFailsEarly`).
- `add_access` refuses even a key that is already present once the list is full (`AddAccess`;
  `FullListRefuses`).
- Within a batch a confirmed success always wins. Across the batches of one tick, which are processed
  concurrently, it wins under every interleaving exactly when every batch that settles the transaction
  holds a success of it (`SuccessWinsAcross`; `BatchesRace`).
- `ExtractEvents` crashes exactly when a program log line comes after complete invocations with none open;
  a finish line there ends the search instead, and lines after it are not looked at
  (`CrashesIffLoggedOutside`, `ReturnsExactly`; `CrashAndStop`).

## Model

| member | source | states |
|---|---|---|
| `StoreFeed.RingPush` | contracts/programs/store/src/state.rs:110-112 | writing at the cursor turns a ring that holds the end of a log into one that holds the end of the extended log |
| `StoreFeed.InsertKeepsRings` | contracts/programs/store/src/state.rs:107-125 | `insert` on both rings and cursors is an append to the log, with the historical ring holding every g-th entry |
| `StoreFeed.FetchRefines` | contracts/programs/store/src/state.rs:139-192 | for every ring pair holding a log and every round number, the saturating and modular index arithmetic stays in bounds and returns what the log alone says: the round itself, the round rounded down to the granularity, nothing, or an abort |
| `StoreFeed.LatestRefines` | contracts/programs/store/src/state.rs:127-137 | `latest` returns the last entry of the log, or nothing before the first round |
| `StoreFeed.Feed.Insert` | contracts/programs/store/src/state.rs:107-125 | appends to the log and keeps the account valid; aborts, unchanged, exactly when the round counter is exhausted |
| `StoreFeed.Feed.Latest` | contracts/programs/store/src/state.rs:127-137 | after any inserts, the last round of the log |
| `StoreFeed.Feed.Fetch` | contracts/programs/store/src/state.rs:139-192 | after any inserts, for every round number, the specified lookup in the log |
| `StoreFeed.Feed.Submit` | contracts/programs/store/src/lib.rs:156-185 | appends the round with its timestamp truncated to 32 bits, and raises the flag exactly when it moved too far from the previous answer |
| `StoreFeed.CreateFeed` | contracts/programs/store/src/lib.rs:51-93 | succeeds exactly when the account splits into a positive live ring and some historical ring, the granularity is positive and the description fits; the result holds the empty log and the padded description |
| `StoreFeed.IsValidExact` | contracts/programs/store/src/lib.rs:286-306 | for all i128 answers, the wrapping 128-bit test is the ratio test on unbounded integers, except for changes too large to scale |
| `StoreFeed.WideJumpRejected` | contracts/programs/store/src/lib.rs:286-306 | such a change: a jump across the whole range, within the threshold and rejected |
| `StoreFeed.AccountSizeRulesOutOverflow` | contracts/programs/store/src/state.rs:148-189 | for accounts the runtime allows, `latest` never aborts, and `fetch` aborts exactly for one round of a feed without historical ring |
| `StoreFeed.FetchAborts` | contracts/programs/store/src/state.rs:172-186 | such a round, after three submissions |
| `StoreFeed.UncoveredBand` | contracts/programs/store/src/state.rs:151-156 | no round is newer than the historical rounds and older than the live ones, at any time, if and only if the live ring is at least the granularity less one |
| `StoreFeed.FoundUnlessUncovered` | contracts/programs/store/src/state.rs:158-191 | every round the historical ring reaches back to is found, unless it is in that band |
| `StoreFeed.FetchLosesRound` | contracts/programs/store/src/state.rs:151-191 | after any five submissions to a feed with live length 1 and granularity 3, round 4 is not found and round 3 is |
| `TransmissionsCache.LatestTransmissionOffset` | pkg/solana/transmissions_cache.go:61-72 | the offset is that of the slot before the cursor, whatever the length, and of the last slot when the cursor is 0; with an empty header the decrement wraps |
| `TransmissionsCache.ReadLatest` | pkg/solana/transmissions_cache.go:61-81 | for every feed with a round, the byte range is exactly the live slot that holds the last round of the log, inside the live region |
| `Ocr2Invariants.StepKeepsInv` | contracts/programs/ocr_2/src/lib.rs:32-646 | every instruction keeps: a usable quorum, well-formed proposals, accounts not ahead of the round count, one answer per round |
| `Ocr2Invariants.RunKeepsInv` | contracts/programs/ocr_2/src/lib.rs:212-317 | in every reachable state with oracles: signers strictly sorted, transmitters distinct, f at least 1, 3f below the number of oracles, at most 19 of them |
| `Ocr2Invariants.ProposeConfigQuorate` | contracts/programs/ocr_2/src/lib.rs:261-317 | an accepted `propose_config` leaves a strictly sorted signer list and pairwise distinct transmitters |
| `Ocr2Invariants.SortedOrderUnique` | contracts/programs/ocr_2/src/lib.rs:295-304 | without duplicate signers there is only one sorted order, so the unstable sort has one result |
| `BitMask.CountOnesIsDistinct` | contracts/programs/ocr_2/src/lib.rs:711-738 | the population count of the OR-ed mask is the number of distinct indices |
| `Ocr2Invariants.VerifiedSigners` | contracts/programs/ocr_2/src/lib.rs:692-738 | signature checks that pass return f+1 distinct oracles, and signature k, at its place in the raw instruction, recovers to the key of the k-th over the report behind its length and in front of its context |
| `Ocr2Invariants.VerifyExact` | contracts/programs/ocr_2/src/lib.rs:692-738 | with sorted signers, the loop of recovery, search and mask passes if and only if the raw signatures are those of f+1 different oracles, and returns exactly those |
| `Ocr2Invariants.QuorumOfSigners` | contracts/programs/ocr_2/src/lib.rs:692-738 | for every set of at most f oracles, one of the signatures over these bytes is by an oracle outside it |
| `Ocr2Invariants.EveryTransmitHasQuorum` | contracts/programs/ocr_2/src/lib.rs:649-810 | in every reachable state, every accepted transmit has f+1 signatures over its own context and report out of more than 3f oracles, one of them by an oracle outside any given coalition of f |
| `Ocr2Exact.TransmitExact` | contracts/programs/ocr_2/src/lib.rs:649-810 | in every state that meets the invariant, a raw transmission is accepted if and only if its size, stamp, transmitter, digest, signatures, observers, answer, price instruction and the store allow it, field by field at their byte offsets; then exactly the stamp, round count, answer and the one transmitter's credit change |
| `Ocr2Exact.SignedBytesDetermine` | contracts/programs/ocr_2/src/lib.rs:709 | transmissions signed alike have the same digest, epoch, round and report |
| `Ocr2Exact.NothingReplayed` | contracts/programs/ocr_2/src/lib.rs:674-678 | over every run, across reconfigurations, bytes the oracles signed for one accepted transmission are never accepted again |
| `Ocr2Invariants.OnlyTransmitAdvances` | contracts/programs/ocr_2/src/lib.rs:674-678 | (epoch, round), the round count and the answers change at accepted transmits and nowhere else; there they strictly increase and the new answer is within bounds |
| `Ocr2Invariants.StampsIncrease` | contracts/programs/ocr_2/src/lib.rs:751-757 | over every run, across reconfigurations, the accepted (epoch, round) pairs strictly increase and the round count is how many there were |
| `Ocr2Invariants.AnswersInRange` | contracts/programs/ocr_2/src/lib.rs:746-749 | over every run, every answer given to the feed is within the bounds set at initialization, and answers are never rewritten |
| `Ocr2Invariants.FinalizedFrozen` | contracts/programs/ocr_2/src/lib.rs:120-166 | one instruction leaves a finalized proposal as it is, or closes it |
| `Ocr2Invariants.FinalizedUntilClosed` | contracts/programs/ocr_2/src/lib.rs:120-171 | over every run in which no close or acceptance of it succeeds, attempts included, a finalized proposal is unchanged |
| `Ocr2Invariants.DigestPinsConfig` | contracts/programs/ocr_2/src/lib.rs:196-228 | unless the hash collides, the accepted configuration is that of the proposal the signed digest was computed from, with all its payees set |
| `Ocr2Authority.DigestAlwaysCurrent` | contracts/programs/ocr_2/src/lib.rs:231-242 | in every reachable state with an accepted configuration, the stored digest is 00 03 followed by the rest of the hash of what the account holds, whatever billing and payee changes happened since |
| `Ocr2Authority.NodeDigest` | pkg/solana/config_digester.go:24-101 | from every account with an accepted configuration, the node computes exactly the digest stored in it |
| `Ocr2Authority.ReportNamesConfig` | contracts/programs/ocr_2/src/lib.rs:687-690 | unless the hash collides, an accepted report carries the digest of the current configuration and of no other |
| `Ocr2Authority.OnlyAuthorized` | contracts/programs/ocr_2/src/lib.rs:964-1006 | every instruction that succeeds was signed by who may: owner, proposal owner, listed biller or requester, oracle, or owner of the token account |
| `Ocr2Authority.PayeeHandover` | contracts/programs/ocr_2/src/lib.rs:518-574 | within a configuration a payee changes if and only if the owner of the account offered accepts, and an account is offered if and only if the owner of the old one does so; both to exactly those accounts |
| `Ocr2Authority.OwnerHandover` | contracts/programs/ocr_2/src/lib.rs:91-104 | over every instruction, the owner changes if and only if the proposed one accepts, the proposed owner and both access controllers if and only if the owner says so, and mint, vault and bounds never |
| `Ocr2Proposals.ProposalExact` | contracts/programs/ocr_2/src/lib.rs:106-349 | every instruction on a proposal succeeds if and only if it is allowed; for nominations that is more than 3f oracles, at most 19, with pairwise different keys in the order given, although the program compares neighbours after sorting |
| `Ocr2Proposals.EveryProposalIsMade` | contracts/programs/ocr_2/src/lib.rs:106-349 | over every run, a proposal is there if and only if it was created and neither closed nor accepted since, and holds exactly the writes, the last nomination, and the payees named since, by instructions that succeeded |
| `Ocr2Proposals.AcceptExact` | contracts/programs/ocr_2/src/lib.rs:173-259 | acceptance succeeds if and only if the owner signs, paying out succeeds, and a finalized proposal of the right mint has the digest given; then the whole configuration is the proposal's, with its digest, and every oracle starts at the latest round with nothing owed |
| `Ocr2Ledger.StepKeepsBalance` | contracts/programs/ocr_2/src/lib.rs:408-504 | every instruction keeps paid + owed + dropped = earned for every oracle; `set_billing` does so whatever the new rate |
| `Ocr2Ledger.LedgerExact` | contracts/programs/ocr_2/src/lib.rs:766-770 | over every run, what an oracle of the current configuration was paid plus what it is owed is the sum of the rates in force at each round plus its own credits, unless an account saturated |
| `Ocr2Ledger.TransmitUnpaid` | contracts/programs/ocr_2/src/lib.rs:753-770 | a round adds its rate to what every oracle is owed and the credit to the transmitter only |
| `Ocr2Ledger.PaymentsAreOwed` | contracts/programs/ocr_2/src/lib.rs:598-643 | settlement transfers on each oracle's account exactly what it is owed |
| `Ocr2Ledger.NoSaturationNoLoss` | contracts/programs/ocr_2/src/lib.rs:766-770 | nothing is dropped in a run in which no account saturates |
| `Ocr2Ledger.PriceReimbursed` | contracts/programs/ocr_2/src/lib.rs:760-765 | a transmit sent the way the node prepares it is reimbursed for exactly the price the node set and f+1 signatures: 5000 lamports and 25000 units a signature plus 21000, rounded up to lamports and down to gjuels |
| `Ocr2Solvency.TotalDueExact` | contracts/programs/ocr_2/src/lib.rs:938-960 | the total equals the sum of what each oracle is owed whenever it succeeds, and succeeds exactly when its three counters fit |
| `Ocr2Witnesses.TotalDueFailsEarly` | contracts/programs/ocr_2/src/lib.rs:938-960 | in a state that meets the invariant, four oracles with 2^30 unpaid rounds each: 2^32 is due, and the total fails |
| `Ocr2Solvency.LinkAvailableForPayment` | pkg/monitoring/source_envelope.go:233-250 | with 64-bit wrap-around, equals the balance minus the counted sum, with no rounds for an oracle ahead of the latest, if and only if that sum fits; with none ahead it is the sum due, and the balance minus the program's total whenever that succeeds |
| `Ocr2Witnesses.ReportsNothingDue` | pkg/monitoring/source_envelope.go:233-250 | in a state that meets the invariant, four oracles owed 2^62 each: the whole balance is reported as available |
| `Ocr2Solvency.WithdrawFundsKeepsCover` | contracts/programs/ocr_2/src/lib.rs:436-453 | the recipient gets the requested amount, at most the surplus; a vault that covers what is due still covers it, and one that does not is left alone |
| `Ocr2Exact.WithdrawFundsExact` | contracts/programs/ocr_2/src/lib.rs:436-453 | succeeds if and only if the total fits its counters and the recipient's account is of the mint; then exactly the request or the surplus moves to it, and nothing else changes |
| `Ocr2Exact.WithdrawPaymentExact` | contracts/programs/ocr_2/src/lib.rs:455-504 | succeeds if and only if the signer owns the payee's account, it is of the mint, and the first oracle paid there is owed no more than the vault holds; then that account receives exactly that, and nothing else changes but the vault and that oracle's account |
| `Ocr2Exact.BillingExact` | contracts/programs/ocr_2/src/lib.rs:408-453 | a billing instruction succeeds if and only if the signer is the owner or on the access list given, which has to be the configured one, and what it does succeeds; new rates apply after paying out at the old ones |
| `Ocr2Solvency.PayAllSucceeds` | contracts/programs/ocr_2/src/lib.rs:634-643 | covered payments all go through, and every account's balance changes by exactly what it received |
| `Ocr2Solvency.PayOutExact` | contracts/programs/ocr_2/src/lib.rs:577-646 | succeeds if and only if receiver and payees are right and the vault covers the sum due; then it pays every oracle what it is owed, at its own payee or the receiver, moves exactly the sum due, leaves nothing due, and changes nothing else of any oracle or of the state |
| `Ocr2Solvency.OwedExact` | contracts/programs/ocr_2/src/lib.rs:920-936 | with accounts not ahead, as in every reachable state, the amount owed is computed unless it needs more than 64 bits |
| `Ocr2Solvency.SettleExact` | contracts/programs/ocr_2/src/lib.rs:598-632 | settlement succeeds exactly when every payee is right and every oracle's amount fits |
| `Ocr2Stuck.StuckBlocks` | contracts/programs/ocr_2/src/lib.rs:173-453 | while one oracle is owed more than 64 bits, no payment of all, rate change, withdrawal of surplus or acceptance succeeds |
| `Ocr2Stuck.StuckByRound` | contracts/programs/ocr_2/src/lib.rs:751-770 | an accepted round leaves an oracle owed more than 64 bits if and only if its old debt, the rate, and the credit its account took exceed that |
| `Ocr2Stuck.SaturatedGetsStuck` | contracts/programs/ocr_2/src/lib.rs:751-770 | the round that saturates its transmitter's account already leaves it owed more than 64 bits, if rounds are paid |
| `Ocr2Stuck.OneReportSticks` | contracts/programs/ocr_2/src/lib.rs:760-770 | so does any one accepted report with the largest price per lamport and the largest unit price |
| `Ocr2Stuck.StuckForever` | contracts/programs/ocr_2/src/lib.rs:577-646 | from a reachable state with such an oracle on, over every continuation of the run, it stays that way, and all of those and `close` fail |
| `Ocr2Witnesses.StuckReachable` | contracts/programs/ocr_2/src/lib.rs:649-810 | whatever the hash, from every fresh aggregator with its token accounts, eight instructions through proposal, acceptance, rate and one accepted report with a negative price end with such an oracle |
| `Ocr2Witnesses.StuckRun` | contracts/programs/ocr_2/src/lib.rs:649-810 | a concrete such run |
| `Ocr2Solvency.PayOutTwice` | contracts/programs/ocr_2/src/lib.rs:577-646 | paying again changes nothing |
| `Ocr2Solvency.CloseExact` | contracts/programs/ocr_2/src/lib.rs:54-89 | succeeds if and only if the owner signs and paying out succeeds; the oracles are then paid, the receiver has exactly the surplus on top of what it received for them, nobody else gets more, and the vault is empty |
| `Ocr2Surplus.WithdrawPaymentKeepsSurplus` | contracts/programs/ocr_2/src/lib.rs:455-504 | an oracle withdrawing its payment leaves the vault's surplus over what is due unchanged, up to what is paid into the vault itself |
| `Ocr2Surplus.PayOutKeepsSurplus` | contracts/programs/ocr_2/src/lib.rs:577-646 | so does paying everyone, whenever it succeeds, also when the rate changes with it |
| `Ocr2Surplus.StepMoves` | contracts/programs/ocr_2/src/lib.rs:408-504 | every instruction moves the surplus by its own flow and nothing else: a round by what it accrues, `withdraw_funds` by the request or the whole surplus, outside activity by its deposit |
| `Ocr2Surplus.SurplusExact` | contracts/programs/ocr_2/src/lib.rs:577-646 | over every run, the vault's balance less what is due is the initial balance plus deposits and payments back into the vault, less what rounds accrued and what was withdrawn |
| `Ocr2Program.Program.PayOracles` | contracts/programs/ocr_2/src/lib.rs:577-646 | the two loops compute the specified payments, reset accounts and transfers, or fail with the first error and change nothing |
| `Ocr2Program.Program.SetBilling` | contracts/programs/ocr_2/src/lib.rs:408-433 | pays out at the old rate, then sets the new one; all or nothing |
| `Ocr2Program.Program.WithdrawFunds` | contracts/programs/ocr_2/src/lib.rs:436-453 | transfers the requested amount, at most the surplus |
| `Ocr2Program.Program.WithdrawPayment` | contracts/programs/ocr_2/src/lib.rs:455-504 | pays the first oracle with this payee what it is owed and resets its account |
| `Ocr2Program.Program.CalculateTotalDue` | contracts/programs/ocr_2/src/lib.rs:938-960 | the checked fold computes the specified total |
| `Ocr2Program.Program.CheckSignatures` | contracts/programs/ocr_2/src/lib.rs:692-738 | recovery, binary search and mask over the signatures compute the specified verdict |
| `Ocr2Program.Program.Transmit` | contracts/programs/ocr_2/src/lib.rs:649-810 | does what the transmit instruction is specified to do, on raw instruction bytes, keeps the invariant, and submits exactly the accepted answer to the feed, or leaves the feed as it was; a feed that mirrors the answers still does |
| `Ocr2Program.MirroredReads` | contracts/programs/ocr_2/src/lib.rs:785-808 | readers of a mirrored feed get, by the aggregator's round number, its own answer while live, then the answer at the last multiple of the granularity |
| `Ocr2Program.Program.ProposeConfig` | contracts/programs/ocr_2/src/lib.rs:261-317 | staging, sorting and the two duplicate checks compute the specified proposal |
| `Ocr2Program.Program.AcceptProposal` | contracts/programs/ocr_2/src/lib.rs:173-259 | pays the old oracles, checks and installs the proposal with its recomputed digest and closes it; a later failure undoes the payments |
| `Ocr2Types.BinarySearch` | contracts/programs/ocr_2/src/lib.rs:727-730 | on strictly sorted keys, finds a present key, or the one position that keeps an absent key in order |
| `Encodings.ProposalDigestInput` | contracts/programs/ocr_2/src/state.rs:51-71 | the program's loop joins exactly the proposal preimage |
| `Encodings.MakeDigestInput` | integration-tests/solclient/ocr2.go:169-190 | the client's loop writes the same preimage |
| `Encodings.ProposalPreimageInjective` | contracts/programs/ocr_2/src/state.rs:51-71 | the preimage determines the oracles with payees, f, mint, config version and config bytes |
| `Encodings.ProposalPreimageFields` | contracts/programs/ocr_2/src/state.rs:51-71 | every field of the proposal preimage at its byte offset |
| `Bytes.SignExtension` | contracts/programs/ocr_2/src/state.rs:153-169 | prefixing copies of the sign byte encodes the same number in a wider two's complement |
| `Encodings.ConfigDigestInput` | contracts/programs/ocr_2/src/state.rs:143-206 | the program hashes the config preimage, with both bounds as 192-bit two's complement |
| `Encodings.ConfigFromState` | pkg/solana/config_tracker.go:28-65 | reads the used part of the fixed arrays, or fails when a stored length exceeds them |
| `Encodings.NodeMatchesProgram` | pkg/solana/config_digester.go:24-96 | for every account, the node writes byte for byte the preimage the program hashes, or reports a bad length |
| `Encodings.ConfigPreimageInjective` | pkg/solana/config_digester.go:24-96 | the preimage determines every committed field of the configuration |
| `Encodings.ConfigPreimageFields` | contracts/programs/ocr_2/src/state.rs:143-206 | every field of the config preimage at its byte offset |
| `Report.BuildReport` | pkg/solana/report.go:19-80 | for 1 to 32 observations, lays out the middle timestamp, juels and value of their own orders and, byte for byte, the observers in value order; fails otherwise or when a field does not fit |
| `Report.HonestReport` | pkg/solana/report.go:28-46 | with fewer than half of the observations dishonest, each reported value lies between two honest ones |
| `Report.ReportOrderIndependent` | pkg/solana/report.go:28-46 | the reported values do not depend on input order or on how the sorts break ties |
| `Report.UnpackLayout` | contracts/programs/ocr_2/src/lib.rs:820-846 | unpacking recovers timestamp, count, the first 19 observers, median, and the juels value modulo 2^64 |
| `Report.NegativePriceReadBack` | contracts/programs/ocr_2/src/lib.rs:836-844 | a price of -1 is read back as 2^64 - 1 |
| `Report.AccessorsAgree` | pkg/solana/report.go:82-109 | on every input the node's accessors succeed when the program unpacks, with the same median and count |
| `Report.BuildAndUnpack` | contracts/programs/ocr_2/src/lib.rs:825-846 | for 1 to 32 observations, the program reads back the node's medians and observers if and only if median and juels fit, with the juels value modulo 2^64; otherwise an error |
| `Medians.SortIndependent` | pkg/solana/report.go:29-46 | whatever ascending permutation a sort leaves, the value at an index is the input's value of that rank |
| `Medians.MedianBetweenHonest` | pkg/solana/report.go:28-46 | the middle of a sequence with a dishonest minority lies between two honest elements |
| `PendingTx.PendingTxContext.NewLocked` | pkg/solana/txm/pendingtx.go:53-66 | adds the id with its signature to all four maps unless the signature is known; keeps them consistent |
| `PendingTx.PendingTxContext.AddLocked` | pkg/solana/txm/pendingtx.go:81-94 | adds a signature to a pending id, or refuses |
| `PendingTx.PendingTxContext.RemoveLocked` | pkg/solana/txm/pendingtx.go:111-132 | cancels and deletes the signature's transaction with all its signatures; keeps the maps consistent |
| `PendingTx.RemovedConsistent` | pkg/solana/txm/pendingtx.go:97-132 | a non-nil id is returned exactly when that id was pending and was removed |
| `PendingTx.EveryInterleaving` | pkg/solana/txm/pendingtx.go:44-132 | over every interleaving of critical sections: indices inverse, four maps agree, each cancel at most once and never for a pending id, and created = pending + success + revert + drop + uncounted + about to be counted |
| `PendingTx.EachOutcomeCounted` | pkg/solana/txm/pendingtx.go:210-236 | over every interleaving, for each of success, revert and drop: the count plus the goroutines about to increment it is the number of transactions that calls begun for that outcome removed, recounted from the steps |
| `PendingTx.EachCallCounted` | pkg/solana/txm/pendingtx.go:218-250 | simulation errors are counted for every call, whether or not it removed anything |
| `PendingTx.StoredAsCreated` | pkg/solana/txm/pendingtx.go:44-66 | every pending transaction has the cancel function, the time and the first signature of the call that created it |
| `PendingTx.QuiescentBalance` | pkg/solana/txm/pendingtx.go:210-250 | with no operation under way, every created transaction is pending or counted exactly once, and every metric equals what the steps of the run add up to |
| `Confirm.SortSignaturesAndResults` | pkg/solana/txm/utils.go:43-54 | sorts best status first, moving each signature with its result; refuses different lengths |
| `Confirm.OneStatusDecides` | pkg/solana/txm/txm.go:396-447 | what one status does to a pending transaction: success if and only if confirmed without error, reverted if and only if it carries an error, dropped if and only if it expired unseen or merely processed, and nothing otherwise |
| `Confirm.FirstReasonDecides` | pkg/solana/txm/txm.go:396-447 | for entries in any order, so for any interleaving of batches, every pending transaction ends settled exactly once, as the first of its settling entries says, or stays pending with all its signatures |
| `Confirm.RankedFirst` | pkg/solana/txm/txm.go:388-448 | best status first, that outcome is success if and only if one of its signatures is a confirmed success |
| `Confirm.SuccessWins` | pkg/solana/txm/txm.go:396-447 | a pending transaction with one confirmed success in a ranked batch gets exactly one outcome, success |
| `Confirm.RankedDecides` | pkg/solana/txm/utils.go:56-76 | best status first and without a success, a failure in a confirmed block decides over everything; without one, a status of a processed block decides over signatures that were not found |
| `Confirm.SuccessWinsAcross` | pkg/solana/txm/txm.go:451-470 | over any number of batches processed concurrently, success wins under every interleaving if and only if some batch holds a success and so does every batch that settles the transaction |
| `Confirm.BatchesRace` | pkg/solana/txm/txm.go:454-470 | two batches whose order decides between reverted and success |
| `Confirm.DecidedOnce` | pkg/solana/txm/txm.go:388-470 | whatever entries, other settlements, added signatures and new transactions are interleaved, every pending transaction is settled at most once, as the first action on one of its signatures says, or stays pending with all its signatures |
| `Confirm.SortedBatchSettles` | pkg/solana/txm/txm.go:388-448 | while other goroutines only add, a success wins whatever the order of equal statuses and whatever expires |
| `Confirm.ProcessSigs` | pkg/solana/txm/txm.go:388-448 | with other goroutines acting on the table before every entry, the in-place sort and the settling loop leave every transaction settled once as the first action says, or pending; while the others only add, every one with a success as a success |
| `Fees.CalculateFee` | pkg/solana/fees/utils.go:11-36 | equals the clamp of the exactly doubled price if and only if the bounds are in order or nothing overflows, and is the minimum otherwise |
| `Fees.DoubledStep` | pkg/solana/fees/utils.go:11-29 | the exact price is the base, then twice the one before, with one after a zero base |
| `Fees.CrossedBoundsFee` | pkg/solana/fees/utils.go:11-36 | a minimum of 2 over a maximum of 1 and an overflow: the fee is 2, the clamped price 1 |
| `Fees.BumpingNeverLowers` | pkg/solana/fees/utils.go:11-36 | the clamped price never decreases with the bump count |
| `Fees.RetryLoop` | pkg/solana/txm/txm.go:240-346 | over every order of ticks and returning senders, those returning after a failed build included: neither invariant-violation branch is reached, one list entry per price and exactly one per built bump and the first, each holding the signature its own sender stored, prices never decrease, and the wait doubles with every tick up to 250 ms |
| `Fees.SignatureList.Set` | pkg/solana/txm/utils.go:121-137 | sets an allocated, still unset entry, or fails unchanged |
| `ComputeBudget.ParseEncode` | pkg/solana/fees/computebudget.go:84-123 | parsing inverts encoding, and refuses another identifier |
| `ComputeBudget.Transaction.Set` | pkg/solana/fees/computebudget.go:135-192 | the two search loops and the edits compute the specified message |
| `ComputeBudget.SetTwice` | pkg/solana/fees/computebudget.go:135-192 | setting twice is setting once with the last value |
| `ComputeBudget.SetKeepsOthers` | pkg/solana/fees/computebudget.go:135-192 | every other instruction keeps its data, program and relative place; existing account keys keep their indices, and the program is added, once and read-only, exactly when it was not there |
| `ComputeBudget.PriceReadBack` | pkg/solana/txm/txm.go:185-198 | with or without a limit, the price ends up right before the report and the program reads back exactly it |
| `ComputeBudget.PreparedBytes` | pkg/solana/fees/computebudget.go:84-98 | the price instruction is a 3 and eight bytes, the limit a 2 and four bytes, both with the lowest byte first, in the places the program and the runtime expect |
| `ComputeBudget.ReimbursementExact` | contracts/programs/ocr_2/src/lib.rs:848-881 | the saturating computation gives exactly the relation between price, signatures, price per lamport and credit, with the value of each stage that saturates |
| `ComputeBudget.ReimbursementNeverWraps` | contracts/programs/ocr_2/src/lib.rs:848-881 | no step of the calculation leaves its integer type |
| `ComputeBudget.ReimbursementMonotone` | contracts/programs/ocr_2/src/lib.rs:848-881 | a higher price, more signatures or dearer lamports never lower the reimbursement |
| `ArrayVecs.ArrayVec.Push` | contracts/crates/arrayvec/src/lib.rs:45-49 | appends, or aborts when full |
| `ArrayVecs.ArrayVec.Remove` | contracts/crates/arrayvec/src/lib.rs:57-65 | the shift removes exactly the element at the index and returns it, or aborts |
| `ArrayVecs.ArrayVec.Insert` | contracts/crates/arrayvec/src/lib.rs:67-75 | the overlapping shift inserts the element at the index, or aborts |
| `ArrayVecs.ArrayVec.Extend` | contracts/crates/arrayvec/src/lib.rs:87-92 | appends the data, or aborts when it does not fit |
| `AccessList.EveryRun` | contracts/programs/access-controller/src/lib.rs:65-98 | over every sequence of additions and removals the list is strictly sorted, within capacity, and holds exactly the mathematical set |
| `AccessList.AccessController.AddAccess` | contracts/programs/access-controller/src/lib.rs:65-79 | union with the key when there is room; refuses exactly when full |
| `AccessList.FullListRefuses` | contracts/programs/access-controller/src/lib.rs:65-79 | after 64 additions, adding a key that is on the list is refused |
| `AccessList.AccessController.RemoveAccess` | contracts/programs/access-controller/src/lib.rs:81-91 | set difference |
| `AccessList.AccessController.HasAccess` | contracts/programs/access-controller/src/lib.rs:95-98 | membership |
| `LogEvents.ExtractEvents` | pkg/monitoring/event/decode.go:15-42 | the loop computes the stack machine's result, including its early stop and its crash |
| `LogEvents.ExtractsExactly` | pkg/monitoring/event/decode.go:15-42 | for every forest of calls flattened to log lines, stray finish lines included, exactly the payloads logged directly in frames of the program, in order, ending with an empty stack |
| `LogEvents.EveryLogReads` | pkg/monitoring/event/decode.go:15-42 | every sequence of lines is a trace of closed calls with frames possibly still open, or breaks at a log or finish line with no frame open |
| `LogEvents.CrashesIffLoggedOutside` | pkg/monitoring/event/decode.go:24-25 | over every sequence of lines, crashes if and only if it breaks at a log line |
| `LogEvents.ReturnsExactly` | pkg/monitoring/event/decode.go:15-42 | over every sequence of lines, returns an output if and only if that is what the program logged in the trace, or in the calls before an unmatched finish line |
| `LogEvents.CrashAndStop` | pkg/monitoring/event/decode.go:24-34 | one log line crashes the extractor; after a finish line it does not |

## Left out

- Anchor's account validation (discriminators, program-derived addresses, rent, signers of other programs): accounts are given by key, and the checks the handlers depend on appear as errors. When several checks fail at once, only the order of the handlers' own checks is kept.
- `initialize`, event emission and the query functions of the aggregator: straight-line uses of what is modelled; a run starts from a freshly initialized aggregator, and ends at a successful `close`, which is not a step of it.
- The handlers of ownership, access controllers, payeeship, closing and the short proposal instructions are modelled on values only; the loops and state changes of the others are in `Ocr2Program`.
- Feed ownership and writer, the version check of `with_store`, and the padding of a transmission.
- Aliasing of slices in the Go transaction copies: transactions are values, so sharing of backing arrays between a base transaction and its copies is not captured.
- Confirm.SuccessWinsAcross: the batches of one tick interleave entry by entry, each entry acting where it takes the write lock; signatures that retries add in the meantime are part of `Confirm.DecidedOnce` only.
- PendingTx.EveryInterleaving: a generated id is taken to be new and not nil, as UUIDs are; incrementing the two metrics of one outcome is one step.
- Ocr2Exact.WithdrawPaymentExact: as `WithdrawFundsExact`, asks that the account paid not be the vault, that the vault be an account of the mint, and that the supply of the mint fits in 64 bits.
- Ocr2Solvency.PayOutExact: asks that no payee and not the receiver be the vault, that the vault be an account of the mint, and that the supply of the mint fits in 64 bits, so that no balance overflows by receiving.
- ComputeBudget.PriceReadBack: asks that instruction indices fit their 16 bits, which the transaction size limit guarantees.
- LogEvents.ExtractEvents: log lines are given as the three patterns classify them; the patterns themselves are not modelled.
- SHA-256, keccak, secp256k1, base58, base64 and regular expressions; the generated bindings; RPC clients, caches, metrics export, multinode, codecs, configuration and gauntlet.
