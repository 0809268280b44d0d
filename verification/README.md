# Verified model of NeuralMesh's settlement and scheduling core

NeuralMesh matches GPU jobs with providers, holds the consumer's credits in escrow while a job runs, and
settles on chain. These Dafny modules model the parts where a mistake would lose money, lose output or
never end, and prove what they promise over all inputs and all runs.

| modules | what they model |
|---|---|
| `Wrappers`, `Reals`, `Sums` | optional values, real arithmetic and sums over tables, shared by the others |
| `Bytes`, `Rlp`, `Eip1559`, `Abi`, `Oracle` | the hand-written Ethereum transaction encoder, with readers that invert it, up to the whole escrow call as a node decodes it |
| `NeuralMeshProgram`, `ProgramProofs`, `ProgramRuns`, `ProgramFlows` | the Solana escrow and bridge program as instructions over token accounts |
| `CoordinatorDb`, `CoordinatorService`, `Matching`, `EscrowRuns`, `MigrationRuns`, `WatcherPass`, `CoordinatorFlows` | the coordinator's tables, its handlers and loops, the reverse auction, job escrows, migration, and the heartbeat watcher |
| `CreditLedger`, `LedgerRuns` | the off-chain credit ledger, statement by statement, under any interleaving |
| `Utf8`, `JobLogs` | job logs and the client that follows them |
| `Milestones`, `Reputation` | GPU-hour rewards, trust scores and success rates |
| `Stun` | STUN endpoint discovery |

Code that changes state is a class whose methods are proved against functions on values; the theorems are
about those functions and about runs of them. Amounts that the Rust code keeps in `f64` are exact reals.
Integers of fixed width are bounded, and wrap, saturate or abort as the Rust code's do.
SQL is read as PostgreSQL: NULL absorbs arithmetic and meets no condition, GREATEST and LEAST skip it, an
UPDATE without a matching row changes nothing, and rows without a total order come in any order.

## What the code does that its comments do not say

- The access list is pushed as an empty string, 0x80, although the comment at
  ledger/src/on_chain/arbitrum.rs:134 says 0xC0. The model writes 0x80, the round trip is proved for that
  format, and `Eip1559.NeverStandard` shows that the payload is never the one of EIP-1559.
- A one-byte string below 0x80 gets a header, and r and s keep leading zeros; `Rlp.BytesMatchYellowPaperIff`
  and `Eip1559.SignatureWordStandardIff` say exactly when that departs from the standard.
- `nmc_to_wei_u128` accepts far more than the 18 billion its comment names: everything below 2^128 wei.
- `update_trust_score` does not compute completed jobs over all jobs (`Reputation.RatioKeptIff`).
- `cancel_escrow` does not look at who signed, so neither does its specification.

## Conditions of the theorems

- A Solana run starts before `initialize`, with any token accounts. The bridge nonce account and its first
  value are taken as given, because no instruction creates it. Release and cancel use the accounts recorded
  at creation. Between instructions wallets may transfer among themselves and open and close accounts.
  A vault's address is derived from the job identifier, so no wallet can open an account there.
- A handler of the coordinator is one step of its runs; the ledger's handlers interleave by statement.
- The escrow runs take fresh identifiers, costs that are not negative, assignments of queued jobs, and
  heartbeats of jobs in progress. The handlers do not check these; the `...Iff` lemmas say what happens
  otherwise. The migration runs take assignments of jobs without a provider and acknowledgements of jobs
  with one, and `MigrationRuns.AcknowledgeLoops` is what happens otherwise.
- The auction cycle is stated without another writer.
- Ledger interleavings take fresh identifiers and amounts and prices that are not negative.
- Lengths that a 64-bit `usize` or one Rust allocation cannot exceed are assumed not to.

## Model

| member | source | states |
|---|---|---|
| `Bytes.StripLeadingZeros` | ledger/src/on_chain/arbitrum.rs:192-212 | dropping the leading zeros of a fixed-width big-endian form leaves the canonical digits of the number, whatever the fallback position |
| `Bytes.BigEndianInverse` | ledger/src/on_chain/arbitrum.rs:192-196 | the shortest digit string has no leading zero and denotes the number it came from |
| `Bytes.CanonicalDigits` | ledger/src/on_chain/arbitrum.rs:192-212 | a digit string without a leading zero is the only such string of its value |
| `Bytes.ValueInverse` | ledger/src/on_chain/arbitrum.rs:81-86 | reading a fixed-width word and writing it again gives the same bytes |
| `Rlp.RlpAppendUint` | ledger/src/on_chain/arbitrum.rs:198-212 | the buffer grows by exactly the integer item; what was in it stays |
| `Rlp.RlpAppendBytes` | ledger/src/on_chain/arbitrum.rs:214-221 | the buffer grows by exactly the string item; what was in it stays |
| `Rlp.UintBytesAreCanonical` | ledger/src/on_chain/arbitrum.rs:192-196 | the length of a length is 1 to 8 bytes and is the canonical digit string |
| `Rlp.LengthForm` | ledger/src/on_chain/arbitrum.rs:181-190 | the length header is the header of the Yellow Paper (Appendix B) for base 0x80 |
| `Rlp.BytesForm` | ledger/src/on_chain/arbitrum.rs:214-221 | a string item is its Yellow Paper header followed by the data, with no exception for one low byte |
| `Rlp.ListForm` | ledger/src/on_chain/arbitrum.rs:223-234 | a list item is the Yellow Paper header for base 0xC0 followed by its contents |
| `Rlp.UintForm` | ledger/src/on_chain/arbitrum.rs:198-212 | an integer item is the canonical digits, bare when a single byte below 0x80, otherwise after a header |
| `Rlp.HeaderRange` | ledger/src/on_chain/arbitrum.rs:181-234 | header bytes never leave 0x80-0xBF for strings and 0xC0-0xFF for lists |
| `Rlp.PayloadIff` | ledger/src/on_chain/arbitrum.rs:181-234 | a strict header reader accepts exactly the written headers followed by that many bytes, before any suffix |
| `Rlp.BytesIff` | ledger/src/on_chain/arbitrum.rs:214-221 | string items are self-delimiting: the reader returns data and rest exactly when the input is the item of data followed by rest |
| `Rlp.ListIff` | ledger/src/on_chain/arbitrum.rs:223-234 | the same for lists |
| `Rlp.UintIff` | ledger/src/on_chain/arbitrum.rs:198-212 | the same for integers; non-canonical integers are refused |
| `Rlp.UintMatchesYellowPaper` | ledger/src/on_chain/arbitrum.rs:198-212 | integer items agree with the Yellow Paper for every u128 |
| `Rlp.BytesMatchYellowPaperIff` | ledger/src/on_chain/arbitrum.rs:214-221 | string items agree with the Yellow Paper exactly when the data is not one byte below 0x80 |
| `Eip1559.SigningPayload` | ledger/src/on_chain/arbitrum.rs:124-138 | the pushed bytes are the type byte followed by the list of the nine unsigned fields in order |
| `Eip1559.SignAndEncode` | ledger/src/on_chain/arbitrum.rs:143-176 | fails exactly when signing the payload fails; otherwise emits the twelve fields with the signature of that payload |
| `Eip1559.EncodeSigned` | ledger/src/on_chain/arbitrum.rs:154-175 | pushing twelve items one by one into the buffer gives the envelope of those items |
| `Eip1559.AppendItemsIsEncode` | ledger/src/on_chain/arbitrum.rs:125-133 | appending items to a growing buffer is concatenating their encodings |
| `Eip1559.ItemsIff` | ledger/src/on_chain/arbitrum.rs:154-169 | a reader of a field list accepts exactly the encodings of items of those kinds, and leaves exactly the rest |
| `Eip1559.EnvelopeIff` | ledger/src/on_chain/arbitrum.rs:171-175 | a reader of the typed envelope accepts exactly one envelope per item list and consumes every byte |
| `Eip1559.SignedRoundTrip` | ledger/src/on_chain/arbitrum.rs:143-176 | decoding returns x if and only if the bytes are the encoding of x: all twelve fields come back, nothing else is accepted, every byte is consumed |
| `Eip1559.PayloadInjective` | ledger/src/on_chain/arbitrum.rs:124-138 | different transactions never share a signing payload |
| `Eip1559.CommitsToPayload` | ledger/src/on_chain/arbitrum.rs:143-176 | decoding the signed bytes, dropping the last three items and encoding again gives exactly the payload that was signed |
| `Eip1559.StandardFieldsIff` | ledger/src/on_chain/arbitrum.rs:124-138 | all fields before the access list are standard RLP exactly when the calldata is not one byte below 0x80 |
| `Eip1559.NeverStandard` | ledger/src/on_chain/arbitrum.rs:132-134 | with the access list written as a string, the payload is never the standard payload, whatever list of entries the standard one would hold |
| `Eip1559.SignatureWordStandardIff` | ledger/src/on_chain/arbitrum.rs:150-151 | r or s as a fixed 32-byte string is the standard integer item exactly when its first byte is not zero |
| `Abi.AbiEncodeString` | ledger/src/on_chain/arbitrum.rs:41-57 | the pushed bytes are the offset word 32 followed by length, data and padding |
| `Abi.AbiEncodeStringUint256` | ledger/src/on_chain/arbitrum.rs:63-79 | the pushed bytes are the offset word 64, the value word, then length, data and padding |
| `Abi.PaddingFills` | ledger/src/on_chain/arbitrum.rs:54-55 | the padding completes the data to the next multiple of 32 and is shorter than a word |
| `Abi.Uint256Value` | ledger/src/on_chain/arbitrum.rs:81-86 | a word denotes the number it was made from |
| `Abi.StringUintRoundTrip` | ledger/src/on_chain/arbitrum.rs:63-79 | following the offset word gives the string, the second word the number; the length is 96 plus the data rounded up to 32 and the padding is zero |
| `Abi.StringRoundTrip` | ledger/src/on_chain/arbitrum.rs:41-57 | the same for a lone string, with length 64 plus the data rounded up |
| `Abi.StringUintInjective` | ledger/src/on_chain/arbitrum.rs:63-79 | equal encodings have equal strings and equal numbers |
| `Abi.StringInjective` | ledger/src/on_chain/arbitrum.rs:41-57 | equal encodings have equal strings |
| `Abi.NmcToWeiIsRounding` | ledger/src/on_chain/arbitrum.rs:90-103 | splitting whole and fraction loses nothing: the result is the integer nearest to 10^18 times the amount; refused exactly when negative or past 128 bits |
| `Oracle.SendTx` | ledger/src/on_chain/arbitrum.rs:407-452 | for every calldata and every answer of the node, the raw bytes decode to a transaction for that chain id and nonce, to the escrow address, with no value, that calldata, gas limit 150000, priority fee 10^8 and one and a half gas prices besides, signed over that very payload; the size always fits |
| `Oracle.ReleaseEscrow` | ledger/src/on_chain/arbitrum.rs:455-479 | end to end: an enabled oracle refuses exactly negative and too large amounts, otherwise sends exactly when the payload can be signed, and what a node decodes is a transaction with those fields that releases this job for the number of wei nearest to the amount |
| `Oracle.AcceptableIff` | ledger/src/on_chain/arbitrum.rs:90-103 | amounts are refused exactly from 2^128 wei, less half a wei for rounding |
| `Oracle.CancelEscrow` | ledger/src/on_chain/arbitrum.rs:482-496 | end to end: an enabled oracle sends exactly when the payload can be signed, and what a node decodes is a transaction with those fields that cancels this job |
| `Oracle.MaxFeeIff` | ledger/src/on_chain/arbitrum.rs:420-423 | the fee cap never falls below the priority fee, and is one and a half gas prices above it exactly when tripling the gas price does not wrap |
| `NeuralMeshProgram.Program.Initialize` | contracts/solana/programs/neuralmesh/src/lib.rs:54-71 | whole new state or the error and no change |
| `NeuralMeshProgram.Program.BridgeMint` | contracts/solana/programs/neuralmesh/src/lib.rs:74-110 | whole new state, or the error with the nonce rolled back |
| `NeuralMeshProgram.Program.BridgeBurn` | contracts/solana/programs/neuralmesh/src/lib.rs:113-135 | whole new state or the error and no change |
| `NeuralMeshProgram.Program.CreateEscrow` | contracts/solana/programs/neuralmesh/src/lib.rs:286-334 | whole new state, or the error with vault and escrow undone |
| `NeuralMeshProgram.Program.LockEscrow` | contracts/solana/programs/neuralmesh/src/lib.rs:337-345 | whole new state or the error and no change |
| `NeuralMeshProgram.Program.ReleaseEscrow` | contracts/solana/programs/neuralmesh/src/lib.rs:349-431 | whole new state after up to three transfers over possibly equal accounts, or the error and no change |
| `NeuralMeshProgram.Program.CancelEscrow` | contracts/solana/programs/neuralmesh/src/lib.rs:434-461 | whole new state or the error and no change |
| `NeuralMeshProgram.Program.UpdateConfig` | contracts/solana/programs/neuralmesh/src/lib.rs:464-478 | whole new state or the error and no change |
| `ProgramProofs.DistributeEffect` | contracts/solana/programs/neuralmesh/src/lib.rs:372-416 | whatever accounts coincide, the three payments succeed, each account changes by the sum of what it is owed and gives, and the total is unchanged |
| `ProgramProofs.FeeBound` | contracts/solana/programs/neuralmesh/src/lib.rs:358-361 | the fee is at most a tenth of the cost |
| `ProgramProofs.ReleaseEffect` | contracts/solana/programs/neuralmesh/src/lib.rs:349-431 | a permitted release succeeds and moves the three amounts of the state before it, whichever accounts coincide |
| `ProgramProofs.CreateKeepsInv` | contracts/solana/programs/neuralmesh/src/lib.rs:286-334 | creating keeps supply, backing and one vault per escrow |
| `ProgramProofs.CancelKeepsInv` | contracts/solana/programs/neuralmesh/src/lib.rs:434-461 | cancelling keeps them |
| `ProgramProofs.ReleaseKeepsInv` | contracts/solana/programs/neuralmesh/src/lib.rs:349-431 | releasing keeps them |
| `ProgramProofs.MintKeepsInv` | contracts/solana/programs/neuralmesh/src/lib.rs:74-110 | minting keeps them |
| `ProgramProofs.CloseKeepsInv` | contracts/solana/programs/neuralmesh/src/lib.rs:286-334 | closing an empty token account keeps them, the consumer's included |
| `ProgramProofs.BurnKeepsInv` | contracts/solana/programs/neuralmesh/src/lib.rs:113-135 | burning keeps them |
| `ProgramProofs.StepKeepsInv` | contracts/solana/programs/neuralmesh/src/lib.rs:54-478 | every instruction keeps them, whether it succeeds or not |
| `ProgramRuns.Conservation` | contracts/solana/programs/neuralmesh/src/lib.rs:74-461 | over every run, with any accounts aliased, balances sum to the initial supply plus total_minted minus total_burned, and each live escrow is covered by its vault |
| `ProgramRuns.VaultsExactIff` | contracts/solana/programs/neuralmesh/src/lib.rs:74-461 | over every run, with any accounts aliased, a vault holds what its escrow is owed (locked_nmc while open or locked, zero once settled or cancelled) plus what mints, transfers and other releases paid into it; so it is exact if and only if nothing was paid in |
| `ProgramRuns.VaultsExact` | contracts/solana/programs/neuralmesh/src/lib.rs:286-461 | in particular every vault is exact in a run that never pays into one |
| `ProgramRuns.MintIntoVault` | contracts/solana/programs/neuralmesh/src/lib.rs:74-110 | a concrete run whose open escrow holds more than is locked: a bridge message naming the vault |
| `ProgramRuns.ReleaseIff` | contracts/solana/programs/neuralmesh/src/lib.rs:349-431 | a release succeeds if and only if what the authority can check beforehand holds, the three token accounts being open among it: the vault never falls short and no destination overflows |
| `ProgramRuns.CancelIff` | contracts/solana/programs/neuralmesh/src/lib.rs:434-461 | a cancellation succeeds if and only if the escrow is open or locked and the consumer's token account is open |
| `ProgramRuns.ClosedAccountBlocks` | contracts/solana/programs/neuralmesh/src/lib.rs:349-461 | a consumer who locked a whole balance and closed the emptied account blocks both until the account is opened again |
| `ProgramRuns.EmptyAfterReleaseIff` | contracts/solana/programs/neuralmesh/src/lib.rs:349-431 | for one release, in terms of the state before it: the vault is empty after it exactly when it held no more than was locked and no payee is the vault itself |
| `ProgramRuns.NoOverflow` | contracts/solana/programs/neuralmesh/src/lib.rs:358-363 | no checked operation of a release aborts when locked_nmc times 1000 fits in 64 bits |
| `ProgramRuns.ReleasePays` | contracts/solana/programs/neuralmesh/src/lib.rs:358-421 | provider share plus fee plus refund is locked_nmc, the fee is at most a tenth of the cost, and each payee receives the sum of its parts |
| `ProgramRuns.StepOrder` | contracts/solana/programs/neuralmesh/src/lib.rs:286-461 | the only state changes are Open to Locked, Locked to Settled, and either to Cancelled; the terms of an escrow never change |
| `ProgramRuns.SettlesOnce` | contracts/solana/programs/neuralmesh/src/lib.rs:337-461 | in every run an escrow changes state at most twice after creation and never once settled or cancelled |
| `ProgramRuns.MintStep` | contracts/solana/programs/neuralmesh/src/lib.rs:74-110 | only an accepted bridge message moves the nonce and total_minted, and its amount is within the limit then in force |
| `ProgramRuns.BridgeTrace` | contracts/solana/programs/neuralmesh/src/lib.rs:74-110 | over every run accepted nonces are consecutive from the first expected, amounts respect the limit in force, total_minted grows by their sum |
| `ProgramRuns.ReplayRejected` | contracts/solana/programs/neuralmesh/src/lib.rs:83-86 | a nonce accepted once is refused after any further run, whoever sends it with whatever amount, and changes nothing |
| `ProgramFlows.StepFlow` | contracts/solana/programs/neuralmesh/src/lib.rs:74-461 | every instruction changes every account by what it pays in less what it takes out, and by nothing else, whichever accounts coincide |
| `ProgramFlows.RunFlow` | contracts/solana/programs/neuralmesh/src/lib.rs:74-461 | over every run an account ends with what it began with and the sum of those flows |
| `ProgramFlows.SpentByOwner` | contracts/solana/programs/neuralmesh/src/lib.rs:74-461 | a wallet's tokens are spent only on its own signature; a vault's only by the authority's release of its locked escrow or a cancellation while open or locked |
| `ProgramFlows.OwnersStay` | contracts/solana/programs/neuralmesh/src/lib.rs:286-334 | an account keeps its owner while open, is opened only for its owner or as an escrow's vault, and is closed only empty by its owner |
| `ProgramFlows.ReleasesAsAgreed` | contracts/solana/programs/neuralmesh/src/lib.rs:286-431 | after a creation, any run and a release of that job, the provider account named at creation gains cost less fee, the consumer account named then gains locked less cost, the collector the fee, coinciding ones the sum |
| `ProgramFlows.CancelsAsAgreed` | contracts/solana/programs/neuralmesh/src/lib.rs:286-461 | after a creation, any run and a cancellation, the account that paid gets the whole amount back |
| `ProgramFlows.LockedByProvider` | contracts/solana/programs/neuralmesh/src/lib.rs:337-345 | in any run only the provider named at creation locks the escrow, only the authority settles it, and only a cancellation of it cancels it |
| `ProgramFlows.ConfigStep` | contracts/solana/programs/neuralmesh/src/lib.rs:464-478 | the configuration is set once with a fee of at most a tenth, and afterwards only the authority changes fee and limit, exactly as asked |
| `ProgramFlows.AuthorityStays` | contracts/solana/programs/neuralmesh/src/lib.rs:54-71 | authority and fee collector stay those of the initialisation in every run |
| `ProgramFlows.OnlyAuthority` | contracts/solana/programs/neuralmesh/src/lib.rs:74-478 | after an initialisation every mint, release and update that succeeds in any run is signed by whoever signed it |
| `ProgramFlows.CreateIff` | contracts/solana/programs/neuralmesh/src/lib.rs:286-334 | a creation succeeds if and only if the job is new, its identifier at most 64 bytes, and the signer's own account holds the amount |
| `ProgramFlows.MintIff` | contracts/solana/programs/neuralmesh/src/lib.rs:74-110 | a bridge message is accepted if and only if the authority sends the next nonce within the limit and supply, minted total and nonce stay within 64 bits; a balance always does |
| `ProgramFlows.BurnIff` | contracts/solana/programs/neuralmesh/src/lib.rs:113-135 | a burn succeeds if and only if the owner signs, the account holds the amount and the burnt total stays within 64 bits; the supply never falls short |
| `CoordinatorService.Coordinator.SubmitJob` | coordinator/src/api/rest.rs:297-436 | whole new tables, or the refusal and no change |
| `CoordinatorService.Coordinator.FindLockedEscrow` | coordinator/src/api/rest.rs:470-490 | a row is found exactly when the job has a locked escrow |
| `CoordinatorService.Coordinator.CancelJob` | coordinator/src/api/rest.rs:438-509 | whole new tables for whichever locked row the sub-select returns, or the refusal and no change |
| `CoordinatorService.Coordinator.CreditFromStripe` | coordinator/src/api/rest.rs:1384-1470 | whole new tables, or the refusal and no change |
| `CoordinatorService.Coordinator.WithdrawTo` | coordinator/src/api/rest.rs:1648-1735 | whole new tables, or the refusal and no change |
| `CoordinatorService.Coordinator.Heartbeat` | coordinator/src/api/rest.rs:1599-1640 | whole new tables of a job heartbeat, which looks at no job state |
| `CoordinatorService.Coordinator.RecordCheckpoint` | coordinator/src/api/rest.rs:1484-1550 | whole new tables of a saved checkpoint |
| `CoordinatorService.Coordinator.AssignJob` | coordinator/src/matching/mod.rs:148-200 | whole new tables of an assignment, with one more restore attempt when there is a checkpoint |
| `CoordinatorService.Coordinator.FindBestProvider` | coordinator/src/matching/mod.rs:95-136 | none exactly when no provider meets the job; otherwise one that does, and no candidate, nor any provider it trusts no more, is a better bargain: twice the maximum price times the gain in trust never exceeds fifteen times the price difference |
| `CoordinatorService.Coordinator.RunAuctionCycle` | coordinator/src/matching/mod.rs:35-93 | the loop over the queue is a cycle in the sense of the theorems below, ending in the present tables |
| `CoordinatorService.Coordinator.RefundConsumerEscrow` | coordinator/src/matching/mod.rs:364-419 | whole new tables of a refund of whichever locked escrow the query returns |
| `CoordinatorService.Coordinator.MigrateOrFailJob` | coordinator/src/matching/mod.rs:278-362 | whole new tables of a re-queue or a failure with refund and penalty |
| `CoordinatorService.Coordinator.SelectStale` | coordinator/src/matching/mod.rs:243-262 | the snapshot holds exactly the leased providers silent beyond the timeout, each once |
| `CoordinatorService.Coordinator.CheckStaleProviders` | coordinator/src/matching/mod.rs:243-276 | the loop over the snapshot is a pass in the sense of the theorem below; a leased provider unseen for more than 120 seconds ends offline without a job and every other provider is as it was |
| `EscrowRuns.SubmitKeepsInv` | coordinator/src/api/rest.rs:297-436 | a submission keeps: one locked escrow per live job, escrowed sums, no negative balance |
| `EscrowRuns.SettleKeepsInv` | coordinator/src/matching/mod.rs:364-419 | ending a job and releasing its escrow keeps them and the accounts' total |
| `EscrowRuns.CancelKeepsInv` | coordinator/src/api/rest.rs:438-509 | a cancellation keeps them and the total |
| `EscrowRuns.DisconnectKeepsInv` | coordinator/src/matching/mod.rs:243-419 | a disconnect, with migration or failure, keeps them and the total |
| `EscrowRuns.CreditKeepsInv` | coordinator/src/api/rest.rs:1384-1470 | a purchase keeps them and adds its amount to the total |
| `EscrowRuns.WithdrawKeepsInv` | coordinator/src/api/rest.rs:1648-1735 | a withdrawal keeps them and takes its amount from the total |
| `EscrowRuns.NextKeepsInv` | coordinator/src/api/rest.rs:297-509 | every step keeps them and accounts for the total |
| `EscrowRuns.EscrowsMatchJobs` | coordinator/src/api/rest.rs:297-509 | over every run a job is live exactly when it has one locked escrow, escrowed_nmc is the sum of the account's locked escrows, available is never negative |
| `EscrowRuns.WorthConserved` | coordinator/src/api/rest.rs:297-509 | over every run all accounts together own what was credited less what was withdrawn |
| `EscrowRuns.RefundedOnce` | coordinator/src/matching/mod.rs:364-419 | over every run an escrow is refunded at most once, by cancellation and disconnect together |
| `EscrowRuns.SubmitKeepsInvIff` | coordinator/src/api/rest.rs:297-340 | an accepted submission keeps the invariant exactly when its cost is not negative (the handler checks no sign) |
| `EscrowRuns.AssignKeepsInvIff` | coordinator/src/matching/mod.rs:148-200 | an assignment keeps the invariant exactly when the job had not ended (the statement checks no state) |
| `EscrowRuns.HeartbeatKeepsInvIff` | coordinator/src/api/rest.rs:1604-1614 | a heartbeat keeps it exactly when it does not come from the provider of an ended job |
| `EscrowRuns.CancelNullsBalanceIff` | coordinator/src/api/rest.rs:466-490 | cancelling turns the consumer's balance into NULL exactly when the job has no locked escrow, as a job submitted over gRPC has |
| `CoordinatorFlows.SubmitRecords` | coordinator/src/api/rest.rs:297-436 | a submission is accepted if and only if the balance covers maximum price times duration in hours; exactly that moves to escrow, of this account only, and the job and escrow rows record the terms |
| `CoordinatorFlows.TermsStay` | coordinator/src/api/rest.rs:297-436 | over every run a job keeps its consumer, memory, maximum price and time of submission |
| `CoordinatorFlows.PickHonoursSubmission` | coordinator/src/matching/mod.rs:35-200 | whenever a later cycle picks a provider for a submitted job, it was available, has the memory asked for, asks at most the price offered, is leased to that job, and the price recorded is the price offered |
| `CoordinatorFlows.AcceptedIff` | coordinator/src/api/rest.rs:1384-1440 | a purchase is accepted if and only if authorized, positive and of a new session; a withdrawal if and only if positive, to a valid address and covered by the balance |
| `CoordinatorFlows.AddressForms` | coordinator/src/api/rest.rs:1656-1662 | for plain text the valid addresses are 42 characters with 0x in front, or 32 to 44 without |
| `CoordinatorFlows.OwnFlowsOnly` | coordinator/src/api/rest.rs:297-509 | over every run each account, available and escrowed together, has exactly what it bought less what it withdrew |
| `CoordinatorFlows.SecondDeliveryRefused` | coordinator/src/api/rest.rs:1404-1417 | once a payment session was credited, after any run a further delivery of it, for whatever account and amount, is refused as a duplicate and changes nothing |
| `CoordinatorFlows.CreditedOnce` | coordinator/src/api/rest.rs:1404-1440 | in any run a session is credited at most once |
| `CoordinatorFlows.CancelFrees` | coordinator/src/api/rest.rs:462-503 | after a cancellation the job is cancelled without a locked escrow, no provider names it, those that did are available, and no other provider changed |
| `CoordinatorFlows.CheckpointSavesJob` | coordinator/src/matching/mod.rs:278-362 | with a saved checkpoint and fewer than three restores, losing the provider re-queues the job with that checkpoint and leaves its escrow; otherwise it fails |
| `MigrationRuns.MigrationBounded` | coordinator/src/matching/mod.rs:148-323 | over every run, whoever else writes the tables, a job is re-queued at most 3 times and assigned at most 4 times and restore_attempts stays within 0 and 3; heartbeats, reports, cancellations and submissions by either door need no guard, assignments take jobs without a provider and acknowledgements jobs with one |
| `MigrationRuns.CheckpointStays` | coordinator/src/api/rest.rs:1484-1550 | over every run, guarded or not, checkpoint_url, once set, is never cleared |
| `MigrationRuns.NextKeepsTally` | coordinator/src/matching/mod.rs:148-323 | each guarded move keeps the tally of assignments and re-queues that a job row witnesses |
| `MigrationRuns.HeartbeatKeepsTally` | coordinator/src/api/rest.rs:1604-1614 | a job heartbeat keeps every tally, ended jobs included, because it asks for the job's own provider |
| `MigrationRuns.AcknowledgeKeepsTallyIff` | coordinator/src/api/grpc.rs:147-168 | an acknowledgement keeps the tally if and only if the job has a provider |
| `MigrationRuns.AssignKeepsTallyIff` | coordinator/src/matching/mod.rs:148-200 | an assignment counts as one if and only if the job has no provider |
| `MigrationRuns.AcknowledgeLoops` | coordinator/src/api/grpc.rs:147-168 | without that guard there is no bound: for every n there is a run that re-queues a checkpointed waiting job n times and leaves the jobs table as it was |
| `WatcherPass.RefundKeepsWorth` | coordinator/src/matching/mod.rs:364-419 | a refund changes no account's available plus escrowed and leaves escrowed covering its locked escrows |
| `WatcherPass.TurnDone` | coordinator/src/matching/mod.rs:255-276 | one turn extends what the pass has done so far by exactly one provider and at most one job |
| `WatcherPass.PassHandlesEveryRow` | coordinator/src/matching/mod.rs:243-419 | after the pass every provider of the snapshot is offline without a job, each of their jobs in progress is queued without provider or failed with its escrow released, each account's total is unchanged, and a job named twice is handled once |
| `WatcherPass.InvIsCovered` | coordinator/src/matching/mod.rs:243-276 | the tables of every run meet what the pass assumes |
| `WatcherPass.PassTakesSilentOnly` | coordinator/src/matching/mod.rs:243-276 | a pass takes a leased provider offline if and only if it was unseen for more than 120 seconds, and leaves every other as it was |
| `WatcherPass.HeartbeatProtects` | coordinator/src/api/rest.rs:1619-1628 | a job heartbeat protects its provider from the watcher for 120 seconds |
| `Matching.SelectOrdered` | coordinator/src/matching/mod.rs:36-52 | ORDER BY ... LIMIT: sorted, distinct, at most the limit, and anything left out is not smaller and only when full |
| `Matching.MaxByIsMax` | coordinator/src/matching/mod.rs:121-134 | the chosen candidate has the greatest score of the candidates |
| `Matching.ScoreMeansBargain` | coordinator/src/matching/mod.rs:138-146 | scores order providers within the price limit exactly as bargains do: twice the maximum price times the difference in trust against fifteen times the difference in price; with no positive maximum, trust alone |
| `Matching.ChoiceIsBest` | coordinator/src/matching/mod.rs:101-146 | every candidate is no better a bargain than the chosen one; a provider cut off by LIMIT 20 is better only if trusted strictly more than all twenty; none is chosen exactly when none is eligible |
| `Matching.CheapestOfEqualTrust` | coordinator/src/matching/mod.rs:101-146 | among eligible providers of the trust of the chosen one, cut off or not, none is cheaper |
| `Matching.MaxByIsLast` | coordinator/src/matching/mod.rs:121-134 | of equal scores the last row wins: every later row scores less |
| `Matching.CycleIsMaximalMatching` | coordinator/src/matching/mod.rs:35-93 | over any queue and table no provider gets two jobs, each pair meets RAM and price, a job left out has every suitable provider taken by earlier jobs, and at most 50 jobs, all queued, take part |
| `Matching.CycleIsEnvyFree` | coordinator/src/matching/mod.rs:35-136 | no provider left to later jobs is a better bargain than a job's own, except one cut off by the limit of twenty that is trusted more than all twenty candidates |
| `Matching.CycleRecords` | coordinator/src/matching/mod.rs:148-200 | after the cycle the tables record exactly the pairs of the matching and nothing else changed |
| `CreditLedger.Ledger.Deposit` | ledger/src/off_chain/handlers.rs:58-113 | a positive amount is added to that account alone, opened if need be, with one log entry; others are refused and change nothing |
| `CreditLedger.Ledger.WithdrawTo` | ledger/src/off_chain/handlers.rs:115-179 | granted exactly when positive and covered; then that account alone is debited, with one log entry |
| `CreditLedger.Ledger.LockEscrow` | ledger/src/off_chain/handlers.rs:181-227 | granted exactly when covered; then the amount moves from available to escrowed of that account alone and the escrow row is written |
| `CreditLedger.Ledger.ReleaseEscrow` | ledger/src/off_chain/handlers.rs:229-303 | the cost is the hourly price for the runtime in seconds over 3600, never more than was locked; the consumer gets back the rest, the provider 92 hundredths of the cost, no other account changes; not found changes nothing |
| `LedgerRuns.LedgerConserves` | ledger/src/off_chain/handlers.rs:58-303 | for every interleaving of statements, even with several releases of one escrow: available never negative, and available plus escrowed plus fees plus value in half-finished handlers is deposits minus withdrawals; the log adds up too |
| `LedgerRuns.EscrowedIsClaimedIff` | ledger/src/off_chain/handlers.rs:181-303 | for every interleaving, escrowed is what the account's never-debited escrows claim less what second and later debits took; so it equals the claims if and only if no escrow of a positive amount was debited twice |
| `LedgerRuns.EscrowedIsClaimed` | ledger/src/off_chain/handlers.rs:181-303 | with one release in flight per escrow none is debited twice, so escrowed is exactly the claims and never negative |
| `LedgerRuns.NextKeepsAccounted` | ledger/src/off_chain/handlers.rs:58-303 | each later statement of a handler keeps the books |
| `LedgerRuns.DebitKeepsExplained` | ledger/src/off_chain/handlers.rs:251-262 | a debit of the consumer lowers the row's term in the identity by the locked amount, whoever debited it before |
| `LedgerRuns.TwoReleasesDebitTwice` | ledger/src/off_chain/handlers.rs:229-303 | from every state with a locked escrow two releases can be interleaved so that escrowed falls by twice the locked amount |
| `LedgerRuns.DoubleReleaseDebitsTwice` | ledger/src/off_chain/handlers.rs:236-275 | two releases that read the row before either writes debit the consumer twice |
| `LedgerRuns.OwnFlowsOnly` | ledger/src/off_chain/handlers.rs:58-303 | in every interleaving each account has its deposits less withdrawals, less the costs of its own releases, plus 92 hundredths of the costs it is paid for |
| `LedgerRuns.ReleaseAlone` | ledger/src/off_chain/handlers.rs:229-303 | the four statements of a release together settle the escrow as the handler does, and the platform keeps eight hundredths of the cost |
| `LedgerRuns.CostFixedAtRead` | ledger/src/off_chain/handlers.rs:233-252 | the cost a release debits and shares out is fixed when it reads the row |
| `LedgerRuns.LockRecords` | ledger/src/off_chain/handlers.rs:181-227 | a granted lock is recorded with this consumer, provider and amount |
| `LedgerRuns.LogIsCash` | ledger/src/off_chain/handlers.rs:58-179 | in every interleaving an account's log, with entries still to be written, is its own deposits less its own withdrawals |
| `LedgerRuns.DoubleReleaseReachable` | ledger/src/off_chain/handlers.rs:229-303 | that happens in a run from empty tables and leaves a negative escrowed amount |
| `Utf8.Concat` | coordinator/src/api/rest.rs:563-580 | appending text to text is text, and the seam is a character boundary |
| `Utf8.CutIff` | coordinator/src/api/rest.rs:540-545 | slicing a string at an index is possible exactly at a character boundary, and both parts are text |
| `JobLogs.LogService.AppendJobLog` | coordinator/src/api/rest.rs:563-591 | the stored log grows by the text; empty text and unknown jobs change nothing |
| `JobLogs.LogService.GetJobLogs` | coordinator/src/api/rest.rs:519-553 | the reply of a poll, including the panic of a cut inside a character |
| `JobLogs.LogService.StreamLogs` | cli/src/commands/job.rs:320-349 | for every schedule the loop ends as its run does; the text printed is a prefix of the stored log and whole characters |
| `JobLogs.StreamingIsLossless` | coordinator/src/api/rest.rs:519-592 | for every interleaving of appends and polls the printed text is the first offset bytes of the stored log, offset is a valid cut, and the next poll cannot panic |
| `JobLogs.ReplyMatchesClient` | coordinator/src/api/rest.rs:534-552 | a reply says complete exactly for complete, failed and cancelled jobs, names the offset the client computes, and a missing job stops the client with nothing printed |
| `JobLogs.FinalPollIff` | cli/src/commands/job.rs:320-349 | the first delivered poll after the end stops the loop with the log of that moment printed; that is the whole log exactly when nothing is appended later |
| `JobLogs.WholeLogPrintedOnce` | coordinator/src/api/rest.rs:519-592 | if all appends precede the terminal state, a loop that ends has printed the whole log once |
| `JobLogs.CancelledJobLosesItsLog` | coordinator/src/api/rest.rs:438-465 | a job cancelled while its agent runs: the client stops and the agent's final push is never printed |
| `Milestones.RewardService.ReportCompletion` | coordinator/src/api/grpc.rs:171-287 | whole new state after the reward loop |
| `Milestones.RewardService.IssueRewards` | coordinator/src/api/grpc.rs:211-285 | the loop issues exactly the milestones from the claimed count to the earned count, in order |
| `Milestones.MilestonesFollowTotalIff` | coordinator/src/api/grpc.rs:192-287 | over every sequence of reports from no records the recorded milestones are exactly 8, 16, up to 8 times floor(total/8) if and only if those hours fit 32 bits, and then each was requested from the ledger once, in order |
| `Milestones.SecondsEarnIff` | coordinator/src/api/grpc.rs:192-287 | from nothing, n reported seconds earn n / 28800 milestones, recorded as 8, 16, ... hours, and 50 credits for each, if and only if the last one's hours fit 32 bits |
| `Milestones.ReportMarksJob` | coordinator/src/api/grpc.rs:178-189 | a report completes its job exactly on exit code 0 and fails it otherwise, with the runtime reported, and touches no other job |
| `Milestones.SplitDoesNotMatter` | coordinator/src/api/grpc.rs:192-287 | two ways to split the same hours over reports give the same records and the same requests |
| `Milestones.UnknownProviderEarnsNothing` | coordinator/src/api/grpc.rs:192-211 | without a provider row or name nothing is rewarded |
| `Milestones.MultiplesAreDistinct` | coordinator/src/api/grpc.rs:215-224 | counting the records gives the number of milestones claimed |
| `Milestones.AwardLeavesOthers` | coordinator/src/api/grpc.rs:226-285 | rewarding one provider changes no other provider's records or requests |
| `Reputation.ReputationService.UpdateTrustScore` | coordinator/src/api/rest.rs:1350-1373 | the provider row changes as the statement says and no other row |
| `Reputation.ReputationService.CompleteJob` | coordinator/src/api/rest.rs:1208-1232 | the count and the rating are updated in that order, for that provider only |
| `Reputation.ReputationService.FailJob` | coordinator/src/api/rest.rs:1310-1322 | a failure rates the provider only when it is slashed |
| `Reputation.BoundsHold` | coordinator/src/api/rest.rs:1350-1373 | trust stays in [0, 5] and success_rate in [0, 1] after every statement of every interleaving of completions, slashed failures and disconnects |
| `Reputation.DisconnectionIsOneStatement` | coordinator/src/matching/mod.rs:348-355 | the penalty for a disconnect is the one the watcher applies |
| `Reputation.TrustMoves` | coordinator/src/api/rest.rs:1350-1356 | a completion raises trust by 0.05 up to 5, a slashed failure lowers it by 0.3 and a disconnect by 0.2, down to 0 |
| `Reputation.CompletionsRaise` | coordinator/src/api/rest.rs:1350-1356 | over a run of completions trust rises by 0.05 each until it is 5 |
| `Reputation.FaultsLower` | coordinator/src/api/rest.rs:1350-1356 | over a run without completions trust falls by 0.3 for each slashed failure and 0.2 for each disconnect until it is 0 |
| `Reputation.EventMissing` | coordinator/src/api/rest.rs:1208-1370 | a completion leaves jobs_completed times (1 - success_rate) unchanged; a slashed failure adds the old rate once jobs_completed is positive |
| `Reputation.RunMissing` | coordinator/src/api/rest.rs:1208-1370 | over every run of whole handlers that quantity is what the failures added, and the bounds hold |
| `Reputation.PerfectIff` | coordinator/src/api/rest.rs:1350-1373 | a rate of one is lost over a run exactly by a slashed failure after the first completion |
| `Reputation.FirstCompletionForgets` | coordinator/src/api/rest.rs:1355-1364 | a failure before the first completion sets the rate to 0, and the first completion sets it to 1 whatever failed before |
| `Reputation.OverlappingCompletionsIff` | coordinator/src/api/rest.rs:1208-1232 | two completions whose statements overlap keep the quantity exactly when the rate was one |
| `Reputation.RatioKeptIff` | coordinator/src/api/rest.rs:1346-1364 | once a job was completed, a slashed failure never keeps the rate equal to completed jobs over all jobs, and a completion keeps it if and only if nothing had failed |
| `Reputation.RateIsNotTheRatio` | coordinator/src/api/rest.rs:1346-1349 | the rate is not completed jobs over all jobs: one of each gives 0 |
| `Stun.ParseStunResponse` | crates/nm-wireguard/src/nat.rs:69-102 | the loop over the buffer, with every read guarded, computes the walk and ends |
| `Stun.BuildStunRequest` | crates/nm-wireguard/src/nat.rs:53-66 | the array is the fixed eight bytes followed by the twelve random ones |
| `Stun.XorUndone` | crates/nm-wireguard/src/nat.rs:86-88 | exclusive or with the cookie undoes itself |
| `Stun.WalkSkips` | crates/nm-wireguard/src/nat.rs:76-100 | the walk steps over any unrelated padded attributes whole |
| `Stun.CutDatagram` | crates/nm-wireguard/src/nat.rs:76-100 | for a datagram cut after k bytes of its first address attribute: no address below 4, out of bounds from 4 to 11, found from 12 |
| `Stun.WellFormedAnswers` | crates/nm-wireguard/src/nat.rs:69-102 | on every well-formed answer nothing is read out of bounds, and no address is reported exactly when there is none |
| `Stun.AddressRecoveredIff` | crates/nm-wireguard/src/nat.rs:82-91 | after unrelated attributes an XOR-MAPPED-ADDRESS is read back as it was encoded if and only if it is IPv4 (the family byte is not looked at) |
| `Stun.PlainRecoveredIff` | crates/nm-wireguard/src/nat.rs:92-97 | after unrelated attributes a MAPPED-ADDRESS is read back as it was encoded if and only if it is IPv4 |
| `Stun.RequestIsAHeader` | crates/nm-wireguard/src/nat.rs:53-66 | the request is a header with the magic cookie announcing no attributes, and parses as one without an address |

## Left out

- Keccak, ECDSA, Ed25519 and the other cryptography: a signature is any partial function of the payload, a selector any four bytes.
- JSON-RPC, HTTP, gRPC, NATS and database failures: a statement succeeds, and a lost request is a step that does not happen.
- Rounding, NaN and infinity of `f64`.
- `complete_job` and `fail_job` on consumer balances (coordinator/src/api/rest.rs:1193-1206 and 1295-1308): they do not consult the escrow row, so they do not keep the escrow invariant; the ledger's release is modelled as the settlement.
- `evict_stale_providers` and provider heartbeats that overwrite lease columns: writers outside the auction cycle and the watcher pass; liveness of migration is not claimed.
- Columns that no theorem speaks of: earned and spent totals, balance_after, the coordinator's transactions table, job texts, hashes and timestamps other than created_at and last_seen.
- The derivation of addresses other than vaults and its limit on the length of a seed, timestamps, price_per_hour, the deadline (set but never checked), and the NFT part of `register_provider` in the Solana program.
- Which checkpoint is the latest after a restore: iterations restart at zero in each agent, so the largest is not the newest.
- Milestones.SplitDoesNotMatter: reports are processed one at a time; two at once may both request the same milestone, though it is recorded once.
- JobLogs.LogService.StreamLogs: follows a finite schedule of rounds, because the client's loop has no bound of its own; the text lines around the log are left out.
- Reputation.ReputationService.CompleteJob: only the reputation columns; the trust column is taken as never NULL, which its default ensures.
- The Python SDK, dashboard, CLI display, GPU tables, configuration, key exchange and the relay fallback.
