# The Hathor bridge federator, verified

A federator moves tokens between an EVM chain and Hathor. Several of them watch both chains and
agree, through a ledger contract, on one Hathor proposal per transfer: somebody proposes a
transaction, others sign it, somebody pushes it to Hathor with enough signatures and records that
it was sent. This project models that off-chain program in Dafny and proves what it keeps: who
may be paid how much, what every interleaving of federators preserves, when a transfer gets done
and when it never will, and what the two block scanners may claim with their checkpoints.

| file | what it models |
|---|---|
| `Amounts.dfy` | the two amount conversions, on digit texts |
| `Utxo.dfy` | Hathor transactions, authorities, per-token and per-address sums |
| `TokenData.dfy` | the two readings of a Hathor deposit |
| `EvmBroker.dfy`, `HathorBroker.dfy` | which proposals the two brokers accept |
| `Protocol.dfy` | the proposal protocol as a transition system, one remote call a step |
| `Broker.dfy`, `Outcomes.dfy` | `sendTokens` and its helpers as methods over shared state, refining the protocol step by step; what their results mean |
| `Quorum.dfy`, `Progress.dfy`, `Fairness.dfy`, `Solvency.dfy` | what holds of all runs of the protocol |
| `SolvencyLimits.dfy`, `ProgressLimits.dfy` | runs that reach the bounds, and runs that break what has no bound |
| `Paging.dfy` | pages and batches of blocks |
| `Scanner.dfy`, `CheckpointSafety.dfy`, `ExactlyOnce.dfy`, `Handover.dfy`, `FederatorHTR.dfy` | the scanner of Cross events: its actions, its histories, what a run hands over, and the class with its loops |
| `MultisigManager.dfy` | the scanner of ledger events |
| `Votes.dfy` | votes on the EVM federation contract and the file of reverted votes |
| `Scripts.dfy`, `TransactionIds.dfy` | the data-script parser; padding of words, and stable ids |
| `Sums.dfy`, `Wrappers.dfy` | sums over sequences; Option and Result |

`dafny verify dfyconfig.toml` checks everything.

## The environment

The contracts and Hathor appear as a few assumed operations: the hex first proposed for an id
stays; a signature is appended for its sender; an id becomes processed by an update with
`sent = true`; a push that spends a spent output fails; a vote that succeeds is on record as this
federator's. The hash behind an id is an injective tuple. What the wallet, the EVM node and the
ledger answer is arbitrary, and any remote call may fail. Chains are fixed logs. A run of a
scanner may be cut off after any number of its actions, which is what an exception or a crash
looks like from outside.

## Where the code falls short

Where the code does less than its purpose suggests, the model keeps it as it is, with a concrete
case and the exact condition under which the property does hold.

- **Solvency.** Validation looks at the first Cross event of a transaction only
  (`EvmBroker.ts:53`). `SolvencyLimits.SolventIff` says exactly which chains are solvent: those
  where the quotas of the distinct event ids, each the converted amount of the first event of its
  transaction, come to no more than what was deposited. `SolvencyLimits.SecondEventBreaksSolvency`
  mints 2000 for 1001 on a chain that is not. Validation does not look at outputs of other tokens
  that the wallet calls its own (`Broker.ts:522-532`), and not at other tokens at all when melting
  (`HathorBroker.ts:58-80`), so all this is about runs in which no acceptable draft mints on the
  side: without that no chain is solvent (`SolvencyLimits.SideMintBreaksEveryChain`).
- **Progress.** A push that Hathor took but whose pusher did not record it leaves the id
  unprocessed for good, since later pushes fail on spent inputs and record `sent = false`
  (`Broker.ts:276-306`): `Progress.RecordedOrNever`, with a run in
  `ProgressLimits.PushedButNeverProcessed`. From every other reachable state, with enough members,
  every fair run gets there: `Fairness.FairRunProcesses`.
- **Results of calls.** A ledger transaction that is mined without success is only logged
  (`Broker.ts:243-246`, `Broker.ts:317-320`), so `sendTokens` returns true although nothing was
  recorded: exactly when, `Outcomes.SignOutcome`, `Outcomes.PushOutcome` and
  `Outcomes.ProposeOutcome` say.
- **Exact payment.** The per-address sum counts authority outputs by their bit mask
  (`Broker.ts:469-481`): `EvmBroker.AuthorityCountsAsAmount`, and exactly when not:
  `EvmBroker.TransferPaysExactly`.
- **Round trip of amounts.** The way out to the EVM always multiplies by 10^16
  (`utils.ts:229-235`), so the round trip returns the amount exactly for tokens of 18 decimals:
  `Amounts.HathorRoundTrip`.
- **The ledger scanner's checkpoint.** With one new block the early return skips the block and
  the save goes past it (`HathorMultisigManager.ts:71`, `:87-90`), and whatever throws inside a
  batch is logged, the rest of the batch dropped, and the checkpoint saved all the same
  (`HathorFederationLogsReader.ts:290-302`). `MultisigManager.HandledIff` says exactly which
  events up to the checkpoint were handled, `MultisigManager.PassedForGood` that the others never
  will be; `GapLosesBlock` and `SwallowedFailureLosesEvent` are two such runs.
- **Scripts.** A first byte of 77 to 255 is one kind of header to one function and another to the
  other (`scripts.ts:12-87`): `Scripts.ParsedExactly` says what is then returned.
- **Padding.** A prefix counts towards the 64 characters (`IHathorFederationV1.ts:184-194`), so 62
  or 63 prefixed digits are not padded: `TransactionIds.PaddingIsFullIff`.
- **Votes that fail.** The entry to be written for a failed vote contains the amount, which is a
  `bigint`; `JSON.stringify` throws on those unless the runtime gives them a `toJSON`, and nothing
  in the repository does (`FederatorHTR.ts:389-406`, `types/federator.ts:92`). So a failed vote is
  not remembered and is sent again: `Votes.FailedVoteIsSentAgain`, with `Votes.SentOnceIff` and
  `Votes.ResentIff` for the exact condition. Calls that overlap, which an unawaited call makes
  possible (`HathorBroker.ts:156`), lose entries even then: `Votes.EntryLostIff`.

## Model

| member | source | states |
|---|---|---|
| Amounts.ConversionDivides | federator/src/lib/utils.ts:238-262 | on every digit text and for every number of decimals, cutting digits is integer division by 10^(decimals-2), or by 1 below two decimals, and it throws when and only when the quotient is zero |
| Amounts.ConvertCanonical | federator/src/lib/utils.ts:238-262 | the same on canonical decimal text, telling the two exceptions apart |
| Amounts.ConversionLoss | federator/src/lib/utils.ts:238-262 | what is converted never exceeds what was there and misses less than one unit |
| Amounts.HathorRoundTrip | federator/src/lib/utils.ts:229-262 | a positive amount to EVM and back is itself if and only if the token has 18 decimals |
| Amounts.EvmRoundTrip | federator/src/lib/utils.ts:229-262 | EVM to Hathor to EVM at 18 decimals creates nothing and loses less than 10^16 |
| Utxo.GetTransactionInfo | federator/src/lib/Broker/Broker.ts:537-564 | the two loops compute, for any transaction, a balance for exactly the tokens that move, equal to non-authority outputs minus inputs |
| Utxo.AuthorityBit | federator/src/lib/Broker/Broker.ts:572-574 | an output or input is an authority iff bit 7 of its token data is set, whatever the other bits |
| Utxo.MintAndMeltBits | federator/src/lib/Broker/Broker.ts:582-594 | an authority is for minting iff bit 0 of its value is set and for melting iff bit 1 is, each whatever the other |
| Utxo.InfoOfMeaning | federator/src/lib/Broker/Broker.ts:537-594 | balances, canMint and canMelt token by token: mint iff an input authority has the mint bit, melt iff one has the melt bit and not the mint bit |
| Utxo.InfoIgnoresOrder | federator/src/lib/Broker/Broker.ts:537-564 | the result is the same for any order of inputs and outputs |
| Utxo.SumByAddressAndToken | federator/src/lib/Broker/Broker.ts:469-481 | the loop computes for every address:token key that occurs the total value of its outputs, authorities included |
| Utxo.KeyInjective | federator/src/lib/Broker/Broker.ts:471 | the textual keys tell addresses and tokens apart as long as token ids have no colon |
| TokenData.CollectTokens | federator/src/lib/Broker/Broker.ts:490-520 | the accumulating loop returns nothing for no output, the total if all outputs share token and address, and throws otherwise |
| TokenData.ArrivalReadingIs | federator/src/types/HathorTx.ts:32-56 | from the transaction alone: a deposit is read iff some MultiSig output of a token exists, all of them agree on token and address, the amount is their total, and the sender is the address of the first input of the token; nothing is read iff there is none |
| TokenData.ValidationReadingIs | federator/src/lib/Broker/Broker.ts:490-520 | the same for the reading at validation, of unspent outputs with a null timelock only |
| TokenData.ReadingFails | federator/src/lib/Broker/Broker.ts:501-515 | reading an address of no input is the exception exactly when the first output that counts has no input of its token |
| TokenData.ReadingsAgree | federator/src/types/HathorTx.ts:32-56 | a deposit read on arrival is read at validation with the same token, sender and receiver and no larger amount, or not found; the readings are equal iff no MultiSig output is spent or timelocked |
| EvmBroker.MintAcceptance | federator/src/lib/Broker/EvmBroker.ts:42-103 | a mint is accepted iff a mint authority is spent, net creation equals the converted event amount, that is positive, and no foreign token leaves |
| EvmBroker.TransferAcceptance | federator/src/lib/Broker/EvmBroker.ts:42-103 | a transfer is accepted iff the token moves, its supply stays, the receiver's key adds up to the positive converted amount, and no foreign token leaves |
| EvmBroker.EventFound | federator/src/lib/Broker/EvmBroker.ts:44-58 | the event that validation looks at is the first one of the transaction in its block, and there is none iff the node does not know the transaction or the block has no such event |
| EvmBroker.AcceptanceIff | federator/src/lib/Broker/EvmBroker.ts:42-103 | with nothing presupposed: a proposal is accepted iff there is a first event and the proposal mints or transfers what it says; the result is false iff there is none, and any other refusal is an exception |
| EvmBroker.RefusalOf | federator/src/lib/Broker/EvmBroker.ts:70-98 | which exception a refused proposal meets, by the first check that fails |
| EvmBroker.KeyTotalSplits | federator/src/lib/Broker/Broker.ts:469-481 | the per-address sum is the token amounts paid plus the bit masks of authorities sent there |
| EvmBroker.TransferConserves | federator/src/lib/Broker/EvmBroker.ts:89-99 | in an accepted transfer the receiver and all others together get what was spent, and the receiver's part differs from the converted amount by the authorities sent to it |
| EvmBroker.TransferPaysExactly | federator/src/lib/Broker/EvmBroker.ts:89-99 | the receiver of an accepted transfer gets exactly the converted amount iff no authority of the token goes to its address |
| EvmBroker.AuthorityCountsAsAmount | federator/src/lib/Broker/EvmBroker.ts:95-99 | a concrete proposal accepted for 100 that pays 99 |
| HathorBroker.DepositMeaning | federator/src/lib/Broker/Broker.ts:490-520 | a deposit read at validation is the total of all unspent, un-timelocked MultiSig outputs, all of one token and one address, and there is one |
| HathorBroker.MeltAcceptance | federator/src/lib/Broker/HathorBroker.ts:30-81 | in terms of the two transactions: a melt is accepted iff the original exists, is unprocessed, of version 1 and not voided, its available MultiSig outputs make a deposit, a pure melt authority of the token is spent, and exactly the deposit's positive amount is destroyed; the result is false iff there is no original or the transfer is processed |
| HathorBroker.RefusalOf | federator/src/lib/Broker/HathorBroker.ts:50-78 | which exception a refused melt meets, by the first check that fails |
| HathorBroker.MeltOfArrivalPasses | federator/src/lib/Broker/HathorBroker.ts:58-80 | a melt drawn up for the amount read on arrival is accepted iff no MultiSig output has since been spent or is timelocked |
| Protocol.UninterruptedCall | federator/src/lib/Broker/Broker.ts:88-321 | the transition system run by one federator alone with the same answers all along has exactly the effect of SendTokens, the call in one piece |
| Protocol.CallIsARun | federator/src/lib/Broker/Broker.ts:88-321 | every whole call, whichever of its remote calls fail, is a stretch of a run that changes no other federator's place |
| Protocol.EventIdTells | federator/src/lib/Broker/EvmBroker.ts:28-39 | two events share an id iff they agree in token, transaction, amount, sender and receiver; the id's type is a mint iff the token is EVM-native |
| Broker.Broker.SendTokens | federator/src/lib/Broker/Broker.ts:88-166 | ends with the ledger and the result that the transition system gives step by step, whatever the outside answers to each remote call and wherever one fails |
| Broker.Broker.SendProposal | federator/src/lib/Broker/Broker.ts:168-205 | the same from validating the draft on: false for a validation that returns false, an exception for one that throws, and a proposal sent without looking at its receipt |
| Broker.Broker.SignProposal | federator/src/lib/Broker/Broker.ts:207-247 | the same from validating the proposed hex on: an exception unless it validates, and no exception for a signature that is not mined with success |
| Broker.Broker.PushProposal | federator/src/lib/Broker/Broker.ts:249-321 | the same from counting signatures on |
| Broker.Broker.PushAndRecord | federator/src/lib/Broker/Broker.ts:276-320 | the same from the push on: an update with sent = false for spent inputs, an exception for any other trouble with the push |
| Outcomes.SignOutcome | federator/src/lib/Broker/Broker.ts:130-146 | a federator's turn to sign: it returns true iff everything up to sending the signature goes through and throws otherwise; the signature is on the ledger iff moreover its receipt is a success |
| Outcomes.ProcessedOutcome | federator/src/lib/Broker/Broker.ts:106-110 | a call for a processed id touches nothing and returns true, or throws if its first question does |
| Outcomes.ProposeOutcome | federator/src/lib/Broker/Broker.ts:148-166 | nothing proposed yet: which calls return true, false or nothing and which throw; the draft is on the ledger iff it was sent by a federator of order 1 and its receipt is a success |
| Outcomes.PushOutcome | federator/src/lib/Broker/Broker.ts:106-128 | a federator that has signed: it returns true iff signatures are missing or an update was sent; Hathor took the push, and its inputs are spent, iff it was sent, its inputs were unspent and Hathor accepted; the id is processed iff moreover the wallet's answer arrived and the update's receipt is a success |
| Broker.Broker.GetSignaturesFromArray | federator/src/lib/Broker/Broker.ts:457-467 | the loop returns the ledger's list of signatures, in order |
| Quorum.QuorumSafety | federator/src/lib/Broker/Broker.ts:106-321 | in every reachable state, a pushed hex is the one proposed for its id, carries exactly the first required signatures, of that hex and by distinct federators, and was validated at propose, at each of those signatures and at push |
| Quorum.PushedAtMostOnce | federator/src/lib/Broker/Broker.ts:276-321 | no two pushes spend the same output, so an id whose proposal spends anything is pushed at most once under any interleaving |
| Quorum.ProcessedWasPushed | federator/src/lib/Broker/Broker.ts:276-321 | an id is marked processed only after its proposal was pushed |
| Quorum.StepKeepsInv | federator/src/lib/Broker/Broker.ts:88-321 | every step of every federator keeps the invariant on ledger and program counters |
| Progress.MeasureNeverGrows | federator/src/lib/Broker/Broker.ts:88-321 | no action of anybody, complete or cut short, on any id undoes progress |
| Progress.CallMeasure | federator/src/lib/Broker/Broker.ts:106-166 | an uninterrupted call that goes well lowers the measure by exactly one if its federator is effective and leaves it unchanged otherwise |
| Progress.SomeoneIsEffective | federator/src/lib/Broker/Broker.ts:106-166 | with a proposer and enough members, some member's next call gets something done |
| Progress.RecordedOrNever | federator/src/lib/Broker/Broker.ts:276-321 | a pushed, unprocessed id can still become processed iff the federator that pushed it has yet to record that |
| ProgressLimits.PushedButNeverProcessed | federator/src/lib/Broker/Broker.ts:276-321 | a run of one federator whose update fails after the push, after which no continuation processes the id |
| Fairness.StaysOnItsWay | federator/src/lib/Broker/Broker.ts:88-321 | remote calls that go well for an id, and any for other ids, keep that whatever was pushed is recorded or about to be |
| Fairness.HelperGetsAhead | federator/src/lib/Broker/Broker.ts:88-321 | in any stretch of interleaved remote calls either something gets done or an effective federator gets one call closer to it with each of its turns, from wherever it was in a call |
| Fairness.RoundBringsProgress | federator/src/lib/Broker/Broker.ts:88-321 | a stretch in which every member makes 15 remote calls for the id, in any interleaving, lowers what is left to do |
| Fairness.FairRoundsProcess | federator/src/lib/Broker/Broker.ts:88-321 | as many such stretches as there is left to do, at most threshold + 3, process the id, whatever answers each call gets and whatever else happens, as long as the calls for this id go well |
| Fairness.FairRunProcesses | federator/src/lib/Broker/Broker.ts:88-321 | so from every reachable state, the middle of calls included, in which no push was left unrecorded |
| Solvency.MintIsBackedIff | federator/src/lib/Broker/EvmBroker.ts:53-88 | an accepted mint is backed by its own deposit iff the event that validation finds converts to no more than that deposit |
| Solvency.ProcessedMeltIsNotApproved | federator/src/lib/Broker/HathorBroker.ts:40-45 | once a melt is processed no validation of it succeeds any more, at any stage of any call |
| Solvency.MintedAtMost | federator/src/lib/Broker/Broker.ts:88-321 | in every reachable state of every interleaving without side mints, no more of an EVM-native token's twin was ever minted than the quotas of the distinct event ids |
| SolvencyLimits.MostMintableIsReached | federator/src/lib/Broker/EvmBroker.ts:42-103 | on every chain some run mints exactly that much |
| SolvencyLimits.SolventIff | federator/src/lib/Broker/EvmBroker.ts:42-103 | minted * 10^(decimals-2) never exceeds what was deposited, over all such runs, iff the quotas times 10^(decimals-2) do not |
| Solvency.SolvencyHolds | federator/src/lib/Broker/Broker.ts:88-321 | so it does not on chains where the first event of each transaction speaks for all of them |
| Solvency.OneEventPerTransactionSpeaks | federator/src/lib/Broker/EvmBroker.ts:49-58 | as on chains with at most one Cross event per transaction and no shared twin |
| SolvencyLimits.SecondEventBreaksSolvency | federator/src/lib/Broker/EvmBroker.ts:53 | a run that mints 2000 for 1001, by two events in one transaction |
| SolvencyLimits.SideMintBreaksSolvency | federator/src/lib/Broker/Broker.ts:522-532 | a run on a chain whose first events speak that mints a token never deposited, on the side of another mint |
| SolvencyLimits.SideMintBreaksEveryChain | federator/src/lib/Broker/HathorBroker.ts:58-80 | on every chain and for every token a run with a side mint mints more than was deposited |
| Paging.PagingIsExact | federator/src/lib/HathorMultisigManager.ts:93-146 | for all from < to, pages ask for each block once and in order, at most 451 at a time; cut into batches, at most 450, as far as the stretched end; all but the last page and the last batch are of exactly 450 |
| Paging.BatchesAreExact | federator/src/lib/HathorFederationLogsReader.ts:281-306 | the batches of a range ask for each of its blocks once and in order, none larger than the batch size |
| Paging.PagesAreBatches | federator/src/lib/HathorMultisigManager.ts:93-146 | pages cut into batches are the batches of the whole range, however far the last page is stretched |
| FederatorHTR.FederatorHTR.GetLastBlock | federator/src/lib/Federator.ts:80-92 | the file's block, or the configured start if that is later or the file is missing |
| FederatorHTR.FederatorHTR.SaveProgress | federator/src/lib/Federator.ts:186-190 | writes the file unless the value is zero |
| FederatorHTR.FederatorHTR.ProcessLog | federator/src/lib/FederatorHTR.ts:188-283 | performs the actions specified for the event; throws on a token neither mapped nor allowed, and otherwise only if something it calls throws |
| FederatorHTR.FederatorHTR.ProcessLogs | federator/src/lib/FederatorHTR.ts:317-332 | handles the logs in order up to the first that throws |
| FederatorHTR.FederatorHTR.GetLogsAndProcess | federator/src/lib/FederatorHTR.ts:126-176 | performs the specified page actions in order, all of them or up to the point where it threw; the file is what those actions make of it |
| FederatorHTR.FederatorHTR.Run | federator/src/lib/FederatorHTR.ts:45-124 | performs the two passes of the specification, all or up to the throw; returns true iff the node is in sync and one of the passes has a positive block beyond the checkpoint |
| FederatorHTR.RunExtendsHistory | federator/src/lib/FederatorHTR.ts:45-124 | whatever Run did continues a history by one attempt, cut short only if it threw, so the lemmas about histories are about the class |
| CheckpointSafety.CheckpointIsSafe | federator/src/lib/FederatorHTR.ts:85-176 | at every point of every sequence of runs, cut off anywhere, each event after the start and up to the checkpoint was handed over |
| CheckpointSafety.CheckpointNeverDecreases | federator/src/lib/FederatorHTR.ts:85-176 | no further run, cut off anywhere, takes the checkpoint back |
| CheckpointSafety.RefusedEventHoldsCheckpoint | federator/src/lib/FederatorHTR.ts:220-230 | an event of a token neither mapped nor allowed keeps the checkpoint short of its block for good |
| CheckpointSafety.DeliveriesAreDeep | federator/src/lib/FederatorHTR.ts:246-269 | with ordered confirmations, no event is handed over below the depth its amount needs, in either pass of any run |
| Handover.HandedOverIff | federator/src/lib/FederatorHTR.ts:75-124 | exactly what a run that is not cut short hands over in each pass, in block numbers, amounts and limits: in the second pass every event of its blocks that is not large and, if medium, lies at the medium depth |
| Handover.NothingElse | federator/src/lib/FederatorHTR.ts:60-96 | nothing is handed over in any other pass, and a run that its guards stop does nothing |
| Handover.RunReaches | federator/src/lib/FederatorHTR.ts:92-112 | a run that is not cut short leaves the checkpoint at the depth for large amounts if two blocks above it are that deep, and where it was otherwise |
| Handover.PassInOrder | federator/src/lib/FederatorHTR.ts:126-176 | each pass hands events over in the order of the chain, none twice |
| ExactlyOnce.WindowsAreContiguous | federator/src/lib/FederatorHTR.ts:92-124 | over abort-free runs the first-pass windows, put together, are the blocks from the start to the checkpoint, each once |
| ExactlyOnce.LargeEventsExactlyOnce | federator/src/lib/FederatorHTR.ts:92-124 | over abort-free runs an event above the large amount is handed over exactly once if its block is below the checkpoint and not before |
| MultisigManager.HathorMultisigManager.FetchBatch | federator/src/lib/HathorFederationLogsReader.ts:290-302 | one batch: its events are handled in order until something throws, which ends the batch |
| MultisigManager.HathorMultisigManager.FetchInBatches | federator/src/lib/HathorFederationLogsReader.ts:281-333 | the loop requests the batches of the range, in order, whatever becomes of each |
| MultisigManager.HathorMultisigManager.FetchPages | federator/src/lib/HathorMultisigManager.ts:112-146 | the page loop with its batches requests all batches of all pages, the last stretched to the given end |
| MultisigManager.HathorMultisigManager.GetLogsAndProcess | federator/src/lib/HathorMultisigManager.ts:76-149 | nothing if from >= to or if it throws, otherwise all lock requests as far as the current block and then all others |
| MultisigManager.HathorMultisigManager.Run | federator/src/lib/HathorMultisigManager.ts:30-74 | changes nothing if it throws; otherwise performs the specified requests and saves, returning true iff the node is in sync and the block at the depth of the confirmations is positive and beyond the checkpoint |
| MultisigManager.RequestsAreExact | federator/src/lib/HathorMultisigManager.ts:93-146 | lock requests ask for every block up to the current one, then event requests for every block up to toBlock, each once and in order, at most 450 at a time |
| MultisigManager.RunAsks | federator/src/lib/HathorMultisigManager.ts:51-90 | a complete run asks once for each block after the checkpoint down to the depth of the confirmations if there are two such blocks or more, and for none otherwise |
| MultisigManager.RunSaves | federator/src/lib/HathorMultisigManager.ts:51-71 | a complete run leaves the checkpoint at the depth of the confirmations if the node is in sync and that block is positive and new, and where it was otherwise |
| MultisigManager.HistoryIsConfirmed | federator/src/lib/HathorMultisigManager.ts:51-71 | at every point of every sequence of runs, nothing was saved, and nothing but lock events asked for, above the depth of the confirmations in the run that did it |
| MultisigManager.AskHandlesIff | federator/src/lib/HathorFederationLogsReader.ts:290-302 | a request handles an event iff its place in the batch is before the point where something threw |
| MultisigManager.GapFreeIsAsked | federator/src/lib/HathorMultisigManager.ts:59-90 | without runs for a single new block, every block up to the checkpoint has been asked for at every point of every sequence of runs, cut anywhere |
| MultisigManager.GapFreeIsHandled | federator/src/lib/HathorMultisigManager.ts:59-90 | if moreover nothing throws inside a batch, every event up to the checkpoint has been handled, at every such point |
| MultisigManager.RunIsAnAttempt | federator/src/lib/HathorMultisigManager.ts:30-74 | each call of Run continues a history by one attempt, all of it or nothing if it threw, so the lemmas about such histories are about the class |
| MultisigManager.AskedOnce | federator/src/lib/HathorMultisigManager.ts:59-90 | over such histories a block is asked for exactly once if it lies up to the checkpoint and was not the single new block of some run, and otherwise never |
| MultisigManager.UnaskedAreGaps | federator/src/lib/HathorMultisigManager.ts:71-90 | so a block up to the checkpoint was never asked for iff it was the single new block of some run |
| MultisigManager.HandledIff | federator/src/lib/HathorFederationLogsReader.ts:281-306 | over such histories an event up to the checkpoint was handled iff its block is no such gap and no request for it stopped before the event |
| MultisigManager.PassedForGood | federator/src/lib/HathorMultisigManager.ts:59-71 | an event that the checkpoint passed unhandled is never handled, whatever runs follow |
| MultisigManager.GapLosesBlock | federator/src/lib/HathorMultisigManager.ts:87-90 | a run from 10 to 11 that saves 11 without asking for it |
| MultisigManager.SwallowedFailureLosesEvent | federator/src/lib/HathorFederationLogsReader.ts:300-302 | a run from 10 to 14 whose one batch throws, which saves 14 and loses the event for good |
| Votes.Voter.IsTransactionVotedOrProcessed | federator/src/lib/Broker/HathorBroker.ts:262-288 | true iff the ledger has the id processed or voted by this federator; throws if the answer needed does not come |
| Votes.Voter.VoteTransaction | federator/src/lib/FederatorHTR.ts:334-421 | no send for an id in the file; otherwise one send, and after a failed receipt the file as read plus this entry, or an exception and the old file if it cannot be serialized |
| Votes.Voter.VoteOnEvm | federator/src/lib/Broker/HathorBroker.ts:197-260 | the whole call: its result, its send and its new file |
| Votes.VotingIs | federator/src/lib/Broker/HathorBroker.ts:230-260 | when a call sends, what it records, and what it returns: true iff the id is voted or processed afterwards, an exception only for want of an answer or for an entry that cannot be written |
| Votes.NothingAfterSuccess | federator/src/lib/Broker/HathorBroker.ts:230-260 | over any sequence of calls a successful vote is the last transaction sent for its id, so at most one succeeds |
| Votes.FileOnlyGrows | federator/src/lib/FederatorHTR.ts:355-413 | the file keeps all its entries and gains exactly the ids whose receipt failed, or nothing if entries cannot be serialized |
| Votes.ResentIff | federator/src/lib/FederatorHTR.ts:355-413 | after a failed receipt the next call for the id sends again iff entries cannot be serialized and nothing else stops it |
| Votes.SentOnceIff | federator/src/lib/FederatorHTR.ts:355-413 | no run sends two transactions for one id iff bigints can be serialized |
| Votes.FailedVoteIsSentAgain | federator/src/lib/FederatorHTR.ts:389-406 | two calls that send the same failing vote twice |
| Votes.EntryLostIff | federator/src/lib/Broker/HathorBroker.ts:156 | in any run of overlapping calls, an entry is lost iff a call for another id closes with a failure and had opened before the entry was there |
| Votes.OverlapLosesEntry | federator/src/lib/Broker/HathorBroker.ts:156 | of two overlapping calls of which the first fails, the first one's entry survives iff the second does not fail, and otherwise its vote may be sent again |
| Scripts.DataScriptParses | federator/src/utils/scripts.ts:12-87 | every script of length header, up to 255 bytes of data and OP_CHECKSIG parses to its data, in both forms of header |
| Scripts.ParsedExactly | federator/src/utils/scripts.ts:12-87 | the parser returns data from exactly the data scripts and one other family, told apart by the first byte |
| Scripts.RefusalOf | federator/src/utils/scripts.ts:16-46 | which exception a refused script meets |
| Scripts.PushDataIs | federator/src/utils/scripts.ts:68-87 | what getPushData reads on its own: the length in a first byte up to 75 or in the byte after any other, and data cut short at the end of the buffer |
| TransactionIds.GetAddress | federator/src/contracts/IHathorFederationV1.ts:196-207 | the search ends, and what it finds can only be the last 40 characters |
| TransactionIds.AddressFoundIff | federator/src/contracts/IHathorFederationV1.ts:196-207 | whichever end of the text is an address is what the search returns, checksummed, and without one it throws |
| TransactionIds.PaddingIsFullIff | federator/src/contracts/IHathorFederationV1.ts:184-194 | padding gives a full word for up to 64 bare digits, and for prefixed ones except 62 and 63 |
| TransactionIds.PaddedWithZeros | federator/src/contracts/IHathorFederationV1.ts:184-194 | a full word is 0x, zeros and then the digits, with or without a prefix before |
| TransactionIds.PaddingOfText | federator/src/contracts/IHathorFederationV1.ts:184-194 | a text with a prefix anywhere in it gets no other, and a short one is filled up with zeros as it is unless the prefix is in front |
| TransactionIds.WordIsStable | federator/src/contracts/IHathorFederationV1.ts:184-194 | padding, stripping and padding again is padding once, for up to 64 digits in any case |
| TransactionIds.AddressSurvives | federator/src/contracts/IHathorFederationV1.ts:184-207 | the 40 digits of a padded address come back up to case: always from a returned word, and from another spelling iff web3 recognises it |
| TransactionIds.EvmIdIsStable | federator/src/lib/HathorFederationLogsReader.ts:141-156 | the id of an EVM deposit recomputed from a ledger event is the id it was proposed under |
| TransactionIds.HathorIdIsStable | federator/src/lib/Broker/HathorBroker.ts:159-170 | the same for a Hathor deposit, whose token id is stripped of its prefix |
| TransactionIds.EventIdsAreLedgerIds | federator/src/lib/HathorFederationLogsReader.ts:141-156 | the ids of the protocol model tell events apart exactly as the padded words of the ledger do, and an event's id recomputed from the ledger is its id |

## Left out

- Amounts.ConvertToHathorDecimals: works on decimal digits and unbounded numbers; the rounding of `parseInt` from 2^53 on and texts with a sign or other characters are not part of this model.
- TransactionIds.SetPadding: takes hex digits of either case with a lower-case `0x`; other texts that web3's padLeft knows (a minus sign, `0X`) are treated as plain text.
- TransactionIds.GetAddress: checksum verification is an arbitrary predicate and checksumming an arbitrary function that keeps digits up to case.
- Scripts.ParseScriptData: stops at bytes; decoding them as UTF-8 is not part of this model.
- SolvencyLimits.SolventIff: is about runs in which no draft that validation could accept creates the token for a transfer that is not about it; SideMintBreaksEveryChain shows why.
- Fairness.FairRunProcesses: assumes that the remote calls for this id go well; it counts a member's turns in remote calls, not in time.
- Broker.Broker.SendTokens: is called for ids of Cross events and for melts only, and a federator handles one id serially.
- Protocol.CallIsARun: a ledger transaction either takes effect before its call returns or not at all; one that is reported failed and mined later is not modelled here (it is in the votes). A push may take effect without its answer arriving.
- CheckpointSafety.DeliveriesAreDeep: small <= medium <= large is a premise; the contract enforces it (`bridge/contracts/AllowTokens/AllowTokens.sol:204-205`).
- CheckpointSafety.CheckpointIsSafe: the log of Cross events is fixed, so chain reorganisations, and a checkpoint file that is not a number, are not modelled.
- MultisigManager.HandledIff: what handling a single event consists of is not modelled, only how far a batch gets.
- Votes.EntryLostIff: a call's questions to the ledger and its reading of the file are one step.
- Votes.Voter.VoteTransaction: a file that is not JSON, and other values of the entry (receipt, error), are not modelled.
- The Solidity contracts beyond the operations named under "The environment".
- HathorWallet, TransactionSender, HathorService and its queue, PubSub, web3 calls, the Express endpoints, metrics and logging: plumbing, whose answers are parameters here.
- runAll, retry, waitBlocks and the scheduler: any sequence of runs is covered instead.
- hathorLockProposalInputs, setTransactionFailed, and the lookup of token decimals: one wallet or contract call each.
- Minimum amounts in HathorBroker.sendTokens: a guard before the protocol starts.
- Deployment, hardhat scripts, configuration and calculatePrefixesSuffixes: not part of the bridge flow.
