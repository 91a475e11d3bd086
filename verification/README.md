# A verified model of the Solana helper daemon

The daemon answers gRPC calls for clients that have no Solana bindings of their own. Most
of it forwards fields; this project models the five parts that have logic of their own and
proves what they promise.

* **Queue accounts** (`DexAccount`, `EventQueue`, `RingFifo`). The bytes of an event or
  request queue account are stripped of their framing, read as little-endian words and cut
  into the two segments of a wrapped ring. The main results are an if-and-only-if for the
  framing, an if-and-only-if for the slicing with the queue it yields, and a round trip over
  every history of pushes and pops from an empty ring.
* **The crank** (`CrankInstruction`, `SlotHeight`). The consume-events instruction lists the
  least thirty-two owners of queued events and four fixed accounts. It is characterised by
  the *set* of owners alone, so any two queues with the same owners give the same
  instruction. `SlotHeight` is the shared maximum raised by crank workers under a lock.
* **The batch sender** (`BatchSender`, `BatchSenderBounds`, `BatchSenderLoop`). `BatchSender`
  is a transition system in which every network answer and every delay is arbitrary; theorems
  speak about all its runs. `BatchSenderBounds` gives, for every list length, the exact maximum
  of passes and of transmissions. `BatchSenderLoop` holds the nested loops over mutable records
  and proves that they follow that system, with the logs naming exactly what went over the
  network and every signature and confirmation being one the network gave.
* **The shared clients** (`LockScopes`, `LockHandlers`, `SendTxLocks`). Function bodies are
  blocks in which a guard lives until its block ends. Any number of them run interleaved on
  non-reentrant mutexes. `SendTxLocks` ties the batch sender's runs to its block.
* **Queue monitoring** (`MonitorQueue`, `MonitorStream`) and **token instructions** (`TokenCodec`,
  `TokenBuilders`): a concurrent protocol around one websocket and bounded channels; a byte
  format with its builders.

Automatic induction is switched off on every lemma. `dafny verify dfyconfig.toml` checks
everything.

## Where the code falls short of its purpose

* `create_and_init_mint`, `new_mint` (which only calls it) and `create_account_rent_exempt` ask
  for the RPC mutex while the guard of the rent query is alive, so they can only end through an
  early error (`LockHandlers.AskingTwiceNeverSucceeds`). The exact condition is
  `LockHandlers.LibraryMixCompletesIff` and, for the Broadcast handlers,
  `LockHandlers.BroadcastCompletesIff`.
* `monitor_queue` is written to merge bids and asks, but the producer that gets the websocket
  keeps it until its subscription fails or it sends to a client that is gone
  (`MonitorQueue.SocketLostIff`). All other calls starve meanwhile
  (`MonitorQueue.OwnerStarvesOthers`), and what a client can hear is exactly the sequences of
  events from one side, with or without an error status at the end (`MonitorStream.HeardIff`).
* `read_event_queue_bid` and `read_event_queue_ask` return an error for every notification, so
  a client of `monitor_queue` now hears nothing or one error status
  (`MonitorStream.HeardAsCodedIff`). The other results hold for any readers.
* `remove_dex_account_padding` reports short inputs as an error only from five bytes on;
  below that its first slice panics: `DexAccount.RemovePaddingRejects`.
* `approve` and `revoke` pass the source account read-only (and `approve` the delegate
  writable), the reverse of the account lists in the comments of
  `src/serum/dex/token_instruction.rs`. The model follows the code.
* If the first clock reading of `send_tx` is already past the limit, the answer is Ok with
  empty signatures and nothing sent: `BatchSender.OkMeansAllSubmitted` and, as a run,
  `BatchSender.OkWithNothingSent`.

## Assumptions

The framing constants and the layouts of queue headers, events and requests belong to the
Serum program, which is not part of this model; they appear as named constants
(`DexAccount.HEAD`, `DexAccount.TAIL`, `EventQueue.EVENT_QUEUE`, `EventQueue.REQUEST_QUEUE`,
`CrankInstruction.OWNER_AT`), and the parsing theorems hold for every layout. The
transmutation library is taken to check the byte count before the alignment, and `usize` to
be 64 bits wide. `MAX_PROCESSING_AGE` is a parameter. Awaited calls return, handlers are not
cancelled, and the clock is monotone. An error item ends a gRPC response stream and drops the
channel's receiver. The ring's writer is the on-chain program; its push and
pop are assumptions.

## Model

| member | source | states |
|---|---|---|
| DexAccount.RemovePaddingAccepts | src/serum/dex/mod.rs:937-963 | unframing succeeds with some words exactly when they are non-empty and the input is their bytes between the two paddings, on the borrowing and on the copying path |
| DexAccount.RemovePaddingReads | src/serum/dex/mod.rs:936-963 | the same byte by byte: the letters of "serum", each word as the sum of its eight bytes with the first least significant, the letters of "padding" |
| DexAccount.RemovePaddingRejects | src/serum/dex/mod.rs:937-963 | exactly which inputs panic and which give which error: too small, head or tail mismatch, too few or inexact payload bytes; the misalignment error never escapes |
| DexAccount.AllocationFitsFraming | src/serum/dex/mod.rs:817-834 | an accepted account has the allocated length for n exactly when it carries n payload bytes |
| EventQueue.ChunkAt | src/serum/dex/mod.rs:971-972 | element k of the ring is the k-th stretch of the body, one width long |
| EventQueue.ChunkCount | src/serum/dex/mod.rs:971-972 | the capacity is the floor of the body over the width |
| EventQueue.ParseQueueMeaning | src/serum/dex/mod.rs:967-977 | with a header and one element, parsing succeeds exactly when head and count are within capacity, and the two segments joined are the ring's contents from its head on |
| EventQueue.ParseQueueRejects | src/serum/dex/mod.rs:979-990 | exactly which inputs are an error, which error, and which panic, for any layout |
| EventQueue.DecodeOfEncode | src/serum/dex/mod.rs:937-977 | words, bytes, framing, unframing and parsing give back the logical queue, for every header, ring and slack |
| EventQueue.ListedQueueCapacity | src/serum/dex/mod.rs:782-786 | the queues of a listed market hold 11915 events and 7 requests |
| EventQueue.EventsRead | src/serum/dex/mod.rs:967-977 | in words: head at 1, count at 2, cells of eleven from 4 on; exactly when that is accepted, and element i is the cell i places after the head around the ring |
| EventQueue.RequestsRead | src/serum/dex/mod.rs:979-990 | the same with cells of ten |
| RingFifo.RingStepRefines | src/serum/dex/mod.rs:967-977 | one push or pop on the ring is the same operation on a bounded queue |
| RingFifo.RingRefinesFifo | src/serum/dex/mod.rs:967-977 | after every history the ring holds what a plain bounded queue holds |
| RingFifo.EveryHistoryDecodes | src/serum/dex/mod.rs:937-977 | decoding the account after any history from an empty ring gives the surviving elements in arrival order |
| RingFifo.PushedThenPopped | src/serum/dex/mod.rs:967-977 | after pushes onto an empty queue and k pops it holds the elements that fitted without the first k |
| CrankInstruction.OwnerVec.SortUnstable | src/serum/dex/mod.rs:418 | the vector becomes the sorted rearrangement of itself |
| CrankInstruction.OwnerVec.Dedup | src/serum/dex/mod.rs:419 | of each stretch of equal neighbours the first stays |
| CrankInstruction.OwnerVec.Truncate | src/serum/dex/mod.rs:421 | at most the first n entries stay |
| CrankInstruction.DedupedOfSorted | src/serum/dex/mod.rs:418-419 | on a sorted vector dedup leaves the same members in strictly increasing order |
| CrankInstruction.SelectOwners | src/serum/dex/mod.rs:416-421 | collecting, sorting, deduplicating and truncating selects the least members of the set of the events' words 6 to 10, up to thirty-two, in increasing order |
| CrankInstruction.SelectionUnique | src/serum/dex/mod.rs:418-421 | a set of owners has only one such selection |
| CrankInstruction.LessMeaning | src/serum/dex/mod.rs:418 | the order on owners: the smaller word at the first difference decides |
| CrankInstruction.PushMetas | src/serum/dex/mod.rs:424-431 | one writable account per owner in order, then market, event queue, coin wallet and pc wallet, none a signer |
| CrankInstruction.ConsumeEventsInstruction | src/serum/dex/mod.rs:389-443 | every outcome (fetch failure, bad account, panic, nothing, instruction) is the one the decoded queue's owner set determines |
| CrankInstruction.NoCrankWithoutEvents | src/serum/dex/mod.rs:410-415 | there is no instruction exactly when the header's count is zero |
| CrankInstruction.CrankShape | src/serum/dex/mod.rs:424-440 | five to thirty-six accounts, all writable and none a signer, the last four market, event queue, coin wallet and pc wallet, and an account count the u16 cast keeps |
| CrankInstruction.CrankSelectsLeastOwners | src/serum/dex/mod.rs:416-428 | keys are distinct and belong to queued events, nobody is left out up to thirty-two owners, beyond that whoever is left out is greater than everyone selected |
| CrankInstruction.CrankKeys | src/serum/dex/mod.rs:416-428 | in bytes: each owner's key is bytes 48 to 80 of a queued event's 88, with one account per different key up to thirty-two, besides the fixed four |
| CrankInstruction.CrankCanonical | src/serum/dex/mod.rs:416-442 | two accounts whose queues name the same owners give the same outcome, whatever order, repetition or alignment |
| CrankInstruction.CrankOfHistories | src/serum/dex/mod.rs:389-443 | the same for two rings with any capacities and any histories |
| SlotHeight.HeightNeverFalls | src/serum/dex/mod.rs:322-323 | under every interleaving the shared height only grows |
| SlotHeight.FinalHeightIsMaximum | src/serum/dex/mod.rs:294-329 | when all workers are done the height is the maximum of its start and the successful workers' slots, which never changed |
| SlotHeight.PoolNeverStuck | src/serum/dex/mod.rs:294-329 | while a worker is unfinished, it or the owner of the lock has a step |
| SlotHeight.WorkersGetDone | src/serum/dex/mod.rs:294-329 | a run has at most five steps per worker and can be continued exactly while some worker is unfinished |
| SlotHeight.AnySetSucceeds | src/serum/dex/mod.rs:294-329 | for every start, all slots and every choice of workers some run ends with exactly those succeeded and the others failed |
| BatchSender.BooksAreKept | src/sol.rs:84-138 | in every reachable state the counter is the number of confirmed records, confirmed records have signatures, and the RPC log is a prefix of the list without repeats |
| BatchSender.SignatureIsAlwaysThere | src/sol.rs:118-134 | the missing-signature branch is unreachable |
| BatchSender.HistoryOnlyGrows | src/sol.rs:84-138 | signatures are write-once, confirmations final, logs only grow, and nothing is transmitted after its confirmation |
| BatchSender.WorkIsBounded | src/sol.rs:79-138 | at most 100(W+1) passes and 100(W+1) - 1 + n transmissions |
| BatchSender.RunLengthBounded | src/sol.rs:84-138 | every run is finite, with an explicit bound on its steps |
| BatchSender.NeverStuck | src/sol.rs:84-145 | only a return ends a run |
| BatchSender.OkMeansAllSubmitted | src/sol.rs:84-145 | what an Ok answer means, with the first clock reading within the limit and past it |
| BatchSender.OkWithNothingSent | src/sol.rs:84-145 | for every list some run reads the clock past the limit first and answers Ok with nothing sent |
| BatchSenderBounds.WorkIsAtMost | src/sol.rs:84-138 | with B = 100(W+1) - 1 and q = floor(B/n), every run on n > 0 transactions makes at most max(1, B + 2 - n) passes, and at most n transmissions if n > B, else max(n(q + 1), B + floor((B - n)/q)) |
| BatchSenderBounds.MostPassesAttained | src/sol.rs:84-138 | for every n some run makes that many passes |
| BatchSenderBounds.MostSendsAttained | src/sol.rs:84-138 | for every n some run makes that many transmissions |
| BatchSenderBounds.SimpleBoundsReachedIff | src/sol.rs:79-138 | 100(W+1) passes are possible exactly for n = 1, and B + n transmissions exactly when n > 0 divides B |
| BatchSenderLoop.Deserialize | src/sol.rs:65-77 | one fresh record per transaction, or failure exactly when some transaction does not decode |
| BatchSenderLoop.SendTx | src/sol.rs:59-146 | the loops follow the transition system step by step and return its response; they hand over exactly the transactions and bytes its logs name; each signature is the network's answer to its submission and each confirmation one of its positive answers; an error is returned exactly when the last reply was a refusal, and is the one it calls for; the outer loop decides on successive readings of the clock |
| BatchSenderLoop.SubmitOnce | src/sol.rs:87-102 | a record without a signature is submitted once and holds the network's answer, failing exactly when there is none; one with a signature is left alone |
| BatchSenderLoop.TransmitAndConfirm | src/sol.rs:104-136 | a confirmed record is left alone; any other is transmitted once and fails exactly when that is refused or the lookup of its signature, asked for after the pause, has no answer; a yes confirms it and a no does not |
| BatchSenderLoop.SendResult.SetSig | src/sol.rs:475-477 | the record's signature becomes the given one |
| BatchSenderLoop.GenSigList | src/sol.rs:480-494 | one entry per record: its signature's bytes or nothing |
| SendTxLocks.SenderHasItsLockShape | src/sol.rs:85-137 | along every run the sender performs a prefix of its lock shape's code, and all of it when it answers Ok |
| SendTxLocks.SenderCode | src/sol.rs:87-137 | the instructions of one visit, literally: submission under `rpc`, transmission under `tpu` with the lookup under `rpc` inside |
| SendTxLocks.LocksAreUsed | src/sol.rs:87-137 | along every run `tpu` is locked once per transmission and `rpc` once per submission and once per lookup |
| LockScopes.GuardsAreExclusive | src/rpcnb.rs:183-197 | along every run, early returns included, each guard has one owner and a finished task owns none |
| LockScopes.FailedTaskNeverWaits | src/rpcnb.rs:288-300 | on an early return a task can always drop its next guard |
| LockScopes.EarlyReturnHappens | src/rpcnb.rs:195 | from every reachable state with a task about to attempt something some run ends with that task failed, done and without guards, nobody else having moved |
| LockScopes.RunsAreShort | src/util.rs:200-225 | the instructions left bound the steps left, whatever the interleaving |
| LockScopes.WaitForIsAcyclic | src/sol.rs:109-116 | with ordered acquisition no task waits, directly or through others, for itself |
| LockScopes.SomebodyMoves | src/sol.rs:84-138 | with ordered acquisition an unfinished system always has a step |
| LockScopes.OrderedCompletes | src/sol.rs:84-138 | any number of ordered tasks always completes |
| LockScopes.RelockNeverSucceeds | src/rpcnb.rs:36-63 | a body that requests a mutex inside its own scope can end only through an error, in any company |
| LockScopes.SelfBlockedForever | src/rpcnb.rs:148-170 | whoever waits for its own guard waits forever, and nobody else gets that mutex |
| LockScopes.SoloCompletesIff | src/rpcnb.rs:26-65 | alone, a body always completes exactly when no guard is bound in the scope of a guard of the same mutex |
| LockHandlers.LibraryMixCompletesIff | src/rpcnb.rs:26-330 | any mix of library functions always completes exactly when none of the three that ask twice is among them |
| LockHandlers.AskingTwiceNeverSucceeds | src/rpcnb.rs:26-181 | in any mix and any run, each of those three can end only through an early error |
| LockHandlers.FunctionCode | src/rpcnb.rs:26-330 | the lock operations and fallible steps of each of the sixteen functions when nothing fails, literally (four of them are in `src/util.rs:82-225`) |
| LockHandlers.HandlerCode | src/util.rs:82-225 | the same for the handlers other than `send_tx` |
| LockHandlers.HandlerNests | src/sol.rs:84-138 | every handler but the mint genesis nests `rpc` at most inside `tpu` |
| LockHandlers.HandlersStaySafe | src/util.rs:82-225 | every reachable state of any handlers without a genesis: exclusive guards, nesting order, no wait cycle, progress, bounded work |
| LockHandlers.GenesisNeverSucceeds | src/rpcnb.rs:140-181 | a genesis is only ever in six states and never ends with a signature |
| LockHandlers.GenesisReaches | src/rpcnb.rs:140-181 | each of the six states is reached by some run, in any company |
| LockHandlers.GenesisStarvesEverybody | src/rpcnb.rs:148-170 | past its rent query and its instruction builder it waits in every continuation and no other task owns `rpc` |
| LockHandlers.BroadcastCompletesIff | src/sol.rs:59-418 | any number of Broadcast handlers always completes exactly when none is a genesis |
| MonitorQueue.OneProducerAtATime | src/serum.rs:581-583 | over all calls at most one producer owns the websocket |
| MonitorQueue.ChannelIsBoundedFifo | src/serum.rs:569 | at most four messages are buffered, none once the client is gone, and delivery follows the order of acceptance |
| MonitorStream.SendsIffRoom | src/serum.rs:604 | a producer with a message for a listening client can go on exactly when fewer than four are buffered |
| MonitorStream.FourCanBeBuffered | src/serum.rs:569 | any four messages of either side are buffered in some run |
| MonitorQueue.BidsAreSpawnedFirst | src/serum.rs:571-623 | the asks producer is only spawned after the bids producer |
| MonitorQueue.StreamIsOneSided | src/serum.rs:581-652 | every client hears one side only, events and errors alike |
| MonitorQueue.ServingStarvesOthers | src/serum.rs:586-604 | while a client is served no other call's channel accepts anything |
| MonitorQueue.SocketLostIff | src/serum.rs:581-652 | an owner of the websocket has lost it later exactly when it stopped in between on a failed subscription or on a send to a client that is gone; it never gets it again |
| MonitorQueue.OwnerStarvesOthers | src/serum.rs:581-652 | from acquisition to release, past its client's departure, no other call's channel accepts anything and its own only that side's messages |
| MonitorQueue.SocketCanBeFreed | src/serum.rs:581-652 | from every state with an owner some run frees the websocket without a step of another producer |
| MonitorQueue.AnyWaiterCanBeNext | src/serum.rs:581-652 | whoever waits for the websocket gets it in some continuation |
| MonitorStream.AnySideIsHeard | src/serum.rs:569-652 | on either side any sequence of events, with or without a final error status, can be delivered while the other producer waits |
| MonitorStream.FaultEndsStream | src/serum.rs:586-604 | an error status is the last thing a client receives, and its receiver is closed then |
| MonitorStream.HeardIff | src/serum.rs:569-652 | the sequences a client can receive are exactly the one-sided ones in which at most the last item is an error status |
| MonitorStream.HeardAsCodedIff | src/serum.rs:586-680 | with the readers as coded a client can receive exactly nothing or a single error status |
| TokenCodec.WriteU64 | src/serum/dex/token_instruction.rs:284-285 | eight bytes change, to the value's little-endian bytes, and no other |
| TokenCodec.Pack | src/serum/dex/token_instruction.rs:278-326 | the buffer holds the meaningful bytes followed by zeros |
| TokenCodec.PackedReads | src/serum/dex/token_instruction.rs:278-326 | the twenty-four bytes of each packed instruction: tag, amount least significant byte first, one-byte fields, zeros |
| TokenCodec.UnpackAccepts | src/serum/dex/token_instruction.rs:214-275 | parsing yields an instruction exactly when the input begins with its meaningful bytes |
| TokenCodec.UnpackReads | src/serum/dex/token_instruction.rs:214-275 | byte by byte: the tag of each instruction and its amount as the sum of bytes 1 to 8 with the first least significant |
| TokenCodec.UnpackRejects | src/serum/dex/token_instruction.rs:215-273 | for each of the eight codes, exactly which inputs are rejected with it, and no other rejection |
| TokenCodec.RejectedIffShorter | src/serum/dex/token_instruction.rs:215-273 | with a known tag an input is rejected exactly when it is shorter than the meaningful bytes of the instructions with that tag |
| TokenCodec.UnpackOfPacked | src/serum/dex/token_instruction.rs:214-326 | parsing what was packed gives the instruction back |
| TokenCodec.PackedInjective | src/serum/dex/token_instruction.rs:278-326 | different instructions pack differently |
| TokenCodec.UnpackNormalForm | src/serum/dex/token_instruction.rs:214-326 | bytes after the meaningful ones are ignored, and packing the result is the canonical form |
| TokenCodec.UnpackEqualIff | src/serum/dex/token_instruction.rs:214-275 | two accepted inputs mean the same exactly when their meaningful bytes agree |
| TokenBuilders.BuildInitializeMint | src/serum/dex/token_instruction.rs:330-363 | both error conditions exactly; otherwise each account's key and flags, and packed data that reads back |
| TokenBuilders.BuildInitializeAccount | src/serum/dex/token_instruction.rs:366-385 | each account's key and flags, and packed data that reads back |
| TokenBuilders.BuildInitializeMultisig | src/serum/dex/token_instruction.rs:388-413 | succeeds exactly for 1 <= m <= n <= 11, with n + 1 accounts in order, only the first writable and none a signer |
| TokenBuilders.BuildTransfer | src/serum/dex/token_instruction.rs:416-442 | each account's key, signer and writable flags by position, the signers last, and packed data that reads back |
| TokenBuilders.BuildApprove | src/serum/dex/token_instruction.rs:445-471 | the same, with the source read-only and the delegate writable |
| TokenBuilders.BuildRevoke | src/serum/dex/token_instruction.rs:474-497 | each account's key, signer and writable flags by position, the signers last, and packed data that reads back |
| TokenBuilders.BuildSetOwner | src/serum/dex/token_instruction.rs:500-525 | each account's key, signer and writable flags by position, the signers last, and packed data that reads back |
| TokenBuilders.BuildMintTo | src/serum/dex/token_instruction.rs:528-554 | each account's key, signer and writable flags by position, the signers last, and packed data that reads back |
| TokenBuilders.BuildBurn | src/serum/dex/token_instruction.rs:557-581 | each account's key, signer and writable flags by position, the signers last, and packed data that reads back |
| TokenBuilders.BuildCloseAccount | src/serum/dex/token_instruction.rs:584-609 | each account's key, signer and writable flags by position, the signers last, and packed data that reads back |
| TokenBuilders.AuthorisedSigners | src/serum/dex/token_instruction.rs:429-435 | max(1, n) required signatures: the authority alone without signers, exactly the signers in order with them; the authority read-only, the signers writable |
| TokenBuilders.AuthorisedInjective | src/serum/dex/token_instruction.rs:429-435 | the account list determines the authority and the signers |

## Left out

- CrankInstruction.OwnerVec.SortUnstable: the standard library's sorting algorithm is foreign code; an insertion sort stands in for it behind the same contract, which fixes the result.
- BatchSenderLoop.SendTx: the loops and the inner loop's body are methods of their own, and the guards it holds are modelled in `LockHandlers` and `SendTxLocks` rather than on the heap.
- LockHandlers.BroadcastCompletesIff: request-field checks before the first lock are left out; they return early without a guard.
- The mutexes, the monitor's producers and the crank workers are state machines over values, not classes, so aliasing of the shared `Arc` handles is not captured.
- Wake-up order and fairness of the async mutex: every free mutex may go to any waiter.
- RPC, TPU, websocket and gRPC behaviour, signing, serialisation by bincode and key generation: foreign code, replaced by arbitrary answers.
- The market instruction's byte encoding and the matching engine: they belong to the Serum program.
- The lock shapes of the Dex service's other handlers: each takes one `rpc` guard at a time.
- The remaining transaction builders of the Serum client and the vault nonce search: straight-line account lists around library calls.
- The key converters in `src/lib.rs` and `src/util.rs`: short loops that stop one byte early; keys here are abstract 32-byte values.
- The runtime mutex of `monitor_queue`: its guard lives for the one spawning statement.
- Field unwrapping, order conversion, configuration and server start-up: each is settled by reading one branch.
