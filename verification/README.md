# flatstate, verified

flatstate keeps the EVM state after a block in several optimised forms: versioned
rows in a sorted key-value store, a partial in-memory tip view with unfinalized
layers and per-executor side buffers, a published event log, a replay session, a
journaled overlay, a bulk-loaded baseline. All of them have to agree.

This project states that agreement in Dafny and proves it. `Reference.dfy` defines the one meaning: a
state of accounts and slots, and what applying a batch of captured operations does to
it. Every other module models one component and proves that what it answers is that
meaning, over every input, every run or every reachable state.

| file | component | main results |
|---|---|---|
| Bytes, Schema, Wire, Capture | keys, account rows, batch codec | the codec is a bijection onto the accepted inputs; the inverted block number makes one seek find the newest version |
| Reference, Store, History, Codes | `store/` | every read at height B in [S, head] is the fold of the batches up to B, or fails loudly; an answer once given never changes |
| Layers, Exec, Pins | overlay layers, fork views, pinned map | a compiled layer, a folded layer and a stack of layers read alike; pruning and folding keep exactly the views above the accepted block |
| TipView, Mem | `mem/` | every lookup in every run is the reference state of finalized blocks plus layers |
| TipBus, Subscribers, Protocol, Node | `tipbus/`, `node/` | tracker, memory view and bus always hold the same hash-linked stack; late subscribers catch up |
| Replay | `replay/` | every session answer is the store's read at the session's height |
| Journal, Getters, StateDb | `sim/statedb.go` | the journal refines a stack of full copies, exactly when no address has code set twice; every read is the last write not reverted |
| Keys, Loader, LoaderSafety, LoadRuns, Boundaries, Watermarks, Baseline, LoadedReads | `follower/sync/`, `store.Baseline` | through any crashes and restarts, a completed load has every leaf, and every code is the one its hash names |
| Engine | `engine/` | returned batches were answered from the state of the tip current at the final check |
| Votes, Backfill | `follower/consensus/` | each vote goes where its ancestry says and each sampled validator gets exactly one call; the backfill chain has no gap and is accepted in order |
| SuiteCache | `suitecache/` | the file written in any map order loads back to the same maps; exactly which files load |

LMDB is a map over typed keys whose order is the byte order of their encodings, with
atomic transactions. Keccak is a parameter. Concurrency is a sequence of steps: what
holds a lock together is one step, everything else interleaves. Clocks, peers and the
consensus library are parameters.

The code relies on these conditions, and the statements name them:

- a batch respects the capture contract (`Reference.Contract`): per address a destruct
  comes before the recreating operations, and slots are written only for accounts that
  exist at the end of the block;
- height rises by one along parent links, and a hash determines its block
  (`Protocol.Universe`, `Engine.Named`);
- the store's head lies on the tip view's own chain (`TipView.OnChain`), because misses
  read the newest row;
- codes are content-addressed: whoever writes a code writes what its hash names
  (`Codes.Addressed`, `Loader.Addressed`);
- counts and lengths written as 32-bit fields fit them, and ends computed in 32 bits do
  not wrap (`Capture.Fits`, `TipBus.FrameFits`);
- where a giant storage trie is split is the same on every run
  (`Loader.Reproducible`); `Boundaries.ResumeSafeIff` says exactly which other
  boundaries would be safe;
- a storage range is split only with room for the parts, code is set once per address,
  and views are read only above the accepted block: each has its exact condition below.

The header window below the resume point is meant for BLOCKHASH. When the resume point
is lower than the window's size, the code walks to the resume point only and seeds no
earlier header (`Backfill.WindowHeldIff`).

The comments in `follower/sync/sync.go` about row order ("slots, code, then account")
and about storage fetched with its account describe an earlier design. The model
follows the code: code, queue row, account row, and storage in a second phase.

## Model

| member | source | states |
|---|---|---|
| Bytes.ValOfBE | schema/schema.go:95-106 | the big-endian bytes of a value that fits decode to that value |
| Bytes.LessIsValueOrder | schema/schema.go:92-106 | on equal lengths the byte order is the order of the big-endian values |
| Schema.ParseEncodeKey | schema/schema.go:107-152 | every typed key can be read back from its bytes |
| Schema.EncodeParseKey | schema/schema.go:107-152 | bytes that parse as a key are the encoding of that key |
| Schema.EncodeKeyInjective | schema/schema.go:107-152 | no two keys share an encoding |
| Schema.KeyspacesDoNotInterleave | schema/schema.go:107-152 | a key sorting between two keys of one keyspace belongs to that keyspace |
| Schema.NewerSortsFirst | schema/schema.go:95-125 | for one address or slot, rows of later blocks sort first, for all 64-bit heights |
| Schema.AccountRoundTrip | schema/schema.go:73-90 | account rows and 72-byte strings correspond one to one |
| Schema.SetRange | store/read.go:29-42 | the cursor seek returns the least key at or after the sought bytes, and nothing only when there is none |
| Capture.DecodeEncode | capture/capture.go:54-139 | decoding an encoded batch within the 32-bit bounds gives the batch back |
| Capture.EncodeDecode | capture/capture.go:88-139 | whatever bytes the decoder accepts are the encoding of the batch it returns |
| Capture.EncodeInjective | capture/capture.go:54-85 | two batches within the bounds with one encoding are equal |
| Capture.Decode | capture/capture.go:88-188 | the reader with its shrinking buffer and sticky error computes the codec's decoding, errors included |
| Capture.Reader.Fill | capture/capture.go:146-188 | a read takes exactly the next bytes, or sets the error and takes nothing; after an error nothing is read |
| Capture.Reader.ReadOp | capture/capture.go:101-133 | one operation is parsed as the grammar says, for every kind and every truncation |
| Reference.ReadAfterOps | capture/capture.go:6-13 | reading after a batch is its last effect on the key, or the value before it |
| Reference.ChainKeepsClean | capture/capture.go:6-13 | along contract-respecting batches no slot outlives its account |
| Store.SeekFindsLatest | store/read.go:29-42 | the seek returns the greatest write at or before the block, and fails exactly when there is none |
| Store.SeekReachesStem | store/read.go:29-42 | if the address or slot has any row in range, the cursor lands on one of its own |
| Store.PutOpsRows | store/store.go:176-203 | after a batch, each history key holds the last value the batch gave it |
| Store.WriteBlockCode | store/store.go:193-199 | after a block is written a code reads as the last operation of the block that names it, and as before if none does |
| Store.DB.WriteBlock | store/store.go:172-205 | one transaction turns the rows into the old rows plus the batch's rows and its diff |
| Store.DB.SetFinalized | store/store.go:163-170 | only the finalized mark changes |
| History.AccountEffectByRows | store/store.go:176-203 | the rows of one batch determine its effect on an account, destruct marks included |
| History.SlotEffectByRows | store/store.go:176-203 | the rows of one batch determine its effect on a slot |
| History.AccountByRows | store/read.go:75-124 | the newest account row and newest destruct mark give the account's reference value at any depth |
| History.SlotByRows | store/read.go:141-206 | the newest slot row and destruct mark give the slot's reference value, same-block recreation included |
| History.GetAccountIsReference | store/read.go:75-124 | an account read at B at or above S is the fold of the batches up to B, or the loud baseline error exactly when nothing covers the account |
| History.GetSlotIsReference | store/read.go:141-206 | the same for slots: tombstones, wiped baseline slots and recreation included, and never the destruct-edge error |
| History.BelowGenesisFails | store/read.go:45-58 | reads below S are refused |
| History.NoGenesisFails | store/read.go:45-58 | a store without a readable genesis height answers nothing |
| History.WriteBlockExtends | store/store.go:172-205 | writing the next batch makes the rows stand for the chain with that block added |
| History.NewStoreRepresents | store/store.go:229-243 | a store opened for a baseline at S stands for the baseline state with no block written and nothing loaded |
| History.RewriteIsIdempotent | store/store.go:172-205 | writing a block again changes nothing a read can see |
| History.BaselineFlushKeeps | store/store.go:289-321 | loading true baseline rows keeps what the store stands for |
| History.AnswersAreFinal | store/read.go:61-124 | once an account read has succeeded, no later block or baseline row changes the answer |
| History.SlotAnswersAreFinal | store/read.go:141-206 | the same for slots |
| Codes.WriteBlockReadable | store/store.go:193-199 | the codes of a written block can be read, and no earlier one is lost |
| Codes.ChainReadable | store/store.go:172-205 | every code captured in a block at or below the head can be read |
| Codes.RewriteKeepsCodes | store/store.go:172-205 | writing a block again changes no code |
| Codes.MergeKeeps | mem/mem.go:391-396 | merging buffers forgets no code and makes none up |
| Codes.LookupPinsCode | mem/mem.go:354-367 | what the store answered is pinned as answered, and no other pin changes |
| Codes.CodeInEveryRun | mem/mem.go:354-399 | in every run every executor's code lookup is what the hash names, if anything holds it, and every code of a written block is found |
| Codes.DrainKeepsAnswers | mem/mem.go:374-399 | a write phase changes no executor's code answer |
| Layers.CompiledLayerMeaning | mem/mem.go:195-224 | a compiled layer over any state reads like applying its operations one by one |
| Layers.ApplyLayer | follower/exec/statedb.go:58-79 | the loop over maps builds the compiled layer of old operations followed by new ones |
| Layers.StackMeaning | follower/exec/statedb.go:82-105 | a stack searched newest first reads like applying the batches oldest first |
| Layers.FoldedReadsLikeStack | follower/exec/exec.go:111-119 | one layer folded from k batches reads like k stacked layers |
| Layers.StackCodeMeaning | follower/exec/statedb.go:107-114 | a stack answers for a code with the last operation of the newest block that names it |
| Layers.FoldedCodeReadsLikeStack | follower/exec/exec.go:111-119 | a folded layer answers for codes like the stack |
| Exec.Exec.ViewAt | follower/exec/exec.go:143-157 | the walk collects exactly the pending ancestors of a block, newest first, then the cumulative layer |
| Exec.ViewIsReference | follower/exec/exec.go:143-157 | the view of a block reads the finalized state with every pending block up to it applied |
| Exec.Exec.Prune | follower/exec/exec.go:121-138 | exactly the blocks at or below the height are dropped |
| Exec.Exec.OnFinalized | follower/exec/exec.go:101-109 | the same once the store holds the block |
| Exec.Exec.FoldFinalized | follower/exec/exec.go:111-119 | the cumulative layer gains the batch and the pending tree loses it |
| Exec.CommitThenPruneKeepsViews | follower/exec/exec.go:101-157 | committing a block to the store and pruning it leaves the answers of every view above that block unchanged |
| Exec.FoldThenPruneKeepsViews | follower/exec/exec.go:101-157 | the same when the block is folded into the cumulative layer instead |
| Exec.PruneKeepsCode | follower/exec/exec.go:101-157 | both keep the code reads of the views above as well |
| Exec.PruneLosesAcceptedIff | follower/exec/exec.go:121-157 | a view loses exactly the accepted block if and only if its block is above it |
| Exec.ViewsKeptIff | follower/exec/exec.go:101-157 | whatever the blocks and the state below contain, commit or fold and prune keep a view's answers if and only if its block is above the accepted one |
| Exec.RejectedForkSeesAccepted | follower/exec/exec.go:121-127 | the prune goes by height alone: a view of a surviving rejected fork did not see the accepted block's account before, and does after |
| Pins.PinOpsMeaning | mem/mem.go:115-149 | every pinned account and slot has its value after the batch, destruct and recreation included |
| Pins.PinOpsKnowledge | mem/mem.go:115-149 | applying a batch pins no new account or slot and forgets none |
| Pins.Map.Apply | mem/mem.go:115-149 | the loop over nested maps computes that application |
| Pins.Map.PinSlot | mem/mem.go:95-104 | a slot is pinned under its account and nothing else changes |
| TipView.AccountLookupIsTruth | mem/mem.go:287-309 | layers, base, buffer, store: whichever answers, it is the reference value |
| TipView.SlotLookupIsTruth | mem/mem.go:312-351 | the same for slots, although pins may hold the value of any height between base and store |
| TipView.StepKeepsInv | mem/mem.go:374-444 | every step of the view and the store keeps each pin at a height between the base's and the store's |
| TipView.EveryLookupInEveryRun | mem/mem.go:286-444 | in every state of every run, every lookup through every buffer is the reference state of finalized blocks plus layers |
| TipView.DrainKeepsKnowledge | mem/mem.go:374-399 | after a write phase the base holds exactly the accounts it or a buffer held, and the slots of those |
| TipView.LookupPins | mem/mem.go:305-350 | what the store answered is pinned as answered and not asked for again; an error pins nothing |
| Mem.State.Account | mem/mem.go:287-309 | the search and the miss path return the lookup's value and pin at most the missed account |
| Mem.State.Slot | mem/mem.go:312-351 | the same for slots, pinning the account first |
| Mem.State.Code | mem/mem.go:354-367 | base, buffer, store: the code lookup, pinning what the store answered |
| Mem.State.Drain | mem/mem.go:374-399 | every buffer is merged into the base in any map order, never overwriting a pin, and cleared; codes too |
| Mem.State.ApplyBlock | mem/mem.go:402-409 | drains, pushes one layer and moves the tip |
| Mem.State.Finalize | mem/mem.go:414-430 | folds the oldest layer exactly when height and hash match; otherwise it has only drained |
| Mem.State.PreferenceReset | mem/mem.go:434-444 | replaces the layers and leaves the base; an empty chain leaves the tip fields |
| TipBus.EventRoundTrip | tipbus/tipbus.go:152-178 | every event whose frames end within 32 bits is read back from its payload |
| TipBus.StateRoundTrip | tipbus/tipbus.go:126-135 | the handshake state is read back from its row, under the same bound |
| TipBus.DecodeEvent | tipbus/tipbus.go:274-318 | the parsing loop accepts and returns what the event grammar says, and overruns where the 32-bit end of a frame wraps |
| TipBus.DecodeState | tipbus/tipbus.go:218-239 | the same for the handshake row |
| TipBus.EventAcceptedIff | tipbus/tipbus.go:274-318 | a payload is accepted exactly if it is the encoding of the event read from it; a reset may be followed by anything |
| TipBus.StateAcceptedIff | tipbus/tipbus.go:218-239 | the handshake row is accepted exactly if it begins with the encoding of what is read |
| TipBus.Bus.PublishFinalize | tipbus/tipbus.go:158-166 | refuses a height that is not the oldest layer's; otherwise appends one event and drops the layer |
| TipBus.Bus.PublishReset | tipbus/tipbus.go:169-178 | appends one event and replaces the mirrored stack |
| TipBus.Bus.Handshake | tipbus/tipbus.go:203-242 | returns the state reached by replaying the log so far, and the position to poll from |
| TipBus.Bus.Poll | tipbus/tipbus.go:245-272 | returns exactly the events from the cursor on, in order |
| TipBus.ChunksDoNotMatter | tipbus/tipbus.go:245-272 | polling in any chunks reaches the state of polling at once |
| TipBus.LateJoinerCatchesUp | tipbus/tipbus.go:203-272 | a handshake anywhere followed by polling in any chunks reaches the state of a subscriber that polled from the start |
| TipBus.PrefixAccepted | tipbus/tipbus.go:245-272 | if the whole log replays, so does every prefix of it |
| Subscribers.Handle | mem/mem.go:402-444 | the in-memory state carries out the write phase a polled event stands for, and reports exactly the refused finalizes |
| Subscribers.FeedAllIsFollowAll | mem/mem.go:402-444 | replaying a log on the bus's stack and as write phases of a view gives the same layers, and the replay fails exactly when the view refuses a finalize |
| Subscribers.LateJoinerViews | mem/mem.go:402-444 | a view that takes the handshake's layers at any point of an accepted log and polls the rest in any chunks ends with the layers of one that followed from the start, and never refuses a finalize |
| Protocol.SettledFinalize | node/sink.go:50-73 | each of the three ordered steps of a finalize keeps the tip view's invariant, and the last settles one block higher |
| Protocol.SettledReset | node/sink.go:76-85 | a reset to a linked stack keeps it |
| Protocol.SettledLookup | mem/mem.go:241-351 | lookups and new executors between events leave everything settled |
| Node.Sink.StartsMirrored | node/sink.go:38-41 | a fresh sink over a store at its finalized block starts with all copies agreeing |
| Node.Sink.Block | node/sink.go:43-48 | store, memory, bus and pending map again mirror one stack, one block longer, and the bus gains that block event |
| Node.Sink.Finalize | node/sink.go:50-73 | once the oldest block matches, none of the later checks can fail: the store holds the block and its height as the finalized mark, memory is at that height, the bus gains one finalize; a refusal leaves the mark alone |
| Node.ResumePoint | cmd/follower/main.go:303-311 | after a finalize a new process resumes at that block, which has its diff row |
| Node.Sink.PreferenceReset | node/sink.go:76-85 | all copies hold the new stack, and the bus gains one reset |
| Node.Tracker.Verified | node/tracker.go:44-50 | records a block above the finalized height and publishes nothing |
| Node.Tracker.ChainTo | node/tracker.go:55-71 | the walk and in-place reversal return the linked path from the finalized block, or fail on any gap |
| Node.Tracker.Head | node/tracker.go:74-90 | the published stack becomes the path to the new head: nothing is published if it is the same, one block if it is one longer, otherwise a reset; a gap changes nothing |
| Node.Tracker.Accepted | node/tracker.go:110-140 | a block is finalized exactly when it is a child of the finalized block at the given height, and the mark is then at it; a stale stack is reset first, and a refusal leaves the store alone |
| Node.PathIsLinked | node/tracker.go:55-71 | a path is hash-linked, ends in its head and is as long as the head is high |
| Replay.ExactAdvances | replay/replay.go:43-54 | applying the next diff to a map exact at a height makes it exact at the next |
| Replay.Session.Next | replay/replay.go:43-54 | advances by exactly the next stored diff, or reports being caught up |
| Replay.Session.Account | replay/replay.go:58-68 | the answer is the reference value at the session's height, or the loud error exactly when nothing covers the account yet; an answer is pinned |
| Replay.Session.Slot | replay/replay.go:71-91 | the same for slots, without faking account knowledge |
| Replay.AnswersAreStoreReads | replay/replay.go:58-91 | on a complete baseline those reference values are the store's reads at the session's height |
| Replay.AppendBeside | replay/replay.go:1-5 | a block appended beside a session leaves it valid at its height, for the longer chain |
| Replay.LoadBeside | replay/replay.go:1-5 | true baseline rows committed beside a session leave it valid |
| Journal.UndoMutator | sim/statedb.go:179-227 | undoing a mutator's entries restores the overlay observably, except that code set on the mutator's address is gone |
| Journal.RevertRestoresIff | sim/statedb.go:177-227 | reverting any run of mutators makes every getter answer as before, over every state below, if and only if none of them set code on an address whose code was already set |
| Journal.SetCodeTwiceLosesCode | sim/statedb.go:303-309 | the concrete case: the second set, reverted, leaves no code where the first was |
| Journal.AlikeAccessLists | sim/statedb.go:448-462 | an empty access-list slot map and an absent one answer alike |
| Journal.AlikeAnswers | sim/statedb.go:231-462 | overlays equal up to empty slot maps answer every getter alike, whatever lies below |
| Journal.JournalRefinesCopies | sim/statedb.go:177-486 | any sequence of mutators, nested snapshots and reverts that never sets code over code answers every getter as a stack of full copies would |
| Getters.NormSlotIsCell | sim/statedb.go:28-31 | two slots share a cell exactly if they differ at most in the lowest bit of the first byte, and the stored key has that bit clear |
| Getters.StateReadBack | sim/statedb.go:311-347 | a write is read back in its cell, and every other mutator leaves a storage read alone |
| Getters.UnwrittenState | sim/statedb.go:311-322 | with no override in the cell the shared state answers |
| Getters.BalanceReadBack | sim/statedb.go:231-251 | a balance reads as it was set, zero after a destruct, and is left alone by every other mutator |
| Getters.NonceReadBack | sim/statedb.go:255-267 | the same for the nonce |
| Getters.CodeReadBack | sim/statedb.go:269-307 | the same for code and code hash |
| Getters.LifecycleReadBack | sim/statedb.go:366-408 | destruction and existence after every mutator |
| Getters.TransientReadBack | sim/statedb.go:349-362 | the same as for storage, without cells |
| Getters.WarmReadBack | sim/statedb.go:448-486 | exactly what was added is warm, besides what was |
| Getters.ReadsLastWrite | sim/statedb.go:311-347 | over any run of mutators a storage read is the last write of its cell, or the value before the run |
| Getters.RunCounts | sim/statedb.go:423-442 | a run adds its logs in order and the sum of its refunds |
| Getters.StartReads | sim/statedb.go:100-112 | a call starts with its overrides over the shared state, and its committed storage is what it sees then |
| Getters.EmptyMeansNothing | sim/statedb.go:410-419 | empty means no nonce, no balance and no code |
| Getters.CallReadsLastWrite | sim/statedb.go:177-347 | anywhere in a call with nested snapshots and reverts a storage read is the last write of its cell that was not reverted |
| StateDb.StateDB.RevertToSnapshot | sim/statedb.go:179-227 | the backward loop undoes exactly the entries above the snapshot |
| StateDb.StateDB.GetBalance | sim/statedb.go:137-147 | the getter reads the overlay's balance or the shared state's |
| StateDb.StateDB.GetNonce | sim/statedb.go:255-261 | the getter reads the overlay's nonce or the shared state's |
| StateDb.StateDB.GetCodeHash | sim/statedb.go:269-281 | the getter reads the overlay's code hash, or zero, the empty hash or the account's own as the shared state has it |
| StateDb.StateDB.GetCode | sim/statedb.go:283-297 | the getter reads the overlay's code or the code of the visible hash |
| StateDb.StateDB.GetState | sim/statedb.go:311-322 | the getter reads the overlay's slot under its normalized key or the shared state's: the getter Getters.StateReadBack is about |
| StateDb.StateDB.GetCommittedState | sim/statedb.go:327-338 | the getter reads the value before the call, overrides included |
| StateDb.StateDB.GetTransientState | sim/statedb.go:349-351 | the getter reads the transient value or zero |
| StateDb.StateDB.HasSelfDestructed | sim/statedb.go:382-385 | the getter tells whether the address was destructed in the call |
| StateDb.StateDB.Exist | sim/statedb.go:393-408 | the getter tells whether there is any trace in the overlay or an account below |
| StateDb.StateDB.Empty | sim/statedb.go:410-419 | the getter tells whether there is no nonce, no balance and no code |
| StateDb.StateDB.AddressInAccessList | sim/statedb.go:448-451 | the getter tells whether the address is warm |
| StateDb.StateDB.SlotInAccessList | sim/statedb.go:453-463 | the getter tells whether the address is warm and whether the slot is |
| StateDb.StateDB.AddSlotToAccessList | sim/statedb.go:472-486 | warms address and slot, journaling only what was cold |
| StateDb.StateDB.SetStateTo | sim/statedb.go:340-347 | sets the slot and journals its previous override |
| StateDb.StateDB.SetTransientTo | sim/statedb.go:353-362 | the same for transient storage |
| StateDb.StateDB.AddBalance | sim/statedb.go:245-247 | adds to the visible balance modulo 2^256 and journals the previous override |
| StateDb.StateDB.SubBalance | sim/statedb.go:249-251 | the same for subtraction |
| StateDb.StateDB.SetNonceTo | sim/statedb.go:263-267 | sets the nonce and journals its previous override |
| StateDb.StateDB.DepositCode | sim/statedb.go:303-307 | sets code and hash and journals a deletion |
| StateDb.StateDB.Create | sim/statedb.go:366-372 | marks the address created, once |
| StateDb.StateDB.RefundAdd | sim/statedb.go:423-426 | adds to the 64-bit refund and journals the previous one |
| StateDb.StateDB.RefundSub | sim/statedb.go:428-435 | subtracts what is there and leaves an underflow unchanged |
| StateDb.StateDB.AppendLog | sim/statedb.go:439-442 | appends and journals one log |
| StateDb.StateDB.AddAddressToAccessList | sim/statedb.go:465-470 | warms the address, journaling only if it was cold |
| StateDb.StateDB.Destruct6780 | sim/statedb.go:387-391 | destructs only an account created in this call |
| Keys.IncKey | follower/sync/sync.go:602-611 | the next key is exactly one higher, and there is none only after all 0xff |
| Keys.TruncateAt | follower/sync/sync.go:514-529 | keeps exactly the keys up to the end and reports whether any was dropped |
| Keys.SplitRange | follower/sync/sync.go:532-567 | the ranges are contiguous from the start to the top, and every bound fits the key if and only if quotient plus remainder reach n - 1 |
| Keys.WideSpansSplit | follower/sync/sync.go:532-567 | a span of at least n·(n-1) always splits |
| Keys.NarrowSplitFails | follower/sync/sync.go:545-550 | a 32-byte start four keys short of the top, whose fourth range would begin past it |
| Keys.RangesPartition | follower/sync/sync.go:532-567 | every key from the start on lies in exactly one of the ranges |
| Loader.Advance | follower/sync/sync.go:475-509 | a worker's handling of a response: cut at the end, stop when exhausted, refuse an empty response that promises more, else continue one past the last key |
| LoaderSafety.ReceivedOk | follower/sync/sync.go:326-364 | after any legal response, every leaf of the range is written, in hand, or still ahead |
| LoaderSafety.SendAccount | follower/sync/sync.go:412-426 | the queue row before the account row: no committed prefix has an account with storage neither queued nor complete |
| LoaderSafety.SendSlot | follower/sync/sync.go:474-497 | a slot bundle sent in key order within its part, and in a sub-range only after the whole warmup, keeps the loader's invariant |
| LoaderSafety.SentIsWritten | follower/sync/sync.go:412-497 | a leaf that is sent has its row, and an account with storage its queue row |
| LoaderSafety.EventIsWritten | follower/sync/sync.go:276-299 | what finishing, dequeueing, claiming, sweeping, committing and completing write |
| LoaderSafety.ResumeOk | follower/sync/sync.go:132-146 | starting after the committed watermark skips no leaf |
| LoaderSafety.ResumeSkipsCommitted | follower/sync/sync.go:132-146 | and it fetches nothing committed again, except that a segment at the very last key starts over |
| LoaderSafety.DequeueKeeps | follower/sync/sync.go:276-299 | a queue row is deleted only when warmup and sub-ranges together have written every slot |
| LoaderSafety.SweepKeeps | follower/sync/sync.go:572-599 | once the missing codes are written, every referenced code is there, and each is the one its hash names |
| LoaderSafety.CompleteKeeps | store/store.go:386-414 | a finish that is not refused finds every leaf and code on disk |
| LoaderSafety.StepKeepsInv | follower/sync/sync.go:118-373 | every step of workers and writer, and a crash, keeps every committable prefix sound |
| LoaderSafety.BlockKeeps | store/store.go:207-214 | a block captured between the loader's commits, its codes content-addressed, leaves every prefix of the load sound |
| LoaderSafety.LoadIsSound | follower/sync/sync.go:106-240 | from a sound disk through any interleaving, crash and restart, committed rows are true leaves and true codes; once complete no leaf is missing and the code of every account that has one reads as its hash names |
| LoaderSafety.UntouchedDiskOk | store/store.go:229-243 | a store no load has touched, whatever blocks and true codes it holds, is a sound disk to start from |
| Boundaries.ResumeSafeIff | follower/sync/sync.go:442-459 | for all tries and all runs with the old ranges from an untouched store, crashes included, resuming a new range at its watermark skips no missing slot if and only if the range lies inside one old range or ends no later than the first old sub-range |
| Boundaries.SoundDiskResumes | follower/sync/sync.go:442-459 | on every sound disk a safe range may be resumed at its watermark |
| Boundaries.MovedBoundaryLeavesHole | follower/sync/sync.go:68-82 | for every other range there are a trie and a run of the loader that reaches a disk with a slot missing behind the range's watermark |
| LoadRuns.SubRangeFirst | follower/sync/sync.go:246-299 | for a trie with one warmup slot and one slot from the chosen sub-range on, a run from an empty store through all segments and the warmup commits exactly these two, whatever slots lie between |
| Watermarks.FloorIsGreatest | store/read.go:236-252 | seek, then last or one step back, finds the greatest key at or before the seek |
| Watermarks.MaxBaseAccountIsWatermark | store/read.go:228-262 | the read returns the greatest account row of the segment, and nothing only if there is none |
| Watermarks.MaxBaseSlotIsWatermark | store/read.go:268-310 | the read returns the greatest slot row of the account within the range, and nothing only if there is none |
| Baseline.Writer.Add | store/store.go:246-260 | the row is pending or, with the chunk it fills, committed; nothing is reordered |
| Baseline.Writer.Flush | store/store.go:289-321 | one transaction commits everything added, the bitmap included |
| Baseline.Writer.MarkDone | follower/sync/sync.go:165-168 | a segment's bit is pending behind its rows and never on disk before them |
| Baseline.Writer.Finish | store/store.go:386-414 | completes exactly when no queue row is left, and clears the progress; otherwise only flushes |
| Baseline.QueueProbe | store/store.go:396-402 | one seek to the queue prefix tells whether any queue row exists |
| Baseline.MissingCodeHashes | store/read.go:352-393 | the cursor scan returns each code hash an account row names and no code row has, once, and no other; it fails exactly on a row that does not decode |
| Baseline.NextPassesOne | store/read.go:363-367 | one cursor step passes exactly the key it was on |
| Baseline.ScanFeedsSweep | follower/sync/sync.go:572-599 | on a sound disk the scan succeeds and what it returns is all the sweep has to write |
| LoadedReads.RowsAreBaseline | follower/sync/sync.go:379-426 | rows that are the tries' leaves are a true baseline, and all of them a full one |
| LoadedReads.LoadKeepsChain | follower/sync/sync.go:106-240 | at every point of every load, with crashes and with blocks captured beside it, the store stands for its chain as it is then |
| LoadedReads.CompletedLoadAnswers | store/store.go:386-414 | after completion every account and slot read at or above S is the reference value of the chain captured so far |
| LoadedReads.FirstLoadAnswers | follower/sync/sync.go:106-240 | from a new store at S, when a load completes every read at or above S is the baseline state with the blocks captured meanwhile applied |
| LoadedReads.CodesDuringLoad | follower/sync/sync.go:379-426 | at every point of every load the code of every captured block can be read; after completion so can that of every baseline account |
| Engine.View.Ask | engine/engine.go:45-83 | overrides answer first, everything else is a read of the tip view through the executor's buffer, and setters change only their key |
| Engine.ReadsAreLookups | engine/engine.go:51-87 | on a complete baseline the view's reads are the tip view's lookups |
| Engine.OneEvaluation | engine/engine.go:136-153 | on one state a call has one evaluation |
| Engine.CallIsToldBalance | engine/engine.go:51-63 | a balance read is what the call set last, or the state's balance, zero for no account |
| Engine.CallIsToldState | engine/engine.go:65-83 | the same for slots; an account read is always the state's |
| Engine.BatchReadsOneState | engine/engine.go:136-153 | every call of a batch, on any executor and with any buffers, is answered from the reference state at the batch's start |
| Engine.StampTellsChainIff | mem/mem.go:249-263 | equal stamps mean an equal chain if and only if neither is stale from an empty reset, or both are and nothing was finalized between |
| Engine.ExecuteIsReference | engine/engine.go:121-153 | every call of a returned batch was answered from one reference state, which is the one current at the final check whenever the stamps are on the same footing; the chains are equal exactly then |
| Engine.EmptyResetKeepsStamp | mem/mem.go:434-444 | an empty reset keeps the stamp and changes an answer |
| Votes.BubbleUp | follower/consensus/consensus.go:819-834 | the loop computes the walk |
| Votes.BubbleFindsNearest | follower/consensus/consensus.go:819-834 | a vote goes to the nearest ancestor consensus can count; a blocked walk ends at the first unknown container |
| Votes.CastIsVotable | follower/consensus/consensus.go:334-355 | a cast vote is for a block consensus can count, and nothing parks unless allowed |
| Votes.ChoiceIff | follower/consensus/consensus.go:334-355 | by ancestry alone: a vote parks exactly if allowed and the first option's ancestry ends at an unknown container; else it goes to the nearest countable ancestor of the first option that has one, then of the peer's frontier; it is dropped exactly if neither has one |
| Votes.Decide | follower/consensus/consensus.go:334-355 | the loop over options makes the choice that Votes.ChoiceIff describes |
| Votes.Router.Apply | follower/consensus/consensus.go:334-355 | the ballot in hand becomes one vote, one drop, or one parked ballot |
| Votes.Router.OnChits | follower/consensus/consensus.go:294-325 | an expected answer is taken up once and at most parked with its own deadline; any other only updates the peer's frontier |
| Votes.Router.SendPoll | follower/consensus/consensus.go:743-781 | every sampled validator is seated: connected ones wait, the others are settled |
| Votes.Router.Arrived | follower/consensus/consensus.go:623-640 | the ballots parked on a container are settled in order when it arrives |
| Votes.Router.ExpirePolls | follower/consensus/consensus.go:802-814 | exactly the polls past their deadline are closed, with every validator left in them called; the others stay as they were |
| Votes.Router.ExpireParked | follower/consensus/consensus.go:783-800 | exactly the ballots past their deadline are called; the others stay parked, in order, with their deadlines |
| Votes.Router.Tick | follower/consensus/consensus.go:379-394 | both at once: open polls and parked ballots are the old ones within their deadlines |
| Votes.AtMostOneCall | follower/consensus/consensus.go:294-355 | no seat has two calls, and one that had its call neither waits nor is parked |
| Votes.ExactlyOnce | follower/consensus/consensus.go:783-814 | over any run of handlers, from a tick past a seat's poll deadline and past any deadline it was parked with, the seat has exactly one call |
| Votes.TickKeepsSeat | follower/consensus/consensus.go:783-814 | a tick leaves whoever is within their deadline where they are, under the same deadline |
| Votes.KeptInOrder | follower/consensus/consensus.go:783-800 | ballots that stay parked keep their order |
| Votes.StaysDue | follower/consensus/consensus.go:294-325 | no handler gives a seat more time than its own answer's parking does |
| Backfill.Walker.Receive | follower/consensus/consensus.go:489-510 | only the anchor or the verified next parent down is kept, and the map stays a gap-free chain exactly unless a container is taken below a block of height zero |
| Backfill.Walker.ReceiveAll | follower/consensus/consensus.go:357-376 | over a response with any junk the chain stays gap-free, and it ends at the first height that is the target or zero |
| Backfill.Walker.StartPoint | follower/consensus/consensus.go:526-545 | the forward pass starts at the resume height with the hash the store knows, or not at all |
| Backfill.StartIsResume | follower/consensus/consensus.go:526-545 | the start point is at the resume height with the stored hash, and missing exactly if the chain has no such block there |
| Backfill.FinishedHoldsResume | follower/consensus/consensus.go:512-540 | a finished walk contains the resume height if and only if it is not above the anchor |
| Backfill.WindowHeldIff | follower/consensus/consensus.go:512-524 | a stopped walk holds the header window down to zero if and only if the resume point is not below the window's size, or is zero |
| Backfill.LowResumeHasNoWindow | follower/consensus/consensus.go:512-524 | the concrete case: resuming at one with a window of two leaves out the block at zero |
| Backfill.WalkLeavesGap | follower/consensus/consensus.go:489-510 | from any height of the walk to the anchor nothing is missing |
| Backfill.Forward | follower/consensus/consensus.go:562-582 | each height from the start to the anchor is accepted by the tracker once, in order; it stops early only at a block that does not execute |
| Backfill.BatchesAreHeights | follower/consensus/consensus.go:562-582 | the batches of the executed gap are those of its heights, one for each and in order |
| Backfill.FinishBootstrap | follower/consensus/consensus.go:526-582 | from a finished walk every height after the start point up to the anchor is added to the tracker's chain exactly once and in order, and the finalized mark is then at the anchor; it fails exactly if the walked chain has no container or another hash at the resume height, or a block of the gap does not execute |
| SuiteCache.Cache.Load | suitecache/suitecache.go:71-123 | the loop accepts and builds what the record grammar says, refusing a code whose 32-bit end wraps around |
| SuiteCache.FileLoadsIff | suitecache/suitecache.go:71-123 | a file loads exactly if it is the magic, the block and renderings of records, and gives the maps these put |
| SuiteCache.EntryStandsFor | suitecache/suitecache.go:133-147 | an entry gives back the account read it was made of |
| SuiteCache.Cache.GetAccount | suitecache/suitecache.go:133-147 | hit or miss, the answer is the store's read at the block, presence and account alike, and the cache stays true |
| SuiteCache.Cache.GetSlot | suitecache/suitecache.go:150-165 | the same for slots |
| SuiteCache.Cache.GetCode | suitecache/suitecache.go:168-182 | the same for code |
| SuiteCache.Cache.Close | suitecache/suitecache.go:185-222 | for every iteration order, loading the written file gives back exactly the three maps, if and only if every code with its 36-byte header ends within 32 bits |
| SuiteCache.LoadEncoded | suitecache/suitecache.go:71-123 | loading encoded records that fit puts them one after the other |
| SuiteCache.EntriesStayTrue | suitecache/suitecache.go:1-8 | true entries stay true as the store goes on, so no file needs invalidating |
| SuiteCache.EveryUseIsTrue | suitecache/suitecache.go:49-222 | over any number of open, read and close cycles, with the store going on between them, every cached entry is the store's read at the fixed block |

## Left out

- LMDB itself, files and rename: transactions are atomic steps on a map; an I/O failure stops the process.
- Keccak, RLP and range proofs: the hash is a parameter, and a response is any leaf prefix with a correct more flag.
- The EVM, receipts and block validation: executing a block gives its batch.
- The snowman library and its poll set: what consensus holds between two calls is a parameter.
- Goroutines and lock scheduling: phases and steps take their place, and termination of the engine's retry loop is not claimed.
- The store's cached genesis and completion flags (store/store.go:112-147): each read looks at the rows.
- Preimage-keyed baseline rows and node/baseline.go: ordering checks that add only easy members.
- StorageQueueAfter's paging: a queue row the scan missed would make Finish refuse, so soundness does not depend on it.
- The progress row's bit layout: the bitmap is a set of segments.
- The option that ignores storage watermarks for one run (follower/sync/sync.go:77-82): it only starts sub-ranges over.
- Headers kept for BLOCKHASH, counters, logging and error texts.
- A new bus writer epoch and the resync after it.
- A reader process whose tip is older than the store's head: it may see newer values by design.
- Executing again after a crash between the block write and the finalized mark: only that the rewrite is idempotent is claimed.
- Preparing a call and its read failures in sim/statedb.go: the journal starts from any overlay, and reads below it succeed.
- Issuing containers to consensus and fetching unknown ones (follower/consensus/consensus.go:645-740): bookkeeping of requests.
