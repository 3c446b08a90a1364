# kwokka verification

A Dafny model of five components of the kwokka runtime, with proofs about every run, every input or
every reachable state of each. `dafny verify dfyconfig.toml` checks the project.

## What is modelled

**The bounded MPSC ring** (`MpscRing`, `MpscSafety`, `MpscTheorems`, `MpscCalls`, `MpscWrap`). Each load,
exchange and store of `push` and `pop` is one labelled step; a run is any sequence of labels, so the theorems cover
every interleaving of any number of producers with the consumer, under sequential consistency. The same
transition function runs on unbounded positions and on wrapping words, and the two are related.

**Multishot receive** (`RecvRegistry`, `RecvImage`, `RecvSlab`, `Token`, `RecvDrain`, `RecvStreams`,
`CancelInbox`, `BufRing`, `RecvProtocol`, `RecvSafety`, `RecvTheorems`, `RecvRefinement`). `RecvRegistry` says
what the registry and the drains do on values. `RecvSlab`, `RecvDrain`, `RecvStreams`, `CancelInbox` and
`BufRing` do it in place, on packed bytes, bitmaps and rings, and are proved to do exactly that.
`RecvProtocol` runs the values against a kernel. The kernel is assumed to pick ids from the ring in order,
to name at most one id per completion and only with a non-negative result, to post one completion without
`MORE` per op and nothing after it, and to answer an accepted cancel with one bufferless completion under
the same sentinel, before or after the op's own last one. A run is timely when every pending completion
belongs to one of its slot's last 2^16 uses; `RecvTheorems.SentinelAliases` shows why that is needed.

**The IR codec** (`IrModel`, `IrReader`, `IrCheck`, `IrAccepted`, `IrLoops`, `IrEncoding`, `IrWriter`,
`IrDecoding`, `IrSections`, `IrRoundTrip`, `IrVerdict`, `IrRefusal`). The writer fills an array in place, field
by field; the reader's checks are functions on bytes, each loop a method proved to compute its function. Unbounded
naturals are exact here: wherever the reader's checked arithmetic would overflow, the slice that follows
would fail with the same error, and wherever the writer's would, the blob exceeds the wire range anyway.

**The generational slab** (`SlabModel`, `SlabTheorems`, `SlabImpl`) and **the bump arena** (`Arena`).
Slab keys are those the slab issues, which carry odd generations; a lookup with an even one is undefined
in the original.

`Revision` is the 24-bit generation counter both use. `Bits`, `Bytes`, `Words` and `Basics` hold the
arithmetic of masks and little-endian fields.

## Findings

Where the code and its documentation disagree the model follows the code.

- `generation/revision.rs` says a slot must be recycled 2^24 times before a stale handle collides. Each
  recycling moves the generation twice, so it is 2^23 fills (`SlabTheorems.ReuseIsExact`, `ReuseHappens`).
- `flat/writer.rs` says in-range edge and binding ordinals make the output round-trip. The sorted index must
  also be in range and in name order (`IrVerdict.RoundTrip`, `OrdinalsAloneDoNotSuffice`).
- `registry/name.rs` says the codec does not enforce a sorted index. It does (`IrLoops.BytesSearchable`).
- `registry/name.rs` says a lookup answers nothing only when no stage carries the name. The codec lets the index
  repeat an ordinal and miss another, whose stage is then never found (`IrVerdict.IndexMayMissAStage`). Lookup
  finds every stage exactly when the index leads to every stage's name (`IrVerdict.LookupFindsAll`).
- `sync/mpsc.rs` admits a ring of one slot, which loses values (`MpscTheorems.FifoIffTwoSlots`).
- `cancel/inbox.rs` says that when a full inbox drops a cancel the op's terminal completion still frees the
  slot. Without the mark it does not (`RecvTheorems.UnmarkedTerminalKeepsSlot`); no run fills the inbox
  (`RecvTheorems.InboxNeverFull`).
- `ring/pool.rs` lists more than 32768 entries as an error of its own. No 16-bit count reaches it: those above are
  already refused as no power of two (`BufRing.ParamsExact`).
- `slab/slab.rs` says `Full` means all slots are occupied; reserved slots count too
  (`SlabTheorems.FullIsExact`).
- `arena/bump.rs` lists `WrongPhase` first among the errors of `alloc_with_drop` and `alloc_slice`; a full
  registry and a bad size are reported before it.

## Model

| member | source | states |
|---|---|---|
| `MpscSafety.StepInv` | crates/kwokka-runtime/src/sync/mpsc.rs:148-215 | every atomic step of any producer or the consumer keeps slot ownership, sequence and counter invariants |
| `MpscSafety.RunInv` | crates/kwokka-runtime/src/sync/mpsc.rs:148-215 | the invariant holds after every interleaving of any number of producers with the consumer, for every power-of-two ring of at least two slots |
| `MpscSafety.SequenceMeaning` | crates/kwokka-runtime/src/sync/mpsc.rs:151-171 | what a loaded sequence says of a held position: behind it exactly when the ring is full at that position, equal only inside the window |
| `MpscTheorems.PoppedIsClaimedPrefix` | crates/kwokka-runtime/src/sync/mpsc.rs:148-215 | in every interleaving the pops returned exactly the claimed values in claim order, and every published value is popped or still intact in its slot |
| `MpscTheorems.CellOwnersAreExclusive` | crates/kwokka-runtime/src/sync/mpsc.rs:148-215 | no two threads own one cell at the same time |
| `MpscTheorems.FullIsExact` | crates/kwokka-runtime/src/sync/mpsc.rs:148-171 | a push reports full exactly when all slots are claimed and unreleased at the instant of its sequence load |
| `MpscTheorems.EmptyIsExact` | crates/kwokka-runtime/src/sync/mpsc.rs:193-201 | a pop reports empty exactly when its position is not published yet |
| `MpscTheorems.OccupancyBound` | crates/kwokka-runtime/src/sync/mpsc.rs:193-215 | claims are at most N + 1 ahead of `dequeue_pos`, and N + 1 only between the consumer's two stores |
| `MpscTheorems.OneSlotLoses` | crates/kwokka-runtime/src/sync/mpsc.rs:95-100 | a one-slot ring, which the assertion admits, overwrites an unread value: a concrete run |
| `MpscTheorems.FifoIffTwoSlots` | crates/kwokka-runtime/src/sync/mpsc.rs:95-100 | first-in first-out holds in every run if and only if there are at least two slots |
| `MpscCalls.EveryPushHasOneFate` | crates/kwokka-runtime/src/sync/mpsc.rs:148-176 | in every run each call of `push` is exactly one of three: still trying with its caller's value, refused with it, or the owner of exactly one claim of it |
| `MpscCalls.ReturnsRefusedOrPublished` | crates/kwokka-runtime/src/sync/mpsc.rs:148-176 | a push returns only refused, handing its own value back, or published |
| `MpscCalls.PoppedInCallOrder` | crates/kwokka-runtime/src/sync/mpsc.rs:148-215 | what one thread pushed is popped in the order it pushed it, each value as its caller passed it |
| `MpscCalls.PushAloneEnds` | crates/kwokka-runtime/src/sync/mpsc.rs:148-171 | from any reachable state a push left alone ends within four of its own steps: refused if the ring is full, else it owns the next position |
| `MpscWrap.ClassifyWraps` | crates/kwokka-runtime/src/sync/mpsc.rs:153-171 | the wrapping gap test reads as the unbounded comparison while the two are less than half the range apart |
| `MpscWrap.ClassifyExact` | crates/kwokka-runtime/src/sync/mpsc.rs:153-171 | half the range is the exact limit of that agreement |
| `MpscWrap.SlotWraps` | crates/kwokka-runtime/src/sync/mpsc.rs:151 | the mask picks the same slot from a wrapped position |
| `MpscWrap.WrappedRunAgrees` | crates/kwokka-runtime/src/sync/mpsc.rs:148-215 | every run of the wrapping machine is the wrap of the unbounded run while no producer lags its slot by half the range |
| `MpscWrap.New` | crates/kwokka-runtime/src/sync/mpsc.rs:94-117 | the seeding loop yields the initial ring |
| `MpscWrap.TeardownFacts` | crates/kwokka-runtime/src/sync/mpsc.rs:238-267 | at exclusive access every unpopped claim sits written in its slot |
| `MpscWrap.DropRing` | crates/kwokka-runtime/src/sync/mpsc.rs:238-267 | teardown over wrapped counters releases each claimed value that was never popped, once, in order |
| `RecvImage.RaiseHas` | crates/kwokka-io/src/buffer/multishot/recv.rs:489-491 | setting a bitmap bit changes that slot's flag alone |
| `RecvImage.LowerHas` | crates/kwokka-io/src/buffer/multishot/recv.rs:489-491 | clearing a bitmap bit changes that slot's flag alone |
| `RecvImage.SetGet` | crates/kwokka-io/src/buffer/multishot/recv.rs:400-476 | writing one packed metadata field changes no other field and no other slot |
| `RecvImage.SetEntryAt` | crates/kwokka-io/src/buffer/multishot/recv.rs:479-481 | writing one FIFO entry changes no other entry and no other slot's ring |
| `RecvImage.WindowGrows` | crates/kwokka-io/src/buffer/multishot/recv.rs:224-235 | writing behind the last entry, around the ring, appends to the slot's queue |
| `RecvSlab.RecvMultishotSlab.constructor` | crates/kwokka-io/src/buffer/multishot/recv.rs:157-172 | zeroed regions are the empty registry of the clamped capacity |
| `RecvSlab.RecvMultishotSlab.Allocate` | crates/kwokka-io/src/buffer/multishot/recv.rs:177-192 | in place on bytes and bitmaps: the least free slot, emptied, with its current generation, or nothing |
| `RecvSlab.RecvMultishotSlab.Push` | crates/kwokka-io/src/buffer/multishot/recv.rs:201-236 | a live slot queues data, stashes a terminal outside the FIFO, refuses data when full; a stale one is left alone |
| `RecvSlab.RecvMultishotSlab.Pop` | crates/kwokka-io/src/buffer/multishot/recv.rs:241-264 | takes the oldest queued entry of a live key and nothing else |
| `RecvSlab.RecvMultishotSlab.TakeTerminal` | crates/kwokka-io/src/buffer/multishot/recv.rs:274-284 | yields the stashed terminal once |
| `RecvSlab.RecvMultishotSlab.Owner` | crates/kwokka-io/src/buffer/multishot/recv.rs:288-293 | the owner of a live slot |
| `RecvSlab.RecvMultishotSlab.IsTerminated` | crates/kwokka-io/src/buffer/multishot/recv.rs:296-302 | whether a live key's op has terminated |
| `RecvSlab.RecvMultishotSlab.MarkCancelPending` | crates/kwokka-io/src/buffer/multishot/recv.rs:305-311 | marks a live key's slot and no other |
| `RecvSlab.RecvMultishotSlab.Free` | crates/kwokka-io/src/buffer/multishot/recv.rs:314-326 | empties a live key's slot and bumps its wrapping generation |
| `RecvSlab.RecvMultishotSlab.IsCancelPending` | crates/kwokka-io/src/buffer/multishot/recv.rs:329-335 | whether a live slot waits for its terminal completion |
| `RecvSlab.RecvMultishotSlab.FreeBySlot` | crates/kwokka-io/src/buffer/multishot/recv.rs:341-353 | the same free, named by slot and low generation bits |
| `RecvSlab.RecvMultishotSlab.IsLive` | crates/kwokka-io/src/buffer/multishot/recv.rs:356-365 | full-generation liveness |
| `RecvSlab.RecvMultishotSlab.SlotIsLive` | crates/kwokka-io/src/buffer/multishot/recv.rs:368-375 | low-16-bit liveness |
| `RecvSlab.RecvMultishotSlab.FirstFree` | crates/kwokka-io/src/buffer/multishot/recv.rs:378-397 | the specification's least free slot |
| `RecvSlab.ScanFree` | crates/kwokka-io/src/buffer/multishot/recv.rs:378-397 | the inverted-word scan finds the least clear bit below the cap, or none when all are set |
| `Token.SentinelRoundTrip` | crates/kwokka-io/src/boundary/cancel/token.rs:103-140 | a sentinel decodes to its slot and low generation bits and belongs to no other completion family |
| `RecvDrain.RecycleProvided` | crates/kwokka-io/src/boundary/seam/drain.rs:106-113 | returns an id to the pool when there is one |
| `RecvDrain.PushRecvMultishotCompletion` | crates/kwokka-io/src/boundary/seam/drain.rs:137-176 | routes a completion in place: registry, wake and retire targets and recycled buffer as specified |
| `RecvDrain.SubmitRecvMultishotCancel` | crates/kwokka-io/src/boundary/seam/drain.rs:287-321 | drains the dropped stream's queue and stash to the ring, then frees a terminated slot or marks it and cancels |
| `RecvDrain.DrainQueue` | crates/kwokka-io/src/boundary/seam/drain.rs:294-298 | the loop takes every queued entry and recycles exactly its buffers, in order |
| `RecvDrain.RecvMultishotNext` | crates/kwokka-io/src/boundary/seam/state.rs:1190-1224 | one stream step: queued data, then the terminal once, then the end with the slot freed |
| `RecvDrain.AllocateRecvMultishotSlot` | crates/kwokka-io/src/boundary/seam/state.rs:1138-1167 | a fresh slot whose sentinel resolves to it, or full, or unsupported |
| `RecvStreams.RecvStream.Start` | crates/kwokka-net/src/tcp/recv.rs:130-153 | an op in flight, or a fallback that leaves no slot behind |
| `RecvStreams.RecvStream.PollNext` | crates/kwokka-net/src/tcp/recv.rs:81-109 | the stream's state and the registry after one poll |
| `RecvStreams.RecvStream.Drop` | crates/kwokka-net/src/tcp/recv.rs:112-123 | a dropped stream queues its key exactly when its op is in flight |
| `RecvStreams.PollIsProtocol` | crates/kwokka-net/src/tcp/recv.rs:81-109 | the protocol's poll transition is this poll, on the registry and the stream's state |
| `RecvStreams.PollTells` | crates/kwokka-net/src/tcp/recv.rs:94-109 | a poll hands its caller an item exactly when the protocol's op yielded that entry and lent its buffer, pending exactly when it yielded nothing and stays in flight, the end exactly when it is done |
| `RecvStreams.StartExact` | crates/kwokka-net/src/tcp/recv.rs:130-153 | a stream goes in flight exactly when a slot was free and the op was submitted; a fallback leaves no slot behind |
| `RecvStreams.DropIsProtocol` | crates/kwokka-net/src/tcp/recv.rs:112-123 | the protocol's drop transition is this drop |
| `CancelInbox.SetKeyAt` | crates/kwokka-io/src/boundary/cancel/inbox.rs:219-221 | writing one packed 11-byte record leaves every other record alone |
| `CancelInbox.RecvCancelInbox.constructor` | crates/kwokka-io/src/boundary/cancel/inbox.rs:188-198 | an empty ring |
| `CancelInbox.RecvCancelInbox.PushCancel` | crates/kwokka-io/src/boundary/cancel/inbox.rs:206-224 | appends to the FIFO, or drops the cancel when full |
| `CancelInbox.RecvCancelInbox.Pop` | crates/kwokka-io/src/boundary/cancel/inbox.rs:227-248 | takes the oldest cancel |
| `BufRing.BufRingPool.New` | crates/kwokka-io/src/buffer/ring/pool.rs:67-94 | a pool offers every id once in order, or names the bad parameter |
| `BufRing.ParamsExact` | crates/kwokka-io/src/buffer/ring/pool.rs:163-183 | a pool is built exactly for a positive buffer size and a power of two up to 2^15 entries; which error otherwise |
| `BufRing.BufRingPool.Recycle` | crates/kwokka-io/src/buffer/ring/pool.rs:132-138 | writes at the tail an entry that offers exactly the storage of that id |
| `BufRing.BufRingPool.Push` | crates/kwokka-io/src/buffer/ring/memory.rs:75-94 | masked by the wrapping 16-bit tail, an entry lands behind the unread ones |
| `BufRing.BufRingPool.Pick` | crates/kwokka-io/src/buffer/ring/memory.rs:20-30 | the kernel's read counter yields the offered entries in order, each the whole storage of its id, inside the pool |
| `BufRing.MaskedSlot` | crates/kwokka-io/src/buffer/ring/memory.rs:76-77 | the masked 16-bit counter names the slot of the unbounded one across its wrap |
| `BufRing.OfferAllRoom` | crates/kwokka-io/src/buffer/ring/memory.rs:75-94 | with room, offering appends and overwrites nothing |
| `BufRing.OfferOverfull` | crates/kwokka-io/src/buffer/ring/memory.rs:75-94 | a full ring would lose its oldest id and offer the new one twice |
| `BufRing.RegionsDisjoint` | crates/kwokka-io/src/buffer/ring/pool.rs:111-123 | stretches of one size at distinct multiples never meet |
| `BufRing.BufRingPool.EntriesDisjoint` | crates/kwokka-io/src/buffer/ring/pool.rs:79-82 | entries of different ids never offer the kernel a common byte |
| `BufRing.BufRingPool.Get` | crates/kwokka-io/src/buffer/ring/pool.rs:111-123 | the slice of the storage a completion names |
| `BufRing.BufRingPool.ReceivedIsRead` | crates/kwokka-io/src/buffer/ring/pool.rs:111-123 | what the kernel receives into a picked entry is what `get` reads for its id, and no other id sees it |
| `RecvSafety.StepKeepsInv` | crates/kwokka-io/src/boundary/seam/drain.rs:137-321 | every step of streams, drains, inbox and kernel keeps the protocol invariant |
| `RecvTheorems.RunSafe` | crates/kwokka-io/src/boundary/seam/drain.rs:137-321 | the invariant and buffer conservation hold in every run whose pending completions are of recent slot uses |
| `RecvTheorems.BuffersConserved` | crates/kwokka-io/src/boundary/seam/drain.rs:137-176 | in every run each buffer id is in exactly one place: ring, pending completion, FIFO, stash or a consumer's hands |
| `RecvTheorems.StepConserves` | crates/kwokka-io/src/boundary/seam/drain.rs:287-321 | each step conserves every buffer, whether the stream is live, overflowed, stale, dropped, cancelled or terminated |
| `RecvTheorems.RetiresOnce` | crates/kwokka-io/src/boundary/seam/drain.rs:145-176 | each op retires its owner at most once, and exactly once when its last completion is drained or its slot freed |
| `RecvTheorems.StreamOrder` | crates/kwokka-io/src/boundary/seam/state.rs:1190-1224 | a live stream has yielded a prefix of what was kept in arrival order, and one that ended saw all of it, terminal last |
| `RecvTheorems.StreamAnswers` | crates/kwokka-io/src/boundary/seam/state.rs:1190-1224 | in every run a live stream's poll answers the next kept entry, and ends exactly when all are out and the last completion is drained |
| `RecvTheorems.NothingLeaks` | crates/kwokka-io/src/boundary/seam/drain.rs:287-321 | once streams, cancels and completions are at rest every slot is free and every buffer on the ring or lent out |
| `RecvTheorems.OccupiedIsBusy` | crates/kwokka-io/src/boundary/seam/drain.rs:287-321 | an occupied slot is a live stream's, a queued cancel's, or waits for its op's last completion |
| `RecvTheorems.AllocateExact` | crates/kwokka-io/src/buffer/multishot/recv.rs:177-192 | refused exactly when all slots are taken, else the least free one becomes a fresh cell under a key that named nothing |
| `RecvTheorems.HoldsItsCapacity` | crates/kwokka-io/src/buffer/multishot/recv.rs:157-192 | a fresh registry hands out its clamped capacity of slots, lowest first, and no more |
| `RecvTheorems.KeptUnlessFull` | crates/kwokka-io/src/buffer/multishot/recv.rs:201-236 | only data that meets a full FIFO is dropped; a terminal never is |
| `RecvTheorems.CompletionTargets` | crates/kwokka-io/src/boundary/seam/drain.rs:145-176 | a completion wakes the owner exactly when it is kept, recycles exactly when nobody is woken, retires exactly on a live slot's last |
| `RecvTheorems.UnmarkedTerminalKeepsSlot` | crates/kwokka-io/src/boundary/cancel/inbox.rs:202-205 | a terminal completion frees its slot exactly when the cancel was marked |
| `RecvTheorems.TargetsOwnTheOp` | crates/kwokka-io/src/boundary/seam/drain.rs:145-176 | in every reachable state the woken or retired task owns the op that completed |
| `RecvTheorems.SentinelAliases` | crates/kwokka-io/src/boundary/cancel/token.rs:127-129 | a freed op's sentinel names the slot's next occupant exactly when a multiple of 2^16 uses lies between |
| `RecvTheorems.InboxNeverFull` | crates/kwokka-io/src/boundary/cancel/inbox.rs:140-224 | the inbox has room for whoever may still drop; its keys are distinct live slots |
| `RecvTheorems.RingNeverOverfull` | crates/kwokka-io/src/buffer/ring/pool.rs:20-36 | the ring never holds more ids than entries, nor one twice |
| `RecvRefinement.CompletionFits` | crates/kwokka-io/src/boundary/seam/drain.rs:137-176 | in every reachable state the drain's recycled ids are the pool's and fit the ring, so `recycle` neither panics nor overwrites |
| `RecvRefinement.CancelFits` | crates/kwokka-io/src/boundary/seam/drain.rs:287-321 | the same for a cancel's drained buffers |
| `RecvRefinement.GiveBackFits` | crates/kwokka-io/src/buffer/ring/pool.rs:132-138 | the same for a buffer a consumer returns |
| `IrEncoding.Lengths` | crates/kwokka-ir/src/flat/writer.rs:98-181 | every layout offset is the length of what precedes it |
| `IrEncoding.Align8Masks` | crates/kwokka-ir/src/flat/writer.rs:69-72 | adding 7 and clearing the low bits is rounding up to 8 |
| `IrWriter.ComputeLayout` | crates/kwokka-ir/src/flat/writer.rs:81-225 | the accumulated layout, or the first failing range or arity check |
| `IrWriter.OutcomeExact` | crates/kwokka-ir/src/flat/writer.rs:261-275 | a write succeeds exactly when the blob has an encoding below 2^32 bytes and it fits; what each error means, and that a buffer of the needed size succeeds |
| `IrWriter.WriteHeader` | crates/kwokka-ir/src/flat/writer.rs:292-307 | header, root frame and body header, field by field |
| `IrWriter.WriteStageTable` | crates/kwokka-ir/src/flat/writer.rs:311-326 | every slot's record offset, zero when empty, with the running payload cursor |
| `IrWriter.WriteEdgeTable` | crates/kwokka-ir/src/flat/writer.rs:329-338 | the edge entries |
| `IrWriter.WritePolicyRecords` | crates/kwokka-ir/src/flat/writer.rs:342-380 | every present policy's framed record in slot order |
| `IrWriter.WriteRegistry` | crates/kwokka-ir/src/flat/writer.rs:384-400 | name table, sorted index and names, written to two places at once |
| `IrWriter.WriteConfig` | crates/kwokka-ir/src/flat/writer.rs:404-420 | config header, entries and keys, written to two places at once |
| `IrWriter.WriteConductor` | crates/kwokka-ir/src/flat/writer.rs:268-289 | succeeds exactly when the encoding exists and fits; then, whatever the buffer held, the prefix becomes the encoding and the rest is untouched; an error writes nothing |
| `IrReader.ReadRecord` | crates/kwokka-ir/src/flat/reader.rs:88-109 | an accepted frame is aligned, in bounds and of a known tag |
| `IrReader.DecodePolicy` | crates/kwokka-ir/src/policy/kind.rs:61-68 | a body decodes exactly when its length is its kind's |
| `IrDecoding.PolicyRoundTrip` | crates/kwokka-ir/src/policy/kind.rs:61-68 | every policy decodes from its own bytes |
| `IrDecoding.RecordRoundTrip` | crates/kwokka-ir/src/flat/reader.rs:88-109 | a framed body reads back |
| `IrDecoding.EdgeRoundTrip` | crates/kwokka-ir/src/conductor/spec.rs:116-122 | every edge entry reads back |
| `IrDecoding.SmallestBytes` | crates/kwokka-ir/src/flat/writer.rs:292-307 | the 48 bytes of a conductor without stages, one by one |
| `IrLoops.CheckSectionsDisjoint` | crates/kwokka-ir/src/conductor/check.rs:475-484 | the nested loop decides pairwise disjointness |
| `IrLoops.CheckEdgeOrdinals` | crates/kwokka-ir/src/conductor/check.rs:170-188 | refuses exactly an edge that names no stage |
| `IrLoops.CheckStagePolicies` | crates/kwokka-ir/src/conductor/check.rs:197-238 | the first failing slot's error, or none |
| `IrLoops.CheckRecordOverlaps` | crates/kwokka-ir/src/conductor/check.rs:287-305 | the first failing pair of records, or none |
| `IrLoops.ComputeFloor` | crates/kwokka-ir/src/conductor/check.rs:493-509 | past every section and record |
| `IrLoops.CheckRegistryNames` | crates/kwokka-ir/src/conductor/check.rs:364-371 | refuses exactly an unresolvable name |
| `IrLoops.CheckSortedOrdinals` | crates/kwokka-ir/src/conductor/check.rs:380-395 | refuses exactly a sorted entry that names no stage |
| `IrLoops.CheckConfigEntries` | crates/kwokka-ir/src/conductor/check.rs:454-468 | the first failing binding's error, or none |
| `IrLoops.CheckNamesInHeap` | crates/kwokka-ir/src/conductor/check.rs:516-529 | refuses exactly a name below the floor |
| `IrLoops.CheckKeysInHeap` | crates/kwokka-ir/src/conductor/check.rs:537-550 | refuses exactly a key below the floor |
| `IrLoops.CheckSortedOrder` | crates/kwokka-ir/src/conductor/check.rs:559-572 | the first rank that fails to resolve or decreases |
| `IrLoops.ParseBody` | crates/kwokka-ir/src/conductor/check.rs:58-107 | the whole pass returns the specification's verdict, errors included |
| `IrLoops.Lookup` | crates/kwokka-ir/src/registry/name.rs:16-30 | any answer is an ordinal of that name; over a searchable registry it answers exactly when a rank holds it |
| `IrLoops.AcceptedSearchable` | crates/kwokka-ir/src/conductor/check.rs:559-572 | accepted tables resolve every rank in non-decreasing name order |
| `IrLoops.BytesSearchable` | crates/kwokka-ir/src/conductor/check.rs:559-572 | the same of any bytes the reader accepts |
| `IrLoops.LookupIn` | crates/kwokka-ir/src/registry/name.rs:16-30 | over accepted bytes the search answers exactly when the index lists the name |
| `IrLoops.ListedIsNamed` | crates/kwokka-ir/src/registry/ordinal.rs:61-83 | when the index lists every ordinal, a rank holds a name exactly when a stage has it |
| `IrAccepted.PiecesDisjoint` | crates/kwokka-ir/src/conductor/check.rs:475-509 | of accepted tables, header, tables, policy records and string heap share no byte |
| `IrAccepted.BytesDisjoint` | crates/kwokka-ir/src/conductor/check.rs:475-509 | the same of any bytes the reader accepts |
| `IrAccepted.PieceBounds` | crates/kwokka-ir/src/conductor/check.rs:493-509 | every table and record lies past the header, inside the body and below the heap |
| `IrAccepted.AccessorsTotal` | crates/kwokka-ir/src/conductor/spec.rs:103-152 | of any accepted bytes, every accessor answers for exactly the entries there are, with ordinals in range |
| `IrAccepted.AcceptedHeader` | crates/kwokka-ir/src/flat/reader.rs:132-157 | accepted bytes carry the magic, a known version and their own length, and their view is an aligned conductor record inside them |
| `IrRefusal.AcceptedExactly` | crates/kwokka-ir/src/flat/reader.rs:132-157 | bytes are accepted if and only if header and root frame are in order, every table and string lies inside the body, and every entry is sound |
| `IrRefusal.ChecksExact` | crates/kwokka-ir/src/conductor/check.rs:58-107 | the checks pass exactly when sections and records are apart, each slot leads to a record of its kind, ordinals are in range, and strings lie past everything else in order |
| `IrRefusal.TablesExact` | crates/kwokka-ir/src/conductor/check.rs:325-468 | the tables are read exactly when every header field names a table, name, rank or binding inside the body and in range |
| `IrRefusal.RecordExact` | crates/kwokka-ir/src/flat/reader.rs:88-109 | when a record is read, and exactly which error it gives otherwise |
| `IrRefusal.HeaderRefusals` | crates/kwokka-ir/src/flat/reader.rs:132-149 | which error short input, a wrong magic, a newer version and a wrong length get; the magic and version errors have no other cause |
| `IrRefusal.FloorLeast` | crates/kwokka-ir/src/conductor/check.rs:493-509 | the string heap's floor is the least offset past every section and record |
| `IrRefusal.WrongKindRefused` | crates/kwokka-ir/src/conductor/check.rs:197-238 | a record of one kind in another kind's slot is refused by its tag |
| `IrAccepted.StagesTotal` | crates/kwokka-ir/src/conductor/stage.rs:32-44 | a policy accessor answers exactly when its slot is not zero |
| `IrAccepted.NamesTotal` | crates/kwokka-ir/src/registry/ordinal.rs:61-83 | every name resolves inside the heap |
| `IrAccepted.BindingsTotal` | crates/kwokka-ir/src/config/binding.rs:81-103 | every binding decodes, its key inside the heap |
| `IrSections.HeaderRead` | crates/kwokka-ir/src/flat/reader.rs:132-157 | the written header and root frame lead the reader to the written body |
| `IrRoundTrip.TablesRead` | crates/kwokka-ir/src/conductor/check.rs:325-447 | reading a written body's tables yields them, or the ordinal error |
| `IrVerdict.VerdictIsExact` | crates/kwokka-ir/src/conductor/check.rs:58-107 | written bytes are accepted exactly when all ordinals are in range and sorted names never decrease; which error otherwise |
| `IrVerdict.ReadBack` | crates/kwokka-ir/src/conductor/spec.rs:103-152 | the view of written bytes holds every stage, policy field, edge, name, sorted entry and binding |
| `IrVerdict.RoundTrip` | crates/kwokka-ir/src/flat/writer.rs:253-289 | whenever the writer succeeds the reader's verdict is the inputs' and acceptance yields the inputs |
| `IrVerdict.OrdinalsAloneDoNotSuffice` | crates/kwokka-ir/src/flat/writer.rs:256-259 | a blob with edge and binding ordinals in range that is written and refused |
| `IrVerdict.ListedIsWritten` | crates/kwokka-ir/src/registry/name.rs:16-30 | what the search of a written registry finds is what the written index leads to |
| `IrVerdict.LookupFindsAll` | crates/kwokka-ir/src/registry/name.rs:8-12 | of written and accepted bytes, lookup finds every stage if and only if the index leads to every stage name |
| `IrVerdict.IndexMayMissAStage` | crates/kwokka-ir/src/registry/name.rs:8-12 | accepted bytes with a named stage that no lookup finds: the index repeats another |
| `SlabImpl.PackRoundTrip` | crates/kwokka-core/src/slab/key.rs:30-46 | a packed key unpacks to itself with its top byte clear |
| `SlabImpl.NextMasked` | crates/kwokka-core/src/generation/revision.rs:45-50 | the masked increment wraps at 2^24 |
| `SlabImpl.GenSlab.constructor` | crates/kwokka-core/src/slab/slab.rs:75-98 | all slots vacant and linked in index order |
| `SlabImpl.GenSlab.Insert` | crates/kwokka-core/src/slab/slab.rs:111-128 | fills the head of the free list; the corrupt-list branch is dead |
| `SlabImpl.GenSlab.Get` | crates/kwokka-core/src/slab/slab.rs:131-137 | an issued key resolves exactly as the map says |
| `SlabImpl.GenSlab.Overwrite` | crates/kwokka-core/src/slab/slab.rs:140-149 | a write through the reference rebinds that key alone |
| `SlabImpl.GenSlab.Remove` | crates/kwokka-core/src/slab/slab.rs:197-215 | unbinds the key and returns its value |
| `SlabImpl.GenSlab.RetireSlot` | crates/kwokka-core/src/slab/slab.rs:227-241 | the same release without the value |
| `SlabImpl.GenSlab.Reserve` | crates/kwokka-core/src/slab/slab.rs:263-275 | takes the head slot and promises its next key; the corrupt-list branch is dead |
| `SlabImpl.GenSlab.Install` | crates/kwokka-core/src/slab/slab.rs:289-302 | commits exactly a standing promise, else returns the value |
| `SlabImpl.GenSlab.Unreserve` | crates/kwokka-core/src/slab/slab.rs:312-323 | withdraws exactly a standing promise |
| `SlabImpl.GenSlab.GetByIndex` | crates/kwokka-core/src/slab/slab.rs:351-357 | what the slot holds, by parity |
| `SlabImpl.GenSlab.RemoveByIndex` | crates/kwokka-core/src/slab/slab.rs:376-392 | empties an occupied slot, by parity |
| `SlabImpl.GenSlab.Iter` | crates/kwokka-core/src/slab/slab.rs:395-408 | the occupied slots in index order |
| `SlabImpl.EntriesAreBindings` | crates/kwokka-core/src/slab/slab.rs:395-408 | iteration yields exactly the map's bindings |
| `SlabImpl.EntriesInOrder` | crates/kwokka-core/src/slab/slab.rs:395-408 | iteration is in index order, so each binding comes once |
| `SlabTheorems.FreshWellFormed` | crates/kwokka-core/src/slab/slab.rs:75-98 | a fresh slab satisfies the invariant every operation keeps |
| `SlabTheorems.StepKeeps` | crates/kwokka-core/src/slab/slab.rs:111-323 | every operation keeps the free list duplicate-free and equal to the vacant slots, and parity equal to occupancy |
| `SlabTheorems.Run` | crates/kwokka-core/src/slab/slab.rs:111-323 | the invariant and the capacity survive any sequence of operations |
| `SlabTheorems.FullIsExact` | crates/kwokka-core/src/slab/slab.rs:111-275 | insertion and reservation fail exactly when occupied and reserved slots fill the capacity |
| `SlabTheorems.InsertBinds` | crates/kwokka-core/src/slab/slab.rs:111-128 | an insertion binds one new issuable key and touches no other |
| `SlabTheorems.RemoveUnbinds` | crates/kwokka-core/src/slab/slab.rs:197-215 | a removal unbinds its key and touches no other |
| `SlabTheorems.RemoveAtUnbinds` | crates/kwokka-core/src/slab/slab.rs:376-392 | removal by index returns what the slot's live key resolved to and unbinds that slot alone |
| `SlabTheorems.ValueAtIsBinding` | crates/kwokka-core/src/slab/slab.rs:351-357 | what a slot holds is what its one live key resolves to |
| `SlabTheorems.ReserveBindsNothing` | crates/kwokka-core/src/slab/slab.rs:263-275 | a reserved key resolves to nothing |
| `SlabTheorems.InstallBinds` | crates/kwokka-core/src/slab/slab.rs:289-302 | installation succeeds exactly on a standing promise and binds it alone |
| `SlabTheorems.UnreserveBindsNothing` | crates/kwokka-core/src/slab/slab.rs:312-323 | withdrawal ends the promise and binds nothing |
| `SlabTheorems.PromisedResolvesToNothing` | crates/kwokka-core/src/slab/slab.rs:243-253 | through any run a promised key stays promised and dead until its own installation or withdrawal |
| `SlabTheorems.ParityKept` | crates/kwokka-core/src/generation/revision.rs:36-50 | parity marks occupancy across the 24-bit wrap |
| `SlabTheorems.ReuseIsExact` | crates/kwokka-core/src/generation/revision.rs:16-19 | after removal a key resolves again exactly at a full slot filled a positive multiple of 2^23 times since |
| `SlabTheorems.ReuseHappens` | crates/kwokka-core/src/generation/revision.rs:16-19 | the 2^23rd fill does rebind it: a run from any state |
| `Arena.AlignUpIsLeast` | crates/kwokka-core/src/arena/bump.rs:368-370 | the mask yields the least multiple not below the address |
| `Arena.LayoutRounds` | crates/kwokka-core/src/arena/bump.rs:372-378 | the layout bound is that the size rounded up to its alignment stays within `isize::MAX` |
| `Arena.BumpAllocator.FromBuilder` | crates/kwokka-core/src/arena/bump.rs:114-144 | an empty arena, or the first bad parameter |
| `Arena.BumpAllocator.RoundsUp` | crates/kwokka-core/src/arena/bump.rs:155 | inside an arena the rounding never overflows and lands on an aligned address |
| `Arena.BumpAllocator.PlaceExact` | crates/kwokka-core/src/arena/bump.rs:146-177 | while building, a request is placed exactly when it fits somewhere past the cursor, at the least such offset; otherwise more was requested than is available |
| `Arena.BumpAllocator.AllocRaw` | crates/kwokka-core/src/arena/bump.rs:146-177 | the first fitting aligned offset becomes a new block, or the exact error and no change |
| `Arena.BumpAllocator.AllocWithDrop` | crates/kwokka-core/src/arena/bump.rs:228-245 | registers a destructor with its block; a full registry is reported before anything else |
| `Arena.BumpAllocator.AllocSlice` | crates/kwokka-core/src/arena/bump.rs:260-272 | size overflow and layout errors come before the phase check |
| `Arena.BumpAllocator.Freeze` | crates/kwokka-core/src/arena/bump.rs:277-279 | until a reset no request of any size and alignment is placed |
| `Arena.BumpAllocator.Reset` | crates/kwokka-core/src/arena/bump.rs:287-292 | reclaims every block and runs the registered destructors newest first |
| `Arena.BumpAllocator.RunDrops` | crates/kwokka-core/src/arena/bump.rs:334-343 | the loop empties the registry, running its entries newest first: by index, the reverse of registration |
| `Arena.BumpAllocator.Drop` | crates/kwokka-core/src/arena/bump.rs:353-357 | over its whole life the arena runs each registered destructor exactly once, the remaining ones newest first |
| `Arena.BlocksDisjoint` | crates/kwokka-core/src/arena/bump.rs:146-177 | no byte belongs to two blocks |
| `Arena.ReversedAt` | crates/kwokka-core/src/arena/bump.rs:334-343 | what newest first means, index by index |

## Left out

- Weak memory: the ring is interleaved under sequential consistency; the choice of Acquire and Release is not modelled, and a spurious exchange failure is a retry.
- `MpscRing::len` and `is_empty`: racy readings with no promise beyond the counters themselves.
- The kernel, system calls, `mmap` failures, wakers, task scheduling and file descriptors: parameters or labels of the model.
- The single-shot fallback of a recv stream: only that the stream falls back.
- The accept registry's retire contract: its cancel path lacks the terminated check of the recv one, so exactly-once retirement is not claimed for it.
- The single-shot accept, connect and provided-recv cancel sets, and the plain `CancelInbox`: ops that share a task token cannot be told apart there.
- `InflightBufSlab`, vectored layouts, the uring backend, the timer wheel and the schedulers.
- Raw pointers, provenance and uninitialised memory: storage is arrays and sequences, an unwritten cell is `None`.
- The values behind arena blocks and slab references: a block is an offset, size and alignment, a destructor a tag; writes through a reference are `GenSlab.Overwrite`.
- `Slab::drop`: releases the values `GenSlab.Iter` lists.
- DAG well-formedness (cycles, arity, topological order), UTF-8 and the meaning of policy fields: the codec leaves them to its consumer.
- `KwokkaIr` handles and `from_trusted`: wrappers around the checked bytes.
- Hints, address packing, identity packing, cancellation kinds and Display code: single-expression facts.
