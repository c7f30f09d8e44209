# Shared buffers: the block-reuse protocol, verified

This project models, in Dafny, how `shared_buffer` shares blocks of memory between processes, and proves
what that design promises. A pool in the publishing process owns blocks; a block starts with a 64-byte
control header (a 32-bit word with a reuse claim and a reader count, the uid of the generation it holds, the
time it was last published) followed by the payload. A message carries a small descriptor; an importing
process maps the block, takes a reader reference, and checks that the header still names the generation the
descriptor is about. A relay forwards the descriptor it got. A publisher reuses a block once its readers are
gone and a grace period has passed.

## How the model is laid out

- `ControlWord`, `Grace`, `Bytes`, `Outcome`, `WriteState`: the word and its masks, the grace test, machine
  integers, results, the write-once state.
- `Protocol`: the lock-free protocol as a state machine, one action per atomic operation, any number of
  blocks, processes and threads; `ProtocolFrames`, `ProtocolInvariant`, `ProtocolSteps`, `ProtocolRuns`: its
  inductive invariant and what every run keeps. `ByteStore` is the specification it refines
  (`ProtocolRefinement`). `ProtocolPublication`, `ProtocolImmutability`: completeness of publication, and who
  may still write; `ProtocolDelivery`: what undisturbed threads achieve. `ProtocolGrace`, `ProtocolStamps`, `ProtocolWitnesses`: the grace period, when it can fail,
  and runs in which it does.
- `PoolSpec`: the pool as relations on values and its whole runs; `SharedHeader`, `MemoryPool`: the header,
  blocks and pool as classes, proved against `PoolSpec`. Between two atomic operations a method lets other
  threads interfere with the header.
- `HandleSpec`, `HandleRuns`, `HandleTickets`, `HandleMappings`, `HandleStates`: buffers and handles as values
  and all programs over them, the releases, mappings and local states; `HandleGrants`: what programs are
  granted and refused; `Handles`: the same as classes, proved against `HandleSpec`. `Ownership`: programs over buffers together with the pool their blocks come from.
- `Import`, `Descriptors`, `Naming`: the mapping cache, importing, describing, relaying, socket names.
- `Contents`: typed buffers over pool blocks: resize, clear, clone, copies out, promotion. `RoundTrips`: a
  buffer from its allocation to a relay.

The actions of `Protocol` and the operations they stand for:

| action | operation |
|---|---|
| Create, Probe, CheckGrace, Claim | shared_buffer/src/shared_buffer_memory_pool.cpp:197-221, 187, 188-193, 194 with shared_buffer/include/shared_buffer/shared_buffer_memory_pool.hpp:91-99 |
| Draw, ClearUid, ClearTime, OpenWord | shared_buffer/src/shared_buffer_memory_pool.cpp:88-92, 93, 94, 95 with shared_buffer/include/shared_buffer/shared_buffer_memory_pool.hpp:108-113 |
| FreeBlock | shared_buffer/src/shared_buffer_memory_pool.cpp:99-110 |
| GetWrite, WriteByte, DropWrite | shared_buffer/src/shared_buffer.cpp:242-265, writes through the handle, 124-133 |
| BeginDescribe, StoreUid, ReadClock, Stamp | shared_buffer_backend/src/shared_buffer_backend_plugin.cpp:113; shared_buffer/src/shared_buffer_memory_pool.cpp:143, 152 (clock read, then store) |
| BeginRelay | shared_buffer_backend/src/shared_buffer_backend_plugin.cpp:121-129 |
| BeginImport, Validate | shared_buffer_backend/src/shared_buffer_backend_plugin.cpp:177-201 with shared_buffer/src/shared_buffer_ipc_manager.cpp:93 |
| Load, Cas | shared_buffer/include/shared_buffer/shared_buffer_memory_pool.hpp:75, 83-87 (the retry loop; a spurious failure is a Load again) |
| Recheck, Release | shared_buffer_backend/src/shared_buffer_backend_plugin.cpp:203-206, 208; shared_buffer/include/shared_buffer/shared_buffer_memory_pool.hpp:101-106 |
| BeginOwnerLease, BeginImportRead, ReadByte | shared_buffer/src/shared_buffer.cpp:216-240, 278-284, reads through the handle |

## Assumptions

- Atomic operations are sequentially consistent.
- Uids never repeat and are never 0; the code draws them at random (shared_buffer/src/shared_buffer_memory_pool.cpp:89).
- Clients keep the contract of shared_buffer/include/shared_buffer/shared_buffer_handle.hpp:91-96: no use of a mutable pointer after finalisation or after its
  buffer died, none of a read pointer after its handle died; a buffer outlives the calls made on it.
- In the class methods, other threads change a header's word finitely often while one thread retries
  (`ControlHeader.pending`); at 0 the header is quiet, and the contracts then say exactly what happens.
- A pool block is freed by the deleter of the buffer made of it, and by nothing else.
- The clock, random draws, answers of the operating system and what a socket name resolves to are
  parameters. Live mappings of one process do not overlap. A process id is positive.

## Where the code is weaker than its design document

- `finalize_write_handle` leaves an unset state unset, so a buffer described before any write handle was
  taken can still be written afterwards, against the document's "reject further writes".
  `DescribedPayloadIsFixedIffWriterCameFirst` states exactly when the promise holds, and
  `EarlyDescriptorIsOverwritten` is a run from the start in which it fails.
- The grace period is measured from the stamp the pool happened to load. That can be too old in two ways: a
  relay stamps the block after the load (`RelayBreaksGrace`), or two overlapping descriptors of the owner
  store their stamps in the wrong order, so that the header shows the older one (`OverlapBreaksGrace`); both
  are runs from the start that end in an early reuse. `ClaimRespectsEveryStampIffNeverNamed` states exactly
  when, after the check, no stamp can be missed, and `ReuseWaitsForLastStamp` gives the discipline under which
  a generation gets the document's bound. A stamp of 0 counts as never published.
- A buffer that was resized with its contents, cloned or promoted is finalised, because the internal copy uses
  up its one write handle; `Resize`, `Clone` and `Promote` say so.

## Model

| member | source | states |
|---|---|---|
| `ProtocolRefinement.EveryRunRefinesTheStore` | docs/shared_buffer_backend_design.md:340-407 | with writers that take their handle before the first descriptor, every interleaving of publishers, importers, relays and local readers, seen through its payloads and handles, is a run of the byte store, in which a nonzero uid names one byte string that never changes |
| `ProtocolRefinement.StepRefines` | shared_buffer/include/shared_buffer/shared_buffer_memory_pool.hpp:69-113 | each atomic operation is one event of the byte store or invisible to it; in particular every byte a handle reads is the byte sealed for its uid |
| `ByteStore.SealedOverRuns` | docs/shared_buffer_backend_design.md:385-389 | over every run of the byte store a sealed generation keeps its bytes |
| `ProtocolRefinement.ImportReadsFinalisedBytes` | shared_buffer_backend/src/shared_buffer_backend_plugin.cpp:198-214 | an importer that began with a descriptor of generation `u` of block `b` and holds a buffer finds in that block, until it releases, exactly the bytes finalised for `u`, at whatever time they were |
| `ProtocolRefinement.HandleReadsFinalisedBytes` | shared_buffer/src/shared_buffer.cpp:216-240 | the same for a read handle taken through such a buffer, for as long as the handle lives, even after the buffer is released |
| `ProtocolSteps.StepKeepsInv` | shared_buffer/include/shared_buffer/shared_buffer_memory_pool.hpp:69-113 | every atomic operation of every thread keeps the invariant that ties word, uid, stamp, payload, pool phase and thread positions together, whatever the order of writing and describing |
| `ProtocolRuns.RunKeepsInv` | shared_buffer/include/shared_buffer/shared_buffer_memory_pool.hpp:69-113 | the invariant holds in every state of every run |
| `ProtocolRuns.ReferencesAreCounted` | shared_buffer/include/shared_buffer/shared_buffer_memory_pool.hpp:69-113 | in every reachable state the low 31 bits equal the number of outstanding references (transient acquires, live imports, leases), and the claim bit implies there are none |
| `ProtocolRuns.ReleaseIsCounted` | shared_buffer/include/shared_buffer/shared_buffer_memory_pool.hpp:101-106 | `fetch_sub` takes exactly one from a positive count and leaves the claim bit alone: it never underflows |
| `ProtocolRuns.AcquisitionIsCounted` | shared_buffer/include/shared_buffer/shared_buffer_memory_pool.hpp:75-88 | the compare-and-swap adds one without carrying into bit 31, exactly if the word is the one loaded and not refused; otherwise the word stays |
| `ProtocolRuns.BlindStoreErasesNoReader` | shared_buffer/include/shared_buffer/shared_buffer_memory_pool.hpp:108-113 | the unconditional `store(0)` meets a bare claim (or, on a new block, zero): no reader is there to be erased |
| `ProtocolRuns.GenerationIsPinned` | shared_buffer_backend/src/shared_buffer_backend_plugin.cpp:202-212 | from a successful second uid check to the release, the header keeps the descriptor's uid, the claim bit stays clear, and every reuse attempt on the block fails and changes nothing but the pool's own phase, even after the owner freed the block |
| `ProtocolRuns.ImporterKeepsDescriptor` | shared_buffer_backend/src/shared_buffer_backend_plugin.cpp:198-208 | over every run an importer works for the block and uid of the descriptor it began with, from its first step until it leaves |
| `ProtocolRuns.StaleIsRejected` | shared_buffer_backend/src/shared_buffer_backend_plugin.cpp:198-206 | once a claim of a block has succeeded, no import begun with a descriptor of the generation the block had, before the claim or after it, ever holds a buffer, wherever the claim fell between validation, compare-and-swap and re-check |
| `ProtocolRuns.UidNamesOneBlock` | shared_buffer/src/shared_buffer_ipc_manager.cpp:93-95 | in every reachable state a nonzero uid is in the header of one block at most, so a mapping whose header holds a descriptor's uid shows the block the descriptor was made of |
| `ProtocolPublication.NamedUntilClaimed` | shared_buffer_backend/src/shared_buffer_backend_plugin.cpp:148-171 | from that store on, the header names the generation in every state until a claim of the block succeeds, so import's uid checks pass until then |
| `ProtocolPublication.ImportOfNamedSucceeds` | shared_buffer_backend/src/shared_buffer_backend_plugin.cpp:198-214 | an undisturbed import of a named generation, unless the reader count is exhausted, ends with a held buffer on it, having added one reference and changed nothing else |
| `ProtocolDelivery.AnyBytesCanBeDelivered` | docs/shared_buffer_backend_design.md:340-407 | from every reachable state any bytes can be written to a block, a new one or a free idle one of that size, described and imported: the importer reads exactly those bytes, holds the one reference, and no other block or thread is touched |
| `ProtocolDelivery.OwnerLeaseIsGranted` | shared_buffer/src/shared_buffer.cpp:25-37 | an undisturbed lease on a live block, for a read handle or for keeps, adds one reference and changes nothing else |
| `ProtocolDelivery.ImportLeaseIsGranted` | shared_buffer/src/shared_buffer.cpp:216-240 | the same for a read handle on a held import |
| `ProtocolDelivery.AttemptIsDecided` | shared_buffer/src/shared_buffer_memory_pool.cpp:182-195 | an undisturbed attempt to reuse a free block claims it exactly if its stamp is 0 or 100000 us old and its word is 0; otherwise everything is as it was before |
| `ProtocolImmutability.DescribedPayloadIsFixedIffWriterCameFirst` | shared_buffer/src/shared_buffer.cpp:242-276 | after a descriptor is begun, every continuation keeps the payload until the next claim if and only if a write handle had been acquired before; otherwise there is a run that drains the local readers, is granted the write handle and overwrites a described byte |
| `ProtocolImmutability.FinalisedStays` | shared_buffer/src/shared_buffer.cpp:253-265 | a finalised generation is never written again, over any run |
| `ProtocolWitnesses.EarlyDescriptorIsOverwritten` | shared_buffer/src/shared_buffer.cpp:267-276 | a run from the start in which the owner begins a descriptor before any write handle was taken and then overwrites the payload within the same generation |
| `ProtocolGrace.ClaimWaitsForLoadedStamp` | shared_buffer/src/shared_buffer_memory_pool.cpp:187-194 | over every run a claim succeeds only if the stamp held for it was 0 or at least 100000 us old |
| `ProtocolGrace.ClaimFollowsItsLoad` | shared_buffer/src/shared_buffer_memory_pool.cpp:187-194 | over every run a successful claim goes back to one load of the stamp, the last of its block: what the header showed then was 0 or is at least 100000 us old now |
| `ProtocolGrace.ReuseWaitsForLastStamp` | shared_buffer/src/shared_buffer_memory_pool.cpp:138-153 | for one generation of one block: if only its owner stamps it, one descriptor at a time, reuse comes at least 100000 us after every nonzero stamp it received, whatever relays and descriptors do to other blocks and generations |
| `ProtocolStamps.ClaimRespectsEveryStampIffNeverNamed` | shared_buffer/src/shared_buffer_memory_pool.cpp:138-153 | in every reachable state in which the pool has checked a block's grace period: the claim that follows comes 100000 us after every nonzero stamp its generation received or will receive, however the run goes on, if and only if the header never named the generation |
| `ProtocolStamps.ClaimRespectsStampIffNeverNamed` | shared_buffer/src/shared_buffer_memory_pool.cpp:182-195 | the same for the stamp that is in the header when the claim succeeds |
| `ProtocolStamps.RelayStampCanBeMissed` | shared_buffer/src/shared_buffer_memory_pool.cpp:187-194 | the failing half, as a run: whatever readers a named block has at that moment, they can leave, an importer can come, stamp as a relay and leave, and the claim succeeds at the very time of the stamp |
| `ProtocolWitnesses.RelayBreaksGrace` | shared_buffer_backend/src/shared_buffer_backend_plugin.cpp:121-146 | a run from the start whose last step reuses a block within the grace period of a relay's stamp |
| `ProtocolWitnesses.OverlapBreaksGrace` | shared_buffer/src/shared_buffer_memory_pool.cpp:147-153 | a run from the start, without relays, in which two overlapping descriptors of the owner store their stamps in the wrong order and the block is reused within the grace period of the later one |
| `ProtocolStamps.UnpublishedIsIdle` | shared_buffer/src/shared_buffer_memory_pool.cpp:88-95 | in every reachable state a free block that was never named and that nobody holds shows stamp 0 and word 0 |
| `ProtocolGrace.RelayOnlyStamps` | shared_buffer_backend/src/shared_buffer_backend_plugin.cpp:121-146 | describing a held import cannot fail its uid check in any reachable state, and the whole relay changes nothing but the stamp |
| `ControlWord.MasksAreComparisons` | shared_buffer/include/shared_buffer/shared_buffer_memory_pool.hpp:38-39 | bitwise `and` with 0x8000_0000 and with 0x7FFF_FFFF is, on every 32-bit word, the comparison and the remainder the model uses, and the two tests together are the refusal of a reader |
| `SharedHeader.ControlHeader.TryAcquireReader` | shared_buffer/include/shared_buffer/shared_buffer_memory_pool.hpp:69-89 | the retry loop under interference: success adds one reader to an unrefused word, refusal means the claim bit or a full count; the process has taken one reference more exactly on success |
| `PoolSpec.RunKeepsWellFormed` | shared_buffer/src/shared_buffer_memory_pool.cpp:60-110 | between operations every block is in use or listed exactly once, in the bucket of its own size, and no bucket is empty, over any run of allocations and frees |
| `PoolSpec.NeverHandedOutTwice` | shared_buffer/src/shared_buffer_memory_pool.cpp:60-110 | between two allocations of one block lies a free of it |
| `PoolSpec.EveryFreeEndsItsOwnAllocation` | shared_buffer/src/shared_buffer_memory_pool.cpp:99-121 | for a pool alone: if each allocation is released at most once, a free always ends the last allocation of its block |
| `Ownership.NoLateFree` | shared_buffer/src/shared_buffer_memory_pool.cpp:112-121 | for programs over buffers and pool together, with no hypothesis on releases: every free ends the allocation its buffer was made of, which nothing has touched since, so no late free hits a block another buffer owns |
| `Ownership.LiveBuffersOwnTheirBlocks` | shared_buffer/src/shared_buffer.cpp:162-214 | the block of every live buffer is in use, and no two live buffers have the same one, whatever moves and assignments brought them where they are |
| `Ownership.EveryBlockComesBack` | shared_buffer/src/shared_buffer.cpp:286-308 | when the last buffer is gone no block of the pool is in use |
| `PoolSpec.BlocksAreUsedOrListed` | shared_buffer/src/shared_buffer_memory_pool.cpp:99-110 | for each size, blocks owned are blocks in use plus the length of the bucket |
| `PoolSpec.GrowthIsPeakDemand` | shared_buffer/src/shared_buffer_memory_pool.cpp:66-96 | for each size, the number of blocks ever created is the peak, over the allocations, of blocks in use plus free blocks that scan could not claim |
| `MemoryPool.UnpublishedGrowthIsPeakUse` | shared_buffer/src/shared_buffer_memory_pool.cpp:66-97 | while the free blocks a size offers show stamp 0 and word 0, that number is exactly the most blocks of the size ever in use at once |
| `MemoryPool.ScanIsExact` | shared_buffer/src/shared_buffer_memory_pool.cpp:69-81 | a scan of quiet candidates succeeds if and only if one of them has word 0 and an elapsed grace period |
| `MemoryPool.SharedBufferMemoryPool.Allocate` | shared_buffer/src/shared_buffer_memory_pool.cpp:60-97 | exact-size allocation: the first claimable candidate in bucket order, a new block only if every candidate was refused, the bucket's multiset otherwise losing exactly the block returned, other buckets untouched; a quiet candidate is claimed exactly if its grace period has elapsed and its word is 0; the block carries the uid drawn (1 for 0), its header shows uid, stamp and word 0; no other block's uid changes; the pool has its old blocks and, if none was reused, one more, placed where the platform granted it |
| `MemoryPool.SharedBufferMemoryPool.TryClaimBlock` | shared_buffer/src/shared_buffer_memory_pool.cpp:182-195 | claims exactly if the stamp met is 0 or 100000 us old, without wrap-around, and the word met is 0 |
| `MemoryPool.SharedBufferMemoryPool.ScanBucket` | shared_buffer/src/shared_buffer_memory_pool.cpp:69-81 | stops at the first candidate whose claim goes through, after refusals that each fit the header the candidate had; every quiet header keeps its word, save one claimed from zero |
| `MemoryPool.SharedBufferMemoryPool.RemoveCandidate` | shared_buffer/src/shared_buffer_memory_pool.cpp:74-78 | overwriting by the last entry and popping removes exactly the claimed entry, and an emptied bucket is erased |
| `MemoryPool.SharedBufferMemoryPool.CreateBlock` | shared_buffer/src/shared_buffer_memory_pool.cpp:197-230 | succeeds exactly if 64 + n does not overflow and the mapping is granted; the block has the base and the handle that were granted and 64 + n bytes, header and memory are its own, block ids are the creation attempts and distinct below 2^32 of them; a failure leaves the pool as it was |
| `MemoryPool.SharedBufferMemoryPool.Free` | shared_buffer/src/shared_buffer_memory_pool.cpp:99-110 | a block in use goes to the bucket of its size once; otherwise nothing happens |
| `MemoryPool.SharedBufferMemoryPool.MarkPublished` | shared_buffer/src/shared_buffer_memory_pool.cpp:138-153 | the header gets the block's uid and the present time, and it named that uid already when the stamp was stored |
| `MemoryPool.SharedBufferMemoryPool.FindBlockForPtr` | shared_buffer/src/shared_buffer_memory_pool.cpp:164-180 | finds a block with mapping + 64 <= address < mapping + mapped size exactly if there is one |
| `MemoryPool.LookupInvertsPayloadAddress` | shared_buffer/src/shared_buffer_memory_pool.cpp:172-177 | over disjoint mappings exactly one block contains the address of any payload byte of a block: its own |
| `HandleTickets.ReleasedExactlyOnce` | shared_buffer/src/shared_buffer.cpp:41-92 | in every program of constructions, moves, move-assignments (to oneself too), handle acquisitions and destructions, each deleter and each reader reference is redeemed not before its keeper lets go and exactly once then |
| `HandleMappings.MappingOutlivesDrops` | shared_buffer/src/shared_buffer.cpp:77-92 | in every program, at every drop of a reader reference and every run of a deleter that points into an imported mapping, the mapping still has a reference; the references on record are those the live buffers, their deleters, read handles and write handles have |
| `HandleTickets.NothingLeaks` | shared_buffer/src/shared_buffer.cpp:286-308 | when all buffers and read handles are gone, everything ever issued was redeemed once |
| `HandleStates.LocalExclusion` | shared_buffer/src/shared_buffer.cpp:216-276 | in every program, refused leases included: the reader count of a state is the number of its live read handles, it is 0 while a write is in progress, the state moves only from unset through in use to finalised, and at most one write handle is ever granted |
| `HandleGrants.ReadSlotUnlessWritten` | shared_buffer/src/shared_buffer.cpp:216-231 | a program gets a local read slot exactly if nobody is writing; refused, the world is the same |
| `HandleGrants.RefusedReadLeavesNoTrace` | shared_buffer/src/shared_buffer.cpp:231-240 | a read handle whose lease is refused leaves the world as it was before its slot was taken |
| `HandleGrants.ReadHandleShowsItsBuffer` | shared_buffer/src/shared_buffer.cpp:231-240 | a granted read handle has its buffer's data and owner, and a lease in the same mapping exactly if there is a header |
| `HandleGrants.ReadAndDestroyed` | shared_buffer/src/shared_buffer.cpp:77-92 | a read handle taken and destroyed gives back slot and lease: buffers, handles and states are as before |
| `HandleGrants.WriteNeedsSoleUse` | shared_buffer/src/shared_buffer.cpp:242-265 | in every program a write handle is granted exactly if the buffer is writable, has bytes, was never written, and no live read handle is bound to it |
| `HandleGrants.DroppedWriterFinalises` | shared_buffer/src/shared_buffer.cpp:109-133 | destroying a write handle, or assigning over it, finalises the buffer it wrote and no other |
| `HandleGrants.FinalizeEndsWriting` | shared_buffer/src/shared_buffer.cpp:267-276 | finalising ends a write in progress and changes nothing else |
| `HandleGrants.HoldsOnce` | shared_buffer/src/shared_buffer.cpp:278-284 | a buffer takes one held lease, in its own mapping, and then keeps it |
| `HandleGrants.BufferArrivesWhole` | shared_buffer/src/shared_buffer.cpp:162-214 | a moved or assigned buffer arrives with every field; what it came from has no data, size, header, owner, lease or state, and other buffers stay |
| `HandleGrants.HandleArrivesWhole` | shared_buffer/src/shared_buffer.cpp:51-120 | the same for read and write handles |
| `HandleGrants.SelfAssignmentIsInert` | shared_buffer/src/shared_buffer.cpp:61-214 | assignment of a buffer or handle to itself changes nothing |
| `Handles.ReadHandle.Move` | shared_buffer/src/shared_buffer.cpp:51-59 | everything goes over, the source is left empty |
| `Handles.ReadHandle.Assign` | shared_buffer/src/shared_buffer.cpp:61-73 | the old slot, lease and owner are released in order and the new ones taken over; self-assignment does nothing |
| `Handles.ReadHandle.Release` | shared_buffer/src/shared_buffer.cpp:77-92 | gives back the local slot, then drops the lease, one reader fewer in the header, then the owner |
| `Handles.WriteHandle.Release` | shared_buffer/src/shared_buffer.cpp:124-133 | finalises whatever state it is attached to, and lets the owner go |
| `Handles.WriteHandle.Assign` | shared_buffer/src/shared_buffer.cpp:109-120 | finalises the old state and takes over; self-assignment does nothing |
| `Handles.SharedBuffer.Move` | shared_buffer/src/shared_buffer.cpp:162-185 | all fields go over; the source keeps no data, size, header, owner, lease or state |
| `Handles.SharedBuffer.Assign` | shared_buffer/src/shared_buffer.cpp:187-214 | resets, then takes over; self-assignment does nothing |
| `Handles.SharedBuffer.Reset` | shared_buffer/src/shared_buffer.cpp:286-308 | drops the held lease, one reader fewer in the header, then the owner, records the run of the deleter if there is data, then lets its closure go, and leaves the empty buffer |
| `Handles.SharedBuffer.MakeLease` | shared_buffer/src/shared_buffer.cpp:25-37 | no lease without a header, otherwise one reader reference or a refusal that takes none; on a quiet header the word as it was decides |
| `Handles.SharedBuffer.GetReadHandle` | shared_buffer/src/shared_buffer.cpp:216-240 | refused while writing; otherwise one local slot and one lease, or neither; on a quiet header it succeeds exactly if the word as it was is not refused |
| `Handles.SharedBuffer.GetWriteHandle` | shared_buffer/src/shared_buffer.cpp:242-265 | granted exactly if the buffer is writable, has data, and its state is unset with no reader; only a grant changes the state |
| `Handles.SharedBuffer.FinalizeWriteHandle` | shared_buffer/src/shared_buffer.cpp:267-276 | moves only a write in progress to finalised; an unset state stays unset |
| `Handles.SharedBuffer.HoldReaderReference` | shared_buffer/src/shared_buffer.cpp:278-284 | at most one held lease; on a quiet header it is refused exactly if the word as it was is |
| `Import.ValidateMapping` | shared_buffer/src/shared_buffer_ipc_manager.cpp:70-96 | accepts exactly the mappings whose size, bounds, magic, ABI, payload size and uid agree with the descriptor |
| `Import.HandleCache.ImportBlock` | shared_buffer/src/shared_buffer_ipc_manager.cpp:144-183 | a hit hands out the cached mapping, a miss one of exactly the region the name resolves to (header, size, handle, address), and an unresolved name is an error; either way the verdict depends only on the header and size, so hit and miss agree on the same block and a hit on a recycled key is rejected; the cache grows by exactly a successful miss |
| `Import.AcquireGeneration` | shared_buffer_backend/src/shared_buffer_backend_plugin.cpp:202-206 | a reference kept only on a header that names the uid after it was taken; rejected, it has been given back; a quiet header grants it exactly if the word is not refused and the uid is right, and then has one reader more, else the word it had |
| `Import.FromDescriptor` | shared_buffer_backend/src/shared_buffer_backend_plugin.cpp:177-218 | only a well-formed descriptor gives a buffer: read-only, so it never grants a write handle, with its data 64 bytes into the mapping, the mapping as its owner and in its deleter, and the identity of the descriptor; a rejected import has dropped what it took; at the return the header still names the descriptor's uid and the payload lies inside the mapping; on a quiet header it succeeds exactly if the checks pass and the word is not refused |
| `Descriptors.RelayChainIsTransparent` | shared_buffer_backend/src/shared_buffer_backend_plugin.cpp:121-146 | through relay chains of any length the descriptor stays equal to the first |
| `Descriptors.DescribeRelay` | shared_buffer_backend/src/shared_buffer_backend_plugin.cpp:121-146 | on a quiet header forwards exactly if magic, ABI, payload size and uid are those of the imported generation, and then changes only the stamp |
| `Descriptors.DescribeOwned` | shared_buffer_backend/src/shared_buffer_backend_plugin.cpp:148-171 | describes exactly if a block contains the pointer and can be registered; uid and stamp are published; the result passes every check of import if and only if the size described is the block's payload size; no other header changes |
| `Descriptors.CreateDescriptor` | shared_buffer_backend/src/shared_buffer_backend_plugin.cpp:91-175 | an incompatible endpoint gets nothing and finalises nothing; otherwise a write in progress is finalised, an imported buffer is forwarded exactly if magic, ABI, payload size and uid of its quiet header are still its own, an owned one is published exactly if its block is found, has a handle, and is registered or can be; the descriptor is given field by field; no other header changes |
| `Descriptors.ShownBlockIsFound` | shared_buffer/src/shared_buffer_memory_pool.cpp:164-180 | the lookup inverts the payload address computed at allocation |
| `RoundTrips.ImportAndRelay` | shared_buffer_backend/src/shared_buffer_backend_plugin.cpp:121-218 | what a relay sends is the descriptor it got; on a quiet header the relay succeeds exactly if the import does, which is exactly if the descriptor is well-formed and accepted and the word is not refused; the import then has one reference and the address its name resolves to |
| `RoundTrips.Publish` | shared_buffer_backend/src/shared_buffer_backend_plugin.cpp:148-171 | allocating and describing describes the block allocated: with platform mappings that do not overlap, mappings stay apart, every payload byte lies in that block only, the descriptor exists exactly if the block has a handle and can be registered, and every check of an import accepts it |
| `RoundTrips.Deliver` | shared_buffer_backend/src/shared_buffer_backend_plugin.cpp:91-218 | publisher, subscriber and relay together, nobody interfering: every descriptor published is imported, read-only, at 64 bytes into the subscriber's mapping, with one reference, and relayed unchanged |
| `RoundTrips.FrontShowsItsBlock` | shared_buffer/src/shared_buffer_memory_pool.cpp:164-180 | a byte of a buffer's payload lies in the block the buffer was made of and in no other |
| `Contents.ByteCount` | shared_buffer/include/shared_buffer/shared_buffer_impl.hpp:140-146 | count times width if that fits 64 bits, else an error: the division test refuses exactly the sizes that overflow |
| `Contents.ObtainableMeans` | shared_buffer/src/shared_buffer_memory_pool.cpp:60-97 | a block of so many bytes can be had exactly if there is at least one byte, the size fits 64 bits, and a free block was claimed or a mapping of 64 bytes more is granted without wrapping |
| `Contents.AllocateRaw` | shared_buffer/include/shared_buffer/shared_buffer_impl.hpp:148-158 | a buffer over a block of exactly the bytes asked for, at offset 64 of its mapping, that nobody used before; it fails exactly if the size is 0 or overflows, or no free block is claimable (by the headers of the quiet candidates) and none can be mapped; every quiet header keeps its word |
| `Contents.CopyThrough` | shared_buffer/include/shared_buffer/shared_buffer_impl.hpp:90-96 | a copy under both handles: refused exactly if the source is being written or its word, on a quiet header the word as it was, is refused, and then nothing changes; both handles are given back and the target is finalised |
| `Contents.SharedBufferImpl.Resize` | shared_buffer/include/shared_buffer/shared_buffer_impl.hpp:79-99 | succeeds exactly if the size stays or is 0, or a block can be had and there is nothing to copy or the read handle is granted, both decided by the headers as they were when they are quiet; refused, it leaves size, bytes, state and the set of blocks in use as they were; done, every byte position that both the old and the new contents have keeps its byte, and the old block is given back; no other buffer's bytes change; a buffer resized with its contents grants no writer afterwards |
| `Contents.SharedBufferImpl.Clear` | shared_buffer/include/shared_buffer/shared_buffer_impl.hpp:101-105 | empty, with its block given back |
| `Contents.SharedBufferImpl.Clone` | shared_buffer/include/shared_buffer/shared_buffer_impl.hpp:118-127 | an independent buffer with equal bytes, finalised unless empty, exactly if a block can be had and the read handle is granted, both decided by the headers as they were when they are quiet; otherwise no block is taken; the source and all other buffers keep their bytes |
| `Contents.SharedBufferImpl.ToCpu` | shared_buffer/include/shared_buffer/shared_buffer_impl.hpp:107-116 | new ordinary memory with equal bytes, exactly if the buffer is empty or not being written and its word (on a quiet header, as it was) is not refused; the read reference is given back |
| `Contents.Promote` | shared_buffer/include/shared_buffer/shared_buffer_api.hpp:106-121 | a finalised shared copy with exactly the bytes of the ordinary buffer and one read handle on it; with quiet headers it succeeds exactly if a block can be had, otherwise the block goes back; no other buffer's bytes change |
| `Naming.SocketPathIsInjective` | shared_buffer/src/shared_buffer_platform_linux.cpp:342-346 | the path determines user, process, block id and descriptor |
| `Naming.SocketPathReads` | shared_buffer/src/shared_buffer_platform_linux.cpp:342-346 | what the path of one block is, letter by letter |
| `Naming.DecimalStandsFor` | shared_buffer/src/shared_buffer_platform_linux.cpp:342-346 | the decimal numeral of a number reads as that number and has no leading zero |
| `Naming.FdBroker.RegisterBlock` | shared_buffer/src/shared_buffer_platform_linux.cpp:331-362 | a block id is registered once and keeps its path forever; failures register nothing |
| `Naming.FdBroker.PathsDiffer` | shared_buffer/src/shared_buffer_platform_linux.cpp:331-362 | two registered block ids never share a path |

## Left out

- System calls (`memfd`, `mmap`, sockets, file mappings), the dispatcher thread and the passing of
  descriptors: a map from names to physical blocks and operations that may fail stand for them.
- Pool destruction and process exit while handles are alive; destruction of imported mappings; eviction from
  the mapping cache (there is none) and what becomes of a key recycled after its pool died, beyond rejection.
- Weak memory orders; the quality of random uids; a failing `mmap` other than as a refusal; failures of the
  C++ library's own allocations.
- Spurious failures of the weak compare-and-swap in class methods: they are covered by the state machine only.
- The unlocked lazy creation of a handle state: creating it is one step of its own (`HandleRuns`) or part of
  the call that needs it (`Handles`).
- The promoted-buffer member of read handles: `Promote` returns the promoted buffer beside the handle.
- The dispatch of `from_input_buffer` and `from_output_buffer` on the kind of buffer they are given (a null,
  empty or foreign buffer is rejected, a shared one goes to `GetReadHandle` or `GetWriteHandle`).
- Endpoint metadata, the compatibility cache and GID hashing (a Boolean parameter of `CreateDescriptor`), type
  support, plugin registration, Python bindings, and the Windows naming retries.
- Import of a name happens between two states of the header: the physical block behind a name does not change
  during one call.
- Handles.SharedBuffer.Reset: the class records that the deleter ran, in order, in a ghost log; what a run of it does is `Contents.GiveBack` for one buffer and `Ownership` for whole programs.
- HandleMappings.MappingOutlivesDrops: the cache's own reference to a mapping, which is never dropped, is not counted.
- Handles.SharedBuffer.Move: what the C++ library leaves in a moved-from deleter and string is a parameter.
- Naming.FdBroker.RegisterBlock: whether the socket can be set up and served is a parameter; beyond 2^32 creation attempts block ids repeat and two blocks of one pool can share a path.
- ProtocolGrace.ReuseWaitsForLastStamp: the converse is not stated; a generation that is relayed, or described twice at once, may still be lucky.
- Contents.SharedBufferImpl.Resize: copying is one step; that nobody writes the source meanwhile is what the read handle and the protocol provide.
