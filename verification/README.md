# Cairn: a verified model of the microkernel's core

Cairn is a single-CPU capability microkernel with an earliest-deadline-first scheduler, rendezvous
IPC that can carry a capability, a crash-only supervisor, two frame allocators and a log-structured
object store on a virtio block device. This project models those parts and proves what they promise
over whole runs.

## How the model is built

Imperative parts of the kernel are Dafny classes whose methods update arrays and fields, loop for
loop. Each is proved against functions on values, and the properties of whole runs are proved about
those.

| part | modules |
|---|---|
| object store | `Fnv`, `Codec` (hash, sector formats), `Disk` (device with a volatile cache), `StoreModel` (one device operation per step), `StoreSafety` (invariant), `StoreRuns` (theorems on runs), `Objstore` (the store's methods, over the driver's queue) |
| block driver | `VirtioRing` (queue, device and driver calls) |
| kernel | `CapCore`, `Sched`, `Ledger`, `KernelModel` (one transition system), `Parking`, `Messages`, `Lineage`, `Transfer`, `Supervision` (invariants and theorems on runs), `Interface` (what each entry into the kernel needs, answers and does, said of table slots), `KernelMachine` (the statics, the code that changes them, and every way into the kernel as one step of a run) |
| memory | `Frames` (sets of free frames), `RangeList`, `Bitmap` (the two allocators), `Allocators` (both side by side) |

`dafny verify dfyconfig.toml` checks everything.

### Hypotheses

* Device. Reads see the newest write. A successful flush makes everything written durable. At a crash
  every sector with unflushed writes independently keeps its durable content, any content written since
  the last flush, or an arbitrary torn one. A torn superblock does not validate: this is assumed of the
  two superblock slots only, because FNV-1a is not collision resistant beyond what is proved here. Any
  device operation may fail, and a write that fails may still have taken effect.
* Mount. The store is mounted once per boot. A mount that takes the older of two valid slots, because
  the newer one could not be read just then, is excluded from runs; `MountPicksNewestExactly` says
  exactly which mounts those are, and `StaleMountDestroysAcked` what they cost.
* Kernel. Every entry into the kernel runs with interrupts off and is one step; a call that blocks ends
  its step at the switch. The naked assembly is reduced to which context a task resumes: none, its own
  code, or the inside of a blocking call. Ring-3 tasks make calls and fault; kernel code
  invokes methods directly, in any domain's table, and neither blocks nor faults. The clock stays below the largest u64.
* Virtqueue. The driver is the only user of the queue, and its stores reach memory in program order.
  The device serves what it finds in the shared memory, in order.

### Where code and comments disagree

The model follows the code.

* `kernel/src/memory.rs:236` says that boot ranges are aligned outward; the code rounds inward, and
  `RoundsInward` proves that this keeps exactly the frames that lie whole inside an entry.
* `kernel/src/sched.rs:179` and `kernel/src/capspace.rs:1072` say that admission checks for a TimeSlice
  capability; the check accepts a live capability of any kind with INVOKE. `RestartSucceedsExactly`
  does not depend on the difference.
* `kernel/src/virtio_blk.rs:85` says that the stored queue size is not the driver's clamp; the code
  stores the smaller of the two.

### A property that holds only conditionally

The store's design promises that a crash leaves the old root or the new one, and the comment at
`kernel/src/objstore.rs:319-322` that a commit without acknowledgement can do no harm. That is false in one
family of runs: a put of a non-empty object fails at its commit (its superblock may be in the device's
cache), the store stays mounted, and a further put overwrites the sectors that this superblock names.
After a crash the newer superblock may be found, and recover rejects it. `PutIsCrashSafeExactly` gives
the exact condition under which beginning a put is safe, one the store can check by reading the other slot,
`UnsafePutIsReachable` a run into the failing
family from every fresh disk, and `CrashAtomicity` covers everything but such a mount and its
consequences. A store that looked at the other
slot before each put would be safe throughout (`CarefulRunIsAtomic`). Acknowledged extents are
never harmed (`AckedExtentsImmutable`).

## Model

| member | source | states |
|---|---|---|
| StoreRuns.CrashAtomicity | kernel/src/objstore.rs:187-333 | In every run of mounts, puts, device failures and crashes between any two device operations, a mount finds the last root (acknowledged, or found by the mount before) or the one unacknowledged put, its bytes whole on disk, and recover reports exactly that; or it finds the very superblock that a failed put of an empty object wrote. Never a mixture, and never an older root: the mounted head is past everything acknowledged and past the last root. The only exception is a mount that finds the superblock of a failed put over which another put was begun, and mounts after such a mount until a put is acknowledged |
| StoreRuns.HowLossArises | kernel/src/objstore.rs:262-333 | That exception arises only from a put begun while a read of the other slot would have found a newer superblock of a non-empty object, and an acknowledged put ends it |
| StoreRuns.CarefulRunIsAtomic | kernel/src/objstore.rs:187-333 | Atomic mounts without any exception for every run in which each put is begun only when a read of the other slot finds no such superblock |
| StoreRuns.CrashAnywhereIsAtomic | kernel/src/objstore.rs:187-333 | As `CrashAtomicity`, for a crash added at any point of any run, in the middle of a put or not, and the next mount |
| StoreRuns.PutIsCrashSafeExactly | kernel/src/objstore.rs:262-333 | For every mounted idle store on which no put was begun over a newer superblock since the last acknowledged one: a put can be begun without risking that a later mount lands on a root recover rejects if and only if a read of the other slot finds no superblock with the next sequence number and a non-empty root |
| StoreRuns.CarefulPutIsCrashSafeExactly | kernel/src/objstore.rs:262-333 | In such a run that condition stays exact at every mounted idle state |
| StoreRuns.ExposedExactlyIfLive | kernel/src/objstore.rs:309-324 | Some crash could leave a newer superblock of a non-empty object in the other slot exactly if reading that slot returns one |
| StoreRuns.UnconfirmedCommitExposes | kernel/src/objstore.rs:309-324 | A put of a non-empty object whose last flush fails leaves exactly such a superblock behind |
| StoreRuns.UnsafePutIsReachable | kernel/src/objstore.rs:262-333 | From every fresh disk with room for one record, formatting and one put whose last flush fails lead to a state in which the next put is not crash safe |
| StoreRuns.AckedExtentsImmutable | kernel/src/objstore.rs:262-357 | Every extent a successful put returned keeps its bytes and re-hashes to its name after any later puts, failures, crashes and mounts, would also survive a crash at that moment, lies below the mounted log head, and has its record header (length, hash, previous root) right behind it |
| StoreRuns.RecordsAreChained | kernel/src/objstore.rs:262-335 | In every run the log has no gaps and its records are chained: an acknowledged put lies right behind the record of the last root and names it as the root before; the first one on a formatted disk begins at sector 2 and names none |
| StoreRuns.SlotsNeverTie | kernel/src/objstore.rs:187-198 | Whatever a crash may leave, LBA 0 only ever decodes to odd and LBA 1 to even sequence numbers, so mount meets no tie |
| StoreRuns.AlteredRootRejected | kernel/src/objstore.rs:370-380 | Recover reports nothing for a root whose bytes on disk differ from the named ones in one byte, for any length |
| StoreSafety.StepKeepsInv | kernel/src/objstore.rs:187-333 | Each device operation, crash and mount keeps the store invariant (slots sane, root and acknowledged extents intact, other slot older or in limbo) |
| StoreSafety.NextSbIsNewer | kernel/src/objstore.rs:309-317 | The superblock a put commits has the next sequence number and a head past the record, without wrapping in 64 bits, and names durable bytes |
| StoreModel.MountPicksNewestExactly | kernel/src/objstore.rs:187-198 | A mount picks the newest valid slot except exactly when that slot could not be read and the other could |
| StoreRuns.StaleMountDestroysAcked | kernel/src/objstore.rs:187-198 | What the excluded mounts cost: after any acknowledged put of a non-empty object, a boot that can read only the older slot mounts it, and the next put destroys the acknowledged extent |
| Objstore.Store.Mount | kernel/src/objstore.rs:187-246 | Mounting picks the newest readable valid slot and does nothing else; it formats only if both slots were read and neither validates; otherwise the store stays down |
| Objstore.Store.Format | kernel/src/objstore.rs:213-237 | Formatting is the write and the flush of the first superblock, or stops at the first of them that fails; the store comes up exactly if the device answered both with success |
| Objstore.Store.constructor | kernel/src/objstore.rs:63-73 | Power-on after the boots before: nothing is mounted and the steps so far are kept |
| Objstore.Store.PowerCycle | kernel/src/objstore.rs:63-73 | A power failure between calls, also with a request in flight that the driver had given up, continues the run into the next boot |
| Objstore.Store.MountAndRecover | kernel/src/objstore.rs:187-246 | After any earlier boots, mounting and recovering on the machine: if a slot is mounted that is not out of date, the mount is atomic and recover reports exactly the root expected, or nothing if its sectors cannot be read |
| Objstore.Store.Put | kernel/src/objstore.rs:262-333 | Put performs exactly data, header, flush, other slot, flush, up to the first operation the device answers with an error or not at all, and returns the extent exactly if there is none; then it is acknowledged, otherwise mounted state and acknowledged extents are as before; on a device given up nothing happens; a run stays a run, and stays clean if the other slot held nothing newer |
| Objstore.PutIsOnePut | kernel/src/objstore.rs:262-333 | The operations of one call of put, however it went, are one put in the sense of the crash safety results |
| Objstore.Store.WriteDataSectors | kernel/src/objstore.rs:276-289 | The sector loop writes the padded chunks in order from the log head and stops at the first failure |
| Objstore.Store.WriteRecordHeader | kernel/src/objstore.rs:291-302 | The record header goes behind the data with length, content hash and previous root |
| Objstore.Store.CommitRecord | kernel/src/objstore.rs:309-332 | The other slot is written and flushed, and only then the mounted superblock and slot move on |
| Objstore.Store.ReadSuperblock | kernel/src/objstore.rs:161-178 | A slot read is a device failure, invalid or valid, told apart |
| Objstore.Store.ExtentContentHash | kernel/src/objstore.rs:339-357 | The read-back loop yields the streamed hash, and fails exactly if the read of one of the sectors fails |
| Objstore.Store.Recover | kernel/src/objstore.rs:370-380 | Recover reports the mounted root exactly if it is non-empty, readable and still has its hash |
| Disk.StreamingIsOneShot | kernel/src/objstore.rs:339-357 | Hashing zero-padded sectors one by one gives the one-shot hash of the bytes, for every length |
| Codec.SuperblockRoundTrip | kernel/src/objstore.rs:132-178 | Reading a written superblock gives it back for all field values |
| Codec.SbFields | kernel/src/objstore.rs:132-142 | The byte range of every superblock field, the magic, the version, the gaps and the zero rest of the sector |
| Codec.DecodesExactly | kernel/src/objstore.rs:161-178 | A sector is taken for a superblock exactly if it begins with the magic and carries the hash of its first 56 bytes behind them, and then for the one whose fields stand at those byte ranges |
| Codec.HeaderFields | kernel/src/objstore.rs:293-299 | The byte range of the length, the content hash and the previous root in a record header, the hash over the first 32 bytes behind them, and that the three read back |
| Codec.AlteredSuperblockRejected | kernel/src/objstore.rs:161-178 | A valid slot with one byte altered among its first 64 no longer validates |
| Codec.SuperblockSector | kernel/src/objstore.rs:132-141 | Filling the buffer field by field, hash last, yields the superblock encoding |
| Codec.HeaderSector | kernel/src/objstore.rs:293-299 | Likewise for the record header |
| Codec.DataSector | kernel/src/objstore.rs:279-283 | The copy loop yields the object's k-th 512-byte chunk, the last one zero padded |
| Codec.ChunkBytes | kernel/src/objstore.rs:279-283 | Byte i of data sector k is byte 512k+i of the object, and zero past its end |
| Codec.ParseSuperblock | kernel/src/objstore.rs:161-178 | Reading the fields one by one and checking magic and hash decodes the slot |
| Codec.WriteField | kernel/src/objstore.rs:115-129 | The byte-wise store patches in the little-endian encoding and nothing else |
| Codec.ReadField | kernel/src/objstore.rs:95-113 | The byte-wise load yields the little-endian value |
| Codec.ValueOfLittleEndian | kernel/src/objstore.rs:95-129 | Loading what was stored gives the number back if it fits |
| Codec.LittleEndianOfValue | kernel/src/objstore.rs:95-129 | Storing what was loaded gives the bytes back |
| Fnv.SingleByteChangeDetected | kernel/src/objstore.rs:81-92 | Byte strings of any length that differ in exactly one place have different FNV-1a hashes |
| Fnv.FoldInjectiveInState | kernel/src/objstore.rs:81-88 | Folding the same bytes into different states keeps them different |
| Fnv.MultiplicationUndone | kernel/src/objstore.rs:81-88 | Multiplication by the FNV prime modulo 2^64 has an inverse |
| Fnv.FoldConcat | kernel/src/objstore.rs:81-88 | The hash can be continued: folding a concatenation is folding its parts in turn |
| Fnv.FnvStep | kernel/src/objstore.rs:81-88 | The loop computes the fold |
| Fnv.KnownHashes | kernel/src/objstore.rs:75-92 | The published FNV-1a values of the empty string and of "a" |
| VirtioRing.WrapExact | kernel/src/virtio_blk.rs:376-404 | Two request counts less than 2^16 apart are equal exactly when their wrapped indices are |
| VirtioRing.Queue.Submit | kernel/src/virtio_blk.rs:334-413 | If the driver still trusts the device, the newest answer is to the very request just published and the result is its status; otherwise all 50,000,001 polls found it unanswered; on a disabled device nothing is touched |
| VirtioRing.Queue.Publish | kernel/src/virtio_blk.rs:341-390 | After publishing, what the device will find in descriptors, header and buffer is the intended request, and the target index is the number of requests ever made, modulo 2^16 |
| VirtioRing.Queue.DeviceTurn | kernel/src/virtio_blk.rs:392-413 | Device side: with no request in flight nothing changes; otherwise the one in flight is answered at most once, also after the driver gave up on it |
| VirtioRing.Queue.ReadSector | kernel/src/virtio_blk.rs:416-426 | A read succeeds exactly if the device answered it with status 0, and then delivers the sector's content; a disabled queue, its buffer and its indices stay untouched |
| VirtioRing.Queue.WriteSector | kernel/src/virtio_blk.rs:429-440 | A write succeeds exactly if the device answered it with status 0 and meets the store's device contract; on a disabled device not even the data buffer is touched |
| VirtioRing.Queue.Flush | kernel/src/virtio_blk.rs:445-457 | With the feature negotiated a flush succeeds exactly if the device answered it with status 0 and meets the store's device contract; without it changes nothing |
| VirtioRing.LateAnswer | kernel/src/virtio_blk.rs:391-405 | A request answered after the driver gave up leaves nothing for a crash that a failed request could not have left |
| Objstore.Device.ReadSector | kernel/src/virtio_blk.rs:416-426 | The store's read over the queue: on success the sector's content, and the disk is untouched |
| Objstore.Device.WriteSector | kernel/src/virtio_blk.rs:429-440 | The store's write over the queue: a success is the write, a failure may have taken effect, and a time-out counts as one that did |
| Objstore.Device.Flush | kernel/src/virtio_blk.rs:445-457 | The store's flush over the queue: a success settles everything, a failure promises nothing |
| Objstore.Device.Later | kernel/src/virtio_blk.rs:391-405 | Whatever the device does between calls, also answering a request long given up, stays within what the store already reckons with |
| VirtioRing.Queue.constructor | kernel/src/virtio_blk.rs:251-311 | A fresh queue has nothing asked, nothing answered and indices that agree |
| Parking.ParkingIsExact | kernel/src/capspace.rs:515-686 | In every reachable state an endpoint waits with peer t exactly when t is present, blocked and waiting on it in that direction and domain; the running task is not blocked; no endpoint names an absent task; the scrub at reap finds nothing |
| Parking.SchedulerIsSound | kernel/src/sched.rs:232-308 | In every reachable state num counts the present tasks, task 0 and the current task are present, every other present task has a context to resume, and the published domain is the running task's |
| Parking.TablesChangeOnlyInRendezvous | kernel/src/capspace.rs:359-501 | No invocation, by a task or by the kernel itself, changes a capability table except by an endpoint rendezvous |
| Parking.StepKeepsInv | kernel/src/sched.rs:277-575 | Every kernel step keeps the scheduler and parking invariants |
| Parking.SingleTaskIsIdle | kernel/src/sched.rs:285-289 | The early return of the timer tick strands no one: with one task, idle runs and idle is what would be chosen |
| Messages.RendezvousExactlyOnce | kernel/src/capspace.rs:515-686 | In every reachable state each rendezvous pairs one send with one receive on one endpoint and hands over that send's word; no call is in two; every call has returned what its rendezvous decided, or is parked, or has the result staged; every handoff the kernel makes is logged with what the system call returned, and a step wakes a blocked task exactly if it adds a rendezvous |
| Messages.HandoffIsLogged | kernel/src/capspace.rs:532-653 | A call that meets a waiting partner makes a match of that call and the open call of the task it wakes; what the system call returned and what it staged are the two results of that match |
| Messages.WokenExactlyByRendezvous | kernel/src/sched.rs:468-480 | In every run a step wakes a blocked task exactly if it is a logged rendezvous |
| Messages.StagedResultIsReturned | kernel/src/sched.rs:468-507 | Whatever happens between the wake-up and the read, a matched call returns what its rendezvous decided |
| Messages.ResumeHasResult | kernel/src/sched.rs:433-463 | A task that resumes inside a call has been matched, and returns the staged result |
| Messages.CallByCase | kernel/src/capspace.rs:468-686 | What a system call does and tells its caller, by the endpoint operation it comes to: handoff, parking, busy or refused |
| Messages.RendezvousIsFair | kernel/src/capspace.rs:545-573 | Both sides get the same status; the word goes over exactly on success, a capability only if one was offered |
| Lineage.AuthorityIsBounded | kernel/src/capspace.rs:295-344 | In every run every capability anywhere descends from the only mint of its object through links that never gain rights, so it stays within that kind's ceiling; TimeSlice capabilities never leave the root domain |
| Lineage.DescentIsMonotone | crates/cap-core/src/table.rs:171-223 | Down any line of delegations and moves object, kind and epoch stay and rights only shrink |
| Lineage.RevocationIsExact | crates/cap-core/src/table.rs:53-60 | In every run a capability, copied or moved any number of times, is live exactly if the revocations since its line began are a multiple of 2^32; otherwise it fails as revoked; the type error is unreachable |
| Lineage.RevokedCapIsDead | crates/cap-core/src/table.rs:130-223 | After 1 to 2^32-1 revocations no copy in any domain can be invoked or delegated |
| Lineage.HeldMeansDelivered | kernel/src/capspace.rs:697-753 | A domain without a capability for an object, as after a reap, holds one later only if one was minted or delivered to it in between |
| Lineage.StepKeepsTraced | crates/cap-core/src/table.rs:98-223 | Every kernel step keeps every capability traced to a record in an append-only log |
| Transfer.MoveConserves | kernel/src/capspace.rs:697-724 | A move conserves the multiset of authority over all tables, empties the source slot, fills a free slot with the badge cleared, and changes no other slot |
| Transfer.MovesExactlyWhenMovable | kernel/src/capspace.rs:697-724 | A move succeeds exactly for a live delegable capability between two different domains with a free slot at the destination |
| Transfer.FailedRendezvousChangesNothing | kernel/src/capspace.rs:545-573 | A rendezvous fails exactly if a transfer was asked for that is not possible; then no table changes and both sides get the same error and no message |
| Transfer.MovesAreGranted | kernel/src/capspace.rs:515-653 | In every run, when a call changes a table, it is a rendezvous whose send was made with GRANT_CAP; the capability in the offered slot of the sending task's domain was live with DELEGATE, it and nothing else moved, into the slot of the receiving task's domain that the receiver was told; authority is conserved |
| Supervision.LedgersComplete | kernel/src/capspace.rs:252-264 | In every reachable state, with pages mapped by tasks and by the kernel's own invocations, the mapped window pages are the disjoint union of the ledgers, and no ledger exceeds 6 of its 8 entries, so the silent drop is dead, also after a half-failed DQ_MAP |
| Supervision.DeathUnmapsEverything | kernel/src/capspace.rs:760-785 | After a task's death exactly its domain's recorded pages are unmapped |
| Supervision.RestartsWithinBudget | kernel/src/supervisor.rs:27-82 | Over any run the supervised domain is restarted at most as often as was registered |
| Supervision.RestartSucceedsExactly | kernel/src/supervisor.rs:42-82 | A restart succeeds exactly if budget, two object ids and two root slots remain (never failing for a task slot or admission), and the instance starts with one INVOKE-only Memory capability in slot 0 and nothing else |
| Interface.NothingWithoutInvoke | crates/cap-core/src/table.rs:130-165 | An invocation, by a task or by the kernel, through a slot that is out of range, empty, stale or without INVOKE changes nothing and is answered 1 (no such slot, slot empty or object number out of range), 2 (revoked), 3 (absent or of another kind) or 4 (right missing), whichever is first found |
| Interface.InvocationsAreExact | kernel/src/capspace.rs:348-380 | In every run each invocation does and answers exactly what the slot it names allows: refused at the gate, a method performed or refused, a stray capability refused with 5, a send or receive met or parked |
| Interface.MethodsAreExact | kernel/src/capspace.rs:388-456 | With INVOKE held: ErrRights and no change exactly if the right listed for this kind and method is missing (and for M_ALLOC without a frame); Ok with the listed word exactly if the object serves the method, which for X_MAP and DQ_MAP means that the payload is there and every page can be mapped; only the mapping window changes |
| Interface.MappingNeedsMap | kernel/src/capspace.rs:955-1024 | In every run an invocation changes mappings only through a live entry with INVOKE and MAP, for an extent with X_MAP or a queue with DQ_MAP, with its payload |
| Interface.StrayTransferRefused | kernel/src/capspace.rs:468-501 | A capability offered with anything but a send or receive is answered ErrMethod and nothing changes |
| Interface.EndpointCallsAreExact | kernel/src/capspace.rs:515-686 | A send or receive through a live endpoint entry, by slots: GRANT_CAP missing 4, offered slot out of range 1, same side already waiting 4, nothing changed; nobody waiting: the endpoint holds task, domain, word and slot and the processor goes by earliest deadline; partner waiting: word and capability handed over, both told, partner runnable |
| Interface.RendezvousHandsOver | kernel/src/capspace.rs:545-573 | The status of a handoff in the order of the checks (same domain, slot empty, DELEGATE missing, stale, receiver full), the exact tables after it, and the first empty slot told to the receiver |
| Interface.TicksAreExact | kernel/src/sched.rs:277-308 | With more than one task a tick is a switch by earliest deadline from the task table with the running context saved; with one it only publishes the domain |
| Interface.ProcessorGoesByDeadline | kernel/src/sched.rs:433-463 | In every run the processor changes hands only in a tick with more than one task, a fault or a call that parks, and after each of them no due job is unreleased and nobody ready has an earlier deadline than the task that runs; otherwise the running task and its published domain stay |
| Interface.AdmissionIsExact | kernel/src/sched.rs:183-272 | A task is admitted exactly if its period is positive, the root slot holds a live entry with INVOKE and a task slot is free: the first free slot gets exactly the given period, domain, privilege and deadline min(now+relative, MAX); otherwise nothing changes |
| Interface.CreationIsExact | kernel/src/capspace.rs:841-947 | A new object takes the first free number at epoch 0, its payload is kept exactly if it is backed and of that kind, and the first empty root slot gets the rights of its kind, right by right |
| Interface.AuthorityByKind | kernel/src/capspace.rs:295-328 | In every run MAP is only found on Memory, Extent and DeviceQueue capabilities and GRANT_CAP only on endpoints; TimeSlice capabilities have at most INVOKE and are in the root domain; nobody has REVOKE or SEAL |
| Interface.GrantsAreExact | kernel/src/capspace.rs:331-344 | A grant succeeds exactly for a non-root domain with an empty slot and a live root entry with DELEGATE; the first empty slot gets the same object and epoch, the rights common to entry and mask, and the badge; otherwise nothing changes |
| Interface.RevocationIsSelective | crates/cap-core/src/table.rs:53-60 | Revoking an object makes every live entry for it answer 2 and leaves every other entry live and everything else unchanged |
| Interface.ReapingIsExact | kernel/src/capspace.rs:747-785 | Exactly the given domain loses all slots and its recorded pages, and exactly the endpoints waiting with the task are reset |
| Interface.FaultsAreExact | kernel/src/sched.rs:539-575 | A fault frees the slot, empties the domain and its mappings, and switches by earliest deadline; a fresh instance with period and deadline 5 ms is in the first free task slot exactly if the domain is 4, budget is left and two objects and two root slots are free |
| Interface.DeathClearsOnlyItsDomain | kernel/src/capspace.rs:747-785 | In every run a fault in a domain other than 4 empties that domain's table and leaves all others as they were; in domain 4 the table is empty or, with budget, a free object and a free root slot, that of a fresh instance, the root keeps its entries and domains 1, 2, 3 and 5 are as they were |
| Ledger.MapPagesKeepsComplete | kernel/src/capspace.rs:996-1024 | A mapping loop that stops anywhere leaves the ledgers complete |
| Ledger.MapsUpToFirstFailure | kernel/src/capspace.rs:1015-1023 | A mapping loop maps and records exactly the pages before the first that is mapped already or has no table, and succeeds exactly if there is none |
| Ledger.TearDownKeepsComplete | kernel/src/capspace.rs:760-785 | Taking one domain down keeps all other domains' pages mapped and recorded |
| Sched.EarliestDeadlineFirst | kernel/src/sched.rs:587-632 | The closed form of a switch: (now-D)/T+1 releases of each task due, deadline min(D+kT, MAX), others untouched, no periodic task left due, and the choice least in (deadline, index) |
| Sched.Reschedule | kernel/src/sched.rs:587-632 | The release loops followed by the scan do that to the task array: exactly the due jobs released, and the eligible task least in (deadline, index) chosen, or idle only if none is eligible |
| Sched.RollingComposes | kernel/src/sched.rs:587-607 | No job is lost by rolling late: rolling at a and then at b releases what rolling at b alone does |
| Sched.Releases | kernel/src/sched.rs:594-596 | The number of releases is the least that takes the deadline past now |
| Sched.ReleaseOnce | kernel/src/sched.rs:594-606 | One turn of the catch-up loop advances the deadline and leaves the final outcome as it was |
| Sched.CatchUp | kernel/src/sched.rs:594-606 | The catch-up loop terminates for now below the largest u64 and releases exactly the due jobs |
| Sched.RollDeadlines | kernel/src/sched.rs:587-607 | Every task but the idle one catches up, in place |
| Sched.PickNext | kernel/src/sched.rs:613-632 | The choice is the eligible task with the least deadline, lowest index among equals, or idle if none is eligible |
| Sched.PickNextScan | kernel/src/sched.rs:613-632 | The scan with best index and best deadline yields that choice |
| KernelMachine.System.constructor | kernel/src/sched.rs:109-124 | Boot leaves the initial state of runs, and the run so far is that state |
| KernelMachine.System.Enter | kernel/src/capspace.rs:468-501 | Any entry into the kernel (tick, call, the kernel's own invocation, end of a blocked call, fault, creation, grant, revocation, admission, registration) takes the statics one step along a run, so all results on runs hold of them; a call returns what the model says, an ended call what its rendezvous decided |
| KernelMachine.System.FinishCall | kernel/src/capspace.rs:596-600 | A task that resumes inside its call returns what the rendezvous of that call decided |
| KernelMachine.System.CreateWithPayload | kernel/src/capspace.rs:868-947 | An extent or device queue with its payload kept beside the object table; the payload stays even if no root slot is free |
| KernelMachine.System.ScheduleTick | kernel/src/sched.rs:277-308 | The timer tick in place: with more than one task due jobs are released and the earliest deadline chosen, in that order; with one only the domain is published |
| KernelMachine.System.ParkCurrent | kernel/src/sched.rs:433-463 | Marking blocked, rolling, choosing and only then saving the context is a switch by earliest deadline away from a task asleep inside its call |
| KernelMachine.System.Wake | kernel/src/sched.rs:468-480 | Result first, then unblocked; nothing else changes |
| KernelMachine.System.TakeResult | kernel/src/sched.rs:498-507 | For a task whose partner has come, the result read is what the rendezvous of its open call decided |
| KernelMachine.System.AdmitTask | kernel/src/sched.rs:183-272 | Admission in place: exactly with a period, a live root entry with INVOKE and a free slot, and then the first free slot holds the task with the given period, domain, privilege and deadline; otherwise nothing changes |
| KernelMachine.System.CreateRoot | kernel/src/capspace.rs:295-328 | A new object with its root capability; if the root table is full the object stays and no capability is made |
| KernelMachine.System.RevokeId | crates/cap-core/src/table.rs:53-60 | After a revocation every capability at the old epoch fails as revoked, and no capability of another object is affected; an absent object is reported and nothing changes |
| KernelMachine.System.DelegateTo | crates/cap-core/src/table.rs:171-223 | Delegation between two tables, error cases in the code's order |
| KernelMachine.System.GrantFromRoot | kernel/src/capspace.rs:331-344 | Delegation from the root to another domain only |
| KernelMachine.System.MoveCap | kernel/src/capspace.rs:697-724 | Delegate with all rights and badge 0, then clear the source slot; on failure no table changes |
| KernelMachine.System.Send | kernel/src/capspace.rs:515-600 | Send in place: checks before any parking, handoff, busy or parked |
| KernelMachine.System.Receive | kernel/src/capspace.rs:607-686 | Receive in place: handoff, busy or parked |
| KernelMachine.System.MapAll | kernel/src/capspace.rs:1015-1023 | The loop over the queue's pages; on a failure the earlier pages stay mapped and recorded |
| KernelMachine.System.RecordMap | kernel/src/capspace.rs:252-264 | The ledger gets the page unless it is full |
| KernelMachine.System.ReapDomain | kernel/src/capspace.rs:747-785 | Loop by loop, every slot of this domain emptied and of no other, the endpoints waiting with the task reset and every recorded page unmapped; for a number that is no domain only the endpoints are reset |
| KernelMachine.System.DomainDied | kernel/src/supervisor.rs:42-82 | Budget first, then the two grants, then the admission |
| KernelMachine.System.TerminateCurrent | kernel/src/sched.rs:539-575 | Slot freed, domain reaped, supervisor asked, next task chosen: only this domain loses slots and pages, and the switch is by earliest deadline, with a fresh instance exactly when one is due |
| KernelMachine.System.CapInvoke | kernel/src/capspace.rs:468-501 | The system call in place: refused with the exact status at the gate, method performed or refused by the right it needs, stray transfer refused, or endpoint operation met or parked |
| KernelMachine.System.InvokeIn | kernel/src/capspace.rs:359-380 | The kernel's own invocation in a domain's table, the domain clamped: the same gate, the same method rights and answers |
| Frames.AllocatorsAgreeExactly | kernel/src/memory.rs:95-165 | On sets of free frames: the replies and counts agree all along a sequence of operations if and only if each freed frame is kept by both or neither |
| Allocators.RunBoth | kernel/src/memory.rs:95-165 | Range list and bitmap, driven through the same operations from the same free frames, reply as the functions on sets say; with every free below the capacity and none dropped they reply alike and end alike |
| Allocators.StayAlike | crates/frame-alloc/src/lib.rs:72-112 | Watched in every reply and count, the two allocators never differ if and only if each freed frame is kept by both or neither; for frees below the capacity, if and only if the range list drops none |
| Frames.AllocatorsAgree | crates/frame-alloc/src/lib.rs:72-112 | On sets of free frames: with every free below the capacity and none dropped, both give the same replies and end with the same frames free |
| RangeList.FrameAllocator.Coalesce | kernel/src/memory.rs:169-220 | Sorting and merging keeps the set of frames and leaves separated, non-empty regions packed at the front |
| RangeList.FrameAllocator.Alloc | kernel/src/memory.rs:95-119 | The minimum free frame is returned and removed; none only if none is free |
| RangeList.FrameAllocator.Free | kernel/src/memory.rs:123-155 | The frame is added (twice is no harm) and lost exactly when it is alone and the free set already has 64 maximal runs |
| RangeList.FrameAllocator.FreeCount | kernel/src/memory.rs:157-165 | The count is the number of free frames |
| RangeList.FrameAllocator.AddRegion | kernel/src/memory.rs:80-92 | A range goes into the first empty slot, or is dropped when there is none |
| RangeList.FrameAllocator.Init | kernel/src/memory.rs:227-247 | After boot every free frame lies whole inside a usable entry above 1 MiB, and with at most 64 ranges every such frame is free |
| RangeList.RoundsInward | kernel/src/memory.rs:236-241 | The frame range of an entry holds exactly the frames that lie whole inside it, above 1 MiB |
| RangeList.LiveCountsRuns | kernel/src/memory.rs:46-49 | In a separated list the slots in use are as many as the set has maximal runs |
| RangeList.SortByStart | kernel/src/memory.rs:187-194 | The insertion sort with swaps orders the regions by start and keeps their multiset |
| RangeList.Merge | kernel/src/memory.rs:196-213 | One pass over sorted regions yields separated regions covering the same frames |
| Bitmap.BitmapFrameAllocator.constructor | crates/frame-alloc/src/lib.rs:43-47 | A new bitmap of any size has nothing free |
| Bitmap.BitmapFrameAllocator.MarkFree | crates/frame-alloc/src/lib.rs:51-58 | The frame becomes free, or nothing happens beyond the capacity |
| Bitmap.BitmapFrameAllocator.MarkUsed | crates/frame-alloc/src/lib.rs:61-68 | The frame becomes used |
| Bitmap.BitmapFrameAllocator.Alloc | crates/frame-alloc/src/lib.rs:72-87 | The lowest free frame is returned and removed; the branch for a frame out of range is dead for every capacity |
| Bitmap.BitmapFrameAllocator.IsFree | crates/frame-alloc/src/lib.rs:96-103 | Whether the frame is in the set, false beyond the capacity |
| Bitmap.BitmapFrameAllocator.FreeCount | crates/frame-alloc/src/lib.rs:106-112 | The number of set bits is the number of free frames |
| Bitmap.WordChanged | crates/frame-alloc/src/lib.rs:51-68 | Setting or clearing one bit of one word changes the set by exactly that frame |
| Bitmap.LowestBit | crates/frame-alloc/src/lib.rs:72-87 | The lowest bit of the first non-zero word is the least free frame |

## Left out

- Naked assembly, register frames, `swapgs`, TSS and GDT code: only which task and context runs next is modelled.
- Page tables: mapping fails if the page is mapped or a table cannot be allocated, unmapping clears it; nothing else of paging is modelled.
- PCI, APIC, serial output, device discovery and feature negotiation.
- `boot` demo code and ring-3 programs; the boot-time self-test that sets the current domain by hand is not part of runs.
- The static heap.
- `load_extent`, `extent_metadata`, replies of `DQ_INFO`, `DQ_REPORT` and `X_READ`, Notification words and M_ALLOC's frame: these words are free inputs of a call.
- `seal`, `destroy_object` and the 128-bit encoding of capabilities: the kernel does not use them.
- Starvation freedom and waking the survivors of a dead partner: the code does not provide them.
- Ring-3 use of the virtqueue after DQ_MAP: the queue model has one driver.
- A device without the flush feature under the store: the store's model assumes that a flush that succeeds made everything durable.
- A second mount within one boot, and disks not formatted by this store.
- StoreRuns.CrashAtomicity: does not cover a mount that finds the superblock of a failed put over which another put was begun, nor mounts after it until a put is acknowledged, because there it is false; and, like all results on runs, no mount of an out-of-date slot.
- Objstore.Store.Recover: an empty object is never reported, as in the code; in `CrashAtomicity` it counts as found when its very superblock is mounted.
- KernelMachine.System.AdmitTask: domains are below 6; the code takes any number and the current domain is clamped when it is used.
- RangeList.FrameAllocator.Free: frame numbers are below the largest u64, where the code's addition would overflow.
- RangeList.FrameAllocator.Init: base plus length of an entry does not overflow 64 bits.
- Sched.CatchUp: the 64-bit activation counter does not wrap in the model.
- VirtioRing.Queue.Submit: memory ordering and the doorbell write are not modelled; the device may look at the queue before any poll.
