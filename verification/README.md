# Verified model of the Unix-socket RMW's shared-memory protocols

This project models the three shared-memory protocols of `rmw_unix_socket_cpp` and proves what
every interleaving of them keeps.

* **Latched replay** (`Wire`, `LatchProtocol`, `DurableProtocol`, `LatchedPull`, `LatchedJoin`,
  `Subscription`, `JoinLoss`, `LatchedRing`, `LatchedPublisher`, `Sorting`). A TRANSIENT_LOCAL
  publisher writes each sample into a ring of per-record seqlock slots, loads the registry
  generation, refreshes its subscriber list and fans out. A late joiner registers, pulls the ring
  slot by slot, re-checks it, trims, and freezes a watermark against which its datagrams are
  deduplicated. Samples too large to embed live in durable segments, which publishing threads
  create before the publisher's mutex, hand to the ring inside it, and destroy after it.
* **Payload ring** (`PayloadProtocol`, `PayloadFetch`, `ShmRing`, `Transport`, `PayloadLoss`).
  One writer places 64-byte-aligned records of any size in a wrapping ring; readers copy them
  out optimistically.
* **Registry and wakeups** (`RegistryProtocol`, `RegistryRead`, `RegistryQuery`,
  `RegistryWriter`, `RegistrySweep`, `RegistryLoss`, `DoorbellProtocol`, `Doorbell`, `WaitSet`). Any number of
  processes claim, fill, publish and empty registry slots by CAS; mutators bump a generation and
  ring doorbells; a waiter drains, reads the generation and blocks; `rmw_wait` keeps a cache of
  armed file descriptors.

## How interleavings are represented

Each protocol has a step relation whose steps are single atomic accesses (or single copied
cells), with program counters and a history of what was committed. A run is a sequence of states
linked by steps. It may stop anywhere, which is how a killed process appears.

* `DurableProtocol` is a layer over `LatchProtocol`: its steps are those of `LatchProtocol` by any
  number of publishing threads, plus the creation, hand-over and destruction of segments.
  Forgetting the segments turns each of its runs into a run of `LatchProtocol`
  (`DurableProtocol.BaseRun`), so the theorems about samples and the theorems about segments are
  about the same executions.
* Readers are methods with the loops of the source. They take an arbitrary run, and every load
  happens at some time no earlier than the load before it (`Schedule.Later`), so their contracts
  hold for every schedule.
* Writers are classes with the fields and loops of the source. The sole writer of a payload
  segment appends the step it takes to the segment's run (`ShmRing`). Registry writers, ring
  passes and the waiter's generation check also call `Interfere`, of which callers know only that
  others may have stepped (`RegistryWriter`, `Doorbell`). The latched ring is a byte-addressed
  array (`LatchedRing`) and a lemma ties its sequential effect to the steps
  (`LatchedPublisher.StepsLatchInto`).

Memory is sequentially consistent: the source's acquire/release pairs and `seq_cst` fences
become program order. Counters are unbounded. Alignment and slot selection are functions by
recursion, `Arith.AlignUp` and `Arith.Residue`, so that proofs over steps see no division;
`Arith.AlignUpIsRounding` and `Arith.ResidueIsRemainder` equate them with `(v + a - 1) / a * a`,
which the source writes as a mask for its powers of two, and with the remainder.

## Where the code and its documentation differ

* `DESIGN.md` (rmw_unix_socket_cpp/DESIGN.md:606-608) says a concurrent latch costs a joiner
  nothing because only the contiguous prefix of the pull is kept. For every join, wrapped,
  overlapped, cut by depth, stopped at an unresolvable record or after failed latches,
  `LatchedJoin.DeliveredIff` says exactly which samples reach the joiner: those whose record was
  kept and resolved, and those whose datagram was received, which for one that carries its bytes
  means sent and above the watermark. Three families of joins lose samples for good:
  * the trim looks for gaps between pulled records and not before the first one. From every state
    in which a joiner has registered and nothing is latched yet in two or more slots,
    `JoinLoss.OverlappedJoinCanLose` continues to a join that loses sample 1;
  * the watermark claims everything below the newest record pulled. From every state in which a
    joiner has registered, `JoinLoss.WrappedJoinCanLose` continues to a join, overlapped or not,
    that loses a sample published after the registration whose datagram is in the socket: as many
    samples as there are slots were published after it and before the scan;
  * the trim drops records that no datagram replaces. In `JoinLoss.TrimmedJoinCanLose` sample 3
    stays in its slot throughout, is pulled, trimmed away, and was published before the
    registration.

  `LatchedJoin.JoinIsLosslessIff` says which joins of a ring that has not wrapped are lossless:
  those whose pull found nothing or found the first sample. For such joins a joiner can tell
  beforehand: `JoinLoss.LosslessBeforehandIff`, when the ring does not wrap before the scan ends,
  the depth holds what is committed by then, every latch succeeds, the pulled records resolve and
  no datagram needs a segment, every join is lossless if and only if a sample is already
  committed. Once the ring may wrap, `WrappedJoinCanLose` leaves no such test.
* `DESIGN.md` (rmw_unix_socket_cpp/DESIGN.md:206) says a descriptor is lost once its reader is
  more than four large messages behind. Two reservations is what a record survives in general and
  three when all records have one size (`PayloadProtocol.RecordSurvives`). Both bounds are tight
  for segments and payloads of the sizes the source makes: in the smallest segment, 1 MiB, the
  third reservation destroys a record when payloads of 131064 and 262136 bytes mix
  (`PayloadLoss.ThirdReservationCanOverwrite`), and the fourth does when all are 262136 bytes
  (`PayloadLoss.FourthReservationCanOverwrite`). `PayloadLoss.StagingDestroysIff` says exactly
  which records a staging destroys, in terms the writer knows beforehand: those whose header lies
  in the bytes the new record will take.
* The registry empties a slot's state before it zeroes the payload, so a second process can claim
  and fill a slot whose teardown is still to come or under way. In every run in which no fill
  starts during such a teardown, snapshots are consistent (`RegistryRead.SnapshotSlot`) and no
  reader is shown a payload that differs from the entry published
  (`RegistryLoss.GuardedIsSound`). A guarded run that ends with a claim won during a teardown can
  always go on past the guard; when the claimant then publishes and the remover finishes, the
  published payload is wrong exactly if a byte that was still to be zeroed is not zero in the
  entry (`RegistryLoss.OverlapMisrepresentsIff`), which is always so if zeroing had not begun.
  That state is reachable from an empty registry (`RegistryLoss.UnguardedCanCorrupt`).
* `registry_cleanup_stale` checks a slot's seq and then removes by a CAS on its type, so two
  concurrent sweeps can reap a live entry even in a guarded run:
  `RegistryLoss.TwoSweepsReapLive`. What a sweep removes is the dead entry it vetted if and only
  if nobody removed that one between the moment it was shown and the sweep's CAS
  (`RegistryWriter.SharedRegistry.CleanupStale`, `RegistryProtocol.ClaimChangedIff`).

## Model

| member | source | states |
|---|---|---|
| Wire.HeaderRoundTrip | rmw_unix_socket_cpp/src/types.hpp:115-124 | a wire header read back from the cells it was copied to is the header |
| Wire.SlotRoundTrip | rmw_unix_socket_cpp/src/shm_transport.cpp:765-777 | header and payload cells of a latched record decode to the message that was latched, embedded or by descriptor |
| Arith.AlignUpIsRounding | rmw_unix_socket_cpp/src/shm_transport.cpp:45-48 | the recursive alignment is rounding up to the next multiple, and leaves exactly the multiples alone |
| LatchProtocol.RunInv | rmw_unix_socket_cpp/src/rmw_publisher.cpp:255-332 | in every reachable state each stable slot holds exactly the newest committed sample that maps to it, sequence numbers ascend along log and socket, a cached generation covering the joiner implies a cached list containing it, and a sample committed after the joiner's registration is sent or still on its way to a send that includes it |
| LatchProtocol.RunGrows | rmw_unix_socket_cpp/src/shm_transport.cpp:711-787 | along every run the log, the socket, the generation and every slot's seq word only grow, and a finished fan-out stays finished |
| LatchProtocol.StepKeepsCache | rmw_unix_socket_cpp/src/rmw_publisher.cpp:202-236 | the memoization invariant survives every step, because the generation is loaded before the query and high water is widened before the bump |
| LatchProtocol.StepKeepsDelivery | rmw_unix_socket_cpp/src/rmw_publisher.cpp:288-323 | the store-buffering half survives every step: latch before generation load against registration before pull |
| LatchedPull.CopyCells | rmw_unix_socket_cpp/src/shm_transport.cpp:876-884 | the optimistic copy yields cells each of which the slot held at some time of the copy, possibly a torn mix |
| LatchedPull.ReadSlot | rmw_unix_socket_cpp/src/shm_transport.cpp:850-899 | the last seq word observed, and a record exactly when that word was stable around the copy: then the record is the sample the word names; no record means the word was zero, odd or superseded |
| LatchedPull.LongLengthIsTorn | rmw_unix_socket_cpp/src/shm_transport.cpp:867-875 | an over-cap length seen under a stable word implies the word has changed, so skipping it loses nothing |
| LatchedPull.StableBetween | rmw_unix_socket_cpp/src/shm_transport.cpp:765-777 | between two sightings of one even seq word the slot holds one and the same sample |
| LatchedPull.HeldInSlot | rmw_unix_socket_cpp/src/shm_transport.cpp:747-749 | the slot of sample k still holds it if and only if k is among the newest samples the ring has room for, one fewer while a write is under way |
| LatchedPull.ScanSlots | rmw_unix_socket_cpp/src/shm_transport.cpp:848-899 | every slot is scanned once in order; the records picked are exactly the stable slots' samples, distinct, with their greatest sequence number |
| LatchedPull.Recheck | rmw_unix_socket_cpp/src/shm_transport.cpp:900-912 | no overlap reported implies every slot's word at the end of the scan equals the scanned one; overlap reported implies some slot did move |
| LatchedPull.SnapshotIsReplay | rmw_unix_socket_cpp/src/shm_transport.cpp:848-912 | a scan whose words all match one instant, once sorted, is exactly the bounded list of the newest samples at that instant, whether or not a writer died mid-write |
| LatchedPull.UnwrappedComplete | rmw_unix_socket_cpp/src/shm_transport.cpp:848-899 | in a ring that has not wrapped, a committed sample absent from the scan was not yet committed when its slot was passed |
| LatchedPull.TlRingPull | rmw_unix_socket_cpp/src/shm_transport.cpp:789-927 | every slot is scanned, and the records are, in ascending order, exactly what the slots were found to hold, or the newest `depth` of it; so a sample its slot held throughout is kept unless newer ones fill the depth, overlap or not, wrapped or not; without overlap they are the bounded list at one instant between scan and re-check; with overlap in an unwrapped ring whatever is missing was uncommitted when missed |
| Sorting.SortBySequence | rmw_unix_socket_cpp/src/shm_transport.cpp:915-920 | records with distinct sequence numbers come out ascending with the same members |
| Sorting.AscendingUnique | rmw_unix_socket_cpp/src/shm_transport.cpp:915-920 | two strictly ascending record lists with the same members are equal |
| LatchedJoin.TrimToContiguous | rmw_unix_socket_cpp/src/rmw_subscription.cpp:284-306 | the longest prefix without a gap between neighbouring sequence numbers |
| LatchedJoin.AtMostOnceInOrder | rmw_unix_socket_cpp/src/rmw_subscription.cpp:68-95 | for every run, overlap, failed latch or unresolvable record notwithstanding, the sequence numbers one publisher contributes to the queue strictly increase |
| LatchedJoin.UnoverlappedJoinIsLossless | rmw_unix_socket_cpp/src/rmw_subscription.cpp:253-337 | when the pull ends without overlap and all of it resolves, every sample still owed by the ring at the snapshot instant, embedded or in a segment, and every later one sent inline, or whose descriptor resolves, reaches the joiner exactly once with the bytes published |
| LatchedJoin.DeliveredIff | rmw_unix_socket_cpp/src/rmw_subscription.cpp:253-337 | for every join whatever overlapped, wrapped, failed to latch or to resolve: a committed sample is delivered, then exactly once, if and only if its record was kept and resolved or its datagram received, and a datagram that carries its bytes is received if and only if it was sent and lies above the watermark |
| LatchedJoin.LateIsDelivered | rmw_unix_socket_cpp/src/rmw_publisher.cpp:288-323 | a sample committed after some moment of the join and above the watermark is sent to the joiner and queued |
| LatchedJoin.JoinIsLosslessIff | rmw_unix_socket_cpp/src/rmw_subscription.cpp:284-306 | an overlapped join of an unwrapped ring with successful embedded latches delivers every sample exactly once if and only if the pull found nothing or found the first sample |
| LatchedJoin.FirstIsLost | rmw_unix_socket_cpp/src/rmw_subscription.cpp:284-306 | when the kept records start above sample 1, sample 1 is dropped as a duplicate and never queued |
| LatchedJoin.EarlySampleMakesJoinLossless | rmw_unix_socket_cpp/src/rmw_subscription.cpp:284-306 | one sample committed before the scan began makes the trimmed join lossless |
| LatchedJoin.NextWasMissed | rmw_unix_socket_cpp/src/rmw_subscription.cpp:284-306 | the first sample beyond the kept prefix was uncommitted when the scan passed its slot, so it comes as a datagram |
| Subscription.UdsSubscription.constructor | rmw_unix_socket_cpp/src/rmw_subscription.cpp:243-341 | creation pulls, trims, resolves and queues history before the handle exists, or skips a muted publisher; the replay stops early only at a descriptor that could not be mapped or whose sample left the ring |
| Subscription.UdsSubscription.PullHistory | rmw_unix_socket_cpp/src/rmw_subscription.cpp:267-337 | the queue is the prefix of the trimmed pull that resolved, each record as its sample was published, and the watermark claims exactly that prefix; with mappable segments the first record left out is no longer in the ring |
| Subscription.UdsSubscription.QueuePulled | rmw_unix_socket_cpp/src/rmw_subscription.cpp:308-331 | records resolve in order to the very bytes of their samples, embedded or from their segment; only a descriptor can fail, and then its segment could not be mapped or its sample had left the ring; that ends the replay and lowers the watermark to just below it |
| Subscription.UdsSubscription.Push | rmw_unix_socket_cpp/src/rmw_subscription.cpp:110-119 | the queue is always the newest part of everything pushed, and as long as the depth allows |
| Subscription.UdsSubscription.Receive | rmw_unix_socket_cpp/src/rmw_subscription.cpp:80-137 | one datagram is consumed; a duplicate or muted one is left out, one that carries its bytes or whose segment can be mapped while its sample is in the ring is appended with the bytes published, and the queue grows by it up to the depth |
| Subscription.UdsSubscription.DrainSubscription | rmw_unix_socket_cpp/src/rmw_subscription.cpp:80-137 | the socket is consumed up to its end; the queue is the newest part, up to the depth, of what it held and what arrived; with mappable segments every datagram that is no duplicate and still resolvable at the end was queued |
| Subscription.UdsSubscription.Take | rmw_unix_socket_cpp/src/rmw_subscription.cpp:373-424 | the socket is drained to its end, then exactly the oldest message of the resulting queue is handed out and the others stay, or none when the queue is empty |
| Subscription.SameContextIff | rmw_unix_socket_cpp/src/types.hpp:84-156 | with ignore_local_publications exactly the publishers of the subscription's own context are muted, whatever their process and counter |
| JoinLoss.OverlappedJoinCanLose | rmw_unix_socket_cpp/src/rmw_subscription.cpp:284-306 | from every registered state with nothing latched yet, idle or in the middle of the first publish, and at least two slots, a continuation whose overlapped join never delivers sample 1 although it was latched and sent |
| JoinLoss.WrappedJoinCanLose | rmw_unix_socket_cpp/src/rmw_subscription.cpp:253-337 | from every registered state, a continuation whose join, overlapped or not as asked, reads every slot and never delivers a sample published after the registration although its datagram is in the socket |
| JoinLoss.TrimmedJoinCanLose | rmw_unix_socket_cpp/src/rmw_subscription.cpp:284-306 | from every registered state whose ring of three or more slots has just been filled and nothing sent, a continuation whose overlapped join pulls sample 3, trims it away and never delivers it, although it stays in its slot throughout |
| JoinLoss.Register | rmw_unix_socket_cpp/src/registry.cpp:253-295 | such registered states exist: any number of samples published and none sent, then a registration |
| JoinLoss.LosslessBeforehandIff | rmw_unix_socket_cpp/src/rmw_subscription.cpp:253-306 | for a joiner that registers with a ring whose latches have all succeeded, one publish possibly under way: every join whose ring does not wrap before the scan ends, whose depth holds what is committed by then, whose latches and records all succeed and resolve and whose datagrams carry their bytes is lossless if and only if a sample is already committed |
| LatchedRing.TlRingWriter.constructor | rmw_unix_socket_cpp/src/shm_transport.cpp:608-709 | empty slots, at least one, no more than the depth asks for or the byte cap holds, and as many as those two bounds allow |
| LatchedRing.TlRingWriter.WriteRecord | rmw_unix_socket_cpp/src/shm_transport.cpp:765-777 | the seqlock write changes its own slot's word, length, header and payload cells and no other cell of the mapping, header area and padding included; the word turns odd before anything else changes and even after everything has |
| LatchedRing.TlRingWriter.Latch | rmw_unix_socket_cpp/src/shm_transport.cpp:711-787 | succeeds exactly for a mapped ring, a latchable sample and committed pages; success replaces the oldest slot, adopts the staged segment and evicts the slot's old one; failure changes nothing and destroys the staged segment |
| LatchedRing.LatchKeepsSlots | rmw_unix_socket_cpp/src/shm_transport.cpp:747-786 | after any number of latches slot i holds the newest sample congruent to i |
| LatchedRing.LatchKeepsOwners | rmw_unix_socket_cpp/src/shm_transport.cpp:720-786 | a slot owns a segment exactly when it holds a descriptor, and that descriptor names it |
| LatchedRing.PatchedSlots | rmw_unix_socket_cpp/src/shm_transport.cpp:765-777 | rewriting one record's bytes rewrites its slot and leaves every other slot as it was |
| LatchedPublisher.LatchingPublisher.TransientLocalPublish | rmw_unix_socket_cpp/src/rmw_publisher.cpp:255-332 | one sequence number per publish; a payload over the cap is staged whenever a segment can be created, and the sample is latched exactly if the ring is mapped, pages are committed and it is embeddable or staged; latch, generation load, sends and destruction of the evicted segment come in that order; the subscriber list is at least as new as the generation loaded, in guarded runs exactly the topic's subscribers, each slot once, and each of its paths is sent the message once; segments in existence change by exactly what the ring gained and lost, and a descriptor on the wire names a segment the ring owns |
| LatchedPublisher.SegmentsBalance | rmw_unix_socket_cpp/src/rmw_publisher.cpp:265-312 | sequential view: adopting the staged segment and destroying the evicted one keeps every owned segment alive, each with one owner, and leaks none |
| DurableProtocol.RunInv | rmw_unix_socket_cpp/src/rmw_publisher.cpp:255-332 | in every state of every interleaving of publishing threads, latch steps and segment steps: a segment exists if and only if a caller, a slot or an evicted handle owns it, never two of them; slots own what their descriptors name; every descriptor ever latched or sent names the segment that was created with its sample's bytes |
| DurableProtocol.BaseRun | rmw_unix_socket_cpp/src/rmw_publisher.cpp:255-332 | refinement: forgetting the segments turns every run with them into a run of the latch protocol |
| DurableProtocol.StableNamesLive | rmw_unix_socket_cpp/src/shm_transport.cpp:711-787 | at every moment a stable slot holding a descriptor names a live segment with exactly the sample's bytes, also between commit, eviction and adoption |
| DurableProtocol.SentNamesLive | rmw_unix_socket_cpp/src/rmw_publisher.cpp:288-332 | a descriptor being sent names a live segment with exactly the sample's bytes |
| DurableProtocol.OneOwner | rmw_unix_socket_cpp/src/shm_transport.cpp:720-786 | a segment exists exactly while something owns it, and never has two owners |
| DurableProtocol.QuietHasNoLeak | rmw_unix_socket_cpp/src/rmw_publisher.cpp:255-332 | once no thread holds a staged or evicted handle, exactly the slots' segments exist |
| DurableProtocol.ResolveIncoming | rmw_unix_socket_cpp/src/transport.cpp:373-390 | a latched descriptor resolves to its own sample or not at all, and it does resolve when the segment can be mapped and a slot still holds the sample when the resolve ends |
| LatchedPublisher.StepsLatchInto | rmw_unix_socket_cpp/src/shm_transport.cpp:711-787 | a latch interleaved with anybody's steps changes the slots exactly as the sequential latch does |
| LatchedPublisher.QuiescentPullIsBoundedList | rmw_unix_socket_cpp/src/shm_transport.cpp:850-926 | with no writer about, a pull reports no overlap and returns the last min(depth, slots, successes) samples in order |
| PayloadProtocol.RunInv | rmw_unix_socket_cpp/src/shm_transport.cpp:157-247 | every run of reserves, copies, commits and aborts keeps the cursor 64-aligned and in range, reservations inside the area, indices never reused, and a record's body intact as long as its header is |
| PayloadProtocol.RunKeepsRecords | rmw_unix_socket_cpp/src/shm_transport.cpp:209-240 | a committed record's place and payload never change, and a header once destroyed never comes back |
| PayloadProtocol.RecordSurvives | rmw_unix_socket_cpp/src/shm_transport.cpp:174-194 | a committed record is intact through the next two reservations for any sizes, commits and aborts, and through the next three when the segment sees one record size |
| PayloadLoss.FillingDestroysIff | rmw_unix_socket_cpp/src/shm_transport.cpp:196-229 | at every moment of a reservation, exactly the headers its bytes have reached are gone |
| PayloadLoss.StagingDestroysIff | rmw_unix_socket_cpp/src/shm_transport.cpp:157-240 | staging a payload destroys an intact record if and only if that record's header lies in the bytes the new record takes, which the writer knows from its cursor beforehand |
| PayloadLoss.ThirdReservationCanOverwrite | rmw_unix_socket_cpp/src/shm_transport.cpp:174-194 | a run of the smallest segment with payloads above the threshold in which the third reservation after a commit destroys the record's header |
| PayloadLoss.FourthReservationCanOverwrite | rmw_unix_socket_cpp/src/shm_transport.cpp:174-194 | a run with one record size in which the fourth reservation after a commit destroys the record's header |
| PayloadFetch.DescriptorRoundTrip | rmw_unix_socket_cpp/src/shm_transport.cpp:461-480 | a descriptor read back from its 32 bytes is the descriptor |
| PayloadFetch.FetchPayload | rmw_unix_socket_cpp/src/shm_transport.cpp:461-518 | a successful fetch of a genuine descriptor returns exactly the bytes staged under it, however the copy interleaves with the writer, and a fetch that ends with the header still in place does succeed; any descriptor is read inside the area between two sightings of its seq, and refused only if it lies outside or its header contradicts it |
| ShmRing.ShmRingWriter.CreateSegment | rmw_unix_socket_cpp/src/shm_transport.cpp:62-140 | a new segment under the next id, never a used one; failure changes nothing |
| ShmRing.ShmRingWriter.StageReserve | rmw_unix_socket_cpp/src/shm_transport.cpp:157-207 | succeeds exactly when the size is representable and the ring holds four such records or can grow; keeps or replaces the segment accordingly |
| ShmRing.ShmRingWriter.StageCommit | rmw_unix_socket_cpp/src/shm_transport.cpp:209-240 | publishes the reserved bytes as the next record and returns a genuine descriptor for it, under this owner and segment; an overrun aborts |
| ShmRing.ShmRingWriter.StageAbort | rmw_unix_socket_cpp/src/shm_transport.cpp:242-247 | leaves the record unpublished and the cursor where it was |
| ShmRing.ShmRingWriter.StagePayload | rmw_unix_socket_cpp/src/shm_transport.cpp:142-155 | succeeds exactly when the size is representable and the ring holds four such records or can be replaced, and replaces it only when it does not; the descriptor names a record of this owner's segment holding exactly the payload |
| Transport.ShmPrepareSend | rmw_unix_socket_cpp/src/transport.cpp:290-311 | a flagged descriptor of a record holding the payload exactly when the payload is at or above the threshold and can be staged, otherwise the payload inline and the ring untouched |
| Transport.ShmResolveIncoming | rmw_unix_socket_cpp/src/transport.cpp:373-390 | an inline message is untouched; a flagged one becomes the staged payload with flag cleared and size restored; it is refused only for its size, a segment that cannot be mapped, or a descriptor out of bounds or contradicted by its record |
| Transport.SendThenResolve | rmw_unix_socket_cpp/src/transport.cpp:290-390 | round trip: header and payload come back unchanged for every size when the segment can be mapped and at most two later reservations intervened |
| RegistryProtocol.RunInv | rmw_unix_socket_cpp/src/registry.cpp:253-370 | in every reachable state generation plus unannounced operations equals publishes plus removals, live slots plus removals equals publishes, announced slots lie below high water, and a reserved slot has exactly its claimant as owner |
| RegistryProtocol.WideningStep | rmw_unix_socket_cpp/src/registry.cpp:271-283 | whatever adders interleave in the CAS-max loop, high water never shrinks and covers every announced index |
| RegistryProtocol.OneOwner | rmw_unix_socket_cpp/src/registry.cpp:258-295 | from its claim CAS until its add returns or the entry is removed, a thread is the only one adding to its slot |
| RegistryProtocol.RemovalBetweenClaims | rmw_unix_socket_cpp/src/registry.cpp:258-370 | claim exclusivity over whole runs: between two won claims of one slot lies a won removal of it |
| RegistryProtocol.ClaimChangedIff | rmw_unix_socket_cpp/src/registry.cpp:258-370 | in every run a slot seen published stands for another claim later if and only if a removal of it was won in between, and shows the same type while it does not |
| RegistryRead.SeqlockStep | rmw_unix_socket_cpp/src/registry.cpp:230-249 | under the guard, every step keeps: odd seq means one writer in the slot, a published slot has an even seq and holds exactly the entry its fill stored |
| RegistryRead.Steady | rmw_unix_socket_cpp/src/registry.cpp:186-226 | in guarded runs, between two sightings of one even seq word the payload does not change |
| RegistryRead.SameUnlessRemoved | rmw_unix_socket_cpp/src/registry.cpp:483-550 | in guarded runs, a slot that showed a published entry shows the same entry at any later time unless a removal was won in between |
| RegistryRead.SnapshotSlot | rmw_unix_socket_cpp/src/registry.cpp:186-226 | in every run a successful snapshot is under one even word seen twice; in guarded runs it is the type and payload of one single published entry, never a mix, and an entry left undisturbed is not missed |
| RegistryQuery.VisitSlot | rmw_unix_socket_cpp/src/registry.cpp:584-618 | in guarded runs the type pre-filter and the filters after the snapshot together admit exactly the matching undisturbed entry |
| RegistryQuery.RegistryQuery | rmw_unix_socket_cpp/src/registry.cpp:568-634 | in guarded runs results are really published matching entries in slot order, and every matching entry announced before and undisturbed until the end is among them although only the high-water prefix is scanned |
| RegistryQuery.MatchesIff | rmw_unix_socket_cpp/src/registry.cpp:606-618 | an entry is refused if and only if a filter that is present names another type, topic, node or namespace |
| RegistryQuery.CStringIs | rmw_unix_socket_cpp/src/registry.cpp:606-618 | the name compared is what stands in the field before its first NUL |
| RegistryQuery.CStringRoundTrip | rmw_unix_socket_cpp/src/registry.cpp:606-618 | a name stored in a zeroed field is the name compared |
| RegistryQuery.FieldsApart | rmw_unix_socket_cpp/src/registry.hpp:115-133 | the fields a query compares follow one another in the entry as it is laid out in shared memory |
| RegistryQuery.CoveredIsUndisturbed | rmw_unix_socket_cpp/src/registry.cpp:253-295 | in guarded runs a slot announced by a generation already reached, and still announced later, showed one entry all the time between |
| RegistryQuery.PathsOf | rmw_unix_socket_cpp/src/rmw_publisher.cpp:225-231 | exactly the non-empty socket paths of the query result, one per entry, in order |
| RegistryQuery.SubscriberCache.RefreshSubPaths | rmw_unix_socket_cpp/src/rmw_publisher.cpp:210-236 | for generations loaded in any order the cached one never decreases, and the list is rebuilt exactly for a newer one; in guarded runs cached generation g implies the paths include every subscriber of the topic announced by g and not removed before the query ended, and nothing but paths that subscribers of the topic showed while it ran, each slot once |
| RegistryWriter.SharedRegistry.WriteSlotPayload | rmw_unix_socket_cpp/src/registry.cpp:230-249 | against any interference the claimed slot is filled under its seqlock; in guarded runs it then holds the whole entry |
| RegistryWriter.SharedRegistry.WidenHighWater | rmw_unix_socket_cpp/src/registry.cpp:278-283 | the CAS-max loop ends with high water above the index |
| RegistryWriter.SharedRegistry.TryAddOnce | rmw_unix_socket_cpp/src/registry.cpp:253-295 | an index returned was published and announced afterwards, in guarded runs showing the whole entry when published, and no other slot was touched; -1 means every slot was seen occupied and none touched |
| RegistryWriter.SharedRegistry.RegistryAdd | rmw_unix_socket_cpp/src/registry.cpp:297-306 | an index published, in guarded runs showing the whole entry, and announced; or -1 after every slot was seen occupied, a sweep which in guarded runs leaves no dead entry below its bound, and every slot seen occupied again; beside the slot added to, only slots of the sweep are touched, in guarded runs each rightly reaped |
| RegistryWriter.SharedRegistry.RemoveAt | rmw_unix_socket_cpp/src/registry.cpp:357-370 | the CAS winner empties, zeroes and announces that slot only; a loser changes no slot and saw another state |
| RegistryWriter.SharedRegistry.TeardownSlot | rmw_unix_socket_cpp/src/registry.cpp:312-331 | against any interference the winner goes through zeroing under the slot's seqlock to its announcement, touching no other slot |
| RegistryWriter.SharedRegistry.RegistryRemove | rmw_unix_socket_cpp/src/registry.cpp:347-370 | an out-of-range index does nothing; otherwise the slot loaded as published is emptied, torn down and announced, or seen changed, and no other slot is touched; a load that finds it RESERVED implies that every entry ever shown there, the caller's included, has been removed |
| RegistryWriter.SharedRegistry.CleanupStale | rmw_unix_socket_cpp/src/registry.cpp:483-550 | only slots won by the sweep's CAS are touched; in guarded runs each showed an entry of a dead process, was found with its seq unchanged, and when removed still stood for that claim, then holding that entry, if and only if no removal was won since it was shown; and no dead entry below the bound, nor in any slot announced before the sweep, sits through it |
| RegistryWriter.OneWinner | rmw_unix_socket_cpp/src/registry.cpp:347-370 | between two won removals of one slot lies a publication of it: racing removers yield one winner |
| RegistryLoss.OverlapMisrepresentsIff | rmw_unix_socket_cpp/src/registry.cpp:312-365 | from every guarded run that ends with a claim won during a teardown, at whatever byte, a continuation in which readers are shown a payload other than the entry's if and only if a byte still to be zeroed is not zero in the entry; always so before zeroing begins |
| RegistryLoss.UnguardedCanCorrupt | rmw_unix_socket_cpp/src/registry.cpp:359-365 | that state is reachable from an empty registry with two processes |
| RegistryLoss.GuardedIsSound | rmw_unix_socket_cpp/src/registry.cpp:186-249 | in every guarded run a published slot with even seq holds an entry's payload, and an adder's own slot the adder's |
| RegistryLoss.TwoSweepsReapLive | rmw_unix_socket_cpp/src/registry.cpp:483-550 | a guarded run in which a sweep that vetted a dead entry removes the live one that replaced it after another sweep |
| DoorbellProtocol.RunInv | rmw_unix_socket_cpp/src/registry.cpp:402-481 | in every reachable state a waiter blocked on an empty doorbell has observed every mutation except those whose mutator has bumped and whose unspoiled ring pass has yet to reach its slot |
| DoorbellProtocol.RingAdvances | rmw_unix_socket_cpp/src/registry.cpp:430-480 | a pending ring pass over a registered doorbell stays pending through every step until an octet is queued |
| DoorbellProtocol.NoLostWakeup | rmw_unix_socket_cpp/src/rmw_wait.cpp:261-291 | once the mutators that announced v have finished their passes, a blocked waiter has observed v or has a wakeup queued |
| Doorbell.GraphEvents.RingBell | rmw_unix_socket_cpp/src/registry.cpp:432-477 | the double-checked snapshot of the path never skips a registered doorbell |
| Doorbell.GraphEvents.RingDoorbells | rmw_unix_socket_cpp/src/registry.cpp:410-481 | a doorbell registered before the pass has an octet queued at some time during it |
| Doorbell.GraphEvents.RunGenerationCheck | rmw_unix_socket_cpp/src/rmw_wait.cpp:261-291 | everything announced before the drain saw the doorbell empty is observed by the generation read that follows, and listeners are told exactly when the generation changed |
| WaitSet.UdsWaitSet.CreateEntity | rmw_unix_socket_cpp/src/types.hpp:66-74 | a uid no entity ever had, whatever fd number the kernel reuses |
| WaitSet.UdsWaitSet.DestroyEntity | rmw_unix_socket_cpp/src/rmw_subscription.cpp:343-363 | closing an entity's fd ends the kernel's watch unless the open file lives on elsewhere, and leaves the armed map stale, which is what arming and dispatch cope with |
| WaitSet.UdsWaitSet.RegisterFd | rmw_unix_socket_cpp/src/rmw_wait.cpp:311-345 | the kernel comes to watch the fd if it watched it or accepts it; a watched fd ends up mapped to this entity and in the gate, any other on the polling list and out of the gate |
| WaitSet.UdsWaitSet.Arm | rmw_unix_socket_cpp/src/rmw_wait.cpp:347-380 | every entity of the call and the doorbell is watched under its own entry, or polled, and polled only if the kernel refused it; every fd in the gate maps to an entity of this call or the doorbell |
| WaitSet.UdsWaitSet.Dispatch | rmw_unix_socket_cpp/src/rmw_wait.cpp:551-569 | the ready fds of the gate are handed, each once and in order, to their entities of this call or the doorbell, and nothing else is; exactly the other ready fds are forgotten and no longer watched |

## Left out

- Weak memory: the model is sequentially consistent; the atomics' orderings and fences appear as program order only.
- 32-bit seq, index and slot counters are unbounded; wrap-around after 2^31 records is not modelled.
- Kernel and library calls (`shm_open`, `mmap`, `posix_fallocate`, `sendmsg`, `epoll_ctl`, `/proc`) are parameters or arbitrary outcomes; sockets are lossless FIFO sequences, doorbell sockets are counters with a capacity.
- Words and bytes are cells: a 4-byte word is loaded and stored whole, except the payload length of a latched record, which a reader may see torn.
- One latching publisher and one draining thread per join; other publishers' datagrams, service and client queues, and non-topic kinds on the socket are not part of the stream.
- The latched machine tracks one joiner's registry slot; the full registry, its query and the publisher's path cache are proved separately in the registry modules. Its `QuerySlot` step finds a published joiner below the bound, which is what `RegistryQuery.RegistryQuery` guarantees in guarded runs: the lossless theorems presume the registry guard for the joiner's slot.
- Which samples the pull of a wrapped ring finds is stated only through `LatchedPull.TlRingPull`; given the records it kept, `LatchedJoin.DeliveredIff` is exact for every join.
- Segment header validation, the embedded GID check and the reader's mapping cache are represented by whether a segment can be mapped at all; a durable segment that is already unlinked but still mapped by the reader, and would resolve to the same write-once bytes, counts as one that cannot be mapped.
- Of a durable segment's descriptor only the owner id, which names the segment, is modelled; its other fields are constants, the pid and the size.
- In-place CDR serialization into a reserved record is not modelled; payloads are staged by an ascending byte copy.
- PayloadFetch.FetchPayload: for mixed record sizes it assumes that payload bytes over a destroyed header never read as the expected seq word; for one record size nothing is assumed.
- Transport.SendThenResolve: stated for the segment the payload was staged in; a segment replaced meanwhile and no longer mapped is the refused case of `Transport.ShmResolveIncoming`.
- LatchedPull.ReadSlot: after at most 16 tries it gives up. Since its loads happen at arbitrary times, a reader that gives up after fewer behaves like one whose loads all happened at once, so the contract does not state the number; the same holds for the 16 tries of `RegistryRead.SnapshotSlot`.
- RegistryRead.SnapshotSlot: its consistency clauses, and those of `RegistryQuery` and `RegistryWriter` that rest on it, have the guard as their antecedent; the source does not enforce it, and `RegistryLoss` shows what its absence allows.
- RegistryWriter.SharedRegistry.RegistryRemove: a load that finds the slot RESERVED ends the model's method with `stray`; the source's CAS would take the slot from the process adding to it. Callers remove indices of their own adds, so this needs their entry to have been removed by another process first.
- RegistryWriter.SharedRegistry.CleanupStale: the `/proc` probe is a set of pids that no longer exist, fixed for the sweep and a parameter of it and of `RegistryAdd`; rings of the doorbells after it are those of `Doorbell`.
- RegistryWriter.SharedRegistry.WidenHighWater: spurious failures of the weak CAS are steps of `RegistryProtocol` but not of this loop, whose termination they would defeat.
- Doorbell.GraphEvents.RunGenerationCheck: the drain loop ends because only finitely many octets ever arrive; the bound is a ghost parameter.
- Ring passes are assumed to obtain a socket; the source gives up the pass when it cannot create one.
- A doorbell wait that could not register (registry full) polls; that mode, the wait's deadlines and the poll-only sweep are not modelled.
- `registry_open`, orphan sweeps, logging, QoS stubs, graph queries for introspection, and resource cleanup would add single-branch facts only.
