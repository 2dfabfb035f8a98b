# Verified models of mezon-sfu

mezon-sfu is a media forwarding unit: publishers send RTP to it, and it forwards every stream to the
subscribers of a room, negotiating media lines, pacing packets and rewriting headers on the way.  This
project models the parts of it whose correctness does not show in any single function, and proves what
they promise for every input, every run or every interleaving.

| part | modules |
|---|---|
| offer/answer slots of a subscriber | `RemoteSlots`, `RemoteSlotTable` |
| the media graph of all rooms | `MediaGraph`, `RoomOperations`, `RoomDepartures`, `RoomRefresh`, `RoomRuns`, `RoomOrphans`, `RoomOrphanRun`, `RoomService` |
| copy-on-write snapshots and their reclamation | `SnapshotStore`, `SnapshotIteration`, `HazardPointers` |
| the lock-free index pool | `FreeList` |
| the VP9 layer scheduler | `LayerScheduler`, `LayerSchedulerRuns`, `LayerSchedulerMachine` |
| pacing, send queue, outbound numbers | `Pacing`, `PacedQueue`, `PacedSendQueue`, `SeqTranslation`, `EgressLane`, `EgressNumbering`, `EgressSettlement`, `EgressRuns`, `EgressNumberRuns`, `EgressSettlementRuns`, `EgressMisnotedRun`, `EgressPath` |
| the ICE-ufrag routing table | `RoutingIndex`, `RoutingTable`, `RoutingGenerations` |
| the bandwidth allocator | `BandwidthSelection`, `BandwidthShares`, `BandwidthAllocator` |
| wire formats | `FrameChecksum`, `FrameCodec`, `RtpElements`, `RtpRewriting`, `RtpReadBack`, `RtpInPlace`, `TwccWire`, `TwccTiming`, `TwccRoundTrip`, `TwccMachines` |

Most parts come in two layers.  A value layer says what each operation does to the state and carries the
invariants and the theorems over whole runs.  A machine layer has the source's own fields, arrays and
loops, and each of its methods is proved to perform exactly the step of the value layer; the theorems
therefore hold of the loops as well.  `Arithmetic`, `Bytes` and `Wrappers` hold what the others share.

`dafny verify dfyconfig.toml` checks the whole project.

## Model

| member | source | states |
|---|---|---|
| `RemoteSlots.AuthorizationIsExact` | src/peer/session.c:984-987 | After every run, a slot is authorised under a generation exactly when it is held under that generation and the client has applied it; a free slot authorises nothing. |
| `RemoteSlots.FreedGenerationStaysDead` | src/peer/session.c:834-987 | Once the slot that held a generation is free, no later run authorises that generation on any slot. |
| `RemoteSlots.InstalledManifestIsAnswerable` | src/peer/session.c:934-982 | After every run, an installed manifest still names held slots only, so the mismatch check never fires and the answer succeeds. |
| `RemoteSlots.RoundSettles` | src/peer/session.c:874-1015 | An uninterrupted capture, install and answer always succeeds, authorises every active slot, frees all others and leaves nothing pending. |
| `RemoteSlots.AnswerAuthorizesOffer` | src/peer/session.c:934-987 | After an answer exactly the generations its manifest offered are authorised. |
| `RemoteSlots.OffersNeverShrink` | src/peer/session.c:874-932 | Until a teardown, every offer captured after an install covers at least the slots of the installed one, whatever was retired in between. |
| `RemoteSlots.ReserveKeepsInv` | src/peer/session.c:788-832 | A known publisher keeps its slot, another gets a free one under a generation never used before; failure exactly for peer 0 or a full table; all other slots stay. |
| `RemoteSlots.RetireKeepsInv` | src/peer/session.c:834-872 | Retiring matches exactly an active assignment, touches that slot only, and frees it at once exactly when the client was neither offered nor has applied it. |
| `RemoteSlots.InstallKeepsInv` | src/peer/session.c:901-932 | Installing replaces the manifest or changes nothing, and never touches an active slot, an assignment or an applied generation. |
| `RemoteSlots.ApplyAnswerKeepsInv` | src/peer/session.c:934-982 | An answer succeeds exactly for the installed manifest; active slots stay, and of the others exactly those not offered become free. |
| `RemoteSlots.StepKeepsInv` | src/peer/session.c:1064-1122 | Every operation keeps the table invariant, which includes everything the source asserts about slots. |
| `RemoteSlotTable.SlotTable.ReserveSlot` | src/peer/session.c:788-832 | The two scans over the slot array perform exactly the reservation step. |
| `RemoteSlotTable.SlotTable.RetireSlot` | src/peer/session.c:834-872 | The array update and the recomputation of the high-water mark perform exactly the retirement step. |
| `RemoteSlotTable.SlotTable.CaptureOffer` | src/peer/session.c:874-899 | The capture loop yields exactly the manifest of the current table. |
| `RemoteSlotTable.SlotTable.InstallOffer` | src/peer/session.c:901-932 | The checking and marking loops perform exactly the install step. |
| `RemoteSlotTable.SlotTable.AnswerOffer` | src/peer/session.c:934-982 | The loops over the arrays perform exactly the answer step. |
| `RemoteSlotTable.SlotTable.TeardownSlots` | src/peer/session.c:1030-1045 | Everything is free and unauthorised afterwards; generation counters are kept. |
| `RemoteSlotTable.SlotTable.PendingSlots` | src/peer/session.c:989-1015 | The counting loop answers whether any slot is unsettled, and counts both kinds. |
| `RemoteSlotTable.CountsShowPending` | src/peer/session.c:989-1015 | The two counts are zero together exactly when no slot is unsettled. |
| `RoomRuns.GraphDuality` | src/room/room_media_graph.c:217-248 | After every run of joins, leaves, role changes, push-to-talk, refreshes and negotiation steps, a subscriber has an entry for a publisher at (slot, generation) exactly when the publisher has a route to it carrying the same pair; the slot is then active for that publisher and both sit in one room. |
| `RoomRuns.NoSharedMid` | src/peer/session.h:108 | After every run, two routes to one subscriber on the same media line are the same publisher's same stream; no remote line collides with the local ones. |
| `RoomRuns.GraphStepKeeps` | src/room/room_media_graph.c:372-1052 | Every operation of the run, on whatever arguments, keeps the graph invariant. |
| `RoomRuns.RefreshReachesEveryone` | src/room/room_media_graph.c:853-945 | After a successful refresh of a publisher that is to be heard, every accepting session of the room hears it. |
| `RoomRuns.RefreshKeeps` | src/room/room_media_graph.c:853-945 | A refresh keeps the invariant, the seats and the roles, also when it fails half-way and gives reservations back. |
| `RoomRuns.ChangeRoleKeeps` | src/room/room_media_graph.c:579-695 | A role change keeps the invariant in both directions and on every failure. |
| `RoomRuns.SetPushToTalkKeeps` | src/room/room_media_graph.c:947-1052 | Push-to-talk keeps the invariant, also when it is taken back. |
| `RoomOrphans.SlotsCarryEntriesIffSteady` | src/room/room_media_graph.c:853-945 | In every run, each active slot of every session carries an entry at all times, if and only if no role change, push-to-talk or refresh loses a session, for which it has just reserved a slot, between its two loops. |
| `RoomOrphans.StepOrphans` | src/room/room_media_graph.c:372-1052 | The same for one operation of any kind: joins, leaves, rollbacks and negotiation never leave a slot without its entry. |
| `RoomOrphanRun.RefreshLeavesAnOrphan` | src/room/room_media_graph.c:853-945 | A run of two joins and a refresh that ends with an active slot without an entry. |
| `RoomOperations.JoinKeeps` | src/room/room_media_graph.c:372-577 | A successful join links the joiner with every accepting session of the room in both directions; any other outcome leaves seats, entries and routes as they were; after its reservations it fails only when aborted. |
| `RoomOperations.ReserveTargetsKeeps` | src/room/room_media_graph.c:372-577 | Reserving for a whole room keeps the invariant; reservations are distinct, unused and one pair per target. |
| `RoomOperations.RollbackKeeps` | src/room/room_media_graph.c:372-577 | Giving back unused reservations keeps every entry and route backed by an active slot. |
| `RoomOperations.OthersSeated` | src/room/room_media_graph.c:372-577 | The scan of the seats finds each accepting session of the room other than the joiner exactly once. |
| `RoomDepartures.LeaveKeeps` | src/room/room_media_graph.c:697-842 | After a leave exactly the edges that do not involve the leaver remain, the leaver is in no room, and the invariant holds. |
| `RoomDepartures.ForgetKeeps` | src/room/room_media_graph.c:697-842 | A session that forgets the leaver retires exactly the leaver's slot, and that retirement always matches. |
| `RoomRefresh.RefreshAllHears` | src/room/room_media_graph.c:853-945 | A visited session hears the publisher afterwards exactly if it did before or a slot was reserved for it while the publisher is to be heard. |
| `MediaGraph.AttachAddsEdge` | src/room/room_media_graph.c:217-248 | Adding an entry and its route never fails, and adds exactly that edge. |
| `MediaGraph.BundleHasRoom` | src/room/room_media_graph.c:217-248 | A bundle with no route to a roommate always has an open place, by counting the seats of the room. |
| `MediaGraph.AttachKeeps` | src/room/room_media_graph.c:101-163 | Attaching keeps the invariant and every other entry. |
| `RoomService.Service.JoinRoom` | src/room/room_media_graph.c:372-577 | The loops over seats, tables, entries and routes, with rollback, perform exactly the join of the graph model. |
| `RoomService.Service.LeaveRoom` | src/room/room_media_graph.c:697-842 | The loops over both sides perform exactly the leave of the graph model. |
| `RoomService.Service.RefreshStreams` | src/room/room_media_graph.c:853-945 | The two loops over the room perform exactly the refresh of the graph model. |
| `RoomService.Service.SetRole` | src/room/room_media_graph.c:579-695 | The role change performs exactly the step of the graph model. |
| `RoomService.Service.SetTalking` | src/room/room_media_graph.c:947-1052 | Push-to-talk performs exactly the step of the graph model and is undone on failure. |
| `HazardPointers.NoUseAfterFree` | src/peer/session.c:96-140 | In every interleaving, no thread counts or drops a reference on a freed snapshot, and every held snapshot is live. |
| `HazardPointers.FreedOnlyWhenUnused` | src/peer/session.c:505-534 | A snapshot is freed only when it is unpublished, nobody holds it, no reader stands between validating and counting it, and no other thread frees it. |
| `HazardPointers.CountIsHolders` | src/peer/session.c:745-765 | The reference count equals the references handed out, plus one while the snapshot is being built, published or awaiting its release. |
| `HazardPointers.ReadKeepsInv` | src/peer/session.c:96-121 | Every atomic step of the hazard-pointer acquire keeps the invariant, retries and the lock fallback included. |
| `HazardPointers.LockKeepsInv` | src/peer/session.c:519-534 | Every step of the locked acquire and of publishing keeps the invariant. |
| `HazardPointers.MemKeepsInv` | src/peer/session.c:123-140 | Every step of allocating, waiting for readers, releasing and freeing keeps the invariant. |
| `HazardPointers.RunKeepsInv` | src/peer/session.c:65-140 | The invariant holds in every state of every interleaving. |
| `SnapshotStore.CopySetIsUpdate` | src/peer/session.c:455-499 | A changed copy reads as an update of the map from slots to places; every other snapshot reads as before. |
| `SnapshotStore.SnapshotsArePersistent` | src/peer/session.c:455-517 | Whatever is copied and released around it, a snapshot reads the same at every slot for as long as it is held. |
| `SnapshotStore.DropKeeps` | src/peer/session.c:505-517 | Releasing a snapshot frees exactly the chunks nobody else refers to. |
| `SnapshotStore.CountsAreExact` | src/peer/session.c:415-499 | After every run of copies and releases, the stored count of each live snapshot is the number of its occupied slots. |
| `SnapshotIteration.VisitSnapshot` | src/peer/session.c:350-382 | Iterating a live snapshot lists exactly its occupied (or eligible) slots, in increasing order. |
| `SnapshotIteration.Iterator.Next` | src/peer/session.c:356-382 | Each call yields the lowest slot of interest not visited yet, and nothing once all were. |
| `FreeList.FreeChainIsExact` | src/memory/pool.c:46-89 | In every interleaving, the free indices form one acyclic chain from the head and are exactly the indices nobody holds. |
| `FreeList.NoDoubleAllocation` | src/memory/pool.c:46-71 | A compare-and-swap that succeeds hands out an index nobody holds and installs its true successor. |
| `FreeList.HeldUntilReleased` | src/memory/pool.c:73-89 | An index stops being held only by its own holder's release. |
| `FreeList.AccessInRange` | src/memory/pool.c:46-89 | No load or store leaves the array, stale heads included. |
| `FreeList.EmptyMeansExhausted` | src/memory/pool.c:46-71 | An allocation fails only when every index is held. |
| `FreeList.InitNext` | src/memory/pool.c:10-37 | The initialisation loop links every index to the following one, for every capacity. |
| `FreeList.InitInv` | src/memory/pool.c:10-37 | What initialisation leaves is a sound pool exactly if the capacity is not zero. |
| `LayerSchedulerRuns.ScreenRunsAreUnbroken` | src/media/svc/layer_scheduler.c:183-261 | After every run, a forwarded screen packet that is not a keyframe start directly follows a forwarded input with the preceding sequence number. |
| `LayerSchedulerRuns.FramesAreAtomic` | src/media/svc/layer_scheduler.c:163-345 | After every run, when a packet is forwarded every earlier input of its picture was forwarded and the first one starts a frame. |
| `LayerSchedulerRuns.FramesHaveNoGaps` | src/media/svc/layer_scheduler.c:163-345 | A forwarded packet that does not start a frame directly follows a forwarded packet of its own picture. |
| `LayerSchedulerRuns.BrokenPicturesNeedAKeyframe` | src/media/svc/layer_scheduler.c:422-459 | After a picture that was begun and not finished, or of which a packet was refused, only a keyframe start is forwarded. |
| `LayerSchedulerRuns.LayersRiseAtSwitchPoints` | src/media/svc/layer_scheduler.c:347-420 | A camera's temporal layer rises only when the end of a frame is forwarded whose start allowed switching up (section 4.2 of RFC 9628). |
| `LayerSchedulerRuns.StepKeeps` | src/pipeline/egress.c:593-665 | The invariant behind these holds across packets, refusals, rate changes and resets in any order. |
| `LayerSchedulerMachine.Machine.PreparePacket` | src/media/svc/layer_scheduler.c:163-345 | The sequence of checks with early returns computes exactly the decision and the noted state. |
| `LayerSchedulerMachine.Machine.CommitPacket` | src/media/svc/layer_scheduler.c:347-420 | The field updates perform exactly the commit step. |
| `LayerSchedulerMachine.Machine.RejectPacket` | src/media/svc/layer_scheduler.c:422-459 | The field updates perform exactly the reject step. |
| `LayerSchedulerMachine.Machine.SetTarget` | src/media/svc/layer_scheduler.c:477-534 | The two searches down the ladder perform exactly the rate step, with headroom, hysteresis and hold time. |
| `LayerSchedulerMachine.Machine.ResetScheduler` | src/pipeline/egress.c:134-146 | The reset for a keyframe performs exactly the reset step. |
| `EgressNumberRuns.NumbersAreUnbrokenIffHarmless` | src/pipeline/egress.c:198-224 | In every run, the kept packets of every stream always carry consecutive 16-bit numbers and the translator hands out the one after the last, if and only if every rolled-back frame was noted under the SSRC of its packets' headers, or was rolled back before its stream kept a packet and noted under no other stream's SSRC that has. |
| `EgressNumberRuns.NumbersHaveNoHoles` | src/pipeline/egress.c:302-343 | In every run whose inputs are routed under their own header SSRC, the kept packets' numbers have no hole, through every failure path and rollback. |
| `EgressMisnotedRun.MisnotedFrameLeavesAHole` | src/pipeline/egress.c:464-510 | A run in which a frame noted under another SSRC is rolled back: the kept packets carry the numbers 10 and 12. |
| `EgressNumbering.OfferMoves` | src/pipeline/egress.c:246-541 | Offering a packet, whatever fails, keeps exact count of the numbers that were not given back and of those taken back from other streams. |
| `EgressRuns.SendsAreWholeFramesInOrder` | src/pipeline/paced_send.c:324-402 | In every run, packets are sent in queueing order and at most once, none of them was rolled back, and each belongs to a finished frame. |
| `EgressRuns.FinishedFramesStayFinished` | src/pipeline/paced_send.c:111-125 | Once a frame is finished, no run ever adds a packet to it. |
| `EgressRuns.QueuesHoldWholeFrames` | src/pipeline/paced_send.c:239-294 | In every run, ready and open packets make up the queue, the ready part consists of whole frames with as many ends as counted, and releases are spaced by spans. |
| `EgressRuns.ReservationsAreConserved` | src/congestion/pacer.c:81-132 | In every run of many streams on one pacer, held bytes are those of queued packets, granted bytes are held, committed or cancelled, and apart from refills the balance fell by exactly the charged bytes of packets sent. |
| `EgressSettlementRuns.EndSettlesEverything` | src/pipeline/paced_send.c:23-35 | Whenever a session ends and its queues are destroyed, every reservation ever granted was committed exactly once or cancelled exactly once, and the pacer holds nothing back. |
| `EgressSettlementRuns.ReservationsSettleOnce` | src/pipeline/paced_send.c:133-402 | In every run, each packet has at most one reservation, and each granted reservation is in exactly one of queued, committed once or cancelled once; what was committed is what was sent, unpaced sends included. |
| `EgressRuns.RunKeeps` | src/pipeline/egress.c:246-541 | The session invariant holds in every run, whatever header, pacer, queue and transport outcomes occur. |
| `EgressLane.UndoKeeps` | src/pipeline/egress.c:226-244 | The undo of a failed packet keeps everything kept before and gives back what the open frame held. |
| `EgressLane.QueueLaneKeeps` | src/pipeline/egress.c:302-510 | Numbering, paying and queueing a packet leaves stream, books and translator consistent on every exit. |
| `EgressPath.Egress.ProcessLocal` | src/pipeline/egress.c:246-541 | The imperative path over queue, pacer and translator performs exactly one offer step of the run model. |
| `EgressPath.Egress.UndoFrame` | src/pipeline/egress.c:198-244 | The undo performs exactly the undo step. |
| `EgressPath.Egress.Drain` | src/pipeline/paced_send.c:324-402 | A drain call is a sequence of single drain steps of the run model and reports exactly the packets they sent. |
| `PacedQueue.BoundBacklogKeeps` | src/pipeline/paced_send.c:199-237 | Bounding the backlog drops a prefix up to a frame boundary, and with no open frame fails exactly when a keyframe at the head keeps the delay at or above the limit. |
| `PacedQueue.AdmitKeeps` | src/pipeline/paced_send.c:47-109 | Admission keeps the queue invariant and drops exactly the unfinished packets of an abandoned frame. |
| `PacedQueue.EnqueueKeeps` | src/pipeline/paced_send.c:239-294 | A packet is queued exactly when its reservation is active, its size allowed and the ring not full; it is then last and not released before now. |
| `PacedQueue.RollbackKeeps` | src/pipeline/paced_send.c:133-159 | A rollback leaves exactly the ready packets. |
| `PacedQueue.DropHeadKeeps` | src/pipeline/paced_send.c:199-237 | Dropping the head frame removes one whole frame and only moves release times of the rest. |
| `PacedSendQueue.SendQueue.RollbackInputFrame` | src/pipeline/paced_send.c:133-159 | The backward loop over the ring performs the rollback and cancels exactly the reservations it lets go of. |
| `PacedSendQueue.SendQueue.AdmitFramePacket` | src/pipeline/paced_send.c:47-109 | The ring-buffer form performs exactly the admission step and settles the abandoned frame's reservations. |
| `PacedSendQueue.SendQueue.EnqueuePacket` | src/pipeline/paced_send.c:239-294 | The ring-buffer form performs exactly the enqueue step. |
| `PacedSendQueue.SendQueue.BoundQueue` | src/pipeline/paced_send.c:199-237 | The trimming loops terminate, perform exactly the bounding step and cancel exactly the dropped reservations. |
| `PacedSendQueue.SendQueue.RebaseBacklog` | src/pipeline/paced_send.c:161-175 | The rebase loop performs exactly the rebase step. |
| `PacedSendQueue.SendQueue.DrainQueue` | src/pipeline/paced_send.c:324-402 | The drain loop performs exactly the rounds of the value model, each settling the head's reservation once. |
| `Pacing.ReserveHolds` | src/congestion/pacer.c:81-107 | A reservation holds exactly its bytes, never lowers the balance, and is refused exactly under the stated test. |
| `Pacing.ReserveThenSettle` | src/congestion/pacer.c:109-132 | Cancelling restores what was reserved; committing also takes the bytes from the balance; a settled reservation has no further effect. |
| `Pacing.RefillOnlyAdds` | src/congestion/pacer.c:51-68 | A refill never lowers the balance, never exceeds the cap, and moves nothing else. |
| `SeqTranslation.TranslateThenRollback` | src/rtp/rtp_seq_translate.c:20-65 | Handing a number out and taking it back restores the stream's next number. |
| `SeqTranslation.Translator.Next` | src/rtp/rtp_seq_translate.c:20-44 | The probed table behaves as a finite map from SSRC to next number, and refuses exactly a new stream on a full table. |
| `SeqTranslation.Translator.TakeBack` | src/rtp/rtp_seq_translate.c:46-65 | Taking numbers back changes exactly the stream's next number and succeeds exactly for a known stream. |
| `RoutingTable.Table.FindEntry` | src/runtime/routing_context.c:78-86 | A key is found exactly when it is live, whatever tombstones lie on its probe path. |
| `RoutingTable.Table.PrepareAnswer` | src/runtime/routing_context.c:121-177 | A full table is reported only when all 32768 places are live, a conflict exactly for another owner; otherwise the map changes only by the new key. |
| `RoutingTable.Table.CommitAnswer` | src/runtime/routing_context.c:179-201 | A reserved answer is published exactly when the reservation is active and its entry is still where it was reserved; the reservation is used up either way. |
| `RoutingTable.Table.CancelAnswer` | src/runtime/routing_context.c:203-219 | The key goes exactly when the reservation is active, made the key, and no answer was published; the reservation is used up. |
| `RoutingTable.Table.RegisterAnswer` | src/runtime/routing_context.c:221-231 | Prepare followed by commit never fails in between. |
| `RoutingTable.Table.LookupRoute` | src/runtime/routing_context.c:233-254 | Lookup finds exactly the live keys and records the asking worker. |
| `RoutingTable.Table.InvalidatePending` | src/runtime/routing_context.c:311-332 | Exactly an owner's pending answer is withdrawn, under the next generation. |
| `RoutingTable.Table.UnregisterFd` | src/runtime/routing_context.c:334-351 | The map loses exactly the entries of that socket. |
| `RoutingTable.Table.RemoveEntryAt` | src/runtime/routing_context.c:107-119 | Swap-remove deletes exactly that entry; the moved entry is always found again, so the source's abort is unreachable. |
| `RoutingTable.Table.Rebuild` | src/runtime/routing_context.c:44-55 | A rebuild always succeeds and leaves no tombstone. |
| `RoutingTable.Table.Probe` | src/runtime/routing_context.c:7-27 | The probe stops at the first match or empty slot and offers an insertion the first tombstone before it. |
| `RoutingGenerations.GenerationsAreNewIffTimely` | src/runtime/routing_context.c:179-201 | In every history of an entry, all its generations differ if and only if each commit follows its prepare with no other commit and no withdrawal in between, and the 32-bit counter did not wrap around. |
| `RoutingGenerations.PublishesTwice` | src/runtime/routing_context.c:121-177 | Two answers prepared for one key are both published under generation 1. |
| `RoutingGenerations.PublishesWithdrawn` | src/runtime/routing_context.c:311-332 | An answer withdrawn between prepare and commit is published under the generation of its withdrawal. |
| `RoutingIndex.InsertKeeps` | src/runtime/routing_context.c:29-42 | Indexing a new key keeps every other key reachable. |
| `RoutingIndex.RemoveKeeps` | src/runtime/routing_context.c:88-119 | Leaving a tombstone and redirecting the moved entry keeps every remaining key reachable. |
| `BandwidthSelection.Select` | src/congestion/bandwidth_allocator.c:116-154 | The bounded insertion yields exactly the at most sixteen smallest distinct eligible keys, strictly increasing. |
| `BandwidthSelection.SelectionDependsOnTheSet` | src/congestion/bandwidth_allocator.c:9-25 | Permuting or repeating inputs does not change the selection. |
| `BandwidthAllocator.Allocate` | src/congestion/bandwidth_allocator.c:95-190 | The filling loops give the selected streams the tiered division of the pool, evenly within each kind. |
| `BandwidthAllocator.FillClass` | src/congestion/bandwidth_allocator.c:27-59 | One filling step takes as much of the pool as the target allows and leaves an even division; the clamp never fires. |
| `BandwidthAllocator.AllocationIsWorkConserving` | src/congestion/bandwidth_allocator.c:164-190 | The total is the smaller of the pool and the sum of the caps. |
| `BandwidthAllocator.AllocationIsFair` | src/congestion/bandwidth_allocator.c:27-59 | Streams of one kind differ by at most one bit per second. |
| `BandwidthAllocator.ScreensComeFirst` | src/congestion/bandwidth_allocator.c:164-190 | A camera gets something only after every screen has its preferred rate. |
| `BandwidthAllocator.AllocationIsMonotone` | src/congestion/bandwidth_allocator.c:95-190 | No stream gets less when the estimate rises. |
| `BandwidthAllocator.AllocationDependsOnTheSet` | src/congestion/bandwidth_allocator.c:95-190 | Permuting or repeating inputs leaves the whole allocation unchanged. |
| `BandwidthAllocator.HasUnmetDemand` | src/congestion/bandwidth_allocator.c:194-224 | The query answers exactly whether the pool is below the sum of the caps. |
| `BandwidthAllocator.WithinCap` | src/congestion/bandwidth_allocator.c:164-190 | No stream exceeds its cap. |
| `BandwidthShares.PoolIsFloor` | src/congestion/bandwidth_allocator.c:107-110 | The two-part product is the exact percentage of the estimate, rounded down. |
| `BandwidthShares.InForceIsValid` | src/config/config.c:130-138 | A validated policy is in force as it is, and the built-in values that stand for an unset one are valid. |
| `FrameCodec.FrameRoundTrip` | src/net/af_xdp_frame.c:81-177 | Parsing any built frame with the matching port accepts it and gives back payload, source address and source port. |
| `FrameCodec.BuildFrame` | src/net/af_xdp_frame.c:134-177 | The in-place builder produces exactly the frame, touches nothing behind it, and fails exactly when it does not fit. |
| `FrameCodec.UdpVerifies` | src/net/af_xdp_frame.c:51-61 | A built datagram carries a nonzero checksum and sums to zero on receipt, also where zero was replaced by 0xffff (RFC 768). |
| `FrameCodec.IpVerifies` | src/net/af_xdp_frame.c:63-70 | A built IP header sums to zero on receipt. |
| `FrameChecksum.RunningIsWordSum` | src/net/af_xdp_frame.c:23-39 | The running sum of any pieces is the sum of the words, without 32-bit overflow in the stated range. |
| `FrameChecksum.SumVerifies` | src/net/af_xdp_frame.c:41-49 | A sum completed by its own checksum folds to 0xffff (RFC 1071, section 1). |
| `FrameChecksum.ChecksumState.Add` | src/net/af_xdp_frame.c:23-39 | The loop with its carried half word computes the running sum. |
| `RtpRewriting.WriteIsExact` | src/rtp/rtp_ext.c:224-309 | On a packet with a clean extension, a successful write keeps payload, sources and fixed fields apart from the extension bit, reads back the value and every other id as before, and stays clean. |
| `RtpRewriting.WriteTwccIsExact` | src/rtp/rtp_ext.c:319-408 | The same for the transport-wide number, which reads back as the number. |
| `RtpRewriting.WriteMidIsExact` | src/rtp/rtp_ext.c:311-317 | The same for the media id, for readers whose buffer holds it with its terminator. |
| `RtpReadBack.WriteReadsBack` | src/rtp/rtp_ext.c:224-309 | On any packet, a successful write keeps the rest of the packet; every value of its size reads back if and only if there was no block, or an element of the right size is overwritten in place, or the block can be read to its end and has at most one element under the id. |
| `RtpReadBack.WrittenValueCanBeUnreadable` | src/rtp/rtp_ext.c:159-213 | A packet on which a write reports success and the value, appended behind the reserved id 15, cannot be read. |
| `RtpReadBack.RepeatedIdIsRead` | src/rtp/rtp_ext.c:236-250 | A well-formed packet with an id twice: whatever three bytes are written under it, the old value of the second element reads back. |
| `RtpInPlace.WriteInPlace` | src/rtp/rtp_ext.c:224-309 | The writer that moves bytes inside the buffer leaves exactly the packet of the value model, on success and on failure. |
| `RtpInPlace.WriteIsAllOrNothing` | src/rtp/rtp_ext.c:224-309 | A write succeeds or changes nothing, if and only if it does not have to resize an element that is there into a block that no longer fits. |
| `RtpInPlace.FailedWriteCanEraseAnElement` | src/rtp/rtp_ext.c:224-309 | A packet on which a failed write has erased an element. |
| `RtpInPlace.WriteTwccInPlace` | src/rtp/rtp_ext.c:319-408 | A failed write of the transport-wide number changes nothing. |
| `RtpInPlace.FindElement` | src/rtp/rtp_ext.c:159-213 | The scan finds the first element with the id, or stops where the list is malformed. |
| `RtpElements.FindIsLookup` | src/rtp/rtp_ext.c:159-213 | The finder and the readers agree: the found bytes are the encoding of the value read. |
| `TwccRoundTrip.FeedbackRoundTrip` | src/congestion/twcc_feedback.c:63-199 | Built feedback is accepted exactly for uniform statuses, at most seven packets or a multiple of seven; then every number and mark comes back, and all times come back within 125 microseconds exactly when the reference is unambiguous and no difference lies outside 16 bits. |
| `TwccRoundTrip.OtherFeedbackIsRefused` | src/congestion/twcc_parser.c:11-43 | All other built feedback is refused by the parser. |
| `TwccRoundTrip.FeedbackParses` | src/congestion/twcc_parser.c:82-161 | The parser yields one result per packet, with the times replayed from the unwrapped reference. |
| `TwccMachines.RefusesOwnFeedback` | src/congestion/twcc_feedback.c:47-61 | A tracker that saw the numbers 0 and 7 builds feedback that the parser refuses. |
| `TwccMachines.Tracker.Record` | src/congestion/twcc_feedback.c:20-37 | An arrival is noted at its place, and becomes the latest exactly when less than half the circle ahead. |
| `TwccMachines.Tracker.Build` | src/congestion/twcc_feedback.c:63-199 | Nothing is built exactly when nothing is pending or nothing was received; the buffer is too small exactly when the packet is longer, and everything stays; otherwise exactly the packet is written. |
| `TwccMachines.ValidateChunks` | src/congestion/twcc_parser.c:11-43 | The first pass accepts exactly the chunk lists of the value model and finds where the differences start. |
| `TwccMachines.FeedbackParser.Start` | src/congestion/twcc_parser.c:45-80 | The initialisation performs exactly the start of the value model, reference unwrapping included. |
| `TwccMachines.FeedbackParser.NextStatus` | src/congestion/twcc_parser.c:120-161 | Each call performs exactly one step of the value model. |
| `TwccWire.AcceptedExactly` | src/congestion/twcc_parser.c:11-43 | The first pass accepts the built chunks exactly when no padded vector chunk follows others. |
| `TwccWire.ChunksReadBack` | src/congestion/twcc_feedback.c:47-61 | Every status is read back from the chunks. |
| `TwccTiming.ReplayIsClose` | src/congestion/twcc_feedback.c:63-199 | Every time comes back within half a unit however many packets came before, so rounding does not add up. |
| `TwccTiming.ReplayMisses` | src/congestion/twcc_feedback.c:63-199 | If some difference lies outside the range, some time does not. |
| `TwccTiming.UnwrapIsExact` | src/congestion/twcc_parser.c:45-80 | The 24-bit reference comes back exactly when it lies within half a range of the anchor, or below the range where there is no anchor. |
| `TwccTiming.UnwrapIsFarOff` | src/congestion/twcc_parser.c:45-80 | Otherwise it comes back at least a whole range away. |

## Findings

Properties one would expect of the source and that it does not have.  Each has an input that shows the
failure and the condition under which the property does hold.

- Outbound numbers can have a hole.  A packet is numbered under the SSRC in its header
  (src/pipeline/egress.c:323-326); a rolled-back frame gives its numbers back under the SSRC of the route
  (src/pipeline/egress.c:204-211, 490).  They differ after a publisher changed its SSRC, until the routes are
  refreshed (src/pipeline/ingress.c:1179-1250).  `EgressMisnotedRun.MisnotedFrameLeavesAHole` is such a run;
  `EgressNumberRuns.NumbersAreUnbrokenIffHarmless` has the exact condition.
- A failed header-extension write can erase an element.  The writer blanks an element of another size before
  it finds that the larger block does not fit (src/rtp/rtp_ext.c:224-309).
  `RtpInPlace.FailedWriteCanEraseAnElement` is such a packet; `RtpInPlace.WriteIsAllOrNothing` has the exact
  condition.  The transport-wide number is not affected (`RtpInPlace.WriteTwccInPlace`).
- A successful header-extension write can be unreadable, for two reasons.  The element is appended at the end of
  the block (src/rtp/rtp_ext.c:291-308), which no reader reaches behind a malformed element or the reserved id
  15 (src/rtp/rtp_ext.c:11-123): `RtpReadBack.WrittenValueCanBeUnreadable`.  And only the first element under
  the id is blanked (src/rtp/rtp_ext.c:236-250), so a second one is read instead of the new value:
  `RtpReadBack.RepeatedIdIsRead`.  `RtpReadBack.WriteReadsBack` has the exact condition.
- A slot can stay active without an entry.  A refresh reserves slots in one loop and adds entries in another,
  and asks each time which sessions accept work (src/room/room_media_graph.c:867-918); a leave retires only
  slots that carry an entry.  `RoomOrphanRun.RefreshLeavesAnOrphan` is such a run;
  `RoomOrphans.SlotsCarryEntriesIffSteady` has the exact condition.
- A published answer's generation need not be new.  It is fixed at the prepare and not compared at the commit
  (src/runtime/routing_context.c:162-163, 190-196).  `RoutingGenerations.PublishesTwice` and
  `RoutingGenerations.PublishesWithdrawn` are such histories;
  `RoutingGenerations.GenerationsAreNewIffTimely` has the exact condition.
- A pool of capacity zero is not empty but unsound: its head names index 0 (src/memory/pool.c:31-34).
  `FreeList.InitInv` has the exact condition.
- The parser refuses feedback that the builder makes.  The builder pads the last of several vector chunks
  (src/congestion/twcc_feedback.c:47-61) and the parser refuses a chunk that says more than is left
  (src/congestion/twcc_parser.c:11-43).  `TwccMachines.RefusesOwnFeedback` builds such a packet;
  `TwccRoundTrip.OtherFeedbackIsRefused` has the exact condition.

## Left out

- Concurrency is sequentially consistent interleaving of single atomic operations; weaker memory orders are
  not modelled.
- Generations, pool tags and packet identities are unbounded; the source's 64-bit and 32-bit counters can wrap.
- Allocation failure is the abort flag of a join, and otherwise does not happen.
- Room runs have a fixed set of sessions after creation: session destruction and its teardown of slots are
  not steps of the graph, and no per-publisher totals are kept.
- Room operations keep a session's slot table as a value; the loops over its arrays are those of
  `RemoteSlotTable`.
- Copy-on-write of snapshots is modelled on values, not as in-place construction of a chunk array.
- Each paced stream has one header SSRC of its own; direct sends use SSRCs that no paced stream owns.
- Header faults, encryption, transport acceptance and the authorisation test at drain time are outcomes that
  the environment chooses.
- The pacer's retransmission budget and the priority and probe queues.
- The layer scheduler for more than one spatial layer, switching sources and the per-stream table: the ladder
  only ever targets spatial layer 0.
- Routing-table peeking and the reconciliation of answers across workers.
- The allocator's metrics and the drop report's list of publishers.
- The send-side history of transport-wide numbers and the bandwidth estimators.
- Arrival times in feedback are non-negative, and a window without any received packet is never built.
- Signalling, SDP, STUN, DTLS, SRTP, sockets, AF_XDP rings, io_uring and the worker loops.
