# Verified models of the Packetia media path

Packetia is a selective forwarding unit: it receives RTP, reorders it, rebuilds H.264
access units, forwards media to subscribers under rewritten headers, and keeps rooms of
participants. This project models the parts of it in which most of the state, branching
and arithmetic lies, and proves what they are for.

| part | modules | main results |
|---|---|---|
| H.264 packet buffer | `PacketBufferModel`, `PacketBufferSafety`, `PacketBufferOrder`, `PacketBuffer` | safety of whole runs; arrival order does not matter, keyframes included |
| payload parser | `PayloadParser`, `Packetization`, `EndToEnd` | every packetization round-trips, through the buffer and in any order |
| bounded channels | `ChannelModel`, `ChannelSafety`, `ChannelOrder`, `BoundedChannel` | accounting, wakeups and order under every interleaving |
| reorder queue | `ReorderModel`, `ReorderSafety`, `ReorderLabels`, `ReorderQueue` | order, accounting, deadlines and justified resyncs in every run |
| memory pool | `PoolModel` to `PoolAllocation`, `PoolInterleaving`, `MemoryPools`, `BlockLists` | block ownership and budget under every interleaving; failure only when it must; linked lists refine sequences |
| sender | `SenderModel`, `SenderNumbering`, `SenderTracks` | unwrapped sequence mapping over whole runs, exactly when it holds |
| header extensions | `RtpPackets`, `ExtensionBlocks`, `TransportCc`, `HeaderExtensions`, `ExtensionEditing` | exact read-back, preservation, rewrite |
| RTX | `Rtx` | round trip |
| latency histogram | `Percentiles`, `LatencyHistogram` | bounds against the exact percentile |
| NACK requester | `NackModel`, `NackSafety`, `NackExact`, `NackRequesters` | pacing, accounting and exactness of the list |
| room | `RoomModel`, `RoomSafety`, `RoomRuns`, `RoomMesh`, `Rooms` | inverse indexes, full mesh |
| H.264 bit streams | `EmulationPrevention`, `ExpGolomb` | round trips, both directions |

Each part has the same shape. A model on values (`...Model`) follows the code branch by
branch. Lemmas state what is kept by every step and hence by every run. Where the code
works in place, a class with the same fields and loops is proved to do exactly what the
model does, so that the lemmas hold of it. `dafny verify dfyconfig.toml` checks the whole
project.

## Conventions

- Machine integers are unbounded here; every 16- and 32-bit wrap-around that the code
  relies on is written out. Clocks, the network, the executor, `malloc`, media endpoints
  and the walking order of hash containers are parameters.
- Concurrency: a critical section is one step, and runs are arbitrary sequences of steps
  of all threads. In `ChannelModel` the obligations between two critical sections of one
  thread are explicit tokens. In `PoolTheorems` a step also contains what its thread does
  to its own lists around the section, and in `PoolInterleaving` one allocation takes
  several such steps, with the other threads' steps in between. A command of a room is
  one step, since the room's lock covers all it does to the room.
- Histories (`log`, `announced`, `entered`, identities of losses) are kept only to state
  properties of whole runs.
- Memory addresses are numbers; a new slab is assumed to lie apart from the existing
  ones, which is what `malloc` promises.

## Where a property needs a condition

- A transport-wide number that was written successfully is not always read back: behind a
  stop element (ID 15), and when the 16-bit length field wraps, it is lost.
  `TransportCc.ReadBackIff` gives the exact condition, `LostBehindStop` and
  `LostByWrapping` the two failures.
- A recovery point that overtakes packets of an earlier picture restarts the stream, so
  that those packets are lost (`PacketBufferSafety.RecoveryAbandons`). Arrival order does
  not matter as long as none does: `PacketBufferOrder.NoRestart` is the condition, and
  `FirstIsHarmless`, `WaitingIsHarmless` and `FirstThenAnyOrder` are families of
  deliveries that meet it, among them every delivery of a keyframe that begins with its
  sequence parameter set (`EndToEnd.KeyframeDelivered`).
- The order of the sender's numbers breaks in two ways. After a jump of half a cycle the
  sender does not know its newest packet (`SenderNumbering.NewestTrackedIff`), and padding
  or a discontinuity goes on from an older one (`HalfCycleCounterexample`). If the very
  first media packet is rejected by the transport, padding is numbered from 0, and the
  first media packet after it can fall behind (`EarlyPaddingCounterexample`).
  `SequenceMapping` holds if and only if neither happens; for media less than half a cycle
  apart, `EarlyPaddingIff` gives the condition on the events alone.
- Extraction of an RBSP is exact for the escaping of section 7.3.1 of ITU-T H.264. With
  the additional final byte that the standard appends after a trailing zero, it is exact
  if and only if the trailing zeros are even in number
  (`EmulationPrevention.FinalByteRoundTripIff`, `FinalByteCounterexample`).
- Unwrapping a 16-bit number recovers the true one exactly under the condition of
  `SequenceUnwrapper.UnwrapRecovers`.
- Section 4.1.2 of RFC 8285 wants parsing to end at an element with ID 0 and a nonzero
  length. The code treats it as an element like any other, and so does the model.

## Model

| member | source | states |
|---|---|---|
| `AccessUnitAssembly.AcceptsIffJoins` | Common/Depacketizer/H26xPacketBuffer.cpp:376-443 | the validation pass accepts a unit list exactly when joining it succeeds, and predicts the open fragment; so once validation accepts, the append pass cannot fail |
| `AccessUnitAssembly.JoinAppend` | Common/Depacketizer/H26xPacketBuffer.cpp:317-324 | joining a frame packet by packet is joining all its units, with the open fragment handed over |
| `AccessUnitAssembly.AcceptsAppend` | Common/Depacketizer/H26xPacketBuffer.cpp:275-302 | validating packet by packet is validating all units of the frame |
| `AccessUnitAssembly.Validate` | Common/Depacketizer/H26xPacketBuffer.cpp:376-404 | the validation loop computes exactly which unit lists are acceptable and which fragment header stays open |
| `AccessUnitAssembly.Append` | Common/Depacketizer/H26xPacketBuffer.cpp:406-443 | the append loop produces exactly the joined NAL units and the fragment still open, and fails exactly when the units do not join |
| `FrameScan.CheckFirstSlice` | Common/Depacketizer/H26xPacketBuffer.cpp:288-297 | the first type-1 or type-5 unit must carry the first-slice flag, and it is looked for once per frame |
| `FrameScan.RefusedPrefix` | Common/Depacketizer/H26xPacketBuffer.cpp:275-302 | a packet refused by the scan (other stream, unflagged first slice, bad fragment order) means the whole range does not assemble |
| `FrameScan.SummaryDecides` | Common/Depacketizer/H26xPacketBuffer.cpp:303-328 | after the scan, the accumulated flags decide completeness: no open fragment, parameter sets where an IDR demands them, and at least one NAL unit |
| `SequenceUnwrapper.UnwrapIsNearest` | Common/Depacketizer/H26xPacketBuffer.cpp:14-33 | the unwrapped number has the given low 16 bits and is within half a cycle of the newest |
| `SequenceUnwrapper.UnwrapRecovers` | Common/Depacketizer/H26xPacketBuffer.cpp:14-33 | the true number is recovered if and only if it is less than half a cycle away, or exactly half a cycle away in the same cycle |
| `PacketBufferSafety.WalkKeeps` | Common/Depacketizer/H26xPacketBuffer.cpp:203-254 | the walk through consecutive packets keeps the buffer invariant and emits complete units in increasing, disjoint ranges |
| `PacketBufferSafety.WalkSettles` | Common/Depacketizer/H26xPacketBuffer.cpp:203-254 | a walk of a full ring ends at a gap: it cannot meet a second packet in the slot it started from |
| `PacketBufferSafety.FlushKeeps` | Common/Depacketizer/H26xPacketBuffer.cpp:70-91 | an expiry empties the buffer, waits for recovery, and leaves the highest number ever seen as the floor |
| `PacketBufferSafety.InsertKeeps` | Common/Depacketizer/H26xPacketBuffer.cpp:157-201 | one insertion keeps the invariant, and what it emits lies between the old and the new lower bound |
| `PacketBufferSafety.RunSafe` | Common/Depacketizer/H26xPacketBuffer.cpp:70-333 | in every run of arrivals and expiries each emitted access unit covers consecutive numbers, at most max_frame_packets, one SSRC and timestamp, a marker on its last packet only, a flagged first slice; ranges strictly increase and never overlap |
| `PacketBufferSafety.ExpiryFloor` | Common/Depacketizer/H26xPacketBuffer.cpp:70-91 | after an expiry nothing at or below its floor is ever emitted, in any later run |
| `PacketBufferSafety.RestartBound` | Common/Depacketizer/H26xPacketBuffer.cpp:124-155 | a recovery point restarts the stream at itself: nothing below it is emitted by that insertion |
| `PacketBufferSafety.RecoveryAbandons` | Common/Depacketizer/H26xPacketBuffer.cpp:124-155 | a recovery point that arrives early abandons everything below it for every later run |
| `PacketBufferOrder.ArrivalOrderIrrelevant` | Common/Depacketizer/H26xPacketBuffer.cpp:124-254 | from an established continuous point with nothing stored above it, every permutation of the next packets, inside the window and within the deadline, in which no recovery point overtakes earlier packets of another picture, emits exactly what in-order delivery emits and leaves the same buffer |
| `PacketBufferOrder.DeliveriesAgree` | Common/Depacketizer/H26xPacketBuffer.cpp:124-254 | two such deliveries of the same packets cannot be told apart |
| `PacketBufferOrder.FirstIsHarmless` | Common/Depacketizer/H26xPacketBuffer.cpp:124-155 | a batch whose only recovery point is its first packet may arrive in any order |
| `PacketBufferOrder.WaitingIsHarmless` | Common/Depacketizer/H26xPacketBuffer.cpp:124-155 | a batch with several recovery points may arrive in any order in which each of them comes after all packets before it |
| `PacketBufferOrder.FirstThenAnyOrder` | Common/Depacketizer/H26xPacketBuffer.cpp:124-155 | the packets of one picture may arrive in any order once its first one is there, whatever recovery points they hold |
| `PacketBufferOrder.BeginningOrderIrrelevant` | Common/Depacketizer/H26xPacketBuffer.cpp:124-254 | the same from a buffer that waits for a recovery point, if the batch begins with one that arrives first |
| `PacketRing.FrontDecidesExpiry` | Common/Depacketizer/H26xPacketBuffer.cpp:70-74 | the earliest entry of the ordered arrival index alone decides whether anything has expired |
| `PacketBuffer.H264PacketBuffer.constructor` | Common/Depacketizer/H26xPacketBuffer.cpp:35-41 | an empty ring, with the frame limit normalized |
| `PacketBuffer.H264PacketBuffer.ErasePacket` | Common/Depacketizer/H26xPacketBuffer.cpp:63-68 | one slot, its arrival entry and the count go together |
| `PacketBuffer.H264PacketBuffer.SweepPackets` | Common/Depacketizer/H26xPacketBuffer.cpp:335-347 | the sweep over all slots removes exactly the packets in the range |
| `PacketBuffer.H264PacketBuffer.RemovePackets` | Common/Depacketizer/H26xPacketBuffer.cpp:335-356 | both ways of removing a range, by sweep and number by number, remove exactly that range |
| `PacketBuffer.H264PacketBuffer.RemovePacketsBefore` | Common/Depacketizer/H26xPacketBuffer.cpp:358-367 | exactly the packets below the number are removed |
| `PacketBuffer.H264PacketBuffer.DropCurrentFrame` | Common/Depacketizer/H26xPacketBuffer.cpp:369-374 | the open frame is removed and forgotten |
| `PacketBuffer.H264PacketBuffer.GetPacket` | Common/Depacketizer/H26xPacketBuffer.cpp:93-108 | a slot answers for a number only when it holds that very number |
| `PacketBuffer.H264PacketBuffer.ScanFrame` | Common/Depacketizer/H26xPacketBuffer.cpp:258-311 | a refused scan means that the range is not complete; a successful one leaves exactly its summary |
| `PacketBuffer.H264PacketBuffer.MoveOut` | Common/Depacketizer/H26xPacketBuffer.cpp:313-328 | the second pass succeeds exactly when the units join to at least one NAL unit with no open fragment, and yields those |
| `PacketBuffer.H264PacketBuffer.MaybeAssembleFrame` | Common/Depacketizer/H26xPacketBuffer.cpp:256-333 | the frame comes out exactly when its packets assemble, with all its fields, and then its packets leave the ring |
| `PacketBuffer.H264PacketBuffer.BeginsStream` | Common/Depacketizer/H26xPacketBuffer.cpp:110-122 | a sequence parameter set begins a stream, or the first slice of an IDR where that alone is allowed; inner fragments do not count |
| `PacketBuffer.H264PacketBuffer.CanAdvanceFrom` | Common/Depacketizer/H26xPacketBuffer.cpp:124-155 | the walk starts at the next continuous number or at a recovery point, which drops what is older |
| `PacketBuffer.H264PacketBuffer.EnterPacket` | Common/Depacketizer/H26xPacketBuffer.cpp:220-231 | the cursor moves on; a timestamp boundary without marker abandons the open frame |
| `PacketBuffer.H264PacketBuffer.LimitFrame` | Common/Depacketizer/H26xPacketBuffer.cpp:233-243 | a frame past its packet limit is discarded and stays discarded until its boundary |
| `PacketBuffer.H264PacketBuffer.CloseFrame` | Common/Depacketizer/H26xPacketBuffer.cpp:244-252 | a marker closes the frame, emitting it if it assembles |
| `PacketBuffer.H264PacketBuffer.AdvancePacket` | Common/Depacketizer/H26xPacketBuffer.cpp:211-253 | one turn of the walk |
| `PacketBuffer.H264PacketBuffer.WalkFrom` | Common/Depacketizer/H26xPacketBuffer.cpp:211-253 | the whole loop of at most one turn of the ring |
| `PacketBuffer.H264PacketBuffer.FindFrames` | Common/Depacketizer/H26xPacketBuffer.cpp:203-254 | the frames found are those of the model, in order |
| `PacketBuffer.H264PacketBuffer.ClearInternal` | Common/Depacketizer/H26xPacketBuffer.cpp:49-61 | every slot, the index and the cursors are cleared |
| `PacketBuffer.H264PacketBuffer.FindFloor` | Common/Depacketizer/H26xPacketBuffer.cpp:78-85 | the loop over the arrivals finds the highest number and its timestamp |
| `PacketBuffer.H264PacketBuffer.FlushExpired` | Common/Depacketizer/H26xPacketBuffer.cpp:70-91 | expiry of the model, returning the number of packets discarded |
| `PacketBuffer.H264PacketBuffer.Reset` | Common/Depacketizer/H26xPacketBuffer.cpp:43-47 | a reset is a new stream |
| `PacketBuffer.H264PacketBuffer.Unwrap` | Common/Depacketizer/H26xPacketBuffer.cpp:14-33 | the unwrapper keeps the newest number seen |
| `PacketBuffer.H264PacketBuffer.ClaimSlot` | Common/Depacketizer/H26xPacketBuffer.cpp:172-190 | duplicates and overtaken numbers are refused; an older occupant is evicted |
| `PacketBuffer.H264PacketBuffer.Place` | Common/Depacketizer/H26xPacketBuffer.cpp:192-198 | packet, arrival entry and count are added together |
| `PacketBuffer.H264PacketBuffer.Admit` | Common/Depacketizer/H26xPacketBuffer.cpp:165-200 | late, duplicate, evicting and stored packets, as the model classifies them |
| `PacketBuffer.H264PacketBuffer.InsertPacket` | Common/Depacketizer/H26xPacketBuffer.cpp:157-201 | the in-place insertion is the model insertion: same result, same frames, same buffer |
| `PayloadParser.ParseSingleNalu` | Common/Depacketizer/H264RtpPayloadParser.cpp:66-91 | exactly the single NAL payloads that are accepted, with type, flags and first-slice bit |
| `PayloadParser.ParseElement` | Common/Depacketizer/H264RtpPayloadParser.cpp:101-124 | one STAP-A size field and NAL unit; truncated or empty elements refuse the payload |
| `PayloadParser.ParseStapA` | Common/Depacketizer/H264RtpPayloadParser.cpp:93-132 | the loop yields exactly the contained NAL units, in order, and refuses anything else |
| `PayloadParser.ParseFuA` | Common/Depacketizer/H264RtpPayloadParser.cpp:134-168 | exactly the fragment payloads that are accepted, with their start and end bits |
| `PayloadParser.Parse` | Common/Depacketizer/H264RtpPayloadParser.cpp:28-64 | dispatch by NAL type; an empty view (one that is not valid) or any other refused payload is marked malformed and invalid |
| `PayloadParser.ParsedConsistent` | Common/Depacketizer/H264RtpPayloadParser.cpp:66-168 | every unit the parser yields is flagged as what its own type says |
| `Packetization.PieceParses` | Common/Depacketizer/H264RtpPayloadParser.cpp:28-168 | the payloads of a single NAL, a STAP-A or a fragmented NAL (sections 5.6, 5.7.1 and 5.8 of RFC 6184) are accepted and parse to the units they were made from |
| `Packetization.PieceJoins` | Common/Depacketizer/H26xPacketBuffer.cpp:406-443 | those units join to the original NAL units |
| `Packetization.PieceFaithful` | Common/Depacketizer/H264RtpPayloadParser.cpp:28-168 | the parsed flags and first-slice bits are those of the original NAL units |
| `Packetization.ParserCarries` | Common/Depacketizer/H264RtpPayloadParser.cpp:28-64 | a packet returned by the parser carries exactly the payload it was given |
| `Packetization.PacketizationRoundTrip` | Common/Depacketizer/H264RtpPayloadParser.cpp:28-168 | for every NAL list and every way of splitting it, parsing the payloads and joining the units returns exactly the list |
| `Packetization.AccessUnitRoundTrip` | Common/Depacketizer/H26xPacketBuffer.cpp:256-333 | packets carrying any packetization assemble to exactly the NAL list, if and only if its first slice is flagged and an IDR comes with the parameter sets demanded |
| `EndToEnd.UnitInOrder` | Common/Depacketizer/H26xPacketBuffer.cpp:203-333 | in-order delivery of one unit emits it once if it assembles and nothing otherwise |
| `EndToEnd.AccessUnitDelivered` | Common/Depacketizer/H26xPacketBuffer.cpp:124-333 | an access unit cut in any way and received in any order in which no packet restarts the stream comes out once with exactly its NAL units, or not at all when it is incomplete |
| `EndToEnd.KeyframeDelivered` | Common/Depacketizer/H26xPacketBuffer.cpp:124-333 | a keyframe with both parameter sets and its only sequence parameter set in its first packet comes out once with exactly its NAL units, in every order of arrival |
| `EndToEnd.FirstPacketFirst` | Common/Depacketizer/H26xPacketBuffer.cpp:124-333 | any picture whose first packet arrives first comes out once with exactly its NAL units if it is complete, and not at all otherwise |
| `EndToEnd.StreamBeginsWithPicture` | Common/Depacketizer/H26xPacketBuffer.cpp:110-333 | the same for the picture with which a stream begins, or resumes after an expiry |
| `ChannelSafety.ActKeeps` | utils/BoundedChannel.h:69-184 | every single step (send, stop, pump, completion, gate) keeps counting, wakeup and conservation |
| `ChannelOrder.BudgetFollows` | utils/BoundedChannel.h:30-39 | each step changes the shared budget by exactly what it changes in its channel, within the limits |
| `ChannelOrder.RunKeepsInv` | utils/BoundedChannel.h:69-184 | every interleaving over any number of channels keeps all invariants, and the shared budget equals the sum over the channels |
| `ChannelOrder.ReleaseIsCovered` | utils/BoundedChannel.h:30-39 | no release ever underflows: what is about to be released is covered by its channel and by the budget |
| `ChannelOrder.RunReleasedOnce` | utils/BoundedChannel.h:124-184 | in every run every accepted item of every channel is queued, deferred, in flight, finished or dropped, exactly one of these |
| `ChannelOrder.CompletedAgain` | utils/BoundedChannel.h:158-168 | completing a message again, at any later time of any run, changes nothing: it is released exactly once |
| `ChannelOrder.WakeupNeverLost` | utils/BoundedChannel.h:78-97 | an open channel with queued messages always has exactly one outstanding pump or completion |
| `ChannelOrder.RunConsumptionOrder` | utils/BoundedChannel.h:78-97 | in every run, on every channel, messages that did not wait begin to be consumed in send order; those that waited too, and after the OpenGate message that released them |
| `ChannelOrder.StoppedStays` | utils/BoundedChannel.h:124-132 | a stopped channel keeps its status and begins nothing |
| `ChannelOrder.NothingAfterStop` | utils/BoundedChannel.h:124-184 | in every continuation no consumption begins after a stop |
| `BoundedChannel.ChannelBudget.constructor` | utils/BoundedChannel.h:28-29 | an unused budget with its limits |
| `BoundedChannel.ChannelBudget.Reserve` | utils/BoundedChannel.h:30-35 | a reservation succeeds exactly when bytes and messages fit; it raises the share of its channel and of no other |
| `BoundedChannel.ChannelBudget.Release` | utils/BoundedChannel.h:36-37 | a release comes out of the share of its channel and leaves the budget the sum of the shares |
| `BoundedChannel.OthersStayValid` | utils/BoundedChannel.h:30-39 | whatever one channel reserves or releases, every other channel on the same budget stays valid |
| `BoundedChannel.ShareWithinBudget` | utils/BoundedChannel.h:30-39 | what a channel holds never exceeds what the budget holds |
| `BoundedChannel.Channel.constructor` | utils/BoundedChannel.h:108-123 | an empty open channel, gated or not |
| `BoundedChannel.Channel.Send` | utils/BoundedChannel.h:69-98 | the send section of the model, and whether a pump must be scheduled |
| `BoundedChannel.Channel.Enqueue` | utils/BoundedChannel.h:78-94 | the accepted message goes to the queue or waits behind the gate |
| `BoundedChannel.Channel.ReleaseDeferred` | utils/BoundedChannel.h:85-93 | the splice loop appends all waiting messages in order |
| `BoundedChannel.Channel.ReleaseAll` | utils/BoundedChannel.h:129-130 | the release loop returns every unconsumed item once |
| `BoundedChannel.Channel.Stop` | utils/BoundedChannel.h:124-132 | the first stop wins and drops everything unconsumed |
| `BoundedChannel.Channel.TakeItem` | utils/BoundedChannel.h:147-153 | the pump takes the head, or unschedules |
| `BoundedChannel.Channel.Finish` | utils/BoundedChannel.h:176-180 | a finished consumption returns its reservation |
| `BoundedChannel.Channel.FinishAsync` | utils/BoundedChannel.h:158-168 | a completion returns its reservation and says whether to resume |
| `ChannelSafety.ResetGateKeeps` | utils/BoundedChannel.h:103-104 | closing the gate keeps counting, wakeup and conservation of the channel |
| `ReorderSafety.RunKeeps` | Rtsp/RtpPacketReorderQueue.h:59-180 | every run since reset: emitted numbers strictly increase, next minus first equals emitted plus lost, inputs equal emitted plus buffered plus duplicates plus late plus out of window, buffered keys lie strictly inside the window and within the cache limit, no loss without timeout, overflow, resync or drain |
| `ReorderLabels.RunLabelled` | Rtsp/RtpPacketReorderQueue.h:59-97 | every packet is delivered under its own wire number |
| `ReorderSafety.RunGapFree` | Rtsp/RtpPacketReorderQueue.h:59-129 | in every run, while timeouts, overflows, resyncs and drains are zero, the output is gap-free and nothing is lost |
| `ReorderSafety.InputKeeps` | Rtsp/RtpPacketReorderQueue.h:59-97 | after an input at time now no buffered packet has reached its deadline |
| `ReorderSafety.TickKeeps` | Rtsp/RtpPacketReorderQueue.h:109-122 | after a tick at time now no buffered packet has reached its deadline |
| `ReorderSafety.FlushTimeoutKeeps` | Rtsp/RtpPacketReorderQueue.h:125-129 | the explicit drain empties the buffer |
| `ReorderSafety.RunResyncJustified` | Rtsp/RtpPacketReorderQueue.h:59-167 | in every run an input makes the stream jump ahead only with an empty buffer and as the last of the required number of packets with consecutive numbers that really came in, each at least the gap ahead, within one probation window and after a stall since the last delivery |
| `ReorderSafety.JumpNeedsSilence` | Rtsp/RtpPacketReorderQueue.h:109-167 | an input that first delivers expired packets, or finds packets waiting, cannot make the stream jump |
| `ReorderSafety.NoResyncOtherwise` | Rtsp/RtpPacketReorderQueue.h:67-81 | no other packet causes a resync |
| `ReorderQueue.RtpPacketReorderQueue.Create` | Rtsp/RtpPacketReorderQueue.h:46-55 | exactly the configurations the constructor throws for are refused; any other yields a valid empty queue |
| `ReorderQueue.RtpPacketReorderQueue.Reset` | Rtsp/RtpPacketReorderQueue.h:131-139 | a reset forgets everything |
| `ReorderSafety.ClearKeepsReady` | Rtsp/RtpPacketReorderQueue.h:147 | ending the probation keeps everything that holds between expiry and admission |
| `ReorderSafety.EmitHead` | Rtsp/RtpPacketReorderQueue.h:99-105 | delivering the head of the buffer keeps order and accounting, and the buffer shrinks |
| `ReorderSafety.EmitNextKeeps` | Rtsp/RtpPacketReorderQueue.h:82-86 | delivering the packet that is next, and what follows it, keeps the invariant and leaves nothing expired |
| `ReorderQueue.RtpPacketReorderQueue.SkipToFirst` | Rtsp/RtpPacketReorderQueue.h:168-172 | the gap before the first buffered packet is counted lost |
| `ReorderQueue.RtpPacketReorderQueue.FlushBuffered` | Rtsp/RtpPacketReorderQueue.h:99-105 | the loop delivers exactly the consecutive run at the head |
| `ReorderQueue.RtpPacketReorderQueue.OldestArrival` | Rtsp/RtpPacketReorderQueue.h:114-116 | the scan finds the earliest arrival in the buffer |
| `ReorderQueue.RtpPacketReorderQueue.FlushExpired` | Rtsp/RtpPacketReorderQueue.h:109-122 | probation ends when its window is over, and nothing expired is left |
| `ReorderQueue.RtpPacketReorderQueue.Tick` | Rtsp/RtpPacketReorderQueue.h:109-122 | probation and deadlines are checked as in the model |
| `ReorderQueue.RtpPacketReorderQueue.ExpireGaps` | Rtsp/RtpPacketReorderQueue.h:113-121 | the whole deadline loop: it ends, and nothing expired is left |
| `ReorderQueue.RtpPacketReorderQueue.FlushTimeout` | Rtsp/RtpPacketReorderQueue.h:125-129 | the drain loop empties the buffer in order |
| `ReorderQueue.RtpPacketReorderQueue.SkipPass` | Rtsp/RtpPacketReorderQueue.h:119-120 | one skip and flush shrinks the buffer |
| `ReorderQueue.RtpPacketReorderQueue.ConfirmForwardResync` | Rtsp/RtpPacketReorderQueue.h:148-167 | the probation counter of the model |
| `ReorderQueue.RtpPacketReorderQueue.ShedPackets` | Rtsp/RtpPacketReorderQueue.h:90-94 | an overfull cache skips to its first packet |
| `ReorderQueue.RtpPacketReorderQueue.StorePacket` | Rtsp/RtpPacketReorderQueue.h:87-96 | a packet ahead is stored once; duplicates are counted |
| `ReorderQueue.RtpPacketReorderQueue.AdmitPacket` | Rtsp/RtpPacketReorderQueue.h:68-96 | late, ambiguous, too far ahead, next and ahead, as the model classifies them |
| `ReorderQueue.RtpPacketReorderQueue.InputPacket` | Rtsp/RtpPacketReorderQueue.h:59-97 | the in-place input is the model input, with the packets delivered in order |
| `SizeClasses.GetSizeClassIndex` | Common/memory/SizeClass.h:11-27 | the loop finds the smallest class that holds the size, or none |
| `SizeClasses.ClassIsUnique` | Common/memory/SizeClass.h:11-27 | a size has one class |
| `SizeClasses.PooledHasClass` | Common/memory/SizeClass.h:11-27 | exactly the sizes up to the pooled maximum have a class |
| `PoolSafety.IdleHasNothingOut` | Common/memory/CentralCache.cpp:166-182 | a slab whose free count equals its block count has no cached and no leased block |
| `PoolAccounting.ReservedWithinCommitted` | Common/memory/CentralCache.cpp:190-197 | what is in use never exceeds what is committed, so the cached bytes never underflow |
| `PoolRuns.TrimKeeps` | Common/memory/CentralCache.cpp:166-182 | a trim frees idle slabs only; a full trim leaves none, a soft trim leaves none or has the cached bytes under their target |
| `PoolOperations.FittingCountFits` | Common/memory/CentralCache.cpp:39-42 | the blocks carved fit into the remaining budget, at least one of them |
| `PoolOperations.AllocateSlabKeeps` | Common/memory/CentralCache.cpp:29-67 | a slab is allocated within the budget and disjoint from all others, or refused only when, after a full trim, one header and one block do not fit |
| `PoolOperations.FetchKeeps` | Common/memory/CentralCache.cpp:69-87 | a fetch keeps the invariant and comes back empty only from an exhausted pool |
| `PoolOperations.TakeManyKeeps` | Common/memory/CentralCache.cpp:78-85 | the batch moved to a thread is exactly as long as asked for and available |
| `PoolOperations.ReturnAllKeeps` | Common/memory/CentralCache.cpp:119-132 | returning a list gives back every block of it |
| `PoolOperations.FlushListKeeps` | Common/memory/ThreadCache.cpp:14-20 | flushing a list empties it and keeps the invariant |
| `PoolOperations.ReleaseKeeps` | Common/memory/CentralCache.cpp:134-155 | a release ends this lease and no other; a large slab is freed at once; a pooled block is free again unless its whole slab was freed, and the trim ends within the limit on cached bytes or with no idle slab |
| `PoolOperations.AllocateLargeKeeps` | Common/memory/CentralCache.cpp:107-117 | a large allocation leases a slab of exactly its size or leaves the pool exhausted |
| `PoolOperations.SetLimitsKeeps` | Common/memory/CentralCache.cpp:202-209 | new limits are taken exactly when they cover what is committed after a full trim |
| `PoolTheorems.LeasesDisjoint` | Common/memory/CentralCache.cpp:51-59 | two leases never share a byte |
| `PoolTheorems.PayloadInside` | Common/memory/CentralCache.cpp:51-59 | a payload lies inside its slab and holds its request |
| `PoolTheorems.StepKeeps` | Common/memory/CentralCache.cpp:29-209 | every critical section of every thread keeps the invariant |
| `PoolTheorems.RunKeeps` | Common/memory/CentralCache.cpp:29-209 | every interleaving keeps the invariant |
| `PoolTheorems.CountersSound` | Common/memory/CentralCache.cpp:89-99 | in-use bytes, capacity and reservation are ordered and below the committed bytes: no subtraction underflows |
| `PoolTheorems.PoolAlwaysSound` | Common/memory/CentralCache.cpp:29-209 | in every interleaving each block is free, cached by one thread under its class, or leased, never two of these; committed bytes equal the sum of slab sizes within the limit; nothing underflows; leases never overlap |
| `PoolTheorems.FreedOnlyWhenNothingOut` | Common/memory/CentralCache.cpp:157-164 | a slab is freed only when none of its blocks is out, apart from those the step itself gives back |
| `PoolInterleaving.AllocationUnderInterleaving` | Common/memory/ThreadCache.cpp:25-45 | whatever other threads do between its steps, an allocation that ends has leased a block of the requested size, or at its last step found no idle slab, no free central block of its class, its own lists empty and less budget than one header and one stride, or the system without memory |
| `PoolInterleaving.ForeignKeepsList` | Common/memory/ThreadCache.cpp:7-11 | no step of another thread changes this thread's lists |
| `PoolInterleaving.UninterruptedAllocation` | Common/memory/ThreadCache.cpp:25-45 | the allocation of a thread that nobody interrupts is one of these interleavings |
| `PoolAllocation.AllocationFailsOnlyWhenItMust` | Common/memory/MemoryPool.cpp:25-38 | uninterrupted: a null answer to a representable request means no idle slab, no free central block of its class, empty lists of this thread and less budget than one header and one stride; any other answer is a lease of the requested size |
| `PoolAllocation.ThreadAllocateKeeps` | Common/memory/ThreadCache.cpp:25-45 | uninterrupted: the batch fetch, the flush, trim and single retry, and the activation lease a block of the requested size or leave the pool exhausted |
| `PoolAllocation.FlushThreadKeeps` | Common/memory/ThreadCache.cpp:14-24 | a flush empties all lists of its thread |
| `PoolAllocation.FetchSucceedsIff` | Common/memory/CentralCache.cpp:69-87 | a fetch succeeds if and only if the class has a free block or a full trim leaves budget for one |
| `MemoryPools.Carve` | Common/memory/CentralCache.cpp:52-59 | the carving loop links every block of a new slab once |
| `MemoryPools.MemoryPool.constructor` | Common/memory/MemoryPool.cpp:8-9 | an empty pool |
| `PoolRuns.FreeSlabThinner` | Common/memory/CentralCache.cpp:157-164 | unlinking an idle slab keeps the invariant and changes nothing else |
| `MemoryPools.MemoryPool.TrimClass` | Common/memory/CentralCache.cpp:172-179 | the inner trimming loop |
| `MemoryPools.MemoryPool.Trim` | Common/memory/CentralCache.cpp:166-182 | the trimming loops do what the model does and return the bytes freed |
| `MemoryPools.MemoryPool.EnsureRoom` | Common/memory/CentralCache.cpp:37-38 | a tight budget triggers a full trim |
| `PoolOperations.AddSlabCore` | Common/memory/CentralCache.cpp:60-66 | linking a fresh slab keeps ownership, lists, accounting and disjointness |
| `MemoryPools.MemoryPool.MakeSlab` | Common/memory/CentralCache.cpp:29-67 | slab allocation of the model |
| `MemoryPools.MemoryPool.FindFree` | Common/memory/CentralCache.cpp:73-74 | the search finds the first slab with a free block |
| `MemoryPools.MemoryPool.PopFree` | Common/memory/CentralCache.cpp:77-85 | the pop loop moves blocks from the slab to the list |
| `MemoryPools.MemoryPool.FetchBatch` | Common/memory/CentralCache.cpp:69-87 | the fetch of the model |
| `PoolRuns.ActivateInv` | Common/memory/CentralCache.cpp:89-99 | activating the head of a thread's list moves exactly that block from cached to leased and keeps the accounting |
| `MemoryPools.MemoryPool.PopAndActivate` | Common/memory/ThreadCache.cpp:39-44 | the head of the list is activated for the request |
| `PoolRuns.ReturnHeadInv` | Common/memory/CentralCache.cpp:122-130 | returning the head of a list makes that block free and keeps the invariant |
| `MemoryPools.MemoryPool.ReturnList` | Common/memory/CentralCache.cpp:122-130 | the return loop gives back every block of the list |
| `MemoryPools.MemoryPool.ReleaseBatch` | Common/memory/CentralCache.cpp:119-132 | a flushed list is returned and a soft trim follows |
| `MemoryPools.MemoryPool.Unlink` | Common/memory/CentralCache.cpp:150-151 | the search finds the link of a large slab |
| `PoolOperations.DeactivateLeases` | Common/memory/CentralCache.cpp:138-147 | deactivation ends this lease and no other, and the block is free |
| `PoolRuns.DeactivateCore` | Common/memory/CentralCache.cpp:138-147 | it takes back from the counters exactly what the activation added |
| `MemoryPools.MemoryPool.ReleaseBlock` | Common/memory/CentralCache.cpp:134-155 | release of the model |
| `MemoryPools.MemoryPool.AllocateWhole` | Common/memory/CentralCache.cpp:107-117 | large allocation of the model |
| `MemoryPools.MemoryPool.ChangeLimits` | Common/memory/CentralCache.cpp:202-209 | change of limits of the model |
| `MemoryPools.MemoryPool.Flush` | Common/memory/ThreadCache.cpp:14-20 | the loop over a thread's lists |
| `MemoryPools.MemoryPool.AllocateCached` | Common/memory/ThreadCache.cpp:25-45 | the uninterrupted allocation through the thread's cache, in place |
| `MemoryPools.MemoryPool.TryAllocate` | Common/memory/MemoryPool.cpp:25-38 | uninterrupted allocation by size, in place, with the guarantee of AllocationFailsOnlyWhenItMust |
| `BlockLists.Carve` | Common/memory/CentralCache.cpp:52-59 | the carving loop on linked headers builds the list of all new blocks, last one first |
| `BlockLists.PushBlock` | Common/memory/CentralCache.cpp:145-147 | linking a block in front of its slab's list |
| `BlockLists.PopBlock` | Common/memory/CentralCache.cpp:80-82 | unlinking the first block of a slab's list |
| `BlockLists.LinkBefore` | Common/memory/CentralCache.cpp:83-84 | linking a header in front of a list leaves a list without cycle |
| `BlockLists.PopBatch` | Common/memory/CentralCache.cpp:77-86 | the pointer loop of FetchBatch does to the linked lists exactly what the model does to sequences: same free list, same batch in the same order |
| `BlockLists.ReturnBatch` | Common/memory/CentralCache.cpp:122-130 | the pointer loop of ReleaseBatch likewise, over any number of slabs: every block goes back to the list of its own slab |
| `SenderNumbering.SequenceMapping` | Rtsp/RtpSenderTrack.cpp:102-216 | in every run of media in source order, padding and discontinuities, accepted or rejected: the wire numbers are an unwrapped sequence modulo 2^16 that strictly increases, gaps within an epoch are the source gaps plus the padding between, and the first packet after a discontinuity is the last sent plus one, if and only if every packet that goes out finds the sender sound: padding and the first packet of an epoch follow no jump of half a cycle, and the first media packet after early padding has a source number below 0x7FFF |
| `SenderNumbering.MediaFollows` | Rtsp/RtpSenderTrack.cpp:102-186 | one media packet gets the specified number and keeps its source timestamp |
| `SenderNumbering.PaddingFollows` | Rtsp/RtpSenderTrack.cpp:195-216 | one padding packet gets the next number and shifts the mapping by one |
| `SenderNumbering.StepGood` | Rtsp/RtpSenderTrack.cpp:102-216 | every step keeps mapping and log together |
| `SenderNumbering.NewestTrackedIff` | Rtsp/RtpSenderTrack.cpp:167-171 | the sender takes a packet for its newest if and only if it is less than half a cycle ahead |
| `SenderNumbering.EarlyPaddingIff` | Rtsp/RtpSenderTrack.cpp:195-216 | for whole runs of media less than half a cycle apart: after a rejected very first packet and any number of padding packets, numbered from 0, the order holds if and only if the first media packet that goes out has a source number below 0x7FFF |
| `SenderNumbering.EarlyPaddingCounterexample` | Rtsp/RtpSenderTrack.cpp:201-212 | a run that sends 0, then 0x9002, then 1 |
| `SenderNumbering.HalfCycleCounterexample` | Rtsp/RtpSenderTrack.cpp:167-171 | a jump of half a cycle and then padding: 0, 0x8000, 1 |
| `SenderTracks.RtpSenderTrack.constructor` | Rtsp/RtpSenderTrack.cpp:79-95 | a sender that has sent nothing |
| `SenderNumbering.NumberFits` | Rtsp/RtpSenderTrack.cpp:577-586 | the number the rewriting computes is the specified one modulo 2^16 |
| `SenderNumbering.TimeKept` | Rtsp/RtpSenderTrack.cpp:588-598 | the rewritten timestamp is the source's, across the 32-bit wrap |
| `SenderTracks.RtpSenderTrack.Admit` | Rtsp/RtpSenderTrack.cpp:116-134 | packets below the resume floor or behind the outgoing clock are turned away without a change |
| `SenderNumbering.PrepareFollows` | Rtsp/RtpSenderTrack.cpp:135-150 | rebasing and preparing put the specified offset of the epoch into the base fields |
| `SenderTracks.RtpSenderTrack.PrepareBases` | Rtsp/RtpSenderTrack.cpp:129-150 | rebase and rewrite, in this order |
| `SenderTracks.RtpSenderTrack.InputRtpPacket` | Rtsp/RtpSenderTrack.cpp:102-186 | the input of the model; a sent packet is cached under its outgoing number |
| `SenderTracks.RtpSenderTrack.BeginDiscontinuity` | Rtsp/RtpSenderTrack.cpp:188-193 | the cache is emptied and a rebase is pending |
| `SenderTracks.RtpSenderTrack.SendPadding` | Rtsp/RtpSenderTrack.cpp:195-216 | the padding of the model |
| `SenderTracks.RtpSenderTrack.Evict` | Rtsp/RtpSenderTrack.cpp:621-626 | at most the oldest packet goes, and the order lists exactly what is cached |
| `SenderTracks.RtpSenderTrack.CacheRtpPacket` | Rtsp/RtpSenderTrack.cpp:600-627 | the packet is cached, the limit holds, and nothing else changes but the oldest |
| `ExtensionBlocks.ParseAppend` | Rtsp/RtpSenderTrack.cpp:504-514 | a complete block followed by more elements holds the elements of both |
| `ExtensionBlocks.FindAppend` | Rtsp/RtpSenderTrack.cpp:474-502 | a scan that reaches the end goes on in what is appended; one that stopped at ID 15 does not |
| `ExtensionBlocks.ParsePut` | Rtsp/RtpSenderTrack.cpp:492-499 | replacing the value found changes that element and no other |
| `TransportCc.ReadBackIff` | Rtsp/RtpSenderTrack.cpp:419-515 | a successful write is read back as its number if and only if no ID-15 stop element precedes it and the 16-bit length field can count one more word |
| `TransportCc.LostBehindStop` | Rtsp/RtpSenderTrack.cpp:483-486 | a packet with a stop element on which the number is lost |
| `TransportCc.LostByWrapping` | Rtsp/RtpSenderTrack.cpp:513 | a full extension whose length field wraps to 0 loses the number |
| `TransportCc.WriteKeeps` | Rtsp/RtpSenderTrack.cpp:419-515 | a readable write keeps header, payload and every other element |
| `TransportCc.RewriteInPlace` | Rtsp/RtpSenderTrack.cpp:492-499 | once written, a rewrite changes the two value bytes and nothing else |
| `TransportCc.SecondWriteSucceeds` | Rtsp/RtpSenderTrack.cpp:532-540 | after a successful placeholder write the real write cannot fail, whatever the packet |
| `HeaderExtensions.ReaderSeesWrite` | Rtsp/Rtp/RtpHeaderExtensions.h:55-99 | the general reader sees the written number beside exactly what it saw before |
| `HeaderExtensions.RewriteParts` | Rtsp/RtpSenderTrack.cpp:395-417 | the rewrite keeps header and payload and leaves only the media identification |
| `HeaderExtensions.RewriteReads` | Rtsp/Rtp/RtpHeaderExtensions.h:55-99 | after the rewrite the general reader returns exactly the media identification, and refuses only for padding that does not fit |
| `HeaderExtensions.RewriteWriteReads` | Rtsp/RtpSenderTrack.cpp:395-541 | after rewrite and write the general reader returns exactly media identification and transport number, and the transport reader the number |
| `ExtensionEditing.ScanElements` | Rtsp/RtpTransportCcExtension.cpp:41-70 | the scanning loop shared by writer and reader finds the element, or why not |
| `ExtensionEditing.ReadTransportCc` | Rtsp/RtpTransportCcExtension.cpp:6-72 | the reader as specified |
| `ExtensionEditing.WriteTransportCc` | Rtsp/RtpSenderTrack.cpp:419-515 | the in-place writer as specified; a refused packet is unchanged |
| `ExtensionEditing.AddExtension` | Rtsp/RtpSenderTrack.cpp:436-449 | a new one-word extension before the payload |
| `ExtensionEditing.AppendWord` | Rtsp/RtpSenderTrack.cpp:504-514 | one more word behind the elements and in the length field |
| `ExtensionEditing.PrepareTransportCc` | Rtsp/RtpSenderTrack.cpp:517-541 | fails only before a number is allocated; the allocated number is what the reader then finds |
| `ExtensionEditing.Strip` | Rtsp/RtpSenderTrack.cpp:397-405 | the old extension is erased and its flag cleared |
| `ExtensionEditing.MakeMid` | Rtsp/RtpSenderTrack.cpp:409-413 | the element and the zero bytes that fill its last word |
| `ExtensionEditing.InsertMid` | Rtsp/RtpSenderTrack.cpp:413-415 | the new extension is inserted and flagged |
| `ExtensionEditing.RewriteHeaderExtensions` | Rtsp/RtpSenderTrack.cpp:395-417 | the in-place rewrite as specified |
| `ExtensionEditing.CollectElements` | Rtsp/Rtp/RtpHeaderExtensions.h:70-89 | the one-byte loop collects exactly the elements and refuses repeated or truncated ones |
| `ExtensionEditing.CollectWideElements` | Rtsp/Rtp/RtpHeaderExtensions.h:70-89 | the same for two-byte elements |
| `ExtensionEditing.ReadRtpHeaderExtensions` | Rtsp/Rtp/RtpHeaderExtensions.h:55-99 | the general reader as specified, with its bounds and padding checks |
| `Rtx.RoundTrip` | Rtsp/Rtp/RtpRtx.h:30-64 | encapsulating with any payload type, SSRC and number and decapsulating with the original ones returns the original packet without its padding |
| `Rtx.RoundTripIdentity` | Rtsp/Rtp/RtpRtx.h:30-64 | without padding the round trip is the identity |
| `Rtx.EncapsulatesIff` | Rtsp/Rtp/RtpRtx.h:11-37 | exactly the packets with valid bounds and a nonempty payload are encapsulated |
| `Rtx.EncapsulatedBounds` | Rtsp/Rtp/RtpRtx.h:38-46 | the encapsulated packet keeps its header length, has no padding, and carries the original number before the payload |
| `Rtx.PayloadBounds` | Rtsp/Rtp/RtpRtx.h:11-28 | the bounds as specified |
| `Rtx.SetSource` | Rtsp/Rtp/RtpRtx.h:45 | the byte loop writes the SSRC |
| `Rtx.Retag` | Rtsp/Rtp/RtpRtx.h:41-45 | flag, type, number and source are written and nothing else |
| `Rtx.EncapsulateRtx` | Rtsp/Rtp/RtpRtx.h:33-47 | the in-place encapsulation as specified; a refused packet is unchanged |
| `Rtx.DecapsulateRtx` | Rtsp/Rtp/RtpRtx.h:49-64 | the in-place decapsulation as specified; a refused packet is unchanged |
| `Percentiles.SortedSorts` | utils/MediaLatency.cpp:99-112 | the reference: the samples in ascending order, each as often as it occurs |
| `Percentiles.RankReached` | utils/MediaLatency.cpp:99-112 | a bound reaches the percentile exactly when at least rank samples are at most it |
| `Percentiles.RankIsCeiling` | utils/MediaLatency.cpp:103-104 | the split rank formula is the ceiling of count times percentile over 100, between 1 and count |
| `Percentiles.BoundsIncrease` | utils/MediaLatency.cpp:44-54 | the bound table is strictly increasing |
| `Percentiles.BucketError` | utils/MediaLatency.cpp:44-54 | a bucket bound equals its values up to 16 and is less than an eighth above them up to 2^34 |
| `LatencyHistogram.BucketBounds` | utils/MediaLatency.cpp:44-54 | the nested loops fill the table with the bounds |
| `LatencyHistogram.LowerBound` | utils/MediaLatency.cpp:87 | the binary search finds the bucket of a value |
| `LatencyHistogram.Histogram.constructor` | utils/MediaLatency.cpp:44-55 | an empty histogram |
| `LatencyHistogram.Histogram.Add` | utils/MediaLatency.cpp:85-92 | bucket sums count the samples up to each bound, and the maximum is kept |
| `LatencyHistogram.FirstReached` | utils/MediaLatency.cpp:99-112 | the first bucket sum that reaches the rank belongs to the bucket of the exact percentile |
| `LatencyHistogram.Histogram.PercentileUs` | utils/MediaLatency.cpp:99-112 | for every sample sequence: at least the exact nearest-rank percentile, at most the maximum, equal up to 16, below nine eighths of it up to 2^34 |
| `NackSafety.RequestsPaced` | Rtsp/Rtp/NackRequester.cpp:35-171 | in every run no loss is requested more than max_retries times, before the reorder wait, at or past the maximum age, when the round trip no longer fits, or sooner than the minimum interval; the list stays within its limit |
| `NackSafety.RunBalanced` | Rtsp/Rtp/NackRequester.cpp:23-171 | in every run the losses counted are the pending, reordered, recovered, abandoned and silently dropped ones |
| `NackSafety.LossesAddUp` | Rtsp/Rtp/NackRequester.cpp:23-171 | with a clock that does not go back, no ClearUpTo and no large-gap reset nothing is dropped silently, so the counters add up |
| `NackSafety.TickIsProcess` | Rtsp/Rtp/NackRequester.cpp:89-171 | the logged tick is the Process of the model |
| `NackExact.PendingIsExactlyLost` | Rtsp/Rtp/NackRequester.cpp:35-171 | with a clock that does not go back, if the list never fills and no loss falls half a cycle behind, the pending list is exactly the numbers between first and newest that neither arrived nor were given up; a number is given up only by a tick at which it is hopeless or by giving up all, and as many as the counter of abandoned losses says |
| `NackExact.ProcessAbandons` | Rtsp/Rtp/NackRequester.cpp:102-154 | a tick removes exactly the hopeless entries and counts each of them once |
| `NackExact.AddMissingAll` | Rtsp/Rtp/NackRequester.cpp:212-234 | a gap that fits is added whole, across the 16-bit wrap |
| `NackRequesters.NackRequester.constructor` | Rtsp/Rtp/NackRequester.cpp:9-15 | the configuration is normalized |
| `NackSafety.AddOnePaced` | Rtsp/Rtp/NackRequester.cpp:222-230 | a new loss has been asked for by nobody, and keeps pacing and list limit |
| `NackRequesters.NackRequester.AddMissingPackets` | Rtsp/Rtp/NackRequester.cpp:212-234 | the loop adds the gap until the list is full |
| `NackSafety.ResultIsCounted` | Rtsp/Rtp/NackRequester.cpp:35-86 | the caller is told of a recovery or a reordering exactly when one is counted, and the number was pending and no longer is |
| `NackSafety.ArriveBalanced` | Rtsp/Rtp/NackRequester.cpp:45-64 | an arrival takes one loss from pending to recovered or reordered |
| `NackRequesters.NackRequester.OnReceivedPacket` | Rtsp/Rtp/NackRequester.cpp:35-86 | the reception of the model, with the result told to the caller |
| `NackSafety.DueIsTimely` | Rtsp/Rtp/NackRequester.cpp:112-154 | an entry that is due may be asked for: not too early, not too late, not too often, not sooner than the minimum interval |
| `NackRequesters.NackRequester.ProcessEntry` | Rtsp/Rtp/NackRequester.cpp:102-154 | one entry is dropped, abandoned, left waiting or requested |
| `NackRequesters.NackRequester.ProcessPending` | Rtsp/Rtp/NackRequester.cpp:89-161 | the loop in ascending order, with its batch limit |
| `NackRequesters.NackRequester.ClearPendingUpTo` | Rtsp/Rtp/NackRequester.cpp:178-191 | exactly the entries not newer are removed |
| `NackExact.GiveUpExact` | Rtsp/Rtp/NackRequester.cpp:23-27 | giving up moves every pending number to the abandoned ones, each counted once |
| `RoomRuns.RoomAlwaysConsistent` | Room/Room.cpp:41-675 | after every command sequence the two subscription indexes are inverse relations, the participants' own sets mirror them, every pair joins a present participant to a published track it does not own, a closed room is empty, revisions strictly increase and publication ids never repeat |
| `RoomRuns.ApplyInv` | Room/Room.cpp:88-675 | every command keeps that invariant |
| `RoomRuns.JoinInv` | Room/Room.cpp:88-143 | joining |
| `RoomRuns.LeaveInv` | Room/Room.cpp:145-219 | leaving, with the withdrawal of all own tracks |
| `RoomRuns.PublishInv` | Room/Room.cpp:291-361 | publishing |
| `RoomRuns.UnpublishInv` | Room/Room.cpp:363-414 | unpublishing |
| `RoomRuns.CloseInv` | Room/Room.cpp:525-557 | closing |
| `RoomSafety.SubscribeInv` | Room/Room.cpp:605-645 | one subscription, made or refused |
| `RoomSafety.UnsubscribeInv` | Room/Room.cpp:647-675 | one unsubscription |
| `RoomRuns.ClosedForever` | Room/Room.cpp:525-557 | a closed room stays closed and empty |
| `RoomMesh.FullMesh` | Room/Room.cpp:88-361 | with automatic subscription, no media bindings and no unsubscription the relation is exactly the full mesh |
| `Rooms.MediaRoom.constructor` | Room/Room.cpp:29-37 | an empty room |
| `Rooms.MediaRoom.SubscribeTrackLocked` | Room/Room.cpp:605-645 | the subscription of the model |
| `Rooms.MediaRoom.UnsubscribeTrackLocked` | Room/Room.cpp:647-675 | the unsubscription of the model, with entries that become empty removed |
| `RoomSafety.AnnounceNumbered` | Room/Room.cpp:41-51 | each announcement takes a revision above all earlier ones, and no publication is announced as added twice |
| `RoomSafety.RevisionNumbered` | Room/Room.cpp:244-256 | each participant change takes a revision above all earlier ones |
| `RoomRuns.UpdateStatusInv` | Room/Room.cpp:593-603 | the status update and the revision that goes with it keep the invariant |
| `Rooms.MediaRoom.JoinRoom` | Room/Room.cpp:88-143 | the join of the model |
| `Rooms.MediaRoom.WithdrawTrack` | Room/Room.cpp:390-402 | the loop unsubscribes every subscriber before the track goes |
| `Rooms.MediaRoom.DropSubscriptions` | Room/Room.cpp:164-172 | the loop over the leaving participant's subscriptions |
| `Rooms.MediaRoom.DropTracks` | Room/Room.cpp:182-197 | the loop over the leaving participant's tracks |
| `Rooms.MediaRoom.LeaveRoom` | Room/Room.cpp:145-219 | the leave of the model |
| `Rooms.MediaRoom.SubscribeOthers` | Room/Room.cpp:342-356 | the loop that subscribes the others to a new track |
| `Rooms.MediaRoom.PublishTrack` | Room/Room.cpp:291-361 | the publication of the model |
| `Rooms.MediaRoom.UnpublishTrack` | Room/Room.cpp:363-414 | the withdrawal of the model |
| `Rooms.MediaRoom.AnnounceRemovals` | Room/Room.cpp:539-540 | the loop that announces every track of a closing room |
| `Rooms.MediaRoom.CloseRoom` | Room/Room.cpp:525-557 | the closing of the model |
| `EmulationPrevention.NaluToRbsp` | Common/Depacketizer/H264ParameterSetTracker.cpp:10-29 | the loop removes the header byte and the emulation prevention bytes |
| `EmulationPrevention.ExtractionRoundTrip` | Common/Depacketizer/H264ParameterSetTracker.cpp:10-29 | escaping per section 7.3.1 of ITU-T H.264 and extracting returns the original RBSP for every byte string |
| `EmulationPrevention.FinalByteRoundTripIff` | Common/Depacketizer/H264ParameterSetTracker.cpp:10-29 | with the final byte the standard appends after a trailing zero, if and only if the RBSP ends in an even number of zero bytes; otherwise that byte stays behind |
| `EmulationPrevention.FinalByteCounterexample` | Common/Depacketizer/H264ParameterSetTracker.cpp:10-29 | a single zero byte, from which the final byte is not taken out again |
| `EmulationPrevention.EscapedHasNoStartCode` | Common/Depacketizer/H264ParameterSetTracker.cpp:10-29 | an escaped RBSP contains no start code prefix |
| `EmulationPrevention.NoStartCodeAt` | Common/Depacketizer/H264ParameterSetTracker.cpp:10-29 | the same read as bytes: no 00 00 00, 00 00 01 or 00 00 02 at any place |
| `ExpGolomb.DecodesCodeword` | Common/Depacketizer/H264ParameterSetTracker.cpp:58-72 | every codeword of section 9.1 with up to 31 leading zeros is decoded to its value and consumed exactly |
| `ExpGolomb.DecodesOnlyCodewords` | Common/Depacketizer/H264ParameterSetTracker.cpp:58-72 | nothing else is decoded |
| `ExpGolomb.SignedCodewordRoundTrip` | Common/Depacketizer/H264ParameterSetTracker.cpp:74-81 | the signed mapping is inverted |
| `ExpGolomb.DecodedFits` | Common/Depacketizer/H264ParameterSetTracker.cpp:58-81 | decoded values fit into 32 bits, signed ones without overflow |
| `ExpGolomb.PrefixUnique` | Common/Depacketizer/H264ParameterSetTracker.cpp:58-72 | every number has one codeword |
| `ExpGolomb.PrefixExists` | Common/Depacketizer/H264ParameterSetTracker.cpp:58-72 | every number has a codeword |
| `ExpGolomb.SignedCodeRoundTrip` | Common/Depacketizer/H264ParameterSetTracker.cpp:74-81 | every code number is the code of exactly one signed value |
| `ExpGolomb.BitReader.constructor` | Common/Depacketizer/H264ParameterSetTracker.cpp:34 | a reader at the first bit |
| `ExpGolomb.BitReader.ReadBits` | Common/Depacketizer/H264ParameterSetTracker.cpp:36-48 | the bit loop reads most significant bits first and refuses without moving |
| `ExpGolomb.BitReader.ReadBit` | Common/Depacketizer/H264ParameterSetTracker.cpp:50-56 | one bit |
| `ExpGolomb.BitReader.SkipZeros` | Common/Depacketizer/H264ParameterSetTracker.cpp:60-67 | the zero count, up to 31 |
| `ExpGolomb.BitReader.ReadSuffix` | Common/Depacketizer/H264ParameterSetTracker.cpp:68-69 | the remainder bits |
| `ExpGolomb.BitReader.ReadUe` | Common/Depacketizer/H264ParameterSetTracker.cpp:58-72 | value and advance as specified, also when it fails |
| `ExpGolomb.BitReader.ReadSe` | Common/Depacketizer/H264ParameterSetTracker.cpp:74-81 | the signed reading as specified |

## Left out

- Sockets, schedulers, threads, RTSP and SDP text, configuration and logging: their meaning lies in the operating system or in text handling.
- The bodies of the send-side controller, the transport sequence allocator, the event bus and the media endpoints: the allocator is a source of numbers, an endpoint an answer.
- Codecs, `VideoResumeBuffer`, `AudioDepacketizer`, `RtpFrameAssembler` and the receive statistics: they would add easier members of kinds already covered.
- Floating-point statistics (mean latency, bit rates, jitter) and peak counters.
- H.264 parameter set fields beyond the bit reader (profile tables, scaling lists, maps by identifier).
- RTP header validation and the byte-level rewriting of type, number, timestamp and SSRC in the sender; the sender's model works on numbers, and header extensions are modelled on bytes.
- NACK retransmission by the sender (`OnRtcpNack`) and the rate limit of the recovery failure callback: pacing of the same kind is proved for the requester.
- The linked lists of slabs and of channel messages are sequences in the classes; the lists of blocks are also proved as linked headers (`BlockLists`).
- Several pools: a thread's cache that moves from one pool to another flushes its lists, which is the flush modelled here; one pool is considered at a time.
- Counter overflow past 64 bits (statistics, revisions, histogram counts).
- SenderNumbering.SequenceMapping: media must be in source order within an epoch; reordered source packets around padding are not covered.
- PacketBufferOrder.ArrivalOrderIrrelevant: does not speak of a recovery point that overtakes packets of an earlier picture; `PacketBufferSafety.RecoveryAbandons` shows what that does.
- NackExact.PendingIsExactlyLost: packets must be within half a cycle of the newest, gaps within the allowed jump and the list, and no loss half a cycle behind.
- RoomMesh.FullMesh: for rooms without media bindings and without unsubscriptions, as the source only promises it there.
- RoomRuns.RoomAlwaysConsistent: participants join with empty sets of their own, as newly created or departed participants have; each command is one step because the room's lock covers all it does to the room.
- PoolAllocation.AllocationFailsOnlyWhenItMust: for a thread that nobody interrupts; `PoolInterleaving.AllocationUnderInterleaving` states it for every interleaving.
- MemoryPools.MemoryPool.TryAllocate: in place for a thread that nobody interrupts; the interleavings are proved on the model.
