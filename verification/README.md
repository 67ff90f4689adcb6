# Verified model of the media agent's stream pipeline

The media agent pulls RTSP streams, decodes them, runs detectors on some of the decoded frames, publishes the
packets again with the detections embedded as SEI messages, records files around alarms, and reports to a local
server over a framed socket. This project models the parts of it where a mistake would be hard to see, and proves
that they do what the agent is for.

- **Buffer, puller, publisher and workers.** `BufferModel.dfy` and `StreamBuffer.dfy` give the stream buffer as a
  value and as a class whose methods are the sections run under its mutex; `PullerModel.dfy` and `RtspPuller.dfy`
  do the same for the alignment of decoded frames with packets. `StreamPipeline.dfy` is the step system of one
  stream's threads, interleaved freely, with its invariant; `PipelineRuns.dfy` states what holds over every run.
  `SchedulerModel.dfy` and `InferScheduler.dfy` are the round-robin scheduler; `WorkerPool.dfy` puts any number of
  streams and workers together and shows that each stream's history is a run of the one-stream system.
  `Scenarios.dfy` holds concrete runs that contradict the documentation.
- **SEI messages.** `Bytes.dfy`, `MspPayload.dfy`, `SeiCodec.dfy` and `SeiInjector.dfy` are the encoder, each step
  paired with a decoder written from ITU-T H.264 (7.3.1, 7.4.1, 7.3.2.3.1, Annex B), ITU-T H.265 (7.3.1.1, 7.4.2,
  7.3.5, Annex B) and section 4.4 of the repository's MSP document.
- **Configuration.** `MergeRules.dfy` says what several configurations that mention one stream mean;
  `ConfigFilter.dfy` is the imperative merge; `ConfigArrival.dfy` says whose word counts when configurations arrive
  in any order. `Reconcile.dfy` says how a batch brings the running streams in line with the result, and
  `LateStops.dfy` what stop requests of single contexts do beside that, in any order; `PipelineConfig.dfy` is the class
  that does both.
- **Recorder.** `RecorderHistory.dfy` explains caches and files in terms of everything that was appended;
  `Recorder.dfy` is the class.
- **Alarm deduplication.** `AlarmDedup.dfy`.
- **Socket.** `ThreadSafeQueue.dfy`, `SocketFraming.dfy` and `SocketRuns.dfy`.

`Common.dfy` and `StreamTypes.dfy` hold shared types. From this directory,
`dafny verify --resource-limit 2000000 --verification-time-limit 0 dfyconfig.toml` checks everything in a few minutes.

Time, the clock, chunk sizes, the decoder's output, the detector's results, and the success of allocations, writes
and connections are inputs: a property holds whatever they are.

## Where the code does not do what its documentation or its intent says

Each of these is proved: an input or a run on which the intent is missed, and the exact condition under which it is met.

- `skills/modules/pipeline.md` (lines 30 and 41) says that no packet is published from the oldest decoded frame on
  before that frame is Done or Dropped. The gate holds back only frames that are Selected or Running
  (`Scenarios.GateLetsIdleFramesPass`). What it lets through obeys the rule exactly when the front frame is not
  decoded and Idle (`PipelineRuns.GateKeepsDocumentedRuleIff`). Line 40 also says that the gate waits for a decoded
  frame: it opens without one (`Scenarios.GateOpensWithoutDecodedFrame`), exactly when the front packet is audio or
  its frame came without an image and another video packet is queued (`PipelineRuns.GateWithoutDecodedFrameIff`).
- `src/pipeline/InferScheduler.h:30` promises one in-flight inference per stream. Finished tasks are matched by
  stream id only, so a stream that is removed and added again while a task of its is out can get two; a frame under
  inference is then released (`Scenarios.ReAddingABusyStreamLosesAFrame`). Adding a stream can lead to two tasks
  (`Scenarios.ReAddingIsSafeIffIdle`) and to the loss of a frame (`Scenarios.ReAddingLosesAFrameIff`) exactly when a
  task of the stream is out.
- `closeStream` forgets pending frames while their packets stay queued (`PipelineRuns.LostFrontIsReachable`). Such a
  packet can never pass the gate (`PipelineRuns.LostFrontBlocksForever`), and no frame from the lost one on is ever
  released (`PipelineRuns.NothingFromALostIdOn`); otherwise the gate opens (`PipelineRuns.GateOpensUnlessLost`).
- A stream whose transport changed is listed twice in `streams_to_start`, so two contexts are built for it. Its first
  one ends up running with nobody to stop it (`Reconcile.ANewUrlOrphansAContext`), exactly when neither of the two
  asked to be stopped while it was built (`Reconcile.OrphansOfABatch`, `Reconcile.NothingOrphanedIff`). When only the
  second one asked, as a failing publisher does, the stream stays registered without a scheduler entry
  (`Reconcile.AStreamLosesItsEntry`, `Reconcile.RegisteredWithoutScheduling`); once the requests are served, it does so
  when exactly one of the two asked (`Reconcile.UnscheduledInTheEndIff`).
- The scheduler forgets by stream id, whichever context a stop request came from. So an orphaned context that asks to
  be stopped later takes the entry of the running one away (`LateStops.ALateStopTakesTheEntry`): after a batch,
  whatever contexts ask to be stopped later, streams and scheduler agree in the end exactly when of every stream that
  moved both contexts had asked while they were built (`LateStops.LateStopsAreSafeIff`; for a given sequence of
  requests `LateStops.MatchedInTheEndIff`). A request that is still pending when a batch computes its diff does the
  same to the context built in its place (`LateStops.AStaleStopTakesTheEntry`, `LateStops.StaleStopIff`).
- A length-prefixed packet can be taken for Annex B, and the result then cannot be parsed as intended: with four-byte
  lengths exactly when its first NAL unit is 1 or 256 to 511 bytes long, with shorter lengths exactly when its first
  units have lengths that spell a start code (`SeiInjector.APacketIsMistaken`,
  `SeiInjector.WhenLengthsLookLikeStartCodes`, `SeiInjector.LengthPrefixedInjection`).
- The top angle code 65535 stands for 360 degrees, outside the documented range [0, 360): 359.999 degrees is sent as
  that code (`MspPayload.AnAngleLeavesTheRange`), and an angle stays in range exactly when, taken modulo 360, it is
  less than 65534.5 / 65535 of a full turn (`MspPayload.AngleStaysInRangeIff`).
- "Latest wins" in the merge means the largest configuration id, not the latest arrival
  (`ConfigArrival.AnEarlierArrivalWins`). On each aspect of a stream (transport, tracker, one named algorithm) an
  arrival that says something wins exactly when no larger id speaks of it or the largest that does says the same
  (`ConfigArrival.LatestArrivalWinsIff`), and wins whatever it says exactly when no larger id speaks of it
  (`ConfigArrival.LatestAlwaysWinsIff`).
- Enlarging the deduplication window can make pruning visible (`AlarmDedup.PruningShows`). Over any sequence of calls
  it is invisible for every memory and all detections in frames that show some exactly when no cutoff goes back
  (`AlarmDedup.PruningIsInvisibleIff`), and for a step that starts without memory exactly when no call forgets an alarm
  of an earlier one that a later one needs (`AlarmDedup.PruningIsInvisibleFromStartIff`).

## Model

| member | source | states |
|---|---|---|
| `BufferModel.LastCandidate` | src/pipeline/StreamBuffer.cpp:57-69 | the frame chosen is decoded and Idle, and one is chosen whenever one exists |
| `BufferModel.LastCandidateIsNewest` | src/pipeline/StreamBuffer.cpp:57-69 | no decoded Idle frame is newer than the one chosen |
| `BufferModel.InferringId` | src/pipeline/StreamBuffer.cpp:267-278 | the oldest decoded frame that is Selected or Running, none exactly when there is none |
| `BufferModel.PopCounts` | src/pipeline/StreamBuffer.cpp:154-163 | the counter guard in popPacket is never needed: the counter equals the video packets queued |
| `BufferModel.OperationsKeepCoherent` | src/pipeline/StreamBuffer.cpp:30-246 | every locked operation keeps frame_order_ a list of exactly the keys of frames_, and the counter equal to the queued video packets |
| `BufferModel.SelectMeans` | src/pipeline/StreamBuffer.cpp:54-103 | the newest decoded Idle frame becomes Selected, every other frame Done unless it was Dropped, and nothing else changes |
| `BufferModel.SetStateMeans` | src/pipeline/StreamBuffer.cpp:105-129 | one frame gets the state, everything else stays |
| `BufferModel.ReleaseForgetsOne` | src/pipeline/StreamBuffer.cpp:174-179 | a released id is gone from frames, order and cache, and only that id |
| `BufferModel.ReleaseKeepsOrder` | src/pipeline/StreamBuffer.cpp:174-179 | the frames before and after a released one keep their order |
| `BufferModel.GatePassesVideoIff` | src/pipeline/StreamBuffer.cpp:311-336 | for any watermark above zero, exactly when a video packet at the front of a buffer in order passes, in terms of queue and frames |
| `BufferModel.TakeMeans` | src/pipeline/StreamBuffer.cpp:189-223 | an unexpired result nearest in time within 9000 ticks if there is one, else the unexpired one of that id, else none; it leaves the cache with the expired ones and nothing else does |
| `BufferModel.StoredIsTaken` | src/pipeline/StreamBuffer.cpp:181-223 | a stored result can be had back: a take at its timestamp in time yields a result of that timestamp, this very one unless another has it too |
| `StreamBufferClass.StreamBuffer.EnqueuePacket` | src/pipeline/StreamBuffer.cpp:30-41 | a packet is appended and counted unless the buffer is stopped |
| `StreamBufferClass.StreamBuffer.EnqueueFrame` | src/pipeline/StreamBuffer.cpp:43-52 | a frame is stored under its id and put last in the order unless the buffer is stopped |
| `StreamBufferClass.StreamBuffer.FindCandidate` | src/pipeline/StreamBuffer.cpp:56-69 | the backwards search finds the newest decoded Idle frame |
| `StreamBufferClass.StreamBuffer.SupersedeOthers` | src/pipeline/StreamBuffer.cpp:77-92 | the sweep turns every other frame that is not terminal into Done and touches nothing else |
| `StreamBufferClass.StreamBuffer.SelectFrameForInference` | src/pipeline/StreamBuffer.cpp:54-103 | selection returns the newest decoded Idle frame as Selected with all others terminal, or changes nothing |
| `StreamBufferClass.StreamBuffer.MarkInferenceRunning` | src/pipeline/StreamBuffer.cpp:105-111 | sets one frame's state if it is still buffered |
| `StreamBufferClass.StreamBuffer.MarkInferenceDone` | src/pipeline/StreamBuffer.cpp:113-120 | marks the frame the result names, which is none for frame_id -1 |
| `StreamBufferClass.StreamBuffer.ClearInferenceSelection` | src/pipeline/StreamBuffer.cpp:122-129 | sets one frame's state if it is still buffered |
| `StreamBufferClass.StreamBuffer.CanPublishLocked` | src/pipeline/StreamBuffer.cpp:293-337 | the four gates, computed by its loops, for every buffer; audio always passes |
| `StreamBufferClass.StreamBuffer.PublishableNow` | src/pipeline/StreamBuffer.cpp:131-144 | the decision of waitForPublishable on waking |
| `StreamBufferClass.StreamBuffer.PeekPacket` | src/pipeline/StreamBuffer.cpp:146-152 | shows the packet that the next popPacket removes, and none only when there is none |
| `StreamBufferClass.StreamBuffer.PopPacket` | src/pipeline/StreamBuffer.cpp:154-163 | removes the front packet and keeps the counter right |
| `StreamBufferClass.StreamBuffer.FindFrame` | src/pipeline/StreamBuffer.cpp:165-172 | returns the bundle stored under the id |
| `StreamBufferClass.StreamBuffer.ReleaseFrame` | src/pipeline/StreamBuffer.cpp:174-179 | forgets frame, order entry and cached result of one id and nothing else |
| `StreamBufferClass.StreamBuffer.UpdateCachedInferenceResult` | src/pipeline/StreamBuffer.cpp:181-187 | caches a result under its id, replacing what was there, unless the id is negative; every other entry stays |
| `StreamBufferClass.StreamBuffer.PurgeExpired` | src/pipeline/StreamBuffer.cpp:361-369 | exactly the expired results go |
| `StreamBufferClass.StreamBuffer.TakeCachedInferenceResult` | src/pipeline/StreamBuffer.cpp:189-223 | removes and returns an unexpired result at minimal pts distance within 9000 ticks, else the unexpired one of that id, else nothing |
| `PullerModel.MatchIndex` | src/stream/RTSPPuller.cpp:253-282 | match by pts, else dts, else the oldest when the frame has neither |
| `PullerModel.DeliveriesConserveIds` | src/stream/RTSPPuller.cpp:245-310 | delivered ids followed by pending ids are the ids that were pending, and at most the last delivery has an image |
| `PullerModel.DeliveredBundles` | src/stream/RTSPPuller.cpp:219-307 | each bundle carries id and timestamp of its packet, is Idle, and only the last has an image, when the decoder delivered one |
| `PullerModel.TimestampsMatch` | src/stream/RTSPPuller.cpp:253-291 | a frame with a timestamp that a pending packet has is taken for the first such packet |
| `PullerModel.NoTimestampsMeanTheOldest` | src/stream/RTSPPuller.cpp:270-282 | a frame without timestamps is taken for the oldest pending packet |
| `RtspPullerClass.BatchConservesIds` | src/stream/RTSPPuller.cpp:293-310 | the same for a whole batch of decoded frames: each pending id once, in order |
| `RtspPullerClass.FindByPts` | src/stream/RTSPPuller.cpp:254-260 | the first pending entry with that pts |
| `RtspPullerClass.FindByDts` | src/stream/RTSPPuller.cpp:262-268 | the first pending entry with that dts |
| `RtspPullerClass.RTSPPuller.OnVideoPacket` | src/stream/RTSPPuller.cpp:171-188 | packet queued and remembered under the next id, which then advances |
| `RtspPullerClass.RTSPPuller.TakePendingVideoFrameMeta` | src/stream/RTSPPuller.cpp:245-291 | backfills the skipped frames in order and leaves exactly the later ones pending |
| `RtspPullerClass.RTSPPuller.PublishDecodedFrames` | src/stream/RTSPPuller.cpp:293-310 | a batch enqueues exactly its deliveries, in order |
| `RtspPullerClass.RTSPPuller.CloseStream` | src/stream/RTSPPuller.cpp:429-440 | pending metadata is dropped, the buffer is not touched |
| `StreamPipeline.NextKeepsInv` | src/pipeline/Pipeline.cpp:487-639 | every step of puller, worker and publisher keeps the invariant |
| `StreamPipeline.SelectSparesCleared` | src/pipeline/StreamBuffer.cpp:54-103 | a selection between gate and release never takes the frame the publisher was cleared to release |
| `StreamPipeline.DeliverHeld` | src/stream/RTSPPuller.cpp:219-243 | an enqueued frame is newer than every buffered one |
| `StreamPipeline.FrontIsBase` | src/pipeline/StreamBuffer.cpp:304-333 | a video packet at the front carries the oldest id not yet released |
| `PipelineRuns.RunKeepsInv` | src/pipeline/Pipeline.cpp:487-639 | the invariant holds in every state of every run |
| `PipelineRuns.ReleaseIsSafe` | src/pipeline/Pipeline.cpp:575-636 | releaseFrame always finds its frame and never removes one that is Selected, Running or owned by an unfinished task |
| `PipelineRuns.WorkerFindsItsFrame` | src/pipeline/Pipeline.cpp:496-525 | markInferenceRunning, a successful markInferenceDone and clearInferenceSelection always find the task's frame, in the state the worker left it in |
| `PipelineRuns.WorkerLeavesItsFrame` | src/pipeline/Pipeline.cpp:496-525 | the frame is Running while it infers, then Done if the result names it, Dropped if there was no inference, and still Running after a result that names no frame |
| `PipelineRuns.LocateFindsTheFrame` | src/pipeline/Pipeline.cpp:586-588 | findFrame for the packet being published never misses |
| `PipelineRuns.OneInferringIdleSuffix` | src/pipeline/StreamBuffer.cpp:54-103 | at most one frame is Selected or Running, and Idle frames are a suffix of frame_order_ |
| `PipelineRuns.SelectedAtMostOnce` | src/pipeline/StreamBuffer.cpp:54-129 | later selections take strictly newer frames, so no frame is selected twice, even when detect returns -1 |
| `PipelineRuns.NothingLostInTheQueue` | src/pipeline/Pipeline.cpp:576-635 | published packets followed by queued packets are the enqueued ones; every buffered frame's packet is queued or in the publisher's hand |
| `PipelineRuns.IdsArePartitioned` | src/stream/RTSPPuller.cpp:171-192 | every assigned id is released, buffered, owed by the puller or lost with its connection, exactly one of them |
| `PipelineRuns.IdsAreContiguous` | src/stream/RTSPPuller.cpp:245-310 | ids are released from 0 on without a gap, and while nothing was lost released, buffered and owed ids are all ids in order |
| `PipelineRuns.EnqueuedAtMostOnce` | src/stream/RTSPPuller.cpp:219-310 | frames are enqueued at most once, in strictly increasing id order, across reconnects |
| `PipelineRuns.ResultsHandedOutOnce` | src/pipeline/StreamBuffer.cpp:181-223 | over a run each stored result is taken at most once and never after it expired |
| `PipelineRuns.FramesCarryTheirPts` | src/stream/RTSPPuller.cpp:171-310 | in every state of every run each pending, delivered or buffered frame carries the timestamp of the packet pulled with its id |
| `PipelineRuns.StoredStays` | src/pipeline/StreamBuffer.cpp:174-223 | over any run a stored result stays cached until it is handed out, expires or its frame is released |
| `PipelineRuns.StoredResultReachesItsPacket` | src/pipeline/Pipeline.cpp:525-598 | a result stored for a frame is handed to the publisher with the packet of that frame if it has its timestamp and has neither expired nor been handed to another packet |
| `PipelineRuns.GateOpensIff` | src/pipeline/StreamBuffer.cpp:293-337 | in every state of every run without a packet in hand, exactly when the gate opens, in terms of queue, frames and their states |
| `PipelineRuns.GateOpensUnlessLost` | src/pipeline/StreamBuffer.cpp:293-337 | with a newer decoded frame buffered and no inference up to the front id, the gate opens if and only if the front id was not lost with a connection |
| `PipelineRuns.LostFrontIsReachable` | src/stream/RTSPPuller.cpp:429-440 | a run that ends with a lost id at the front: a packet is pulled and its connection closes |
| `PipelineRuns.LostFrontBlocksForever` | src/stream/RTSPPuller.cpp:429-430 | a lost id at the front keeps the gate shut in every later state |
| `PipelineRuns.NothingFromALostIdOn` | src/stream/RTSPPuller.cpp:429-430 | from the moment an id is lost, no frame from it on is released in any later state |
| `PipelineRuns.GateKeepsDocumentedRuleIff` | skills/modules/pipeline.md:30-41 | in every state of every run in which the gate lets a video packet through, the documented rule holds if and only if the front frame is not decoded and Idle |
| `PipelineRuns.GateWithoutDecodedFrameIff` | skills/modules/pipeline.md:40 | in every state of every run without a decoded frame, exactly when the gate opens all the same |
| `PipelineRuns.NoStarvation` | src/pipeline/StreamBuffer.cpp:255-265 | once there is a decoded frame, or a queued video packet, there always is one |
| `SchedulerModel.AtIsModulo` | src/pipeline/InferScheduler.cpp:111-126 | the scan positions and the next cursor are the source's remainders |
| `SchedulerModel.OperationsKeepWellFormed` | src/pipeline/InferScheduler.cpp:14-135 | order_ stays free of duplicates and equal to the entry keys, the cursor in range |
| `SchedulerModel.AcquireComesCloser` | src/pipeline/InferScheduler.cpp:106-135 | an acquisition that passes a ready stream by serves another one and comes strictly closer to it |
| `SchedulerModel.AcquireServesReady` | src/pipeline/InferScheduler.cpp:106-135 | a ready stream is served if there is one, it alone is flagged, and the cursor moves behind it; otherwise nothing changes |
| `SchedulerModel.BoundedBypass` | src/pipeline/InferScheduler.cpp:106-135 | a stream ready at every acquisition is served within the size of order_ acquisitions |
| `InferSchedulerClass.RoundRobinInferScheduler.UpsertStream` | src/pipeline/InferScheduler.cpp:14-25 | configuration and buffer replaced, the in-flight flag kept, the id listed once |
| `InferSchedulerClass.RoundRobinInferScheduler.RemoveStream` | src/pipeline/InferScheduler.cpp:27-35 | entry and order position gone, cursor back in range |
| `InferSchedulerClass.RoundRobinInferScheduler.FinishTask` | src/pipeline/InferScheduler.cpp:73-91 | clears the flag of whatever entry has the stream id |
| `InferSchedulerClass.ReadyMeans` | src/pipeline/InferScheduler.cpp:111-123 | a stream is ready exactly when it has no task out and its buffer holds a decoded Idle frame |
| `InferSchedulerClass.RoundRobinInferScheduler.SelectFromFirstReady` | src/pipeline/InferScheduler.cpp:111-123 | the scan stops at the first idle stream whose buffer yields a frame and leaves all other buffers alone |
| `InferSchedulerClass.RoundRobinInferScheduler.TryAcquireLocked` | src/pipeline/InferScheduler.cpp:106-135 | serves the first ready stream at or after the cursor, marks it in flight and moves the cursor past it, or changes nothing |
| `WorkerPool.PoolKeepsInv` | src/pipeline/InferScheduler.cpp:73-135 | without re-adding, each stream has at most one task out and its flag says so |
| `WorkerPool.EventRefines` | src/pipeline/Pipeline.cpp:487-570 | an event of the pool is one step of one stream's system, or invisible to it |
| `WorkerPool.EveryContextRuns` | src/pipeline/Pipeline.cpp:487-639 | with any number of streams and workers each stream's history is a run of the one-stream system |
| `WorkerPool.PoolReleaseIsSafe` | src/pipeline/Pipeline.cpp:632-635 | no release in the pool takes a frame under inference or owned by any worker's unfinished task |
| `Scenarios.GateLetsIdleFramesPass` | skills/modules/pipeline.md:30-41 | a run after which the oldest decoded frame is Idle and its packet may be published |
| `Scenarios.GateOpensWithoutDecodedFrame` | skills/modules/pipeline.md:40 | a run after which a video packet may be published although no decoded frame was ever buffered |
| `Scenarios.ReAddingABusyStreamLosesAFrame` | src/pipeline/InferScheduler.cpp:73-81 | a run with a stream re-added while its task is out whose last event releases a buffered frame that a worker has yet to infer on |
| `Scenarios.ReAddingIsSafeIffIdle` | src/pipeline/InferScheduler.h:30 | after a stream is added, some continuation without further busy re-adding gives two workers tasks of it if and only if a task of it was out |
| `Scenarios.ReAddingLosesAFrameIff` | src/pipeline/InferScheduler.cpp:73-81 | after a stream is added in a run, some continuation without further busy re-adding comes to the release of an unfinished task's frame if and only if a task of it was out |
| `Bytes.BeRoundTrip` | src/stream/SeiInjector.cpp:61-71 | big-endian 16 and 32 bit values read back |
| `Bytes.BigEndian` | src/stream/SeiInjector.cpp:61-71 | the most significant byte comes first |
| `MspPayload.UnitCodesAreFaithful` | src/stream/SeiInjector.cpp:73-83 | the dequantized value is within half a step of the clamped one, and re-encoding gives the same code |
| `MspPayload.ClampIsNearest` | src/stream/SeiInjector.cpp:73-83 | clamping takes the nearest number from 0 to 1 |
| `MspPayload.NormalizeIsModulo` | src/stream/SeiInjector.cpp:85-92 | normalizing takes off a whole number of turns and ends in [0, 360) |
| `MspPayload.AngleCodesAreFaithful` | src/stream/SeiInjector.cpp:85-92 | within half a step of the angle modulo 360; in range and stable if and only if the code is not 65535 |
| `MspPayload.AngleStaysInRangeIff` | src/stream/SeiInjector.cpp:85-92 | which angles are sent as a value below 360 degrees: exactly those that do not round up to a full turn |
| `MspPayload.AnAngleLeavesTheRange` | src/stream/SeiInjector.cpp:85-92 | 359.999 degrees is read back as 360 |
| `MspPayload.BboxOf` | src/stream/SeiInjector.cpp:102-126 | the name on the wire is a non-empty prefix of at most 237 bytes and the item size fits a byte |
| `MspPayload.TextOf` | src/stream/SeiInjector.cpp:128-148 | the text on the wire is a prefix of at most 235 bytes and the item size fits a byte |
| `MspPayload.AppendMspBboxItem` | src/stream/SeiInjector.cpp:102-126 | appends exactly the wire form of the box, nothing before it changes |
| `MspPayload.AppendMspTextOsdItem` | src/stream/SeiInjector.cpp:128-148 | appends exactly the wire form of the text |
| `MspPayload.KeptItems` | src/stream/SeiInjector.cpp:190-196 | boxes then texts, the first 255 of them, all of which fit |
| `MspPayload.BuildMspV1UserDataPayload` | src/stream/SeiInjector.cpp:177-201 | the two bounded loops produce the payload of the kept items with their count filled in |
| `MspPayload.ReadsBboxHead` | docs/metadata-over-sei-protocol.txt:173-184 | every fixed field of a box is where the document puts it |
| `MspPayload.ReadsTextHead` | docs/metadata-over-sei-protocol.txt:234-246 | every fixed field of a text is where the document puts it |
| `MspPayload.PayloadReadsBack` | docs/metadata-over-sei-protocol.txt:333-360 | a receiver that makes all the required checks reads exactly the kept items, nothing left over; the length is 20 plus the sum of 2 plus each item size |
| `MspPayload.PayloadBegins` | docs/metadata-over-sei-protocol.txt:69-360 | UUID, version 1, two reserved zeros, and the count of boxes and texts up to 255 |
| `MspPayload.KeepsSomethingIff` | src/stream/SeiInjector.cpp:177-201 | a message holds items exactly when there is a box or a text |
| `MspPayload.ReceiverSeesTheBox` | src/stream/SeiInjector.cpp:102-126 | the receiver's view of each detection: id saturated, name cut or "unknown", distance 0, every quantity within half a step |
| `MspPayload.ReceiverSeesTheText` | src/stream/SeiInjector.cpp:128-148 | the receiver's view of each text for which there is room: fields and colours kept, text cut, position and size within half a step |
| `SeiCodec.ToEbsp` | src/stream/SeiInjector.cpp:158-175 | the loop over zero_count computes the escaped string |
| `SeiCodec.UnescapeInvertsEscape` | src/stream/SeiInjector.cpp:158-175 | the standards' removal of emulation prevention inverts it for every byte string |
| `SeiCodec.EscapeConforms` | src/stream/SeiInjector.cpp:158-175 | the output holds no 000000, 000001 or 000002, and 000003 only before a byte of at most 3 |
| `SeiCodec.EscapeIsShort` | src/stream/SeiInjector.cpp:158-175 | the output is at most half longer and keeps the last byte |
| `SeiCodec.AppendSeiLength` | src/stream/SeiInjector.cpp:150-156 | the loop appends the ff-coded value |
| `SeiCodec.ReadsFfCoded` | src/stream/SeiInjector.cpp:150-156 | the ff_byte loop of sei_message reads it back and stops where it ends |
| `SeiCodec.BuildSeiNal` | src/stream/SeiInjector.cpp:203-232 | both NAL builders produce header plus escaped SEI RBSP |
| `SeiCodec.SeiNalReadsBack` | src/stream/SeiInjector.cpp:203-232 | a decoder of either standard gets payload type 5 and exactly the payload |
| `SeiCodec.SeiNalConforms` | src/stream/SeiInjector.cpp:203-232 | the whole NAL unit is free of start codes and does not end in zero |
| `SeiInjector.SplitsInFront` | src/stream/SeiInjector.cpp:234-240 | a framed conforming unit in front of a byte stream is its first unit, the others unchanged |
| `SeiInjector.AppendNalLength` | src/stream/SeiInjector.cpp:55-59 | the shifting loop writes the value big-endian |
| `SeiInjector.FromBeBytes` | src/stream/SeiInjector.cpp:55-59 | a length that fits its bytes reads back |
| `SeiInjector.ToLengthPrefixedNal` | src/stream/SeiInjector.cpp:242-259 | length and unit when the length size is 1 to 4 and the length fits, otherwise empty |
| `SeiInjector.Inject` | src/stream/SeiInjector.cpp:265-312 | exactly when it succeeds; with a box or a text an Annex B receiver gets a unit with the kept items and then the source's units, a receiver of length-prefixed units likewise, and without either the output is the source |
| `SeiInjector.HasItemsIff` | src/stream/SeiInjector.cpp:274-276 | the early return is taken exactly when the message would hold no item |
| `SeiInjector.AnnexBInjection` | src/stream/SeiInjector.cpp:283-305 | for every Annex B source and both codecs, splitting gives the SEI unit, which decodes to the kept items, and then the source's units |
| `SeiInjector.LengthPrefixedInjection` | src/stream/SeiInjector.cpp:283-305 | for every well-formed length-prefixed source, parsing gives the SEI unit and then the source's units if and only if the source is not taken for Annex B |
| `SeiInjector.WhenLengthsLookLikeStartCodes` | src/stream/SeiInjector.cpp:47-53 | for each length size which unit lengths make a packet look like Annex B: with 4 bytes, a first unit of 1 or 256 to 511 bytes |
| `SeiInjector.APacketIsMistaken` | src/stream/SeiInjector.cpp:47-53 | a packet of one 256-byte unit with a 4-byte length is taken for Annex B |
| `SeiInjector.SeiNalAlwaysFits` | src/stream/SeiInjector.cpp:242-259 | the SEI unit always fits 3 and 4 byte lengths |
| `MergeRules.Kept` | src/pipeline/ConfigFilter.cpp:133-165 | which algorithms keep a place: the anonymous ones and the first of each id |
| `MergeRules.NamesAreUnique` | src/pipeline/ConfigFilter.cpp:142-164 | no id occurs twice in a merged list |
| `MergeRules.NamesAreCovered` | src/pipeline/ConfigFilter.cpp:142-164 | an id occurs in the merged list if and only if it was mentioned |
| `MergeRules.MergeNewOne` | src/pipeline/ConfigFilter.cpp:137-148 | an anonymous or new algorithm is appended |
| `MergeRules.MergeNamesake` | src/pipeline/ConfigFilter.cpp:150-163 | a known one replaces its namesake in place |
| `MergeRules.AnonymousAllKept` | src/pipeline/ConfigFilter.cpp:137-140 | no anonymous algorithm is dropped, repeated or reordered |
| `MergeRules.MergingIsIdempotent` | src/pipeline/ConfigFilter.cpp:206-226 | merging a merged stream again changes nothing |
| `MergeRules.StreamsOfOneMore` | src/pipeline/ConfigFilter.cpp:262-264 | configurations are merged by ascending id |
| `MergeRules.AskedForIff` | src/pipeline/ConfigFilter.cpp:264-310 | a stream is in the result if and only if some configuration has it enabled, with an id and a source |
| `MergeRules.ResultIsEnabled` | src/pipeline/ConfigFilter.cpp:264-318 | every stream of the result is enabled, has its key for an id and has a source |
| `MergeRules.DisabledLeaveNoTrace` | src/pipeline/ConfigFilter.cpp:265-267 | deleting all disabled streams from the configurations does not change the result |
| `MergeRules.MergedIsTheLastMention` | src/pipeline/ConfigFilter.cpp:168-226 | but for algorithms and tracker the merged stream equals its last mention |
| `MergeRules.MergedTracker` | src/pipeline/ConfigFilter.cpp:189-226 | its tracker is that of the last mention that has one |
| `MergeRules.AlgorithmAskedForIff` | src/pipeline/ConfigFilter.cpp:133-165 | a named algorithm is in a stream of the result if and only if some configuration that asks for the stream names it |
| `ConfigArrival.LatestOfEachIdIsKept` | src/pipeline/Pipeline.cpp:130-145 | after any arrivals each id holds its latest configuration that is for this agent, and nothing else is kept |
| `ConfigArrival.LargestIdWins` | src/pipeline/ConfigFilter.cpp:258-318 | on transport, tracker and each named algorithm of a stream the result holds the word of the largest configuration id that has one, and none if none has |
| `ConfigArrival.LatestArrivalWinsIff` | src/pipeline/Pipeline.cpp:137-139 | an arrival's word is in the result if and only if no larger id speaks of that aspect, or the largest that does says the same |
| `ConfigArrival.LatestAlwaysWinsIff` | src/pipeline/Pipeline.cpp:137-139 | every possible arrival with an id wins if and only if no larger id says anything on that aspect of the stream |
| `ConfigArrival.AnEarlierArrivalWins` | src/pipeline/Pipeline.cpp:137-139 | configuration 2 arrives before configuration 1 and its url is the one in force |
| `ConfigFilter.SameAlgorithms` | src/pipeline/ConfigFilter.cpp:40-51 | the comparison loop decides equality of the lists |
| `ConfigFilter.SameTransportMeans` | src/pipeline/ConfigFilter.cpp:16-38 | two configurations have the same transport exactly when they are equal up to algorithms, tracker and deduplication interval |
| `ConfigFilter.IsSameRuntime` | src/pipeline/ConfigFilter.cpp:249-252 | the runtime relation is equality of the whole configuration |
| `ConfigFilter.StreamMergeState.MergeAlgorithms` | src/pipeline/ConfigFilter.cpp:133-165 | the loop computes the merged list, the index map agreeing with the vector throughout |
| `ConfigFilter.StreamMergeState.MergeTracker` | src/pipeline/ConfigFilter.cpp:189-204 | the three tracker fields encode the last explicit tracker message |
| `ConfigFilter.StreamMergeState.Finalize` | src/pipeline/ConfigFilter.cpp:206-226 | last transport, merged algorithms, last explicit tracker |
| `ConfigFilter.MergeStream` | src/pipeline/ConfigFilter.cpp:264-310 | streams that are disabled or lack id or url leave the states as they are; any other is merged into its own state, made if need be, and no other |
| `ConfigFilter.BuildMergedStreams` | src/pipeline/ConfigFilter.cpp:258-318 | the imperative merge equals its declarative meaning for every set of configurations, and asks for exactly the streams some configuration has enabled |
| `Reconcile.StartAllScheduled` | src/pipeline/Pipeline.cpp:305-326 | a stream built several times is scheduled as its last build left it |
| `Reconcile.StartAllRegistered` | src/pipeline/Pipeline.cpp:228-240 | and registered as its last successful build |
| `Reconcile.UnchangedTransportIsUndisturbed` | src/pipeline/Pipeline.cpp:326-366 | a stream with the same transport keeps its context and scheduler entry, updated when its configuration differs, whatever builds succeed |
| `Reconcile.RebuiltIff` | src/pipeline/Pipeline.cpp:199-217 | a running stream is stopped and built anew if and only if what is asked for differs in something other than algorithms, tracker and deduplication interval |
| `Reconcile.DetectorReplacedIffAlgorithmsChanged` | src/pipeline/Pipeline.cpp:336-356 | a running stream asked for with the same transport is not restarted, and its detector is replaced if and only if its algorithms changed |
| `Reconcile.BatchAchievesDesired` | src/pipeline/Pipeline.cpp:182-248 | when all builds succeed the registry runs exactly the desired streams, context, scheduler entry and buffer agreeing |
| `Reconcile.SameBatchChangesNothing` | src/pipeline/Pipeline.cpp:182-248 | the same batch again stops, updates and starts nothing |
| `Reconcile.OrphansOfABatch` | src/pipeline/Pipeline.cpp:199-240 | whichever contexts asked to be stopped, the contexts that nobody will stop are the old ones of that kind and the first ones built for streams whose transport changed, when neither of the two asked |
| `Reconcile.NothingOrphanedIff` | src/pipeline/Pipeline.cpp:199-217 | a batch orphans nobody if and only if of every stream whose transport changed one of the two new contexts asked to be stopped |
| `Reconcile.ANewUrlOrphansAContext` | src/pipeline/Pipeline.cpp:199-217 | a registry and a new url after which a running context is orphaned although nothing failed |
| `Reconcile.RegisteredWithoutScheduling` | src/pipeline/Pipeline.cpp:228-240 | a stream is registered without a scheduler entry if and only if its transport changed and of its two new contexts only the second was flagged to stop |
| `Reconcile.UnscheduledInTheEndIff` | src/pipeline/Pipeline.cpp:164-178 | after the pending stops too, if and only if its transport changed and exactly one of the two was flagged |
| `Reconcile.AStreamLosesItsEntry` | src/pipeline/Pipeline.cpp:228-240 | a registry, a new url and a flagged second context after which the stream is registered without a scheduler entry |
| `LateStops.AnyInterleaving` | src/pipeline/Pipeline.cpp:368-385 | under every interleaving of stop requests and serving the streams reflect all requests and the scheduler those served |
| `LateStops.MatchedInTheEndIff` | src/pipeline/Pipeline.cpp:164-173 | once all is served streams and scheduler agree if and only if no orphaned context asked whose stream id is still registered |
| `LateStops.LateStopsAreSafeIff` | src/pipeline/Pipeline.cpp:368-385 | after a batch, for all later requests streams and scheduler agree in the end if and only if of every stream that moved both new contexts had asked to be stopped |
| `LateStops.StaleStopIff` | src/pipeline/Pipeline.cpp:164-178 | with requests pending at the diff, exactly which registered streams end without a scheduler entry |
| `LateStops.ALateStopTakesTheEntry` | src/pipeline/Pipeline.cpp:368-385 | a registry and a new url after which some later request is unsafe |
| `LateStops.AStaleStopTakesTheEntry` | src/pipeline/Pipeline.cpp:164-178 | a running stream that asks to be stopped before the same configuration comes again ends registered and unscheduled |
| `PipelineConfig.Pipeline.StopStream` | src/pipeline/Pipeline.cpp:641-649 | the context stops and the scheduler forgets its id |
| `PipelineConfig.Pipeline.UpdateStreamRuntime` | src/pipeline/Pipeline.cpp:326-366 | configuration updated in context and scheduler |
| `PipelineConfig.Pipeline.BuildStreamContext` | src/pipeline/Pipeline.cpp:250-324 | a fresh context with its scheduler entry, older contexts untouched |
| `PipelineConfig.Pipeline.StartStream` | src/pipeline/Pipeline.cpp:228-240 | the new context is registered unless it asked to be stopped, and then it is stopped, its id unscheduled and its request pending |
| `PipelineConfig.Pipeline.DiffRunning` | src/pipeline/Pipeline.cpp:189-211 | who is stopped, updated and moved, each once, and that exactly the stopped are erased |
| `PipelineConfig.Pipeline.FindMissing` | src/pipeline/Pipeline.cpp:213-217 | the desired streams not running after the erasures |
| `PipelineConfig.Pipeline.ApplyConfigBatch` | src/pipeline/Pipeline.cpp:182-248 | the imperative diff carries out a correct plan for the merged configuration, and the flagged contexts are pending afterwards |
| `PipelineConfig.Pipeline.HandleSocketConfig` | src/pipeline/Pipeline.cpp:130-145 | a configuration for this agent replaces the one with its id, one for another agent changes nothing |
| `PipelineConfig.Pipeline.RequestAsyncStopStream` | src/pipeline/Pipeline.cpp:368-385 | the first request of a context flags it, unregisters it if it is the registered one of its id and makes it pending |
| `PipelineConfig.Pipeline.ServePendingStops` | src/pipeline/Pipeline.cpp:167-173 | every pending context is stopped and nothing is pending |
| `PipelineConfig.Pipeline.MainLoopRound` | src/pipeline/Pipeline.cpp:149-178 | pending stops are served before the batch, which happens exactly when a configuration arrived, and the registry stays in order |
| `RecorderHistory.GopOneMore` | src/stream/Recorder.cpp:163-180 | one more packet changes the current GOP as cachePacket does |
| `RecorderHistory.GopIsWholeIff` | src/stream/Recorder.cpp:163-180 | the cache is the whole GOP since the last keyframe if and only if no copy failed in it |
| `RecorderHistory.IsVideoMeans` | src/stream/Recorder.cpp:156-161 | the first track with the packet's index decides; with distinct indices, whether a video track has it |
| `RecorderHistory.CachingMeans` | src/stream/Recorder.cpp:163-180 | a flagged video packet starts the cache anew; one that is not flagged or of no video track never does |
| `RecorderHistory.CacheBeginsWithAKeyframe` | src/stream/Recorder.cpp:163-180 | over any history a cache that is not empty begins with a flagged packet of a video track |
| `RecorderHistory.FilesBeginWithAKeyframe` | src/stream/Recorder.cpp:109-124 | and so does every file opened with one |
| `RecorderHistory.FilesAreSlices` | src/stream/Recorder.cpp:109-142 | while copies succeed each file is one contiguous slice of the append history from the last keyframe before it was opened, with no gap or repetition where cache and live packets meet |
| `RecorderHistory.Deadline` | src/stream/Recorder.cpp:99-101 | never before any accepted request would end, and the end of one of them |
| `RecorderHistory.UntilMeans` | src/stream/Recorder.cpp:99-101 | a request asks for its own seconds, and for ten at least |
| `RecorderClass.Recorder.Configure` | src/stream/Recorder.cpp:60-92 | new parameters close the file and clear the cache, equal ones keep both |
| `RecorderClass.SameSpecsMeans` | src/stream/Recorder.cpp:21-37 | tracks are the same when they differ in the frame rate only |
| `RecorderClass.Recorder.RequestRecording` | src/stream/Recorder.cpp:94-107 | the request is remembered, a new file begins with the cached GOP, an open one goes on |
| `RecorderClass.Recorder.Start` | src/stream/Recorder.cpp:109-124 | exactly when starting succeeds; a failed flush closes the file |
| `RecorderClass.Recorder.FlushCachedGop` | src/stream/Recorder.cpp:186-197 | the file holds the cached GOP, or a prefix of it when a write failed |
| `RecorderClass.Recorder.WritePacket` | src/stream/Recorder.cpp:199-254 | a packet of a known track is appended to the file, otherwise nothing is |
| `RecorderClass.Recorder.IsVideoPacket` | src/stream/Recorder.cpp:156-161 | the search decides whether the packet belongs to a video track |
| `RecorderClass.Recorder.CachePacket` | src/stream/Recorder.cpp:163-180 | the cache stays the current GOP of the history: a keyframe of a video track restarts it, no other packet does |
| `RecorderClass.Recorder.CloseExpired` | src/stream/Recorder.cpp:144-148 | closes exactly when the deadline passed, and then no accepted request asked for more |
| `RecorderClass.Recorder.AppendPacket` | src/stream/Recorder.cpp:126-142 | expiry, cache and file after a packet, and that every file stays explained by the history |
| `RecorderClass.Recorder.Close` | src/stream/Recorder.cpp:256-287 | the file is finished, deadline and requests are forgotten |
| `AlarmDedup.WindowMs` | src/detector/AlgoDetectorWorkflow.cpp:57-63 | the window is always positive |
| `AlarmDedup.PruneEntries` | src/detector/AlgoDetectorWorkflow.cpp:236-257 | erasing while iterating removes exactly the entries at or before the cutoff |
| `AlarmDedup.DeduplicateAlarmStep.ShouldKeepObject` | src/detector/AlgoDetectorWorkflow.cpp:259-283 | a tracked object is suppressed only by its own last alarm, any other detection by that of its class, and only that memory changes |
| `AlarmDedup.DeduplicateAlarmStep.RunStep` | src/detector/AlgoDetectorWorkflow.cpp:199-234 | the alarms of a frame and the new memory, an empty frame changing nothing |
| `AlarmDedup.KeysTellApart` | src/detector/AlgoDetectorWorkflow.cpp:263-283 | tracked objects are told apart by their ids, everything else by class, and the two never share a key |
| `AlarmDedup.FirstFrameRaisesEachThingOnce` | src/detector/AlgoDetectorWorkflow.cpp:199-283 | of its first frame a step raises the first detection of each tracked object and of each class of untracked ones, and nothing else |
| `AlarmDedup.RepeatedAfterTheInterval` | src/detector/AlgoDetectorWorkflow.cpp:57-63 | the same detection is an alarm again exactly when the configured seconds have passed, or five when they are not positive |
| `AlarmDedup.PruningIsInvisible` | src/detector/AlgoDetectorWorkflow.cpp:236-257 | over any run whose cutoffs do not go back, pruning changes no decision compared with never pruning |
| `AlarmDedup.PruningIsInvisibleIff` | src/detector/AlgoDetectorWorkflow.cpp:236-257 | for any sequence of times and windows, pruning changes no decision for any memory and any detections if and only if no cutoff is before the preceding one |
| `AlarmDedup.PruningIsInvisibleFromStartIff` | src/detector/AlgoDetectorWorkflow.cpp:199-257 | the same for a step that starts without memory: if and only if no call forgets an alarm of an earlier one that a later one needs |
| `AlarmDedup.PruningShows` | src/detector/AlgoDetectorWorkflow.cpp:236-257 | two calls and a memory whose decisions change by pruning, whenever the cutoff goes back |
| `AlarmDedup.RunsFollowTheRule` | src/detector/AlgoDetectorWorkflow.cpp:199-283 | a detection becomes an alarm if and only if its key raised none less than a window ago in the whole history |
| `AlarmDedup.AlarmsAreSpaced` | src/detector/AlgoDetectorWorkflow.cpp:199-283 | over every run of the step in which time does not go back, however the window changes, two alarms of one key are at least the smallest window apart |
| `AlarmDedup.AlarmsAreSecondsApart` | src/detector/AlgoDetectorWorkflow.cpp:199-283 | with an interval of at least s seconds configured all along, alarms of one key are at least 1000 s milliseconds apart |
| `ThreadSafeQueueClass.ThreadSafeQueue.Push` | src/common/ThreadSafeQueue.h:29-41 | appends, dropping and counting the oldest when full |
| `ThreadSafeQueueClass.ThreadSafeQueue.Pop` | src/common/ThreadSafeQueue.h:48-68 | the oldest element, or none |
| `SocketFraming.WriteAll` | src/ipc/SocketSender.cpp:143-165 | under any sizes returned by send, all bytes in order, or a proper prefix on failure |
| `SocketFraming.SendRaw` | src/ipc/SocketSender.cpp:132-141 | exactly one frame, or a proper prefix of it on failure |
| `SocketFraming.FrameMeans` | src/ipc/SocketSender.cpp:132-141 | a frame is DE AD BE EF, the length in four bytes most significant first, and the payload |
| `SocketFraming.ReadAll` | src/ipc/SocketSender.cpp:168-192 | under any sizes returned by recv, exactly the next bytes; fails if and only if too few arrive |
| `SocketFraming.RecvLoop` | src/ipc/SocketSender.cpp:195-234 | delivers what the stream deframes to, whatever the chunks |
| `SocketFraming.DeliveredExactlyIff` | src/ipc/SocketSender.cpp:132-234 | what is sent is what is delivered if and only if every payload has 1 byte to 4 MiB |
| `SocketFraming.DeliveredBefore` | src/ipc/SocketSender.cpp:195-234 | payloads before the first undeliverable one arrive |
| `SocketFraming.UndeliverableFirst` | src/ipc/SocketSender.cpp:211-220 | an empty or too long payload is never delivered as itself |
| `SocketRuns.StepKeepsInv` | src/ipc/SocketSender.cpp:132-234 | every push, pop, send and receive keeps the bytes under way equal to the frames not yet delivered |
| `SocketRuns.QueueStepsAreTheQueues` | src/common/ThreadSafeQueue.h:29-68 | the queue steps of the system are the queue's own Push and Pop |
| `SocketRuns.DeliveryIsExact` | src/ipc/SocketSender.cpp:132-234 | under every interleaving and chunking delivery is in push order without repetition, and pushed equals delivered plus queued plus dropped when nothing is under way |
| `SocketRuns.EveryPushHasOneFate` | src/common/ThreadSafeQueue.h:29-68 | each push is queued, taken or dropped, exactly one of them |

## Left out

- BufferModel.CanPublish: the branch for a null front packet is not modelled, because enqueuePacket refuses null packets and nothing else fills the queue.
- StreamBufferClass.StreamBuffer.PublishableNow: condition variables, timeouts and wake-ups; only the decision on waking is modelled.
- InferSchedulerClass.RoundRobinInferScheduler.TryAcquireLocked: one attempt under the mutex; the waiting loop of acquireTask is not modelled, nor is fairness while streams are removed, since removal shifts positions without moving the cursor.
- PipelineRuns.GateOpensUnlessLost: progress is stated for the gate; that the publisher thread is scheduled and that the decoder eventually delivers are not modelled.
- StreamPipeline.NextKeepsInv: a packet whose copy fails in pullLoop never enters the system, and the decoder is any source of frames.
- WorkerPool.EveryContextRuns: streams are assumed not to be added again while a task of theirs is out; without that the statement is false, as Scenarios shows.
- MspPayload.UnitCodesAreFaithful: quantization is over real numbers; the rounding of binary floating point and NaN are not modelled.
- MspPayload.BboxOf: cutting a name may split a multi-byte character, as in the source; encodings are not modelled.
- SeiInjector.Inject: the branch for an empty payload is omitted, because a payload always has at least 20 bytes; allocation and property copying are inputs.
- Reconcile.BatchAchievesDesired: assumes that every build succeeds, as the property is meant; RegisteredWithoutScheduling covers contexts that ask to be stopped before they are registered, LateStops later requests. Thread joins and detector initialization failures are not modelled.
- PipelineConfig.Pipeline.MainLoopRound: a batch is one step; requests of contexts that were there before it, made while it runs, count as made before its diff or after its end.
- PipelineConfig.Pipeline.BuildStreamContext: the branch for a puller that does not start (Pipeline.cpp:309-321) is omitted, because RTSPPuller::start (RTSPPuller.cpp:96-103) always returns true.
- ConfigArrival.LatestArrivalWinsIff: the result is the merge of all that has arrived; that the main loop may merge several arrivals at once changes only when it is computed.
- PipelineConfig.Pipeline.ApplyConfigBatch: contexts are named by handles into an explicit store, which captures sharing but not destruction; the runtime configuration is assigned together with the rest of the update, not in the locked section before it. Iteration over the ordered maps is in any order.
- ConfigFilter.StreamMergeState.Merge: the fields that only feed log messages (source configuration ids) are not modelled.
- RecorderHistory.FilesAreSlices: timestamps are carried along unchanged, so the rebasing to the first timestamp and the time bases are not modelled; file names, the muxer and renaming are not modelled.
- RecorderClass.Recorder.Configure: the time base of a track takes no part in the comparison, as in the source.
- AlarmDedup.DeduplicateAlarmStep.RunStep: the branch for a window of zero or less is omitted, because WindowMs is always positive; tracking and the other workflow steps are not modelled.
- ThreadSafeQueueClass.ThreadSafeQueue.constructor: a capacity of at least one is required, because with zero the source pops an empty queue; reset and clear are not modelled.
- SocketFraming.ReadAll: a retry after EINTR has no effect and is not modelled; reconnecting, heartbeats and the protobuf messages inside the frames are not modelled.
- Snapshots, RTSP publishing, MPP decoding, ByteTrack, statistics, logging, command line and packaging are not modelled.
- Integers are unbounded, except where a width matters (bytes, big-endian fields, item counts, the 32-bit length of a frame).
