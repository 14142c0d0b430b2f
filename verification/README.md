# StrixCam firmware: verified models

Dafny 4.11 models of the concurrent and arithmetic core of the StrixCam camera firmware, with
proofs. `dafny verify dfyconfig.toml` checks everything. A class keeps the fields that the C++
class updates in place; each of its methods is proved against a function on the class's value,
and the theorems are about runs of those functions. A lock-held section is one step. Calls into
code outside the repository (D-Bus, GStreamer, the disk, `dnsmasq`) are parameters that say how
they turned out.

| file | what it models |
|---|---|
| `ChunkFraming.dfy`, `ChunkAssembler.dfy` | BLE chunks, and the assembler with its three containers |
| `ChunkReassembly.dfy` | reassembly over arbitrary traffic: confluence, eviction, repeated delivery |
| `ChunkOutbound.dfy` | stop-and-wait sending over arbitrary acks |
| `ChunkLink.dfy`, `ChunkCapacity.dfy` | two endpoints over a link that loses, duplicates and reorders; the exact delivery guarantee |
| `FrameBuffers.dfy` | the drop-oldest ring and the latest-only slot |
| `RawCaptureSink.dfy` | capture threads, writer threads and `Stop` as one interleaved system |
| `Pipeline.dfy` | producers, consumer and snapshot as one interleaved system |
| `FrameCompositor.dfy` | overlay blending: letterbox geometry and the in-place loops |
| `FramePlanes.dfy` | plane carving and materializing |
| `SessionManager.dfy`, `SessionHistory.dfy` | the session phases, the score, and what every run keeps |
| `RecordingService.dfy`, `StreamingService.dfy`, `ControlPlane.dfy` | recorder, streams, and the handlers that couple them with the session |
| `OverlayText.dfy`, `OverlayScene.dfy`, `OverlayController.dfy` | placeholder filling, scene building, push-on-change |
| `Decimal.dfy`, `RawCaptureNaming.dfy` | raw capture file names |
| `Frames.dfy` | captured frames and overlay pictures |
| `Arithmetic.dfy`, `Sequences.dfy`, `Wrappers.dfy` | shared arithmetic, sequences and subsequences, the optional value |

What the proofs bring to light:

- A transfer that `OnAck` reports complete has been delivered, in every run without a disconnect,
  **if and only if** the messages that need reassembly fit the in-flight cap. Beyond the cap a run
  is constructed in which an acked first chunk is evicted and the sender still completes.
- Delivery is not exactly once: whenever nothing of a message is pending, offering all its chunks
  again, in any order and among any traffic, brings the payload out again.
- `src/domain/storage/services/raw-capture-naming.hpp:19-20` asks for group ids without `__`; the
  code needs only a non-empty id. Printing undoes parsing exactly when the index has no leading
  zero and fits 32 bits.
- Scaling an overlay up can lose its last row or column in the dimension that does not fill the
  frame; every other row and column is then shown. Scaling it down shows none of them twice.
- `src/app/overlay/services/overlay_controller/overlay-controller.hpp:18-22` says a frame is pushed
  only when the resolved scene differs from the last one pushed. The code compares signatures.
  Where no text or color contains `;` and numbers print apart, equal signatures mean equal scenes
  but for fonts, alignment and fractions of a corner radius; the sink is then always right if and
  only if the renderer ignores those too. A `;` in a text can make different scenes collide.
- A recorder runs without a recording session exactly when WiFi was stopped during a recording, or
  a disconnect failed to stop the recorder, and neither a STOP nor a disconnect that is acted upon
  has stopped it since. Until then every START is refused.
- A session at WifiReady or beyond has no WiFi group exactly when WiFi was started again, and a group
  formed, at such a phase: DHCP refuses to run twice, and the group is taken down. It can happen
  while recording.
- Parameter values of an overlay banner are not inert. The value of a smaller key survives the pass
  of a larger one if and only if it does not contain that key's token (or the token is its own
  value). Templates, keys and values without stray braces are filled exactly once.
- Builds of a scene leave a later scene as it would have been exactly when none of them drops a
  banner that would still show then; with a clock that does not go back they never do.

## Model

| member | source | states |
|---|---|---|
| ChunkFraming.PartsJoinToPayload | src/adapters/control/ble/bluez/chunk-assembler.cpp:78-86 | joining all parts of a split gives the payload back, for every payload and chunk size |
| ChunkFraming.PartSizes | src/adapters/control/ble/bluez/chunk-assembler.cpp:96-111 | no chunk exceeds the configured size, all but the last are full, none is empty unless the payload is |
| ChunkFraming.CountIsRoundedUpQuotient | src/adapters/control/ble/bluez/chunk-assembler.cpp:98-99 | the code's rounded-up division counts one chunk for each started chunk size, and an empty payload has one |
| ChunkFraming.ChunkSizeIsConfigured | src/adapters/control/ble/bluez/chunk-assembler.cpp:96 | the chunk size is the configured one, with one in place of zero |
| ChunkFraming.SplitChunk | src/adapters/control/ble/bluez/chunk-assembler.cpp:101-111 | chunk i carries the id, its index, the total, and the bytes from i times the size on |
| ChunkAssembly.EvictRemovesOldest | src/adapters/control/ble/bluez/chunk-assembler.cpp:12-20 | eviction removes exactly the oldest ids, only as many as needed, and leaves the other entries alone |
| ChunkAssembly.OfferOutcome | src/adapters/control/ble/bluez/chunk-assembler.cpp:22-40 | a chunk is accepted exactly with an index below a total from 1 to the limit; any other changes nothing; a single chunk comes out at once |
| ChunkAssembly.OfferKeepsInvariant | src/adapters/control/ble/bluez/chunk-assembler.cpp:22-91 | any chunk, however malformed, keeps: the arrival list enumerates the partial messages once each, within the cap, each with an exact count below its total |
| ChunkAssembly.BeginKeepsInvariant | src/adapters/control/ble/bluez/chunk-assembler.cpp:93-128 | starting a transfer keeps the container invariant |
| ChunkAssembly.AckKeepsInvariant | src/adapters/control/ble/bluez/chunk-assembler.cpp:130-157 | an ack keeps the container invariant, with the next index between 1 and the total |
| ChunkAssembly.ChunkAssembler.EvictOldestInboundIfFull | src/adapters/control/ble/bluez/chunk-assembler.cpp:12-20 | the eviction loop ends and does what the specification function says |
| ChunkAssembly.ChunkAssembler.OfferInbound | src/adapters/control/ble/bluez/chunk-assembler.cpp:22-91 | the in-place update and the result are those of the specification function; the invariant is kept |
| ChunkAssembly.ChunkAssembler.BeginOutbound | src/adapters/control/ble/bluez/chunk-assembler.cpp:93-128 | the loop produces the split, chunk 0 is emitted, and a transfer is retained only for several chunks |
| ChunkAssembly.ChunkAssembler.OnAck | src/adapters/control/ble/bluez/chunk-assembler.cpp:130-157 | emission, completion and new state are those of the specification function |
| ChunkAssembly.ChunkAssembler.Reset | src/adapters/control/ble/bluez/chunk-assembler.cpp:159-163 | all three containers are empty |
| ChunkAssembly.Join | src/adapters/control/ble/bluez/chunk-assembler.cpp:78-86 | the appending loop concatenates the parts in index order |
| ChunkReassembly.Confluence | src/adapters/control/ble/bluez/chunk-assembler.cpp:42-90 | in any order, with duplicates and any other traffic, unless evicted: every chunk is accepted and the payload comes out exactly on the chunks that close a round of indices |
| ChunkReassembly.DeliveredAtFirstFullMoment | src/adapters/control/ble/bluez/chunk-assembler.cpp:62-90 | nothing comes out while an index is missing; the chunk that brings the last one brings out the original payload |
| ChunkReassembly.FullOfferDelivers | src/adapters/control/ble/bluez/chunk-assembler.cpp:62-90 | once all indices were offered, in whatever order, the payload has come out |
| ChunkReassembly.OfferingAllAgainDeliversAgain | src/adapters/control/ble/bluez/chunk-assembler.cpp:43-50 | whenever no part of the message is pending, offering all indices again, in any order and among other traffic, delivers the payload again |
| ChunkReassembly.EveryFullPassDeliversAgain | src/adapters/control/ble/bluez/chunk-assembler.cpp:43-50 | chunks offered in index order over and over deliver the payload at the end of every pass and nowhere else |
| ChunkReassembly.OtherTrafficLeavesEntry | src/adapters/control/ble/bluez/chunk-assembler.cpp:22-91 | a chunk of another message changes a partial message only by evicting it |
| ChunkReassembly.NoEvictionWithinCapacity | src/adapters/control/ble/bluez/chunk-assembler.cpp:12-20 | with no more distinct ids than the cap nothing is ever evicted |
| ChunkReassembly.ArrivalOrder | src/adapters/control/ble/bluez/chunk-assembler.cpp:43-50 | the arrival list stays, or loses at most its oldest id and gains the new one at the end, or loses the finished id |
| ChunkReassembly.ChangedTotalRestarts | src/adapters/control/ble/bluez/chunk-assembler.cpp:51-60 | a changed total discards the collected parts and keeps the place in the arrival order |
| ChunkReassembly.DuplicateIsIgnored | src/adapters/control/ble/bluez/chunk-assembler.cpp:62-68 | a part that is already there is accepted and ignored, whatever data it carries |
| ChunkOutbound.StopAndWait | src/adapters/control/ble/bluez/chunk-assembler.cpp:113-163 | whatever acks, other calls and resets happen, the chunks sent are the first Progress + 1 in order, where Progress counts acks that came as 0, 1, 2, ... before any reset |
| ChunkOutbound.CompleteOnLastAck | src/adapters/control/ble/bluez/chunk-assembler.cpp:138-163 | an ack reports completion exactly when it is the last effective one and no reset came before; the transfer is forgotten then |
| ChunkOutbound.EventMovesTransfer | src/adapters/control/ble/bluez/chunk-assembler.cpp:130-163 | only the awaited ack moves a transfer, and it releases exactly the next chunk; a reset ends it |
| ChunkOutbound.ProgressCountsEffectiveAcks | src/adapters/control/ble/bluez/chunk-assembler.cpp:138-150 | progress is the number of effective acks before any reset, so a transfer of n chunks takes n of them |
| ChunkLink.BleTransport.OnRawCommand | src/adapters/control/ble/bluez/bluez-ble-transport.cpp:78-114 | a write without a total acks our chunk and yields no message; any other is offered, and acked with its id and index exactly if its total is from 1 to the limit and its index below it; the first write connects |
| ChunkLink.WriteIsAckedIff | src/adapters/control/ble/bluez/bluez-ble-transport.cpp:91-102 | which writes are acked and how, told from the fields of the write |
| ChunkLink.ReceiverAcks | src/adapters/control/ble/bluez/bluez-ble-transport.cpp:99-102 | receiving a chunk puts exactly that ack on the air |
| ChunkLink.DisconnectForgets | src/adapters/control/ble/bluez/chunk-assembler.cpp:159-163 | a disconnect leaves no partial message and no transfer |
| ChunkLink.NextIsSafe | src/adapters/control/ble/bluez/bluez-ble-transport.cpp:91-102 | every step of either endpoint keeps: sent chunks are slices of the payloads, held parts are the slices at their indices |
| ChunkLink.DeliveredIsSent | src/adapters/control/ble/bluez/bluez-ble-transport.cpp:91-114 | in every run over the lossy link, disconnects included, whatever is delivered at either end is what the other sent |
| ChunkLink.ReceiverKeepsHonest | src/adapters/control/ble/bluez/bluez-ble-transport.cpp:95-102 | within the cap an acked part stays taken, whatever the receiver receives or sends next |
| ChunkLink.SenderKeepsHonest | src/adapters/control/ble/bluez/chunk-assembler.cpp:130-157 | the sender runs one chunk ahead of honest acks and completes only delivered messages |
| ChunkLink.AllTakenMeansDelivered | src/adapters/control/ble/bluez/chunk-assembler.cpp:74-90 | a receiver that has taken every part has delivered the message |
| ChunkCapacity.BeyondCapacityLosesMessages | src/adapters/control/ble/bluez/chunk-assembler.cpp:12-20 | beyond the cap a run exists in which a transfer completes and its message is never delivered |
| ChunkCapacity.CompletionGuaranteedIffItFits | src/adapters/control/ble/bluez/chunk-assembler.cpp:22-157 | completed transfers are delivered in all runs without a receiver disconnect if and only if the messages needing reassembly fit the cap |
| FrameBuffers.DropOldestRing.Create | src/domain/buffer/services/drop-oldest-ring.hpp:21-25 | a ring without room is refused |
| FrameBuffers.DropOldestRing.Push | src/domain/buffer/services/drop-oldest-ring.hpp:34-52 | closed: counted and refused; with room: queued behind everything; full: the oldest frame alone is lost |
| FrameBuffers.DropOldestRing.Pop | src/domain/buffer/services/drop-oldest-ring.hpp:54-60 | a timed pop is a take, or nothing on a timeout |
| FrameBuffers.DropOldestRing.TryPop | src/domain/buffer/services/drop-oldest-ring.hpp:62-65 | the oldest frame is taken, or nothing |
| FrameBuffers.DropOldestRing.Close | src/domain/buffer/services/drop-oldest-ring.hpp:67-73 | closing changes nothing but the flag |
| FrameBuffers.LatestOnlySlot.Push | src/domain/buffer/services/latest-only-slot.hpp:27-44 | slot, counters and reply are those of the specification function |
| FrameBuffers.LatestOnlySlot.Pop | src/domain/buffer/services/latest-only-slot.hpp:46-52 | a timed pop is a take, or nothing on a timeout |
| FrameBuffers.LatestOnlySlot.TryPop | src/domain/buffer/services/latest-only-slot.hpp:54-57 | the held frame is taken, or nothing |
| FrameBuffers.PushKeepsHistory | src/domain/buffer/services/drop-oldest-ring.hpp:34-52 | a push joins the history or is counted as rejected, and is clean exactly when nothing was dropped |
| FrameBuffers.PushDropsOnlyWhenFull | src/domain/buffer/services/drop-oldest-ring.hpp:34-52 | a push loses a frame only when the ring is full, and then exactly the oldest |
| FrameBuffers.DepthOfRun | src/domain/buffer/services/drop-oldest-ring.hpp:34-96 | over all call sequences the depth is the one computed from the calls and the capacity alone |
| FrameBuffers.PopOfRun | src/domain/buffer/services/drop-oldest-ring.hpp:54-96 | after any calls a pop gives the oldest of the newest depth accepted frames |
| FrameBuffers.TakeKeepsHistory | src/domain/buffer/services/drop-oldest-ring.hpp:88-96 | a take returns the front of the queue and keeps the history |
| FrameBuffers.RingHistory | src/domain/buffer/services/drop-oldest-ring.hpp:34-96 | over all call sequences: the queue is the last accepted pushes, popped values are an in-order subsequence of earlier ones, popped + dropped + depth = pushed + rejected |
| FrameBuffers.SlotMatchesRing | src/domain/buffer/services/latest-only-slot.hpp:27-88 | over all call sequences the slot and a ring of capacity one give the same replies and statistics |
| RawCaptureSink.NextKeepsInv | src/adapters/storage/raw_capture/filesystem-raw-capture-sink.cpp:89-162 | every step of every thread keeps the history of each camera's ring and file |
| RawCaptureSink.CameraGetsItsFrames | src/adapters/storage/raw_capture/filesystem-raw-capture-sink.cpp:89-104 | in every run each camera is offered exactly the frames pushed to it, and its ring gets exactly those that had the lock before Stop was called |
| RawCaptureSink.PushDropsWhenFull | src/adapters/storage/raw_capture/filesystem-raw-capture-sink.cpp:89-104 | a push that gets through drops a frame only when the ring is full |
| RawCaptureSink.OtherStepsDropNothing | src/adapters/storage/raw_capture/filesystem-raw-capture-sink.cpp:106-162 | no other step changes what a camera's ring was given or has dropped |
| RawCaptureSink.FilesAfterStop | src/adapters/storage/raw_capture/filesystem-raw-capture-sink.cpp:106-162 | for every interleaving, when Stop has returned each file is an in-order, duplicate-free subsequence of the frames that got through to its camera, and if no write failed only those the ring dropped are missing; the ring is closed and empty |
| RawCaptureSink.FileIsSubsequence | src/adapters/storage/raw_capture/filesystem-raw-capture-sink.cpp:143-162 | at any moment, failed disk or not, the file holds frames pushed to its camera in order and at most once |
| RawCaptureSink.FramesAreConserved | src/adapters/storage/raw_capture/filesystem-raw-capture-sink.cpp:89-162 | at any moment, if no write failed, file + in hand + queued + dropped = the frames that got through |
| RawCaptureSink.NoPushAfterDetach | src/adapters/storage/raw_capture/filesystem-raw-capture-sink.cpp:97-122 | after the writers are detached no push reaches a ring in any continuation |
| RawCaptureSink.DrainFindsNothing | src/adapters/storage/raw_capture/filesystem-raw-capture-sink.cpp:130-133 | the drain that Stop does itself always finds the ring empty |
| RawCaptureSink.StoppingWriterExits | src/adapters/storage/raw_capture/filesystem-raw-capture-sink.cpp:152-161 | every own step brings a stopping writer thread strictly closer to its exit |
| RawCaptureSink.StopIsNeverStuck | src/adapters/storage/raw_capture/filesystem-raw-capture-sink.cpp:124-136 | until it returns, Stop can go on or the writer it joins can |
| RawCaptureSink.StopAdvances | src/adapters/storage/raw_capture/filesystem-raw-capture-sink.cpp:124-136 | every step of Stop brings it closer to its return |
| Pipeline.NextKeepsInv | src/app/pipeline/services/orchestrator/pipeline-orchestrator.cpp:111-190 | every producer, consumer and stop step keeps: what is on its way is newer than what has left, outputs are captures through every stage |
| Pipeline.CapturesAreProduced | src/app/pipeline/services/orchestrator/pipeline-orchestrator.cpp:111-120 | in every run a camera's captures are those its producer made, told from the steps |
| Pipeline.ThreadsFollowFlag | src/app/pipeline/services/orchestrator/pipeline-orchestrator.cpp:116-143 | each thread goes on while the pipeline runs and ends after |
| Pipeline.ProducerFillsSlot | src/app/pipeline/services/orchestrator/pipeline-orchestrator.cpp:117-139 | a capture is preprocessed, materialized and put into the slot, unless preprocessing fails or the slot is closed |
| Pipeline.ConsumerEmptiesSlots | src/app/pipeline/services/orchestrator/pipeline-orchestrator.cpp:143-154 | each tick takes what every slot holds, in camera order |
| Pipeline.TickDecides | src/app/pipeline/services/orchestrator/pipeline-orchestrator.cpp:156-181 | a tick has an output exactly when the decision names a sampled camera and postprocessing succeeds; it has the decided camera and crop and the overlay of that moment, composited when possible |
| Pipeline.OutputIsDelivered | src/app/pipeline/services/orchestrator/pipeline-orchestrator.cpp:182-190 | a finished frame becomes the snapshot and then goes to the sink |
| Pipeline.SinkIsOrderedCaptures | src/app/pipeline/services/orchestrator/pipeline-orchestrator.cpp:111-195 | for every interleaving and any decision, each sink frame is a capture of its camera through all stages, in capture order and at most once per camera; the snapshot is the last frame pushed or the one about to be |
| Pipeline.StaticSinkShowsCameraZero | src/app/decision/services/static_decision/static-decision.cpp:13-37 | under the static decision only whole frames of camera 0 reach the sink, in order |
| Pipeline.StaticDecisionIff | src/app/decision/services/static_decision/static-decision.cpp:13-37 | the static decision is camera 0 with its whole frame, exactly when it has one that is not degenerate |
| Pipeline.StartCaptures | src/app/pipeline/services/orchestrator/pipeline-orchestrator.cpp:46-67 | start succeeds exactly when the pipeline runs already, which changes nothing, or there is a camera and all run; a failed start leaves no capture running that was not |
| FrameCompositor.LetterboxFits | src/domain/overlay/services/frame-compositor.cpp:48-56 | the drawn rectangle is inside the frame, fills it in one dimension, and opposite margins differ by at most one pixel |
| FrameCompositor.FitKeepsAspect | src/domain/overlay/services/frame-compositor.cpp:48-54 | the scale is the smaller of the two ratios, and the drawn sizes are the scaled sizes cut to whole pixels, at least one |
| FrameCompositor.FitSamplesInside | src/domain/overlay/services/frame-compositor.cpp:58-63 | every position drawn in a frame samples inside the overlay, the clamp never taking effect |
| FrameCompositor.SampleNeedsNoClamp | src/domain/overlay/services/frame-compositor.cpp:61-63 | a drawn position samples below the overlay size, so the clamp never takes effect |
| FrameCompositor.SampleIsMonotone | src/domain/overlay/services/frame-compositor.cpp:61-63 | sampling keeps order and stays below the overlay size |
| FrameCompositor.ShrinkingNeverRepeats | src/domain/overlay/services/frame-compositor.cpp:49-63 | scaled down, no overlay row or column is shown twice |
| FrameCompositor.EnlargingShowsAll | src/domain/overlay/services/frame-compositor.cpp:49-63 | scaled up, every overlay row and column is shown, but for the last one where the scaled size is not whole |
| FrameCompositor.EnlargedIsShownIff | src/domain/overlay/services/frame-compositor.cpp:49-63 | scaled up, an overlay row or column is shown if and only if its first drawn position is inside the drawn rectangle |
| FrameCompositor.LastRowCanBeLost | src/domain/overlay/services/frame-compositor.cpp:49-63 | a frame and overlay for which that last row is never sampled |
| FrameCompositor.Blend | src/domain/overlay/services/frame-compositor.cpp:76-82 | the blend is the weighted mean of both channels, rounded down |
| FrameCompositor.BlendIsBetween | src/domain/overlay/services/frame-compositor.cpp:68-82 | a blended channel lies between both channels; opaque gives the overlay, clear the source |
| FrameCompositor.OverlayReadInBounds | src/domain/overlay/services/frame-compositor.cpp:31-39 | the two size checks put every overlay read inside the pixel buffer |
| FrameCompositor.BlendPixel | src/domain/overlay/services/frame-compositor.cpp:66-82 | the three bytes of the pixel are blended with their own channels and nothing else changes |
| FrameCompositor.BlendRow | src/domain/overlay/services/frame-compositor.cpp:62-83 | the inner loop makes exactly one more row of bytes final |
| FrameCompositor.BlendRows | src/domain/overlay/services/frame-compositor.cpp:58-84 | the nested in-place loops end in the expected bytes, all accesses in bounds |
| FrameCompositor.CompositeOverlay | src/domain/overlay/services/frame-compositor.cpp:16-93 | a frame comes out exactly for supported inputs; inside the box every blue, green and red byte is its source byte blended once with its sampled overlay pixel, between the two, opaque pixels shown as they are and clear ones not at all; every other byte is unchanged |
| FramePlanes.CarvePlanes | src/adapters/capture/frame/gstreamer/gstreamer.cpp:244-290 | carving fails exactly without planes or with an offset outside the buffer; each plane reaches to the next larger offset, and the later size checks never fire |
| FramePlanes.PlanesAreDisjoint | src/adapters/capture/frame/gstreamer/gstreamer.cpp:259-290 | planes are non-empty, and disjoint when their offsets differ |
| FramePlanes.PlanesCover | src/adapters/capture/frame/gstreamer/gstreamer.cpp:259-290 | the planes cover exactly the bytes from the smallest offset to the end of the buffer |
| FramePlanes.MaterializeFrame | src/domain/buffer/services/materialize-frame.cpp:13-44 | one buffer holds the planes' contents back to back; every plane of the copy points to its place in it and shows the source plane's bytes, zeros where data is null; all metadata are the source's |
| FramePlanes.PlaneBytesAreKept | src/domain/buffer/services/materialize-frame.cpp:29-40 | the bytes a copied plane points to are the plane's own |
| FramePlanes.CarvedBytesAreKept | src/adapters/capture/frame/gstreamer/gstreamer.cpp:259-290 | for offsets in any order, each carved plane's place in the copy holds the mapped bytes from its offset to the next larger one |
| FramePlanes.CarveThenMaterialize | src/adapters/capture/frame/gstreamer/gstreamer.cpp:259-290 | with increasing offsets, as planes usually lie, the copy is the mapped buffer from the first offset on, byte for byte |
| SessionLifecycle.SessionManager.OnConnect | src/app/session/services/session_manager/session-manager.cpp:27-36 | accepted from Idle only, then Connected |
| SessionLifecycle.SessionManager.OnWifiReady | src/app/session/services/session_manager/session-manager.cpp:38-51 | refused in Idle, advances from Connected only |
| SessionLifecycle.SessionManager.OnWifiStopped | src/app/session/services/session_manager/session-manager.cpp:53-65 | falls back to Connected and drops config and match |
| SessionLifecycle.SessionManager.ApplySessionConfig | src/app/session/services/session_manager/session-manager.cpp:67-92 | accepted from WifiReady to Ready with prepared directories |
| SessionLifecycle.SessionManager.OnOverlayConfigured | src/app/session/services/session_manager/session-manager.cpp:94-109 | refused before Configured, advances from Configured only |
| SessionLifecycle.SessionManager.OnRecordingStart | src/app/session/services/session_manager/session-manager.cpp:111-120 | accepted from Ready only |
| SessionLifecycle.SessionManager.OnRecordingStop | src/app/session/services/session_manager/session-manager.cpp:122-131 | accepted from Recording only |
| SessionLifecycle.SessionManager.ApplyScoreDelta | src/app/control/services/handlers/match.handler.cpp:63-77 | one side's score moves by the clamped, wrapping step; the other and the clock stay; refused before Configured |
| SessionLifecycle.LowestIsTheMinimum | src/app/control/services/handlers/match.handler.cpp:66-71 | the lowest point used below is the least of all prefix sums |
| SessionLifecycle.ScoreIsClampedIffItFits | src/app/control/services/handlers/match.handler.cpp:63-72 | over any deltas the score is at every moment the sum minus its lowest prefix sum, if and only if that value always fits 32 bits |
| SessionHistory.SessionInvariant | src/app/session/services/session_manager/session-manager.cpp:27-170 | in every run a config is present exactly from Configured on, and match data is default before |
| SessionHistory.RecordingIsEarned | src/app/session/services/session_manager/session-manager.cpp:27-131 | a recording session has WiFi, an accepted config, an overlay and a start behind it in this order, with no reset since |
| RecordingLifecycle.RecordingService.StartRecording | src/app/storage/services/recording_service/recording-service.cpp:25-55 | starts exactly when idle with a path, space and a willing muxer; a failed start changes nothing |
| RecordingLifecycle.RecordingService.Pause | src/app/storage/services/recording_service/recording-service.cpp:57-67 | pauses a running recording only |
| RecordingLifecycle.RecordingService.Resume | src/app/storage/services/recording_service/recording-service.cpp:69-79 | resumes a paused recording only |
| RecordingLifecycle.RecordingService.Stop | src/app/storage/services/recording_service/recording-service.cpp:81-107 | always ends idle with nothing left over, and reports the file and thumbnail of an active recording |
| RecordingLifecycle.RecordingService.Push | src/app/storage/services/recording_service/recording-service.cpp:114-124 | remembers the last frame of an active recording only |
| StreamingLifecycle.StreamingService.StartPlatformStream | src/app/streaming/services/streaming_service/streaming-service.cpp:60-90 | starts exactly for a fresh valid id with a willing streamer; both maps change together |
| StreamingLifecycle.StreamingService.StopPlatformStream | src/app/streaming/services/streaming_service/streaming-service.cpp:92-109 | stops exactly an active stream; both maps change together |
| StreamingLifecycle.StreamingService.ListActivePlatformStreams | src/app/streaming/services/streaming_service/streaming-service.cpp:111-119 | lists each active stream once with its name |
| StreamingLifecycle.AllStreamsEnd | src/app/session/services/session_cleanup/session-cleanup.cpp:16-21 | in whatever order the map is walked, no stream is left and each is ended exactly once |
| StreamingLifecycle.StopStreaming | src/app/session/services/session_cleanup/session-cleanup.cpp:16-21 | the loop stops the preview and every platform stream, or throws where a stop does and leaves the streams behind it |
| ControlPlane.Handlers.HandleStart | src/app/control/services/handlers/recording.handler.cpp:20-50 | success exactly when nothing stands against it, and then session and recorder have moved; the rollback is dead because the phase was checked first |
| ControlPlane.Handlers.HandleStop | src/app/control/services/handlers/recording.handler.cpp:51-60 | recorder idle, session out of Recording, success only for an active recording |
| ControlPlane.Handlers.HandlePause | src/app/control/services/handlers/recording.handler.cpp:61-67 | only the recorder changes; success exactly when it was recording |
| ControlPlane.Handlers.HandleResume | src/app/control/services/handlers/recording.handler.cpp:68-74 | only the recorder changes; success exactly when it was paused |
| ControlPlane.Handlers.HandleStartWifi | src/app/control/services/handlers/wifi-direct.handler.cpp:31-82 | success exactly when a group forms, DHCP was not running and starts, and a central is connected; then group and DHCP are up and the session at least WifiReady; each failure rolls back as the code does |
| ControlPlane.Handlers.HandleStopWifi | src/app/control/services/handlers/wifi-direct.handler.cpp:84-92 | link down and session back to Connected; recorder and streams untouched |
| ControlPlane.Handlers.HandlePushConfig | src/app/control/services/handlers/session.handler.cpp:13-42 | success exactly from WifiReady to Ready with prepared directories; only the session changes |
| ControlPlane.Handlers.HandlePushOverlay | src/app/control/services/handlers/overlay.handler.cpp:18-34 | success exactly from Configured on; of the modelled state only the session changes |
| ControlPlane.Handlers.HandleScoreUpdate | src/app/control/services/handlers/match.handler.cpp:46-82 | success exactly for a team of the config; that team's score moves by the clamped step, the home side's when both ids are the same |
| ControlPlane.Handlers.TeardownWifiDirect | src/app/session/services/session_cleanup/session-cleanup.cpp:23-26 | DHCP down, then the group; a step that throws leaves the rest undone |
| ControlPlane.Handlers.OnDisconnect | src/app/session/services/session_manager/session-manager.cpp:133-161 | every cleanup step runs whichever of the others throw, then the session is reset; nothing from Idle |
| ControlPlane.SystemInvariant | src/app/control/services/handlers/recording.handler.cpp:20-60 | over all command sequences, throwing cleanups included, a recording session has an active recorder, DHCP runs from WifiReady on, the stream maps mirror each other, a config is present from Configured on |
| ControlPlane.StartMovesBothOrNeither | src/app/control/services/handlers/recording.handler.cpp:20-50 | START moves session and recorder together exactly when the session is Ready with a path, the recorder idle, the disk has space and the muxer starts; else it changes nothing |
| ControlPlane.SessionRunsAlone | src/app/session/services/session_manager/session-manager.cpp:27-170 | in every command sequence the session is where a session alone would be after the events the gates let through |
| ControlPlane.RecordingIsEarned | src/app/control/services/handlers/recording.handler.cpp:20-50 | so a recording of the whole system has WiFi, an accepted config, an overlay and a start behind it in this order |
| ControlPlane.VideoAndMatchStayApart | src/app/storage/services/recording_service/recording-service.cpp:114-124 | a video frame reaches an active recorder only, match data a configured session only |
| ControlPlane.StopAlwaysStops | src/app/control/services/handlers/recording.handler.cpp:51-60 | STOP leaves the recorder idle and the session not recording; a second STOP changes nothing |
| ControlPlane.DisconnectStopsEverything | src/app/session/services/session_cleanup/session-cleanup.cpp:10-26 | from any state but Idle a disconnect clears the session whatever throws, every step that does not throw stops all it has to, each stream once, and a throwing stream stop leaves exactly the streams behind it |
| ControlPlane.LastsSince | src/app/control/services/handlers/recording.handler.cpp:19-74 | a state that each command starts, keeps or ends by a rule holds exactly if some command started it and none has ended it since |
| ControlPlane.OrphanedIff | src/app/control/services/handlers/wifi-direct.handler.cpp:84-92 | the recorder runs without a recording session if and only if WiFi was stopped during a recording, or a disconnect failed to stop the recorder then, with no STOP and no effective disconnect since |
| ControlPlane.OrphanedIffWifiStopped | src/app/control/services/handlers/wifi-direct.handler.cpp:84-92 | if no disconnect fails to stop the recorder: if and only if WiFi was stopped during a recording, with no STOP and no disconnect since |
| ControlPlane.OrphanedRecorderBlocksStart | src/app/control/services/handlers/recording.handler.cpp:20-50 | until then every START changes nothing |
| ControlPlane.OrphanedRecorderIsReachable | src/app/control/services/handlers/wifi-direct.handler.cpp:84-92 | a command sequence that leaves the recorder running without a session |
| ControlPlane.GroupIsDownIff | src/app/control/services/handlers/wifi-direct.handler.cpp:41-48 | a session at WifiReady or beyond has no group if and only if WiFi was started again at such a phase and it has not left those phases since |
| ControlPlane.GroupDownIsReachable | src/app/control/services/handlers/wifi-direct.handler.cpp:41-48 | a command sequence that leaves a recording session without its group |
| OverlayText.ReplaceInPlace | src/app/overlay/services/overlay_scene/overlay-scene.cpp:18-23 | the in-place loop ends for every value, also one containing its own token, and equals the left-to-right, non-overlapping, never-rescanning replacement |
| OverlayText.SubstituteParams | src/app/overlay/services/overlay_scene/overlay-scene.cpp:15-26 | one such pass for each key, by ascending key |
| OverlayText.PassIsInertIff | src/app/overlay/services/overlay_scene/overlay-scene.cpp:18-23 | a pass leaves a text as it is if and only if the token does not occur in it or is its own value |
| OverlayText.EarlierValueSurvivesIff | src/app/overlay/services/overlay_scene/overlay-scene.cpp:17-24 | the value of a smaller key comes out unchanged if and only if it does not contain the larger key's token, or that token is its own value |
| OverlayText.LaterKeysReadEarlierValues | src/app/overlay/services/overlay_scene/overlay-scene.cpp:17-24 | a value that spells a larger key's token is filled in again |
| OverlayText.TemplateIsFilledOnce | src/app/overlay/services/overlay_scene/overlay-scene.cpp:15-26 | without stray braces each placeholder becomes the value of its key, if it has one, and nothing else changes |
| OverlayScene.TextSaysData | src/app/overlay/services/overlay_scene/overlay-scene.cpp:84-116 | the text of every element reads back as the score, clock, period or name it is bound to |
| OverlayScene.ShownAreTheVisible | src/app/overlay/services/overlay_scene/overlay-scene.cpp:125-141 | exactly the visible elements are shown, once each and in order |
| OverlayScene.BannersInOrder | src/app/overlay/services/overlay_scene/overlay-scene.cpp:140-144 | banners are shown one after the other |
| OverlayScene.AliveAreTheUnexpired | src/app/overlay/services/overlay_scene/overlay-scene.cpp:77-82 | exactly the banners that have not lapsed stay, in order |
| OverlayScene.OverlayScene.ActivateBanner | src/app/overlay/services/overlay_scene/overlay-scene.cpp:44-75 | the first matching template becomes a banner with all its elements visible and filled, until the command's duration is over, or the template's; otherwise nothing changes |
| OverlayScene.OverlayScene.Build | src/app/overlay/services/overlay_scene/overlay-scene.cpp:118-151 | exactly the visible layout elements and unexpired banner elements, resolved, stably sorted by layer |
| OverlayScene.StableSortSorts | src/app/overlay/services/overlay_scene/overlay-scene.cpp:146-149 | the sort is sorted, a permutation, and keeps each layer in its old order |
| OverlayScene.StableSortIsUnique | src/app/overlay/services/overlay_scene/overlay-scene.cpp:146-149 | any sorted sequence with the same layers is that sequence, so the library's stable sort can only give this result |
| OverlayScene.EarlierExpiryIsInvisibleIff | src/app/overlay/services/overlay_scene/overlay-scene.cpp:77-82 | expiring at one time makes no difference to what is alive at another if and only if no banner lapses in between |
| OverlayScene.SceneIgnoresBuildsIff | src/app/overlay/services/overlay_scene/overlay-scene.cpp:77-82 | removing all builds from any run leaves the scene at any time the same if and only if no build since the last layout dropped a banner with elements that would still show |
| OverlayScene.LaterSceneIgnoresBuilds | src/app/overlay/services/overlay_scene/overlay-scene.cpp:77-82 | with timestamps that do not go back, removing all intermediate builds from any run leaves a later scene the same |
| OverlayScene.ClockGoingBackLosesBanner | src/app/overlay/services/overlay_scene/overlay-scene.cpp:77-82 | with a clock that goes back, a run from the start whose scene is empty because of a build in between |
| OverlayScene.PathTo | src/app/overlay/services/overlay_scene/overlay-scene.cpp:28-75 | whatever has happened before, operations without builds lead to the state of any run, so any scene can be built next |
| OverlayController.OverlayController.SceneSignature | src/app/overlay/services/overlay_controller/overlay-controller.cpp:31-46 | the accumulating loop builds the signature |
| OverlayController.TruncatesTowardZero | src/app/overlay/services/overlay_controller/overlay-controller.cpp:43 | the cast of the corner radius goes to the nearest integer on the side of zero |
| OverlayController.LooksAlikeIff | src/app/overlay/services/overlay_controller/overlay-controller.cpp:33-44 | what the signature does not see is the font, the alignment, the unfilled text and a fraction of the corner radius, and nothing else |
| OverlayController.OverlayController.Refresh | src/app/overlay/services/overlay_controller/overlay-controller.cpp:48-62 | a frame is rendered and pushed exactly when nothing was pushed yet or the signature differs |
| OverlayController.SignatureIgnoresFonts | src/app/overlay/services/overlay_controller/overlay-controller.cpp:31-46 | scenes that differ only in fonts, alignment or the fraction of a corner radius have the same signature |
| OverlayController.SignatureSeparatesIff | src/app/overlay/services/overlay_controller/overlay-controller.cpp:31-46 | without `;` in texts and colors, and with numbers that print apart, two scenes have the same signature if and only if they differ at most in fonts, alignment and fractions of corner radii |
| OverlayController.SignatureCanCollide | src/app/overlay/services/overlay_controller/overlay-controller.cpp:37-41 | a separator moved from the text into the fill color leaves the signature the same, though the elements look different |
| OverlayController.LastPushHasSameSignature | src/app/overlay/services/overlay_controller/overlay-controller.cpp:48-62 | after every refresh the last frame pushed is of a scene with the current signature, and the push count is the number of signature changes |
| OverlayController.ControllerRefreshesScenes | src/app/overlay/services/overlay_controller/overlay-controller.cpp:48-62 | a run of scene operations and refreshes pushes what the sequence of its built scenes says |
| OverlayController.CacheIsExactIffRendererIsSigned | src/app/overlay/services/overlay_controller/overlay-controller.cpp:48-62 | over all runs of the controller the sink shows the scene built last if and only if scenes that can be built and have the same signature are drawn the same |
| OverlayController.CacheIsExactIffFontsAreNotDrawn | src/app/overlay/services/overlay_controller/overlay-controller.cpp:31-62 | for scenes without `;`, if and only if the renderer ignores fonts, alignment and fractions of corner radii |
| Decimal.ReadUndoesPrint | src/domain/storage/services/raw-capture-naming.hpp:31-34 | reading a printed number gives the number |
| Decimal.PrintUndoesRead | src/domain/storage/services/raw-capture-naming.hpp:61-68 | printing a number that was read from digits without leading zero gives the digits |
| RawCaptureNaming.ParseFileName | src/domain/storage/services/raw-capture-naming.hpp:39-71 | a name is accepted exactly if it is prefix, group, marker, digits, extension, and gives that group and the digits' value in 32 bits |
| RawCaptureNaming.MarkerIsLast | src/domain/storage/services/raw-capture-naming.hpp:47-50 | the last marker is the one before the index, even when the group contains markers |
| RawCaptureNaming.MarkerBeforeExtension | src/domain/storage/services/raw-capture-naming.hpp:54-56 | the index-length subtraction never underflows |
| RawCaptureNaming.ParseUndoesFileName | src/domain/storage/services/raw-capture-naming.hpp:31-71 | for every 32-bit index, parsing a printed name gives the identity back if and only if its group is not empty |
| RawCaptureNaming.FileNamesAreInjective | src/domain/storage/services/raw-capture-naming.hpp:31-34 | different identities have different names, with or without a group |
| RawCaptureNaming.FileNameUndoesParse | src/domain/storage/services/raw-capture-naming.hpp:31-71 | an accepted name is reproduced by printing if and only if its index has no leading zero and fits 32 bits |

## Left out

- ChunkAssembly.ChunkAssembler.BeginOutbound: requires a chunk count below 2^32, because the cast to 32 bits in the code would otherwise cut the payload.
- ChunkCapacity.CompletionGuaranteedIffItFits: stated for the messages of one end; the two ends of the link are interchangeable.
- SessionLifecycle.SessionManager.ApplyScoreDelta: excludes the delta -2^31, whose negation is undefined in the code.
- FrameCompositor.CompositeOverlay: requires a source plane of whole rows with a stride of at least three bytes a pixel, which the code takes for granted; the scale is an exact fraction, not a rounded double.
- FrameCompositor.LetterboxFits: exact fractions stand for the code's doubles, whose rounding can shift a size by one pixel.
- FrameCompositor.SampleNeedsNoClamp: exact fractions stand for the code's doubles.
- FrameCompositor.ShrinkingNeverRepeats: exact fractions stand for the code's doubles.
- FrameCompositor.EnlargingShowsAll: exact fractions stand for the code's doubles.
- FrameCompositor.EnlargedIsShownIff: exact fractions stand for the code's doubles.
- OverlayController.SignatureSeparatesIff: texts and colors with `;` are excluded, as the signature does not escape it.
- ControlPlane.DisconnectStopsEverything: a foreign call that throws is taken to have changed nothing; handlers that run while a disconnect is cleaning up are not interleaved with it.
- RawCaptureSink.FilesAfterStop: one run from the commit of Start to the return of Stop; opening the files, restarting under the same group id, and the bytes of a frame cut short by a full disk are not modelled.
- The raw capture sink and the pipeline are state machines on values, because what matters is the interleaving of their threads; aliasing of frame memory is not captured there.
- `OfferInbound` is written as two methods, opening the entry and storing the part, that follow each other in the code's one body.
- The 64-bit counters of the buffers and the push count do not wrap.
- Protobuf encoding, D-Bus, GStreamer, OpenCV, Cairo, sockets, `wpa_supplicant` and `dnsmasq` processes: only whether a call succeeded is modelled.
- Real time and liveness: a timed wait may end at any moment; no scheduler fairness is assumed.
- Match clock and segments, the fallback destination of a stream, thumbnails, telemetry, downloads, config files: single-branch facts or wrappers.
- Float formatting in the overlay signature is an arbitrary function of the number.
- `_old/` is not part of this model.
