# Verified model of the jam session core

The repository is a low-latency audio session tool: a host mixes up to four clients, everything travels in
small UDP datagrams, and a jitter buffer with an adaptive playout policy turns arrivals back into a steady
stream. This project models its pure logic in Dafny and proves what that logic is for. `f32` and `f64` are
`real`; 16-, 32- and 64-bit integers are bounded types with their wrap-around written out where the code wraps;
sockets, threads and clocks are step relations, queues, sets of messages and times given as inputs.

Code that updates state is a class with the same fields, and each method is proved equal to a function on
values; the statements about runs are lemmas about those functions.

| area | files |
|---|---|
| sequence numbers, jitter buffer | `Seq16`, `Jitter`, `Timeline` (the unbounded map it refines), `JitterRace` (byte-by-byte writer against byte-by-byte reader), `JitterFlow` (the same with the read position and the late check), `JitterAlone` (stepwise and sequential models agree) |
| playout, resampling, drift, re-blocking | `Playout`, `PlayoutPolicy` (what the policy does to what is heard), `StreamPlayout`, `Resample`, `Drift`, `Fifo`, `Output` |
| datagrams, redundancy | `Utf8`, `Wire`, `WireLayout`, `WireErrors`, `RoundTrip`, `Cursor`, `DatagramSize`, `Redundancy` |
| join, leave, rejoin | `Handshake`, `Membership`, `Refusals`, `Retries`, `HostControl`, `HostContact`, `HostSends`, `HostLiveness`, `HostNames`, `HostSwitches`, `Network`, `ClientControl`, `ClientContact` |
| mixing | `Mix`, `HostMix` |

What the proofs found out about the code:

- The comment at crates/jam-audio/src/jitter.rs:163-164 says an overwritten slot is consumed or at least a ring
  older than the incoming packet. A packet at the read position can overwrite one a full ring ahead
  (`Timeline.WindowIsTight`). For numbers from -32768 to 32767 apart the claim holds if and only if the stamp in
  the slot is not newer than the incoming one (`Timeline.OverwrittenIsOlderIff`); a resident exactly 32768 ahead
  is not newer by its stamp and yet is not older (`Timeline.HalfSpaceAheadLooksOlder`). With arrivals less than
  64 ahead and at most 32767 behind, nothing is ever overwritten (`Timeline.NothingOverwrittenInWindow`).
- `take` loads the slot's state before its number. It is not enough that the push of the wanted number is not in
  flight when the take starts: it may start between the two loads. What is needed, and is enough, is that the
  slot does not hold another, stale frame at the first load (`JitterRace.NoTornFrames`,
  `JitterRace.TornFrameFromStart`). With arrivals in the window that can only come of a frame the reader has left
  behind, by passing a number while its push, already through the late check, was still at work
  (`JitterFlow.CleanRunsAreIntact`); and from that, a torn frame can come (`JitterFlow.LeftBehindCanTear`).
- The comment at crates/jam-protocol/src/lib.rs:26-34, that serialization can never overflow the send buffers, is
  right for PCM, whose frames take at most 960 bytes: 1015 always fit, with or without redundancy
  (`DatagramSize.SenderFits`). The encoder's own buffer would hold 1016, of which two do not fit
  (`DatagramSize.TwoLargeFramesOverflow`), so for Opus it rests on the foreign encoder staying below that.
- A frame recovered from redundancy is given the next packet's timestamp less one frame
  (crates/jam-core/src/net.rs:221-228). That is its own timestamp if and only if no frame failed to encode between
  the two (`Redundancy.RecoveredStampIff`).
- Writing truncates: a roster count is written as one byte and block lengths as two, so a control datagram
  parses back iff its roster has at most five entries, and an audio datagram iff its blocks are shorter than
  65536 bytes. Both always hold for what the program sends.
- A repeated HELLO with a new name is not announced (crates/jam-protocol/src/handshake.rs:357-374); the roster
  theorem says exactly when rosters are sent. Nor does the host's own list take the new name, which later rosters
  carry (`HostNames.ShownNameIff`, `HostNames.RenamedClientExample`).
- A goodbye that comes while a client is joining (crates/jam-core/src/control.rs:470-481) does not stop it: it goes
  on with its HELLOs, and a WELCOME still starts audio (`ClientControl.GoodbyeEndsIff`,
  `ClientControl.GoodbyeWhileRejoining`).
- Joining forgets the number of the last ROSTER (crates/jam-core/src/control.rs:529-533) without remembering the
  WELCOME's, so that a late ROSTER replaces the WELCOME's newer roster
  (`ClientControl.LateRosterReplacesWelcome`; `ClientControl.NewestRosterWins` has the exact condition).
- The liveness feed of the host's loop (crates/jam-core/src/control.rs:269-286) turns a noted arrival into an
  implicit acknowledgement. The comment at :136-142 guards against this for a new client by clearing the arrival
  time, but a client that starts over in a slot it has been heard from is no new client: its WELCOME is sent once
  per HELLO and never repeated (`HostLiveness.RenewedHelloIsNotRepeated`, with a concrete session in
  `HostLiveness.RenewedHelloExample`). `HostContact.StaysPendingIff` says from the state before a turn when a
  slot goes on being retransmitted. For a slot with a noted arrival, neither HELLO nor acknowledgement bears on
  the timeout (`HostLiveness.NotedSlotIsFreedIff`).
- The comment at crates/jam-core/src/engine.rs:349-351 says the output callback's fill loop never spins forever.
  It ends if and only if the block is no larger than the FIFO (`Output.FillEndsIff`). It loses nothing, at every
  queue length the callback reaches, if and only if block and frame exceed the capacity by at most one sample
  (`Output.RefillLosesNothingIff`).
- The bounds on HELLOs and WELCOMEs need no assumption that the clock is monotone: saturating subtraction only
  delays a retry when time goes back.

## Model

| member | source | states |
|---|---|---|
| `Seq16.DiffIsTrueDistance` | crates/jam-protocol/src/seq.rs:12-14 | `diff` of two wrapped numbers is the true distance if and only if that distance fits a signed 16-bit integer |
| `Seq16.NewerThanIsTrueOrder` | crates/jam-protocol/src/seq.rs:6-8 | `newer_than` is the true order for numbers within 32767 of each other, and is wrong at a distance of exactly 32768 |
| `Seq16.SeqGen.Next` | crates/jam-protocol/src/seq.rs:28-33 | hands out the current number and advances by one, wrapping |
| `Jitter.JitterBuffer.PushFrame` | crates/jam-audio/src/jitter.rs:136-185 | one push: outcome, slots, counters, next and newest number all equal those of the push on the ring's value |
| `Jitter.JitterBuffer.WriteSlot` | crates/jam-audio/src/jitter.rs:163-180 | storing state, number, timestamp, length and bytes one after the other leaves exactly the new frame over the old bytes, other slots untouched |
| `Jitter.JitterBuffer.PopNext` | crates/jam-audio/src/jitter.rs:213-227 | one pop: outcome, copied bytes and the whole new state; the read position advances on a hit and on a miss |
| `Jitter.JitterBuffer.Take` | crates/jam-audio/src/jitter.rs:258-287 | returns a frame iff the slot holds the wanted number, copies exactly its bytes, empties only that slot |
| `Jitter.JitterBuffer.SkipNext` | crates/jam-audio/src/jitter.rs:232-246 | drops the frame at the read position, if any, and advances |
| `Jitter.JitterBuffer.CurrentDepth` | crates/jam-audio/src/jitter.rs:198-205 | the depth of the ring's value |
| `Jitter.JitterBuffer.Clear` | crates/jam-audio/src/jitter.rs:250-256 | every slot is emptied and the stream un-started; frames' bytes and the numbers stay |
| `Timeline.PushTracks` | crates/jam-audio/src/jitter.rs:136-185 | a push in the window has the outcome and effect of a push on an unbounded map |
| `Timeline.PopTracks` | crates/jam-audio/src/jitter.rs:213-227 | a pop has the outcome, the bytes and the effect of reading the map at the unbounded read position |
| `Timeline.SkipTracks` | crates/jam-audio/src/jitter.rs:232-246 | the same of a skip |
| `Timeline.RunRefinesMap` | crates/jam-audio/src/jitter.rs:136-256 | over any run of pushes, pops, skips and resets whose arrivals are less than 64 ahead of the read position and at most 32767 behind it, every outcome of the 64-slot 16-bit ring is that of the unbounded map |
| `Timeline.FramesLeaveInOrder` | crates/jam-audio/src/jitter.rs:136-246 | between resets, over any run in the window, the frames the ring's own outcomes report as popped or skipped are those of strictly increasing numbers from the read position on, each the packet pushed (or already stored) under its number: no frame leaves twice or out of order |
| `Timeline.PushedFramesPlayInOrder` | crates/jam-audio/src/jitter.rs:136-246 | from a new buffer: every pop that returns a frame returns a packet that was pushed, and the numbers they were pushed under are strictly increasing |
| `Timeline.FramesAreConserved` | crates/jam-audio/src/jitter.rs:136-256 | with no hypothesis on arrivals: received frames are played, skipped, resident, discarded by a reset or overwritten |
| `Timeline.CountersTellOutcomes` | crates/jam-audio/src/jitter.rs:67-76 | over any run, each of the six counters has counted exactly the outcomes it is named after: frames stored, late, duplicate and played, resets, and pops that found nothing while the stream was started |
| `Timeline.NothingOverwrittenInWindow` | crates/jam-audio/src/jitter.rs:161-168 | with arrivals in the window no push lands on a slot that still holds a frame |
| `Timeline.ReceivedBalances` | crates/jam-audio/src/jitter.rs:67-90 | from a new buffer: received = played + skipped + resident + discarded |
| `Timeline.OverwrittenIsOlderIff` | crates/jam-audio/src/jitter.rs:161-168 | the comment's claim that an overwritten frame is at least a ring older holds of a push that is stored onto a frame if and only if the stamp in the slot is not newer than the incoming one, for numbers -32768 to 32767 apart |
| `Timeline.HalfSpaceAheadLooksOlder` | crates/jam-audio/src/jitter.rs:161-168 | just outside that range the stamps decide wrongly: in every running state with nothing stored at the read position, a packet 32768 ahead is stored, the packet at the read position then overwrites it, and its stamp is not newer although its number is |
| `Timeline.WindowIsTight` | crates/jam-audio/src/jitter.rs:141-168 | in every running state a packet exactly a ring ahead is accepted and is then overwritten by the packet at the read position: the window cannot be widened |
| `Timeline.PushNewest` | crates/jam-audio/src/jitter.rs:150-155 | the newest number stays right while reading is no more than 32704 past it, whatever arrives less than a ring ahead |
| `Timeline.DepthIsTrueDistance` | crates/jam-audio/src/jitter.rs:198-205 | the 16-bit depth is the true distance if and only if read position and newest frame are within a signed 16-bit distance |
| `JitterRace.NoTornFrames` | crates/jam-audio/src/jitter.rs:157-287 | for every interleaving of single slot accesses: if pushes into a slot come in order, none laps the 16-bit space during a take, and no take starts on a stale frame, then the invariant, and with it the absence of mixed frames, is kept by every step |
| `JitterRace.NoTornFramesFromStart` | crates/jam-audio/src/jitter.rs:157-287 | the same from a new buffer: a returned frame has exactly the length, timestamp and bytes of one completed push of the number asked for |
| `JitterRace.StaleTakeCanTear` | crates/jam-audio/src/jitter.rs:260-263 | the staleness hypothesis is needed: from every state where a take starts on another frame's slot, a push begun after the take's first load can make it return a frame nobody sent |
| `JitterRace.TornFrameFromStart` | crates/jam-audio/src/jitter.rs:157-287 | such a run from a new buffer: packet 0 is stored whole, a take of 64 starts with nothing in flight, and what it returns nobody sent |
| `JitterFlow.CleanRunsAreIntact` | crates/jam-audio/src/jitter.rs:136-246 | with the read position and the writer's late check in the model, and arrivals in the window: as long as the reader never moves past a frame that is stored or about to be stored under its number, every frame returned is exactly one completed push; order of pushes, laps and staleness then hold by themselves |
| `JitterFlow.FramesComeInOrder` | crates/jam-audio/src/jitter.rs:136-287 | from a new buffer, over every such run and however pushes and pops interleave, the frames returned are completed pushes of strictly increasing numbers: each comes at most once and none out of order |
| `JitterFlow.ApartRunsAreClean` | crates/jam-audio/src/jitter.rs:136-246 | the reader leaves no frame behind if no push of a number is at work, from its late check on, while the reader is at that number |
| `JitterFlow.NoTornFramesInWindow` | crates/jam-audio/src/jitter.rs:136-246 | both from a new buffer |
| `JitterFlow.UndisturbedPopReturnsStored` | crates/jam-audio/src/jitter.rs:213-287 | whatever pushes of other numbers in the window do meanwhile, byte by byte, a pop returns a frame exactly if one was stored when it began, and then that frame |
| `JitterFlow.LeftBehindCanTear` | crates/jam-audio/src/jitter.rs:136-287 | leaving a frame behind is not harmless, even with every arrival in the window: from a new buffer, the reader passes packet 0 while it is being stored, and 64 pops later the take of 64 returns a frame nobody sent |
| `JitterAlone.LoneWriterPushes` | crates/jam-audio/src/jitter.rs:157-185 | the stepwise writer, left alone, leaves the slots as the sequential push does |
| `JitterAlone.LoneReaderPops` | crates/jam-audio/src/jitter.rs:258-287 | the stepwise reader, left alone, returns what the sequential pop returns and empties the same slot |
| `JitterAlone.LoneReaderSkips` | crates/jam-audio/src/jitter.rs:232-246 | the same of a skip |
| `JitterAlone.LonePushFlows` | crates/jam-audio/src/jitter.rs:136-185 | with the read position: a push left alone passes the late check exactly if the sequential push is not late, and ends with its slots, start and read position |
| `JitterAlone.LonePopFlows` | crates/jam-audio/src/jitter.rs:213-227 | and a pop with its outcome, slots and read position |
| `StreamPlayout.SessionControllersAreValid` | crates/jam-audio/src/jitter.rs:325-342 | at 48 kHz, frames of 120 and 240 samples give 200 and 100 misses before a reset and evaluation every 800 and 400 pops; a target of 2 within 2 to 20, three times the jitter, and a deadband of 1 |
| `StreamPlayout.PlayoutController.PrePop` | crates/jam-audio/src/jitter.rs:361-371 | primes once the depth reaches the target |
| `StreamPlayout.PlayoutController.PostPop` | crates/jam-audio/src/jitter.rs:375-396 | counts misses, re-evaluates the target on schedule, and reports an outage after too many misses |
| `StreamPlayout.PlayoutController.ObserveDepth` | crates/jam-audio/src/jitter.rs:404-414 | asks for a drop or an insert only outside the deadband, and only if nothing is pending |
| `StreamPlayout.PlayoutController.TakeAdjustment` | crates/jam-audio/src/jitter.rs:417-420 | hands out the pending correction once |
| `Playout.TargetCoversJitter` | crates/jam-audio/src/jitter.rs:387-392 | the re-evaluated target is the smallest number of frames that covers the jitter estimate k-fold on top of the minimum, within its limits |
| `Playout.PullKeepsInv` | crates/jam-core/src/playout.rs:130-162 | a pull keeps the coupling to the unbounded map and the bound on the read position, whether it inserts, hits, misses or fails to decode |
| `Playout.TickKeepsInv` | crates/jam-core/src/playout.rs:71-177 | a whole tick keeps them, whatever the decoder, the jitter estimate and the loudness are |
| `Playout.ReadPositionStaysNear` | crates/jam-core/src/playout.rs:71-177 | over any run of ticks, arrivals less than 64 ahead, buffer resets and restarts of the stream on a buffer not yet read from, reading never passes the newest frame by more than the outage limit - or, for a depth wanted below zero, that and up to one drop a miss - and the 16-bit depth is always the true distance |
| `Playout.RestartIsOrderly` | crates/jam-core/src/pipeline.rs:149-159 | a restart of the stream after a buffer reset, whatever has arrived in between, is such a restart |
| `StreamPlayout.ReadPositionStaysNearFromStart` | crates/jam-core/src/playout.rs:35-213 | from the start of a stream, at 48 kHz, with or without drift correction and for every fixed depth: reading never passes the newest frame by more than 200 frames of 120 samples or 100 of 240, plus, for a depth fixed at -n below -1, the lesser of n - 1 and 199 (or 99) more; and the 16-bit depth is always the true distance |
| `PlayoutPolicy.TickWaitsIff` | crates/jam-audio/src/jitter.rs:361-371 | a stream that is not yet playing stays exactly as it is, and silent, in a tick if and only if fewer frames are stored, on the unbounded map, than its target depth |
| `PlayoutPolicy.WaitingReadsNothing` | crates/jam-core/src/playout.rs:71-77 | until a tick finds that many, nothing is read: the stream is where arrivals and resets alone have brought it |
| `PlayoutPolicy.ReadyTickReads` | crates/jam-core/src/playout.rs:71-84 | the first tick that finds them reads on, and is live |
| `PlayoutPolicy.PlayingBeginsAtTarget` | crates/jam-core/src/playout.rs:35-84 | from the start of a session's stream: reading begins in exactly the first tick that finds two frames stored, or as many as the depth is fixed at |
| `PlayoutPolicy.RestartWaitsAgain` | crates/jam-core/src/pipeline.rs:149-159 | the same after a restart of the stream, whatever it was doing before |
| `PlayoutPolicy.OutageIff` | crates/jam-audio/src/jitter.rs:375-385 | pulls go on until, and only until, as many in a row have missed as make an outage; a frame played in between starts the count again |
| `PlayoutPolicy.StreakGoesOn` | crates/jam-core/src/playout.rs:71-162 | across ticks: a playing stream is live exactly while no streak of misses, counted on from tick to tick, is an outage, and nothing else touches the count |
| `PlayoutPolicy.OutageStartsOver` | crates/jam-core/src/playout.rs:99-156 | an outage empties the buffer and starts the stream over: unprimed, no misses counted, no correction asked for, nothing to insert |
| `PlayoutPolicy.TargetIs` | crates/jam-audio/src/jitter.rs:386-394 | on every scheduled pull the target becomes the least depth that covers the jitter estimate within its limits, and on no other does it change |
| `PlayoutPolicy.CorrectionIs` | crates/jam-audio/src/jitter.rs:404-414 | with nothing asked for, a pull asks for a drop if and only if the true depth is above the target by more than the deadband, for an insertion if and only if it is below by more |
| `PlayoutPolicy.QuietTickCorrects` | crates/jam-core/src/playout.rs:165-177 | a quiet live tick carries the correction out - a drop moves the read position on by one, an insertion makes the next pull take nothing - and no other tick does |
| `PlayoutPolicy.DepthIsCorrected` | crates/jam-core/src/playout.rs:88-177 | so without drift correction a depth off by more than the deadband ends one frame nearer the target than it would have been, and any other is left alone |
| `PlayoutPolicy.BlockIs` | crates/jam-core/src/playout.rs:130-155 | every pull yields the decoded bytes of the next frame if they have arrived and are accepted, and concealment otherwise |
| `PlayoutPolicy.ConstantIsQuietIff` | crates/jam-core/src/playout.rs:165-167 | a frame of one amplitude is quiet if and only if that is below 0.003 |
| `StreamPlayout.StreamPlayout.PullDecoded` | crates/jam-core/src/playout.rs:130-162 | one packet or concealment, as the playout machine does it; on an outage the buffer is reset |
| `StreamPlayout.StreamPlayout.ApplyStepAdjustment` | crates/jam-core/src/playout.rs:165-177 | at most one correction, only when the frame is quiet |
| `StreamPlayout.StreamPlayout.ResetStream` | crates/jam-core/src/playout.rs:197-213 | controller, pending insert, staging and resampler start over; the drift estimate is kept |
| `StreamPlayout.Decoder.Decode` | crates/jam-audio/src/codec.rs:93-173 | one call of the decoder: what it writes or whether it fails is a function of its history and of the packet, and it writes one frame at the front of the buffer |
| `StreamPlayout.StreamPlayout.StageFrame` | crates/jam-core/src/playout.rs:117-120 | one decoded frame is fed to the resampler at its ratio, and its whole output fits the buffer and reaches staging with nothing dropped: played followed by staged samples are the resampler's output for everything fed to it |
| `StreamPlayout.TakenInSnoc` | crates/jam-core/src/playout.rs:130-162 | what the decoder yields over a run of pulls, one more pull added |
| `StreamPlayout.StreamPlayout.FillStaging` | crates/jam-core/src/playout.rs:108-121 | the fill loop ends after at most two pulls, with a whole frame staged or an outage; the resampler has then been fed exactly the frames the decoder wrote for these pulls, in order and at the current ratio |
| `StreamPlayout.StreamPlayout.TickResampled` | crates/jam-core/src/playout.rs:101-126 | a live tick appends its frame to the played samples and the decoder's frames, at the drift controller's unclamped ratio, to what the resampler has been fed; played followed by staged samples are exactly the resampler's output since the last reset; an outage gives silence and starts over |
| `StreamPlayout.StreamPlayout.TickStepped` | crates/jam-core/src/playout.rs:86-97 | one packet per tick with drop or insert; a live frame is what the decoder wrote, and an outage is silence |
| `StreamPlayout.StreamPlayout.Tick` | crates/jam-core/src/playout.rs:71-83 | every tick of the objects is a tick of the playout machine, for some jitter estimate, with at most two pulls; its samples are the decoder's, through the resampler or as they are, and silence if the stream is not live |
| `Resample.HermiteResampler.Process` | crates/jam-audio/src/resample.rs:50-71 | the nested phase loop writes exactly the uniform grid's samples between the old and the new read position, as many as there is room for |
| `Resample.HermiteResampler.Interval` | crates/jam-audio/src/resample.rs:63-69 | the inner loop reads every grid position of the newest interval, and ends |
| `Resample.GridExtends` | crates/jam-audio/src/resample.rs:50-71 | reading more input continues the grid where it stopped |
| `Resample.CallsAreOneGrid` | crates/jam-audio/src/resample.rs:50-71 | however the input is split into calls, the output is one grid over the whole input |
| `Resample.CountFromStart` | crates/jam-audio/src/resample.rs:50-71 | N inputs give ceil(max(0, N - 3) * ratio) samples |
| `Resample.HermiteIsTheSegment` | crates/jam-audio/src/resample.rs:38-45 | reading between two samples follows the one cubic that takes their values at the ends, with slopes half the distance between the neighbours on either side: whatever coefficients meet these four conditions give the sample |
| `Resample.UniformResampling` | crates/jam-audio/src/resample.rs:38-71 | in any split of the input, the m-th sample is the whole input read at 1 + m / ratio along that cubic, written in the Hermite basis, and the count is exact |
| `Resample.ProcessAll` | crates/jam-audio/src/resample.rs:50-71 | the resampler itself, called on one block after the other with enough room, gives exactly the outputs of these calls |
| `Resample.ResampleAll` | crates/jam-audio/src/resample.rs:38-71 | so a new resampler, driven through any split of its input, gives ceil(max(0, N - 3) * ratio) samples, the m-th of them the whole input read at 1 + m / ratio along the cubic Hermite segment of its four neighbours |
| `Resample.LowerRatioConsumesFaster` | crates/jam-audio/src/resample.rs:50-71 | over the same input a lower ratio gives no more samples: more input is consumed for each |
| `Resample.HistoryAtOneRatio` | crates/jam-audio/src/resample.rs:50-71 | while the ratio stays the same, after any history of other ratios, the calls continue one grid |
| `Resample.QuadraticsAreExact` | crates/jam-audio/src/resample.rs:38-45 | a quadratic input is reproduced exactly at every position |
| `Drift.DriftController.Update` | crates/jam-audio/src/resample.rs:112-119 | one update of integral and correction, and the ratio returned |
| `Drift.UpdateStaysBounded` | crates/jam-audio/src/resample.rs:112-119 | one update moves the correction by at most 0.5 ppm, keeps it within 500 ppm, and never reaches the resampler's clamp |
| `Drift.CorrectionStaysBounded` | crates/jam-audio/src/resample.rs:112-119 | so it is after any sequence of errors |
| `Drift.SustainedErrorPins` | crates/jam-audio/src/resample.rs:112-119 | 2000 consecutive errors of at least 3 (or at most -3) frames pin the correction at -500 (or +500) ppm whatever the state was |
| `Drift.ErrorSteersRatio` | crates/jam-audio/src/resample.rs:109-119 | an error of three frames or more lowers the ratio returned by half a millionth, down to 0.9995, and one of minus three or less raises it, up to 1.0005 |
| `Drift.SteerFor` | crates/jam-audio/src/resample.rs:112-119 | the ratio the controller returns after 2000 errors of three frames or more is 0.9995, and after as many of minus three or less 1.0005 |
| `Drift.PinnedRatioConsumes` | crates/jam-audio/src/resample.rs:50-119 | and over the same input the resampler gives no more samples at the one, and no fewer at the other, than at ratio 1 |
| `Drift.RestsIff` | crates/jam-audio/src/resample.rs:112-119 | the correction stays where it is if and only if it is minus 450 ppm for each frame of error, less the integral, within its limits; otherwise it moves towards that |
| `Drift.IntegralRemembers` | crates/jam-audio/src/resample.rs:112-114 | while the sum stays within 10000 frames, the integral is a twentieth of all error so far |
| `Drift.SettlesAtIntegral` | crates/jam-audio/src/resample.rs:112-119 | with no error left the correction approaches minus the integral by half a ppm an update, and stays there |
| `Fifo.SampleFifo.Push` | crates/jam-audio/src/accum.rs:34-61 | the queue becomes the last `capacity` samples of old followed by new, and the drop count is exact |
| `Fifo.SampleFifo.Pop` | crates/jam-audio/src/accum.rs:65-79 | takes the oldest samples in order, or changes nothing if there are too few |
| `Fifo.QueueAppend` | crates/jam-audio/src/accum.rs:50-59 | writing in two pieces around the end of the ring appends to the queue |
| `Output.OutputCallback.Serve` | crates/jam-core/src/engine.rs:354-383 | for every block the FIFO can hold: what goes to the device, followed by what stays queued, is the old queue and the frames produced for the block, less the oldest samples beyond the capacity; every sample is on all channels of its sample frame; and the stream stays without a gap if and only if queue and new frames fit |
| `Output.OutputCallback.Refill` | crates/jam-core/src/engine.rs:358-364 | for every block the FIFO can hold the fill loop ends, with just as many frames as are needed, and the queue is then the newest samples of old queue and new frames |
| `Output.FillEndsIff` | crates/jam-core/src/engine.rs:349-364 | the comment that the fill loop never spins forever is true exactly of blocks the FIFO can hold: some number of frames fills the queue if and only if the block is no larger than the FIFO |
| `Output.RefillLosesNothingIff` | crates/jam-core/src/engine.rs:358-364 | from every queue length the callback reaches, refilling for a block loses nothing, if and only if block and frame together exceed the capacity by at most one sample |
| `Output.EveryLengthIsReached` | crates/jam-core/src/engine.rs:354-383 | those lengths are all the lengths below a frame: each is what some first block leaves |
| `Output.StreamGoesOn` | crates/jam-core/src/engine.rs:354-383 | one block more keeps the stream without a gap if and only if nothing was dropped for it |
| `Output.FannedOutSnoc` | crates/jam-core/src/engine.rs:366-383 | writing one more sample frame keeps the earlier ones |
| `Utf8.CutKeepsText` | crates/jam-protocol/src/packet.rs:516-526 | a name is cut to its longest prefix of at most 32 bytes ending on a character boundary: well-formed by section 4 of RFC 3629, at most 3 bytes short of the limit, and not cut again |
| `Utf8.PrefixIsText` | crates/jam-protocol/src/packet.rs:516-526 | a prefix of well-formed text ending on a boundary is well-formed |
| `Utf8.BoundaryNearby` | crates/jam-protocol/src/packet.rs:516-526 | a boundary is never more than three bytes away |
| `RoundTrip.ControlRoundTrip` | crates/jam-protocol/src/packet.rs:321-427 | a written control datagram parses back with its names cut if and only if its roster has at most five entries, and writing again gives the same bytes |
| `RoundTrip.ControlCanonical` | crates/jam-protocol/src/packet.rs:379-446 | a byte string that parses as control is exactly what the parsed value writes: nothing is left over and parsing is injective |
| `RoundTrip.AudioRoundTrip` | crates/jam-protocol/src/packet.rs:185-248 | an audio datagram parses back to itself if and only if both blocks are shorter than 65536 bytes |
| `RoundTrip.AudioCanonical` | crates/jam-protocol/src/packet.rs:210-248 | a byte string that parses as audio is what the parsed value writes except that reserved flag bits are cleared |
| `RoundTrip.HeaderCanonical` | crates/jam-protocol/src/packet.rs:134-162 | a header that parses is written back byte for byte |
| `WireLayout.ControlLayout` | crates/jam-protocol/src/packet.rs:321-376 | every control datagram byte for byte: each field's offset and code, each number's bytes from the most significant on |
| `WireLayout.GreetingLayout` | crates/jam-protocol/src/handshake.rs:87-99 | a client's HELLO on the wire: version 1, the room, the name, and masks 7 and 3 for what it offers |
| `WireLayout.AudioLayout` | crates/jam-protocol/src/packet.rs:185-207 | every audio datagram byte for byte, with one block or two |
| `WireErrors.RefusedExactly` | crates/jam-protocol/src/packet.rs:143-440 | the parser refuses exactly the byte strings that a definition by offsets says are no datagrams, each for the first thing wrong with it: magic, version, type, codec, reason, lengths, text, counts, or bytes left over |
| `Wire.TypeOf` | crates/jam-protocol/src/packet.rs:65-82 | the type code is accepted iff it is one of the ten, and is the code of the type returned |
| `Wire.CodecOf` | crates/jam-protocol/src/packet.rs:93-103 | the same of the codec byte |
| `Wire.ReasonOf` | crates/jam-protocol/src/packet.rs:113-122 | the same of the deny reason |
| `Cursor.WriteControl` | crates/jam-protocol/src/packet.rs:321-374 | the cursor writes exactly the datagram's bytes and touches nothing behind them |
| `Cursor.WriteAudio` | crates/jam-protocol/src/packet.rs:185-206 | the same for audio |
| `DatagramSize.AudioFitsIff` | crates/jam-protocol/src/lib.rs:26-34 | an audio datagram fits the 2048-byte send buffers if and only if its payload, and with redundancy the second one and its length, take at most 2032 bytes |
| `DatagramSize.SenderFits` | crates/jam-protocol/src/lib.rs:26-34 | a sender whose frames take at most 1015 bytes, as PCM's do, never overflows its buffer in any run |
| `DatagramSize.TwoLargeFramesOverflow` | crates/jam-core/src/pipeline.rs:24-49 | the bound is tight: two frames of 1016 bytes, should an encoder fill its 1024-byte buffer so far, overflow it with redundancy |
| `DatagramSize.ControlFits` | crates/jam-protocol/src/lib.rs:26-34 | a control datagram whose roster has at most five entries takes at most 195 bytes |
| `DatagramSize.HostSendsFit` | crates/jam-protocol/src/handshake.rs:260-530 | every control packet the host's machine sends fits |
| `DatagramSize.ClientSendsFit` | crates/jam-core/src/control.rs:431-602 | every control packet the client's loop sends fits |
| `Cursor.Parse` | crates/jam-protocol/src/packet.rs:439-446 | the cursor-based parser agrees with the parser on byte sequences, on every input, errors included |
| `Cursor.Reader.Each` | crates/jam-protocol/src/packet.rs:578-589 | the player loop reads what the recursive reader reads |
| `Redundancy.Upstream.Frame` | crates/jam-core/src/pipeline.rs:325-346 | one tick of the sender: sequence number, clock, payload, and the previous frame attached when redundancy is on |
| `Redundancy.Upstream.Store` | crates/jam-core/src/pipeline.rs:90-93 | the previous-frame buffer holds exactly the last frame |
| `Redundancy.SentIsShaped` | crates/jam-core/src/pipeline.rs:78-97 | the k-th packet carries the k-th payload and, with redundancy, the one before it |
| `Redundancy.StampsAreTrue` | crates/jam-core/src/pipeline.rs:325-346 | over any run of the sender, each packet's timestamp is the clock of the tick its frame was encoded in, one frame on for every tick, whether or not that tick's encoding failed |
| `Redundancy.RecoveredStampIff` | crates/jam-core/src/net.rs:221-228 | a frame recovered from the next packet is stored under the timestamp it was sent with if and only if no frame failed to encode between the two |
| `Redundancy.DeliverRepairs` | crates/jam-core/src/net.rs:221-228 | delivering packet n puts frame n and, with redundancy, frame n - 1 within reach, and nothing else |
| `Redundancy.DecidedInTime` | crates/jam-core/src/net.rs:221-228 | when a frame is popped in time, whether it has been recovered no longer depends on later packets |
| `Redundancy.PlayedIffRecovered` | crates/jam-core/src/net.rs:203-228 | for every loss pattern that keeps the first packet and every timely schedule, with or without redundancy, a pop returns the next payload sent if and only if its own packet arrived or, with redundancy, the following one did, and Missing otherwise |
| `Redundancy.ReceiveTracks` | crates/jam-core/src/net.rs:203-228 | through bytes, parser and 16-bit ring, a received packet has the effect of the two pushes on the unbounded map |
| `Redundancy.SingleLossesAreRepaired` | crates/jam-core/src/net.rs:203-228 | with redundancy on, for every loss pattern that keeps the first packet and drops no two adjacent ones, and every timely schedule, each pop returns the next payload sent and none is missing |
| `Handshake.ClientHandshake.Start` | crates/jam-protocol/src/handshake.rs:107-113 | the first HELLO |
| `Handshake.ClientHandshake.Tick` | crates/jam-protocol/src/handshake.rs:116-130 | retransmission, or giving up after ten tries |
| `Handshake.ClientHandshake.OnControl` | crates/jam-protocol/src/handshake.rs:133-174 | WELCOME and DENY end a join, ROSTER updates a joined client, all else is ignored |
| `Handshake.HostHandshake.HelloReceived` | crates/jam-protocol/src/handshake.rs:328-405 | the host's whole reaction to a HELLO: refusals, a known address greeted again, a new client, or a full room |
| `Handshake.HostHandshake.NoteWelcomeSent` | crates/jam-protocol/src/handshake.rs:409-417 | the stamped number is remembered for the pending slot of that address |
| `Handshake.HostHandshake.AckReceived` | crates/jam-protocol/src/handshake.rs:420-440 | refreshes the address's slot, and activates it if its own WELCOME is acknowledged |
| `Handshake.HostHandshake.Heard` | crates/jam-protocol/src/handshake.rs:443-452 | refreshes and activates the sender's slot |
| `Handshake.HostHandshake.ByeReceived` | crates/jam-protocol/src/handshake.rs:455-530 | frees the slot of the address, reports it and announces the roster |
| `Handshake.HostHandshake.ClockTick` | crates/jam-protocol/src/handshake.rs:460-507 | timeouts, give-ups and WELCOME retransmissions over all slots, then rosters if anyone was dropped |
| `Handshake.HostHandshake.Find` | crates/jam-protocol/src/handshake.rs:293-299 | the first slot registered for an address, or none |
| `Handshake.HostHandshake.CurrentRoster` | crates/jam-protocol/src/handshake.rs:260-274 | the host and the occupied slots |
| `Handshake.HostHandshake.Announce` | crates/jam-protocol/src/handshake.rs:312-325 | one ROSTER to every client except one address |
| `Membership.StepKeepsDistinct` | crates/jam-protocol/src/handshake.rs:328-530 | no step gives one address two slots |
| `Membership.RostersAnnounceChanges` | crates/jam-protocol/src/handshake.rs:375-405 | a step sends rosters if and only if it changes who is in the session: exactly one to each remaining client other than the one greeted, carrying the roster after the step |
| `Membership.PresenceFollowsSlots` | crates/jam-protocol/src/handshake.rs:328-530 | a step reports a join or a leave of a slot exactly when the slot is filled or freed, and only then does its address change |
| `Membership.JoinsAndLeavesAlternate` | crates/jam-protocol/src/handshake.rs:328-530 | over any run, the joins and leaves of each sender strictly alternate |
| `Membership.AnnouncementsAreTrue` | crates/jam-protocol/src/handshake.rs:260-325 | every WELCOME and ROSTER lists exactly the host and the occupied slots of the state after the step in ascending order of id; a WELCOME lists the id it assigns, which is its addressee's slot |
| `Refusals.RefusesExactly` | crates/jam-protocol/src/handshake.rs:328-404 | a HELLO is answered with a DENY, its reason and nothing else, and the room is left as it is, if and only if it is of another version, names another room, or comes from a stranger while every slot is taken, looked at in that order; no other step denies anything |
| `Refusals.ClientIsRefusedIff` | crates/jam-protocol/src/handshake.rs:328-404 | the program's own client is told the room is another iff it is, that it is full iff it names the right one, is not in it and every slot is taken; otherwise it is in; told so, it gives up for that reason |
| `Retries.WelcomesAreBounded` | crates/jam-protocol/src/handshake.rs:460-507 | in any run, one pending episode of a slot sends at most ten WELCOMEs, at least 100 ms apart |
| `Retries.SilentSlotIsFreed` | crates/jam-protocol/src/handshake.rs:460-507 | a pending slot that hears nothing is freed once ticks spaced at least 100 ms apart have used up its remaining tries |
| `Retries.UnansweredGreetingIsDropped` | crates/jam-protocol/src/handshake.rs:375-507 | so a greeted client that is never heard from is dropped by the tenth such tick |
| `Retries.SlotIsFreedIff` | crates/jam-protocol/src/handshake.rs:455-507 | a slot is freed by a BYE of its address, by a tick more than 5000 ms after it was last heard, or, while pending, by a tick 100 ms after the tenth try, and in no other way |
| `Retries.SlotIsActivatedIff` | crates/jam-protocol/src/handshake.rs:420-452 | a pending slot becomes active on the acknowledgement of the WELCOME last stamped for it or on a packet of its sender, and in no other way |
| `Retries.StaleAcksNeverActivate` | crates/jam-protocol/src/handshake.rs:409-440 | over any run, acknowledgements of any other WELCOME never activate the slot |
| `Retries.AcksAreHeard` | crates/jam-protocol/src/handshake.rs:420-440 | every acknowledgement counts as having heard its sender and touches no other slot; only the number of the WELCOME last stamped settles it |
| `Retries.AttendedSlotIsKept` | crates/jam-protocol/src/handshake.rs:420-507 | an active client heard at least every 5000 ms keeps its slot over any run |
| `HostControl.HostLoop.PerformAction` | crates/jam-core/src/control.rs:114-178 | a send takes the next number and a WELCOME's is remembered; a join resets the buffer, clears the noted arrival, switches mute and solo off, sets flag and name and posts the same update to both queues; a leave resets, switches off, clears flag and name and posts |
| `HostControl.HostLoop.Iterate` | crates/jam-core/src/control.rs:190-308 | one turn of the loop: liveness of the sender, the packet, the liveness feed, the tick with its actions, then pings and keepalives to every client when due |
| `HostControl.HostLoop.SendToAll` | crates/jam-core/src/control.rs:288-305 | pings and keepalives go to each occupied slot's address in order, each with the next number |
| `Refusals.AnswersAreSent` | crates/jam-core/src/control.rs:121-130 | over every session, what the loop has sent, but for pings and keepalives, is exactly what the machine has answered, in order and each to its address |
| `Refusals.RefusalIsSent` | crates/jam-core/src/control.rs:193-210 | a refused stranger gets its DENY under the next number and nothing else happens before the clock is looked at |
| `HostSends.NumbersAreConsecutive` | crates/jam-core/src/control.rs:44-55 | over every session the packets go out numbered 0, 1, 2, ..., wrapping |
| `HostSends.PendingWasWelcomed` | crates/jam-core/src/control.rs:124-130 | at every turn of every session, a pending slot waits for the number of the last WELCOME sent to its address, and there is one |
| `HostSends.AcknowledgementActivates` | crates/jam-core/src/control.rs:436-448 | when that WELCOME reaches a client, the one acknowledgement its loop sends, handed to the machine, makes the slot active |
| `HostSends.TurnPings` | crates/jam-core/src/control.rs:288-305 | every client holding a slot at the end of a turn has been sent in it a ping if a second has passed since the last pings, and a keepalive if half a second has, and no others |
| `HostContact.PacketRefreshesSender` | crates/jam-core/src/control.rs:190-233 | a control packet from a client, but for a HELLO and the session's goodbye, makes its slot active and heard now, and leaves every other slot as it was |
| `HostContact.StrangersTouchNothing` | crates/jam-core/src/control.rs:190-233 | a stranger's packet that is no HELLO changes no slot |
| `HostContact.SlotIsAfter` | crates/jam-core/src/control.rs:190-233 | what every packet makes of every slot, up to the stamp of its WELCOME: started over, freed, refreshed or untouched |
| `HostContact.StaysPendingIff` | crates/jam-core/src/control.rs:136-286 | from the state before the turn: a slot is pending at its end, and so goes on being retransmitted, iff no arrival has been noted since its client joined, and a HELLO was accepted into it now, or it was pending, nothing came from its address, it is not silent for more than five seconds and ten tries have not failed |
| `HostContact.TurnWelcomes` | crates/jam-core/src/control.rs:190-286 | the exact number of WELCOMEs of a slot that a turn sends, from the state before it |
| `HostContact.TurnFreesIff` | crates/jam-core/src/control.rs:190-286 | exactly when a turn frees a slot, from the state before it |
| `HostLiveness.PendingPastFeedIff` | crates/jam-core/src/control.rs:269-286 | the second half of it: which slots the feed and the tick leave pending |
| `HostLiveness.TurnRepeatsIff` | crates/jam-core/src/control.rs:269-286 | in every turn, feed and tick send a slot's WELCOME once more if it is due and no arrival has been noted for the slot, and not at all otherwise |
| `HostLiveness.QuietTurnRepeatsIff` | crates/jam-core/src/control.rs:190-286 | so a turn without a HELLO sends exactly one WELCOME of the slot under that condition, and none otherwise |
| `HostLiveness.RenewedHelloGetsOneWelcome` | crates/jam-core/src/control.rs:190-286 | a client that starts over in a slot it has been heard from gets exactly one WELCOME in that turn, and its slot is not left pending |
| `HostLiveness.NotedSlotIsNeverRepeated` | crates/jam-core/src/control.rs:269-286 | over any number of later turns without a HELLO, the WELCOME of a slot with a noted arrival is never sent |
| `HostLiveness.RenewedHelloIsNotRepeated` | crates/jam-core/src/control.rs:190-286 | so over whole runs a renewed HELLO gets one WELCOME in all |
| `HostLiveness.RenewedHelloExample` | crates/jam-core/src/control.rs:136-142 | a session in which it happens, from its first turn: a client joins at 1 ms and a packet of it is noted at 30 ms, HELLO again at 50 ms, nothing sent at 150 ms when the retransmission would be due |
| `HostLiveness.NotedSlotIsFreedIff` | crates/jam-core/src/control.rs:269-286 | a turn frees a slot with a noted arrival if and only if its address says goodbye with the session's id, or the last noted arrival is more than 5000 ms old, whatever HELLO or acknowledgement came |
| `HostControl.DrainUpdates` | crates/jam-core/src/net.rs:72-81 | draining a queue applies its updates in order, ignoring slots out of range |
| `HostControl.PerformEffect` | crates/jam-core/src/control.rs:114-178 | what one action does to one slot: flag, name, buffer reset, noted arrival, switches and mirrored address, or nothing |
| `HostControl.HandleMirrorsSlot` | crates/jam-core/src/control.rs:114-178 | executing the actions of a handshake step restores the agreement between slot, flag, name, both tables and the log |
| `HostControl.TablesMirrorTheSession` | crates/jam-core/src/control.rs:114-308 | at every turn of every run: draining either queue gives exactly the handshake's table, the flags are the occupied slots, the name kept for a slot is the one its client joined under, each slot's buffer has been reset once per join and leave, addresses are distinct, and joins and leaves alternate |
| `HostSwitches.SwitchesFollowSlots` | crates/jam-core/src/control.rs:131-176 | over every session a slot's mute and solo switches are off if anyone has joined or left it since, and otherwise as they were; the host's own are never touched |
| `HostNames.ShownNameIff` | crates/jam-core/src/control.rs:114-178 | at every turn of every session: an occupied slot has the name of the last HELLO accepted into it, the host shows the name of the join, and they are the same if and only if that HELLO carried that name |
| `HostNames.ShownNameStays` | crates/jam-core/src/control.rs:190-308 | while a client keeps its slot the name shown does not change, whatever it says |
| `HostNames.RenamedClientExample` | crates/jam-protocol/src/handshake.rs:357-374 | a session in which they differ: a client joins under one name and starts over under another |
| `Network.RunKeepsInv` | crates/jam-protocol/src/handshake.rs:133-174 | over a network that loses, duplicates, delays and reorders, every WELCOME in flight was true when sent and every joined client acted on one of them |
| `Network.GrantHolds` | crates/jam-protocol/src/handshake.rs:328-530 | a slot stays with its address until a leave of its id is reported |
| `Network.JoinedClientsHoldTheirSlot` | crates/jam-protocol/src/handshake.rs:133-174 | a joined client's id is in 1..4 and comes from a WELCOME sent while that slot was its own; until a leave of the id is reported, the host maps its address to that id and to no other, with the session and parameters the client adopted |
| `Network.LiveIdsAreUnique` | crates/jam-protocol/src/handshake.rs:328-405 | two clients whose grants are both in force never share an id |
| `ClientControl.ClientLoop.Iterate` | crates/jam-core/src/control.rs:431-602 | one turn of the client's loop: packet, tick, actions, the check for a lost host, then ping and keepalive; until it has an id the client sends under 0xFFFF |
| `ClientControl.ClientLoop.KeepInTouch` | crates/jam-core/src/control.rs:583-602 | while joined, a ping every second and a keepalive every half second, under the id and session it was given |
| `ClientContact.ReactsExactly` | crates/jam-protocol/src/handshake.rs:133-180 | what moves the client's machine, and nothing else does: a WELCOME or a DENY while joining, a ROSTER once joined, each acted on with exactly what it says |
| `ClientContact.AcknowledgesExactly` | crates/jam-core/src/control.rs:436-448 | a turn that receives a WELCOME acknowledges it once, under the number it came under and in its session, whatever the client is doing; no other turn acknowledges anything |
| `ClientContact.GreetsExactly` | crates/jam-core/src/control.rs:492-582 | exactly when a turn sends a HELLO, and then one: the next try of an unanswered handshake, the first of a new one while the window is open, or the first after the host is lost |
| `ClientContact.LosesHostExactly` | crates/jam-core/src/control.rs:568-581 | it finds the host lost iff it is joined and has heard nothing for more than five seconds; and exactly which turns leave it joined |
| `ClientContact.StartsAudioExactly` | crates/jam-core/src/control.rs:472-534 | audio starts exactly when a joining client is let in, with the WELCOME's id, session and parameters |
| `ClientContact.EmptiesBufferExactly` | crates/jam-core/src/control.rs:472-582 | the stream's buffer is emptied then, at the session's goodbye and when the host is lost |
| `ClientContact.ClientIsAfter` | crates/jam-core/src/control.rs:431-602 | where every turn leaves the client: its phase, its thirty-second window, and the id and session it sends under |
| `ClientContact.StaysInTouchExactly` | crates/jam-core/src/control.rs:583-602 | exactly which pings and keepalives a turn sends |
| `ClientControl.ClientLoop.Perform` | crates/jam-core/src/control.rs:491-566 | one action, including a new handshake when one has timed out inside the window |
| `ClientControl.RejoiningIsBounded` | crates/jam-core/src/control.rs:395-582 | since the start, or since the host was last lost: at most 30 handshakes and 300 HELLOs; in each handshake at most ten, at least 100 ms apart, and audio started at most once |
| `ClientControl.GivingUpIsFinal` | crates/jam-core/src/control.rs:534-566 | once the client is neither joined nor joining - given up, denied, or told goodbye while joined - no HELLO, handshake or audio start ever follows |
| `ClientControl.GoodbyeEndsIff` | crates/jam-core/src/control.rs:470-481 | a goodbye with the session's id ends the client in that turn if and only if it is not joining, or its tick is the one that gives up after the tenth try |
| `ClientControl.GoodbyeWhileRejoining` | crates/jam-core/src/control.rs:470-481 | a life in which it does not: a client has joined, loses the host and, while it tries to rejoin, is told goodbye for the session it was in; it sends the next HELLO, and a WELCOME of the host started again starts its audio |
| `ClientControl.GivesUpIff` | crates/jam-core/src/control.rs:534-566 | a joining client gives up in a turn if and only if it is denied, or no WELCOME comes and the tick after its tenth try finds the window closed |
| `ClientControl.TurnsShowHeard` | crates/jam-core/src/control.rs:458-466 | over any run of turns, the roster shown is that of the WELCOME last joined by until a ROSTER comes, and then what the dedup by number has kept |
| `ClientControl.NewestIsShown` | crates/jam-protocol/src/packet.rs:466-480 | in whatever order ROSTERs arrive, the one with the highest number is kept, for numbers within 32767 of each other |
| `ClientControl.NewestRosterWins` | crates/jam-core/src/control.rs:458-533 | over every life of the loop: the client shows the newest ROSTER since it last joined, and the WELCOME's roster while there is none; it is the newest of all it was told if and only if no ROSTER has come since the WELCOME or one at least as new as it |
| `ClientControl.LateRosterReplacesWelcome` | crates/jam-core/src/control.rs:529-533 | when it is not: a WELCOME with number 9 and a late ROSTER with number 7, whose older roster is then shown |
| `Mix.SmoothedGain.Next` | crates/jam-audio/src/mixer.rs:28-34 | one frame towards the target, snapping when close |
| `Mix.AfterIs` | crates/jam-audio/src/mixer.rs:28-34 | after n frames to one target the distance has shrunk by (1 - alpha) to the power n, or the gain is the target |
| `Mix.SettledIff` | crates/jam-audio/src/mixer.rs:28-34 | the gain equals its target exactly when the decayed distance is below 0.0001 |
| `Mix.GainSettles` | crates/jam-audio/src/mixer.rs:28-34 | every gain driven to a fixed target equals it exactly after finitely many frames, with an explicit number |
| `Mix.NeverOvershoots` | crates/jam-audio/src/mixer.rs:28-34 | a step never passes the target and never moves away |
| `Mix.SoftClipIsMonotoneAndBounded` | crates/jam-audio/src/mixer.rs:62-70 | the clipper keeps the order of its inputs and stays within two thirds |
| `Mix.SoftClipIsOdd` | crates/jam-audio/src/mixer.rs:62-70 | the clipper treats both polarities alike |
| `Mix.SoftClipSlope` | crates/jam-audio/src/mixer.rs:62-70 | between any two points of the knee the clipper's slope is 1 less a third of the sum of their squares and product; beyond full scale it is flat, and silence stays silence |
| `Mix.MixScaled` | crates/jam-audio/src/mixer.rs:43-47 | adds the scaled source, sample by sample |
| `Mix.UnmixScaled` | crates/jam-audio/src/mixer.rs:51-55 | subtracts it |
| `Mix.SoftClipBuf` | crates/jam-audio/src/mixer.rs:72-76 | clips every sample in place |
| `Mix.EveryoneButYourself` | crates/jam-core/src/pipeline.rs:169-218 | outside echo mode a client's pre-clip frame is the trimmed gain-weighted sum of the host and all other active clients |
| `Mix.ClientHearsExactly` | crates/jam-core/src/pipeline.rs:205-235 | a client is sent half the gain-weighted sum of everybody else, or, in echo mode, its own frame |
| `Mix.HostHearsExactly` | crates/jam-core/src/pipeline.rs:237-249 | the host hears half the sum of all clients, with half of itself, without, or with its dry signal at the monitor's gain, by monitor mode |
| `Mix.MutedIsInaudibleToClients` | crates/jam-core/src/pipeline.rs:169-218 | a player whose gain has reached zero contributes exactly nothing to anyone else's frame |
| `Mix.MutedIsInaudibleToHost` | crates/jam-core/src/pipeline.rs:237-249 | nor to what the host hears |
| `Mix.GainFollows` | crates/jam-core/src/pipeline.rs:237-253 | over a run of ticks with one target a player's gain is the smoothed gain after that many frames; the monitor's moves in direct mode and only then |
| `Mix.MutedPlayerFallsSilent` | crates/jam-core/src/pipeline.rs:169-253 | a player muted for an explicit number of ticks, from any gains, is from then on inaudible to the host and, outside echo mode, to every other client for as long as it stays muted |
| `HostMix.HostPipeline.MixEveryone` | crates/jam-core/src/pipeline.rs:169-203 | the loops over scratch frames compute the mix of the host and the active clients and keep each contribution |
| `HostMix.HostPipeline.ProcessFrame` | crates/jam-core/src/pipeline.rs:169-253 | one tick: every active client's encoder gets its clipped return frame, the host its clipped monitor mix, and all gains advance by one step |

## Left out

- Opus and PCM codecs are foreign or trivial code: encoders give any bytes or fail; a decoder is an arbitrary function from the number of its calls and the packet to what it writes and whether it fails.
- Sockets, threads, sleeps, shutdown and the outgoing loss simulation: replaced by steps, queues and message sets.
- Weak memory: `JitterRace` and `JitterFlow` interleave single accesses under sequential consistency, so the fences are not modelled.
- A control-thread `reset` racing a push or a pop, which can clobber `next_seq`, is not part of the concurrent model; nor are the newest number and the counters, which no slot access depends on.
- `JitterFlow` takes the first push's stores of position and flag as one step, since the reader looks at neither before the flag is set; a push above the size limit is not in it.
- A slot's bytes are a sequence inside the slot record rather than a separate atomic array; each store still changes one byte.
- IEEE rounding: the resampler, drift controller, gains and mixes are exact over the reals, so cancellation in the mix is exact.
- `1 - exp(-frame / tau)`, the smoothing coefficient, is any real between 0 and 1.
- The jitter estimate is any non-negative real, because crates/jam-core/src/net.rs:218-219 feeds it wrapped timestamps; `ArrivalJitter` is not modelled.
- Overflow of the 64-bit counters and millisecond clocks, and saturation of the 32-bit target computation, cannot be reached in practice and are unbounded here; so is the controller's target, which a depth fixed within the deadband of the least 32-bit integer would overflow.
- The RMS gate compares mean squares with the squared threshold, which orders frames as their roots do.
- The sample-rate negotiation warning, meters, snapshots, PONG and the smoothed round-trip time, which nothing in the model reads.
- How mute and solo switches become target gains (crates/jam-core/src/pipeline.rs): targets are inputs of each tick; `HostControl` keeps the switches themselves only as far as joins and leaves turn them off.
- The receive thread's admission test by address, session and joined flag: frames enter the model once accepted; the tables it consults are those of `HostControl`.
- Device negotiation and stream building in crates/jam-core/src/engine.rs, except the output callback; STUN, terminal and graphical interfaces, command line.
- Closed-loop stability of the drift controller against the integer depth, which the code does not state.
- Output.OutputCallback.Serve: requires a block no larger than the FIFO, because otherwise its fill loop does not end (`Output.FillEndsIff`); the produced frames are a fixed stream of equal-length frames.
- Output.OutputCallback.Refill: requires the same, for the same reason.
- Resample.ResampleAll: takes ratios from 0.98 to 1.02, to which `set_ratio` clamps any other.
- HostControl.TablesMirrorTheSession: updates are taken between turns of the loop; a take in the middle of a turn only moves the front of a queue into the table, which leaves the drained table the same.
- HostControl.HostLoop.Iterate: arrivals noted by the receive thread take effect between the packet and the liveness feed of a turn; the goodbyes sent on shutdown or when the receive thread ends are not modelled.
- HostLiveness.NotedSlotIsNeverRepeated: arrival times later than the clock's zero, since the code reads 0 as never.
- ClientControl.ClientLoop.Iterate: the time of the last arrival is an arbitrary input of each turn, so the stores to it in the loop and in the receive thread are covered but not followed; resets of the playout buffer are outputs.
- Network.JoinedClientsHoldTheirSlot: what reaches the host is any sequence of inputs, so spoofed packets are covered; messages to a client are those the host sent to its address.
- Redundancy.SingleLossesAreRepaired: a final frame whose packet is lost has no following packet and is not popped in a timely schedule.
