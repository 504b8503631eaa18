# hackrf-proxy, verified

A Dafny model of the parts of hackrf-proxy in which being right is hard: the OOK
signal pipeline of the daemon, the half-duplex arbiter and the device it owns,
the air-time arithmetic of transmit requests, the reconnecting Python client,
and the WebSocket reader of the command-line probe. `dafny verify dfyconfig.toml`
checks all of it.

## The signal pipeline

`proxyd/src/ook.rs` holds one demodulator twice. The offline path slices a whole
recording into runs, folds glitches, and splits the runs into bursts. The
streaming `Detector` does the same one sample at a time, with one run of
lookahead, and ends a burst as soon as the silence has lasted the gap.

* `SampleClock`, `Iq`, `Runs`, `Bursts`, `Histogram` model the offline path: time
  conversion, the envelope, the run slicer, the burst accumulator and the
  amplitude histogram, each with what its result means. Runs alternate, are above
  the glitch floor and conserve the duration of the recording; the accumulator
  cuts the runs at their gaps; a percentile is an order statistic.
* `Detector` is the streaming class, method by method, proved against step
  functions on values.
* `Refinement` proves the central law: for every configuration at 1 MHz or more,
  every sequence of samples and every threshold, fixed or moving, the stream's
  frames are a prefix of the offline frames at any moment, and equal them, with
  the same overflow count, once a gap of silence has gone by. The proof is a
  simulation with three relations between the lookahead run and the end of the
  offline list.
* `Pieces` follows a gap-free stretch of edges of any length through the buffer and
  its overflows. `LeadingGlitch` settles when the stream and the offline path agree outright: for
  every recording that ends with a gap, if and only if a condition on how it opens
  holds, overflows and roundings included. At the daemon's own settings there is a
  recording on which they part.
* `Adaptation` describes the detector's state after any stream in terms of the
  samples alone: which window the threshold was measured on, when it armed, and
  that the division into transfers cannot be observed; what each burst's peak is;
  and in exactly which configurations every frame emitted is well formed.
* `Render` and `RoundTrip` model the modulator, and prove that what it renders is
  demodulated into exactly the frames that were sent, or, of frames too long for the
  buffer, exactly what the overflows leave of them. `Reception` closes the loop: the
  threshold measured on a transmission receives it, and so does a live receiver that
  adapts as it goes, whatever it heard before, after any gap, if the thresholds it
  measures let the carrier be heard.
* `Hearing` says when they do, in counts of samples: for windows of silence and one
  carrier, if and only if the third quartile does not mistake the carrier for noise.
  Where it does, the receiver is deaf to that carrier for a window.

## The arbiter

`Radio` models the lazily opened device, whose every driver call may fail.
`Arbiter` models one iteration of the loop in `proxyd/src/engine.rs` and the
state it updates in place, composed with that device: the `Input` of an iteration
supplies the command, the outcome of each driver call, and the clock readings.
Ghost logs record announcements, replies, device calls, faults and probes. A run
is any sequence of inputs, so the laws hold under any pattern of failures,
commands and delays. `ArbiterLaws` has the invariants; `Iterations` what each command
and each turn of work comes to, call by call and reply by reply, and what that adds
up to over a run; `EventLog` what a client following the announcements sees; and
`FaultStorm` the bound on how often a broken radio is probed.

## The protocol pieces

`Wire` models request validation in saturating 64-bit arithmetic and ties the
reported air time to the samples rendered. `Frames` states section 5.2 of RFC
6455 as an encoder and a parser, down to the bits of the mask, and `FrameReader`
proves that the probe's reader hears exactly what was sent, whatever the chunks.
`ClientSide` models the Python client as coroutines that interleave at their await
points. `ClientLaws` proves what every interleaving keeps, and `ClientHistory` what
the client makes of the messages it was sent and of each request it was given.

## Where the code and its documentation part

* The detector's comment promises to fold "exactly as the offline path does"
  (`proxyd/src/ook.rs:451-452`). It does, except on some recordings that open with a
  mark below the glitch floor. The offline path has nothing to fold such a mark into
  and keeps it; the stream starts from an empty space and silences it.
  `Refinement.StreamingRefinesOffline` compares the stream with the offline path on
  the recording with the mark silenced (`Unglitched`), and
  `LeadingGlitch.StreamingIsOfflineExactly` says when the two agree on the recording
  as it is: if and only if it begins cleanly, or what follows the mark up to the first
  gap has, since its last overflow, too few edges for a frame, or, when the first run above the floor is another mark, the
  time before it rounds to nothing or is lost in an overflow (`Harmless`).
  `LeadingGlitch.DefaultsPart` is a recording on which they part at the daemon's own
  settings, at every rate the radio supports.
* The detector's comment says that a signal occupying a minority of the window leaves
  the noise spread untouched (`proxyd/src/ook.rs:341-343`), and that on a band with
  signal the threshold is the offline one (`proxyd/src/ook.rs:348-349`). A carrier that
  takes between a quarter and a half of a window of silence is its third quartile, and
  counts as the noise. The threshold is then about twelve times the carrier at the
  daemon's settings, and nothing of that strength is received during the next window.
  `Hearing.ThresholdOnLevels` is the exact condition, and `Hearing.ThirdDeafens` a
  window that deafens the daemon, at every supported rate and to every carrier.
* A requested transmission may hold more edges than the receiving buffer
  (`proxyd/src/wire.rs:225` and `proxyd/src/ook.rs:203-206`). Such a frame comes back as
  its last edges alone, if at all (`RoundTrip.SurvivingEdges`).
* The air-time comment says "saturating throughout" (`proxyd/src/wire.rs:233-234`),
  but the product of repeats and gap is a plain multiplication. `Wire.AirTimeCheck`
  says for every request when the check is right, and `Wire.AirTimeWraps` names a
  request for which it is not.
* The backoff doubles before it is used, so the first wait after a fault is four
  seconds, not two (`proxyd/src/engine.rs:529-532`, `ArbiterLaws.FirstWaitIsDoubled`).
* Every announcement is the state of the radio, except that a transmission that
  succeeds while the receiver is wanted but faulted leaves "transmitting" as the
  last word (`proxyd/src/engine.rs:428-434`) until something else is announced.
  `EventLog.StaleExactly` says for every iteration when that is so, and
  `EventLog.StaleRun` is a run in which it is.
* The client's availability follows the radio, but only from the first announcement
  after the greeting (`clients/python/src/hackrf_proxy_client/client.py:297-299` and
  `clients/python/src/hackrf_proxy_client/client.py:326-331`): a daemon that is faulted
  when greeted counts as available (`ClientLaws.FaultedGreetingIsAvailable`).
* A frame is received if and only if what is left of it without a trailing space
  still has the minimum number of edges (`RoundTrip.TransmitReceive`); one that ends
  with a space and has just the minimum never is (`RoundTrip.TrailingSpaceCosts`).

## Model

| member | source | states |
|---|---|---|
| SampleClock.RoundDivBounds | proxyd/src/ook.rs:446-449 | a rounded conversion is within half a unit of the exact quotient, and a half goes up |
| SampleClock.MicrosOfSamples | proxyd/src/ook.rs:539-543 | at 1 MHz or more, a duration turned into samples by the modulator and back by the demodulator is unchanged |
| SampleClock.FloorInMicros | proxyd/src/ook.rs:374-375 | a run that reaches a floor in samples reaches the microseconds the floor was configured as |
| Iq.EnvelopeConcat | proxyd/src/ook.rs:34-40 | cutting a buffer between samples does not change its envelope |
| Iq.EnvelopeIsL1 | proxyd/src/ook.rs:30-40 | of any interleaved signed samples the envelope is the magnitude of I plus that of Q, sample by sample, and at most 256 |
| Iq.EveryBufferIsSamples | proxyd/src/ook.rs:34-40 | every buffer of whole samples is the interleaving of some signed amplitudes |
| Iq.OddByteIsDropped | proxyd/src/ook.rs:35 | a trailing odd byte leaves the envelope alone |
| Iq.LevelIsTwosComplement | proxyd/src/ook.rs:544 | the byte of an amplitude is the one equal to it modulo 256 |
| Runs.Slice | proxyd/src/ook.rs:144-166 | the offline loop yields the folded maximal runs of the thresholded envelope |
| Runs.RawRunsEncode | proxyd/src/ook.rs:151-164 | the maximal runs alternate, are never empty, and expand back to exactly the samples they came from |
| Runs.RawRunsOfExpand | proxyd/src/ook.rs:151-164 | an alternating list of non-empty runs is the only such encoding of its samples |
| Runs.FoldedConserves | proxyd/src/ook.rs:168-181 | folding glitches and joining neighbours moves time between runs and loses none |
| Runs.FoldingRelabels | proxyd/src/ook.rs:168-181 | folding counts a glitch as the polarity in force when it comes, every other run as its own, and joins what is then of one polarity |
| Runs.OfflineRuns | proxyd/src/ook.rs:140-181 | for any recording, rate and floor: runs alternate from the first sample's polarity, none after the first is under the floor, and their sum is the recording's length to within half a microsecond per maximal run |
| Bursts.BurstAccumulator.Push | proxyd/src/ook.rs:215-230 | one run reaches the accumulator: a gap ends the burst, leading silence is dropped, an edge over the limit discards and counts |
| Bursts.BurstAccumulator.Finish | proxyd/src/ook.rs:236-248 | trailing spaces are stripped, what remains is handed out if it has the minimum of edges, and the buffer is empty either way |
| Bursts.SplitBursts | proxyd/src/ook.rs:267-272 | the offline splitter returns every burst of the runs and the overflow count |
| Bursts.SplitIsDeclarative | proxyd/src/ook.rs:183-272 | when no segment outgrows the buffer, the bursts are exactly the segments between gaps, outer spaces trimmed and short ones dropped, in order, with no overflow |
| Bursts.SegmentsCut | proxyd/src/ook.rs:261-272 | the segments on the two sides of a gap do not influence each other |
| Bursts.FeedShape | proxyd/src/ook.rs:183-259 | on any alternating runs, jammed or not, every burst alternates, has an odd number of edges, starts and ends on a mark and holds no gap; what is buffered is a partial one |
| Bursts.BufferBounded | proxyd/src/ook.rs:205-228 | no input whatever leaves more than 4096 edges in the buffer between calls |
| Histogram.AmplitudeHistogram.AddMagnitude | proxyd/src/ook.rs:92-96 | the counts remain those of every magnitude seen since the last reset, the top bucket taking what is beyond it |
| Histogram.AmplitudeHistogram.Percentile | proxyd/src/ook.rs:112-138 | the bucket walk over the counts returns the quantile of the window they count |
| Histogram.AmplitudeHistogram.GetLevels | proxyd/src/ook.rs:116-122 | noise floor, signal and threshold read off the counts are those of the window they count |
| Histogram.QuantileIsOrderStatistic | proxyd/src/ook.rs:125-138 | a value is at or above the quantile p if and only if ceil(p * total) samples are at or below it |
| Histogram.QuantileExactly | proxyd/src/ook.rs:125-138 | the walk finds v if and only if the fraction p of the samples is at or below v, and that is not so of v - 1 |
| Histogram.CountsSamples | proxyd/src/ook.rs:92-96 | the count up to a bucket is the number of samples whose magnitude is at most that |
| Histogram.MagnitudesAreCounted | proxyd/src/ook.rs:92-96 | no magnitude of a sample reaches the top bucket, and each is counted as itself |
| Histogram.LevelsExactly | proxyd/src/ook.rs:116-122 | noise floor and signal are the 50% and 99.9% quantiles by count, and the threshold the floor plus the rounded fraction of what is between, capped at 16 bits |
| Histogram.QuantileMonotone | proxyd/src/ook.rs:125-138 | a larger quantile is never a smaller magnitude |
| Histogram.QuantileRobust | proxyd/src/ook.rs:52-59 | if enough samples are at most n, so is the quantile, whatever the others are |
| Histogram.LevelsOrdered | proxyd/src/ook.rs:116-122 | for a fraction in [0, 1], noise floor, threshold and signal are in this order |
| Histogram.LevelsRobust | proxyd/src/ook.rs:54-58 | if 99.9% of the samples are at most n, so is the threshold: outliers cannot drag it |
| Detector.Detector.Push | proxyd/src/ook.rs:398-415 | a chunk leaves the detector and returns the bursts that stepping it through the chunk's envelope would |
| Detector.Detector.PushMagnitude | proxyd/src/ook.rs:403-412 | each sample is counted, then sliced at the threshold in force, and only then may complete the window |
| Detector.Detector.PushSample | proxyd/src/ook.rs:417-444 | one sliced sample grows or ends the run in progress, raises the peak, and closes the burst exactly when a silence reaches the gap |
| Detector.Detector.EmitFinishedRun | proxyd/src/ook.rs:446-467 | a finished run is folded into the lookahead run if it is a glitch or of its polarity, and else releases it to the accumulator |
| Detector.Detector.Retune | proxyd/src/ook.rs:476-495 | the threshold becomes the one measured on the window just completed, a fresh window begins, and slicing is undisturbed |
| Refinement.StepSimulates | proxyd/src/ook.rs:417-467 | one streamed sample keeps the simulation between the stream and the offline path, through eager closing, an early-pushed lookahead and folding on both sides |
| Refinement.StreamedIsPrefix | proxyd/src/ook.rs:431-443 | at any moment the frames emitted are the first frames the offline path would find |
| Refinement.StreamingRefinesOffline | proxyd/src/ook.rs:451-452 | streaming equals offline for all inputs that end with a gap, frames and overflow count, and is a prefix of it for all others, a leading glitch silenced |
| Refinement.StreamingIsOffline | proxyd/src/ook.rs:144-181 | on recordings that begin below the threshold or with a proper mark and end with a gap, the two paths agree outright |
| Refinement.LeadingGlitchParts | proxyd/src/ook.rs:378-380 | a lone leading glitch before silence: the stream finds nothing, and the offline path a frame if and only if frames of one edge are kept |
| Bursts.SplitAtGap | proxyd/src/ook.rs:215-217 | what comes before a gap and what comes after it contribute bursts and overflows separately |
| Pieces.PieceFed | proxyd/src/ook.rs:222-228 | m edges without a gap leave the accumulator holding the last m modulo 4098 of them, or none after an overflow, and having overflowed once for every such cycle |
| LeadingGlitch.OfflineAgainstCommon | proxyd/src/ook.rs:168-181 | after a leading glitch, the whole recording is split as its part from the first proper run on is if and only if the glitch is harmless |
| LeadingGlitch.StreamingIsOfflineExactly | proxyd/src/ook.rs:451-452 | on every recording that ends with a gap, stream and offline path agree in frames and overflows if and only if it begins cleanly or its leading glitch is harmless |
| LeadingGlitch.KeptGlitchParts | proxyd/src/ook.rs:451-452 | for a glitch of a microsecond or more and a first piece that fits the buffer: they agree if and only if that piece has too few edges for a frame |
| LeadingGlitch.DefaultsPart | proxyd/src/ook.rs:308-323 | at the default settings and every supported rate, a recording that ends with a gap and on which they do not agree |
| Adaptation.DetectorState | proxyd/src/ook.rs:398-415 | after any stream, the detector's window, threshold and slicer in terms of the samples alone: the last full window set the threshold, and each sample was sliced at the one in force when it came |
| Adaptation.ArmsAfterOneWindow | proxyd/src/ook.rs:331-334 | the detector is armed if and only if a whole window has passed, and has emitted nothing by then |
| Adaptation.ThresholdAboveMedian | proxyd/src/ook.rs:476-492 | a measured threshold is at least 1 and at least the median of its window |
| Adaptation.ThresholdExactly | proxyd/src/ook.rs:476-492 | by counts of samples alone, a threshold is the highest of 1, the sliced level and the robust floor, each being the median plus an exactly rounded distance, capped at 16 bits |
| Adaptation.OfflineThresholdWins | proxyd/src/ook.rs:345-349 | it is never below the offline threshold of the same window, and equals it if and only if that is at least 1 and at least the robust floor |
| Adaptation.RobustFloorBounded | proxyd/src/ook.rs:481-486 | if three quarters of a window are at most n, a burst in the rest raises the robust floor no further than n plus the configured deviations of n |
| Adaptation.LiveRefinesOffline | proxyd/src/ook.rs:345-349 | the live receiver, thresholds moving as it goes, finds the offline frames of the bits it sliced |
| Adaptation.ChunkingInvisible | proxyd/src/ook.rs:397-415 | any division of a stream into transfers of whole samples yields the same bursts and peaks and the same final detector, retuning in mid-transfer included |
| Adaptation.PeaksAreLocal | proxyd/src/ook.rs:427-443 | the peak of every burst emitted is exactly the loudest carrier sample since the burst before it left, and the peak held is that of the samples since the last one |
| Adaptation.PeaksConserved | proxyd/src/ook.rs:469-471 | so the loudest peak, reported or still held, is the loudest carrier sample of the run: peaks may pass to a later burst but none is lost or made up |
| Adaptation.EmitsFrames | proxyd/src/ook.rs:183-195 | every frame the stream ever emits alternates, starts and ends on a mark, holds no gap, and has between the minimum and the maximum of edges, where a run at the floor lasts a microsecond |
| Adaptation.EmitsFramesExactly | proxyd/src/ook.rs:183-248 | a configuration has this property on all recordings if and only if a run at its floor lasts a microsecond, or it asks for so many edges that where none does nothing is emitted |
| Render.Synthesize | proxyd/src/ook.rs:539-551 | each timing becomes its length in constant carrier, or in zeros for a space |
| Render.RenderedOnI | proxyd/src/ook.rs:541-549 | every sample rendered has the level or zero for I and zero for Q |
| Render.RenderTransmission | proxyd/src/ook.rs:558-576 | the buffer is the rendering of the frame with the gap and the frame again after it, `repeat` times |
| Render.TransmissionDuration | proxyd/src/ook.rs:568-575 | a transmission lasts repeat + 1 frames and repeat gaps, and has as many timings |
| Render.SampleCountNear | proxyd/src/ook.rs:543-548 | a rendering is within half a sample per timing of its duration |
| Render.SampleCountExact | proxyd/src/ook.rs:543-548 | at a whole number of samples per microsecond it is exact |
| Render.PadToAlignment | proxyd/src/radio.rs:501-507 | padding appends fewer than 512 zeros and nothing else, and aligns the length to 512 |
| Render.ChunksAligned | proxyd/src/radio.rs:464-466 | every transfer of an aligned buffer, the last included, is aligned |
| RoundTrip.SynthesizedBits | proxyd/src/ook.rs:535-551 | rendered timings, sliced anywhere between silence and carrier, are the runs they list |
| RoundTrip.SplitPeriodic | proxyd/src/ook.rs:264-272 | what survives of identical frames between gaps, of any length, comes out of the splitter as often as they went in, with all their overflows |
| RoundTrip.SurvivingEdges | proxyd/src/ook.rs:203-228 | of a frame of n edges the last n modulo 4098 survive, or none where that is 4097, and it overflows (n + 1) / 4098 times |
| RoundTrip.AllOverflow | proxyd/src/ook.rs:255-258 | n frames overflow n times as often as one |
| RoundTrip.TransmitReceive | proxyd/src/ook.rs:553-576 | for every frame the receiver can tell apart, of any length, and every repeat count, gap, rate, amplitude and threshold: the demodulator returns exactly repeat + 1 copies of what survives of it, which is all but a trailing space if it fits the buffer, if that has the minimum of edges, and otherwise none; with the overflows of each copy |
| RoundTrip.TrailingSpaceCosts | proxyd/src/ook.rs:190-195 | a frame that ends with a space and has just the minimum of edges is never received |
| RoundTrip.TransmitReceiveLive | proxyd/src/ook.rs:431-443 | at a fixed threshold, a fresh stream returns the same copies, and counts the same overflows, once the silence after them has lasted the gap |
| Reception.MeasuredThreshold | proxyd/src/ook.rs:116-122 | on a recording of one carrier the measured threshold is above silence and at most the carrier if and only if half of it is carrier, or a thousandth is and the fraction of the carrier does not round to zero |
| Reception.TransmitMeasureReceive | proxyd/src/ook.rs:64-70 | measuring the threshold on the recording of a transmission, slicing and splitting at it yields the frames that were sent |
| Reception.ReceivedAfterAnything | proxyd/src/ook.rs:434-443 | once a gap of silence has gone by, what follows is received as the offline path would receive it alone, after whatever the stream had emitted |
| Reception.TransmitReceiveAdapting | proxyd/src/ook.rs:398-443 | a detector that has heard anything since its first window, and then a gap, receives a transmission as long as its threshold, which may move at any sample, is at most the carrier |
| Hearing.ThresholdOnLevels | proxyd/src/ook.rs:476-492 | after any window of silence and one carrier, the threshold is at most the carrier if and only if it is not the case that silence makes half of the window but not three quarters and that the deviations allowed for noise magnify the carrier |
| Hearing.DefaultsMagnify | proxyd/src/ook.rs:308-323 | at the default settings every carrier is magnified |
| Hearing.ThresholdOnNoise | proxyd/src/ook.rs:476-492 | on any window, if three quarters of it are at most n, the configured deviations of n above n are at most the carrier, and no more than a thousandth is louder than it, the threshold is at most the carrier |
| Hearing.HearingStaysBelow | proxyd/src/ook.rs:403-412 | the threshold stays at most the carrier throughout a transmission if every window in force during it is one of those two kinds |
| Hearing.TransmitReceiveCounted | proxyd/src/ook.rs:398-443 | the adapting detector, having just armed or heard anything and then a gap of silence, receives a transmission frame by frame if the counts of samples in the windows in force are those after which a carrier can be heard |
| Hearing.DeafForAWindow | proxyd/src/ook.rs:403-412 | a first window whose threshold is above a carrier leaves the detector without a frame from anything that strong for as long as it is in force |
| Hearing.ThirdDeafens | proxyd/src/ook.rs:341-349 | at the default settings and every supported rate, a second of which a third is carrier deafens the detector to that carrier for the next second |
| Wire.AirTimeExact | proxyd/src/wire.rs:232-239 | unless the gap product overflows, the reported air time is the true one capped at the largest 64-bit integer, for every timing list |
| Wire.AirTimeCheck | proxyd/src/wire.rs:264-267 | every request is under the air-time limit if and only if its true air time is, or the gap product wraps the total back under it |
| Wire.AirTimeWraps | proxyd/src/wire.rs:237-238 | a request accepted although its true air time is over the limit |
| Wire.ValidateExact | proxyd/src/wire.rs:241-269 | a request is accepted if and only if every documented limit holds of it, the true air time included, or its gap product wraps the air time back under the limit |
| Wire.RefusalIsTrue | proxyd/src/wire.rs:246-269 | a refusal gives a reason that holds of the request; a refused air time is over the limit in truth, and the figure given is the true one capped at 64 bits unless the gap product wraps, when it is short of it |
| Wire.RefusalIsFirst | proxyd/src/wire.rs:246-269 | of everything that is wrong with a request, the reason given is the first in the order in which they are looked for |
| Wire.RenderedLength | proxyd/src/wire.rs:231-239 | every request renders to as many samples as its true air time says, to within half a sample per edge, and exactly at whole samples per microsecond; the air time reported of an accepted request is that time, or less of it if and only if its gap product wraps |
| Radio.Device.StartRx | proxyd/src/radio.rs:406-422 | a live stream at the frequency asked for, or no stream and no handle; an open that fails leaves everything as it was |
| Radio.Device.Read | proxyd/src/radio.rs:424-439 | reading without a stream fails harmlessly; a failed read forgets handle and stream |
| Radio.Device.Stop | proxyd/src/radio.rs:441-451 | no stream is left in any case, and a stop that fails forgets the handle |
| Radio.Device.Transmit | proxyd/src/radio.rs:453-487 | reported sent only if it was sent and stopped; any failure past the handle forgets it |
| Radio.Device.Describe | proxyd/src/radio.rs:489-498 | an unanswered identification forgets the handle and with it any stream |
| Arbiter.Arbiter.Iterate | proxyd/src/engine.rs:202-215 | one iteration updates the state and the device to what `Step` gives: the command first, then a retry or a transfer |
| ArbiterLaws.StepKeeps | proxyd/src/engine.rs:183-215 | one iteration with any outcomes keeps arbiter and device in agreement, calls proper, bands apart and the backoff honest |
| ArbiterLaws.Reachable | proxyd/src/engine.rs:169-218 | in every reachable state the receiver is believed running if and only if the device has a live stream, tuned as believed, on an open handle; no read ever came without a stream and no start, transmission or identification with one; every frame announced was heard on its own frequency throughout; a fault excludes a running or proven receiver |
| ArbiterLaws.WidenedIsPower | proxyd/src/engine.rs:526-532 | after j failures in a row the backoff is the lesser of 2^(j+1) seconds and a minute |
| ArbiterLaws.BackoffShrinksOnlyOn | proxyd/src/engine.rs:461-470 | the backoff shrinks only in an iteration in which a transfer arrives, or when a radio appears on the bus during a fault |
| ArbiterLaws.ProbedWhenDue | proxyd/src/engine.rs:506-511 | whatever the command, the radio is probed in an iteration if and only if it is then faulted and wanted and its time has come, which it has at once when one appears on the bus |
| ArbiterLaws.FirstWaitIsDoubled | proxyd/src/engine.rs:529-532 | the first retry after a fault is due in four seconds |
| ArbiterLaws.ConfigureReplyIsHonest | proxyd/src/engine.rs:332-336 | a configuration is answered once, and with success if and only if the radio is then in the state asked for |
| ArbiterLaws.TransmitReplyIsHonest | proxyd/src/engine.rs:308-314 | a transmission is answered once, with success if and only if it cost no fault; failure leaves the radio announced as faulted |
| ArbiterLaws.NeverLeftTransmitting | proxyd/src/engine.rs:410-414 | in every run the call right after any transmission, failed or not, is a stop |
| Iterations.TransmitExactly | proxyd/src/engine.rs:383-437 | which calls a transmission makes of the radio; it is done if and only if the receiver made way, the gain is at most 47 and the radio obliged; else there is a fault whose retry is due after twice the last wait, at most a minute |
| Iterations.TransmitAnnounces | proxyd/src/engine.rs:393-434 | the announcements of a transmission, in every outcome |
| Iterations.ConfigureExactly | proxyd/src/engine.rs:315-353 | a configuration sets what it asks, stops and starts the receiver as needed, empties the detector, ends any fault, and fails if and only if a wanted receiver would not start |
| Iterations.ConfigureAnnounces | proxyd/src/engine.rs:351-352 | what has become of the radio is announced if and only if it is news |
| Iterations.StatusExactly | proxyd/src/engine.rs:361-378 | a status request is answered with the state the radio is in and changes nothing |
| Iterations.ArrivalExactly | proxyd/src/engine.rs:354-360 | a radio that appears makes a faulted arbiter due at once with the least backoff, and is ignored otherwise |
| Iterations.RetryExactly | proxyd/src/engine.rs:506-523 | a due retry stops and probes the radio, and ends the fault if and only if the radio answers |
| Iterations.PumpExactly | proxyd/src/engine.rs:439-495 | a healthy wanted receiver is started if need be and read once; a transfer that arrives is delivered and resets the backoff, and anything else is a fault |
| Iterations.PumpAnnounces | proxyd/src/engine.rs:447-461 | a receiver that starts is announced, and so is a fault, each if and only if it is news |
| Iterations.FramesExactly | proxyd/src/engine.rs:472-493 | frames are announced if and only if a transfer arrived, as many as it completed, at the present frequency; the detector has had every transfer since the last configuration |
| Iterations.ReceivingIsReading | proxyd/src/engine.rs:202-215 | an iteration that was no retry ends healthy and wanted if and only if a transfer arrived in it, and then it made exactly one read |
| Iterations.EveryBurstIsAnnounced | proxyd/src/engine.rs:472-493 | in every run as many frames are announced as the transfers that arrived have completed |
| Iterations.StaysAsConfigured | proxyd/src/engine.rs:315-319 | in every run the receiver is wanted and tuned as it was last configured |
| Iterations.EveryRequestIsAnswered | proxyd/src/engine.rs:300-380 | in every run each request has had one reply |
| EventLog.StepTracks | proxyd/src/engine.rs:268-281 | an iteration keeps the last announcement current and never repeats one other than a transmission |
| EventLog.LastAnnouncementIsCurrent | proxyd/src/engine.rs:183-215 | in every run, between iterations, the last announcement is the radio's state, but for a radio idle all along and a transmission during a fault; only transmissions are ever announced twice in a row |
| EventLog.StaleExactly | proxyd/src/engine.rs:428-434 | an iteration leaves a transmission as the last word if and only if one has just succeeded while the receiver was wanted but faulted, or one had and the command, if any, announced nothing; and the radio was not brought back in it |
| EventLog.StaleRun | proxyd/src/engine.rs:206-211 | a run after which the last announcement is transmitting and the radio is faulted |
| EventLog.SmoothRunsTakeTurns | proxyd/src/engine.rs:428-434 | while nothing fails and the receiver is wanted, announcements are transmitting and receiving in strict turns, never idle |
| FaultStorm.EarliestIsMinutes | proxyd/src/engine.rs:526-532 | from the fourth on, the k-th probe comes no sooner than k - 3 minutes after the first fault |
| FaultStorm.StepContained | proxyd/src/engine.rs:497-533 | an iteration without data, commands that fail in it included, keeps every probe on or after its place in the schedule of widening waits |
| FaultStorm.RetryNeverSooner | proxyd/src/engine.rs:526-532 | no iteration without data or a new radio makes the next retry due sooner, nor due later than the backoff from now |
| FaultStorm.ProbesBounded | proxyd/src/engine.rs:497-533 | in every run without data after its first fault, at most 3 + floor(T/60 s) probes fall in the T after it, whatever clients ask for meanwhile |
| Frames.ValueOfBigEndian | tools/wsprobe.py:79-81 | a length survives network byte order at any width that holds it |
| Frames.NetworkByteOrder | tools/wsprobe.py:79-81 | the k-th byte of a length from its end counts 256^k |
| Frames.ParseEncoded | tools/wsprobe.py:97-104 | a whole frame followed by anything parses to the frame and what follows, in all three length forms |
| Frames.StandardExamples | tools/wsprobe.py:73-81 | frames are encoded as in the unmasked examples of section 5.7 of RFC 6455 |
| Frames.StandardHeaders | tools/wsprobe.py:78-81 | and so are headers with the two longer forms of the length |
| Frames.MaskUndoesItself | tools/wsprobe.py:82-83 | masking twice with the same mask is the identity |
| Frames.XorBitByBit | tools/wsprobe.py:83 | the bits of a masked byte are those in which byte and mask differ |
| Frames.MaskedIsLaidOut | tools/wsprobe.py:73-84 | a masked frame byte by byte: FIN and opcode, mask bit and the shortest form of the length, the mask, and each payload byte under its byte of the mask, bit by bit |
| Frames.ParseMaskedEncoded | tools/wsprobe.py:73-84 | a server recovers a masked frame, and where the next one starts, whatever the mask |
| FrameReader.WebSocket.Until | tools/wsprobe.py:53-62 | the split is at the first occurrence of the marker in the whole stream, however it was cut, and no byte is lost |
| FrameReader.WebSocket.Handshake | tools/wsprobe.py:42-51 | the answer depends on the status line alone, and bytes that came with it remain to be read |
| FrameReader.WebSocket.Read | tools/wsprobe.py:64-71 | exactly the next bytes of the stream, or an end if there are too few, however they arrive |
| FrameReader.WebSocket.Recv | tools/wsprobe.py:94-111 | the next text message of the stream, one well-formed pong sent per ping passed |
| FrameReader.WebSocket.Send | tools/wsprobe.py:73-84 | what is sent parses at the server as one whole text frame with this text, and is laid out as section 5.2 of RFC 6455 says, the masked bytes included |
| FrameReader.WebSocket.Listen | tools/wsprobe.py:170-174 | connecting and listening hears all a stream has to say and sends as many pongs as it has pings |
| FrameReader.FirstStays | tools/wsprobe.py:53-62 | bytes that arrive later do not move the first occurrence of a marker |
| FrameReader.GreetedExactly | tools/wsprobe.py:42-51 | a server is accepted if and only if a header ends and 101 occurs before the end of its first line, dropped if and only if none ends, and what follows the first end of a header is left to read |
| FrameReader.HearsWhatWasSent | tools/wsprobe.py:94-111 | a reader that keeps asking hears exactly the text payloads sent before the first close, in order, and passes exactly the pings before it |
| FrameReader.GluedFramesAreHeard | tools/wsprobe.py:47-51 | frames glued to the handshake are what is left to read after it |
| Ids.IdsDiffer | clients/python/src/hackrf_proxy_client/client.py:224-226 | no two counters are written as the same id, and none as the greeting's |
| Ids.DecimalReads | clients/python/src/hackrf_proxy_client/client.py:224-225 | an id is the decimal notation of its counter, without a leading zero |
| ClientSide.ProxyClient.FailPending | clients/python/src/hackrf_proxy_client/client.py:346-350 | everyone listed and waiting has failed, nobody else is touched, and nobody is listed |
| ClientSide.ProxyClient.Advance | clients/python/src/hackrf_proxy_client/client.py:218-350 | whichever coroutine runs next, and whatever befalls it, does one step of the model |
| ClientLaws.StepKeeps | clients/python/src/hackrf_proxy_client/client.py:218-350 | any step of any coroutine keeps ids, entries, replies, availability and waits in order |
| ClientLaws.Reachable | clients/python/src/hackrf_proxy_client/client.py:218-350 | in every interleaving: entries are exactly the unfinished requests of the present connection; a settled request has the first message with its id since it was sent; listeners hear only changes; drops count only established connections |
| ClientLaws.RepliesAreCorrelated | clients/python/src/hackrf_proxy_client/client.py:312-318 | a request that was answered, or refused by the daemon, got the first message bearing its id after it was sent, over the same connection |
| ClientLaws.IdsAreNeverReused | clients/python/src/hackrf_proxy_client/client.py:224-226 | over the client's whole life no id goes on the wire twice |
| ClientLaws.FinishedStays | clients/python/src/hackrf_proxy_client/client.py:238-243 | a request completes at most once: nothing that happens later changes it |
| ClientLaws.NobodyOutlivesTheConnection | clients/python/src/hackrf_proxy_client/client.py:259-270 | without a connection nothing is listed, the client is unavailable, and no unfinished request still waits for a reply |
| ClientLaws.NobodyIsForgotten | clients/python/src/hackrf_proxy_client/client.py:228-233 | a request still waiting is listed under its own id and belongs to the present connection |
| ClientLaws.FaultedGreetingIsAvailable | clients/python/src/hackrf_proxy_client/client.py:297-299 | a greeting that reports a fault still makes the client available |
| ClientHistory.AvailabilityFollowsTheRadio | clients/python/src/hackrf_proxy_client/client.py:326-331 | in every interleaving, while connected, the state is the last one announced over this connection, or the greeting's, and the client is available if and only if no fault was the last thing announced; without a connection it has neither |
| ClientHistory.FramesAreNoticed | clients/python/src/hackrf_proxy_client/client.py:320-322 | in every interleaving the time of the last frame is that of the last frame announced |
| ClientHistory.DropsAreOfGreeted | clients/python/src/hackrf_proxy_client/client.py:261-265 | in every interleaving the drops counted are the connections that were greeted, but for the present one |
| ClientHistory.WaitsWiden | clients/python/src/hackrf_proxy_client/client.py:247-275 | in every interleaving, the next wait after n others since a connection last opened is the lesser of 2^n seconds and a minute |
| ClientHistory.ComesBack | clients/python/src/hackrf_proxy_client/client.py:245-300 | a client asleep, or just started, is available once a daemon has answered it, with its state, and waits a second at first |
| ClientHistory.GoesToSleep | clients/python/src/hackrf_proxy_client/client.py:255-275 | whatever ends a connection, or an attempt at one, puts the client to sleep, or stops it if it is being closed |
| ClientHistory.StopsWhenTold | clients/python/src/hackrf_proxy_client/client.py:169-178 | a client told to stop is stopped at once, or when its open connection has been torn down |
| ClientHistory.StaysStopped | clients/python/src/hackrf_proxy_client/client.py:245-275 | a stopped client stays stopped and unavailable until it is started |
| ClientHistory.AcceptedExactly | clients/python/src/hackrf_proxy_client/client.py:218-230 | a request goes on the wire under the next id and is listed under it if and only if the client is available; else nothing happens |
| ClientHistory.SendingExactly | clients/python/src/hackrf_proxy_client/client.py:231-240 | a request that cannot be sent ends as unreachable and is no longer listed, one that is sent waits, and no timer runs until then |
| ClientHistory.ReplyIsGiven | clients/python/src/hackrf_proxy_client/client.py:312-318 | in every state the invariant allows, the message with its id ends a waiting request, as an error if it is one |
| ClientHistory.InterruptionIsGiven | clients/python/src/hackrf_proxy_client/client.py:232-239 | a waiting request whose time is up ends as timed out, and one that is cancelled as withdrawn, and neither stays listed |
| ClientHistory.LossIsGiven | clients/python/src/hackrf_proxy_client/client.py:346-350 | a waiting request ends as lost once its connection is torn down |

## Left out

- Floating point: durations, quantiles, fractions and thresholds are exact rationals, rounded where the program rounds; errors of double precision are not modelled. Microsecond and sample counts are unbounded; only amplitudes saturate at 16 bits and air times at 64.
- Adaptation.PeaksAreLocal: a burst's peak is not claimed to be the maximum of the burst's own samples, because the code does not keep that.
- Detector.Detector.Push: the bursts already completed in a call are passed along as a value; the shared configuration is a constant of the object.
- RoundTrip.TransmitReceiveLive: at one threshold and from a fresh stream; `Reception.TransmitReceiveAdapting` has the detector that adapts.
- Reception.TransmitReceiveAdapting: that the threshold stays at or below the carrier is a hypothesis here; `Hearing.HearingStaysBelow` derives it from the windows, and `Hearing.TransmitReceiveCounted` is free of it.
- Hearing.TransmitReceiveCounted: the windows it admits are those of silence and one carrier, for which the condition is exact, and those whose noise leaves the carrier room; between the two the condition is sufficient only.
- Adaptation.EmitsFrames: where a run at the glitch floor lasts a microsecond; `Adaptation.EmitsFramesExactly` says that it fails everywhere else but where nothing is emitted.
- Render.PadToAlignment: returns the padded buffer instead of resizing it in place.
- Arbiter.Arbiter.Iterate: the detector is represented by the number of bursts a transfer completes and by where its samples were read; the bursts themselves are the pipeline's.
- ArbiterLaws.TransmitReplyIsHonest: the waveform and the air time in the reply are those of `Render` and `Wire`, and validation has happened before the command is accepted (`proxyd/src/server.rs:173-179`).
- ArbiterLaws.ProbedWhenDue: the pause between looks at a faulted radio, and the stop when the command channel closes, are not modelled; nor are the counters and the device's description.
- Radio.Device.Transmit: the transfers it writes succeed or fail as one.
- FrameReader.WebSocket.Recv: payloads are bytes; decoding them as UTF-8, socket timeouts, fragmented messages and echoing a ping's payload are not modelled, the last two not being implemented either.
- FrameReader.WebSocket.Handshake: the upgrade request itself is not modelled.
- ClientSide.ProxyClient.Advance: callbacks do not call back into the client, the client is started only when stopped, and how long timeouts take is left open, so that they may strike whenever their coroutine is suspended under them.
- ClientLaws.RepliesAreCorrelated: of a message only the id, the kind and the state are looked at.
- The USB driver, the server and its connections, JSON, logging, the recorder, the command lines, frequency and gain parsing, and version comparison: input, output and single checks.
- `width_histogram`, `compare_bursts`, `peak_magnitude` and `add_iq`: simple reductions.
