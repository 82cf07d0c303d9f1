# Audio pipeline and addresses of Roc Toolkit: a Dafny model

The project models the parts of Roc Toolkit whose correctness rests on index arithmetic and on state
kept between calls, and proves what they compute for every input and every run.

- **Built-in resampler** (`FixedPoint`, `SincWindow`, `SincTable`, `WindowWalk`, `Scaling`,
  `BuiltinResampler`): the windowed-sinc walk over three frames in 32-bit fixed point equals a plain weighted
  sum over the whole pushed signal. The files also say exactly for which times and scaling factors the index checks fail.
- **Depacketizer** (`StreamTime`, `DepacketizerSpec`, `DepacketizerSafety`, `Timeline`, `TimelineOracle`,
  `FrameDivision`, `Retained`, `PacketDrops`, `Capture`, `Depacketizer`): packets in any order become a
  gapless timeline with wrapping timestamps (section 5.1 of RFC 3550). A class with the source's loops
  refines a step function, and the other files prove safety, content, drops and capture times over whole runs.
- **Decimation resampler** (`DecimationSpec`, `DecimationResampler`): the output is replayed from a script
  of copies, repeats and drops, and its length stays within one frame of the ideal.
- **Channel mapping** (`ChannelSet`, `MixMatrix`, `MixSearch`, `SearchBounds`, `ShippedTables`,
  `SearchEnds`, `MixIndex`, `MixRules`, `ChannelMapperMatrix`, `TrackMap`, `ChannelMapper`): the table search
  and when it ends, the coefficient matrices and the walks over interleaved buffers.
- **Wave files** (`Bytes`, `ImaSpec`, `ImaReads`, `ImaSplit`, `ImaFrameCount`, `ImaDecoder`,
  `RiffSpec`, `RiffRoundTrip`, `RiffForeign`, `RiffFiles`): the IMA ADPCM decoder, and writing and reading a
  RIFF file in memory.
- **Endpoint URIs** (`Pct`, `EndpointUri`): percent-encoding (sections 2.1, 2.3 and 3.3 of RFC 3986), the
  URI object with its validity bits, and the formatter.

`Arith`, `Finite` and `Options` hold what several files share.

## Where code and expectation differ

The model follows the code. Each of these is stated as a lemma or contract with its exact condition.

- Accepted scaling factors up to 1 can panic (`Scaling.AcceptedNeverPanicsIff`, `Scaling.UpsamplingPanics`).
- The right pass reads one sample behind the current frame exactly when time plus half window equals the
  frame size, and calls can bring that about (`WindowWalk.ResampleOne`, `Resampler.ReadsBehindFrame`).
- In frames above 2048 samples the end of a window can exceed 32 bits, and its right half is then left out
  (`WindowWalk.EndNeverWrapsIff`, `Scaling.LongFrameLosesRightHalf`).
- The remark that the interpolation fraction does not change inside a side of the window does not hold for
  the default step (`Scaling.FractionStaysIff`, `Scaling.FractionChangesByDefault`).
- An empty packet exactly half the timestamp range away panics the depacketizer
  (`DepacketizerSafety.UpdatePanicsIff`).
- Out-of-order packets can be played as silence (`TimelineOracle.PlaysOracleIff`).
- A frame that ends before a leading gap does gets a capture time that is too late
  (`Capture.RunCtsExactIff`, `Capture.LateCaptureTime`).
- `is_superset` is true for every mask once a channel lies above the first word
  (`Channels.ChannelSet.IsSuperset`, `Channels.HighChannelSuperset`).
- A frame of the largest size that the configuration check admits has size zero in fixed point
  (`FixedPoint.LargestFrameWraps`).
- With the shipped tables the search does not end for some inputs and outputs of the low-frequency channel
  alone or of nothing (`SearchEnds.SearchEndsIff`, `SearchEnds.EndlessSearches`).
- The upmix search keeps the first fitting table of the list, not the last (`ChannelMatrix.FindBestUpmix`).
- Split reads of IMA data differ from one read after a bad block, and in the state left at the very end
  (`ImaSplit.SplitSamplesIff`, `ImaSplit.SplitStateIff`).
- A compressed format passes the refusal of the writer if it has more than 16 bits
  (`RiffRoundTrip.CompressedIff`).
- Odd data too large for the size field is read back with its padding (`RiffRoundTrip.DataRoundTrip`).
- Assigning a URI to itself fails, and a verified URI with a NUL in its path cannot be formatted
  (`Endpoint.EndpointUri.Assign`, `Endpoint.EndpointUri.Format`).

## Model

| member | source | states |
|---|---|---|
| FixedPoint.QCeilWraps | src/internal_modules/roc_audio/builtin_resampler.cpp:50-57 | rounding up in Q12.20 commutes with reduction modulo 2^32, for every integer |
| FixedPoint.CeilIndex | src/internal_modules/roc_audio/builtin_resampler.cpp:45-57 | the index computed from a rounded-up, possibly wrapped difference is its true ceiling, or that plus 4096 exactly when the difference is at or below minus one |
| FixedPoint.LargestFrameWraps | src/internal_modules/roc_audio/builtin_resampler.cpp:343-354 | of all frame sizes that the configuration check admits, exactly the largest has a fixed-point size of zero |
| SincWindow.PhaseStops | src/internal_modules/roc_audio/builtin_resampler.cpp:478-486 | at any position not after the output time the phase is non-negative, and it is at least one sinc step exactly when another whole position still fits before that time, so the left pass stops at the centre |
| SincWindow.WindowLookup | src/internal_modules/roc_audio/builtin_resampler.cpp:399-408 | for every position inside a window whose kernel fits, the phase is below 2^32 and the lookup together with its right neighbour lies inside the table |
| SincWindow.LookupInTable | src/internal_modules/roc_audio/builtin_resampler.cpp:367-408 | any phase below the window size plus one table slot hits the table with its neighbour: the two spare slots suffice |
| SincWindow.InterpolateShift | src/internal_modules/roc_audio/builtin_resampler.cpp:410-513 | interpolating a cut of a longer signal gives the value of the whole signal at the shifted time |
| SincTable.SincBetween | src/internal_modules/roc_audio/builtin_resampler.cpp:399-408 | a lookup is worth something between its two slots, and equals one of them exactly at its end of the way |
| SincTable.SincExactOnLine | src/internal_modules/roc_audio/builtin_resampler.cpp:399-408 | if the slots of the table lie on a line, a lookup with the fraction of its phase, times the scaling it was divided by, is the line at exactly that phase |
| SincTable.WindowIs | src/internal_modules/roc_audio/builtin_resampler.cpp:414-451 | the window is made of exactly the positions within the half window of the time |
| SincTable.PhaseNear | src/internal_modules/roc_audio/builtin_resampler.cpp:453-458 | the phase of a position is its distance from the time times the sinc step, up to one slot |
| SincTable.WeightBetween | src/internal_modules/roc_audio/builtin_resampler.cpp:453-510 | whatever the table, the weight of a window position lies between the two slots around its phase |
| SincTable.InterpolateOnLine | src/internal_modules/roc_audio/builtin_resampler.cpp:410-513 | with a table on a line, an output sample times the scaling is the sum of the window samples, each times the line at its own distance, up to two slots per sample, and exactly so for a constant table |
| WindowWalk.PanicsExactly | src/internal_modules/roc_audio/builtin_resampler.cpp:414-451 | for every frame below 4096 samples, half window and time: the wrapped 32-bit index checks panic exactly when the window leaves the three frames, and otherwise the computed bounds cut the window into consecutive pieces, except that an end beyond 32 bits is not checked and comes out 4096 positions too low |
| WindowWalk.EndsWrapped | src/internal_modules/roc_audio/builtin_resampler.cpp:440-451 | an end index beyond 32 bits lies 4096 positions too low, at or left of the centre, and nothing is taken from the next frame |
| WindowWalk.NeverPanicsIff | src/internal_modules/roc_audio/builtin_resampler.cpp:414-451 | no output time at all panics if and only if the half window is no longer than a frame, or, from 2048 samples on, less than one sample longer |
| WindowWalk.EndNeverWrapsIff | src/internal_modules/roc_audio/builtin_resampler.cpp:440-451 | no end index exceeds 32 bits if and only if frame and half window together do not |
| WindowWalk.InitialPhase | src/internal_modules/roc_audio/builtin_resampler.cpp:453-458 | the wrapped subtraction gives the true distance from the first position of the window to the output time, between 0 and the half window |
| WindowWalk.CrossZero | src/internal_modules/roc_audio/builtin_resampler.cpp:492-498 | at the centre the mirrored phase is that of the next position, and the second fraction is the one of the right side |
| WindowWalk.WalkPrev | src/internal_modules/roc_audio/builtin_resampler.cpp:472-476 | the loop over the previous frame adds every window position of it once, in order, with phase and lookup in range |
| WindowWalk.WalkLeft | src/internal_modules/roc_audio/builtin_resampler.cpp:478-490 | the left loop stops exactly behind the centre, having added every position up to it |
| WindowWalk.WalkRight | src/internal_modules/roc_audio/builtin_resampler.cpp:500-504 | the right loop adds every position up to the end of its range, or none if the range ends before it begins; it reads behind the frame exactly when the range ends there |
| WindowWalk.WalkNext | src/internal_modules/roc_audio/builtin_resampler.cpp:506-510 | the loop over the next frame adds the rest of the window |
| WindowWalk.ResampleOne | src/internal_modules/roc_audio/builtin_resampler.cpp:410-513 | for every frame below 4096 samples, time, half window and step: a panic exactly when the window leaves the three frames, a read behind the current frame exactly when time plus half window is the frame size, the sum up to the centre only exactly when time plus half window exceeds 32 bits, and otherwise the weighted sum over every window position of previous, current and next frame, each used once |
| Scaling.ScaledKernelFits | src/internal_modules/roc_audio/builtin_resampler.cpp:208-233 | half window times sinc step, both rounded down, never exceeds the table, and one more of each would, for every factor |
| Scaling.ScaledBounds | src/internal_modules/roc_audio/builtin_resampler.cpp:194-236 | in frames up to 3686 samples every factor that passes the first check has half window, sinc step and step within 32 bits, and with the windows of the profiles time plus step too |
| Scaling.OutOfBoundsCheck | src/internal_modules/roc_audio/builtin_resampler.cpp:212-217 | the two wrapped comparisons reject exactly the half windows that are at least a frame long |
| Scaling.AcceptedNeverPanicsIff | src/internal_modules/roc_audio/builtin_resampler.cpp:178-239 | an accepted factor rules out every index panic if and only if it is above 1 or the unscaled half window fits |
| Scaling.UpsamplingPanics | src/tests/roc_audio/test_resampler.cpp:37-42 | a concrete accepted setting (44100 to 96000 Hz, window 32, frame 23) whose first output sample panics |
| Scaling.LongFrameLosesRightHalf | src/internal_modules/roc_audio/builtin_resampler.cpp:440-504 | a concrete accepted setting (192000 to 8000 Hz, window 64, frame 2304, a quarter faster) whose 67th output sample lacks everything right of the centre, for any signal |
| Scaling.FractionStaysIff | src/internal_modules/roc_audio/builtin_resampler.cpp:465-467 | the interpolation fraction is the same at neighbouring positions if and only if the step times the table resolution is whole |
| Scaling.FractionChangesByDefault | src/internal_modules/roc_audio/builtin_resampler.cpp:230-233 | the step used for factors up to 1 is not such a step in any profile |
| Resampler.LastThree | src/internal_modules/roc_audio/builtin_resampler.cpp:241-266 | the last three frames are a cut of the whole pushed signal |
| Resampler.RingSeesWholeSignal | src/internal_modules/roc_audio/builtin_resampler.cpp:241-294 | what the three frames of the ring give is the interpolation of everything pushed so far at the position of the next output, or its part up to the centre exactly when the end of the window exceeds 32 bits |
| Resampler.StreamSplits | src/internal_modules/roc_audio/builtin_resampler.cpp:268-294 | two requests give the output of one request of their total size, lost halves included |
| Resampler.WholeIfEndsFit | src/internal_modules/roc_audio/builtin_resampler.cpp:268-294 | if frame and half window together stay within 32 bits, no output sample of the stream loses part of its window |
| Resampler.LeftOver | src/internal_modules/roc_audio/builtin_resampler.cpp:296-298 | two frames minus the time inside the current frame is the pushed time minus the next output position |
| Resampler.StepAccounted | src/internal_modules/roc_audio/builtin_resampler.cpp:287-290 | a step moves the next output position and the sum of steps alike |
| Resampler.PushAccounted | src/internal_modules/roc_audio/builtin_resampler.cpp:254-266 | a push keeps the next output position if the current frame is used up, and otherwise adds one skipped frame to the account |
| Resampler.BuiltinResampler.SetScaling | src/internal_modules/roc_audio/builtin_resampler.cpp:178-239 | accepts exactly the usable factors, changes nothing when it refuses, and leaves a configured kernel otherwise, whose windows end within 32 bits in frames up to 2048 samples |
| Resampler.BuiltinResampler.BeginPushInput | src/internal_modules/roc_audio/builtin_resampler.cpp:241-252 | rotates the ring without touching a frame that is still in use |
| Resampler.BuiltinResampler.EndPushInput | src/internal_modules/roc_audio/builtin_resampler.cpp:254-266 | previous, current and next frame are the last three pushed; in every run the next output position stays one frame plus the sum of all steps plus the skipped frames, and a frame is skipped exactly when the current one was not used up |
| Resampler.BuiltinResampler.PopFrame | src/internal_modules/roc_audio/builtin_resampler.cpp:287-290 | for every accepted setting, one output frame is the interpolation of the whole pushed signal, up to the centre only where the end of the window exceeds 32 bits, unless the window does not fit |
| Resampler.BuiltinResampler.PopStep | src/internal_modules/roc_audio/builtin_resampler.cpp:287-291 | an output frame moves the time by one step and keeps the account of the position; a window that does not fit moves nothing |
| Resampler.BuiltinResampler.PopOutput | src/internal_modules/roc_audio/builtin_resampler.cpp:268-294 | for every accepted setting, the output is the interpolation of the whole pushed signal at consecutive steps, up to the centre only where the end of a window exceeds 32 bits, and the account of the position is kept; it ends with a full buffer, a used-up frame, or at the first time whose window does not fit or ends exactly at the frame |
| Resampler.BuiltinResampler.NLeftToProcess | src/internal_modules/roc_audio/builtin_resampler.cpp:296-298 | equals pushed time minus next output position exactly when the 32-bit difference does not wrap |
| Resampler.ReadsBehindFrame | src/internal_modules/roc_audio/builtin_resampler.cpp:440-505 | calls with two accepted factors, of the low profile at equal rates, after which an output sample reads behind the current frame |
| StreamTime.NearDiff | src/internal_modules/roc_packet/units.h:40-52 | for positions less than half the range apart, the wrapped difference and comparison are the true ones |
| DepacketizerSafety.OverlapSize | src/internal_modules/roc_audio/depacketizer.cpp:228-279 | a packet that is not late either starts ahead or overlaps by less than its length; half the range away it must be empty |
| DepacketizerSafety.UpdatePanicsIff | src/internal_modules/roc_audio/depacketizer.cpp:210-280 | fetching panics if and only if the packet it accepts is empty and exactly 2^31 away; otherwise the held packet is never behind the stream |
| DepacketizerSafety.SamplesPanicIff | src/internal_modules/roc_audio/depacketizer.cpp:106-170 | one round panics on such a packet only: the position check and the shift check cannot fail otherwise |
| DepacketizerSafety.HalfRangePanics | src/internal_modules/roc_audio/depacketizer.cpp:269-279 | a fresh depacketizer that gets a packet of one sample and an empty one 2^31 ahead panics in its first frame |
| DepacketizerSafety.FrameKeeps | src/internal_modules/roc_audio/depacketizer.cpp:88-208 | every frame of every run: no panic without empty packets, exactly the requested number of samples, the stream moves by that much, and decoded plus missing samples stay the distance from the first timestamp |
| DepacketizerSafety.FlagsMatchContents | src/internal_modules/roc_audio/depacketizer.cpp:298-314 | a frame is flagged not blank exactly if it holds decoded samples, and not complete exactly if it holds a gap |
| PacketDrops.FetchTakes | src/internal_modules/roc_audio/depacketizer.cpp:218-241 | a fetch drops and counts exactly the packets it takes that ended where the stream stands, and the packet it finds is the one that did not |
| PacketDrops.FetchConserves | src/internal_modules/roc_audio/depacketizer.cpp:218-241 | what a fetch takes and what it leaves are all packets of the reader, in order |
| PacketDrops.FrameDrops | src/internal_modules/roc_audio/depacketizer.cpp:88-279 | in every frame that does not panic, each packet taken is late and counted or accepted, and packets are taken in order and once |
| PacketDrops.DropFlagIff | src/internal_modules/roc_audio/depacketizer.cpp:298-312 | the packet-drops flag of a frame is set if and only if some packet taken for it had ended at the position where it was taken, or up to half the range before |
| PacketDrops.TakenInFrame | src/internal_modules/roc_audio/depacketizer.cpp:88-104 | in a started stream every packet is taken at a position inside the frame |
| DepacketizerSafety.FirstPacketIsOrigin | src/internal_modules/roc_audio/depacketizer.cpp:259-265 | the first packet fixes the origin of the stream |
| DepacketizerSafety.FrameSound | src/internal_modules/roc_audio/depacketizer.cpp:88-208 | every audible sample of every frame is one that some received packet carries for exactly that timestamp |
| DepacketizerSpec.ReadProgress | src/internal_modules/roc_audio/depacketizer.cpp:98-100 | a round that writes nothing uses up an answer of the reader or the held packet, so the frame loop ends |
| Retained.AcceptedIs | src/internal_modules/roc_audio/depacketizer.cpp:218-279 | an accepted packet is held whole but for what is already past |
| Retained.HeldRound | src/internal_modules/roc_audio/depacketizer.cpp:106-155 | one round plays a held packet at its own positions after a gap, and what does not fit stays owed |
| Retained.FrameHeard | src/internal_modules/roc_audio/depacketizer.cpp:88-104 | a frame of any size holds exactly what was owed before it and what it accepted, and leaves the rest owed |
| Retained.RetainedIsPlayed | src/internal_modules/roc_audio/depacketizer.cpp:88-208 | in every run with any reader answers, timestamps and frame sizes, a position is silent if and only if no accepted packet covers it, and otherwise holds the sample that packet carries there |
| Retained.RunOnTime | src/internal_modules/roc_audio/depacketizer.cpp:88-208 | every accepted packet was received, and one clock that moves with the cells gives each of its samples its own timestamp |
| Timeline.FetchSkipsLate | src/internal_modules/roc_audio/depacketizer.cpp:218-241 | fetching drops exactly the packets that end at or before the stream position, and the stream to be played stays the same |
| Timeline.AcceptTimeline | src/internal_modules/roc_audio/depacketizer.cpp:250-279 | cutting off the part of a packet that is in the past leaves the stream to be played as it is |
| Timeline.SamplesTimeline | src/internal_modules/roc_audio/depacketizer.cpp:106-170 | one round plays the next part of the stream the queue stands for |
| Timeline.FrameTimeline | src/internal_modules/roc_audio/depacketizer.cpp:88-104 | a frame of any size is the next part of the stream the queue stands for |
| Timeline.FrameSizesDoNotMatter | src/internal_modules/roc_audio/depacketizer.cpp:88-208 | with all packets queued up front, the concatenated output is the stream of the queue from its first packet on, for every division into frames |
| FrameDivision.PacketGrows | src/internal_modules/roc_audio/depacketizer.cpp:141-208 | what a packet gives for a larger request is what it gives for a smaller one and, if that was filled, for the rest |
| FrameDivision.SamplesGrow | src/internal_modules/roc_audio/depacketizer.cpp:106-170 | with all packets queued, a round that does not fill its room is the same in a larger room, and one that fills it is the first part of the round in the larger room, for any timestamps |
| FrameDivision.FrameSplits | src/internal_modules/roc_audio/depacketizer.cpp:88-170 | with all packets queued, one frame is any two frames of its total size one after the other: same cells, same state, same panics, for any timestamps |
| FrameDivision.RunIsOneFrame | src/internal_modules/roc_audio/depacketizer.cpp:88-208 | with all packets queued, a run over any division into frames panics exactly when one frame of the total size does, and otherwise plays the same cells and ends in the same state, for any timestamps |
| FrameDivision.DivisionDoesNotMatter | src/internal_modules/roc_audio/depacketizer.cpp:88-208 | two divisions of the same total size are the same run |
| FrameDivision.DryFrameAsksOnce | src/internal_modules/roc_audio/depacketizer.cpp:156-170 | a frame that meets an empty answer is silent to its end and leaves every later answer unread |
| FrameDivision.OneSample | src/internal_modules/roc_audio/depacketizer.cpp:106-170 | the next sample of a started stream without a packet is what the fetched packet has for that time, or a gap |
| FrameDivision.DivisionMattersWhenDry | src/internal_modules/roc_audio/depacketizer.cpp:156-170 | when the reader has nothing now, one frame of two samples is silent, and two frames of one sample play for the second position what the packet found behind the empty answer has for it, so the outputs differ exactly when it has a sample there or panics |
| TimelineOracle.AgreeAtIff | src/internal_modules/roc_audio/depacketizer.cpp:210-241 | at each position the played sample is that of the first packet covering it, unless that packet comes after the stream has passed |
| TimelineOracle.PlaysOracleIff | src/internal_modules/roc_audio/depacketizer.cpp:210-241 | the whole output is "first packet that covers the position, else silence" if and only if no packet reaches back over a hole |
| TimelineOracle.SortedIsHoleFree | src/internal_modules/roc_audio/depacketizer.cpp:210-241 | packets in stream order never do |
| TimelineOracle.ReorderingMakesHoles | src/internal_modules/roc_audio/depacketizer.cpp:228-241 | three packets out of order for which a covered position is played as silence |
| Capture.UpdateTracks | src/internal_modules/roc_audio/depacketizer.cpp:254-275 | if the packets fetched carry capture times linear in stream time, the running capture time is that of the held packet, or of the stream if none is held |
| Capture.GapTracks | src/internal_modules/roc_audio/depacketizer.cpp:116-136 | a gap gives the frame the capture time of its first sample plus the part of the gap that does not fit |
| Capture.FrameTracks | src/internal_modules/roc_audio/depacketizer.cpp:88-168 | a frame of a started stream whose own packets carry linear capture times does not panic and keeps the running capture time exact, whatever comes after these packets |
| Capture.FrameCtsExactIff | src/internal_modules/roc_audio/depacketizer.cpp:131-168 | the capture time of a frame is that of its first sample if and only if a leading gap ends within the frame |
| Capture.GapIsDetermined | src/internal_modules/roc_audio/depacketizer.cpp:109-136 | state and unread answers determine the leading gap, so the condition on capture times names one number |
| Capture.RunTracks | src/internal_modules/roc_audio/depacketizer.cpp:88-208 | over a run of any length whose packets carry linear capture times nothing panics, and the running capture time is exact at the position reached, with the unread rest of the given answers |
| Capture.RunCtsExactIff | src/internal_modules/roc_audio/depacketizer.cpp:88-168 | in every such run, the capture time of each frame is that of its first sample if and only if the gap before the next packet, the held one or the first unread one of the given answers that is not late, ends within the frame |
| Capture.UntimedFrame | src/internal_modules/roc_audio/depacketizer.cpp:313-318 | while no packet has a capture time, no frame gets one |
| Capture.LateCaptureTime | src/internal_modules/roc_audio/depacketizer.cpp:131-136 | two packets and two frames of one sample of which the second gets the capture time of a later sample |
| Capture.FirstPacketTracks | src/internal_modules/roc_audio/depacketizer.cpp:254-265 | tracking begins with the first packet |
| Depacketizing.Depacketizer.FetchPacket | src/internal_modules/roc_audio/depacketizer.cpp:218-241 | the fetch loop answers what the specification of fetching says, packets dropped and left over included |
| Depacketizing.Depacketizer.UpdatePacket | src/internal_modules/roc_audio/depacketizer.cpp:210-280 | the new state is that of the specification, or both panic |
| Depacketizing.Depacketizer.ReadMissingSamples | src/internal_modules/roc_audio/depacketizer.cpp:189-208 | writes gaps to exactly its range and advances the stream and one counter |
| Depacketizing.Depacketizer.ReadPacketSamples | src/internal_modules/roc_audio/depacketizer.cpp:172-187 | writes what fits of the held packet and drops a packet that ran dry |
| Depacketizing.Depacketizer.ReadSamples | src/internal_modules/roc_audio/depacketizer.cpp:106-170 | state, buffer and frame information are those of the specification |
| Depacketizing.Depacketizer.Read | src/internal_modules/roc_audio/depacketizer.cpp:80-104 | fills the whole buffer with the frame of the specification and sets its properties, or panics with it |
| DecimationSpec.ReplayCopies | src/internal_modules/roc_audio/decimation_resampler.cpp:208-224 | copying many samples at once is copying frame by frame |
| DecimationSpec.ReplayExtends | src/internal_modules/roc_audio/decimation_resampler.cpp:151-164 | later input does not change what was done with earlier input |
| Decimation.PartialBuffer | src/internal_modules/roc_audio/decimation_resampler.cpp:109-120 | an accepted factor changes no refill, however short, by more than one frame |
| Decimation.DecimationResampler.SetScaling | src/internal_modules/roc_audio/decimation_resampler.cpp:104-137 | accepts exactly the factors within one frame per buffer; a refusal by the inner resampler keeps the factor but not the choice of resampler |
| Decimation.DecimationResampler.EndPushInput | src/internal_modules/roc_audio/decimation_resampler.cpp:151-164 | the pushed buffer is appended to the input and its scaled length to the ideal length |
| Decimation.DecimationResampler.RepeatLast | src/internal_modules/roc_audio/decimation_resampler.cpp:192-199 | a repeat writes the last output frame again, and is the only change since the refill |
| Decimation.DecimationResampler.DropFrame | src/internal_modules/roc_audio/decimation_resampler.cpp:200-206 | a drop skips one input frame, and is the only change since the refill |
| Decimation.DecimationResampler.CopyFrames | src/internal_modules/roc_audio/decimation_resampler.cpp:208-224 | whole input frames go to the output, and the last one is remembered |
| Decimation.DecimationResampler.PopOutput | src/internal_modules/roc_audio/decimation_resampler.cpp:166-233 | the output is the input in order with single frames dropped or repeated, at most one per refill; with the input used up, its length is less than one frame from the ideal length |
| Decimation.DecimationResampler.ExhaustedDrift | src/internal_modules/roc_audio/decimation_resampler.cpp:166-233 | in every reachable state with used-up input the output is less than one frame away from the sum of scaled input lengths |
| Decimation.DecimationResampler.FewChanges | src/internal_modules/roc_audio/decimation_resampler.cpp:192-206 | over a whole run there are no more drops and repeats than fillings of the buffer, and the output is the replay of the recorded edits |
| Channels.ChannelSet.IndexChans | src/internal_modules/roc_audio/channel_set.cpp:320-343 | the cached count, first and last channel become cardinality, minimum and maximum of the bits, empty words skipped |
| Channels.ChannelSet.HasChannel | src/internal_modules/roc_audio/channel_set.cpp:128-135 | decides membership |
| Channels.ChannelSet.SetMask | src/internal_modules/roc_audio/channel_set.cpp:177-183 | the set becomes the mask |
| Channels.ChannelSet.SetRange | src/internal_modules/roc_audio/channel_set.cpp:185-202 | the set becomes the range |
| Channels.ChannelSet.ToggleChannel | src/internal_modules/roc_audio/channel_set.cpp:241-254 | adds or removes one channel |
| Channels.ChannelSet.ToggleChannelRange | src/internal_modules/roc_audio/channel_set.cpp:256-277 | adds or removes a range |
| Channels.ChannelSet.BitwiseAnd | src/internal_modules/roc_audio/channel_set.cpp:279-285 | intersection, also with itself |
| Channels.ChannelSet.BitwiseOr | src/internal_modules/roc_audio/channel_set.cpp:287-293 | union, also with itself |
| Channels.ChannelSet.BitwiseXor | src/internal_modules/roc_audio/channel_set.cpp:295-301 | symmetric difference, also with itself |
| Channels.ChannelSet.IsSubset | src/internal_modules/roc_audio/channel_set.cpp:161-167 | decides inclusion in the mask, for sets with channels in any word |
| Channels.ChannelSet.IsEqual | src/internal_modules/roc_audio/channel_set.cpp:153-159 | decides equality with the mask, for sets with channels in any word |
| Channels.ChannelSet.IsSuperset | src/internal_modules/roc_audio/channel_set.cpp:169-175 | true exactly if the mask is included or some channel lies above the first word |
| Channels.HighChannelSuperset | src/internal_modules/roc_audio/channel_set.cpp:169-175 | a set of channel 64 alone that passes for a superset of channel 0 |
| MixMatrix.NormalizeWeights | src/internal_modules/roc_audio/channel_mapper_matrix.cpp:338-354 | normalizing non-negative rows gives rows that are zero or sum to 1, and uses no further input channel |
| MixMatrix.CombineWeights | src/internal_modules/roc_audio/channel_mapper_matrix.cpp:311-336 | composing two mappings gives such rows again, over the inputs of the first |
| MixRules.CombineIff | src/internal_modules/roc_audio/channel_mapper_matrix.cpp:311-337 | a combined output takes from an input if and only if some channel between them passes it on |
| MixRules.CombineActs | src/internal_modules/roc_audio/channel_mapper_matrix.cpp:311-337 | a combined mapping applied to any vector is the second applied to the first, divided by the sum of the row |
| MixSearch.NoUpmixOnceCovering | src/internal_modules/roc_audio/channel_mapper_matrix.cpp:208-257 | once the current channels cover the output, no upmix table can be selected, for any table list |
| MixSearch.DownKeepsOutput | src/internal_modules/roc_audio/channel_mapper_matrix.cpp:98-157 | a downmix keeps every output channel and drops at least one current channel |
| MixSearch.UpsThenDowns | src/internal_modules/roc_audio/channel_mapper_matrix.cpp:98-157 | for any table list the moves are upmixes followed by downmixes |
| MixSearch.FillWeights | src/internal_modules/roc_audio/channel_mapper_matrix.cpp:259-294 | the matrix of one table step is non-negative with rows zero or summing to 1, over the current channels only |
| MixRules.RulesAre | src/internal_modules/roc_audio/channel_mapper_matrix.cpp:264-273 | the raw matrix of a table holds for each pair of channels the coefficient of the last rule in force, and zero without one |
| MixRules.FillIs | src/internal_modules/roc_audio/channel_mapper_matrix.cpp:258-294 | an output of one step takes from an input if and only if both take part and a rule leads from the one to the other, or back when upmixing, and in proportion to the shares of the rules |
| MixRules.DownmixRatio | src/internal_modules/roc_audio/channel_mapper_matrix.cpp:258-294 | the entries of a downmixed output stand in the ratio of the coefficients of their rules |
| MixSearch.MappingWeights | src/internal_modules/roc_audio/channel_mapper_matrix.cpp:85-158 | so is the mapping of a search that ends, over the original input channels |
| MixRules.MappingIff | src/internal_modules/roc_audio/channel_mapper_matrix.cpp:85-158 | the matrix of a search that ends, in terms of rules alone: an output takes from an input if and only if a chain of rules leads from one to the other through every table chosen |
| MixSearch.ExtendWeights | src/internal_modules/roc_audio/channel_mapper_matrix.cpp:134-154 | each further step keeps such rows, so any number of steps does |
| SearchBounds.WalkEndsSoon | src/internal_modules/roc_audio/channel_mapper_matrix.cpp:230-254 | for any table list, a walk for an upmixing table that ever ends does so within one round more than there are tables, with the same answer |
| SearchBounds.SearchSettles | src/internal_modules/roc_audio/channel_mapper_matrix.cpp:98-155 | for any table list, a search that ever ends does so within twice as many moves as there are tables and one, and its mapping does not depend on how long it is watched |
| SearchEnds.OrderedEnds | src/internal_modules/roc_audio/channel_mapper_matrix.cpp:98-155 | with tables ordered so that downmixes go up and upmixes go down the list, every search ends whose input and output have more than a core of channels |
| ShippedTables.EarlierServes | src/internal_modules/roc_audio/channel_tables.cpp:105-2004 | in the shipped list, whatever one output mask shares with a later table is kept by an earlier table that fits too |
| ShippedTables.UpmixesGrow | src/internal_modules/roc_audio/channel_tables.cpp:105-2004 | in the shipped list, an input mask lies within output masks of later tables only |
| SearchEnds.SearchEndsIff | src/internal_modules/roc_audio/channel_tables.cpp:105-2004 | with the shipped masks, for all inputs and outputs, the search ends unless nothing but the low-frequency channel is asked for and something else inside a mask is given, or nothing but it is given and something inside a mask is asked for that centre and low-frequency channel do not cover |
| SearchEnds.EndlessSearches | src/internal_modules/roc_audio/channel_tables.cpp:105-2004 | four concrete searches that never end: stereo to the low-frequency channel or to nothing, and either of these to the left channel |
| MixIndex.PhysicalFacts | src/internal_modules/roc_audio/channel_mapper_matrix.cpp:54-83 | the frame order of a set lists each of its supported channels exactly once |
| MixIndex.IndexWeights | src/internal_modules/roc_audio/channel_mapper_matrix.cpp:356-381 | moving coefficients to frame positions keeps rows zero or summing to 1 |
| MixIndex.BuildWeights | src/internal_modules/roc_audio/channel_mapper_matrix.cpp:21-158 | for any tables with non-negative coefficients, any sets and orders, every row of the matrix that a search ends with is non-negative and zero or sums to 1 |
| MixRules.BuildIff | src/internal_modules/roc_audio/channel_mapper_matrix.cpp:21-158 | the same for the final matrix by place in the frame, and the same channel without a search |
| MixRules.OneDownmix | src/internal_modules/roc_audio/channel_mapper_matrix.cpp:21-297 | after a single downmix the entries of an output stand in the ratio of the coefficients of its rules |
| MixRules.StereoToMono | src/internal_modules/roc_audio/channel_tables.cpp:120-132 | with the shipped masks and the rules of the table from 2.1 to 1.1, mono is half of the left and half of the right channel |
| MixIndex.BuildSettles | src/internal_modules/roc_audio/channel_mapper_matrix.cpp:21-52 | the matrix does not depend on how long the search was watched |
| MixIndex.ClampIsIdle | src/internal_modules/roc_audio/channel_mapper.cpp:83-95 | clamping never changes a value that such a matrix makes of samples in range |
| MixIndex.ReorderMoves | src/internal_modules/roc_audio/channel_mapper_matrix.cpp:296-309 | with equal channels each sample moves to the place of its channel in the other order |
| MixIndex.ReorderRoundTrip | src/internal_modules/roc_audio/channel_mapper_matrix.cpp:54-91 | mapping to another order of the same channels and back returns every frame in range |
| ChannelMatrix.NormalizeMapping | src/internal_modules/roc_audio/channel_mapper_matrix.cpp:338-354 | the array becomes the normalized matrix, row by row in place |
| ChannelMatrix.CombineMappings | src/internal_modules/roc_audio/channel_mapper_matrix.cpp:311-336 | the first array becomes the normalized matrix product |
| ChannelMatrix.FillFromTable | src/internal_modules/roc_audio/channel_mapper_matrix.cpp:259-294 | the array becomes the matrix of one table step |
| ChannelMatrix.FindCanDownmix | src/internal_modules/roc_audio/channel_mapper_matrix.cpp:160-190 | the nested loops find whether the tables of one input mask together cover the output |
| ChannelMatrix.FindNextDownmix | src/internal_modules/roc_audio/channel_mapper_matrix.cpp:192-206 | finds the first table that fits |
| ChannelMatrix.FindNextUpmix | src/internal_modules/roc_audio/channel_mapper_matrix.cpp:208-257 | the walk back from the output set ends at the table the search relation names, or is reported as still going; walking down the list keeps the first fitting table, not the last as the comment has it |
| ChannelMatrix.FindTable | src/internal_modules/roc_audio/channel_mapper_matrix.cpp:109-127 | one selection gives the next move of the search, and a walk still going is told apart from no table |
| ChannelMatrix.BuildChannelMapping | src/internal_modules/roc_audio/channel_mapper_matrix.cpp:85-158 | the search loop computes the mapping of the moves, and what it reports as ended is the outcome of the search for any numbers of rounds and moves |
| ChannelMatrix.BuildIndexMapping | src/internal_modules/roc_audio/channel_mapper_matrix.cpp:54-83 | the two index arrays are inverse to each other on the enabled channels, unused places marked |
| ChannelMatrix.PopulateIndexMatrix | src/internal_modules/roc_audio/channel_mapper_matrix.cpp:356-381 | each coefficient goes to the frame positions of its channels |
| ChannelMatrix.ChannelMapperMatrix.BuildMatrix | src/internal_modules/roc_audio/channel_mapper_matrix.cpp:21-52 | if the search is seen to end, the matrix is the one of the tables, orders and sets, the same for all limits, with rows zero or summing to 1 |
| TrackMap.OutputByTrack | src/internal_modules/roc_audio/channel_mapper.cpp:133-151 | each output track holds the input sample of the same track number, or zero |
| TrackMap.ThereAndBack | src/internal_modules/roc_audio/channel_mapper.cpp:133-151 | from one track set to another and back, common tracks are restored and the others are zero |
| TrackMap.NothingOutside | src/internal_modules/roc_audio/channel_mapper.cpp:137-138 | the walk may start at the first and stop at the last track of either set |
| ChannelMapping.MapSurroundSurround | src/internal_modules/roc_audio/channel_mapper.cpp:80-99 | each output frame is the matrix applied to its input frame, clamped |
| ChannelMapping.MapMultitrackMultitrack | src/internal_modules/roc_audio/channel_mapper.cpp:133-151 | the single pass gives the rank-based mapping of every frame, and both pointers end exactly at the ends of their frames |
| ChannelMapping.MapMultitrackSurround | src/internal_modules/roc_audio/channel_mapper.cpp:104-128 | each output frame is its input frame cut or filled with zeros, and both pointers end exactly at the ends of their frames |
| ImaSpec.Nudges | 3rdparty/dr_wav/dr_wav.h:6393-6425 | every step of a word keeps the predictor a 16-bit sample and the step index inside its table |
| ImaSpec.DifferenceMeans | 3rdparty/dr_wav/dr_wav.h:6400-6404 | the four bits stand for a sign and an odd number of eighths of the step, of which rounding loses at most 17/8 |
| ImaSpec.NudgeMeans | 3rdparty/dr_wav/dr_wav.h:6391-6411 | a 4-bit difference moves the predictor by odd eighths of the step, and the step one place down for small differences and 2, 4, 6 or 8 places up for large ones, all within their limits |
| ImaSpec.StepsGrow | 3rdparty/dr_wav/dr_wav.h:6286-6297 | the steps grow from 7 to 32767, each to eleven tenths of the one before with an error below one, but for the last |
| Bytes.Signed16Means | 3rdparty/dr_wav/dr_wav.h:6322-6343 | the sample in a block header is the number with a sign that agrees with its 16 bits |
| ImaReads.ReadKeeps | 3rdparty/dr_wav/dr_wav.h:6303-6431 | a read of any size keeps all predictors, indices and cached samples in range, gives no more than asked, and moves the cursor by what it gives |
| ImaReads.FirstNine | 3rdparty/dr_wav/dr_wav.h:6306-6420 | in one channel a block gives the sample of its header and then one sample for every 4-bit difference, low half of a byte first |
| ImaReads.FirstSamples | 3rdparty/dr_wav/dr_wav.h:6281-6420 | eight concrete bytes and the samples they begin with |
| ImaReads.ShortReadIsLast | 3rdparty/dr_wav/dr_wav.h:6303-6431 | after a read cut short by the end of the data or of the stream nothing comes |
| ImaReads.BadBlockIsSkipped | 3rdparty/dr_wav/dr_wav.h:6316-6320 | a block with a bad step index ends the read without a frame, and the next read starts behind it |
| ImaReads.BadBlockBreaksSplit | 3rdparty/dr_wav/dr_wav.h:6316-6320 | a concrete stream for which two reads give a frame that one longer read does not |
| ImaSplit.ShortReadCause | 3rdparty/dr_wav/dr_wav.h:6303-6431 | a read is cut short by the first bad header that the layout of blocks puts within the frames asked for, or else only by the end of data or stream |
| ImaSplit.SplitSamplesIff | 3rdparty/dr_wav/dr_wav.h:6303-6431 | n and then m frames are the samples of n + m frames unless m is positive, the first n frames meet a bad header, and a whole good header is where the decoder seeks to |
| ImaSplit.GoodDataSplits | 3rdparty/dr_wav/dr_wav.h:6303-6431 | on data without bad headers they always are |
| ImaSplit.PlaceIs | 3rdparty/dr_wav/dr_wav.h:6303-6431 | block and group sizes alone say whether n frames are there, and at which place they leave the decoder |
| ImaSplit.SplitStateIff | 3rdparty/dr_wav/dr_wav.h:6303-6431 | both ways leave the same state unless m is positive and the first read meets a bad header that is not the last thing in the data, or takes the very last frame inside a block with data left |
| ImaSplit.EndStateDiffers | 3rdparty/dr_wav/dr_wav.h:6375-6427 | eight concrete bytes for which the samples are the same and the states differ |
| ImaFrameCount.PullStocked | 3rdparty/dr_wav/dr_wav.h:6303-6431 | on well-formed data each frame takes exactly one off the number computed from what is left |
| ImaFrameCount.CountOfBlocks | 3rdparty/dr_wav/dr_wav.h:3707-3722 | for whole blocks the 64-bit count is one per header and eight per group |
| ImaFrameCount.CountIsExact | 3rdparty/dr_wav/dr_wav.h:3707-3722 | on well-formed data the count made at opening is exactly what the decoder gives, even if the stream promised more |
| ImaDecoding.NudgesAt | 3rdparty/dr_wav/dr_wav.h:6393-6425 | each sample of a word comes from the one before by its half of a byte |
| ImaDecoding.ImaDecoder.ReadHeader | 3rdparty/dr_wav/dr_wav.h:6306-6350 | state, cache and stream position are those of the specification for good, bad and cut-off headers |
| ImaDecoding.ImaDecoder.DecodeWord | 3rdparty/dr_wav/dr_wav.h:6393-6425 | the samples of a channel land in its own places of the cache and nowhere else |
| ImaDecoding.ImaDecoder.ReadGroup | 3rdparty/dr_wav/dr_wav.h:6375-6427 | eight interleaved frames are cached, or none if the data ends in any channel |
| ImaDecoding.ImaDecoder.ReadFrames | 3rdparty/dr_wav/dr_wav.h:6276-6432 | the loop with its cache gives exactly the frames and the state of decoding one frame at a time, the group decoded ahead at the end of the stream included |
| RiffSpec.FmtReadsBack | 3rdparty/dr_wav/dr_wav.h:3265-3270 | the fields of a format chunk are read back as written |
| RiffRoundTrip.FindsData | 3rdparty/dr_wav/dr_wav.h:3220-3345 | in a finished file the reader meets the format and then the data chunk, at the position where the data begins |
| RiffRoundTrip.FormatKept | 3rdparty/dr_wav/dr_wav.h:4386-4391 | the header has the format, channels, rate and bits that the caller gave, if they fit their fields, with bytes per frame and per second to match; what does not fit is cut to 16 bits |
| RiffRoundTrip.SizesMatch | 3rdparty/dr_wav/dr_wav.h:5527-5572 | both size fields of a finished file count what follows them, up to the largest number they hold |
| RiffRoundTrip.RoundTrip | 3rdparty/dr_wav/dr_wav.h:3007-3692 | a written file opens if and only if its format passes the validation of the reader, with the format that the caller gave if its numbers fit their fields, and its data is where it was put |
| RiffRoundTrip.OpensIffInRange | 3rdparty/dr_wav/dr_wav.h:3573-3737 | for sample sizes of whole bytes, a written file can be opened if and only if rate, channels and bits given by the caller are in range, and 8 bits for A-law and mu-law; a frame then has as many bytes as its channels need |
| RiffRoundTrip.CompressedIff | 3rdparty/dr_wav/dr_wav.h:4368-4386 | a file with a compressed or extensible tag is written if and only if the format has more than 16 bits and its low half is such a tag |
| RiffRoundTrip.FramesRoundTrip | 3rdparty/dr_wav/dr_wav.h:3692 | data of whole frames counts as many frames as were written |
| RiffRoundTrip.AdpcmBlocks | 3rdparty/dr_wav/dr_wav.h:3694-3706 | for whole blocks of Microsoft ADPCM the number of frames is two for each header and two for every further byte of a channel |
| RiffRoundTrip.RawReadsGive | 3rdparty/dr_wav/dr_wav.h:5627-5689 | raw reads of any sizes give the data in order and no more than there is |
| RiffRoundTrip.DataRoundTrip | 3rdparty/dr_wav/dr_wav.h:5627-5689 | written, opened and read raw in any pieces, the data comes out as it went in if and only if its size is below 2^32-1 or even |
| RiffForeign.SkipsChunks | 3rdparty/dr_wav/dr_wav.h:3219-3575 | any number of other chunks, odd ones with their padding and sample counts included, is passed over |
| RiffForeign.ReadsFmt | 3rdparty/dr_wav/dr_wav.h:3253-3333 | a format chunk with or without an extension and with trailing bytes is read as its six fields and the format that the extension names |
| RiffForeign.OpensForeign | 3rdparty/dr_wav/dr_wav.h:3219-3737 | a file with other chunks before and after its format chunk opens with the fields of that chunk and the data where it is |
| RiffFiles.PatchSizes | 3rdparty/dr_wav/dr_wav.h:5558-5572 | overwriting the two size fields turns the first header into the final one and changes nothing else |
| RiffFiles.RiffWriter.Start | 3rdparty/dr_wav/dr_wav.h:4358-4512 | refuses exactly the compressed formats, and otherwise lays out the header with provisional sizes |
| RiffFiles.RiffWriter.WriteRaw | 3rdparty/dr_wav/dr_wav.h:5973-5985 | appends to the data and counts it |
| RiffFiles.RiffWriter.Finish | 3rdparty/dr_wav/dr_wav.h:5527-5572 | pads and back-patches, leaving a file whose sizes match the data given by all writes |
| RiffFiles.RiffReader.OpenFile | 3rdparty/dr_wav/dr_wav.h:3007-3692 | the chunk loop finds what the specification of opening finds, and leaves the stream at the data |
| RiffFiles.RiffReader.ReadRaw | 3rdparty/dr_wav/dr_wav.h:5627-5689 | gives the next bytes, as many as asked for, as remain and as the file has, and counts whole frames |
| RiffFiles.WriteFile | 3rdparty/dr_wav/dr_wav.h:5506-5572 | start, any number of writes and the end leave the file of all pieces laid end to end, exactly for formats that can be written |
| RiffFiles.ReadPieces | 3rdparty/dr_wav/dr_wav.h:5627-5689 | calls of the raw read with any sizes give together what the series of raw reads gives |
| RiffFiles.ThereAndBack | 3rdparty/dr_wav/dr_wav.h:5444-5689 | writer and reader together: written in any pieces and read in any pieces that reach the end, the data comes back if and only if its size is below 2^32-1 or even, and shorter reads give its beginning; it opens exactly when the format can be written and read, and says the format that was given if its numbers fit their fields |
| Pct.EncodeFailsIff | src/internal_modules/roc_address/pct.cpp:118-153 | encoding fails exactly on strings with a NUL |
| Pct.PlainIff | src/internal_modules/roc_address/pct.cpp:19-104 | in each mode the printable characters stay as they are but for a fixed list, and everything else is encoded |
| Pct.DecodeEncode | src/internal_modules/roc_address/pct.cpp:118-188 | decoding an encoded string gives it back, for every NUL-free string and every mode |
| Pct.DecodeFailsIff | src/internal_modules/roc_address/pct.cpp:155-188 | decoding fails if and only if there is a NUL, or a percent sign not before two hexadecimal digits that are not both zero |
| Pct.DecodeNulFree | src/internal_modules/roc_address/pct.cpp:155-188 | what was decoded never holds a NUL |
| Pct.EncodeHasNoQuestion | src/internal_modules/roc_address/pct.cpp:118-153 | encoded text has no question mark, in every mode |
| Pct.HexRoundTrip | src/internal_modules/roc_address/pct.cpp:106-116 | the two hexadecimal digits of a byte stand for it |
| Pct.HexDigits | src/internal_modules/roc_address/pct.cpp:106-114 | digits of either case and what they are worth |
| Pct.PctEncode | src/internal_modules/roc_address/pct.cpp:118-153 | the loop succeeds exactly on NUL-free strings and gives the encoding |
| Pct.PctDecode | src/internal_modules/roc_address/pct.cpp:155-188 | the loop succeeds exactly on well-formed strings and gives the decoding |
| Endpoint.DecimalReadsBack | src/internal_modules/roc_address/endpoint_uri.cpp:429-435 | the service string of a port consists of digits that read back as the port |
| Endpoint.DecimalShort | src/internal_modules/roc_address/endpoint_uri.cpp:429-435 | a port never overflows the six-byte service buffer |
| Endpoint.ResourceReadsBack | src/internal_modules/roc_address/endpoint_uri_format.cpp:40-57 | splitting the formatted resource at its first question mark and decoding the left part gives back path and query |
| Endpoint.AuthorityReadsBack | src/internal_modules/roc_address/endpoint_uri_format.cpp:23-38 | scheme, host and port can be read back from the text, for names without delimiters and for hosts in brackets |
| Endpoint.UriReadsBack | src/internal_modules/roc_address/endpoint_uri_format.cpp:16-60 | all five parts of a formatted URI can be read back |
| Endpoint.EndpointUri.Clear | src/internal_modules/roc_address/endpoint_uri.cpp:141-159 | keeps the invariant that a valid port part has the service of its port, or of the default port of its protocol |
| Endpoint.EndpointUri.Invalidate | src/internal_modules/roc_address/endpoint_uri.cpp:161-166 | marks the parts of the subset and keeps that invariant |
| Endpoint.EndpointUri.SetProto | src/internal_modules/roc_address/endpoint_uri.cpp:168-186 | succeeds exactly for known protocols; without an explicit port the port part becomes valid exactly if the protocol has a default port |
| Endpoint.EndpointUri.SetHost | src/internal_modules/roc_address/endpoint_uri.cpp:218-240 | succeeds exactly on non-empty strings |
| Endpoint.EndpointUri.SetPort | src/internal_modules/roc_address/endpoint_uri.cpp:257-285 | succeeds exactly from -1 to 65535; the port part becomes valid exactly for an explicit port or a known default |
| Endpoint.EndpointUri.SetEncodedPath | src/internal_modules/roc_address/endpoint_uri.cpp:336-372 | succeeds exactly on well-formed strings, and the path is then the decoded, NUL-free one |
| Endpoint.EndpointUri.CopyEqualsIff | src/internal_modules/roc_address/endpoint_uri.cpp:36-90 | an object that got its parts through the accessors of another equals it if and only if all parts of the other are valid and none begins with a NUL |
| Endpoint.EndpointUri.Assign | src/internal_modules/roc_address/endpoint_uri.cpp:64-90 | succeeds if and only if the other object is a different one with known protocol and a host; equality with the original follows exactly in the case above; assigning an object to itself fails and invalidates it |
| Endpoint.EndpointUri.CopyRest | src/internal_modules/roc_address/endpoint_uri.cpp:78-89 | once protocol and host are copied, port, path and query follow without failure, and the object is then a copy part by part |
| Endpoint.EndpointUri.VerifyIff | src/internal_modules/roc_address/endpoint_uri.cpp:92-139 | of all checks on a full URI only the one on path support can fail once every part is valid |
| Endpoint.EndpointUri.Format | src/internal_modules/roc_address/endpoint_uri_format.cpp:16-60 | succeeds if and only if verification does, the path has no NUL and a bare resource is not empty, and gives authority and resource text |
| Endpoint.VerifiedButUnformattable | src/internal_modules/roc_address/endpoint_uri_format.cpp:46-50 | for every protocol with paths, calls that leave a URI which passes verification and cannot be formatted |

## Left out

- Rounding of floating point: samples, coefficients and accumulators are exact reals; fixed-point numbers are exact with explicit wrapping at 2^32.
- Contents of the sinc table: any table of the right length is allowed; audio quality is not a subject.
- The snapping of the resampler's time to whole samples: its constant is zero in fixed point, so neither branch can be taken.
- Resampler.BuiltinResampler.constructor: frames up to 3686 samples per channel and windows up to 1024, at least 16 in frames above 2048; longer frames admit factors whose half window overflows the conversion to fixed point.
- Resampler.BuiltinResampler.SetScaling: the same bounds.
- Resampler.BuiltinResampler.NLeftToProcess: the same bounds.
- Depacketizing.Depacketizer.Read: buffers are counted in samples per channel, decoded audio is carried as opaque values, and silence and beep are the same gap; the decoder and the reader are values with the answers they would give.
- Timeline.FrameSizesDoNotMatter: to name the stream that is played, packets lie within half the timestamp range of the stream position, and the reader has them all; that the division into frames does not matter holds for any timestamps (`FrameDivision.RunIsOneFrame`), and `Retained.RetainedIsPlayed` holds without either condition.
- Timeline.FrameTimeline: the same two conditions.
- Timeline.SamplesTimeline: the same two conditions.
- Capture.FrameTracks: conversion between samples and time is exact and capture times are positive.
- Decimation.DecimationResampler.EndPushInput: input is pushed only when the buffer is used up, as the readers and writers do; a push over unread input would lose it.
- Decimation.DecimationResampler.PopOutput: the inner resampler is a list of blocks it would give.
- Channels.ChannelSet.SetMask: a 64-bit word is the set of its one-bits; choice of channels by count, the byte view and validity of layouts are left out as easy.
- ChannelMatrix.BuildChannelMapping: the unbounded loops are watched for numbers of rounds and moves given as parameters, and say whether they ended; of the shipped tables the masks are used, not the coefficients.
- ChannelMapping.MapSurroundSurround: buffers are distinct arrays of sufficient size; the dispatch on layouts and its panics are left out.
- ImaDecoding.ImaDecoder.ReadGroup: the loop over channels is written out for the one or two channels there can be.
- ImaDecoding.ImaDecoder.ReadFrames: an output buffer that is null is left out.
- RiffFiles.RiffReader.OpenFile: only the plain RIFF container without metadata, chunk callbacks or sequential mode; the chunk loop gets a limit as parameter because a size field can send it backwards.
- RiffFiles.RiffWriter.Finish: the memory stream is a sequence, so its capacity and reallocation are left out, as are sequential writing and metadata.
- RiffFiles.RiffReader.ReadRaw: reading into a null buffer, which seeks instead, is left out.
- Endpoint.EndpointUri.SetEncodedPath: the path left behind by a failed decoding is not specified, since no operation shows an invalid path.
- The URI parsers, which are generated from grammars that are not part of this model.
- Metadata, AIFF, Wave64 and RF64 files, Microsoft ADPCM decoding and the sample conversions of `dr_wav.h`.
- The feedback monitor, the mapper reader and writer, frame factories, fan-out and other wrappers, which would only add easy members.
- Allocation failure, null pointers, logging and statistics reports.
