# Verified model of the IQ laboratory

Four applications exchange IQ samples, spectra and control commands: radios send
packets of samples, a processor turns them into spectra, a detector reads the spectra,
and a recorder captures frames. A controller inside the processor configures and starts
the radios over exclusive TCP connections. This project models the logic of these
applications in Dafny and proves what it is meant to guarantee.

## How it is organised

Code that changes things step by step is a class or a method over an array, proved
against a specification function; what the program promises is then proved about that
function, mostly over every run.

| files | what they model |
|---|---|
| `Arithmetic`, `Complex`, `Fft`, `FftKernel`, `Parseval`, `PowerSpectrum`, `ToneDetection` | the in-place Fourier transform, the power spectrum and the peak detector |
| `SpectrumTypes`, `BigEndian`, `BitVectors`, `SpectrumCodec`, `CodecRoundTrip`, `WireLayout` | spectra, the gap bitmap and the datagram that carries them |
| `SampleTime`, `ProcessorSpec`, `Processor`, `ContextPackets`, `Conservation` | sample times and the processor that cuts packets into windows |
| `Reassembly`, `StreamRecovery`, `StreamTiming`, `StreamRuns` | what the processor rebuilds of a sender's stream under packet loss |
| `StreamHistory`, `SentSpectra`, `DiscardReasons` | what its streams, its datagrams and its counters say of everything received |
| `Detector`, `DetectorRuns`, `DetectorVerdicts`, `Pipeline`, `ToneReports` | the detector, and processor and detector together |
| `ControlSlot`, `Resumption`, `Snapshots` | exclusive control of a radio, and command numbers across replaced controllers |
| `ControllerSteps`, `ControllerSafety`, `ControllerEffects`, `ControllerService`, `ProcessorController`, `ReconcileProtocol` | the controller's loop over four radios, and its place in the protocol |
| `ScatterGather`, `Submissions`, `ByteOrder` | partial writes, the slot table both transports share, and messages that share a stream |
| `RadioSteps`, `RadioSafety`, `RadioTheorems`, `RadioEffects`, `RadioLiveness`, `RadioAdmission`, `RadioStream`, `RadioTransport` | the radio's transport |
| `ClientSteps`, `ClientEffects`, `ClientService`, `ClientStream`, `ClientTransport` | the controller's transport |
| `LittleEndian`, `Durations`, `Pcap`, `PcapLayout` | the capture writer and its independent reader |
| `StatusFrame`, `ActivityHealth` | status messages and the health verdict |

Sockets, clocks and everything the VRT codec decides enter as inputs of a step: what was
received, how much a socket took, what time it is, whether a packet decodes. Theorems
quantify over all of them.

## Findings

Places where the code does less than one may expect. Each is proved with the exact
condition or with a concrete run.

- A controller that connects before the association is committed takes the control slot
  for good: the slot is acquired before the peer is looked at
  (src/radio_transport.cpp:300-302). The program registers its stream and its
  controller before any progress step (apps/radio.cpp:164-221), so whether one can come
  that early depends on when the runtime commits the association, and the runtime is not
  part of this model. See `LeaksExactly` and `EarlyController`.
- Control messages can be mixed on the stream: after a partial write the cursor moves on,
  and the next write goes into another message if one waits (src/radio_transport.cpp:422-425,
  459-463). They stay whole exactly as long as no write goes into another half-sent
  message, and so while the counter of partial writes does not move. See `StreamIntact`,
  `IntactWithoutPartials` and `PartialWriteMixes`; `ClientStreamIntact` says the same of the
  controller's side.
- A control message that times out half-sent fails while the connection stays up
  (src/radio_transport.cpp:350-355). Its fragment stays on the stream, and whatever is
  written next goes behind it. See `TimeoutLeavesFragment`.
- Two status snapshots that pass every check do not prove who owns the slot. They prove
  that some controller was accepted in between, and the owner is the one accepted last.
  When that is another controller, the first command can still be refused; only the status
  query that follows shows it. See `SnapshotsProve`, `SnapshotsSuffice` and
  `SnapshotsAreNotEnough`.
- Decoding keeps only 32 bits of the 64-bit sample rate. Bytes 40 to 43 are ignored, and a
  datagram in which they are not zero is accepted and encodes differently. See
  `EncodeDecoded`, `RateHighIgnored` and `OtherDatagrams`.
- Sixteen lost packets in a row look like none. See `StreamRebuilt`.
- Sample times are exact up to a rate of 18446745 Hz and at no rate above, where a 64-bit
  product overflows. The processor never computes there: it refuses contexts above
  2000000 Hz. See `ExactRates`.
- A message that ends in an empty segment never completes. Whether the message storage
  ever ends in one is decided in the runtime, which is not part of this model. See
  `AdvanceFinishes`.
- A call of the status decoder with no bytes, behind a complete request, fails it. Its only
  caller makes no such call (src/radio_services.cpp:125-130). See `ChunksDoNotMatter`.
- A coordinated start that fails leaves starts standing. When a submission is refused,
  nothing is cancelled at all; when an admission fails, the starts before it are cancelled
  and the others are not. Some start is left standing exactly when the first one was sent.
  See `CoordinateExact` and `StartLeftStanding`.

## Main results

- The in-place transform is the direct sum: `Transform`. Energy is kept: `EnergyPreserved`,
  `PowerConservesEnergy`. The codec loses nothing, up to four bytes: `DecodeEncoded`,
  `EncodeDecoded`.
- The processor's windows are the sender's stream with its losses masked, in every run:
  `StreamRebuilt`, `BeginsAnywhere`, `BeginsTrue`. Nothing is lost or counted twice:
  `RunConserves`, `ReasonsCounted`. What is sent tells of these windows and of everything
  received before: `SpectraSent`, `RunRemembers`.
- The detector answers each spectrum by its samples and powers, and counts it once:
  `DatagramAnswered`, `ClassesCounted`, `DetectorConserves`. Processor and detector agree,
  and a tone is reported at its frequency: `PipelineLossless`, `ToneHeard`.
- Commands stay fresh when controllers replace one another: `ConfirmedCommandsFresh`,
  `ReconciledCommandsFresh`, `SnapshotsProve`, `SnapshotsSuffice`. Every run of the
  controller keeps its bounds, and its turns do what is due: `ControllerBounds`,
  `CoordinateExact`, `TurnServes`, `ReadyPassStarted`, `QuietReconnect`.
- Submissions are conserved and delivered whole: `SubmissionsConserved`,
  `DeliveredExactly`, `StreamIntact`, `ClientDelivers`, `ClientStreamIntact`. Ownership is
  exclusive, earned, kept while the owner lives and lost when it does not:
  `OwnershipExact`, `LivenessEarned`, `ReplyEarns`, `LiveOwnerStays`, `ConnectionKept`,
  `StaleFrees`, `GenerationsUnique`. A lost connection comes back: `ConnectionOpened`.
- The audit reads every capture back: `AuditReadsCapture`. Status requests do not depend on
  how they are cut: `ChunksDoNotMatter`, `RequestTaken`. Every health verdict is explained
  by what was observed: `VerdictExplained`.

## Model

| member | source | states |
|---|---|---|
| FftKernel.NextReversed | src/spectrum.cpp:94-97 | The carry from the top bit turns one bit-reversed index into the bit-reversal of the next index. |
| FftKernel.BitReverse | src/spectrum.cpp:93-100 | The swap loop is the bit-reversal permutation: afterwards position i holds what position reverse(i) held, for every power of two. |
| Fft.ReverseInvolution | src/spectrum.cpp:93-100 | Reversing the bits of an index twice gives it back, so swapping pairs once is a permutation. |
| Fft.ReverseSuccessor | src/spectrum.cpp:94-97 | Adding one to an index moves its reversal as the carry loop does. |
| Fft.EvaluateSplit | src/spectrum.cpp:101-113 | A transform of even length is the transform of its even samples plus a factor times that of its odd samples. |
| Fft.EvaluateIsDirectSum | src/spectrum.cpp:101-113 | The recursive evaluation is the plain sum of x[n] w^(nk). |
| Fft.Butterfly | src/spectrum.cpp:105-110 | One butterfly turns two half-size transforms into two entries of the full-size one. |
| FftKernel.ButterflyStage | src/spectrum.cpp:101-113 | One pass over the array doubles the length of the transforms it holds, whatever the input. |
| FftKernel.Transform | src/spectrum.cpp:93-113 | For every power-of-two size and every root w with w^(N/2) = -1, the in-place loops leave the direct sum of x[n] w^(nk) at position k. |
| Parseval.EnergyPreserved | src/spectrum.cpp:114-118 | For a root of absolute value one, the energy of the output is N times the energy of the input. |
| Parseval.ToneResonance | src/spectrum.cpp:101-113 | A tone that rotates against the evaluation point adds up to N times its amplitude. |
| Parseval.ToneOutput | src/spectrum.cpp:101-113 | An on-bin tone has its whole transform in its own bin and zero in all others. |
| GapBitmap.PackMarks | src/spectrum.cpp:88-89 | The packed bitmap marks exactly the samples flagged as missing. |
| GapBitmap.MissingCount | src/spectrum.cpp:38-43 | The loop over bits counts the marked samples. |
| GapBitmap.MarksDetermine | src/spectrum.cpp:82-89 | Two bitmaps with the same marks are the same bytes. |
| PowerSpectrum.LoadWindow | src/spectrum.cpp:84-92 | Missing samples enter the transform as zero and are the ones marked in the bitmap. |
| PowerSpectrum.Compute | src/spectrum.cpp:73-120 | A window of the wrong size or an invalid configuration is refused; otherwise power i is the squared magnitude of direct-sum bin (i+N/2) mod N over N squared, and the bitmap packs the missing flags. |
| ToneDetection.MaxElement | src/spectrum.cpp:194 | The scan finds the first of the largest powers. |
| ToneDetection.DetectFrequency | src/spectrum.cpp:190-201 | Refuses invalid spectra, answers nothing for a gapped or all-zero one, and otherwise the frequency of the first largest bin. |
| ToneDetection.FrequencyMeaning | src/spectrum.cpp:197-200 | An answer is given exactly for an ungapped spectrum with some power, and bin k means center plus the signed bin distance times rate over N. |
| ToneDetection.TonePower | src/spectrum.cpp:114-118 | The power of an ungapped on-bin tone is its squared amplitude at index (b+N/2) mod N and zero everywhere else. |
| ToneDetection.ToneDetected | src/spectrum.cpp:114-118 | The powers of a nonzero on-bin tone peak at one index, which reads back as center plus signed bin times rate over N. |
| ToneDetection.ToneReported | src/spectrum.cpp:73-201 | For the spectrum measured from an ungapped on-bin tone, the detector's answer is exactly center plus signed bin times rate over N, unless the power of the tone converts to zero. |
| ToneDetection.PowerConservesEnergy | src/spectrum.cpp:114-118 | Total power times N is the energy of the unmasked input. |
| ToneDetection.PowerBounded | src/spectrum.cpp:114-118 | No power exceeds the largest sample energy, so every power fits a finite float. |
| BigEndian.Put | src/spectrum.cpp:21-27 | Writes the low bytes of a value most significant first and nothing else; a short buffer is refused untouched. |
| BigEndian.Get | src/spectrum.cpp:29-36 | Reads the number stored at an offset; a short input is refused. |
| BigEndian.ValueOfBytes | src/spectrum.cpp:21-36 | What put writes, get reads, for every value that fits. |
| BigEndian.BytesOfValue | src/spectrum.cpp:21-36 | What get reads, put writes back, for all bytes. |
| SpectrumCodec.EncodeSpectrum | src/spectrum.cpp:122-155 | Exactly the valid spectra are encoded, as the datagram laid out field by field. |
| SpectrumCodec.DecodeSpectrum | src/spectrum.cpp:157-188 | Accepts exactly the well-framed datagrams of a valid spectrum whose redundant counts agree with the bitmap. |
| CodecRoundTrip.DecodeEncoded | src/spectrum.cpp:122-188 | Every valid spectrum comes back unchanged from its datagram, powers bit by bit. |
| CodecRoundTrip.EncodeDecoded | src/spectrum.cpp:157-188 | Encoding a decoded datagram gives its bytes back if and only if bytes 40 to 43 are zero. |
| CodecRoundTrip.TruncatedRate | src/spectrum.cpp:168 | The decoded rate is the low half of the stored 64-bit number. |
| CodecRoundTrip.RateHighIgnored | src/spectrum.cpp:157-188 | Whatever bytes 40 to 43 hold, a datagram decodes to the same spectrum or is refused all the same. |
| CodecRoundTrip.OtherDatagrams | src/spectrum.cpp:157-188 | Every valid spectrum has accepted datagrams that do not encode back, one for each nonzero value of these bytes. |
| WireLayout.EncodedLaidOut | src/spectrum.cpp:122-155 | Each field stands at its byte offset, as a number with its most significant byte first: the header in 128 bytes, then the bitmap, then the powers. |
| SampleTime.AddExact | apps/udp_pipeline.cpp:147-157 | A normalised time moves by exactly floor(n 10^12 / rate) picoseconds if and only if the seconds do not overflow, for rates up to 18446745. |
| SampleTime.SubtractExact | apps/udp_pipeline.cpp:159-173 | Subtraction moves back by the same amount and fails exactly when the result would be negative. |
| SampleTime.SubtractUndoesAdd | apps/udp_pipeline.cpp:147-173 | Subtracting what was added gives the time back. |
| SampleTime.AddUndoesSubtract | apps/udp_pipeline.cpp:147-173 | Adding what was subtracted gives the time back. |
| SampleTime.ElapsedSum | apps/udp_pipeline.cpp:512-514 | Dating a span in two parts differs from dating it whole by at most one picosecond. |
| SampleTime.InexactRate | apps/udp_pipeline.cpp:152 | At every rate above 18446745 Hz, one sample less than a second is added as too little. |
| SampleTime.ExactRates | apps/udp_pipeline.cpp:147-157 | Adding is exact for all times and counts that fit if and only if the rate is at most 18446745 Hz. |
| Processor.ProcessorCore.Append | apps/udp_pipeline.cpp:476-511 | One sample more: opens, fills or completes a window, and sends or counts out the spectrum. |
| Processor.ProcessorCore.MakeSpectrum | apps/udp_pipeline.cpp:486-501 | The spectrum of a full window is the one the window determines, and it is valid. |
| Processor.ProcessorCore.FillGap | apps/udp_pipeline.cpp:512-514 | The missing samples of a gap enter as flagged zeros, dated one by one. |
| Processor.ProcessorCore.TakePairs | apps/udp_pipeline.cpp:515-525 | The samples of a packet enter scaled and dated by the packet; an unreadable one drops the output. |
| Processor.ProcessorCore.ReadContext | apps/udp_pipeline.cpp:321-415 | A context is accepted exactly when its four fields are present, of the right kind and in range. |
| ContextPackets.ContextAccepted | apps/udp_pipeline.cpp:321-415 | A context packet is accepted with given settings if and only if it has no class, a UTC time in range, exactly one field for each setting in whichever order, whole hertz, and settings in range; and nothing else is accepted. |
| ContextPackets.SettingsMeaning | apps/udp_pipeline.cpp:395-411 | The accepted ranges: a bandwidth above zero and within the rate, one gain stage within 60 dB, a rate from 1 kHz to 2 MHz, and the center within its bounds. |
| ContextPackets.EnvelopeMeaning | apps/udp_pipeline.cpp:430-436 | A data packet has the right kind, class and a UTC time in range, and one of four trailers. |
| Processor.ProcessorCore.ConsumeContext | apps/udp_pipeline.cpp:416-428 | A changed center or rate drops the pending samples and counts a discontinuity. |
| Processor.ProcessorCore.ConsumeData | apps/udp_pipeline.cpp:430-526 | A data packet is refused for its stated reason, or its gap and its samples are appended in order. |
| Processor.ProcessorCore.Consume | apps/udp_pipeline.cpp:302-527 | One datagram takes the whole core to the specified state and returns the specified spectra. |
| ProcessorSpec.SpectrumValid | apps/udp_pipeline.cpp:486-503 | Every window the processor completes encodes: its spectrum passes validation. |
| Conservation.RunConserves | apps/udp_pipeline.cpp:302-526 | Over every run: per stream, ordinal is window size times completed windows plus pending plus dropped samples, with pending below the window size; spectra plus unavailable is all windows; malformed is the sum of the seven reasons. |
| Conservation.StreamConserves | apps/udp_pipeline.cpp:476-525 | One datagram changes the ordinal of its stream by what it completes, keeps and drops. |
| Conservation.MetricsConserve | apps/udp_pipeline.cpp:302-526 | One datagram completes at most 16 windows, each counted as sent or unavailable, and raises malformed and the seven reasons together. |
| Conservation.OtherStream | apps/udp_pipeline.cpp:313 | A datagram leaves the streams of the other listeners alone. |
| StreamHistory.StepRemembers | apps/udp_pipeline.cpp:416-461 | A context is remembered and drops the pending samples only when it changes center or rate; a data packet counts the packets skipped before it; the windows it completes carry the stream's settings and counters. |
| StreamHistory.RunRemembers | apps/udp_pipeline.cpp:416-511 | After every run a stream has the settings of the last context accepted, the count and size of the last packet, the sum of the packets skipped, the number of breaks, and as its next number the windows completed modulo 2^32. |
| SentSpectra.SpectraSent | apps/udp_pipeline.cpp:476-526 | After every run a datagram sends its completed windows in order as far as the queue reaches, or nothing when a sample of it cannot be read; each one sent decodes to center, rate and epoch of the last context, the window's time, end, ordinal and counters, the marks of its missing samples, and at power i the squared magnitude of direct-sum bin (i+N/2) mod N of the masked window over N squared. |
| DiscardReasons.ReasonsCounted | apps/udp_pipeline.cpp:305-475 | Over every run each of the seven reasons counts the datagrams with this first fault, said of what their listener had received, and malformed counts them all. |
| DiscardReasons.EventsCounted | apps/udp_pipeline.cpp:427-459 | Over every run the context updates are the contexts accepted, and the packet gaps the packets skipped on all listeners. |
| Reassembly.PushAllChunks | apps/udp_pipeline.cpp:476-525 | Windows and pending buffer are always the samples taken, cut in order, each window numbered by its first sample. |
| Reassembly.RebuiltIsMasked | apps/udp_pipeline.cpp:450-461 | What the count modulo 16 rebuilds is the sender's stream with the lost packets blanked if and only if no 16 packets in a row are lost. |
| StreamRecovery.GapIsLosses | apps/udp_pipeline.cpp:452-459 | The gap seen at an arriving packet is the number of lost packets before it, modulo 16. |
| StreamRecovery.DuplicateCountsAsLost | apps/udp_pipeline.cpp:452-454 | A packet count that comes twice, and no other, looks like 15 lost packets. |
| StreamRuns.DataConsumed | apps/udp_pipeline.cpp:430-526 | consume on an accepted data packet is one step of its stream, whatever the counters and the other streams. |
| StreamRuns.RunHears | apps/udp_pipeline.cpp:302-526 | In a run of consume whose data on a listener are a sender's packets, the stream and its windows are what these packets alone make of them, whatever else arrives on this and the other listeners. |
| StreamRuns.StreamRebuilt | apps/udp_pipeline.cpp:302-526 | In such a run, windows and pending samples are, in order and numbered truly, the sender's stream from the first packet with exactly the lost samples zeroed and flagged, if and only if no 16 packets in a row are lost. |
| StreamTiming.StampedIsDated | apps/udp_pipeline.cpp:464-475 | Packets stamped by one sample clock are never discarded for their time. |
| StreamTiming.GapDated | apps/udp_pipeline.cpp:467-514 | Every missing sample that is filled in is dated within a picosecond of its true time. |
| StreamRuns.BeginsAnywhere | apps/udp_pipeline.cpp:512-525 | In such a run, when packets carry the exact time of their first sample and fewer than 16 in a row are lost, a window that begins inside a packet that arrived carries the time of that packet, and one that begins among lost samples its own true time to a picosecond. |
| StreamRuns.BeginsTrue | apps/udp_pipeline.cpp:302-526 | In such a run, when packets divide the window, carry the time of their first sample, and fewer than 16 in a row are lost, every window begins within one picosecond of epoch plus true position over rate. |
| Detector.DetectorCore.Consume | apps/udp_pipeline.cpp:529-573 | One datagram takes the detector to the specified state and report. |
| Detector.DetectorCore.Finish | apps/udp_pipeline.cpp:575-577 | Streams never seen are counted as unavailable. |
| DetectorRuns.DetectorConserves | apps/udp_pipeline.cpp:529-573 | Over every run each datagram counts once, as malformed, gapped, zero or a detection; the sequence gaps are the spectra that do not follow the one before on their stream; a stream is seen exactly when a spectrum of it was accepted. |
| DetectorVerdicts.DatagramAnswered | apps/udp_pipeline.cpp:529-573 | An accepted spectrum is answered valid if and only if no sample is marked and some power is not zero, zero if and only if none is marked and all powers are zero, gapped otherwise, with its stream, its begin and the frequency of its first strongest bin; a rejected datagram is not answered. |
| DetectorVerdicts.ClassesCounted | apps/udp_pipeline.cpp:558-567 | Over every run detections, zero and gapped are the numbers of accepted spectra of each class. |
| Pipeline.WindowDetected | apps/udp_pipeline.cpp:485-573 | A spectrum sent by the processor is accepted by the detector and reported gapped exactly when a sample was filled in. |
| Pipeline.WindowsDetected | apps/udp_pipeline.cpp:529-573 | A train of windows of one stream is accepted without a sequence gap, also where the number wraps at 2^32. |
| Pipeline.PipelineLossless | apps/udp_pipeline.cpp:302-573 | Over every run the detector counts no malformed datagram and no sequence gap, no window goes unsent with a queue of at least 16, and gapped verdicts are exactly the filled windows. |
| ToneReports.ToneHeard | apps/udp_pipeline.cpp:302-573 | In every run, when N samples of a sender are a tone on bin b and all arrive, the spectrum sent for their window is reported at the last context's center plus signed bin times rate over N and at the window's begin; or as zero, when the power of the tone converts to zero. |
| ControlSlots.ControlSlot.Acquire | src/status.cpp:67-75 | A free slot is taken with the next generation; an active or exhausted one refuses. |
| ControlSlots.ControlSlot.ObserveLiveness | src/status.cpp:77-84 | Only the active generation moves liveness, and only forward. |
| ControlSlots.ControlSlot.Release | src/status.cpp:86-92 | Only the active generation frees the slot. |
| ControlSlots.ControlSlot.ReleaseIfStale | src/status.cpp:94-101 | The slot is freed exactly when active and without liveness for the timeout. |
| ControlSlots.GenerationsUnique | src/status.cpp:67-101 | Over every run the generations are 1, 2, 3 and so on, end at 2^64-1 without wrapping, and the active one is the last. |
| ControlSlots.LivenessMonotone | src/status.cpp:77-84 | Liveness never moves back while one generation is active. |
| ControlSlots.LiveOwnerStays | src/status.cpp:67-101 | A generation taken or heard at t stays active, whatever else happens to the slot, through every stale check before t plus its timeout. |
| ControlSlots.SilentOwnerGoes | src/status.cpp:94-101 | One last heard at t is let go by the first stale check from t plus the timeout on. |
| Resumption.ControllerRegistry.ResumeRelationship | patches/vrt-command-resumption.patch:19-28 | The floor rises to watermark plus one, never falls, and refuses the largest number and unknown relationships. |
| Resumption.RunKeeps | src/processor_controller.cpp:663-730 | The protocol invariant holds after every run of controllers, connections, snapshots, commands and reboots. |
| Resumption.ConfirmedCommandsFresh | src/processor_controller.cpp:692-730 | Once a command of the current owner, such as its status query, was admitted, every command it has in flight or sends next is above all the radio ever admitted, and the radio admits the next it reads. |
| Resumption.TimelySnapshotFresh | src/processor_controller.cpp:687-691 | For a controller that owned the slot at its second snapshot and has not been displaced since, raising the floor puts its next command above everything admitted. |
| Resumption.AnchoredCommandsFresh | src/processor_controller.cpp:687-691 | From then on every unread command sent since is above the high-water mark. |
| Resumption.OwnershipKeepsAnchor | src/radio_transport.cpp:296-304 | That lasts as long as the ownership. |
| Resumption.FloorOnlyRises | patches/vrt-command-resumption.patch:25-26 | No step lowers a controller's floor and no run takes it past 2^32. |
| Resumption.SnapshotsAreNotEnough | src/processor_controller.cpp:678-684 | A run in which both snapshots pass every check, the floor is raised, and the first command is still refused. |
| Snapshots.SnapshotsProve | src/processor_controller.cpp:678-684 | After every run, two snapshots pass the checks if and only if the radio did not boot in between, some controller was accepted in between, and one owns the slot at the second; the owner is the controller accepted last, whoever that is. |
| Snapshots.SnapshotsSuffice | src/processor_controller.cpp:663-691 | After every run, when the checks pass and the floor is raised, somebody was accepted between the snapshots; if that was this controller last, and nobody else is accepted before the floor is raised, its next command is above everything admitted. |
| Snapshots.TimelyLasts | src/radio_transport.cpp:296-304 | Having owned the slot at the second snapshot counts until another controller is accepted or the radio boots. |
| ReconcileProtocol.ChecksAgree | src/processor_controller.cpp:678-684 | The checks on two status reports are the protocol's checks on two snapshots. |
| ReconcileProtocol.ReconciledCommandsFresh | src/processor_controller.cpp:663-730 | When a reconcile succeeds on answers that come from a run of the protocol, its reports pass the checks, and as long as its connection owns the radio every later command is above all the radio ever admitted. |
| ControllerSafety.ReconcileOk | src/processor_controller.cpp:663-730 | Reconciling counts one attempt before it can count a connection, counts a first connection only once, and clears both flags only with a counted boot change. |
| ControllerEffects.ReconcileSucceeds | src/processor_controller.cpp:663-716 | Reconciling succeeds if and only if the radio was ready, a new connection came up, the second snapshot has the same boot and association and an active slot of a new generation, the floor was raised, and the status query was answered before any stop. |
| ControllerEffects.ReconcileRemembers | src/processor_controller.cpp:717-729 | Success remembers radio and connection, and only a changed boot clears what was configured and started; failure leaves the session as it was. |
| ControllerEffects.ConfigureQuiesces | src/processor_controller.cpp:745-774 | A streaming radio is told to stop first and is sent a configuration only after it confirmed. |
| ControllerEffects.ConfigureDirectly | src/processor_controller.cpp:757-774 | A radio that does not stream is configured at once, and counts as configured exactly when it confirmed. |
| ControllerEffects.RestartAdmits | src/processor_controller.cpp:776-807 | A restart sends one start at most, and the session is started exactly when it was accepted in time. |
| ControllerEffects.LivenessForcesReconcile | src/processor_controller.cpp:732-743 | A radio that does not answer in time is reconciled at the next visit, whatever the transport does in between. |
| ControllerService.TurnServes | src/processor_controller.cpp:861-882 | Every turn: a session still owned, or reconciled just now, gets its configuration when it has none; once configured it is sent a start exactly when the others were started and it was not, becomes started exactly when that is admitted in time, and is asked for its status exactly when it was silent for the interval; ready means that all of this succeeded, and the counters say which did. |
| ControllerService.ReadyMeansStarted | src/processor_controller.cpp:874-881 | After coordination a turn that ends ready leaves its radio configured and started. |
| ControllerService.ReadyPassStarted | src/processor_controller.cpp:857-883 | After coordination a pass that finds everything ready, without a stop, leaves every radio started. |
| ControllerService.ReconcileCounted | src/processor_controller.cpp:663-716 | Attempts, status failures and protocol failures of one reconcile are fixed by the reports and answers. |
| ControllerService.PassOutcome | src/processor_controller.cpp:857-896 | A pass starts the radios together if and only if everything was found ready, this was not done before, and every start is admitted; the pause after it is 100 ms when all is well and otherwise doubles up to the maximum. |
| ControllerSafety.ConfigureOk | src/processor_controller.cpp:745-774 | Configuring a session never counts more configurations than it gains configured sessions, and touches no other session. |
| ControllerSafety.RestartOk | src/processor_controller.cpp:776-807 | Restarting a session never counts more admitted starts than it gains started sessions, and touches no other session. |
| ControllerSafety.CoordinateExact | src/processor_controller.cpp:809-852 | Coordination succeeds if and only if every start is sent and admitted in time without a stop, and then all radios start at one epoch; otherwise it is fixed for every session which commands it is left with. |
| ControllerSafety.StartLeftStanding | src/processor_controller.cpp:814-841 | After a failed coordination some radio keeps a start that nobody cancelled if and only if the first start was sent. |
| ControllerSafety.CoordinateCounts | src/processor_controller.cpp:822-841 | The counters of submitted and admitted starts say how far a coordination came, and a failure is counted once. |
| ControllerSafety.VisitFromKeeps | src/processor_controller.cpp:857-883 | A pass keeps the invariant, and finding everything ready means that every radio is configured unless the controller was told to stop. |
| ControllerSafety.ControllerBounds | src/processor_controller.cpp:854-898 | In every run: started implies configured, configurations are at most 4 plus boot changes, first connections at most 4, connections and reconnects at most the attempts, and starts admitted after coordination at most the boot changes after it. |
| ControllerSafety.QuietReconnect | src/processor_controller.cpp:861-882 | A visit to a started radio that did not boot again sends status queries only, whether or not the connection was lost. |
| ControllerSafety.PauseBounded | src/processor_controller.cpp:891-896 | In every run the pause between passes stays positive and within the larger of 100 ms and the maximum. |
| ProcessorControllers.ProcessorController.ReconcileSession | src/processor_controller.cpp:663-730 | Takes the session, its transport and the counters to the state the results about reconciling speak of, on every path. |
| ProcessorControllers.ProcessorController.CoordinateStart | src/processor_controller.cpp:809-852 | The loops that submit, await and cancel reach the state `CoordinateExact` speaks of. |
| ProcessorControllers.ProcessorController.VisitSession | src/processor_controller.cpp:861-882 | One session's turn: reconciles when needed, then configures, restarts and checks liveness in this order. |
| ProcessorControllers.ProcessorController.RunOnce | src/processor_controller.cpp:857-896 | One pass keeps the invariant and ends in the specified state. |
| ProcessorControllers.ProcessorController.RunLoop | src/processor_controller.cpp:854-898 | The loop reaches the state that the bounds are proved for, whatever the inputs, and stops when told. |
| ScatterGather.CursorSplits | src/radio_transport.cpp:363-374 | What lies before and behind a cursor is the whole message. |
| ScatterGather.GatherVectors | src/radio_transport.cpp:363-374 | The loop offers the segments from the cursor on, cut at the write budget. |
| ScatterGather.GatherIsRest | src/radio_transport.cpp:363-374 | The bytes offered are the next bytes of the message, all of them unless the budget is smaller. |
| ScatterGather.AdvanceCursor | src/radio_transport.cpp:408-421 | The loop moves the cursor as specified. |
| ScatterGather.AdvanceMoves | src/radio_transport.cpp:408-421 | The cursor moves over exactly the bytes the socket took. |
| ScatterGather.AdvanceFinishes | src/radio_transport.cpp:408-425 | The cursor reaches the end if and only if every byte is taken and the last segment is not empty. |
| Submissions.FindFree | src/radio_transport.cpp:592-599 | The scan returns the first free slot of its range. |
| Submissions.AdmitKeeps | src/radio_transport.cpp:616-624 | A new submission keeps the books right. |
| Submissions.FinishKeeps | src/radio_transport.cpp:426-430 | A submission whose last byte went out completes once, as a success. |
| Submissions.FailFromKeeps | src/radio_transport.cpp:260-266 | Failing every submission, or every control submission, completes each of them once and touches no other slot. |
| Submissions.BooksBalance | src/radio_transport.cpp:630-635 | Pending is true exactly from acceptance to completion, also after a slot is used again, and accepted submissions are completed, failed or pending. |
| Submissions.DeliveryExact | src/radio_transport.cpp:346-431 | The bytes taken are a prefix of the message, the cursor counts them, and success means all of them. |
| RadioSafety.FailControlKeeps | src/radio_transport.cpp:248-267 | Losing the controller leaves no control submission, no generation and no active slot behind. |
| RadioSafety.SubmissionsConserved | src/radio_transport.cpp:231-246 | In every run accepted submissions equal completed plus failed plus pending, and data and control never share a slot. |
| RadioSafety.DeliveredExactly | src/radio_transport.cpp:346-431 | In every run, across partial writes, retries and budgets, a submission succeeds if and only if the bytes taken are its whole message. |
| RadioTheorems.StepKeepsHistory | src/radio_transport.cpp:346-431 | No step changes how a submission ended or takes back a byte, and a control message is only ever written to the connection it was accepted on. |
| RadioTheorems.SendIsFresh | src/radio_transport.cpp:568-625 | A returned token was never used before and is pending at once; a refusal changes nothing, and lack of room means that every slot of the kind is taken. |
| RadioTheorems.SelectExact | src/radio_transport.cpp:459-463 | The circular search finds something to send if and only if a submission waits. |
| RadioTheorems.OwnershipExact | src/radio_transport.cpp:269-316 | In every run the transport is connected exactly while it holds a generation and the control slot is active with it, no generation repeats, and the slot is otherwise free unless one leaked. |
| RadioTheorems.LeaksExactly | src/radio_transport.cpp:300-302 | A generation leaks exactly when a controller is taken before the association is committed, and then none connects again. |
| RadioTheorems.EarlyController | src/radio_transport.cpp:300-302 | A run that begins with an early controller never connects, whatever follows. |
| RadioTheorems.ExtraConnection | src/radio_transport.cpp:296-299 | A second controller changes nothing but the count of rejections. |
| RadioTheorems.LivenessEarned | src/radio_transport.cpp:231-240 | Ownership liveness moves only when a status reply to the present connection went out whole, after a full status request on it. |
| RadioTheorems.StaleFrees | src/radio_transport.cpp:443-451 | A step at least the stale timeout after connection and last liveness frees the slot and fails every pending control submission and nothing else. |
| RadioLiveness.ConnectionKept | src/radio_transport.cpp:433-465 | A connected controller keeps connection, generation and slot through a step if and only if neither a stalled ingress nor connection and liveness are too old, reading does not fail, and no message to it fails. |
| RadioLiveness.ReplyEarns | src/radio_transport.cpp:231-240 | When the rest of a status reply goes out in time after a request, liveness moves to now and the request is used up. |
| RadioLiveness.ArrivalNoted | src/radio_transport.cpp:318-344 | What arrives moves the input activity to now and is counted, and a full status request in it is remembered. |
| RadioLiveness.CandidateOutcome | src/radio_transport.cpp:269-316 | What each kind of candidate at the listener changes, in every state. |
| RadioLiveness.LettingGo | src/radio_transport.cpp:496-513 | After the radio's detach every submission has failed; after the runtime's, control submissions have and data submissions wait as before; neither transport does anything any more. |
| RadioAdmission.OfferOutcome | src/radio_transport.cpp:568-625 | A message is accepted if and only if it passes every check, with 1024 bytes at most for a command and 8192 for data, and refused for the first one it fails; it waits whole in the first free slot of its kind until one time limit from now. |
| RadioEffects.AttemptOutcome | src/radio_transport.cpp:346-431 | An attempt to send completes a message with success exactly when the socket takes all that was left in time, with failure exactly on timeout, socket error or a short datagram; the byte counter grows by what was taken. |
| RadioEffects.AttemptCounted | src/radio_transport.cpp:363-425 | An attempt takes what the socket is ready for within the rest of the message and the limit of one write; retries, partial writes and bytes are counted exactly. |
| RadioEffects.ConnectionBegins | src/radio_transport.cpp:300-315 | A controller that is taken gets the next generation, starts both timeouts anew and inherits no status request. |
| RadioEffects.StalledIsDropped | src/radio_transport.cpp:443-451 | A stalled ingress without input for the time limit costs the controller its connection and its submissions. |
| RadioStream.StreamIntact | src/radio_transport.cpp:346-465 | In every run the control messages on the present connection follow each other in one piece if and only if none was written while another one was half-sent. |
| RadioStream.IntactWithoutPartials | src/radio_transport.cpp:422-425 | While the counter of partial writes has not moved since the connection began, or is zero, every message on the connection is in one piece. |
| RadioStream.TrafficKeeps | src/radio_transport.cpp:346-465 | Each step extends the stream by the bytes taken, and breaks it exactly when it writes into another message. |
| RadioStream.PartialWriteMixes | src/radio_transport.cpp:422-463 | After a partial write the next write always goes into another message when one waits, because the cursor moves on. |
| RadioStream.TimeoutLeavesFragment | src/radio_transport.cpp:350-355 | A control message that times out half-sent is failed, the connection stays up, the message stays half-sent, and every later write from there goes into another one. |
| RadioStream.SelectAvoids | src/radio_transport.cpp:459-463 | The slot just served comes last in the next round. |
| RadioTransports.IsStatusRequest | src/radio_transport.cpp:170-206 | A packet counts as a full status request exactly when it queries the state and names each of the five settings once. |
| RadioTransports.RadioTransport.AcceptController | src/radio_transport.cpp:269-316 | The method accepts, rejects or leaks as specified. |
| RadioTransports.RadioTransport.ReceiveControl | src/radio_transport.cpp:318-344 | Bytes are counted, status requests noticed, and a closed or failing stream loses the controller. |
| RadioTransports.RadioTransport.TransmitSlot | src/radio_transport.cpp:346-431 | Gathers, offers, moves the cursor and ends the submission, reaching the state the results about partial writes speak of. |
| RadioTransports.RadioTransport.ProgressNext | src/radio_transport.cpp:433-465 | One step keeps the invariant and ends in the specified state. |
| RadioTransports.RadioTransport.SendSubmission | src/radio_transport.cpp:568-625 | Accepts or refuses in the order of the checks, and fills the first free slot. |
| RadioTransports.RadioTransport.IsPending | src/radio_transport.cpp:630-635 | True exactly for tokens accepted and not completed. |
| RadioTransports.RadioTransport.Detach | src/radio_transport.cpp:496-513 | The radio's own detach fails every submission. |
| RadioTransports.RadioTransport.Unbind | src/radio_transport.cpp:660-669 | The runtime's detach fails control submissions and leaves data submissions pending. |
| ClientSteps.LossKeeps | src/processor_controller.cpp:265-280 | Losing the connection fails every submission. |
| ClientSteps.ClientConserves | src/processor_controller.cpp:436-485 | In every run the controller's submissions are accounted for, and what waits belongs to the connection now open. |
| ClientSteps.ClientDelivers | src/processor_controller.cpp:305-360 | The bytes taken are a prefix of the message, the cursor counts them, and success means all of them. |
| ClientEffects.AttemptOutcome | src/processor_controller.cpp:305-360 | A message succeeds exactly when the socket takes all that was left in time; on timeout or error the connection and every message on it are lost, and the next attempt waits 100 ms. |
| ClientEffects.ReconnectPaced | src/processor_controller.cpp:362-382 | A new connection is opened only when one is wanted, admission is open, the association is committed and the pause is over. |
| ClientEffects.OneConnection | src/processor_controller.cpp:362-394 | A connection that stays up keeps its number. |
| ClientService.ConnectionOpened | src/processor_controller.cpp:362-382 | Without a connection a step opens one, under the next number, if and only if admission is open, the association is committed, the pause is over, and the radio is reached and its stream set up; an unreachable radio is tried again after 100 ms. |
| ClientService.ConnectionKept | src/processor_controller.cpp:282-394 | A connection stays up through a step if and only if reading and writing do not fail and no message is overdue; otherwise everything on it fails and a new one is wanted after 100 ms. |
| ClientService.ReconnectAsked | src/processor_controller.cpp:219-224 | Asking for a reconnect costs a live connection and its messages, and changes nothing without one. |
| ClientService.DetachEnds | src/processor_controller.cpp:396-404 | A detached transport has nothing waiting and does nothing any more. |
| ClientService.AttemptTakes | src/processor_controller.cpp:305-350 | What the socket takes in time are the next bytes of the message, as many as it is ready for. |
| ClientService.OfferOutcome | src/processor_controller.cpp:436-477 | A message is accepted if and only if it passes every check, and refused for the first one it fails; it waits whole in the first free slot of the queue until one time limit from now. |
| ClientStream.ClientStreamIntact | src/processor_controller.cpp:305-394 | In every run the controller's messages on the present connection follow each other in one piece if and only if none was written while another one was half-sent, and so they do as long as no write left bytes behind. |
| ClientTransports.ClientTransport.TransmitSlot | src/processor_controller.cpp:305-360 | Gathers, offers, moves the cursor and ends the submission or the connection, reaching the state the results about partial writes speak of. |
| ClientTransports.ClientTransport.ProgressNext | src/processor_controller.cpp:362-394 | Reconnects, receives or sends, and keeps the invariant. |
| ClientTransports.ClientTransport.SendSubmission | src/processor_controller.cpp:436-477 | Accepts or refuses in the order of the checks, within the queue limit. |
| ClientTransports.ClientTransport.IsPending | src/processor_controller.cpp:481-486 | True exactly for tokens accepted and not completed. |
| ClientTransports.ClientTransport.RequestReconnect | src/processor_controller.cpp:219-224 | A live connection is dropped with its submissions; otherwise a new one is asked for. |
| LittleEndian.ValueOfBytes | src/recorder.cpp:32-39 | The bytes written spell the value, for every value that fits. |
| Pcap.TimeKept | src/recorder.cpp:101-109 | A record keeps the time to the microsecond if and only if it lies between 1970 and the end of 32-bit seconds. |
| Pcap.PcapWriter.WriteLittleEndian | src/recorder.cpp:32-39 | The loop appends the bytes of the value, least significant first. |
| Pcap.PcapWriter.WriteFrame | src/recorder.cpp:92-120 | A frame is appended whole or not at all, the file stays as long as its byte count says, and the first frame that does not fit closes the capture. |
| Pcap.CaptureIsPrefix | src/recorder.cpp:92-120 | Whatever is offered, the file holds the longest prefix of the frames that fits the limit. |
| PcapLayout.CaptureLaidOut | src/recorder.cpp:79-118 | Every capture begins with the 24 bytes of a microsecond Ethernet capture, and each record stands behind the ones before it: seconds, microseconds, bytes kept, bytes on the wire, frame. |
| Pcap.Walk | artifacts/recorder-recovery/trial.py:109-114 | The loop counts the records and keeps the first and last time, or fails where a record is cut or invalid. |
| Pcap.Audit | artifacts/recorder-recovery/trial.py:104-118 | The audit passes exactly for a well-formed file that agrees with its metrics. |
| Pcap.ParseRecords | artifacts/recorder-recovery/trial.py:110-114 | Written records are read back as they were if and only if each of them is in range. |
| Pcap.FaithfulAuditable | artifacts/recorder-recovery/trial.py:113 | The range check of the reader, said of the frame that was offered to the writer. |
| Pcap.AuditReadsCapture | artifacts/recorder-recovery/trial.py:104-114 | The audit reads every capture back as exactly the accepted frames in order, and rejects it when one frame was offered with a wrong size or time. |
| StatusFrame.FrameDecodes | src/status.cpp:7-39 | A byte stream yields a payload if and only if it is that payload behind its length, of 1 to 1024 bytes. |
| StatusFrame.StatusFrameDecoder.Feed | src/status.cpp:7-39 | However the bytes come, no byte is stored outside the buffers and the decoder is in the state the stream determines. |
| StatusFrame.StatusFrameDecoder.TakeRequest | src/status.cpp:41-53 | A complete request is taken once; an unsupported one is refused. |
| StatusFrame.ChunksDoNotMatter | src/status.cpp:7-39 | Cutting the stream differently changes nothing, except that an empty chunk behind a complete request fails the decoder. |
| StatusFrame.OneRequest | src/status.cpp:41-53 | No run takes two requests, and the one taken is the frame received. |
| StatusFrame.RequestTaken | src/status.cpp:41-53 | A request is taken exactly when the bytes are one frame, however cut, with no empty chunk behind it; an unsupported one is refused and stays. |
| StatusFrame.EncodeResponse | src/status.cpp:55-65 | A payload of 1 to 4096 bytes is framed; others are refused. |
| ActivityHealths.ActivityHealth.AssessActivity | src/telemetry.cpp:52-72 | Gives the verdict, its reason, the new errors and the window, and remembers what `HealthyExactly` needs. |
| ActivityHealths.RunRemembers | src/telemetry.cpp:59-70 | The state remembers the last change of the error count until recovery from it was seen. |
| ActivityHealths.HealthyExactly | src/telemetry.cpp:52-72 | While time runs forward, healthy is said if and only if the process never failed and is not stopping, errors did not just change, activity is at most two intervals old, and the last change lies a full interval back and before the activity. |
| ActivityHealths.VerdictExplained | src/telemetry.cpp:52-72 | While time runs forward, every verdict and reason is the first that applies of: failed before, stopping, count fell, count rose, activity in the future, activity too old, recovery proven, recovery unproven; new errors and window are those since the observation before. |
| ActivityHealths.FailedForGood | include/sdr/telemetry.hpp:26 | After a failure no other verdict is given. |

## Left out

- Transform: rounding of double arithmetic; numbers are exact pairs of reals and the root of unity is a parameter.
- Compute: the conversion to float is a parameter that is only assumed to give valid words for powers between 0 and 2; the finiteness check on samples is always true of reals.
- ToneReported: powers are compared as 32-bit words, which order the non-negative floats of section 3.4 of IEEE 754; the conversion is only assumed to take zero to zero.
- ToneHeard: 16-bit samples spell a tone exactly only at quarter turns; how rounding them blurs other tones is not modelled.
- StreamRebuilt: packets of one size, in order, without duplicates (see DuplicateCountsAsLost), with no context accepted and no time discarded in between.
- PipelineLossless: assumes that every sample of an accepted packet can be read; an unreadable one drops the spectra that were already counted.
- RunConserves: counters and ordinals are unbounded; they are reduced to 64 bits only where a spectrum carries them.
- ReadContext: the VRT codec; a datagram is given by the fields it decodes to, and the bounds of the center frequency are parameters within those of a valid spectrum.
- ConfirmedCommandsFresh: assumes that a radio admits a command only above its high-water mark, that commands on one connection are read in order, and that no command is sent beyond the largest number.
- CoordinateExact: a cancellation the runtime itself refuses; the model records that it was asked for.
- ControllerBounds: the time limits of waits and the reasons for their ends; a wait is an input that never succeeds once the controller was told to stop. The generation of the transport and all counters are unbounded.
- RunLoop: the retry-limit message, the other event lines and the sleep itself; the length of the pause is kept.
- SendSubmission: admission credits and packet counters; acquiring them succeeds or fails as an input.
- ProgressNext: all clock readings of one step are one instant, slot generations and the search cursor are unbounded, and calls back into the transport during a step do not happen.
- ClientStreamIntact: the controller's transport has no counter of partial writes, so a flag of the run stands for it.
- ReconciledCommandsFresh: assumes that the reports, the raised floor and the status reply of the step come from the protocol run as `Answers` says; a status reply means that the radio admitted the query on the connection that owns it.
- ReceiveControl: the framing of the control stream into packets; the packets completed by one read are an input.
- TransmitSlot: in the controller's transport the fields of a freed slot are cleared when it is freed and not when it is used again.
- WriteFrame: failing file operations.
- TakeRequest: JSON; whether the payload is the supported request is an input.
- AssessActivity: the reporter around it and its output.
- Locks and threads: every call on the control slot is one step.
- Sockets, address lookup, signals, configuration files, metrics output, the sample source and its tones.
- Scripts, containers and trials, except the reader of the capture file.
