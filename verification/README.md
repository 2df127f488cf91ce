# audiod: a verified model of the audio data path

audiod carries sound from an ALSA application to an Intel HD Audio controller: a preloaded shim
queues PCM in a ring, a drain thread frames it onto a socket, a server reader converts it to the
mix rate, a mixer thread sums the clients, and a userspace driver keeps a cyclic DMA ring topped
up. This project models that path as state machines joined by bounded rings and proves what each
keeps over every run.

| file | models |
|---|---|
| Bytes, Numbers | byte codecs, 16- and 32-bit words, division facts, gcd |
| Dsp, ResamplerLaws, Kernel | the streaming resampler, its laws over whole streams, and what one output sample is made of |
| Pcm, Samples, Payloads | folding, packing and the reader's conversion pipeline; the same in plain numbers; the payloads the shim cuts for it |
| Ring, RingProtocol, RingSteps | the blocking byte ring as an object, its lock/wait/notify protocol, and how they meet |
| Rates | rate search, format word, choice of a link rate |
| Dma, Laps | the playback DMA ring, its descriptor list, the hardware's walk over it, and what an underrun repeats |
| Playback | the playback session and its pacing |
| Mixer, Slots | one mixing tick; the life of a client slot |
| MixLoop, Hearing | the mixer loop over whole runs: stops and idle watchdog; every byte the hardware fetches |
| Corb, CorbProtocol, Controller | the command rings, verb/response pairing, the fallback to PIO |
| Playhead | the shim's time-based delay and avail |
| Transport, Delivery, Header | framing and socket; delivery end to end for direct and converting clients; the stream header |
| Session | delivery, mixer loop and DMA ring together for one client, from the application to the converter |
| Ensemble | the same for any number of clients |

Objects the program updates in place are classes whose methods equal a function of the old state
(`Feed`, `Written`, `Next`, `VerbRaw`, and so on); runs and laws are lemmas about those functions.
Threads and hardware are nondeterministic steps, taken in any order. The DMA engine moves whenever
and as far as it likes, past the writer too and between the mixer's reading of the delay and its
push; where a result needs more of it than that, the run predicate says so (`Hearing.HasRoomIff`
gives the exact condition, `Hearing.LateWriteIsSplit` what happens without it). `dafny verify dfyconfig.toml` checks the whole project.

## What the code decides differently from its comments

- server/src/dsp.rs:92-94 and 168-172 speak of a deferred erasure. The guard at line 181 compares
  frames with samples and never holds, so history grows with the input (`HistoryKeepsEverything`).
  Had it fired, `pos` would have to be rebased; `ErasureIsOutputNeutral` and
  `DeferredErasureIsNeutral` prove the variants that do.
- docs/protocol.md:74-76 says the shim sends FLUSH as a zero-length frame. The shim sends it with
  length 1 (shim/src/lib.rs:482, 514-517), the server looks for opcodes only at length 0
  (server/src/main.rs:511), and a one-byte frame is dropped. `EndToEnd` proves that no frame of
  the shim is ever taken for an opcode.
- hda/src/stream.rs:229-230 says a write may take nothing when the ring is full. The free space it
  computes is never zero, so the back-off branches of server/src/backend.rs:86-87 and 106-108 are
  dead (`NeverReportsFull`), and a full ring is overwritten (`FullRingIsOverwritten`). The pacing
  keeps the mixer away from that (`Hearing.EveryRun`).
- hda/src/stream.rs:37-46 multiplies in 32 bits: 536876912 Hz matches by wrap-around
  (`SpuriousMatch`); `SearchIsRightIff` says for exactly which rates the search is right. A debug build panics there; the model is the release build.
- Folding a 16-bit stream and packing it again is not the identity: it moves each nonzero sample
  one step to zero (`PackAfterFold`).
- After a reply timeout a late response answers the next verb (`LateAnswerMispairs`).
- `snd_pcm_prepare` forgets the clock anchor and keeps the pushed count, which can wedge the
  reported free space at zero (`PrepareWedgesIff`, `PoliteRunWedges`).
- A push longer than the ring never returns (`LongPushNeverReturns`); `CanOverfillIff` says which
  clients reach it, a 1000 Hz mono one for instance (`SlowMonoHangs`).
- The drain thread cuts payloads at 1024 bytes and the reader keeps no partial frame, so clients of
  3, 5, 6 or 7 channels lose and misalign frames (`DrainIsHarmlessIff`, `SixChannelsLoseAFrame`).
- After an underrun of more than a few frames with data arriving again, the mixer is held off for
  most of a lap while the DMA repeats the ring (`HeldOff`, `ResumesAfterStaleLap`).

## Model

| member | source | states |
|---|---|---|
| Numbers.GcdLoop | server/src/dsp.rs:189-194 | Euclid's loop computes the divisor that `GcdDivides` and `Bezout` show to be the greatest |
| Numbers.GcdDivides | server/src/dsp.rs:108-112 | both rates are exact multiples of the divisor, with nonzero quotients |
| Dsp.ConvolveWindow | server/src/dsp.rs:145-152 | the tap loop accumulates exactly the blended tap sum of each channel, in tap order |
| Dsp.Resampler.EmitFrame | server/src/dsp.rs:130-162 | an output frame is a function of its window and its phase alone, read in bounds |
| Dsp.Resampler.EmitReady | server/src/dsp.rs:126-167 | the loop emits every ready output and stops where nothing more is ready |
| Dsp.Resampler.Resample | server/src/dsp.rs:121-186 | one call takes the stream state to `Feed` of it, counts its frames, and keeps `off` monotone and inside the history |
| Dsp.Resampler.Retire | server/src/dsp.rs:173-184 | `off` becomes the furthest consumed frame yet, and the erasure branch is unreachable |
| Dsp.NewResampler | server/src/dsp.rs:100-117 | no resampler exactly for equal or zero rates; otherwise a fresh one at the reduced ratio |
| ResamplerLaws.ChunkSplitInvariance | server/src/dsp.rs:78-80 | any partition of the input gives the output, position and history of one call on the whole |
| ResamplerLaws.SplitHistory | server/src/dsp.rs:123-167 | stopping at the end of the history and going on later emits what one pass would |
| ResamplerLaws.ReadyIff | server/src/dsp.rs:130-133 | output n can be made exactly when n is below the closed-form count |
| ResamplerLaws.ExactOutputCount | server/src/dsp.rs:126-167 | after F frames, in any chunking, exactly ceil((F-TAPS+1)*den/num) outputs (none below TAPS), with the position bounded by the input |
| ResamplerLaws.NthOutput | server/src/dsp.rs:130-166 | output n of a stream is the frame computed at position n*num |
| ResamplerLaws.PhasePeriod | server/src/dsp.rs:130-134 | output n+den has the remainder of output n and its window exactly num frames later |
| ResamplerLaws.ShiftInvariance | server/src/dsp.rs:130-162 | so output n+den equals output n of the stream started num frames later |
| ResamplerLaws.LowestTerms | server/src/dsp.rs:108-112 | the stored ratio equals the rate ratio and is coprime |
| ResamplerLaws.EveryPhaseOnce | server/src/dsp.rs:130-134 | any den consecutive outputs visit every remainder exactly once |
| ResamplerLaws.DropPrefix | server/src/dsp.rs:181-184 | dropping consumed frames and rebasing the position changes no output to come |
| ResamplerLaws.ErasureIsOutputNeutral | server/src/dsp.rs:86-95 | however many consumed frames are erased after each call, now or later, the output is that of the code, on every chunk list |
| ResamplerLaws.DeferredErasureIsNeutral | server/src/dsp.rs:168-184 | so it is with the source's own rule once its guard compares frames with frames |
| ResamplerLaws.DeferredHistoryBounded | server/src/dsp.rs:91-95 | and that rule holds at most 2*(TAPS-1) frames after a call |
| ResamplerLaws.EagerFromOrigin | server/src/dsp.rs:168-172 | the same from the start of a stream |
| ResamplerLaws.EagerHistoryBounded | server/src/dsp.rs:173-177 | the erasing variant never holds more than TAPS-1 frames after a call |
| ResamplerLaws.HistoryKeepsEverything | server/src/dsp.rs:123-184 | the code's own history is the whole input: nothing is ever erased |
| ResamplerLaws.UnityDcGain | server/src/dsp.rs:135-152 | if every row sums to one, a constant passes at unit gain at every phase, blended or linear |
| Kernel.ChannelsStayApart | server/src/dsp.rs:145-160 | a channel's output depends only on that channel, and only on the 48 frames of its window |
| Kernel.OutputIsLinear | server/src/dsp.rs:147-160 | mixing two inputs before or after resampling is the same |
| Kernel.WeightOfTap | server/src/dsp.rs:137-151 | a single one at tap j gives the table's entry for tap j, a fraction t of the way from row p to the next, where 256 times the remainder is p + t times den |
| Kernel.LinearIsBetween | server/src/dsp.rs:154-161 | the linear kind lies rem/den of the way between the two samples around its place |
| Kernel.StreamIsHeard | server/src/dsp.rs:121-186 | and this is what a stream fed in any chunks has put out |
| Pcm.AverageChannels | server/src/dsp.rs:221-234 | even channels average to the left, odd ones to the right, with the right divisors |
| Pcm.FoldToStereo | server/src/dsp.rs:199-239 | appends the fold of every whole frame and ignores a trailing partial one |
| Samples.NthFrame | server/src/dsp.rs:205-206 | frame f of a fold is the downmix of the bytes of frame f |
| Samples.ShortChannel | server/src/dsp.rs:215 | a 16-bit channel is the number its two bytes stand for, low byte first, over 32768 |
| Samples.FloatChannel | server/src/dsp.rs:209-214 | a float channel is what its four bytes decode to, in their order |
| Samples.MonoFrame | server/src/dsp.rs:219 | mono goes to both sides |
| Samples.StereoFrame | server/src/dsp.rs:220 | stereo keeps its sides |
| Samples.WideFrame | server/src/dsp.rs:221-234 | with more channels, each side times its number of channels is the sum of every second one |
| Pcm.FoldDistributes | server/src/dsp.rs:199-239 | folding distributes over frame-aligned concatenation |
| Pcm.PackToS16 | server/src/dsp.rs:242-248 | appends the clamped 16-bit little-endian packing of every sample |
| Samples.PackedIsScaled | server/src/dsp.rs:245-246 | a packed sample's bytes stand for the sample times 32767, cut toward zero, and for plus or minus 32767 beyond one |
| Pcm.PackDistributes | server/src/dsp.rs:242-248 | packing distributes over concatenation |
| Pcm.PackAfterFold | server/src/dsp.rs:215-245 | every nonzero 16-bit sample comes back one step nearer zero, and zero as zero |
| Samples.StereoClientIsItself | server/src/main.rs:564-580 | a converted 16-bit stereo client at the mix rate is rendered to its own samples, channel for channel, each one step nearer zero |
| Pcm.StreamChunkInvariance | server/src/main.rs:564-575 | from any state at rest and for any payloads, the reader's stream is one conversion of their whole frames, and what it pushed is its packing |
| Pcm.AlignedChunksFoldWhole | server/src/dsp.rs:199-206 | payloads cut at frame boundaries fold to the fold of everything |
| Pcm.PipelineChunkInvariance | server/src/main.rs:564-580 | for any payloads the reader pushes the packing of one conversion of their whole frames; cut at frame boundaries, of everything |
| Pcm.PushesWholeFrames | server/src/main.rs:576-580 | every push of the converting path is a whole number of four-byte frames |
| Payloads.PayloadsStayAligned | shim/src/lib.rs:492-500 | if no pop can cut a frame, every payload of every schedule of whole-frame writes that fit the ring is whole frames |
| Payloads.CutFramesHarm | server/src/main.rs:564-566 | otherwise writes that fit the ring make the reader push less than the whole conversion, at any rate |
| Payloads.DrainIsHarmlessIff | shim/src/lib.rs:464-500 | for every ring capacity, the drain thread's cuts never hurt exactly when a drain chunk is whole frames or the ring never holds more than one; for any real ring, exactly for 1, 2, 4 or 8 channels |
| Payloads.SixChannelsLoseAFrame | server/src/main.rs:564-566 | six channels: 86 frames in two payloads come out as 85 |
| Payloads.PushIsDifference | server/src/main.rs:567-580 | what one payload pushes is the difference of two closed-form counts |
| Payloads.MadeAtMost | server/src/main.rs:567-571 | the most frames a payload can make, and the state in which it makes them |
| Payloads.CanOverfillIff | server/src/main.rs:580 | payloads within a limit can make a push longer than the ring exactly when the fullest one can |
| Payloads.OverfullPushHangs | common/src/ring.rs:61-63 | a reader in such a push never leaves it |
| Payloads.SlowMonoHangs | server/src/main.rs:567-580 | 1000 Hz mono: the first drain chunk pushes 89280 bytes, more than the default 65536-byte ring holds |
| Ring.NextPowerOfTwo | common/src/ring.rs:27 | the capacity is the least power of two that is large enough |
| Ring.AudioRingBuffer.constructor | common/src/ring.rs:26-40 | a new ring is empty, at that capacity |
| Ring.AudioRingBuffer.Push | common/src/ring.rs:55-84 | appends to the queue when it fits, otherwise parks with nothing changed |
| Ring.AudioRingBuffer.StoreWrapping | common/src/ring.rs:64-78 | the one or two copies lay the data down circularly and advance the write position |
| Ring.AudioRingBuffer.CopyOut | common/src/ring.rs:95-113 | takes the longest prefix that fits, leaves the rest, writes nothing past it |
| Ring.AudioRingBuffer.Pop | common/src/ring.rs:117-135 | interrupted, parked or a prefix of the queue, and exactly when each |
| Ring.AudioRingBuffer.TryPop | common/src/ring.rs:139-154 | the same without parking |
| Ring.AudioRingBuffer.Interrupt | common/src/ring.rs:88-91 | flags the next pop and changes no data |
| Ring.AudioRingBuffer.Clear | common/src/ring.rs:156-163 | empties the queue |
| Ring.StoreAppends | common/src/ring.rs:64-79 | storing at the write position appends to the queue through every wrap case |
| Ring.LoadTakes | common/src/ring.rs:95-113 | advancing the read position removes exactly the copied prefix through every wrap case |
| RingProtocol.StepKeepsInv | common/src/ring.rs:55-163 | every step keeps mutual exclusion and the debt of a notify to a thread parked without cause |
| RingProtocol.NoLostWakeup | common/src/ring.rs:61-83 | in every reachable state a parked thread whose wait condition is false is still owed a notify |
| RingProtocol.NeverDeadlocks | common/src/ring.rs:55-153 | with pushes no longer than the ring the two threads are never both parked, and an active thread can always be served |
| RingProtocol.LongPushDeadlocks | common/src/ring.rs:61-63 | a longer push and a blocking pop deadlock from an empty ring |
| RingProtocol.LongPushNeverReturns | common/src/ring.rs:61-63 | a longer push never completes, in any run |
| RingProtocol.PopsMakeRoom | common/src/ring.rs:117-135 | while a push waits, each non-empty pop lowers the fill by at least one |
| RingProtocol.BlockedPushGetsRoom | common/src/ring.rs:61-63 | after finitely many non-empty pops, a number fixed in advance, a waiting push has room and is awake or owed a notify |
| RingSteps.ProducerChecks | common/src/ring.rs:60-79 | one locked push on the ring object is the protocol's step: the same fill, and parked exactly when it is |
| RingSteps.ConsumerChecks | common/src/ring.rs:119-129 | so is one locked pop |
| RingSteps.ConsumerTries | common/src/ring.rs:141-148 | and one that does not wait |
| Rates.EncodeRate | hda/src/stream.rs:37-49 | returns the first code in search order whose wrapped products agree, or none if none does |
| Rates.MatchIsNameOrWrap | hda/src/stream.rs:42 | the loop's test accepts a code exactly when it names the rate or a product wraps onto it |
| Rates.SearchIsRightIff | hda/src/stream.rs:29-49 | the search is right, found exactly when some code names the rate, exactly for the rates that do not wrap onto a code; and then its code is in lowest terms |
| Rates.SmallRatesDoNotWrap | hda/src/stream.rs:42 | rates whose products fit 32 bits are among them |
| Rates.SpuriousMatch | hda/src/stream.rs:42 | for 536876912 Hz the search answers, and wrongly |
| Rates.FieldsDoNotOverlap | hda/src/stream.rs:57-71 | the fields of the format word read back what was put in |
| Rates.WordByWeight | hda/src/stream.rs:57-71 | the word is 17 plus 256 (div-1) plus 2048 (mult-1) plus 16384 base |
| Rates.FormatVal | hda/src/stream.rs:59-72 | unless the rate wraps onto a code, the word decodes to the rate, or to 48000 Hz when it has none |
| Rates.FormatDecodesRate | hda/src/stream.rs:56-59 | one word never names two rates |
| Rates.NearestHdaRate | server/src/backend.rs:41-47 | the closest listed rate, the lower on a tie |
| Rates.OpenRate | server/src/backend.rs:59-68 | a representable rate is kept and any other replaced by a representable one, exactly unless the rate wraps onto a code |
| Dma.DelayIsDistance | hda/src/stream.rs:194-210 | delay is written minus played modulo the ring, delay plus free is the ring, and delay is exact exactly below a full ring |
| Dma.NeverReportsFull | hda/src/stream.rs:204-210 | the free space is never zero, and the whole ring exactly when the positions meet |
| Dma.ReportedIsUnplayed | hda/src/stream.rs:194-201 | the reported delay is the true occupancy exactly while that is below a full ring; a full ring reads empty |
| Dma.WriteKeepsWindow | hda/src/stream.rs:231-253 | a write appends what fits and overwrites no unplayed byte; accounting stays exact exactly when a free byte is left |
| Dma.FullRingIsOverwritten | hda/src/stream.rs:233-248 | a write into a full ring lands on the next byte due |
| Dma.FetchKeepsWindow | hda/src/stream.rs:187-191 | playing sent bytes keeps the rest intact |
| Dma.WriteRemembers | hda/src/stream.rs:231-253 | any write leaves the whole last lap of what was sent in the ring, wherever the DMA is |
| Dma.RememberedIsWindow | hda/src/stream.rs:187-201 | so the unplayed bytes are intact while the DMA is neither past the writer nor a lap behind |
| Dma.RestartReplays | hda/src/lib.rs:82-91 | a restart replays exactly the last `writePos` bytes sent, nothing exactly when whole laps were sent |
| Dma.CaughtUpIsExact | hda/src/stream.rs:194-201 | past the writer, the reported delay is the distance to the end of the repeated lap |
| Laps.WriteAfterLaps | hda/src/stream.rs:231-253 | a write with room to spare joins the stream behind its repeated laps and leaves what was heard alone |
| Laps.LapsAreWhole | hda/src/stream.rs:187-201 | what a late writer puts in is whole laps, and without any the stream is the data |
| Dma.FetchFollows | hda/src/stream.rs:186-191 | every fetched byte is the next of the stream and its repeated laps, however far the DMA runs |
| Dma.FetchReadsTheRing | hda/src/bdl.rs:3-9 | a fetch through descriptors and page map reads the ring at its count modulo the ring size |
| Dma.Stream.DelayBytes | hda/src/stream.rs:194-201 | the register arithmetic reports that delay |
| Dma.Stream.Write | hda/src/stream.rs:231-253 | both copies and the wrapped position give the new ring state |
| Dma.Stream.Drop | hda/src/lib.rs:153-156 | reset, clear and zero leave the silent state |
| Dma.EntryRoundTrip | hda/src/bdl.rs:38-45 | the controller decodes the sixteen bytes to the address, size and flag encoded |
| Dma.MakeEntry | hda/src/bdl.rs:38-45 | the four in-place writes produce those bytes |
| Dma.Fill | hda/src/bdl.rs:25-35 | each entry describes its page, the flag only on the last, and bytes past the list are untouched |
| Dma.ListByWeight | hda/src/bdl.rs:3-6 | byte by byte: each page's address in two words, then 4096, then the flag on the last entry alone |
| Dma.WalkIsCyclic | hda/src/bdl.rs:3-9 | the k-th byte the hardware fetches is at ring offset k modulo the ring size |
| Dma.HardwarePlaysTheStream | hda/src/pagemap.rs:107-115 | through the descriptors and the page map, the hardware reads stream byte i for every i sent and not played |
| Playback.PacedWriteKeepsCap | server/src/backend.rs:78-85 | a write within the headroom that was read is taken whole, joins what the hardware will play, and keeps the cap, wherever the DMA had been before and has got to since |
| Playback.CappedReportsTruth | hda/src/lib.rs:113-115 | up to the cap the reported delay is true and at most the target |
| Playback.OvertakenReadsFull | server/src/mixer.rs:212-216 | a DMA past the writer reads as a nearly full ring and holds the writer off, exactly until less than the target is left of the lap |
| Playback.PushThatFits | server/src/backend.rs:101-113 | data that fits goes out in one write |
| Playback.Backend.Start | hda/src/lib.rs:82-91 | resets only a halted stream |
| Playback.Backend.Play | hda/src/lib.rs:95-110 | starts, then takes what fits |
| Playback.Backend.Push | server/src/backend.rs:101-114 | writes until all is taken, and does not even start for no data |
| Playback.Backend.PlayPaced | server/src/backend.rs:74-93 | from a halted or running session, with the DMA anywhere before each delay read, past the writer too, and up to what was read after it: the cap holds, the bytes go out in order and once with only repeats of the last lap put in, and exactly so without an overrun; only running out of turns ends it early |
| Playback.Backend.PaceOnce | server/src/backend.rs:77-91 | a turn writes what the target of 4096 frames lacked when the delay was read, or what is left, and nothing at the target |
| Playback.Backend.TopUp | server/src/backend.rs:83-90 | writes exactly what the target lacked when the delay was read |
| Playback.Backend.DropAll | hda/src/lib.rs:152-158 | halted, silent, position zero |
| Playback.Backend.Stop | hda/src/lib.rs:161-164 | halts and changes nothing else |
| Mixer.Scratch.Accumulate | server/src/mixer.rs:246-250 | adds one stream's samples at their own places and nothing elsewhere |
| Mixer.Scratch.SumStreams | server/src/mixer.rs:239-256 | the accumulator is the sum over all streams, each ring loses its whole-frame share, and a ring cleared before its pop gives nothing but still counts as data |
| Mixer.Scratch.Render | server/src/mixer.rs:260-267 | the output bytes are the scaled, clamped, packed sums |
| Mixer.Scratch.MixTick | server/src/mixer.rs:239-267 | what is consumed does not depend on gain or mute |
| Mixer.MixedSample | server/src/mixer.rs:263-266 | each output sample is gain times the sum over all streams, cut toward zero: 32767 from there up, -32768 from there down, silence when muted |
| Mixer.SampleStands | server/src/mixer.rs:248-249 | a stream's sample is the number its two bytes stand for, and zero past its end |
| Mixer.SumIsSum | server/src/mixer.rs:241-250 | the sum counts every stream once |
| Mixer.OrderIndependent | server/src/mixer.rs:241-250 | the sum does not depend on the order of the streams |
| Mixer.NoOverflowIff | server/src/mixer.rs:147 | a 32-bit accumulator is safe for n streams exactly when n is at most 65536 |
| Mixer.Passthrough | server/src/mixer.rs:263-266 | one unmuted stream at gain 1 passes bit for bit, then silence |
| Mixer.MutedIsSilent | server/src/mixer.rs:264 | a muted tick is silence, whatever was consumed |
| MixLoop.Loop.TryIdleStop | server/src/mixer.rs:114-140 | arms, waits, or stops and disarms |
| MixLoop.Loop.Flush | server/src/mixer.rs:178-191 | a flush stops the stream only when all rings are empty and it is not stopped, and always disarms |
| MixLoop.Loop.MixOnce | server/src/mixer.rs:224-256 | takes exactly the paced part of a mixed chunk, or nothing |
| MixLoop.Loop.BeginPass | server/src/mixer.rs:157-256 | a pass up to its push is the first step of the runs |
| MixLoop.Loop.HandOver | server/src/mixer.rs:258-268 | its push is the second |
| MixLoop.PassTakesWhatLacks | server/src/mixer.rs:224-237 | a pass with data takes exactly what the target of 4096 frames lacks, at most 1024 frames, and nothing at the target |
| MixLoop.FlushHalts | server/src/mixer.rs:178-191 | a flush that leaves every ring empty halts the stream, and any flush starts the idle time anew |
| MixLoop.StoppedIsSilent | server/src/mixer.rs:127-132 | in every run, whatever the DMA does, stopped implies halted at position zero with a zeroed ring |
| MixLoop.StopsAreSeparated | server/src/mixer.rs:151-154 | in every run two stops have a push of data between them |
| MixLoop.IdleWatchdogFires | server/src/mixer.rs:212-222 | a dry stretch spanning the idle period ends stopped, flushes included and however far the DMA runs past the writer |
| MixLoop.WatchdogIsPatient | server/src/mixer.rs:114-126 | and it never fires early: an unflushed stop comes at least 250 ms after a dry pass, with only dry unflushed passes in between |
| Hearing.ActFollows | server/src/mixer.rs:157-274 | each pass, push with room, and DMA advance keeps what was heard in step with what was pushed |
| Hearing.EveryByteHeard | server/src/mixer.rs:207-216 | in every run whose pushes find room, in each epoch the fetched bytes follow the pushed ones, with only repeats of the last lap put in |
| Hearing.HasRoomIff | hda/src/stream.rs:204-210 | wherever the DMA is, laps included, a push finds room exactly when the DMA meets the writer or is past it by more than the push |
| Hearing.LateWriteIsSplit | hda/src/stream.rs:231-253 | past it by less: the first part lands behind the DMA and the rest is heard first |
| Hearing.ExactWriteIsOvertaken | hda/src/stream.rs:231-253 | past it by exactly the push: the ring reads empty and the next push is heard a lap before this one |
| Hearing.ActPaced | server/src/mixer.rs:224-268 | the cap survives every DMA movement up to the delay that was read between the read and the push, and gives every push room |
| Hearing.EveryRun | server/src/mixer.rs:224-268 | over such runs the occupancy never exceeds the cap; the reported delay is true and at most the target unless the DMA is past the writer |
| Hearing.HardwarePlaysWhatWasPushed | server/src/mixer.rs:268 | from boot, every byte the hardware has still to fetch is the stream's byte at that place |
| Hearing.TrackedRunIsExact | server/src/mixer.rs:224-268 | if the DMA never passes the writer, what was heard is exactly what was pushed, as far as it was played |
| Hearing.NothingIsDiscarded | server/src/mixer.rs:120-132 | with a DMA that plays the cap within the idle period, no idle stop of any run discards a byte |
| Hearing.HeldOff | server/src/mixer.rs:224-237 | once the DMA is past the writer, waiting data is not pushed and nothing stops until the DMA is within the target of a lap |
| Hearing.ResumesAfterStaleLap | server/src/mixer.rs:212-216 | exactly then the next pass with data resumes, and the bytes heard past the writer are the last lap again |
| Hearing.HeardIsFetched | hda/src/pagemap.rs:107-115 | each byte counted as heard is the one at the controller's fetch address |
| Slots.StepKeepsAccount | server/src/mixer.rs:171-193 | taken bytes followed by the ring are exactly the pushed bytes, and flushes never outnumber requests |
| Slots.NoLostTail | server/src/mixer.rs:193 | a retired slot's bytes have all been mixed or flushed on request, in order, and no push can follow |
| Slots.FinishedSlotRetires | server/src/mixer.rs:193 | a finished slot with whole frames left is retired after enough pops and one test |
| Slots.SwappedReadsLoseTheTail | server/src/mixer.rs:193 | reading the fill before `done` would lose a tail |
| Slots.DrainsIffWholeFrames | server/src/mixer.rs:242-245 | pops can empty a ring exactly when it holds whole frames |
| Corb.CollectEntries | hda/src/corb.rs:246-260 | every entry after the read pointer up to the write pointer, once, in order, across the wrap |
| Corb.CommandRing.Send | hda/src/corb.rs:101-111 | refuses exactly when one slot is left and never overwrites a verb not yet fetched |
| Corb.CommandRing.HardwareFetch | hda/src/corb.rs:13-17 | the hardware gets the verbs in the order sent |
| Corb.AppendSlot | hda/src/corb.rs:104-109 | the slot after the write pointer is none of those waiting |
| Corb.RouteIs | hda/src/corb.rs:230-239 | by the low byte of an entry's second word: 16 marks it unasked, and otherwise it is solicited exactly when the rest modulo 16 is the codec addressed, else foreign |
| Corb.ResponseRing.TakePending | hda/src/corb.rs:117-119 | the oldest queued response goes first |
| Corb.ResponseRing.Poll | hda/src/corb.rs:121-162 | a poll queues exactly the entries that by their numbers answer the codec addressed, in order, and answers with the oldest; a bad pointer changes nothing |
| CorbProtocol.PollReadsUnread | hda/src/corb.rs:129-143 | a poll reads every unread entry, once and in order |
| CorbProtocol.PollCountsModulo | hda/src/corb.rs:246-260 | from the pointers alone that is exact exactly below `count` unread entries |
| CorbProtocol.StepKeepsInv | hda/src/corb.rs:101-171 | handed out, pending and unread responses are all the responses, in order; with no timeout none was skipped |
| CorbProtocol.AnswersLagByTimeouts | hda/src/corb.rs:113-171 | the k-th value handed out is the k-th response; it answers verb k plus the answers lost before it and is handed to verb k plus the timeouts before it; both counts are of steps of the run |
| CorbProtocol.OwnAnswerIffNoTimeout | hda/src/corb.rs:116-168 | when no answer is lost, response k answers verb k, and a verb is handed its own exactly when no wait before has timed out |
| CorbProtocol.PairingWithoutTimeouts | hda/src/controller.rs:300-306 | without timeouts verb k gets response k, which answers it, and nothing is pending or unread between verbs |
| CorbProtocol.LateAnswerMispairs | hda/src/corb.rs:116-119 | a run in which a verb is told the previous verb's late answer |
| Controller.CommandPort.constructor | hda/src/controller.rs:166-179 | which engine each choice and outcome starts with |
| Controller.CommandPort.DegradeToPio | hda/src/controller.rs:289-297 | PIO, no timeouts, fallback marked |
| Controller.CommandPort.Verb | hda/src/controller.rs:249-284 | one verb's reply and state under every outcome |
| Controller.BootEngine | hda/src/controller.rs:166-179 | a port starts on the rings exactly unless PIO is forced or they do not come up |
| Controller.AnsweredVerbIs | hda/src/controller.rs:261-264 | an answer over the rings goes to the caller and clears the timeouts behind it |
| Controller.TimedOutVerbIs | hda/src/controller.rs:265-272 | a first or second timeout is told to the caller and counted |
| Controller.DegradingVerbIs | hda/src/controller.rs:267-281 | a third timeout or a hard error sends the same verb over PIO, whose answer counts |
| Controller.PioVerbIs | hda/src/controller.rs:259 | over PIO the caller is told what PIO answered and the engine does not change |
| Controller.VerbKeepsInv | hda/src/controller.rs:249-284 | a live ring engine is below the limit with no fallback behind it, and no caller sees a hard error |
| Controller.EveryRun | hda/src/controller.rs:286-297 | over every run: degrades at most once, never goes back, each verb at most once per engine |
| Controller.ThreeFailuresForcePio | hda/src/controller.rs:265-283 | three verbs without a success force PIO |
| Controller.TimeoutsDegradeAtTheThird | hda/src/controller.rs:266-270 | timeouts alone do it exactly at the third |
| Controller.VerbFields | hda/src/controller.rs:71-78 | the fields read back exactly when the payload's high byte adds no verb bit |
| Playhead.Handle.DelayAvail | shim/src/lib.rs:620-634 | the reported pair, which always adds up to the buffer size |
| Playhead.Handle.Writei | shim/src/lib.rs:1156-1187 | anchors once and counts what was pushed |
| Playhead.ConsumedIsElapsed | shim/src/lib.rs:627-630 | t nanoseconds after the anchor the frames played are the whole ones of rate times t over 1000000000 |
| Playhead.DelayIsBacklog | shim/src/lib.rs:626-633 | the exact delay and avail for what was pushed and played, between 4096 and 8192 frames |
| Playhead.WriteDrainsIn | shim/src/lib.rs:626-633 | k frames written to a fresh device leave the delay at its floor exactly from ceil(k * 1000000000 / rate) nanoseconds on |
| Playhead.ResetReportsEmpty | shim/src/lib.rs:786-788 | a drop or a reconnect reports an empty device again |
| Playhead.DelayMovesSmoothly | shim/src/lib.rs:610-619 | time never raises the delay, and k frames raise it by at most k |
| Playhead.BoundedIffUnclamped | shim/src/lib.rs:631-632 | the clamp changes nothing exactly when the backlog is within the shim's share |
| Playhead.BacklogBound | shim/src/lib.rs:617-619 | in every run of writes within avail, with drops, reconnects and time passing, the backlog bound holds and the clamp never bites |
| Playhead.PrepareKeepsBoundIff | shim/src/lib.rs:749-757 | a bare prepare keeps the bound exactly when no more than the shim's share was pushed |
| Playhead.PrepareWedgesIff | shim/src/lib.rs:749-757 | after it, waiting never frees room exactly when at least that share was pushed |
| Playhead.PoliteRunWedges | shim/src/lib.rs:749-757 | a run of writes within avail that ends there |
| Transport.ParserInvertsFraming | server/src/main.rs:507-552 | parsing the framing of any payloads gives the payloads back |
| Transport.StepKeepsInv | server/src/main.rs:507-552 | each step, cut anywhere, keeps every byte in its place between the shim's ring and the reader |
| Transport.FinishedPayload | server/src/main.rs:510-552 | a complete frame is the next one under way, and never empty, so never an opcode |
| Transport.StepKeepsAligned | shim/src/lib.rs:492-500 | if a drain chunk is whole frames, nothing is ever cut inside one |
| Delivery.PayloadsAreRendered | server/src/main.rs:554-580 | cut between frames, and with control frames among them, the payloads make the reader push the rendering of their sound: the bytes themselves, or their conversion |
| Delivery.StepKeepsInv | server/src/main.rs:507-580 | each step keeps the reader's work and its pushes in step with its payloads |
| Delivery.EndToEnd | shim/src/lib.rs:1168-1187 | in every interleaving and fragmentation, for a direct client and for one of 1, 2, 4 or 8 channels at any rate: nothing written is lost, repeated or reordered, what was mixed is the beginning of the rendering of what was written, and no shim frame is taken for an opcode |
| Delivery.MovesMakeProgress | shim/src/lib.rs:492-518 | each data step shortens the way left, however much a conversion adds |
| Delivery.NeverStuck | server/src/main.rs:555-580 | while anything is undelivered, some data step can be taken, if the server's ring takes any one push |
| Delivery.EverythingArrives | shim/src/lib.rs:492-518 | data steps alone are finite, and when none is left exactly the rendering of what was written has been mixed |
| Session.PayloadIsPadded | server/src/mixer.rs:262-268 | with one client at gain 1, a push is the popped bytes, then silence up to the paced length |
| Session.SilenceOnlyOnUnderrun | server/src/mixer.rs:242-268 | silence is put in only when the pass leaves the client's ring empty |
| Session.StepKeepsInv | server/src/mixer.rs:157-274 | every step of application, drain thread, socket, reader, mixer or DMA keeps all of the above joined |
| Session.SpeakerPlaysTheClient | shim/src/lib.rs:1168-1187 | in every run from boot whose pushes find room, nothing written is lost, repeated or reordered on the way to the mixer, which hears its rendering; what is handed over is what was popped with only silence put in; and in each epoch every fetched byte follows that with only repeats of the last lap put in |
| Session.ProgressShortens | server/src/mixer.rs:224-268 | each step towards the speaker, of which only the DMA's makes room, shortens the distance left |
| Session.NeverSilenced | server/src/mixer.rs:224-268 | while anything written has not been heard, some such step is possible |
| Session.EverythingIsHeard | server/src/mixer.rs:224-268 | such steps are finitely many, and when none is left the rendering of all that was written has been mixed, handed over and fetched |
| Ensemble.PayloadIsMixdown | server/src/mixer.rs:239-267 | the chunk a pass mixes is the clamped scaled sum of what it adds to the clients' lanes |
| Ensemble.MixdownExtends | server/src/mixer.rs:239-267 | mixing longer lanes goes on where the shorter ones ended, sample by sample |
| Ensemble.SilenceOnlyWhereDry | server/src/mixer.rs:242-245 | a pass puts silence into a client's lane only when it leaves that client's ring empty |
| Ensemble.StepKeepsInv | server/src/mixer.rs:157-274 | every step of any client, of the mixer or of the DMA keeps lanes, rings and output in tune |
| Ensemble.EveryClientIsHeard | server/src/mixer.rs:239-268 | in every run from boot, for any clients joining at any time and any volume or mute per pass: each lane is the beginning of that client's rendering with only silence put in, every sample handed over is the scaled sum of the lanes there, cut and limited, and the fetched bytes follow it |
| Header.HeaderRoundTrip | server/src/main.rs:135-148 | what a shim sends (shim/src/lib.rs:263-272) is accepted exactly for a valid configuration after truncation, and read back as sent |
| Header.HeaderByWeight | server/src/main.rs:135-147 | rate, channels and format byte by byte, lowest first |

## Left out

- FLOAT rounding: samples and gain are `real`. The kernel table is an arbitrary table, so filter
  quality (passband, alias rejection, blending the last row with the first) is not stated; the
  decoding of four float bytes is a parameter of `Pcm`.
- Integer widths: positions and counters are unbounded, except in `Rates`, `Bytes` and the mixer's
  accumulator; `ExactOutputCount` bounds the resampler's position.
- Hearing.EveryRun: asks that between the delay read and the push the DMA plays no more than that
  delay; `EveryByteHeard` asks only that pushes find room. `selftest_tone` writes without pacing and
  is outside the cap.
- Hearing.NothingIsDiscarded: a flush may discard what the ring still holds, as it is meant to.
- MixLoop.Loop.BeginPass: the mixed chunk, the clock and what the loop reads of the client rings
  come from outside; `Mixer.Scratch.MixTick` fills that chunk, and `Session` and `Ensemble` tie
  both to the clients' rings. Registration, the route refresh, sleeps and the status counters are
  not modelled, nor is the error arm of a stop, which the code cannot reach
  (server/src/backend.rs:129-132).
- Mixer.Scratch.SumStreams: holds the client rings as values; `Ring.AudioRingBuffer.TryPop` states
  when a pop returns what it was asked for.
- Mixer.NoOverflowIff: concerns the accumulator alone, not how many clients may connect.
- Playback.Backend: merges `HdaPlayback` and the facade over it; a stream reset is taken to zero
  the position register, and errors of the re-setup are not modelled.
- Ring.AudioRingBuffer.Push: one attempt under the lock; the waiting is in `RingProtocol`.
- RingProtocol.NoLostWakeup: one producer and one consumer; `interrupt` notifies without the lock
  and is excluded from the wakeup claims.
- CorbProtocol.PairingWithoutTimeouts: one codec address, in-order hardware that keeps fewer than
  `count` entries unread. The deadline is a `GiveUp` step; `init`, `program_size`, `wait_bit` and
  the masking of the pointer registers are left out.
- Controller.CommandPort.Verb: how each engine fares is a parameter; register polling, link reset,
  PCI and memory mapping are left out.
- Playhead.BacklogBound: a fixed rate and format, and exact time in nanoseconds for the float clock.
- Delivery.EndToEnd: without drop, flush or reconnect, and for clients the drain thread's cuts do
  not hurt; `Payloads.DrainIsHarmlessIff` says which those are.
- Session.SpeakerPlaysTheClient: one client, unmuted, gain 1, no flush.
- Session.EverythingIsHeard: as long as the DMA does not pass the writer.
- Ensemble.EveryClientIsHeard: no flush; a client that has left stays as a silent lane.
- Command parsing and STATUS, socket accept and peer checks, the codec, configuration, file
  players, the control tool and the ALSA stubs: input/output or straight-line code.
