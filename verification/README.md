# Verified models of the GC573 capture driver

A Dafny model of the algorithms and protocols of the GC573 HDMI capture card driver, with
machine-checked proofs of what they promise. Each module follows one component of the
driver. Where the driver works by changing state, so does the model: classes with the
driver's fields, methods with its loops and branches, each proved against a specification
function or a stated effect. `dafny verify dfyconfig.toml` checks everything.

| module | what it models |
|---|---|
| `DmaRing`, `CaptureRing`, `CaptureRingSafety`, `CaptureRingProgress`, `CaptureRingRace`, `CaptureDevice` | the four-slot DMA ring: the decoder, the protocol of hardware, interrupt handler and worker as a state machine of atomic steps, that it is never stuck, and the refill with its read and write apart |
| `FrameLayout` | descriptors, chunks, the copy of a frame and its guard bytes |
| `BufferQueue` | the V4L2 buffers: list, worker, start and stop |
| `Bytes`, `CtaBlocks`, `PassthroughEdid`, `EdidBuilder`, `EdidIdempotence`, `EdidSoundness`, `EdidLimits`, `EdidReader` | the EDID filter: specification, the code that builds the bytes, its laws, and what it means for a reader of raw EDID bytes |
| `Ddc` | the checksum and address planner for the filtered EDID |
| `Scaler` | the phase generator of the horizontal scaler and the programming around it |
| `BlockEngine`, `BlockTransfer` | the I2C engine: when a completion may be trusted, the two transfers, and any sequence of them |
| `BankedDevice`, `ReceiverInit`, `ReceiverVideo` | a banked register chip on a failing bus, the masked-write table interpreter, and the receiver's video attempt |
| `SinkRead` | reading the display's EDID over DDC, and SCDC access |
| `EdidSram` | programming and restoring the EDID memory |
| `Events`, `LinkResume`, `PassthroughPoll`, `CombinedPoll` | the supervisors and the journal their set-ups enter: late link lock with one repeated setup, following the external display, and the gate in front of capture |
| `StartupCheckpoint` | the crash-safe cold start |

## What the hardware is trusted with

The proofs hold for every behaviour inside these contracts.

* **DMA ring.** Queued slots complete in cyclic order; a slot that is not queued is passed
  over or waited for; register 0x300 holds the last completed slot plus one; a completion
  sets interrupt bit 1 and the acknowledgement clears it. Hardware, handler and worker
  interleave freely, one register access or one locked section at a time. The read and
  write of the queue register 0x304 in the refill count as one step;
  `CaptureRingRace.RefillRace` states exactly when that is sound.
* **DMA memory.** Chunks are disjoint 64 KiB ranges below 2^64; the engine follows the
  descriptors in order.
* **I2C engine.** A completion bit appears only when a transfer of its kind completes;
  completion bits may disappear at any time and may survive a start; a start issued while
  another transfer is in flight may be lost; a finished read leaves its bytes, and only
  these, in the FIFO; a card that stops answering reads as all ones or 0xeeeeeeee, but not
  between a completed read and the last FIFO byte. Polling takes any number of samples.
* **Chips behind the bus.** Any transaction may fail. A write that fails may have landed.
  Volatile registers hold anything; the others keep what is written. In `BankedDevice` and
  the modules above it a failed write lands at once or never: a write still in flight is
  the subject of `BlockEngine`.
* **Display.** Its EDID does not change during one read.
* **Cold start.** The first write of phase 0 takes the GPIO register off its cold value
  for the rest of the boot, and a phase that reports success has written something.

## Findings

* The completion rule of the I2C engine (driver/gc573_block.c:51-61) is safe for any
  sampling and any left-over completion bits exactly when no earlier transfer of the same
  kind is still in flight (`BlockEngine.FreshExactlyWhenIdle`). A transfer that timed out
  and completes late can be taken for the next one (`BlockEngine.LateCompletionFools`). A
  caller sees it this way: a kind of transfer is in doubt once one was started and failed,
  every success of a kind that is not in doubt is its own, and such a success leaves
  nothing in doubt (`BlockTransfer.Calls`).
* The refill reads 0x304 and writes it back (driver/gc573_capture.c:515-521). From any
  state a run can reach, every continuation copies the frames in order if and only if no
  slot completed between the two, or the worker has been told to stop, or hardware stood at
  or behind a slot that an earlier refill left out (`CaptureRingRace.RefillRace`); an empty
  queue at the read is always safe. The failing run: slot 1 completes while slot 0 is given
  back, is queued again before its frame was copied, and the worker's second copy is not
  frame 1 (`CaptureRingRace.ADelayBreaksTheOrder`). Whether the register really drops a bit
  at a completion is the hardware's.
* A restore of the EDID memory that reports success (driver/gc573_passthrough.c:344-355)
  shows the first image again, for every run, exactly when that image starts with 0
  (`EdidSram.RestoreIsExact`, `EdidSram.Restore`). The failing run: the very first byte
  write fails and lands; the byte is 0, nothing counts as written, and the restore returns
  at once with that 0 in place (`EdidSram.LoseFirstByte`).
* The first image can be restored exactly when its header and its extension count pass the
  programming gates (driver/gc573_passthrough.c:43-55), which is found out only after
  another image was programmed (`EdidSram.RestoreRefuses`).
* A measurement is compared with the one before it, also when that was of another source
  (driver/gc573_passthrough.c:209-230). A new, steady source is set up twice if and only if
  the profile is the scaled one and the rate measured last is more than a tenth away from
  its own (`PassthroughPoll.SecondSetUp`); from a cold start, 720p behind 1080p
  (`PassthroughPoll.ARunSetsUpTwice`).
* The range error behind the scaler's phase loop (driver/gc573_scaler.c:102-104) cannot
  occur (`Scaler.PhaseWords`).

## Model

| member | source | states |
|---|---|---|
| DmaRing.Ring.Complete | driver/gc573_dma_ring.h:11-31 | one walk over the ring returns exactly the slots from `next` to the reported one if all are queued, else nothing; they leave `pending` and `next` moves behind them |
| DmaRing.DecodeExact | driver/gc573_dma_ring.h:18-29 | if 1 to 4 queued slots completed since the last decode and the status names the last one, precisely these are reported |
| DmaRing.DecodeStopsAtHole | driver/gc573_dma_ring.h:16-21 | a completion is never inferred across a slot that was not queued |
| DmaRing.RepeatedStatusIsFullLap | driver/gc573_dma_ring.h:16-29 | without a new completion a repeated status with all slots queued would be read as a full lap: why the interrupt bit is needed |
| CaptureRingSafety.FramesInOrder | driver/gc573_capture.c:216-253 | in every interleaving, with lost and merged interrupts, slow copies and skipped refills, the copies are frames 0, 1, 2, ... in order and whole, and the slot being copied is neither queued nor being written |
| CaptureRingSafety.CopiedSlotIsOwned | driver/gc573_capture.c:495-506 | the slot the worker accepted holds the next frame and belongs to the worker until it is refilled |
| CaptureRingSafety.BitMeansNews | driver/gc573_capture.c:231-236 | a set interrupt bit means hardware is one to four completions ahead of the decoder |
| CaptureRingSafety.DecodeReportsAll | driver/gc573_capture.c:238-247 | every decode reports exactly the completions up to the status read, also those whose own interrupt was acknowledged away and with refills in between; only a hole stops it, and then nothing is reported |
| CaptureRingSafety.RunInvariant | driver/gc573_capture.c:475-522 | the invariant behind these holds in every state of every run |
| CaptureRingSafety.ARunDelivers | driver/gc573_capture.c:475-506 | a run from the cold ring brings a frame to the worker's output |
| CaptureRingProgress.NeverStuck | driver/gc573_capture.c:475-522 | from every reachable state of a started ring with no slot left out and nobody told to stop, whatever interrupts were merged or lost before, the run can go on so that the worker copies any number of frames more |
| CaptureRingProgress.FewOnRuns | driver/gc573_capture.c:231-247 | while no slot was left out: with the interrupt bit clear and no handler at work, fewer than four completions are unreported, so that the next interrupt still tells how many |
| CaptureRingRace.RefillRace | driver/gc573_capture.c:508-522 | with the read and the write of 0x304 apart, from any reachable state: every continuation copies the frames in order if and only if no slot completed in between, or the worker was told to stop, or hardware stood at or behind a slot left out earlier; an empty queue at the read is enough |
| CaptureRingRace.ADelayBreaksTheOrder | driver/gc573_capture.c:515-521 | a run from the cold ring in which such a delay makes the worker copy something else than the next frame |
| CaptureDevice.Capture.Interrupt | driver/gc573_capture.c:238-252 | the handler's locked section, as the decode step of the protocol |
| CaptureDevice.Capture.StartRing | driver/gc573_capture.c:484-494 | the first transfer arms all four slots from the slot after the reported one |
| CaptureDevice.Capture.TakeSlot | driver/gc573_capture.c:495-505 | a completed slot becomes the copied bank and the worker moves to the next one |
| CaptureDevice.Capture.Refill | driver/gc573_capture.c:508-522 | a copied slot is queued again and its completion reset, unless the input is gone or capture stops |
| FrameLayout.Frames.Layout | driver/gc573_capture.c:275-294 | all chunks hold the guard byte and every bank's list is the specified one |
| FrameLayout.Frames.WriteList | driver/gc573_capture.c:283-294 | one bank's list fits its 4096 entries and leaves the lists of the banks before and behind it alone |
| FrameLayout.Frames.Copy | driver/gc573_capture.c:555-563 | the destination receives the completed bank's frame and nothing else changes |
| FrameLayout.Frames.Guard | driver/gc573_capture.c:565-574 | the check passes if and only if every byte behind the frame in its last chunk is the guard byte |
| FrameLayout.DescriptorsFit | driver/gc573_capture.c:283-294 | lists fit their 64 KiB bank; each descriptor has the fixed control word, is a positive number of words, up to 4 KiB, inside one chunk, and its two address halves give the frame position it stands for |
| FrameLayout.EngineWrites | driver/gc573_capture.c:283-294 | following the list from any descriptor on writes each remaining byte of the frame to its own address and touches no other address |
| FrameLayout.WrittenFrameIsRead | driver/gc573_capture.c:555-574 | a frame written through a bank's descriptors is the frame the copy reads; guard bytes and the other banks are untouched |
| BufferQueue.Queue.BufQueue | driver/gc573_capture.c:706-715 | the buffer joins the end of the list |
| BufferQueue.Queue.StartStreaming | driver/gc573_capture.c:717-753 | numbering restarts at 0; on either failure the whole list goes back in order, each buffer in the queued state |
| BufferQueue.Queue.Take | driver/gc573_capture.c:619-628 | the worker holds the oldest buffer, or ends when told to stop |
| BufferQueue.Queue.Finish | driver/gc573_capture.c:663-678 | the held buffer goes back once, with the next number if it has a frame, else as an error that ends the worker |
| BufferQueue.Queue.StopStreaming | driver/gc573_capture.c:755-771 | afterwards neither list nor worker holds a buffer; the held buffer and then the list came back as errors, in order, so that the buffers given back are those ever queued |
| BufferQueue.Queue.ReturnBuffers | driver/gc573_capture.c:594-610 | the whole list is given back in order, each buffer in the state asked for |
| BufferQueue.FramesInOrder | driver/gc573_capture.c:674-678 | of two frames of a stream, the one given back later has the higher number |
| CtaBlocks.ParseEncode | driver/gc573_passthrough_edid.c:99-130 | parsing printed data blocks returns them |
| CtaBlocks.EncodeParse | driver/gc573_passthrough_edid.c:99-130 | printing parsed data blocks returns the bytes |
| EdidBuilder.BuildEdid | driver/gc573_passthrough_edid.c:74-214 | the loops and buffer writes produce, for arbitrary bytes, the result or the error of the specification `Filter`; `EdidLimits` and `EdidReader` say in bytes what that is |
| EdidBuilder.ScanAll | driver/gc573_passthrough_edid.c:88-131 | the block loop refuses or collects exactly what the specification does |
| EdidBuilder.ScanCollection | driver/gc573_passthrough_edid.c:99-130 | the data block loop equals parsing and absorbing all blocks |
| EdidBuilder.CollectTimingsOf | driver/gc573_passthrough_edid.c:141-152 | the first six allowed timings in block order; which these are in bytes is `EdidLimits.AdvertisesTheFirstSix` |
| EdidBuilder.KeepSlower | driver/gc573_passthrough_edid.c:179-182 | the in-place filter keeps the codes the clock limit allows, in order |
| EdidBuilder.Checksum | driver/gc573_passthrough_edid.c:14-20 | the block is sealed: its last byte brings the sum to zero |
| EdidIdempotence.FilterIsIdempotent | driver/gc573_passthrough_edid.c:74-214 | filtering an accepted EDID's own output with the same flag gives the identical result |
| EdidIdempotence.RenderedIsFixed | driver/gc573_passthrough_edid.c:153-212 | every EDID the filter can print is a fixed point |
| EdidSoundness.OutputIsWellFormed | driver/gc573_passthrough_edid.c:153-212 | 256 bytes with one CTA extension; both blocks sum to zero, the data blocks tile the collection exactly up to an offset of at most 60, and the counted timings are all the allowed ones a reader finds |
| EdidSoundness.TimingsAreTheDisplays | driver/gc573_passthrough_edid.c:141-152 | every advertised timing is one of the display's own descriptors and passes the filter's test, whose meaning in bytes is `EdidLimits.EveryTimingMeetsTheLimits` |
| EdidSoundness.VicsAreTheDisplays | driver/gc573_passthrough_edid.c:118-128 | every advertised video code was advertised by the display, is a known one, and its clock is within the limit |
| EdidSoundness.CapabilitiesAreTheDisplays | driver/gc573_passthrough_edid.c:104-140 | clock limit, SCDC and audio come from a vendor or audio block of the display and are never more than it says |
| EdidIdempotence.AcceptsADisplay | driver/gc573_passthrough_edid.c:74-214 | some display's EDID is accepted, in both modes |
| EdidSoundness.StereoPcm | driver/gc573_passthrough_edid.c:113-117 | audio is found if and only if some descriptor offers stereo PCM at 48 kHz and 16 bits |
| EdidLimits.AdvertisesTheFirstSix | driver/gc573_passthrough_edid.c:141-152 | in raw bytes: the timings of the new EDID are the first six of the display's descriptors that meet the limits, in reading order, and `timings` counts them |
| EdidLimits.EveryTimingMeetsTheLimits | driver/gc573_passthrough_edid.c:56-73 | whatever a source finds in a descriptor slot with a clock is progressive, within the clock limit, has blanking, and a refresh rate within the limit of its size and mode, all read from its 18 bytes; it is a descriptor of the display |
| EdidLimits.EveryEarlyTimingIsAdvertised | driver/gc573_passthrough_edid.c:141-152 | the converse: a descriptor of the display that meets the limits is advertised if fewer than six before it do |
| EdidReader.AdvertisesVics | driver/gc573_passthrough_edid.c:118-128 | a video code is advertised if and only if the display lists it, it has a clock (and with scaling is one of nine), and that clock is within the limit |
| EdidReader.ReadsTheDisplay | driver/gc573_passthrough_edid.c:104-140 | clock limit, SCDC and audio are those a reader takes from the display's vendor and audio blocks, and reads again from the new EDID |
| EdidReader.AcceptsExactly | driver/gc573_passthrough_edid.c:83-152 | which error an input gets, or none, read from its bytes: length, header, block sums, data blocks, extensions and descriptors |
| EdidReader.RendersTheRest | driver/gc573_passthrough_edid.c:153-212 | all bytes and data blocks of the new EDID that do not depend on timings or codes |
| EdidReader.FewVics | driver/gc573_passthrough_edid.c:118-128 | no more than the 22 codes with a clock are ever collected, so the limit of 31 never cuts |
| Ddc.MakePlan | driver/gc573_ddc.c:14-52 | the loops compute the specified plan or refuse |
| Ddc.AcceptsExactly | driver/gc573_ddc.c:20-41 | a plan is made if and only if the EDID is of the right kind, its data blocks fill the collection, and exactly one of them is the HDMI vendor block, with its address bytes |
| Ddc.PlanCompletesSums | driver/gc573_ddc.c:42-50 | with the planned address and checksum bytes substituted, both blocks sum to zero |
| Ddc.OffsetFollowsIdentifier | driver/gc573_ddc.c:29-39 | the planned offset lies inside the collection, right behind the HDMI identifier |
| Ddc.PlanAcceptsFilter | driver/gc573_ddc.c:24-50 | every output of the EDID filter is accepted, and the planned checksums are the bytes it already holds |
| Scaler.PhaseWords | driver/gc573_scaler.c:72-104 | for every width pair, exactly `ow` outputs are made and the words are a correct phase program; in bits: output k lies at source pixel floor(k*rate/65536) with its phase in bits 0 to 5, its window index in bits 6 to 8 and the emit flag in bit 9 of the pixel's ten-bit lane, every other lane of the line emits nothing, and the tail is zero |
| Scaler.LaneIsRight | driver/gc573_scaler.c:80-91 | a lane emits the next output at its own source pixel, with its own phase and a window index below 8; in which bits is part of `PhaseWords` |
| Scaler.StaysOnTrack | driver/gc573_scaler.c:80-93 | the running offset and index keep following the exact position of the next output |
| Scaler.EmitsExactly | driver/gc573_scaler.c:102-104 | a phase program emits at exactly `ow` source pixels of a line |
| Scaler.SourceInside | driver/gc573_scaler.c:72-72 | no output starts behind the last source pixel |
| Scaler.Configure | driver/gc573_scaler.c:26-127 | unsupported sizes and a running engine are refused without a write, a read-back that disagrees is the only other failure, and a completed set-up is the whole sequence of writes: reset 0, then 3, coefficients, phase memory, geometry, start |
| BlockEngine.FreshExactlyWhenIdle | driver/gc573_block.c:51-61 | the sampling rule accepts only the transfer's own completion, for every sampling and all stale bits, if and only if no transfer of its kind was in flight |
| BlockEngine.LateCompletionFools | driver/gc573_block.c:121-136 | a transfer left in flight is taken for the new one, with a concrete run |
| BlockTransfer.Wait | driver/gc573_pci.c:322-348 | a wait that ends well has seen the transfer's own completion; by its samples: it ends at the first one that shows the bit set after it was clear, or no card, and runs out of time only when none does |
| BlockTransfer.ReadBytes | driver/gc573_block.c:73-161 | with no read in flight before, whatever write may be: success returns the bytes of this very transfer, each taken from the FIFO after its completion, and leaves the engine idle; always, by the values read: which of them is refused as busy or missing without a write, when a transfer is started, what is written, how the samples end it, and that the divider is given back |
| BlockTransfer.WriteByte | driver/gc573_block.c:372-422 | with no write in flight before, whatever read may be: success means this very write completed, and leaves the engine idle; always, by the values read: when it is refused without a write, when at most one transfer is started, what is written, how the samples end it, and that the divider is given back |
| BlockTransfer.Calls | driver/gc573_block.c:90-160 | for any sequence of reads and writes, whatever fails in it: every success of a kind that is not in doubt is the completion of its own start, with that completion's bytes; only a started transfer that failed brings its kind in doubt |
| ReceiverInit.RunTable | driver/gc573_init.c:18-81 | nothing is written unless the chip answered with bank 0, its identification and 0xb1 in register 4; completing is the fold of all masked writes and ends in bank 0; success also found the chip identified afterwards; a failure leaves the fold of a prefix or one write more, and is a failed transfer, a late look at the clock, or a table that does not end in bank 0; a verified bank is the chip's bank |
| ReceiverInit.Status | driver/gc573_block.c:703-766 | a status read only reads; it succeeds with bank 0, the identification and 18 registers in order, and what it read last tells why it refused |
| ReceiverInit.RunEntry | driver/gc573_init.c:42-75 | one entry's masked write and the bank read-back |
| ReceiverInit.FoldKeepsOthers | driver/gc573_init.c:53-58 | a table changes only registers it addresses in the bank then selected, and only bits inside the masks |
| ReceiverInit.FoldBank | driver/gc573_init.c:64-74 | the bank selected at the end is that of the last write to the bank register |
| ReceiverInit.FoldSets | driver/gc573_init.c:53-58 | what an entry sets stays set unless a later entry covers one of its bits |
| ReceiverVideo.SelectBank | driver/gc573_receiver_video.c:15-39 | a verified bank is the chip's bank; the other bits of the register are kept |
| ReceiverVideo.MaskedWrite | driver/gc573_receiver_video.c:42-73 | a success wrote the masked bits; the tracked bank stays right through any masked write and its failure; the error of a read-back is one that read something else |
| ReceiverVideo.Measure | driver/gc573_receiver_video.c:134-158 | a success is five pulses of the clock latch and nothing else written, the sum is that of the five samples read inside them, and the latch is left set |
| ReceiverVideo.Output | driver/gc573_receiver_video.c:75-197 | by what was read: a format that is not accepted is refused before anything is read; with the samples in, the clock limits alone decide between a range error and the output table; the table for two lanes is run if and only if the profile allows it and the picture or the clock needs it |
| ReceiverVideo.Video | driver/gc573_receiver_video.c:216-292 | by the recorded answers, in bits and numbers: the link, the changing source, the empty picture, the refused format and the clock out of range, each if and only if the answers say so, and the output table only behind all of them; a failure is retryable if and only if it is a lost link, a changing or empty geometry, or a clock out of range against a credible reference; the chip is then in bank 0 with nothing written but bank selections and the latch, which is set again; a bus error is a failed transfer |
| SinkRead.ReadChunk | driver/gc573_sink.c:76-118 | a finished request returns the 32 bytes of the display it asked for |
| SinkRead.AddChunk | driver/gc573_sink.c:113-140 | a stored chunk extends the display's bytes, with every full block's sum and the header checked |
| SinkRead.Collect | driver/gc573_sink.c:75-141 | the finished loop has read as many bytes as the base block's extension count asks for |
| SinkRead.ReadDisplay | driver/gc573_sink.c:41-171 | a completed read is exactly the display's EDID, at most 512 bytes, every block valid, and the controls are back at their original values; every failure has its cause among what was read or in the display's bytes |
| SinkRead.Scdc | driver/gc573_sink.c:176-271 | only the single transfer asked for is ever started on the display, once; success has made it, and a read returns what the display answered; success and every retryable failure leave the controls restored; a display error is retryable if and only if it was a read, no transfer failed and the engine settled after the abort |
| SinkRead.ReadPassesTheGates | driver/gc573_passthrough_edid.c:83-93 | the filter never refuses a completed read for its length, header or checksums |
| EdidSram.FilterPassesTheGates | driver/gc573_passthrough.c:43-55 | every output of the EDID filter is accepted for programming |
| EdidSram.RefusalIs | driver/gc573_passthrough.c:43-55 | which error an image gets, or none, in bytes |
| EdidSram.Set | driver/gc573_passthrough.c:12-36 | a successful masked write was read back, and no other register was touched |
| EdidSram.RunControls | driver/gc573_passthrough.c:56-63 | a completed control table leaves each register as its last entry set it |
| EdidSram.Capture | driver/gc573_passthrough.c:81-97 | the first image is kept once, with both checksums recomputed |
| EdidSram.WriteImage | driver/gc573_passthrough.c:98-111 | every byte is written behind a fresh look at the disabled DDC slave, with hot-plug detect low and the memory mapped |
| EdidSram.Compare | driver/gc573_passthrough.c:112-126 | the comparison passes only if all 254 bytes are in the memory |
| EdidSram.Program | driver/gc573_passthrough.c:37-156 | success shows the image with its checksum registers, the DDC slave enabled and hot-plug detect raised; bad images are refused before anything is touched; all memory writes are safe; on a splitter that works every other image is shown |
| EdidSram.Advertise | driver/gc573_passthrough.c:318-337 | the polling phase keeps the history of the first image and latches an error |
| EdidSram.HistoryStarts | driver/gc573_passthrough.c:81-97 | before any program the memory itself is the first image |
| EdidSram.Restore | driver/gc573_passthrough.c:344-355 | success after any number of programs shows the first image, with fitting checksum registers if anything was written; only a latched error of the first byte write can leave its byte 0, never for an image that starts with 0 |
| EdidSram.RestoreIsExact | driver/gc573_passthrough.c:344-349 | what a successful restore may leave is the first image, in all cases, if and only if that image starts with 0 |
| EdidSram.RoundTrip | driver/gc573_passthrough.c:344-355 | on a splitter that works, an EDID that is not refused is shown, and the first image is back behind it if and only if its header and extension count are right |
| EdidSram.LoseFirstByte | driver/gc573_passthrough.c:98-111 | the run: the first byte write fails and lands, the restore reports success, and the memory is the first image with byte 0 cleared |
| EdidSram.RestoreRefuses | driver/gc573_passthrough.c:43-55 | the first image is refused if and only if its header or extension count is wrong |
| EdidSram.ResealedIsSame | driver/gc573_passthrough.c:89-97 | resealing changes only the two checksum slots and makes both blocks sum to zero |
| LinkResume.RateFits | driver/gc573_splitter_video.c:77-99 | the clocks derived from the samples are positive, below 621 MHz, and no intermediate value leaves 32 bits |
| LinkResume.RateExact | driver/gc573_splitter_video.c:77-99 | the pixel and link clocks in numbers, from the counter sum, the exponent and the colour depth |
| LinkResume.Transmitter.Validate | driver/gc573_splitter_video.c:174-222 | by the registers read, in bits and numbers: which source is accepted, which refused, and which shows no picture; with a display that includes a known size and its refresh rate within one percent of the limit; the receiver is back in bank 0 |
| LinkResume.MillihzExact | driver/gc573_splitter_video.c:218-219 | the 32-bit refresh rate is exact for every size that is passed on |
| LinkResume.Transmitter.FinishOutput | driver/gc573_splitter_video.c:224-247 | the output is enabled only if the four low bits of the status just read are set; else the setup waits |
| LinkResume.Transmitter.Clock | driver/gc573_splitter_video.c:306-464 | the rate is that of the counters read in this call; the setup's writes are begun, and counted, exactly by the runs that read the first interrupt register behind an accepted format; a measurement programs and enables nothing; a failure is a failed transfer or something it read; it is a wait if and only if the link was seen down or a completed read of the status showed no lock |
| LinkResume.Transmitter.FinishWaiting | driver/gc573_splitter_video.c:510-530 | by what was read: a stalled wait (format accepted, a completed status read without the lock, no repeat yet) is counted by exactly one; the sixth is answered by exactly one setup from scratch; nothing else counts or repeats |
| LinkResume.Transmitter.Resume | driver/gc573_splitter_video.c:479-531 | the same behind one fresh look at the source: the setup goes on only for a measurement within a tenth of its rate and on the same side of 340 MHz, another rate starts afresh, a lost source waits; a success is at the rate measured last |
| LinkResume.Transmitter.Observe | driver/gc573_splitter_video.c:599-608 | over any run, with every programming counted where it happens: between fresh setups at most six waits and at most one repeat, both exactly as the reads of each call say; a failure without a failed transfer has its obstacle among the reads; which failures are waits is decided by the newest look, the newest status read, or the newest refused format |
| PassthroughPoll.External.Recheck | driver/gc573_passthrough.c:208-251 | a source is measured exactly when it is due, and dropped if and only if the look found no link or, in the scaled profile, the rate just read is more than a tenth away from the one stored; a recheck neither programs the transmitter nor enables its output |
| PassthroughPoll.External.SetUp | driver/gc573_passthrough.c:252-290 | a source that is not plain RGB is rejected without touching the transmitter; else the transmitter is observed once, and what it read decides: a source or display that is away and a late link are waited for, in the scaled profile also a refused format, anything else is an error; only a success makes the source active, at a rate the display allows, with its output enabled by this call, and counts as a change |
| PassthroughPoll.External.Snapshot | driver/gc573_passthrough.c:157-291 | the transmitter is programmed, or its output enabled, only by a look that sees a plain RGB source a second time with the same timing; a source set up before is checked when due; a lost source or a changed timing takes everything down |
| PassthroughPoll.External.Poll | driver/gc573_passthrough.c:292-339 | a poll is the step `Polled` with what the chips answered in it: phases follow each other only on success, an error is final; active keeps meaning set up without error, for a stable plain RGB timing that is not rejected, with the output enabled; the transmitter is programmed at most once a poll and only for a source seen twice alike |
| PassthroughPoll.SecondSetUp | driver/gc573_passthrough.c:209-230 | in the four looks behind a change of source the new one is set up twice if and only if the profile is scaled and the rate stored from before is more than a tenth away from its own |
| PassthroughPoll.ARunSetsUpTwice | driver/gc573_passthrough.c:209-230 | from a cold start: one set-up for 1080p, two for the 720p that follows |
| PassthroughPoll.MovedClockIsNoticed | driver/gc573_passthrough.c:209-230 | in the scaled profile the source is dropped within four polls once its clock reads more than a tenth away from the one stored |
| PassthroughPoll.EndsExactly | driver/gc573_passthrough.c:157-339 | exactly which poll latches an error: a failing step before the source is watched, and behind that a link or timing that could not be read, or a recheck or set-up that fails and is no wait |
| CombinedPoll.Supervise | driver/gc573_pci.c:363-382 | with both supervisors: an open gate means that all events since the last reset are the internal set-up, the receiver's table and the opening, in this order, so that every set-up of the display came before; beside it a started, stable, accepted display without error; a lost or changed source or a new set-up of the display shuts the gate in the same poll, and an error of the display for good |
| CombinedPoll.ObserveDisplay | driver/gc573_pci.c:373-376 | polling the display enters at most its own set-up in the shared journal and leaves what the card counts on untouched |
| CombinedPoll.Card.BringUpTransmitter | driver/gc573_pci.c:387-398 | the transmitter is observed once: the phase moves if and only if that succeeded, with the output enabled by it, and an error is latched if and only if it failed and the reads show no reason to wait: source or display away, link late, format refused, or another rate |
| CombinedPoll.Card.BringUpReceiver | driver/gc573_pci.c:399-411 | one attempt of the receiver, decided by its recorded answers: the phase moves if and only if it completed the output table, and an error is latched if and only if it failed otherwise than by a lost link, a changing or empty picture, a clock out of range, or a refused format |
| CombinedPoll.Card.Open | driver/gc573_pci.c:412-445 | the gate opens if and only if the engine is idle, mode and packing are those of one or two lanes, the FPGA sees the programmed width and height, and the period is a supported one; a wrong packing is rewritten if and only if the engine is idle, and a read-back that disagrees is an error |
| CombinedPoll.Card.Watch | driver/gc573_pci.c:446-465 | the gate stays open if and only if the picture is the same and its period is within a tenth |
| CombinedPoll.Card.Poll | driver/gc573_pci.c:363-471 | an open gate means no error, and transmitter, receiver, gate in this order since the last reset; a followed display that changed, is unstable or rejected is a reset in the same poll; exactly the step of the phase is tried, an error is latched if and only if it fails for good, and is final |
| StartupCheckpoint.Startup.Initialize | tools/start-capture.py:237-279 | for any number of processes that may die at any step, the phases take effect in order and at most once; a pending or unreadable checkpoint is refused without a change, and nothing else is; a process that lives through its 27 steps without a failing command reaches the hand-over from a cold card or a checkpoint that may be resumed |
| StartupCheckpoint.Startup.RunPhases | tools/start-capture.py:250-279 | the phases from a checkpoint on, each between its two checkpoints |
| StartupCheckpoint.Startup.RunPhase | tools/start-capture.py:270-279 | a phase that reports success has made its one effect |
| StartupCheckpoint.Startup.HandOver | tools/start-capture.py:251-269 | the hand-over to the module is the seventh effect |

The atomic steps of `CaptureRing` and the lines they stand for: `HwBegin` and `HwEnd` are
the hardware; `IrqEnter`, `IrqReadStatus`, `IrqAck` and `IrqDecode` are
`driver/gc573_capture.c:216-247`; `Arm`, `Wait`, `Wake` and `Accept` are lines 484-505;
`Copy` is 555-563; `Refill` and `SkipRefill` are 508-522; `Stop` and `WakeAll` are 755-764;
`MaskIrq`, `Drain` and `Restart` are the teardown and the next start at 184-214 and 376-432.

## Left out

- The single-shot capture path with its frame pacing (driver/gc573_capture.c:434-470): real
  time, and no overlap of transfers to reason about.
- Deadlines, sleeps and poll limits: any of them may expire at any time.
- V4L2, ALSA, PCI, workqueue and sysfs plumbing, the LED and audio paths.
- The values of the register tables: the receiver table, the receiver's output table with
  its two-lane adjustments, the transmitter setup tables and the scaler's coefficients are
  parameters or single open steps; the interpreters are proved for any table.
- DmaRing.Ring.Complete: the pending mask is a set of slots, not bits of a word.
- CaptureRingSafety.FramesInOrder: the handler runs to its end before it is entered again,
  as the kernel guarantees for one interrupt line.
- BlockTransfer.ReadBytes: the interrupt status and enable registers read as anything; a
  card that disappears between completion and the last FIFO byte is not modelled.
- ReceiverVideo.Video: the two output tables, for one lane and for two, are parameters.
- SinkRead.ReadDisplay: the byte count reported after a failure does not include the refused
  chunk.
- SinkRead.Scdc: what the display answers is open: its SCDC registers change on their own.
- EdidSram.Restore: the transmitter clean-up behind the memory restore
  (driver/gc573_passthrough.c:356-383) is left out, and a failed byte write lands at once
  or never.
- LinkResume.Transmitter.Clock: the stand-alone setup mode (`configure` 1) and the
  argument checks are left out; what the bus answers is open at every step, and the
  registers of the setup tables and of the display's negotiation are not recorded.
- PassthroughPoll.External.Poll: how the calls of phases 0 to 2 end is an input (they are
  `SinkRead.ReadDisplay` with `EdidBuilder.BuildEdid`, the input start-up, and
  `EdidSram.Program`); an open gate does not promise that the external output is active.
- StartupCheckpoint.Startup.Initialize: the mode switch of tools/start-capture.py:209-236,
  which repeats a splitter phase on purpose, and the profiles are left out; the branch that
  clears a pending checkpoint after a link race belongs to phases this process never runs.
