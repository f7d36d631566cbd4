# OpenScan-BH_SPC in Dafny

This project models the core of the OpenScan device module for the Becker &
Hickl SPC-150 time-correlated single-photon counting board, and proves
properties of that model. The module has four parts.

- **Line-clock pixellation** (`line_clock.dfy`, `line_clock_pixellator.dfy`).
  - A time-ordered stream of marker records and photon timestamps becomes begin-frame, end-frame and pixel-photon notifications. Only the line-marker timing is used.
  - Module `LineClock` writes the pixellator's state machine as pure step functions. The state is: frame open, current line, line start time, last seen time.
  - It proves that frames are bracketed, that `Flush` adds nothing, what a stream of line markers leaves behind, when a frame is completed without a marker, and where photons go.
  - Module `Pixellator` holds the `LineClockPixellator` class. Each of its methods is proved to change its state, and to call its processor, exactly as the matching step function says.
  - It also holds the counting `MockProcessor`. The sections of the pixellator's test are replayed against both as verified scenarios.
- **SDT histogram file writer** (`sdt_format.dfy`, `sdt_image.dfy`, `sdt_layout.dfy`, `sdt_placement.dfy`, `sdt_writer.dfy`).
  - The file is a sequence of symbolic bytes under a cursor. Writes may stop short and seeks may fail.
  - `WriteSDTFileP` is proved to do two things. On success it leaves exactly the file `SdtLayout.SdtFile`. On failure there are two cases:
    - a failure before the final header write leaves the header marked not valid, or as much of it as was written, at the start of the file;
    - a short final header write leaves the first bytes of the valid header written over the header marked not valid, with the rest of the file as `SdtFile` has it. Nothing in SDTFile.c:483-486 repairs this case.
  - `FailedWriteIsNotTheFile` proves that neither case is the SDT file, given that the valid and not-valid marks differ.
  - `SdtPlacement` proves where every part of the finished file lies:
    - the header fields point at the texts, the descriptors and the data blocks;
    - each data block's `next_block_offs` holds the next block's start;
    - the last block keeps 0 there.
  - The header checksum, the module code table and the bit-packed fields are proved against their intended meaning.
- **Acquisition setup** (`acquisition_control.dfy`, `device_data.dfy`).
  - The marker check, the marker polarity masks and the channel-mask check.
  - The pixel-mapping mode and its 32-bit line-delay adjustment.
  - The one-shot stop request.
- **Device lifecycle** (`bh_spc150.dfy`).
  - The default parameters, and a proof that the record holding them passes the setup checks.
  - The process-wide "board initialized" flag and open-device count, kept by open and close around the vendor initialization.
  - The request check made when an acquisition is armed.

Module `Bits` (`bits.dfy`) holds the powers of two that these parts share.

Vendor and framework calls (`SPC_init`, `SetMarkerPolarities`, `SetUpAcquisition`, `InitializeDeviceForAcquisition`, `StartAcquisition`, opening the file) are not modelled as code. Their results are parameters of the members that make them, so every outcome is covered.

## Model

| member | source | states |
|---|---|---|
| Pixellator.MockProcessor.constructor | FLIMEvents/test/FLIMEventsTests/LineClockPixellatorTests.cpp:45-46 | a new processor has all three counters zero and both recorded sequences empty |
| Pixellator.MockProcessor.Reset | FLIMEvents/test/FLIMEventsTests/LineClockPixellatorTests.cpp:16-22 | Reset zeroes the begin-frame, end-frame and finish counters and empties the photon and error sequences |
| Pixellator.MockProcessor.HandleBeginFrame | FLIMEvents/test/FLIMEventsTests/LineClockPixellatorTests.cpp:24-26 | only the begin-frame counter changes, and it rises by one |
| Pixellator.MockProcessor.HandleEndFrame | FLIMEvents/test/FLIMEventsTests/LineClockPixellatorTests.cpp:28-30 | only the end-frame counter changes, and it rises by one |
| Pixellator.MockProcessor.HandlePixelPhoton | FLIMEvents/test/FLIMEventsTests/LineClockPixellatorTests.cpp:32-34 | only the photon sequence changes, and the event is appended |
| Pixellator.MockProcessor.HandleError | FLIMEvents/test/FLIMEventsTests/LineClockPixellatorTests.cpp:36-38 | only the error sequence changes, and the message is appended |
| Pixellator.MockProcessor.HandleFinish | FLIMEvents/test/FLIMEventsTests/LineClockPixellatorTests.cpp:40-42 | only the finish counter changes, and it rises by one |
| Pixellator.Deliver | FLIMEvents/test/FLIMEventsTests/LineClockPixellatorTests.cpp:8-43 | after a sequence of notifications, each counter of the processor has risen by the number of notifications of its kind |
| Pixellator.DeliverAppend | FLIMEvents/test/FLIMEventsTests/LineClockPixellatorTests.cpp:8-43 | delivering a + b is delivering a, then b |
| Pixellator.LineClockPixellator.constructor | FLIMEvents/test/FLIMEventsTests/LineClockPixellatorTests.cpp:49 | a new pixellator keeps its configuration, has no frame open, and satisfies the state invariant; width, height and line time must be positive |
| Pixellator.Create | FLIMEvents/test/FLIMEventsTests/LineClockPixellatorTests.cpp:49 | construction fails (no pixellator) exactly when width, height or line time is not positive; otherwise the new pixellator starts in the initial state |
| Pixellator.LineClockPixellator.HandleMarker | FLIMEvents/test/FLIMEventsTests/LineClockPixellatorTests.cpp:51-54 | the new state and the processor calls are exactly those of LineClock.OnMarker: a backward marker is an error; a line marker opens a frame, wraps to a new frame, or moves to the next line; then completion is inferred; the invariant is kept |
| Pixellator.LineClockPixellator.AdvanceLineAt | FLIMEvents/test/FLIMEventsTests/LineClockPixellatorTests.cpp:51-72 | the line/frame change of a line marker, with its begin/end-frame calls, is exactly LineClock.AdvanceLine |
| Pixellator.LineClockPixellator.HandleTimestamp | FLIMEvents/test/FLIMEventsTests/LineClockPixellatorTests.cpp:75-77 | the new state and the processor calls are exactly those of LineClock.OnTimestamp: a backward timestamp is an error; a photon in the line's window is delivered; then completion is inferred; the invariant is kept |
| Pixellator.LineClockPixellator.CheckLastLineCompletion | FLIMEvents/test/FLIMEventsTests/LineClockPixellatorTests.cpp:100-105 | the frame is ended (one end-frame call) exactly when the last line has lasted a line time by the last seen time; otherwise nothing happens |
| Pixellator.LineClockPixellator.Flush | FLIMEvents/test/FLIMEventsTests/LineClockPixellatorTests.cpp:55 | Flush is exactly LineClock.OnFlush and keeps the invariant |
| Pixellator.LineClockPixellator.HandleFinish | FLIMEvents/test/FLIMEventsTests/LineClockPixellatorTests.cpp:40-42 | the finish is forwarded as one finish call, and the state, including an open frame, is unchanged |
| Pixellator.CheckedStep | FLIMEvents/test/FLIMEventsTests/LineClockPixellatorTests.cpp:54-58 | one record, then Flush, the counts read, then Reset: the state and the counts read are exactly those of the step functions, and the processor is left empty |
| Pixellator.DeliveredFrameCounts | FLIMEvents/test/FLIMEventsTests/LineClockPixellatorTests.cpp:57-58 | the counters a reset processor shows after two batches are the begin- and end-frame counts of both together |
| Pixellator.LineMarkerSteps | FLIMEvents/test/FLIMEventsTests/LineClockPixellatorTests.cpp:48-90 | with the 2x2 configuration, line markers at 100, 200, 300 and 400 give counts (1,0), (0,0), (1,1) and (0,0), and leave the states worked out |
| Pixellator.PhotonSteps | FLIMEvents/test/FLIMEventsTests/LineClockPixellatorTests.cpp:74-105 | on line 0, a photon at 1000000 gives (0,0); on the last line, started at 400, a photon at 419 gives (0,0) and one at 420 gives (0,1) |
| Pixellator.TwoByTwoLineMarkers | FLIMEvents/test/FLIMEventsTests/LineClockPixellatorTests.cpp:48-72 | running the section's calls on the classes reads (1,0), (0,0), (1,1) and leaves the frame open on line 0 |
| Pixellator.LastFrameIncompleteScenario | FLIMEvents/test/FLIMEventsTests/LineClockPixellatorTests.cpp:74-82 | the section reads (0,0) after the far-future photon: an incomplete frame is not ended |
| Pixellator.LastFrameCompletedScenario | FLIMEvents/test/FLIMEventsTests/LineClockPixellatorTests.cpp:84-106 | the section reads (0,0), (0,0), (0,1): the photon at 420 ends the frame without beginning another |
| LineClock.StepBracketed | FLIMEvents/test/FLIMEventsTests/LineClockPixellatorTests.cpp:54-105 | every record keeps the invariant and emits notifications in frame brackets: no begin-frame inside a frame, no end-frame or photon outside one |
| LineClock.RunBracketed | FLIMEvents/test/FLIMEventsTests/LineClockPixellatorTests.cpp:54-105 | the same over any stream of records |
| LineClock.BracketedBalance | FLIMEvents/test/FLIMEventsTests/LineClockPixellatorTests.cpp:54-105 | in bracketed notifications, end-frames plus the frame left open equal begin-frames plus the frame open at the start |
| LineClock.FramesBalanced | FLIMEvents/test/FLIMEventsTests/LineClockPixellatorTests.cpp:54-105 | from a fresh pixellator, end-frames never outnumber begin-frames, at most one frame is left open, and a frame is open exactly when there is one more begin than end |
| LineClock.FlushSilent | FLIMEvents/test/FLIMEventsTests/LineClockPixellatorTests.cpp:55-62 | between calls Flush emits nothing and changes nothing |
| LineClock.FlushAfterRecordSilent | FLIMEvents/test/FLIMEventsTests/LineClockPixellatorTests.cpp:54-105 | a Flush after any record adds no notification |
| LineClock.FirstLineMarker | FLIMEvents/test/FLIMEventsTests/LineClockPixellatorTests.cpp:51-57 | for a configuration with lineDelay + lineTime > 0, the first line marker on a fresh pixellator emits exactly one begin-frame and opens line 0 at the marker time plus the line delay |
| LineClock.LineMarkerOnOpenFrame | FLIMEvents/test/FLIMEventsTests/LineClockPixellatorTests.cpp:60-72 | for a configuration with lineDelay + lineTime > 0, a line marker on an open frame moves to line (i+1) mod height; it emits an end-frame and a begin-frame exactly when i was the last line, and nothing otherwise |
| LineClock.LineMarkers | FLIMEvents/test/FLIMEventsTests/LineClockPixellatorTests.cpp:51-53 | the i-th record is a marker with only the line-marker bit set, at the i-th time |
| LineClock.LineMarkerStream | FLIMEvents/test/FLIMEventsTests/LineClockPixellatorTests.cpp:48-72 | for a configuration with lineDelay + lineTime > 0, n line markers in time order leave the frame open on line (n-1) mod height, after (n-1)/height + 1 begin-frames and (n-1)/height end-frames |
| LineClock.InferredCompletion | FLIMEvents/test/FLIMEventsTests/LineClockPixellatorTests.cpp:84-105 | on the last line started at t, a photon before t + lineTime emits no frame notification; the first at or after it emits exactly one end-frame and closes the frame |
| LineClock.IncompleteFrameStaysOpen | FLIMEvents/test/FLIMEventsTests/LineClockPixellatorTests.cpp:74-82 | while the last line has not started, no sequence of photons, Flushes and finishes emits a frame notification or changes the line, however late they are |
| LineClock.PhotonAddressing | FLIMEvents/test/FLIMEventsTests/LineClockPixellatorTests.cpp:74-105 | a photon inside the line's window is delivered first, on the current line, with a column inside the frame and its own macrotime; any other photon is dropped without a notification |
| LineClock.PixelX | FLIMEvents/test/FLIMEventsTests/LineClockPixellatorTests.cpp:49 | the column of a photon inside the line's window is below the width |
| LineClock.PixelXOfDwell | FLIMEvents/test/FLIMEventsTests/LineClockPixellatorTests.cpp:49 | with the line time split into width windows of p ticks each (2 pixels and 20 ticks: 10 ticks each), a photon k windows and r ticks into the line lands in column k |
| AcquisitionControl.CheckMarkers | AcquisitionControl.cpp:114-144 | returns 0 or 1, and 0 exactly when the assigned pixel, line and frame bits differ and the line bit is assigned and enabled; the pixel and frame markers need not be enabled |
| AcquisitionControl.ConfigureMarkers | AcquisitionControl.cpp:101-111 | bit i is in enabled exactly when marker i is not disabled, and in risingEdgeActive exactly when it is active on the rising edge; risingEdgeActive is contained in enabled, and no bit past the marker inputs is set |
| AcquisitionControl.EnabledChannelCount | AcquisitionControl.cpp:194-197 | the number of set bits among the low maxChannels bits of the mask, at most maxChannels |
| AcquisitionControl.NoChannelEnabled | AcquisitionControl.cpp:194-197 | no channel counts as enabled exactly when the low maxChannels bits of the mask are all clear |
| AcquisitionControl.I32 | AcquisitionControl.cpp:230-233 | int32 arithmetic: the result is in range, agrees with the exact value modulo 2^32, and equals it when that value fits |
| AcquisitionControl.LineTiming | AcquisitionControl.cpp:201-233 | line-start markers keep the line delay; line-end markers take a line time off it in 32-bit arithmetic; any other mode has no timing (the setup fails) |
| AcquisitionControl.SetupStatus | AcquisitionControl.cpp:163-233 | setup succeeds exactly when the polarities are accepted, the markers pass CheckMarkers, a channel is enabled, the mode is known, the board accepts the setup and the FIFO type is standard; then it passes the line bit, the channel count and the timing of LineTiming; every failure returns a nonzero code |
| AcquisitionControl.RequestAcquisitionStop | AcquisitionControl.cpp:41-54 | after the call a stop is requested, whether or not one was requested before: a repeated request is absorbed |
| AcquisitionControl.StopAcquisition | AcquisitionControl.cpp:316-323 | a stop is requested when an acquisition state exists; otherwise nothing happens |
| AcquisitionControl.ShutdownAcquisitionState | AcquisitionControl.cpp:79-92 | an acquisition still held is asked to stop and is then released (null afterwards); the record's settings and the rate-monitor flag are unchanged |
| DeviceData.AcqState.constructor | AcquisitionControl.cpp:20-37 | a new acquisition state has no stop requested |
| DeviceData.PrivateData.constructor | BH_SPC150.c:99-101 | a new record is all zero, as calloc leaves it: module number 0, every setting zero, false or empty, every marker disabled, no acquisition and no rate monitor |
| BHSPC150.PopulateDefaultParameters | BH_SPC150.c:20-39 | the record is cleared, then gets: channel mask 1, intensity accumulated, every marker on the rising edge, no pixel marker (-1 as uint32), line marker 1, frame marker 2, line-end mapping, no line delay, the two default file names, the sync check on; what the setup reads from the record is then DefaultSettings |
| BHSPC150.SetAllRisingEdge | BH_SPC150.c:27-29 | every marker input is set to the rising edge |
| BHSPC150.DefaultMarkersValid | BH_SPC150.c:27-32 | with more than two marker inputs the default markers pass the marker check |
| BHSPC150.DefaultChannelCount | BH_SPC150.c:24 | the default mask enables exactly one channel |
| BHSPC150.DefaultsSetUp | BH_SPC150.c:20-39 | with the defaults and a board that accepts the setup, setup succeeds with one channel, line marker 1 and the line delay moved back by a line time |
| BHSPC150.DefaultRecordSettings | BH_SPC150.c:20-39 | a record holding the default parameters gives the setup DefaultSettings |
| BHSPC150.DefaultRecordSetsUp | BH_SPC150.c:20-39 | a record holding the default parameters, on a board that accepts the setup, passes the setup checks with one channel, line marker 1 and the line delay moved back by a line time |
| BHSPC150.FromCode | BH_SPC150.c:236-241 | a lower layer's code is success exactly when it is 0, and is passed on otherwise |
| BHSPC150.EnsureStep | BH_SPC150.c:42-75 | an initialized board refuses with Already_Open and changes nothing; otherwise the flag is set exactly when the vendor initialization returns >= 0, and Unknown is returned when it does not; the open count is untouched |
| BHSPC150.DeinitStep | BH_SPC150.c:78-89 | the board is left not initialized, and the call always succeeds |
| BHSPC150.DeinitIdempotent | BH_SPC150.c:78-89 | deinitializing twice is deinitializing once |
| BHSPC150.OpenStep | BH_SPC150.c:143-160 | open succeeds exactly when the board was not initialized and both the vendor initialization and the acquisition configuration succeed; only then does the open count rise (size_t arithmetic); a failure leaves the state that the initialization step left |
| BHSPC150.CloseStep | BH_SPC150.c:163-177 | the open count falls by one modulo 2^64, and the board is deinitialized exactly when the count reaches 0 |
| BHSPC150.OpenKeepsSingleOpen | BH_SPC150.c:143-160 | whatever the vendor calls return, opening keeps at most one device open, and only on an initialized board |
| BHSPC150.CloseKeepsSingleOpen | BH_SPC150.c:163-177 | closing the one open device returns to the startup state |
| BHSPC150.SecondOpenRefused | BH_SPC150.c:50-53 | while a device is open, a second open returns Already_Open and changes nothing |
| BHSPC150.FailedOpenKeepsBoard | BH_SPC150.c:146-152 | a configuration failure after initialization leaves the board initialized with no device counted, and every later open is refused |
| BHSPC150.OpenCloseRoundTrip | BH_SPC150.c:143-177 | a successful open from startup, then a close, returns to startup |
| BHSPC150.Driver.constructor | BH_SPC150.c:12-13 | the board starts not initialized with no device open |
| BHSPC150.Driver.EnsureFLIMBoardInitialized | BH_SPC150.c:42-75 | the new state and result are exactly EnsureStep |
| BHSPC150.Driver.DeinitializeFLIMBoard | BH_SPC150.c:78-89 | the new state and result are exactly DeinitStep |
| BHSPC150.Driver.Open | BH_SPC150.c:143-160 | the new state and result are exactly OpenStep; the device's record is untouched when initialization fails and holds the defaults otherwise; the rate monitor runs exactly on success |
| BHSPC150.Driver.Close | BH_SPC150.c:163-177 | the new state is exactly CloseStep, the result is OK, the acquisition is asked to stop and released, and the rate monitor is stopped; the record's settings are unchanged |
| BHSPC150.Arm | BH_SPC150.c:222-242 | Unsupported_Operation exactly when a clock or scanner is requested, no detector is requested, or the clock source is not external; otherwise the result of starting the acquisition |
| SdtFormat.I16 | SDTFile.c:431 | (short): the result is in range, agrees with the value modulo 2^16, and equals it when it fits |
| SdtFormat.U32 | SDTFile.c:358 | (unsigned long): the result is in range, agrees with the value modulo 2^32, and equals it when it fits |
| SdtFormat.CStr | SDTFile.c:69 | the C string up to the first NUL: it holds no NUL, it is a prefix, it is the whole text when there is no NUL, and otherwise the character right after it is the first NUL |
| SdtFormat.Decimal | SDTFile.c:58 | %u formatting: one or more decimal digits that spell n (DigitsValue), with no leading zero when n > 0 |
| SdtFormat.ModuleTypeToHeaderBits | SDTFile.c:372-391 | the module type code is below 0x100 |
| SdtFormat.ModuleCodeOf | SDTFile.c:372-391 | each of the sixteen listed model names gets its code from the table |
| SdtFormat.ModuleCodesDistinct | SDTFile.c:372-391 | the sixteen listed models get sixteen different nonzero codes |
| SdtFormat.UnknownModuleCode | SDTFile.c:372-391 | the code is 0 exactly when the name is not one of the sixteen listed models |
| SdtFormat.RevisionBits | SDTFile.c:414-415 | the revision is 15 or'ed with the code shifted by 4; its low nibble is 15, the code sits above it, and it fits in 12 bits |
| SdtFormat.InvalidHeader | SDTFile.c:411-419 | the header first written is marked not valid and carries the revision |
| SdtFormat.Checksum | SDTFile.c:394-402 | the covered words (all but the last of BH_HDR_LENGTH/2) plus the checksum sum to the checksum constant modulo 2^16 |
| SdtFormat.HeaderChecksum | SDTFile.c:394-402 | the loop's 16-bit running sum gives exactly Checksum |
| SdtFormat.IdentificationTextHasNoNul | SDTFile.c:53-69 | the formatted identification text holds no NUL, so strlen counts all of it |
| SdtFormat.SetupTextLength | SDTFile.c:90-96 | the setup text is 16 characters with no NUL |
| SdtFormat.StopFlags | SDTFile.c:226-232 | bits 0-2 are the pixel, line and frame markers recorded, bits 3-6 and 9-14 are clear, bits 7 and 8 (end of frame found, first frame and line present) are set, and bit 15 is the rate ranges recorded |
| SdtFormat.DigFlags | SDTFile.c:277-278 | bit 0 is the master clock, bit 2 the inverted time axis, bit 1 is clear |
| SdtFormat.MeasurementDesc | SDTFile.c:105-334 | the time bins (adc_re) times the image size (image_x x image_y) count the samples of one data block, and twice that, as an unsigned long, is the header's data block length; there is one image row per channel (image_rx = ncx, image_ry = ncy = 1); the descriptor correlates its own channel and module; the line polarity is 1 exactly when the stop flags record line markers |
| SdtLayout.DescriptorMatchesBlock | SDTFile.c:269-271 | a channel's descriptor has as many image rows as the header has data blocks; that channel's data block names the descriptor by its channel, and its length is twice the descriptor's sample count |
| SdtFormat.BlockTypeFits | SDTFile.c:352 | the block type, or'ed from 16-bit flags, is a 16-bit value |
| SdtFormat.MiddleTermVanishes | SDTFile.c:355-357 | for a 16-bit block type, the middle term of lblock_no (the shift binds tighter than the and) is 0 |
| SdtFormat.LBlockNoValue | SDTFile.c:355-357 | for a 16-bit block type and a channel below 2^24, lblock_no is the module number shifted to bit 24 plus the channel |
| SdtFormat.DataBlockHeader | SDTFile.c:346-358 | data_offs is the header position plus the header size; next_block_offs is 0; meas_desc_block_no is the channel; block_length is the histogram's byte length |
| SdtFormat.DataBlockLBlockNo | SDTFile.c:355-357 | a data block's lblock_no is the module number shifted to bit 24 with the channel below it |
| SdtImage.File.constructor | SDTFile.c:498 | the file opened for writing is empty with the cursor at 0 |
| SdtImage.File.Write | SDTFile.c:79-82 | fwrite: some prefix of the data, possibly all, is spliced in at the cursor, and the cursor moves past it by the count returned |
| SdtImage.File.Seek | SDTFile.c:458-467 | fseek either moves the cursor or fails; the bytes never change |
| SdtImage.Splice | SDTFile.c:461-464 | writing nothing changes nothing; otherwise the file grows to cover the write |
| SdtLayout.BlockStartNext | SDTFile.c:449-474 | block j+1 starts where block j ends, one header plus the samples later |
| SdtLayout.TextsHeader | SDTFile.c:427-437 | once the texts are written, the header is still marked not valid, with no checksum, info_offs the header size and setup_offs right after the identification text |
| SdtLayout.CompletedHeader | SDTFile.c:439-477 | the header is marked valid, with descriptor and data block counts equal to the channel count and data_block_offs after the descriptors (0 when there are no channels) |
| SdtLayout.FilledHeader | SDTFile.c:411-477 | the header before the checksum: valid, with the revision, info and setup offsets, descriptor offset, counts and data block offset where the parts lie |
| SdtLayout.Checksummed | SDTFile.c:477-478 | only the checksum field changes, and it makes the covered header words sum to the checksum constant |
| SdtLayout.FileImageParts | SDTFile.c:405-489 | the finished file is the checksummed header, then the two texts, then the descriptors and the blocks |
| SdtLayout.LinkStep | SDTFile.c:457-468 | writing the current end of file into the previous block's next_block_offs field turns the blocks written so far into linked blocks |
| SdtLayout.LinkedBlocksLength | SDTFile.c:452-474 | the first n blocks end where block n starts |
| SdtPlacement.FileHeaderFields | SDTFile.c:411-478 | the final header is valid, carries the revision, points at the identification text, the setup text, the descriptors and the first data block, records the counts and lengths, and satisfies the checksum |
| SdtPlacement.FileImageFront | SDTFile.c:421-437 | the file begins with the header, then the identification text at info_offs, then the setup text at setup_offs, and it ends where a block after the last would start |
| SdtPlacement.FileImageDescriptor | SDTFile.c:439-446 | descriptor j lies j descriptor sizes after meas_desc_block_offs, and it is channel j's descriptor |
| SdtPlacement.FileImageBlock | SDTFile.c:448-474 | block j lies j block sizes after data_block_offs: its header, whose next_block_offs holds the start of block j+1 (0 for the last block), then channel j's samples |
| SdtWriter.WriteSDTIdentification | SDTFile.c:38-87 | returns 0 or 1; what was written is a prefix of the identification text, written at the cursor, without its NUL; success exactly when the text is shorter than 2^20 - 1 and written whole |
| SdtWriter.WriteThroughGrowingBuffer | SDTFile.c:43-84 | buffers of 512·2^k bytes are tried up to 1 MiB; the text is written only from a buffer it fits in; the result is 1 when no buffer is big enough or the write is short |
| SdtWriter.WriteSDTEmptySetup | SDTFile.c:90-102 | a prefix of the setup text is written; success exactly when all 16 characters are |
| SdtWriter.WriteSDTMeasurementDescBlock | SDTFile.c:105-334 | a prefix of the channel's descriptor is written; success exactly when all of it is |
| SdtWriter.WriteSDTHistogramDataBlock | SDTFile.c:337-369 | a prefix of the block header, then the samples, is written; the offset of its next_block_offs field is returned; success exactly when the whole block is written |
| SdtWriter.StartsInvalid | SDTFile.c:419-425 | a file that starts with the header marked not valid keeps that header |
| SdtWriter.ShortFirstWrite | SDTFile.c:421-425 | a short first write leaves a prefix of the header marked not valid |
| SdtWriter.WriteKeepsHeader | SDTFile.c:426-437 | a write after the header, whole or short, keeps the header marked not valid |
| SdtWriter.AppendKeepsHeader | SDTFile.c:439-474 | bytes appended after the header keep it |
| SdtWriter.ShortRewrite | SDTFile.c:483-486 | a short rewrite over a file whose valid image is header + body leaves that file partly rewritten |
| SdtWriter.SdtFileMarkedValid | SDTFile.c:477-478 | the last header byte of the SDT file belongs to a header marked valid |
| SdtWriter.FailedWriteIsNotTheFile | SDTFile.c:405-489 | whichever way WriteSDTFileP fails, the file differs from the SDT file, given that the valid and not-valid marks differ |
| SdtWriter.HeaderRewrite | SDTFile.c:480-486 | rewriting the header at 0 replaces the header and leaves the rest of the file |
| SdtWriter.WriteMeasurementDescBlocks | SDTFile.c:442-446 | the descriptors are written in channel order, stopping at the first failure; success exactly when all are written |
| SdtWriter.WriteHistogramDataBlocks | SDTFile.c:448-474 | on success the file gains exactly the linked data blocks; data_block_offs is the first block's start (0 without channels); on any failure the bytes before the blocks are unchanged |
| SdtWriter.LinkPreviousBlock | SDTFile.c:457-468 | seeks back, writes the new block's start into the previous block's next_block_offs, and seeks forward; on success the blocks so far are linked and the cursor is at the end; on failure the bytes before the blocks are unchanged |
| SdtWriter.BlockWritten | SDTFile.c:470-473 | a block written whole after the linked blocks completes the first i+1 blocks; a short one leaves the bytes before the blocks unchanged |
| SdtWriter.LinkWritten | SDTFile.c:461-464 | the new block's start written whole links the previous block and leaves the length unchanged |
| SdtWriter.WriteSDTFileTexts | SDTFile.c:411-437 | writes the header marked not valid, then the two texts, and fills in their offsets and lengths; after a failure the file holds the header marked not valid, or the prefix of it that was written |
| SdtWriter.WriteSDTFileRecords | SDTFile.c:439-474 | appends the descriptors and data blocks and completes the header fields; after a failure the bytes before them are unchanged |
| SdtWriter.WriteValidHeader | SDTFile.c:476-488 | rewrites the header at 0, valid and checksummed, over the one marked not valid; after a failed seek or a short write the file is the old file with fewer than a header's worth of the new header's bytes written over its start |
| SdtWriter.WriteSDTFileP | SDTFile.c:405-489 | returns 0 or 1; on 0 the file is exactly SdtFile (the valid checksummed header, texts, descriptors, linked blocks); on 1 either the file holds the header marked not valid (or the prefix of it written), or it is SdtFile with its header replaced by the one marked not valid and fewer than all of the valid header's bytes written back over its start |
| SdtWriter.WriteSDTFile | SDTFile.c:492-508 | a file that cannot be opened gives 1; otherwise the outcome is that of WriteSDTFileP, with the same two failure cases |

## Left out

- The pixellator's own implementation is not part of this model. Its behaviour is pinned down only by the scenarios of LineClockPixellatorTests.cpp. Where those scenarios are silent, the model makes its own choices:
  - a backward macrotime gives an error notification and is otherwise skipped;
  - a marker without the line bit still advances the last seen time;
  - the pixel column is (t - lineStart) * width / lineTime. This is one reading of the pixel interval. LineClock.PixelXOfDwell shows that it agrees with x = floor((t - lineStart) / p) when the line time is width * p.
- The error message text is a placeholder, for the same reason.
- Pixellator.LineClockPixellator.constructor: the third constructor argument is kept as `maxFrames` and plays no part. The sources do not show what it means, and neither the scenarios nor the properties depend on it. If it is read instead as a pixel interval p, the test's values (10 ticks, 2 pixels, line time 20) satisfy lineTime = width * p, which is the case LineClock.PixelXOfDwell covers.
- MockProcessor counters are unbounded naturals. Their `unsigned` wrap-around is not modelled.
- AcquisitionControl.ConfigureMarkers: the masks are returned as the sets of their bit positions, not as `uint16_t` values. The number of marker inputs is the length of the edge array, and at most 16 of them are described.
- Futures, promises, `std::async`, waiting for completion and logging are concurrency, and are left out. This covers `ResetAcquisitionState`, `IsAcquisitionRunning`, `WaitForAcquisitionToFinish`, `WaitForCompletionAndLog`, and the orchestration in `StartAcquisition` after its checks.
- DeviceData.PrivateData.constructor: the zeroed marker polarities and pixel-mapping mode are taken to be `Disabled` and `LineStartMarkers`, the enumerators numbered 0. BH_SPC150Private.h, which numbers them, is not part of this model.
- AcquisitionControl.ShutdownAcquisitionState: waiting for the acquisition to finish before releasing it is not modelled.
- AcquisitionControl.RequestAcquisitionStop: only the "already satisfied" case can arise with one promise. The rethrow of other future errors is not modelled.
- `PixelsToMacroTime` is floating-point rounding. The line time and line delay are given as integers.
- The vendor and framework calls are modelled only through their results, passed as parameters, and are otherwise left out: `SPC_init`, `SPC_close`, `SPC_get_error_string`, `SetMarkerPolarities`, `SetUpAcquisition`, `IsStandardFIFO`, `OScDev_*`, and the rate-counter monitor, which is kept only as a flag.
- Not modelled because the vendor headers are not part of this model: the struct layouts of the file header, the data block header and MeasureInfo, and the constants `BH_HDR_LENGTH`, `BH_HEADER_CHKSUM`, `BH_HEADER_VALID`, `FIFO_DATA`, `IMG_BLOCK`, `DATA_USHORT` and `SPC_CMD_STOP`.
  - The sizes, the offset of `next_block_offs` and those constants are parameters.
  - File bytes are symbolic cells naming what they belong to.
  - SdtLayout.Checksummed: the header's 16-bit words are a parameter, a function of the header, since the byte image of a header is not known.
- SdtFormat.MeasurementDesc leaves out:
  - the floating-point fields: `tac_r`, `col_t`, `rep_t`, `offset`, `pix_time`, the rate fields, `stop_time`, `cortime`, `end_time` and the `HISTInfoExt` times;
  - the strings: time, date, serial number and model;
  - the fields copied from the board parameters (`SPCdata`);
  - the reserved and untouched fields.
- SdtFormat.MeasurementDesc: `adc_re` is 2^histogramBits, not truncated to the field's width.
- SdtFormat.DataBlockHeader: `lblock_no` is kept as its three operands, and its value is given by LBlockNoValue. The 32-bit wrap of `moduleNumber << 24` for module numbers of 256 or more is not modelled; only module 0 is used. `data_offs` and the offsets written into `next_block_offs` are not truncated to 32 bits, so files of 4 GiB or more are not modelled.
- `realloc` failure in WriteSDTIdentification is not handled by the code and is not modelled. `fclose` and its result are not modelled.
- The `ftell` results are the cursor position. Their failure (-1) is not modelled.
- WriteSDTFileP's histogram arrays are given one per channel, each with at least width·height·2^histogramBits samples.
- SdtWriter.WriteSDTFile: whether the file opens is a parameter.
- `BH_EnumerateInstances`, `BH_ReleaseInstance`, `BH_GetName`, the capability queries, the settings, and the device registration in BH_SPC150.c are framework glue, and are not modelled.
