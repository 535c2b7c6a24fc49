# BreatheRight firmware core, modelled in Dafny

BreatheRight is firmware for an M5Stack Core2 for AWS that monitors air
quality and respiratory events. A Plantower PMS7003 particulate sensor sends
32-byte frames over a UART. An Edge Impulse audio classifier labels
microphone slices as coughs and sneezes. The firmware derives a US EPA air
quality index (AQI) from the PM2.5 reading, shows it on a display page with
category colours, tints an LED strip, and publishes readings and event
counts to a cloud device shadow.

This project models the deterministic core of that firmware and proves
properties of it:

- `PmsFrame` (pms_frame.dfy) is the PMS7003 frame decoder `pms7003Data` and
  the reading store it updates. It covers:
  - the length, start-character and frame-length checks;
  - twelve big-endian fields;
  - the 16-bit checksum loop.

  It also defines an encoder of well-formed frames, so that both round trips
  can be proved.
- `Aqi` (aqi.dfy) covers:
  - `calcAQI` and `getAQIfromPM25`, the EPA piecewise-linear interpolation
    over the pre-2024 PM2.5 breakpoints;
  - the truncation of the index to `uint16_t` at its call site;
  - the four band classifiers `getStringForAQI`, `mapAQItoColor`,
    `mapAQItoAltColor` and `update_AQI`;
  - `rgbToInt` and the unpacking done in `pm_task`.
- `Events` (events.dfy) covers:
  - the per-window cough/sneeze tally of `inferenceTask`;
  - the window counter `print_results`;
  - the shared `uint16_t` counters `EI_DATA`;
  - the read-and-reset drain of the reporting loop.

  A ledger of running totals states conservation of events modulo 2^16.
- `Audio` (audio.dfy) is the ping-pong sample buffer between `microphoneTask`
  and the classifier. It covers:
  - the copy loop;
  - `microphone_inference_record`;
  - `microphone_audio_signal_get_data`;
  - `microphone_inference_start`.
- `SharedState` (shared.dfy) holds the lock-protected shared records: the
  reading store, the environment reading, the counters and the LED colour.
  It also models the sensor task's hand-off of a read to the decoder.
- `PmTask` (pm_task.dfy) is the 5-second sampling block of `pm_task`. It
  calibrates the temperature, snapshots the store, computes the index, and
  picks the label, the panel colours and the LED colour.
- `Reporting` (reporting.dfy) is one pass of the cloud reporting loop in
  `aws_iot_task`.
- `Clock` (clock.dfy) covers `count_bsearch` and the 12-hour clock label.
- `Power` (power.dfy) covers the battery and charge icons of `battery_task`
  and the brightness and vibration switch values.
- `Types` (types.dfy) holds the fixed-width integer types and the `uint16_t`
  conversion.

How the model represents the source:

- Every lock-protected block is one atomic transition, and interleavings are
  not modelled.
- Floating-point arithmetic is done in exact reals. The `float` to `uint16_t`
  cast is `Floor` of a non-negative real.
- Integer wrap-around is written out as `% 2^16`.
- Sensor readings, classifier outputs, audio samples, allocation outcomes
  and connection state are all parameters.

## Behaviour worth knowing

- **Checksum mismatch.** A frame whose checksum does not match is only
  logged, and its reading is still stored (pms7003.c:700-716).
  `PmsFrame.Decode` accepts such a frame with its `checksumOk` flag cleared,
  and the store ignores the flag. `PmsFrame.ChecksumMismatchStillStored`
  proves that a corrupted checksum byte still replaces the store.
- **Above the top band.** The first branch of `getAQIfromPM25`,
  `pm25 > 350.5`, covers every larger concentration (pms7003.c:499-500). The
  top band is therefore extrapolated, and nothing clamps the index at 500.
  `Aqi.NoClampAbove500` proves the index exceeds 500 above 500 µg/m³.
  `Aqi.FitsU16` proves the index still fits a `uint16_t` for every
  `uint16_t` concentration.
- **PM2.5 = 40 µg/m³.** This concentration lies in the 35.5-55.4 band, so the
  index is 112 and the label is "Unhealthy for Sensitive Groups"
  (pms7003.c:507-508). `PmTask.SampleScenarios` proves it.
- **Sensor-frame hand-off.** The sensor task hands each non-empty read to the
  decoder as it is (pms7003.c:641-645). Bytes are not accumulated across
  reads. Any read that is not exactly 32 bytes is rejected, and there is no
  resynchronisation on the start characters.

## Model

| member | source | states |
|---|---|---|
| `PmsFrame.ComputeChecksum` | BreatheRight-Firmware/main/pms7003.c:695-698 | The wrapping uint16_t accumulator over bytes 0..29 equals their plain sum: 30 bytes cannot overflow 16 bits. |
| `PmsFrame.ReadingOf` | BreatheRight-Firmware/main/pms7003.c:676-689 | Field k of the reading, in struct order, is the big-endian value at bytes 4+2k and 5+2k. |
| `PmsFrame.Decode` | BreatheRight-Firmware/main/pms7003.c:652-702 | A frame is accepted iff it is 32 bytes, starts 0x42 0x4D and carries frame length 28. Otherwise the reason is the first failed check: wrong length, start byte 1, start byte 2, frame length. An accepted frame's fields are the big-endian pairs. Its checksum flag holds iff the sum of bytes 0..29 equals the big-endian bytes 30-31. |
| `PmsFrame.Ingest` | BreatheRight-Firmware/main/pms7003.c:703-716 | A rejected buffer leaves the store unchanged. An accepted one replaces all twelve fields with the frame's fields, whatever its checksum. |
| `PmsFrame.Encode` | BreatheRight-Firmware/main/pms7003.c:671-698 | An encoded frame is 32 bytes, begins with the payload of its reading and reserved word, and carries a checksum matching the sum of its first 30 bytes. |
| `PmsFrame.PayloadCarries` | BreatheRight-Firmware/main/pms7003.c:658-689 | Any 32 bytes that begin with a reading's payload pass every header check and decode to that reading, whatever their checksum bytes. |
| `PmsFrame.EncodeCarries` | BreatheRight-Firmware/main/pms7003.c:658-689 | An encoded frame passes the header checks and carries exactly the reading it was built from. |
| `PmsFrame.DecodeMatching` | BreatheRight-Firmware/main/pms7003.c:693-702 | A well-framed buffer whose checksum matches decodes to its reading with the checksum flag set. |
| `PmsFrame.DecodeEncode` | BreatheRight-Firmware/main/pms7003.c:652-716 | Round trip: encoding any twelve uint16_t fields and decoding gives them back, checksum OK. |
| `PmsFrame.PayloadOfFrame` | BreatheRight-Firmware/main/pms7003.c:676-691 | The first 30 bytes of a well-framed buffer are determined by its decoded reading and reserved word. |
| `PmsFrame.EncodeDecode` | BreatheRight-Firmware/main/pms7003.c:652-702 | Reverse round trip: every accepted frame with a matching checksum is exactly the encoding of what it decodes to, so the decoder loses no byte except into the reserved word. |
| `PmsFrame.ReplaceChecksumByte` | BreatheRight-Firmware/main/pms7003.c:693-702 | Corrupting the last checksum byte keeps the frame well framed with the same reading and byte sum, but breaks checksum agreement. |
| `PmsFrame.ChecksumMismatchStillStored` | BreatheRight-Firmware/main/pms7003.c:700-716 | Such a corrupted frame decodes with the checksum flag cleared, and the store still takes its reading. |
| `Aqi.CalcAqi` | BreatheRight-Firmware/main/pms7003.c:466-472 | Equation 1 maps the lower breakpoint to the lower index and the upper breakpoint to the upper index. |
| `Aqi.CalcAqiWithinBand` | BreatheRight-Firmware/main/pms7003.c:466-472 | A concentration inside its band gives an index inside the band's index range. |
| `Aqi.AqiFromPm25` | BreatheRight-Firmware/main/pms7003.c:497-515 | A concentration of 0 or less gives index 0; any positive one gives a positive index. |
| `Aqi.Breakpoints` | BreatheRight-Firmware/main/pms7003.c:497-515 | 12 → 50, 35.4 → 100, 55.4 → 150, 150.4 → 200, 250.4 → 300, 350.4 → 400 and 500 → 500, exactly. |
| `Aqi.Monotonic` | BreatheRight-Firmware/main/pms7003.c:497-515 | A higher concentration never gives a lower index, including across the gaps the strict thresholds leave between bands. |
| `Aqi.NoClampAbove500` | BreatheRight-Firmware/main/pms7003.c:499-500 | Above 500 µg/m³ the top band is extrapolated past index 500. |
| `Aqi.FitsU16` | BreatheRight-Firmware/main/pms7003.c:405 | For every uint16_t concentration the index lies in [0, 43567), so the truncating cast to uint16_t is defined. |
| `Aqi.PmAqi` | BreatheRight-Firmware/main/pms7003.c:405 | The displayed index is the integer part of the exact index. |
| `Aqi.PmAqiCategory` | BreatheRight-Firmware/main/pms7003.c:497-515 | For a whole-number concentration, the category of the truncated index is the one the EPA concentration table gives directly. The strict thresholds and the extrapolation across gaps never move a reading into a neighbouring category. |
| `Aqi.CategoryOf` | BreatheRight-Firmware/main/pms7003.c:443-464 | The band is Unknown exactly for a negative index. |
| `Aqi.LabelFor` | BreatheRight-Firmware/main/pms7003.c:474-495 | The label is the display name of the index's category; "Unknown" for a negative index. |
| `Aqi.MapAqiToColor` | BreatheRight-Firmware/main/pms7003.c:523-544 | The primary colour is the packed palette colour of the index's category; black for a negative index. |
| `Aqi.MapAqiToAltColor` | BreatheRight-Firmware/main/pms7003.c:546-567 | The background colour is the packed pale palette colour of the index's category; black for a negative index. |
| `Aqi.UpdateAqi` | BreatheRight-Firmware/main/pms7003.c:443-464 | A negative index leaves the LED colour unchanged; otherwise the LED takes the primary colour of the category. |
| `Aqi.RgbToInt` | BreatheRight-Firmware/main/pms7003.c:517-521 | A packed colour fits in 24 bits. |
| `Aqi.UnpackPack` | BreatheRight-Firmware/main/pms7003.c:409-417 | Shifting and masking a packed colour gives back each of its three channels. |
| `Aqi.PackUnpack` | BreatheRight-Firmware/main/pms7003.c:409-417 | Every 24-bit value is the packing of the channels unpacked from it. |
| `Aqi.CategoryTablesInjective` | BreatheRight-Firmware/main/pms7003.c:474-567 | Distinct categories have distinct labels, distinct primary colours and distinct background colours. |
| `Aqi.ClassifiersAgree` | BreatheRight-Firmware/main/pms7003.c:474-567 | Two indices get the same label iff the same primary colour iff the same background colour iff the same category. |
| `Aqi.LedMatchesPanel` | BreatheRight-Firmware/main/pms7003.c:406-417 | For a non-negative index the LED colour is the unpacked panel colour. |
| `Events.HitsDisjoint` | BreatheRight-Firmware/main/edge_impulse.cpp:148-156 | Cough hits plus sneeze hits never exceed the number of labels. |
| `Events.TallyWindow` | BreatheRight-Firmware/main/edge_impulse.cpp:141-156 | The loop counts exactly the "cough" labels with confidence above 0.8 and exactly the "sneeze" ones, together at most the label count. |
| `Events.AddEvents` | BreatheRight-Firmware/main/edge_impulse.cpp:160-163 | Each counter grows by its window count modulo 2^16, exactly when no wrap occurs. |
| `Events.Drain` | BreatheRight-Firmware/main/main.c:338-344 | The drain reports the counters exactly as it found them and leaves both at zero. |
| `Events.StepConserves` | BreatheRight-Firmware/main/main.c:338-344 | A flush or a drain keeps: total added ≡ total drained + current (mod 2^16). |
| `Events.ReplayConserves` | BreatheRight-Firmware/main/edge_impulse.cpp:160-163 | Conservation holds after any sequence of flushes and drains from the zeroed counters. |
| `Events.FlushesAccumulate` | BreatheRight-Firmware/main/edge_impulse.cpp:160-163 | Between drains the counters hold the exact sum of the flushed window counts while it fits in 16 bits. |
| `Events.DrainReportsWindows` | BreatheRight-Firmware/main/main.c:338-344 | A drain after flushes returns exactly the events of those windows, and an immediate second drain returns zero. The drain itself loses nothing and counts nothing twice. Whether the drained counts are then published is not covered; see "## Left out". |
| `Events.Cycle` | BreatheRight-Firmware/main/edge_impulse.cpp:117-166 | A failed record or classifier run changes nothing. Otherwise the window counter advances; on reaching the slice count it flushes the window's tallies and restarts at 0. |
| `Events.QuietRun` | BreatheRight-Firmware/main/edge_impulse.cpp:140 | Passes that stay below the slice count advance the counter by the number of successful passes and flush nothing. |
| `Events.FlushAfter` | BreatheRight-Firmware/main/edge_impulse.cpp:140-165 | The next successful pass flushes once the counter stands at slices − 1. |
| `Events.FirstFlush` | BreatheRight-Firmware/main/edge_impulse.cpp:46 | From the initial value −slices, 2·slices − 1 successful passes flush nothing, and the next one flushes. |
| `Events.LaterFlush` | BreatheRight-Firmware/main/edge_impulse.cpp:165 | After a flush, slices − 1 successful passes flush nothing, and the next one flushes. |
| `Audio.PushSample` | BreatheRight-Firmware/main/edge_impulse.cpp:95-104 | Storing a sample keeps the fill position below n_samples and never touches the other buffer. A full buffer flips the selector, resets the position to 0 and sets the ready flag. |
| `Audio.PushAll` | BreatheRight-Firmware/main/edge_impulse.cpp:95-104 | The buffer shape invariant survives any run of samples. |
| `Audio.CopyChunk` | BreatheRight-Firmware/main/edge_impulse.cpp:93-105 | With recording disabled nothing changes; otherwise the copy loop equals pushing the samples one by one. |
| `Audio.PushTracks` | BreatheRight-Firmware/main/edge_impulse.cpp:95-104 | One sample keeps the buffers tracking the sample history: the newest samples sit below the fill position, and the other buffer holds the last completed block. |
| `Audio.PushAllTracks` | BreatheRight-Firmware/main/edge_impulse.cpp:93-105 | Tracking holds over any run of samples. |
| `Audio.GetData` | BreatheRight-Firmware/main/edge_impulse.cpp:259-264 | The classifier receives exactly the requested number of samples. Their values are stated by `Audio.GetDataLastBlock`. |
| `Audio.GetDataLastBlock` | BreatheRight-Firmware/main/edge_impulse.cpp:259-264 | Once a block has completed, every window (offset, length) the classifier asks for holds the same window of the last completed block of samples, never samples of the block being filled. |
| `Audio.GetDataStable` | BreatheRight-Firmware/main/edge_impulse.cpp:259-264 | A sample that does not complete the buffer leaves what the classifier reads unchanged. |
| `Audio.Record` | BreatheRight-Firmware/main/edge_impulse.cpp:236-254 | Recording fails exactly when a buffer was already ready on entry (overrun). It always leaves the ready flag cleared, and otherwise the state the wait ended in. |
| `Audio.ShortRunKeepsReady` | BreatheRight-Firmware/main/edge_impulse.cpp:98-103 | Samples that do not reach the end of the buffer leave the ready flag and the selector alone and advance the position. |
| `Audio.RecordSawFreshBlock` | BreatheRight-Firmware/main/edge_impulse.cpp:236-254 | A successful record waited for enough samples to finish the buffer being filled. |
| `Audio.MicStartAsWrittenIgnoresBuffer1` | BreatheRight-Firmware/main/edge_impulse.cpp:189-194 | As written, start-up reports success although buffer 1 was not allocated. |
| `Audio.MicStart` | BreatheRight-Firmware/main/edge_impulse.cpp:181-209 | Corrected start-up succeeds iff all three allocations succeed. It then yields valid, empty buffers filling buffer 0 with no block ready. |
| `Audio.StartThenTrack` | BreatheRight-Firmware/main/edge_impulse.cpp:181-209 | After a successful start the buffers track whatever samples follow. |
| `SharedState.ReceiveBytes` | BreatheRight-Firmware/main/pms7003.c:641-645 | A read changes only the reading store. A buffer that is not a well-framed 32-byte frame changes nothing; a well-framed one stores its reading. |
| `PmTask.SampleStep` | BreatheRight-Firmware/main/pms7003.c:363-431 | The step publishes IMU temperature − 27.78 and changes nothing else but the LED. It shows the truncated AQI of the stored PM2.5 (AE) value, with the label, primary colour, background colour and LED colour of the EPA category of that concentration. The displayed PM values are the AE fields. |
| `PmTask.SampleScenarios` | BreatheRight-Firmware/main/pms7003.c:405-406 | PM2.5 10 → 41 "Good"; 40 → 112 "Unhealthy for\nSensitive Groups" (with the line break of the caption); 400 → 433 "Hazardous". |
| `Reporting.ReportStep` | BreatheRight-Firmware/main/main.c:312-344 | While reconnecting or updating, the pass changes nothing and collects nothing. Otherwise it collects temperature, humidity and pressure from the shared environment reading (the converted IMU temperature is overwritten, main.c:327), PM1.0/2.5/10 from the AE fields, and the counters' values, and zeroes the counters. |
| `Reporting.SkippedPassLosesNothing` | BreatheRight-Firmware/main/main.c:314-319 | Events held through a skipped pass are drained by the next pass that goes through. |
| `Reporting.SampleThenReport` | BreatheRight-Firmware/main/main.c:326-335 | After a sampling pass, the report carries the calibrated temperature and the stored PM2.5 (AE) value. |
| `Clock.CountBsearch` | BreatheRight-Firmware/main/clock.c:81-108 | The count is always between 1 and 10. |
| `Clock.CountBsearchIsDigitCount` | BreatheRight-Firmware/main/clock.c:81-108 | The count equals the number of decimal digits of \|i\| (0 has one, −2^31 has ten). |
| `Clock.CountBsearchSymmetric` | BreatheRight-Firmware/main/clock.c:83-88 | Negating a value other than −2^31 does not change the count. |
| `Clock.Pad2RoundTrip` | BreatheRight-Firmware/main/clock.c:149-152 | A %02d rendering consists of digits and reads back as the number rendered. |
| `Clock.ClockFace` | BreatheRight-Firmware/main/clock.c:148-153 | PM exactly from hour 12. Hours above 12 show hour − 12, and 12 and below show unchanged (0 shows as 00). |
| `Clock.ClockFaceInverse` | BreatheRight-Firmware/main/clock.c:148-153 | For hours 0..23 the shown hour and suffix determine the hour. |
| `Clock.ClockText` | BreatheRight-Firmware/main/clock.c:147-153 | The label is the zero-padded shown hour, a colon, the zero-padded minute and " PM" exactly from hour 12, " AM" before; it is at least 8 characters. |
| `Clock.ClockTextLayout` | BreatheRight-Firmware/main/clock.c:147-153 | For a valid time the label is 8 characters "hh:mm AM/PM". The hour field reads back as the shown hour and the minute field as the minute, each zero-padded to two digits. |
| `Power.BatteryLabelFor` | BreatheRight-Firmware/main/power.c:102-113 | Each icon and colour is chosen exactly on its voltage interval: ≥ 4.100 full/green, [3.95, 4.100) 3/green, [3.80, 3.95) 2/orange, [3.25, 3.80) 1/red, < 3.25 empty/red. |
| `Power.BarsCountThresholds` | BreatheRight-Firmware/main/power.c:102-113 | The icon shows as many bars as voltage thresholds the reading reaches. |
| `Power.BarsMonotonic` | BreatheRight-Firmware/main/power.c:102-113 | A higher voltage never shows fewer bars. |
| `Power.ChargeLabelFor` | BreatheRight-Firmware/main/power.c:115-119 | The charge icon is shown exactly when the battery current is ≥ 0. |
| `Power.Brightness` | BreatheRight-Firmware/main/power.c:52-63 | The brightness is 40 exactly when the switch state is 0, and 80 otherwise. |
| `Power.Vibration` | BreatheRight-Firmware/main/power.c:74-85 | The motor strength is 0 exactly when the switch state is 0, and 60 otherwise. |
| `Power.SwitchesAgree` | BreatheRight-Firmware/main/power.c:52-85 | The screen is bright exactly when the motor runs, and each setting depends only on whether the switch is on. |

## Left out

- UART driver setup and reads (`readpms7003_task`, and the unused
  `readpms7003_task_2`): hardware I/O. `SharedState.ReceiveBytes` takes the
  bytes read as input. The code passes the address of `cached_buffer_length`
  as the read length, so how many bytes one read returns is not modelled.
- The button-driven colour nudging at the top of `pm_task` and the touch read:
  user-interface input.
- All LVGL widget construction and styling: `display_pm_tab`, `reset_pm_bg`,
  ui.c, the clock rollers and their event handlers. Labels are modelled as
  the strings and colours handed to the widgets. Battery glyphs are an
  enumeration, because the LVGL symbol codes are not part of this model.
- The cloud shadow and MQTT plumbing in main.c (connection, JSON documents,
  callbacks, `healthQualityIndex_Callback`): network client code.
- Publication of the drained counts. A pass zeroes the counters before it
  builds and sends the shadow document (main.c:338-344, 361-371). If the
  build or the update returns anything but SUCCESS, that pass's counts are
  lost, and the non-SUCCESS code ends the reporting loop: the task
  disconnects and deletes itself (main.c:312, 381-395). An update that is
  rejected or times out also drops the counts (main.c:146-149).
  `Reporting.ReportStep` models only what a pass collects, and the
  conservation lemmas are about the drain, not about delivery.
- FreeRTOS mutexes, task creation, delays, and the tick-based 5 s and 60 s
  gating. Each locked block is one atomic step, and interleavings are not
  explored.
- The ping-pong audio state (`inference`, with its buffers, selector, fill
  position and ready flag) is shared by the microphone and inference tasks
  without any mutex (edge_impulse.cpp:42, 96-102, 240-251, 261). The model
  still makes each push, record and read an atomic step.
- `Audio.GetDataLastBlock` holds only under that atomicity. In the firmware a
  flip in the middle of a classification can make the classifier read a
  buffer that is being overwritten.
- `led_event_handler` (power.c:65-72) forwards the switch state to the LED
  driver unchanged. There is no logic to model.
- IEEE-754 single-precision rounding in the AQI arithmetic: exact reals are
  used instead. Wherever the exact index is a whole number (PM2.5 = 12
  gives exactly 50), the float result may land just below it and truncate
  to one less.
- The Edge Impulse classifier (`run_classifier_continuous`,
  `int16_to_float`), I2S reads and `malloc`/`free`. Classifier outputs,
  samples and allocation outcomes are inputs. The value of
  `EI_CLASSIFIER_SLICES_PER_MODEL_WINDOW` is a parameter `slices`.
- blink.c (LED strip timing). Only its starting colour, Amazon orange, is
  used, as `SharedState.InitialLed`.
- `generate_roller_str`: it is unused, and it depends on `pow` and heap
  allocation.
- PMU, RTC, IMU and environment-sensor reads: modelled only as inputs.
- The text rendering of the temperature and PM values (`sprintf` with `%.2f`
  and `%d`): the panel carries the numbers.
- `Aqi.CalcAqi`: requires distinct breakpoints, because Dafny real division
  by zero is undefined. Every call site passes distinct ones.
- `Aqi.CategoryOf`, `Aqi.LabelFor`, `Aqi.UpdateAqi` and the colour
  classifiers take the index as an exact real. The firmware passes the
  truncated `uint16_t` index converted to `float`, which is exact.
- `Audio.Record`: the busy-wait is modelled by the samples pushed while
  waiting, with the precondition that the wait ended with a ready buffer.
  Whether it ends at all depends on the microphone task and is not modelled.
- `Audio.MicStart`: requires a positive sample count and buffers of that
  length. The firmware always passes the positive constant
  `EI_CLASSIFIER_SLICE_SIZE`, and `malloc(0)` is not modelled.
- `Clock.ClockText`: the hour and minute are `uint8_t`. For values outside a
  valid time no property is stated. The 15-byte buffer never truncates for
  8-bit values.

## Findings

| source | as written | input that shows it | evidently intended | confidence | as-written member | corrected member |
|---|---|---|---|---|---|---|
| BreatheRight-Firmware/main/edge_impulse.cpp:189-194 | After allocating buffer 1, `microphone_inference_start` tests `inference.buffers[0] == NULL` again. A failed allocation of buffer 1 is never detected, and recording is enabled with a null buffer. | Allocation of buffer 0 succeeds, buffer 1 fails, the sample buffer succeeds: start-up returns true. | Test `inference.buffers[1]`, so that start-up succeeds only when all three allocations do. | not executed | `Audio.MicStartAsWrittenIgnoresBuffer1` | `Audio.MicStart` |
