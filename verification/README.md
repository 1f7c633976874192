# Flight data logger core, modelled in Dafny

This project models two parts of the Graphite flight data logger firmware.
The firmware is an ESP32 sketch that samples a high-g analog accelerometer
and a barometric altimeter.

1. **The sampling loop** (`loop()` in `src/main.cpp`). Each pass runs four timer
   gates, each on its own `millis()` timer:
   - an accelerometer sample every 5 ms;
   - an altimeter sample every 5 ms, taken only when the sensor has new data;
   - a fast-log aggregation, more than 20 ms apart and never while calibrating;
   - a status LED toggle, more than 1000 ms apart.

   Each sample goes into a 4-slot array at a wrapping index. The
   accelerometer calibration sub-machine also runs on each accelerometer
   sample. It is driven by `cal_accelCalMode` and `cal_accelCalStarted`:
   - the first sample of a window seeds the per-axis bounds;
   - later samples widen them;
   - the window times out after `cal_accelCalTimeout`;
   - on exit it computes a zero point and a coefficient per axis.
2. **The web request handlers** (`src/WebFuncs.h`). These are the arm, disarm
   and time-sync transitions over `flag_armed` and `time_synced`, plus the
   fixed-offset parser for the client's `MM/DD/YYYY HH:MM:SS ZONE` string. The
   status and page handlers only check the armed flag before they answer.

Modules:

- `Millis` (`millis.dfy`): `unsigned long` time, 32 bits on the ESP32. The
  difference `now - timer` wraps modulo 2^32.
- `RingBuffer` (`ring.dfy`): the 4-slot sample arrays and their wrapping index.
- `Calibration` (`calibration.dfy`): the calibration sub-machine.
- `Logger` (`logger.dfy`): one pass of `loop()` as a pure function
  `Tick(state, inputs)`, runs of passes, and the averaging.
- `WebFuncs` (`webfuncs.dfy`): the handlers as pure functions from state and
  request to new state and response, plus the time parser.

Inputs and outside state:

- The clock value `now`, the raw `analogRead` triple, the altimeter's
  "data available" flags and the altimeter's derived values are all inputs of
  `Tick`.
- The file system is a set of paths that can be opened.
- The globals `flag_armed`, `time_synced` and `time_*` are declared outside the
  two files. They make up the `WebFuncs.Web` state, which starts unarmed and
  unsynced.

## Model

| member | source | states |
|---|---|---|
| `Millis.Elapsed` | src/main.cpp:214 | The unsigned difference `now - timer` is the 32-bit value that takes `timer` forward to `now`: it equals `now - timer` without a rollover and `2^32 - timer + now` across one. |
| `Millis.ElapsedIsUnique` | src/main.cpp:214 | No other 32-bit value takes `timer` forward to `now`, so a rollover of the clock is never mistaken for a long delay. |
| `Millis.ElapsedAfterWait` | src/main.cpp:398 | After waiting `d` ms from `timer`, the wrapped difference is exactly `d`, whether or not the clock rolled over in between. |
| `RingBuffer.Fresh` | src/main.cpp:119-121 | A never-written sample array has all slots equal to the initial value and index 0, as with the zero-initialised globals. |
| `RingBuffer.Advance` | src/main.cpp:229-232 | Incrementing the index and resetting it to 0 once it passes `io_accelSamples - 1` keeps it in `[0, 4)` and equals `(index + 1) mod 4`. |
| `RingBuffer.Write` | src/main.cpp:223-232 | A stored sample lands in the slot at the current index and no other slot changes. The index then advances by one modulo 4. |
| `RingBuffer.WriteAllIndex` | src/main.cpp:229-232 | After any number of writes, the index is the start index plus the number of writes, modulo 4. |
| `RingBuffer.OrderedWrite` | src/main.cpp:223-232 | Reading the array from the current index round to the slot before it gives the samples oldest first. Storing a sample drops the oldest and appends the new one at the end. |
| `RingBuffer.OrderedWriteAll` | src/main.cpp:223-232 | After any number of writes, the array read oldest first is the last 4 of the old contents followed by the new samples. Fewer than 4 writes therefore leave the oldest old samples in place. |
| `RingBuffer.OrderedIsLatest` | src/main.cpp:223-232 | After 4 or more writes, the array read oldest first is exactly the last 4 samples written, in order. |
| `RingBuffer.RingIsRotationOfLatest` | src/main.cpp:223-232 | After 4 or more writes the array is exactly the last 4 samples, rotated so that the oldest sits at the current index. |
| `RingBuffer.LatestSum` | src/main.cpp:324-329 | After 4 or more writes, the averaging loop's sum over the slots equals the sum of the last 4 samples written, whatever came before. |
| `Calibration.Initial` | src/main.cpp:105-126 | The calibration globals start with both flags off, a 60000 ms timeout, and default bounds with each zero strictly between them, so the start state is coherent. |
| `Calibration.Half` | src/main.cpp:266-268 | C's integer `/ 2` truncates toward zero: the remainder has the sign of the dividend and magnitude at most 1. |
| `Calibration.Conclude` | src/main.cpp:263-268 | On exit, the zero point lies in `[min, max]` and is their midpoint rounded up. The coefficient is finite exactly when `max != min`, and then coefficient × (max − min) = 2; a zero range gives +infinity, not an error. |
| `Calibration.Seed` | src/main.cpp:242-243 | Seeding sets both bounds of an axis to the first sample and leaves the zero and coefficient alone. |
| `Calibration.Widen` | src/main.cpp:249-254 | Folding a sample makes the minimum the smaller of the old minimum and the sample, and the maximum the larger. |
| `Calibration.Step` | src/main.cpp:237-268 | The first sample of a window sets `started`, stamps the timer with `now`, and makes each axis's min and max equal the sample. Later samples widen the bounds per axis. When more than `timeout` ms have elapsed, the mode clears on that tick, and the exit computation uses bounds that already include that tick's sample. A window closed from outside is concluded on the next sample. Outside a window nothing changes. While a window stays open, each axis's zero point and coefficient are unchanged; only the exit computation sets them. |
| `Calibration.StepKeepsExtremes` | src/main.cpp:249-254 | If the bounds are the extremes of the samples seen so far, then after one more sample they are the extremes of the samples plus the new one. |
| `Calibration.StepAllKeepsExtremes` | src/main.cpp:245-268 | Over any further sequence of samples, the bounds stay the exact per-axis minimum and maximum of every sample folded in while the mode was set. |
| `Calibration.CalibrationRecordsExtremes` | src/main.cpp:238-268 | For a window started with the mode set, each axis satisfies min ≤ every sample folded in since seeding ≤ max, including the timeout tick's sample. Both bounds are attained by some sample. Once the window has closed, each axis's zero point lies between its min and max. |
| `Calibration.StepKeepsCoherent` | src/main.cpp:240-268 | One sample keeps a coherent calibration state coherent: an active window stays seeded with min ≤ max, and a window that times out leaves each zero point between its bounds. |
| `Calibration.StepAllKeepsCoherent` | src/main.cpp:240-268 | Any sequence of samples keeps a coherent calibration state coherent. |
| `Calibration.DefaultWindowGivesDefaultZero` | src/main.cpp:106-108 | Bounds 1975 and 1992 give the zero point 1984, the firmware's default, and the coefficient 2/17. |
| `Logger.Initial` | src/main.cpp:88-126 | At power-up the four timers and both sample indices are 0, the LED state is 1, and the calibration state is the calibration globals' start state, with the mode off. |
| `Logger.Tick` | src/main.cpp:211-414 | A pass through the four gates keeps both sample indices in `[0, 4)`. |
| `Logger.TickAccelGate` | src/main.cpp:214-269 | An accelerometer sample is taken iff `(now − timer) mod 2^32 ≥ 5`. The reading is then stored at the index, the index advances, the timer becomes `now`, and calibration sees the reading. Otherwise the buffer, timer and calibration state are unchanged. |
| `Logger.TickAltGate` | src/main.cpp:284-309 | An altimeter sample is stored iff at least 5 ms have elapsed and the sensor reports new temperature or pressure data; its timer then becomes `now`. Otherwise the buffer and its timer are unchanged. |
| `Logger.TickLogGate` | src/main.cpp:316-361 | The averages are recomputed iff more than 20 ms have elapsed and the calibration mode is off after this pass's accelerometer sample. They are taken over the buffers as this pass left them. Otherwise the timer and accelerometer averages are unchanged, and the current altimeter values are this pass's altimeter sample if one was taken, or else unchanged. |
| `Logger.TickLedGate` | src/main.cpp:397-401 | The LED toggles iff more than 1000 ms have elapsed, and only then is its timer reset. |
| `Logger.Run` | src/main.cpp:211-414 | Any number of passes keeps both indices in `[0, 4)`. |
| `Logger.AccelTakenFirst` | src/main.cpp:214-223 | A run's first pass adds its accelerometer reading to the stored readings exactly when the accelerometer gate lets it through. |
| `Logger.RunStoresTakenSamples` | src/main.cpp:223-232 | Over any run, each sample buffer is the ring fed with exactly the samples its gate let through, in order. |
| `Logger.RunCalibrates` | src/main.cpp:214-279 | Over any run, the calibration state is the calibration sub-machine stepped with exactly the accelerometer samples the gate let through, each with its pass's time, in order. |
| `Logger.RunKeepsCalibrationCoherent` | src/main.cpp:237-268 | A run that starts from a coherent calibration state ends in one, so every closed window has each zero point between its bounds. |
| `Logger.AccelAverageOfLatest` | src/main.cpp:322-329 | Once 4 or more accelerometer readings have been stored, each averaged raw axis value is the mean of the last 4 readings. Together with `RunStoresTakenSamples` this holds for the buffer after any run. |
| `Logger.BaroAverageOfLatest` | src/main.cpp:343-357 | Once 4 or more altimeter samples have been stored, each averaged field equals the exact sum of that field over the last 4 samples written, divided by 4. |
| `WebFuncs.Substring` | src/WebFuncs.h:83-89 | A substring with in-range bounds is the slice between them. One starting at or past the end is empty. One whose end lies past the end is clipped to the rest of the string. |
| `WebFuncs.ToInt` | src/WebFuncs.h:83-88 | A substring gets a numeric value iff it is a non-empty run of digits; any other text is kept as it is. |
| `WebFuncs.ParseClock` | src/WebFuncs.h:83-89 | In a body of at least 19 characters, each numeric field is read from its fixed two- or four-character slice. The zone label is at most 8 characters: the slice [20, 28) of a body of at least 28 characters, the rest of a shorter body that goes past offset 20, and empty otherwise. |
| `WebFuncs.ParseShortBody` | src/WebFuncs.h:89 | The body `"01/05/2024 22:00:38 GMT"` gives the zone `GMT`, through the clipping of the substring's end. |
| `WebFuncs.ParseIgnoresTail` | src/WebFuncs.h:81-89 | Only the first 28 characters affect the parse. |
| `WebFuncs.ParseRender` | src/WebFuncs.h:81-89 | Parsing any zero-padded `MM/DD/YYYY HH:MM:SS ZONE` string with an 8-character ASCII zone, followed by anything, returns every field it was built from (month [0,2), day [3,5), year [6,10), hour [11,13), minute [14,16), second [17,19), zone [20,28)). |
| `WebFuncs.ParseDocumentedExample` | src/WebFuncs.h:81-89 | `"01/05/2024 22:00:38 GMT-0500 (Eastern Standard Time)"` parses to month 1, day 5, year 2024, hour 22, minute 0, second 38, zone `GMT-0500`. |
| `WebFuncs.ArmForLaunch` | src/WebFuncs.h:143-161 | Arming while armed changes nothing and sends nothing. Arming while unsynced replies 400 "Time not synced" and stays unarmed. Otherwise the logger becomes armed and replies 200 "success". After the request, armed holds iff it was armed before or the clock was synced. |
| `WebFuncs.DisarmLogger` | src/WebFuncs.h:163-174 | Disarming while unarmed changes nothing and sends nothing. Disarming while armed replies 200 "success" and clears the armed flag. `time_synced` never changes. |
| `WebFuncs.SyncClock` | src/WebFuncs.h:75-102 | While armed nothing happens. Otherwise the clock fields come from the parse, `time_synced` becomes true, and the reply is always 200 "success", whatever the text. |
| `WebFuncs.UpdateStatusXml` | src/WebFuncs.h:112-141 | The status XML is sent iff the logger is not armed. The state never changes. |
| `WebFuncs.StatusPage` | src/WebFuncs.h:20-33 | The status page is `/statusArmed.html` when armed and `/status.html` otherwise. |
| `WebFuncs.Serve` | src/WebFuncs.h:53-60 | A page is streamed iff it can be opened; otherwise the reply is 500 "File not found". |
| `WebFuncs.SendFile` | src/WebFuncs.h:49-64 | While armed a non-status page request gets no response. Otherwise the page is served. The state never changes. |
| `WebFuncs.SendStatusPage` | src/WebFuncs.h:14-46 | The status request always answers, with the page chosen by the armed flag alone, and never changes the state. |
| `WebFuncs.Handle` | src/WebFuncs.h:75-174 | Every request keeps "armed implies synced" and never clears `time_synced`. Only a time sync touches the clock fields. The status, XML and page requests leave the state as it was. |
| `WebFuncs.ArmedImpliesSynced` | src/WebFuncs.h:96-168 | Across any sequence of requests, armed implies synced is preserved, and a synced clock stays synced. |
| `WebFuncs.NeverArmedUnsynced` | src/WebFuncs.h:143-168 | Starting from power-up (unarmed, unsynced), no sequence of requests leads to an armed but unsynced logger. |
| `WebFuncs.ArmNeedsSync` | src/WebFuncs.h:146-157 | Arming from power-up is refused with 400 "Time not synced". After any time sync, arming succeeds with 200 "success". |

## Left out

- `setup()`: pin modes, the blocking wait for a serial console, and the DPS310 I2C retry loop. These are hardware start-up (src/main.cpp:163-208).
- Debug output: every `debugMsg` call, `lib/WL_DebugUtils/WL_DebugUtils.h`, the `performanceTimer` and `switchTime` measurements, and the debug `sprintf` in `wi_syncTime`. They only write to the console.
- Floating point: `mapf` and the g and m/s² values (src/main.cpp:334-340), the °F/K and Pa conversions, the `pow`-based barometric altitude and the feet conversion (src/main.cpp:289-295). Each altimeter sample's six derived values are therefore a tick input. The aggregated snapshot holds only the averages: a sum over the 4 slots divided by 4, in `real`.
- Logger.BaroAverageOfLatest: the altimeter sums are exact `real` sums, not the firmware's rounded `float` sums. The accelerometer sums are exact in `float` too, because the samples are 12-bit integers.
- Calibration.Conclude: the coefficient is the exact rational `2/(max − min)`, not its `float` rounding.
- Integer widths: the calibration values are C `int`, and overflow is not modelled, because `analogRead` gives 12-bit values. The `uint8_t` sample indices never leave `[0, 4)`, so their 8-bit wrap never applies.
- Several `millis()` calls per pass: `loop()` reads the clock again at every gate and timer reset. The model reads it once per pass as `now`.
- Who sets `cal_accelCalMode`: no code in these two files sets it. The mode flag is part of the state, and the model does not invent an operation that sets it.
- WebFuncs.Substring: offsets count characters, while Arduino's `String` counts bytes. The two agree only on ASCII text.
- WebFuncs.ParseClock: matches the firmware only for ASCII bodies. With a multi-byte character, such as a Unicode minus sign in `GMT−0500`, the firmware cuts the zone after 8 bytes, and this model cuts it after 8 characters.
- WebFuncs.ParseRender: covers only clocks whose zone is ASCII. `Expressible` requires this, because there character and byte offsets coincide.
- WebFuncs.ToInt: Arduino's `String::toInt` (an `atol`) gets a value only for all-digit substrings. Any other substring is kept as its text instead of a guessed number. The substring clipping follows the Arduino `String::substring` contract, which is outside these files.
- Foreign calls: `rtc.setTime` is represented by storing the parsed fields in the state. `rtc.getTime`/`getDate` and the XML text of `wi_updateStatus` (web transport) are not modelled. The XML reply is the `StatusXml` response. Also left out: `sendHeader` caching, streaming file contents, `wi_NotFound`, and the commented-out slow-log block.
- The firmware has no launch, apogee or landed states, no error for a zero-range calibration (the coefficient becomes +infinity), and no configurable aggregation cadence (a fixed 20 ms). The model follows the code and has none of these either.
