# Radar acquisition firmware and host recorder, modelled in Dafny

The system samples two digital outputs of a radar module, TD and PD. The
firmware (`Code/radar_gpio_test/main.c`) runs on a PSoC 6 board:

- a SysTick interrupt counts milliseconds in the 32-bit `ticks_ms`, and raises
  the sticky flag `ticks_overflowed` when the count wraps;
- a falling edge on the user button negates `recording_data`;
- the main loop waits for the flag, prints the sentinel line `9 \r\n`, lights
  the LED, and prints one `%i %i \r\n` line (TD, then PD) every time the
  counter has passed 1000 ticks;
- when the flag is cleared again, the loop turns the LED off, prints a second
  sentinel, and writes `recording_data = false` itself.

The host script (`DataCollection/record_radar_data.py`) reads these lines
from the serial port:

- `read_data` skips lines that are blank after `strip()`;
- the first `9` opens recording and the second one ends the loop;
- every other line is time-stamped and split on the space into TD and PD;
- a line that does not split into exactly two fields, bytes that do not
  decode, or a `SerialException` from the port end the loop through the bare
  `except`.

The model has seven modules:

- `TickCounter` covers the counter and the overflow flag. It spells out the
  2^32 wrap-around.
- `RecordingToggle` covers the recording flag and the button handler.
- `Acquisition` is the firmware's `for(;;)` loop as a state machine over the
  global state, the LED and the UART output. The two interrupts are events
  that can arrive between any two main-loop steps.
- `Firmware` holds the globals in a class `Mcu`. The handlers, the two counter
  accessors and one step of the loop are imperative methods over it, each
  proved to do what the matching function of `Acquisition` does.
- `PyText` covers `str.strip()` and `str.split(" ")` as the script uses them.
- `Recorder` covers `read_data` and the dispatch loop. `ReadData` and
  `RecordRadarData` are the imperative versions, proved against `NextLine` and
  `Session`.
- `Protocol` connects the two sides. What the firmware prints, the script
  reads back: the TD and PD pins of every sample of the first session, in
  order.

How the two sides are modelled:

- **Firmware steps.** The loop is cut at three points:
  - waiting for the flag;
  - the test of the sampling loop;
  - the gap between the closing sentinel and `recording_data = false`.

  The gap is its own point because a button edge in it is overwritten, and
  the model keeps that loss.
- **Firmware time.** `Machine.now` counts SysTick interrupts and
  `Machine.stamps` records when each line was printed. They exist only to
  state how far apart the samples are.
- **Host input.** The serial port is the sequence of raw lines it will ever
  deliver, `seq<RawLine>`. On the way from the firmware it may gain empty
  reads (time-outs) between the firmware's lines; `Protocol.Carries` says
  which raw streams carry a given output.
- **Host time stamps.** The wall-clock stamp is abstracted to the index of the
  raw line it was taken for.

## Model

| member | source | states |
|---|---|---|
| `TickCounter.Increment` | Code/radar_gpio_test/main.c:205 | `ticks_ms++` on a `uint32_t`: the result is 0 exactly for 2^32-1, and otherwise the old value plus one |
| `TickCounter.Tick` | Code/radar_gpio_test/main.c:203-209 | `systick_isr` increments the counter; the flag is set afterwards exactly when it was set before or the increment produced 0 |
| `TickCounter.Reset` | Code/radar_gpio_test/main.c:225-228 | `reset_ticks_ms` makes the count 0 and leaves `ticks_overflowed` alone |
| `TickCounter.ResetIdempotent` | Code/radar_gpio_test/main.c:225-228 | resetting twice is the same as resetting once |
| `TickCounter.TicksAfter` | Code/radar_gpio_test/main.c:203-209 | after n interrupts the counter is (start + n) mod 2^32, and the flag is set iff it was set or start + n reached 2^32 |
| `TickCounter.OverflowSticky` | Code/radar_gpio_test/main.c:206-208 | once raised, the overflow flag is never cleared by further interrupts |
| `TickCounter.ElapsedSinceReset` | Code/radar_gpio_test/main.c:138-142 | after a reset, the counter reads the number of interrupts since then, mod 2^32 |
| `RecordingToggle.Toggle` | Code/radar_gpio_test/main.c:189-192 | the button handler always changes `recording_data` |
| `RecordingToggle.ToggleTwice` | Code/radar_gpio_test/main.c:189-192 | two edges with no other write in between restore the flag |
| `RecordingToggle.TogglesParity` | Code/radar_gpio_test/main.c:189-192 | after n edges the flag has flipped exactly when n is odd |
| `RecordingToggle.ActiveAfterEdges` | Code/radar_gpio_test/main.c:38 | starting from the initial `false`, the flag is set exactly after an odd number of edges |
| `Acquisition.Digit` | Code/radar_gpio_test/main.c:152 | `%i` of a `bool` is `'1'` exactly for true and `'0'` exactly for false |
| `Acquisition.Render` | Code/radar_gpio_test/main.c:132-159 | every printed line ends in `\r\n` with no other newline; a sample line has TD's digit first and PD's digit third |
| `Acquisition.RenderInjective` | Code/radar_gpio_test/main.c:132-159 | different lines print different texts, so the text determines the line |
| `Acquisition.Emit` | Code/radar_gpio_test/main.c:152 | a `printf` appends exactly that line, stamped with the current time, and changes nothing else |
| `Acquisition.OnTick` | Code/radar_gpio_test/main.c:203-209 | a SysTick interrupt adds one to the counter mod 2^32 and one to the time, raises the flag when the counter reads 0, and changes nothing else |
| `Acquisition.OnEdge` | Code/radar_gpio_test/main.c:189-192 | a button edge negates `recording_data` and changes nothing else |
| `Acquisition.Step` | Code/radar_gpio_test/main.c:124-167 | one main-loop step: never touches the overflow flag; appends at most one line; prints a sample iff sampling with the flag set and the counter > 1000, then with the pins read and the counter 0; prints a sentinel iff a session opens (LED on, counter 0) or closes (LED off); writes the flag only back in the gap, and writes false; each of these changes nothing else; a line is stamped with the current time; does nothing while waiting with the flag clear, and nothing on a sampling pass before the counter passes 1000 |
| `Acquisition.Apply` | Code/radar_gpio_test/main.c:124-167 | one event: interrupts print nothing and leave the loop's position and the LED alone; output is only appended to; the overflow flag is never cleared |
| `Acquisition.Run` | Code/radar_gpio_test/main.c:124-167 | any sequence of events only appends to the output |
| `Acquisition.OverflowNeverCleared` | Code/radar_gpio_test/main.c:203-209 | once `ticks_overflowed` is raised, no interleaving of interrupts and loop steps clears it |
| `Acquisition.InvEmit` | Code/radar_gpio_test/main.c:132-159 | printing a sample inside an open session, far enough from the previous line, keeps samples bracketed and spaced; a sentinel opens or closes the session |
| `Acquisition.InvPowerOn` | Code/radar_gpio_test/main.c:33-38 | the initial globals satisfy the invariant |
| `Acquisition.InvTick` | Code/radar_gpio_test/main.c:203-209 | a SysTick interrupt keeps the invariant |
| `Acquisition.InvOpen` | Code/radar_gpio_test/main.c:132-138 | opening a session keeps the invariant: the counter and the time since the sentinel both start at 0 |
| `Acquisition.InvSample` | Code/radar_gpio_test/main.c:140-152 | printing a sample keeps the invariant: the counter and the time since the line both restart at 0 |
| `Acquisition.InvEdge` | Code/radar_gpio_test/main.c:189-192 | a button edge keeps the invariant |
| `Acquisition.InvStep` | Code/radar_gpio_test/main.c:124-167 | every main-loop step keeps the invariant |
| `Acquisition.InvApply` | Code/radar_gpio_test/main.c:124-167 | every event keeps the invariant |
| `Acquisition.InvRun` | Code/radar_gpio_test/main.c:124-167 | every state reached from power-on, under any interleaving of interrupts and loop steps, satisfies the invariant; while sampling, it includes that the counter equals the ticks since the last line, mod 2^32 |
| `Acquisition.SampleRate` | Code/radar_gpio_test/main.c:139-152 | under any interleaving, a pass of a recording session prints a sample, with the pins it reads, exactly when more than 1000 ticks (mod 2^32) have passed since the last line, and otherwise changes nothing |
| `Acquisition.SamplesInsideSessions` | Code/radar_gpio_test/main.c:126-159 | every sample line follows an odd number of sentinels, i.e. stands between an opening and a closing `9` |
| `Acquisition.SamplesSpaced` | Code/radar_gpio_test/main.c:138-142 | a sample line comes more than 1000 SysTick interrupts after the line before it (the previous sample or the opening sentinel) |
| `Acquisition.LedShowsSession` | Code/radar_gpio_test/main.c:133-158 | the LED is lit exactly while a session is open, i.e. while the loop is sampling |
| `Acquisition.FirstLineIsSentinel` | Code/radar_gpio_test/main.c:126-132 | the first line ever printed is the sentinel |
| `Acquisition.EdgeLostWhileStopping` | Code/radar_gpio_test/main.c:158-165 | a button edge in the gap after the closing sentinel has no effect: the flag ends false either way |
| `Acquisition.RunAppend` | Code/radar_gpio_test/main.c:124-167 | running two batches of events is running their concatenation |
| `Acquisition.RunTicking` | Code/radar_gpio_test/main.c:203-209 | interrupts alone advance only the counter and the time |
| `Acquisition.SamplesAfterPeriod` | Code/radar_gpio_test/main.c:139-152 | a session that has just reset its counter prints exactly one sample, with the pins it reads, on its first step after 1001 interrupts, and resets the counter again |
| `Acquisition.NoSampleBeforePeriod` | Code/radar_gpio_test/main.c:139-140 | with at most 1000 interrupts since the reset, the step prints nothing |
| `Acquisition.OpenSession` | Code/radar_gpio_test/main.c:126-138 | a press seen by the waiting loop prints `9`, lights the LED and resets the counter |
| `Acquisition.CloseSession` | Code/radar_gpio_test/main.c:139-165 | a press seen by the sampling loop prints `9`, turns the LED off and leaves the flag false |
| `Acquisition.SamplePeriod` | Code/radar_gpio_test/main.c:139-152 | one sampling period ends in one sample line carrying the pins read |
| `Acquisition.Scenario` | Code/radar_gpio_test/main.c:124-167 | press, two periods, press: the output is exactly `9`, `1 0`, `1 1`, `9` with LED off and flag clear |
| `Firmware.Mcu.constructor` | Code/radar_gpio_test/main.c:33-38 | the globals start at 0 / false, the LED low, the loop waiting |
| `Firmware.Mcu.SysTickIsr` | Code/radar_gpio_test/main.c:203-209 | the handler's state change is `OnTick`: counter + 1 mod 2^32, flag raised when it reads 0 |
| `Firmware.Mcu.GetTicksMs` | Code/radar_gpio_test/main.c:216-219 | returns `ticks_ms` and changes nothing |
| `Firmware.Mcu.ResetTicksMs` | Code/radar_gpio_test/main.c:225-228 | only `ticks_ms` changes, to 0 |
| `Firmware.Mcu.GpioInterruptHandler` | Code/radar_gpio_test/main.c:189-192 | only `recording_data` changes, to its negation |
| `Firmware.Mcu.Print` | Code/radar_gpio_test/main.c:152 | a `printf` appends its line to the UART output and nothing else changes |
| `Firmware.Mcu.LoopStep` | Code/radar_gpio_test/main.c:124-167 | the imperative loop step changes the globals, LED and UART exactly as `Acquisition.Step` says |
| `PyText.LeadingSpaces` | DataCollection/record_radar_data.py:32 | the number of leading whitespace characters is at most the length |
| `PyText.LeadingSpacesSpec` | DataCollection/record_radar_data.py:32 | the leading run is all whitespace and the next character is not |
| `PyText.TrimTrailing` | DataCollection/record_radar_data.py:32 | trimming never lengthens |
| `PyText.TrimTrailingSpec` | DataCollection/record_radar_data.py:32 | trimming keeps a prefix, cuts only whitespace, and leaves no whitespace at the end |
| `PyText.Strip` | DataCollection/record_radar_data.py:32 | `strip()` never lengthens |
| `PyText.StripSpec` | DataCollection/record_radar_data.py:32 | `strip()` returns the slice between all-whitespace ends, and the result neither starts nor ends with whitespace |
| `PyText.StripSlice` | DataCollection/record_radar_data.py:32 | the stripped text is the slice after the leading whitespace, and does not start with whitespace |
| `PyText.StripEnd` | DataCollection/record_radar_data.py:32 | only whitespace follows the stripped text, which does not end with whitespace |
| `PyText.StripEmpty` | DataCollection/record_radar_data.py:30-32 | a line strips to `""` exactly when it is all whitespace |
| `PyText.Split` | DataCollection/record_radar_data.py:86 | `split(" ")` gives at least one field |
| `PyText.SplitSpec` | DataCollection/record_radar_data.py:86 | the fields hold no separator, joined with it they give back the line, and there is one more field than separators |
| `PyText.SplitJoin` | DataCollection/record_radar_data.py:86 | splitting undoes joining fields that hold no separator |
| `PyText.SplitField` | DataCollection/record_radar_data.py:86 | a string without the separator splits into itself alone |
| `PyText.SplitPrefix` | DataCollection/record_radar_data.py:86 | a separator-free field, the separator and a rest split into that field followed by the rest's fields |
| `Recorder.NextLine` | DataCollection/record_radar_data.py:28-33 | a returned line, a decode error or a port failure lies at or after the start position and within the input |
| `Recorder.NextLineSpec` | DataCollection/record_radar_data.py:28-33 | `read_data` returns the first line that is not blank after `strip()`, stripped and never empty, having skipped only blank lines; it raises on the first undecodable bytes or port failure; or it polls for good when all remaining lines are blank |
| `Recorder.ReadData` | DataCollection/record_radar_data.py:28-33 | the imperative `while numbers == ""` loop returns what `NextLine` describes, and never an empty line |
| `Recorder.Receive` | DataCollection/record_radar_data.py:72-88 | `9` with `start` false sets `start` and appends nothing; `9` with `start` true clears it and ends the loop; any other line keeps `start` and is time-stamped, even before the first `9`; only `9` ends the loop normally |
| `Recorder.ReceiveFields` | DataCollection/record_radar_data.py:83-100 | a non-sentinel line goes on iff it holds exactly one space; then TD is its first field and PD its second, both space-free, one entry each; otherwise the loop ends as malformed with TD and PD unchanged |
| `Recorder.SplitTwo` | DataCollection/record_radar_data.py:86 | a line that splits into two fields is the first field, a space, and the second |
| `Recorder.ReceiveAligned` | DataCollection/record_radar_data.py:83-88 | one pass keeps the three lists equally long, except that a malformed line leaves `time_stamps` one longer |
| `Recorder.SessionAligned` | DataCollection/record_radar_data.py:83-100 | over the whole loop the lists stay equally long, except `time_stamps` is one longer after a malformed line |
| `Recorder.SessionAlignedOnLine` | DataCollection/record_radar_data.py:68-100 | the same, once `read_data` has returned a line |
| `Recorder.SessionNoLine` | DataCollection/record_radar_data.py:68-70 | when `read_data` returns no line (polling for good, undecodable bytes, or a failing port), the loop ends with the lists as they were, and not as malformed |
| `Recorder.ReceivePair` | DataCollection/record_radar_data.py:72-88 | two space-free fields joined by a space are recorded whatever `start` is |
| `Recorder.Session` | DataCollection/record_radar_data.py:68-100 | the whole loop from a raw position: when it ends on the sentinel, `start` is false |
| `Recorder.SessionOnLine` | DataCollection/record_radar_data.py:68-100 | after `read_data` returns a line, the loop goes on from the next raw line or stops, as the dispatch of that line says |
| `Recorder.Dispatch` | DataCollection/record_radar_data.py:72-88 | the imperative `if`/`elif`/append/split body does what `Receive` says |
| `Recorder.RecordRadarData` | DataCollection/record_radar_data.py:66-100 | the imperative `while True` loop ends with the lists, flag and reason that `Session` describes |
| `Protocol.Wire` | DataCollection/record_radar_data.py:31 | with no time-out, `readline()` delivers one raw line per firmware `printf`, with that line's exact text |
| `Protocol.Carries` | DataCollection/record_radar_data.py:31 | `readline()` under the 0.1 s time-out: a raw stream carries the output when line i arrives whole at raw position `at[i]`, in order, after nothing but blank reads; its contract gives one raw position per line |
| `Protocol.WireCarries` | DataCollection/record_radar_data.py:31 | the raw stream with no empty reads carries the output, line i at raw position i |
| `Protocol.CarriesPadded` | DataCollection/record_radar_data.py:31 | an empty read inserted at any raw position still carries the same output, the lines after it one position later |
| `Protocol.ArrivesPadded` | DataCollection/record_radar_data.py:31 | after such an insertion each line still arrives whole after nothing but blank reads |
| `Protocol.BlankPadded` | DataCollection/record_radar_data.py:28-33 | a stretch of blank reads stays blank when an empty read is inserted into or next to it |
| `Protocol.SkipBlank` | DataCollection/record_radar_data.py:28-33 | `read_data` skips a stretch of blank reads: it returns what it would return after them |
| `Protocol.PinText` | DataCollection/record_radar_data.py:87-88 | a stored pin is `"1"` exactly for high and `"0"` exactly for low |
| `Protocol.SentinelRoundTrip` | DataCollection/record_radar_data.py:32 | the firmware's `9 \r\n` strips to `9` |
| `Protocol.SampleStrip` | DataCollection/record_radar_data.py:32 | `%i %i \r\n` strips to TD's digit, a space, PD's digit |
| `Protocol.SampleRoundTrip` | DataCollection/record_radar_data.py:86 | a stripped sample line is not `9` and splits into exactly TD's field then PD's |
| `Protocol.ReadCarried` | DataCollection/record_radar_data.py:28-33 | on a raw stream carrying the firmware's output, `read_data` returns each line in turn, stripped, with the raw position it arrived at, or waits at the end |
| `Protocol.RunEnd` | DataCollection/record_radar_data.py:76-80 | the first sentinel at or after a position, with only sample lines before it |
| `Protocol.Range` | DataCollection/record_radar_data.py:83-84 | the raw positions of the lines when there are no empty reads: 0, 1, 2, ... in order |
| `Protocol.ReadBackSample` | DataCollection/record_radar_data.py:83-88 | reading a sample line appends its time stamp and pins, then reading goes on from the next line |
| `Protocol.ReadBackStops` | DataCollection/record_radar_data.py:76-80 | at the end of the output, or at a sentinel while recording, nothing more is appended |
| `Protocol.HostReadsSentinel` | DataCollection/record_radar_data.py:76-80 | a sentinel read while recording ends the loop with nothing appended |
| `Protocol.SampleLine` | DataCollection/record_radar_data.py:83-88 | a sample line appends its time stamp, its TD and its PD, and the loop goes on from the next raw line |
| `Protocol.HostReadsEnd` | DataCollection/record_radar_data.py:28-33 | past the last line only blank reads remain, and the loop keeps polling with nothing appended |
| `Protocol.HostReadsRun` | DataCollection/record_radar_data.py:68-100 | once recording, the script stores every sample up to the next sentinel, TD and PD in order, and ends on that sentinel, or keeps waiting if there is none |
| `Protocol.HostReadsOutput` | DataCollection/record_radar_data.py:66-100 | on a raw stream carrying output that opens with a sentinel, the script stores exactly the pins and raw positions of the first session's samples, and never stops as malformed or undecodable |
| `Protocol.OpeningSentinel` | DataCollection/record_radar_data.py:72-75 | the opening `9`, read from a fresh start, sets `start`, appends nothing, and the loop goes on from the next raw line |
| `Protocol.ReadBackFresh` | DataCollection/record_radar_data.py:83-88 | reading from line 1 with nothing recorded yet stores just the first session's columns and raw positions |
| `Protocol.EndToEnd` | DataCollection/record_radar_data.py:66-100 | for every interleaving of interrupts, presses and pin values, and any empty reads between the lines, the script parses all the firmware's output: it stores the TD and PD pins of the first session's samples, stamped with their raw positions, and stops on the closing sentinel, or waits if the session is still open |
| `Protocol.ColumnsOfSamples` | DataCollection/record_radar_data.py:87-88 | the stored columns have one entry per sample, each the pin of that sample |

## Left out

- Board, watchdog, retarget-io, SysTick and GPIO set-up, and `handle_error`'s halt (main.c lines 60-115 and 177-184). These are vendor HAL calls whose effect is not visible to the loop.
- The real-time meaning of a tick (8 MHz IMO / 1000) and the 10 ms `cyhal_system_delay_ms` poll. Ticks and polls are abstract events; `now` counts interrupts, not milliseconds.
- The `PRINT_DEBUG_MSG` output. It is a compile-time switch that is off.
- Interrupts arriving in the middle of a main-loop step. Opening a session and one pass of the sampling loop are each one atomic step, and the final write of `false` is a step of its own. Making a pass atomic differs from the C code in three ways, listed next.
- Acquisition.Step: a SysTick that wraps `ticks_ms` from 2^32-1 between the test at main.c:140 and the reset at main.c:142 prints a sample, leaves the counter 0 and raises `ticks_overflowed`. An atomic pass does the test and the reset with no tick between them, so the flag stays low there.
- Acquisition.SamplesSpaced: the spacing holds between the counter resets, and a line's stamp is the time of its reset (main.c:142). In the C code a SysTick can fall between the reset and the `printf` at main.c:152, so two printed lines can be exactly 1000 ticks apart.
- The globals at main.c:33-38 are not `volatile`, so a compiler may keep them in registers inside the polling loops. The model assumes that every pass reads them again.
- The global `uart_read_value`. It is never used.
- Serial port discovery and the pyserial settings (record_radar_data.py lines 18-26 and 49-65).
- Wall-clock time stamps. `get_time` is replaced by the index of the raw line the stamp was taken for.
- `KeyboardInterrupt`, which comes from outside the input.
- The printing on the host side and `close_serial_port`.
- `setDirectory`, directory creation and the pandas CSV file (lines 103-112). These are file-system I/O and a foreign library.
- UTF-8 decoding. A raw line is text that decodes (`Text`), bytes that do not (`BadBytes`), or the port's failure (`PortError`, the `SerialException` that `readline()` raises when the port goes away).
- Protocol.EndToEnd: the script is taken to be reading before the firmware prints its first line. `reset_input_buffer()` (record_radar_data.py:65) drops whatever arrived earlier. A script started in the middle of a session records the rest of that session without a `start` check, takes its closing `9` for an opening one, and ends on the next session's opening `9`. The model does not state this case.
- Partial lines. With the 0.1 s time-out, `readline()` returns the bytes read so far, which can be empty or part of a line. Empty reads are modelled: they strip to `""` and are skipped, and `Protocol.EndToEnd` holds for any raw stream that adds them between the firmware's lines. A line split across two reads is not modelled: each firmware line is taken to arrive whole.
- Recorder.NextLine: when no further line ever arrives, the real `read_data` does not block. It keeps polling, gets `b""` after each time-out, and never returns. The model returns `NoMore`, and the loop ends as `Exhausted`, which stands for this endless polling.
- Firmware.Mcu.LoopStep: the model does not read the pins. TD and PD are parameters, namely the values `cyhal_gpio_read` returns in that step.
- `main` also writes `false` to `recording_data` at main.c:165, after every session. So the button handler is not its only writer, and `Acquisition.EdgeLostWhileStopping` shows the consequence.
