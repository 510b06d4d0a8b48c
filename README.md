# Eye-blink conditioning controller: trial and command core

This project is a Dafny model of the trial/command controller of the eye-blink
conditioning rig firmware (`src/eye_blink_main/Globals.cpp`, an Arduino sketch
for an AVR board). That file holds the process-wide globals of the experiment
and four routines over them:

- `reset_watchdog` refreshes the hardware watchdog unless `reboot_` has been
  set. Once `reboot_` is set, the watchdog expires and resets the board.
- `write_data_line` runs once per sample. It shifts the two-entry history
  `prevTwoTrials` and counts `nextProbeIn` down when `trialNum` exceeds the
  trial number recorded by the previous sample and `CS_plus` is set. Then it prints one fixed-layout telemetry line with
  `sprintf("%6lu,%5d,%3d,%3d,%2d,%2d,%1d,%1d,%1d,%s", ...)`.
- `is_command_read` checks whether a command keyword sits in the serial
  receive buffer. It peeks one byte and returns at once when nothing is
  pending or that byte is not the command's first byte, dropping the byte if
  asked to. Otherwise it hands over to `Stream::find`, which may wait up to
  the stream timeout; the model does not represent that wait.
- `check_for_pause` latches `paused_` and prints `COMMAND: Pause` when the
  pause command has been read.

Layout:

- `avr.dfy` (module `Avr`): the AVR's C integer types as subset types. These
  are `Int16` for `int`, `Uint16` for `unsigned int`, `Int32` for `long` and
  `Uint32` for `unsigned long`. `AnalogReading` is the 0..1023 result of
  `analogRead`. `Dec16` is a 16-bit decrement.
- `telemetry.dfy` (module `Telemetry`): the telemetry line as a pure function
  of a `Sample`. A parser (`ParseLine`) is its inverse.
- `commands.dfy` (module `Commands`): `Stream::find` and `is_command_read` as
  pure functions on the pending bytes, plus conditions on command sets.
- `globals.dfy` (module `Globals`): the class `Controller`.
  - It has one field per global of the source.
  - The serial receive buffer is the field `input`. The lines printed are the
    field `output`. The watchdog refreshes are counted by the ghost field
    `watchdogRefreshes`.
  - Each routine is a method with a field-level `modifies` frame, so what it
    does not name keeps its value.
  - A few client methods run the routines in sequence.
- `wrappers.dfy` (module `Wrappers`): an `Option` type.

Collaborators outside the program are modelled as follows:

- `wdt_reset()` becomes one more count in `watchdogRefreshes`.
- The three `analogRead` calls become method parameters.
- `Serial.available`, `Serial.peek`, `Serial.read` and `Serial.find` read the
  byte sequence `input`. `Serial.println` appends one string to `output`.
  `Controller.Receive` stands for bytes arriving on the link.
- `totalTrials` and `PAUSE_COMMAND` come from `Globals.h`, which is not part
  of this model. They are constructor parameters, and the pause command must
  be non-empty.

Modelling notes. Where the code and its own comments differ, the model
follows the code:

- The comment on `CS_plus` (src/eye_blink_main/Globals.cpp:8-9) speaks of
  setting it to 1 with some probability. The model keeps it as the `bool` it
  is declared as and treats its value as given state.
- The comment on `is_command_read` (src/eye_blink_main/Globals.cpp:54-61)
  says it returns true if the command is on the serial port. The code hands
  over to `Stream::find` once the first byte matches. That search reads past
  bytes of other commands, and a failed search leaves no pending byte at all,
  not just one fewer. `CommandRead` states this.

Other modelling choices:

- The status label `status_` is a `char[5]`, so the model allows any label of
  at most four characters.
- The history starts as `{0, 0}`, so the first sample of trial 0 does not
  count down while a first trial of 1 would. `ProbeCountdownScenario` uses
  trials 0..9 and so counts down nine times in ten samples.

## Model

| member | source | states |
|---|---|---|
| `Globals.Controller.constructor` | src/eye_blink_main/Globals.cpp:4-22 | every global starts at its initial value: flags false, `trialNum` 0, `prevTwoTrials` {0, 0}, `nextProbeIn` 0, `CS_fraction` 1, `status` "000", tones 4500 and 11000, `trialTime` 0, `status_` "PRE_" |
| `Globals.Controller.ResetWatchdog` | src/eye_blink_main/Globals.cpp:24-30 | the watchdog is refreshed exactly once when `reboot_` is false and not at all when it is true; no global changes, `reboot_` included |
| `Globals.Controller.WriteDataLine` | src/eye_blink_main/Globals.cpp:32-52 | afterwards `prevTwoTrials[1] == trialNum` and `prevTwoTrials[0]` is the old `prevTwoTrials[1]`. `nextProbeIn` counts down once exactly when `trialNum` exceeds the old `prevTwoTrials[1]` and the trial is CS+, and is otherwise unchanged. Exactly one line is appended: the formatted sample holding the new countdown. Nothing else changes |
| `Globals.Controller.IsCommandRead` | src/eye_blink_main/Globals.cpp:62-83 | the result and the remaining input bytes are exactly those `CommandRead` gives for the bytes that were pending |
| `Globals.Controller.CheckForPause` | src/eye_blink_main/Globals.cpp:88-95 | `paused_` becomes true exactly when the pause command is read and is never cleared. `COMMAND: Pause` is printed exactly then. The input advances as `CommandRead` says |
| `Globals.SampleTwice` | src/eye_blink_main/Globals.cpp:36-44 | of two samples with an unchanged trial number, only the first can count down; afterwards both history entries equal `trialNum`, and exactly two lines were appended: the first sample's line, then the second's, both showing the countdown after the first sample |
| `Globals.ProbeCountdownScenario` | src/eye_blink_main/Globals.cpp:36-44 | from boot, ten samples of CS+ trials 0..9 leave `nextProbeIn` at -9, nine decrements in all |
| `Globals.PauseScenario` | src/eye_blink_main/Globals.cpp:62-95 | with one stray byte before "PAUSE", the first poll drops that byte. The second poll pauses and prints one notice. A third poll changes nothing |
| `Commands.CharValue` | src/eye_blink_main/Globals.cpp:65 | `command[0]` read through the AVR's signed `char` lies in -128..127 and equals the byte exactly when the byte is ASCII; bytes 128..255 become negative and can never equal a peeked byte |
| `Commands.FirstChar` | src/eye_blink_main/Globals.cpp:65 | the peeked-for value is a signed `char`: 0 (the terminator) for an empty command, and otherwise equal to the first byte exactly when that byte is ASCII |
| `Commands.IndexOf` | src/eye_blink_main/Globals.cpp:74 | the result is the first position where the command occurs; no result means it occurs nowhere |
| `Commands.Find` | src/eye_blink_main/Globals.cpp:74 | `Stream::find` succeeds iff the target occurs in the pending bytes. On success it consumes through the end of the first occurrence. On failure (its timeout) it consumes everything |
| `Commands.DropOne` | src/eye_blink_main/Globals.cpp:80-81 | `Serial.read` leaves one byte fewer when any is pending and nothing from an empty buffer, and what is left is a suffix of what was pending, so the byte removed is the first |
| `Commands.FindLeavesSuffix` | src/eye_blink_main/Globals.cpp:74 | `Stream::find` only takes bytes from the front: what it leaves is a suffix of what was pending |
| `Commands.FindAtFront` | src/eye_blink_main/Globals.cpp:65-74 | when an ASCII command waits at the very front, the peeked byte equals its first character and `Stream::find` succeeds, consuming exactly the command's bytes |
| `Commands.CommandRead` | src/eye_blink_main/Globals.cpp:62-83 | with nothing pending: false and nothing consumed. With a different next byte: false, dropping exactly that byte iff `consume`. With the whole ASCII command at the front: true, consuming exactly its bytes. With a matching next byte: true iff the command occurs anywhere in the pending bytes, and on false every pending byte has been read. Any match ends at the first occurrence of the command. Bytes are only taken from the front |
| `Commands.StrayByteBeforePause` | src/eye_blink_main/Globals.cpp:62-83 | with "xPAUSE" pending, a consuming poll for "PAUSE" drops the "x" and fails; the next poll recognises "PAUSE" and leaves nothing |
| `Commands.RecognisedAfterNoise` | src/eye_blink_main/Globals.cpp:78-82 | repeated consuming polls drop bytes that cannot start the command one per call, and recognise the command on the call after the last of them |
| `Commands.DistinctFirstBytesArePrefixFree` | src/eye_blink_main/Globals.cpp:54-56 | commands with distinct first bytes are prefix-free |
| `Commands.SharedFirstByteSwallowsCommand` | src/eye_blink_main/Globals.cpp:54-76 | for the prefix-free set {"PAUSE", "PLAY"}, polling "PLAY" while "PAUSE" waits consumes all of "PAUSE", and the following "PAUSE" poll fails |
| `Commands.DistinctFirstBytesKeepCommand` | src/eye_blink_main/Globals.cpp:54-76 | when no two commands share a first byte, a non-consuming poll for another command leaves a waiting command untouched, and its own poll recognises it and consumes exactly its bytes. A consuming poll for another command drops the waiting command's first byte, which is why the consuming poll must come last |
| `Avr.Dec16` | src/eye_blink_main/Globals.cpp:44 | `nextProbeIn -= 1` on a 16-bit `int` gives the 16-bit value congruent to the old value minus one modulo 2^16, so -32768 wraps to 32767 |
| `Telemetry.Digits` | src/eye_blink_main/Globals.cpp:46 | the decimal conversion is a non-empty digit string whose first digit is 0 only for the number 0 |
| `Telemetry.DigitsRoundTrip` | src/eye_blink_main/Globals.cpp:46 | the digits denote the number they were printed from |
| `Telemetry.DigitsLength` | src/eye_blink_main/Globals.cpp:46 | a number takes at most k digits iff it is below 10^k |
| `Telemetry.IntToString` | src/eye_blink_main/Globals.cpp:46 | `%d` output starts with a minus sign iff the value is negative; the rest is digits |
| `Telemetry.IntToStringRoundTrip` | src/eye_blink_main/Globals.cpp:46 | reading a `%d` rendering gives the value back |
| `Telemetry.PadLeft` | src/eye_blink_main/Globals.cpp:46 | a field of minimum width w has length max(w, length of the text) |
| `Telemetry.PadLeftJustifies` | src/eye_blink_main/Globals.cpp:46 | the field ends with the whole text, never cut, and only spaces come before it |
| `Telemetry.Field` | src/eye_blink_main/Globals.cpp:46 | a numeric field is at least its width long, since a printf width is a minimum and never truncates |
| `Telemetry.FieldRoundTrip` | src/eye_blink_main/Globals.cpp:46 | a right-justified numeric field reads back as the number printed into it |
| `Telemetry.FieldWidth` | src/eye_blink_main/Globals.cpp:46 | a field is at least its width long, and exactly its width iff the value fits that width |
| `Telemetry.Flag` | src/eye_blink_main/Globals.cpp:46-48 | `CS_plus`, promoted to `int` for `%2d`, prints as 1 exactly when it is true and as 0 otherwise |
| `Telemetry.FieldsOf` | src/eye_blink_main/Globals.cpp:46-49 | there are ten fields, the last being `status_` unchanged |
| `Telemetry.FieldsReadBack` | src/eye_blink_main/Globals.cpp:46-49 | each of the first nine fields reads back as the argument printed into it, in argument order: timestamp, data, `trialNum`, `totalTrials`, `CS_plus`, `nextProbeIn`, tone, puff, led |
| `Telemetry.FormatLine` | src/eye_blink_main/Globals.cpp:46-49 | the line is longer than `status_` and has a comma right before the place `status_` takes at its end. With `FormatLineJoinsFields`, `LineRoundTrip` and `LineLength` below: the line is the ten fields comma-joined, parses back to the sample, and is exactly 37 characters, and so fits `msg[40]`, when every value fits its width; otherwise it is longer |
| `Telemetry.FormatLineJoinsFields` | src/eye_blink_main/Globals.cpp:46-50 | the line is the ten fields in order, separated by exactly nine commas |
| `Telemetry.SplitJoin` | src/eye_blink_main/Globals.cpp:46 | cutting comma-joined, comma-free fields at their commas recovers the fields |
| `Telemetry.LineRoundTrip` | src/eye_blink_main/Globals.cpp:46-50 | every line parses back into the sample it was printed from, provided the status label holds no comma |
| `Telemetry.LineLength` | src/eye_blink_main/Globals.cpp:34-50 | with a four-character label the line is at least 37 characters long. It is exactly 37, which with the terminator fits `msg[40]`, iff every value fits its width |
| `Telemetry.ExampleLine` | src/eye_blink_main/Globals.cpp:46-50 | (123, 7, 4, 40, CS+, 2, 3, 0, 1, "CS__") prints as `   123,    7,  4, 40, 1, 2,3,0,1,CS__` |
| `Telemetry.LineOverflowsMsg` | src/eye_blink_main/Globals.cpp:34-50 | readings of 1023 give a 46-character line, which overruns `msg[40]` |
| `Telemetry.LineFitsWideMsg` | src/eye_blink_main/Globals.cpp:34-50 | every line the AVR's value ranges allow fits, with its terminator, in 62 bytes |

## Left out

- `shutoff_cs` (src/eye_blink_main/Globals.cpp:97-102) only calls `noTone` and `digitalWrite`. The model has no tone or pin state to state anything about.
- The watchdog hardware, the ADC and the serial transport are not modelled. The model keeps only the refresh count, the readings as parameters, and the byte and line sequences.
- Commands.Find: `Stream::find` waits up to its timeout for more bytes. The model treats the pending bytes as all there will be. It also compares bytes as unsigned values and assumes an exact first-occurrence search; Arduino's incremental matcher is not modelled.
- `Serial.println` also sends a line terminator. The log keeps lines without it.
- Commands.CommandRead: a command in the source is a C string and ends at its first 0 byte. The model's command is a byte sequence that may contain 0, which the source cannot pass; for such commands `Stream::find` would search only up to the 0.
- The `sprintf` overrun of `msg` is undefined behaviour. The model's `WriteDataLine` prints the whole line, as a large enough buffer would (see Findings).
- Avr.Dec16: signed overflow is undefined in C++. The model picks avr-gcc's two's-complement wrap-around.
- The random CS+/CS- assignment, the setting of `trialNum`, `status_` and `nextProbeIn`'s reload belong to the experiment sequencing in other files. `CS_plus`, `trialNum` and `status_` are treated as given state.
- `flipped_`, `CS_fraction`, `status`, `CS_TONE_1/2` and `trialTime` are only initialised in this file. The model records their initial values.
- `Globals.h` is not part of this model. The pin numbers it declares matter only to `analogRead`, whose results are parameters.

## Findings

| source | as written | input that shows it | evidently intended | confidence | as-written member | corrected member |
|---|---|---|---|---|---|---|
| src/eye_blink_main/Globals.cpp:34-50 | `sprintf` writes into `char msg[40]` with no bound. The field widths are minimums, so an `analogRead` result of 10 or more, a timestamp of 1000000 or more, or a countdown of -10 or below widens the line | tone = puff = led = 1023, every other value fitting its width: 46 characters plus the terminator, 47 bytes | the whole line fits its buffer. 62 bytes hold every line the AVR's value ranges allow | medium, not executed (depends on readings of 10 or more on those pins) | `Telemetry.LineOverflowsMsg` | `Telemetry.LineFitsWideMsg` |
| src/eye_blink_main/Globals.cpp:54-76 | the comment asks only that commands be prefix-free. After one peeked byte, `Stream::find` reads on until it finds the command or the input runs out | commands "PAUSE" and "PLAY", input "PAUSE", polled for "PLAY" first: all five bytes are read away, and the "PAUSE" poll then fails | a poll that does not consume on a mismatch never consumes another command. The source's own rule (src/eye_blink_main/Globals.cpp:78-79) is to consume only when no other rule matches, so the consuming poll comes last. Under that rule this holds when no two commands share a first byte, a condition that implies prefix-freedom | medium, not executed (this file registers only the pause command) | `Commands.SharedFirstByteSwallowsCommand` | `Commands.DistinctFirstBytesKeepCommand` |
