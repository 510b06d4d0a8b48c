/**
 * The controller's process-wide state and the routines that update it: the
 * watchdog guard, the per-sample telemetry line, the command recogniser and
 * the pause handler. The hardware is reached through the object's fields:
 * the serial receive buffer (`input`), the lines printed (`output`) and a
 * count of watchdog refreshes; `analogRead` results arrive as parameters.
 */
module Globals {
  import opened Avr
  import opened Commands
  import Telemetry

  /** The line the pause handler prints when it has seen the pause command. */
  const PAUSE_NOTICE: string := "COMMAND: Pause"

  class Controller {
    /** `reboot_`: once set, the watchdog is left to expire and reset the board. */
    var reboot: bool
    /** `paused_` */
    var paused: bool
    /** `flipped_`: initialised here, used by the experiment sequencing. */
    var flipped: bool
    /** `CS_plus`: the current trial is a CS+ trial (paired with the puff). */
    var csPlus: bool
    /** `trialNum`: set by the experiment sequencing. */
    var trialNum: Int16
    /** `prevTwoTrials`: the trial numbers seen by the last two samples, most recent last. */
    var prevTwoTrials: array<Int16>
    /** `nextProbeIn`: countdown to the next probe trial. */
    var nextProbeIn: Int16
    /** `CS_fraction`, `status`, `CS_TONE_1`, `CS_TONE_2`, `trialTime`: initialised here only. */
    var csFraction: Uint16
    var status: string
    var csTone1: Uint16
    var csTone2: Uint16
    var trialTime: Int32
    /** `status_`: the phase label printed in every telemetry line, held in a `char[5]`. */
    var phase: string

    /** `totalTrials`, a configuration constant. */
    const totalTrials: Int16
    /** `PAUSE_COMMAND`, a configuration constant. */
    const pauseCommand: seq<Byte>

    /** Bytes received on the serial port and not yet read. */
    var input: seq<Byte>
    /** Lines written with `Serial.println`, oldest first. */
    var output: seq<string>
    /** How many times the hardware watchdog has been refreshed. */
    ghost var watchdogRefreshes: nat

    ghost predicate Valid()
      reads this`prevTwoTrials, this`phase
    {
      prevTwoTrials.Length == 2 && |phase| <= 4 && pauseCommand != []
    }

    /** The state at boot. */
    constructor (totalTrials: Int16, pauseCommand: seq<Byte>)
      requires pauseCommand != []
      ensures Valid() && fresh(prevTwoTrials)
      ensures !reboot && !paused && !flipped && !csPlus
      ensures trialNum == 0 && prevTwoTrials[..] == [0, 0] && nextProbeIn == 0
      ensures csFraction == 1 && status == "000" && csTone1 == 4500 && csTone2 == 11000
      ensures trialTime == 0 && phase == "PRE_"
      ensures this.totalTrials == totalTrials && this.pauseCommand == pauseCommand
      ensures input == [] && output == [] && watchdogRefreshes == 0
    {
      reboot, paused, flipped, csPlus := false, false, false, false;
      trialNum := 0;
      prevTwoTrials := new Int16[2] [0, 0];
      nextProbeIn := 0;
      csFraction := 1;
      status := "000";
      csTone1, csTone2 := 4500, 11000;
      trialTime := 0;
      phase := "PRE_";
      this.totalTrials := totalTrials;
      this.pauseCommand := pauseCommand;
      input, output := [], [];
      watchdogRefreshes := 0;
    }

    /** Bytes arriving on the serial link are appended to the receive buffer. */
    method Receive(bytes: seq<Byte>)
      modifies this`input
      ensures input == old(input) + bytes
    {
      input := input + bytes;
    }

    /** `reset_watchdog`: refresh the watchdog unless a reboot has been requested. */
    method ResetWatchdog()
      modifies this`watchdogRefreshes
      ensures watchdogRefreshes == old(watchdogRefreshes) + (if reboot then 0 else 1)
    {
      if !reboot {
        watchdogRefreshes := watchdogRefreshes + 1;
      }
    }

    /** The values one telemetry line reports, with the three readings supplied. */
    function CurrentSample(data: Int16, timestamp: Uint32,
                           tone: AnalogReading, puff: AnalogReading, led: AnalogReading): Telemetry.Sample
      reads this`trialNum, this`csPlus, this`nextProbeIn, this`phase
    {
      Telemetry.Sample(timestamp, data, trialNum, totalTrials, csPlus, nextProbeIn, tone, puff, led, phase)
    }

    /**
     * `write_data_line`: record the current trial number in the two-entry
     * history, count down to the next probe when a new CS+ trial has begun,
     * and print one telemetry line. `tone`, `puff` and `led` are what the
     * three `analogRead` calls return.
     */
    method WriteDataLine(data: Int16, timestamp: Uint32,
                         tone: AnalogReading, puff: AnalogReading, led: AnalogReading)
      requires Valid()
      modifies prevTwoTrials, this`nextProbeIn, this`output
      ensures Valid()
      ensures prevTwoTrials[0] == old(prevTwoTrials[1]) && prevTwoTrials[1] == trialNum
      ensures nextProbeIn == if trialNum > old(prevTwoTrials[1]) && csPlus
                             then Dec16(old(nextProbeIn)) else old(nextProbeIn)
      ensures output == old(output) + [Telemetry.FormatLine(CurrentSample(data, timestamp, tone, puff, led))]
    {
      prevTwoTrials[0] := prevTwoTrials[1];
      prevTwoTrials[1] := trialNum;
      if prevTwoTrials[1] > prevTwoTrials[0] && csPlus {
        nextProbeIn := Dec16(nextProbeIn);
      }
      var msg := Telemetry.FormatLine(CurrentSample(data, timestamp, tone, puff, led));
      output := output + [msg];
    }

    /**
     * `is_command_read`: report whether `command` has arrived; see
     * `CommandRead` for what it consumes. It returns at once when nothing is
     * pending or the next byte differs; otherwise `Stream::find` may wait up
     * to the stream timeout, which is not represented here.
     */
    method IsCommandRead(command: seq<Byte>, consume: bool) returns (found: bool)
      modifies this`input
      ensures Scan(found, input) == CommandRead(old(input), command, consume)
    {
      var firstChar := FirstChar(command);
      if input == [] {
        return false;
      }
      if firstChar == input[0] {
        var r := Find(input, command);
        input := r.rest;
        if r.found {
          return true;
        }
      }
      if consume {
        input := DropOne(input);
      }
      return false;
    }

    /** `check_for_pause`: latch `paused` and announce it once the pause command is read. */
    method CheckForPause()
      modifies this`input, this`output, this`paused
      ensures var r := CommandRead(old(input), pauseCommand, true);
        && input == r.rest
        && paused == (old(paused) || r.found)
        && output == old(output) + (if r.found then [PAUSE_NOTICE] else [])
    {
      var seen := IsCommandRead(pauseCommand, true);
      if seen {
        output := output + [PAUSE_NOTICE];
        paused := true;
      }
    }
  }

  /**
   * Two samples taken while the trial number stays the same: only the first
   * can count the probe countdown down, because it has already recorded the
   * trial number that the second one compares against.
   */
  method SampleTwice(c: Controller, data: Int16, first: Uint32, second: Uint32,
                     tone: AnalogReading, puff: AnalogReading, led: AnalogReading)
    requires c.Valid()
    modifies c.prevTwoTrials, c`nextProbeIn, c`output
    ensures c.Valid()
    ensures c.prevTwoTrials[0] == c.prevTwoTrials[1] == c.trialNum
    ensures c.nextProbeIn == if c.trialNum > old(c.prevTwoTrials[1]) && c.csPlus
                             then Dec16(old(c.nextProbeIn)) else old(c.nextProbeIn)
    ensures c.output == old(c.output) + [Telemetry.FormatLine(c.CurrentSample(data, first, tone, puff, led)),
                                         Telemetry.FormatLine(c.CurrentSample(data, second, tone, puff, led))]
  {
    c.WriteDataLine(data, first, tone, puff, led);
    ghost var firstSample := c.CurrentSample(data, first, tone, puff, led);
    ghost var firstLine := Telemetry.FormatLine(firstSample);
    c.WriteDataLine(data, second, tone, puff, led);
    assert c.CurrentSample(data, first, tone, puff, led) == firstSample;
    ghost var secondLine := Telemetry.FormatLine(c.CurrentSample(data, second, tone, puff, led));
    assert c.output == old(c.output) + [firstLine] + [secondLine];
  }

  /**
   * From boot, ten samples of consecutive CS+ trials 0, 1, ..., 9: the first
   * sample sees no increase over the boot value 0, each later one counts down
   * the probe countdown once, nine times in all.
   */
  method ProbeCountdownScenario() returns (countdown: int)
    ensures countdown == -9
  {
    var c := new Controller(40, PAUSE);
    c.csPlus := true;
    var i := 0;
    while i < 10
      invariant 0 <= i <= 10
      invariant c.Valid() && fresh(c) && fresh(c.prevTwoTrials) && c.csPlus
      invariant c.prevTwoTrials[1] == if i == 0 then 0 else i - 1
      invariant c.nextProbeIn == if i == 0 then 0 else 1 - i
    {
      c.trialNum := i;
      c.WriteDataLine(0, 0, 0, 0, 0);
      i := i + 1;
    }
    countdown := c.nextProbeIn;
  }

  /**
   * A stray byte ahead of "PAUSE" costs one poll; the next poll pauses the
   * controller and announces it once, and a further poll changes nothing.
   */
  method PauseScenario() returns (paused: bool, printed: seq<string>, left: seq<Byte>)
    ensures paused && printed == [PAUSE_NOTICE] && left == []
  {
    var c := new Controller(40, PAUSE);
    c.Receive([120] + PAUSE);
    assert c.input == [120] + PAUSE;
    StrayByteBeforePause();
    c.CheckForPause();
    assert !c.paused && c.input == PAUSE && c.output == [];
    c.CheckForPause();
    assert c.paused && c.input == [] && c.output == [PAUSE_NOTICE];
    c.CheckForPause();
    paused, printed, left := c.paused, c.output, c.input;
  }
}
