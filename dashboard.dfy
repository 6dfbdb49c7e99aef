/**
 * The simulation controller: the dashboard's session state as one object.
 * Start and Stop flip the running flag; while running, every pass of the
 * script generates one reading, which bumps the tick counter, and appends it
 * to the history; the report section recomputes the summary from the newest
 * reading.
 *
 * The heart-rate and temperature samples come from sine waves, uniform noise
 * and float rounding, and the oxygen offset from a random integer; all three
 * are parameters here.
 */
module Dashboard {
  import opened Vitals
  import opened Generator
  import opened Summary
  import opened HistoryBuffer

  /** The placeholder summary shown before any reading exists. */
  const WaitingMessage: string := "Waiting for data to generate health summary..."

  class Monitor {
    const history: History
    var running: bool
    /** The generator's phase counter `x`. */
    var counter: int
    /** The summary currently displayed. */
    var report: string

    /** The history is consistent and one reading was appended per generation step. */
    ghost predicate Valid()
      reads this, history
    {
      history.Valid() && counter == |history.allHeartRate|
    }

    /** The session state on first load: stopped, counter 0, no readings, placeholder summary. */
    constructor ()
      ensures Valid() && fresh(history)
      ensures !running && counter == 0 && report == WaitingMessage
      ensures history.Size() == 0 && history.allHeartRate == []
    {
      history := new History();
      running := false;
      counter := 0;
      report := WaitingMessage;
    }

    /** The Start button. */
    method Start()
      requires Valid()
      modifies this
      ensures Valid()
      ensures running
      ensures counter == old(counter) && report == old(report)
    {
      running := true;
    }

    /** The Stop button. */
    method Stop()
      requires Valid()
      modifies this
      ensures Valid()
      ensures !running
      ensures counter == old(counter) && report == old(report)
    {
      running := false;
    }

    /**
     * generate_sensor_data: advances the counter by one and returns the
     * reading, with oxygen clamped into [90, 100].
     */
    method GenerateSensorData(heartRate: int, temperature: real, oxygenOffset: int) returns (r: Reading)
      modifies this
      ensures counter == old(counter) + 1
      ensures running == old(running) && report == old(report)
      ensures r == Reading(heartRate, temperature, OxygenReading(oxygenOffset))
      ensures MinOxygen <= r.oxygen <= MaxOxygen
    {
      counter := counter + 1;
      var oxygen := OxygenReading(oxygenOffset);
      r := Reading(heartRate, temperature, oxygen);
    }

    /**
     * The simulation block at the end of the script: only while running,
     * generate one reading and append it to the history. While stopped,
     * nothing changes.
     */
    method Tick(heartRate: int, temperature: real, oxygenOffset: int)
      requires Valid()
      modifies this, history
      ensures Valid()
      ensures running == old(running) && report == old(report)
      ensures !old(running) ==> counter == old(counter) && unchanged(history)
      ensures old(running) ==>
                && counter == old(counter) + 1
                && history.allHeartRate == old(history.allHeartRate) + [heartRate]
                && history.allTemperature == old(history.allTemperature) + [temperature]
                && history.allOxygen == old(history.allOxygen) + [OxygenReading(oxygenOffset)]
                && history.heartRate == LastN(old(history.heartRate) + [heartRate], Capacity)
                && history.temperature == LastN(old(history.temperature) + [temperature], Capacity)
                && history.oxygen == LastN(old(history.oxygen) + [OxygenReading(oxygenOffset)], Capacity)
                && history.Size() > 0
                && history.Latest() == Reading(heartRate, temperature, OxygenReading(oxygenOffset))
    {
      if running {
        var r := GenerateSensorData(heartRate, temperature, oxygenOffset);
        history.Append(r.heartRate, r.temperature, r.oxygen);
      }
    }

    /** The report section: with at least one reading, the summary of the newest one. */
    method RefreshReport()
      requires Valid()
      modifies this
      ensures Valid()
      ensures running == old(running) && counter == old(counter)
      ensures history.Size() > 0 ==> report == Report(history.Latest())
      ensures history.Size() == 0 ==> report == old(report)
    {
      if history.Size() > 0 {
        report := Report(history.Latest());
      }
    }

    /**
     * One pass of the script from top to bottom: the report section runs
     * before the simulation block, so the summary describes the newest
     * reading as it stood before this pass's tick.
     */
    method Run(heartRate: int, temperature: real, oxygenOffset: int)
      requires Valid()
      modifies this, history
      ensures Valid()
      ensures running == old(running)
      ensures old(history.Size()) > 0 ==> report == Report(old(history.Latest()))
      ensures old(history.Size()) == 0 ==> report == old(report)
      ensures !old(running) ==> unchanged(history) && counter == old(counter)
      ensures old(running) ==>
                && counter == old(counter) + 1
                && history.allHeartRate == old(history.allHeartRate) + [heartRate]
                && history.allTemperature == old(history.allTemperature) + [temperature]
                && history.allOxygen == old(history.allOxygen) + [OxygenReading(oxygenOffset)]
                && history.heartRate == LastN(old(history.heartRate) + [heartRate], Capacity)
                && history.temperature == LastN(old(history.temperature) + [temperature], Capacity)
                && history.oxygen == LastN(old(history.oxygen) + [OxygenReading(oxygenOffset)], Capacity)
                && history.Size() > 0
                && history.Latest() == Reading(heartRate, temperature, OxygenReading(oxygenOffset))
    {
      RefreshReport();
      Tick(heartRate, temperature, oxygenOffset);
    }
  }

  /** While stopped a pass changes neither the history nor the counter, and a stopped monitor stays stopped. */
  method StopThenRun(m: Monitor, heartRate: int, temperature: real, oxygenOffset: int)
    requires m.Valid()
    modifies m, m.history
    ensures m.Valid() && !m.running
    ensures unchanged(m.history) && m.counter == old(m.counter)
  {
    m.Stop();
    m.Run(heartRate, temperature, oxygenOffset);
  }
}
