/**
 * The medical alert logic of the dashboard: each of the three vital channels
 * (heart rate, body temperature, oxygen saturation) is judged on its own
 * against fixed thresholds and given one of three statuses.
 *
 * Temperatures are degrees Celsius as exact reals: the generator rounds every
 * temperature to one decimal before it is stored or classified, and on such
 * values the comparisons with 36.0, 36.1, 37.5 and 37.8 are exact.
 */
module Vitals {

  datatype Status = Normal | Warning | Critical

  /** One synthetic sample of the three vitals. */
  datatype Reading = Reading(heartRate: int, temperature: real, oxygen: int)

  /** The status of each channel of one reading. */
  datatype Classification = Classification(hr: Status, temp: Status, oxy: Status)

  /**
   * Heart rate in bpm. The body is the source's ordered chain (low critical,
   * low warning, high critical, high warning, otherwise normal); the contract
   * is the band table that chain amounts to.
   */
  function HeartRateStatus(hr: int): (s: Status)
    ensures s == Critical <==> hr < 60 || hr > 100
    ensures s == Warning <==> (60 <= hr < 65) || (95 < hr <= 100)
    ensures s == Normal <==> 65 <= hr <= 95
  {
    if hr < 60 then Critical
    else if hr < 65 then Warning
    else if hr > 100 then Critical
    else if hr > 95 then Warning
    else Normal
  }

  /** Body temperature in degrees Celsius, same chain shape as heart rate. */
  function TemperatureStatus(temp: real): (s: Status)
    ensures s == Critical <==> temp < 36.0 || temp > 37.8
    ensures s == Warning <==> (36.0 <= temp < 36.1) || (37.5 < temp <= 37.8)
    ensures s == Normal <==> 36.1 <= temp <= 37.5
  {
    if temp < 36.0 then Critical
    else if temp < 36.1 then Warning
    else if temp > 37.8 then Critical
    else if temp > 37.5 then Warning
    else Normal
  }

  /** Oxygen saturation in percent: only low values are alarming. */
  function OxygenStatus(oxy: int): (s: Status)
    ensures s == Critical <==> oxy < 90
    ensures s == Warning <==> 90 <= oxy < 95
    ensures s == Normal <==> oxy >= 95
  {
    if oxy < 90 then Critical
    else if oxy < 95 then Warning
    else Normal
  }

  /** check_vital_status: every channel starts out normal and is overwritten by its own chain. */
  function CheckVitalStatus(hr: int, temp: real, oxy: int): (c: Classification)
    ensures c.hr == Critical <==> hr < 60 || hr > 100
    ensures c.hr == Normal <==> 65 <= hr <= 95
    ensures c.temp == Critical <==> temp < 36.0 || temp > 37.8
    ensures c.temp == Normal <==> 36.1 <= temp <= 37.5
    ensures c.oxy == Critical <==> oxy < 90
    ensures c.oxy == Normal <==> oxy >= 95
  {
    Classification(HeartRateStatus(hr), TemperatureStatus(temp), OxygenStatus(oxy))
  }

  function Classify(r: Reading): Classification
  {
    CheckVitalStatus(r.heartRate, r.temperature, r.oxygen)
  }

  /** True when no channel needs attention (the `all(...)` test of the report). */
  predicate AllNormal(c: Classification): (allNormal: bool)
    ensures allNormal <==> c == Classification(Normal, Normal, Normal)
  {
    c.hr == Normal && c.temp == Normal && c.oxy == Normal
  }

  /** Each channel's status depends on its own reading and on nothing else. */
  lemma ChannelsIndependent(a: Reading, b: Reading)
    ensures a.heartRate == b.heartRate ==> Classify(a).hr == Classify(b).hr
    ensures a.temperature == b.temperature ==> Classify(a).temp == Classify(b).temp
    ensures a.oxygen == b.oxygen ==> Classify(a).oxy == Classify(b).oxy
  {
  }

  /** The boundary values of every band fall on the side the inequalities say. */
  lemma Boundaries()
    ensures HeartRateStatus(59) == Critical && HeartRateStatus(60) == Warning
    ensures HeartRateStatus(64) == Warning && HeartRateStatus(65) == Normal
    ensures HeartRateStatus(95) == Normal && HeartRateStatus(96) == Warning
    ensures HeartRateStatus(100) == Warning && HeartRateStatus(101) == Critical
    ensures TemperatureStatus(35.9) == Critical && TemperatureStatus(36.0) == Warning
    ensures TemperatureStatus(36.1) == Normal && TemperatureStatus(37.5) == Normal
    ensures TemperatureStatus(37.6) == Warning && TemperatureStatus(37.8) == Warning
    ensures TemperatureStatus(37.9) == Critical
    ensures OxygenStatus(89) == Critical && OxygenStatus(90) == Warning
    ensures OxygenStatus(94) == Warning && OxygenStatus(95) == Normal
    ensures OxygenStatus(100) == Normal
  {
  }
}
