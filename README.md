# Virtual health monitoring dashboard — verified model of its core

The dashboard simulates a patient monitor. Each tick generates one synthetic
reading of heart rate (bpm), body temperature (°C) and oxygen saturation (%).
It keeps the newest 50 readings per channel, classifies the newest reading as
normal, warning or critical per channel, and writes a rule-based text summary.
This project models the logic under the Streamlit layout and proves its
properties in Dafny:

- `vitals.dfy` (module `Vitals`): the per-channel threshold chains of
  `check_vital_status`. Each function is stated as its band table (both
  directions), with boundary values and channel independence.
- `generator.dfy` (module `Generator`): the integer oxygen clamp of
  `generate_sensor_data`. It proves the clamp range, and that with the offsets
  the generator draws (-2..2) oxygen is always 95..99. So the classifier's
  oxygen critical branch, and also its oxygen warning branch, cannot be
  reached through the generator.
- `summary.dfy` (module `Summary`): the report composer. The report is the
  all-clear sentence exactly when every channel is normal. Otherwise it is
  `"Note: "` + the alert clauses joined by `", "` + the monitoring advice.
  There is one clause per non-normal channel, in heart-rate, temperature,
  oxygen order. The report's contract pins every piece: the prefix, each
  clause at its offset, `", "` after every clause but the last, the suffix,
  and the exact length, so the pieces tile the report with nothing else in
  it. The source's wording quirk is proved: the heart-rate clause says "too
  low" only below 60, so a low warning (60..64) reads "too high".
- `history.dfy` (module `HistoryBuffer`): class `History` with the three
  parallel lists. `Append` adds one reading to each list and cuts it back to
  the newest 50. The invariant is that the lists are aligned, hold at most 50
  entries, and are exactly the newest 50 values ever appended. `Recent` is
  the recent-readings table: the newest 10 aligned triples in insertion
  order.
- `dashboard.dfy` (module `Dashboard`): class `Monitor` holds the session
  state: the running flag, the generator counter `x`, the displayed summary
  and the history. Start/Stop flip the flag. A tick happens only while
  running and advances the counter by exactly one. The invariant is that the
  counter equals the number of readings ever appended.

Temperatures are exact `real`s. The source rounds each temperature to one
decimal (pec_task.py:100) before storing or classifying it. On such values
the float comparisons with 36.0, 36.1, 37.5 and 37.8 agree with exact
comparisons.

Two points about the script's order and sampling that the model follows:

- In each pass of the script the report section (pec_task.py:185-206) runs
  before the simulation block (pec_task.py:211-223). The summary computed in a
  pass therefore describes the newest reading from before that pass's tick.
  `Monitor.Run` models that order.
- The heart-rate sample is truncated with `int(...)` (pec_task.py:95); that
  signal shape is outside the model.

## Model

| member | source | states |
|---|---|---|
| `Vitals.HeartRateStatus` | pec_task.py:59-67 | critical iff hr < 60 or hr > 100; warning iff 60 <= hr < 65 or 95 < hr <= 100; normal iff 65 <= hr <= 95 |
| `Vitals.TemperatureStatus` | pec_task.py:69-77 | critical iff temp < 36.0 or temp > 37.8; warning iff 36.0 <= temp < 36.1 or 37.5 < temp <= 37.8; normal iff 36.1 <= temp <= 37.5 |
| `Vitals.OxygenStatus` | pec_task.py:79-83 | critical iff oxy < 90; warning iff 90 <= oxy < 95; normal iff oxy >= 95 |
| `Vitals.CheckVitalStatus` | pec_task.py:55-85 | each channel of the result is critical/normal exactly on its own band, judged from its own reading |
| `Vitals.ChannelsIndependent` | pec_task.py:55-85 | two readings that agree on a channel get the same status on that channel |
| `Vitals.AllNormal` | pec_task.py:193 | true exactly for the classification in which all three channels are normal |
| `Vitals.Boundaries` | pec_task.py:59-83 | boundary values: hr 59/60/64/65/95/96/100/101, temp 35.9/36.0/36.1/37.5/37.6/37.8/37.9, oxy 89/90/94/95/100 fall in the bands of the threshold chains |
| `Generator.OxygenReading` | pec_task.py:103-104 | the clamped oxygen is always in [90, 100]; it is 97 + offset when strictly inside; it is 90 exactly when offset <= -7 and 100 exactly when offset >= 3 |
| `Generator.OxygenInDrawnRange` | pec_task.py:103-104 | for offsets in [-2, 2] the clamp does not change 97 + offset, which lies in [95, 99] |
| `Generator.GeneratedOxygenNeverCritical` | pec_task.py:103-104 | no generated oxygen value is classified critical |
| `Generator.DrawnOxygenAlwaysNormal` | pec_task.py:103-104 | for offsets in [-2, 2] generated oxygen is always classified normal |
| `Summary.ClausesDistinct` | pec_task.py:198-202 | the heart-rate, temperature and oxygen clauses are pairwise different strings |
| `Summary.Alerts` | pec_task.py:196-202 | one clause per non-normal channel: the length is the number of non-normal channels; empty iff all normal; each channel's clause is present iff that channel is not normal; heart rate first, temperature next, oxygen last |
| `Summary.JoinContains` | pec_task.py:204 | every element of a list occurs in its `", "`-join at its computed offset |
| `Summary.JoinOffsetsOrdered` | pec_task.py:204 | in the join, a later element starts after the end of an earlier one plus a separator |
| `Summary.HeartRateClause` | pec_task.py:197-198 | the clause is "Heart rate is too low" iff hr < 60 and "Heart rate is too high" iff hr >= 60 |
| `Summary.TemperatureClause` | pec_task.py:199-200 | the clause is "Temperature is too low" iff temp < 36.1 and "Temperature is too high" iff temp >= 36.1 |
| `Summary.Join` | pec_task.py:204 | `", ".join`: empty for no elements; otherwise its length is exactly the offset of the last element plus that element's length |
| `Summary.JoinSeparatorAt` | pec_task.py:204 | after every element but the last, the join holds the separator |
| `Summary.NoteListsAll` | pec_task.py:204 | "Note: " + join + suffix over a non-empty list is exactly the listing: prefix, each element at its offset, a separator between consecutive elements, suffix, exact length |
| `Summary.Report` | pec_task.py:191-204 | the report is the all-clear sentence iff all three statuses are normal; otherwise it is exactly "Note: ", the alert clauses separated by ", ", then ". Please monitor these values closely.", with nothing else |
| `Summary.ReportListsAlerts` | pec_task.py:195-204 | the alert clauses appear in the report in the order of the alert list, non-overlapping |
| `Summary.HeartRateWording` | pec_task.py:198 | for an alerting heart rate the clause says "too low" iff hr < 60 and "too high" iff hr >= 60, so a 60..64 warning reads "too high" |
| `Summary.TemperatureWording` | pec_task.py:200 | for an alerting temperature the clause says "too low" iff temp < 36.1 and "too high" iff temp > 37.5 |
| `Summary.OxygenWording` | pec_task.py:201-202 | the oxygen clause ("low") appears only when oxygen is below 95 |
| `Summary.ScenarioAllNormal` | pec_task.py:193-194 | (72, 36.6, 97) gives the all-clear sentence |
| `Summary.ScenarioLowHeartRate` | pec_task.py:195-204 | (55, 36.6, 97) gives "Note: Heart rate is too low. Please monitor these values closely." |
| `Summary.ScenarioLowWarningHeartRate` | pec_task.py:198 | (62, 36.6, 97), a low warning, gives "Note: Heart rate is too high. Please monitor these values closely." |
| `Summary.ScenarioFeverLowOxygen` | pec_task.py:195-204 | (72, 38.0, 93) gives the temperature clause, then the oxygen clause |
| `HistoryBuffer.LastN` | pec_task.py:221-223 | `s[-n:]`: the newest min(len(s), n) elements of s in their original order |
| `HistoryBuffer.WindowAppend` | pec_task.py:216-223 | appending then cutting to n, repeated tick by tick, equals cutting everything ever appended to its newest n |
| `HistoryBuffer.WindowShift` | pec_task.py:216-223 | after an append and cut, the new value is last and the older values are the previous newest n-1, in order |
| `HistoryBuffer.WindowOfWindow` | pec_task.py:173-177 | the newest 10 of the newest 50 are the newest 10 |
| `HistoryBuffer.Zip3` | pec_task.py:173-177 | `zip` of three lists: as long as the shortest, element i is the triple of the i-th elements |
| `HistoryBuffer.ZipOfWindows` | pec_task.py:173-177 | zipping the last n of three aligned lists gives min(len, n) rows, row i being the aligned triple at len - rows + i |
| `HistoryBuffer.History.constructor` | pec_task.py:19-24 | the three lists start empty |
| `HistoryBuffer.History.Latest` | pec_task.py:187-189 | the newest reading held is the last reading ever appended, on all three channels |
| `HistoryBuffer.History.Append` | pec_task.py:216-223 | each list becomes (old list + [new value]) cut to its last 50; the lists stay aligned and at most 50 long; the newest reading is the one appended and is the last row of the recent-readings table |
| `HistoryBuffer.History.Recent` | pec_task.py:173-177 | the table has min(n, size) rows; row i is the aligned (hr, temp, oxy) triple at position size - rows + i |
| `HistoryBuffer.History.RecentIsNewestAppended` | pec_task.py:173-177 | the table is the newest 10 of all readings ever appended, whatever the cap evicted |
| `Dashboard.Monitor.constructor` | pec_task.py:19-30 | initial state: stopped, counter 0, empty history, "Waiting for data to generate health summary..." |
| `Dashboard.Monitor.Start` | pec_task.py:37-40 | afterwards running; counter, summary and the invariant kept |
| `Dashboard.Monitor.Stop` | pec_task.py:41-44 | afterwards stopped; counter, summary and the invariant kept |
| `Dashboard.Monitor.GenerateSensorData` | pec_task.py:88-106 | advances the counter by exactly 1 and returns the reading with oxygen clamped into [90, 100] |
| `Dashboard.Monitor.Tick` | pec_task.py:210-223 | while stopped nothing changes; while running the counter grows by 1, the reading is added to everything ever appended, and each list becomes its append-and-cut |
| `Dashboard.Monitor.RefreshReport` | pec_task.py:185-206 | with readings present, the summary is the report for the newest reading; otherwise it is left as it was |
| `Dashboard.Monitor.Run` | pec_task.py:181-223 | one script pass: the summary describes the newest reading before the tick; while stopped history and counter are unchanged; while running the counter grows by 1 and each list becomes its append-and-cut with the new reading last |
| `Dashboard.StopThenRun` | pec_task.py:42-44 | stop followed by a pass leaves history and counter unchanged |

## Left out

- Streamlit rendering is not modelled: page setup, titles, columns, the coloured status badges, line charts, the table widget and the sidebar text (pec_task.py:8-16, 109-178, 208, 229-231). The badges only display `check_vital_status`, which is modelled.
- `time.sleep(1.5)` and `st.rerun()` are not modelled: they are timing and re-execution by the framework. A script pass is `Monitor.Run`.
- The heart-rate and temperature signal shapes are parameters of `GenerateSensorData`: `math.sin`, `random.uniform`, `int(...)` truncation and `round(..., 1)` are float numerics and library randomness. The oxygen offset from `random.randint(-2, 2)` is also a parameter, and its range is assumed only in `OxygenInDrawnRange` and `DrawnOxygenAlwaysNormal`.
- Python floats are modelled as exact reals. This is exact for the one-decimal temperatures the generator produces. A float that is not a one-decimal value could compare differently near the thresholds.
- The `st.session_state` dictionary and its initialisation guards are the fields of `Monitor` and `History` and their constructors. Persistence across browser sessions is outside the model.
- `HistoryBuffer.LastN` requires n > 0: Python's `s[-0:]` is the whole list, not an empty one, and the source only ever slices with 10 and 50.
- `HistoryBuffer.History.Recent` assumes the three lists are aligned (the object invariant). In that case `zip` never drops a row.
