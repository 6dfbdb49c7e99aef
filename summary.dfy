/**
 * The rule-based health summary: from the latest reading and its
 * classification, either a fixed all-clear sentence or a note listing one
 * alert clause per channel that is not normal, in the fixed order heart rate,
 * temperature, oxygen.
 */
module Summary {
  import opened Vitals

  const AllClear: string :=
    "All vital signs are within normal ranges. " + "Your health metrics look excellent! "
    + "Maintain your current routine."
  const NotePrefix: string := "Note: "
  const NoteSuffix: string := ". Please monitor these values closely."
  const Separator: string := ", "

  /**
   * The direction word compares the raw reading with 60 only, not with the
   * classifier's bands: a low warning (60 <= hr < 65) reads "too high".
   */
  function HeartRateClause(hr: int): (clause: string)
    ensures clause == "Heart rate is too low" <==> hr < 60
    ensures clause == "Heart rate is too high" <==> hr >= 60
  {
    "Heart rate is " + (if hr < 60 then "too low" else "too high")
  }

  function TemperatureClause(temp: real): (clause: string)
    ensures clause == "Temperature is too low" <==> temp < 36.1
    ensures clause == "Temperature is too high" <==> temp >= 36.1
  {
    "Temperature is " + (if temp < 36.1 then "too low" else "too high")
  }

  const OxygenClause: string := "Oxygen level is low"

  /** How many channels of a classification need attention. */
  function NonNormalCount(c: Classification): nat
  {
    (if c.hr != Normal then 1 else 0) + (if c.temp != Normal then 1 else 0) + (if c.oxy != Normal then 1 else 0)
  }

  /** The first character tells the three kinds of clause apart. */
  lemma ClausesDistinct(hr: int, temp: real)
    ensures HeartRateClause(hr) != TemperatureClause(temp)
    ensures HeartRateClause(hr) != OxygenClause
    ensures TemperatureClause(temp) != OxygenClause
  {
    assert HeartRateClause(hr)[0] == 'H';
    assert TemperatureClause(temp)[0] == 'T';
    assert OxygenClause[0] == 'O';
  }

  /**
   * The `alerts` list, built by appending one clause per non-normal channel.
   * Exactly one clause per such channel, none for a normal one, and the
   * clauses stand in heart-rate, temperature, oxygen order.
   */
  function Alerts(r: Reading): (a: seq<string>)
    ensures |a| == NonNormalCount(Classify(r))
    ensures a == [] <==> AllNormal(Classify(r))
    ensures HeartRateClause(r.heartRate) in a <==> Classify(r).hr != Normal
    ensures TemperatureClause(r.temperature) in a <==> Classify(r).temp != Normal
    ensures OxygenClause in a <==> Classify(r).oxy != Normal
    ensures Classify(r).hr != Normal ==> a[0] == HeartRateClause(r.heartRate)
    ensures Classify(r).temp != Normal ==>
              a[if Classify(r).hr != Normal then 1 else 0] == TemperatureClause(r.temperature)
    ensures Classify(r).oxy != Normal ==> a[|a| - 1] == OxygenClause
  {
    var c := Classify(r);
    ClausesDistinct(r.heartRate, r.temperature);
    (if c.hr != Normal then [HeartRateClause(r.heartRate)] else [])
    + (if c.temp != Normal then [TemperatureClause(r.temperature)] else [])
    + (if c.oxy != Normal then [OxygenClause] else [])
  }

  /**
   * Python's `sep.join(xs)`: empty for no elements, otherwise exactly long
   * enough to end with the last element at its offset.
   */
  function Join(sep: string, xs: seq<string>): (joined: string)
    ensures |xs| == 0 ==> joined == ""
    ensures |xs| > 0 ==> |joined| == JoinOffset(sep, xs, |xs| - 1) + |xs[|xs| - 1]|
    decreases |xs|
  {
    if |xs| == 0 then ""
    else if |xs| == 1 then xs[0]
    else xs[0] + sep + Join(sep, xs[1..])
  }

  /**
   * `s` is "Note: ", then the elements of `xs` separated by ", ", then the
   * monitoring advice, and nothing else: the pieces tile `s` exactly.
   */
  predicate IsNoteListing(s: string, xs: seq<string>)
    requires |xs| > 0
  {
    && OccursAt(s, NotePrefix, 0)
    && (forall i :: 0 <= i < |xs| ==> OccursAt(s, xs[i], |NotePrefix| + JoinOffset(Separator, xs, i)))
    && (forall i :: 0 <= i < |xs| - 1 ==>
          OccursAt(s, Separator, |NotePrefix| + JoinOffset(Separator, xs, i) + |xs[i]|))
    && |s| == |NotePrefix| + JoinOffset(Separator, xs, |xs| - 1) + |xs[|xs| - 1]| + |NoteSuffix|
    && OccursAt(s, NoteSuffix, |s| - |NoteSuffix|)
  }

  /**
   * The report for the latest reading (the report section of the dashboard):
   * the all-clear sentence exactly when every channel is normal, otherwise
   * the note listing the alert clauses.
   */
  function Report(r: Reading): (s: string)
    ensures s == AllClear <==> AllNormal(Classify(r))
    ensures !AllNormal(Classify(r)) ==> IsNoteListing(s, Alerts(r))
  {
    var status := Classify(r);
    if AllNormal(status) then AllClear
    else
      var alerts := Alerts(r);
      NoteListsAll(alerts);
      assert Note(alerts)[0] == 'N' && AllClear[0] == 'A';
      Note(alerts)
  }

  /** `t` stands in `s` starting at index `k`. */
  predicate OccursAt(s: string, t: string, k: int)
  {
    0 <= k && k + |t| <= |s| && s[k..k + |t|] == t
  }

  /** Where the `i`-th element starts inside `Join(sep, xs)`. */
  function JoinOffset(sep: string, xs: seq<string>, i: nat): nat
    requires i < |xs|
  {
    if i == 0 then 0 else |xs[0]| + |sep| + JoinOffset(sep, xs[1..], i - 1)
  }

  lemma OccursAfterPrefix(p: string, s: string, t: string, k: int)
    requires OccursAt(s, t, k)
    ensures OccursAt(p + s, t, |p| + k)
  {
  }

  lemma OccursBeforeSuffix(s: string, q: string, t: string, k: int)
    requires OccursAt(s, t, k)
    ensures OccursAt(s + q, t, k)
  {
  }

  /** Every element of the list can be found in the joined string at its offset. */
  lemma {:induction false} JoinContains(sep: string, xs: seq<string>, i: nat)
    requires i < |xs|
    ensures OccursAt(Join(sep, xs), xs[i], JoinOffset(sep, xs, i))
  {
    if |xs| == 1 {
      assert Join(sep, xs) == xs[0];
      assert Join(sep, xs)[0..|xs[0]|] == xs[0];
    } else if i == 0 {
      assert Join(sep, xs) == xs[0] + (sep + Join(sep, xs[1..]));
      assert OccursAt(xs[0], xs[0], 0) by { assert xs[0][0..|xs[0]|] == xs[0]; }
      OccursBeforeSuffix(xs[0], sep + Join(sep, xs[1..]), xs[0], 0);
    } else {
      JoinContains(sep, xs[1..], i - 1);
      assert Join(sep, xs) == (xs[0] + sep) + Join(sep, xs[1..]);
      OccursAfterPrefix(xs[0] + sep, Join(sep, xs[1..]), xs[i], JoinOffset(sep, xs[1..], i - 1));
    }
  }

  /** Later elements start strictly after earlier ones end (and a separator follows). */
  lemma {:induction false} JoinOffsetsOrdered(sep: string, xs: seq<string>, i: nat, j: nat)
    requires i < j < |xs|
    ensures JoinOffset(sep, xs, i) + |xs[i]| + |sep| <= JoinOffset(sep, xs, j)
  {
    if i > 0 {
      JoinOffsetsOrdered(sep, xs[1..], i - 1, j - 1);
    }
  }

  /** After every element but the last, the join holds the separator. */
  lemma {:induction false} JoinSeparatorAt(sep: string, xs: seq<string>, i: nat)
    requires i + 1 < |xs|
    ensures OccursAt(Join(sep, xs), sep, JoinOffset(sep, xs, i) + |xs[i]|)
  {
    var rest := Join(sep, xs[1..]);
    assert Join(sep, xs) == (xs[0] + sep) + rest;
    if i == 0 {
      assert OccursAt(xs[0] + sep, sep, |xs[0]|) by {
        assert (xs[0] + sep)[|xs[0]|..|xs[0]| + |sep|] == sep;
      }
      OccursBeforeSuffix(xs[0] + sep, rest, sep, |xs[0]|);
    } else {
      JoinSeparatorAt(sep, xs[1..], i - 1);
      OccursAfterPrefix(xs[0] + sep, rest, sep, JoinOffset(sep, xs[1..], i - 1) + |xs[i]|);
    }
  }

  /** An occurrence inside `body` survives wrapping it in a prefix and a suffix. */
  lemma OccursInWrapped(p: string, body: string, q: string, t: string, k: int)
    requires OccursAt(body, t, k)
    ensures OccursAt(p + body + q, p, 0)
    ensures OccursAt(p + body + q, q, |p + body + q| - |q|)
    ensures OccursAt(p + body + q, t, |p| + k)
  {
  }

  /** The note template of the report: prefix, the `", "`-join of the clauses, suffix. */
  function Note(xs: seq<string>): string
  {
    NotePrefix + Join(Separator, xs) + NoteSuffix
  }

  lemma NoteClauseAt(xs: seq<string>, i: nat)
    requires i < |xs|
    ensures OccursAt(Note(xs), xs[i], |NotePrefix| + JoinOffset(Separator, xs, i))
  {
    var body, k := Join(Separator, xs), JoinOffset(Separator, xs, i);
    JoinContains(Separator, xs, i);
    OccursAfterPrefix(NotePrefix, body, xs[i], k);
    OccursBeforeSuffix(NotePrefix + body, NoteSuffix, xs[i], |NotePrefix| + k);
  }

  lemma NoteSeparatorAt(xs: seq<string>, i: nat)
    requires i + 1 < |xs|
    ensures OccursAt(Note(xs), Separator, |NotePrefix| + JoinOffset(Separator, xs, i) + |xs[i]|)
  {
    var body, k := Join(Separator, xs), JoinOffset(Separator, xs, i) + |xs[i]|;
    JoinSeparatorAt(Separator, xs, i);
    OccursAfterPrefix(NotePrefix, body, Separator, k);
    OccursBeforeSuffix(NotePrefix + body, NoteSuffix, Separator, |NotePrefix| + k);
  }

  /** A note over a non-empty list is exactly the listing of that list. */
  lemma NoteListsAll(xs: seq<string>)
    requires |xs| > 0
    ensures IsNoteListing(Note(xs), xs)
  {
    forall i | 0 <= i < |xs|
      ensures OccursAt(Note(xs), xs[i], |NotePrefix| + JoinOffset(Separator, xs, i))
    {
      NoteClauseAt(xs, i);
    }
    forall i | 0 <= i < |xs| - 1
      ensures OccursAt(Note(xs), Separator, |NotePrefix| + JoinOffset(Separator, xs, i) + |xs[i]|)
    {
      NoteSeparatorAt(xs, i);
    }
    OccursInWrapped(NotePrefix, Join(Separator, xs), NoteSuffix, xs[0], JoinOffset(Separator, xs, 0));
  }

  /**
   * In a report with alerts, two alert clauses appear in the order of the
   * alert list, the earlier one ending before the later one starts.
   */
  lemma ReportListsAlerts(r: Reading, i: nat, j: nat)
    requires !AllNormal(Classify(r))
    requires i < j < |Alerts(r)|
    ensures OccursAt(Report(r), Alerts(r)[i], |NotePrefix| + JoinOffset(Separator, Alerts(r), i))
    ensures OccursAt(Report(r), Alerts(r)[j], |NotePrefix| + JoinOffset(Separator, Alerts(r), j))
    ensures JoinOffset(Separator, Alerts(r), i) + |Alerts(r)[i]| < JoinOffset(Separator, Alerts(r), j)
  {
    var a := Alerts(r);
    assert Report(r) == Note(a);
    NoteClauseAt(a, i);
    NoteClauseAt(a, j);
    JoinOffsetsOrdered(Separator, a, i, j);
  }

  /**
   * The heart-rate clause says "too low" only below 60, so a low warning
   * (60 <= hr < 65) is reported as "too high".
   */
  lemma HeartRateWording(hr: int)
    requires HeartRateStatus(hr) != Normal
    ensures HeartRateClause(hr) == "Heart rate is too low" <==> hr < 60
    ensures HeartRateClause(hr) == "Heart rate is too high" <==> hr >= 60
    ensures 60 <= hr < 65 ==> HeartRateStatus(hr) == Warning && HeartRateClause(hr) == "Heart rate is too high"
  {
  }

  /** The temperature clause says "too low" exactly below the normal band. */
  lemma TemperatureWording(temp: real)
    requires TemperatureStatus(temp) != Normal
    ensures TemperatureClause(temp) == "Temperature is too low" <==> temp < 36.1
    ensures TemperatureClause(temp) == "Temperature is too high" <==> temp > 37.5
  {
  }

  /** The oxygen clause always says "low", and it only appears for low oxygen. */
  lemma OxygenWording(r: Reading)
    requires OxygenClause in Alerts(r)
    ensures r.oxygen < 95
  {
  }

  /** A reading in the middle of every band gives the all-clear sentence. */
  lemma ScenarioAllNormal()
    ensures Report(Reading(72, 36.6, 97)) == AllClear
  {
  }

  /** A critically low heart rate alone gives one "too low" clause. */
  lemma ScenarioLowHeartRate()
    ensures Report(Reading(55, 36.6, 97)) == NotePrefix + "Heart rate is too low" + NoteSuffix
  {
  }

  /** A low heart-rate warning is worded "too high". */
  lemma ScenarioLowWarningHeartRate()
    ensures Report(Reading(62, 36.6, 97)) == NotePrefix + "Heart rate is too high" + NoteSuffix
  {
  }

  /** Fever and low oxygen together: the temperature clause comes first. */
  lemma ScenarioFeverLowOxygen()
    ensures Report(Reading(72, 38.0, 93)) ==
            NotePrefix + "Temperature is too high" + Separator + "Oxygen level is low" + NoteSuffix
  {
    var r := Reading(72, 38.0, 93);
    assert Alerts(r) == [TemperatureClause(38.0), OxygenClause];
    NoteOfTwo(TemperatureClause(38.0), OxygenClause);
  }

  lemma NoteOfTwo(first: string, second: string)
    ensures Note([first, second]) == NotePrefix + first + Separator + second + NoteSuffix
  {
    var xs := [first, second];
    assert xs[1..] == [second];
    assert Join(Separator, xs) == first + Separator + second;
    assert Note(xs) == NotePrefix + (first + Separator + second) + NoteSuffix;
  }
}
