/**
 * The rolling history of readings: three parallel lists (heart rate,
 * temperature, oxygen) that each tick extends by one reading and then cuts
 * back to the newest 50, and the "recent readings" table of the newest 10
 * aligned triples.
 */
module HistoryBuffer {
  import opened Vitals

  /** How many readings the history keeps. */
  const Capacity: nat := 50
  /** How many rows the recent-readings table shows. */
  const RecentRows: nat := 10

  function Min(a: int, b: int): int
  {
    if a <= b then a else b
  }

  /**
   * Python's `s[-n:]` for a positive `n`: the newest `n` elements in their
   * original order, or all of `s` when it is shorter.
   */
  function LastN<T>(s: seq<T>, n: nat): (r: seq<T>)
    requires n > 0
    ensures |r| == Min(|s|, n)
    ensures forall i :: 0 <= i < |r| ==> r[i] == s[|s| - |r| + i]
  {
    if |s| <= n then s else s[|s| - n..]
  }

  /**
   * Cutting after each append is the same as cutting once at the end: the
   * window over `s + [x]` is the window over the earlier window plus `x`.
   */
  lemma WindowAppend<T>(s: seq<T>, x: T, n: nat)
    requires n > 0
    ensures LastN(LastN(s, n) + [x], n) == LastN(s + [x], n)
  {
  }

  /** The newest reading is the last element of the window, and the older ones keep their order. */
  lemma WindowShift<T>(s: seq<T>, x: T, n: nat)
    requires n > 1
    ensures LastN(s + [x], n) == LastN(s, n - 1) + [x]
  {
  }

  /** A shorter window taken from a longer one is just the shorter window. */
  lemma WindowOfWindow<T>(s: seq<T>, m: nat, n: nat)
    requires 0 < n <= m
    ensures LastN(LastN(s, m), n) == LastN(s, n)
  {
  }

  /** Python's `list(zip(a, b, c))`: as long as the shortest, element by element. */
  function Zip3<A, B, C>(a: seq<A>, b: seq<B>, c: seq<C>): (r: seq<(A, B, C)>)
    ensures |r| == Min(|a|, Min(|b|, |c|))
    ensures forall i :: 0 <= i < |r| ==> r[i] == (a[i], b[i], c[i])
  {
    if |a| == 0 || |b| == 0 || |c| == 0 then []
    else [(a[0], b[0], c[0])] + Zip3(a[1..], b[1..], c[1..])
  }

  /** Zipping the newest `n` of three aligned lists gives the newest `n` aligned triples. */
  lemma ZipOfWindows<A, B, C>(a: seq<A>, b: seq<B>, c: seq<C>, n: nat)
    requires |a| == |b| == |c| && n > 0
    ensures var rows := Zip3(LastN(a, n), LastN(b, n), LastN(c, n));
      && |rows| == Min(|a|, n)
      && forall i :: 0 <= i < |rows| ==> rows[i] == (a[|a| - |rows| + i], b[|a| - |rows| + i], c[|a| - |rows| + i])
  {
    var rows := Zip3(LastN(a, n), LastN(b, n), LastN(c, n));
    forall i | 0 <= i < |rows|
      ensures rows[i] == (a[|a| - |rows| + i], b[|a| - |rows| + i], c[|a| - |rows| + i])
    {
      assert rows[i] == (LastN(a, n)[i], LastN(b, n)[i], LastN(c, n)[i]);
    }
  }

  class History {
    var heartRate: seq<int>
    var temperature: seq<real>
    var oxygen: seq<int>

    /** Every reading ever appended, oldest first, channel by channel. */
    ghost var allHeartRate: seq<int>
    ghost var allTemperature: seq<real>
    ghost var allOxygen: seq<int>

    /**
     * The three lists stay aligned and within capacity, and each is the
     * newest `Capacity` values of its channel.
     */
    ghost predicate Valid()
      reads this
    {
      && |heartRate| == |temperature| == |oxygen| <= Capacity
      && |allHeartRate| == |allTemperature| == |allOxygen|
      && heartRate == LastN(allHeartRate, Capacity)
      && temperature == LastN(allTemperature, Capacity)
      && oxygen == LastN(allOxygen, Capacity)
    }

    constructor ()
      ensures Valid()
      ensures heartRate == [] && temperature == [] && oxygen == []
      ensures allHeartRate == [] && allTemperature == [] && allOxygen == []
    {
      heartRate, temperature, oxygen := [], [], [];
      allHeartRate, allTemperature, allOxygen := [], [], [];
    }

    /** Number of readings currently held. */
    function Size(): nat
      reads this
    {
      |heartRate|
    }

    /** The newest reading, `(hr[-1], temp[-1], oxy[-1])`: the last one ever appended. */
    function Latest(): (r: Reading)
      reads this
      requires Valid() && Size() > 0
      ensures |allHeartRate| > 0
      ensures r == Reading(allHeartRate[|allHeartRate| - 1], allTemperature[|allTemperature| - 1], allOxygen[|allOxygen| - 1])
    {
      Reading(heartRate[Size() - 1], temperature[Size() - 1], oxygen[Size() - 1])
    }

    /** One tick's update: append to each list, then keep the last `Capacity` if too long. */
    method Append(hr: int, temp: real, oxy: int)
      requires Valid()
      modifies this
      ensures Valid()
      ensures allHeartRate == old(allHeartRate) + [hr]
      ensures allTemperature == old(allTemperature) + [temp]
      ensures allOxygen == old(allOxygen) + [oxy]
      ensures heartRate == LastN(old(heartRate) + [hr], Capacity)
      ensures temperature == LastN(old(temperature) + [temp], Capacity)
      ensures oxygen == LastN(old(oxygen) + [oxy], Capacity)
      ensures Size() == Min(old(Size()) + 1, Capacity)
      ensures Latest() == Reading(hr, temp, oxy)
      ensures |Recent(RecentRows)| > 0 && Recent(RecentRows)[|Recent(RecentRows)| - 1] == (hr, temp, oxy)
    {
      heartRate := heartRate + [hr];
      temperature := temperature + [temp];
      oxygen := oxygen + [oxy];

      if |heartRate| > Capacity {
        heartRate := heartRate[|heartRate| - Capacity..];
        temperature := temperature[|temperature| - Capacity..];
        oxygen := oxygen[|oxygen| - Capacity..];
      }

      WindowAppend(allHeartRate, hr, Capacity);
      WindowAppend(allTemperature, temp, Capacity);
      WindowAppend(allOxygen, oxy, Capacity);
      allHeartRate := allHeartRate + [hr];
      allTemperature := allTemperature + [temp];
      allOxygen := allOxygen + [oxy];
    }

    /**
     * The recent-readings table: the newest `n` aligned triples (or all of
     * them), oldest first.
     */
    function Recent(n: nat): (rows: seq<(int, real, int)>)
      reads this
      requires Valid() && n > 0
      ensures |rows| == Min(Size(), n)
      ensures forall i :: 0 <= i < |rows| ==>
                rows[i] == (heartRate[Size() - |rows| + i], temperature[Size() - |rows| + i], oxygen[Size() - |rows| + i])
    {
      ZipOfWindows(heartRate, temperature, oxygen, n);
      Zip3(LastN(heartRate, n), LastN(temperature, n), LastN(oxygen, n))
    }

    /** The table shows the newest readings ever appended, whatever the cap has evicted. */
    lemma RecentIsNewestAppended(n: nat)
      requires Valid() && 0 < n <= Capacity
      ensures Recent(n) == Zip3(LastN(allHeartRate, n), LastN(allTemperature, n), LastN(allOxygen, n))
    {
      WindowOfWindow(allHeartRate, Capacity, n);
      WindowOfWindow(allTemperature, Capacity, n);
      WindowOfWindow(allOxygen, Capacity, n);
    }
  }
}
