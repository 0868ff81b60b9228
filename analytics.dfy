/**
 * The two analytics computations of server/routes/analytics.js, as pure functions of
 * the snapshot the simulator hands out: the overview (totals, counts per congestion
 * level and per colour, average density and speed) and the hotspot list (signals whose
 * sample is high or severe, densest first).
 */
module Analytics {
  import opened TrafficModel
  import Simulator

  // ---------------------------------------------------------------- overview

  datatype LevelCounts = LevelCounts(low: nat, medium: nat, high: nat, severe: nat)
  datatype StateCounts = StateCounts(red: nat, yellow: nat, green: nat)

  /**
   * The `/overview` answer. The averages divide by the number of samples; the JavaScript
   * code yields NaN for an empty sample list, which is `None` here.
   */
  datatype Overview = Overview(
    totalSignals: nat,
    activeSignals: nat,
    totalVehicles: nat,
    averageDensity: Option<real>,
    averageSpeed: Option<real>,
    congestionLevels: LevelCounts,
    signalsByState: StateCounts)

  /** `trafficData.filter(td => td.congestionLevel === l).length` */
  function CountLevel(samples: seq<TrafficSample>, l: Level): (n: nat)
    ensures n <= |samples|
    decreases |samples|
  {
    if samples == [] then 0
    else (if samples[0].congestionLevel == l then 1 else 0) + CountLevel(samples[1..], l)
  }

  /** `signals.filter(s => s.currentState === c).length` */
  function CountState(signals: seq<Signal>, c: Color): (n: nat)
    ensures n <= |signals|
    decreases |signals|
  {
    if signals == [] then 0
    else (if signals[0].currentState == c then 1 else 0) + CountState(signals[1..], c)
  }

  /** `signals.filter(s => s.status === 'active').length` */
  function CountActive(signals: seq<Signal>): (n: nat)
    ensures n <= |signals|
    ensures n == |signals| <==> forall i :: 0 <= i < |signals| ==> signals[i].status == Active
    decreases |signals|
  {
    if signals == [] then 0
    else (if signals[0].status == Active then 1 else 0) + CountActive(signals[1..])
  }

  function SumDensity(samples: seq<TrafficSample>): real
    decreases |samples|
  {
    if samples == [] then 0.0 else samples[0].trafficDensity + SumDensity(samples[1..])
  }

  function SumSpeed(samples: seq<TrafficSample>): real
    decreases |samples|
  {
    if samples == [] then 0.0 else samples[0].averageSpeed + SumSpeed(samples[1..])
  }

  function Average(sum: real, n: nat): (r: Option<real>)
    ensures r.None? <==> n == 0
  {
    if n == 0 then None else Some(sum / n as real)
  }

  /** Counting is additive: the count over two lists joined is the sum of their counts. */
  lemma {:induction false} CountLevelAppend(a: seq<TrafficSample>, b: seq<TrafficSample>, l: Level)
    ensures CountLevel(a + b, l) == CountLevel(a, l) + CountLevel(b, l)
    decreases |a|
  {
    if a == [] {
      assert a + b == b;
    } else {
      assert (a + b)[0] == a[0];
      assert (a + b)[1..] == a[1..] + b;
      CountLevelAppend(a[1..], b, l);
    }
  }

  lemma {:induction false} CountStateAppend(a: seq<Signal>, b: seq<Signal>, c: Color)
    ensures CountState(a + b, c) == CountState(a, c) + CountState(b, c)
    decreases |a|
  {
    if a == [] {
      assert a + b == b;
    } else {
      assert (a + b)[0] == a[0];
      assert (a + b)[1..] == a[1..] + b;
      CountStateAppend(a[1..], b, c);
    }
  }

  /** Every sample has exactly one of the four levels, so the four counts add up to the number of samples. */
  lemma {:induction false} LevelCountsTotal(samples: seq<TrafficSample>)
    ensures CountLevel(samples, Low) + CountLevel(samples, Medium) + CountLevel(samples, High)
            + CountLevel(samples, Severe) == |samples|
    decreases |samples|
  {
    if samples != [] {
      LevelCountsTotal(samples[1..]);
    }
  }

  /** Every signal has exactly one of the three colours, so the colour counts add up to the number of signals. */
  lemma {:induction false} StateCountsTotal(signals: seq<Signal>)
    ensures CountState(signals, Red) + CountState(signals, Yellow) + CountState(signals, Green) == |signals|
    decreases |signals|
  {
    if signals != [] {
      StateCountsTotal(signals[1..]);
    }
  }

  /** The `/overview` aggregation over one snapshot. */
  function ComputeOverview(signals: seq<Signal>, samples: seq<TrafficSample>, vehicles: seq<Vehicle>): (o: Overview)
    ensures o.totalSignals == |signals| && o.totalVehicles == |vehicles|
    ensures o.activeSignals <= o.totalSignals
    ensures o.averageDensity.Some? <==> samples != []
    ensures o.averageSpeed.Some? <==> samples != []
    ensures o.congestionLevels.low + o.congestionLevels.medium + o.congestionLevels.high
            + o.congestionLevels.severe == |samples|
    ensures o.signalsByState.red + o.signalsByState.yellow + o.signalsByState.green == |signals|
  {
    LevelCountsTotal(samples);
    StateCountsTotal(signals);
    Overview(
      |signals|,
      CountActive(signals),
      |vehicles|,
      Average(SumDensity(samples), |samples|),
      Average(SumSpeed(samples), |samples|),
      LevelCounts(CountLevel(samples, Low), CountLevel(samples, Medium),
                  CountLevel(samples, High), CountLevel(samples, Severe)),
      StateCounts(CountState(signals, Red), CountState(signals, Yellow), CountState(signals, Green)))
  }

  predicate SamplesInRange(samples: seq<TrafficSample>) {
    forall i :: 0 <= i < |samples| ==>
      0.0 <= samples[i].trafficDensity <= 100.0 && samples[i].averageSpeed >= 10.0
  }

  lemma {:induction false} SumsBounded(samples: seq<TrafficSample>)
    requires SamplesInRange(samples)
    ensures 0.0 <= SumDensity(samples) <= 100.0 * |samples| as real
    ensures SumSpeed(samples) >= 10.0 * |samples| as real
    decreases |samples|
  {
    if samples != [] {
      assert SamplesInRange(samples[1..]) by {
        forall i | 0 <= i < |samples| - 1 ensures samples[1..][i] == samples[i + 1] { }
      }
      SumsBounded(samples[1..]);
    }
  }

  lemma MeanBounded(sum: real, n: nat, lo: real, hi: real)
    requires n > 0
    requires lo * n as real <= sum <= hi * n as real
    ensures lo <= sum / n as real <= hi
  {
    var m := sum / n as real;
    assert m * n as real == sum;
  }

  lemma MeanAtLeast(sum: real, n: nat, lo: real)
    requires n > 0
    requires lo * n as real <= sum
    ensures lo <= sum / n as real
  {
    var m := sum / n as real;
    assert m * n as real == sum;
  }

  /** With samples in range, the average density lies in [0,100] and the average speed is at least 10. */
  lemma OverviewAveragesBounded(signals: seq<Signal>, samples: seq<TrafficSample>, vehicles: seq<Vehicle>)
    requires samples != []
    requires SamplesInRange(samples)
    ensures var o := ComputeOverview(signals, samples, vehicles);
      && 0.0 <= o.averageDensity.value <= 100.0
      && o.averageSpeed.value >= 10.0
  {
    SumsBounded(samples);
    MeanBounded(SumDensity(samples), |samples|, 0.0, 100.0);
    MeanAtLeast(SumSpeed(samples), |samples|, 10.0);
  }

  /** On a snapshot of the simulator, the averages are defined exactly when there are signals, and are in range. */
  lemma OverviewOfSnapshot(signals: seq<Signal>, data: map<string, TrafficSample>, vehicles: seq<Vehicle>)
    requires Consistent(signals, data)
    ensures var o := ComputeOverview(signals, Samples(signals, data), vehicles);
      && (o.averageDensity.Some? <==> signals != [])
      && (signals != [] ==> 0.0 <= o.averageDensity.value <= 100.0 && o.averageSpeed.value >= 10.0)
  {
    SamplesAgree(signals, data);
    if signals != [] {
      OverviewAveragesBounded(signals, Samples(signals, data), vehicles);
    }
  }

  /** Right after start-up the overview counts four active signals: two red, one yellow, one green. */
  lemma InitialSignalCounts()
    ensures var signals := Simulator.InitialSignals();
      && CountActive(signals) == 4
      && CountState(signals, Red) == 2 && CountState(signals, Yellow) == 1 && CountState(signals, Green) == 1
  {
    var signals := Simulator.InitialSignals();
    assert signals[1..][1..][1..][1..] == [];
  }

  // ---------------------------------------------------------------- hotspots

  datatype Hotspot = Hotspot(
    signalId: string,
    location: Location,
    trafficDensity: real,
    congestionLevel: Level,
    vehicleCount: nat)

  /** `data.trafficData.find(td => td.signalId === id)`, as a position. */
  function FindSample(samples: seq<TrafficSample>, id: string): (r: Option<nat>)
    ensures r.Some? ==> r.value < |samples| && samples[r.value].signalId == id
    ensures r.Some? ==> forall k :: 0 <= k < r.value ==> samples[k].signalId != id
    ensures r.None? <==> forall k :: 0 <= k < |samples| ==> samples[k].signalId != id
  {
    FindFirst(samples, (t: TrafficSample) => t.signalId == id)
  }

  /**
   * The hotspot record of one signal: density and location from the signal, level and vehicle
   * count from the first sample with its id, or `low` and 0 when it has none.
   */
  function ToHotspot(s: Signal, samples: seq<TrafficSample>): (h: Hotspot)
    ensures h.signalId == s.signalId && h.location == s.location && h.trafficDensity == s.trafficDensity
    ensures (exists k :: 0 <= k < |samples| && samples[k].signalId == s.signalId) ==>
      exists k :: 0 <= k < |samples| && samples[k].signalId == s.signalId
        && (forall j :: 0 <= j < k ==> samples[j].signalId != s.signalId)
        && h.congestionLevel == samples[k].congestionLevel && h.vehicleCount == samples[k].vehicleCount
    ensures (forall k :: 0 <= k < |samples| ==> samples[k].signalId != s.signalId) ==>
      h.congestionLevel == Low && h.vehicleCount == 0
  {
    match FindSample(samples, s.signalId)
    case Some(k) => Hotspot(s.signalId, s.location, s.trafficDensity, samples[k].congestionLevel, samples[k].vehicleCount)
    case None => Hotspot(s.signalId, s.location, s.trafficDensity, Low, 0)
  }

  /** `data.signals.map(...)` */
  function ToHotspots(signals: seq<Signal>, samples: seq<TrafficSample>): (r: seq<Hotspot>)
    ensures |r| == |signals|
    ensures forall i :: 0 <= i < |r| ==> r[i] == ToHotspot(signals[i], samples)
  {
    seq(|signals|, i requires 0 <= i < |signals| => ToHotspot(signals[i], samples))
  }

  predicate IsCongested(h: Hotspot) {
    h.congestionLevel == High || h.congestionLevel == Severe
  }

  /**
   * `.filter(hotspot => hotspot.congestionLevel === 'high' || hotspot.congestionLevel === 'severe')`:
   * every congested record is kept as often as it occurs, every other one is dropped.
   */
  function KeepCongested(hs: seq<Hotspot>): (r: seq<Hotspot>)
    ensures |r| <= |hs|
    ensures forall h :: h in r <==> h in hs && IsCongested(h)
    ensures forall h :: multiset(r)[h] == (if IsCongested(h) then multiset(hs)[h] else 0)
    decreases |hs|
  {
    if hs == [] then []
    else
      assert hs == [hs[0]] + hs[1..];
      if IsCongested(hs[0]) then [hs[0]] + KeepCongested(hs[1..])
      else KeepCongested(hs[1..])
  }

  /** The filter works element by element, so it keeps the order of its input: it distributes over `+`. */
  lemma {:induction false} KeepCongestedAppend(a: seq<Hotspot>, b: seq<Hotspot>)
    ensures KeepCongested(a + b) == KeepCongested(a) + KeepCongested(b)
    decreases |a|
  {
    if a == [] {
      assert a + b == b;
    } else {
      assert (a + b)[0] == a[0];
      assert (a + b)[1..] == a[1..] + b;
      KeepCongestedAppend(a[1..], b);
    }
  }

  /** Places `h` before the first element that is not denser than it. */
  function InsertByDensity(h: Hotspot, sorted: seq<Hotspot>): seq<Hotspot>
    decreases |sorted|
  {
    if sorted == [] then [h]
    else if h.trafficDensity >= sorted[0].trafficDensity then [h] + sorted
    else [sorted[0]] + InsertByDensity(h, sorted[1..])
  }

  /**
   * `.sort((a, b) => b.trafficDensity - a.trafficDensity)`: JavaScript's sort is stable, so
   * signals of equal density keep their order. Written as an insertion sort.
   */
  function SortByDensity(hs: seq<Hotspot>): seq<Hotspot>
    decreases |hs|
  {
    if hs == [] then [] else InsertByDensity(hs[0], SortByDensity(hs[1..]))
  }

  /** The `/hotspots` answer over one snapshot. */
  function ComputeHotspots(signals: seq<Signal>, samples: seq<TrafficSample>): seq<Hotspot> {
    SortByDensity(KeepCongested(ToHotspots(signals, samples)))
  }

  predicate DensestFirst(hs: seq<Hotspot>) {
    forall i, j :: 0 <= i < j < |hs| ==> hs[i].trafficDensity >= hs[j].trafficDensity
  }

  /** The elements of `hs` with density `v`, in their order in `hs`. */
  function WithDensity(hs: seq<Hotspot>, v: real): seq<Hotspot>
    decreases |hs|
  {
    if hs == [] then []
    else (if hs[0].trafficDensity == v then [hs[0]] else []) + WithDensity(hs[1..], v)
  }

  /** Inserting adds exactly one occurrence of `h`. */
  lemma {:induction false} InsertByDensityPermutes(h: Hotspot, sorted: seq<Hotspot>)
    ensures multiset(InsertByDensity(h, sorted)) == multiset(sorted) + multiset{h}
    decreases |sorted|
  {
    if sorted != [] {
      assert sorted == [sorted[0]] + sorted[1..];
      if h.trafficDensity < sorted[0].trafficDensity {
        InsertByDensityPermutes(h, sorted[1..]);
      }
    }
  }

  predicate NoDenserThan(hs: seq<Hotspot>, bound: real) {
    forall k :: 0 <= k < |hs| ==> hs[k].trafficDensity <= bound
  }

  lemma {:induction false} InsertByDensityBound(h: Hotspot, sorted: seq<Hotspot>, bound: real)
    requires h.trafficDensity <= bound && NoDenserThan(sorted, bound)
    ensures NoDenserThan(InsertByDensity(h, sorted), bound)
    decreases |sorted|
  {
    if sorted != [] && h.trafficDensity < sorted[0].trafficDensity {
      InsertByDensityBound(h, sorted[1..], bound);
    }
  }

  lemma ConsDensestFirst(h: Hotspot, rest: seq<Hotspot>)
    requires DensestFirst(rest) && NoDenserThan(rest, h.trafficDensity)
    ensures DensestFirst([h] + rest)
  {
    var r := [h] + rest;
    forall i, j | 0 <= i < j < |r| ensures r[i].trafficDensity >= r[j].trafficDensity {
      assert r[j] == rest[j - 1];
      if i > 0 {
        assert r[i] == rest[i - 1];
      }
    }
  }

  /** Inserting into a list sorted densest first keeps it sorted. */
  lemma {:induction false} InsertByDensitySorted(h: Hotspot, sorted: seq<Hotspot>)
    requires DensestFirst(sorted)
    ensures DensestFirst(InsertByDensity(h, sorted))
    decreases |sorted|
  {
    if sorted == [] {
    } else if h.trafficDensity >= sorted[0].trafficDensity {
      ConsDensestFirst(h, sorted);
    } else {
      var rest := sorted[1..];
      assert DensestFirst(rest) && NoDenserThan(rest, sorted[0].trafficDensity) by {
        forall k | 0 <= k < |rest| ensures rest[k] == sorted[k + 1] { }
      }
      InsertByDensitySorted(h, rest);
      InsertByDensityBound(h, rest, sorted[0].trafficDensity);
      ConsDensestFirst(sorted[0], InsertByDensity(h, rest));
    }
  }

  /** Inserting keeps every other density class in order and puts `h` first among its equals. */
  lemma {:induction false} InsertByDensityStable(h: Hotspot, sorted: seq<Hotspot>, v: real)
    ensures WithDensity(InsertByDensity(h, sorted), v) ==
      (if h.trafficDensity == v then [h] + WithDensity(sorted, v) else WithDensity(sorted, v))
    decreases |sorted|
  {
    if sorted == [] {
      assert WithDensity([h], v) == (if h.trafficDensity == v then [h] else []) + WithDensity([], v);
    } else if h.trafficDensity >= sorted[0].trafficDensity {
      assert ([h] + sorted)[1..] == sorted;
    } else {
      var rest := sorted[1..];
      InsertByDensityStable(h, rest, v);
      assert ([sorted[0]] + InsertByDensity(h, rest))[1..] == InsertByDensity(h, rest);
    }
  }

  /** The sort orders by non-increasing density. */
  lemma {:induction false} SortByDensitySorted(hs: seq<Hotspot>)
    ensures DensestFirst(SortByDensity(hs))
    decreases |hs|
  {
    if hs != [] {
      SortByDensitySorted(hs[1..]);
      InsertByDensitySorted(hs[0], SortByDensity(hs[1..]));
    }
  }

  /** The sort only rearranges its input. */
  lemma {:induction false} SortByDensityPermutes(hs: seq<Hotspot>)
    ensures multiset(SortByDensity(hs)) == multiset(hs)
    decreases |hs|
  {
    if hs != [] {
      var rest := SortByDensity(hs[1..]);
      SortByDensityPermutes(hs[1..]);
      InsertByDensityPermutes(hs[0], rest);
      assert SortByDensity(hs) == InsertByDensity(hs[0], rest);
      assert hs == [hs[0]] + hs[1..];
      assert multiset(hs) == multiset{hs[0]} + multiset(hs[1..]);
    }
  }

  /** The sort is stable: for every density value, the elements with that density keep their order. */
  lemma {:induction false} SortByDensityStable(hs: seq<Hotspot>, v: real)
    ensures WithDensity(SortByDensity(hs), v) == WithDensity(hs, v)
    decreases |hs|
  {
    if hs != [] {
      SortByDensityStable(hs[1..], v);
      InsertByDensityStable(hs[0], SortByDensity(hs[1..]), v);
    }
  }

  /** Within each density class the filter keeps the order of its input. */
  lemma {:induction false} KeepCongestedWithDensity(hs: seq<Hotspot>, v: real)
    ensures WithDensity(KeepCongested(hs), v) == KeepCongested(WithDensity(hs, v))
    decreases |hs|
  {
    if hs != [] {
      var h, rest := hs[0], hs[1..];
      var head := if h.trafficDensity == v then [h] else [];
      KeepCongestedWithDensity(rest, v);
      KeepCongestedAppend(head, WithDensity(rest, v));
      if IsCongested(h) {
        assert ([h] + KeepCongested(rest))[1..] == KeepCongested(rest);
      }
      if head != [] {
        assert head[1..] == [];
      }
    }
  }

  predicate DistinctHotspotIds(hs: seq<Hotspot>) {
    forall i, j :: 0 <= i < j < |hs| ==> hs[i].signalId != hs[j].signalId
  }

  lemma DistinctTail(hs: seq<Hotspot>)
    requires hs != [] && DistinctHotspotIds(hs)
    ensures DistinctHotspotIds(hs[1..])
    ensures forall x :: x in hs[1..] ==> x.signalId != hs[0].signalId
  {
    var rest := hs[1..];
    forall i, j | 0 <= i < j < |rest| ensures rest[i].signalId != rest[j].signalId {
      assert rest[i] == hs[i + 1] && rest[j] == hs[j + 1];
    }
    forall x | x in rest ensures x.signalId != hs[0].signalId {
      var m :| 0 <= m < |rest| && rest[m] == x;
      assert hs[m + 1] == x;
    }
  }

  lemma DistinctCons(h: Hotspot, rest: seq<Hotspot>)
    requires DistinctHotspotIds(rest)
    requires forall x :: x in rest ==> x.signalId != h.signalId
    ensures DistinctHotspotIds([h] + rest)
  {
    var r := [h] + rest;
    forall i, j | 0 <= i < j < |r| ensures r[i].signalId != r[j].signalId {
      assert r[j] == rest[j - 1];
      if i > 0 {
        assert r[i] == rest[i - 1];
      }
    }
  }

  lemma {:induction false} KeepCongestedDistinct(hs: seq<Hotspot>)
    requires DistinctHotspotIds(hs)
    ensures DistinctHotspotIds(KeepCongested(hs))
    decreases |hs|
  {
    if hs != [] {
      DistinctTail(hs);
      KeepCongestedDistinct(hs[1..]);
      if IsCongested(hs[0]) {
        DistinctCons(hs[0], KeepCongested(hs[1..]));
      }
    }
  }

  lemma {:induction false} InsertByDensityDistinct(h: Hotspot, sorted: seq<Hotspot>)
    requires DistinctHotspotIds(sorted)
    requires forall x :: x in sorted ==> x.signalId != h.signalId
    ensures DistinctHotspotIds(InsertByDensity(h, sorted))
    decreases |sorted|
  {
    if sorted == [] {
    } else if h.trafficDensity >= sorted[0].trafficDensity {
      DistinctCons(h, sorted);
    } else {
      var rest := sorted[1..];
      DistinctTail(sorted);
      InsertByDensityDistinct(h, rest);
      InsertByDensityPermutes(h, rest);
      var inserted := InsertByDensity(h, rest);
      forall x | x in inserted ensures x.signalId != sorted[0].signalId {
        assert x in multiset(inserted);
        if x != h {
          assert x in multiset(rest);
        }
      }
      DistinctCons(sorted[0], inserted);
    }
  }

  lemma {:induction false} SortByDensityDistinct(hs: seq<Hotspot>)
    requires DistinctHotspotIds(hs)
    ensures DistinctHotspotIds(SortByDensity(hs))
    decreases |hs|
  {
    if hs != [] {
      DistinctTail(hs);
      var sortedRest := SortByDensity(hs[1..]);
      SortByDensityDistinct(hs[1..]);
      SortByDensityPermutes(hs[1..]);
      forall x | x in sortedRest ensures x.signalId != hs[0].signalId {
        assert x in multiset(sortedRest);
        assert x in multiset(hs[1..]);
      }
      InsertByDensityDistinct(hs[0], sortedRest);
    }
  }

  /** With distinct signal ids, no two hotspots name the same signal. */
  lemma HotspotsDistinct(signals: seq<Signal>, samples: seq<TrafficSample>)
    requires DistinctIds(signals)
    ensures DistinctHotspotIds(ComputeHotspots(signals, samples))
  {
    var mapped := ToHotspots(signals, samples);
    assert DistinctHotspotIds(mapped);
    KeepCongestedDistinct(mapped);
    SortByDensityDistinct(KeepCongested(mapped));
  }

  /** A record is a hotspot exactly when it is congested and is the record of one of the signals. */
  lemma HotspotsMembers(signals: seq<Signal>, samples: seq<TrafficSample>)
    ensures forall h :: h in ComputeHotspots(signals, samples) <==>
      IsCongested(h) && exists i :: 0 <= i < |signals| && h == ToHotspot(signals[i], samples)
  {
    var mapped := ToHotspots(signals, samples);
    var kept := KeepCongested(mapped);
    SortByDensityPermutes(kept);
    forall h ensures h in ComputeHotspots(signals, samples) <==> h in kept {
      assert h in ComputeHotspots(signals, samples) <==> h in multiset(ComputeHotspots(signals, samples));
      assert h in kept <==> h in multiset(kept);
    }
    forall h | h in mapped ensures exists i :: 0 <= i < |signals| && h == ToHotspot(signals[i], samples) {
      var i :| 0 <= i < |mapped| && mapped[i] == h;
    }
  }

  /**
   * The hotspot list is sorted densest first, stable, and holds exactly the congested records of
   * the mapped signals: nothing invented, nothing duplicated, nothing dropped. Records of equal
   * density come in signal order, and with distinct signal ids no signal appears twice.
   */
  lemma HotspotsCorrect(signals: seq<Signal>, samples: seq<TrafficSample>)
    ensures DensestFirst(ComputeHotspots(signals, samples))
    ensures multiset(ComputeHotspots(signals, samples)) == multiset(KeepCongested(ToHotspots(signals, samples)))
    ensures forall h :: multiset(ComputeHotspots(signals, samples))[h] ==
                        (if IsCongested(h) then multiset(ToHotspots(signals, samples))[h] else 0)
    ensures forall v: real :: WithDensity(ComputeHotspots(signals, samples), v) ==
                              WithDensity(KeepCongested(ToHotspots(signals, samples)), v)
    ensures forall v: real :: WithDensity(ComputeHotspots(signals, samples), v) ==
                              KeepCongested(WithDensity(ToHotspots(signals, samples), v))
    ensures forall h :: h in ComputeHotspots(signals, samples) <==>
      IsCongested(h) && exists i :: 0 <= i < |signals| && h == ToHotspot(signals[i], samples)
    ensures DistinctIds(signals) ==> DistinctHotspotIds(ComputeHotspots(signals, samples))
  {
    var mapped := ToHotspots(signals, samples);
    var kept := KeepCongested(mapped);
    SortByDensitySorted(kept);
    SortByDensityPermutes(kept);
    forall v: real ensures WithDensity(ComputeHotspots(signals, samples), v) == WithDensity(kept, v)
      && WithDensity(ComputeHotspots(signals, samples), v) == KeepCongested(WithDensity(mapped, v))
    {
      SortByDensityStable(kept, v);
      KeepCongestedWithDensity(mapped, v);
    }
    HotspotsMembers(signals, samples);
    if DistinctIds(signals) {
      HotspotsDistinct(signals, samples);
    }
  }

  /** A signal without a sample is classified `low` and never becomes a hotspot. */
  lemma NoSampleNoHotspot(s: Signal, samples: seq<TrafficSample>)
    requires forall k :: 0 <= k < |samples| ==> samples[k].signalId != s.signalId
    ensures ToHotspot(s, samples).congestionLevel == Low && ToHotspot(s, samples).vehicleCount == 0
    ensures !IsCongested(ToHotspot(s, samples))
  {
  }

  /** In a snapshot of the simulator, the sample a signal's hotspot record reads is the signal's own table entry. */
  lemma SnapshotHotspot(signals: seq<Signal>, data: map<string, TrafficSample>, i: nat)
    requires Consistent(signals, data)
    requires i < |signals|
    ensures var h := ToHotspot(signals[i], Samples(signals, data));
      && h.congestionLevel == GetCongestionLevel(signals[i].trafficDensity)
      && h.vehicleCount == data[signals[i].signalId].vehicleCount
  {
    var samples := Samples(signals, data);
    var id := signals[i].signalId;
    assert samples[i].signalId == id;
    match FindSample(samples, id)
    case Some(k) =>
      assert data[signals[k].signalId].signalId == signals[k].signalId;
      assert signals[k].signalId == id;
  }

  /** In a snapshot of the simulator, a signal's record is congested exactly when its density is at least 50. */
  lemma SnapshotCongested(signals: seq<Signal>, data: map<string, TrafficSample>)
    requires Consistent(signals, data)
    ensures forall i :: 0 <= i < |signals| ==>
      (IsCongested(ToHotspot(signals[i], Samples(signals, data))) <==> signals[i].trafficDensity >= 50.0)
  {
    forall i | 0 <= i < |signals| ensures
      IsCongested(ToHotspot(signals[i], Samples(signals, data))) <==> signals[i].trafficDensity >= 50.0
    {
      SnapshotHotspot(signals, data, i);
    }
  }

  /**
   * In a snapshot of the simulator, the level taken from the sample agrees with the density taken
   * from the signal, so every hotspot has density at least 50 and the level of that density.
   */
  lemma SnapshotHotspotsLevels(signals: seq<Signal>, data: map<string, TrafficSample>)
    requires Consistent(signals, data)
    ensures forall h :: h in ComputeHotspots(signals, Samples(signals, data)) ==>
      h.congestionLevel == GetCongestionLevel(h.trafficDensity) && h.trafficDensity >= 50.0
  {
    var samples := Samples(signals, data);
    HotspotsMembers(signals, samples);
    forall h | h in ComputeHotspots(signals, samples)
      ensures h.congestionLevel == GetCongestionLevel(h.trafficDensity) && h.trafficDensity >= 50.0
    {
      var i :| 0 <= i < |signals| && h == ToHotspot(signals[i], samples);
      SnapshotHotspot(signals, data, i);
    }
  }

  /** In a snapshot of the simulator, every signal with density at least 50 is a hotspot. */
  lemma SnapshotHotspotsComplete(signals: seq<Signal>, data: map<string, TrafficSample>)
    requires Consistent(signals, data)
    ensures forall i :: 0 <= i < |signals| && signals[i].trafficDensity >= 50.0 ==>
      ToHotspot(signals[i], Samples(signals, data)) in ComputeHotspots(signals, Samples(signals, data))
  {
    var samples := Samples(signals, data);
    HotspotsMembers(signals, samples);
    SnapshotCongested(signals, data);
  }

  /** Keeping the congested records of a four-signal list and sorting them, for the start-up levels. */
  lemma FourSignalHotspots(mapped: seq<Hotspot>)
    requires |mapped| == 4
    requires !IsCongested(mapped[0]) && IsCongested(mapped[1]) && !IsCongested(mapped[2]) && IsCongested(mapped[3])
    requires mapped[1].trafficDensity < mapped[3].trafficDensity
    ensures SortByDensity(KeepCongested(mapped)) == [mapped[3], mapped[1]]
  {
    var m1, m3 := mapped[1], mapped[3];
    assert KeepCongested(mapped[3..]) == [m3] by {
      assert mapped[3..][1..] == [];
    }
    assert KeepCongested(mapped[2..]) == [m3] by {
      assert mapped[2..][1..] == mapped[3..];
    }
    assert KeepCongested(mapped[1..]) == [m1, m3] by {
      assert mapped[1..][1..] == mapped[2..];
    }
    assert SortByDensity([m3]) == [m3] by {
      assert [m3][1..] == [];
    }
    assert SortByDensity([m1, m3]) == [m3, m1] by {
      assert [m1, m3][1..] == [m3];
      assert InsertByDensity(m1, [m3]) == [m3] + InsertByDensity(m1, []);
    }
  }

  /** A four-signal snapshot whose second and fourth signals are at least 50 dense, the fourth the densest. */
  lemma FourSignalSnapshot(signals: seq<Signal>, data: map<string, TrafficSample>)
    requires Consistent(signals, data) && |signals| == 4
    requires signals[0].trafficDensity < 50.0 && signals[2].trafficDensity < 50.0
    requires 50.0 <= signals[1].trafficDensity < signals[3].trafficDensity
    ensures var samples := Samples(signals, data);
      ComputeHotspots(signals, samples) == [ToHotspot(signals[3], samples), ToHotspot(signals[1], samples)]
  {
    var samples := Samples(signals, data);
    SnapshotCongested(signals, data);
    var mapped := ToHotspots(signals, samples);
    assert forall i :: 0 <= i < 4 ==> mapped[i] == ToHotspot(signals[i], samples);
    FourSignalHotspots(mapped);
  }

  /** Right after start-up the hotspots are S004 (density 80, severe) then S002 (65, high). */
  lemma InitialHotspots(signals: seq<Signal>, data: map<string, TrafficSample>)
    requires signals == Simulator.InitialSignals()
    requires Consistent(signals, data)
    ensures var hs := ComputeHotspots(signals, Samples(signals, data));
      |hs| == 2 && hs[0].signalId == "S004" && hs[1].signalId == "S002"
  {
    FourSignalSnapshot(signals, data);
  }
}
