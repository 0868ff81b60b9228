/**
 * Values and pure rules of the traffic simulator (server/utils/trafficSimulator.js):
 * the records it keeps, the congestion classifier, the colour cycle, the density
 * clamp, the per-signal sample derived from a density, the vehicle list derived
 * from the samples, and the consistency invariant between signals and samples.
 */
module TrafficModel {

  datatype Option<+T> = None | Some(value: T)

  datatype Color = Red | Yellow | Green
  datatype Status = Active | Maintenance | Offline
  datatype Level = Low | Medium | High | Severe
  datatype VehicleKind = Car | Truck | Bus | Motorcycle | Bicycle

  datatype Location = Location(lat: real, lng: real, name: string)
  datatype Timing = Timing(red: int, yellow: int, green: int)

  datatype Signal = Signal(
    signalId: string,
    location: Location,
    currentState: Color,
    timing: Timing,
    trafficDensity: real,
    status: Status)

  /** One entry of the per-signal traffic-data table. */
  datatype TrafficSample = TrafficSample(
    signalId: string,
    vehicleCount: nat,
    averageSpeed: real,
    trafficDensity: real,
    congestionLevel: Level)

  datatype Vehicle = Vehicle(
    vehicleId: string,
    kind: VehicleKind,
    lat: real,
    lng: real,
    speed: int,
    direction: int,
    signalId: string)

  /** The random numbers drawn for one generated vehicle, already scaled and floored. */
  datatype VehicleDraw = VehicleDraw(
    kind: VehicleKind,
    latJitter: real,
    lngJitter: real,
    speedOffset: int,
    direction: int)

  /** The ranges `Math.random()` gives these draws. */
  predicate DrawInRange(d: VehicleDraw) {
    && -0.005 <= d.latJitter < 0.005
    && -0.005 <= d.lngJitter < 0.005
    && 0 <= d.speedOffset < 40
    && 0 <= d.direction < 360
  }

  // ---------------------------------------------------------------- congestion

  /** `getCongestionLevel`: the level lies in the band its density falls into. */
  function GetCongestionLevel(density: real): (l: Level)
    ensures InBand(l, density)
  {
    if density < 30.0 then Low
    else if density < 50.0 then Medium
    else if density < 70.0 then High
    else Severe
  }

  function Rank(l: Level): nat {
    match l
    case Low => 0
    case Medium => 1
    case High => 2
    case Severe => 3
  }

  /** The band of densities each level stands for: an independent reading of the thresholds. */
  predicate InBand(l: Level, density: real) {
    match l
    case Low => density < 30.0
    case Medium => 30.0 <= density < 50.0
    case High => 50.0 <= density < 70.0
    case Severe => 70.0 <= density
  }

  lemma CongestionLevelBands(density: real, l: Level)
    ensures GetCongestionLevel(density) == l <==> InBand(l, density)
  {
  }

  lemma CongestionLevelMonotone(d1: real, d2: real)
    requires d1 <= d2
    ensures Rank(GetCongestionLevel(d1)) <= Rank(GetCongestionLevel(d2))
  {
  }

  lemma CongestionLevelExamples()
    ensures GetCongestionLevel(29.5) == Low
    ensures GetCongestionLevel(30.0) == Medium
    ensures GetCongestionLevel(45.0) == Medium
    ensures GetCongestionLevel(50.0) == High
    ensures GetCongestionLevel(70.0) == Severe
    ensures GetCongestionLevel(75.0) == Severe
  {
  }

  // ---------------------------------------------------------------- colour cycle

  /** Position of a colour in the list ['red', 'yellow', 'green']. */
  function ColorIndex(c: Color): nat {
    match c
    case Red => 0
    case Yellow => 1
    case Green => 2
  }

  function ColorAt(i: nat): Color
    requires i < 3
  {
    if i == 0 then Red else if i == 1 then Yellow else Green
  }

  /** The colour after `c` in the cycle red -> yellow -> green -> red. */
  function NextColor(c: Color): (n: Color)
    ensures ColorIndex(n) == (ColorIndex(c) + 1) % 3
  {
    match c
    case Red => Yellow
    case Yellow => Green
    case Green => Red
  }

  /** The colour before `c` in the cycle: where a reversal would go. */
  function PrevColor(c: Color): Color {
    match c
    case Red => Green
    case Yellow => Red
    case Green => Yellow
  }

  /** The next colour is the one at the following index of ['red', 'yellow', 'green'], wrapping round. */
  lemma NextColorIndex(c: Color)
    ensures NextColor(c) == ColorAt((ColorIndex(c) + 1) % 3)
    ensures PrevColor(c) == ColorAt((ColorIndex(c) + 2) % 3)
  {
    match c
    case Red => assert (0 + 1) % 3 == 1 && (0 + 2) % 3 == 2;
    case Yellow => assert (1 + 1) % 3 == 2 && (1 + 2) % 3 == 0;
    case Green => assert (2 + 1) % 3 == 0 && (2 + 2) % 3 == 1;
  }

  lemma NextColorCycle(c: Color)
    ensures NextColor(c) != c && PrevColor(c) != c
    ensures NextColor(c) != PrevColor(c)
    ensures PrevColor(NextColor(c)) == c
    ensures NextColor(NextColor(NextColor(c))) == c
  {
  }

  /** One signal's colour step in a tick: advance when the draw says so. */
  function AdvanceState(s: Signal, advance: bool): (r: Signal)
    ensures r.currentState == (if advance then NextColor(s.currentState) else s.currentState)
    ensures r.(currentState := s.currentState) == s
  {
    if advance then s.(currentState := NextColor(s.currentState)) else s
  }

  /** The colour step applied to every signal. */
  function AdvanceAll(signals: seq<Signal>, advance: seq<bool>): (r: seq<Signal>)
    requires |advance| == |signals|
    ensures |r| == |signals|
    ensures forall i :: 0 <= i < |r| ==>
      r[i].currentState == signals[i].currentState || r[i].currentState == NextColor(signals[i].currentState)
    ensures forall i :: 0 <= i < |r| ==> r[i].(currentState := signals[i].currentState) == signals[i]
  {
    seq(|signals|, i requires 0 <= i < |signals| => AdvanceState(signals[i], advance[i]))
  }

  lemma AdvanceNeverReverses(signals: seq<Signal>, advance: seq<bool>, i: nat)
    requires |advance| == |signals| && i < |signals|
    ensures AdvanceAll(signals, advance)[i].currentState != PrevColor(signals[i].currentState)
  {
    var c := signals[i].currentState;
    NextColorCycle(c);
    var r := AdvanceAll(signals, advance);
    assert r[i].currentState == c || r[i].currentState == NextColor(c);
  }

  // ---------------------------------------------------------------- density

  function Max(a: real, b: real): real { if a >= b then a else b }
  function Min(a: real, b: real): real { if a <= b then a else b }

  /** `Math.max(0, Math.min(100, x))`. */
  function Clamp(x: real): (r: real)
    ensures 0.0 <= r <= 100.0
    ensures 0.0 <= x <= 100.0 ==> r == x
    ensures x < 0.0 ==> r == 0.0
    ensures x > 100.0 ==> r == 100.0
  {
    Max(0.0, Min(100.0, x))
  }

  /** Clamping towards [0,100] never moves a density that was in range further than the change. */
  lemma ClampStepBounded(d: real, change: real)
    requires 0.0 <= d <= 100.0
    ensures -Abs(change) <= Clamp(d + change) - d <= Abs(change)
  {
  }

  function Abs(x: real): real { if x < 0.0 then -x else x }

  /** A signal after its density perturbation. */
  function ShiftDensity(s: Signal, change: real): (r: Signal)
    ensures 0.0 <= r.trafficDensity <= 100.0
    ensures r.signalId == s.signalId
    ensures r == s.(trafficDensity := r.trafficDensity)
  {
    s.(trafficDensity := Clamp(s.trafficDensity + change))
  }

  lemma ShiftDensityBounded(s: Signal, change: real)
    requires 0.0 <= s.trafficDensity <= 100.0
    requires -5.0 <= change < 5.0
    ensures -5.0 <= ShiftDensity(s, change).trafficDensity - s.trafficDensity <= 5.0
  {
    ClampStepBounded(s.trafficDensity, change);
  }

  /** `Math.floor(density / 2)`. */
  function HalfFloor(density: real): int {
    (density / 2.0).Floor
  }

  /** The sample recomputed for a signal on each tick; `countOffset` is `Math.floor(Math.random() * 20)`. */
  function DensitySample(s: Signal, countOffset: nat): (r: TrafficSample)
    requires 0.0 <= s.trafficDensity
    ensures r.signalId == s.signalId && r.trafficDensity == s.trafficDensity
    ensures r.congestionLevel == GetCongestionLevel(s.trafficDensity)
    ensures r.averageSpeed >= 10.0
  {
    TrafficSample(
      s.signalId,
      HalfFloor(s.trafficDensity) + countOffset,
      Max(10.0, 50.0 - s.trafficDensity / 2.0),
      s.trafficDensity,
      GetCongestionLevel(s.trafficDensity))
  }

  /** What the derived sample promises for a density in range and an offset drawn from [0,20). */
  lemma DensitySampleBounds(s: Signal, countOffset: nat)
    requires 0.0 <= s.trafficDensity <= 100.0
    requires countOffset < 20
    ensures var r := DensitySample(s, countOffset);
      && (r.vehicleCount - countOffset) as real <= s.trafficDensity / 2.0 < (r.vehicleCount - countOffset + 1) as real
      && r.vehicleCount < 70
      && 10.0 <= r.averageSpeed <= 50.0
      && r.averageSpeed >= 50.0 - s.trafficDensity / 2.0
      && (s.trafficDensity <= 80.0 ==> r.averageSpeed == 50.0 - s.trafficDensity / 2.0)
      && (s.trafficDensity >= 80.0 ==> r.averageSpeed == 10.0)
  {
    var h := HalfFloor(s.trafficDensity);
    assert h as real <= s.trafficDensity / 2.0 < h as real + 1.0;
    assert h <= 50;
  }

  /** The sample created for each signal at start-up: counts and speeds drawn independently of density. */
  function InitialSample(s: Signal, countDraw: nat, speedDraw: nat): (r: TrafficSample)
    ensures r.signalId == s.signalId && r.trafficDensity == s.trafficDensity
    ensures r.congestionLevel == GetCongestionLevel(s.trafficDensity)
    ensures r.vehicleCount >= 10 && r.averageSpeed >= 20.0
  {
    TrafficSample(s.signalId, countDraw + 10, (speedDraw + 20) as real,
                  s.trafficDensity, GetCongestionLevel(s.trafficDensity))
  }

  // ---------------------------------------------------------------- timing

  /** The keys a timing update may carry; absent keys keep their value. */
  datatype TimingPatch = TimingPatch(red: Option<int>, yellow: Option<int>, green: Option<int>)

  function Pick(update: Option<int>, current: int): int {
    match update
    case Some(v) => v
    case None => current
  }

  /** `{ ...signal.timing, ...timing }`. */
  function MergeTiming(t: Timing, patch: TimingPatch): (r: Timing)
    ensures patch.red.Some? ==> r.red == patch.red.value
    ensures patch.red.None? ==> r.red == t.red
    ensures patch.yellow.Some? ==> r.yellow == patch.yellow.value
    ensures patch.yellow.None? ==> r.yellow == t.yellow
    ensures patch.green.Some? ==> r.green == patch.green.value
    ensures patch.green.None? ==> r.green == t.green
  {
    Timing(Pick(patch.red, t.red), Pick(patch.yellow, t.yellow), Pick(patch.green, t.green))
  }

  /** Merging is idempotent, and the empty update and the full update behave as expected. */
  lemma MergeTimingLaws(t: Timing, patch: TimingPatch)
    ensures MergeTiming(MergeTiming(t, patch), patch) == MergeTiming(t, patch)
    ensures MergeTiming(t, TimingPatch(None, None, None)) == t
    ensures MergeTiming(t, TimingPatch(Some(t.red), Some(t.yellow), Some(t.green))) == t
  {
  }

  // ---------------------------------------------------------------- lookup

  /** `Array.prototype.find` as an index: the first element satisfying `p`. */
  function FindFirst<T>(s: seq<T>, p: T -> bool): (r: Option<nat>)
    ensures r.Some? ==> r.value < |s| && p(s[r.value])
    ensures r.Some? ==> forall k :: 0 <= k < r.value ==> !p(s[k])
    ensures r.None? <==> forall k :: 0 <= k < |s| ==> !p(s[k])
  {
    if s == [] then None
    else if p(s[0]) then Some(0)
    else match FindFirst(s[1..], p)
      case None => None
      case Some(k) => Some(k + 1)
  }

  function FindSignal(signals: seq<Signal>, id: string): (r: Option<nat>)
    ensures r.Some? ==> r.value < |signals| && signals[r.value].signalId == id
    ensures r.Some? ==> forall k :: 0 <= k < r.value ==> signals[k].signalId != id
    ensures r.None? <==> forall k :: 0 <= k < |signals| ==> signals[k].signalId != id
  {
    FindFirst(signals, (s: Signal) => s.signalId == id)
  }

  // ---------------------------------------------------------------- consistency

  predicate DistinctIds(signals: seq<Signal>) {
    forall i, j :: 0 <= i < j < |signals| ==> signals[i].signalId != signals[j].signalId
  }

  /** The set of ids of a signal list (the keys its traffic-data table should have). */
  function Ids(signals: seq<Signal>): set<string>
    decreases |signals|
  {
    if signals == [] then {} else Ids(signals[..|signals| - 1]) + {signals[|signals| - 1].signalId}
  }

  lemma {:induction false} IdsMembers(signals: seq<Signal>, x: string)
    ensures x in Ids(signals) <==> exists i :: 0 <= i < |signals| && signals[i].signalId == x
    decreases |signals|
  {
    if signals != [] {
      var last := |signals| - 1;
      var front := signals[..last];
      IdsMembers(front, x);
      if x in Ids(front) {
        var i :| 0 <= i < |front| && front[i].signalId == x;
        assert signals[i].signalId == x;
      }
      if i :| 0 <= i < last && signals[i].signalId == x {
        assert front[i].signalId == x;
      }
    }
  }

  /** The sample kept for `s` is `s`'s own and agrees with it. */
  predicate SampleAgrees(s: Signal, data: map<string, TrafficSample>) {
    && s.signalId in data
    && data[s.signalId].signalId == s.signalId
    && data[s.signalId].trafficDensity == s.trafficDensity
    && data[s.signalId].congestionLevel == GetCongestionLevel(s.trafficDensity)
    && data[s.signalId].averageSpeed >= 10.0
  }

  /**
   * The invariant the simulator keeps: ids are unique, the table has exactly one entry
   * per signal, each density lies in [0,100] and each sample agrees with its signal.
   */
  predicate Consistent(signals: seq<Signal>, data: map<string, TrafficSample>) {
    && DistinctIds(signals)
    && data.Keys == Ids(signals)
    && forall i :: 0 <= i < |signals| ==>
         0.0 <= signals[i].trafficDensity <= 100.0 && SampleAgrees(signals[i], data)
  }

  /** `Object.values(trafficData)`: one sample per signal, in signal order. */
  function Samples(signals: seq<Signal>, data: map<string, TrafficSample>): (r: seq<TrafficSample>)
    requires forall i :: 0 <= i < |signals| ==> signals[i].signalId in data
    ensures |r| == |signals|
    ensures forall i :: 0 <= i < |r| ==> r[i] == data[signals[i].signalId]
  {
    seq(|signals|, i requires 0 <= i < |signals| => data[signals[i].signalId])
  }

  /** Under the invariant, the sample list lines up with the signal list field by field. */
  lemma {:induction false} SamplesAgree(signals: seq<Signal>, data: map<string, TrafficSample>)
    requires Consistent(signals, data)
    ensures var r := Samples(signals, data);
      forall i :: 0 <= i < |r| ==>
        && r[i].signalId == signals[i].signalId
        && r[i].trafficDensity == signals[i].trafficDensity
        && 0.0 <= r[i].trafficDensity <= 100.0
        && r[i].congestionLevel == GetCongestionLevel(r[i].trafficDensity)
        && r[i].averageSpeed >= 10.0
  {
  }

  predicate SameIds(a: seq<Signal>, b: seq<Signal>) {
    |a| == |b| && forall i :: 0 <= i < |a| ==> a[i].signalId == b[i].signalId
  }

  /** Signal lists with the same ids position by position have the same id set and the same uniqueness. */
  lemma {:induction false} SameIdsSameSet(a: seq<Signal>, b: seq<Signal>)
    requires SameIds(a, b)
    ensures Ids(a) == Ids(b)
    ensures DistinctIds(a) ==> DistinctIds(b)
    decreases |a|
  {
    if a != [] {
      var last := |a| - 1;
      assert SameIds(a[..last], b[..last]) by {
        forall i | 0 <= i < last ensures a[..last][i].signalId == b[..last][i].signalId {
          assert a[..last][i] == a[i] && b[..last][i] == b[i];
        }
      }
      SameIdsSameSet(a[..last], b[..last]);
    }
  }

  /** A change that leaves every id and every density alone keeps the invariant. */
  lemma SameIdsAndDensitiesConsistent(a: seq<Signal>, b: seq<Signal>, data: map<string, TrafficSample>)
    requires Consistent(a, data)
    requires SameIds(a, b)
    requires forall i :: 0 <= i < |a| ==> a[i].trafficDensity == b[i].trafficDensity
    ensures Consistent(b, data)
  {
    SameIdsSameSet(a, b);
  }

  /** The density change applied to every signal. */
  function ShiftAll(signals: seq<Signal>, changes: seq<real>): (r: seq<Signal>)
    requires |changes| == |signals|
    ensures |r| == |signals|
    ensures forall i :: 0 <= i < |r| ==> 0.0 <= r[i].trafficDensity <= 100.0
    ensures forall i :: 0 <= i < |r| ==> r[i].(trafficDensity := signals[i].trafficDensity) == signals[i]
  {
    seq(|signals|, i requires 0 <= i < |signals| => ShiftDensity(signals[i], changes[i]))
  }

  /** The table after each signal's sample has been recomputed, in signal order. */
  function Resample(data: map<string, TrafficSample>, signals: seq<Signal>, countOffsets: seq<nat>): map<string, TrafficSample>
    requires |countOffsets| == |signals|
    requires forall i :: 0 <= i < |signals| ==> 0.0 <= signals[i].trafficDensity
    decreases |signals|
  {
    if signals == [] then data
    else
      var last := |signals| - 1;
      Resample(data, signals[..last], countOffsets[..last])[signals[last].signalId := DensitySample(signals[last], countOffsets[last])]
  }

  /** Recomputing the samples adds exactly the signals' ids as keys. */
  lemma {:induction false} ResampleKeys(data: map<string, TrafficSample>, signals: seq<Signal>, countOffsets: seq<nat>)
    requires |countOffsets| == |signals|
    requires forall i :: 0 <= i < |signals| ==> 0.0 <= signals[i].trafficDensity
    ensures Resample(data, signals, countOffsets).Keys == data.Keys + Ids(signals)
    decreases |signals|
  {
    if signals != [] {
      var last := |signals| - 1;
      ResampleKeys(data, signals[..last], countOffsets[..last]);
    }
  }

  /** With unique ids, every signal ends up with exactly its own recomputed sample. */
  lemma {:induction false} ResampleAt(data: map<string, TrafficSample>, signals: seq<Signal>, countOffsets: seq<nat>, i: nat)
    requires |countOffsets| == |signals|
    requires forall k :: 0 <= k < |signals| ==> 0.0 <= signals[k].trafficDensity
    requires DistinctIds(signals)
    requires i < |signals|
    ensures signals[i].signalId in Resample(data, signals, countOffsets)
    ensures Resample(data, signals, countOffsets)[signals[i].signalId] == DensitySample(signals[i], countOffsets[i])
    decreases |signals|
  {
    var last := |signals| - 1;
    if i < last {
      var front := signals[..last];
      assert front[i] == signals[i] && countOffsets[..last][i] == countOffsets[i];
      ResampleAt(data, front, countOffsets[..last], i);
    }
  }

  /** Entries whose key is not a signal id are left alone. */
  lemma {:induction false} ResampleOther(data: map<string, TrafficSample>, signals: seq<Signal>, countOffsets: seq<nat>, id: string)
    requires |countOffsets| == |signals|
    requires forall k :: 0 <= k < |signals| ==> 0.0 <= signals[k].trafficDensity
    requires id in data && id !in Ids(signals)
    ensures id in Resample(data, signals, countOffsets) && Resample(data, signals, countOffsets)[id] == data[id]
    decreases |signals|
  {
    if signals != [] {
      var last := |signals| - 1;
      ResampleOther(data, signals[..last], countOffsets[..last], id);
    }
  }

  /** The density step keeps the invariant: the new densities are in range and every new sample agrees with its signal. */
  lemma DensityStepConsistent(signals: seq<Signal>, changes: seq<real>, countOffsets: seq<nat>, data: map<string, TrafficSample>)
    requires |changes| == |signals| && |countOffsets| == |signals|
    requires Consistent(signals, data)
    ensures Consistent(ShiftAll(signals, changes), Resample(data, ShiftAll(signals, changes), countOffsets))
  {
    var after := ShiftAll(signals, changes);
    var data' := Resample(data, after, countOffsets);
    SameIdsSameSet(signals, after);
    ResampleKeys(data, after, countOffsets);
    forall i | 0 <= i < |after| ensures SampleAgrees(after[i], data') {
      ResampleAt(data, after, countOffsets, i);
    }
  }

  /** The colour step leaves ids and densities alone, so the invariant carries over. */
  lemma AdvanceKeepsConsistent(signals: seq<Signal>, advance: seq<bool>, data: map<string, TrafficSample>)
    requires |advance| == |signals|
    requires Consistent(signals, data)
    ensures Consistent(AdvanceAll(signals, advance), data)
  {
    SameIdsAndDensitiesConsistent(signals, AdvanceAll(signals, advance), data);
  }

  // ---------------------------------------------------------------- vehicles

  /** Decimal rendering of a natural number, as a template literal prints it. */
  function NatToString(n: nat): (r: string)
    ensures |r| >= 1
    ensures forall k :: 0 <= k < |r| ==> '0' <= r[k] <= '9'
    decreases n
  {
    if n < 10 then [DigitChar(n)] else NatToString(n / 10) + [DigitChar(n % 10)]
  }

  function DigitChar(d: nat): (c: char)
    requires d < 10
    ensures '0' <= c <= '9'
  {
    ('0' as int + d) as char
  }

  predicate AllDigits(s: string) {
    forall k :: 0 <= k < |s| ==> '0' <= s[k] <= '9'
  }

  /** The value of a decimal numeral, most significant digit first. */
  function ParseDigits(s: string): nat
    requires AllDigits(s)
    decreases |s|
  {
    if s == [] then 0 else ParseDigits(s[..|s| - 1]) * 10 + (s[|s| - 1] as int - '0' as int)
  }

  /** Reading back the numeral of `n` gives `n`. */
  lemma {:induction false} NatToStringRoundTrip(n: nat)
    ensures ParseDigits(NatToString(n)) == n
    decreases n
  {
    var r := NatToString(n);
    if n < 10 {
      assert r[..|r| - 1] == [];
    } else {
      NatToStringRoundTrip(n / 10);
      assert r[..|r| - 1] == NatToString(n / 10);
    }
  }

  /** The position of the last `c` in `s`. */
  function LastIndexOf(s: string, c: char): (r: Option<nat>)
    ensures r.Some? ==> r.value < |s| && s[r.value] == c
    decreases |s|
  {
    if s == [] then None
    else if s[|s| - 1] == c then Some(|s| - 1)
    else LastIndexOf(s[..|s| - 1], c)
  }

  lemma {:induction false} LastIndexOfBeforeDigits(u: string, t: string)
    requires AllDigits(t)
    ensures LastIndexOf(u + "-" + t, '-') == Some(|u|)
    decreases |t|
  {
    var s := u + "-" + t;
    if t != [] {
      var t' := t[..|t| - 1];
      assert s[..|s| - 1] == u + "-" + t';
      LastIndexOfBeforeDigits(u, t');
    }
  }

  /** `V${signalId}-${i}`. */
  function VehicleId(signalId: string, i: nat): string {
    "V" + signalId + "-" + NatToString(i)
  }

  /** Splits a vehicle id at its last dash into the signal id and the vehicle's number. */
  function ParseVehicleId(vid: string): Option<(string, nat)> {
    match LastIndexOf(vid, '-')
    case None => None
    case Some(p) =>
      if 1 <= p && vid[0] == 'V' && p + 1 < |vid| && AllDigits(vid[p + 1..])
      then Some((vid[1..p], ParseDigits(vid[p + 1..])))
      else None
  }

  /** A vehicle id names its signal and its number unambiguously, even when signal ids contain dashes. */
  lemma VehicleIdRoundTrip(signalId: string, i: nat)
    ensures ParseVehicleId(VehicleId(signalId, i)) == Some((signalId, i))
  {
    var vid := VehicleId(signalId, i);
    var digits := NatToString(i);
    assert AllDigits(digits);
    LastIndexOfBeforeDigits("V" + signalId, digits);
    assert vid == ("V" + signalId) + "-" + digits;
    var p := |signalId| + 1;
    assert vid[1..p] == signalId;
    assert vid[p + 1..] == digits;
    NatToStringRoundTrip(i);
  }

  lemma VehicleIdInjective(a: string, i: nat, b: string, j: nat)
    ensures VehicleId(a, i) == VehicleId(b, j) ==> a == b && i == j
  {
    VehicleIdRoundTrip(a, i);
    VehicleIdRoundTrip(b, j);
  }

  /** The vehicle built from one draw: with the draw in range, speed, heading and position stay in their ranges. */
  function MakeVehicle(s: Signal, i: nat, d: VehicleDraw): (v: Vehicle)
    ensures v.signalId == s.signalId
    ensures DrawInRange(d) ==>
      && 20 <= v.speed < 60 && 0 <= v.direction < 360
      && s.location.lat - 0.005 <= v.lat < s.location.lat + 0.005
      && s.location.lng - 0.005 <= v.lng < s.location.lng + 0.005
  {
    Vehicle(VehicleId(s.signalId, i), d.kind,
            s.location.lat + d.latJitter, s.location.lng + d.lngJitter,
            d.speedOffset + 20, d.direction, s.signalId)
  }

  /** The first `n` vehicles generated for the signal at position `idx`. */
  function SignalVehicles(s: Signal, idx: nat, n: nat, draw: (nat, nat) -> VehicleDraw): (r: seq<Vehicle>)
    ensures |r| == n
    ensures forall k :: 0 <= k < n ==> r[k] == MakeVehicle(s, k, draw(idx, k))
  {
    if n == 0 then [] else SignalVehicles(s, idx, n - 1, draw) + [MakeVehicle(s, n - 1, draw(idx, n - 1))]
  }

  predicate Covers(signals: seq<Signal>, data: map<string, TrafficSample>) {
    forall i :: 0 <= i < |signals| ==> signals[i].signalId in data
  }

  lemma ConsistentCovers(signals: seq<Signal>, data: map<string, TrafficSample>)
    requires Consistent(signals, data)
    ensures Covers(signals, data)
  {
  }

  /** How many vehicles a signal gets: `Math.floor(vehicleCount / 5)`. */
  function VehicleQuota(s: Signal, data: map<string, TrafficSample>): nat
    requires s.signalId in data
  {
    data[s.signalId].vehicleCount / 5
  }

  /** `signals.flatMap(...)`: each signal's vehicles, in signal order. */
  function Fleet(signals: seq<Signal>, data: map<string, TrafficSample>, draw: (nat, nat) -> VehicleDraw): seq<Vehicle>
    requires Covers(signals, data)
    decreases |signals|
  {
    if signals == [] then []
    else
      var last := |signals| - 1;
      Fleet(signals[..last], data, draw) + SignalVehicles(signals[last], last, VehicleQuota(signals[last], data), draw)
  }

  function FleetSize(signals: seq<Signal>, data: map<string, TrafficSample>): nat
    requires Covers(signals, data)
    decreases |signals|
  {
    if signals == [] then 0
    else FleetSize(signals[..|signals| - 1], data) + VehicleQuota(signals[|signals| - 1], data)
  }

  lemma {:induction false} FleetLength(signals: seq<Signal>, data: map<string, TrafficSample>, draw: (nat, nat) -> VehicleDraw)
    requires Covers(signals, data)
    ensures |Fleet(signals, data, draw)| == FleetSize(signals, data)
    decreases |signals|
  {
    if signals != [] {
      FleetLength(signals[..|signals| - 1], data, draw);
    }
  }

  /** Every generated vehicle is the k-th vehicle of some signal i, with k below that signal's quota. */
  lemma {:induction false} FleetOrigin(signals: seq<Signal>, data: map<string, TrafficSample>,
                                       draw: (nat, nat) -> VehicleDraw, v: Vehicle)
    requires Covers(signals, data)
    requires v in Fleet(signals, data, draw)
    ensures exists i: nat, k: nat ::
              i < |signals| && k < VehicleQuota(signals[i], data) && v == MakeVehicle(signals[i], k, draw(i, k))
    decreases |signals|
  {
    var last := |signals| - 1;
    var front := Fleet(signals[..last], data, draw);
    var tail := SignalVehicles(signals[last], last, VehicleQuota(signals[last], data), draw);
    assert Fleet(signals, data, draw) == front + tail;
    if v in front {
      FleetOrigin(signals[..last], data, draw, v);
      var i: nat, k: nat :| i < last && k < VehicleQuota(signals[i], data) && v == MakeVehicle(signals[i], k, draw(i, k));
      assert signals[..last][i] == signals[i];
    } else {
      var k :| 0 <= k < |tail| && tail[k] == v;
      assert v == MakeVehicle(signals[last], k, draw(last, k));
    }
  }

  /**
   * `flatMap` keeps signal order: signal i's k-th vehicle sits right after the vehicles of the
   * signals before it, at position `FleetSize(signals[..i], data) + k`.
   */
  lemma {:induction false} FleetAt(signals: seq<Signal>, data: map<string, TrafficSample>,
                                   draw: (nat, nat) -> VehicleDraw, i: nat, k: nat)
    requires Covers(signals, data)
    requires i < |signals| && k < VehicleQuota(signals[i], data)
    ensures FleetSize(signals[..i], data) + k < |Fleet(signals, data, draw)|
    ensures Fleet(signals, data, draw)[FleetSize(signals[..i], data) + k] == MakeVehicle(signals[i], k, draw(i, k))
    decreases |signals|
  {
    var last := |signals| - 1;
    var front := signals[..last];
    var tail := SignalVehicles(signals[last], last, VehicleQuota(signals[last], data), draw);
    assert Fleet(signals, data, draw) == Fleet(front, data, draw) + tail;
    FleetLength(signals, data, draw);
    FleetLength(front, data, draw);
    if i < last {
      assert front[..i] == signals[..i];
      assert front[i] == signals[i];
      FleetAt(front, data, draw, i, k);
    } else {
      assert signals[..i] == front;
    }
  }

  /**
   * Every generated vehicle carries its signal's id, the id `V<signalId>-k`, a speed in [20,60),
   * a heading in [0,360) and a position within 0.005 of the signal, when the draws are in range.
   */
  lemma FleetVehicles(signals: seq<Signal>, data: map<string, TrafficSample>,
                      draw: (nat, nat) -> VehicleDraw, v: Vehicle)
    requires Covers(signals, data)
    requires forall i: nat, k: nat :: DrawInRange(draw(i, k))
    requires v in Fleet(signals, data, draw)
    ensures 20 <= v.speed < 60 && 0 <= v.direction < 360
    ensures exists i, k: nat ::
              && 0 <= i < |signals| && v.signalId == signals[i].signalId
              && v.vehicleId == VehicleId(signals[i].signalId, k)
              && -0.005 <= v.lat - signals[i].location.lat < 0.005
              && -0.005 <= v.lng - signals[i].location.lng < 0.005
  {
    FleetOrigin(signals, data, draw, v);
    var i: nat, k: nat :| i < |signals| && k < VehicleQuota(signals[i], data) && v == MakeVehicle(signals[i], k, draw(i, k));
    assert DrawInRange(draw(i, k));
  }

  predicate UniqueVehicleIds(vs: seq<Vehicle>) {
    forall p, q :: 0 <= p < q < |vs| ==> vs[p].vehicleId != vs[q].vehicleId
  }

  lemma UniqueVehicleIdsConcat(front: seq<Vehicle>, tail: seq<Vehicle>)
    requires UniqueVehicleIds(front) && UniqueVehicleIds(tail)
    requires forall p, q :: 0 <= p < |front| && 0 <= q < |tail| ==> front[p].vehicleId != tail[q].vehicleId
    ensures UniqueVehicleIds(front + tail)
  {
    var all := front + tail;
    forall p, q | 0 <= p < q < |all| ensures all[p].vehicleId != all[q].vehicleId {
      if q < |front| {
        assert all[p] == front[p] && all[q] == front[q];
      } else if p < |front| {
        assert all[p] == front[p] && all[q] == tail[q - |front|];
      } else {
        assert all[p] == tail[p - |front|] && all[q] == tail[q - |front|];
      }
    }
  }

  lemma SignalVehiclesUnique(s: Signal, idx: nat, n: nat, draw: (nat, nat) -> VehicleDraw)
    ensures UniqueVehicleIds(SignalVehicles(s, idx, n, draw))
  {
    var batch := SignalVehicles(s, idx, n, draw);
    forall p, q | 0 <= p < q < n ensures batch[p].vehicleId != batch[q].vehicleId {
      VehicleIdInjective(s.signalId, p, s.signalId, q);
    }
  }

  /** No generated vehicle carries an id built from a signal id outside the list. */
  lemma FleetAvoidsId(signals: seq<Signal>, data: map<string, TrafficSample>, draw: (nat, nat) -> VehicleDraw,
                      id: string, k: nat)
    requires Covers(signals, data)
    requires forall i :: 0 <= i < |signals| ==> signals[i].signalId != id
    ensures forall v :: v in Fleet(signals, data, draw) ==> v.vehicleId != VehicleId(id, k)
  {
    forall v | v in Fleet(signals, data, draw) ensures v.vehicleId != VehicleId(id, k) {
      FleetOrigin(signals, data, draw, v);
      var i: nat, m: nat :| i < |signals| && m < VehicleQuota(signals[i], data) && v == MakeVehicle(signals[i], m, draw(i, m));
      VehicleIdInjective(signals[i].signalId, m, id, k);
    }
  }

  /** With distinct signal ids, no two generated vehicles share a vehicle id. */
  lemma {:induction false} FleetIdsDistinct(signals: seq<Signal>, data: map<string, TrafficSample>,
                                            draw: (nat, nat) -> VehicleDraw)
    requires Covers(signals, data)
    requires DistinctIds(signals)
    ensures UniqueVehicleIds(Fleet(signals, data, draw))
    decreases |signals|
  {
    if signals != [] {
      var last := |signals| - 1;
      var x := signals[last];
      var front := Fleet(signals[..last], data, draw);
      var tail := SignalVehicles(x, last, VehicleQuota(x, data), draw);
      FleetIdsDistinct(signals[..last], data, draw);
      SignalVehiclesUnique(x, last, VehicleQuota(x, data), draw);
      forall p, q | 0 <= p < |front| && 0 <= q < |tail| ensures front[p].vehicleId != tail[q].vehicleId {
        FleetAvoidsId(signals[..last], data, draw, x.signalId, q);
        assert front[p] in front;
      }
      UniqueVehicleIdsConcat(front, tail);
    }
  }
}
