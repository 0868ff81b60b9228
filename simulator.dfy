/**
 * The simulator object of server/utils/trafficSimulator.js: a fixed array of signals
 * whose records are updated in place, the traffic-data table keyed by signal id, the
 * vehicle list that each tick replaces, and the handle of the running timer.
 *
 * Every random draw of the JavaScript code is a parameter here: `advance[i]` says whether
 * signal i's `Math.random() > 0.7` came up, `changes[i]` is its density change
 * `(Math.random() - 0.5) * 10`, `countOffsets[i]` its `Math.floor(Math.random() * 20)`,
 * and `draw(i, k)` the draws of the k-th vehicle generated for signal i.
 */
module Simulator {
  import opened TrafficModel

  /** The four signals the simulator starts with. */
  function InitialSignals(): (r: seq<Signal>)
    ensures |r| == 4 && DistinctIds(r)
    ensures forall i :: 0 <= i < 4 ==> 0.0 <= r[i].trafficDensity <= 100.0
    ensures forall i :: 0 <= i < 4 ==> r[i].status == Active && r[i].timing == Timing(30, 5, 25)
  {
    var t := Timing(30, 5, 25);
    var r := [
      Signal("S001", Location(28.6139, 77.2090, "Main Street & 1st Avenue"), Red, t, 45.0, Active),
      Signal("S002", Location(28.6149, 77.2100, "Park Avenue & 2nd Street"), Green, t, 65.0, Active),
      Signal("S003", Location(28.6159, 77.2110, "Broadway & 3rd Avenue"), Yellow, t, 30.0, Active),
      Signal("S004", Location(28.6169, 77.2120, "Market Street & 4th Avenue"), Red, t, 80.0, Active)
    ];
    assert r[0].signalId[3] == '1' && r[1].signalId[3] == '2' && r[2].signalId[3] == '3' && r[3].signalId[3] == '4';
    r
  }

  /**
   * The `forEach` of `initializeSignals()`: one start-up sample per signal, keyed by its id.
   */
  method InitialTrafficData(init: seq<Signal>, countDraws: seq<nat>, speedDraws: seq<nat>)
    returns (data: map<string, TrafficSample>)
    requires |countDraws| == |init| && |speedDraws| == |init|
    requires DistinctIds(init)
    requires forall i :: 0 <= i < |init| ==> 0.0 <= init[i].trafficDensity <= 100.0
    ensures Consistent(init, data)
    ensures forall i :: 0 <= i < |init| ==> data[init[i].signalId] == InitialSample(init[i], countDraws[i], speedDraws[i])
  {
    data := map[];
    var i := 0;
    while i < |init|
      invariant 0 <= i <= |init|
      invariant data.Keys == Ids(init[..i])
      invariant forall k :: 0 <= k < i ==>
        init[k].signalId in data && data[init[k].signalId] == InitialSample(init[k], countDraws[k], speedDraws[k])
    {
      data := data[init[i].signalId := InitialSample(init[i], countDraws[i], speedDraws[i])];
      assert init[..i + 1][..i] == init[..i];
      i := i + 1;
    }
    assert init[..i] == init;
  }

  /** `Array.from({ length: n }, (_, k) => ...)`: the vehicles of the signal at position `idx`. */
  method BuildSignalVehicles(s: Signal, idx: nat, n: nat, draw: (nat, nat) -> VehicleDraw) returns (batch: seq<Vehicle>)
    ensures batch == SignalVehicles(s, idx, n, draw)
  {
    batch := [];
    var k: nat := 0;
    while k < n
      invariant k <= n
      invariant batch == SignalVehicles(s, idx, k, draw)
    {
      batch := batch + [MakeVehicle(s, k, draw(idx, k))];
      k := k + 1;
    }
  }

  /** The value `getCurrentData()` hands out (the timestamp is left out). */
  datatype Snapshot = Snapshot(signals: seq<Signal>, vehicles: seq<Vehicle>, trafficData: seq<TrafficSample>)

  class TrafficSimulator {
    const signals: array<Signal>
    var trafficData: map<string, TrafficSample>
    var vehicles: seq<Vehicle>
    var intervalId: Option<nat>
    /** Handles of the timers registered and not yet cleared. */
    var timers: set<nat>

    ghost predicate Valid()
      reads this, signals
    {
      Consistent(signals[..], trafficData)
    }

    /**
     * `new TrafficSimulator()`: the four initial signals, one sample per signal whose
     * count is `countDraws[i] + 10` and speed `speedDraws[i] + 20`, no vehicles, no timer.
     */
    constructor (countDraws: seq<nat>, speedDraws: seq<nat>)
      requires |countDraws| == 4 && |speedDraws| == 4
      ensures Valid() && fresh(signals)
      ensures signals[..] == InitialSignals()
      ensures forall i :: 0 <= i < 4 ==>
        trafficData[signals[i].signalId] == InitialSample(signals[i], countDraws[i], speedDraws[i])
      ensures vehicles == [] && intervalId == None && timers == {}
    {
      var init := InitialSignals();
      var data := InitialTrafficData(init, countDraws, speedDraws);
      signals := new Signal[4](k requires 0 <= k < 4 => init[k]);
      trafficData := data;
      vehicles := [];
      intervalId := None;
      timers := {};
      new;
      assert signals[..] == init;
    }

    /** `getCurrentData()`: the signals, the vehicles and the samples in signal order. */
    function CurrentData(): (r: Snapshot)
      reads this, signals
      requires Valid()
      ensures r.signals == signals[..] && r.vehicles == vehicles
      ensures |r.trafficData| == |r.signals|
      ensures forall i :: 0 <= i < |r.signals| ==>
        && r.trafficData[i].signalId == r.signals[i].signalId
        && r.trafficData[i].trafficDensity == r.signals[i].trafficDensity
        && r.trafficData[i].congestionLevel == GetCongestionLevel(r.signals[i].trafficDensity)
      ensures forall i :: 0 <= i < |r.signals| ==> r.trafficData[i] == trafficData[signals[i].signalId]
    {
      SamplesAgree(signals[..], trafficData);
      Snapshot(signals[..], vehicles, Samples(signals[..], trafficData))
    }

    /** `updateSignalStates()`: each signal whose draw came up moves one step along the colour cycle. */
    method UpdateSignalStates(advance: seq<bool>)
      requires Valid()
      requires |advance| == signals.Length
      modifies signals
      ensures Valid()
      ensures signals[..] == AdvanceAll(old(signals[..]), advance)
    {
      var i := 0;
      while i < signals.Length
        invariant 0 <= i <= signals.Length
        invariant forall k :: 0 <= k < i ==> signals[k] == AdvanceState(old(signals[k]), advance[k])
        invariant forall k :: i <= k < signals.Length ==> signals[k] == old(signals[k])
      {
        signals[i] := AdvanceState(signals[i], advance[i]);
        i := i + 1;
      }
      assert signals[..] == AdvanceAll(old(signals[..]), advance);
      AdvanceKeepsConsistent(old(signals[..]), advance, trafficData);
    }

    /**
     * `updateTrafficDensity()`: each density moves by its change and is clamped to [0,100];
     * the signal's sample is then recomputed from the new density.
     */
    method UpdateTrafficDensity(changes: seq<real>, countOffsets: seq<nat>)
      requires Valid()
      requires |changes| == signals.Length && |countOffsets| == signals.Length
      modifies signals, this`trafficData
      ensures Valid()
      ensures signals[..] == ShiftAll(old(signals[..]), changes)
      ensures trafficData == Resample(old(trafficData), signals[..], countOffsets)
    {
      RefreshAll(changes, countOffsets);
      DensityStepConsistent(old(signals[..]), changes, countOffsets, old(trafficData));
    }

    /** The `forEach` of `updateTrafficDensity()`: every signal in turn is shifted and resampled. */
    method RefreshAll(changes: seq<real>, countOffsets: seq<nat>)
      requires |changes| == signals.Length && |countOffsets| == signals.Length
      modifies signals, this`trafficData
      ensures signals[..] == ShiftAll(old(signals[..]), changes)
      ensures trafficData == Resample(old(trafficData), signals[..], countOffsets)
    {
      ghost var after := ShiftAll(signals[..], changes);
      var i := 0;
      while i < signals.Length
        invariant 0 <= i <= signals.Length
        invariant forall k :: 0 <= k < i ==> signals[k] == after[k]
        invariant forall k :: i <= k < signals.Length ==> signals[k] == old(signals[k])
        invariant trafficData == Resample(old(trafficData), after[..i], countOffsets[..i])
      {
        RefreshSignal(i, changes[i], countOffsets[i]);
        assert signals[i] == after[i];
        assert after[..i + 1][..i] == after[..i] && countOffsets[..i + 1][..i] == countOffsets[..i];
        assert Resample(old(trafficData), after[..i + 1], countOffsets[..i + 1])
            == Resample(old(trafficData), after[..i], countOffsets[..i])[after[i].signalId := DensitySample(after[i], countOffsets[i])];
        i := i + 1;
      }
      assert signals[..] == after;
      assert after[..i] == after && countOffsets[..i] == countOffsets;
    }

    /** The body of the `forEach` in `updateTrafficDensity()`, for the signal at position `i`. */
    method RefreshSignal(i: nat, change: real, countOffset: nat)
      requires i < signals.Length
      modifies signals, this`trafficData
      ensures signals[i] == ShiftDensity(old(signals[i]), change)
      ensures forall k :: 0 <= k < signals.Length && k != i ==> signals[k] == old(signals[k])
      ensures trafficData == old(trafficData)[signals[i].signalId := DensitySample(signals[i], countOffset)]
    {
      var s := ShiftDensity(signals[i], change);
      signals[i] := s;
      trafficData := trafficData[s.signalId := DensitySample(s, countOffset)];
    }

    /** `generateVehicles()`: the vehicle list is replaced by each signal's vehicles, in signal order. */
    method GenerateVehicles(draw: (nat, nat) -> VehicleDraw)
      requires Covers(signals[..], trafficData)
      modifies this`vehicles
      ensures vehicles == Fleet(signals[..], trafficData, draw)
      ensures old(Valid()) ==> Valid()
    {
      var fleet: seq<Vehicle> := [];
      var i: nat := 0;
      while i < signals.Length
        invariant i <= signals.Length
        invariant fleet == Fleet(signals[..i], trafficData, draw)
      {
        var s := signals[i];
        var n := trafficData[s.signalId].vehicleCount / 5;
        var batch := BuildSignalVehicles(s, i, n, draw);
        assert signals[..i + 1][..i] == signals[..i];
        fleet := fleet + batch;
        i := i + 1;
      }
      assert signals[..signals.Length] == signals[..];
      vehicles := fleet;
    }

    /** One timer tick without the broadcast: colours, then densities and samples, then vehicles. */
    method Tick(advance: seq<bool>, changes: seq<real>, countOffsets: seq<nat>, draw: (nat, nat) -> VehicleDraw)
      requires Valid()
      requires |advance| == signals.Length && |changes| == signals.Length && |countOffsets| == signals.Length
      modifies signals, this`trafficData, this`vehicles
      ensures Valid()
      ensures signals[..] == ShiftAll(AdvanceAll(old(signals[..]), advance), changes)
      ensures trafficData == Resample(old(trafficData), signals[..], countOffsets)
      ensures vehicles == Fleet(signals[..], trafficData, draw)
      ensures intervalId == old(intervalId)
    {
      UpdateSignalStates(advance);
      UpdateTrafficDensity(changes, countOffsets);
      ConsistentCovers(signals[..], trafficData);
      GenerateVehicles(draw);
    }

    /** `updateSignalState(id, state)`: the first signal with that id gets the colour; null when there is none. */
    method UpdateSignalState(id: string, state: Color) returns (r: Option<Signal>)
      requires Valid()
      modifies signals
      ensures Valid()
      ensures match FindSignal(old(signals[..]), id)
        case None => r == None && signals[..] == old(signals[..])
        case Some(j) =>
          && signals[..] == old(signals[..])[j := old(signals[j]).(currentState := state)]
          && r == Some(signals[j])
    {
      var found := FindSignal(signals[..], id);
      match found
      case None =>
        r := None;
      case Some(j) =>
        signals[j] := signals[j].(currentState := state);
        r := Some(signals[j]);
        SameIdsAndDensitiesConsistent(old(signals[..]), signals[..], trafficData);
    }

    /** `updateSignalTiming(id, timing)`: supplied timing fields overwrite, the others are kept; null for an unknown id. */
    method UpdateSignalTiming(id: string, patch: TimingPatch) returns (r: Option<Signal>)
      requires Valid()
      modifies signals
      ensures Valid()
      ensures match FindSignal(old(signals[..]), id)
        case None => r == None && signals[..] == old(signals[..])
        case Some(j) =>
          && signals[..] == old(signals[..])[j := old(signals[j]).(timing := MergeTiming(old(signals[j]).timing, patch))]
          && r == Some(signals[j])
    {
      var found := FindSignal(signals[..], id);
      match found
      case None =>
        r := None;
      case Some(j) =>
        signals[j] := signals[j].(timing := MergeTiming(signals[j].timing, patch));
        r := Some(signals[j]);
        SameIdsAndDensitiesConsistent(old(signals[..]), signals[..], trafficData);
    }

    /**
     * `start(io)` as far as the simulator's own state goes: a timer with a fresh handle is
     * registered and its handle recorded, whether or not one is already running.
     */
    method Start(timer: nat)
      requires timer !in timers
      modifies this`intervalId, this`timers
      ensures intervalId == Some(timer)
      ensures timers == old(timers) + {timer}
      ensures old(Valid()) ==> Valid()
    {
      timers := timers + {timer};
      intervalId := Some(timer);
    }

    /** `stop()`: clears the recorded timer if there is one; stopping twice is the same as stopping once. */
    method Stop()
      modifies this`intervalId, this`timers
      ensures intervalId == None
      ensures old(intervalId).Some? ==> timers == old(timers) - {old(intervalId).value}
      ensures old(intervalId) == None ==> unchanged(this)
      ensures old(Valid()) ==> Valid()
    {
      if intervalId.Some? {
        timers := timers - {intervalId.value};
        intervalId := None;
      }
    }
  }
}
