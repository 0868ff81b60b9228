# Traffic signal simulator — a Dafny model

This project models the server core of a small traffic-monitoring application. The core
is a simulator that owns a fixed set of traffic signals. Each signal has a colour, a
timing plan and a traffic density between 0 and 100. For every signal the simulator
keeps one traffic sample (vehicle count, average speed, density, congestion level), and
it regenerates a list of simulated vehicles on every tick. Each tick (every two seconds
in server/utils/trafficSimulator.js) advances some colours one step along red → yellow →
green → red, perturbs every density by at most 5 and clamps it to [0,100], recomputes the samples
and regenerates the vehicles. On top of the simulator sit two sets of HTTP handlers.
The analytics handlers compute an overview (totals, counts per congestion level and per
colour, mean density and speed) and a hotspot list (the high or severe signals, densest
first). The signal handlers read one signal or change its colour or timing, answering
200, 400 or 404. The two `PUT` handlers are modelled on a request body that has already been
parsed from JSON; server/index.js installs no body parser, so as the server is set up
`req.body` is undefined and both handlers end in their 500 `catch` branch (see "## Left out").

The model has four modules, one per file:

- `TrafficModel` (`model.dfy`): the records, and the pure rules of the simulator. These
  are the congestion classifier, the colour step, the density clamp, the sample derived
  from a density, the merge of a timing update and the vehicles derived from the samples.
  It also holds the invariant `Consistent` that ties the signals to the sample table.
- `Simulator` (`simulator.dfy`): the class `TrafficSimulator`. Its signals are an
  `array<Signal>` whose elements are updated in place; the sample table is a
  `map<string, TrafficSample>`; the vehicle list and the timer handle are fields. Each
  method is proved against the functions of `TrafficModel`. Every public method keeps
  `Consistent`; the loop bodies `RefreshAll` and `RefreshSignal` of the density step are
  stated against the recursive definitions instead, and `UpdateTrafficDensity`, which
  calls them, re-establishes the invariant.
- `Analytics` (`analytics.dfy`): the overview and hotspot computations as functions of
  a snapshot, with the sort written as a stable insertion sort.
- `SignalRoutes` (`signal_routes.dfy`): the three single-signal handlers as a function
  (`GET`) and two methods that call the simulator (`PUT`).

Every random number the JavaScript code draws is a parameter. `advance[i]` says whether signal
i's colour draw came up; `changes[i]` is its density change; `countOffsets[i]` is the
extra vehicle count of its sample; `draw(i, k)` holds the type, position jitter, speed
offset and heading of the k-th vehicle of signal i. Methods accept any values; the lemmas
that state bounds take the ranges `Math.random()` gives as hypotheses (`DrawInRange`,
`-5 <= change < 5`, `countOffset < 20`).

`start` does not check for a running timer (server/utils/trafficSimulator.js:118-119). A
second call registers a second timer and overwrites the stored handle, so after two starts
a `stop` leaves the first timer running. `Start` here does the same: it adds a timer to the
set of running timers and records its handle. Timer handles are parameters; the runtime
hands out fresh ones.

## Model

| member | source | states |
|---|---|---|
| TrafficModel.GetCongestionLevel | server/utils/trafficSimulator.js:60-65 | the classifier: the level returned is the one whose density band holds the density; CongestionLevelBands and CongestionLevelMonotone state the bands both ways and the order |
| TrafficModel.CongestionLevelBands | server/utils/trafficSimulator.js:60-65 | the level is low exactly below 30, medium exactly in [30,50), high exactly in [50,70) and severe exactly from 70 on |
| TrafficModel.CongestionLevelMonotone | server/utils/trafficSimulator.js:60-65 | a higher density never gets a lower congestion level |
| TrafficModel.CongestionLevelExamples | server/utils/trafficSimulator.js:60-65 | the thresholds 30, 50 and 70 belong to the upper band; 29.5, 45 and 75 fall where expected |
| TrafficModel.NextColor | server/utils/trafficSimulator.js:69-75 | the colour step: the next colour sits at index (i + 1) mod 3 of red, yellow, green; NextColorCycle states that it never stays put or reverses |
| TrafficModel.NextColorIndex | server/utils/trafficSimulator.js:69-75 | the next colour is the one at index (i + 1) mod 3 of red, yellow, green, and the previous one at (i + 2) mod 3 |
| TrafficModel.NextColorCycle | server/utils/trafficSimulator.js:69-75 | the step never stays put and never goes to the previous colour; the reverse step undoes it and three steps return to the start |
| TrafficModel.AdvanceState | server/utils/trafficSimulator.js:73-76 | a signal moves to the next colour exactly when its draw came up; every other field is unchanged |
| TrafficModel.AdvanceAll | server/utils/trafficSimulator.js:67-78 | every signal keeps its colour or takes the next one, and keeps all its other fields |
| TrafficModel.AdvanceNeverReverses | server/utils/trafficSimulator.js:67-78 | after the colour step no signal holds the colour that precedes its old one |
| TrafficModel.Clamp | server/utils/trafficSimulator.js:84 | the result lies in [0,100]; it is the input when the input is in range, 0 below and 100 above |
| TrafficModel.ClampStepBounded | server/utils/trafficSimulator.js:83-84 | clamping never moves an in-range density further than the change itself |
| TrafficModel.ShiftDensity | server/utils/trafficSimulator.js:83-84 | the new density lies in [0,100] and nothing but the density changes |
| TrafficModel.ShiftDensityBounded | server/utils/trafficSimulator.js:83-84 | with a change drawn from [-5,5) a density moves by at most 5 per tick |
| TrafficModel.DensitySample | server/utils/trafficSimulator.js:87-94 | the recomputed sample carries the signal's id and density, the level of that density, and a speed of at least 10 |
| TrafficModel.DensitySampleBounds | server/utils/trafficSimulator.js:89-90 | the count is floor(density/2) plus the offset and stays below 70; the speed lies in [10,50] and equals 50 − density/2 up to density 80 and 10 from density 80 on, as `Math.max(10, 50 - density / 2)` gives |
| TrafficModel.InitialSample | server/utils/trafficSimulator.js:49-56 | a start-up sample has at least 10 vehicles, a speed of at least 20, and the density and level of its signal |
| TrafficModel.MergeTiming | server/utils/trafficSimulator.js:153 | each timing field supplied in the update replaces the old value; each field left out keeps it |
| TrafficModel.MergeTimingLaws | server/utils/trafficSimulator.js:153 | applying the same update twice equals applying it once; an empty update and an update restating the plan change nothing |
| TrafficModel.FindFirst | server/utils/trafficSimulator.js:151 | the index found is the first element satisfying the test; nothing is found exactly when no element does |
| TrafficModel.FindSignal | server/utils/trafficSimulator.js:160 | the index found is the first signal with the id; nothing is found exactly when no signal has it |
| TrafficModel.Samples | server/utils/trafficSimulator.js:145 | `Object.values(trafficData)` in signal order: one entry per signal, the i-th the table entry of the i-th signal's id |
| TrafficModel.SamplesAgree | server/utils/trafficSimulator.js:145 | under the invariant the sample list lines up with the signals: same id, same density in [0,100], matching level, speed at least 10 |
| TrafficModel.SameIdsAndDensitiesConsistent | server/utils/trafficSimulator.js:150-166 | a change that leaves every id and density alone, as a colour or timing update does, keeps the invariant |
| TrafficModel.ShiftAll | server/utils/trafficSimulator.js:81-85 | every density ends in [0,100] and every other field of every signal is unchanged |
| TrafficModel.Resample | server/utils/trafficSimulator.js:86-95 | the table after each signal's sample is recomputed in signal order; ResampleKeys, ResampleAt and ResampleOther state its keys, the entry of each signal and that other entries stay |
| TrafficModel.ResampleKeys | server/utils/trafficSimulator.js:87 | recomputing the samples adds exactly the signals' ids as keys |
| TrafficModel.ResampleAt | server/utils/trafficSimulator.js:87-94 | with unique ids each signal ends up with the sample recomputed from its own new density |
| TrafficModel.ResampleOther | server/utils/trafficSimulator.js:87 | entries whose key is no signal's id are left as they were |
| TrafficModel.DensityStepConsistent | server/utils/trafficSimulator.js:80-96 | the density step keeps the invariant: densities in range, one agreeing sample per signal |
| TrafficModel.AdvanceKeepsConsistent | server/utils/trafficSimulator.js:67-78 | the colour step keeps the invariant |
| TrafficModel.VehicleId | server/utils/trafficSimulator.js:104 | the id `V<signalId>-<k>`; VehicleIdRoundTrip and VehicleIdInjective state that it parses back and that distinct pairs give distinct ids |
| TrafficModel.MakeVehicle | server/utils/trafficSimulator.js:103-114 | a vehicle belongs to its signal; with the draws in `Math.random()`'s ranges its speed lies in [20,60), its heading in [0,360) and its position within 0.005 of the signal |
| TrafficModel.NatToStringRoundTrip | server/utils/trafficSimulator.js:104 | reading back the decimal numeral of a vehicle number gives the number |
| TrafficModel.VehicleIdRoundTrip | server/utils/trafficSimulator.js:104 | a vehicle id `V<signalId>-<k>` splits back into its signal id and its number, even when the signal id holds dashes |
| TrafficModel.VehicleIdInjective | server/utils/trafficSimulator.js:104 | two vehicle ids are equal only for the same signal id and the same number |
| TrafficModel.SignalVehicles | server/utils/trafficSimulator.js:103-114 | a signal gets exactly the requested number of vehicles, the k-th built from the k-th draw |
| TrafficModel.Fleet | server/utils/trafficSimulator.js:101-115 | `flatMap` over the signals in order; FleetLength, FleetOrigin, FleetVehicles and FleetIdsDistinct state its length, where each vehicle comes from, its ranges and the uniqueness of the ids |
| TrafficModel.FleetLength | server/utils/trafficSimulator.js:101-102 | the vehicle list holds, per signal, floor(vehicleCount/5) vehicles in total |
| TrafficModel.FleetAt | server/utils/trafficSimulator.js:101-103 | the fleet keeps signal order: signal i's k-th vehicle, for k below its quota, sits at position FleetSize(signals[..i]) + k |
| TrafficModel.FleetOrigin | server/utils/trafficSimulator.js:101-115 | every generated vehicle is the k-th vehicle of some signal, with k below that signal's quota |
| TrafficModel.FleetVehicles | server/utils/trafficSimulator.js:103-114 | every vehicle carries a signal's id and the id `V<signalId>-k`, a speed in [20,60), a heading in [0,360) and a position within 0.005 of its signal |
| TrafficModel.FleetIdsDistinct | server/utils/trafficSimulator.js:101-104 | with distinct signal ids no two generated vehicles share an id |
| Simulator.InitialSignals | server/utils/trafficSimulator.js:12-45 | the four start-up signals have distinct ids, densities in range, status active and timing 30/5/25 |
| Simulator.InitialTrafficData | server/utils/trafficSimulator.js:48-57 | the start-up table holds one start-up sample per signal, keyed by its id, and satisfies the invariant |
| Simulator.BuildSignalVehicles | server/utils/trafficSimulator.js:103-114 | the loop builds exactly the vehicles of one signal |
| Simulator.TrafficSimulator.constructor | server/utils/trafficSimulator.js:2-8 | the new simulator holds the four start-up signals, one start-up sample each, no vehicles and no timer, and satisfies the invariant |
| Simulator.TrafficSimulator.CurrentData | server/utils/trafficSimulator.js:141-148 | the snapshot holds the signals and vehicles, and its i-th sample is the table entry of the i-th signal's id, so it has that signal's id, density and matching level |
| Simulator.TrafficSimulator.UpdateSignalStates | server/utils/trafficSimulator.js:67-78 | the signals become the colour step of the old ones, and the invariant holds |
| Simulator.TrafficSimulator.UpdateTrafficDensity | server/utils/trafficSimulator.js:80-96 | the signals become the density step of the old ones, the table becomes the old one with every signal resampled, and the invariant holds |
| Simulator.TrafficSimulator.RefreshAll | server/utils/trafficSimulator.js:81-95 | the loop leaves the signals as the density step of the old ones and the table as the old one with each signal resampled in turn |
| Simulator.TrafficSimulator.RefreshSignal | server/utils/trafficSimulator.js:81-95 | one signal's density moves and its sample is replaced; every other signal is unchanged |
| Simulator.TrafficSimulator.GenerateVehicles | server/utils/trafficSimulator.js:98-116 | the vehicle list becomes the vehicles derived from the current signals and samples; signals and samples are untouched, so the invariant is kept |
| Simulator.TrafficSimulator.Tick | server/utils/trafficSimulator.js:119-122 | one tick is the colour step, then the density step, then the vehicle regeneration; the timer is untouched and the invariant holds |
| Simulator.TrafficSimulator.UpdateSignalState | server/utils/trafficSimulator.js:159-166 | for an unknown id nothing changes and the answer is none; otherwise only the first signal with the id changes colour and is returned |
| Simulator.TrafficSimulator.UpdateSignalTiming | server/utils/trafficSimulator.js:150-157 | for an unknown id nothing changes and the answer is none; otherwise only the first signal with the id gets the merged timing and is returned |
| Simulator.TrafficSimulator.Start | server/utils/trafficSimulator.js:118-119 | a new timer joins the running ones and its handle replaces the recorded one, even when a timer is already running; signals and samples are untouched, so the invariant is kept |
| Simulator.TrafficSimulator.Stop | server/utils/trafficSimulator.js:134-139 | the recorded timer, if any, stops and no handle is recorded afterwards; other running timers go on; stopping a stopped simulator changes nothing; the invariant is kept |
| Analytics.CountLevel | server/routes/analytics.js:18-21 | a level count never exceeds the number of samples |
| Analytics.CountLevelAppend | server/routes/analytics.js:18-21 | the level count of two lists joined is the sum of their counts, so each sample at the level counts once |
| Analytics.CountState | server/routes/analytics.js:24-26 | a colour count never exceeds the number of signals |
| Analytics.CountStateAppend | server/routes/analytics.js:24-26 | the colour count of two lists joined is the sum of their counts, so each signal of the colour counts once |
| Analytics.CountActive | server/routes/analytics.js:13 | the active count never exceeds the total, and equals it exactly when every signal is active |
| Analytics.SumDensity | server/routes/analytics.js:15 | the `reduce` sum of the densities; SumsBounded states its bounds |
| Analytics.SumSpeed | server/routes/analytics.js:16 | the `reduce` sum of the speeds; SumsBounded states its bound |
| Analytics.Average | server/routes/analytics.js:15-16 | the mean is undefined exactly when there is nothing to average |
| Analytics.LevelCountsTotal | server/routes/analytics.js:17-22 | the four level counts add up to the number of samples |
| Analytics.StateCountsTotal | server/routes/analytics.js:23-27 | the three colour counts add up to the number of signals |
| Analytics.ComputeOverview | server/routes/analytics.js:8-28 | totals are the list lengths, active ≤ total, the means are defined exactly when there are samples, and the level and colour counts partition their lists |
| Analytics.SumsBounded | server/routes/analytics.js:15-16 | with samples in range the density sum lies in [0,100·n] and the speed sum is at least 10·n |
| Analytics.OverviewAveragesBounded | server/routes/analytics.js:15-16 | with samples in range the mean density lies in [0,100] and the mean speed is at least 10 |
| Analytics.OverviewOfSnapshot | server/routes/analytics.js:8-28 | on a simulator snapshot the means are defined exactly when there are signals, and lie in range |
| Analytics.InitialSignalCounts | server/routes/analytics.js:13-27 | right after start-up there are four active signals: two red, one yellow and one green |
| Analytics.FindSample | server/routes/analytics.js:42 | the sample found is the first with the signal's id; nothing is found exactly when none has it |
| Analytics.ToHotspot | server/routes/analytics.js:42-49 | a hotspot record takes id, location and density from the signal, and level and vehicle count from the first sample with the signal's id, or low and 0 when there is none |
| Analytics.ToHotspots | server/routes/analytics.js:40-50 | one record per signal, in signal order |
| Analytics.KeepCongested | server/routes/analytics.js:51 | a record is kept exactly when it is high or severe, and each kept record occurs as often as in the input, so nothing is duplicated or dropped |
| Analytics.KeepCongestedAppend | server/routes/analytics.js:51 | the filter distributes over joining lists, so it keeps the input order |
| Analytics.InsertByDensity | server/routes/analytics.js:52 | one step of the stable insertion sort that stands for `sort((a, b) => b.trafficDensity - a.trafficDensity)`; the InsertByDensity lemmas state its properties |
| Analytics.InsertByDensityPermutes | server/routes/analytics.js:52 | inserting adds exactly one occurrence of the record |
| Analytics.InsertByDensitySorted | server/routes/analytics.js:52 | inserting into a list sorted densest first keeps it sorted |
| Analytics.InsertByDensityStable | server/routes/analytics.js:52 | inserting puts the record first among those of equal density and leaves each density class in order |
| Analytics.SortByDensity | server/routes/analytics.js:52 | the sort by decreasing density; SortByDensitySorted, SortByDensityPermutes and SortByDensityStable state that it orders, permutes and is stable |
| Analytics.SortByDensitySorted | server/routes/analytics.js:52 | the sort yields non-increasing densities |
| Analytics.SortByDensityPermutes | server/routes/analytics.js:52 | the sort yields a permutation of its input |
| Analytics.SortByDensityStable | server/routes/analytics.js:52 | records of equal density keep their input order |
| Analytics.KeepCongestedWithDensity | server/routes/analytics.js:51 | within each density class the filter keeps the input order |
| Analytics.KeepCongestedDistinct | server/routes/analytics.js:51 | the filter keeps records with distinct signal ids distinct |
| Analytics.InsertByDensityDistinct | server/routes/analytics.js:52 | inserting a record whose signal id is new keeps the ids distinct |
| Analytics.SortByDensityDistinct | server/routes/analytics.js:52 | the sort keeps records with distinct signal ids distinct |
| Analytics.HotspotsDistinct | server/routes/analytics.js:39-52 | with distinct signal ids no two hotspots name the same signal |
| Analytics.ComputeHotspots | server/routes/analytics.js:39-52 | map, filter, then sort; HotspotsCorrect and HotspotsMembers state what the list holds and in which order |
| Analytics.HotspotsMembers | server/routes/analytics.js:40-52 | a record is a hotspot exactly when it is high or severe and is the record of one of the signals |
| Analytics.HotspotsCorrect | server/routes/analytics.js:39-52 | the hotspot list is sorted densest first; it holds each congested signal record exactly as often as the mapped list does and no other record; records of equal density come in signal order; with distinct signal ids no signal appears twice |
| Analytics.NoSampleNoHotspot | server/routes/analytics.js:47-48 | a signal without a sample is reported low with 0 vehicles and is never a hotspot |
| Analytics.SnapshotHotspot | server/routes/analytics.js:42-48 | on a simulator snapshot a record's level is the level of its signal's density and its count is the signal's own sample's |
| Analytics.SnapshotCongested | server/routes/analytics.js:47-51 | on a simulator snapshot a record is congested exactly when its signal's density is at least 50 |
| Analytics.SnapshotHotspotsLevels | server/routes/analytics.js:39-52 | on a simulator snapshot every hotspot has density at least 50 and the level of that density |
| Analytics.SnapshotHotspotsComplete | server/routes/analytics.js:39-52 | on a simulator snapshot every signal with density at least 50 is a hotspot |
| Analytics.FourSignalHotspots | server/routes/analytics.js:51-52 | of four records with the second and fourth congested, the fourth densest, the list is the fourth then the second |
| Analytics.FourSignalSnapshot | server/routes/analytics.js:39-52 | a four-signal snapshot with the second and fourth signals at 50 or more yields those two, densest first |
| Analytics.InitialHotspots | server/routes/analytics.js:39-52 | right after start-up the hotspots are S004 then S002 |
| SignalRoutes.StatusCode | server/routes/signals.js:22-23 | a success answers 200, a refused colour 400 and an unknown id 404 |
| SignalRoutes.ParseColor | server/routes/signals.js:56-58 | a colour is accepted exactly when the body's state is "red", "yellow" or "green", and it is the colour named |
| SignalRoutes.ParseColorName | server/routes/signals.js:56 | every colour is accepted under its own name and no two colours share a name |
| SignalRoutes.GetSignalById | server/routes/signals.js:16-30 | the answer is the first signal with the id, or 404 "Signal not found" exactly when no signal has it |
| SignalRoutes.GetAfterUpdate | server/routes/signals.js:20 | after the first signal with an id is replaced, reading that id returns the replacement |
| SignalRoutes.PutSignalState | server/routes/signals.js:51-70 | a missing or unknown colour gives 400 and leaves the signals alone; an unknown id gives 404 and leaves them alone; otherwise only that signal changes, to the requested colour, and reading it back returns it |
| SignalRoutes.PutSignalTiming | server/routes/signals.js:33-48 | an unknown id gives 404 and leaves the signals alone; otherwise only that signal's timing changes, to the merge, with no check of the values, and reading it back returns it |

## Left out

- The firing of the timers and the broadcast (`io.emit`) are not modelled; `Tick` is one firing, and `Start` only registers the timer and records its handle.
- Timestamps (`new Date()`) on samples, vehicles and snapshots are left out.
- `Math.random()` is not modelled: every draw is a parameter, and the bound lemmas take its ranges as hypotheses.
- Densities, coordinates and speeds are exact reals; floating-point rounding is not modelled.
- The colour field is an enumeration. `updateSignalState` stores any string it is given; only the route's check keeps it to the three names, so the simulator's handling of an unknown colour (index −1) is not modelled.
- Timing values are integers and a timing update is a record of three optional fields; extra keys, non-numbers and `null` values in the request body are not modelled.
- SignalRoutes.PutSignalState: a `state` that is present but not a string is treated like an absent one (both answer 400, as `includes` does in server/routes/signals.js:56).
- SignalRoutes.PutSignalState and SignalRoutes.PutSignalTiming assume a request body parsed from JSON. server/index.js registers no body parser (no `express.json()`), so as the server is configured `req.body` is undefined, the destructuring at server/routes/signals.js:36 and :54 throws, and both handlers answer 500 without reaching the simulator. The model describes the handlers' own logic on a parsed body, not that configuration.
- The other 500 answers of the handlers' `catch` blocks are left out: on a parsed body no modelled step throws.
- `GET /` of the signal routes and the traffic and vehicle routes only pass the snapshot through and are not part of this model.
- The client (including the range limits its timing form applies), the server entry point and the database models are not part of this model.
