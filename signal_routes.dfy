/**
 * The signal endpoints of server/routes/signals.js that read or change one signal:
 * `GET /:signalId`, `PUT /:signalId/timing` and `PUT /:signalId/state`. A handler's
 * answer is a `Response`; the status code and error text are those the routes send.
 */
module SignalRoutes {
  import opened TrafficModel
  import opened Simulator

  datatype Response = Ok(signal: Signal) | BadRequest(error: string) | NotFound(error: string)

  function StatusCode(r: Response): (code: nat)
    ensures code == 200 <==> r.Ok?
    ensures code == 400 <==> r.BadRequest?
    ensures code == 404 <==> r.NotFound?
  {
    match r
    case Ok(_) => 200
    case BadRequest(_) => 400
    case NotFound(_) => 404
  }

  const SignalNotFound := "Signal not found"
  const InvalidState := "Invalid state. Must be red, yellow, or green"

  function ColorName(c: Color): string {
    match c
    case Red => "red"
    case Yellow => "yellow"
    case Green => "green"
  }

  /**
   * `['red', 'yellow', 'green'].includes(state)`, returning the colour that was named.
   * `None` stands for a body without a `state` string.
   */
  function ParseColor(state: Option<string>): (r: Option<Color>)
    ensures r.Some? <==> state.Some? && state.value in ["red", "yellow", "green"]
    ensures r.Some? ==> ColorName(r.value) == state.value
  {
    match state
    case None => None
    case Some(name) =>
      if name == "red" then Some(Red)
      else if name == "yellow" then Some(Yellow)
      else if name == "green" then Some(Green)
      else None
  }

  /** Every colour the simulator can hold is accepted under its own name, and names are distinct. */
  lemma ParseColorName(c: Color)
    ensures ParseColor(Some(ColorName(c))) == Some(c)
    ensures forall d: Color :: ColorName(d) == ColorName(c) ==> d == c
  {
  }

  /** `GET /:signalId`: the first signal of the snapshot with that id, or 404. */
  function GetSignalById(signals: seq<Signal>, id: string): (r: Response)
    ensures r.Ok? || r.NotFound?
    ensures r.NotFound? <==> forall k :: 0 <= k < |signals| ==> signals[k].signalId != id
    ensures r.NotFound? ==> r.error == SignalNotFound
    ensures r.Ok? ==> r.signal.signalId == id
    ensures r.Ok? ==>
      exists j :: 0 <= j < |signals| && signals[j] == r.signal && forall k :: 0 <= k < j ==> signals[k].signalId != id
  {
    match FindSignal(signals, id)
    case None => NotFound(SignalNotFound)
    case Some(j) => Ok(signals[j])
  }

  /** After the first signal with `id` is replaced by one with the same id, reading `id` yields the replacement. */
  lemma GetAfterUpdate(signals: seq<Signal>, id: string, j: nat, s: Signal)
    requires FindSignal(signals, id) == Some(j)
    requires s.signalId == id
    ensures GetSignalById(signals[j := s], id) == Ok(s)
  {
    var updated := signals[j := s];
    forall k | 0 <= k < j ensures updated[k].signalId != id {
      assert updated[k] == signals[k];
    }
    var r := FindSignal(updated, id);
    assert updated[j].signalId == id;
    assert r.Some? && r.value == j;
  }

  /**
   * `PUT /:signalId/state`. A missing or unknown colour name is refused with 400 before the
   * simulator is touched; an unknown id gives 404; otherwise the signal now holds the colour.
   */
  method PutSignalState(sim: TrafficSimulator, id: string, state: Option<string>) returns (r: Response)
    requires sim.Valid()
    modifies sim.signals
    ensures sim.Valid()
    ensures ParseColor(state).None? ==> r == BadRequest(InvalidState) && sim.signals[..] == old(sim.signals[..])
    ensures ParseColor(state).Some? && FindSignal(old(sim.signals[..]), id).None? ==>
      r == NotFound(SignalNotFound) && sim.signals[..] == old(sim.signals[..])
    ensures ParseColor(state).Some? && FindSignal(old(sim.signals[..]), id).Some? ==>
      var j := FindSignal(old(sim.signals[..]), id).value;
      && sim.signals[..] == old(sim.signals[..])[j := old(sim.signals[j]).(currentState := ParseColor(state).value)]
      && r == Ok(sim.signals[j])
      && ColorName(r.signal.currentState) == state.value
      && GetSignalById(sim.signals[..], id) == r
  {
    var color := ParseColor(state);
    if color.None? {
      return BadRequest(InvalidState);
    }
    var updated := sim.UpdateSignalState(id, color.value);
    match updated
    case None =>
      r := NotFound(SignalNotFound);
    case Some(s) =>
      r := Ok(s);
      GetAfterUpdate(old(sim.signals[..]), id, FindSignal(old(sim.signals[..]), id).value, s);
  }

  /**
   * `PUT /:signalId/timing`. The timing fields supplied are merged into the signal's timing with
   * no check on their values; an unknown id gives 404. An absent `timing` is the empty patch.
   */
  method PutSignalTiming(sim: TrafficSimulator, id: string, timing: TimingPatch) returns (r: Response)
    requires sim.Valid()
    modifies sim.signals
    ensures sim.Valid()
    ensures r.Ok? || r.NotFound?
    ensures FindSignal(old(sim.signals[..]), id).None? ==>
      r == NotFound(SignalNotFound) && sim.signals[..] == old(sim.signals[..])
    ensures FindSignal(old(sim.signals[..]), id).Some? ==>
      var j := FindSignal(old(sim.signals[..]), id).value;
      && sim.signals[..] == old(sim.signals[..])[j := old(sim.signals[j]).(timing := MergeTiming(old(sim.signals[j]).timing, timing))]
      && r == Ok(sim.signals[j])
      && GetSignalById(sim.signals[..], id) == r
  {
    var updated := sim.UpdateSignalTiming(id, timing);
    match updated
    case None =>
      r := NotFound(SignalNotFound);
    case Some(s) =>
      r := Ok(s);
      GetAfterUpdate(old(sim.signals[..]), id, FindSignal(old(sim.signals[..]), id).value, s);
  }
}
