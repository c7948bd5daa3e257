/** A Renpho sensor entity: its static identity, the coordinator flag it
    mirrors for availability, and the update of its stored state and
    timestamp from one metric read. */
module Sensor {
  import opened Wrappers
  import opened Units

  /** The formatted local time of a successful read ("%Y-%m-%d %H:%M:%S"). */
  type Timestamp = string

  /** The errors a metric read can raise; all three are logged and swallowed. */
  datatype FetchError = ConnectionError | TimeoutError | UnexpectedError

  /** What one metric read from the coordinator yields: a number, `None`, or
      an exception. */
  datatype FetchOutcome = Value(v: real) | Absent | Failure(error: FetchError)

  /** One read of the sensor's state, with the time it happened. */
  datatype Poll = Poll(outcome: FetchOutcome, now: Timestamp)

  /** The two fields the state update writes. */
  datatype Rendered = Rendered(state: Option<real>, timestamp: Option<Timestamp>)

  /** The display name of a sensor configured with `name`. */
  function DisplayName(name: string): (r: string)
    ensures |r| == |name| + 7
    ensures r[..7] == "Renpho " && r[7..] == name
  {
    "Renpho " + name
  }

  /** The effect of one read on the stored fields. A read that fails leaves
      both fields as they were; a present value is stored transformed for the
      unit pair and stamps the time of the read; an absent value clears the
      state and keeps the previous timestamp. The timestamp changes only to
      the time of a read that delivered a value. */
  function Render(pref: UnitTag, native: UnitTag, prev: Rendered, outcome: FetchOutcome, now: Timestamp): (r: Rendered)
    ensures outcome.Failure? ==> r == prev
    ensures outcome.Value? ==> r.state == Some(DisplayValue(pref, native, outcome.v)) && r.timestamp == Some(now)
    ensures outcome.Absent? ==> r.state == None && r.timestamp == prev.timestamp
    ensures r.timestamp != prev.timestamp ==> outcome.Value? && r.timestamp == Some(now)
  {
    match outcome
    case Value(v) => Rendered(Some(DisplayValue(pref, native, v)), Some(now))
    case Absent => prev.(state := None)
    case Failure(_) => prev
  }

  /** The part of the update coordinator the sensor reads directly. */
  class Coordinator {
    var lastUpdateSuccess: bool

    constructor (success: bool)
      ensures lastUpdateSuccess == success
    {
      lastUpdateSuccess := success;
    }
  }

  class RenphoSensor {
    const coordinator: Coordinator
    const id: string
    const metric: string
    const displayName: string
    const nativeUnit: UnitTag
    const category: string
    const sensorLabel: string
    const unitPref: UnitTag
    /** The name the sensor was configured with. */
    ghost const configuredName: string

    var state: Option<real>
    var timestamp: Option<Timestamp>

    ghost predicate Valid() {
      displayName == DisplayName(configuredName)
    }

    /** A new sensor has no state and no timestamp yet. */
    constructor (coordinator: Coordinator, id: string, name: string, unit: UnitTag,
                 category: string, sensorLabel: string, metric: string, unitOfMeasurement: UnitTag)
      ensures Valid()
      ensures this.coordinator == coordinator && this.id == id && this.metric == metric
      ensures configuredName == name && nativeUnit == unit && unitPref == unitOfMeasurement
      ensures this.category == category && this.sensorLabel == sensorLabel
      ensures state == None && timestamp == None
    {
      this.coordinator := coordinator;
      this.metric := metric;
      this.id := id;
      displayName := DisplayName(name);
      configuredName := name;
      nativeUnit := unit;
      this.category := category;
      this.sensorLabel := sensorLabel;
      unitPref := unitOfMeasurement;
      state := None;
      timestamp := None;
    }

    /** Available exactly when the coordinator's last refresh succeeded. */
    function Available(): (r: bool)
      reads coordinator
      ensures r <==> coordinator.lastUpdateSuccess
    {
      coordinator.lastUpdateSuccess
    }

    /** Always "Renpho " followed by the configured name. */
    function Name(): (r: string)
      requires Valid()
      ensures r == DisplayName(configuredName)
      ensures r[..7] == "Renpho " && r[7..] == configuredName
    {
      displayName
    }

    /** Pounds for a kilogram sensor whose user prefers pounds, the native
        unit otherwise; never `None`. */
    function UnitOfMeasurement(): (r: Option<UnitTag>)
      ensures r == Some(if unitPref == MassPounds && nativeUnit == MassKilograms then MassPounds else nativeUnit)
    {
      ReportedUnit(unitPref, nativeUnit)
    }

    /** The second unit property has the same body, and so the same value. */
    function Unit(): (r: Option<UnitTag>)
      ensures r == UnitOfMeasurement()
    {
      ReportedUnit(unitPref, nativeUnit)
    }

    /** The stored fields, as one value. */
    ghost function Current(): Rendered
      reads this
    {
      Rendered(state, timestamp)
    }

    /** Reads the sensor's metric (`outcome` is what the coordinator's read
        returned or raised, `now` the current time) and updates the stored
        state and timestamp; a failed read changes nothing and is not
        propagated. Nothing but the two fields changes. */
    method Update(outcome: FetchOutcome, now: Timestamp)
      modifies this`state, this`timestamp
      ensures Current() == Render(unitPref, nativeUnit, old(Current()), outcome, now)
      ensures outcome.Failure? ==> state == old(state) && timestamp == old(timestamp)
      ensures outcome.Absent? ==> state == None && timestamp == old(timestamp)
      ensures outcome.Value? ==> state == Some(DisplayValue(unitPref, nativeUnit, outcome.v)) && timestamp == Some(now)
    {
      match outcome
      case Value(v) =>
        if unitPref == MassPounds && nativeUnit == MassKilograms {
          state := Some(RoundHundredths(v * KgToLbs));
        } else if unitPref == MassKilograms && nativeUnit == MassKilograms {
          state := Some(RoundHundredths(v));
        } else {
          state := Some(v);
        }
        timestamp := Some(now);
      case Absent =>
        state := None;
      case Failure(_) =>
    }
  }

  // ---------------------------------------------------------------------
  // Successive reads
  // ---------------------------------------------------------------------

  /** The stored fields after a sequence of reads, taken in order. The
      timestamp is the starting one or the time of some read that delivered
      a value. */
  function Replay(pref: UnitTag, native: UnitTag, start: Rendered, polls: seq<Poll>): (r: Rendered)
    ensures r.timestamp == start.timestamp
         || exists i :: 0 <= i < |polls| && polls[i].outcome.Value? && r.timestamp == Some(polls[i].now)
    decreases |polls|
  {
    if polls == [] then start
    else
      var r := Replay(pref, native, Render(pref, native, start, polls[0].outcome, polls[0].now), polls[1..]);
      assert forall i :: 0 <= i < |polls| - 1 ==> polls[1..][i] == polls[i + 1];
      r
  }

  /** The time of the last read that delivered a value, or `start` if none
      did. */
  function LastStamp(start: Option<Timestamp>, polls: seq<Poll>): (t: Option<Timestamp>)
    ensures t == start || exists i :: 0 <= i < |polls| && polls[i].outcome.Value? && t == Some(polls[i].now)
    decreases |polls|
  {
    if polls == [] then start
    else
      var last := polls[|polls| - 1];
      if last.outcome.Value? then Some(last.now)
      else
        var t := LastStamp(start, polls[..|polls| - 1]);
        assert forall i :: 0 <= i < |polls| - 1 ==> polls[..|polls| - 1][i] == polls[i];
        t
  }

  /** The state set by the last read that did not fail: the transformed value
      or nothing; `start` if every read failed. */
  function LastState(pref: UnitTag, native: UnitTag, start: Option<real>, polls: seq<Poll>): (s: Option<real>)
    ensures s == start || s == None || exists i :: 0 <= i < |polls| && polls[i].outcome.Value? && s == Some(DisplayValue(pref, native, polls[i].outcome.v))
    decreases |polls|
  {
    if polls == [] then start
    else
      var last := polls[|polls| - 1];
      match last.outcome
      case Value(v) => Some(DisplayValue(pref, native, v))
      case Absent => None
      case Failure(_) =>
        var s := LastState(pref, native, start, polls[..|polls| - 1]);
        assert forall i :: 0 <= i < |polls| - 1 ==> polls[..|polls| - 1][i] == polls[i];
        s
  }

  /** Reading once more after a sequence of reads. */
  lemma {:induction false} ReplaySnoc(pref: UnitTag, native: UnitTag, start: Rendered, polls: seq<Poll>, p: Poll)
    ensures Replay(pref, native, start, polls + [p])
         == Render(pref, native, Replay(pref, native, start, polls), p.outcome, p.now)
    decreases |polls|
  {
    if polls == [] {
      assert polls + [p] == [p];
    } else {
      var next := Render(pref, native, start, polls[0].outcome, polls[0].now);
      assert (polls + [p])[1..] == polls[1..] + [p];
      ReplaySnoc(pref, native, next, polls[1..], p);
    }
  }

  /** After any sequence of reads, the state is the one set by the last read
      that did not fail and the timestamp is the time of the last read that
      delivered a value; fields no read has set keep their initial values. */
  lemma {:induction false} ReplaySummary(pref: UnitTag, native: UnitTag, start: Rendered, polls: seq<Poll>)
    ensures Replay(pref, native, start, polls)
         == Rendered(LastState(pref, native, start.state, polls), LastStamp(start.timestamp, polls))
    decreases |polls|
  {
    if polls != [] {
      var init, p := polls[..|polls| - 1], polls[|polls| - 1];
      assert polls == init + [p];
      ReplaySnoc(pref, native, start, init, p);
      ReplaySummary(pref, native, start, init);
    }
  }

  /** A run of failed reads leaves the stored fields exactly as they were. */
  lemma {:induction false} ReplayFailuresKeepRendered(pref: UnitTag, native: UnitTag, start: Rendered, polls: seq<Poll>)
    requires forall i :: 0 <= i < |polls| ==> polls[i].outcome.Failure?
    ensures Replay(pref, native, start, polls) == start
    decreases |polls|
  {
    if polls != [] {
      ReplayFailuresKeepRendered(pref, native, start, polls[1..]);
    }
  }

  /** A timestamp is only ever the time of a read that delivered a value:
      starting from a new sensor, the timestamp is unset until such a read
      happens and then names the time of one. */
  lemma TimestampComesFromValue(pref: UnitTag, native: UnitTag, polls: seq<Poll>)
    ensures var t := Replay(pref, native, Rendered(None, None), polls).timestamp;
            t == None || exists i :: 0 <= i < |polls| && polls[i].outcome.Value? && t == Some(polls[i].now)
  {
  }
}
