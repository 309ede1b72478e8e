// The data model every backend speaks, and the snapshot the control laws see
// (rust-edge/src/hal/types.rs, rust-edge/src/control/mod.rs).
module Hal {

  datatype Option<+T> = None | Some(value: T)
  datatype Result<+T> = Ok(value: T) | Err(error: HalError)
  datatype HalError = DeviceNotFound(device: string) | SensorNotFound(sensor: string) | Transport(what: string)

  // f64::clamp, which panics when the bounds are crossed.
  function Clamp(v: real, lo: real, hi: real): (r: real)
    requires lo <= hi
    ensures lo <= r <= hi
    ensures lo <= v <= hi <==> r == v
    ensures r == v || (r == lo && v < lo) || (r == hi && v > hi)
  {
    if v < lo then lo else if v > hi then hi else v
  }

  function Abs(x: real): real { if x < 0.0 then -x else x }

  lemma ClampMonotone(a: real, b: real, lo: real, hi: real)
    requires lo <= hi && a <= b
    ensures Clamp(a, lo, hi) <= Clamp(b, lo, hi)
  {
  }

  // Clamping moves a value to the nearest point of the interval.
  lemma ClampIsNearest(v: real, lo: real, hi: real, x: real)
    requires lo <= x <= hi
    ensures Abs(Clamp(v, lo, hi) - v) <= Abs(x - v)
  {
  }

  datatype Command =
    | SetValvePosition(percent: real)
    | SetFanSpeed(percent: real)
    | SetOutletState(on: bool)
    | SetDischargeLimit(percent: real)
  {
    // ControlCommand::clamped.
    function Clamped(): Command {
      match this
      case SetValvePosition(v) => SetValvePosition(Clamp(v, 0.0, 100.0))
      case SetFanSpeed(v) => SetFanSpeed(Clamp(v, 0.0, 100.0))
      case SetDischargeLimit(v) => SetDischargeLimit(Clamp(v, 0.0, 100.0))
      case SetOutletState(b) => SetOutletState(b)
    }

    predicate IsPercent() { SetOutletState? || 0.0 <= percent <= 100.0 }
  }

  lemma ClampedIffPercent(c: Command)
    ensures c.Clamped().IsPercent()
    ensures c.Clamped() == c <==> c.IsPercent()
    ensures c.Clamped().Clamped() == c.Clamped()
  {
  }

  datatype Reading = Reading(device: string, sensor: string, value: real, timestampMs: nat)

  datatype Snapshot = Snapshot(device: string, timestampMs: nat, readings: map<string, Reading>) {
    function Get(sensor: string): Option<real> {
      if sensor in readings then Some(readings[sensor].value) else None
    }
    function TempC(): Option<real> { Get("rack_air_temp") }
    function PduVoltage(): Option<real> { Get("pdu_voltage") }
    function PduCurrent(): Option<real> { Get("pdu_current") }
    function UpsSoc(): Option<real> { Get("ups_soc") }
  }

  // Collecting into a hash map: of two readings of one sensor the later stays.
  function Collect(readings: seq<Reading>): map<string, Reading> {
    if readings == [] then map[]
    else
      var r := readings[|readings| - 1];
      Collect(readings[..|readings| - 1])[r.sensor := r]
  }

  function FromReadings(device: string, readings: seq<Reading>, timestampMs: nat): Snapshot {
    Snapshot(device, timestampMs, Collect(readings))
  }

  predicate Names(readings: seq<Reading>, sensor: string) {
    exists i :: 0 <= i < |readings| && readings[i].sensor == sensor
  }

  // A snapshot answers with the last reading of a sensor, and with nothing when
  // there is none.
  lemma {:induction false} LastReadingWins(device: string, readings: seq<Reading>, ts: nat, i: nat)
    requires i < |readings|
    requires forall j :: i < j < |readings| ==> readings[j].sensor != readings[i].sensor
    ensures FromReadings(device, readings, ts).Get(readings[i].sensor) == Some(readings[i].value)
  {
    if i < |readings| - 1 {
      LastReadingWins(device, readings[..|readings| - 1], ts, i);
    }
  }

  lemma {:induction false} AbsentSensor(device: string, readings: seq<Reading>, ts: nat, sensor: string)
    ensures FromReadings(device, readings, ts).Get(sensor) == None <==> !Names(readings, sensor)
  {
    if readings != [] {
      var n := |readings| - 1;
      AbsentSensor(device, readings[..n], ts, sensor);
      if Names(readings[..n], sensor) {
        var i :| 0 <= i < n && readings[..n][i].sensor == sensor;
        assert readings[i].sensor == sensor;
      }
      assert readings[n].sensor == sensor ==> Names(readings, sensor);
      if Names(readings, sensor) && readings[n].sensor != sensor {
        var i :| 0 <= i < |readings| && readings[i].sensor == sensor;
        assert readings[..n][i].sensor == sensor;
      }
    }
  }
}
