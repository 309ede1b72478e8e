// The simulated plant: virtual racks with a lumped thermal and electrical model
// (rust-edge/src/hal/simulator.rs).
module Simulator {
  import opened Hal
  import opened Decimal

  // Sensor channels of every rack, in the order read_all reports them.
  const SENSORS: seq<string> := ["rack_air_temp", "inlet_temp", "coolant_supply_temp", "valve_position",
    "fan_speed", "airflow", "pdu_voltage", "pdu_current", "it_load", "ups_soc", "outlet"]

  // What no operation changes.
  datatype Plant = Plant(inletTempC: real, ambientC: real, coolantC: real, itLoadW: real,
                         maxAirflow: real, pduVoltage: real, upsCapacityWh: real, gridPresent: bool,
                         thermalMass: real, kValve: real, kFan: real)

  // RackState::new.
  const STANDARD: Plant := Plant(22.0, 24.0, 18.0, 12000.0, 2.5, 230.0, 8000.0, true, 60000.0, 1800.0, 900.0)

  // The divisions and the temperature clamp of `step` are defined.
  predicate Sound(p: Plant) {
    p.pduVoltage != 0.0 && p.upsCapacityWh != 0.0 && p.thermalMass != 0.0 && p.coolantC <= 200.0
  }

  datatype Rack = Rack(id: string, plant: Plant, tempC: real, valve: real, fan: real, pduCurrent: real,
                       outlets: seq<bool>, soc: real, dischargeLimit: real)

  function NewRack(index: nat): Rack {
    Rack("rack-" + Padded(index), STANDARD, 24.0, 50.0, 50.0, 12000.0 / 230.0, [true], 100.0, 100.0)
  }

  function OutletOn(r: Rack): bool { r.outlets != [] && r.outlets[0] }

  function Airflow(r: Rack): (a: real)
    ensures a * 100.0 == r.plant.maxAirflow * r.fan
  {
    r.fan / 100.0 * r.plant.maxAirflow
  }

  function SensorValue(r: Rack, sensor: string): Option<real> {
    match sensor
    case "rack_air_temp" => Some(r.tempC)
    case "inlet_temp" => Some(r.plant.inletTempC)
    case "coolant_supply_temp" => Some(r.plant.coolantC)
    case "valve_position" => Some(r.valve)
    case "fan_speed" => Some(r.fan)
    case "airflow" => Some(Airflow(r))
    case "pdu_voltage" => Some(r.plant.pduVoltage)
    case "pdu_current" => Some(r.pduCurrent)
    case "it_load" => Some(r.plant.itLoadW)
    case "ups_soc" => Some(r.soc)
    case "outlet" => Some(if OutletOn(r) then 1.0 else 0.0)
    case _ => None
  }

  function ReadSensor(r: Rack, sensor: string, timeMs: nat): Result<Reading> {
    match SensorValue(r, sensor)
    case Some(v) => Ok(Reading(r.id, sensor, v, timeMs))
    case None => Err(SensorNotFound(sensor))
  }

  function Readings(r: Rack, timeMs: nat): seq<Reading> {
    seq(|SENSORS|, i requires 0 <= i < |SENSORS| => ReadSensor(r, SENSORS[i], timeMs).value)
  }

  function Apply(r: Rack, c: Command): Rack {
    match c
    case SetValvePosition(v) => r.(valve := Clamp(v, 0.0, 100.0))
    case SetFanSpeed(v) => r.(fan := Clamp(v, 0.0, 100.0))
    case SetOutletState(b) => if r.outlets != [] then r.(outlets := r.outlets[0 := b]) else r
    case SetDischargeLimit(v) => r.(dischargeLimit := Clamp(v, 0.0, 100.0))
  }

  // The heat the rack gives off and the heat its actuators carry away, in watts.
  function HeatIn(r: Rack): real { r.plant.itLoadW * if OutletOn(r) then 1.0 else 0.2 }

  function HeatOut(r: Rack): real {
    r.plant.kValve * (r.valve / 100.0) * (r.tempC - r.plant.coolantC)
    + r.plant.kFan * (r.fan / 100.0) * (r.tempC - r.plant.ambientC)
  }

  function NextTemp(r: Rack, dt: real): real
    requires Sound(r.plant)
  {
    var dTemp := (HeatIn(r) - HeatOut(r)) / r.plant.thermalMass * dt;
    Clamp(r.tempC + dTemp, r.plant.coolantC, 200.0)
  }

  // Charging from the grid, or draining at the permitted rate.
  function NextSoc(r: Rack, dt: real): real
    requires Sound(r.plant)
  {
    if r.plant.gridPresent then
      var s := r.soc + 2.0 * dt;
      if s > 100.0 then 100.0 else s
    else
      var draw := r.plant.itLoadW * (r.dischargeLimit / 100.0);
      var pctPerSec := draw / r.plant.upsCapacityWh * (100.0 / 3600.0);
      var s := r.soc - pctPerSec * dt;
      if s < 0.0 then 0.0 else s
  }

  // One Euler step of `dt` seconds.
  function Advance(r: Rack, dt: real): Rack
    requires Sound(r.plant)
  {
    r.(tempC := NextTemp(r, dt), pduCurrent := r.plant.itLoadW / r.plant.pduVoltage, soc := NextSoc(r, dt))
  }

  // How strongly the actuators pull heat out, in watts per degree.
  function Conductance(r: Rack): real { r.plant.kValve * (r.valve / 100.0) + r.plant.kFan * (r.fan / 100.0) }

  // The heat the rack would balance at zero degrees.
  function Forcing(r: Rack): real {
    HeatIn(r) + r.plant.kValve * (r.valve / 100.0) * r.plant.coolantC
    + r.plant.kFan * (r.fan / 100.0) * r.plant.ambientC
  }

  // A tick is one Euler step of relaxation towards the temperature at which the
  // heat given off equals the heat carried away.
  lemma TickRelaxes(r: Rack, dt: real)
    requires Sound(r.plant) && Conductance(r) != 0.0
    ensures var balance := Forcing(r) / Conductance(r);
            && Advance(r, dt).tempC
               == Clamp(r.tempC + Conductance(r) * (balance - r.tempC) / r.plant.thermalMass * dt,
                        r.plant.coolantC, 200.0)
            && (r.plant.coolantC <= r.tempC <= 200.0 && r.tempC == balance ==> Advance(r, dt).tempC == r.tempC)
  {
    var balance := Forcing(r) / Conductance(r);
    NetHeat(r.plant.kValve * (r.valve / 100.0), r.plant.kFan * (r.fan / 100.0), r.tempC,
            r.plant.coolantC, r.plant.ambientC, HeatIn(r), balance);
    assert HeatIn(r) - HeatOut(r) == Conductance(r) * (balance - r.tempC);
    hide HeatIn, HeatOut, Conductance, Forcing;
    if r.tempC == balance { assert Conductance(r) * (balance - r.tempC) == 0.0; }
  }

  lemma NetHeat(a: real, b: real, temp: real, coolant: real, ambient: real, heat: real, balance: real)
    requires a + b != 0.0 && balance == (heat + a * coolant + b * ambient) / (a + b)
    ensures heat - (a * (temp - coolant) + b * (temp - ambient)) == (a + b) * (balance - temp)
  {
    assert (a + b) * balance == heat + a * coolant + b * ambient;
    assert (a + b) * (balance - temp) == (a + b) * balance - (a * temp + b * temp);
    assert a * (temp - coolant) == a * temp - a * coolant;
    assert b * (temp - ambient) == b * temp - b * ambient;
  }

  // Whether a command drives the same actuator as another.
  predicate SameActuator(c: Command, d: Command) {
    (c.SetValvePosition? && d.SetValvePosition?) || (c.SetFanSpeed? && d.SetFanSpeed?)
    || (c.SetOutletState? && d.SetOutletState?) || (c.SetDischargeLimit? && d.SetDischargeLimit?)
  }

  // Of two commands the later one for an actuator wins, and commands for
  // different actuators may come in either order.
  lemma ApplyOrder(r: Rack, c: Command, d: Command)
    ensures SameActuator(c, d) ==> Apply(Apply(r, c), d) == Apply(r, d)
    ensures !SameActuator(c, d) ==> Apply(Apply(r, c), d) == Apply(Apply(r, d), c)
  {
  }

  // What a tick does to power and charge: current and voltage carry the load; on
  // the grid the battery only charges, two percent a second until it is full; off it
  // it only drains, by the permitted share of the load until it is empty.
  lemma TickBalances(r: Rack, dt: real)
    requires Sound(r.plant) && 0.0 <= dt && 0.0 <= r.soc <= 100.0
    requires r.plant.upsCapacityWh > 0.0 && r.plant.itLoadW >= 0.0 && 0.0 <= r.dischargeLimit
    ensures var r' := Advance(r, dt);
            && r'.pduCurrent * r'.plant.pduVoltage == r.plant.itLoadW
            && 0.0 <= r'.soc <= 100.0
            && (r.plant.gridPresent ==> r'.soc >= r.soc)
            && (!r.plant.gridPresent ==> r'.soc <= r.soc)
            && (r.plant.gridPresent && r'.soc < 100.0 ==> r'.soc - r.soc == 2.0 * dt)
            && (r.plant.gridPresent && r'.soc == 100.0 ==> 100.0 - r.soc <= 2.0 * dt)
            && (!r.plant.gridPresent && r'.soc == 0.0 ==>
                  r.soc * r.plant.upsCapacityWh * 36.0 <= r.plant.itLoadW * (r.dischargeLimit / 100.0) * dt)
            && (!r.plant.gridPresent && r'.soc > 0.0 ==>
                  (r.soc - r'.soc) * r.plant.upsCapacityWh * 36.0 == r.plant.itLoadW * (r.dischargeLimit / 100.0) * dt)
            && r'.outlets == r.outlets && r'.valve == r.valve && r'.fan == r.fan && r'.id == r.id
  {
    hide NextTemp;
    if !r.plant.gridPresent {
      DrainBalances(r.plant.itLoadW * (r.dischargeLimit / 100.0), r.plant.upsCapacityWh, dt);
    }
  }

  lemma DrainBalances(draw: real, capacity: real, dt: real)
    requires capacity > 0.0 && draw >= 0.0 && dt >= 0.0
    ensures var drop := draw / capacity * (100.0 / 3600.0) * dt;
            drop >= 0.0 && drop * capacity * 36.0 == draw * dt
  {
    var q := draw / capacity;
    assert q * capacity == draw;
    assert q >= 0.0;
    var drop := q * (100.0 / 3600.0) * dt;
    assert drop == (q * dt) / 36.0;
    assert drop * capacity * 36.0 == (q * capacity) * dt;
  }

  // With valve and fan closed a standard rack warms by its own heat, a fifth of a
  // degree a second, or a fifth of that with its outlet off.
  lemma UncooledTick(r: Rack, dt: real)
    requires r.plant == STANDARD && r.valve == r.fan == 0.0
    ensures Advance(r, dt).tempC == Clamp(r.tempC + (if OutletOn(r) then 0.2 else 0.04) * dt, 18.0, 200.0)
  {
    assert HeatIn(r) == (if OutletOn(r) then 12000.0 else 2400.0) && HeatOut(r) == 0.0;
  }

  // ---- The rack object -----------------------------------------------------

  class RackState {
    const id: string
    const plant: Plant
    var tempC: real
    var valve: real
    var fan: real
    var pduCurrent: real
    var outlets: seq<bool>
    var soc: real
    var dischargeLimit: real

    function View(): Rack
      reads this
    {
      Rack(id, plant, tempC, valve, fan, pduCurrent, outlets, soc, dischargeLimit)
    }

    constructor (index: nat)
      ensures View() == NewRack(index) && plant == STANDARD
    {
      id, plant := "rack-" + Padded(index), STANDARD;
      tempC, valve, fan, pduCurrent := 24.0, 50.0, 50.0, 12000.0 / 230.0;
      outlets, soc, dischargeLimit := [true], 100.0, 100.0;
    }

    method ApplyCommand(c: Command)
      modifies this
      ensures View() == Apply(old(View()), c)
    {
      match c {
        case SetValvePosition(v) => valve := Clamp(v, 0.0, 100.0);
        case SetFanSpeed(v) => fan := Clamp(v, 0.0, 100.0);
        case SetOutletState(b) =>
          if |outlets| > 0 {
            outlets := outlets[0 := b];
          }
        case SetDischargeLimit(v) => dischargeLimit := Clamp(v, 0.0, 100.0);
      }
    }

    method Step(dt: real)
      requires Sound(plant)
      modifies this
      ensures View() == Advance(old(View()), dt)
    {
      ghost var was := View();
      var valveFrac := valve / 100.0;
      var fanFrac := fan / 100.0;
      var qIt := plant.itLoadW * (if |outlets| > 0 && outlets[0] then 1.0 else 0.2);
      assert qIt == HeatIn(was);
      var qCool := plant.kValve * valveFrac * (tempC - plant.coolantC)
                   + plant.kFan * fanFrac * (tempC - plant.ambientC);
      assert qCool == HeatOut(was);
      hide HeatIn, HeatOut;
      var dTemp := (qIt - qCool) / plant.thermalMass * dt;
      tempC := Clamp(tempC + dTemp, plant.coolantC, 200.0);
      assert tempC == NextTemp(was, dt);
      hide NextTemp;
      pduCurrent := plant.itLoadW / plant.pduVoltage;
      if plant.gridPresent {
        var s := soc + 2.0 * dt;
        soc := if s > 100.0 then 100.0 else s;
      } else {
        var draw := plant.itLoadW * (dischargeLimit / 100.0);
        var pctPerSec := draw / plant.upsCapacityWh * (100.0 / 3600.0);
        var s := soc - pctPerSec * dt;
        soc := if s < 0.0 then 0.0 else s;
      }
      assert soc == NextSoc(was, dt);
      hide NextSoc;
    }
  }

  // ---- The facility --------------------------------------------------------

  // The first rack that answers to `device`.
  function Find(racks: seq<Rack>, device: string): (r: Option<nat>)
    ensures r.Some? ==> r.value < |racks| && racks[r.value].id == device
                        && forall j :: 0 <= j < r.value ==> racks[j].id != device
    ensures r.None? ==> forall j :: 0 <= j < |racks| ==> racks[j].id != device
  {
    if racks == [] then None
    else
      var n := |racks| - 1;
      var front := Find(racks[..n], device);
      if front.Some? then front else if racks[n].id == device then Some(n) else None
  }

  // The facility after a command: the first rack of that name obeys.
  function Obeyed(racks: seq<Rack>, device: string, c: Command): seq<Rack> {
    match Find(racks, device)
    case Some(i) => racks[i := Apply(racks[i], c.Clamped())]
    case None => racks
  }

  class SimulatorHal {
    const racks: seq<RackState>
    var timeMs: nat

    ghost predicate Valid()
      reads racks
    {
      && (forall i, j :: 0 <= i < j < |racks| ==> racks[i] != racks[j])
      && (forall i :: 0 <= i < |racks| ==> Sound(racks[i].plant))
    }

    ghost function Views(): (vs: seq<Rack>)
      reads racks
      ensures |vs| == |racks| && forall i :: 0 <= i < |racks| ==> vs[i] == racks[i].View()
    {
      seq(|racks|, i requires 0 <= i < |racks| reads racks => racks[i].View())
    }

    constructor (numRacks: nat)
      ensures Valid() && timeMs == 0 && fresh(racks)
      ensures Views() == seq(if numRacks == 0 then 1 else numRacks, i requires 0 <= i => NewRack(i))
    {
      var n := if numRacks == 0 then 1 else numRacks;
      var made: seq<RackState> := [];
      for i := 0 to n
        invariant |made| == i && fresh(made)
        invariant forall j, k :: 0 <= j < k < i ==> made[j] != made[k]
        invariant forall j :: 0 <= j < i ==> made[j].View() == NewRack(j) && made[j].plant == STANDARD
      {
        hide NewRack;
        var r := new RackState(i);
        made := made + [r];
      }
      racks := made;
      timeMs := 0;
    }

    // dt is clamped to an hour; every rack advances by the same step.
    method Tick(dtSecs: real)
      requires Valid()
      modifies this`timeMs, racks
      ensures Valid()
      ensures timeMs == old(timeMs) + (Clamp(dtSecs, 0.0, 3600.0) * 1000.0).Floor
      ensures |Views()| == |old(Views())| && forall i :: 0 <= i < |Views()| ==>
                Sound(old(Views())[i].plant)
                && Views()[i] == Advance(old(Views())[i], Clamp(dtSecs, 0.0, 3600.0))
    {
      var dt := Clamp(dtSecs, 0.0, 3600.0);
      for i := 0 to |racks|
        invariant timeMs == old(timeMs)
        invariant forall j :: 0 <= j < i ==> racks[j].View() == Advance(old(racks[j].View()), dt)
        invariant forall j :: i <= j < |racks| ==> racks[j].View() == old(racks[j].View())
      {
        racks[i].Step(dt);
      }
      timeMs := timeMs + (dt * 1000.0).Floor;
    }

    method Locate(device: string) returns (at: Option<nat>)
      requires Valid()
      ensures at == Find(Views(), device)
    {
      at := None;
      ghost var vs := Views();
      for i := 0 to |racks|
        invariant at == Find(vs[..i], device)
        invariant at == None
      {
        assert vs[..i + 1][..i] == vs[..i];
        if racks[i].id == device {
          assert Find(vs[..i + 1], device) == Some(i);
          FindPrefix(vs, i + 1, device);
          return Some(i);
        }
      }
      assert vs[..|racks|] == vs;
    }

    method Read(device: string, sensor: string) returns (r: Result<Reading>)
      requires Valid()
      ensures r == match Find(Views(), device)
                   case Some(i) => ReadSensor(Views()[i], sensor, timeMs)
                   case None => Err(DeviceNotFound(device))
    {
      var at := Locate(device);
      if at.None? {
        return Err(DeviceNotFound(device));
      }
      r := ReadSensor(racks[at.value].View(), sensor, timeMs);
    }

    method ReadAll(device: string) returns (r: Result<seq<Reading>>)
      requires Valid()
      ensures r == match Find(Views(), device)
                   case Some(i) => Ok(Readings(Views()[i], timeMs))
                   case None => Err(DeviceNotFound(device))
    {
      var at := Locate(device);
      if at.None? {
        return Err(DeviceNotFound(device));
      }
      var rack := racks[at.value];
      var all: seq<Reading> := [];
      for i := 0 to |SENSORS|
        invariant all == Readings(rack.View(), timeMs)[..i]
      {
        var one := ReadSensor(rack.View(), SENSORS[i], timeMs);
        ghost var readings := Readings(rack.View(), timeMs);
        assert one.value == readings[i] && readings[..i + 1] == readings[..i] + [readings[i]];
        all := all + [one.value];
      }
      assert Readings(rack.View(), timeMs)[..|SENSORS|] == Readings(rack.View(), timeMs);
      r := Ok(all);
    }

    // An unknown device is an error.
    method Send(device: string, c: Command) returns (r: Result<()>)
      requires Valid()
      modifies racks
      ensures Valid()
      ensures r == match Find(old(Views()), device)
                   case Some(_) => Ok(())
                   case None => Err(DeviceNotFound(device))
      ensures Views() == Obeyed(old(Views()), device, c)
    {
      var at := Locate(device);
      if at.None? {
        return Err(DeviceNotFound(device));
      }
      ghost var was := Views();
      racks[at.value].ApplyCommand(c.Clamped());
      assert Views() == was[at.value := Apply(was[at.value], c.Clamped())];
      r := Ok(());
    }
  }

  lemma {:induction false} FindPrefix(racks: seq<Rack>, n: nat, device: string)
    requires n <= |racks| && Find(racks[..n], device).Some?
    ensures Find(racks, device) == Find(racks[..n], device)
  {
    if n < |racks| {
      var m := |racks| - 1;
      assert racks[..m][..n] == racks[..n];
      FindPrefix(racks[..m], n, device);
    } else {
      assert racks[..n] == racks;
    }
  }

  // The racks of a facility answer to different names, so each is found at its index.
  lemma RackFoundAtItsIndex(n: nat, i: nat)
    requires i < n
    ensures var racks := seq(n, k requires 0 <= k => NewRack(k));
            Find(racks, NewRack(i).id) == Some(i)
  {
    var racks := seq(n, k requires 0 <= k => NewRack(k));
    assert racks[i].id == NewRack(i).id;
    var j := Find(racks, NewRack(i).id).value;
    assert ("rack-" + Padded(j))[5..] == Padded(j) && ("rack-" + Padded(i))[5..] == Padded(i);
    PaddedInjective(i, j);
  }

  // The place of each channel, which no other channel shares.
  function Place(sensor: string): nat {
    match sensor
    case "rack_air_temp" => 0
    case "inlet_temp" => 1
    case "coolant_supply_temp" => 2
    case "valve_position" => 3
    case "fan_speed" => 4
    case "airflow" => 5
    case "pdu_voltage" => 6
    case "pdu_current" => 7
    case "it_load" => 8
    case "ups_soc" => 9
    case "outlet" => 10
    case _ => 11
  }

  lemma SensorsDistinct(i: nat, j: nat)
    requires i < j < |SENSORS|
    ensures SENSORS[i] != SENSORS[j]
  {
    assert Place(SENSORS[i]) == i && Place(SENSORS[j]) == j;
  }

  // A snapshot of everything a rack reports shows exactly its channels, each with
  // its own value.
  lemma SnapshotShows(device: string, r: Rack, simMs: nat, ts: nat, sensor: string)
    ensures FromReadings(device, Readings(r, simMs), ts).Get(sensor) == SensorValue(r, sensor)
  {
    var (rs, p) := (Readings(r, simMs), Place(sensor));
    assert forall i :: 0 <= i < |rs| ==> rs[i].sensor == SENSORS[i];
    if p < 11 {
      assert SENSORS[p] == sensor && Some(rs[p].value) == SensorValue(r, sensor);
      hide SensorValue, Place, Readings;
      forall j | p < j < |rs| ensures rs[j].sensor != rs[p].sensor {
        SensorsDistinct(p, j);
      }
      LastReadingWins(device, rs, ts, p);
    } else {
      forall i | 0 <= i < |rs| ensures rs[i].sensor != sensor {
        assert Place(SENSORS[i]) == i;
      }
      AbsentSensor(device, rs, ts, sensor);
    }
  }

  // What a snapshot of a rack tells, channel by channel, with the rack's name and the
  // time of reading.
  lemma SnapshotTells(device: string, r: Rack, simMs: nat, ts: nat)
    ensures var snap := FromReadings(device, Readings(r, simMs), ts);
            && snap.device == device && snap.timestampMs == ts
            && snap.TempC() == Some(r.tempC) && snap.UpsSoc() == Some(r.soc)
            && snap.PduVoltage() == Some(r.plant.pduVoltage) && snap.PduCurrent() == Some(r.pduCurrent)
            && snap.Get("inlet_temp") == Some(r.plant.inletTempC)
            && snap.Get("coolant_supply_temp") == Some(r.plant.coolantC)
            && snap.Get("valve_position") == Some(r.valve) && snap.Get("fan_speed") == Some(r.fan)
            && snap.Get("airflow") == Some(Airflow(r))
            && snap.Get("it_load") == Some(r.plant.itLoadW)
            && snap.Get("outlet") == Some(if OutletOn(r) then 1.0 else 0.0)
  {
    ChannelsOf(r);
    FromReadingsIs(device, r, simMs, ts);
    hide FromReadings, Readings, SensorValue, Airflow, OutletOn;
    SnapshotShows(device, r, simMs, ts, "rack_air_temp");
    SnapshotShows(device, r, simMs, ts, "inlet_temp");
    SnapshotShows(device, r, simMs, ts, "coolant_supply_temp");
    SnapshotShows(device, r, simMs, ts, "valve_position");
    SnapshotShows(device, r, simMs, ts, "fan_speed");
    SnapshotShows(device, r, simMs, ts, "airflow");
    SnapshotShows(device, r, simMs, ts, "pdu_voltage");
    SnapshotShows(device, r, simMs, ts, "pdu_current");
    SnapshotShows(device, r, simMs, ts, "it_load");
    SnapshotShows(device, r, simMs, ts, "ups_soc");
    SnapshotShows(device, r, simMs, ts, "outlet");
  }

  lemma OtherSensorsSilent(device: string, r: Rack, simMs: nat, ts: nat, sensor: string)
    requires sensor !in SENSORS
    ensures FromReadings(device, Readings(r, simMs), ts).Get(sensor) == None
  {
    Unlisted(r, sensor);
    hide *;
    SnapshotShows(device, r, simMs, ts, sensor);
  }

  lemma ChannelsOf(r: Rack)
    ensures SensorValue(r, "rack_air_temp") == Some(r.tempC) && SensorValue(r, "ups_soc") == Some(r.soc)
    ensures SensorValue(r, "pdu_voltage") == Some(r.plant.pduVoltage)
    ensures SensorValue(r, "pdu_current") == Some(r.pduCurrent)
    ensures SensorValue(r, "inlet_temp") == Some(r.plant.inletTempC)
    ensures SensorValue(r, "coolant_supply_temp") == Some(r.plant.coolantC)
    ensures SensorValue(r, "valve_position") == Some(r.valve) && SensorValue(r, "fan_speed") == Some(r.fan)
    ensures SensorValue(r, "airflow") == Some(Airflow(r)) && SensorValue(r, "it_load") == Some(r.plant.itLoadW)
    ensures SensorValue(r, "outlet") == Some(if OutletOn(r) then 1.0 else 0.0)
  {
    hide Airflow;
  }

  lemma FromReadingsIs(device: string, r: Rack, simMs: nat, ts: nat)
    ensures var snap := FromReadings(device, Readings(r, simMs), ts); snap.device == device && snap.timestampMs == ts
  {
  }

  lemma Unlisted(r: Rack, sensor: string)
    requires sensor !in SENSORS
    ensures SensorValue(r, sensor) == None
  {
  }

  // Each reading names its rack and channel and bears the time of reading.
  lemma ReadingsAreStamped(r: Rack, simMs: nat, i: nat)
    requires i < |SENSORS|
    ensures var reading := Readings(r, simMs)[i];
            reading.device == r.id && reading.sensor == SENSORS[i] && reading.timestampMs == simMs
  {
    assert Place(SENSORS[i]) == i;
  }

  // A command shows on the channel of its own actuator, held between 0 and 100 %, and
  // on no other; the airflow follows the fan.
  lemma CommandShows(r: Rack, c: Command)
    requires r.outlets != []
    ensures var r' := Apply(r, c.Clamped());
            && SensorValue(r', "valve_position")
               == (if c.SetValvePosition? then Some(Clamp(c.percent, 0.0, 100.0)) else SensorValue(r, "valve_position"))
            && SensorValue(r', "fan_speed")
               == (if c.SetFanSpeed? then Some(Clamp(c.percent, 0.0, 100.0)) else SensorValue(r, "fan_speed"))
            && SensorValue(r', "airflow") == Some(Airflow(r')) && (!c.SetFanSpeed? ==> Airflow(r') == Airflow(r))
            && SensorValue(r', "outlet")
               == (if c.SetOutletState? then Some(if c.on then 1.0 else 0.0) else SensorValue(r, "outlet"))
            && r'.dischargeLimit == (if c.SetDischargeLimit? then Clamp(c.percent, 0.0, 100.0) else r.dischargeLimit)
            && r'.outlets[1..] == r.outlets[1..]
            && r' == r.(valve := r'.valve, fan := r'.fan, outlets := r'.outlets, dischargeLimit := r'.dischargeLimit)
  {
  }

  // A new rack's channels, in the order it reports them.
  lemma NewRackShows(index: nat)
    ensures var r := NewRack(index);
            && SensorValue(r, "rack_air_temp") == Some(24.0) && SensorValue(r, "inlet_temp") == Some(22.0)
            && SensorValue(r, "coolant_supply_temp") == Some(18.0)
            && SensorValue(r, "valve_position") == SensorValue(r, "fan_speed") == Some(50.0)
            && SensorValue(r, "airflow") == Some(1.25)
            && SensorValue(r, "pdu_voltage") == Some(230.0) && SensorValue(r, "pdu_current") == Some(12000.0 / 230.0)
            && SensorValue(r, "it_load") == Some(12000.0)
            && SensorValue(r, "ups_soc") == Some(100.0) && SensorValue(r, "outlet") == Some(1.0)
            && r.dischargeLimit == 100.0 && r.plant.gridPresent && r.plant.upsCapacityWh == 8000.0
  {
  }
}
