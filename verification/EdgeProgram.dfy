// The bench program: heat an uncooled facility, hand it to the standard
// supervisors, and compare the peaks (rust-edge/src/bin/tpt-edge.rs:21-108).
module EdgeProgram {
  import opened Hal
  import opened Safety
  import opened Simulator
  import opened Agents
  import opened Supervisor
  import opened ClosedLoop
  import opened RackSupervisor
  import opened Bench

  function DeviceOf(index: nat): string { NewRack(index).id }

  // A rack whose cooling is off, after some 5 s ticks.
  function Heated(index: nat, ticks: nat): Rack {
    NewRack(index).(valve := 0.0, fan := 0.0, tempC := 24.0 + ticks as real)
  }

  lemma HeatsByOne(index: nat, ticks: nat)
    requires ticks < 100
    ensures Sound(Heated(index, ticks).plant)
    ensures Advance(Heated(index, ticks), 5.0) == Heated(index, ticks + 1)
  {
    var r := Heated(index, ticks);
    assert HeatIn(r) == 12000.0 && HeatOut(r) == 0.0;
    assert (ticks + 1) as real == ticks as real + 1.0;
  }

  // The program's facility: rack `i` is the `i`-th, up to its actuators and temperature.
  ghost predicate Facility(racks: seq<Rack>, n: nat) {
    |racks| == n && forall i :: 0 <= i < n ==> racks[i].id == DeviceOf(i) && racks[i].plant == STANDARD
  }

  lemma FacilityFound(racks: seq<Rack>, n: nat, i: nat)
    requires Facility(racks, n) && i < n
    ensures Find(racks, DeviceOf(i)) == Some(i)
  {
    RackFoundAtItsIndex(n, i);
    FindByIds(seq(n, k requires 0 <= k => NewRack(k)), racks, DeviceOf(i));
  }

  // The facility when the first `k` racks are switched off.
  function PartlyOff(n: nat, k: nat): (racks: seq<Rack>)
    ensures |racks| == n && forall i :: 0 <= i < n ==> racks[i] == if i < k then Heated(i, 0) else NewRack(i)
  {
    seq(n, i requires 0 <= i => if i < k then Heated(i, 0) else NewRack(i))
  }

  lemma OneMoreOff(n: nat, k: nat)
    requires k < n
    ensures PartlyOff(n, k)[k := Heated(k, 0)] == PartlyOff(n, k + 1)
    ensures Facility(PartlyOff(n, k), n) && PartlyOff(n, k)[k] == NewRack(k)
  {
  }

  lemma BothOff(racks: seq<Rack>, n: nat, k: nat)
    requires Facility(racks, n) && k < n && racks[k] == NewRack(k)
    ensures Obeyed(Obeyed(racks, DeviceOf(k), SetValvePosition(0.0)), DeviceOf(k), SetFanSpeed(0.0))
         == racks[k := Heated(k, 0)]
  {
    FacilityFound(racks, n, k);
    FacilityFound(Obeyed(racks, DeviceOf(k), SetValvePosition(0.0)), n, k);
  }

  method SwitchOff(hal: SimulatorHal, n: nat)
    requires hal.Valid() && hal.Views() == PartlyOff(n, 0)
    modifies hal.racks
    ensures hal.Valid() && hal.timeMs == old(hal.timeMs)
    ensures hal.Views() == PartlyOff(n, n)
  {
    hide *;
    for k := 0 to n
      invariant hal.Valid() && hal.timeMs == old(hal.timeMs)
      invariant hal.Views() == PartlyOff(n, k)
    {
      OneMoreOff(n, k);
      BothOff(hal.Views(), n, k);
      var _ := hal.Send(DeviceOf(k), SetValvePosition(0.0));
      var _ := hal.Send(DeviceOf(k), SetFanSpeed(0.0));
    }
  }

  method Heat(hal: SimulatorHal, n: nat, ticks: nat)
    requires hal.Valid() && ticks <= 100 && hal.Views() == PartlyOff(n, n)
    modifies hal, hal.racks
    ensures hal.Valid() && hal.Views() == seq(n, i requires 0 <= i => Heated(i, ticks))
    ensures hal.timeMs == old(hal.timeMs) + ticks * 5000
  {
    for t := 0 to ticks
      invariant hal.Valid() && hal.Views() == seq(n, i requires 0 <= i => Heated(i, t))
      invariant hal.timeMs == old(hal.timeMs) + t * 5000
    {
      forall i: nat | i < n ensures Advance(Heated(i, t), 5.0) == Heated(i, t + 1) {
        HeatsByOne(i, t);
      }
      hide Advance, Heated;
      hal.Tick(5.0);
    }
  }

  lemma TempReading(racks: seq<Rack>, n: nat, i: nat, timeMs: nat)
    requires Facility(racks, n) && i < n
    ensures Find(racks, DeviceOf(i)) == Some(i)
    ensures var r := ReadSensor(racks[i], "rack_air_temp", timeMs); r.Ok? && r.value.value == racks[i].tempC
  {
    FacilityFound(racks, n, i);
  }

  method ReadTemp(hal: SimulatorHal, n: nat, i: nat) returns (t: real)
    requires hal.Valid() && Facility(hal.Views(), n) && i < n
    ensures i < |hal.Views()| && t == hal.Views()[i].tempC
  {
    TempReading(hal.Views(), n, i, hal.timeMs);
    hide ReadSensor;
    var r := hal.Read(DeviceOf(i), "rack_air_temp");
    t := r.value.value;
  }

  method ReadTemps(hal: SimulatorHal, n: nat) returns (temps: seq<real>)
    requires hal.Valid() && Facility(hal.Views(), n)
    ensures |temps| == n == |hal.Views()| && forall i :: 0 <= i < n ==> temps[i] == hal.Views()[i].tempC
  {
    temps := [];
    assert |hal.Views()| == n;
    hide *;
    for i := 0 to n
      invariant |temps| == i && forall j :: 0 <= j < i ==> temps[j] == hal.Views()[j].tempC
    {
      var t := ReadTemp(hal, n, i);
      temps := temps + [t];
    }
  }

  method Supervisors(n: nat, setpointC: real, opts: Options) returns (supers: seq<SupervisorObject<seq<Agent>>>)
    ensures |supers| == n && fresh(supers)
    ensures forall i, j :: 0 <= i < j < n ==> supers[i] != supers[j]
    ensures forall i :: 0 <= i < n ==>
              supers[i].setup == RackSetup(DeviceOf(i), opts) && supers[i].View() == Start(RackAgents(setpointC))
  {
    supers := [];
    for i := 0 to n
      invariant |supers| == i && fresh(supers)
      invariant forall j, k :: 0 <= j < k < i ==> supers[j] != supers[k]
      invariant forall j :: 0 <= j < i ==>
                  supers[j].setup == RackSetup(DeviceOf(j), opts) && supers[j].View() == Start(RackAgents(setpointC))
    {
      hide *;
      var s := new SupervisorObject(RackSetup(DeviceOf(i), opts), RackAgents(setpointC));
      supers := supers + [s];
    }
  }

  // fold(0.0, f64::max).
  function Peak(temps: seq<real>): real {
    if temps == [] then 0.0 else Max(Peak(temps[..|temps| - 1]), temps[|temps| - 1])
  }

  lemma {:induction false} PeakBetween(temps: seq<real>, lo: real, hi: real)
    requires 0.0 <= lo && temps != [] && forall i :: 0 <= i < |temps| ==> lo <= temps[i] <= hi
    ensures lo <= Peak(temps) <= hi
  {
    if |temps| == 1 {
      assert temps[..0] == [];
    } else {
      PeakBetween(temps[..|temps| - 1], lo, hi);
    }
  }

  // Where 120 cycles leave a rack that thirty uncooled ticks heated.
  lemma CooledAfterwards(i: nat, setpointC: real, opts: Options, startMs: nat)
    ensures InRange(Heated(i, 30))
    ensures 18.0 <= Play(RackSetup(DeviceOf(i), opts), Loop(Start(RackAgents(setpointC)), Heated(i, 30)),
                         Schedule(startMs, 5.0, 120)).rack.tempC <= 46.0
  {
    var (su, l) := (RackSetup(DeviceOf(i), opts), Loop(Start(RackAgents(setpointC)), Heated(i, 30)));
    hide Play, Schedule;
    BenchIsSafe(su, l, startMs, 5.0, 120);
    PlayKeepsRange(su, l, Schedule(startMs, 5.0, 120));
  }

  lemma HotFacility(racks: seq<Rack>, n: nat)
    requires racks == seq(n, i requires 0 <= i => Heated(i, 30))
    ensures Facility(racks, n) && forall i :: 0 <= i < n ==> racks[i] == Heated(i, 30) && racks[i].tempC == 54.0
    ensures forall i :: 0 <= i < n ==> Find(racks, DeviceOf(i)) == Some(i) && Sound(racks[i].plant)
  {
    forall i | 0 <= i < n ensures Find(racks, DeviceOf(i)) == Some(i) {
      FacilityFound(racks, n, i);
    }
  }

  lemma PeakFell(before: seq<real>, after: seq<real>)
    requires |before| == |after| > 0
    requires forall i :: 0 <= i < |before| ==> before[i] == 54.0 && 18.0 <= after[i] <= 46.0
    ensures Peak(after) < Peak(before)
  {
    PeakBetween(before, 54.0, 54.0);
    PeakBetween(after, 18.0, 46.0);
  }

  lemma {:induction false} PlayKeepsId(su: Setup<seq<Agent>>, l: Loop<seq<Agent>>, turns: seq<Turn>)
    requires Ordered(su.limits) && Sound(l.rack.plant)
    ensures Play(su, l, turns).rack.id == l.rack.id && Play(su, l, turns).rack.plant == l.rack.plant
  {
    if turns != [] {
      var n := |turns| - 1;
      PlayKeepsId(su, l, turns[..n]);
      var mid := Play(su, l, turns[..n]);
      ApplyAllKeeps(mid.rack, Cycled(su, mid, turns[n]).1.applied);
      hide RunOnce, NextTemp, NextSoc;
    }
  }

  // Where its 120 cycles leave a hot rack and its supervisor.
  function Outcome(i: nat, setpointC: real, opts: Options, startMs: nat): Loop<seq<Agent>> {
    HeatsByOne(i, 30);
    Play(RackSetup(DeviceOf(i), opts), Loop(Start(RackAgents(setpointC)), Heated(i, 30)), Schedule(startMs, 5.0, 120))
  }

  lemma OutcomeIs(i: nat, setpointC: real, opts: Options, startMs: nat)
    ensures Sound(Heated(i, 30).plant)
    ensures Outcome(i, setpointC, opts, startMs)
         == Play(RackSetup(DeviceOf(i), opts), Loop(Start(RackAgents(setpointC)), Heated(i, 30)),
                 Schedule(startMs, 5.0, 120))
  {
    HeatsByOne(i, 30);
    hide Play, Schedule;
  }

  lemma RacksEnd(racks: seq<Rack>, temps: seq<real>, n: nat, setpointC: real, opts: Options)
    requires |racks| == |temps| == n
    requires forall i :: 0 <= i < n ==> temps[i] == racks[i].tempC
                                        && racks[i] == Outcome(i, setpointC, opts, 150000).rack
    ensures forall i :: 0 <= i < n ==>
              Sound(Heated(i, 30).plant)
              && temps[i] == Play(RackSetup(DeviceOf(i), opts), Loop(Start(RackAgents(setpointC)), Heated(i, 30)),
                                  Schedule(150000, 5.0, 120)).rack.tempC
  {
    hide Outcome, Play, Schedule;
    forall i | 0 <= i < n
      ensures Sound(Heated(i, 30).plant)
      ensures temps[i] == Play(RackSetup(DeviceOf(i), opts), Loop(Start(RackAgents(setpointC)), Heated(i, 30)),
                               Schedule(150000, 5.0, 120)).rack.tempC
    {
      OutcomeIs(i, setpointC, opts, 150000);
    }
  }

  lemma OutcomeIsCool(i: nat, setpointC: real, opts: Options, startMs: nat)
    ensures var r := Outcome(i, setpointC, opts, startMs).rack;
            r.id == DeviceOf(i) && r.plant == STANDARD && 18.0 <= r.tempC <= 46.0
  {
    CooledAfterwards(i, setpointC, opts, startMs);
    PlayKeepsId(RackSetup(DeviceOf(i), opts), Loop(Start(RackAgents(setpointC)), Heated(i, 30)),
                Schedule(startMs, 5.0, 120));
    hide Play, Schedule;
  }

  lemma AllCool(racks: seq<Rack>, n: nat, setpointC: real, opts: Options, startMs: nat)
    requires |racks| == n && forall i :: 0 <= i < n ==> racks[i] == Outcome(i, setpointC, opts, startMs).rack
    ensures Facility(racks, n) && forall i :: 0 <= i < n ==> 18.0 <= racks[i].tempC <= 46.0
  {
    forall i | 0 <= i < n
      ensures racks[i].id == DeviceOf(i) && racks[i].plant == STANDARD && 18.0 <= racks[i].tempC <= 46.0
    {
      OutcomeIsCool(i, setpointC, opts, startMs);
    }
    hide Outcome;
  }

  // Each supervisor stands fresh before its own hot rack.
  ghost predicate Ready(racks: seq<Rack>, supers: seq<SupervisorObject<seq<Agent>>>, n: nat, setpointC: real,
                        opts: Options)
    reads supers
  {
    && |racks| == |supers| == n
    && forall i :: 0 <= i < n ==>
         && supers[i].setup == RackSetup(DeviceOf(i), opts)
         && LoopOf(supers, racks, i) == Loop(Start(RackAgents(setpointC)), Heated(i, 30))
  }

  method Control(hal: SimulatorHal, supers: seq<SupervisorObject<seq<Agent>>>, n: nat, setpointC: real, opts: Options)
    requires hal.Valid() && Paired(hal.Views(), supers) && Ready(hal.Views(), supers, n, setpointC, opts)
    modifies hal, hal.racks, supers
    ensures hal.Valid() && Facility(hal.Views(), n)
    ensures forall i :: 0 <= i < n ==> 18.0 <= hal.Views()[i].tempC <= 46.0
    ensures forall i :: 0 <= i < n ==> hal.Views()[i] == Outcome(i, setpointC, opts, old(hal.timeMs)).rack
  {
    ghost var startMs := hal.timeMs;
    forall i | 0 <= i < n
      ensures Play(supers[i].setup, LoopOf(supers, hal.Views(), i), Schedule(startMs, 5.0, 120))
           == Outcome(i, setpointC, opts, startMs)
    {}
    hide *;
    RunBench(hal, supers, 120, 5.0);
    ghost var racks := hal.Views();
    assert forall i :: 0 <= i < n ==> LoopOf(supers, racks, i) == Outcome(i, setpointC, opts, startMs);
    LoopRacks(supers, racks, n, setpointC, opts, startMs);
    AllCool(racks, n, setpointC, opts, startMs);
  }

  lemma LoopRacks(supers: seq<SupervisorObject<seq<Agent>>>, racks: seq<Rack>, n: nat, setpointC: real,
                  opts: Options, startMs: nat)
    requires |supers| == |racks| == n
    requires forall i :: 0 <= i < n ==> LoopOf(supers, racks, i) == Outcome(i, setpointC, opts, startMs)
    ensures forall i :: 0 <= i < n ==> racks[i] == Outcome(i, setpointC, opts, startMs).rack
  {
    hide Outcome;
    forall i | 0 <= i < n ensures racks[i] == Outcome(i, setpointC, opts, startMs).rack {
      assert LoopOf(supers, racks, i).rack == racks[i];
    }
  }

  // A facility without cooling, thirty ticks on.
  method Boot(n: nat) returns (hal: SimulatorHal)
    requires n > 0
    ensures fresh(hal) && fresh(hal.racks) && hal.Valid()
    ensures hal.Views() == seq(n, i requires 0 <= i => Heated(i, 30)) && hal.timeMs == 150000
  {
    hal := new SimulatorHal(n);
    assert hal.Views() == PartlyOff(n, 0);
    hide Heated;
    SwitchOff(hal, n);
    Heat(hal, n, 30);
  }

  lemma HotIsReady(racks: seq<Rack>, supers: seq<SupervisorObject<seq<Agent>>>, n: nat, setpointC: real, opts: Options)
    requires racks == seq(n, i requires 0 <= i => Heated(i, 30)) && |supers| == n
    requires forall i, j :: 0 <= i < j < n ==> supers[i] != supers[j]
    requires forall i :: 0 <= i < n ==>
               supers[i].setup == RackSetup(DeviceOf(i), opts) && supers[i].View() == Start(RackAgents(setpointC))
    ensures Paired(racks, supers) && Ready(racks, supers, n, setpointC, opts)
  {
    HotFacility(racks, n);
    hide Find, Heated, RackAgents;
  }

  // Thirty uncooled ticks bring every rack to 54 degrees; 120 supervised cycles
  // bring every one to 46 or below, whatever the setpoint and the options. So the
  // program's closing assertion, that the peak fell, never fails. Each rack ends where
  // its own closed loop puts it.
  method RunProgram(n: nat, setpointC: real, opts: Options) returns (before: seq<real>, after: seq<real>)
    requires n > 0
    ensures |before| == |after| == n
    ensures forall i :: 0 <= i < n ==> before[i] == 54.0 && 18.0 <= after[i] <= 46.0
    ensures forall i :: 0 <= i < n ==>
              Sound(Heated(i, 30).plant)
              && after[i] == Play(RackSetup(DeviceOf(i), opts), Loop(Start(RackAgents(setpointC)), Heated(i, 30)),
                                  Schedule(150000, 5.0, 120)).rack.tempC
    ensures Peak(after) < Peak(before)
  {
    var hal := Boot(n);
    HotFacility(hal.Views(), n);
    hide *;
    before := ReadTemps(hal, n);
    var supers := Supervisors(n, setpointC, opts);
    HotIsReady(hal.Views(), supers, n, setpointC, opts);
    Control(hal, supers, n, setpointC, opts);
    after := ReadTemps(hal, n);
    PeakFell(before, after);
    RacksEnd(hal.Views(), after, n, setpointC, opts);
  }
}
