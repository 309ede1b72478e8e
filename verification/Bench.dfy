// The bench run: one cycle of every rack's supervisor, then one tick of the
// facility, over and over (rust-edge/src/bin/tpt-edge.rs:58-81).
module Bench {
  import opened Hal
  import opened Safety
  import opened Simulator
  import opened Supervisor
  import opened ClosedLoop

  // The facility's clock after some ticks.
  function Clock(startMs: nat, dt: real, ticks: nat): nat {
    startMs + ticks * (Clamp(dt, 0.0, 3600.0) * 1000.0).Floor
  }

  lemma ClockTicks(startMs: nat, dt: real, ticks: nat)
    ensures Clock(startMs, dt, ticks + 1) == Clock(startMs, dt, ticks) + (Clamp(dt, 0.0, 3600.0) * 1000.0).Floor
  {
  }

  // The turn each rack sees in a given cycle, counted from 0.
  function TurnAt(startMs: nat, dt: real, cycle: nat): Turn {
    Turn(false, None, (cycle + 1) * 1000, Clock(startMs, dt, cycle), Clamp(dt, 0.0, 3600.0))
  }

  // The schedule a rack sees: time stamps one second apart, no faults, equal ticks.
  function Schedule(startMs: nat, dt: real, cycles: nat): seq<Turn> {
    if cycles == 0 then [] else Schedule(startMs, dt, cycles - 1) + [TurnAt(startMs, dt, cycles - 1)]
  }

  // Cycle by cycle: a second apart from the first second on, read at the plant's own
  // clock, which every tick moves by the same whole number of milliseconds.
  lemma {:induction false} ScheduleShows(startMs: nat, dt: real, cycles: nat, i: nat)
    requires i < cycles
    ensures |Schedule(startMs, dt, cycles)| == cycles
    ensures var t := Schedule(startMs, dt, cycles)[i];
            && !t.reset && t.fault == None && t.ts == (i + 1) * 1000 && t.dt == Clamp(dt, 0.0, 3600.0)
            && t.simMs == startMs + i * (t.dt * 1000.0).Floor
  {
    if cycles > 1 { ScheduleShows(startMs, dt, cycles - 1, if i < cycles - 1 then i else 0); }
  }

  // Each supervisor has a rack of its own.
  ghost predicate Paired<A>(racks: seq<Rack>, supers: seq<SupervisorObject<A>>) {
    && |supers| == |racks|
    && (forall i, j :: 0 <= i < j < |supers| ==> supers[i] != supers[j])
    && (forall i :: 0 <= i < |supers| ==> Find(racks, supers[i].setup.device) == Some(i))
    && (forall i :: 0 <= i < |supers| ==> Ordered(supers[i].setup.limits))
    && (forall i :: 0 <= i < |racks| ==> Sound(racks[i].plant))
  }

  ghost predicate SameRacks(racks: seq<Rack>, racks': seq<Rack>) {
    |racks'| == |racks|
    && forall i :: 0 <= i < |racks| ==> racks'[i].id == racks[i].id && racks'[i].plant == racks[i].plant
  }

  lemma PairedKept<A>(racks: seq<Rack>, racks': seq<Rack>, supers: seq<SupervisorObject<A>>)
    requires Paired(racks, supers) && SameRacks(racks, racks')
    ensures Paired(racks', supers)
  {
    forall i | 0 <= i < |supers| ensures Find(racks', supers[i].setup.device) == Some(i) {
      FindByIds(racks, racks', supers[i].setup.device);
    }
  }

  ghost function LoopOf<A>(supers: seq<SupervisorObject<A>>, racks: seq<Rack>, i: nat): Loop<A>
    requires i < |supers| && i < |racks|
    reads supers[i]
  {
    Loop(supers[i].View(), racks[i])
  }

  // After the control half of a turn: mode moved on, rack commanded but not advanced.
  ghost function Halfway<A>(su: Setup<A>, l: Loop<A>, t: Turn): Loop<A>
    requires Ordered(su.limits)
  {
    Loop(Cycled(su, l, t).0, Commanded(su, l, t))
  }

  // The control half, then the plant half, is one more turn of the closed loop.
  lemma TurnCompletes<A>(su: Setup<A>, l: Loop<A>, startMs: nat, dt: real, cycle: nat)
    requires Ordered(su.limits) && Sound(l.rack.plant)
    ensures var t := TurnAt(startMs, dt, cycle);
            var half := Halfway(su, Play(su, l, Schedule(startMs, dt, cycle)), t);
            && half.rack.plant == l.rack.plant
            && half.rack.id == Play(su, l, Schedule(startMs, dt, cycle)).rack.id
            && Play(su, l, Schedule(startMs, dt, cycle + 1)) == Loop(half.mode, Advance(half.rack, t.dt))
  {
    hide RunOnce, Advance, Observed;
    var turns := Schedule(startMs, dt, cycle + 1);
    var t := TurnAt(startMs, dt, cycle);
    assert turns[..|turns| - 1] == Schedule(startMs, dt, cycle) && turns[|turns| - 1] == t;
    var mid := Play(su, l, Schedule(startMs, dt, cycle));
    ApplyAllKeeps(mid.rack, Cycled(su, mid, t).1.applied);
  }

  // One supervisor's cycle moves its own rack and leaves every other alone.
  method OneCycle<A>(hal: SimulatorHal, super: SupervisorObject<A>, k: nat, ts: nat, ghost t: Turn)
    requires hal.Valid() && k < |hal.Views()| && Ordered(super.setup.limits)
    requires Find(hal.Views(), super.setup.device) == Some(k)
    requires !t.reset && t.fault == None && t.ts == ts && t.simMs == hal.timeMs
    modifies super, hal.racks
    ensures hal.Valid() && hal.timeMs == old(hal.timeMs)
    ensures SameRacks(old(hal.Views()), hal.Views())
    ensures Loop(super.View(), hal.Views()[k]) == Halfway(super.setup, old(Loop(super.View(), hal.Views()[k])), t)
    ensures forall i :: 0 <= i < |hal.Views()| && i != k ==> hal.Views()[i] == old(hal.Views()[i])
  {
    hide RunOnce, Readings;
    ghost var racks := hal.Views();
    var o := super.RunCycle(hal, ts, None);
    ApplyAllKeeps(racks[k], o.applied);
    assert hal.Views() == racks[k := ApplyAll(racks[k], o.applied)];
  }

  // One sweep over the supervisors: each rack is commanded by its own supervisor
  // from what it read, and by no other.
  method Sweep<A>(hal: SimulatorHal, supers: seq<SupervisorObject<A>>, ts: nat, ghost t: Turn)
    requires hal.Valid() && Paired(hal.Views(), supers)
    requires !t.reset && t.fault == None && t.ts == ts && t.simMs == hal.timeMs
    modifies supers, hal.racks
    ensures hal.Valid() && hal.timeMs == old(hal.timeMs)
    ensures SameRacks(old(hal.Views()), hal.Views())
    ensures forall i :: 0 <= i < |supers| ==>
              LoopOf(supers, hal.Views(), i) == Halfway(supers[i].setup, old(LoopOf(supers, hal.Views(), i)), t)
  {
    hide Halfway, Sound, Ordered, Find;
    ghost var racks0 := hal.Views();
    for k := 0 to |supers|
      invariant hal.Valid() && hal.timeMs == old(hal.timeMs)
      invariant SameRacks(racks0, hal.Views())
      invariant forall i :: 0 <= i < k ==>
                  LoopOf(supers, hal.Views(), i) == Halfway(supers[i].setup, old(LoopOf(supers, hal.Views(), i)), t)
      invariant forall i :: k <= i < |supers| ==>
                  LoopOf(supers, hal.Views(), i) == old(LoopOf(supers, hal.Views(), i))
    {
      PairedKept(racks0, hal.Views(), supers);
      assert LoopOf(supers, hal.Views(), k) == old(LoopOf(supers, hal.Views(), k));
      OneCycle(hal, supers[k], k, ts, t);
    }
  }

  // A sweep, then one tick of the facility.
  method OneRound<A>(hal: SimulatorHal, supers: seq<SupervisorObject<A>>, ts: nat, dt: real, ghost t: Turn)
    requires hal.Valid() && Paired(hal.Views(), supers)
    requires t == Turn(false, None, ts, hal.timeMs, Clamp(dt, 0.0, 3600.0))
    modifies supers, hal, hal.racks
    ensures hal.Valid() && hal.timeMs == old(hal.timeMs) + (t.dt * 1000.0).Floor
    ensures SameRacks(old(hal.Views()), hal.Views())
    ensures forall i :: 0 <= i < |supers| ==>
              var half := Halfway(supers[i].setup, old(LoopOf(supers, hal.Views(), i)), t);
              Sound(half.rack.plant) && LoopOf(supers, hal.Views(), i) == Loop(half.mode, Advance(half.rack, t.dt))
  {
    hide Halfway, Sound, Ordered, Find, NextTemp, NextSoc;
    Sweep(hal, supers, ts, t);
    ghost var racks := hal.Views();
    ghost var modes := seq(|supers|, i requires 0 <= i < |supers| reads supers => supers[i].View());
    hal.Tick(dt);
    forall i | 0 <= i < |supers|
      ensures Sound(racks[i].plant) && LoopOf(supers, hal.Views(), i) == Loop(modes[i], Advance(racks[i], t.dt))
    {
      assert supers[i].View() == modes[i] && hal.Views()[i] == Advance(racks[i], t.dt);
    }
  }

  // After any number of cycles each rack and its supervisor stand where its own
  // closed loop puts them, untouched by the other racks.
  method RunBench<A>(hal: SimulatorHal, supers: seq<SupervisorObject<A>>, cycles: nat, dt: real)
    requires hal.Valid() && Paired(hal.Views(), supers)
    modifies supers, hal, hal.racks
    ensures hal.Valid() && Paired(hal.Views(), supers)
    ensures hal.timeMs == Clock(old(hal.timeMs), dt, cycles)
    ensures forall i :: 0 <= i < |supers| ==>
              LoopOf(supers, hal.Views(), i)
              == Play(supers[i].setup, old(LoopOf(supers, hal.Views(), i)), Schedule(old(hal.timeMs), dt, cycles))
  {
    ghost var start := hal.timeMs;
    ghost var racks0 := hal.Views();
    for c := 0 to cycles
      invariant hal.Valid() && SameRacks(racks0, hal.Views())
      invariant hal.timeMs == Clock(start, dt, c)
      invariant forall i :: 0 <= i < |supers| ==>
                  LoopOf(supers, hal.Views(), i)
                  == Play(supers[i].setup, old(LoopOf(supers, hal.Views(), i)), Schedule(start, dt, c))
    {
      hide Halfway, Play, Sound, Ordered, Find, Schedule, Advance, Clock, Clamp;
      ClockTicks(start, dt, c);
      PairedKept(racks0, hal.Views(), supers);
      forall i | 0 <= i < |supers|
        ensures var l := old(LoopOf(supers, hal.Views(), i));
                var half := Halfway(supers[i].setup, LoopOf(supers, hal.Views(), i), TurnAt(start, dt, c));
                && Sound(half.rack.plant)
                && Play(supers[i].setup, l, Schedule(start, dt, c + 1))
                   == Loop(half.mode, Advance(half.rack, Clamp(dt, 0.0, 3600.0)))
      {
        TurnCompletes(supers[i].setup, old(LoopOf(supers, hal.Views(), i)), start, dt, c);
      }
      OneRound(hal, supers, (c + 1) * 1000, dt, TurnAt(start, dt, c));
    }
    PairedKept(racks0, hal.Views(), supers);
  }

  lemma {:induction false} ScheduleIsEven(startMs: nat, dt: real, cycles: nat)
    ensures |Schedule(startMs, dt, cycles)| == cycles
    ensures EvenSteps(Schedule(startMs, dt, cycles), Clamp(dt, 0.0, 3600.0))
  {
    if cycles > 0 { ScheduleIsEven(startMs, dt, cycles - 1); }
  }

  // So on the bench, with ticks of at most 300 s, no rack ever exceeds the bound
  // of the closed loop; and with ticks of 5 s nine cycles bring any rack back.
  lemma BenchIsSafe<A>(su: Setup<A>, l: Loop<A>, startMs: nat, dt: real, cycles: nat)
    requires su.limits == DEFAULT_LIMITS && InRange(l.rack) && dt <= 300.0
    ensures Play(su, l, Schedule(startMs, dt, cycles)).rack.tempC
         <= Max(l.rack.tempC, 45.0 + 0.2 * Clamp(dt, 0.0, 3600.0))
    ensures dt == 5.0 && cycles >= 9 ==> Play(su, l, Schedule(startMs, dt, cycles)).rack.tempC <= 46.0
  {
    ScheduleIsEven(startMs, dt, cycles);
    ThermalSafety(su, l, Schedule(startMs, dt, cycles), Clamp(dt, 0.0, 3600.0));
    if dt == 5.0 && cycles >= 9 { NineCyclesSuffice(su, l, Schedule(startMs, dt, cycles)); }
  }
}
