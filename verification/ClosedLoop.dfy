// The supervisor in closed loop with its rack: one control cycle, then one tick
// of the plant (rust-edge/src/bin/tpt-edge.rs:58-81).
module ClosedLoop {
  import opened Reals
  import opened Hal
  import opened Safety
  import opened Simulator
  import opened Supervisor

  // One turn of the schedule: whether an operator resets the latch first, whether
  // the read meets a fault, the time stamps, and how far the plant then advances.
  datatype Turn = Turn(reset: bool, fault: Option<HalError>, ts: nat, simMs: nat, dt: real)

  datatype Loop<A> = Loop(mode: Mode<A>, rack: Rack)

  function Observed(r: Rack, t: Turn): Result<seq<Reading>> {
    if t.fault.Some? then Err(t.fault.value) else Ok(Readings(r, t.simMs))
  }

  function Begun<A>(l: Loop<A>, t: Turn): Mode<A> { if t.reset then ResetMode(l.mode) else l.mode }

  function Cycled<A>(su: Setup<A>, l: Loop<A>, t: Turn): (Mode<A>, Outcome)
    requires Ordered(su.limits)
  {
    RunOnce(su, Begun(l, t), Observed(l.rack, t), t.ts)
  }

  // The rack as the plant tick finds it.
  function Commanded<A>(su: Setup<A>, l: Loop<A>, t: Turn): Rack
    requires Ordered(su.limits)
  {
    ApplyAll(l.rack, Cycled(su, l, t).1.applied)
  }

  function TakeTurn<A>(su: Setup<A>, l: Loop<A>, t: Turn): Loop<A>
    requires Ordered(su.limits) && Sound(l.rack.plant)
  {
    ApplyAllKeeps(l.rack, Cycled(su, l, t).1.applied);
    Loop(Cycled(su, l, t).0, Advance(Commanded(su, l, t), t.dt))
  }

  function Play<A>(su: Setup<A>, l: Loop<A>, turns: seq<Turn>): (r: Loop<A>)
    requires Ordered(su.limits) && Sound(l.rack.plant)
    ensures r.rack.plant == l.rack.plant
  {
    if turns == [] then l
    else
      var before := Play(su, l, turns[..|turns| - 1]);
      ApplyAllKeeps(before.rack, Cycled(su, before, turns[|turns| - 1]).1.applied);
      TakeTurn(su, before, turns[|turns| - 1])
  }

  // ---- What the plant can do in one step -----------------------------------

  predicate InRange(r: Rack) {
    r.plant == STANDARD && 18.0 <= r.tempC <= 200.0 && 0.0 <= r.valve <= 100.0 && 0.0 <= r.fan <= 100.0
  }

  lemma {:induction false} CommandsKeepRange(r: Rack, commands: seq<Command>)
    requires InRange(r)
    ensures InRange(ApplyAll(r, commands)) && ApplyAll(r, commands).tempC == r.tempC
  {
    if commands != [] {
      CommandsKeepRange(r, commands[..|commands| - 1]);
    }
  }

  lemma AdvanceKeepsRange(r: Rack, dt: real)
    requires InRange(r)
    ensures InRange(Advance(r, dt))
  {
    hide HeatIn, HeatOut;
  }

  // The rate of warming, in degrees per second.
  function Rise(r: Rack): real { (HeatIn(r) - HeatOut(r)) / 60000.0 }

  lemma RiseBound(r: Rack)
    requires InRange(r)
    ensures r.tempC >= 24.0 ==> Rise(r) <= 0.2
    ensures r.tempC < 24.0 ==> Rise(r) - 0.2 <= 0.015 * (24.0 - r.tempC)
  {
    LossBound(r.valve / 100.0, r.fan / 100.0, r.tempC);
    assert HeatOut(r) >= if r.tempC >= 24.0 then 0.0 else 900.0 * (r.tempC - 24.0);
    assert HeatIn(r) <= 12000.0;
    hide HeatIn, HeatOut;
  }

  lemma RiseStep(temp: real, rise: real, dt: real)
    requires temp >= 18.0 && 0.0 <= dt <= 300.0
    requires if temp >= 24.0 then rise <= 0.2 else rise - 0.2 <= 0.015 * (24.0 - temp)
    ensures temp + rise * dt <= (if temp <= 45.0 then 45.0 else temp) + 0.2 * dt
  {
    if temp < 24.0 {
      ColdRise(24.0 - temp, rise, dt, rise - 0.2, 0.015 * (24.0 - temp));
    } else {
      Scaled(dt, rise, 0.2);
    }
  }

  // No setting of the actuators lets a rack warm faster than 0.2 degrees per
  // second once it is above ambient; below, the fan may add a little.
  lemma WarmingBound(r: Rack, dt: real)
    requires InRange(r) && 0.0 <= dt <= 300.0
    ensures Advance(r, dt).tempC <= (if r.tempC <= 45.0 then 45.0 else r.tempC) + 0.2 * dt
  {
    RiseBound(r);
    assert Advance(r, dt).tempC == Clamp(r.tempC + Rise(r) * dt, 18.0, 200.0);
    hide Rise, Advance;
    RiseStep(r.tempC, Rise(r), dt);
  }

  // `x` and `y` stand for rise - 0.2 and 0.015 * gap.
  lemma ColdRise(gap: real, rise: real, dt: real, x: real, y: real)
    requires 0.0 <= gap && 0.0 <= dt <= 300.0 && x <= y
    requires x == rise - 0.2 && y == 0.015 * gap
    ensures rise * dt <= 0.2 * dt + 4.5 * gap
  {
    Scaled(dt, x, y);
    assert x * dt <= y * dt;
    assert x * dt == rise * dt - 0.2 * dt;
    Scaled(y, dt, 300.0);
    assert dt * y <= 300.0 * y;
    assert y * dt <= 300.0 * y;
    assert x * dt <= 4.5 * gap;
  }

  lemma LossBound(v: real, f: real, temp: real)
    requires 0.0 <= v <= 1.0 && 0.0 <= f <= 1.0 && temp >= 18.0
    ensures 1800.0 * v * (temp - 18.0) + 900.0 * f * (temp - 24.0)
         >= if temp >= 24.0 then 0.0 else 900.0 * (temp - 24.0)
  {
    ProductSign(v, temp - 18.0);
    assert 1800.0 * v * (temp - 18.0) == 1800.0 * (v * (temp - 18.0));
    assert 900.0 * f * (temp - 24.0) == 900.0 * (f * (temp - 24.0));
    if temp >= 24.0 {
      ProductSign(f, temp - 24.0);
    } else {
      ProductSign(1.0 - f, 24.0 - temp);
      assert (1.0 - f) * (24.0 - temp) == (24.0 - temp) + f * (temp - 24.0);
    }
  }

  lemma ProductSign(x: real, y: real)
    requires x >= 0.0 && y >= 0.0
    ensures x * y >= 0.0
  {
  }

  // ---- Full cooling whenever it is hot -------------------------------------

  // Both actuators stand at their maximum.
  predicate FullyOpen(r: Rack) { r.valve == 100.0 && r.fan == 100.0 }

  lemma SafeStateOpens(r: Rack, s: SafeState)
    ensures FullyOpen(ApplyAll(r, s.Commands()))
    decreases s.ShedLoad?
  {
    var c := s.Commands();
    if s.ShedLoad? {
      SafeStateOpens(r, FullCooling);
      assert c[..2] == FullCooling.Commands();
    } else {
      assert c[..1] == [SetValvePosition(100.0)] && c[..1][..0] == [];
    }
  }

  lemma SnapshotTemp(device: string, r: Rack, simMs: nat, ts: nat)
    ensures FromReadings(device, Readings(r, simMs), ts).TempC() == Some(r.tempC)
  {
    SnapshotShows(device, r, simMs, ts, "rack_air_temp");
  }

  // Above the critical temperature a cycle drives a safe state, whatever the
  // agent proposes, whether or not the read succeeds, latched or not.
  lemma HotMeansFullyOpen<A>(su: Setup<A>, l: Loop<A>, t: Turn)
    requires su.limits == DEFAULT_LIMITS && InRange(l.rack) && l.rack.tempC > 45.0
    ensures FullyOpen(Commanded(su, l, t)) && InRange(Commanded(su, l, t))
    ensures Commanded(su, l, t).tempC == l.rack.tempC
  {
    var read := Observed(l.rack, t);
    var applied := Cycled(su, l, t).1.applied;
    CommandsKeepRange(l.rack, applied);
    SafeStateOpens(l.rack, FullCooling);
    SafeStateOpens(l.rack, ShedLoad);
    SnapshotTemp(su.device, l.rack, t.simMs, t.ts);
    AppliedCommands(su, Begun(l, t), read, t.ts);
  }

  // The temperature at which full cooling balances the full load.
  const BALANCE: real := 66000.0 / 2700.0

  // One step of full cooling, exactly, while it does not overshoot.
  lemma FullCoolingStep(r: Rack, dt: real)
    requires InRange(r) && FullyOpen(r) && r.tempC > 45.0 && dt >= 0.0
    ensures dt > 0.0 ==> Advance(r, dt).tempC < r.tempC
    ensures Advance(r, dt).tempC <= r.tempC
    ensures 0.045 * dt <= 1.0 ==>
              Advance(r, dt).tempC <= BALANCE + (1.0 - 0.045 * dt) * (r.tempC - BALANCE)
    ensures 0.045 * dt <= 1.0 && OutletOn(r) ==>
              Advance(r, dt).tempC == BALANCE + (1.0 - 0.045 * dt) * (r.tempC - BALANCE)
  {
    var rate := (HeatIn(r) - HeatOut(r)) / 60000.0;
    assert HeatOut(r) == 2700.0 * r.tempC - 54000.0;
    assert HeatIn(r) == if OutletOn(r) then 12000.0 else 2400.0;
    var on := 0.045 * (BALANCE - r.tempC);
    assert rate <= on && (OutletOn(r) ==> rate == on);
    hide HeatIn, HeatOut;
    Scaled(dt, rate, on);
    assert on < 0.0;
    NegativeScale(on, dt);
    assert on * dt == 0.045 * dt * (BALANCE - r.tempC);
    assert BALANCE + (1.0 - 0.045 * dt) * (r.tempC - BALANCE) == r.tempC + on * dt;
    if 0.045 * dt <= 1.0 {
      ProductSign(1.0 - 0.045 * dt, r.tempC - BALANCE);
    }
  }

  lemma NegativeScale(x: real, dt: real)
    requires x < 0.0 && dt >= 0.0
    ensures x * dt <= 0.0 && (dt > 0.0 ==> x * dt < 0.0)
  {
  }

  // ---- Whole runs ----------------------------------------------------------

  ghost predicate Steps(turns: seq<Turn>, d: real) {
    forall i :: 0 <= i < |turns| ==> 0.0 <= turns[i].dt <= d
  }

  function Max(a: real, b: real): real { if a < b then b else a }

  lemma TurnKeepsRange<A>(su: Setup<A>, l: Loop<A>, t: Turn)
    requires su.limits == DEFAULT_LIMITS && InRange(l.rack)
    ensures InRange(TakeTurn(su, l, t).rack)
  {
    CommandsKeepRange(l.rack, Cycled(su, l, t).1.applied);
    AdvanceKeepsRange(Commanded(su, l, t), t.dt);
  }

  lemma {:induction false} PlayKeepsRange<A>(su: Setup<A>, l: Loop<A>, turns: seq<Turn>)
    requires su.limits == DEFAULT_LIMITS && InRange(l.rack)
    ensures InRange(Play(su, l, turns).rack)
  {
    if turns != [] {
      PlayKeepsRange(su, l, turns[..|turns| - 1]);
      TurnKeepsRange(su, Play(su, l, turns[..|turns| - 1]), turns[|turns| - 1]);
    }
  }

  lemma TurnBound<A>(su: Setup<A>, l: Loop<A>, t: Turn, d: real)
    requires su.limits == DEFAULT_LIMITS && InRange(l.rack) && 0.0 <= t.dt <= d <= 300.0
    ensures TakeTurn(su, l, t).rack.tempC <= Max(l.rack.tempC, 45.0 + 0.2 * d)
  {
    var r := Commanded(su, l, t);
    CommandsKeepRange(l.rack, Cycled(su, l, t).1.applied);
    if l.rack.tempC > 45.0 {
      HotMeansFullyOpen(su, l, t);
      FullCoolingStep(r, t.dt);
    } else {
      WarmingBound(r, t.dt);
    }
  }

  // Closed-loop thermal safety: whatever the agent, the faults and the latch do,
  // no rack ever exceeds its starting temperature or 45 degrees plus what one
  // step of full load can add. (From 775 s on that sum exceeds the model's 200.)
  lemma {:induction false} ThermalSafety<A>(su: Setup<A>, l: Loop<A>, turns: seq<Turn>, d: real)
    requires su.limits == DEFAULT_LIMITS && InRange(l.rack)
    requires (0.0 <= d <= 300.0 || d >= 775.0) && Steps(turns, d)
    ensures Play(su, l, turns).rack.tempC <= Max(l.rack.tempC, 45.0 + 0.2 * d)
  {
    PlayKeepsRange(su, l, turns);
    if turns != [] && d <= 300.0 {
      var front := turns[..|turns| - 1];
      ThermalSafety(su, l, front, d);
      PlayKeepsRange(su, l, front);
      TurnBound(su, Play(su, l, front), turns[|turns| - 1], d);
    }
  }

  // An agent that closes the valve and blows ambient air over a cold rack.
  function Blower(): Setup<()> {
    Setup("rack-00", (a: (), s: Snapshot) => (a, [SetValvePosition(0.0), SetFanSpeed(100.0)]),
          DEFAULT_LIMITS, Options(1, 1, FullCooling))
  }

  function ColdRack(): Rack { NewRack(0).(id := "rack-00", tempC := 18.0) }

  // The bound on the step is exact: for every step between 300 s and 775 s a
  // single cycle can break the temperature bound.
  lemma ThermalSafetyFailsBetween(d: real)
    requires 300.0 < d < 775.0
    ensures var l := Loop(Start(()), ColdRack()); var t := Turn(false, None, 0, 0, d);
            InRange(l.rack) && TakeTurn(Blower(), l, t).rack.tempC > Max(l.rack.tempC, 45.0 + 0.2 * d)
  {
    var (su, r) := (Blower(), ColdRack());
    var t := Turn(false, None, 0, 0, d);
    var snap := FromReadings(su.device, Readings(r, 0), 0);
    SnapshotTemp(su.device, r, 0, 0);
    SnapshotPower(su.device, r, 0, 0);
    var cmds := [SetValvePosition(0.0), SetFanSpeed(100.0)];
    AppliedCommands(su, Start(()), Observed(r, t), 0);
    assert AirInBand(su.limits, snap) && PowerInBand(su.limits, snap);
    assert ClampAll(su.limits, cmds) == cmds;
    var r1 := Commanded(su, Loop(Start(()), r), t);
    assert r1 == ApplyAll(r, cmds);
    assert cmds[..1][..0] == [] && cmds[..1] == [SetValvePosition(0.0)];
    assert ApplyAll(r, cmds[..1]) == r.(valve := 0.0);
    assert r1 == r.(valve := 0.0, fan := 100.0);
    hide RunOnce, ApplyAll, Commanded;
    assert HeatIn(r1) == 12000.0 && HeatOut(r1) == -5400.0;
    assert Advance(r1, d).tempC == Clamp(18.0 + 0.29 * d, 18.0, 200.0);
  }

  lemma SnapshotPower(device: string, r: Rack, simMs: nat, ts: nat)
    ensures var snap := FromReadings(device, Readings(r, simMs), ts);
            snap.PduVoltage() == Some(r.plant.pduVoltage) && snap.PduCurrent() == Some(r.pduCurrent)
  {
    SnapshotShows(device, r, simMs, ts, "pdu_voltage");
    SnapshotShows(device, r, simMs, ts, "pdu_current");
  }

  // ---- Recovery ------------------------------------------------------------

  // While it is hot, every cycle moves the temperature strictly down.
  lemma HotCycleCools<A>(su: Setup<A>, l: Loop<A>, t: Turn)
    requires su.limits == DEFAULT_LIMITS && InRange(l.rack) && l.rack.tempC > 45.0 && t.dt > 0.0
    ensures TakeTurn(su, l, t).rack.tempC < l.rack.tempC
  {
    HotMeansFullyOpen(su, l, t);
    FullCoolingStep(Commanded(su, l, t), t.dt);
  }

  // The distance `x` after it shrank `n` times by the factor `f`.
  function Shrunk(f: real, x: real, n: nat): real { if n == 0 then x else f * Shrunk(f, x, n - 1) }

  lemma {:induction false} ShrunkIsPower(f: real, x: real, n: nat)
    ensures Shrunk(f, x, n) == Power(f, n) * x
  {
    if n > 0 {
      ShrunkIsPower(f, x, n - 1);
      assert f * (Power(f, n - 1) * x) == (f * Power(f, n - 1)) * x;
    }
  }

  // Every turn begins hot.
  ghost predicate HotThroughout<A>(su: Setup<A>, l: Loop<A>, turns: seq<Turn>)
    requires Ordered(su.limits) && Sound(l.rack.plant)
  {
    turns == []
    || (HotThroughout(su, l, turns[..|turns| - 1]) && Play(su, l, turns[..|turns| - 1]).rack.tempC > 45.0)
  }

  ghost predicate EvenSteps(turns: seq<Turn>, d: real) {
    forall i :: 0 <= i < |turns| ==> turns[i].dt == d
  }

  lemma HotTurnShrinks<A>(su: Setup<A>, l: Loop<A>, t: Turn, f: real)
    requires su.limits == DEFAULT_LIMITS && InRange(l.rack) && l.rack.tempC > 45.0
    requires t.dt >= 0.0 && f == 1.0 - 0.045 * t.dt && f >= 0.0
    ensures TakeTurn(su, l, t).rack.tempC - BALANCE <= f * (l.rack.tempC - BALANCE)
  {
    HotMeansFullyOpen(su, l, t);
    FullCoolingStep(Commanded(su, l, t), t.dt);
  }

  lemma HotRunNext<A>(su: Setup<A>, l: Loop<A>, t: Turn, f: real, bound: real)
    requires su.limits == DEFAULT_LIMITS && InRange(l.rack) && l.rack.tempC > 45.0
    requires t.dt >= 0.0 && f == 1.0 - 0.045 * t.dt && f >= 0.0
    requires l.rack.tempC - BALANCE <= bound
    ensures TakeTurn(su, l, t).rack.tempC - BALANCE <= f * bound
  {
    HotTurnShrinks(su, l, t, f);
    ShrinkOnce(l.rack.tempC - BALANCE, bound, TakeTurn(su, l, t).rack.tempC - BALANCE, f);
  }

  // The distance to the balance point shrinks by the same factor every hot cycle.
  lemma {:induction false} HotRunCools<A>(su: Setup<A>, l: Loop<A>, turns: seq<Turn>, d: real, f: real)
    requires su.limits == DEFAULT_LIMITS && InRange(l.rack)
    requires 0.0 <= d && f == 1.0 - 0.045 * d && f >= 0.0
    requires EvenSteps(turns, d) && HotThroughout(su, l, turns)
    ensures Play(su, l, turns).rack.tempC - BALANCE <= Shrunk(f, l.rack.tempC - BALANCE, |turns|)
  {
    hide TakeTurn, InRange, BALANCE;
    if turns != [] {
      var n := |turns| - 1;
      var front := turns[..n];
      HotRunCools(su, l, front, d, f);
      PlayKeepsRange(su, l, front);
      HotRunNext(su, Play(su, l, front), turns[n], f, Shrunk(f, l.rack.tempC - BALANCE, n));
    }
  }

  lemma ShrinkOnce(a: real, b: real, next: real, f: real)
    requires f >= 0.0 && a <= b && next <= f * a
    ensures next <= f * b
  {
    Scaled(f, a, b);
  }

  lemma {:induction false} PlayConcat<A>(su: Setup<A>, l: Loop<A>, t1: seq<Turn>, t2: seq<Turn>)
    requires Ordered(su.limits) && Sound(l.rack.plant)
    ensures Play(su, l, t1 + t2) == Play(su, Play(su, l, t1), t2)
  {
    hide TakeTurn;
    if t2 == [] {
      assert t1 + t2 == t1;
    } else {
      var n := |t2| - 1;
      assert (t1 + t2)[..|t1| + n] == t1 + t2[..n];
      PlayConcat(su, l, t1, t2[..n]);
    }
  }

  // Some prefix of at most `n` turns ends at or below 45 degrees.
  ghost predicate CooledWithin<A>(su: Setup<A>, l: Loop<A>, turns: seq<Turn>, n: nat)
    requires Ordered(su.limits) && Sound(l.rack.plant) && n <= |turns|
  {
    exists k :: 0 <= k <= n && Play(su, l, turns[..k]).rack.tempC <= 45.0
  }

  lemma {:induction false} HotUnlessCooled<A>(su: Setup<A>, l: Loop<A>, turns: seq<Turn>, n: nat)
    requires Ordered(su.limits) && Sound(l.rack.plant) && n <= |turns|
    requires !CooledWithin(su, l, turns, n)
    ensures HotThroughout(su, l, turns[..n]) && Play(su, l, turns[..n]).rack.tempC > 45.0
  {
    if n > 0 {
      HotUnlessCooled(su, l, turns, n - 1);
      assert turns[..n][..n - 1] == turns[..n - 1];
    }
  }

  // If the shrunken distance falls inside the critical limit within n cycles,
  // the rack has been at or below 45 degrees by then, whatever the agent.
  lemma RecoversWithin<A>(su: Setup<A>, l: Loop<A>, turns: seq<Turn>, d: real, n: nat)
    requires su.limits == DEFAULT_LIMITS && InRange(l.rack)
    requires 0.0 <= d && 0.045 * d <= 1.0 && EvenSteps(turns, d) && n <= |turns|
    requires Shrunk(1.0 - 0.045 * d, l.rack.tempC - BALANCE, n) <= 45.0 - BALANCE
    ensures CooledWithin(su, l, turns, n)
  {
    if !CooledWithin(su, l, turns, n) {
      HotUnlessCooled(su, l, turns, n);
      hide Play, HotThroughout, Shrunk, CooledWithin;
      HotRunCools(su, l, turns[..n], d, 1.0 - 0.045 * d);
    }
  }

  lemma NineStepsOfFive(temp: real)
    requires temp <= 200.0
    ensures Shrunk(1.0 - 0.045 * 5.0, temp - BALANCE, 9) <= 45.0 - BALANCE
  {
    var y := temp - BALANCE;
    assert 1.0 - 0.045 * 5.0 == 0.775;
    assert Shrunk(0.775, y, 1) == 0.775 * y;
    assert Shrunk(0.775, y, 3) == 0.775 * 0.775 * Shrunk(0.775, y, 1);
    assert Shrunk(0.775, y, 5) == 0.775 * 0.775 * Shrunk(0.775, y, 3);
    assert Shrunk(0.775, y, 7) == 0.775 * 0.775 * Shrunk(0.775, y, 5);
    assert Shrunk(0.775, y, 9) == 0.775 * 0.775 * Shrunk(0.775, y, 7);
  }

  // At the 5 s step of the bench run, any rack is back at 45 degrees within nine
  // cycles and stays below 46 from then on.
  lemma NineCyclesSuffice<A>(su: Setup<A>, l: Loop<A>, turns: seq<Turn>)
    requires su.limits == DEFAULT_LIMITS && InRange(l.rack)
    requires EvenSteps(turns, 5.0) && |turns| >= 9
    ensures CooledWithin(su, l, turns, 9)
    ensures Play(su, l, turns).rack.tempC <= 46.0
  {
    NineStepsOfFive(l.rack.tempC);
    RecoversWithin(su, l, turns, 5.0, 9);
    hide Shrunk, Play;
    var k :| 0 <= k <= 9 && Play(su, l, turns[..k]).rack.tempC <= 45.0;
    StaysCool(su, l, turns, k);
  }

  lemma StaysCool<A>(su: Setup<A>, l: Loop<A>, turns: seq<Turn>, k: nat)
    requires su.limits == DEFAULT_LIMITS && InRange(l.rack) && EvenSteps(turns, 5.0)
    requires k <= |turns| && Play(su, l, turns[..k]).rack.tempC <= 45.0
    ensures Play(su, l, turns).rack.tempC <= 46.0
  {
    hide Play;
    PlayConcat(su, l, turns[..k], turns[k..]);
    assert turns[..k] + turns[k..] == turns;
    PlayKeepsRange(su, l, turns[..k]);
    ThermalSafety(su, Play(su, l, turns[..k]), turns[k..], 5.0);
  }
}
