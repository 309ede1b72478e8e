// The standard rack supervisor, its bench run, and what it never does
// (rust-edge/src/control/supervisor.rs:309-329, rust-edge/src/bin/tpt-edge.rs:54-81).
module RackSupervisor {
  import opened Hal
  import opened Safety
  import opened Simulator
  import opened Pid
  import opened Agents
  import opened Supervisor
  import opened ClosedLoop

  function RackAgents(setpointC: real): seq<Agent> {
    [NewCooling(setpointC, 6.0, 0.5, 1.0, 0.4), Pdu(80.0, 264.0, 198.0), Ups(20.0, 80.0, 50.0)]
  }

  // Agents outside the usable range do not occur; the control law is total for the supervisor's sake.
  function RackLaw(agents: seq<Agent>, snap: Snapshot): (seq<Agent>, seq<Command>) {
    if AllSane(agents) then DecideAll(agents, snap) else (agents, [])
  }

  function RackSetup(device: string, opts: Options): Setup<seq<Agent>> {
    Setup(device, RackLaw, DEFAULT_LIMITS, opts)
  }

  predicate NeverEnergises(commands: seq<Command>) { SetOutletState(true) !in commands }

  lemma RackAgentsPercent(setpointC: real)
    ensures AllPercent(RackAgents(setpointC))
  {
  }

  lemma {:induction false} AgentsStayPercent(device: string, opts: Options, setpointC: real, events: seq<Event>)
    ensures AllPercent(Live(RackSetup(device, opts), Start(RackAgents(setpointC)), events).agent)
  {
    var su := RackSetup(device, opts);
    if events == [] {
      RackAgentsPercent(setpointC);
    } else {
      var front := events[..|events| - 1];
      AgentsStayPercent(device, opts, setpointC, front);
      var m := Live(su, Start(RackAgents(setpointC)), front);
      match events[|events| - 1] {
        case Reset =>
        case Cycle(read, ts) =>
          if !m.latched && read.Ok? {
            CompositeModest(m.agent, FromReadings(device, read.value, ts));
          }
      }
    }
  }

  lemma ModestUnclamped(c: Command)
    requires Modest(c)
    ensures ClampOne(DEFAULT_LIMITS, c) == c && c != SetOutletState(true)
  {
  }

  // After any history: no cycle asks for or writes an outlet going on; on a
  // healthy cycle the enforcer leaves the request as it is; a cycle is unhealthy
  // iff it tripped, and then writes one of the two safe states.
  lemma RackCycle(device: string, opts: Options, setpointC: real, events: seq<Event>,
                  read: Result<seq<Reading>>, ts: nat)
    ensures var su := RackSetup(device, opts);
            var o := RunOnce(su, Live(su, Start(RackAgents(setpointC)), events), read, ts).1;
            && NeverEnergises(o.requested) && NeverEnergises(o.applied)
            && (o.healthy ==> o.applied == o.requested)
            && (!o.healthy <==> o.tripped)
            && (o.tripped ==> o.applied in {FullCooling.Commands(), ShedLoad.Commands()})
  {
    var su := RackSetup(device, opts);
    var m := Live(su, Start(RackAgents(setpointC)), events);
    AgentsStayPercent(device, opts, setpointC, events);
    AppliedCommands(su, m, read, ts);
    if !m.latched && read.Ok? {
      var snap := FromReadings(device, read.value, ts);
      CompositeModest(m.agent, snap);
      var requested := DecideAll(m.agent, snap).1;
      forall i | 0 <= i < |requested|
        ensures ClampOne(DEFAULT_LIMITS, requested[i]) == requested[i] && requested[i] != SetOutletState(true)
      {
        ModestUnclamped(requested[i]);
      }
      assert ClampAll(DEFAULT_LIMITS, requested) == requested;
    }
  }

  // ---- A shed outlet stays shed --------------------------------------------

  lemma {:induction false} CommandsKeepOutletOff(r: Rack, commands: seq<Command>)
    requires NeverEnergises(commands) && !OutletOn(r)
    ensures !OutletOn(ApplyAll(r, commands))
  {
    if commands != [] {
      var n := |commands| - 1;
      CommandsKeepOutletOff(r, commands[..n]);
      assert commands[n] != SetOutletState(true);
    }
  }

  // A reset at the start of a turn is one more event.
  lemma BeginTurn(su: Setup<seq<Agent>>, l: Loop<seq<Agent>>, t: Turn, before: seq<Event>, start: Mode<seq<Agent>>)
    returns (events: seq<Event>)
    requires Ordered(su.limits) && l.mode == Live(su, start, before)
    ensures Begun(l, t) == Live(su, start, events)
  {
    events := if t.reset then before + [Reset] else before;
    assert (before + [Reset])[..|before|] == before;
  }

  // The supervisor's side of a closed-loop run is a history of cycles and resets.
  lemma {:induction false} PlayIsLive(su: Setup<seq<Agent>>, l: Loop<seq<Agent>>, turns: seq<Turn>,
                                      before: seq<Event>, start: Mode<seq<Agent>>)
    returns (events: seq<Event>)
    requires Ordered(su.limits) && Sound(l.rack.plant) && l.mode == Live(su, start, before)
    ensures Play(su, l, turns).mode == Live(su, start, events)
  {
    if turns == [] {
      events := before;
    } else {
      var n := |turns| - 1;
      var front := PlayIsLive(su, l, turns[..n], before, start);
      var mid := Play(su, l, turns[..n]);
      var begun := BeginTurn(su, mid, turns[n], front, start);
      var e := Cycle(Observed(mid.rack, turns[n]), turns[n].ts);
      events := begun + [e];
      assert events[..|begun|] == begun;
      hide RunOnce;
    }
  }

  // Once an outlet of a supervised rack is off, no run of the closed loop ever turns
  // it on again, resets of the latch included: restoring load stays an operator action.
  lemma {:induction false} ShedStaysShed(device: string, opts: Options, setpointC: real,
                                         before: seq<Event>, rack: Rack, turns: seq<Turn>)
    requires Sound(rack.plant) && !OutletOn(rack)
    ensures var su := RackSetup(device, opts);
            !OutletOn(Play(su, Loop(Live(su, Start(RackAgents(setpointC)), before), rack), turns).rack)
  {
    if turns != [] {
      var su := RackSetup(device, opts);
      var start := Start(RackAgents(setpointC));
      var l := Loop(Live(su, start, before), rack);
      var n := |turns| - 1;
      ShedStaysShed(device, opts, setpointC, before, rack, turns[..n]);
      var events := PlayIsLive(su, l, turns[..n], before, start);
      var mid := Play(su, l, turns[..n]);
      var t := turns[n];
      var begun := BeginTurn(su, mid, t, events, start);
      RackCycle(device, opts, setpointC, begun, Observed(mid.rack, t), t.ts);
      CommandsKeepOutletOff(mid.rack, Cycled(su, mid, t).1.applied);
      hide RunOnce, RackSetup, NextTemp, NextSoc;
    }
  }

  // What the standard rack's electrical laws do: the outlet is shed outside 198 to 264
  // volts or above 80 amperes; the battery may discharge freely up to 20 % of charge, at
  // 80 % of the rate below 80 %, at half of it from there on.
  lemma StandardLaws(setpointC: real, snap: Snapshot)
    ensures AllSane(RackAgents(setpointC))
    ensures var commands := DecideAll(RackAgents(setpointC), snap).1;
            && (SetOutletState(false) in commands <==>
                  snap.PduVoltage().Some?
                  && (!(198.0 <= snap.PduVoltage().value <= 264.0)
                      || (snap.PduCurrent().Some? && snap.PduCurrent().value > 80.0)))
            && (forall x :: SetDischargeLimit(x) in commands <==>
                  snap.UpsSoc().Some?
                  && x == if snap.UpsSoc().value <= 20.0 then 100.0
                          else if snap.UpsSoc().value < 80.0 then 80.0 else 50.0)
  {
    var agents := RackAgents(setpointC);
    var (cooling, pdu, ups) := (agents[0], agents[1], agents[2]);
    assert agents == [cooling] + ([pdu] + [ups]);
    DecideAllOne(cooling, snap);
    DecideAllOne(pdu, snap);
    DecideAllOne(ups, snap);
    DecideAllSplits([pdu], [ups], snap);
    DecideAllSplits([cooling], [pdu] + [ups], snap);
    hide DecideAll, Update, Period, FanSpeed, NewGains;
  }

  // ---- The first two cycles of the standard rack ---------------------------

  function At35(ts: nat): Result<seq<Reading>> { Ok([Reading("rack-00", "rack_air_temp", 35.0, ts)]) }

  // With a temperature alone to go by, only the cooling law speaks.
  lemma OnlyCooling(cooling: Agent, snap: Snapshot, setpointC: real)
    requires Sane(cooling) && snap.PduVoltage().None? && snap.UpsSoc().None?
    ensures var agents := [cooling] + RackAgents(setpointC)[1..];
            AllSane(agents)
            && DecideAll(agents, snap)
               == ([Decide(cooling, snap).0] + RackAgents(setpointC)[1..], Decide(cooling, snap).1)
  {
    var (pdu, ups) := (RackAgents(setpointC)[1], RackAgents(setpointC)[2]);
    assert RackAgents(setpointC)[1..] == [pdu] + [ups];
    DecideAllOne(cooling, snap);
    DecideAllOne(pdu, snap);
    DecideAllOne(ups, snap);
    assert Decide(pdu, snap) == (pdu, []) && Decide(ups, snap) == (ups, []);
    hide Decide, DecideAll;
    DecideAllSplits([pdu], [ups], snap);
    DecideAllSplits([cooling], [pdu] + [ups], snap);
    var c := Decide(cooling, snap).1;
    assert c + ([] + []) == c;
  }

  lemma At35Shows(device: string, ts: nat)
    ensures var snap := FromReadings(device, At35(ts).value, ts);
            && snap.TempC() == Some(35.0) && snap.PduVoltage().None? && snap.UpsSoc().None?
            && snap.timestampMs == ts
  {
    assert "rack_air_temp"[0] != "pdu_voltage"[0] && "rack_air_temp"[0] != "ups_soc"[0];
    var readings := At35(ts).value;
    assert readings[..0] == [];
    assert Collect(readings) == map["rack_air_temp" := readings[0]];
  }

  lemma CoolingTwice(s0: Snapshot, s1: Snapshot)
    requires s0.TempC() == s1.TempC() == Some(35.0) && s0.timestampMs == 0 && s1.timestampMs == 1000
    ensures var (a1, c1) := Decide(RackAgents(30.0)[0], s0);
            && Sane(a1) && c1 == [SetValvePosition(37.5), SetFanSpeed(15.0)]
            && Decide(a1, s1).1 == [SetValvePosition(35.0), SetFanSpeed(14.0)]
  {
    var a := RackAgents(30.0)[0];
    assert Update(a.gains, a.memory, 35.0, 1.0) == (Memory(5.0, 5.0), 37.5);
    assert Update(a.gains, Memory(5.0, 5.0), 35.0, 1.0) == (Memory(10.0, 5.0), 35.0);
    hide Update;
    assert Period(None, 0) == 1.0 && Period(Some(0), 1000) == 1.0;
    assert FanSpeed(37.5, 0.4) == 15.0 && FanSpeed(35.0, 0.4) == 14.0;
  }

  // Five degrees over a setpoint of 30, twice, a second apart: the valve is asked for
  // 37.5 % and then, the error no longer growing, for 35 %; the fan for four tenths of it.
  lemma FirstTwoCycles(device: string, opts: Options)
    ensures var su := RackSetup(device, opts);
            var (m1, o1) := RunOnce(su, Start(RackAgents(30.0)), At35(0), 0);
            var (m2, o2) := RunOnce(su, m1, At35(1000), 1000);
            && o1.requested == [SetValvePosition(37.5), SetFanSpeed(15.0)]
            && o2.requested == [SetValvePosition(35.0), SetFanSpeed(14.0)]
  {
    var (su, m0) := (RackSetup(device, opts), Start(RackAgents(30.0)));
    var (s0, s1) := (FromReadings(device, At35(0).value, 0), FromReadings(device, At35(1000).value, 1000));
    At35Shows(device, 0);
    At35Shows(device, 1000);
    CoolingTwice(s0, s1);
    var a := RackAgents(30.0)[0];
    var (m1, o1) := RunOnce(su, m0, At35(0), 0);
    assert !m1.latched by { hide Enforce, FromReadings; }
    hide RunOnce, FromReadings, Decide, DecideAll;
    AgentIsAsked(su, m0, At35(0), 0);
    assert RackAgents(30.0) == [a] + RackAgents(30.0)[1..];
    OnlyCooling(a, s0, 30.0);
    OnlyCooling(Decide(a, s0).0, s1, 30.0);
    AgentIsAsked(su, m1, At35(1000), 1000);
  }
}
