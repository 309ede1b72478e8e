// The per-device control laws (rust-edge/src/control/agents.rs).
module Agents {
  import opened Reals
  import opened Hal
  import opened Pid

  const DT_SECONDS: real := 1.0

  // Each law with its private state.
  datatype Agent =
    | Cooling(gains: Gains, memory: Memory, fanShare: real, lastTs: Option<nat>)
    | Pdu(ratedCurrentA: real, overVoltageV: real, underVoltageV: real)
    | Ups(lowSoc: real, highSoc: real, conserveLimit: real)

  function NewCooling(setpointC: real, kp: real, ki: real, kd: real, fanShare: real): Agent {
    Cooling(NewGains(kp, ki, kd, setpointC, 0.0, 100.0), Memory(0.0, 0.0), Clamp(fanShare, 0.0, 1.0), None)
  }

  predicate Sane(a: Agent) { a.Cooling? ==> Usable(a.gains) }

  predicate AllSane(agents: seq<Agent>) { forall i :: 0 <= i < |agents| ==> Sane(agents[i]) }

  // The control period between two snapshots.
  function Period(lastTs: Option<nat>, ts: nat): real {
    if lastTs.Some? && ts > lastTs.value then Clamp((ts - lastTs.value) as real / 1000.0, 0.05, 60.0)
    else DT_SECONDS
  }

  function FanSpeed(demand: real, fanShare: real): real { Clamp(demand * fanShare, 0.0, 100.0) }

  function Decide(a: Agent, snap: Snapshot): (Agent, seq<Command>)
    requires Sane(a)
  {
    match a
    case Cooling(gains, memory, fanShare, lastTs) =>
      var temp := snap.TempC();
      if temp.None? then (a, [SetValvePosition(50.0)])
      else
        var (memory', demand) := Update(gains, memory, temp.value, Period(lastTs, snap.timestampMs));
        (a.(memory := memory', lastTs := Some(snap.timestampMs)),
         [SetValvePosition(demand), SetFanSpeed(FanSpeed(demand, fanShare))])
    case Pdu(rated, over, under) =>
      var v := snap.PduVoltage();
      var i := if snap.PduCurrent().Some? then snap.PduCurrent().value else 0.0;
      if v.None? then (a, [])
      else if v.value > over || v.value < under then (a, [SetOutletState(false)])
      else if i > rated then (a, [SetOutletState(false)])
      else (a, [])
    case Ups(low, high, conserve) =>
      var soc := snap.UpsSoc();
      if soc.None? then (a, [])
      else if soc.value <= low then (a, [SetDischargeLimit(100.0)])
      else if soc.value >= high then (a, [SetDischargeLimit(conserve)])
      else (a, [SetDischargeLimit(80.0)])
  }

  // The decisions of several agents on one device, in order.
  function DecideAll(agents: seq<Agent>, snap: Snapshot): (r: (seq<Agent>, seq<Command>))
    requires AllSane(agents)
    ensures |r.0| == |agents|
  {
    if agents == [] then ([], [])
    else
      var n := |agents| - 1;
      var (front, commands) := DecideAll(agents[..n], snap);
      var (last, more) := Decide(agents[n], snap);
      (front + [last], commands + more)
  }

  // The cooling law as the object it is.
  class CoolingAgent {
    const pid: PidController
    const fanShare: real
    var lastTs: Option<nat>

    function View(): Agent
      reads this, pid
    {
      Cooling(pid.gains, pid.View(), fanShare, lastTs)
    }

    constructor (setpointC: real, kp: real, ki: real, kd: real, fanShare: real)
      ensures View() == NewCooling(setpointC, kp, ki, kd, fanShare) && fresh(pid)
      ensures pid.gains.kp == kp && pid.gains.ki == ki && pid.gains.kd == kd && pid.gains.setpoint == setpointC
      ensures pid.gains.outMin == 0.0 && pid.gains.outMax == 100.0 && lastTs == None
      ensures this.fanShare == if fanShare < 0.0 then 0.0 else if fanShare > 1.0 then 1.0 else fanShare
    {
      pid := new PidController(kp, ki, kd, setpointC, 0.0, 100.0);
      this.fanShare := Clamp(fanShare, 0.0, 1.0);
      lastTs := None;
    }

    method DecideCommands(snap: Snapshot) returns (commands: seq<Command>)
      requires Usable(pid.gains)
      modifies this, pid
      ensures (View(), commands) == Decide(old(View()), snap)
    {
      hide Update, FanSpeed;
      var temp := snap.TempC();
      if temp.None? {
        return [SetValvePosition(50.0)];
      }
      var dt := DT_SECONDS;
      if lastTs.Some? && snap.timestampMs > lastTs.value {
        dt := Clamp((snap.timestampMs - lastTs.value) as real / 1000.0, 0.05, 60.0);
      }
      assert dt == Period(lastTs, snap.timestampMs);
      hide Period;
      lastTs := Some(snap.timestampMs);
      var demand := pid.Step(temp.value, dt);
      commands := [SetValvePosition(demand), SetFanSpeed(FanSpeed(demand, fanShare))];
    }
  }

  class CompositeAgent {
    var agents: seq<Agent>

    constructor (agents: seq<Agent>)
      ensures this.agents == agents
    {
      this.agents := agents;
    }

    method DecideCommands(snap: Snapshot) returns (commands: seq<Command>)
      requires AllSane(agents)
      modifies this
      ensures (agents, commands) == DecideAll(old(agents), snap)
    {
      commands := [];
      for i := 0 to |agents|
        invariant |agents| == |old(agents)| && agents[i..] == old(agents)[i..]
        invariant (agents[..i], commands) == DecideAll(old(agents)[..i], snap)
      {
        assert agents[i] == agents[i..][0] == old(agents)[i];
        var (next, more) := Decide(agents[i], snap);
        agents := agents[i := next];
        commands := commands + more;
        assert old(agents)[..i + 1][..i] == old(agents)[..i];
        assert agents[..i + 1] == agents[..i] + [next];
      }
      assert agents[..|agents|] == agents && old(agents)[..|agents|] == old(agents);
    }
  }

  // ---- What the cooling law remembers --------------------------------------

  function Decided(a: Agent, snaps: seq<Snapshot>): Agent
    requires Sane(a)
    ensures Sane(Decided(a, snaps))
  {
    if snaps == [] then a else Decide(Decided(a, snaps[..|snaps| - 1]), snaps[|snaps| - 1]).0
  }

  // The time stamp of the last snapshot that reported a temperature.
  function LastSeen(snaps: seq<Snapshot>): Option<nat> {
    if snaps == [] then None
    else if snaps[|snaps| - 1].TempC().Some? then Some(snaps[|snaps| - 1].timestampMs)
    else LastSeen(snaps[..|snaps| - 1])
  }

  // The seconds between two snapshots, held between 0.05 and 60; one second where
  // there is no earlier one or the clock did not advance.
  predicate Elapsed(before: Option<nat>, ts: nat, dt: real) {
    if before.None? || ts <= before.value then dt == 1.0
    else
      var ms := (ts - before.value) as real;
      if ms <= 50.0 then dt == 0.05 else if ms >= 60000.0 then dt == 60.0 else dt * 1000.0 == ms
  }

  // Each temperature reported, with the time elapsed since the one before.
  ghost predicate SamplesOf(snaps: seq<Snapshot>, samples: seq<Sample>) {
    if snaps == [] then samples == []
    else
      var (front, snap) := (snaps[..|snaps| - 1], snaps[|snaps| - 1]);
      if snap.TempC().None? then SamplesOf(front, samples)
      else
        samples != []
        && SamplesOf(front, samples[..|samples| - 1])
        && samples[|samples| - 1].measurement == snap.TempC().value
        && Elapsed(LastSeen(front), snap.timestampMs, samples[|samples| - 1].dt)
  }

  // Over any snapshots the law is its controller fed with just these samples: what it
  // remembers is kept from decision to decision, and a snapshot without a temperature
  // leaves no trace.
  lemma {:induction false} CoolingRemembers(setpointC: real, kp: real, ki: real, kd: real, fanShare: real,
                                            snaps: seq<Snapshot>)
    returns (samples: seq<Sample>)
    ensures SamplesOf(snaps, samples)
    ensures var a := NewCooling(setpointC, kp, ki, kd, fanShare);
            Decided(a, snaps) == a.(memory := Run(a.gains, Memory(0.0, 0.0), samples), lastTs := LastSeen(snaps))
  {
    if snaps == [] {
      samples := [];
    } else {
      var (front, snap) := (snaps[..|snaps| - 1], snaps[|snaps| - 1]);
      samples := CoolingRemembers(setpointC, kp, ki, kd, fanShare, front);
      if snap.TempC().Some? {
        var s := Sample(snap.TempC().value, Period(LastSeen(front), snap.timestampMs));
        PeriodElapsed(LastSeen(front), snap.timestampMs);
        assert (samples + [s])[..|samples|] == samples;
        samples := samples + [s];
        hide Update, Period, NewGains, Elapsed;
      }
    }
  }

  lemma PeriodElapsed(before: Option<nat>, ts: nat)
    ensures Elapsed(before, ts, Period(before, ts))
  {
  }

  // An agent's decision does not depend on the others, and its commands come after
  // those of the agents before it.
  lemma {:induction false} DecideAllSplits(front: seq<Agent>, back: seq<Agent>, snap: Snapshot)
    requires AllSane(front) && AllSane(back)
    ensures AllSane(front + back)
    ensures var (f, b) := (DecideAll(front, snap), DecideAll(back, snap));
            DecideAll(front + back, snap) == (f.0 + b.0, f.1 + b.1)
  {
    if back == [] {
      assert front + back == front;
      var f := DecideAll(front, snap);
      assert f.0 + [] == f.0 && f.1 + [] == f.1;
    } else {
      var n := |back| - 1;
      assert (front + back)[..|front| + n] == front + back[..n];
      DecideAllSplits(front, back[..n], snap);
      var (f, b, last) := (DecideAll(front, snap), DecideAll(back[..n], snap), Decide(back[n], snap));
      hide DecideAll, Decide;
      assert f.0 + b.0 + [last.0] == f.0 + (b.0 + [last.0]) && f.1 + b.1 + last.1 == f.1 + (b.1 + last.1);
    }
  }

  lemma DecideAllOne(a: Agent, snap: Snapshot)
    requires Sane(a)
    ensures DecideAll([a], snap) == ([Decide(a, snap).0], Decide(a, snap).1)
  {
    assert [a][..0] == [] && [] + [Decide(a, snap).0] == [Decide(a, snap).0];
    assert [] + Decide(a, snap).1 == Decide(a, snap).1;
    hide Decide;
  }

  // ---- What the laws never do ----------------------------------------------

  // A command every one of these laws may issue: a percentage, or an outlet going off.
  predicate Modest(c: Command) {
    match c case SetOutletState(on) => !on case _ => 0.0 <= c.percent <= 100.0
  }

  // An agent whose output range and caps are percentages.
  predicate Percent(a: Agent) {
    match a
    case Cooling(g, _, _, _) => Usable(g) && 0.0 <= g.outMin && g.outMax <= 100.0
    case Pdu(_, _, _) => true
    case Ups(_, _, conserve) => 0.0 <= conserve <= 100.0
  }

  predicate AllPercent(agents: seq<Agent>) { forall i :: 0 <= i < |agents| ==> Percent(agents[i]) }

  lemma PercentIsSane(agents: seq<Agent>)
    requires AllPercent(agents)
    ensures AllSane(agents)
  {
    forall i | 0 <= i < |agents| ensures Sane(agents[i]) {
      assert Percent(agents[i]);
    }
  }

  lemma DecideModest(a: Agent, snap: Snapshot)
    requires Percent(a)
    ensures var (a', commands) := Decide(a, snap);
            Percent(a') && forall i :: 0 <= i < |commands| ==> Modest(commands[i])
  {
  }

  // No composition of these agents turns an outlet on or asks for more than 0-100 %,
  // in any state they reach.
  lemma {:induction false} CompositeModest(agents: seq<Agent>, snap: Snapshot)
    requires AllPercent(agents)
    ensures AllSane(agents)
    ensures var (agents', commands) := DecideAll(agents, snap);
            AllPercent(agents') && forall i :: 0 <= i < |commands| ==> Modest(commands[i])
  {
    PercentIsSane(agents);
    if agents != [] {
      var n := |agents| - 1;
      CompositeModest(agents[..n], snap);
      DecideModest(agents[n], snap);
    }
  }

  // The PDU law sheds exactly on an electrical fault it can see, and never restores.
  lemma PduShedsExactlyOnFault(rated: real, over: real, under: real, snap: Snapshot)
    ensures var commands := Decide(Pdu(rated, over, under), snap).1;
            commands == [SetOutletState(false)] <==>
              snap.PduVoltage().Some?
              && (snap.PduVoltage().value > over || snap.PduVoltage().value < under
                  || (snap.PduCurrent().Some? && snap.PduCurrent().value > rated)
                  || (snap.PduCurrent().None? && 0.0 > rated))
  {
  }

  // A cooling law whose gains and fan share are not negative, as the standard one's.
  predicate Eager(a: Agent) {
    a.Cooling? && Usable(a.gains) && a.gains.kp >= 0.0 && a.gains.ki >= 0.0 && a.gains.kd >= 0.0 && 0.0 <= a.fanShare
  }

  // From the same state and at the same moment, a hotter rack never gets a
  // smaller valve opening or fan speed.
  lemma HotterCoolsMore(a: Agent, s1: Snapshot, s2: Snapshot)
    requires Eager(a) && s1.timestampMs == s2.timestampMs
    requires s1.TempC().Some? && s2.TempC().Some? && s1.TempC().value <= s2.TempC().value
    ensures var (c1, c2) := (Decide(a, s1).1, Decide(a, s2).1);
            && |c1| == |c2| == 2
            && c1[0].SetValvePosition? && c2[0].SetValvePosition? && c1[0].percent <= c2[0].percent
            && c1[1].SetFanSpeed? && c2[1].SetFanSpeed? && c1[1].percent <= c2[1].percent
  {
    var dt := Period(a.lastTs, s1.timestampMs);
    HotterAsksMore(a.gains, a.memory, s1.TempC().value, s2.TempC().value, dt);
    hide Update, Period, FanSpeed;
    FanMonotone(Update(a.gains, a.memory, s1.TempC().value, dt).1, Update(a.gains, a.memory, s2.TempC().value, dt).1,
                a.fanShare);
  }

  lemma FanMonotone(d1: real, d2: real, share: real)
    requires d1 <= d2 && 0.0 <= share
    ensures FanSpeed(d1, share) <= FanSpeed(d2, share)
  {
    var (x1, x2) := (d1 * share, d2 * share);
    Scaled(share, d1, d2);
    assert x1 == share * d1 && x2 == share * d2;
    ClampMonotone(x1, x2, 0.0, 100.0);
    hide Clamp;
  }

  function DischargeLimit(a: Agent, soc: real): real
    requires a.Ups?
  {
    if soc <= a.lowSoc then 100.0 else if soc >= a.highSoc then a.conserveLimit else 80.0
  }

  // A fuller battery is never allowed to discharge faster, iff the cap for a full
  // one does not exceed the 80 % of a middling one.
  lemma FullerIsConservedIff(a: Agent)
    requires a.Ups? && a.lowSoc < a.highSoc
    ensures (forall s1: real, s2: real :: s1 <= s2 ==> DischargeLimit(a, s1) >= DischargeLimit(a, s2))
       <==> a.conserveLimit <= 80.0
    ensures forall snap: Snapshot :: snap.UpsSoc().Some? ==>
              Decide(a, snap).1 == [SetDischargeLimit(DischargeLimit(a, snap.UpsSoc().value))]
    ensures forall s: real :: DischargeLimit(a, s)
              == if s <= a.lowSoc then 100.0 else if s < a.highSoc then 80.0 else a.conserveLimit
  {
    var mid := (a.lowSoc + a.highSoc) / 2.0;
    assert DischargeLimit(a, mid) == 80.0 && DischargeLimit(a, a.highSoc) == a.conserveLimit;
  }

  // The fan gets its share of the valve's demand; without a temperature the valve
  // is held halfway and nothing is remembered.
  lemma FanFollowsValve(a: Agent, snap: Snapshot)
    requires a.Cooling? && Percent(a) && 0.0 <= a.fanShare <= 1.0
    ensures var (a', c) := Decide(a, snap);
            if snap.TempC().None? then a' == a && c == [SetValvePosition(50.0)]
            else |c| == 2 && c[0].SetValvePosition? && c[1] == SetFanSpeed(c[0].percent * a.fanShare)
  {
    if snap.TempC().Some? {
      var demand := Update(a.gains, a.memory, snap.TempC().value, Period(a.lastTs, snap.timestampMs)).1;
      assert 0.0 <= demand <= 100.0;
      hide Update, Period;
      ShareWithin(demand, a.fanShare);
    }
  }

  lemma ShareWithin(demand: real, share: real)
    requires 0.0 <= demand <= 100.0 && 0.0 <= share <= 1.0
    ensures FanSpeed(demand, share) == demand * share
  {
    var x := demand * share;
    Fraction(demand, share, x);
    assert FanSpeed(demand, share) == Clamp(x, 0.0, 100.0);
  }

  lemma Fraction(a: real, share: real, x: real)
    requires 0.0 <= a && 0.0 <= share <= 1.0 && x == a * share
    ensures 0.0 <= x <= a
  {
    var y := a * (1.0 - share);
    assert y >= 0.0;
    assert y == a - x;
  }
}
