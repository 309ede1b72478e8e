// The control-loop supervisor: one agent, one device, a latching fail-safe
// (rust-edge/src/control/supervisor.rs).
module Supervisor {
  import opened Hal
  import opened Safety
  import opened Simulator

  datatype Options = Options(heartbeatEvery: nat, maxConsecutiveErrors: nat, failSafe: SafeState)

  // What a supervisor is built from. The agent is any control law over any
  // private state.
  datatype Setup<!A> = Setup(device: string, decide: (A, Snapshot) -> (A, seq<Command>),
                             limits: SafetyLimits, opts: Options)

  datatype Mode<A> = Mode(agent: A, cycle: nat, errors: nat, latched: bool)

  datatype Outcome = Outcome(cycle: nat, requested: seq<Command>, applied: seq<Command>,
                             healthy: bool, tripped: bool, heartbeat: Option<Heartbeat>)

  datatype Heartbeat = Heartbeat(device: string, cycle: nat, timestampMs: nat,
                                 healthy: bool, tripped: bool, errors: nat)

  function Start<A>(agent: A): Mode<A> { Mode(agent, 0, 0, false) }

  function ResetMode<A>(m: Mode<A>): Mode<A> { m.(latched := false, errors := 0) }

  // `finish`: every heartbeatEvery-th cycle carries a heartbeat.
  function Finish<A>(su: Setup<A>, m: Mode<A>, ts: nat, requested: seq<Command>, applied: seq<Command>,
                     healthy: bool, tripped: bool): Outcome {
    var every := if su.opts.heartbeatEvery > 1 then su.opts.heartbeatEvery else 1;
    Outcome(m.cycle, requested, applied, healthy, tripped,
            if m.cycle % every == 0
            then Some(Heartbeat(su.device, m.cycle, ts, healthy, tripped, m.errors)) else None)
  }

  // One cycle, given what `read_all` returns or would return.
  function RunOnce<A>(su: Setup<A>, m: Mode<A>, read: Result<seq<Reading>>, ts: nat): (Mode<A>, Outcome)
    requires Ordered(su.limits)
  {
    var m1 := m.(cycle := m.cycle + 1);
    var safe := su.opts.failSafe.Commands();
    if m.latched then (m1, Finish(su, m1, ts, safe, safe, false, true))
    else
      match read
      case Err(_) =>
        var m2 := m1.(errors := m.errors + 1,
                      latched := m.errors + 1 >= su.opts.maxConsecutiveErrors);
        (m2, Finish(su, m2, ts, safe, safe, false, true))
      case Ok(readings) =>
        var snap := FromReadings(su.device, readings, ts);
        var (agent, requested) := su.decide(m.agent, snap);
        var m2 := m1.(errors := 0, agent := agent);
        match Enforce(su.limits, snap, requested)
        case Allow(applied) => (m2, Finish(su, m2, ts, requested, applied, true, false))
        case Trip(commands, _) => (m2, Finish(su, m2, ts, requested, commands, false, true))
  }

  // ---- The latch over whole histories --------------------------------------

  datatype Event = Cycle(read: Result<seq<Reading>>, ts: nat) | Reset

  function Live<A>(su: Setup<A>, m: Mode<A>, events: seq<Event>): Mode<A>
    requires Ordered(su.limits)
  {
    if events == [] then m
    else
      var before := Live(su, m, events[..|events| - 1]);
      match events[|events| - 1]
      case Reset => ResetMode(before)
      case Cycle(read, ts) => RunOnce(su, before, read, ts).0
  }

  // Whether each read since the last reset would fail.
  function Failures(events: seq<Event>): seq<bool> {
    if events == [] then []
    else
      match events[|events| - 1]
      case Reset => []
      case Cycle(read, _) => Failures(events[..|events| - 1]) + [read.Err?]
  }

  // The length of the run of failures at the end.
  function Streak(fs: seq<bool>): nat {
    if fs == [] || !fs[|fs| - 1] then 0 else 1 + Streak(fs[..|fs| - 1])
  }

  // Somewhere there are `n` failures in a row.
  ghost predicate HasStreak(fs: seq<bool>, n: nat) {
    exists k :: 0 <= k <= |fs| && Streak(fs[..k]) >= n
  }

  ghost predicate AllFail(fs: seq<bool>, from: nat, to: nat) {
    from <= to <= |fs| && forall i :: from <= i < to ==> fs[i]
  }

  // The `n` reads ending at position `k` all failed.
  ghost predicate FailedUpTo(fs: seq<bool>, k: nat, n: nat) {
    n <= k <= |fs| && AllFail(fs, k - n, k)
  }

  // A streak of `n` is a stretch of `n` consecutive failures, and conversely.
  lemma StreakIsConsecutive(fs: seq<bool>, n: nat)
    ensures HasStreak(fs, n) <==> exists k :: FailedUpTo(fs, k, n)
  {
    forall k: nat | k <= |fs|
      ensures Streak(fs[..k]) >= n <==> FailedUpTo(fs, k, n)
    {
      StreakSpan(fs[..k], n);
      if FailedUpTo(fs, k, n) {
        assert AllFail(fs[..k], k - n, k);
      }
    }
    if HasStreak(fs, n) {
      var k :| 0 <= k <= |fs| && Streak(fs[..k]) >= n;
      assert FailedUpTo(fs, k, n);
    }
    if k: nat :| FailedUpTo(fs, k, n) {
      assert Streak(fs[..k]) >= n;
    }
  }

  lemma {:induction false} StreakSpan(fs: seq<bool>, n: nat)
    ensures Streak(fs) >= n <==> n <= |fs| && AllFail(fs, |fs| - n, |fs|)
    decreases |fs|
  {
    if fs != [] && n > 0 {
      var front := fs[..|fs| - 1];
      StreakSpan(front, n - 1);
      if n <= |fs| && AllFail(fs, |fs| - n, |fs|) {
        assert fs[|fs| - 1];
        assert AllFail(front, |front| - (n - 1), |front|);
      }
    }
  }

  function Threshold(o: Options): nat { if o.maxConsecutiveErrors > 1 then o.maxConsecutiveErrors else 1 }

  lemma HasStreakSnoc(fs: seq<bool>, f: bool, n: nat)
    ensures HasStreak(fs + [f], n) <==> HasStreak(fs, n) || Streak(fs + [f]) >= n
  {
    var gs := fs + [f];
    assert gs[..|gs|] == gs;
    assert forall k :: 0 <= k <= |fs| ==> gs[..k] == fs[..k];
  }

  // Latch and counter stand where the failures so far put them.
  ghost predicate Tracks<A>(m: Mode<A>, fs: seq<bool>, n: nat) {
    && (m.latched <==> HasStreak(fs, n))
    && (!m.latched ==> m.errors == Streak(fs))
    && (m.latched ==> m.errors == n)
    && m.errors <= n
  }

  lemma CycleTracks<A>(su: Setup<A>, m: Mode<A>, fs: seq<bool>, read: Result<seq<Reading>>, ts: nat)
    requires Ordered(su.limits) && Tracks(m, fs, Threshold(su.opts))
    ensures Tracks(RunOnce(su, m, read, ts).0, fs + [read.Err?], Threshold(su.opts))
  {
    var n := Threshold(su.opts);
    var m' := RunOnce(su, m, read, ts).0;
    assert if m.latched then m'.latched && m'.errors == m.errors
           else if read.Ok? then !m'.latched && m'.errors == 0
           else m'.errors == m.errors + 1 && (m'.latched <==> m'.errors >= n);
    hide RunOnce;
    HasStreakSnoc(fs, read.Err?, n);
    assert (fs + [read.Err?])[..|fs|] == fs;
    assert !HasStreak(fs, n) ==> Streak(fs) < n by { assert fs[..|fs|] == fs; }
    hide HasStreak;
  }

  // After any history of cycles and resets the supervisor is latched iff the
  // reads since the last reset contain Threshold consecutive failures. Until it
  // latches, the error counter is the current failure streak; it never exceeds
  // the threshold.
  lemma {:induction false} LatchedIffStreak<A>(su: Setup<A>, agent: A, events: seq<Event>)
    requires Ordered(su.limits)
    ensures Tracks(Live(su, Start(agent), events), Failures(events), Threshold(su.opts))
  {
    if events != [] {
      var front := events[..|events| - 1];
      LatchedIffStreak(su, agent, front);
      hide RunOnce;
      match events[|events| - 1] {
        case Reset =>
        case Cycle(read, ts) =>
          hide Tracks;
          CycleTracks(su, Live(su, Start(agent), front), Failures(front), read, ts);
      }
    }
  }

  // A latched cycle ignores the device and the agent, and drives the fail-safe state.
  lemma LatchedCycle<A>(su: Setup<A>, m: Mode<A>, read1: Result<seq<Reading>>, read2: Result<seq<Reading>>, ts: nat)
    requires Ordered(su.limits) && m.latched
    ensures RunOnce(su, m, read1, ts) == RunOnce(su, m, read2, ts)
    ensures var (m', o) := RunOnce(su, m, read1, ts);
            && m' == m.(cycle := m.cycle + 1)
            && o.applied == o.requested == su.opts.failSafe.Commands() && o.tripped && !o.healthy
  {
  }

  // Once latched, nothing but a reset touches the agent or clears the latch.
  lemma {:induction false} LatchHolds<A>(su: Setup<A>, m: Mode<A>, events: seq<Event>)
    requires Ordered(su.limits) && m.latched && Reset !in events
    ensures Live(su, m, events) == m.(cycle := m.cycle + |events|)
  {
    if events != [] {
      LatchHolds(su, m, events[..|events| - 1]);
      assert events[|events| - 1] in events;
    }
  }

  // What a cycle writes: fail-safe commands while latched or blind, a safe state
  // exactly on a breach, and otherwise the agent's commands clamped to the envelope.
  lemma AppliedCommands<A>(su: Setup<A>, m: Mode<A>, read: Result<seq<Reading>>, ts: nat)
    requires Ordered(su.limits)
    ensures var (m', o) := RunOnce(su, m, read, ts);
            && m'.cycle == m.cycle + 1 == o.cycle
            && (o.healthy <==> !o.tripped)
            && (o.healthy <==> !m.latched && read.Ok?
                               && AirInBand(su.limits, FromReadings(su.device, read.value, ts))
                               && PowerInBand(su.limits, FromReadings(su.device, read.value, ts)))
            && (o.healthy ==> o.applied == ClampAll(su.limits, o.requested)
                              && o.requested == su.decide(m.agent, FromReadings(su.device, read.value, ts)).1)
            && (o.tripped ==> o.applied in {FullCooling.Commands(), ShedLoad.Commands()})
            && (!o.healthy && !m.latched && read.Ok? ==>
                  o.applied == if AirInBand(su.limits, FromReadings(su.device, read.value, ts))
                               then ShedLoad.Commands() else FullCooling.Commands())
            && (m.latched || read.Err? ==>
                  o.requested == o.applied == su.opts.failSafe.Commands() && m'.agent == m.agent)
  {
    if !m.latched && read.Ok? {
      var snap := FromReadings(su.device, read.value, ts);
      TripsExactlyOnBreach(su.limits, snap, su.decide(m.agent, snap).1);
    }
  }

  // A cycle that reads the device asks its agent, once, about what was read, and keeps
  // what the agent has learnt, also on a breach.
  lemma AgentIsAsked<A>(su: Setup<A>, m: Mode<A>, read: Result<seq<Reading>>, ts: nat)
    requires Ordered(su.limits) && !m.latched && read.Ok?
    ensures var (m', o) := RunOnce(su, m, read, ts);
            (m'.agent, o.requested) == su.decide(m.agent, FromReadings(su.device, read.value, ts))
  {
  }

  // The agent after it was asked about every read that succeeded while no
  // `Threshold` consecutive failures stood against the device.
  ghost function Taught<A>(su: Setup<A>, agent: A, events: seq<Event>): A {
    if events == [] then agent
    else
      var front := events[..|events| - 1];
      var before := Taught(su, agent, front);
      match events[|events| - 1]
      case Reset => before
      case Cycle(read, ts) =>
        if read.Ok? && !HasStreak(Failures(front), Threshold(su.opts))
        then su.decide(before, FromReadings(su.device, read.value, ts)).0 else before
  }

  // Over every history the agent has learnt from exactly these reads.
  lemma {:induction false} AgentIsTaught<A>(su: Setup<A>, agent: A, events: seq<Event>)
    requires Ordered(su.limits)
    ensures Live(su, Start(agent), events).agent == Taught(su, agent, events)
  {
    if events != [] {
      var front := events[..|events| - 1];
      var m := Live(su, Start(agent), front);
      AgentIsTaught(su, agent, front);
      LatchedIffStreak(su, agent, front);
      match events[|events| - 1] {
        case Reset =>
        case Cycle(read, ts) =>
          if m.latched || read.Err? {
            AppliedCommands(su, m, read, ts);
          } else {
            AgentIsAsked(su, m, read, ts);
          }
          hide RunOnce, HasStreak, Failures, FromReadings;
      }
    }
  }

  // Heartbeats fall on every heartbeatEvery-th cycle (every one if that is zero).
  lemma HeartbeatPeriod<A>(su: Setup<A>, m: Mode<A>, read: Result<seq<Reading>>, ts: nat)
    requires Ordered(su.limits)
    ensures var (m', o) := RunOnce(su, m, read, ts);
            && (o.heartbeat.Some? <==>
                  m'.cycle % (if su.opts.heartbeatEvery == 0 then 1 else su.opts.heartbeatEvery) == 0)
            && (o.heartbeat.Some? ==>
                  o.heartbeat.value == Heartbeat(su.device, m'.cycle, ts, o.healthy, o.tripped, m'.errors))
  {
  }

  // ---- The supervisor object -----------------------------------------------

  // The rack after a list of commands was delivered to it.
  function ApplyAll(r: Rack, commands: seq<Command>): Rack {
    if commands == [] then r
    else Apply(ApplyAll(r, commands[..|commands| - 1]), commands[|commands| - 1].Clamped())
  }

  // The facility after a list of commands was sent to `device`.
  function DeliverAll(racks: seq<Rack>, device: string, commands: seq<Command>): seq<Rack> {
    match Find(racks, device)
    case Some(i) => racks[i := ApplyAll(racks[i], commands)]
    case None => racks
  }

  class SupervisorObject<A> {
    const setup: Setup<A>
    var agent: A
    var cycle: nat
    var consecutiveErrors: nat
    var latchedSafe: bool

    function View(): Mode<A>
      reads this
    {
      Mode(agent, cycle, consecutiveErrors, latchedSafe)
    }

    constructor (setup: Setup<A>, agent: A)
      ensures this.setup == setup && View() == Start(agent)
    {
      this.setup, this.agent := setup, agent;
      cycle, consecutiveErrors, latchedSafe := 0, 0, false;
    }

    method ResetLatch()
      modifies this
      ensures View() == ResetMode(old(View()))
    {
      latchedSafe := false;
      consecutiveErrors := 0;
    }

    // Delivers each command in turn, ignoring errors.
    method Deliver(hal: SimulatorHal, commands: seq<Command>)
      requires hal.Valid()
      modifies hal.racks
      ensures hal.Valid() && hal.timeMs == old(hal.timeMs)
      ensures hal.Views() == DeliverAll(old(hal.Views()), setup.device, commands)
    {
      ghost var was := hal.Views();
      DeliverEnds(was, setup.device, commands);
      hide *;
      for k := 0 to |commands|
        invariant hal.Valid() && hal.timeMs == old(hal.timeMs)
        invariant hal.Views() == DeliverAll(was, setup.device, commands[..k])
      {
        DeliverOne(was, setup.device, commands, k);
        var _ := hal.Send(setup.device, commands[k]);
      }
    }

    method ReadDevice(hal: SimulatorHal, fault: Option<HalError>) returns (r: Result<seq<Reading>>)
      requires hal.Valid()
      ensures r == ReadOf(hal.Views(), hal.timeMs, setup.device, fault)
    {
      if fault.Some? {
        r := Err(fault.value);
      } else {
        r := hal.ReadAll(setup.device);
      }
    }

    // `run_once` against the simulator; `fault` is a transport error that the
    // read meets instead of reaching the device.
    method RunCycle(hal: SimulatorHal, ts: nat, fault: Option<HalError>) returns (o: Outcome)
      requires hal.Valid() && Ordered(setup.limits)
      modifies this, hal.racks
      ensures hal.Valid() && hal.timeMs == old(hal.timeMs)
      ensures (View(), o) == RunOnce(setup, old(View()), ReadOf(old(hal.Views()), hal.timeMs, setup.device, fault), ts)
      ensures hal.Views() == DeliverAll(old(hal.Views()), setup.device, o.applied)
    {
      hide DeliverAll, ReadOf, Enforce, FromReadings;
      cycle := cycle + 1;
      var safe := setup.opts.failSafe.Commands();
      if latchedSafe {
        Deliver(hal, safe);
        return Finish(setup, View(), ts, safe, safe, false, true);
      }
      var read := ReadDevice(hal, fault);
      if read.Err? {
        consecutiveErrors := consecutiveErrors + 1;
        Deliver(hal, safe);
        if consecutiveErrors >= setup.opts.maxConsecutiveErrors {
          latchedSafe := true;
        }
        return Finish(setup, View(), ts, safe, safe, false, true);
      }
      consecutiveErrors := 0;
      var snap := FromReadings(setup.device, read.value, ts);
      var (next, requested) := setup.decide(agent, snap);
      agent := next;
      match Enforce(setup.limits, snap, requested) {
        case Allow(commands) =>
          Deliver(hal, commands);
          o := Finish(setup, View(), ts, requested, commands, true, false);
        case Trip(commands, _) =>
          Deliver(hal, commands);
          o := Finish(setup, View(), ts, requested, commands, false, true);
      }
    }
  }

  function ReadOf(racks: seq<Rack>, timeMs: nat, device: string, fault: Option<HalError>): Result<seq<Reading>> {
    if fault.Some? then Err(fault.value)
    else
      match Find(racks, device)
      case Some(i) => Ok(Readings(racks[i], timeMs))
      case None => Err(DeviceNotFound(device))
  }

  lemma {:induction false} FindByIds(racks: seq<Rack>, racks': seq<Rack>, device: string)
    requires |racks| == |racks'| && forall i :: 0 <= i < |racks| ==> racks[i].id == racks'[i].id
    ensures Find(racks, device) == Find(racks', device)
  {
    if racks != [] {
      var n := |racks| - 1;
      assert forall i :: 0 <= i < n ==> racks[..n][i].id == racks'[..n][i].id;
      FindByIds(racks[..n], racks'[..n], device);
    }
  }

  lemma {:induction false} ApplyAllKeeps(r: Rack, commands: seq<Command>)
    ensures ApplyAll(r, commands).id == r.id && ApplyAll(r, commands).plant == r.plant
  {
    if commands != [] {
      ApplyAllKeeps(r, commands[..|commands| - 1]);
    }
  }

  lemma DeliverEnds(racks: seq<Rack>, device: string, commands: seq<Command>)
    ensures DeliverAll(racks, device, commands[..0]) == racks && commands[..|commands|] == commands
  {
  }

  // Sending one more command continues a delivery.
  lemma DeliverOne(racks: seq<Rack>, device: string, commands: seq<Command>, k: nat)
    requires k < |commands|
    ensures DeliverAll(racks, device, commands[..k + 1])
         == Obeyed(DeliverAll(racks, device, commands[..k]), device, commands[k])
  {
    var mid := DeliverAll(racks, device, commands[..k]);
    assert commands[..k + 1][..k] == commands[..k];
    if Find(racks, device).Some? {
      ApplyAllKeeps(racks[Find(racks, device).value], commands[..k]);
    }
    FindByIds(racks, mid, device);
  }
}
