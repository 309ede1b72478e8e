// The guardrails around learned control actions (ai-brain/src/safety.rs).
module Guardrails {
  import opened Hal

  datatype Action = Action(valve: real, fan: real) {
    function Clamped(): Action { Action(Clamp(valve, 0.0, 1.0), Clamp(fan, 0.0, 1.0)) }
  }

  // One normalized observation.
  datatype Observation = Observation(tempError: real, inletTemp: real, itLoad: real, upsSoc: real,
                                     valve: real, fan: real, coolantTemp: real, bias: real)

  datatype Limits = Limits(setpointC: real, minValve: real, minFan: real, maxValve: real, maxFan: real,
                           maxValveDelta: real, maxFanDelta: real, emergencyTempC: real)

  // No clamp panics.
  predicate Usable(l: Limits) {
    l.minValve <= l.maxValve && l.minFan <= l.maxFan && 0.0 <= l.maxValveDelta && 0.0 <= l.maxFanDelta
  }

  predicate WithinUnit(l: Limits) {
    Usable(l) && 0.0 <= l.minValve && l.maxValve <= 1.0 && 0.0 <= l.minFan && l.maxFan <= 1.0
  }

  predicate InEnvelope(l: Limits, a: Action) {
    l.minValve <= a.valve <= l.maxValve && l.minFan <= a.fan <= l.maxFan
  }

  predicate IsUnit(a: Action) { 0.0 <= a.valve <= 1.0 && 0.0 <= a.fan <= 1.0 }

  // ---- One decision --------------------------------------------------------

  predicate Emergency(l: Limits, o: Observation) { l.setpointC + o.tempError * 10.0 >= l.emergencyTempC }

  // Moves from `prev` towards `target` by at most `delta`.
  function Towards(prev: real, target: real, delta: real): real
    requires 0.0 <= delta
  {
    Clamp(prev + Clamp(target - prev, -delta, delta), 0.0, 1.0)
  }

  function Guard(l: Limits, last: Option<Action>, proposed: Action, o: Observation): Action
    requires Usable(l)
  {
    if Emergency(l, o) then Action(l.maxValve, l.maxFan)
    else
      var a := Action(Clamp(proposed.valve, l.minValve, l.maxValve), Clamp(proposed.fan, l.minFan, l.maxFan));
      match last
      case None => a
      case Some(prev) =>
        Action(Towards(prev.valve, a.valve, l.maxValveDelta), Towards(prev.fan, a.fan, l.maxFanDelta))
  }

  datatype Guarded = Guarded(last: Option<Action>, overridden: bool)

  const FRESH := Guarded(None, false)

  // What an observer is told, and what is remembered.
  function Decide(l: Limits, safe: Action, g: Guarded, proposed: Action, o: Observation): (Guarded, Action)
    requires Usable(l)
  {
    if g.overridden then (g.(last := Some(safe)), safe)
    else
      var a := Guard(l, g.last, proposed, o);
      (g.(last := Some(a)), a.Clamped())
  }

  // At or above the emergency temperature the answer is full cooling, whatever was
  // proposed and whatever came before; only an override stands above it.
  lemma EmergencyForcesMax(l: Limits, safe: Action, g: Guarded, proposed: Action, o: Observation)
    requires WithinUnit(l) && Emergency(l, o)
    ensures Decide(l, safe, g, proposed, o).1 == if g.overridden then safe else Action(l.maxValve, l.maxFan)
  {
  }

  // The point of the interval [lo, hi] nearest to `v`.
  predicate NearestIn(x: real, v: real, lo: real, hi: real) {
    lo <= x <= hi && (lo <= v <= hi ==> x == v) && (v < lo ==> x == lo) && (hi < v ==> x == hi)
  }

  // With nothing remembered there is no rate to limit: the answer is the proposal,
  // each channel moved to the nearest bound of the envelope where it lies outside.
  lemma FirstDecision(l: Limits, safe: Action, proposed: Action, o: Observation)
    requires WithinUnit(l) && !Emergency(l, o)
    ensures var (g, a) := Decide(l, safe, FRESH, proposed, o);
            && InEnvelope(l, a) && (a == proposed <==> InEnvelope(l, proposed))
            && NearestIn(a.valve, proposed.valve, l.minValve, l.maxValve)
            && NearestIn(a.fan, proposed.fan, l.minFan, l.maxFan)
            && g == Guarded(Some(a), false)
  {
  }

  // Limits that reach outside the unit range: what is remembered is the nearest point
  // of the envelope, what is emitted the nearest percentage to that.
  lemma FirstDecisionAnyLimits(l: Limits, safe: Action, proposed: Action, o: Observation)
    requires Usable(l) && !Emergency(l, o)
    ensures var (g, a) := Decide(l, safe, FRESH, proposed, o);
            && g.last.Some? && !g.overridden
            && NearestIn(g.last.value.valve, proposed.valve, l.minValve, l.maxValve)
            && NearestIn(g.last.value.fan, proposed.fan, l.minFan, l.maxFan)
            && NearestIn(a.valve, g.last.value.valve, 0.0, 1.0) && NearestIn(a.fan, g.last.value.fan, 0.0, 1.0)
  {
  }

  // With an action remembered, each channel moves from it straight towards the nearest
  // point of the envelope, all the way if that is within its limit, else by the limit.
  lemma NextDecision(l: Limits, safe: Action, prev: Action, proposed: Action, o: Observation)
    requires WithinUnit(l) && IsUnit(prev) && !Emergency(l, o)
    ensures var (g, a) := Decide(l, safe, Guarded(Some(prev), false), proposed, o);
            && g == Guarded(Some(a), false)
            && exists v, f :: NearestIn(v, proposed.valve, l.minValve, l.maxValve)
                 && NearestIn(f, proposed.fan, l.minFan, l.maxFan)
                 && NearestIn(a.valve, v, prev.valve - l.maxValveDelta, prev.valve + l.maxValveDelta)
                 && NearestIn(a.fan, f, prev.fan - l.maxFanDelta, prev.fan + l.maxFanDelta)
  {
    var v := Clamp(proposed.valve, l.minValve, l.maxValve);
    var f := Clamp(proposed.fan, l.minFan, l.maxFan);
    assert NearestIn(v, proposed.valve, l.minValve, l.maxValve) && NearestIn(f, proposed.fan, l.minFan, l.maxFan);
    TowardsNearest(prev.valve, v, l.maxValveDelta);
    TowardsNearest(prev.fan, f, l.maxFanDelta);
    hide Towards, Clamp, NearestIn;
  }

  lemma TowardsNearest(prev: real, target: real, delta: real)
    requires 0.0 <= delta && 0.0 <= prev <= 1.0 && 0.0 <= target <= 1.0
    ensures NearestIn(Towards(prev, target, delta), target, prev - delta, prev + delta)
    ensures 0.0 <= Towards(prev, target, delta) <= 1.0
    ensures Clamp(Towards(prev, target, delta), 0.0, 1.0) == Towards(prev, target, delta)
  {
  }

  // ---- Runs ----------------------------------------------------------------

  // The inner policy is arbitrary: each decision comes with what it proposes.
  datatype Event = Deciding(proposed: Action, o: Observation) | Overriding(on: bool)

  function After(l: Limits, safe: Action, events: seq<Event>): Guarded
    requires Usable(l)
  {
    if events == [] then FRESH
    else
      var before := After(l, safe, events[..|events| - 1]);
      match events[|events| - 1]
      case Deciding(proposed, o) => Decide(l, safe, before, proposed, o).0
      case Overriding(on) => before.(overridden := on)
  }

  // Each emitted action, and whether it was free: neither override nor emergency.
  datatype Output = Output(action: Action, free: bool)

  function Outputs(l: Limits, safe: Action, events: seq<Event>): seq<Output>
    requires Usable(l)
  {
    if events == [] then []
    else
      var before := After(l, safe, events[..|events| - 1]);
      var front := Outputs(l, safe, events[..|events| - 1]);
      match events[|events| - 1]
      case Deciding(proposed, o) =>
        front + [Output(Decide(l, safe, before, proposed, o).1, !before.overridden && !Emergency(l, o))]
      case Overriding(on) => front
  }

  lemma TowardsBounds(prev: real, target: real, delta: real, lo: real, hi: real)
    requires 0.0 <= delta && 0.0 <= lo <= hi <= 1.0 && lo <= prev <= hi && lo <= target <= hi
    ensures lo <= Towards(prev, target, delta) <= hi
    ensures Abs(Towards(prev, target, delta) - prev) <= delta
  {
  }

  // What is remembered is what was last emitted, and lies where emitted actions lie.
  lemma {:induction false} LastIsOutput(l: Limits, safe: Action, events: seq<Event>)
    requires WithinUnit(l) && IsUnit(safe)
    ensures var (g, outs) := (After(l, safe, events), Outputs(l, safe, events));
            && (g.last.None? <==> outs == [])
            && (g.last.Some? ==> g.last.value == outs[|outs| - 1].action && IsUnit(g.last.value))
            && (InEnvelope(l, safe) && g.last.Some? ==> InEnvelope(l, g.last.value))
  {
    if events != [] {
      var front := events[..|events| - 1];
      LastIsOutput(l, safe, front);
      var g := After(l, safe, front);
      match events[|events| - 1] {
        case Overriding(_) =>
        case Deciding(proposed, o) =>
          if !g.overridden { GuardBounds(l, safe, g.last, proposed, o); }
      }
      hide Guard;
    }
  }

  lemma GuardBounds(l: Limits, safe: Action, last: Option<Action>, proposed: Action, o: Observation)
    requires WithinUnit(l) && (last.Some? ==> IsUnit(last.value))
    ensures IsUnit(Guard(l, last, proposed, o))
    ensures Guard(l, last, proposed, o).Clamped() == Guard(l, last, proposed, o)
    ensures (last.Some? ==> InEnvelope(l, last.value)) ==> InEnvelope(l, Guard(l, last, proposed, o))
  {
  }

  ghost predicate AllInEnvelope(l: Limits, outs: seq<Output>) {
    forall i :: 0 <= i < |outs| ==> InEnvelope(l, outs[i].action)
  }

  lemma {:induction false} OutputsInEnvelope(l: Limits, safe: Action, events: seq<Event>)
    requires WithinUnit(l) && IsUnit(safe) && InEnvelope(l, safe)
    ensures AllInEnvelope(l, Outputs(l, safe, events))
  {
    if events != [] {
      OutputsInEnvelope(l, safe, events[..|events| - 1]);
      LastIsOutput(l, safe, events);
      hide InEnvelope, Decide;
    }
  }

  // Whatever the inner policy proposes, every action of every run lies in the
  // envelope iff the operator's safe action does.
  lemma EnvelopeIff(l: Limits, safe: Action)
    requires WithinUnit(l)
    ensures (forall events :: AllInEnvelope(l, Outputs(l, safe, events))) <==> InEnvelope(l, safe)
  {
    hide After, Outputs;
    if InEnvelope(l, safe) {
      forall events ensures AllInEnvelope(l, Outputs(l, safe, events)) {
        OutputsInEnvelope(l, safe, events);
      }
    } else {
      var events := OverrideShows(l, safe);
      assert !InEnvelope(l, Outputs(l, safe, events)[0].action);
    }
  }

  lemma OverrideShows(l: Limits, safe: Action) returns (events: seq<Event>)
    requires Usable(l)
    ensures Outputs(l, safe, events) == [Output(safe, false)]
  {
    var o := Observation(0.0, 0.0, 0.0, 0.0, 0.0, 0.0, 0.0, 0.0);
    var first := [Overriding(true)];
    events := first + [Deciding(safe, o)];
    assert first[..0] == [] && events[..1] == first;
    assert After(l, safe, []) == FRESH && Outputs(l, safe, []) == [];
    assert After(l, safe, first) == Guarded(None, true) && Outputs(l, safe, first) == [];
  }

  // Neither channel moves farther than its limit.
  predicate WithinDelta(l: Limits, a: Action, b: Action) {
    Abs(b.valve - a.valve) <= l.maxValveDelta && Abs(b.fan - a.fan) <= l.maxFanDelta
  }

  lemma GuardRate(l: Limits, prev: Action, proposed: Action, o: Observation)
    requires WithinUnit(l) && IsUnit(prev) && !Emergency(l, o)
    ensures WithinDelta(l, prev, Guard(l, Some(prev), proposed, o).Clamped())
  {
    TowardsBounds(prev.valve, Clamp(proposed.valve, l.minValve, l.maxValve), l.maxValveDelta, 0.0, 1.0);
    TowardsBounds(prev.fan, Clamp(proposed.fan, l.minFan, l.maxFan), l.maxFanDelta, 0.0, 1.0);
  }

  // No free action is farther than the rate limits from the action before it,
  // whether that one was free, an emergency or an override.
  lemma {:induction false} RateLimited(l: Limits, safe: Action, events: seq<Event>, i: nat)
    requires WithinUnit(l) && IsUnit(safe) && 0 < i < |Outputs(l, safe, events)| && Outputs(l, safe, events)[i].free
    ensures WithinDelta(l, Outputs(l, safe, events)[i - 1].action, Outputs(l, safe, events)[i].action)
  {
    var front := events[..|events| - 1];
    var outs := Outputs(l, safe, front);
    if i < |outs| {
      RateLimited(l, safe, front, i);
    } else {
      LastIsOutput(l, safe, front);
      var e := events[|events| - 1];
      GuardRate(l, outs[i - 1].action, e.proposed, e.o);
    }
    hide Guard, WithinDelta;
  }

  // ---- Reaching a constant proposal ----------------------------------------

  // `n` free decisions on the same proposal, one channel.
  function Steps(from: real, target: real, delta: real, n: nat): real
    requires 0.0 <= delta
  {
    if n == 0 then from else Towards(Steps(from, target, delta, n - 1), target, delta)
  }

  function Remaining(distance: real, delta: real, n: nat): real {
    var d := distance - n as real * delta;
    if d < 0.0 then 0.0 else d
  }

  lemma TowardsCloses(prev: real, target: real, delta: real)
    requires 0.0 <= delta && 0.0 <= prev <= 1.0 && 0.0 <= target <= 1.0
    ensures 0.0 <= Towards(prev, target, delta) <= 1.0
    ensures Abs(target - Towards(prev, target, delta)) == Remaining(Abs(target - prev), delta, 1)
  {
  }

  lemma RemainingNext(distance: real, delta: real, n: nat)
    requires 0.0 <= delta && n > 0
    ensures Remaining(Remaining(distance, delta, n - 1), delta, 1) == Remaining(distance, delta, n)
  {
    var x := (n - 1) as real * delta;
    assert n as real * delta == x + delta;
    assert x >= 0.0;
  }

  lemma {:induction false} StepsClose(from: real, target: real, delta: real, n: nat)
    requires 0.0 <= delta && 0.0 <= from <= 1.0 && 0.0 <= target <= 1.0
    ensures Abs(target - Steps(from, target, delta, n)) == Remaining(Abs(target - from), delta, n)
    ensures 0.0 <= Steps(from, target, delta, n) <= 1.0
  {
    if n == 0 {
      assert 0 as real * delta == 0.0;
    } else {
      StepsClose(from, target, delta, n - 1);
      hide Towards, Remaining, Abs;
      TowardsCloses(Steps(from, target, delta, n - 1), target, delta);
      RemainingNext(Abs(target - from), delta, n);
    }
  }

  // The distance to the target falls by the limit each step until it is nothing,
  // so the target is reached at the first n with n * delta >= distance, and kept.
  lemma ReachesTarget(from: real, target: real, delta: real, n: nat)
    requires 0.0 <= delta && 0.0 <= from <= 1.0 && 0.0 <= target <= 1.0
    ensures Abs(target - Steps(from, target, delta, n)) == Remaining(Abs(target - from), delta, n)
    ensures 0.0 <= Steps(from, target, delta, n) <= 1.0
    ensures Steps(from, target, delta, n) == target <==> n as real * delta >= Abs(target - from)
  {
    StepsClose(from, target, delta, n);
    var x := n as real * delta;
    assert Remaining(Abs(target - from), delta, n)
        == if Abs(target - from) - x < 0.0 then 0.0 else Abs(target - from) - x;
    hide Steps, Remaining;
  }

  function Proposing(before: seq<Event>, proposed: Action, os: seq<Observation>): seq<Event> {
    if os == [] then before
    else Proposing(before, proposed, os[..|os| - 1]) + [Deciding(proposed, os[|os| - 1])]
  }

  lemma AfterSnoc(l: Limits, safe: Action, events: seq<Event>, proposed: Action, o: Observation)
    requires Usable(l)
    ensures After(l, safe, events + [Deciding(proposed, o)]) == Decide(l, safe, After(l, safe, events), proposed, o).0
  {
    assert (events + [Deciding(proposed, o)])[..|events|] == events;
  }

  // Where `n` free decisions on one proposal lead: there at once if nothing is
  // remembered, else as `Steps` says.
  function Reaching(last: Option<Action>, l: Limits, target: Action, n: nat): Option<Action>
    requires Usable(l)
  {
    if n == 0 then last
    else if last.None? then Some(target)
    else Some(Action(Steps(last.value.valve, target.valve, l.maxValveDelta, n),
                     Steps(last.value.fan, target.fan, l.maxFanDelta, n)))
  }

  lemma {:induction false} FromNothing(l: Limits, safe: Action, before: seq<Event>, proposed: Action,
                                       os: seq<Observation>)
    requires WithinUnit(l) && After(l, safe, before) == FRESH
    requires forall i :: 0 <= i < |os| ==> !Emergency(l, os[i])
    ensures var target := Action(Clamp(proposed.valve, l.minValve, l.maxValve),
                                 Clamp(proposed.fan, l.minFan, l.maxFan));
            After(l, safe, Proposing(before, proposed, os)) == Guarded(Reaching(None, l, target, |os|), false)
  {
    if os != [] {
      var n := |os| - 1;
      FromNothing(l, safe, before, proposed, os[..n]);
      AfterSnoc(l, safe, Proposing(before, proposed, os[..n]), proposed, os[n]);
      hide Emergency, After;
    }
  }

  // A run of free decisions on one proposal, from whatever is remembered.
  lemma FreeRun(l: Limits, safe: Action, before: seq<Event>, proposed: Action, os: seq<Observation>)
    requires WithinUnit(l) && !After(l, safe, before).overridden
    requires forall i :: 0 <= i < |os| ==> !Emergency(l, os[i])
    ensures var target := Action(Clamp(proposed.valve, l.minValve, l.maxValve),
                                 Clamp(proposed.fan, l.minFan, l.maxFan));
            After(l, safe, Proposing(before, proposed, os))
            == Guarded(Reaching(After(l, safe, before).last, l, target, |os|), false)
  {
    if After(l, safe, before).last.None? {
      FromNothing(l, safe, before, proposed, os);
    } else {
      ConstantProposal(l, safe, before, proposed, os);
    }
    hide After, Clamp, Emergency;
  }

  // A run of free decisions on one proposal moves each channel as `Steps` says.
  lemma {:induction false} ConstantProposal(l: Limits, safe: Action, before: seq<Event>, proposed: Action,
                                            os: seq<Observation>)
    requires WithinUnit(l) && After(l, safe, before).last.Some? && !After(l, safe, before).overridden
    requires forall i :: 0 <= i < |os| ==> !Emergency(l, os[i])
    ensures var prev := After(l, safe, before).last.value;
            After(l, safe, Proposing(before, proposed, os)) == Guarded(Some(Action(
              Steps(prev.valve, Clamp(proposed.valve, l.minValve, l.maxValve), l.maxValveDelta, |os|),
              Steps(prev.fan, Clamp(proposed.fan, l.minFan, l.maxFan), l.maxFanDelta, |os|))), false)
  {
    if os != [] {
      var n := |os| - 1;
      ConstantProposal(l, safe, before, proposed, os[..n]);
      AfterSnoc(l, safe, Proposing(before, proposed, os[..n]), proposed, os[n]);
      hide Towards, Emergency, After;
    }
  }

  // ---- The policy object ---------------------------------------------------

  class GuardedPolicy {
    const inner: Observation -> Action
    const limits: Limits
    const safeAction: Action
    var last: Option<Action>
    var overridden: bool

    function View(): Guarded
      reads this
    {
      Guarded(last, overridden)
    }

    constructor (inner: Observation -> Action, limits: Limits, safeAction: Action)
      ensures this.inner == inner && this.limits == limits && this.safeAction == safeAction && View() == FRESH
    {
      this.inner, this.limits, this.safeAction := inner, limits, safeAction;
      last, overridden := None, false;
    }

    method SetOverride(on: bool)
      modifies `overridden
      ensures View() == old(View()).(overridden := on)
    {
      overridden := on;
    }

    // The read-only decision tells what the remembering one would.
    method DecideOnly(state: Observation) returns (a: Action)
      requires Usable(limits)
      ensures a == Decide(limits, safeAction, View(), inner(state), state).1
    {
      var proposed := inner(state);
      if overridden {
        return safeAction;
      }
      var g := ApplyGuard(proposed, state);
      a := g.Clamped();
    }

    method ApplyGuard(proposed: Action, state: Observation) returns (a: Action)
      requires Usable(limits)
      ensures a == Guard(limits, last, proposed, state)
    {
      var temp := limits.setpointC + state.tempError * 10.0;
      if temp >= limits.emergencyTempC {
        return Action(limits.maxValve, limits.maxFan);
      }
      a := Action(Clamp(proposed.valve, limits.minValve, limits.maxValve),
                  Clamp(proposed.fan, limits.minFan, limits.maxFan));
      if last.Some? {
        var prev := last.value;
        var dv := Clamp(a.valve - prev.valve, -limits.maxValveDelta, limits.maxValveDelta);
        var df := Clamp(a.fan - prev.fan, -limits.maxFanDelta, limits.maxFanDelta);
        a := Action(Clamp(prev.valve + dv, 0.0, 1.0), Clamp(prev.fan + df, 0.0, 1.0));
      }
    }

    method DecideMut(state: Observation) returns (a: Action)
      requires Usable(limits)
      modifies `last
      ensures (View(), a) == Decide(limits, safeAction, old(View()), inner(state), state)
    {
      if overridden {
        last := Some(safeAction);
        return safeAction;
      }
      var proposed := inner(state);
      var g := ApplyGuard(proposed, state);
      last := Some(g);
      a := g.Clamped();
    }
  }
}
