// Safety interlocks: the last gate before a command reaches the hardware
// (rust-edge/src/control/safety.rs).
module Safety {
  import opened Hal

  datatype SafetyLimits = SafetyLimits(
    critAirTempC: real, warnAirTempC: real, minAirTempC: real,
    maxPduVoltage: real, minPduVoltage: real, maxPduCurrent: real,
    minValve: real, maxValve: real, minFan: real, maxFan: real)

  const DEFAULT_LIMITS: SafetyLimits :=
    SafetyLimits(45.0, 35.0, 5.0, 264.0, 198.0, 80.0, 0.0, 100.0, 0.0, 100.0)

  // f64::clamp panics on crossed bounds.
  predicate Ordered(l: SafetyLimits) { l.minValve <= l.maxValve && l.minFan <= l.maxFan }

  datatype SafeState = FullCooling | ShedLoad {
    function Commands(): seq<Command> {
      match this
      case FullCooling => [SetValvePosition(100.0), SetFanSpeed(100.0)]
      case ShedLoad => [SetValvePosition(100.0), SetFanSpeed(100.0), SetOutletState(false)]
    }
  }

  datatype Reason = TooHot | TooCold | VoltageOutOfBand | OverCurrent

  datatype Enforcement = Allow(commands: seq<Command>) | Trip(commands: seq<Command>, reason: Reason)

  function Enforce(l: SafetyLimits, snap: Snapshot, requested: seq<Command>): Enforcement
    requires Ordered(l)
  {
    var t := snap.TempC();
    if t.Some? && t.value > l.critAirTempC then Trip(FullCooling.Commands(), TooHot)
    else if t.Some? && t.value < l.minAirTempC then Trip(FullCooling.Commands(), TooCold)
    else
      var v := snap.PduVoltage();
      if v.Some? && (v.value > l.maxPduVoltage || v.value < l.minPduVoltage) then
        Trip(ShedLoad.Commands(), VoltageOutOfBand)
      else
        var i := snap.PduCurrent();
        if i.Some? && i.value > l.maxPduCurrent then Trip(ShedLoad.Commands(), OverCurrent)
        else Allow(ClampAll(l, requested))
  }

  function ClampOne(l: SafetyLimits, c: Command): Command
    requires Ordered(l)
  {
    match c
    case SetValvePosition(v) => SetValvePosition(Clamp(v, l.minValve, l.maxValve))
    case SetFanSpeed(v) => SetFanSpeed(Clamp(v, l.minFan, l.maxFan))
    case other => other.Clamped()
  }

  function ClampAll(l: SafetyLimits, commands: seq<Command>): (r: seq<Command>)
    requires Ordered(l)
    ensures |r| == |commands|
  {
    seq(|commands|, i requires 0 <= i < |commands| => ClampOne(l, commands[i]))
  }

  // ---- What enforcement promises -------------------------------------------

  // The physical envelope of one command.
  predicate InEnvelope(l: SafetyLimits, c: Command) {
    match c
    case SetValvePosition(v) => l.minValve <= v <= l.maxValve
    case SetFanSpeed(v) => l.minFan <= v <= l.maxFan
    case SetDischargeLimit(v) => 0.0 <= v <= 100.0
    case SetOutletState(_) => true
  }

  // Both commands drive the same actuator.
  predicate SameActuator(a: Command, b: Command) {
    match a
    case SetValvePosition(_) => b.SetValvePosition?
    case SetFanSpeed(_) => b.SetFanSpeed?
    case SetDischargeLimit(_) => b.SetDischargeLimit?
    case SetOutletState(on) => b == SetOutletState(on)
  }

  // A reading is inside its band, or not reported.
  predicate Within(r: Option<real>, lo: real, hi: real) { r.Some? ==> lo <= r.value <= hi }

  predicate AirInBand(l: SafetyLimits, snap: Snapshot) {
    Within(snap.TempC(), l.minAirTempC, l.critAirTempC)
  }

  predicate PowerInBand(l: SafetyLimits, snap: Snapshot) {
    Within(snap.PduVoltage(), l.minPduVoltage, l.maxPduVoltage)
    && (snap.PduCurrent().Some? ==> snap.PduCurrent().value <= l.maxPduCurrent)
  }

  // Commands pass iff every reported reading is in its band; a thermal breach
  // cools fully, an electrical one without a thermal one also sheds the load.
  lemma TripsExactlyOnBreach(l: SafetyLimits, snap: Snapshot, requested: seq<Command>)
    requires Ordered(l)
    ensures var e := Enforce(l, snap, requested);
            && (e.Allow? <==> AirInBand(l, snap) && PowerInBand(l, snap))
            && (e.Trip? && e.commands == FullCooling.Commands() <==> !AirInBand(l, snap))
            && (e.Trip? && e.commands == ShedLoad.Commands()
                <==> AirInBand(l, snap) && !PowerInBand(l, snap))
  {
    assert |FullCooling.Commands()| != |ShedLoad.Commands()|;
    var e := Enforce(l, snap, requested);
    if AirInBand(l, snap) && PowerInBand(l, snap) {
      assert e.Allow?;
    }
  }

  // A percentage beyond a bound of its actuator was moved to that bound.
  predicate AtNearestBound(l: SafetyLimits, c: Command, out: Command)
    requires SameActuator(c, out)
  {
    if c.SetOutletState? then true
    else
      var (lo, hi) := if c.SetValvePosition? then (l.minValve, l.maxValve)
                      else if c.SetFanSpeed? then (l.minFan, l.maxFan) else (0.0, 100.0);
      (c.percent < lo ==> out.percent == lo) && (c.percent > hi ==> out.percent == hi)
  }

  // The reason a trip gives is a breach there is, a thermal one before an electrical one.
  lemma ReasonIsBreach(l: SafetyLimits, snap: Snapshot, requested: seq<Command>)
    requires Ordered(l) && l.minAirTempC <= l.critAirTempC && Enforce(l, snap, requested).Trip?
    ensures match Enforce(l, snap, requested).reason
            case TooHot => snap.TempC().Some? && snap.TempC().value > l.critAirTempC
            case TooCold => snap.TempC().Some? && snap.TempC().value < l.minAirTempC
            case VoltageOutOfBand =>
              AirInBand(l, snap) && !Within(snap.PduVoltage(), l.minPduVoltage, l.maxPduVoltage)
            case OverCurrent =>
              AirInBand(l, snap) && Within(snap.PduVoltage(), l.minPduVoltage, l.maxPduVoltage)
              && snap.PduCurrent().Some? && snap.PduCurrent().value > l.maxPduCurrent
  {
  }

  // The default limits: 5 to 45 degrees, 198 to 264 volts, up to 80 amperes, and
  // actuators over their whole range.
  lemma DefaultTrips(snap: Snapshot, requested: seq<Command>)
    ensures Enforce(DEFAULT_LIMITS, snap, requested).Allow?
       <==> && (snap.TempC().Some? ==> 5.0 <= snap.TempC().value <= 45.0)
            && (snap.PduVoltage().Some? ==> 198.0 <= snap.PduVoltage().value <= 264.0)
            && (snap.PduCurrent().Some? ==> snap.PduCurrent().value <= 80.0)
    ensures forall c: Command :: InEnvelope(DEFAULT_LIMITS, c) <==> c.IsPercent()
  {
  }

  // What passes is the request with each value moved to the nearest point of the
  // envelope; it passes unchanged iff all of it already lay inside.
  lemma AllowedLieInEnvelope(l: SafetyLimits, snap: Snapshot, requested: seq<Command>)
    requires Ordered(l) && Enforce(l, snap, requested).Allow?
    ensures var out := Enforce(l, snap, requested).commands;
            && |out| == |requested|
            && (forall i :: 0 <= i < |out| ==> InEnvelope(l, out[i]) && SameActuator(requested[i], out[i]))
            && (forall i :: 0 <= i < |out| && InEnvelope(l, requested[i]) ==> out[i] == requested[i])
            && (out == requested <==> forall i :: 0 <= i < |requested| ==> InEnvelope(l, requested[i]))
            && (forall i :: 0 <= i < |out| ==> AtNearestBound(l, requested[i], out[i]))
  {
    var out := Enforce(l, snap, requested).commands;
    forall i | 0 <= i < |out|
      ensures InEnvelope(l, out[i]) && SameActuator(requested[i], out[i]) && AtNearestBound(l, requested[i], out[i])
      ensures InEnvelope(l, requested[i]) <==> out[i] == requested[i]
    {
      assert out[i] == ClampOne(l, requested[i]);
    }
  }
}
