// The audited manual-override store (api/internal/control/state.go).
module ControlStore {
  import opened Sequences
  import opened Commands
  import opened AuditLog

  // The numeric reading of a value: what a failed parse left behind counts, anything else is 0.
  function ToFloat(v: Value): (f: Float)
    ensures f == if v.Flag? || v.Other? then Fin(0.0) else v.number
  {
    match v
    case Number(f) => f
    case Narrow(f) => f
    case Json(f, _) => f
    case Text(_, f, _) => f
    case _ => Fin(0.0)
  }

  function Clamp(v: Float, lo: real, hi: real): (r: Float)
    ensures lo <= hi ==> InBand(r, lo, hi)
    ensures InBand(v, lo, hi) ==> r == v
    ensures v.NaN? || Lt(v, Fin(lo)) ==> r == Fin(lo)
    ensures lo <= hi && Lt(Fin(hi), v) ==> r == Fin(hi)
  {
    if v.NaN? then Fin(lo)
    else if Lt(v, Fin(lo)) then Fin(lo)
    else if Lt(Fin(hi), v) then Fin(hi)
    else v
  }

  datatype Mode = Auto | Manual | Safe

  datatype Actuator = Actuator(valve: Float, fan: Float, outlet: bool, discharge: Float,
                               mode: Mode, latched: bool, operator: string, reason: string)

  // An entry without a command is a reset or a latch.
  datatype Entry = Entry(id: string, device: string, command: string, requested: Value, applied: Value,
                         clamped: bool, operator: string, reason: string)

  datatype StoreError = UnknownDevice | UnknownCommand | LatchedSafe

  datatype Reply = Replied(state: Actuator, clamped: bool) | Failed(error: StoreError) | Silent

  datatype Operation =
    | Seed(device: string, valve: Float, fan: Float, outlet: bool, discharge: Float)
    | Override(device: string, command: string, value: Value, operator: string, reason: string)
    | Reset(device: string, operator: string, reason: string)
    | LatchSafe(device: string, operator: string, reason: string)

  function Literal(t: string): Value { Text(t, Fin(0.0), false) }

  // ---- What an accepted operation does to its device -----------------------

  datatype Effect = Effect(state: Actuator, applied: Value, clamped: bool)

  function WithChannel(a: Actuator, command: string, v: Float): Actuator {
    if command == "valve" then a.(valve := v) else if command == "fan" then a.(fan := v) else a.(discharge := v)
  }

  function Channel(a: Actuator, command: string): Float {
    if command == "valve" then a.valve else if command == "fan" then a.fan else a.discharge
  }

  predicate Accepts(a: Actuator, op: Operation) {
    match op
    case Seed(_, _, _, _, _) => false
    case Override(_, command, _, _, _) => !a.latched && command in CHANNELS
    case _ => true
  }

  function EffectOf(l: Limits, a: Actuator, op: Operation): Effect
    requires Accepts(a, op)
  {
    var signed := a.(operator := op.operator, reason := op.reason);
    match op
    case Override(_, command, value, _, _) =>
      if command == "outlet" then
        Effect(signed.(mode := Manual, outlet := ToBool(value)), Flag(ToBool(value)), false)
      else
        var v := ToFloat(value);
        var cv := Clamp(v, Band(l, command).0, Band(l, command).1);
        Effect(WithChannel(signed.(mode := Manual), command, cv), Number(cv), Differs(cv, v))
    case Reset(_, _, _) => Effect(signed.(mode := Auto, latched := false), Literal("auto"), false)
    case LatchSafe(_, _, _) =>
      Effect(signed.(mode := Safe, latched := true, valve := Fin(l.maxValve), fan := Fin(l.maxFan)),
             Literal("safe"), false)
  }

  function Seeded(l: Limits, op: Operation): Actuator
    requires op.Seed?
  {
    Actuator(Clamp(op.valve, l.minValve, l.maxValve), Clamp(op.fan, l.minFan, l.maxFan), op.outlet,
             Clamp(op.discharge, l.minDischarge, l.maxDischarge), Auto, false, "", "")
  }

  function EntryOf(seqNo: nat, op: Operation, eff: Effect): Entry
    requires !op.Seed?
  {
    var (command, requested) := match op
      case Override(_, c, v, _, _) => (c, v)
      case Reset(_, _, _) => ("", Literal("reset"))
      case _ => ("", Literal("latch_safe"));
    Entry(Id("aud-", seqNo), op.device, command, requested, eff.applied, eff.clamped, op.operator, op.reason)
  }

  // ---- What an operation does to the store ---------------------------------

  datatype State = State(devices: map<string, Actuator>, audit: seq<Entry>, seqNo: nat)

  const EMPTY := State(map[], [], 0)

  // What an operation adds to the log.
  function Logged(l: Limits, s: State, op: Operation): seq<Entry> {
    if op.device in s.devices && Accepts(s.devices[op.device], op)
    then [EntryOf(s.seqNo + 1, op, EffectOf(l, s.devices[op.device], op))] else []
  }

  function Step(l: Limits, s: State, op: Operation): (State, Reply) {
    if op.Seed? then
      (if op.device in s.devices then s else s.(devices := s.devices[op.device := Seeded(l, op)]), Silent)
    else if op.device !in s.devices then (s, Failed(UnknownDevice))
    else
      var a := s.devices[op.device];
      if Accepts(a, op) then
        var eff := EffectOf(l, a, op);
        (State(s.devices[op.device := eff.state], Keep(s.audit, EntryOf(s.seqNo + 1, op, eff)), s.seqNo + 1),
         Replied(eff.state, eff.clamped))
      else (s, Failed(if a.latched then LatchedSafe else UnknownCommand))
  }

  function After(l: Limits, ops: seq<Operation>): State {
    if ops == [] then EMPTY else Step(l, After(l, ops[..|ops| - 1]), ops[|ops| - 1]).0
  }

  // Everything ever logged.
  function History(l: Limits, ops: seq<Operation>): seq<Entry> {
    if ops == [] then []
    else History(l, ops[..|ops| - 1]) + Logged(l, After(l, ops[..|ops| - 1]), ops[|ops| - 1])
  }

  // ---- The log -------------------------------------------------------------

  // The store keeps exactly the last thousand entries ever logged; their ids
  // number them consecutively from 1.
  lemma {:induction false} LogIsWindow(l: Limits, ops: seq<Operation>)
    ensures var (s, full) := (After(l, ops), History(l, ops));
            && s.audit == LastN(full, CAP) && s.seqNo == |full|
            && forall i :: 0 <= i < |full| ==> full[i].id == Id("aud-", i + 1)
  {
    hide EffectOf, Keep, Seeded, Id;
    if ops != [] {
      var front := ops[..|ops| - 1];
      LogIsWindow(l, front);
      var s := After(l, front);
      var more := Logged(l, s, ops[|ops| - 1]);
      if more != [] { KeepIsWindow(History(l, front), more[0]); }
    }
  }

  function IdOf(e: Entry): string { e.id }

  // `Audit` answers oldest first; newest first only where there is at most one entry.
  lemma AuditOrder(l: Limits, ops: seq<Operation>, limit: int)
    ensures var log := After(l, ops).audit;
            var answer := Map(IdOf, LastN(log, Limit(|log|, limit)));
            && OldestFirst("aud-", answer)
            && (NewestFirst("aud-", answer) <==> |answer| <= 1)
  {
    LogIsWindow(l, ops);
    QueryOrder("aud-", IdOf, History(l, ops), limit);
  }

  // Two accepted operations, and the answer that shows the older one first.
  lemma AuditIsNotNewestFirst(l: Limits)
    ensures var ops := [Seed("rack-00", Fin(50.0), Fin(50.0), true, Fin(100.0)),
                        Reset("rack-00", "a", ""), Reset("rack-00", "b", "")];
            var answer := LastN(After(l, ops).audit, Limit(|After(l, ops).audit|, 0));
            && |answer| == 2 && answer[0].operator == "a" && answer[1].operator == "b"
            && !NewestFirst("aud-", Map(IdOf, answer))
  {
    var ops := [Seed("rack-00", Fin(50.0), Fin(50.0), true, Fin(100.0)),
                Reset("rack-00", "a", ""), Reset("rack-00", "b", "")];
    assert ops[..1][..0] == [] && ops[..2][..1] == ops[..1] && ops[..3] == ops;
    assert After(l, ops[..1][..0]) == EMPTY;
    var s1 := After(l, ops[..1]);
    assert s1 == Step(l, EMPTY, ops[0]).0 && s1.audit == [];
    var s2 := After(l, ops[..2]);
    assert s2 == Step(l, s1, ops[1]).0 && |s2.audit| == 1;
    assert After(l, ops) == Step(l, s2, ops[2]).0;
    AuditOrder(l, ops, 0);
  }

  // A refused call changes neither state nor log; which calls are refused, and why.
  lemma RefusedChangesNothing(l: Limits, s: State, op: Operation)
    ensures var (s', r) := Step(l, s, op);
            && (r.Failed? ==> s' == s && Logged(l, s, op) == [])
            && (r == Failed(UnknownDevice) <==> !op.Seed? && op.device !in s.devices)
            && (r == Failed(LatchedSafe) <==> op.Override? && op.device in s.devices && s.devices[op.device].latched)
            && (r == Failed(UnknownCommand) <==> op.Override? && op.device in s.devices
                                                 && !s.devices[op.device].latched && op.command !in CHANNELS)
            && (r.Replied? ==> |Logged(l, s, op)| == 1 && s'.seqNo == s.seqNo + 1
                               && s'.devices.Keys == s.devices.Keys && r.state == s'.devices[op.device]
                               && r.clamped == Logged(l, s, op)[0].clamped
                               && forall d :: d in s.devices && d != op.device ==> s'.devices[d] == s.devices[d])
  {
  }

  // ---- Replay --------------------------------------------------------------

  // What an entry says happened to its device.
  function Redo(l: Limits, a: Actuator, e: Entry): Actuator {
    var signed := a.(operator := e.operator, reason := e.reason);
    if e.command == "" then
      if e.applied == Literal("auto") then signed.(mode := Auto, latched := false)
      else signed.(mode := Safe, latched := true, valve := Fin(l.maxValve), fan := Fin(l.maxFan))
    else if e.applied.Flag? then signed.(mode := Manual, outlet := e.applied.flag)
    else WithChannel(signed.(mode := Manual), e.command, ToFloat(e.applied))
  }

  function Replay(l: Limits, a: Actuator, log: seq<Entry>, device: string): Actuator {
    if log == [] then a
    else
      var before := Replay(l, a, log[..|log| - 1], device);
      if log[|log| - 1].device == device then Redo(l, before, log[|log| - 1]) else before
  }

  // The position of the seed that installs a device; |ops| if there is none.
  function SeedAt(ops: seq<Operation>, device: string): (k: nat)
    ensures k <= |ops| && (k < |ops| ==> ops[k].Seed? && ops[k].device == device)
    ensures forall j :: 0 <= j < k ==> !(ops[j].Seed? && ops[j].device == device)
  {
    if ops == [] then 0
    else
      var n := |ops| - 1;
      var k := SeedAt(ops[..n], device);
      if k < n then k else if ops[n].Seed? && ops[n].device == device then n else n + 1
  }

  lemma RedoEntry(l: Limits, a: Actuator, op: Operation, seqNo: nat)
    requires Accepts(a, op)
    ensures Redo(l, a, EntryOf(seqNo, op, EffectOf(l, a, op))) == EffectOf(l, a, op).state
  {
    assert Literal("auto") != Literal("safe") by { assert "auto"[0] != "safe"[0]; }
    assert "" !in CHANNELS;
  }

  lemma ReplaySnoc(l: Limits, a: Actuator, log: seq<Entry>, e: Entry, device: string)
    ensures Replay(l, a, log + [e], device)
         == if e.device == device then Redo(l, Replay(l, a, log, device), e) else Replay(l, a, log, device)
  {
    assert (log + [e])[..|log|] == log;
  }

  // Replaying the whole log over the state a device was seeded with gives the
  // state it is in: actuators, mode, latch and signature. A device never seeded
  // is unknown, and nothing was ever logged for it.
  lemma {:induction false} ReplayGivesState(l: Limits, ops: seq<Operation>, device: string)
    ensures var (s, full, k) := (After(l, ops), History(l, ops), SeedAt(ops, device));
            && (device in s.devices <==> k < |ops|)
            && (k < |ops| ==> s.devices[device] == Replay(l, Seeded(l, ops[k]), full, device))
            && (k == |ops| ==> forall a :: Replay(l, a, full, device) == a)
  {
    if ops != [] {
      var n := |ops| - 1;
      ReplayGivesState(l, ops[..n], device);
      var (s, full, op) := (After(l, ops[..n]), History(l, ops[..n]), ops[n]);
      var more := Logged(l, s, op);
      var k := SeedAt(ops, device);
      if more != [] {
        assert more == [more[0]] && more[0].device == op.device;
        RedoEntry(l, s.devices[op.device], op, s.seqNo + 1);
        forall a ensures Replay(l, a, full + more, device)
                      == if op.device == device then Redo(l, Replay(l, a, full, device), more[0])
                         else Replay(l, a, full, device)
        {
          ReplaySnoc(l, a, full, more[0], device);
        }
      } else {
        assert full + more == full;
      }
      hide Redo, EffectOf, Seeded, EntryOf;
    }
  }

  // ---- Invariants of every reachable state ---------------------------------

  predicate Bounded(l: Limits, a: Actuator) {
    InBand(a.valve, l.minValve, l.maxValve) && InBand(a.fan, l.minFan, l.maxFan)
    && InBand(a.discharge, l.minDischarge, l.maxDischarge)
  }

  // Latched means held in the fail-safe position, and safe mode means latched.
  predicate LatchHeld(l: Limits, a: Actuator) {
    (a.latched <==> a.mode == Safe) && (a.latched ==> a.valve == Fin(l.maxValve) && a.fan == Fin(l.maxFan))
  }

  lemma EffectKeeps(l: Limits, a: Actuator, op: Operation)
    requires Accepts(a, op) && LatchHeld(l, a)
    ensures LatchHeld(l, EffectOf(l, a, op).state)
    ensures Ordered(l) && Bounded(l, a) ==> Bounded(l, EffectOf(l, a, op).state)
  {
  }

  // Whatever is requested, NaN and infinities included, no actuator leaves its
  // envelope, and a latched device stays at full cooling until it is reset.
  lemma {:induction false} EveryStateSafe(l: Limits, ops: seq<Operation>, device: string)
    requires device in After(l, ops).devices
    ensures LatchHeld(l, After(l, ops).devices[device])
    ensures Ordered(l) ==> Bounded(l, After(l, ops).devices[device])
  {
    var s := After(l, ops[..|ops| - 1]);
    var op := ops[|ops| - 1];
    if device in s.devices {
      EveryStateSafe(l, ops[..|ops| - 1], device);
      if op.device == device && Accepts(s.devices[device], op) {
        EffectKeeps(l, s.devices[device], op);
      }
    }
    hide EffectOf;
  }

  // An accepted override sets its own channel to the clamped request, says so in
  // the log, and leaves the other channels alone.
  lemma OverrideIsHonest(l: Limits, a: Actuator, op: Operation)
    requires op.Override? && Accepts(a, op) && op.command != "outlet" && Ordered(l)
    ensures var eff := EffectOf(l, a, op); var (lo, hi) := Band(l, op.command); var v := ToFloat(op.value);
            && eff.applied == Number(Channel(eff.state, op.command))
            && InBand(Channel(eff.state, op.command), lo, hi)
            && (eff.clamped <==> !InBand(v, lo, hi))
            && (!eff.clamped ==> Channel(eff.state, op.command) == v)
            && (Lt(Fin(hi), v) ==> Channel(eff.state, op.command) == Fin(hi))
            && (eff.clamped && !Lt(Fin(hi), v) ==> Channel(eff.state, op.command) == Fin(lo))
            && (forall c :: c in CHANNELS && c != op.command && c != "outlet" ==>
                  Channel(eff.state, c) == Channel(a, c))
            && eff.state.outlet == a.outlet && eff.state.mode == Manual && eff.state.latched == a.latched
            && eff.state.operator == op.operator && eff.state.reason == op.reason
  {
  }

  // An accepted outlet override switches the outlet, says so in the log, and leaves the
  // channels alone.
  lemma OutletIsHonest(l: Limits, a: Actuator, op: Operation)
    requires op.Override? && Accepts(a, op) && op.command == "outlet"
    ensures var (eff, on) := (EffectOf(l, a, op), ToBool(op.value));
            && eff.applied == Flag(on) && !eff.clamped
            && eff.state == Actuator(a.valve, a.fan, on, a.discharge, Manual, a.latched, op.operator, op.reason)
  {
  }

  // A reset hands control back and clears the latch, whatever the state, and moves
  // nothing; a latch opens valve and fan fully and moves nothing else.
  lemma ResetAndLatch(l: Limits, a: Actuator, op: Operation)
    requires op.Reset? || op.LatchSafe?
    ensures Accepts(a, op)
    ensures op.Reset? ==>
              EffectOf(l, a, op).state
              == Actuator(a.valve, a.fan, a.outlet, a.discharge, Auto, false, op.operator, op.reason)
    ensures op.LatchSafe? ==>
              EffectOf(l, a, op).state
              == Actuator(Fin(l.maxValve), Fin(l.maxFan), a.outlet, a.discharge, Safe, true, op.operator, op.reason)
  {
  }

  // What the log says of an accepted operation: who did what to which device and why,
  // what was asked for, and what came of it.
  lemma EntryTells(l: Limits, s: State, op: Operation)
    requires Step(l, s, op).1.Replied?
    ensures var (e, a) := (Logged(l, s, op)[0], Step(l, s, op).0.devices[op.device]);
            && e.device == op.device && e.operator == op.operator && e.reason == op.reason
            && Step(l, s, op).0.audit != [] && Step(l, s, op).0.audit[|Step(l, s, op).0.audit| - 1] == e
            && e.id == Id("aud-", s.seqNo + 1)
            && (op.Override? ==>
                  e.command == op.command && e.requested == op.value
                  && e.applied == if op.command == "outlet" then Flag(a.outlet) else Number(Channel(a, op.command)))
            && (op.Reset? ==> e.command == "" && e.requested == Literal("reset") && e.applied == Literal("auto"))
            && (op.LatchSafe? ==>
                  e.command == "" && e.requested == Literal("latch_safe") && e.applied == Literal("safe"))
            && (op.Reset? || op.LatchSafe? ==> !e.clamped)
  {
    hide Clamp, ToFloat, ToBool, Differs;
  }

  // A seed installs a device that is unknown, leaves a known one alone, and is never logged.
  lemma SeedsOnce(l: Limits, s: State, op: Operation)
    requires op.Seed?
    ensures var (s', r) := Step(l, s, op);
            && r == Silent && s'.audit == s.audit && s'.seqNo == s.seqNo && Logged(l, s, op) == []
            && s'.devices.Keys == s.devices.Keys + {op.device}
            && (forall d :: d in s.devices ==> s'.devices[d] == s.devices[d])
            && (op.device !in s.devices ==> s'.devices[op.device] == Seeded(l, op))
  {
  }

  // A seed starts each channel at its clamped request, in auto and not latched.
  lemma SeedIsHonest(l: Limits, op: Operation)
    requires op.Seed? && Ordered(l)
    ensures var a := Seeded(l, op);
            && Bounded(l, a) && LatchHeld(l, a) && a.mode == Auto && a.outlet == op.outlet
            && (InBand(op.valve, l.minValve, l.maxValve) ==> a.valve == op.valve)
            && (InBand(op.fan, l.minFan, l.maxFan) ==> a.fan == op.fan)
            && (InBand(op.discharge, l.minDischarge, l.maxDischarge) ==> a.discharge == op.discharge)
            && (Lt(Fin(l.maxValve), op.valve) ==> a.valve == Fin(l.maxValve))
            && (Lt(op.valve, Fin(l.minValve)) || op.valve.NaN? ==> a.valve == Fin(l.minValve))
            && (Lt(Fin(l.maxFan), op.fan) ==> a.fan == Fin(l.maxFan))
            && (Lt(op.fan, Fin(l.minFan)) || op.fan.NaN? ==> a.fan == Fin(l.minFan))
            && (Lt(Fin(l.maxDischarge), op.discharge) ==> a.discharge == Fin(l.maxDischarge))
            && (Lt(op.discharge, Fin(l.minDischarge)) || op.discharge.NaN? ==> a.discharge == Fin(l.minDischarge))
            && a.operator == a.reason == ""
  {
  }

  // ---- The store object ----------------------------------------------------

  class Store {
    const limits: Limits
    var devices: map<string, Actuator>
    var audit: seq<Entry>
    var seqNo: nat

    function View(): State
      reads this
    {
      State(devices, audit, seqNo)
    }

    // Limits that are all zero stand for the defaults.
    constructor (limits: Limits)
      ensures this.limits == (if limits == UNSET then DEFAULTS else limits) && View() == EMPTY
    {
      this.limits := if limits == UNSET then DEFAULTS else limits;
      devices, audit, seqNo := map[], [], 0;
    }

    method InstallSeed(device: string, valve: Float, fan: Float, outlet: bool, discharge: Float)
      modifies this
      ensures View() == Step(limits, old(View()), Seed(device, valve, fan, outlet, discharge)).0
    {
      if device in devices {
        return;
      }
      devices := devices[device :=
        Actuator(Clamp(valve, limits.minValve, limits.maxValve), Clamp(fan, limits.minFan, limits.maxFan), outlet,
                 Clamp(discharge, limits.minDischarge, limits.maxDischarge), Auto, false, "", "")];
    }

    method Record(e: Entry)
      modifies `audit, `seqNo
      ensures audit == Keep(old(audit), e.(id := Id("aud-", old(seqNo) + 1))) && seqNo == old(seqNo) + 1
    {
      seqNo := seqNo + 1;
      audit := audit + [e.(id := Id("aud-", seqNo))];
      if |audit| > CAP {
        audit := audit[|audit| - CAP..];
      }
    }

    method ApplyOverride(device: string, command: string, value: Value, operator: string, reason: string)
      returns (r: Reply)
      modifies this
      ensures (View(), r) == Step(limits, old(View()), Override(device, command, value, operator, reason))
    {
      if device !in devices {
        return Failed(UnknownDevice);
      }
      var st := devices[device];
      if st.latched {
        return Failed(LatchedSafe);
      }
      var applied, clamped := Other, false;
      match command {
        case "valve" =>
          var v := ToFloat(value);
          var cv := Clamp(v, limits.minValve, limits.maxValve);
          clamped, applied := Differs(cv, v), Number(cv);
          st := st.(valve := cv);
        case "fan" =>
          var v := ToFloat(value);
          var cv := Clamp(v, limits.minFan, limits.maxFan);
          clamped, applied := Differs(cv, v), Number(cv);
          st := st.(fan := cv);
        case "discharge_limit" =>
          var v := ToFloat(value);
          var cv := Clamp(v, limits.minDischarge, limits.maxDischarge);
          clamped, applied := Differs(cv, v), Number(cv);
          st := st.(discharge := cv);
        case "outlet" =>
          applied := Flag(ToBool(value));
          st := st.(outlet := ToBool(value));
        case _ =>
          return Failed(UnknownCommand);
      }
      hide Clamp, Differs, ToFloat, ToBool;
      st := st.(mode := Manual, operator := operator, reason := reason);
      devices := devices[device := st];
      Record(Entry("", device, command, value, applied, clamped, operator, reason));
      r := Replied(st, clamped);
    }

    method ResetDevice(device: string, operator: string, reason: string) returns (r: Reply)
      modifies this
      ensures (View(), r) == Step(limits, old(View()), Reset(device, operator, reason))
    {
      if device !in devices {
        return Failed(UnknownDevice);
      }
      var st := devices[device].(mode := Auto, latched := false, operator := operator, reason := reason);
      devices := devices[device := st];
      Record(Entry("", device, "", Literal("reset"), Literal("auto"), false, operator, reason));
      r := Replied(st, false);
    }

    method Latch(device: string, operator: string, reason: string) returns (r: Reply)
      modifies this
      ensures (View(), r) == Step(limits, old(View()), LatchSafe(device, operator, reason))
    {
      if device !in devices {
        return Failed(UnknownDevice);
      }
      var st := devices[device].(latched := true, mode := Safe, valve := Fin(limits.maxValve),
                                 fan := Fin(limits.maxFan), operator := operator, reason := reason);
      devices := devices[device := st];
      Record(Entry("", device, "", Literal("latch_safe"), Literal("safe"), false, operator, reason));
      r := Replied(st, false);
    }

    method Audit(limit: int) returns (out: seq<Entry>)
      ensures out == LastN(audit, Limit(|audit|, limit))
    {
      out := Query(audit, limit);
    }
  }
}
