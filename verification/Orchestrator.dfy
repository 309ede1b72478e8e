// Routing of control intents: policy envelope, two-person rule, delivery to the
// edge sink, audit (api/internal/orchestration/orchestrator.go, server.go).
module Orchestration {
  import opened Sequences
  import opened Commands
  import opened AuditLog

  datatype Policy = Policy(limits: Limits, requireTwoPerson: bool)

  datatype Request = Request(device: string, command: string, value: Value,
                             operator: string, reason: string, source: string)

  datatype Reason = Fine | NotACommand | NotNumeric | NotBoolean | NeedsTwoPerson | NoSink | SinkError(text: string)

  datatype Entry = Entry(id: string, device: string, command: string, source: string, requested: Value,
                         applied: Value, clamped: bool, accepted: bool, reason: Reason, operator: string)

  // ---- Policy --------------------------------------------------------------

  predicate IsNumeric(v: Value) { v.Number? || v.Narrow? || ((v.Json? || v.Text?) && v.ok) }

  // What counts as a number: float64 and the narrower types always, a literal or a text
  // if it parses, a flag never.
  lemma NumericIff(v: Value)
    ensures IsNumeric(v) <==> !v.Flag? && !v.Other? && (v.Json? || v.Text? ==> v.ok)
  {
  }

  // Unlike the override store's clamp, this one has no case for NaN.
  function Clamp(v: Float, lo: real, hi: real): (Float, bool) {
    if Lt(v, Fin(lo)) then (Fin(lo), true) else if Lt(Fin(hi), v) then (Fin(hi), true) else (v, false)
  }

  // The test for an extreme setting. It reads the valve limits for the fan too.
  predicate Extreme(l: Limits, f: Float) {
    Le(Fin(l.maxValve - 0.001), f) || Le(f, Fin(l.minValve + 0.001))
  }

  datatype Decision = Reject(value: Value, reason: Reason) | Forward(value: Value, clamped: bool)

  function SourceOf(req: Request): string { if req.source == "" then "operator" else req.source }

  function Decide(p: Policy, hasSink: bool, req: Request): Decision {
    if req.command !in CHANNELS then Reject(req.value, NotACommand)
    else if req.command == "outlet" then
      if !IsBoolean(req.value) then Reject(req.value, NotBoolean)
      else if !hasSink then Reject(Flag(ToBool(req.value)), NoSink)
      else Forward(Flag(ToBool(req.value)), false)
    else if !IsNumeric(req.value) then Reject(req.value, NotNumeric)
    else
      var (cv, was) := Clamp(req.value.number, Band(p.limits, req.command).0, Band(p.limits, req.command).1);
      if p.requireTwoPerson && SourceOf(req) == "operator" && req.command in {"valve", "fan"} && Extreme(p.limits, cv)
      then Reject(Number(cv), NeedsTwoPerson)
      else if !hasSink then Reject(Number(cv), NoSink)
      else Forward(Number(cv), was)
  }

  // A forwarded number lies in the envelope iff it is a number at all; if so it is
  // the requested one, moved to the nearest bound where needed and then marked.
  lemma ForwardedInEnvelope(p: Policy, hasSink: bool, req: Request)
    requires Ordered(p.limits) && Decide(p, hasSink, req).Forward? && req.command != "outlet"
    ensures var (lo, hi) := Band(p.limits, req.command);
            var (v, d) := (req.value.number, Decide(p, hasSink, req));
            && d.value.Number?
            && (InBand(d.value.number, lo, hi) <==> !v.NaN?)
            && (d.clamped <==> !v.NaN? && !InBand(v, lo, hi))
            && (!d.clamped ==> d.value.number == v)
            && (Lt(v, Fin(lo)) ==> d.value.number == Fin(lo)) && (Lt(Fin(hi), v) ==> d.value.number == Fin(hi))
  {
  }

  // NaN passes every check, the two-person rule included, and reaches the sink.
  lemma NaNIsForwarded(p: Policy, req: Request)
    requires req.command in CHANNELS && req.command != "outlet" && IsNumeric(req.value) && req.value.number.NaN?
    ensures Decide(p, true, req) == Forward(Number(NaN), false)
  {
  }

  // Which intents are forwarded.
  lemma ForwardIff(p: Policy, hasSink: bool, req: Request)
    ensures Decide(p, hasSink, req).Forward? <==>
      && hasSink && req.command in CHANNELS
      && (if req.command == "outlet" then IsBoolean(req.value) else IsNumeric(req.value))
      && !(p.requireTwoPerson && req.source in {"", "operator"} && req.command in {"valve", "fan"}
           && Extreme(p.limits,
                      Clamp(req.value.number, Band(p.limits, req.command).0, Band(p.limits, req.command).1).0))
  {
  }

  // Why an intent is refused, the first of these that applies; and what is recorded of
  // it: its value as it came, or, once it has passed the check of its type, in normal form.
  lemma RefusalTells(p: Policy, hasSink: bool, req: Request)
    ensures var (d, outlet) := (Decide(p, hasSink, req), req.command == "outlet");
            && (d == Reject(req.value, NotACommand) <==> req.command !in CHANNELS)
            && (d == Reject(req.value, NotBoolean) <==> outlet && !IsBoolean(req.value))
            && (d == Reject(req.value, NotNumeric) <==> req.command in CHANNELS && !outlet && !IsNumeric(req.value))
            && (d.Reject? && d.reason == NeedsTwoPerson ==>
                  p.requireTwoPerson && req.source in {"", "operator"} && req.command in {"valve", "fan"}
                  && d.value.Number? && Extreme(p.limits, d.value.number))
            && (d.Reject? && d.reason == NoSink ==> !hasSink)
            && (d.Reject? ==> d.reason in {NotACommand, NotBoolean, NotNumeric, NeedsTwoPerson, NoSink})
            && (outlet && IsBoolean(req.value) ==>
                  d == if hasSink then Forward(Flag(ToBool(req.value)), false)
                       else Reject(Flag(ToBool(req.value)), NoSink))
            && (d.Reject? && d.reason in {NeedsTwoPerson, NoSink} && !outlet ==> IsNormalForm(p, req, d.value))
            && (d.Forward? && !outlet ==> IsNormalForm(p, req, d.value))
  {
  }

  // The requested number, held in the band of its channel; NaN as it is.
  predicate IsNormalForm(p: Policy, req: Request, v: Value)
    requires IsNumeric(req.value)
  {
    var (f, (lo, hi)) := (req.value.number, Band(p.limits, req.command));
    && v.Number?
    && (Lt(f, Fin(lo)) ==> v.number == Fin(lo))
    && (!Lt(f, Fin(lo)) && Lt(Fin(hi), f) ==> v.number == Fin(hi))
    && (!Lt(f, Fin(lo)) && !Lt(Fin(hi), f) ==> v.number == f)
  }

  // An extreme setting is within a thousandth of a valve limit, or beyond it.
  lemma ExtremeIff(l: Limits, f: real)
    ensures Extreme(l, Fin(f)) <==> f >= l.maxValve - 0.001 || f <= l.minValve + 0.001
    ensures !Extreme(l, NaN)
  {
  }

  // The rule as it is described: within a thousandth of the channel's own limits.
  predicate AtOwnLimit(lo: real, hi: real, f: real) { f >= hi - 0.001 || f <= lo + 0.001 }

  // Whether the rule is right about a fan setting.
  predicate FanRuleAgrees(l: Limits, f: real) { Extreme(l, Fin(f)) <==> AtOwnLimit(l.minFan, l.maxFan, f) }

  // Valve and fan limits coincide, or, if the fan band is so narrow that all of it is
  // extreme, nothing strictly inside the valve band is a fan setting.
  predicate FanLimitsFit(l: Limits) {
    if l.maxFan - l.minFan > 0.002 then l.minFan == l.minValve && l.maxFan == l.maxValve
    else l.maxValve - 0.001 <= l.minValve + 0.001
         || l.maxFan <= l.minValve + 0.001 || l.minFan >= l.maxValve - 0.001
  }

  // For fan settings inside the fan's band the rule fires exactly where it should
  // iff the limits fit.
  lemma FanRuleIff(l: Limits)
    requires Ordered(l)
    ensures (forall f: real :: l.minFan <= f <= l.maxFan ==> FanRuleAgrees(l, f))
       <==> FanLimitsFit(l)
  {
    var (a, b) := (l.minValve + 0.001, l.maxValve - 0.001);
    var (c, d) := (l.minFan + 0.001, l.maxFan - 0.001);
    var mid := (c + d) / 2.0;
    if forall f: real :: l.minFan <= f <= l.maxFan ==> FanRuleAgrees(l, f) {
      if l.maxFan - l.minFan > 0.002 {
        assert FanRuleAgrees(l, mid) && FanRuleAgrees(l, c) && FanRuleAgrees(l, d);
        assert FanRuleAgrees(l, if a < mid then a else mid) || a <= c;
        assert FanRuleAgrees(l, if b > mid then b else mid) || b >= d;
      } else {
        var top := if b < l.maxFan then b else l.maxFan;
        assert FanRuleAgrees(l, l.minFan);
        assert l.minFan <= (a + top) / 2.0 <= l.maxFan ==> FanRuleAgrees(l, (a + top) / 2.0);
      }
    }
  }

  function FanRequest(f: real): Request { Request("rack-00", "fan", Number(Fin(f)), "", "", "operator") }

  // What an operator meets: where the rule is in force, the fan settings that are
  // refused are those at the fan's own limits iff the limits are as `FanRuleIff` says.
  lemma FanDecisionIff(p: Policy)
    requires Ordered(p.limits) && p.requireTwoPerson
    ensures (forall f: real :: p.limits.minFan <= f <= p.limits.maxFan ==>
               (Decide(p, true, FanRequest(f)).Reject? <==> AtOwnLimit(p.limits.minFan, p.limits.maxFan, f)))
       <==> FanLimitsFit(p.limits)
  {
    assert forall f: real :: p.limits.minFan <= f <= p.limits.maxFan ==>
      (Decide(p, true, FanRequest(f)).Reject? <==> Extreme(p.limits, Fin(f)));
    FanRuleIff(p.limits);
    hide Decide, Extreme, AtOwnLimit, FanLimitsFit;
    assert forall f: real :: p.limits.minFan <= f <= p.limits.maxFan ==>
      (FanRuleAgrees(p.limits, f)
       <==> (Decide(p, true, FanRequest(f)).Reject? <==> AtOwnLimit(p.limits.minFan, p.limits.maxFan, f)));
  }

  // A fan band of 0 to 80 under a valve band of 0 to 100: an operator's 80, the very
  // limit, is forwarded.
  lemma FanRuleMisfires()
    ensures var p := Policy(DEFAULTS.(maxFan := 80.0), true);
            AtOwnLimit(0.0, 80.0, 80.0) && Decide(p, true, FanRequest(80.0)) == Forward(Number(Fin(80.0)), false)
  {
  }

  // ---- The simulator sink --------------------------------------------------

  datatype Simulated = Simulated(valve: Float, fan: Float, outlet: bool, discharge: Float)

  const FRESH := Simulated(Fin(0.0), Fin(0.0), false, Fin(0.0))

  type Sink = map<string, Simulated>

  function ToF(v: Value): Float { if IsNumeric(v) then v.number else Fin(0.0) }

  // The sink panics on an outlet value that is not a boolean.
  predicate Fits(command: string, value: Value) { command == "outlet" ==> value.Flag? }

  function Set(s: Simulated, command: string, value: Value): Simulated
    requires Fits(command, value)
  {
    match command
    case "valve" => s.(valve := ToF(value))
    case "fan" => s.(fan := ToF(value))
    case "discharge_limit" => s.(discharge := ToF(value))
    case "outlet" => s.(outlet := value.flag)
    case _ => s
  }

  function Apply(sink: Sink, device: string, command: string, value: Value): Sink
    requires Fits(command, value)
  {
    sink[device := Set(if device in sink then sink[device] else FRESH, command, value)]
  }

  // ---- One submit ----------------------------------------------------------

  // Whether the sink takes the command or fails.
  datatype Delivery = Delivered | Broken(error: string)

  datatype Response = Accepted(clamped: bool, state: Simulated) | Rejected(reason: Reason) | Errored(error: string)

  function Draft(req: Request, value: Value, clamped: bool, accepted: bool, reason: Reason): Entry {
    Entry("", req.device, req.command, SourceOf(req), value, value, clamped, accepted, reason, req.operator)
  }

  // The entry a submit will leave behind; it is accepted iff the sink took the command.
  function Attempted(p: Policy, hasSink: bool, req: Request, delivery: Delivery): (e: Entry)
    ensures e.accepted ==> Fits(e.command, e.applied)
    ensures e.accepted <==> Decide(p, hasSink, req).Forward? && delivery.Delivered?
    ensures e.requested == e.applied && e.id == "" && e.device == req.device && e.command == req.command
  {
    match Decide(p, hasSink, req)
    case Reject(value, reason) => Draft(req, value, false, false, reason)
    case Forward(value, clamped) =>
      match delivery
      case Broken(error) => Draft(req, value, false, false, SinkError(error))
      case Delivered => Draft(req, value, clamped, true, Fine)
  }

  // What the entry says besides: who asked, from where, why it was refused.
  lemma EntryTells(p: Policy, hasSink: bool, req: Request, delivery: Delivery)
    ensures var (e, d) := (Attempted(p, hasSink, req, delivery), Decide(p, hasSink, req));
            && e.operator == req.operator && e.source == (if req.source == "" then "operator" else req.source)
            && e.applied == d.value
            && (e.clamped <==> e.accepted && d.clamped)
            && (e.accepted <==> e.reason == Fine)
            && (d.Reject? ==> e.reason == d.reason)
            && (d.Forward? && delivery.Broken? ==> e.reason == SinkError(delivery.error))
  {
  }

  // The intent passed validation, and its value was replaced by the normalized one.
  predicate Overwritten(req: Request) {
    req.command in CHANNELS && if req.command == "outlet" then IsBoolean(req.value) else IsNumeric(req.value)
  }

  // The value is a float64 in the band, or NaN; or a boolean for an outlet.
  predicate Normal(p: Policy, req: Request) {
    if req.command == "outlet" then req.value.Flag?
    else req.value.Number?
         && (req.value.number.NaN?
             || InBand(req.value.number, Band(p.limits, req.command).0, Band(p.limits, req.command).1))
  }

  // An entry records what was requested iff the intent was refused before its value
  // was replaced, or its value was in normal form already.
  lemma RecordsRequestIff(p: Policy, hasSink: bool, req: Request, delivery: Delivery)
    ensures Attempted(p, hasSink, req, delivery).requested == req.value <==> !Overwritten(req) || Normal(p, req)
  {
  }

  // A valve set to 150 is recorded as a request for 100.
  lemma RequestIsLost(delivery: Delivery)
    ensures var req := Request("rack-00", "valve", Number(Fin(150.0)), "", "", "brain");
            Attempted(Policy(DEFAULTS, false), true, req, delivery).requested == Number(Fin(100.0))
  {
    assert "brain"[0] != "operator"[0];
  }

  function Carried(sink: Sink, e: Entry): Sink {
    if e.accepted && Fits(e.command, e.applied) then Apply(sink, e.device, e.command, e.applied) else sink
  }

  // What the accepted entries of a log amount to.
  function Fold(log: seq<Entry>): Sink {
    if log == [] then map[] else Carried(Fold(log[..|log| - 1]), log[|log| - 1])
  }

  datatype State = State(audit: seq<Entry>, seqNo: nat, sink: Sink)

  const EMPTY := State([], 0, map[])

  function Numbered(e: Entry, seqNo: nat): Entry { e.(id := Id("orc-", seqNo)) }

  function Step(p: Policy, hasSink: bool, s: State, req: Request, delivery: Delivery): State {
    var e := Attempted(p, hasSink, req, delivery);
    State(Keep(s.audit, Numbered(e, s.seqNo + 1)), s.seqNo + 1, Carried(s.sink, e))
  }

  datatype Call = Call(req: Request, delivery: Delivery)

  function After(p: Policy, hasSink: bool, calls: seq<Call>): State {
    if calls == [] then EMPTY
    else Step(p, hasSink, After(p, hasSink, calls[..|calls| - 1]),
              calls[|calls| - 1].req, calls[|calls| - 1].delivery)
  }

  // One entry per submit, in order.
  function History(p: Policy, hasSink: bool, calls: seq<Call>): seq<Entry> {
    seq(|calls|, i requires 0 <= i < |calls| =>
      Numbered(Attempted(p, hasSink, calls[i].req, calls[i].delivery), i + 1))
  }

  // Submits that follow one another: the log is the last thousand of exactly one
  // entry per submit, and the simulator stands where the accepted entries put it.
  lemma {:induction false} SequentialRun(p: Policy, hasSink: bool, calls: seq<Call>)
    ensures var (s, full) := (After(p, hasSink, calls), History(p, hasSink, calls));
            s.audit == LastN(full, CAP) && s.seqNo == |full| && s.sink == Fold(full)
  {
    hide Attempted, Numbered, Keep, LastN, Carried;
    if calls == [] {
      EmptyWindow<Entry>();
    } else {
      var n := |calls| - 1;
      var e := Attempted(p, hasSink, calls[n].req, calls[n].delivery);
      var front := History(p, hasSink, calls[..n]);
      SequentialRun(p, hasSink, calls[..n]);
      HistorySnoc(p, hasSink, calls);
      hide History;
      KeepIsWindow(front, Numbered(e, n + 1));
      assert (front + [Numbered(e, n + 1)])[..n] == front;
      CarriedUnnumbered(Fold(front), e, n + 1);
    }
  }

  lemma EmptyWindow<T>()
    ensures LastN<T>([], CAP) == []
  {
  }

  lemma CarriedUnnumbered(sink: Sink, e: Entry, n: nat)
    ensures Carried(sink, Numbered(e, n)) == Carried(sink, e)
  {
  }

  lemma HistorySnoc(p: Policy, hasSink: bool, calls: seq<Call>)
    requires calls != []
    ensures var n := |calls| - 1;
            History(p, hasSink, calls)
            == History(p, hasSink, calls[..n])
               + [Numbered(Attempted(p, hasSink, calls[n].req, calls[n].delivery), n + 1)]
  {
    hide Attempted, Numbered;
  }

  function IdOf(e: Entry): string { e.id }

  // `Audit` answers oldest first; newest first only where there is at most one entry.
  lemma AuditOrder(p: Policy, hasSink: bool, calls: seq<Call>, limit: int)
    ensures var log := After(p, hasSink, calls).audit;
            var answer := Map(IdOf, LastN(log, Limit(|log|, limit)));
            && OldestFirst("orc-", answer)
            && (NewestFirst("orc-", answer) <==> |answer| <= 1)
  {
    SequentialRun(p, hasSink, calls);
    QueryOrder("orc-", IdOf, History(p, hasSink, calls), limit);
  }

  // Any two submits, and the answer that shows the older one first.
  lemma AuditIsNotNewestFirst(p: Policy, hasSink: bool, a: Call, b: Call)
    ensures var log := After(p, hasSink, [a, b]).audit;
            var answer := LastN(log, Limit(|log|, 0));
            && |answer| == 2 && answer[0].device == a.req.device && answer[1].device == b.req.device
            && !NewestFirst("orc-", Map(IdOf, answer))
  {
    SequentialRun(p, hasSink, [a, b]);
    hide Attempted, Id;
    assert |History(p, hasSink, [a, b])| == 2;
    AuditOrder(p, hasSink, [a, b], 0);
  }

  // Each channel of a simulated device is in its band, or was never set.
  predicate InEnvelope(l: Limits, s: Simulated) {
    && (InBand(s.valve, l.minValve, l.maxValve) || s.valve == Fin(0.0))
    && (InBand(s.fan, l.minFan, l.maxFan) || s.fan == Fin(0.0))
    && (InBand(s.discharge, l.minDischarge, l.maxDischarge) || s.discharge == Fin(0.0))
  }

  predicate NoNaN(req: Request) {
    req.command in CHANNELS && req.command != "outlet" && IsNumeric(req.value) ==> !req.value.number.NaN?
  }

  lemma StepInEnvelope(p: Policy, hasSink: bool, s: Simulated, req: Request, delivery: Delivery)
    requires Ordered(p.limits) && NoNaN(req) && InEnvelope(p.limits, s)
    requires Attempted(p, hasSink, req, delivery).accepted
    ensures InEnvelope(p.limits, Set(s, req.command, Attempted(p, hasSink, req, delivery).applied))
  {
    if req.command != "outlet" { ForwardedInEnvelope(p, hasSink, req); }
    hide Decide;
  }

  // Without NaN requests the simulator never leaves the policy envelope.
  lemma {:induction false} SinkInEnvelope(p: Policy, hasSink: bool, calls: seq<Call>, device: string)
    requires Ordered(p.limits) && (forall c :: c in calls ==> NoNaN(c.req)) && device in After(p, hasSink, calls).sink
    ensures InEnvelope(p.limits, After(p, hasSink, calls).sink[device])
  {
    var n := |calls| - 1;
    var c := calls[n];
    var before := After(p, hasSink, calls[..n]).sink;
    if device in before { SinkInEnvelope(p, hasSink, calls[..n], device); }
    if Attempted(p, hasSink, c.req, c.delivery).accepted && c.req.device == device {
      StepInEnvelope(p, hasSink, if device in before then before[device] else FRESH, c.req, c.delivery);
    }
    hide InEnvelope, Attempted, Set, Step;
  }

  // ---- The objects ---------------------------------------------------------

  class SimSink {
    var state: Sink

    constructor ()
      ensures state == map[]
    {
      state := map[];
    }

    method ApplyCommand(device: string, command: string, value: Value) returns (s: Simulated)
      requires Fits(command, value)
      modifies this
      ensures state == Apply(old(state), device, command, value) && device in state && s == state[device]
    {
      s := if device in state then state[device] else FRESH;
      match command {
        case "valve" => s := s.(valve := ToF(value));
        case "fan" => s := s.(fan := ToF(value));
        case "discharge_limit" => s := s.(discharge := ToF(value));
        case "outlet" => s := s.(outlet := value.flag);
        case _ =>
      }
      state := state[device := s];
    }
  }

  class Orchestrator {
    const policy: Policy
    const sink: SimSink?
    var audit: seq<Entry>
    var seqNo: nat

    function View(): State
      reads this, sink
    {
      State(audit, seqNo, if sink == null then map[] else sink.state)
    }

    // An all-zero policy stands for the default one.
    constructor (sink: SimSink?, policy: Policy)
      ensures this.sink == sink && audit == [] && seqNo == 0
      ensures this.policy == if policy == Policy(UNSET, false) then Policy(DEFAULTS, false) else policy
    {
      this.sink := sink;
      this.policy := if policy == Policy(UNSET, false) then Policy(DEFAULTS, false) else policy;
      audit, seqNo := [], 0;
    }

    method Record(req: Request, applied: Value, clamped: bool, accepted: bool, reason: Reason)
      modifies `audit, `seqNo
      ensures seqNo == old(seqNo) + 1
      ensures audit == Keep(old(audit), Entry(Id("orc-", seqNo), req.device, req.command, req.source, req.value,
                                              applied, clamped, accepted, reason, req.operator))
    {
      seqNo := seqNo + 1;
      audit := audit + [Entry(Id("orc-", seqNo), req.device, req.command, req.source, req.value,
                              applied, clamped, accepted, reason, req.operator)];
      if |audit| > CAP {
        audit := audit[|audit| - CAP..];
      }
    }

    method RejectRequest(req: Request, reason: Reason) returns (r: Response)
      modifies `audit, `seqNo
      ensures seqNo == old(seqNo) + 1 && r == Rejected(reason)
      ensures audit == Keep(old(audit), Entry(Id("orc-", seqNo), req.device, req.command, req.source, req.value,
                                              req.value, false, false, reason, req.operator))
    {
      Record(req, req.value, false, false, reason);
      r := Rejected(reason);
    }

    // `delivery` says whether the sink takes the command or fails.
    method Submit(request: Request, delivery: Delivery) returns (r: Response)
      modifies this, sink
      ensures View() == Step(policy, sink != null, old(View()), request, delivery)
      ensures r.Accepted? <==> Attempted(policy, sink != null, request, delivery).accepted
      ensures r.Accepted? ==> request.device in View().sink && r.state == View().sink[request.device]
                              && r.clamped == Attempted(policy, sink != null, request, delivery).clamped
      ensures r.Rejected? ==> Decide(policy, sink != null, request).Reject?
                              && r.reason == Decide(policy, sink != null, request).reason
      ensures r.Errored? ==> Decide(policy, sink != null, request).Forward? && delivery == Broken(r.error)
    {
      hide Keep, Clamp, Extreme, Set, ToBool;
      var req := request.(source := SourceOf(request));
      if req.command !in CHANNELS {
        r := RejectRequest(req, NotACommand);
        return;
      }
      var clamped := false;
      if req.command != "outlet" {
        if !IsNumeric(req.value) {
          r := RejectRequest(req, NotNumeric);
          return;
        }
        var band := Band(policy.limits, req.command);
        var (cv, was) := Clamp(req.value.number, band.0, band.1);
        clamped := was;
        req := req.(value := Number(cv));
      } else {
        if !IsBoolean(req.value) {
          r := RejectRequest(req, NotBoolean);
          return;
        }
        req := req.(value := Flag(ToBool(req.value)));
      }
      if policy.requireTwoPerson && req.source == "operator" {
        if req.command == "valve" || req.command == "fan" {
          if Extreme(policy.limits, req.value.number) {
            r := RejectRequest(req, NeedsTwoPerson);
            return;
          }
        }
      }
      if sink == null {
        r := RejectRequest(req, NoSink);
        return;
      }
      if delivery.Broken? {
        Record(req, req.value, false, false, SinkError(delivery.error));
        return Errored(delivery.error);
      }
      var st := sink.ApplyCommand(req.device, req.command, req.value);
      Record(req, req.value, clamped, true, Fine);
      r := Accepted(clamped, st);
    }

    method Audit(limit: int) returns (out: seq<Entry>)
      ensures out == LastN(audit, Limit(|audit|, limit))
    {
      out := Query(audit, limit);
    }
  }
}
