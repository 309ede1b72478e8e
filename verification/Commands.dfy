// What both command services take in: float64 values without rounding, loosely
// typed request values, and the actuator envelope
// (api/internal/control/state.go:33-85, :316-361, api/internal/orchestration/orchestrator.go:24-91, :258-290).
module Commands {

  datatype Float = NaN | NegInf | PosInf | Fin(r: real)

  // Any comparison with NaN is false.
  predicate Lt(a: Float, b: Float) {
    match (a, b)
    case (Fin(x), Fin(y)) => x < y
    case (NegInf, Fin(_)) => true
    case (NegInf, PosInf) => true
    case (Fin(_), PosInf) => true
    case _ => false
  }

  predicate Le(a: Float, b: Float) { !a.NaN? && !b.NaN? && !Lt(b, a) }

  predicate Differs(a: Float, b: Float) { a.NaN? || b.NaN? || a != b }

  predicate InBand(v: Float, lo: real, hi: real) { v.Fin? && lo <= v.r <= hi }

  // What a caller may pass. Number is a float64, Narrow a float32, int or int64;
  // for a JSON literal or a text, `number` and `ok` are what the service's numeric
  // parser makes of it.
  datatype Value = Number(number: Float) | Narrow(number: Float) | Json(number: Float, ok: bool)
                 | Text(text: string, number: Float, ok: bool) | Flag(flag: bool) | Other

  predicate IsBoolean(v: Value) { v.Flag? || v.Text? || v.Number? }

  predicate ToBool(v: Value) {
    match v
    case Flag(b) => b
    case Text(t, _, _) => t == "true" || t == "1" || t == "on"
    case Number(f) => Differs(f, Fin(0.0))
    case _ => false
  }

  // What counts as on: a true flag, one of three texts, a float64 other than zero.
  lemma OnIff(v: Value)
    ensures ToBool(v) <==> v == Flag(true) || (v.Number? && v.number != Fin(0.0))
                           || (v.Text? && v.text in {"true", "1", "on"})
    ensures ToBool(v) ==> IsBoolean(v)
    ensures IsBoolean(v) <==> !v.Narrow? && !v.Json? && !v.Other?
  {
  }

  // Comparison is that of float64: NaN is below nothing, nothing is below NaN, and the
  // rest is ordered with the infinities at the ends.
  lemma LtOrders(a: Float, b: Float)
    ensures a.NaN? || b.NaN? ==> !Lt(a, b) && !Le(a, b) && Differs(a, b)
    ensures !a.NaN? && !b.NaN? ==> (Lt(a, b) || Lt(b, a) <==> a != b) && !(Lt(a, b) && Lt(b, a))
    ensures !a.NaN? && !b.NaN? ==> (Le(a, b) <==> Lt(a, b) || a == b) && (Differs(a, b) <==> a != b)
    ensures a.NegInf? && !b.NaN? ==> Le(a, b)
    ensures b.PosInf? && !a.NaN? ==> Le(a, b)
    ensures a.Fin? && b.Fin? ==> (Lt(a, b) <==> a.r < b.r)
  {
  }

  datatype Limits = Limits(critAirTempC: real, warnAirTempC: real, minAirTempC: real,
                           minValve: real, maxValve: real, minFan: real, maxFan: real,
                           minDischarge: real, maxDischarge: real)

  const UNSET := Limits(0.0, 0.0, 0.0, 0.0, 0.0, 0.0, 0.0, 0.0, 0.0)
  const DEFAULTS := Limits(45.0, 35.0, 5.0, 0.0, 100.0, 0.0, 100.0, 0.0, 100.0)

  predicate Ordered(l: Limits) {
    l.minValve <= l.maxValve && l.minFan <= l.maxFan && l.minDischarge <= l.maxDischarge
  }

  const CHANNELS := {"valve", "fan", "discharge_limit", "outlet"}

  function Band(l: Limits, command: string): (real, real) {
    if command == "valve" then (l.minValve, l.maxValve)
    else if command == "fan" then (l.minFan, l.maxFan)
    else (l.minDischarge, l.maxDischarge)
  }
}
