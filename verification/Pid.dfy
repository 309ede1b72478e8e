// Discrete PID controller with a bounded integral (rust-edge/src/control/pid.rs).
module Pid {
  import opened Reals
  import opened Hal

  datatype Gains = Gains(kp: real, ki: real, kd: real, setpoint: real, outMin: real, outMax: real,
                         integralLimit: real)

  datatype Memory = Memory(integral: real, prevError: real)

  function NewGains(kp: real, ki: real, kd: real, setpoint: real, outMin: real, outMax: real): Gains {
    var span := Abs(outMax - outMin);
    Gains(kp, ki, kd, setpoint, outMin, outMax, if span < 1.0 then 1.0 else span)
  }

  // The two clamps of `update` are defined.
  predicate Usable(g: Gains) { g.outMin <= g.outMax && g.integralLimit >= 0.0 }

  function NextIntegral(g: Gains, integral: real, measurement: real, dt: real): real
    requires Usable(g)
  {
    var dt' := if dt < 0.0 then 0.0 else dt;
    Clamp(integral + (measurement - g.setpoint) * dt', -g.integralLimit, g.integralLimit)
  }

  function Derivative(error: real, prevError: real, dt: real): real {
    if dt > 0.0 then (error - prevError) / dt else 0.0
  }

  // One of the three terms.
  function Term(gain: real, x: real): real { gain * x }

  function Output(g: Gains, error: real, integral: real, derivative: real): real
    requires Usable(g)
  {
    Clamp(Term(g.kp, error) + Term(g.ki, integral) + Term(g.kd, derivative), g.outMin, g.outMax)
  }

  function Update(g: Gains, m: Memory, measurement: real, dt: real): (Memory, real)
    requires Usable(g)
  {
    var error := measurement - g.setpoint;
    var integral := NextIntegral(g, m.integral, measurement, dt);
    (Memory(integral, error), Output(g, error, integral, Derivative(error, m.prevError, dt)))
  }

  class PidController {
    const gains: Gains
    var integral: real
    var prevError: real

    function View(): Memory
      reads this
    {
      Memory(integral, prevError)
    }

    constructor (kp: real, ki: real, kd: real, setpoint: real, outMin: real, outMax: real)
      ensures gains == NewGains(kp, ki, kd, setpoint, outMin, outMax) && View() == Memory(0.0, 0.0)
      ensures gains.kp == kp && gains.ki == ki && gains.kd == kd && gains.setpoint == setpoint
      ensures gains.outMin == outMin && gains.outMax == outMax
      ensures gains.integralLimit >= 1.0
              && (gains.integralLimit == 1.0 || gains.integralLimit == Abs(outMax - outMin) >= 1.0)
              && gains.integralLimit >= Abs(outMax - outMin)
    {
      gains := NewGains(kp, ki, kd, setpoint, outMin, outMax);
      integral, prevError := 0.0, 0.0;
    }

    method Reset()
      modifies this
      ensures View() == Memory(0.0, 0.0)
    {
      integral := 0.0;
      prevError := 0.0;
    }

    method Step(measurement: real, dtRaw: real) returns (out: real)
      requires Usable(gains)
      modifies this
      ensures (View(), out) == Update(gains, old(View()), measurement, dtRaw)
    {
      ghost var was := View();
      var error := measurement - gains.setpoint;
      var dt := if dtRaw < 0.0 then 0.0 else dtRaw;
      Accumulate(error, dt);
      var derivative := Derivative(error, prevError, dt);
      prevError := error;
      assert integral == NextIntegral(gains, was.integral, measurement, dtRaw);
      assert derivative == Derivative(error, was.prevError, dtRaw);
      hide Term, NextIntegral, Derivative, Clamp;
      var raw := Term(gains.kp, error) + Term(gains.ki, integral) + Term(gains.kd, derivative);
      out := Clamp(raw, gains.outMin, gains.outMax);
    }

    method Accumulate(error: real, dt: real)
      requires Usable(gains)
      modifies this`integral
      ensures integral == Clamp(old(integral) + error * dt, -gains.integralLimit, gains.integralLimit)
    {
      integral := integral + error * dt;
      integral := Clamp(integral, -gains.integralLimit, gains.integralLimit);
    }
  }

  // ---- The direction of control --------------------------------------------

  lemma TermMonotone(gain: real, a: real, b: real)
    requires gain >= 0.0 && a <= b
    ensures Term(gain, a) <= Term(gain, b)
  {
    Scaled(gain, a, b);
  }

  lemma IntegralMonotone(g: Gains, integral: real, m1: real, m2: real, dt: real)
    requires Usable(g) && m1 <= m2
    ensures NextIntegral(g, integral, m1, dt) <= NextIntegral(g, integral, m2, dt)
  {
    var dt' := if dt < 0.0 then 0.0 else dt;
    var (x1, x2) := ((m1 - g.setpoint) * dt', (m2 - g.setpoint) * dt');
    Scaled(dt', m1 - g.setpoint, m2 - g.setpoint);
    ClampMonotone(integral + x1, integral + x2, -g.integralLimit, g.integralLimit);
    hide Clamp;
  }

  lemma DerivativeMonotone(e1: real, e2: real, prevError: real, dt: real)
    requires e1 <= e2
    ensures Derivative(e1, prevError, dt) <= Derivative(e2, prevError, dt)
  {
    if dt > 0.0 {
      var inverse := 1.0 / dt;
      Scaled(inverse, e1 - prevError, e2 - prevError);
      assert (e1 - prevError) / dt == inverse * (e1 - prevError);
      assert (e2 - prevError) / dt == inverse * (e2 - prevError);
    }
  }

  lemma OutputMonotone(g: Gains, e1: real, i1: real, d1: real, e2: real, i2: real, d2: real)
    requires Usable(g) && g.kp >= 0.0 && g.ki >= 0.0 && g.kd >= 0.0
    requires e1 <= e2 && i1 <= i2 && d1 <= d2
    ensures Output(g, e1, i1, d1) <= Output(g, e2, i2, d2)
  {
    TermMonotone(g.kp, e1, e2);
    TermMonotone(g.ki, i1, i2);
    TermMonotone(g.kd, d1, d2);
    hide Term;
  }

  // With gains that are not negative, from the same past a hotter measurement
  // never asks for less cooling.
  lemma HotterAsksMore(g: Gains, m: Memory, m1: real, m2: real, dt: real)
    requires Usable(g) && g.kp >= 0.0 && g.ki >= 0.0 && g.kd >= 0.0 && m1 <= m2
    ensures Update(g, m, m1, dt).1 <= Update(g, m, m2, dt).1
  {
    var (e1, e2) := (m1 - g.setpoint, m2 - g.setpoint);
    IntegralMonotone(g, m.integral, m1, m2, dt);
    DerivativeMonotone(e1, e2, m.prevError, dt);
    hide NextIntegral, Derivative, Output;
    OutputMonotone(g, e1, NextIntegral(g, m.integral, m1, dt), Derivative(e1, m.prevError, dt),
                   e2, NextIntegral(g, m.integral, m2, dt), Derivative(e2, m.prevError, dt));
  }

  // ---- Bounded memory over whole runs --------------------------------------

  datatype Sample = Sample(measurement: real, dt: real)

  function Run(g: Gains, m: Memory, samples: seq<Sample>): Memory
    requires Usable(g)
  {
    if samples == [] then m
    else
      var s := samples[|samples| - 1];
      Update(g, Run(g, m, samples[..|samples| - 1]), s.measurement, s.dt).0
  }

  // A controller as `new` makes it never exceeds its integral bound, and no
  // output ever leaves the actuator range.
  lemma {:induction false} IntegralBounded(g: Gains, m: Memory, samples: seq<Sample>, next: Sample)
    requires Usable(g) && Abs(m.integral) <= g.integralLimit
    ensures Abs(Run(g, m, samples).integral) <= g.integralLimit
    ensures g.outMin <= Update(g, Run(g, m, samples), next.measurement, next.dt).1 <= g.outMax
  {
    if samples != [] {
      IntegralBounded(g, m, samples[..|samples| - 1], next);
    }
  }

  // One update never moves two integrals further apart.
  lemma UpdateContracts(g: Gains, a: real, b: real, measurement: real, dt: real)
    requires Usable(g)
    ensures Abs(NextIntegral(g, a, measurement, dt) - NextIntegral(g, b, measurement, dt)) <= Abs(a - b)
  {
  }

  // Two controllers with different pasts, fed the same samples, never drift apart.
  lemma {:induction false} PastFades(g: Gains, m1: Memory, m2: Memory, samples: seq<Sample>)
    requires Usable(g)
    ensures Abs(Run(g, m1, samples).integral - Run(g, m2, samples).integral) <= Abs(m1.integral - m2.integral)
  {
    if samples != [] {
      var front := samples[..|samples| - 1];
      PastFades(g, m1, m2, front);
      var s := samples[|samples| - 1];
      UpdateContracts(g, Run(g, m1, front).integral, Run(g, m2, front).integral, s.measurement, s.dt);
    }
  }

  // Every sample lies at least `e` below the setpoint and lasts at least `d`.
  ghost predicate Cold(g: Gains, samples: seq<Sample>, e: real, d: real) {
    forall i :: 0 <= i < |samples| ==>
      samples[i].measurement - g.setpoint <= -e && samples[i].dt >= d
  }

  lemma ColdStep(g: Gains, integral: real, s: Sample, e: real, d: real)
    requires Usable(g) && e > 0.0 && d > 0.0
    requires s.measurement - g.setpoint <= -e && s.dt >= d
    ensures NextIntegral(g, integral, s.measurement, s.dt) == -g.integralLimit
         || NextIntegral(g, integral, s.measurement, s.dt) <= integral - e * d
  {
    var err := g.setpoint - s.measurement;
    assert err * s.dt >= e * s.dt >= e * d;
    assert (s.measurement - g.setpoint) * s.dt == -(err * s.dt);
  }

  lemma Succ(n: nat, p: real)
    ensures (n + 1) as real * p == n as real * p + p
  {
  }

  lemma LowestIsLowest(g: Gains, integral: real, measurement: real, dt: real)
    requires Usable(g)
    ensures NextIntegral(g, integral, measurement, dt) >= -g.integralLimit
  {
  }

  lemma ColdNext(g: Gains, integral: real, s: Sample, e: real, d: real, step: real, bound: real)
    requires Usable(g) && e > 0.0 && d > 0.0 && step == e * d
    requires s.measurement - g.setpoint <= -e && s.dt >= d
    requires integral == -g.integralLimit || integral <= bound
    ensures var next := NextIntegral(g, integral, s.measurement, s.dt);
            next == -g.integralLimit || next <= bound - step
  {
    hide NextIntegral;
    assert step > 0.0;
    ColdStep(g, integral, s, e, d);
    LowestIsLowest(g, integral, s.measurement, s.dt);
  }

  // How low the integral is after `n` cold samples, unless it is pinned already.
  function ColdBound(start: real, n: nat, step: real): real { start - n as real * step }

  lemma ColdBoundNext(start: real, n: nat, step: real)
    ensures ColdBound(start, n + 1, step) == ColdBound(start, n, step) - step
  {
    Succ(n, step);
  }

  lemma {:induction false} ColdRun(g: Gains, m: Memory, samples: seq<Sample>, e: real, d: real, step: real)
    requires Usable(g) && e > 0.0 && d > 0.0 && step == e * d
    requires Cold(g, samples, e, d)
    ensures var i := Run(g, m, samples).integral;
            samples == [] || i == -g.integralLimit || i <= ColdBound(m.integral, |samples|, step)
  {
    if samples != [] {
      var front := samples[..|samples| - 1];
      var s := samples[|samples| - 1];
      ColdRun(g, m, front, e, d, step);
      assert front == [] ==> ColdBound(m.integral, 0, step) == m.integral;
      assert Run(g, m, samples).integral == NextIntegral(g, Run(g, m, front).integral, s.measurement, s.dt);
      assert front == [] ==> Run(g, m, front).integral == m.integral;
      hide NextIntegral, Run, ColdBound;
      ColdNext(g, Run(g, m, front).integral, s, e, d, step, ColdBound(m.integral, |front|, step));
      ColdBoundNext(m.integral, |front|, step);
    }
  }

  lemma PinnedBy(g: Gains, m: Memory, samples: seq<Sample>, e: real, d: real, step: real)
    requires Usable(g) && e > 0.0 && d > 0.0 && step == e * d && Abs(m.integral) <= g.integralLimit
    requires Cold(g, samples, e, d)
    requires |samples| as real * step >= 2.0 * g.integralLimit
    ensures Run(g, m, samples).integral == -g.integralLimit
  {
    if samples == [] {
      assert 0 as real * step == 0.0;
    } else {
      var x := |samples| as real * step;
      assert ColdBound(m.integral, |samples|, step) == m.integral - x;
      hide Run, Cold, Update, ColdBound;
      ColdRun(g, m, samples, e, d, step);
      IntegralBounded(g, m, samples, Sample(0.0, 0.0));
    }
  }

  // Long enough below the setpoint, the integral is at its lower bound whatever
  // came before: k samples with k * e * d >= 2 * limit suffice.
  lemma ColdPins(g: Gains, m: Memory, samples: seq<Sample>, e: real, d: real)
    requires Usable(g) && e > 0.0 && d > 0.0 && Abs(m.integral) <= g.integralLimit
    requires Cold(g, samples, e, d) && |samples| as real * (e * d) >= 2.0 * g.integralLimit
    ensures Run(g, m, samples).integral == -g.integralLimit
  {
    PinnedBy(g, m, samples, e, d, e * d);
  }

  // ---- What the integral is ------------------------------------------------

  // One sample's share of the error summed over time; a clock that steps back adds none.
  function Share(g: Gains, s: Sample): real {
    (s.measurement - g.setpoint) * (if s.dt < 0.0 then 0.0 else s.dt)
  }

  function Accumulated(g: Gains, samples: seq<Sample>): real {
    if samples == [] then 0.0
    else Accumulated(g, samples[..|samples| - 1]) + Share(g, samples[|samples| - 1])
  }

  lemma NextSum(g: Gains, integral: real, s: Sample)
    requires Usable(g) && Abs(integral + Share(g, s)) <= g.integralLimit
    ensures NextIntegral(g, integral, s.measurement, s.dt) == integral + Share(g, s)
  {
    var x := Share(g, s);
    assert NextIntegral(g, integral, s.measurement, s.dt) == Clamp(integral + x, -g.integralLimit, g.integralLimit);
    hide Share, NextIntegral;
  }

  // As long as it never meets its limit, the integral is the error summed over time.
  lemma {:induction false} IntegralIsSum(g: Gains, m: Memory, samples: seq<Sample>)
    requires Usable(g)
    requires forall n :: 0 <= n <= |samples| ==> Abs(m.integral + Accumulated(g, samples[..n])) <= g.integralLimit
    ensures Run(g, m, samples).integral == m.integral + Accumulated(g, samples)
  {
    assert samples[..|samples|] == samples;
    if samples != [] {
      var n := |samples| - 1;
      var s := samples[n];
      forall k | 0 <= k <= n ensures Abs(m.integral + Accumulated(g, samples[..n][..k])) <= g.integralLimit {
        assert samples[..n][..k] == samples[..k];
      }
      IntegralIsSum(g, m, samples[..n]);
      assert Run(g, m, samples).integral == NextIntegral(g, Run(g, m, samples[..n]).integral, s.measurement, s.dt);
      assert Accumulated(g, samples) == Accumulated(g, samples[..n]) + Share(g, s);
      hide NextIntegral, Share, Run, Accumulated;
      NextSum(g, m.integral + Accumulated(g, samples[..n]), s);
    }
  }

  // ---- The control law -----------------------------------------------------

  // At and beyond its limits too, the integral is what it was plus the sample's share,
  // or the limit that this passes.
  lemma IntegralIsBounded(g: Gains, m: Memory, s: Sample)
    requires Usable(g)
    ensures Update(g, m, s.measurement, s.dt).0.integral
         == Clamp(m.integral + Share(g, s), -g.integralLimit, g.integralLimit)
  {
    var x := Share(g, s);
    hide Output, Clamp;
  }

  function LastError(g: Gains, m: Memory, samples: seq<Sample>): real {
    if samples == [] then m.prevError else samples[|samples| - 1].measurement - g.setpoint
  }

  // The error of the last sample is remembered.
  lemma ErrorIsLast(g: Gains, m: Memory, samples: seq<Sample>)
    requires Usable(g)
    ensures Run(g, m, samples).prevError == LastError(g, m, samples)
  {
    hide NextIntegral, Output;
  }

  // Error, error so far, and rate of change of the error, each with its own gain.
  function Weighed(g: Gains, error: real, soFar: real, rate: real): real {
    g.kp * error + g.ki * soFar + g.kd * rate
  }

  // While the integral meets no limit, the answer to the last sample is, within the
  // actuator's range, proportional gain times error, plus integral gain times all the
  // error so far, plus derivative gain times the error's rate of change.
  lemma ControlLaw(g: Gains, m: Memory, samples: seq<Sample>, s: Sample)
    requires Usable(g)
    requires forall n :: 0 <= n <= |samples| + 1 ==>
               Abs(m.integral + Accumulated(g, (samples + [s])[..n])) <= g.integralLimit
    ensures var e := s.measurement - g.setpoint;
            var rate := if s.dt > 0.0 then (e - LastError(g, m, samples)) / s.dt else 0.0;
            Update(g, Run(g, m, samples), s.measurement, s.dt).1
            == Clamp(Weighed(g, e, m.integral + Accumulated(g, samples + [s]), rate), g.outMin, g.outMax)
  {
    hide *;
    IntegralAfter(g, m, samples, s);
    ErrorIsLast(g, m, samples);
    LawOf(g, Run(g, m, samples), s, m.integral + Accumulated(g, samples + [s]), LastError(g, m, samples));
  }

  lemma IntegralAfter(g: Gains, m: Memory, samples: seq<Sample>, s: Sample)
    requires Usable(g)
    requires forall n :: 0 <= n <= |samples| + 1 ==>
               Abs(m.integral + Accumulated(g, (samples + [s])[..n])) <= g.integralLimit
    ensures Update(g, Run(g, m, samples), s.measurement, s.dt).0.integral == m.integral + Accumulated(g, samples + [s])
  {
    var all := samples + [s];
    assert all[..|samples|] == samples;
    assert Run(g, m, all) == Update(g, Run(g, m, samples), s.measurement, s.dt).0;
    hide Run, Update, Accumulated, Abs;
    IntegralIsSum(g, m, all);
  }

  lemma LawOf(g: Gains, past: Memory, s: Sample, integral: real, last: real)
    requires Usable(g) && past.prevError == last && Update(g, past, s.measurement, s.dt).0.integral == integral
    ensures var e := s.measurement - g.setpoint;
            var rate := if s.dt > 0.0 then (e - last) / s.dt else 0.0;
            Update(g, past, s.measurement, s.dt).1
            == Clamp(Weighed(g, e, integral, rate), g.outMin, g.outMax)
  {
    hide NextIntegral, Clamp;
    var e := s.measurement - g.setpoint;
    var rate := Derivative(e, last, s.dt);
    assert rate == if s.dt > 0.0 then (e - last) / s.dt else 0.0;
    hide Derivative;
    assert Term(g.kp, e) == g.kp * e && Term(g.ki, integral) == g.ki * integral && Term(g.kd, rate) == g.kd * rate;
  }
}
