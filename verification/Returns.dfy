// Discounted returns and the world they are earned in
// (ai-brain/src/rl.rs:202-230, ai-brain/src/train.rs:41-124, ai-brain/src/model.rs:278-290).
module Returns {
  import opened Reals
  import opened Hal
  import opened Guardrails

  // ---- Discounting ---------------------------------------------------------

  // The sum of gamma^i * rs[i].
  function Discounted(rs: seq<real>, gamma: real): real {
    if rs == [] then 0.0
    else Discounted(rs[..|rs| - 1], gamma) + Power(gamma, |rs| - 1) * rs[|rs| - 1]
  }

  lemma ScaleSum(g: real, a: real, p: real, x: real)
    ensures g * (a + p * x) == g * a + (g * p) * x
  {
  }

  // What is earned now, and a discounted share of what is earned later.
  lemma {:induction false} DiscountedHead(rs: seq<real>, gamma: real)
    requires rs != []
    ensures Discounted(rs, gamma) == rs[0] + gamma * Discounted(rs[1..], gamma)
  {
    var n := |rs| - 1;
    if n == 0 {
      assert rs[..0] == [] && rs[1..] == [];
      assert Power(gamma, 0) * rs[0] == rs[0];
    } else {
      DiscountedHead(rs[..n], gamma);
      assert rs[1..][..n - 1] == rs[..n][1..];
      ScaleSum(gamma, Discounted(rs[..n][1..], gamma), Power(gamma, n - 1), rs[n]);
    }
  }

  // The backward pass leaves in each cell the discounted sum of the rewards from there on.
  method DiscountedReturns(rewards: seq<real>, gamma: real) returns (discounted: array<real>)
    ensures fresh(discounted) && discounted.Length == |rewards|
    ensures forall t :: 0 <= t < |rewards| ==> discounted[t] == Discounted(rewards[t..], gamma)
  {
    var g := 0.0;
    discounted := new real[|rewards|];
    var t := |rewards|;
    while t > 0
      invariant 0 <= t <= |rewards| && g == Discounted(rewards[t..], gamma)
      invariant forall k :: t <= k < |rewards| ==> discounted[k] == Discounted(rewards[k..], gamma)
    {
      t := t - 1;
      DiscountedHead(rewards[t..], gamma);
      assert rewards[t..][1..] == rewards[t + 1..];
      g := rewards[t] + gamma * g;
      discounted[t] := g;
    }
  }

  ghost predicate Within(rs: seq<real>, bound: real) { forall i :: 0 <= i < |rs| ==> -bound <= rs[i] <= 0.0 }

  lemma ScaleFloor(gamma: real, limit: real, p: real)
    ensures gamma * (-limit + limit * p) == -(gamma * limit) + limit * (gamma * p)
  {
    assert gamma * (limit * p) == limit * (gamma * p);
    ScaleSum(gamma, -limit, limit, p);
  }

  lemma FloorStep(r: real, rest: real, gamma: real, bound: real, limit: real, p: real)
    requires 0.0 <= gamma && limit == bound + gamma * limit && -bound <= r <= 0.0
    requires -limit + limit * p <= rest <= 0.0
    ensures -limit + limit * (gamma * p) <= r + gamma * rest <= 0.0
  {
    Scaled(gamma, -limit + limit * p, rest);
    Scaled(gamma, rest, 0.0);
    ScaleFloor(gamma, limit, p);
  }

  lemma FloorAtStart(limit: real, gamma: real)
    ensures -limit + limit * Power(gamma, 0) <= Discounted([], gamma) <= 0.0
  {
    assert limit * 1.0 == limit;
  }

  lemma PowerStep(gamma: real, n: nat)
    requires n > 0
    ensures Power(gamma, n) == gamma * Power(gamma, n - 1)
  {
  }

  // With rewards between -bound and 0, and limit = bound / (1 - gamma), the return
  // over n steps is at most the geometric sum limit * (1 - gamma^n) below 0.
  lemma {:induction false} GeometricBound(rs: seq<real>, gamma: real, bound: real, limit: real)
    requires 0.0 <= gamma && limit == bound + gamma * limit && Within(rs, bound)
    ensures -limit + limit * Power(gamma, |rs|) <= Discounted(rs, gamma) <= 0.0
  {
    hide Discounted, Power;
    if rs == [] {
      FloorAtStart(limit, gamma);
    } else {
      GeometricBound(rs[1..], gamma, bound, limit);
      DiscountedHead(rs, gamma);
      PowerStep(gamma, |rs|);
      FloorStep(rs[0], Discounted(rs[1..], gamma), gamma, bound, limit, Power(gamma, |rs| - 1));
    }
  }

  lemma {:induction false} PowerNonNegative(gamma: real, n: nat)
    requires 0.0 <= gamma
    ensures 0.0 <= Power(gamma, n)
  {
    if n > 0 {
      PowerNonNegative(gamma, n - 1);
      Scaled(gamma, 0.0, Power(gamma, n - 1));
    }
  }

  lemma Quotient(bound: real, gamma: real)
    requires 0.0 <= gamma < 1.0 && 0.0 <= bound
    ensures var limit := bound / (1.0 - gamma); limit == bound + gamma * limit && limit >= 0.0
  {
    var limit := bound / (1.0 - gamma);
    assert limit * (1.0 - gamma) == bound;
    if limit < 0.0 { Scaled(1.0 - gamma, limit, 0.0); }
  }

  // Whatever the horizon, no return falls below -bound / (1 - gamma).
  lemma HorizonFreeBound(rs: seq<real>, gamma: real, bound: real)
    requires 0.0 <= gamma < 1.0 && 0.0 <= bound && Within(rs, bound)
    ensures -(bound / (1.0 - gamma)) <= Discounted(rs, gamma) <= 0.0
  {
    var limit := bound / (1.0 - gamma);
    Quotient(bound, gamma);
    GeometricBound(rs, gamma, bound, limit);
    PowerNonNegative(gamma, |rs|);
    Scaled(limit, 0.0, Power(gamma, |rs|));
    hide Discounted, Power, Within;
  }

  // ---- The mock world ------------------------------------------------------

  function Square(x: real): real { x * x }

  function ThermalCost(tempC: real, a: Action, setpointC: real): real {
    (if tempC > setpointC then Square(tempC - setpointC) else 0.0)
    + 0.1 * (0.6 * a.valve + 0.4 * a.fan)
  }

  datatype World = World(tempC: real, itLoad: real, coolantTemp: real, ambient: real)

  function Gap(w: World): real { if w.tempC - w.coolantTemp > 0.0 then w.tempC - w.coolantTemp else 0.0 }

  // Heat in, less cooling, and the pull towards ambient.
  function Net(w: World, a: Action): real {
    w.itLoad * 0.8 - (a.valve * 0.5 + a.fan * 0.3) * Gap(w) + 0.02 * (w.ambient - w.tempC)
  }

  function Stepped(w: World, a: Action, dt: real): (w': World)
    ensures 0.0 <= w'.tempC <= 80.0
  {
    w.(tempC := Clamp(w.tempC + Net(w, a) * dt * 0.05, 0.0, 80.0))
  }

  function Observed(w: World, setpointC: real): Observation {
    Observation((w.tempC - setpointC) / 10.0, Clamp((w.ambient - 10.0) / 35.0, 0.0, 1.0), w.itLoad, 0.8, 0.5, 0.5,
                Clamp((w.coolantTemp - 10.0) / 20.0, 0.0, 1.0), 1.0)
  }

  function WorldAfter(w: World, actions: seq<Action>, dt: real): World {
    if actions == [] then w
    else Stepped(WorldAfter(w, actions[..|actions| - 1], dt), actions[|actions| - 1], dt)
  }

  // What each step of a rollout earns: the negated cost.
  function Rewards(w: World, actions: seq<Action>, setpointC: real, dt: real): (rs: seq<real>)
    ensures |rs| == |actions|
  {
    if actions == [] then []
    else
      var front := actions[..|actions| - 1];
      var a := actions[|actions| - 1];
      Rewards(w, front, setpointC, dt) + [-ThermalCost(WorldAfter(w, actions, dt).tempC, a, setpointC)]
  }

  function Excess(setpointC: real): real { if setpointC < 80.0 then 80.0 - setpointC else 0.0 }

  function WorstCost(setpointC: real): real { Square(Excess(setpointC)) + 0.1 }

  lemma SquareMonotone(x: real, y: real)
    requires 0.0 <= x <= y
    ensures 0.0 <= Square(x) <= Square(y)
  {
    Scaled(x, 0.0, x);
    Scaled(x, x, y);
    Scaled(y, x, y);
  }

  lemma SquarePositive(x: real)
    requires x > 0.0
    ensures Square(x) > 0.0
  {
    ProductPositive(x, x, Square(x));
  }

  lemma ProductPositive(x: real, y: real, product: real)
    requires x > 0.0 && y > 0.0 && product == x * y
    ensures product > 0.0
  {
  }

  lemma SquareSign(x: real)
    requires x >= 0.0
    ensures Square(x) >= 0.0 && (Square(x) == 0.0 <==> x == 0.0)
  {
    assert Square(0.0) == 0.0;
    hide Square;
    if x > 0.0 { SquarePositive(x); }
  }

  // The cost as the square of the excess plus the price of the effort.
  lemma CostSplits(tempC: real, a: Action, setpointC: real)
    ensures var x := if tempC > setpointC then tempC - setpointC else 0.0;
            ThermalCost(tempC, a, setpointC) == Square(x) + 0.1 * (0.6 * a.valve + 0.4 * a.fan)
  {
    SquareSign(0.0);
    hide Square;
  }

  lemma CostBound(tempC: real, a: Action, setpointC: real)
    requires tempC <= 80.0 && IsUnit(a)
    ensures 0.0 <= ThermalCost(tempC, a, setpointC) <= WorstCost(setpointC)
  {
    CostSplits(tempC, a, setpointC);
    SquareMonotone(if tempC > setpointC then tempC - setpointC else 0.0, Excess(setpointC));
    hide Square, ThermalCost;
  }

  lemma {:induction false} RewardsWithin(w: World, actions: seq<Action>, setpointC: real, dt: real)
    requires forall i :: 0 <= i < |actions| ==> IsUnit(actions[i])
    ensures Within(Rewards(w, actions, setpointC, dt), WorstCost(setpointC))
  {
    if actions != [] {
      RewardsWithin(w, actions[..|actions| - 1], setpointC, dt);
      CostBound(WorldAfter(w, actions, dt).tempC, actions[|actions| - 1], setpointC);
      hide ThermalCost, WorstCost, Stepped;
    }
  }

  // Any rollout of clamped actions, of any length, from any world, at any step:
  // every return the trainer computes lies between -(excess^2 + 0.1) / (1 - gamma) and 0.
  lemma ReturnsBounded(w: World, actions: seq<Action>, setpointC: real, dt: real, gamma: real, t: nat)
    requires (forall i :: 0 <= i < |actions| ==> IsUnit(actions[i])) && 0.0 <= gamma < 1.0 && t <= |actions|
    ensures -(WorstCost(setpointC) / (1.0 - gamma)) <= Discounted(Rewards(w, actions, setpointC, dt)[t..], gamma) <= 0.0
  {
    RewardsWithin(w, actions, setpointC, dt);
    CostBound(80.0, Action(0.0, 0.0), setpointC);
    HorizonFreeBound(Rewards(w, actions, setpointC, dt)[t..], gamma, WorstCost(setpointC));
  }

  // The bound on the cost is met: hottest world, full effort.
  lemma CostIsTight(setpointC: real)
    requires setpointC <= 80.0
    ensures ThermalCost(80.0, Action(1.0, 1.0), setpointC) == WorstCost(setpointC)
  {
  }

  // Only a rack at or below its setpoint that is left alone costs nothing.
  lemma FreeIff(tempC: real, a: Action, setpointC: real)
    requires IsUnit(a)
    ensures ThermalCost(tempC, a, setpointC) == 0.0 <==> tempC <= setpointC && a == Action(0.0, 0.0)
  {
    CostSplits(tempC, a, setpointC);
    SquareSign(if tempC > setpointC then tempC - setpointC else 0.0);
    hide Square, ThermalCost;
  }

  // Valve effort costs 0.06 at the full, fan effort 0.04, whatever the temperature; the
  // excess over the setpoint costs its square, and temperatures below it nothing.
  lemma CostParts(tempC: real, a: Action, setpointC: real)
    ensures var idle := ThermalCost(tempC, Action(0.0, 0.0), setpointC);
            && ThermalCost(tempC, a, setpointC) - idle == 0.06 * a.valve + 0.04 * a.fan
            && (tempC <= setpointC ==> idle == 0.0)
            && (tempC >= setpointC ==> idle == Square(tempC - setpointC))
    ensures Square(10.0) == 100.0
    ensures forall x: real, k: real :: Square(k * x) == Square(k) * Square(x)
  {
    SquareSign(0.0);
    forall x: real, k: real ensures Square(k * x) == Square(k) * Square(x) { SquareScales(k, x); }
    hide Square;
  }

  lemma SquareScales(k: real, x: real)
    ensures Square(k * x) == Square(k) * Square(x)
  {
    assert (k * x) * (k * x) == (k * k) * (x * x);
  }

  // Each step is paid for at the temperature it leads to.
  lemma {:induction false} RewardsAt(w: World, actions: seq<Action>, setpointC: real, dt: real, i: nat)
    requires i < |actions|
    ensures Rewards(w, actions, setpointC, dt)[i]
         == -ThermalCost(WorldAfter(w, actions[..i + 1], dt).tempC, actions[i], setpointC)
  {
    var n := |actions| - 1;
    if i < n {
      RewardsAt(w, actions[..n], setpointC, dt, i);
      assert actions[..n][..i + 1] == actions[..i + 1];
    } else {
      assert actions[..i + 1] == actions;
    }
  }

  // ---- What the mock world does --------------------------------------------

  // A product kept as one term, for the order arguments below.
  function Times(x: real, y: real): real { x * y }

  // The pull of an action, and the coefficient of one Euler step.
  function Pull(a: Action): real { a.valve * 0.5 + a.fan * 0.3 }

  function Coefficient(dt: real): real { dt * 0.05 }

  // The distance to the balance shrunk by the factor 1 - k * x.
  function Contracted(temp: real, balance: real, k: real, x: real): real {
    balance + (1.0 - k * x) * (temp - balance)
  }

  // Above the coolant temperature a step contracts the distance to the balance of
  // load, coolant and ambient, unless it runs into the ends of the scale.
  lemma StepRelaxes(w: World, a: Action, dt: real)
    requires IsUnit(a) && w.tempC >= w.coolantTemp
    ensures Stepped(w, a, dt).tempC
         == Clamp(Contracted(w.tempC, Balance(w, a), Pull(a) + 0.02, Coefficient(dt)), 0.0, 80.0)
  {
    NetRelaxes(w, a);
    StepScaled(w, a, dt);
    hide Net, Pull, Coefficient, Stepped, Gap, Balance, Times, Contracted;
    Contracts(Pull(a) + 0.02, Balance(w, a), w.tempC, Coefficient(dt), Net(w, a));
  }

  // The temperature at which heat in equals heat out.
  function Balance(w: World, a: Action): real
    requires IsUnit(a)
  {
    (w.itLoad * 0.8 + Pull(a) * w.coolantTemp + 0.02 * w.ambient) / (Pull(a) + 0.02)
  }

  lemma NetRelaxes(w: World, a: Action)
    requires IsUnit(a) && w.tempC >= w.coolantTemp
    ensures Net(w, a) == (Pull(a) + 0.02) * (Balance(w, a) - w.tempC)
  {
    NetIs(w, a);
    assert Gap(w) == w.tempC - w.coolantTemp;
    var forcing := w.itLoad * 0.8 + Pull(a) * w.coolantTemp + 0.02 * w.ambient;
    Quotes(forcing, Pull(a) + 0.02);
    hide Net, Pull, Gap;
    NetPull(Pull(a), w.tempC, w.coolantTemp, w.ambient, w.itLoad * 0.8, Balance(w, a), Net(w, a));
  }

  lemma Quotes(x: real, k: real)
    requires k > 0.0
    ensures k * (x / k) == x
  {
  }

  lemma StepScaled(w: World, a: Action, dt: real)
    ensures Stepped(w, a, dt).tempC == Clamp(w.tempC + Times(Net(w, a), Coefficient(dt)), 0.0, 80.0)
  {
    var n := Net(w, a);
    hide Net;
    assert n * dt * 0.05 == n * Coefficient(dt);
  }

  lemma NetPull(p: real, temp: real, coolant: real, ambient: real, heat: real, balance: real, net: real)
    requires (p + 0.02) * balance == heat + p * coolant + 0.02 * ambient
    requires net == heat - p * (temp - coolant) + 0.02 * (ambient - temp)
    ensures net == (p + 0.02) * (balance - temp)
  {
    assert p * (temp - coolant) == p * temp - p * coolant;
    assert (p + 0.02) * (balance - temp) == (p + 0.02) * balance - (p * temp + 0.02 * temp);
  }

  lemma Contracts(k: real, balance: real, temp: real, x: real, net: real)
    requires net == k * (balance - temp)
    ensures temp + Times(net, x) == Contracted(temp, balance, k, x)
  {
    assert net * x == (k * x) * (balance - temp);
  }

  // No hotter, no more loaded, and otherwise alike.
  predicate Milder(w1: World, w2: World) {
    w1.tempC <= w2.tempC && w1.itLoad <= w2.itLoad && w1.coolantTemp == w2.coolantTemp && w1.ambient == w2.ambient
  }

  predicate CoolsMore(a: Action, b: Action) { a.valve >= b.valve && a.fan >= b.fan }

  // At steps short enough not to overshoot, a world that is milder and cooled more
  // stays milder.
  lemma StepKeepsMilder(w1: World, a: Action, w2: World, b: Action, dt: real)
    requires Milder(w1, w2) && CoolsMore(a, b) && IsUnit(a) && IsUnit(b) && 0.0 <= dt <= 24.0
    ensures Milder(Stepped(w1, a, dt), Stepped(w2, b, dt))
  {
    var x := Coefficient(dt);
    assert 0.0 <= x <= 1.2;
    StepScaled(w1, a, dt);
    StepScaled(w2, b, dt);
    NetOrder(w1, a, w2, b);
    hide Net, Pull, Coefficient, Gap, Times;
    EulerOrder(w1.tempC, w2.tempC, Net(w1, a), Net(w2, b), x);
    ClampMonotone(w1.tempC + Times(Net(w1, a), x), w2.tempC + Times(Net(w2, b), x), 0.0, 80.0);
    hide Clamp;
  }

  lemma NetIs(w: World, a: Action)
    ensures Net(w, a) == w.itLoad * 0.8 - Times(Pull(a), Gap(w)) + 0.02 * (w.ambient - w.tempC)
  {
  }

  lemma NetOrder(w1: World, a: Action, w2: World, b: Action)
    requires Milder(w1, w2) && CoolsMore(a, b) && IsUnit(a) && IsUnit(b)
    ensures Net(w1, a) - Net(w2, b) <= 0.82 * (w2.tempC - w1.tempC)
  {
    assert 0.0 <= Pull(b) <= Pull(a) && Pull(b) <= 0.8;
    assert 0.0 <= Gap(w1) <= Gap(w2) && Gap(w2) - Gap(w1) <= w2.tempC - w1.tempC;
    NetIs(w1, a);
    NetIs(w2, b);
    hide Net, Pull, Gap, Times;
    CoolingGrows(Pull(a), Pull(b), Gap(w1), Gap(w2));
  }

  // What the warmer world loses more by cooling is at most 0.8 of how much wider
  // its gap is.
  lemma CoolingGrows(p: real, q: real, g1: real, g2: real)
    requires 0.0 <= q <= p && q <= 0.8 && 0.0 <= g1 <= g2
    ensures Times(q, g2) - Times(p, g1) <= 0.8 * (g2 - g1)
  {
    Scaled(g1, q, p);
    Scaled(g2 - g1, q, 0.8);
    assert (g2 - g1) * q == q * g2 - q * g1;
  }

  lemma ScaleOut(x: real, c: real, d: real)
    ensures x * (c * d) == c * (x * d) == c * (d * x)
  {
  }

  lemma StepNoMore(x: real, m: real, d: real)
    requires 0.0 <= x && m <= 0.82 * d
    ensures Times(x, m) <= 0.82 * Times(x, d)
  {
    Scaled(x, m, 0.82 * d);
    ScaleOut(x, 0.82, d);
  }

  lemma NoOvershoot(x: real, d: real)
    requires 0.0 <= x <= 1.2 && 0.0 <= d
    ensures 0.82 * Times(x, d) <= d
  {
    Scaled(d, 0.82 * x, 1.0);
    ScaleOut(d, 0.82, x);
  }

  lemma Difference(x: real, n1: real, n2: real)
    ensures Times(x, n1 - n2) == Times(n1, x) - Times(n2, x)
  {
  }

  lemma EulerOrder(t1: real, t2: real, n1: real, n2: real, x: real)
    requires t1 <= t2 && n1 - n2 <= 0.82 * (t2 - t1) && 0.0 <= x <= 1.2
    ensures t1 + Times(n1, x) <= t2 + Times(n2, x)
  {
    StepNoMore(x, n1 - n2, t2 - t1);
    NoOvershoot(x, t2 - t1);
    Difference(x, n1, n2);
    hide Times;
  }

  // Over whole rollouts: cooling at least as much at every step, from a start that
  // is no hotter under no more load, never ends hotter.
  lemma {:induction false} MoreCoolingNeverHotter(w1: World, as1: seq<Action>, w2: World, as2: seq<Action>, dt: real)
    requires Milder(w1, w2) && |as1| == |as2| && 0.0 <= dt <= 24.0
    requires forall i :: 0 <= i < |as1| ==> CoolsMore(as1[i], as2[i]) && IsUnit(as1[i]) && IsUnit(as2[i])
    ensures Milder(WorldAfter(w1, as1, dt), WorldAfter(w2, as2, dt))
  {
    if as1 != [] {
      var n := |as1| - 1;
      MoreCoolingNeverHotter(w1, as1[..n], w2, as2[..n], dt);
      StepKeepsMilder(WorldAfter(w1, as1[..n], dt), as1[n], WorldAfter(w2, as2[..n], dt), as2[n], dt);
      hide Stepped, Milder, CoolsMore;
    }
  }

  // Two steps of 20 s from 40 degrees with the valve or the fan alone fully open, under
  // half load.
  lemma MockSteps()
    ensures var w := World(40.0, 0.5, 18.0, 22.0);
            && Stepped(w, Action(1.0, 0.0), 20.0).tempC == 29.04
            && Stepped(w, Action(0.0, 1.0), 20.0).tempC == 33.44
            && Stepped(w, Action(0.0, 0.0), 20.0).tempC == 40.04
  {
  }

  // A step changes the temperature only.
  lemma StepKeepsRest(w: World, a: Action, dt: real)
    ensures Stepped(w, a, dt) == w.(tempC := Stepped(w, a, dt).tempC)
  {
    hide Net;
  }

  // What the normalized observation tells of a world whose surroundings are in range.
  lemma ObservationTells(w: World, setpointC: real)
    requires 10.0 <= w.ambient <= 45.0 && 10.0 <= w.coolantTemp <= 30.0
    ensures var o := Observed(w, setpointC);
            && setpointC + o.tempError * 10.0 == w.tempC
            && 10.0 + o.inletTemp * 35.0 == w.ambient && 10.0 + o.coolantTemp * 20.0 == w.coolantTemp
            && o.itLoad == w.itLoad && o.upsSoc == 0.8 && o.valve == o.fan == 0.5 && o.bias == 1.0
  {
  }

  // The guard sees the world's own temperature through the normalized observation:
  // it calls an emergency exactly at or above the emergency temperature.
  lemma GuardSeesTemperature(l: Limits, w: World)
    ensures Emergency(l, Observed(w, l.setpointC)) <==> w.tempC >= l.emergencyTempC
  {
  }

  // ---- The world as an object, and an episode ------------------------------

  class MockWorld {
    var tempC: real
    var itLoad: real
    var coolantTemp: real
    var ambient: real

    function View(): World
      reads this
    {
      World(tempC, itLoad, coolantTemp, ambient)
    }

    constructor (startTempC: real, itLoad: real, coolantTemp: real)
      ensures View() == World(startTempC, itLoad, coolantTemp, 22.0)
    {
      this.tempC, this.itLoad, this.coolantTemp, ambient := startTempC, itLoad, coolantTemp, 22.0;
    }

    method Step(a: Action, dt: real) returns (t: real)
      modifies `tempC
      ensures View() == Stepped(old(View()), a, dt) && t == tempC
    {
      var heatIn := itLoad * 0.8;
      var gap := if tempC - coolantTemp > 0.0 then tempC - coolantTemp else 0.0;
      var cooling := (a.valve * 0.5 + a.fan * 0.3) * gap;
      var relax := 0.02 * (ambient - tempC);
      var d := (heatIn - cooling + relax) * dt * 0.05;
      tempC := Clamp(tempC + d, 0.0, 80.0);
      t := tempC;
    }
  }

  function ClampEach(sampled: seq<Action>): (r: seq<Action>)
    ensures |r| == |sampled| && forall i :: 0 <= i < |r| ==> r[i] == sampled[i].Clamped()
  {
    seq(|sampled|, i requires 0 <= i < |sampled| => sampled[i].Clamped())
  }

  // A training rollout: sampled actions are clamped, taken, and their cost negated;
  // then the returns are computed from the back. None leaves its bound, whatever
  // is sampled.
  method RolloutReturns(world: MockWorld, sampled: seq<Action>, setpointC: real, dt: real, gamma: real)
    returns (rewards: seq<real>, discounted: array<real>)
    requires 0.0 <= gamma < 1.0
    modifies world
    ensures world.View() == WorldAfter(old(world.View()), ClampEach(sampled), dt)
    ensures rewards == Rewards(old(world.View()), ClampEach(sampled), setpointC, dt)
    ensures fresh(discounted) && discounted.Length == |sampled|
    ensures forall t :: 0 <= t < |sampled| ==> discounted[t] == Discounted(rewards[t..], gamma)
    ensures forall t :: 0 <= t < |sampled| ==> -(WorstCost(setpointC) / (1.0 - gamma)) <= discounted[t] <= 0.0
  {
    ghost var w := world.View();
    ghost var actions := ClampEach(sampled);
    rewards := [];
    for n := 0 to |sampled|
      invariant world.View() == WorldAfter(w, actions[..n], dt)
      invariant rewards == Rewards(w, actions[..n], setpointC, dt)
    {
      assert actions[..n + 1][..n] == actions[..n];
      var act := sampled[n].Clamped();
      var tempC := world.Step(act, dt);
      rewards := rewards + [-ThermalCost(tempC, act, setpointC)];
    }
    assert actions[..|sampled|] == actions;
    discounted := DiscountedReturns(rewards, gamma);
    forall t | 0 <= t < |sampled|
      ensures -(WorstCost(setpointC) / (1.0 - gamma)) <= Discounted(rewards[t..], gamma) <= 0.0
    {
      ReturnsBounded(w, actions, setpointC, dt, gamma, t);
    }
  }

  // The actions a policy takes over an episode.
  function Chosen(policy: Observation -> Action, w: World, setpointC: real, dt: real, n: nat): (actions: seq<Action>)
    ensures |actions| == n
  {
    if n == 0 then []
    else
      var front := Chosen(policy, w, setpointC, dt, n - 1);
      front + [policy(Observed(WorldAfter(w, front, dt), setpointC))]
  }

  // Each action is what the policy answers to the world as it then stands.
  lemma {:induction false} ChosenAt(policy: Observation -> Action, w: World, setpointC: real, dt: real, n: nat, i: nat)
    requires i < n
    ensures var actions := Chosen(policy, w, setpointC, dt, n);
            actions[i] == policy(Observed(WorldAfter(w, actions[..i], dt), setpointC))
  {
    var front := Chosen(policy, w, setpointC, dt, n - 1);
    var actions := Chosen(policy, w, setpointC, dt, n);
    assert actions[..i] == front[..i];
    if i < n - 1 {
      ChosenAt(policy, w, setpointC, dt, n - 1, i);
    } else {
      assert front[..i] == front;
    }
  }

  // An episode's cost is the negated, undiscounted return of the actions its policy chose.
  method RunEpisode(world: MockWorld, policy: Observation -> Action, setpointC: real, dt: real, horizon: nat)
    returns (cost: real)
    modifies world
    ensures var actions := Chosen(policy, old(world.View()), setpointC, dt, horizon);
            && world.View() == WorldAfter(old(world.View()), actions, dt)
            && cost == -Discounted(Rewards(old(world.View()), actions, setpointC, dt), 1.0)
  {
    cost := 0.0;
    ghost var w := world.View();
    for n := 0 to horizon
      invariant var actions := Chosen(policy, w, setpointC, dt, n);
                && world.View() == WorldAfter(w, actions, dt)
                && cost == -Discounted(Rewards(w, actions, setpointC, dt), 1.0)
    {
      ghost var front := Chosen(policy, w, setpointC, dt, n);
      var s := Observed(world.View(), setpointC);
      var a := policy(s);
      var t := world.Step(a, dt);
      RewardsSnoc(w, front, a, setpointC, dt);
      cost := cost + ThermalCost(t, a, setpointC);
    }
  }

  lemma {:induction false} PowerOfOne(n: nat)
    ensures Power(1.0, n) == 1.0
  {
    if n > 0 { PowerOfOne(n - 1); }
  }

  lemma RewardsSnoc(w: World, front: seq<Action>, a: Action, setpointC: real, dt: real)
    ensures var w' := Stepped(WorldAfter(w, front, dt), a, dt);
            && WorldAfter(w, front + [a], dt) == w'
            && Discounted(Rewards(w, front + [a], setpointC, dt), 1.0)
               == Discounted(Rewards(w, front, setpointC, dt), 1.0) - ThermalCost(w'.tempC, a, setpointC)
  {
    assert (front + [a])[..|front|] == front;
    var rs := Rewards(w, front, setpointC, dt);
    var r := -ThermalCost(WorldAfter(w, front + [a], dt).tempC, a, setpointC);
    assert Rewards(w, front + [a], setpointC, dt) == rs + [r] && (rs + [r])[..|rs|] == rs;
    PowerOfOne(|rs|);
    hide ThermalCost, Stepped;
  }
}
