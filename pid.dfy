/** The PID controller of the steering loop. The source instantiates it over
    `float`; the model computes over exact reals, and the accumulator floor
    `max_integral`, the float nearest to the square root of the largest
    float, is a positive constant whose exact value no property depends on. */
module PidControl {

  /** sqrt(FLT_MAX) rounded to float: 2^64 - 2^40. */
  const MaxIntegral: real := 18446742974197923840.0
  /** The smallest time step `calc` divides by. */
  const DtFloor: real := 0.000001

  datatype Gains = Gains(p: real, i: real, d: real)

  /** The fields of a controller that `calc` updates. */
  datatype PidState = PidState(integral: real, prevError: real)

  datatype StepResult = StepResult(state: PidState, output: real)

  /** `calc`'s time step: raised to DtFloor when smaller. */
  function EffectiveDt(dt: real): (r: real)
    ensures r >= DtFloor && r >= dt
    ensures r == dt || r == DtFloor
  {
    if dt < DtFloor then DtFloor else dt
  }

  /** `std::max(x, floor)`. */
  function AtLeast(x: real, floor: real): (r: real)
    ensures r >= x && r >= floor
    ensures r == x || r == floor
  {
    if x < floor then floor else x
  }

  /** One call of `calc` with gains `g` on state `s`: the new state and the
      returned control value. */
  function Step(g: Gains, s: PidState, error: real, dt: real): (res: StepResult)
    ensures res.state.integral >= MaxIntegral
    ensures res.state.integral >= s.integral + error * EffectiveDt(dt)
    ensures res.state.integral == MaxIntegral || res.state.integral == s.integral + error * EffectiveDt(dt)
    ensures res.state.prevError == error
  {
    var h := EffectiveDt(dt);
    var integral := AtLeast(s.integral + error * h, MaxIntegral);
    var derivative := (error - s.prevError) / h;
    StepResult(PidState(integral, error), g.p * error + g.i * integral + g.d * derivative)
  }

  /** The state after a run of calls, each given as an (error, dt) pair. */
  function Run(g: Gains, s: PidState, calls: seq<(real, real)>): PidState
  {
    if calls == [] then s
    else Step(g, Run(g, s, calls[..|calls| - 1]), calls[|calls| - 1].0, calls[|calls| - 1].1).state
  }

  /** The state the constructor leaves. */
  const Initial: PidState := PidState(0.0, 0.0)

  /** The sum of `error * dt` over a run of calls, each `dt` raised to the
      floor as `calc` does. */
  function Accumulated(calls: seq<(real, real)>): real
  {
    if calls == [] then 0.0
    else Accumulated(calls[..|calls| - 1]) + calls[|calls| - 1].0 * EffectiveDt(calls[|calls| - 1].1)
  }

  /** The accumulator is a floor, not a cap: after any call it is at least
      MaxIntegral, and it never falls below its start plus everything
      accumulated since. */
  lemma {:induction false} RunIntegralBounds(g: Gains, s: PidState, calls: seq<(real, real)>)
    ensures Run(g, s, calls).integral >= s.integral + Accumulated(calls)
    ensures calls != [] ==> Run(g, s, calls).integral >= MaxIntegral
  {
    if calls != [] {
      RunIntegralBounds(g, s, calls[..|calls| - 1]);
    }
  }

  /** Under a constant error E with 0 < E <= MaxIntegral and a unit time
      step, the first call from the initial state lifts the accumulator to
      MaxIntegral and every later call adds E: nothing caps it. */
  lemma {:induction false} ConstantErrorGrowsPastFloor(g: Gains, e: real, n: nat)
    requires 0.0 < e <= MaxIntegral && n >= 1
    ensures Run(g, Initial, seq(n, _ => (e, 1.0))).integral == MaxIntegral + (n - 1) as real * e
  {
    var calls := seq(n, _ => (e, 1.0));
    if n > 1 {
      var init := seq(n - 1, _ => (e, 1.0));
      assert calls[..n - 1] == init;
      ConstantErrorGrowsPastFloor(g, e, n - 1);
    } else {
      assert calls[..0] == [];
    }
  }

  /** A call with a non-negative error never lowers the accumulator. */
  lemma IntegralNondecreasing(g: Gains, s: PidState, error: real, dt: real)
    requires error >= 0.0
    ensures Step(g, s, error, dt).state.integral >= s.integral
  {
    assert error * EffectiveDt(dt) >= 0.0;
  }

  /** A call whose error repeats the previous one has no derivative term. */
  lemma RepeatedErrorNoDerivative(g: Gains, s: PidState, error: real, dt: real)
    requires s.prevError == error
    ensures Step(g, s, error, dt).output == g.p * error + g.i * Step(g, s, error, dt).state.integral
  {
  }

  /** Two successive calls with the same error: the second has no
      derivative term, whatever the state before the first. */
  lemma SecondCallSameErrorNoDerivative(g: Gains, s: PidState, error: real, dt1: real, dt2: real)
    ensures var s1 := Step(g, s, error, dt1).state;
      Step(g, s1, error, dt2).output == g.p * error + g.i * Step(g, s1, error, dt2).state.integral
  {
    RepeatedErrorNoDerivative(g, Step(g, s, error, dt1).state, error, dt2);
  }

  /** A controller with no integral gain, as the steering loop uses, outputs
      exactly the proportional and derivative terms. */
  lemma NoIntegralGain(g: Gains, s: PidState, error: real, dt: real)
    requires g.i == 0.0
    ensures Step(g, s, error, dt).output
            == g.p * error + g.d * (error - s.prevError) / EffectiveDt(dt)
  {
  }

  /** `Pid`: the gains and the two fields `calc` updates. */
  class Pid {
    var p: real
    var i: real
    var d: real
    var integral: real
    var prevError: real

    function GainsOf(): Gains
      reads this
    {
      Gains(p, i, d)
    }

    function State(): PidState
      reads this
    {
      PidState(integral, prevError)
    }

    constructor(p: real, i: real, d: real)
      ensures GainsOf() == Gains(p, i, d)
      ensures State() == Initial
    {
      this.p, this.i, this.d := p, i, d;
      integral, prevError := 0.0, 0.0;
    }

    /** `calc`: raises `dt` to the floor, floors the accumulated integral at
        MaxIntegral, takes the difference quotient of the error and returns
        the weighted sum of the three terms. */
    method Calc(error: real, dt: real) returns (r: real)
      modifies this
      ensures GainsOf() == old(GainsOf())
      ensures State() == Step(GainsOf(), old(State()), error, dt).state
      ensures r == Step(GainsOf(), old(State()), error, dt).output
    {
      var dt := dt;
      if dt < DtFloor {
        dt := DtFloor;
      }
      integral := AtLeast(integral + error * dt, MaxIntegral);
      var derivative := (error - prevError) / dt;
      prevError := error;
      r := p * error + i * integral + d * derivative;
    }
  }
}
