/** The steering stage: the line position estimated from the eight
    normalised readings as a weighted sum, the PID correction of it, and the
    mapping of the correction onto a left/right duty pair around the
    neutral speed. */
module Controller {
  import opened MachineInt
  import opened PidControl

  const SensorCount: nat := 8
  /** The floor of both duties: a literal, independent of the neutral speed. */
  const DutyFloor: int := 6000
  const DefaultNeutralSpeed: int := 6000

  /** `clip`: `min` is checked first, so a value below `min` gives `min`
      even when `min > max`; otherwise a value above `max` gives `max`. */
  function Clip(value: int, min: int, max: int): (r: int)
    ensures value < min ==> r == min
    ensures min <= value ==> r <= value
    ensures min <= value && value > max ==> r == max
    ensures r == min || r == max || r == value
  {
    if value < min then min
    else if value > max then max
    else value
  }

  /** For an ordered range the result lies in it, and a value is returned
      unchanged exactly when it is already in range. */
  lemma ClipInRange(value: int, min: int, max: int)
    requires min <= max
    ensures min <= Clip(value, min, max) <= max
    ensures min <= value <= max <==> Clip(value, min, max) == value
  {
  }

  lemma ClipIdempotent(value: int, min: int, max: int)
    requires min <= max
    ensures Clip(Clip(value, min, max), min, max) == Clip(value, min, max)
  {
  }

  /** With an inverted range every value at or above `min` gives `max`. */
  lemma ClipInvertedRange(value: int, min: int, max: int)
    requires min > max
    ensures Clip(value, min, max) == if value < min then min else max
  {
  }

  /** The sensor weights doubled: -2.0, -1.5, ..., 2.0 become -4, -3, ..., 4,
      so the halves are exact integers. */
  const WeightTwice: seq<int> := [-4, -3, -2, -1, 1, 2, 3, 4]

  lemma WeightsAntisymmetric()
    ensures |WeightTwice| == SensorCount
    ensures forall k :: 0 <= k < SensorCount ==> WeightTwice[SensorCount - 1 - k] == -WeightTwice[k]
    ensures forall k :: 0 <= k < SensorCount ==> WeightTwice[k] != 0
  {
  }

  /** `angle += weight * x` for an i32 `angle`: the sum is computed in
      floating point and truncated toward zero when stored back, that is
      the truncated half of `2 * angle + w2 * x`. */
  function AddWeighted(angle: int, w2: int, x: int): (r: int)
    ensures var exact := 2 * angle + w2 * x;
      -1 <= exact - 2 * r <= 1 && (exact - 2 * r == 0 || (exact - 2 * r > 0 <==> exact > 0))
  {
    Quot(2 * angle + w2 * x, 2)
  }

  /** The accumulator after the first `n` readings. */
  function WeightedSum(x: seq<int>, n: nat): int
    requires n <= |x| && n <= SensorCount
  {
    if n == 0 then 0 else AddWeighted(WeightedSum(x, n - 1), WeightTwice[n - 1], x[n - 1])
  }

  /** Twice the exact weighted sum of the first `n` readings. */
  function ExactSumTwice(x: seq<int>, n: nat): int
    requires n <= |x| && n <= SensorCount
  {
    if n == 0 then 0 else ExactSumTwice(x, n - 1) + WeightTwice[n - 1] * x[n - 1]
  }

  /** Each truncation moves the accumulator by less than one, so after `n`
      readings it is within `n / 2` of the exact weighted sum. */
  lemma {:induction false} WeightedSumNearExact(x: seq<int>, n: nat)
    requires n <= |x| && n <= SensorCount
    ensures -(n as int) <= ExactSumTwice(x, n) - 2 * WeightedSum(x, n) <= n
  {
    if n > 0 {
      WeightedSumNearExact(x, n - 1);
    }
  }

  /** Readings with an even weighted sum at every step are summed exactly. */
  lemma {:induction false} EvenReadingsExact(x: seq<int>, n: nat)
    requires n <= |x| && n <= SensorCount
    requires forall k :: 0 <= k < n ==> x[k] % 2 == 0
    ensures 2 * WeightedSum(x, n) == ExactSumTwice(x, n)
  {
    if n > 0 {
      EvenReadingsExact(x, n - 1);
      var a, w, m := WeightedSum(x, n - 1), WeightTwice[n - 1], x[n - 1] / 2;
      assert w * x[n - 1] == 2 * (w * m);
      AddWeightedIs(a, w, x[n - 1], a + w * m);
    }
  }

  /** The line position: the weighted sum divided by 8, truncating. It is
      the exact weighted mean of the readings, `ExactSumTwice / 16`, up to
      an error below 1.5. */
  function Position(x: seq<int>): (p: int)
    requires |x| == SensorCount
    ensures -22 <= ExactSumTwice(x, SensorCount) - 16 * p <= 22
  {
    WeightedSumNearExact(x, SensorCount);
    Quot(WeightedSum(x, SensorCount), 8)
  }

  /** `calc_sensor`: the weighted sum of the readings, truncated to i32 at
      every step, then divided by 8. */
  method CalcSensor(x: seq<int>) returns (angle: int)
    requires |x| == SensorCount
    ensures angle == Position(x)
  {
    angle := 0;
    for i := 0 to SensorCount
      invariant angle == WeightedSum(x, i)
    {
      angle := Quot(2 * angle + WeightTwice[i] * x[i], 2);
    }
    angle := Quot(angle, 8);
  }

  function Uniform(v: int): seq<int>
  {
    [v, v, v, v, v, v, v, v]
  }

  /** A truncated half is pinned down by its residue: 0, or 1 with the
      sign of the dividend. */
  lemma AddWeightedIs(angle: int, w2: int, x: int, q: int)
    requires var e := 2 * angle + w2 * x;
      e - 2 * q == 0 || (e - 2 * q == 1 && e > 0) || (e - 2 * q == -1 && e < 0)
    ensures AddWeighted(angle, w2, x) == q
  {
  }

  /** One reading more: the accumulator after `n + 1` readings is the
      truncated step from its value `a` after `n`. */
  lemma WeightedSumNext(x: seq<int>, n: nat, a: int)
    requires n < |x| && n < SensorCount && WeightedSum(x, n) == a
    ensures WeightedSum(x, n + 1) == AddWeighted(a, WeightTwice[n], x[n])
  {
  }

  /** The accumulator over the first four of eight equal readings `2m + b`. */
  lemma UniformFirstHalf(x: seq<int>, m: nat, b: nat)
    requires x == Uniform(2 * m + b) && b <= 1
    ensures WeightedSum(x, 4) == -10 * m - 4 * b
  {
    var v := 2 * m + b;
    if b == 0 {
      AddWeightedIs(0, -4, v, -4 * m);
      WeightedSumNext(x, 0, 0);
      AddWeightedIs(-4 * m, -3, v, -7 * m);
      WeightedSumNext(x, 1, -4 * m);
      AddWeightedIs(-7 * m, -2, v, -9 * m);
      WeightedSumNext(x, 2, -7 * m);
      AddWeightedIs(-9 * m, -1, v, -10 * m);
      WeightedSumNext(x, 3, -9 * m);
    } else {
      AddWeightedIs(0, -4, v, -4 * m - 2);
      WeightedSumNext(x, 0, 0);
      AddWeightedIs(-4 * m - 2, -3, v, -7 * m - 3);
      WeightedSumNext(x, 1, -4 * m - 2);
      AddWeightedIs(-7 * m - 3, -2, v, -9 * m - 4);
      WeightedSumNext(x, 2, -7 * m - 3);
      AddWeightedIs(-9 * m - 4, -1, v, -10 * m - 4);
      WeightedSumNext(x, 3, -9 * m - 4);
    }
  }

  /** The accumulator over eight equal readings `2m + b`: the exact sum is
      0, and only the odd steps leave a truncation residue. */
  lemma UniformSteps(x: seq<int>, m: nat, b: nat)
    requires x == Uniform(2 * m + b) && b <= 1
    ensures WeightedSum(x, 8) == 2 * b
  {
    var v := 2 * m + b;
    UniformFirstHalf(x, m, b);
    AddWeightedIs(-10 * m - 4 * b, 1, v, -9 * m - 3 * b);
    WeightedSumNext(x, 4, -10 * m - 4 * b);
    AddWeightedIs(-9 * m - 3 * b, 2, v, -7 * m - 2 * b);
    WeightedSumNext(x, 5, -9 * m - 3 * b);
    AddWeightedIs(-7 * m - 2 * b, 3, v, -4 * m);
    WeightedSumNext(x, 6, -7 * m - 2 * b);
    AddWeightedIs(-4 * m, 4, v, 2 * b);
    WeightedSumNext(x, 7, -4 * m);
  }

  function Negated(x: seq<int>): (y: seq<int>)
    ensures |y| == |x| && forall k :: 0 <= k < |x| ==> y[k] == -x[k]
  {
    seq(|x|, k requires 0 <= k < |x| => -x[k])
  }

  /** Truncation toward zero is symmetric, so readings of opposite sign
      give an accumulator of opposite sign at every step. */
  lemma {:induction false} WeightedSumNegated(x: seq<int>, n: nat)
    requires n <= |x| && n <= SensorCount
    ensures WeightedSum(Negated(x), n) == -WeightedSum(x, n)
  {
    if n > 0 {
      WeightedSumNegated(x, n - 1);
      var a := WeightedSum(x, n - 1);
      var w := WeightTwice[n - 1];
      assert w * -x[n - 1] == -(w * x[n - 1]);
      AddWeightedIs(-a, w, -x[n - 1], -AddWeighted(a, w, x[n - 1]));
    }
  }

  /** Readings of opposite sign give positions of opposite sign. */
  lemma PositionNegated(x: seq<int>)
    requires |x| == SensorCount
    ensures Position(Negated(x)) == -Position(x)
  {
    WeightedSumNegated(x, SensorCount);
  }

  /** Eight equal readings are centred: the antisymmetric weights cancel,
      and the truncation residue, at most 2 in magnitude, vanishes in the
      division by 8. */
  lemma EqualReadingsCentered(v: int)
    ensures Position(Uniform(v)) == 0
  {
    if v >= 0 {
      UniformSteps(Uniform(v), v / 2, v % 2);
    } else {
      UniformSteps(Uniform(-v), (-v) / 2, (-v) % 2);
      assert Negated(Uniform(-v)) == Uniform(v);
      PositionNegated(Uniform(-v));
    }
  }

  /** The duty pair `calc_duty` stores for a correction `duty`: the neutral
      speed plus and minus the correction, each clipped to [6000, max] and
      narrowed to i16. */
  function DutyPair(neutral: int, duty: int, max: int): (lr: (int, int))
    requires IsI16(max)
    ensures IsI16(lr.0) && IsI16(lr.1)
    ensures lr.0 == Clip(neutral + duty, DutyFloor, max)
    ensures lr.1 == Clip(neutral - duty, DutyFloor, max)
  {
    (I16(Clip(neutral + duty, DutyFloor, max)), I16(Clip(neutral - duty, DutyFloor, max)))
  }

  /** With a ceiling at or above the floor both duties lie in [6000, max],
      whatever the neutral speed, and a side whose sum exceeds `max`
      saturates at `max`. */
  lemma DutyPairInRange(neutral: int, duty: int, max: int)
    requires IsI16(max) && max >= DutyFloor
    ensures DutyFloor <= DutyPair(neutral, duty, max).0 <= max
    ensures DutyFloor <= DutyPair(neutral, duty, max).1 <= max
    ensures neutral + duty > max ==> DutyPair(neutral, duty, max).0 == max
    ensures neutral - duty > max ==> DutyPair(neutral, duty, max).1 == max
  {
  }

  /** Negating the correction swaps the two sides. */
  lemma DutyPairSymmetric(neutral: int, duty: int, max: int)
    requires IsI16(max)
    ensures DutyPair(neutral, -duty, max) == (DutyPair(neutral, duty, max).1, DutyPair(neutral, duty, max).0)
  {
  }

  /** At the default neutral speed, which equals the floor, only one side
      rises above the floor: the left for a positive correction, the right
      for a negative one. */
  lemma DutyPairAtDefaultNeutral(duty: int, max: int)
    requires IsI16(max) && max >= DutyFloor
    ensures duty >= 0 ==> DutyPair(DefaultNeutralSpeed, duty, max).1 == DutyFloor
    ensures duty <= 0 ==> DutyPair(DefaultNeutralSpeed, duty, max).0 == DutyFloor
  {
  }

  lemma DutyPairExamples()
    ensures DutyPair(DefaultNeutralSpeed, 0, 24000) == (6000, 6000)
    ensures DutyPair(DefaultNeutralSpeed, 30000, 24000) == (24000, 6000)
    ensures DutyPair(DefaultNeutralSpeed, -30000, 24000) == (6000, 24000)
  {
  }

  /** The gains of the steering controller. */
  const SteeringGains: Gains := Gains(-2.0, 0.0, -0.00001)

  /** The controller's globals: the neutral speed, the PID instance, the last
      position estimate and the last duty pair. */
  class Steering {
    var neutralSpeed: int
    var angle: int
    var dutyOutput: (int, int)
    const pid: Pid

    constructor()
      ensures neutralSpeed == DefaultNeutralSpeed && angle == 0 && dutyOutput == (0, 0)
      ensures fresh(pid) && pid.GainsOf() == SteeringGains && pid.State() == Initial
    {
      neutralSpeed := DefaultNeutralSpeed;
      angle := 0;
      dutyOutput := (0, 0);
      pid := new Pid(-2.0, 0.0, -0.00001);
    }

    /** `calc_duty`: the position estimate becomes the error of one PID
        call, whose output, converted to an integer by truncation, is the
        correction mapped onto the duty pair; the estimate and the pair are
        recorded. */
    method CalcDuty(sensorFixed: seq<int>, dt: real, max: int) returns (l: int, r: int)
      requires |sensorFixed| == SensorCount && IsI16(max)
      modifies this, pid
      ensures neutralSpeed == old(neutralSpeed)
      ensures angle == Position(sensorFixed)
      ensures pid.GainsOf() == old(pid.GainsOf())
      ensures pid.State() == Step(pid.GainsOf(), old(pid.State()), angle as real, dt).state
      ensures (l, r) == DutyPair(neutralSpeed,
                                 TruncReal(Step(pid.GainsOf(), old(pid.State()), angle as real, dt).output), max)
      ensures dutyOutput == (l, r)
    {
      var a := 0;
      for i := 0 to SensorCount
        invariant a == WeightedSum(sensorFixed, i)
      {
        a := Quot(2 * a + WeightTwice[i] * sensorFixed[i], 2);
      }
      a := Quot(a, 8);

      angle := a;

      var error := a - 0;

      var output := pid.Calc(error as real, dt);
      var duty := TruncReal(output);

      l := I16(Clip(neutralSpeed + duty, DutyFloor, max));
      r := I16(Clip(neutralSpeed - duty, DutyFloor, max));

      dutyOutput := (l, r);
    }
  }
}
