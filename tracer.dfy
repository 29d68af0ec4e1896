/** The main program: the calibration phase, which averages the buffer into
    per-channel minimum and maximum readings and derives each channel's
    range, and one iteration of the control loop, which measures the
    elapsed ticks, normalises the eight readings, runs the steering stage
    and drives both motors. The buffer the DMA refreshes is given as a
    snapshot per read; the button and tick waits between calibration passes
    are modelled in Timing. */
module MyMain {
  import opened MachineInt
  import opened Calibration
  import opened PidControl
  import opened Controller
  import opened Motor
  import opened Timing

  /** The loop's `dt`: the u32 tick difference reinterpreted as i32. */
  function LoopDt(lastTick: int, currentTick: int): (dt: int)
    requires IsU32(lastTick) && IsU32(currentTick)
    ensures IsI32(dt) && U32(dt) == Elapsed(lastTick, currentTick)
    ensures Elapsed(lastTick, currentTick) <= I32Max ==> dt == Elapsed(lastTick, currentTick)
  {
    I32(U32(currentTick - lastTick))
  }

  /** Across a wrap of the tick counter the difference is still the
      number of ticks that passed. */
  lemma LoopDtAcrossWrap()
    ensures LoopDt(U32Mod - 2, 1) == 3
  {
  }

  /** A run longer than 2^31 - 1 ticks between iterations reads as a
      negative `dt`. */
  lemma LoopDtNegativeAfterLongGap(lastTick: int, currentTick: int)
    requires IsU32(lastTick) && IsU32(currentTick)
    requires Elapsed(lastTick, currentTick) > I32Max
    ensures LoopDt(lastTick, currentTick) < 0
    ensures LoopDt(lastTick, currentTick) == Elapsed(lastTick, currentTick) - U32Mod
  {
  }

  /** A channel that saw the same constant reading in both calibration
      passes gets range 0, which the loop then divides by. */
  lemma ConstantCalibrationZeroRange(minSnaps: seq<seq<int>>, maxSnaps: seq<seq<int>>, c: nat, v: int)
    requires c < Calibration.ChannelNum
    requires AllSnapshots(minSnaps) && |minSnaps| == SnapshotCount
    requires AllSnapshots(maxSnaps) && |maxSnaps| == SnapshotCount
    requires forall k :: 0 <= k < SnapshotCount ==> minSnaps[k][c] == v && maxSnaps[k][c] == v
    ensures ChannelAverage(minSnaps, c) == v && ChannelAverage(maxSnaps, c) == v
    ensures IsU16(v)
    ensures Range(ChannelAverage(maxSnaps, c), ChannelAverage(minSnaps, c)) == 0
  {
    ConstantStreamAverage(minSnaps, c, v);
    ConstantStreamAverage(maxSnaps, c, v);
    AverageIsU16(minSnaps, c);
  }

  /** Every channel normalised with its own calibration. */
  predicate FixedReadings(fixed: seq<int>, buffer: seq<int>, smin: seq<int>, srange: seq<int>)
  {
    |fixed| == |buffer| == |smin| == |srange| == Calibration.ChannelNum
    && (forall c :: 0 <= c < Calibration.ChannelNum ==>
          IsU16(buffer[c]) && IsU16(smin[c]) && IsU16(srange[c]) && srange[c] != 0)
    && forall c :: 0 <= c < Calibration.ChannelNum ==> fixed[c] == FixValue(buffer[c], smin[c], srange[c])
  }

  /** The program's state: the calibration arrays, the normalised
      readings, the tick bookkeeping of the loop, and the steering and
      motor stages. */
  class Tracer {
    const sensorMin: array<int>
    const sensorMax: array<int>
    const sensorRange: array<int>
    const sensorFixed: array<int>
    var lastTick: int
    var controlDuration: int
    const steering: Steering
    const motors: Motors

    ghost predicate Valid()
    {
      && sensorMin.Length == Calibration.ChannelNum && sensorMax.Length == Calibration.ChannelNum
      && sensorRange.Length == Calibration.ChannelNum && sensorFixed.Length == Calibration.ChannelNum
      && sensorMin != sensorMax && sensorMin != sensorRange && sensorMin != sensorFixed
      && sensorMax != sensorRange && sensorMax != sensorFixed && sensorRange != sensorFixed
      && motors.Valid()
      && motors.compare != sensorMin && motors.compare != sensorMax
      && motors.compare != sensorRange && motors.compare != sensorFixed
    }

    predicate Calibrated()
      requires Valid()
      reads sensorMin, sensorRange
    {
      forall c :: 0 <= c < Calibration.ChannelNum ==>
        IsU16(sensorMin[c]) && IsU16(sensorRange[c]) && sensorRange[c] != 0
    }

    constructor()
      ensures Valid()
      ensures lastTick == 0 && controlDuration == 0
      ensures fresh(sensorMin) && fresh(sensorMax) && fresh(sensorRange) && fresh(sensorFixed)
      ensures sensorMin[..] == seq(Calibration.ChannelNum, _ => 0) && sensorMax[..] == seq(Calibration.ChannelNum, _ => 0)
      ensures sensorRange[..] == seq(Calibration.ChannelNum, _ => 0) && sensorFixed[..] == seq(Calibration.ChannelNum, _ => 0)
      ensures fresh(steering) && fresh(steering.pid) && fresh(motors) && fresh(motors.compare)
      ensures steering.neutralSpeed == DefaultNeutralSpeed && steering.angle == 0 && steering.dutyOutput == (0, 0)
      ensures steering.pid.GainsOf() == SteeringGains && steering.pid.State() == Initial
      ensures motors.compare[..] == [0, 0, 0, 0] && motors.lDuty == 0 && motors.rDuty == 0
    {
      sensorMin := new int[Calibration.ChannelNum](_ => 0);
      sensorMax := new int[Calibration.ChannelNum](_ => 0);
      sensorRange := new int[Calibration.ChannelNum](_ => 0);
      sensorFixed := new int[Calibration.ChannelNum](_ => 0);
      lastTick := 0;
      controlDuration := 0;
      steering := new Steering();
      motors := new Motors();
    }

    /** The calibration phase: one averaging pass into `sensor_min`, one
        into `sensor_max`, the u16 range of every channel, and the entry
        tick of the loop. */
    method Calibrate(minSnaps: seq<seq<int>>, maxSnaps: seq<seq<int>>, startTick: int)
      requires Valid()
      requires AllSnapshots(minSnaps) && |minSnaps| == SnapshotCount
      requires AllSnapshots(maxSnaps) && |maxSnaps| == SnapshotCount
      requires IsU32(startTick)
      modifies this, sensorMin, sensorMax, sensorRange
      ensures Valid() && lastTick == startTick && controlDuration == old(controlDuration)
      ensures forall c :: 0 <= c < Calibration.ChannelNum ==>
                sensorMin[c] == ChannelAverage(minSnaps, c) && sensorMax[c] == ChannelAverage(maxSnaps, c)
      ensures forall c :: 0 <= c < Calibration.ChannelNum ==>
                IsU16(sensorMin[c]) && IsU16(sensorMax[c])
                && sensorRange[c] == Range(sensorMax[c], sensorMin[c])
    {
      CalibratePhotos(minSnaps, sensorMin);
      CalibratePhotos(maxSnaps, sensorMax);
      for i := 0 to Calibration.ChannelNum
        invariant controlDuration == old(controlDuration)
        invariant forall c :: 0 <= c < Calibration.ChannelNum ==>
                    sensorMin[c] == ChannelAverage(minSnaps, c) && sensorMax[c] == ChannelAverage(maxSnaps, c)
                    && IsU16(sensorMin[c]) && IsU16(sensorMax[c])
        invariant forall c :: 0 <= c < i ==> sensorRange[c] == Range(sensorMax[c], sensorMin[c])
      {
        sensorRange[i] := U16(sensorMax[i] - sensorMin[i]);
      }
      lastTick := startTick;
    }

    /** The normalisation loop: every reading mapped through `fix_value`
        with its channel's minimum and range. */
    method Normalise(buffer: seq<int>)
      requires Valid() && Calibrated()
      requires |buffer| == Calibration.ChannelNum
      requires forall c :: 0 <= c < Calibration.ChannelNum ==> IsU16(buffer[c])
      modifies sensorFixed
      ensures FixedReadings(sensorFixed[..], buffer, sensorMin[..], sensorRange[..])
    {
      for i := 0 to Calibration.ChannelNum
        invariant forall c :: 0 <= c < i ==> sensorFixed[c] == FixValue(buffer[c], sensorMin[c], sensorRange[c])
      {
        sensorFixed[i] := FixValue(buffer[i], sensorMin[i], sensorRange[i]);
      }
    }

    /** One iteration of the control loop at tick `currentTick`, with
        `buffer` the readings the DMA last stored. */
    method ControlStep(currentTick: int, buffer: seq<int>)
      requires Valid() && Calibrated()
      requires IsU32(lastTick) && IsU32(currentTick)
      requires |buffer| == Calibration.ChannelNum
      requires forall c :: 0 <= c < Calibration.ChannelNum ==> IsU16(buffer[c])
      modifies this, sensorFixed, steering, steering.pid, motors, motors.compare
      ensures Valid()
      ensures controlDuration == Elapsed(old(lastTick), currentTick) && lastTick == currentTick
      ensures FixedReadings(sensorFixed[..], buffer, sensorMin[..], sensorRange[..])
      ensures steering.angle == Position(sensorFixed[..])
      ensures steering.neutralSpeed == old(steering.neutralSpeed)
      ensures steering.pid.GainsOf() == old(steering.pid.GainsOf())
      ensures steering.pid.State()
              == Step(old(steering.pid.GainsOf()), old(steering.pid.State()), steering.angle as real,
                      LoopDt(old(lastTick), currentTick) as real).state
      ensures steering.dutyOutput == (motors.lDuty, motors.rDuty)
      ensures steering.dutyOutput
              == DutyPair(old(steering.neutralSpeed),
                          TruncReal(Step(old(steering.pid.GainsOf()), old(steering.pid.State()), steering.angle as real,
                                         LoopDt(old(lastTick), currentTick) as real).output),
                          DutyMax)
      ensures motors.compare[0] == Compares(motors.lDuty).0 && motors.compare[1] == Compares(motors.lDuty).1
      ensures motors.compare[2] == Compares(motors.rDuty).0 && motors.compare[3] == Compares(motors.rDuty).1
    {
      var dt := I32(U32(currentTick - lastTick));
      controlDuration := U32(dt);
      lastTick := currentTick;

      Normalise(buffer);

      var l, r := steering.CalcDuty(sensorFixed[..], dt as real, DutyMax);

      motors.SetLDuty(l);
      motors.SetRDuty(r);
    }
  }
}
