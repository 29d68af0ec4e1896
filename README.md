# YuruTracer line follower, modelled in Dafny

YuruTracer is the firmware of a small line-following robot on an STM32
microcontroller. Eight reflectance sensors are sampled by the ADC. The DMA
copies the samples into a buffer. The main program runs in two phases.

- **Calibration.** The operator presses a button. The program then averages
  200 buffer snapshots per channel into the channel's minimum. It waits
  again and averages another 200 snapshots into the maximum. The range of a
  channel is the u16 difference of the two.
- **Control loop.** Each iteration measures the ticks elapsed since the last
  one and normalises each reading to a fixed-point ratio. It then estimates
  the line position as a weighted sum, runs a PID controller on that error
  and maps the correction onto a left/right duty pair. Each duty becomes a
  pair of PWM compare values.

The model covers these parts:

- the C integer semantics the firmware relies on: u16/u32 wrap-around, the
  i16 and i32 conversions, division truncating toward zero, and the
  float-to-integer conversion (`machine_int.dfy`);
- calibration averaging, channel ranges and `fix_value` (`calibration.dfy`);
- the two tick-based waits, `wait` and `wait_button` (`timing.dfy`);
- the DMA and ADC register words composed at start-up (`registers.dfy`);
- the PID controller, as a class with a pure step function beside it
  (`pid.dfy`);
- the position estimate, `clip` and the duty mapping, with the steering
  globals as a class (`controller.dfy`);
- motor output, with the four compare registers as an array (`motor.dfy`);
- the main program's calibration phase and one loop iteration
  (`tracer.dfy`).

Where the documented behaviour and the code differ, the model follows the
code:

- `Pid::calc` floors the integral at `max_integral` with `std::max`. It does
  not cap it.
- `fix_value` divides by the range without a guard. A zero range is not
  turned into a neutral value, so `MyMain.Tracer.ControlStep` requires every
  range to be non-zero.
- An inverted calibration (max < min) wraps to a large u16 range. It is not
  negative.

## Model

| member | source | states |
|---|---|---|
| MachineInt.U16 | Core/Inc/mymain.hpp:231 | storing into a u16 reduces modulo 2^16: u16 values are unchanged, and a negative difference down to -2^16 gains 2^16 |
| MachineInt.U32 | Core/Inc/mymain.hpp:236-238 | storing into a u32 reduces modulo 2^32: u32 values are unchanged, a negative difference gains 2^32, and an overflow below 2^33 loses 2^32 |
| MachineInt.I16 | Core/Inc/controller.hpp:52-53 | narrowing to i16 gives an i16, and leaves i16 values unchanged |
| MachineInt.I32 | Core/Inc/mymain.hpp:237 | a u32 read as i32 is an i32 with the same bit pattern, and is unchanged up to 2^31 - 1 |
| MachineInt.Quot | Core/Inc/mymain.hpp:206 | C division: the remainder is smaller than the divisor in magnitude and has the dividend's sign |
| MachineInt.TruncReal | Core/Inc/controller.hpp:50 | float-to-integer conversion drops the fraction toward zero |
| Calibration.ChannelSumBounds | Core/Inc/mymain.hpp:168-172 | a channel's sum lies between n times any lower bound and n times any upper bound of its samples |
| Calibration.ChannelSumFitsU32 | Core/Inc/mymain.hpp:167-172 | the u32 accumulator of at most 200 u16 samples never wraps |
| Calibration.ChannelAverage | Core/Inc/mymain.hpp:175-177 | `sum[i] / 200` in u32 division: defined as the channel's sum over the pass divided by 200; `AverageBetween`, `ConstantStreamAverage` and `AverageIsU16` give its bounds, its value on a constant stream and its fit in u16 |
| Calibration.AverageBetween | Core/Inc/mymain.hpp:175-177 | the average lies between the smallest and the largest sample of the channel |
| Calibration.ConstantStreamAverage | Core/Inc/mymain.hpp:166-178 | a constant stream V averages to exactly V |
| Calibration.AverageIsU16 | Core/Inc/mymain.hpp:175-177 | the average fits the u16 output without truncation |
| Calibration.CalibratePhotos | Core/Inc/mymain.hpp:166-178 | each output channel is the integer average of its 200 snapshot values, and it is a u16 |
| Calibration.Range | Core/Inc/mymain.hpp:231 | the range is max - min when max >= min; otherwise it wraps to 65536 - (min - max) |
| Calibration.RangeZeroIffEqual | Core/Inc/mymain.hpp:229-232 | a range is 0 exactly when the two bounds are equal; an inverted pair gives a range above max |
| Calibration.FixProductFitsI32 | Core/Inc/mymain.hpp:206 | the product (v - smin) * 10000 never overflows i32 |
| Calibration.FixValue | Core/Inc/mymain.hpp:205-207 | `fix_value`: defined as (v - smin) * 10000 divided by srange with C's truncating division, for u16 arguments and a non-zero range; the four `FixValue` lemmas below give its endpoints, its span and its fit in i32 |
| Calibration.FixValueEndpoints | Core/Inc/mymain.hpp:205-207 | fix_value(smin) is 0 and fix_value(smin + srange) is exactly 10000 |
| Calibration.FixValueInSpan | Core/Inc/mymain.hpp:205-207 | readings on the calibrated span map into [0, 10000] |
| Calibration.FixValueOutsideSpan | Core/Inc/mymain.hpp:205-207 | readings outside the span are not clamped: at most 0 below, at least 10000 above |
| Calibration.FixValueFitsI32 | Core/Inc/mymain.hpp:205-207 | the result always fits the i32 return type |
| Timing.Elapsed | Core/Inc/mymain.hpp:197 | the u32 tick difference is the plain difference without a wrap, and 2^32 less the backward step with one |
| Timing.ElapsedAcrossWrap | Core/Inc/mymain.hpp:197 | the u32 difference recovers any true elapsed time below 2^32, across a counter wrap too |
| Timing.WaitObserve | Core/Inc/mymain.hpp:155-159 | a reading below `tick` resets `tick` to 0 and `d` to 2^32 - tick; any other reading changes nothing |
| Timing.Wait | Core/Inc/mymain.hpp:151-164 | `wait` returns at the first reading where the u32 distance from `tick` exceeds `d`, after the wrap rebasing, and at no earlier reading |
| Timing.WaitWithoutWrap | Core/Inc/mymain.hpp:151-164 | while no reading goes below the entry tick, `wait` returns exactly when now - start > duration |
| Timing.WaitReturnsEarlyAfterWrap | Core/Inc/mymain.hpp:155-161 | counterexample: entered 10 ticks before the wrap, wait(1000) returns 21 ticks after entry |
| Timing.WaitElapsed | Core/Inc/mymain.hpp:151-164 | the intended delay returns at the first reading more than `duration` ticks after entry, by the u32 difference, and at no earlier reading |
| Timing.WaitButton | Core/Inc/mymain.hpp:191-201 | `wait_button` returns at the first poll more than 500 ticks after the last poll whose pin differed from `state`, and at no earlier poll |
| Timing.LastChangeAtLastDiffering | Core/Inc/mymain.hpp:192-196 | the debounce timer restarts at the last poll whose pin differed from `state` |
| Timing.LastChangeWithoutChange | Core/Inc/mymain.hpp:192-196 | if no poll differed from `state`, the debounce timer runs from entry |
| Registers.DmaChannelConfig | Core/Inc/mymain.hpp:39-65 | CCR has MINC, CIRC and EN set; MEM2MEM, PINC, DIR and the three interrupt enables clear; MSIZE is 01, PSIZE 10 and PL 00; no other bit is set |
| Registers.AdcControlWords | Core/Inc/mymain.hpp:74-96 | CR1 is SCAN alone; CR2 has DMA, CONT and RSTCAL set and no other bit |
| Registers.SampleTimeWord | Core/Inc/mymain.hpp:98-108 | SMPR2 is 0: the shortest sample time for every channel |
| Registers.Packed | Core/Inc/mymain.hpp:115-120 | the OR of the first n entries of the order, entry k shifted left by 5k: the value a regular sequence register's loop builds; `SequenceFieldsRead` shows each entry below 32 reads back from its own field |
| Registers.SequenceWords | Core/Inc/mymain.hpp:110-126 | SQR1 holds 7 in the L field and nothing else; SQR3 packs entries 0 to 5, entry k shifted by 5k, and SQR2 entries 6 and 7, entry k shifted by 5(k - 6) |
| Registers.SequenceFieldsRead | Core/Inc/mymain.hpp:115-120 | when every channel number is below 32, each conversion's channel reads back from its own 5-bit field |
| Registers.DefaultScanOrder | Core/Inc/mymain.hpp:185-186 | with the scan order 0..7, conversion k reads channel k |
| PidControl.EffectiveDt | Core/Inc/pid.hpp:27 | the time step used is dt raised to 1e-6, so the derivative divisor is strictly positive |
| PidControl.AtLeast | Core/Inc/pid.hpp:28 | `std::max`: at least both arguments and equal to one of them |
| PidControl.Step | Core/Inc/pid.hpp:26-32 | after a call the integral is the larger of max_integral and the old integral plus error * dt (at least both, and equal to one); prev_error is the error |
| PidControl.RunIntegralBounds | Core/Inc/pid.hpp:28 | after any run the integral is at least its start plus the accumulated error * dt, and at least max_integral once a call was made |
| PidControl.ConstantErrorGrowsPastFloor | Core/Inc/pid.hpp:19-28 | a constant error E at unit dt from a fresh controller gives integral max_integral + (n - 1) * E after n calls: a floor, never a cap |
| PidControl.IntegralNondecreasing | Core/Inc/pid.hpp:28 | a call with a non-negative error never lowers the integral |
| PidControl.RepeatedErrorNoDerivative | Core/Inc/pid.hpp:29-31 | a call repeating the previous error returns only the proportional and integral terms |
| PidControl.SecondCallSameErrorNoDerivative | Core/Inc/pid.hpp:29-31 | of two successive calls with the same error, the second has a zero derivative term |
| PidControl.NoIntegralGain | Core/Inc/pid.hpp:31 | with i = 0, the steering gains, the output is p * error + d * (error - prev_error) / dt |
| PidControl.Pid.constructor | Core/Inc/pid.hpp:21-23 | stores p, i and d, and starts with integral 0 and prev_error 0 |
| PidControl.Pid.Calc | Core/Inc/pid.hpp:26-32 | keeps the gains, leaves the state Step computes and returns Step's output |
| Controller.Clip | Core/Inc/controller.hpp:16-24 | below min gives min even when min > max; a value at or above min and above max gives max; otherwise the result never exceeds the value and is min, max or the value |
| Controller.ClipInRange | Core/Inc/controller.hpp:16-24 | for min <= max the result lies in [min, max] and equals the value exactly when the value is in range |
| Controller.ClipIdempotent | Core/Inc/controller.hpp:16-24 | clipping twice is clipping once |
| Controller.ClipInvertedRange | Core/Inc/controller.hpp:17-21 | with min > max, every value at or above min gives max |
| Controller.WeightsAntisymmetric | Core/Inc/controller.hpp:10 | the weights are antisymmetric, w[7 - k] = -w[k], and none is zero |
| Controller.AddWeighted | Core/Inc/controller.hpp:41-43 | `angle += w * x` stores the exact sum truncated toward zero: within 1/2 of it, and rounded toward zero |
| Controller.WeightedSum | Core/Inc/controller.hpp:28-31 | the accumulator after the first n readings, each step an `AddWeighted`; `WeightedSumNearExact`, `EvenReadingsExact` and `WeightedSumNegated` relate it to the exact weighted sum |
| Controller.WeightedSumNearExact | Core/Inc/controller.hpp:41-43 | after n readings the truncated accumulator is within n/2 of the exact weighted sum |
| Controller.EvenReadingsExact | Core/Inc/controller.hpp:41-43 | even readings are summed without truncation |
| Controller.WeightedSumNegated | Core/Inc/controller.hpp:41-43 | readings of opposite sign give an accumulator of opposite sign at every step |
| Controller.PositionNegated | Core/Inc/controller.hpp:41-44 | readings of opposite sign give positions of opposite sign |
| Controller.EqualReadingsCentered | Core/Inc/controller.hpp:41-44 | eight equal readings give angle 0: the residue of at most 2 vanishes in the division by 8 |
| Controller.Position | Core/Inc/controller.hpp:41-44 | the accumulator divided by 8, truncating; it lies within 22/16 of the exact weighted mean of the readings (twice the exact sum over 16) |
| Controller.CalcSensor | Core/Inc/controller.hpp:26-34 | `calc_sensor` returns the position: the truncated weighted sum divided by 8, truncating |
| Controller.DutyPair | Core/Inc/controller.hpp:52-53 | each side is neutral +/- duty clipped to [6000, max] and fits i16 without wrapping |
| Controller.DutyPairInRange | Core/Inc/controller.hpp:52-53 | with max >= 6000 both duties lie in [6000, max], whatever the neutral speed, and a side whose sum exceeds max saturates at max |
| Controller.DutyPairSymmetric | Core/Inc/controller.hpp:52-53 | negating the correction swaps the left and right duties |
| Controller.DutyPairAtDefaultNeutral | Core/Inc/controller.hpp:52-53 | at neutral 6000, duty >= 0 pins the right side at 6000 and duty <= 0 pins the left side |
| Controller.DutyPairExamples | Core/Inc/controller.hpp:52-53 | duty 0 gives (6000, 6000); 30000 and -30000 with max 24000 give (24000, 6000) and (6000, 24000) |
| Controller.Steering.constructor | Core/Inc/controller.hpp:11-13 | neutral speed 6000, gains (-2, 0, -0.00001) on a fresh PID, zero angle and duty pair |
| Controller.Steering.CalcDuty | Core/Inc/controller.hpp:38-57 | records the position as `angle`, runs one PID step on it, and returns and records the duty pair of the truncated output |
| Motor.Min | Core/Inc/motor.hpp:11-13 | the result is at most both arguments and is one of them |
| Motor.Compares | Core/Inc/motor.hpp:27-38 | both compares lie in [0, 24000]; at most one is non-zero; together they are min(abs(duty), 24000) on the line of the duty's sign |
| Motor.ComparesMonotone | Core/Inc/motor.hpp:31-36 | the active compare grows with the duty's magnitude |
| Motor.ComparesExamples | Core/Inc/motor.hpp:28-36 | 0 gives (0, 0); 30000 saturates to (0, 24000); -32768 gives (24000, 0) |
| Motor.Motors.constructor | Core/Inc/motor.hpp:40-41 | duties start at 0 with all four compares 0 |
| Motor.Motors.SetDuty | Core/Inc/motor.hpp:27-38 | writes the cw and ccw compares of `duty`, the ccw write last; the other channels keep their values |
| Motor.Motors.SetLDuty | Core/Inc/motor.hpp:43-46 | records l_duty and drives channels 1 and 2; channels 3 and 4 and r_duty are unchanged |
| Motor.Motors.SetRDuty | Core/Inc/motor.hpp:48-51 | records r_duty and drives channels 3 and 4; channels 1 and 2 and l_duty are unchanged |
| MyMain.LoopDt | Core/Inc/mymain.hpp:237 | dt is an i32 with the bit pattern of the u32 tick difference; below 2^31 it is that difference |
| MyMain.LoopDtAcrossWrap | Core/Inc/mymain.hpp:236-237 | last tick 2^32 - 2 and current tick 1 give dt 3 |
| MyMain.LoopDtNegativeAfterLongGap | Core/Inc/mymain.hpp:237 | a gap above 2^31 - 1 ticks reads as a negative dt |
| MyMain.ConstantCalibrationZeroRange | Core/Inc/mymain.hpp:222-232 | a channel that saw one constant value in both passes gets range 0 |
| MyMain.Tracer.constructor | Core/Inc/mymain.hpp:210-214 | four fresh zero-filled arrays, last_tick and control_duration 0, a fresh steering stage at neutral 6000 with zero angle and duty pair and a fresh PID with the steering gains in its initial state, and fresh motors with zero compares and duties |
| MyMain.Tracer.Calibrate | Core/Inc/mymain.hpp:221-234 | min and max are the two passes' averages, each range is their u16 difference, and last_tick is the entry tick |
| MyMain.Tracer.Normalise | Core/Inc/mymain.hpp:241-243 | each sensor_fixed entry is fix_value of its reading, minimum and range |
| MyMain.Tracer.ControlStep | Core/Inc/mymain.hpp:236-248 | control_duration is the u32 tick difference and last_tick the current tick; readings are normalised; the steering stage runs one PID step on dt with its old gains and neutral speed, which it keeps; both motors are driven with the duty pair |

## Left out

- HAL and hardware access are not modelled: `HAL_GetTick`, `HAL_GPIO_ReadPin`, `__HAL_TIM_SET_COMPARE` and `motor::init`. Tick and pin readings are input sequences, and the compare registers are a plain array.
- Register stores and the DMA address and count writes (Core/Inc/mymain.hpp:32-36) are left out. So are the ADON writes, the Tstab busy loop and the RSTCAL/CAL polling (Core/Inc/mymain.hpp:128-148). The model keeps only the words composed before the stores.
- The register structs and mask tables in the two register_map.hpp files are not modelled. Only the masks and shifts that the composed words use are copied.
- Core/Src/dma_.cpp, a one-line HAL wrapper, and `hal_init_deinit` are not part of this model.
- The DMA overwrites the buffer concurrently. Each read of the buffer is modelled as a given snapshot.
- `mymain` loops forever. The model has one iteration (`MyMain.Tracer.ControlStep`) and the calibration phase (`MyMain.Tracer.Calibrate`).
- MyMain.Tracer.Calibrate: the button waits and the 1000-tick waits between the passes are modelled separately, in `Timing`, and are not sequenced into it. The one-tick wait between snapshots only paces the hardware.
- `Wait` and `WaitButton` see a finite run of readings. They return None when the run ends before the source's loop would return.
- PidControl.Pid.Calc: the arithmetic is over exact reals, so float rounding is not modelled. `max_integral` has the value of the float nearest sqrt(FLT_MAX), and no lemma depends on more than its being positive.
- Controller.AddWeighted: the float sensor weights are exact halves, and the sum is assumed exact. Readings whose doubled partial sums reach 2^24 in magnitude would round in `float`, and that rounding is not modelled.
- Controller.Steering.CalcDuty: the PID output is converted to an integer by truncation. Outside the i32 range that conversion is undefined in C++, and the model does not capture it.
- Controller.Steering.CalcDuty: `neutral_speed + duty` is unbounded here. An i32 overflow of that sum is not modelled.
- MyMain.Tracer.ControlStep: requires every calibrated range to be non-zero, as `Calibration.FixValue` does. The source divides by the range unchecked, which is undefined behaviour for a channel whose range is 0, and `MyMain.ConstantCalibrationZeroRange` shows a calibration with one constant reading reaches that case.
- MyMain.Tracer.ControlStep: dt and the error become reals exactly. The int-to-float conversion is exact only up to 2^24.
- `volatile` qualifiers and the debug aliases (`cdbg`, `mdbg`, `ydbg`) are not modelled.

## Findings

| source | as written | input that shows it | evidently intended | confidence | as-written member | corrected member |
|---|---|---|---|---|---|---|
| Core/Inc/mymain.hpp:155-161 | when the tick goes backwards, `wait` sets `d = u32(-1) - tick + 1`, the ticks that passed before the wrap, and restarts the count from 0 | entered at tick 2^32 - 10 with duration 1000, readings 2^32 - 5, 0, 11: `wait` returns 21 ticks after entry | return once more than `duration` ticks have elapsed, measured as the u32 difference from entry, which is already correct across the wrap | high, derived by proof, not executed | Timing.WaitReturnsEarlyAfterWrap | Timing.WaitElapsed |
