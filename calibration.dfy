/** Calibration and normalisation of the eight reflectance channels: the
    averaging of sample-buffer snapshots into per-channel bounds, the u16
    range of each channel, and the fixed-point ratio a raw reading maps to. */
module Calibration {
  import opened MachineInt

  const ChannelNum: nat := 8
  /** Number of buffer snapshots averaged by one calibration pass. */
  const SnapshotCount: nat := 200
  /** Fixed-point scale of a normalised reading: the calibrated span maps onto [0, FixScale]. */
  const FixScale: int := 10000
  const U16Max: int := 0xFFFF

  /** A snapshot of the sample buffer: one u16 reading per channel. */
  predicate IsSnapshot(s: seq<int>)
  {
    |s| == ChannelNum && forall c :: 0 <= c < ChannelNum ==> IsU16(s[c])
  }

  predicate AllSnapshots(snapshots: seq<seq<int>>)
  {
    forall k :: 0 <= k < |snapshots| ==> IsSnapshot(snapshots[k])
  }

  /** Sum of channel `c` over the snapshots, accumulated in order. */
  function ChannelSum(snapshots: seq<seq<int>>, c: nat): int
    requires c < ChannelNum && AllSnapshots(snapshots)
  {
    if snapshots == [] then 0
    else ChannelSum(snapshots[..|snapshots| - 1], c) + snapshots[|snapshots| - 1][c]
  }

  lemma {:induction false} ChannelSumBounds(snapshots: seq<seq<int>>, c: nat, lo: int, hi: int)
    requires c < ChannelNum && AllSnapshots(snapshots)
    requires forall k :: 0 <= k < |snapshots| ==> lo <= snapshots[k][c] <= hi
    ensures |snapshots| * lo <= ChannelSum(snapshots, c) <= |snapshots| * hi
  {
    if snapshots != [] {
      var n := |snapshots|;
      ChannelSumBounds(snapshots[..n - 1], c, lo, hi);
      assert (n - 1) * lo + lo == n * lo && (n - 1) * hi + hi == n * hi;
    }
  }

  /** The u32 accumulator of calibrate_photos never wraps: the sum of up to
      200 u16 readings is at most 200 * 65535 < 2^32. */
  lemma ChannelSumFitsU32(snapshots: seq<seq<int>>, c: nat)
    requires c < ChannelNum && AllSnapshots(snapshots) && |snapshots| <= SnapshotCount
    ensures 0 <= ChannelSum(snapshots, c) <= |snapshots| * U16Max
    ensures IsU32(ChannelSum(snapshots, c))
  {
    ChannelSumBounds(snapshots, c, 0, U16Max);
  }

  /** Average of channel `c` over a full calibration pass, as u32 division. */
  function ChannelAverage(snapshots: seq<seq<int>>, c: nat): int
    requires c < ChannelNum && AllSnapshots(snapshots) && |snapshots| == SnapshotCount
  {
    ChannelSum(snapshots, c) / SnapshotCount
  }

  /** The average lies between any bounds that every sample of the channel
      respects, in particular between its smallest and largest sample. */
  lemma AverageBetween(snapshots: seq<seq<int>>, c: nat, lo: int, hi: int)
    requires c < ChannelNum && AllSnapshots(snapshots) && |snapshots| == SnapshotCount
    requires forall k :: 0 <= k < |snapshots| ==> lo <= snapshots[k][c] <= hi
    ensures lo <= ChannelAverage(snapshots, c) <= hi
  {
    ChannelSumBounds(snapshots, c, lo, hi);
  }

  /** A constant stream V averages to exactly V. */
  lemma ConstantStreamAverage(snapshots: seq<seq<int>>, c: nat, v: int)
    requires c < ChannelNum && AllSnapshots(snapshots) && |snapshots| == SnapshotCount
    requires forall k :: 0 <= k < |snapshots| ==> snapshots[k][c] == v
    ensures ChannelAverage(snapshots, c) == v
  {
    ChannelSumBounds(snapshots, c, v, v);
  }

  lemma AverageIsU16(snapshots: seq<seq<int>>, c: nat)
    requires c < ChannelNum && AllSnapshots(snapshots) && |snapshots| == SnapshotCount
    ensures IsU16(ChannelAverage(snapshots, c))
  {
    AverageBetween(snapshots, c, 0, U16Max);
  }

  /** calibrate_photos: accumulates the 200 snapshots channel by channel into
      a u32 sum array, then writes each sum divided by 200 into `output`.
      The one-tick wait between snapshots is where the hardware refreshes the
      buffer; here the snapshots are given. */
  method CalibratePhotos(snapshots: seq<seq<int>>, output: array<int>)
    requires |snapshots| == SnapshotCount && AllSnapshots(snapshots)
    requires output.Length == ChannelNum
    modifies output
    ensures forall c :: 0 <= c < ChannelNum ==> output[c] == ChannelAverage(snapshots, c)
    ensures forall c :: 0 <= c < ChannelNum ==> IsU16(output[c])
  {
    var sum := new int[ChannelNum](_ => 0);
    for k := 0 to SnapshotCount
      invariant forall c :: 0 <= c < ChannelNum ==> sum[c] == ChannelSum(snapshots[..k], c)
    {
      assert snapshots[..k + 1][..k] == snapshots[..k];
      for c := 0 to ChannelNum
        invariant forall c' :: 0 <= c' < c ==> sum[c'] == ChannelSum(snapshots[..k + 1], c')
        invariant forall c' :: c <= c' < ChannelNum ==> sum[c'] == ChannelSum(snapshots[..k], c')
      {
        ChannelSumFitsU32(snapshots[..k + 1], c);
        sum[c] := U32(sum[c] + snapshots[k][c]);
      }
    }
    assert snapshots[..SnapshotCount] == snapshots;
    for c := 0 to ChannelNum
      invariant forall c' :: 0 <= c' < ChannelNum ==> sum[c'] == ChannelSum(snapshots, c')
      invariant forall c' :: 0 <= c' < c ==> output[c'] == ChannelAverage(snapshots, c')
    {
      AverageIsU16(snapshots, c);
      output[c] := U16(sum[c] / SnapshotCount);
    }
    forall c | 0 <= c < ChannelNum ensures IsU16(output[c]) {
      AverageIsU16(snapshots, c);
    }
  }

  /** The calibrated range of a channel, `max - min` stored into a u16. */
  function Range(maxRaw: int, minRaw: int): (r: int)
    requires IsU16(maxRaw) && IsU16(minRaw)
    ensures IsU16(r)
    ensures maxRaw >= minRaw ==> r == maxRaw - minRaw
    ensures maxRaw < minRaw ==> r == U16Mod - (minRaw - maxRaw)
  {
    U16(maxRaw - minRaw)
  }

  /** A range is zero exactly when the two bounds coincide; an inverted pair
      wraps to a non-zero value instead of going negative. */
  lemma RangeZeroIffEqual(maxRaw: int, minRaw: int)
    requires IsU16(maxRaw) && IsU16(minRaw)
    ensures Range(maxRaw, minRaw) == 0 <==> maxRaw == minRaw
    ensures maxRaw < minRaw ==> Range(maxRaw, minRaw) > maxRaw
  {
  }

  lemma DivAtMost(a: int, b: int, c: int)
    requires b > 0 && 0 <= a <= b * c
    ensures a / b <= c
  {
  }

  lemma PositiveFactor(b: int, k: int)
    requires b > 0 && b * k > 0
    ensures k > 0
  {
  }

  lemma DivAtLeast(a: int, b: int, c: int)
    requires b > 0 && a >= b * c
    ensures a / b >= c
  {
    var q := a / b;
    assert a == b * q + a % b && a % b < b;
    assert b * (q - c + 1) == b * q - b * c + b;
    PositiveFactor(b, q - c + 1);
  }

  /** The product `(v - smin) * 10000` of fix_value fits in i32, since both
      operands are u16 readings. */
  lemma FixProductFitsI32(v: int, smin: int)
    requires IsU16(v) && IsU16(smin)
    ensures IsI32((v - smin) * FixScale)
  {
  }

  /** fix_value: the fixed-point ratio `(v - smin) * 10000 / srange` with C's
      truncating division. The source divides without checking `srange`, so
      it must not be zero. */
  function FixValue(v: int, smin: int, srange: int): int
    requires IsU16(v) && IsU16(smin) && IsU16(srange) && srange != 0
  {
    Quot((v - smin) * FixScale, srange)
  }

  /** With a positive divisor the truncating quotient of a non-negative
      dividend is the floor quotient, and of a negative one its mirror. */
  lemma QuotPositiveDivisor(a: int, b: int)
    requires b > 0
    ensures a >= 0 ==> Quot(a, b) == a / b
    ensures a < 0 ==> Quot(a, b) == -((-a) / b)
  {
  }

  /** The calibrated bounds map exactly onto 0 and 10000. */
  lemma FixValueEndpoints(smin: int, srange: int)
    requires IsU16(smin) && IsU16(srange) && srange != 0
    ensures IsU16(smin + srange) ==> FixValue(smin + srange, smin, srange) == FixScale
    ensures FixValue(smin, smin, srange) == 0
  {
    QuotPositiveDivisor(srange * FixScale, srange);
    QuotPositiveDivisor(0, srange);
  }

  /** Readings on the calibrated span map into [0, 10000]. */
  lemma FixValueInSpan(v: int, smin: int, srange: int)
    requires IsU16(v) && IsU16(smin) && IsU16(srange) && srange != 0
    requires smin <= v <= smin + srange
    ensures 0 <= FixValue(v, smin, srange) <= FixScale
  {
    var a := (v - smin) * 10000;
    assert 0 <= a <= srange * 10000;
    DivAtMost(a, srange, 10000);
    DivAtLeast(a, srange, 0);
    QuotPositiveDivisor(a, srange);
  }

  /** Readings outside the span are not clamped: below it they give at
      most 0, above it at least 10000. */
  lemma FixValueOutsideSpan(v: int, smin: int, srange: int)
    requires IsU16(v) && IsU16(smin) && IsU16(srange) && srange != 0
    ensures v < smin ==> FixValue(v, smin, srange) <= 0
    ensures v > smin + srange ==> FixValue(v, smin, srange) >= FixScale
  {
    var a := (v - smin) * 10000;
    if v < smin {
      assert -a > 0;
      DivAtLeast(-a, srange, 0);
      QuotPositiveDivisor(a, srange);
    } else if v > smin + srange {
      assert a >= srange * 10000;
      DivAtLeast(a, srange, 10000);
      QuotPositiveDivisor(a, srange);
    }
  }

  /** The result fits the i32 the source returns. */
  lemma FixValueFitsI32(v: int, smin: int, srange: int)
    requires IsU16(v) && IsU16(smin) && IsU16(srange) && srange != 0
    ensures IsI32(FixValue(v, smin, srange))
  {
    FixProductFitsI32(v, smin);
    var a := (v - smin) * FixScale;
    QuotPositiveDivisor(a, srange);
    if a >= 0 {
      DivAtMost(a, srange, U16Max * FixScale);
    } else {
      DivAtMost(-a, srange, U16Max * FixScale);
    }
  }
}
