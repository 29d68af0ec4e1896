/** The register words `init_dma` and `init_adc` compose before storing them:
    bit-field arithmetic over the masks and shifts of the DMA channel
    configuration register and the ADC control, sample-time and regular
    sequence registers. The stores themselves, the stabilisation delay and
    the calibration polling are hardware I/O. */
module Registers {
  import Calibration

  // DMA channel x configuration register (CCRx) fields
  const Mem2Mem: bv32 := 0x4000
  const PriorityLevel: bv32 := 0x3000
  const PriorityLevelShift: nat := 12
  const MemorySize: bv32 := 0x0C00
  const MemorySizeShift: nat := 10
  const PeripheralSize: bv32 := 0x0300
  const PeripheralSizeShift: nat := 8
  const MemoryIncrement: bv32 := 0x80
  const PeripheralIncrement: bv32 := 0x40
  const Circular: bv32 := 0x20
  const Direction: bv32 := 0x10
  const TransferErrorIrq: bv32 := 0x08
  const HalfTransferIrq: bv32 := 0x04
  const TransferCompleteIrq: bv32 := 0x02
  const Enable: bv32 := 0x01

  const PriorityLow: bv32 := 0
  const DataSize16: bv32 := 1
  const DataSize32: bv32 := 2

  // ADC control and regular sequence register fields
  const Scan: bv32 := 0x100
  const DmaMode: bv32 := 0x100
  const Continuous: bv32 := 0x02
  const ResetCalibration: bv32 := 0x08
  const SequenceLength: bv32 := 0x00F0_0000
  const SequenceLengthShift: nat := 20

  /** The CCR value `init_dma` writes for the ADC's DMA channel: a circular,
      memory-incrementing, peripheral-to-memory transfer of 32-bit peripheral
      words into 16-bit memory words at low priority, enabled, with no
      interrupt; every other bit is clear. */
  function DmaChannelConfig(): (ccr: bv32)
    ensures ccr & MemoryIncrement != 0 && ccr & Circular != 0 && ccr & Enable != 0
    ensures ccr & (Mem2Mem | PeripheralIncrement | Direction) == 0
    ensures ccr & (TransferErrorIrq | HalfTransferIrq | TransferCompleteIrq) == 0
    ensures (ccr & MemorySize) >> MemorySizeShift == DataSize16
    ensures (ccr & PeripheralSize) >> PeripheralSizeShift == DataSize32
    ensures (ccr & PriorityLevel) >> PriorityLevelShift == PriorityLow
    ensures ccr & !(MemoryIncrement | Circular | Enable | MemorySize | PeripheralSize) == 0
  {
    var ccr: bv32 := 0;
    var ccr := ccr & !Mem2Mem;
    var ccr := ccr | (PriorityLow << PriorityLevelShift);
    var ccr := ccr | (DataSize16 << MemorySizeShift);
    var ccr := ccr | (DataSize32 << PeripheralSizeShift);
    var ccr := ccr | MemoryIncrement;
    var ccr := ccr & !PeripheralIncrement;
    var ccr := ccr | Circular;
    var ccr := ccr & !Direction;
    var ccr := ccr & !TransferErrorIrq;
    var ccr := ccr & !HalfTransferIrq;
    var ccr := ccr & !TransferCompleteIrq;
    ccr | Enable
  }

  /** The OR of the first `n` entries of `order`, entry `k` shifted left by
      `5 * k`: the packing of a regular sequence register. The count is a
      u32, like the source's loop counter. */
  function Packed(order: seq<bv8>, n: bv32): bv32
    requires n as int <= |order| && n <= 6
    decreases n
  {
    if n == 0 then 0
    else Packed(order, n - 1) | ((order[n - 1] as bv32) << (5 * (n - 1)))
  }

  /** Five-bit field `k` of a register word. */
  function Field(w: bv32, k: bv32): bv32
    requires k < 6
  {
    (w >> (5 * k)) & 0x1F
  }

  /** Six 5-bit fields side by side. */
  function SixFields(f0: bv32, f1: bv32, f2: bv32, f3: bv32, f4: bv32, f5: bv32): bv32
  {
    f0 | (f1 << 5) | (f2 << 10) | (f3 << 15) | (f4 << 20) | (f5 << 25)
  }

  /** Fields that fit in five bits are read back unchanged. */
  lemma SixFieldsRead(f0: bv32, f1: bv32, f2: bv32, f3: bv32, f4: bv32, f5: bv32)
    requires f0 < 32 && f1 < 32 && f2 < 32 && f3 < 32 && f4 < 32 && f5 < 32
    ensures var w := SixFields(f0, f1, f2, f3, f4, f5);
      Field(w, 0) == f0 && Field(w, 1) == f1 && Field(w, 2) == f2
      && Field(w, 3) == f3 && Field(w, 4) == f4 && Field(w, 5) == f5
  {
  }

  /** Entry `k` of the first `n` entries of `order`, 0 past them. */
  function Entry(order: seq<bv8>, n: nat, k: nat): bv32
    requires n <= |order|
  {
    if k < n then order[k] as bv32 else 0
  }

  /** The packing of the first `n` entries, written out field by field. */
  ghost predicate PackedIsFields(order: seq<bv8>, n: bv32)
    requires n as int <= |order| && n <= 6
  {
    var m := n as nat;
    Packed(order, n) == SixFields(Entry(order, m, 0), Entry(order, m, 1), Entry(order, m, 2),
                                  Entry(order, m, 3), Entry(order, m, 4), Entry(order, m, 5))
  }

  // One unfolding of Packed per lemma keeps every proof small.

  lemma PackedTwo(order: seq<bv8>)
    requires |order| >= 2
    ensures PackedIsFields(order, 2)
  {
    assert Packed(order, 1) == order[0] as bv32;
  }

  lemma PackedThree(order: seq<bv8>)
    requires |order| >= 3
    ensures PackedIsFields(order, 3)
  {
    PackedTwo(order);
  }

  lemma PackedFour(order: seq<bv8>)
    requires |order| >= 4
    ensures PackedIsFields(order, 4)
  {
    PackedThree(order);
  }

  lemma PackedFive(order: seq<bv8>)
    requires |order| >= 5
    ensures PackedIsFields(order, 5)
  {
    PackedFour(order);
  }

  lemma PackedSix(order: seq<bv8>)
    requires |order| >= 6
    ensures PackedIsFields(order, 6)
  {
    PackedFive(order);
  }

  /** Packing six channel numbers that fit the 5-bit field lets each be read
      back from its own field (SQR3 holds conversions 1 to 6). */
  lemma FieldsOfPackedSix(order: seq<bv8>)
    requires |order| >= 6
    requires order[0] < 32 && order[1] < 32 && order[2] < 32
    requires order[3] < 32 && order[4] < 32 && order[5] < 32
    ensures var w := Packed(order, 6);
      Field(w, 0) == order[0] as bv32 && Field(w, 1) == order[1] as bv32
      && Field(w, 2) == order[2] as bv32 && Field(w, 3) == order[3] as bv32
      && Field(w, 4) == order[4] as bv32 && Field(w, 5) == order[5] as bv32
  {
    PackedSix(order);
    SixFieldsRead(order[0] as bv32, order[1] as bv32, order[2] as bv32,
                  order[3] as bv32, order[4] as bv32, order[5] as bv32);
  }

  /** The same for the two channel numbers of SQR2 (conversions 7 and 8);
      the fields above them stay clear. */
  lemma FieldsOfPackedTwo(order: seq<bv8>)
    requires |order| >= 2 && order[0] < 32 && order[1] < 32
    ensures var w := Packed(order, 2);
      Field(w, 0) == order[0] as bv32 && Field(w, 1) == order[1] as bv32
      && Field(w, 2) == 0 && Field(w, 3) == 0 && Field(w, 4) == 0 && Field(w, 5) == 0
  {
    PackedTwo(order);
    SixFieldsRead(order[0] as bv32, order[1] as bv32, 0, 0, 0, 0);
  }

  /** The first two blocks of `init_adc`: control register 1 turns on scan
      mode; control register 2 turns on DMA requests and continuous
      conversion and starts the calibration reset. */
  method AdcControlWords() returns (cr1: bv32, cr2: bv32)
    ensures cr1 == Scan
    ensures cr2 & DmaMode != 0 && cr2 & Continuous != 0 && cr2 & ResetCalibration != 0
    ensures cr2 & !(DmaMode | Continuous | ResetCalibration) == 0
  {
    cr1 := 0;
    cr1 := cr1 | Scan;

    cr2 := 0;
    cr2 := cr2 | DmaMode;
    cr2 := cr2 | Continuous;
    cr2 := cr2 | ResetCalibration;
  }

  /** Sample-time register 2: the shortest sample time, 0b000, for each of
      the eight channels. */
  method SampleTimeWord() returns (smpr2: bv32)
    ensures smpr2 == 0
  {
    smpr2 := 0;
    var i: bv32 := 0;
    while i < Calibration.ChannelNum as bv32
      invariant smpr2 == 0
    {
      smpr2 := smpr2 | (0 << (3 * i));
      i := i + 1;
    }
  }

  /** The regular sequence registers: SQR1 holds the sequence length minus
      one, SQR3 the channels of conversions 1 to 6 and SQR2 those of
      conversions 7 and 8, five bits each. `scan_order[i] << (5 * i)`
      shifts a u8 promoted to int; the shift keeps the low 32 bits of the
      two's complement pattern, which is what the OR into the u32 sees. */
  method SequenceWords(scanOrder: seq<bv8>) returns (sqr1: bv32, sqr2: bv32, sqr3: bv32)
    requires |scanOrder| >= Calibration.ChannelNum
    ensures (sqr1 & SequenceLength) >> SequenceLengthShift == (Calibration.ChannelNum - 1) as bv32
    ensures sqr1 & !SequenceLength == 0
    ensures sqr3 == Packed(scanOrder, 6) && sqr2 == Packed(scanOrder[6..], 2)
  {
    sqr1 := (Calibration.ChannelNum - 1) as bv32 << SequenceLengthShift;
    sqr2 := 0;
    sqr3 := 0;
    var i: bv32 := 0;
    while i < 6
      invariant i <= 6
      invariant sqr3 == Packed(scanOrder, i)
    {
      sqr3 := sqr3 | ((scanOrder[i] as bv32) << (5 * i));
      i := i + 1;
    }
    var tail := scanOrder[6..];
    i := 6;
    while i < 8
      invariant 6 <= i <= 8
      invariant sqr2 == Packed(tail, i - 6)
    {
      assert tail[i - 6] == scanOrder[i];
      sqr2 := sqr2 | ((scanOrder[i] as bv32) << (5 * (i - 6)));
      i := i + 1;
    }
  }

  /** With every channel number below 32, each conversion's channel is read
      back from its own field of SQR3 or SQR2. */
  lemma SequenceFieldsRead(scanOrder: seq<bv8>)
    requires |scanOrder| >= Calibration.ChannelNum
    requires forall k :: 0 <= k < Calibration.ChannelNum ==> scanOrder[k] < 32
    ensures var sqr3, sqr2 := Packed(scanOrder, 6), Packed(scanOrder[6..], 2);
      Field(sqr3, 0) == scanOrder[0] as bv32 && Field(sqr3, 1) == scanOrder[1] as bv32
      && Field(sqr3, 2) == scanOrder[2] as bv32 && Field(sqr3, 3) == scanOrder[3] as bv32
      && Field(sqr3, 4) == scanOrder[4] as bv32 && Field(sqr3, 5) == scanOrder[5] as bv32
      && Field(sqr2, 0) == scanOrder[6] as bv32 && Field(sqr2, 1) == scanOrder[7] as bv32
  {
    FieldsOfPackedSix(scanOrder);
    FieldsOfPackedTwo(scanOrder[6..]);
  }

  /** The scan order `init` passes, channels 0 to 7 in turn: conversion `k`
      reads channel `k`. */
  lemma DefaultScanOrder()
    ensures var order: seq<bv8> := [0, 1, 2, 3, 4, 5, 6, 7];
      var sqr3, sqr2 := Packed(order, 6), Packed(order[6..], 2);
      Field(sqr3, 0) == 0 && Field(sqr3, 1) == 1 && Field(sqr3, 2) == 2
      && Field(sqr3, 3) == 3 && Field(sqr3, 4) == 4 && Field(sqr3, 5) == 5
      && Field(sqr2, 0) == 6 && Field(sqr2, 1) == 7
  {
    SequenceFieldsRead([0, 1, 2, 3, 4, 5, 6, 7]);
  }
}
