/** Motor output: a signed i16 duty turned into the two PWM compare values
    of one motor's clockwise and counter-clockwise lines, and the two motors
    on timer channels 1/2 (left) and 3/4 (right). The timer's four compare
    registers are an array, channel `k` at index `k - 1`. */
module Motor {
  import opened MachineInt

  const DutyMax: int := 24000
  const ChannelCount: nat := 4

  /** `min`: `l` when strictly smaller, otherwise `r`. */
  function Min(l: int, r: int): (m: int)
    ensures m <= l && m <= r
    ensures m == l || m == r
  {
    if l < r then l else r
  }

  /** The (cw, ccw) compare values `set_duty` writes for `duty`: zero for
      both at rest, otherwise the magnitude, capped at DutyMax, on the line
      of the duty's direction and zero on the other. The negation of an i16
      is taken in int, so -32768 gives 24000. */
  function Compares(duty: int): (c: (int, int))
    requires IsI16(duty)
    ensures 0 <= c.0 <= DutyMax && 0 <= c.1 <= DutyMax
    ensures c.0 == 0 || c.1 == 0
    ensures c.0 + c.1 == Min(Abs(duty), DutyMax)
    ensures duty >= 0 ==> c.0 == 0
    ensures duty <= 0 ==> c.1 == 0
  {
    if duty == 0 then (0, 0)
    else if duty > 0 then (0, Min(duty, DutyMax))
    else (Min(-duty, DutyMax), 0)
  }

  /** The compare values grow with the duty's magnitude until they
      saturate. */
  lemma ComparesMonotone(duty1: int, duty2: int)
    requires IsI16(duty1) && IsI16(duty2)
    ensures 0 <= duty1 <= duty2 ==> Compares(duty1).1 <= Compares(duty2).1
    ensures duty2 <= duty1 <= 0 ==> Compares(duty1).0 <= Compares(duty2).0
  {
  }

  lemma ComparesExamples()
    ensures Compares(0) == (0, 0)
    ensures Compares(1000) == (0, 1000) && Compares(-1000) == (1000, 0)
    ensures Compares(30000) == (0, DutyMax) && Compares(-32768) == (DutyMax, 0)
  {
  }

  /** The timer's compare registers and the last duties recorded per side. */
  class Motors {
    const compare: array<int>
    var lDuty: int
    var rDuty: int

    ghost predicate Valid()
    {
      compare.Length == ChannelCount
    }

    constructor()
      ensures Valid() && fresh(compare)
      ensures compare[..] == [0, 0, 0, 0] && lDuty == 0 && rDuty == 0
    {
      compare := new int[ChannelCount](_ => 0);
      lDuty, rDuty := 0, 0;
    }

    /** `set_duty`: writes the cw compare and then the ccw compare. When
        both name the same channel the second write is the one that stays. */
    method SetDuty(cw: nat, ccw: nat, duty: int)
      requires Valid() && cw < ChannelCount && ccw < ChannelCount && IsI16(duty)
      modifies compare
      ensures compare[ccw] == Compares(duty).1
      ensures cw != ccw ==> compare[cw] == Compares(duty).0
      ensures forall k :: 0 <= k < ChannelCount && k != cw && k != ccw ==> compare[k] == old(compare[k])
    {
      if duty == 0 {
        compare[cw] := 0;
        compare[ccw] := 0;
      } else if duty > 0 {
        compare[cw] := 0;
        compare[ccw] := Min(duty, DutyMax);
      } else {
        compare[cw] := Min(-duty, DutyMax);
        compare[ccw] := 0;
      }
    }

    /** `set_l_duty`: records the left duty and drives channels 1 and 2. */
    method SetLDuty(duty: int)
      requires Valid() && IsI16(duty)
      modifies this, compare
      ensures Valid()
      ensures lDuty == duty && rDuty == old(rDuty)
      ensures compare[0] == Compares(duty).0 && compare[1] == Compares(duty).1
      ensures compare[2] == old(compare[2]) && compare[3] == old(compare[3])
    {
      lDuty := duty;
      SetDuty(0, 1, duty);
    }

    /** `set_r_duty`: records the right duty and drives channels 3 and 4. */
    method SetRDuty(duty: int)
      requires Valid() && IsI16(duty)
      modifies this, compare
      ensures Valid()
      ensures rDuty == duty && lDuty == old(lDuty)
      ensures compare[2] == Compares(duty).0 && compare[3] == Compares(duty).1
      ensures compare[0] == old(compare[0]) && compare[1] == old(compare[1])
    {
      rDuty := duty;
      SetDuty(2, 3, duty);
    }
  }
}
