/** The two tick-based waits used around calibration: `wait`, a delay of a
    number of milliseconds with its own handling of tick wrap-around, and
    `wait_button`, a 500-tick debounce of the operator button. The tick
    counter and the pin are read through the HAL; here every reading is an
    element of a given sequence, consumed in order, and a method returns the
    index of the reading at which the source's loop returns, or None when
    the readings run out first (the source would go on polling). */
module Timing {
  import opened MachineInt

  datatype Option<T> = None | Some(value: T)

  /** Ticks elapsed from `from` to `to`, as the unsigned u32 difference. */
  function Elapsed(from: int, to: int): (e: int)
    requires IsU32(from) && IsU32(to)
    ensures IsU32(e)
    ensures to >= from ==> e == to - from
    ensures to < from ==> e == U32Mod - (from - to)
  {
    U32(to - from)
  }

  /** The unsigned difference recovers any true elapsed time below 2^32,
      across a wrap of the counter as well. */
  lemma ElapsedAcrossWrap(start: int, e: int)
    requires IsU32(start) && 0 <= e < U32Mod
    ensures Elapsed(start, U32(start + e)) == e
  {
  }

  predicate AllU32(readings: seq<int>)
  {
    forall k :: 0 <= k < |readings| ==> IsU32(readings[k])
  }

  // ---------------------------------------------------------------------
  // wait, as written

  /** The variables `tick` and `d` of `wait`. */
  datatype WaitState = WaitState(tick: int, d: int)

  predicate ValidWait(s: WaitState) { IsU32(s.tick) && IsU32(s.d) }

  /** How one reading `now` changes the variables of `wait`: a reading below
      `tick` is taken as a wrap, and resets `tick` to 0 and `d` to
      `u32(-1) - tick + 1`, the ticks that had passed before the wrap. */
  function WaitObserve(s: WaitState, now: int): (s': WaitState)
    requires ValidWait(s) && IsU32(now)
    ensures ValidWait(s')
    ensures now >= s.tick ==> s' == s
    ensures now < s.tick ==> s'.tick == 0 && s'.d == U32Mod - s.tick
    ensures s'.tick <= now
  {
    if now < s.tick then WaitState(0, U32(U32(U32Max - s.tick) + 1)) else s
  }

  /** The variables of `wait` after it has observed all of `readings`. */
  function WaitAfter(s: WaitState, readings: seq<int>): (s': WaitState)
    requires ValidWait(s) && AllU32(readings)
    ensures ValidWait(s')
  {
    if readings == [] then s
    else WaitObserve(WaitAfter(s, readings[..|readings| - 1]), readings[|readings| - 1])
  }

  /** `wait(duration)` entered at tick `start` returns at reading `k`. */
  ghost predicate WaitReturnsAt(duration: int, start: int, readings: seq<int>, k: nat)
    requires IsU32(duration) && IsU32(start) && AllU32(readings) && k < |readings|
  {
    var s := WaitAfter(WaitState(start, duration), readings[..k + 1]);
    Elapsed(s.tick, readings[k]) > s.d
  }

  /** `wait`: polls the tick and returns once more than `d` ticks separate
      the reading from `tick`, rebasing both on a reading that went backwards. */
  method Wait(duration: int, start: int, readings: seq<int>) returns (r: Option<nat>)
    requires IsU32(duration) && IsU32(start) && AllU32(readings)
    ensures r.Some? ==> r.value < |readings| && WaitReturnsAt(duration, start, readings, r.value)
    ensures forall j :: 0 <= j < |readings| && (r.None? || j < r.value) ==>
              !WaitReturnsAt(duration, start, readings, j)
  {
    var d := duration;
    var tick := start;
    var k := 0;
    while k < |readings|
      invariant 0 <= k <= |readings|
      invariant WaitAfter(WaitState(start, duration), readings[..k]) == WaitState(tick, d)
      invariant forall j :: 0 <= j < k ==> !WaitReturnsAt(duration, start, readings, j)
    {
      assert readings[..k + 1][..k] == readings[..k];
      var now := readings[k];
      if now < tick {
        d := U32(U32(U32Max - tick) + 1);
        tick := 0;
      }
      if U32(now - tick) > d {
        return Some(k);
      }
      k := k + 1;
    }
    return None;
  }

  /** While no reading goes below the entry tick, `wait` keeps its variables,
      so it returns exactly at the first reading more than `duration` ticks
      after entry. */
  lemma {:induction false} WaitWithoutWrap(duration: int, start: int, readings: seq<int>, k: nat)
    requires IsU32(duration) && IsU32(start) && AllU32(readings) && k < |readings|
    requires forall j :: 0 <= j <= k ==> start <= readings[j]
    ensures WaitAfter(WaitState(start, duration), readings[..k + 1]) == WaitState(start, duration)
    ensures WaitReturnsAt(duration, start, readings, k) <==> readings[k] - start > duration
  {
    var p := readings[..k + 1];
    if k > 0 {
      WaitWithoutWrap(duration, start, readings, k - 1);
      assert p[..k] == readings[..k];
    } else {
      assert p[..0] == [];
    }
  }

  /** The wrap branch does not measure the remaining time: entered 10 ticks
      before the counter wraps, `wait(1000)` returns 21 ticks after entry. */
  lemma WaitReturnsEarlyAfterWrap()
    ensures var start, readings := U32Mod - 10, [U32Mod - 5, 0, 11];
      && !WaitReturnsAt(1000, start, readings, 0)
      && !WaitReturnsAt(1000, start, readings, 1)
      && WaitReturnsAt(1000, start, readings, 2)
      && Elapsed(start, readings[2]) == 21
  {
    var start, readings := U32Mod - 10, [U32Mod - 5, 0, 11];
    var s0 := WaitState(start, 1000);
    assert readings[..1] == [U32Mod - 5] && readings[..1][..0] == [];
    assert readings[..2][..1] == readings[..1];
    assert readings[..3][..2] == readings[..2];
    assert WaitAfter(s0, readings[..1]) == s0;
    assert WaitAfter(s0, readings[..2]) == WaitState(0, 10);
    assert WaitAfter(s0, readings[..3]) == WaitState(0, 10);
  }

  // ---------------------------------------------------------------------
  // wait, as evidently intended

  /** The delay `wait` evidently intends: return at the first reading more
      than `duration` ticks after entry, the elapsed time taken as the u32
      difference, which is already correct across a wrap. */
  method WaitElapsed(duration: int, start: int, readings: seq<int>) returns (r: Option<nat>)
    requires IsU32(duration) && IsU32(start) && AllU32(readings)
    ensures r.Some? ==> r.value < |readings| && Elapsed(start, readings[r.value]) > duration
    ensures forall j :: 0 <= j < |readings| && (r.None? || j < r.value) ==>
              Elapsed(start, readings[j]) <= duration
  {
    for k := 0 to |readings|
      invariant forall j :: 0 <= j < k ==> Elapsed(start, readings[j]) <= duration
    {
      if U32(readings[k] - start) > duration {
        return Some(k);
      }
    }
    return None;
  }

  // ---------------------------------------------------------------------
  // wait_button

  datatype PinState = Reset | Set

  /** One pass of the `wait_button` loop: the pin reading, the tick read when
      the pin differs from the awaited state, and the tick read for the
      comparison. */
  datatype Poll = Poll(pin: PinState, changeTick: int, checkTick: int)

  predicate ValidPolls(polls: seq<Poll>)
  {
    forall k :: 0 <= k < |polls| ==> IsU32(polls[k].changeTick) && IsU32(polls[k].checkTick)
  }

  /** The value of `tick` after `polls`: the tick of the last poll whose pin
      differed from `state`, or the entry tick if there was none. */
  function LastChange(state: PinState, start: int, polls: seq<Poll>): (t: int)
    requires IsU32(start) && ValidPolls(polls)
    ensures IsU32(t)
  {
    if polls == [] then start
    else if polls[|polls| - 1].pin != state then polls[|polls| - 1].changeTick
    else LastChange(state, start, polls[..|polls| - 1])
  }

  /** `wait_button(state)` entered at tick `start` returns at poll `k`. */
  ghost predicate StableAt(state: PinState, start: int, polls: seq<Poll>, k: nat)
    requires IsU32(start) && ValidPolls(polls) && k < |polls|
  {
    Elapsed(LastChange(state, start, polls[..k + 1]), polls[k].checkTick) > 500
  }

  /** `wait_button`: restarts the timer at every poll whose pin differs from
      `state`, and returns once more than 500 ticks have passed since. */
  method WaitButton(state: PinState, start: int, polls: seq<Poll>) returns (r: Option<nat>)
    requires IsU32(start) && ValidPolls(polls)
    ensures r.Some? ==> r.value < |polls| && StableAt(state, start, polls, r.value)
    ensures forall j :: 0 <= j < |polls| && (r.None? || j < r.value) ==>
              !StableAt(state, start, polls, j)
  {
    var tick := start;
    var k := 0;
    while k < |polls|
      invariant 0 <= k <= |polls|
      invariant tick == LastChange(state, start, polls[..k])
      invariant forall j :: 0 <= j < k ==> !StableAt(state, start, polls, j)
    {
      assert polls[..k + 1][..k] == polls[..k];
      if polls[k].pin != state {
        tick := polls[k].changeTick;
      }
      if U32(polls[k].checkTick - tick) > 500 {
        return Some(k);
      }
      k := k + 1;
    }
    return None;
  }

  /** The timer of `wait_button` is measured from the last poll at which the
      pin differed from `state`: when poll `j` differs and every later poll
      reads `state`, the timer restarted at poll `j`'s tick. */
  lemma {:induction false} LastChangeAtLastDiffering(state: PinState, start: int, polls: seq<Poll>, j: nat)
    requires IsU32(start) && ValidPolls(polls) && j < |polls|
    requires polls[j].pin != state
    requires forall i :: j < i < |polls| ==> polls[i].pin == state
    ensures LastChange(state, start, polls) == polls[j].changeTick
  {
    var n := |polls|;
    if j < n - 1 {
      var init := polls[..n - 1];
      assert init[j] == polls[j];
      LastChangeAtLastDiffering(state, start, init, j);
    }
  }

  /** With no poll differing from `state`, the timer runs from entry. */
  lemma {:induction false} LastChangeWithoutChange(state: PinState, start: int, polls: seq<Poll>)
    requires IsU32(start) && ValidPolls(polls)
    requires forall i :: 0 <= i < |polls| ==> polls[i].pin == state
    ensures LastChange(state, start, polls) == start
  {
    if polls != [] {
      LastChangeWithoutChange(state, start, polls[..|polls| - 1]);
    }
  }
}
