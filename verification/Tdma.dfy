/** TDMA time (hyperframe / multiframe / frame / slot) and its arithmetic modulo the
    65536-hyperframe rollover. */
module Tdma {

  /** Slots after which the integer time wraps to 0. */
  const TIME_INT_WRAP: int := 4 * 18 * 60 * 65536

  const I32_MIN: int := -0x8000_0000
  const I32_MAX: int := 0x7fff_ffff

  predicate FitsI32(x: int) {
    I32_MIN <= x <= I32_MAX
  }

  /** t: slot 1..4, f: frame 1..18, m: multiframe 1..60, h: hyperframe 0..65535. */
  datatype TdmaTime = TdmaTime(t: int, f: int, m: int, h: int) {

    predicate Valid() {
      1 <= t <= 4 && 1 <= f <= 18 && 1 <= m <= 60 && 0 <= h < 65536
    }

    function ToInt(): int {
      (t - 1) + (f - 1) * 4 + (m - 1) * 72 + h * 4320
    }

    function AddTimeslots(n: int): (r: TdmaTime)
      requires FitsI32(ToInt() + n)
      ensures r.Valid()
    {
      FromInt(ToInt() + n)
    }

    /** The signed distance the source computes with `diff`. */
    function Diff(b: TdmaTime): int {
      WrapDiff(ToInt(), b.ToInt())
    }

    function ForwardToTimeslot(ts: int): (r: TdmaTime)
      requires Valid() && 1 <= ts <= 4
      ensures r.Valid()
    {
      AddTimeslots((ts + 4 - t) % 4)
    }
  }

  const DEFAULT_TIME := TdmaTime(1, 1, 1, 0)

  /** What every clock value in the stack is. */
  type Time = a: TdmaTime | a.Valid() witness DEFAULT_TIME

  /** The hyperframe is narrowed to 16 bits; everything else uses Euclidean remainders. */
  function FromInt(time: int): (r: TdmaTime)
    ensures r.Valid()
  {
    TdmaTime(time % 4 + 1, time / 4 % 18 + 1, time / 72 % 60 + 1, time / 4320 % 65536)
  }

  /** The representative of a - b in [-WRAP/2, WRAP/2). */
  function WrapDiff(a: int, b: int): int {
    (a - b + TIME_INT_WRAP / 2) % TIME_INT_WRAP - TIME_INT_WRAP / 2
  }

  /** The two correction loops of the source land on the one representative of a - b
      inside the half-open window. */
  method TimeIntDiff(a: int, b: int) returns (diff: int)
    requires FitsI32(a) && FitsI32(b) && FitsI32(a - b)
    ensures -TIME_INT_WRAP / 2 <= diff < TIME_INT_WRAP / 2
    ensures (a - b - diff) % TIME_INT_WRAP == 0
    ensures diff == WrapDiff(a, b)
  {
    diff := a - b;
    ghost var k := 0;
    while diff < -(TIME_INT_WRAP / 2)
      invariant a - b == diff + k * TIME_INT_WRAP
      invariant diff >= TIME_INT_WRAP / 2 ==> k == 0
      decreases -diff
    {
      diff := diff + TIME_INT_WRAP;
      k := k - 1;
    }
    while diff >= TIME_INT_WRAP / 2
      invariant a - b == diff + k * TIME_INT_WRAP
      invariant -(TIME_INT_WRAP / 2) <= diff
    {
      diff := diff - TIME_INT_WRAP;
      k := k + 1;
    }
    RepresentativeUnique(a - b, diff, k);
  }

  lemma RepresentativeUnique(x: int, d: int, k: int)
    requires x == d + k * TIME_INT_WRAP
    requires -(TIME_INT_WRAP / 2) <= d < TIME_INT_WRAP / 2
    ensures (x - d) % TIME_INT_WRAP == 0
    ensures (x + TIME_INT_WRAP / 2) % TIME_INT_WRAP - TIME_INT_WRAP / 2 == d
  {
    DivModUnique(x - d, TIME_INT_WRAP, k, 0);
    DivModUnique(x + TIME_INT_WRAP / 2, TIME_INT_WRAP, k, d + TIME_INT_WRAP / 2);
  }

  lemma MulAtLeast(a: int, d: int)
    requires a >= 1 && d > 0
    ensures a * d >= d
  {
  }

  lemma DivModUnique(x: int, d: int, q: int, r: int)
    requires d > 0 && x == q * d + r && 0 <= r < d
    ensures x / d == q && x % d == r
  {
    var p := x / d;
    assert x == p * d + x % d;
    if p > q {
      MulAtLeast(p - q, d);
    } else if p < q {
      MulAtLeast(q - p, d);
    }
  }

  lemma WrapDiffShift(x: int, y: int, d: int, k: int)
    requires x - y == d + k * TIME_INT_WRAP && -(TIME_INT_WRAP / 2) <= d < TIME_INT_WRAP / 2
    ensures WrapDiff(x % TIME_INT_WRAP, y % TIME_INT_WRAP) == d
  {
    var i, j := x / TIME_INT_WRAP, y / TIME_INT_WRAP;
    assert x == i * TIME_INT_WRAP + x % TIME_INT_WRAP && y == j * TIME_INT_WRAP + y % TIME_INT_WRAP;
    RepresentativeUnique(x % TIME_INT_WRAP - y % TIME_INT_WRAP, d, k + j - i);
  }

  /** Reducing both instants modulo the wrap does not change their distance. */
  lemma WrapDiffMod(x: int, y: int)
    requires -(TIME_INT_WRAP / 2) <= x - y < TIME_INT_WRAP / 2
    ensures WrapDiff(x % TIME_INT_WRAP, y % TIME_INT_WRAP) == x - y
  {
    WrapDiffShift(x, y, x - y, 0);
  }

  /** The mixed-radix digits of an integer, read off one by one. */
  lemma FromIntDigits(x: int, a: TdmaTime, k: int)
    requires a.Valid() && x == a.ToInt() + k * TIME_INT_WRAP
    ensures FromInt(x) == a
  {
    var h := a.h + 65536 * k;
    DivModUnique(x, 4, (a.f - 1) + 18 * (a.m - 1) + 1080 * h, a.t - 1);
    DivModUnique(x / 4, 18, (a.m - 1) + 60 * h, a.f - 1);
    DivModUnique(x, 72, (a.m - 1) + 60 * h, (a.t - 1) + 4 * (a.f - 1));
    DivModUnique(x / 72, 60, h, a.m - 1);
    DivModUnique(x, 4320, h, (a.t - 1) + 4 * (a.f - 1) + 72 * (a.m - 1));
    DivModUnique(h, 65536, k, a.h);
  }

  lemma WrapDiffStep(x: int, y: int)
    requires WrapDiff(x, y) < TIME_INT_WRAP / 2 - 1
    ensures WrapDiff((x + 1) % TIME_INT_WRAP, y) == WrapDiff(x, y) + 1
  {
    var q, k := (x - y + TIME_INT_WRAP / 2) / TIME_INT_WRAP, (x + 1) / TIME_INT_WRAP;
    var r := (x + 1) % TIME_INT_WRAP;
    assert x - y == WrapDiff(x, y) + q * TIME_INT_WRAP;
    assert x + 1 == k * TIME_INT_WRAP + r;
    WrapDiffIs(r, y, WrapDiff(x, y) + 1, q - k);
  }

  lemma WrapDiffIs(x: int, y: int, d: int, k: int)
    requires x - y == d + k * TIME_INT_WRAP && -(TIME_INT_WRAP / 2) <= d < TIME_INT_WRAP / 2
    ensures WrapDiff(x, y) == d
  {
    RepresentativeUnique(x - y, d, k);
  }

  lemma WrapDiffReduced(x: int, y: int)
    requires -(TIME_INT_WRAP / 2) <= x - y < TIME_INT_WRAP / 2 && 0 <= y < TIME_INT_WRAP
    ensures WrapDiff(x % TIME_INT_WRAP, y) == x - y
  {
    hide WrapDiff;
    WrapDiffMod(x, y);
    DivModUnique(y, TIME_INT_WRAP, 0, y);
  }

  /** Converting to an integer and back is the identity on valid times ... */
  lemma FromIntToInt(a: TdmaTime)
    requires a.Valid()
    ensures FromInt(a.ToInt()) == a
  {
    FromIntDigits(a.ToInt(), a, 0);
  }

  /** ... and the other way round it is reduction modulo the wrap, for negative times too. */
  lemma ToIntFromInt(n: int)
    ensures FromInt(n).Valid()
    ensures FromInt(n).ToInt() == n % TIME_INT_WRAP
  {
    var s, f, m, h := n % 4, n / 4 % 18, n / 72 % 60, n / 4320 % 65536;
    assert n / 4 / 18 == n / 72 && n / 72 / 60 == n / 4320;
    var k := n / 4320 / 65536;
    assert n == s + 4 * f + 72 * m + 4320 * h + TIME_INT_WRAP * k;
    DivModUnique(n, TIME_INT_WRAP, k, s + 4 * f + 72 * m + 4320 * h);
  }

  /** `diff` undoes `add_timeslots` for every offset in the half-open window, also across
      the hyperframe rollover and for negative offsets. */
  lemma DiffUndoesAdd(a: TdmaTime, n: int)
    requires a.Valid()
    requires -(TIME_INT_WRAP / 2) <= n < TIME_INT_WRAP / 2
    ensures a.AddTimeslots(n).Valid()
    ensures a.AddTimeslots(n).Diff(a) == n
  {
    hide FromInt, WrapDiff;
    var x, y := a.ToInt() + n, a.ToInt();
    assert 0 <= y < TIME_INT_WRAP;
    ToIntFromInt(x);
    WrapDiffReduced(x, y);
    assert a.AddTimeslots(n) == FromInt(x);
  }

  /** Stepping one slot forward ages every earlier instant by exactly one slot. */
  lemma DiffStep(now: TdmaTime, t: TdmaTime)
    requires now.Valid() && t.Valid()
    requires now.Diff(t) < TIME_INT_WRAP / 2 - 1
    ensures now.AddTimeslots(1).Valid()
    ensures now.AddTimeslots(1).Diff(t) == now.Diff(t) + 1
  {
    hide FromInt, WrapDiff;
    ToIntFromInt(now.ToInt() + 1);
    WrapDiffStep(now.ToInt(), t.ToInt());
  }

  lemma SlotAfter(a: TdmaTime, k: nat)
    requires a.Valid() && k <= 4
    ensures a.AddTimeslots(k).t == (a.t - 1 + k) % 4 + 1
  {
    var s := a.t - 1 + k;
    DivModUnique(a.ToInt() + k, 4, (a.f - 1) + 18 * (a.m - 1) + 1080 * a.h + s / 4, s % 4);
  }

  lemma SlotBefore(a: TdmaTime, ts: int, k: nat)
    requires a.Valid() && 1 <= ts <= 4 && k < (ts + 4 - a.t) % 4
    ensures a.AddTimeslots(k).t != ts
  {
    hide FromInt;
    SlotAfter(a, k);
  }

  /** Rounding up to a slot number lands on that slot, by the least non-negative shift. */
  lemma ForwardIsNextOccurrence(a: TdmaTime, ts: int)
    requires a.Valid() && 1 <= ts <= 4
    ensures a.ForwardToTimeslot(ts).Valid() && a.ForwardToTimeslot(ts).t == ts
    ensures 0 <= a.ForwardToTimeslot(ts).Diff(a) <= 3
    ensures forall k :: 0 <= k < a.ForwardToTimeslot(ts).Diff(a) ==> a.AddTimeslots(k).t != ts
  {
    hide FromInt, WrapDiff;
    var n := (ts + 4 - a.t) % 4;
    DiffUndoesAdd(a, n);
    SlotAfter(a, n);
    forall k | 0 <= k < n
      ensures a.AddTimeslots(k).t != ts
    {
      SlotBefore(a, ts, k);
    }
  }

  /** The clock of the message router: one slot per tick, from any start. */
  function {:induction false} AfterTicks(start: TdmaTime, n: nat): TdmaTime
    requires start.Valid()
    ensures AfterTicks(start, n).Valid()
  {
    if n == 0 then start else
      var p := AfterTicks(start, n - 1);
      ToIntFromInt(p.ToInt() + 1);
      p.AddTimeslots(1)
  }

  /** The wrapped clock refines an unbounded tick counter ... */
  lemma {:induction false} AfterTicksIsCounter(start: TdmaTime, n: nat)
    requires start.Valid()
    ensures AfterTicks(start, n) == FromInt(start.ToInt() + n)
  {
    hide FromInt;
    if n == 0 {
      FromIntToInt(start);
    } else {
      AfterTicksIsCounter(start, n - 1);
      AddOne(start.ToInt() + n - 1);
    }
  }

  lemma AddOne(x: int)
    ensures FitsI32(FromInt(x).ToInt() + 1)
    ensures FromInt(x).AddTimeslots(1) == FromInt(x + 1)
  {
    ToIntFromInt(x);
    SameResidueSameTime(FromInt(x).ToInt() + 1, x + 1, -(x / TIME_INT_WRAP));
  }

  lemma SameResidueSameTime(x: int, y: int, k: int)
    requires x == y + k * TIME_INT_WRAP
    ensures FromInt(x) == FromInt(y)
  {
    ToIntFromInt(y);
    FromIntDigits(x, FromInt(y), k + y / TIME_INT_WRAP);
  }

  /** ... and `diff` measures the true number of ticks between two instants of one run up to half
      a wrap apart, and falls a whole wrap short beyond that. */
  lemma DiffCountsTicks(start: TdmaTime, i: nat, j: nat)
    requires start.Valid()
    requires i <= j && j - i < TIME_INT_WRAP
    ensures AfterTicks(start, j).Diff(AfterTicks(start, i))
         == if j - i < TIME_INT_WRAP / 2 then j - i else j - i - TIME_INT_WRAP
  {
    hide FromInt, WrapDiff;
    var x, y := start.ToInt() + j, start.ToInt() + i;
    AfterTicksIsCounter(start, i);
    AfterTicksIsCounter(start, j);
    ToIntFromInt(y);
    ToIntFromInt(x);
    if j - i < TIME_INT_WRAP / 2 {
      WrapDiffShift(x, y, j - i, 0);
    } else {
      WrapDiffShift(x, y, j - i - TIME_INT_WRAP, 1);
    }
  }

  // ---------------------------------------------------------------- the clock as its users see it

  /** Slots from one instant to another. */
  function Elapsed(now: Time, since: Time): int {
    now.Diff(since)
  }

  /** The clock one tick later. */
  function Tick(now: Time): Time {
    now.AddTimeslots(1)
  }

  /** The next occurrence of the timeslot of an earlier instant. */
  function SlotOf(now: Time, first: Time): Time {
    now.ForwardToTimeslot(first.t)
  }

  /** The timeslot of an uplink burst heard now: two slots earlier. */
  function UplinkSlot(now: Time): int {
    now.AddTimeslots(-2).t
  }

  /** Two slots earlier, counted round the frame's four. */
  lemma UplinkIsTwoBefore(now: Time)
    ensures UplinkSlot(now) == (now.t + 1) % 4 + 1
  {
    var n := now.t + 1;
    DivModUnique(now.ToInt() - 2, 4, (now.f - 1) + 18 * (now.m - 1) + 1080 * now.h - 1 + n / 4, n % 4);
  }

  lemma ElapsedSelf(a: Time)
    ensures Elapsed(a, a) == 0
  {
  }

  lemma ElapsedTick(now: Time, since: Time)
    requires Elapsed(now, since) < TIME_INT_WRAP / 2 - 1
    ensures Elapsed(Tick(now), since) == Elapsed(now, since) + 1
  {
    hide TdmaTime.Diff, TdmaTime.AddTimeslots;
    DiffStep(now, since);
  }
}
