/** PWM slice arithmetic of the RP2040 driver
    (src/machine_x/machine_rp2040_pwm.go): the period-to-divider and TOP
    computation with its clamps, the 16-bit TOP truncation, the clock
    divider write, the shared channel-enable update and the GPIO-to-slice
    mapping. A slice's registers are modelled field by field: the
    phase-correct bit of CSR, the 16-bit TOP and the DIV_INT / DIV_FRAC
    fields of DIV. */
module Pwm {
  import opened Base
  import opened Bits
  import opened Extras

  /** `maxTop`, the largest TOP. */
  const MAX_TOP: nat := 0xffff
  /** `topStart`: the first step aims at 95% of the largest TOP,
      95·0xffff/100 = 62258 in Go's integer constant arithmetic. */
  const TOP_START: nat := 95 * MAX_TOP / 100
  /** `maxPeriod`: 268 ms in nanoseconds. */
  const MAX_PERIOD: nat := 268_000_000
  /** The shortest period accepted, in nanoseconds. */
  const MIN_PERIOD: nat := 8
  /** The period `SetPeriod(0)` substitutes, in nanoseconds. */
  const DEFAULT_PERIOD: nat := 100_000

  datatype PwmError = ErrBadPeriod

  // ---------------------------------------------------------------------
  // setPeriod, step by step

  /** Step 1: the prescale that reaches the period at TOP = topStart,
      scaled by 16 so that the fraction survives:
      16·period / ((1+phc)·periodPerCycle·(1+topStart)). */
  function Prescale(period: nat, periodPerCycle: nat, phc: nat): nat
    requires periodPerCycle > 0
  {
    ProductPositive(1 + phc, periodPerCycle, 1 + TOP_START);
    16 * period / ((1 + phc) * periodPerCycle * (1 + TOP_START))
  }

  lemma ProductPositive(a: nat, b: nat, c: nat)
    requires a >= 1 && b >= 1 && c >= 1
    ensures a * b * c >= 1
  {
    MulAtLeast(a, b);
    MulAtLeast(a * b, c);
  }

  /** `whole`: the integer part of the prescale, clamped to 0xff, and 1
      when it underflows to 0. */
  function Whole(rhs: nat): nat {
    if rhs / 16 > 0xff then 0xff
    else if rhs / 16 == 0 then 1
    else rhs / 16
  }

  /** `frac`: the sixteenths of the prescale, forced to 0 when the
      integer part underflows. */
  function Frac(rhs: nat): nat {
    if rhs / 16 == 0 then 0 else rhs % 16
  }

  /** The `switch` of `setPeriod` on the prescale: integer part clamped to
      1..255, fractional part zero when the integer part underflows. */
  method ClampDivider(rhs: nat) returns (whole: u8, frac: u8)
    ensures whole == Whole(rhs) && frac == Frac(rhs)
    ensures 1 <= whole && frac < 16
  {
    var w := rhs / 16;
    var f := rhs % 16;
    if w > 0xff {
      w := 0xff;
    } else if w == 0 {
      w := 1;
      f := 0;
    }
    whole, frac := w, f;
  }

  /** The divider fits DIV_INT (1..255) and DIV_FRAC (0..15); unclamped,
      it is exactly the prescale. */
  lemma DividerInRange(rhs: nat)
    ensures 1 <= Whole(rhs) <= 0xff && Frac(rhs) < 16
    ensures rhs / 16 == 0 ==> Whole(rhs) == 1 && Frac(rhs) == 0
    ensures rhs / 16 > 0xff ==> Whole(rhs) == 0xff && Frac(rhs) == rhs % 16
    ensures 1 <= rhs / 16 <= 0xff ==> 16 * Whole(rhs) + Frac(rhs) == rhs
  {
  }

  /** The divisor of step 2 in sixteenths of a CPU cycle:
      (16·whole+frac)·periodPerCycle·(1+phc). */
  function StepSize(periodPerCycle: nat, phc: nat, whole: nat, frac: nat): nat {
    (16 * whole + frac) * periodPerCycle * (1 + phc)
  }

  /** The quotient of step 2: how many divided cycles fit in the period. */
  function Cycles(period: nat, periodPerCycle: nat, phc: nat, whole: nat, frac: nat): nat
    requires periodPerCycle > 0 && whole >= 1
  {
    16 * period / StepSize(periodPerCycle, phc, whole, frac)
  }

  /** Step 2: TOP is the quotient minus one in `uint64` (so a zero
      quotient wraps to 2^64 - 1), then clamped to maxTop. */
  function TopFor(period: nat, periodPerCycle: nat, phc: nat, whole: nat, frac: nat): nat
    requires periodPerCycle > 0 && whole >= 1
  {
    var top := Wrap64(Cycles(period, periodPerCycle, phc, whole, frac) - 1);
    if top > MAX_TOP then MAX_TOP else top
  }

  /** TOP always fits 16 bits: a quotient of 0 or above 2^16 gives
      maxTop, any other quotient q gives q - 1. */
  lemma TopInRange(period: nat, periodPerCycle: nat, phc: nat, whole: nat, frac: nat)
    requires periodPerCycle > 0 && whole >= 1
    requires 16 * period < U64_LIMIT
    ensures var q := Cycles(period, periodPerCycle, phc, whole, frac);
            && TopFor(period, periodPerCycle, phc, whole, frac) <= MAX_TOP
            && (q == 0 ==> TopFor(period, periodPerCycle, phc, whole, frac) == MAX_TOP)
            && (1 <= q <= MAX_TOP + 1 ==> TopFor(period, periodPerCycle, phc, whole, frac) == q - 1)
            && (q > MAX_TOP + 1 ==> TopFor(period, periodPerCycle, phc, whole, frac) == MAX_TOP)
  {
    var q := Cycles(period, periodPerCycle, phc, whole, frac);
    DivMonotone(16 * period, U64_LIMIT - 1, StepSize(periodPerCycle, phc, whole, frac));
    assert Wrap64(-1) == U64_LIMIT - 1;
  }

  /** When TOP is not clamped the period comes out at most one divided
      cycle short: (TOP+1)·step <= 16·period < (TOP+2)·step. */
  lemma PeriodUndershoots(period: nat, periodPerCycle: nat, phc: nat, whole: nat, frac: nat)
    requires periodPerCycle > 0 && whole >= 1
    requires 16 * period < U64_LIMIT
    requires 1 <= Cycles(period, periodPerCycle, phc, whole, frac) <= MAX_TOP + 1
    ensures var top, step := TopFor(period, periodPerCycle, phc, whole, frac), StepSize(periodPerCycle, phc, whole, frac);
            (top + 1) * step <= 16 * period < (top + 2) * step
  {
    TopInRange(period, periodPerCycle, phc, whole, frac);
    var step := StepSize(periodPerCycle, phc, whole, frac);
    var q := 16 * period / step;
    assert q * step + (16 * period) % step == 16 * period;
    assert (q + 1) * step == q * step + step;
  }

  /** When the prescale of step 1 needs no clamp, step 2 lands at or above
      topStart: the divider was chosen so that TOP = topStart undershoots
      the period. */
  lemma TopAtLeastStart(period: nat, periodPerCycle: nat, phc: nat)
    requires periodPerCycle > 0 && 16 * period < U64_LIMIT
    requires 1 <= Prescale(period, periodPerCycle, phc) / 16 <= 0xff
    ensures var rhs := Prescale(period, periodPerCycle, phc);
            TopFor(period, periodPerCycle, phc, Whole(rhs), Frac(rhs)) >= TOP_START
  {
    var rhs := Prescale(period, periodPerCycle, phc);
    DividerInRange(rhs);
    CyclesAtLeastStart(period, periodPerCycle, phc);
    TopInRange(period, periodPerCycle, phc, Whole(rhs), Frac(rhs));
  }

  /** With an unclamped divider at least 1 + topStart steps fit in the
      period. */
  lemma CyclesAtLeastStart(period: nat, periodPerCycle: nat, phc: nat)
    requires periodPerCycle > 0
    requires 1 <= Prescale(period, periodPerCycle, phc) / 16 <= 0xff
    ensures var rhs := Prescale(period, periodPerCycle, phc);
            Whole(rhs) >= 1 && Cycles(period, periodPerCycle, phc, Whole(rhs), Frac(rhs)) >= 1 + TOP_START
  {
    var rhs := Prescale(period, periodPerCycle, phc);
    DividerInRange(rhs);
    PrescaleFits(period, periodPerCycle, phc);
    StepIsScaledPrescale(rhs, periodPerCycle, phc);
    QuotientOfProduct(16 * period, rhs, (1 + phc) * periodPerCycle,
                      StepSize(periodPerCycle, phc, Whole(rhs), Frac(rhs)), 1 + TOP_START);
  }

  /** If m copies of a*b fit in n, so do m copies of d = a*b. */
  lemma QuotientOfProduct(n: nat, a: nat, b: nat, d: nat, m: nat)
    requires a >= 1 && b >= 1 && d == a * b && a * b * m <= n
    ensures n / d >= m
  {
    MulAtLeast(a, b);
    QuotientAtLeast(n, d, m);
  }

  /** The prescale's divisor, times the prescale, fits in 16·period. */
  lemma PrescaleFits(period: nat, periodPerCycle: nat, phc: nat)
    requires periodPerCycle > 0
    ensures Prescale(period, periodPerCycle, phc) * ((1 + phc) * periodPerCycle) * (1 + TOP_START) <= 16 * period
  {
    var d := (1 + phc) * periodPerCycle * (1 + TOP_START);
    QuotientTimesDivisor(16 * period, d);
    MulAssoc(Prescale(period, periodPerCycle, phc), (1 + phc) * periodPerCycle, 1 + TOP_START);
  }

  /** An unclamped divider makes the step of stage 2 the prescale times
      (1+phc)·periodPerCycle. */
  lemma StepIsScaledPrescale(rhs: nat, periodPerCycle: nat, phc: nat)
    requires 1 <= rhs / 16 <= 0xff
    ensures StepSize(periodPerCycle, phc, Whole(rhs), Frac(rhs)) == rhs * ((1 + phc) * periodPerCycle)
  {
    DividerInRange(rhs);
    assert 16 * Whole(rhs) + Frac(rhs) == rhs;
    MulAssoc(rhs, periodPerCycle, 1 + phc);
  }

  lemma MulAssoc(a: nat, b: nat, c: nat)
    ensures a * b * c == a * (b * c) == a * (c * b)
  {
  }

  /** The quotient times the divisor never exceeds the dividend. */
  lemma QuotientTimesDivisor(n: nat, d: nat)
    requires d > 0
    ensures (n / d) * d <= n
  {
  }

  /** If m copies of d fit in n, the quotient n / d is at least m. */
  lemma QuotientAtLeast(n: nat, d: nat, m: nat)
    requires d > 0 && d * m <= n
    ensures n / d >= m
  {
    if n / d < m {
      MulMonotone(d, n / d + 1, m);
    }
  }

  // ---------------------------------------------------------------------
  // One slice

  /** The registers of one PWM slice that the period code touches. */
  class PwmGroup {
    /** CSR.PH_CORRECT. */
    var phaseCorrect: bool
    /** TOP, the wrap value. */
    var top: u16
    /** DIV.INT and DIV.FRAC. */
    var divInt: u8
    var divFrac: u8

    constructor(phaseCorrect: bool, top: u16, divInt: u8, divFrac: u8)
      ensures this.phaseCorrect == phaseCorrect && this.top == top
      ensures this.divInt == divInt && this.divFrac == divFrac
    {
      this.phaseCorrect := phaseCorrect;
      this.top := top;
      this.divInt := divInt;
      this.divFrac := divFrac;
    }

    /** `SetTop`: keeps the low 16 bits of the argument. */
    method SetTop(t: u32)
      modifies this
      ensures top == t % U16_LIMIT
      ensures phaseCorrect == old(phaseCorrect) && divInt == old(divInt) && divFrac == old(divFrac)
    {
      top := t % U16_LIMIT;
    }

    /** `setPhaseCorrect`: the PH_CORRECT bit becomes `boolToBit(correct)`. */
    method SetPhaseCorrect(correct: bool)
      modifies this
      ensures phaseCorrect == (BoolToBit(correct) == 1)
      ensures top == old(top) && divInt == old(divInt) && divFrac == old(divFrac)
    {
      phaseCorrect := BoolToBit(correct) == 1;
    }

    /** `setClockDiv`: writes `frac | u32max(Int, 1) << 4` into the twelve
        DIV bits, so DIV.INT is `u32max(Int, 1)` with the high nibble of
        frac or-ed in, and DIV.FRAC is the low nibble of frac. */
    method SetClockDiv(integer: u8, frac: u8)
      modifies this
      ensures divInt == Or(U32Max(integer, 1), frac / 16) && divFrac == frac % 16
      ensures phaseCorrect == old(phaseCorrect) && top == old(top)
    {
      Pow2Limits();
      OrWithin(U32Max(integer, 1), frac / 16, 8);
      divInt := Or(U32Max(integer, 1), frac / 16);
      divFrac := frac % 16;
    }

    /** `setPeriod`: rejects a period outside 8 ns .. 268 ms before
        touching a register; otherwise switches phase correction on above
        134 ms (and never off), then writes the TOP and divider of the two
        steps. `periodPerCycle` is `cpuPeriod()`, the CPU clock period in
        nanoseconds. */
    method ApplyPeriod(period: u64, periodPerCycle: u32) returns (err: Option<PwmError>)
      requires periodPerCycle > 0
      modifies this
      ensures err == Some(ErrBadPeriod) <==> period > MAX_PERIOD || period < MIN_PERIOD
      ensures err != None ==> err == Some(ErrBadPeriod)
      ensures err.Some? ==> && phaseCorrect == old(phaseCorrect) && top == old(top)
                            && divInt == old(divInt) && divFrac == old(divFrac)
      ensures err.None? ==>
                var phc := BoolToBit(phaseCorrect);
                var rhs := Prescale(period, periodPerCycle, phc);
                && phaseCorrect == (old(phaseCorrect) || period > MAX_PERIOD / 2)
                && top == TopFor(period, periodPerCycle, phc, Whole(rhs), Frac(rhs))
                && divInt == Whole(rhs) && divFrac == Frac(rhs)
    {
      if period > MAX_PERIOD || period < MIN_PERIOD {
        return Some(ErrBadPeriod);
      }
      if period > MAX_PERIOD / 2 {
        SetPhaseCorrect(true);
      }
      var phc := BoolToBit(phaseCorrect);
      var rhs := Prescale(period, periodPerCycle, phc);
      var whole, frac := ClampDivider(rhs);
      var t := TopFor(period, periodPerCycle, phc, whole, frac);
      TopInRange(period, periodPerCycle, phc, whole, frac);
      SetTop(t);
      SetClockDiv(whole, frac);
      ClockDivIntegerPart(whole, frac);
      return None;
    }

    /** `SetPeriod`: a period of 0 means the default of 1e5 ns; the
        period p so chosen is then applied as `ApplyPeriod` does. */
    method SetPeriod(period: u64, periodPerCycle: u32) returns (err: Option<PwmError>)
      requires periodPerCycle > 0
      modifies this
      ensures var p := if period == 0 then DEFAULT_PERIOD else period;
              err == Some(ErrBadPeriod) <==> p > MAX_PERIOD || p < MIN_PERIOD
      ensures period == 0 ==> err == None
      ensures err != None ==> err == Some(ErrBadPeriod)
      ensures err.Some? ==> && phaseCorrect == old(phaseCorrect) && top == old(top)
                            && divInt == old(divInt) && divFrac == old(divFrac)
      ensures err.None? ==>
                var p := if period == 0 then DEFAULT_PERIOD else period;
                var phc := BoolToBit(phaseCorrect);
                var rhs := Prescale(p, periodPerCycle, phc);
                && phaseCorrect == (old(phaseCorrect) || p > MAX_PERIOD / 2)
                && top == TopFor(p, periodPerCycle, phc, Whole(rhs), Frac(rhs))
                && divInt == Whole(rhs) && divFrac == Frac(rhs)
    {
      var p := if period == 0 then DEFAULT_PERIOD else period;
      err := ApplyPeriod(p, periodPerCycle);
    }
  }

  /** `x | 0 == x`. */
  lemma {:induction false} OrZero(x: nat)
    ensures Or(x, 0) == x
    decreases x
  {
    if x > 0 {
      OrZero(x / 2);
    }
  }

  /** `a | b` is at least a. */
  lemma {:induction false} OrAtLeast(a: nat, b: nat)
    ensures Or(a, b) >= a
    decreases a + b
  {
    if a != 0 || b != 0 {
      OrAtLeast(a / 2, b / 2);
    }
  }

  /** The divider `setClockDiv` writes never has a zero integer part, and
      for a fraction that fits its four bits the integer part is exactly
      `u32max(Int, 1)`. */
  lemma ClockDivIntegerPart(integer: u8, frac: u8)
    ensures Or(U32Max(integer, 1), frac / 16) >= 1
    ensures frac < 16 ==> Or(U32Max(integer, 1), frac / 16) == U32Max(integer, 1)
  {
    OrAtLeast(U32Max(integer, 1), frac / 16);
    OrZero(U32Max(integer, 1));
  }

  // ---------------------------------------------------------------------
  // Shared channel enable

  /** `SetEN_CH` on a value: the bits of `channels & 0xfe` are cleared,
      then, for a nonzero `value`, every bit of `channels` is set. */
  function EnableWord(en: nat, channels: nat, value: nat): nat {
    Or(AndNot(en, And(channels, 0xfe)), if value != 0 then channels else 0)
  }

  /** Bit by bit: a requested channel is switched on by a nonzero value; a
      zero value switches it off only for channels 1 to 7, because the
      mask `0xfe` leaves bit 0 (and bits 8 and up) alone; channels not
      requested keep their state. */
  lemma EnableWordBits(en: nat, channels: nat, value: nat, j: nat)
    ensures Bit(EnableWord(en, channels, value), j) ==
            if !Bit(channels, j) then Bit(en, j)
            else if value != 0 then true
            else Bit(en, j) && (j == 0 || j >= 8)
  {
    var mask := And(channels, 0xfe);
    var v := if value != 0 then channels else 0;
    OrBit(AndNot(en, mask), v, j);
    AndNotBit(en, mask, j);
    AndBit(channels, 0xfe, j);
    ConstantMaskBits(j);
    if value == 0 {
      assert Bit(0, j) == false;
    }
  }

  /** The bits of 0xfe are 1 through 7. */
  lemma ConstantMaskBits(j: nat)
    ensures Bit(0xfe, j) == (1 <= j < 8)
  {
    if j >= 8 {
      Pow2Monotone(8, j);
      Pow2Limits();
      DivModUnique(0xfe, 0, 0xfe, Pow2(j));
    } else if j == 0 {
    } else {
      BitOfHalf(0xfe, j);
      assert Bit(0x7f, j - 1) by {
        LowOnesBits(7, j - 1);
      }
    }
  }

  /** 2^n - 1 has exactly the bits 0 .. n-1. */
  lemma {:induction false} LowOnesBits(n: nat, j: nat)
    ensures Bit(Pow2(n) - 1, j) == (j < n)
    decreases n
  {
    if n == 0 {
      assert Pow2(n) - 1 == 0;
      DivModUnique(0, 0, 0, Pow2(j));
      assert !Bit(0, j);
    } else {
      var h := Pow2(n - 1) - 1;
      var m := Pow2(n) - 1;
      assert m == 2 * h + 1;
      BitOfTwice(h, 1, j);
      assert Bit(m, j) == if j == 0 then true else Bit(h, j - 1);
      if j > 0 {
        LowOnesBits(n - 1, j - 1);
      }
    }
  }

  /** The enable register stays a 32-bit word. */
  lemma EnableWordWithin(en: u32, channels: u32, value: u32)
    ensures EnableWord(en, channels, value) < U32_LIMIT
  {
    Pow2Limits();
    AndNotAtMost(en, And(channels, 0xfe));
    OrWithin(AndNot(en, And(channels, 0xfe)), if value != 0 then channels else 0, 32);
  }

  /** Disabling slices 0 and 1 together, as the frequency counters are
      set up, leaves slice 0 running. */
  lemma DisableLeavesSliceZero()
    ensures EnableWord(3, 3, 0) == 1
  {
    assert And(0, 0x3f) == 0;
    assert And(1, 0x7f) == 1;
    assert And(3, 0xfe) == 2;
    assert AndNot(0, 1) == 0;
    assert AndNot(1, 2) == 1;
    assert Or(0, 0) == 0;
    assert Or(1, 0) == 1;
  }

  /** The enable update with a mask covering every requested channel. */
  function EnableWordIntended(en: nat, channels: nat, value: nat): nat {
    Or(AndNot(en, channels), if value != 0 then channels else 0)
  }

  /** Every requested channel takes the state `value != 0`, every other
      channel keeps its state. */
  lemma EnableWordIntendedBits(en: nat, channels: nat, value: nat, j: nat)
    ensures Bit(EnableWordIntended(en, channels, value), j) ==
            if Bit(channels, j) then value != 0 else Bit(en, j)
  {
    OrBit(AndNot(en, channels), if value != 0 then channels else 0, j);
    AndNotBit(en, channels, j);
    if value == 0 {
      assert Bit(0, j) == false;
    }
  }

  /** With the intended mask, repeating an update changes nothing. */
  lemma EnableWordIntendedIdempotent(en: nat, channels: nat, value: nat)
    ensures var w := EnableWordIntended(en, channels, value);
            EnableWordIntended(w, channels, value) == w
  {
    var w := EnableWordIntended(en, channels, value);
    forall j: nat
      ensures Bit(EnableWordIntended(w, channels, value), j) == Bit(w, j)
    {
      EnableWordIntendedBits(en, channels, value, j);
      EnableWordIntendedBits(w, channels, value, j);
    }
    BitsDetermineWord(EnableWordIntended(w, channels, value), w);
  }

  /** With the intended mask, switching a set of channels and then
      disabling the same set leaves the word `en &^ channels`: the
      requested slices off, every other slice as it was. */
  lemma EnableThenDisableIntended(en: nat, channels: nat, value: nat)
    ensures EnableWordIntended(EnableWordIntended(en, channels, value), channels, 0) == AndNot(en, channels)
  {
    var w := EnableWordIntended(en, channels, value);
    forall j: nat
      ensures Bit(EnableWordIntended(w, channels, 0), j) == Bit(AndNot(en, channels), j)
    {
      EnableWordIntendedBits(en, channels, value, j);
      EnableWordIntendedBits(w, channels, 0, j);
      AndNotBit(en, channels, j);
    }
    BitsDetermineWord(EnableWordIntended(w, channels, 0), AndNot(en, channels));
  }

  /** The global PWM block: its EN register, one bit per slice. */
  class PwmBlock {
    var en: u32

    constructor(en: u32)
      ensures this.en == en
    {
      this.en := en;
    }

    /** `SetEN_CH(channels, value)`. */
    method SetEnChannels(channels: u32, value: u32)
      modifies this
      ensures en == EnableWord(old(en), channels, value)
      ensures forall j: nat :: !Bit(channels, j) ==> Bit(en, j) == Bit(old(en), j)
      ensures value != 0 ==> forall j: nat :: Bit(channels, j) ==> Bit(en, j)
      ensures Bit(old(en), 0) ==> Bit(en, 0)
    {
      forall j: nat
        ensures Bit(EnableWord(en, channels, value), j) ==
                if !Bit(channels, j) then Bit(en, j)
                else if value != 0 then true
                else Bit(en, j) && (j == 0 || j >= 8)
      {
        EnableWordBits(en, channels, value, j);
      }
      EnableWordWithin(en, channels, value);
      en := EnableWord(en, channels, value);
    }
  }

  // ---------------------------------------------------------------------
  // GPIO to slice and channel

  /** `pwmGPIOToSlice`: `(gpio >> 1) & 7`. */
  function GpioToSlice(gpio: u8): (slice: u8)
    ensures slice < 8
  {
    (gpio / 2) % 8
  }

  /** `pwmGPIOToChannel`: `gpio & 1`, channel A (0) or B (1). */
  function GpioToChannel(gpio: u8): (channel: u8)
    ensures channel < 2
  {
    gpio % 2
  }

  /** Slice and channel together recover the pin modulo 16: two pins
      share a slice, and pins 16 and up reuse the slices of pins 0 to 15. */
  lemma SliceAndChannelRecoverPin(gpio: u8)
    ensures 2 * GpioToSlice(gpio) + GpioToChannel(gpio) == gpio % 16
  {
    var h := gpio / 2;
    DivModUnique(h, h / 8, h % 8, 8);
    DivModUnique(gpio, h / 8, 2 * (h % 8) + gpio % 2, 16);
  }

  /** Distinct pins below 16 never share a (slice, channel) pair. */
  lemma LowPinsDistinct(g1: u8, g2: u8)
    requires g1 < 16 && g2 < 16
    requires GpioToSlice(g1) == GpioToSlice(g2) && GpioToChannel(g1) == GpioToChannel(g2)
    ensures g1 == g2
  {
    SliceAndChannelRecoverPin(g1);
    SliceAndChannelRecoverPin(g2);
    SmallMod(g1, 16);
    SmallMod(g2, 16);
  }
}
