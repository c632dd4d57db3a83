/** Divider solver for the Si5351 clock generator
    (src/support/Si5351Config.go).

    The chip multiplies a reference f0 by the feedback ratio a0 + b0/c0 to
    reach the PLL frequency, then divides the PLL frequency by the
    multisynth ratio a1 + b1/c1 and by a power-of-two output divider r.
    `New` picks the PLL frequency, approximates both ratios by
    `NearestFraction` with denominators up to 2^20 and searches for r.

    Frequencies are `real`s. The one conversion that matters to the
    outcome, `uint64(x*1e12)`, is a parameter `quantize` that is only known
    to stay within a unit or two of x*1e12; every other floating-point
    rounding is left out. */
module Si5351 {
  import opened Base
  import CF = ContinuedFraction

  /** The common denominator 1e12 of the quantized ratios. */
  const TEN_TO_12: nat := 1_000_000_000_000
  /** `1<<20`, the bound passed to `NearestFraction`. */
  const MAX_DENOMINATOR: nat := 0x10_0000

  datatype ConfigError =
    | InvalidClockFrequency      // f0 outside [10 MHz, 27 MHz]
    | OutputAbove200MHz
    | PllOutOfRange              // a caller's PLL frequency outside [600 MHz, 900 MHz]
    | FeedbackRatioTooSmall      // pll/f0 < 15
    | FeedbackRatioTooBig        // pll/f0 > 90
    | MultisynthRatioTooSmall
    | OutputDividerTooBig        // "f_out too low"
    | FrequencyErrorOutOfRange

  /** The fields of `Si5351Config`. */
  datatype Config = Config(f0: real, pll: real, f: real,
                           a0: u32, b0: u32, c0: u32,
                           a1: u32, b1: u32, c1: u32,
                           r: u32, eps: real)

  /** One fractional divider a + b/c. */
  datatype Divider = Divider(a: u32, b: u32, c: u32)

  function Abs(x: real): real { if x < 0.0 then -x else x }

  /** `near(a, b, eps)`: |a - b| <= eps. */
  predicate Near(a: real, b: real, eps: real)
    ensures Near(a, b, eps) <==> b - eps <= a <= b + eps
  {
    Abs(a - b) <= eps
  }

  /** What is known of `uint64(x*1e12)` for the ratios the solver
      quantizes: it lies within (x*1e12 - 2, x*1e12 + 1]. IEEE rounding of
      the product and truncation by the conversion both stay inside this
      window for 0 <= x <= 4096. */
  ghost predicate QuantizeWithin(quantize: real -> nat)
  {
    forall x: real :: 0.0 <= x <= 4096.0 ==> x * 1e12 - 2.0 < quantize(x) as real <= x * 1e12 + 1.0
  }

  /** Lines 58-70: the PLL frequency. Above 150 MHz it is 4f and from
      100 MHz it is 6f, whatever the caller asked for; below that a zero
      request picks 600 MHz (under 5 MHz) or 800 MHz, and any other request
      must lie in [600 MHz, 900 MHz]. Every PLL frequency it answers lies
      in [600 MHz, 900 MHz]. */
  function ChoosePll(f: real, requested: real): (res: Result<real, ConfigError>)
    requires f <= 200e6
    ensures res.Success? ==> 600e6 <= res.value <= 900e6
    ensures res.Failure? <==> f < 100e6 && requested != 0.0 && (requested < 600e6 || requested > 900e6)
    ensures res.Failure? ==> res.error == PllOutOfRange
    ensures f >= 100e6 ==> res == Success(if f > 150e6 then 4.0 * f else 6.0 * f)
  {
    if f > 150e6 then Success(4.0 * f)
    else if f >= 100e6 then Success(6.0 * f)
    else if requested == 0.0 then Success(if f < 5e6 then 600e6 else 800e6)
    else if requested < 600e6 || requested > 900e6 then Failure(PllOutOfRange)
    else Success(requested)
  }

  /** Below 100 MHz the caller's request decides: zero picks 600 MHz or
      800 MHz by the output frequency, and a request inside the PLL range
      is used as it is. */
  lemma PllBelow100MHz(f: real, requested: real)
    requires f < 100e6
    ensures requested == 0.0 ==> ChoosePll(f, requested) == Success(if f < 5e6 then 600e6 else 800e6)
    ensures 600e6 <= requested <= 900e6 ==> ChoosePll(f, requested) == Success(requested)
  {
  }

  /** `uint32(b / c), uint32(b % c), uint32(c)`. Whenever the quotient and
      the denominator fit 32 bits, the split is exact: a*c + b == num with
      b < c. */
  function SplitRatio(r: CF.Ratio): (d: Divider)
    requires r.den >= 1
    ensures r.num / r.den < U32_LIMIT && r.den < U32_LIMIT ==>
              d.a * d.c + d.b == r.num && d.b < d.c == r.den
  {
    SmallMod(r.num / r.den, U32_LIMIT);
    SmallMod(r.num % r.den, U32_LIMIT);
    SmallMod(r.den, U32_LIMIT);
    Divider((r.num / r.den) % U32_LIMIT, (r.num % r.den) % U32_LIMIT, r.den % U32_LIMIT)
  }

  /** `float64(a) + float64(b)/float64(c)`: a, plus a fraction below 1
      when b < c. */
  function Value(d: Divider): (v: real)
    requires d.c > 0
    ensures d.a as real <= v
    ensures d.b < d.c ==> v < d.a as real + 1.0
  {
    DivAtLeast(d.b as real, 0.0, d.c as real);
    assert d.b < d.c ==> d.b as real / d.c as real < 1.0 by {
      if d.b < d.c {
        DivLess(d.b as real, 1.0, d.c as real);
      }
    }
    d.a as real + d.b as real / d.c as real
  }


  /** The approximation of a quantized ratio q/1e12 with denominator up to
      2^20: its whole part stays below 2^32 (so the split never
      truncates), its value is exactly num/den, and it is at least 1 when
      q/1e12 is. */
  lemma QuantizedSplit(q: nat)
    requires q <= 5000 * TEN_TO_12
    ensures var r := CF.NearestFraction(q, TEN_TO_12, MAX_DENOMINATOR);
            var d := SplitRatio(r);
            && 1 <= d.c == r.den <= MAX_DENOMINATOR
            && d.a * d.c + d.b == r.num && d.b < d.c
            && d.a <= 5001
            && Value(d) == r.num as real / r.den as real
            && (q >= TEN_TO_12 ==> d.a >= 1)
  {
    var r := CF.NearestFraction(q, TEN_TO_12, MAX_DENOMINATOR);
    NumeratorBound(q);
    DivBelow(r.num, r.den, 5002);
    var d := SplitRatio(r);
    DivModUnique(r.num, d.a, d.b, r.den);
    SplitValue(d, r.num);
    if q >= TEN_TO_12 {
      assert r.num >= r.den;
      DivModUnique(r.den, 1, 0, r.den);
      DivMonotone(r.den, r.num, r.den);
    }
  }

  /** Because |q*den - 1e12*num| <= 1e12, num stays below 5002*den. */
  lemma NumeratorBound(q: nat)
    requires q <= 5000 * TEN_TO_12
    ensures var r := CF.NearestFraction(q, TEN_TO_12, MAX_DENOMINATOR);
            r.num < 5002 * r.den
  {
    var r := CF.NearestFraction(q, TEN_TO_12, MAX_DENOMINATOR);
    CF.ResidualAtMostDivisor(q, TEN_TO_12, 0, 1, MAX_DENOMINATOR);
    assert TEN_TO_12 * r.num <= q * r.den + TEN_TO_12;
    MulMonotone(r.den, q, 5000 * TEN_TO_12);
    MulAtLeast(r.den, TEN_TO_12);
    assert TEN_TO_12 * r.num <= TEN_TO_12 * (5001 * r.den);
    MulCancelLe(TEN_TO_12, r.num, 5001 * r.den);
  }

  lemma SplitValue(d: Divider, num: nat)
    requires d.c > 0 && d.a * d.c + d.b == num
    ensures Value(d) == num as real / d.c as real
  {
    assert num as real == d.a as real * d.c as real + d.b as real;
  }

  /** Lines 78-86 and 99-102: `NearestFraction(uint64(x*1e12), 1e12, 1<<20)`
      split into a + b/c. The split is exact, the denominator is within
      2^20, and the divider is at least 1 when x is at least 2. */
  function Approximate(x: real, quantize: real -> nat): (d: Divider)
    requires QuantizeWithin(quantize) && 0.0 <= x <= 4096.0
    ensures 1 <= d.c <= MAX_DENOMINATOR && d.b < d.c
    ensures d.a * d.c + d.b == CF.NearestFraction(quantize(x), TEN_TO_12, MAX_DENOMINATOR).num
    ensures d.c == CF.NearestFraction(quantize(x), TEN_TO_12, MAX_DENOMINATOR).den
    ensures x >= 2.0 ==> Value(d) >= 1.0
  {
    var q := quantize(x);
    assert x * 1e12 - 2.0 < q as real <= x * 1e12 + 1.0;
    QuantizedSplit(q);
    SplitRatio(CF.NearestFraction(q, TEN_TO_12, MAX_DENOMINATOR))
  }

  predicate IsPowerOfTwo(n: nat)
    decreases n
  {
    n == 1 || (n >= 2 && n % 2 == 0 && IsPowerOfTwo(n / 2))
  }

  /** A power of two below 2k is at most k, for k a power of two. */
  lemma {:induction false} PowerOfTwoBelow(n: nat, k: nat)
    requires IsPowerOfTwo(n) && IsPowerOfTwo(k)
    ensures n < 2 * k ==> n <= k
    decreases n
  {
    if n >= 2 && n < 2 * k {
      assert k != 1;
      PowerOfTwoBelow(n / 2, k / 2);
    }
  }

  /** Bounds on a quotient by a positive real, from bounds on the
      dividend. */
  lemma DivAtLeast(p: real, c: real, d: real)
    requires d > 0.0 && p >= c * d
    ensures p / d >= c
  {
    assert p / d - c == (p - c * d) / d;
  }

  lemma DivAtMost(p: real, c: real, d: real)
    requires d > 0.0 && p <= c * d
    ensures p / d <= c
  {
    assert c - p / d == (c * d - p) / d;
  }

  lemma DivLess(p: real, c: real, d: real)
    requires d > 0.0 && p < c * d
    ensures p / d < c
  {
    assert c - p / d == (c * d - p) / d;
  }

  lemma DivAbove(p: real, c: real, d: real)
    requires d > 0.0 && p > c * d
    ensures p / d > c
  {
    assert p / d - c == (p - c * d) / d;
  }

  /** z/d > 2048 exactly when z > 2048*d, for a positive d. */
  lemma AboveLimit(z: real, d: real)
    requires d > 0.0
    ensures z / d > 2048.0 <==> z > 2048.0 * d
  {
    if z > 2048.0 * d {
      DivAbove(z, 2048.0, d);
    } else {
      DivAtMost(z, 2048.0, d);
    }
  }

  /** Lines 92-95 as a function: starting from r, double r while
      z/r > 2048 (stated as z > 2048*r, r being positive) and r <= 128. */
  function OutputDivider(z: real, r: nat): nat
    requires 1 <= r <= 256
    decreases 256 - r
  {
    if z > 2048.0 * r as real && r <= 128 then
      OutputDivider(z, 2 * r)
    else
      r
  }

  /** The divider the loop settles on is a power of two no larger than
      256; when it is at most 128 it brings z/r down to 2048 or less, and
      every doubling was needed: z > 1024*res whenever res > r. */
  lemma OutputDividerSettles(z: real, r: nat)
    requires 1 <= r <= 256 && IsPowerOfTwo(r)
    ensures IsPowerOfTwo(OutputDivider(z, r)) && r <= OutputDivider(z, r) <= 256
    ensures OutputDivider(z, r) <= 128 ==> z <= 2048.0 * OutputDivider(z, r) as real
    ensures OutputDivider(z, r) > 128 && r <= 128 ==> z > 2048.0 * 128.0
    ensures OutputDivider(z, r) > r ==> z > 1024.0 * OutputDivider(z, r) as real
  {
    OutputDividerShape(z, r);
    OutputDividerCovers(z, r);
    OutputDividerMinimal(z, r);
    if r <= 128 {
      OutputDividerExhausted(z, r);
    }
  }

  /** Passing 128 means no divider up to 128 was enough: the loop
      reached 256, after z/128 > 2048. */
  lemma OutputDividerExhausted(z: real, r: nat)
    requires 1 <= r <= 128 && IsPowerOfTwo(r)
    ensures OutputDivider(z, r) > 128 ==> z > 2048.0 * 128.0
  {
    var res := OutputDivider(z, r);
    OutputDividerShape(z, r);
    OutputDividerMinimal(z, r);
    PowerOfTwoBelow(res, 128);
    if res > 128 {
      assert res == 256;
    }
  }

  /** The loop doubles a power of two and stops by 256. */
  lemma {:induction false} OutputDividerShape(z: real, r: nat)
    requires 1 <= r <= 256 && IsPowerOfTwo(r)
    ensures IsPowerOfTwo(OutputDivider(z, r)) && r <= OutputDivider(z, r) <= 256
    decreases 256 - r
  {
    if z > 2048.0 * r as real && r <= 128 {
      assert (2 * r) / 2 == r;
      OutputDividerShape(z, 2 * r);
    }
  }

  /** Stopping at or below 128 means z/r <= 2048. */
  lemma {:induction false} OutputDividerCovers(z: real, r: nat)
    requires 1 <= r <= 256
    ensures OutputDivider(z, r) <= 128 ==> z <= 2048.0 * OutputDivider(z, r) as real
    decreases 256 - r
  {
    if z > 2048.0 * r as real && r <= 128 {
      OutputDividerCovers(z, 2 * r);
    }
  }

  /** Every doubling was needed: the ratio exceeded 2048 times the
      previous divider. */
  lemma {:induction false} OutputDividerMinimal(z: real, r: nat)
    requires 1 <= r <= 256
    ensures OutputDivider(z, r) > r ==> z > 1024.0 * OutputDivider(z, r) as real
    decreases 256 - r
  {
    if z > 2048.0 * r as real && r <= 128 {
      OutputDividerMinimal(z, 2 * r);
    }
  }

  /** After the multisynth check and a divider no larger than 128, z/r lies
      in [2, 2048]. */
  lemma DividedRatioInRange(z: real, r: nat)
    requires Near(z, 4.0, 1e-9) || Near(z, 6.0, 1e-9) || z >= 8.0
    requires 1 <= r <= 128 && z <= 2048.0 * r as real && (r > 1 ==> z > 1024.0 * r as real)
    ensures 2.0 <= z / r as real <= 2048.0
  {
    var d := r as real;
    DivAtLeast(z, 2.0, d);
    DivAtMost(z, 2048.0, d);
  }

  /** Line 88: the ratio f0*(a0 + b0/c0)/f that the multisynth and the
      output divider together must divide by. */
  function MultisynthRatio(f0: real, feedback: Divider, f: real): real
    requires feedback.c > 0 && f != 0.0
  {
    f0 * Value(feedback) / f
  }

  /** Line 104: the frequency f0*(a0 + b0/c0)/(a1 + b1/c1) that the two
      fractional dividers achieve, before the output divider. */
  function Achieved(f0: real, feedback: Divider, multisynth: Divider): real
    requires feedback.c > 0 && multisynth.c > 0 && Value(multisynth) != 0.0
  {
    f0 * Value(feedback) / Value(multisynth)
  }

  /** `New(f0, pll, f)` as a function of its inputs and of the quantizer:
      the input checks and the PLL choice (lines 50-70). */
  function Configure(f0: real, pll: real, f: real, quantize: real -> nat): (res: Result<Config, ConfigError>)
    requires QuantizeWithin(quantize)
  {
    if f0 < 10e6 || f0 > 27e6 then Failure(InvalidClockFrequency)
    else if f > 200e6 then Failure(OutputAbove200MHz)
    else match ChoosePll(f, pll)
      case Failure(e) => Failure(e)
      case Success(p) => WithPll(f0, p, f, quantize)
  }

  /** Lines 71-86: the feedback window and the feedback ratio. */
  function WithPll(f0: real, p: real, f: real, quantize: real -> nat): Result<Config, ConfigError>
    requires QuantizeWithin(quantize) && f0 > 0.0
  {
    var z := p / f0;
    if z < 15.0 then Failure(FeedbackRatioTooSmall)
    else if z > 90.0 then Failure(FeedbackRatioTooBig)
    else WithFeedback(f0, p, f, Approximate(z, quantize), quantize)
  }

  /** Lines 88-91: the multisynth check. A zero output frequency makes
      float64 division give +Inf, which passes the check and then exhausts
      the divider search: the model goes straight to that error. */
  function WithFeedback(f0: real, p: real, f: real, feedback: Divider, quantize: real -> nat): Result<Config, ConfigError>
    requires QuantizeWithin(quantize) && feedback.c > 0
  {
    if f == 0.0 then Failure(OutputDividerTooBig)
    else
      var z := MultisynthRatio(f0, feedback, f);
      if !Near(z, 4.0, 1e-9) && !Near(z, 6.0, 1e-9) && z < 8.0 then Failure(MultisynthRatioTooSmall)
      else WithMultisynthRatio(f0, p, f, feedback, z, quantize)
  }

  /** Lines 92-102: the output divider and the multisynth ratio. */
  function WithMultisynthRatio(f0: real, p: real, f: real, feedback: Divider, z: real, quantize: real -> nat): Result<Config, ConfigError>
    requires QuantizeWithin(quantize) && feedback.c > 0 && f != 0.0
    requires Near(z, 4.0, 1e-9) || Near(z, 6.0, 1e-9) || z >= 8.0
  {
    var r := OutputDivider(z, 1);
    OutputDividerSettles(z, 1);
    if r > 128 then Failure(OutputDividerTooBig)
    else
      DividedRatioInRange(z, r);
      WithDivider(f0, p, f, feedback, Approximate(z / r as real, quantize), r)
  }

  /** Lines 99-109: the stored frequency is the one the two ratios achieve
      before the output divider r, and the error check reads eps while it
      is still zero. */
  function WithDivider(f0: real, p: real, f: real, feedback: Divider, multisynth: Divider, r: u32): Result<Config, ConfigError>
    requires feedback.c > 0 && multisynth.c > 0 && Value(multisynth) > 0.0 && f != 0.0
  {
    var achieved := Achieved(f0, feedback, multisynth);
    if Abs(0.0) / f > 1e-12 then Failure(FrequencyErrorOutOfRange)
    else Success(Config(f0, p, achieved, feedback.a, feedback.b, feedback.c,
                        multisynth.a, multisynth.b, multisynth.c, r, f - achieved))
  }

  /** The loop at lines 92-95: r starts at 1 and doubles in place while
      z/r > 2048 and r <= 128. */
  method DoubleOutputDivider(z: real) returns (r: nat)
    ensures r == OutputDivider(z, 1)
  {
    r := 1;
    while z / r as real > 2048.0 && r <= 128
      invariant 1 <= r <= 256
      invariant OutputDivider(z, r) == OutputDivider(z, 1)
      decreases 256 - r
    {
      DoublingStep(z, r);
      r := r * 2;
    }
    LoopExit(z, r);
  }

  /** One pass of the loop at lines 93-95 leaves the divider it settles on
      unchanged. */
  lemma DoublingStep(z: real, r: nat)
    requires 1 <= r <= 128 && z / r as real > 2048.0
    ensures OutputDivider(z, 2 * r) == OutputDivider(z, r)
  {
    AboveLimit(z, r as real);
  }

  /** When the loop condition fails, r is the divider it settles on. */
  lemma LoopExit(z: real, r: nat)
    requires 1 <= r <= 256
    requires !(z / r as real > 2048.0 && r <= 128)
    ensures OutputDivider(z, r) == r
  {
    AboveLimit(z, r as real);
  }

  /** Lines 50-86 as the code runs them: a sequence of early returns, the
      feedback ratio, then the output stage. */
  method New(f0: real, pll: real, f: real, quantize: real -> nat) returns (res: Result<Config, ConfigError>)
    requires QuantizeWithin(quantize)
    ensures res == Configure(f0, pll, f, quantize)
  {
    if f0 < 10e6 || f0 > 27e6 {
      return Failure(InvalidClockFrequency);
    }
    if f > 200e6 {
      return Failure(OutputAbove200MHz);
    }
    var chosen := ChoosePll(f, pll);
    if chosen.Failure? {
      return Failure(chosen.error);
    }
    var p := chosen.value;
    var z := p / f0;
    if z < 15.0 {
      return Failure(FeedbackRatioTooSmall);
    }
    if z > 90.0 {
      return Failure(FeedbackRatioTooBig);
    }
    var feedback := Approximate(z, quantize);
    res := OutputStage(f0, p, f, feedback, quantize);
  }

  /** Lines 88-109 as the code runs them: the multisynth check, the loop
      that doubles r in place, the multisynth ratio and the result. */
  method OutputStage(f0: real, p: real, f: real, feedback: Divider, quantize: real -> nat)
    returns (res: Result<Config, ConfigError>)
    requires QuantizeWithin(quantize) && feedback.c > 0
    ensures res == WithFeedback(f0, p, f, feedback, quantize)
  {
    if f == 0.0 {
      return Failure(OutputDividerTooBig);
    }
    var z := MultisynthRatio(f0, feedback, f);
    if !Near(z, 4.0, 1e-9) && !Near(z, 6.0, 1e-9) && z < 8.0 {
      return Failure(MultisynthRatioTooSmall);
    }
    assert WithFeedback(f0, p, f, feedback, quantize) == WithMultisynthRatio(f0, p, f, feedback, z, quantize);
    var r := DoubleOutputDivider(z);
    OutputDividerSettles(z, 1);
    if r > 128 {
      return Failure(OutputDividerTooBig);
    }
    DividedRatioInRange(z, r);
    var multisynth := Approximate(z / r as real, quantize);
    assert WithMultisynthRatio(f0, p, f, feedback, z, quantize) == WithDivider(f0, p, f, feedback, multisynth, r);
    var achieved := Achieved(f0, feedback, multisynth);
    var eps := 0.0;
    res := if Abs(eps) / f > 1e-12 then Failure(FrequencyErrorOutOfRange)
           else Success(Config(f0, p, achieved, feedback.a, feedback.b, feedback.c,
                               multisynth.a, multisynth.b, multisynth.c, r, f - achieved));
  }

  /** Lines 50-56 and 68-70: the input checks, in their order. */
  lemma RejectsInvalidInput(f0: real, pll: real, f: real, quantize: real -> nat)
    requires QuantizeWithin(quantize)
    ensures f0 < 10e6 || f0 > 27e6 ==> Configure(f0, pll, f, quantize) == Failure(InvalidClockFrequency)
    ensures 10e6 <= f0 <= 27e6 && f > 200e6 ==> Configure(f0, pll, f, quantize) == Failure(OutputAbove200MHz)
    ensures 10e6 <= f0 <= 27e6 && f < 100e6 && pll != 0.0 && (pll < 600e6 || pll > 900e6) ==>
              Configure(f0, pll, f, quantize) == Failure(PllOutOfRange)
  {
  }

  /** A PLL frequency in [600 MHz, 900 MHz] over a reference in
      [10 MHz, 27 MHz] gives a feedback ratio in [15, 90]. */
  lemma FeedbackRatioInWindow(p: real, f0: real)
    requires 600e6 <= p <= 900e6 && 10e6 <= f0 <= 27e6
    ensures 15.0 <= p / f0 <= 90.0
  {
    DivAtLeast(p, 15.0, f0);
    DivAtMost(p, 90.0, f0);
  }

  /** The checks at lines 72-77 ("can't happen") and 105 never reject:
      the feedback window always holds and eps is still zero when read. */
  lemma InternalChecksNeverFire(f0: real, pll: real, f: real, quantize: real -> nat)
    requires QuantizeWithin(quantize)
    ensures Configure(f0, pll, f, quantize) != Failure(FeedbackRatioTooSmall)
    ensures Configure(f0, pll, f, quantize) != Failure(FeedbackRatioTooBig)
    ensures Configure(f0, pll, f, quantize) != Failure(FrequencyErrorOutOfRange)
  {
    if 10e6 <= f0 <= 27e6 && f <= 200e6 && ChoosePll(f, pll).Success? {
      var p := ChoosePll(f, pll).value;
      assert Configure(f0, pll, f, quantize) == WithPll(f0, p, f, quantize);
      FeedbackRatioInWindow(p, f0);
      assert WithPll(f0, p, f, quantize) == WithFeedback(f0, p, f, Approximate(p / f0, quantize), quantize);
      OutputStageErrors(f0, p, f, Approximate(p / f0, quantize), quantize);
    }
  }

  /** Lines 88-109 fail only because the multisynth ratio is too small or
      no output divider up to 128 brings it in range. */
  lemma OutputStageErrors(f0: real, p: real, f: real, feedback: Divider, quantize: real -> nat)
    requires QuantizeWithin(quantize) && feedback.c > 0
    ensures WithFeedback(f0, p, f, feedback, quantize).Failure? ==>
              WithFeedback(f0, p, f, feedback, quantize).error == OutputDividerTooBig
              || WithFeedback(f0, p, f, feedback, quantize).error == MultisynthRatioTooSmall
  {
    if f != 0.0 {
      var z := MultisynthRatio(f0, feedback, f);
      if Near(z, 4.0, 1e-9) || Near(z, 6.0, 1e-9) || z >= 8.0 {
        assert WithFeedback(f0, p, f, feedback, quantize) == WithMultisynthRatio(f0, p, f, feedback, z, quantize);
        MultisynthStageErrors(f0, p, f, feedback, z, quantize);
      }
    }
  }

  /** Lines 92-109 fail only when no output divider up to 128 brings the
      multisynth ratio in range. */
  lemma MultisynthStageErrors(f0: real, p: real, f: real, feedback: Divider, z: real, quantize: real -> nat)
    requires QuantizeWithin(quantize) && feedback.c > 0 && f != 0.0
    requires Near(z, 4.0, 1e-9) || Near(z, 6.0, 1e-9) || z >= 8.0
    ensures WithMultisynthRatio(f0, p, f, feedback, z, quantize).Failure? ==>
              WithMultisynthRatio(f0, p, f, feedback, z, quantize).error == OutputDividerTooBig
  {
    var r := OutputDivider(z, 1);
    OutputDividerSettles(z, 1);
    if r <= 128 {
      DividedRatioInRange(z, r);
      var multisynth := Approximate(z / r as real, quantize);
      assert WithMultisynthRatio(f0, p, f, feedback, z, quantize) == WithDivider(f0, p, f, feedback, multisynth, r);
      ErrorNeverChecked(f);
    }
  }

  /** Once the inputs pass lines 50-70, `New` answers "multisynth ratio
      too small" exactly when the ratio z fails the check at lines 89-91. */
  lemma MultisynthRatioCheck(f0: real, pll: real, f: real, quantize: real -> nat)
    requires QuantizeWithin(quantize)
    requires 10e6 <= f0 <= 27e6 && f <= 200e6 && f != 0.0 && ChoosePll(f, pll).Success?
    ensures 15.0 <= ChoosePll(f, pll).value / f0 <= 90.0
    ensures var z := MultisynthRatio(f0, Approximate(ChoosePll(f, pll).value / f0, quantize), f);
            Configure(f0, pll, f, quantize) == Failure(MultisynthRatioTooSmall)
            <==> !(Near(z, 4.0, 1e-9) || Near(z, 6.0, 1e-9) || z >= 8.0)
  {
    var p := ChoosePll(f, pll).value;
    FeedbackRatioInWindow(p, f0);
    var feedback := Approximate(p / f0, quantize);
    assert Configure(f0, pll, f, quantize) == WithPll(f0, p, f, quantize);
    assert WithPll(f0, p, f, quantize) == WithFeedback(f0, p, f, feedback, quantize);
    var z := MultisynthRatio(f0, feedback, f);
    if Near(z, 4.0, 1e-9) || Near(z, 6.0, 1e-9) || z >= 8.0 {
      assert WithFeedback(f0, p, f, feedback, quantize) == WithMultisynthRatio(f0, p, f, feedback, z, quantize);
      MultisynthStageErrors(f0, p, f, feedback, z, quantize);
    }
  }

  /** Line 105 reads eps while it is still zero. */
  lemma ErrorNeverChecked(f: real)
    requires f != 0.0
    ensures !(Abs(0.0) / f > 1e-12)
  {
    assert Abs(0.0) == 0.0;
  }

  /** The feedback divider of a configuration is the exact split of the
      `NearestFraction` approximation of quantize(pll/f0), with
      b0 < c0 <= 2^20 and a0 >= 1. */
  ghost predicate FeedbackIsNearest(c: Config, quantize: real -> nat)
    requires c.f0 > 0.0
  {
    var r := CF.NearestFraction(quantize(c.pll / c.f0), TEN_TO_12, MAX_DENOMINATOR);
    && 1 <= c.c0 <= MAX_DENOMINATOR && c.b0 < c.c0 && c.a0 >= 1
    && c.a0 * c.c0 + c.b0 == r.num && c.c0 == r.den
  }

  /** The output divider r of a configuration for output f is the
      smallest power of two up to 128 that brings the multisynth ratio z
      to 2048 or below, and the multisynth divider is the exact split of
      the approximation of quantize(z/r), with b1 < c1 <= 2^20 and
      a1 >= 1. */
  ghost predicate OutputIsNearest(c: Config, f: real, quantize: real -> nat)
    requires c.c0 > 0 && f != 0.0
  {
    var z := MultisynthRatio(c.f0, Divider(c.a0, c.b0, c.c0), f);
    && IsPowerOfTwo(c.r) && 1 <= c.r <= 128
    && z <= 2048.0 * c.r as real && (c.r > 1 ==> z > 1024.0 * c.r as real)
    && var r := CF.NearestFraction(quantize(z / c.r as real), TEN_TO_12, MAX_DENOMINATOR);
       && 1 <= c.c1 <= MAX_DENOMINATOR && c.b1 < c.c1 && c.a1 >= 1
       && c.a1 * c.c1 + c.b1 == r.num && c.c1 == r.den
  }

  /** What a successful configuration satisfies: the inputs were in range
      and the output positive; the PLL frequency is in range; the
      multisynth ratio passed the check at lines 89-91; both
      ratios are the nearest fractions of their quantized targets; the
      stored frequency is what the two ratios achieve without r, and eps
      is f minus it. */
  lemma SuccessShape(f0: real, pll: real, f: real, quantize: real -> nat)
    requires QuantizeWithin(quantize)
    requires Configure(f0, pll, f, quantize).Success?
    ensures var c := Configure(f0, pll, f, quantize).value;
            && c.f0 == f0 && 10e6 <= f0 <= 27e6 && 0.0 < f <= 200e6
            && ChoosePll(f, pll) == Success(c.pll) && 600e6 <= c.pll <= 900e6
            && FeedbackIsNearest(c, quantize)
            && (var z := MultisynthRatio(f0, Divider(c.a0, c.b0, c.c0), f);
                Near(z, 4.0, 1e-9) || Near(z, 6.0, 1e-9) || z >= 8.0)
            && OutputIsNearest(c, f, quantize)
            && c.f == Achieved(f0, Divider(c.a0, c.b0, c.c0), Divider(c.a1, c.b1, c.c1))
            && c.eps == f - c.f
  {
    assert 10e6 <= f0 <= 27e6 && f <= 200e6 && ChoosePll(f, pll).Success?;
    var p := ChoosePll(f, pll).value;
    assert Configure(f0, pll, f, quantize) == WithPll(f0, p, f, quantize);
    FeedbackRatioInWindow(p, f0);
    var feedback := Approximate(p / f0, quantize);
    assert WithPll(f0, p, f, quantize) == WithFeedback(f0, p, f, feedback, quantize);
    FeedbackStageShape(f0, p, f, feedback, quantize);
    FeedbackWholePart(feedback);
  }

  /** A feedback divider of value at least 1 has a whole part of at least 1. */
  lemma FeedbackWholePart(d: Divider)
    requires d.c > 0 && d.b < d.c && Value(d) >= 1.0
    ensures d.a >= 1
  {
  }

  /** The multisynth stage of a successful configuration, from a feedback
      ratio of at least 1 over a positive reference. */
  lemma FeedbackStageShape(f0: real, p: real, f: real, feedback: Divider, quantize: real -> nat)
    requires QuantizeWithin(quantize) && feedback.c > 0
    requires f0 > 0.0 && Value(feedback) >= 1.0
    requires WithFeedback(f0, p, f, feedback, quantize).Success?
    ensures 0.0 < f
    ensures var z := MultisynthRatio(f0, feedback, f);
            Near(z, 4.0, 1e-9) || Near(z, 6.0, 1e-9) || z >= 8.0
    ensures var c := WithFeedback(f0, p, f, feedback, quantize).value;
            && c.f0 == f0 && c.pll == p && Divider(c.a0, c.b0, c.c0) == feedback
            && OutputIsNearest(c, f, quantize)
            && c.f == Achieved(f0, feedback, Divider(c.a1, c.b1, c.c1))
            && c.eps == f - c.f
  {
    FeedbackStagePasses(f0, p, f, feedback, quantize);
    OutputStageShape(f0, p, f, feedback, MultisynthRatio(f0, feedback, f), quantize);
  }

  /** A successful multisynth stage had a positive output frequency and a
      multisynth ratio that passed the check at lines 89-91. */
  lemma FeedbackStagePasses(f0: real, p: real, f: real, feedback: Divider, quantize: real -> nat)
    requires QuantizeWithin(quantize) && feedback.c > 0
    requires f0 > 0.0 && Value(feedback) >= 1.0
    requires WithFeedback(f0, p, f, feedback, quantize).Success?
    ensures 0.0 < f
    ensures var z := MultisynthRatio(f0, feedback, f);
            && (Near(z, 4.0, 1e-9) || Near(z, 6.0, 1e-9) || z >= 8.0)
            && WithFeedback(f0, p, f, feedback, quantize) == WithMultisynthRatio(f0, p, f, feedback, z, quantize)
  {
    assert f != 0.0;
    var z := MultisynthRatio(f0, feedback, f);
    assert Near(z, 4.0, 1e-9) || Near(z, 6.0, 1e-9) || z >= 8.0;
    PassedRatioPositive(z);
    if f < 0.0 {
      NegativeOutputRatio(f0, feedback, f);
      assert false;
    }
  }

  /** A multisynth ratio that passes the check is positive. */
  lemma PassedRatioPositive(z: real)
    requires Near(z, 4.0, 1e-9) || Near(z, 6.0, 1e-9) || z >= 8.0
    ensures z > 0.0
  {
  }

  /** The output stage of a successful configuration. */
  lemma OutputStageShape(f0: real, p: real, f: real, feedback: Divider, z: real, quantize: real -> nat)
    requires QuantizeWithin(quantize) && feedback.c > 0 && f != 0.0
    requires Near(z, 4.0, 1e-9) || Near(z, 6.0, 1e-9) || z >= 8.0
    requires z == MultisynthRatio(f0, feedback, f)
    requires WithMultisynthRatio(f0, p, f, feedback, z, quantize).Success?
    ensures var c := WithMultisynthRatio(f0, p, f, feedback, z, quantize).value;
            && c.f0 == f0 && c.pll == p && Divider(c.a0, c.b0, c.c0) == feedback
            && OutputIsNearest(c, f, quantize)
            && c.f == Achieved(f0, feedback, Divider(c.a1, c.b1, c.c1))
            && c.eps == f - c.f
  {
    var r := OutputDivider(z, 1);
    OutputDividerSettles(z, 1);
    DividedRatioInRange(z, r);
    var multisynth := Approximate(z / r as real, quantize);
    assert WithMultisynthRatio(f0, p, f, feedback, z, quantize) == WithDivider(f0, p, f, feedback, multisynth, r);
    var c := WithMultisynthRatio(f0, p, f, feedback, z, quantize).value;
    assert Divider(c.a1, c.b1, c.c1) == multisynth;
  }

  /** A non-negative amount over a negative frequency is not positive. */
  lemma NegativeOutputRatio(f0: real, feedback: Divider, f: real)
    requires feedback.c > 0 && f0 >= 0.0 && Value(feedback) >= 0.0 && f < 0.0
    ensures MultisynthRatio(f0, feedback, f) <= 0.0
  {
    var x := f0 * Value(feedback);
    assert x >= 0.0;
    assert x / f == -(x / -f);
    DivAtLeast(x, 0.0, -f);
  }

  /** A quantization of a whole ratio k lies within a unit or two of
      k*1e12, and each such value has k/1 as its approximation with
      denominator up to 2^20. */
  lemma WholeRatio(k: nat, q: nat)
    requires k >= 1
    requires k * TEN_TO_12 - 2 < q <= k * TEN_TO_12 + 1
    ensures CF.NearestFraction(q, TEN_TO_12, MAX_DENOMINATOR) == CF.Ratio(k, 1)
  {
    if q == k * TEN_TO_12 {
      CF.ExactDivision(k, TEN_TO_12, MAX_DENOMINATOR);
    } else if q == k * TEN_TO_12 + 1 {
      DivModUnique(q, k, 1, TEN_TO_12);
      CF.SentinelFallsBack(q, TEN_TO_12, 0, 1, MAX_DENOMINATOR);
    } else {
      assert q == (k - 1) * TEN_TO_12 + (TEN_TO_12 - 1);
      DivModUnique(q, k - 1, TEN_TO_12 - 1, TEN_TO_12);
      DivModUnique(TEN_TO_12, 1, 1, TEN_TO_12 - 1);
      CF.SentinelFallsBack(TEN_TO_12, TEN_TO_12 - 1, 1, 0, MAX_DENOMINATOR);
      CF.Unfold(q, TEN_TO_12, 0, 1, MAX_DENOMINATOR);
    }
  }

  /** A whole feedback ratio k in the window is split as k + 0/1. */
  lemma WholeFeedback(k: nat, quantize: real -> nat)
    requires QuantizeWithin(quantize)
    requires 15 <= k <= 90
    ensures Approximate(k as real, quantize) == Divider(k, 0, 1)
  {
    var q := quantize(k as real);
    assert k as real * 1e12 - 2.0 < q as real <= k as real * 1e12 + 1.0;
    WholeRatio(k, q);
  }

  /** With a 25 MHz reference and no PLL hint, every output below 5 MHz
      uses the 600 MHz PLL and feedback ratio 24 exactly; it is rejected as
      "f_out too low" exactly when 600e6/f exceeds 2048*128, i.e. below
      about 2288.8 Hz, and configured otherwise. */
  lemma LowestOutputAt25MHz(f: real, quantize: real -> nat)
    requires QuantizeWithin(quantize)
    requires 0.0 < f < 5e6
    ensures 600e6 <= 262144.0 * f <==> Configure(25e6, 0.0, f, quantize).Success?
    ensures 600e6 > 262144.0 * f <==> Configure(25e6, 0.0, f, quantize) == Failure(OutputDividerTooBig)
  {
    ReachesOutputStageAt25MHz(f, quantize);
    RatioAt25MHz(f);
    OutputDividerLimit(25e6, 600e6, f, Divider(24, 0, 1), 600e6 / f, quantize);
  }

  /** Below 5 MHz from 25 MHz, the input checks, the PLL choice and the
      feedback window pass with the 600 MHz PLL and feedback 24 + 0/1. */
  lemma ReachesFeedbackAt25MHz(f: real, quantize: real -> nat)
    requires QuantizeWithin(quantize)
    requires 0.0 < f < 5e6
    ensures Configure(25e6, 0.0, f, quantize) == WithFeedback(25e6, 600e6, f, Divider(24, 0, 1), quantize)
  {
    PllBelow100MHz(f, 0.0);
    WholeFeedback(24, quantize);
    assert 600e6 / 25e6 == 24.0;
    assert Configure(25e6, 0.0, f, quantize) == WithPll(25e6, 600e6, f, quantize);
  }

  /** The multisynth ratio at 25 MHz with feedback 24 is 600e6/f, which
      passes the check below 5 MHz. */
  lemma RatioAt25MHz(f: real)
    requires 0.0 < f < 5e6
    ensures MultisynthRatio(25e6, Divider(24, 0, 1), f) == 600e6 / f
    ensures 600e6 / f >= 8.0
    ensures 600e6 / f > 262144.0 <==> 600e6 > 262144.0 * f
  {
    assert Value(Divider(24, 0, 1)) == 24.0;
    DivAbove(600e6, 8.0, f);
    if 600e6 > 262144.0 * f {
      DivAbove(600e6, 262144.0, f);
    } else {
      DivAtMost(600e6, 262144.0, f);
    }
  }

  /** Below 5 MHz from 25 MHz, the configuration is decided by the output
      stage alone. */
  lemma ReachesOutputStageAt25MHz(f: real, quantize: real -> nat)
    requires QuantizeWithin(quantize)
    requires 0.0 < f < 5e6
    ensures 600e6 / f >= 8.0
    ensures Configure(25e6, 0.0, f, quantize)
            == WithMultisynthRatio(25e6, 600e6, f, Divider(24, 0, 1), 600e6 / f, quantize)
  {
    ReachesFeedbackAt25MHz(f, quantize);
    RatioAt25MHz(f);
  }

  /** The output stage fails as "f_out too low" exactly when the
      multisynth ratio exceeds 2048*128, and succeeds otherwise. */
  lemma OutputDividerLimit(f0: real, p: real, f: real, feedback: Divider, z: real, quantize: real -> nat)
    requires QuantizeWithin(quantize) && feedback.c > 0 && f != 0.0
    requires Near(z, 4.0, 1e-9) || Near(z, 6.0, 1e-9) || z >= 8.0
    ensures z > 262144.0 <==> WithMultisynthRatio(f0, p, f, feedback, z, quantize) == Failure(OutputDividerTooBig)
    ensures z <= 262144.0 <==> WithMultisynthRatio(f0, p, f, feedback, z, quantize).Success?
  {
    var r := OutputDivider(z, 1);
    OutputDividerSettles(z, 1);
    if r <= 128 {
      DividedRatioInRange(z, r);
      var multisynth := Approximate(z / r as real, quantize);
      assert WithMultisynthRatio(f0, p, f, feedback, z, quantize) == WithDivider(f0, p, f, feedback, multisynth, r);
      ErrorNeverChecked(f);
      assert z <= 2048.0 * 128.0;
    }
  }

  /** With a 25 MHz reference and no PLL hint, every output from 5 MHz up
      to 100 MHz is configured: the PLL runs at 800 MHz, the feedback
      divider is 32 + 0/1 and the output divider stays at 1. */
  lemma MidRangeOutputAt25MHz(f: real, quantize: real -> nat)
    requires QuantizeWithin(quantize)
    requires 5e6 <= f < 100e6
    ensures Configure(25e6, 0.0, f, quantize).Success?
    ensures var c := Configure(25e6, 0.0, f, quantize).value;
            c.pll == 800e6 && c.a0 == 32 && c.b0 == 0 && c.c0 == 1 && c.r == 1
  {
    PllBelow100MHz(f, 0.0);
    WholeFeedback(32, quantize);
    assert 800e6 / 25e6 == 32.0;
    assert Configure(25e6, 0.0, f, quantize) == WithPll(25e6, 800e6, f, quantize);
    MidRangeRatioAt25MHz(f);
    OutputDividerLimit(25e6, 800e6, f, Divider(32, 0, 1), 800e6 / f, quantize);
    SuccessShape(25e6, 0.0, f, quantize);
    var c := Configure(25e6, 0.0, f, quantize).value;
    assert c.a0 * c.c0 + c.b0 == 32 && c.c0 == 1;
  }

  /** The multisynth ratio at 25 MHz with feedback 32 is 800e6/f, which
      lies in (8, 160] from 5 MHz up to 100 MHz. */
  lemma MidRangeRatioAt25MHz(f: real)
    requires 5e6 <= f < 100e6
    ensures MultisynthRatio(25e6, Divider(32, 0, 1), f) == 800e6 / f
    ensures 8.0 < 800e6 / f <= 160.0
  {
    assert Value(Divider(32, 0, 1)) == 32.0;
    DivAbove(800e6, 8.0, f);
    DivAtMost(800e6, 160.0, f);
  }

  /** Above 150 MHz the PLL runs at 4f and the multisynth ratio is meant
      to be 4, but it is computed from the approximated feedback divider,
      not from 4f/f0. At 153125000.625 Hz from 25 MHz the feedback ratio
      24.5000001 is approximated by 49/2, the ratio comes out as
      4 - 1.6e-8, outside the 1e-9 window around 4, and the configuration
      is rejected as "multisynth ratio too small". */
  lemma RatioTooSmallAt153MHz(quantize: real -> nat)
    requires QuantizeWithin(quantize)
    ensures Configure(25e6, 0.0, 153125000.625, quantize) == Failure(MultisynthRatioTooSmall)
  {
    var f := 153125000.625;
    assert ChoosePll(f, 0.0) == Success(612500002.5);
    assert 612500002.5 / 25e6 == 24.5000001;
    var q := quantize(24.5000001);
    assert 24500000100000.0 - 2.0 < q as real <= 24500000100000.0 + 1.0;
    FeedbackNearFortyNineHalves(q);
    var feedback := Approximate(24.5000001, quantize);
    assert feedback.a * 2 + feedback.b == 49 && feedback.c == 2 && feedback.b < 2;
    assert Value(feedback) == 24.5;
    DivLess(612500000.0, 3.999999999, f);
    MultisynthRatioCheck(25e6, 0.0, f, quantize);
  }

  /** Every quantization of 24.5000001 within a unit or two has 49/2 as
      its approximation: the continued fraction is [24; 1, 1, ~2.5e6], and
      its fourth term needs a denominator far beyond 2^20. */
  lemma FeedbackNearFortyNineHalves(q: nat)
    requires 24500000100000 - 2 < q <= 24500000100000 + 1
    ensures CF.NearestFraction(q, TEN_TO_12, MAX_DENOMINATOR) == CF.Ratio(49, 2)
  {
    var r1 := q - 24 * TEN_TO_12;
    DivModUnique(q, 24, r1, TEN_TO_12);
    var r2 := TEN_TO_12 - r1;
    DivModUnique(TEN_TO_12, 1, r2, r1);
    SecondHalf(r1, r2);
    CF.Unfold(TEN_TO_12, r1, 1, 0, MAX_DENOMINATOR);
    CF.Unfold(q, TEN_TO_12, 0, 1, MAX_DENOMINATOR);
  }

  /** The third term of that expansion is 1 and the fourth does not fit,
      so this level answers 1/1. */
  lemma SecondHalf(r1: nat, r2: nat)
    requires 500000099999 <= r1 <= 500000100001 && r2 == TEN_TO_12 - r1
    ensures CF.Expand(r1, r2, 1, 1, MAX_DENOMINATOR) == CF.Ratio(1, 1)
  {
    var r3 := r1 - r2;
    DivModUnique(r1, 1, r3, r2);
    CF.ProductDivMod(524288, r3);
    DivMonotone(524288 * r3, r2, r3);
    CF.SentinelFallsBack(r1, r2, 1, 1, MAX_DENOMINATOR);
  }
}
