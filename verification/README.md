# go-wspr core, modelled in Dafny

go-wspr is TinyGo firmware for a Raspberry Pi Pico (RP2040). It drives an
Si5351 clock generator for WSPR transmissions. It measures that clock
against a GPS pulse-per-second signal with two chained PWM counters, which a
DMA gather samples at each pulse. This project models the computational
core of that firmware and proves properties of it:

- `ContinuedFraction` (cf.dfy): the bounded-denominator continued-fraction
  approximation `continuedFraction` / `NearestFraction`.
  - The result is the sentinel exactly when the first term is too deep.
  - The denominator stays within the bound.
  - The result is exact iff every convergent fits.
  - The error does not increase as the bound grows.
  - The result equals the textbook forward recurrence of convergents.
- `Observation`, `Timing`, `MTime` (observation.dfy, timing.dfy,
  mtime.dfy): the three copies of the hi/lo rollover reducer
  `ReduceObservation`.
  - Each has its decision table and the absence of uint64 wrap for the
    scales in use.
  - Each is proved against an abstract non-decreasing counter read four
    times.
  - The two identical copies are proved equal. The `mtime.go` variant is
    proved to differ from them exactly when the high reads differ.
- `Si5351` (si5351.dfy): the divider solver `New` on `real` frequencies.
  - Covers input validation, the PLL choice, the feedback window, the
    `a + b/c` splits, the power-of-two output divider loop and the stored
    frequency and `eps`.
- `Extras` (extras.dfy): `boolToBit` and `u32max`.
- `Dma` (dma.dfy), with bit-level helpers in `Bits` (bits.dfy):
  - the 12-channel claim mask with try-claim, unclaim and first-free scan;
  - register address arithmetic;
  - PIO DREQ numbers and `dmaSize`;
  - `setBitPos`;
  - the timeout shift of `setTimeout`.
- `Pwm` (pwm.dfy): the period-to-divider and TOP computation of `setPeriod`
  with its clamps, `SetTop`, `setClockDiv`, `SetEN_CH` and the GPIO →
  slice/channel mapping.
- `Sampling` (sampling.dfy): the sampling pipeline shared by
  `src/pico/setup.go` and `src/wspr/setup.go`.
  - Covers the eight-word result buffer, its gather list, the taint written
    after each read and the reduction into a `Sample`.
  - Covers the interrupt step: bounded spin for fresh data, non-blocking
    push into the two-slot queue, error flag, re-arm.
  - Covers `InterruptMessage`.
  - `Variant` selects between the two programs. They differ in the spin's
    freshness test and in which reducer they call.
- `Consumer` (consumer.dfy): the 100-event loop of `main/main.go`.
  - Each event updates the count/time baseline and the missed-sample
    counter and produces one output.

Fixed-width words are natural numbers bounded by their width (`u8` … `u64`
in `Base`). Go's uint64 wrap-around is written out as `Wrap64` wherever the
source can wrap. Bit masks are numbers with a bit view,
`Bit(w, j) = (w / 2^j) % 2 == 1`. `w | 1<<p`, `w &^ 1<<p`, `a | b`, `a & b`
and `a &^ b` are defined on that view and proved bit by bit.

Hardware is modelled as explicit inputs and methods:
- the DMA gather that fills the buffer is the method
  `Sampling.Pipeline.DmaFill`;
- the iteration of the spin loop in which the fill lands is an input of
  `Sampling.Pipeline.Interrupt`;
- the events the consumer's `select` receives form the input sequence of
  `Consumer.Monitor.Run`;
- `cpuPeriod()` is the parameter `periodPerCycle` of `Pwm.PwmGroup.ApplyPeriod`.

Where the comments and the code disagree, the model follows the code:
- `continuedFraction` returns convergents, not the best approximation
  within the bound that the comment at src/support/cf.go:20 promises.
  `ContinuedFraction.ConvergentIsNotBestWithinBound` shows this with
  2301/500 and bound 97. The weaker promise at src/support/cf.go:67-68
  does hold: no fraction with a denominator up to the answer's comes
  closer (`ContinuedFraction.NearestFractionIsBestForItsDenominator`).
- The bound is inclusive (`d <= max`), not `d < max`.
- The design comment at the top of `src/wspr/setup.go` describes an older
  scheme. The model follows the code.

Some behaviours of the code as written are worth knowing:

- The support reducer has a case it gets wrong. Suppose the high word ticks
  after the `th1` read, and the counter does not move between the two low
  reads. Then it pairs `tl1` with `th1` and answers one `scale` too low
  (`Observation.StillCounterAfterTick`). With the hardware's increments
  this needs the counter to stand still for the duration of the reads.
  There is no corrected reducer that is evidently intended, so this is
  not listed as a finding.
- A read that finds no fresh data still reports success, for example after
  a dropped sample left the gather un-armed.
  - The spin runs out after 1000 iterations.
  - `Collect` reads the tainted words.
  - The flag becomes `InterruptOK`, since `b1 = 0` is never `0xffffffff`.
  - So `NoDMAData` can never come from the taint
    (`Sampling.StaleBufferReportsOk`).
- In `Si5351Config.New`, the range check on `eps` at line 105 reads the
  field before it is assigned and never rejects.
  - The stored `f` and the returned `eps = f - r.f` leave out the division
    by the output divider `r`.
  - `Si5351.InternalChecksNeverFire` and `Si5351.SuccessShape` state this.

## Model

| member | source | states |
|---|---|---|
| ContinuedFraction.Expand | src/support/cf.go:74-92 | The result is the sentinel (1, 0) exactly when the next denominator `f + term*e` exceeds the bound. Any other result has a positive denominator. A value a/b >= 1 gives c >= d. |
| ContinuedFraction.NearestFraction | src/support/cf.go:48-52 | The top-level call with e = 0, f = 1. Bound 0 gives the sentinel. Any bound >= 1 gives 1 <= d <= bound, so equality is allowed. |
| ContinuedFraction.RecombineLift | src/support/cf.go:85-89 | Recombining the child's (cx, dx) into (term*cx + dx, cx) commutes with lifting through the denominator accumulators. |
| ContinuedFraction.RecombineResidual | src/support/cf.go:80-89 | With a = term*b + ax, the recombination leaves the residual unchanged. The residual is \|a*d − b*c\|. |
| ContinuedFraction.StepPreserves | src/support/cf.go:74-92 | One level passes its child's top-level denominator and residual up unchanged. |
| ContinuedFraction.DenominatorWithinBound | src/support/cf.go:76-78 | Whenever the current term fits, the denominator of the final convergent is within the bound. |
| ContinuedFraction.DenominatorAtLeastPrevious | src/support/cf.go:85-89 | Deeper levels never lower the top-level denominator below the previous one. |
| ContinuedFraction.ResidualAtMostDivisor | src/support/cf.go:76-89 | The residual \|a*d − b*c\| of the result never exceeds b, whatever the bound. |
| ContinuedFraction.ExactIffExpansionFits | src/support/cf.go:80-89 | The result equals a/b exactly iff every convergent, down to the exact one, fits the bound. |
| ContinuedFraction.ExactWhenEveryConvergentFits | src/support/cf_test.go:53-76 | At top level, c/d equals a/b exactly iff every convergent of a/b fits the bound. The exact answers in the tests are instances. |
| ContinuedFraction.ExactDivision | src/support/cf.go:81-83 | For every k, n and bound >= 1, the exact quotient k*n/n gives (k, 1). |
| ContinuedFraction.FirstTermTooDeep | src/support/cf.go:76-78 | If f + (a/b)*e exceeds the bound, the answer is (1, 0). |
| ContinuedFraction.SentinelFallsBack | src/support/cf.go:85-89 | When the child answers the sentinel, the parent answers its own convergent (a/b, 1). |
| ContinuedFraction.WiderBoundNoWorse | src/support/cf.go:74-92 | A larger bound gives a denominator no smaller and a residual no larger. |
| ContinuedFraction.ErrorIsScaledResidual | src/support/cf.go:20-22 | The error \|a/b − c/d\| is the residual divided by b*d. |
| ContinuedFraction.ErrorNonIncreasing | src/support/cf_test.go:91-130 | At top level, raising the bound never lowers d and never increases \|a/b − c/d\|. The π table is an instance. |
| ContinuedFraction.ExpandMatchesConvergents | src/support/cf.go:54-73 | The recursive back-out computes the same numerator and denominator as the forward recurrence p(k) = term*p(k−1) + p(k−2). |
| ContinuedFraction.NearestFractionIsLastConvergent | src/support/cf.go:67-70 | The result is the last convergent of a/b whose denominator fits. |
| ContinuedFraction.NearestFractionIsBestForItsDenominator | src/support/cf.go:67-68 | The result r is a best approximation for its denominator: every c/d with 1 ≤ d ≤ r.den has \|a·d − b·c\| ≥ \|a·r.den − b·r.num\|, hence \|a/b − c/d\| ≥ \|a/b − r\|. |
| ContinuedFraction.ConvergentIsNotBestWithinBound | src/support/cf_test.go:65-70 | 2301/500 with bound 97 gives 23/5, although 428/93 is within the bound and strictly closer. |
| ContinuedFraction.PiAtBound113 | src/support/cf_test.go:99 | 3.14159265358 with bound 113 gives 355/113, with the denominator equal to the bound. |
| Observation.ReduceObservation | src/support/observation.go:33-50 | The result is the uint64 value th1*scale + tl1 or th2*scale + tl1. The low part is always tl1. |
| Observation.CombinedFits | src/support/observation.go:37-46 | A 32-bit high word times a scale <= 2^32, plus a low word below the scale, fits uint64. |
| Observation.WrapsToItself | src/support/observation.go:37 | Neither the uint64 product of a 32-bit high word and scale <= 2^32 nor the added low word below scale wraps. |
| Observation.NoWrap | src/support/observation.go:33-50 | For tl1 < scale <= 2^32 the result is exact, with a remainder mod scale of tl1. When the high reads differ it uses th2 iff tl1 < tl2. |
| Observation.Unwrapped | src/support/observation.go:35-47 | Each branch gives exactly high*scale + tl1 for its high word. |
| Observation.HighStep | src/support/observation.go:24-27 | A counter that moves by less than scale moves its high word by at most one. |
| Observation.ReducesToCounter | src/support/observation.go:19-31 | Take a counter read four times that is non-decreasing and moves less than scale. If it moves between the low reads, the result is its value at the tl1 read. Otherwise the result is that value or one scale less, and the latter only when the counter stood still. |
| Observation.WordsDecide | src/support/observation.go:35-47 | The same case analysis on the words themselves. |
| Observation.StillCounterAfterTick | src/support/observation.go:44-46 | A tick before the tl1 read with a still counter makes the `>=` branch answer one scale low. |
| Observation.ObservationVectors | src/support/observation_test.go:28-39 | The four table entries at scale 0x10000. |
| Timing.ReduceObservation | src/support/timing.go:19-36 | Same decision table: th1 or th2 paired with tl1. |
| Timing.AgreesWithObservation | src/support/timing.go:19-36 | Equal to the observation.go copy for every input. |
| MTime.ReduceObservation | src/wspr/mtime.go:27-35 | The result is the pair (th1, tl1) or the second pair (th2, tl2), in uint64. |
| MTime.Unwrapped | src/wspr/mtime.go:29-32 | For low words below scale <= 2^32: equal high reads give th1*scale + tl1, otherwise th2*scale + tl2. |
| MTime.MicroTimeScaleNoWrap | src/wspr/mtime.go:21-25 | At scale 2^32 the result's 32-bit words are exactly the chosen pair. |
| MTime.ReducesToCounter | src/wspr/mtime.go:27-35 | Against the abstract counter, the result is the value at the tl1 read (equal highs) or at the tl2 read (highs differ). |
| MTime.WordsDecide | src/wspr/mtime.go:29-33 | The same case analysis on the words themselves. |
| MTime.DiffersFromSupportExactlyOnTick | src/wspr/mtime.go:31-32 | For low words below scale, the two reducers agree iff th1 == th2. |
| MTime.TickExample | src/support/observation_test.go:35 | (100, 0xfff5, 101, 45) gives 101*scale + 45 here and 100*scale + 0xfff5 in the support reducer. |
| Si5351.Near | src/support/Si5351Config.go:112-114 | `near(a, b, eps)` holds iff b − eps <= a <= b + eps. |
| Si5351.ChoosePll | src/support/Si5351Config.go:58-70 | For f >= 100 MHz the PLL is 4f above 150 MHz and 6f otherwise. The choice fails, with the PLL range error, iff f < 100 MHz and a nonzero hint lies outside [600, 900] MHz. A success is always within [600, 900] MHz. |
| Si5351.PllBelow100MHz | src/support/Si5351Config.go:62-70 | Below 100 MHz a zero hint gives 600 MHz under 5 MHz and 800 MHz otherwise, and a hint in [600, 900] MHz is taken as is. |
| Si5351.SplitRatio | src/support/Si5351Config.go:83-86 | `b/c, b%c, c` in 32 bits: a*c + b is the numerator with b < c whenever the values fit. |
| Si5351.Value | src/support/Si5351Config.go:88 | a + b/c lies in [a, a+1) when b < c. |
| Si5351.QuantizedSplit | src/support/Si5351Config.go:78-86 | For a quantized target up to 5000·1e12, the nearest fraction has 1 <= c <= 2^20 and fits the 32-bit split. |
| Si5351.NumeratorBound | src/support/Si5351Config.go:78-86 | The nearest fraction's numerator stays below 5002 times its denominator. |
| Si5351.MultisynthRatio | src/support/Si5351Config.go:88 | The multisynth ratio z = f0·(a0 + b0/c0)/f, over reals. |
| Si5351.Achieved | src/support/Si5351Config.go:104 | The stored frequency f0·(a0 + b0/c0)/(a1 + b1/c1), without the output divider r. |
| Si5351.Approximate | src/support/Si5351Config.go:78-86 | `NearestFraction(uint64(x*1e12), 1e12, 1<<20)` split as a + b/c gives 1 <= c <= 2^20, b < c, a*c + b = numerator, and a value >= 1 for x >= 2. |
| Si5351.OutputDivider | src/support/Si5351Config.go:92-95 | Starting from r, doubles r while z > 2048·r and r <= 128, and answers the r it stops at. Its properties are the OutputDivider lemmas below. |
| Si5351.OutputDividerSettles | src/support/Si5351Config.go:92-95 | The divider the loop settles on is a power of two <= 256. If r <= 128, z <= 2048r. Reaching 256 means z > 2048·128. Every doubling was needed. |
| Si5351.OutputDividerShape | src/support/Si5351Config.go:92-95 | Doubling from a power of two stays a power of two, never below the start and never above 256. |
| Si5351.OutputDividerCovers | src/support/Si5351Config.go:93 | A divider up to 128 brings z/r to 2048 or less. |
| Si5351.OutputDividerMinimal | src/support/Si5351Config.go:93-94 | Each doubling happened because z/r was above 2048, so z > 1024·r for the final r. |
| Si5351.OutputDividerExhausted | src/support/Si5351Config.go:93-97 | Ending above 128 means the loop reached 256 with z/128 > 2048. |
| Si5351.DoubleOutputDivider | src/support/Si5351Config.go:92-95 | The loop, doubling r in place from 1, ends at `OutputDivider(z, 1)`. |
| Si5351.DividedRatioInRange | src/support/Si5351Config.go:89-98 | After the multisynth check and a divider <= 128, 2 <= z/r <= 2048. |
| Si5351.Configure | src/support/Si5351Config.go:46-70 | `New` as a function: the clock-range error, the 200 MHz error and the PLL choice, in source order, then the stages below. Its properties are the lemmas RejectsInvalidInput through OutputDividerLimit. |
| Si5351.WithPll | src/support/Si5351Config.go:71-86 | The feedback ratio pll/f0 is rejected below 15 or above 90, and otherwise approximated into the feedback divider. |
| Si5351.WithFeedback | src/support/Si5351Config.go:88-91 | f = 0 takes the "f_out too low" path. Otherwise the multisynth ratio is rejected unless it is within 1e-9 of 4 or 6, or at least 8. |
| Si5351.WithMultisynthRatio | src/support/Si5351Config.go:92-102 | The output divider is OutputDivider(z, 1). Above 128 it is "f_out too low". Otherwise z/r is approximated into the multisynth divider. |
| Si5351.WithDivider | src/support/Si5351Config.go:104-109 | The eps check reads eps = 0 and so never rejects. The configuration stores the achieved f and eps = f − achieved. |
| Si5351.New | src/support/Si5351Config.go:46-110 | The early returns, run in order, give `Configure(f0, pll, f, quantize)`. |
| Si5351.OutputStage | src/support/Si5351Config.go:88-109 | The multisynth check, divider loop, second split and frequency, run in order, give the functional stage `WithFeedback`. |
| Si5351.RejectsInvalidInput | src/support/Si5351Config.go:50-70 | f0 outside [10, 27] MHz, f > 200 MHz and an out-of-range PLL hint fail with their own errors, in that order. |
| Si5351.FeedbackRatioInWindow | src/support/Si5351Config.go:71-77 | A PLL in [600, 900] MHz over f0 in [10, 27] MHz gives 15 <= z <= 90. |
| Si5351.MultisynthRatioCheck | src/support/Si5351Config.go:88-91 | For inputs that pass the range checks and f ≠ 0, the answer is "multisynth ratio too small" iff z is neither ≈ 4 nor ≈ 6 and below 8. |
| Si5351.InternalChecksNeverFire | src/support/Si5351Config.go:71-107 | The "can't happen" ratio checks and the eps check never reject. |
| Si5351.OutputStageErrors | src/support/Si5351Config.go:88-109 | The output stage fails only with "ratio too small" or "f_out too low". |
| Si5351.MultisynthStageErrors | src/support/Si5351Config.go:92-109 | Once the multisynth check passes, the only possible failure is "f_out too low" (no divider up to 128). |
| Si5351.SuccessShape | src/support/Si5351Config.go:46-110 | A success had inputs in range, a positive output and a PLL in range, and its multisynth ratio passed the 4 / 6 / ≥ 8 check. Both dividers are the nearest fractions of their quantized targets. Its f is f0*(a0+b0/c0)/(a1+b1/c1) without r, and eps = f_requested − f. |
| Si5351.OutputStageShape | src/support/Si5351Config.go:88-109 | A successful output stage keeps the feedback divider. Its multisynth divider is the nearest fraction of z/r, and its f and eps are as above. |
| Si5351.WholeRatio | src/support/Si5351Config.go:78 | Any quantization of a whole ratio k >= 1 within a unit or two of k·1e12 gives the fraction k/1. |
| Si5351.LowestOutputAt25MHz | src/support/Si5351Config_test.go:59-75 | With f0 = 25 MHz and no hint, an output below 5 MHz succeeds iff 262144·f >= 600 MHz, and otherwise fails as "f_out too low". |
| Si5351.WholeFeedback | src/support/Si5351Config.go:78-86 | A whole feedback ratio k in [15, 90] is split as k + 0/1. |
| Si5351.MidRangeOutputAt25MHz | src/support/Si5351Config_test.go:66-75 | With f0 = 25 MHz and no hint, every output in [5 MHz, 100 MHz) is configured, with the 800 MHz PLL, feedback 32 + 0/1 and output divider 1. |
| Si5351.MidRangeRatioAt25MHz | src/support/Si5351Config.go:88-91 | With feedback 32 from 25 MHz the multisynth ratio is 800e6/f, inside (8, 160] for f in [5 MHz, 100 MHz). |
| Si5351.RatioTooSmallAt153MHz | src/support/Si5351Config.go:58-91 | From 25 MHz with no hint, the output 153125000.625 Hz is rejected as "multisynth ratio too small" for every quantization within a unit or two. |
| Si5351.FeedbackNearFortyNineHalves | src/support/Si5351Config.go:78 | Any quantization of 24.5000001 within a unit or two has 49/2 as its approximation with denominator up to 2^20. |
| Si5351.OutputDividerLimit | src/support/Si5351Config.go:92-98 | The output stage fails as "f_out too low" iff z > 2048·128, and succeeds otherwise. |
| Extras.BoolToBit | src/machine_x/extras.go:4-9 | 1 iff true, never above 1. |
| Extras.U32Max | src/machine_x/extras.go:12-17 | At least both arguments and equal to one of them. |
| Bits.SetBitEffect | src/wspr/dma.go:78 | `w \| 1<<p` has bit p set and every other bit as in w. |
| Bits.ClearBitEffect | src/wspr/dma.go:86 | `w &^ 1<<p` has bit p clear and every other bit as in w. |
| Bits.SetThenClear | src/wspr/dma.go:73-87 | Claiming a free bit and releasing it again restores the mask. |
| Bits.SetBitWithin | src/wspr/dma.go:78 | Setting a bit below the width keeps the mask within its uint16 width. |
| Bits.OrBit | src/machine_x/machine_rp2040_pwm.go:302 | Every bit of `a \| b` is the disjunction of the bits. |
| Bits.AndNotBit | src/machine_x/machine_rp2040_pwm.go:302 | Every bit of `a &^ b` is set iff it is set in a and clear in b. |
| Bits.AndBit | src/machine_x/machine_rp2040_pwm.go:295 | Every bit of `a & b` is the conjunction of the bits. |
| Dma.DmaArbiter.constructor | src/wspr/dma.go:31-35 | The arbiter starts with no channel claimed. |
| Dma.DmaArbiter.Channel | src/wspr/dma.go:52-63 | Index i <= 11 gives a valid channel with that index. |
| Dma.DmaChannel.IsValid | src/wspr/dma.go:95-98 | A channel is valid when it was created by the arbiter, modelled as the `Channel` constructor with an index below 12. |
| Dma.DmaArbiter.IsClaimed | src/wspr/dma.go:89-93 | A valid channel is claimed iff bit idx of the claimed mask is set. |
| Dma.DmaArbiter.TryClaim | src/wspr/dma.go:73-80 | It succeeds iff the channel was unclaimed. On success exactly bit idx becomes set; on failure the mask is unchanged. |
| Dma.DmaArbiter.Unclaim | src/wspr/dma.go:84-87 | Bit idx is cleared whatever its state, and every other bit is unchanged. |
| Dma.DmaArbiter.ClaimChannel | src/wspr/dma.go:42-50 | It claims the lowest unclaimed index in 0..11, and everything below it was claimed. If all twelve are claimed it returns `ok = false` and the invalid channel, with the mask unchanged. |
| Dma.Position | src/wspr/dma.go:139-155 | The 16 register offsets are numbered 0..15. |
| Dma.PositionRoundTrip | src/wspr/dma.go:139-155 | Register → number → register is the identity. |
| Dma.Offset | src/wspr/dma.go:139-156 | Offsets are multiples of 4 and the register ends at or before the end marker. |
| Dma.EndMarkerFollowsLastRegister | src/wspr/dma.go:156 | The end marker is 64 = last offset + 4. |
| Dma.RegisterAddress | src/wspr/dma.go:159-162 | base + idx*64 + offset lies in channel idx's 64-byte block. |
| Dma.AddressesDistinct | src/wspr/dma.go:159-162 | Equal addresses mean the same channel and the same register. |
| Dma.TxDreq | src/wspr/dma.go:170-172 | block*8 + sm is below 16, in the lower half of its block. |
| Dma.RxDreq | src/wspr/dma.go:175-177 | TxDreq + 4 is in the upper half of its block. |
| Dma.DreqsDistinct | src/wspr/dma.go:170-177 | Tx numbers are distinct, Rx numbers are distinct, and no Tx equals an Rx. |
| Dma.DreqTableCorners | src/wspr/dma.go:190-206 | The PIO0/PIO1 corner entries of the DREQ table. |
| Dma.DmaSize | src/wspr/dma.go:350-362 | The size code c is 0, 1 or 2, with 2^c the element size in bytes. |
| Dma.DmaSizeInjective | src/wspr/dma.go:394-398 | Different element widths get different codes. |
| Dma.ChannelConfig.SetBitPos | src/wspr/dma.go:476-482 | For pos < 32, bit pos becomes `bit` and every other bit is unchanged. pos >= 32 leaves the word unchanged, because Go's shift gives 0. |
| Dma.ShiftedDuration | src/wspr/dma.go:531 | `time.Duration(1 << i)` is 2^i for i < 63 and negative for i = 63. |
| Dma.ShiftAbove | src/wspr/dma.go:530-536 | The scan finds the first i with 2^i > t, and every earlier 2^k <= t. |
| Dma.TimeoutShiftIsSmallest | src/wspr/dma.go:525-537 | The smallest i with 2^i > t is the one the scan returns. |
| Dma.Deadliner.SetTimeout | src/wspr/dma.go:525-537 | t <= 0 gives 0. 0 < t < 2^62 gives the smallest i with 2^i > t. A larger t leaves the field unchanged. |
| Pwm.Prescale | src/machine_x/machine_rp2040_pwm.go:352 | rhs = 16·period / ((1 + phc)·periodPerCycle·(1 + topStart)), in integer division. |
| Pwm.Whole | src/machine_x/machine_rp2040_pwm.go:353-363 | The integer part rhs/16, clamped to 255 above and raised to 1 when it is 0. |
| Pwm.Frac | src/machine_x/machine_rp2040_pwm.go:354-363 | The fraction rhs mod 16, set to 0 when the integer part underflowed. |
| Pwm.ClampDivider | src/machine_x/machine_rp2040_pwm.go:353-363 | The `switch` as a method: it returns (Whole(rhs), Frac(rhs)), with whole >= 1 and frac < 16. |
| Pwm.TopFor | src/machine_x/machine_rp2040_pwm.go:367-370 | TOP = 16·period/((16·whole + frac)·periodPerCycle·(1 + phc)) − 1 in uint64 (so 0 − 1 wraps), then clamped to 0xffff. |
| Pwm.DividerInRange | src/machine_x/machine_rp2040_pwm.go:352-363 | 1 <= whole <= 255 and frac < 16. An underflow gives (1, 0), an overflow gives 255 with frac kept, and otherwise 16·whole + frac is the prescale. |
| Pwm.TopInRange | src/machine_x/machine_rp2040_pwm.go:365-370 | TOP <= 0xffff. A zero quotient wraps in uint64 and clamps to 0xffff. A quotient q in 1..0x10000 gives q − 1. |
| Pwm.PeriodUndershoots | src/machine_x/machine_rp2040_pwm.go:365-367 | When TOP is not clamped, (TOP+1)·step <= 16·period < (TOP+2)·step. |
| Pwm.TopAtLeastStart | src/machine_x/machine_rp2040_pwm.go:323-330 | When the prescale needs no clamp, step 2 lands at TOP >= topStart. |
| Pwm.PwmGroup.SetTop | src/machine_x/machine_rp2040_pwm.go:245-247 | TOP becomes the argument mod 2^16, and nothing else changes. |
| Pwm.PwmGroup.SetPhaseCorrect | src/machine_x/machine_rp2040_pwm.go:305-307 | The phase-correct bit becomes `boolToBit(correct)`. |
| Pwm.PwmGroup.SetClockDiv | src/machine_x/machine_rp2040_pwm.go:381-384 | DIV.FRAC becomes the low nibble of frac. DIV.INT becomes `u32max(Int, 1)` or-ed with frac's high nibble. |
| Pwm.ClockDivIntegerPart | src/machine_x/machine_rp2040_pwm.go:381-384 | The written integer part is >= 1. For frac < 16 it is exactly `u32max(Int, 1)`. |
| Pwm.PwmGroup.ApplyPeriod | src/machine_x/machine_rp2040_pwm.go:322-374 | It fails iff period > 268 ms or < 8 ns, touching nothing. Otherwise phase correction is switched on above 134 ms and never off, and TOP and DIV are the clamped two-step values. |
| Pwm.PwmGroup.SetPeriod | src/machine_x/machine_rp2040_pwm.go:182-187 | A zero period is replaced by 1e5 ns, which is in range, so it succeeds. The period p so chosen fails iff it is out of range, and then nothing changes. Otherwise phase-correct mode is set when p > MAX_PERIOD/2, and TOP and DIV are those computed for p. |
| Pwm.ConstantMaskBits | src/machine_x/machine_rp2040_pwm.go:295 | 0xfe has bits 1..7 and no others. |
| Pwm.EnableWord | src/machine_x/machine_rp2040_pwm.go:294-303 | The new EN word as written: old &^ (channels & 0xfe), or-ed with channels when value != 0. |
| Pwm.EnableWordBits | src/machine_x/machine_rp2040_pwm.go:294-303 | Bits outside `channels` keep their state. A nonzero value sets every requested bit. A zero value clears requested bits 1..7 only, so bit 0 and bits >= 8 are never cleared. |
| Pwm.EnableWordWithin | src/machine_x/machine_rp2040_pwm.go:294-303 | EN stays a 32-bit word. |
| Pwm.PwmBlock.SetEnChannels | src/machine_x/machine_rp2040_pwm.go:294-303 | EN becomes `old & ^(channels & 0xfe) \| (value != 0 ? channels : 0)`. Unrequested bits are unchanged, a nonzero value enables every requested slice, and bit 0 is never cleared. |
| Pwm.DisableLeavesSliceZero | src/pico/setup.go:412 | `SetEN_CH(PWM_CH0\|PWM_CH1, 0)` with EN = 3 leaves EN = 1: slice 0 stays enabled. |
| Pwm.EnableWordIntendedBits | src/machine_x/machine_rp2040_pwm.go:294-303 | With the mask covering `channels`, every requested slice takes the state `value != 0` and every other slice keeps its state. |
| Pwm.EnableWordIntendedIdempotent | src/machine_x/machine_rp2040_pwm.go:294-303 | With the mask covering `channels`, applying the same update twice gives the same EN word as applying it once. |
| Pwm.EnableThenDisableIntended | src/machine_x/machine_rp2040_pwm.go:294-303 | With the mask covering `channels`, any update followed by disabling the same channels leaves EN = en &^ channels. |
| Pwm.GpioToSlice | src/machine_x/machine_rp2040_pwm.go:470-472 | `(gpio >> 1) & 7` is in 0..7. |
| Pwm.GpioToChannel | src/machine_x/machine_rp2040_pwm.go:476-478 | `gpio & 1` is 0 or 1. |
| Pwm.SliceAndChannelRecoverPin | src/machine_x/machine_rp2040_pwm.go:468-478 | 2·slice + channel = gpio mod 16. |
| Pwm.LowPinsDistinct | src/machine_x/machine_rp2040_pwm.go:474-478 | Pins 0..15 have distinct (slice, channel) pairs. |
| Sampling.Decimal | src/pico/setup.go:291 | `%d` of a code is nonempty decimal digits with no leading zero. |
| Sampling.DecimalRoundTrip | src/pico/setup.go:291 | Reading the digits back gives the code. |
| Sampling.InterruptMessage | src/pico/setup.go:276-293 | The message for each error-flag code: six fixed strings, otherwise "Unknown interrupt message " and the decimal code (the same switch as src/wspr/setup.go:261-278). |
| Sampling.MessageShape | src/pico/setup.go:276-293 | Codes 0..5 have fixed messages shorter than the prefix. Other codes give "Unknown interrupt message " followed by digits that read back as the code. The wspr program has the same mapping at src/wspr/setup.go:261-278. |
| Sampling.MessageInjective | src/pico/setup.go:267-293 | Different codes give different messages. |
| Sampling.RawSample | src/pico/setup.go:373-383 | The sample holds the eight buffer words in their own fields, with T, Count and Type zero. |
| Sampling.Taint | src/pico/setup.go:384-389 | b1 = 0, b2 = 100, and the other six words are unchanged. |
| Sampling.Fresh | src/pico/setup.go:307 | The spin's exit test: the pico program leaves when b1 != 0 or b2 != 100, the wspr program when b2 != 100 (src/wspr/setup.go:291-295). |
| Sampling.TaintIsNotFresh | src/pico/setup.go:306-310 | A tainted buffer never passes either program's freshness test. A second read sees b1 = 0, b2 = 100. Tainting twice is tainting once. |
| Sampling.Reduce | src/pico/setup.go:405-406 | Each program's reducer: the pico program uses src/support/observation.go, the wspr program its own mtime.go (src/wspr/setup.go:389-390). |
| Sampling.CollectSample | src/pico/setup.go:403-408 | The raw fields and Type are kept. Count and T come from the reducer. The wspr program uses the mtime.go reducer (src/wspr/setup.go:387-392). |
| Sampling.SampleTime | src/pico/setup.go:406 | T's 32-bit words: pico keeps tl1 and uses th2 iff the highs differ and tl1 < tl2; wspr takes the second pair when the highs differ. |
| Sampling.SampleCount | src/wspr/setup.go:389 | For any 32-bit counter words, including a low word equal to TOP = 50_000, Count is high·50_000 + low for the pair each program picks, so there is no wrap. |
| Sampling.TransfersLayout | src/pico/setup.go:190-228 | Eight moves, then the (0,0) terminator, with no earlier terminator. Move k fills buffer word k from its register: timer high, low, high, low, then PWM1, PWM0, PWM1, PWM0. The wspr program has the same list at src/wspr/setup.go:171-208. |
| Sampling.GatherFillsInOrder | src/pico/setup.go:190-228 | A full gather overwrites all eight words in buffer order, whatever they held. |
| Sampling.ResultBuffer.Write | src/pico/setup.go:107-109 | One DMA write changes exactly the addressed word. |
| Sampling.ResultBuffer.Gather | src/pico/setup.go:60-70 | Walking the control blocks until the terminator leaves the k-th value read in the k-th word. |
| Sampling.ResultBuffer.Collect | src/pico/setup.go:373-390 | It returns the old words and leaves them tainted. The wspr program does the same at src/wspr/setup.go:361-376. |
| Sampling.SpinStopsAtFirstFresh | src/pico/setup.go:306-310 | At most 1000 iterations. Every view passed over is stale, the stopping view is fresh unless the spin ran out, and `Collect` reads that view. |
| Sampling.FirstFreshIsSpinCount | src/wspr/setup.go:291-295 | Any run that passes only stale views and stops on a fresh one (or at 1000) has exactly `SpinCount` iterations. |
| Sampling.FlagFor | src/pico/setup.go:319-323 | After a push the flag is `NoDMAData` iff B1 = 0xffffffff, and `InterruptOK` otherwise. |
| Sampling.StaleBufferReportsOk | src/pico/setup.go:306-323 | With no fill after a read, the spin runs 1000 times, the tainted words are read and the flag is `InterruptOK`. |
| Sampling.Pipeline.constructor | src/pico/setup.go:302 | Empty queue of capacity 2, flag OK, gather armed. |
| Sampling.Pipeline.DmaFill | src/pico/setup.go:253-254 | A PPS edge gathers only when armed, and uses the arming up. |
| Sampling.Pipeline.Interrupt | src/pico/setup.go:303-327 | The spin count is `SpinCount`, the buffer ends tainted and the reduced sample is pushed if the queue has room. A push is followed by the flag update and a re-arm. On a full queue the sample is dropped with `SecondSendFailed` and no re-arm. The wspr program, at src/wspr/setup.go:288-312, has a spin test on b2 only and uses the mtime.go reducer. |
| Sampling.Pipeline.Receive | main/main.go:58 | It takes the oldest queued sample, if any. |
| Consumer.DeltaRecoversAdvance | main/main.go:59-70 | For a count wrapping at 50_000·50_000 that advanced by d below that, the printed delta is d. |
| Consumer.DeltaWraps | main/main.go:70 | A drop by more than the offset wraps the uint64 delta to 2^64 + count + offset − k0. Otherwise the delta is count + offset − k0. |
| Consumer.AfterSummary | main/main.go:51-78 | After any run, k0/t0 are the latest sample's Count/T, unchanged if there was none. missedSamples counts the timeouts since that sample. |
| Consumer.TimeoutNoticeRule | main/main.go:53-57 | A timeout prints iff at least two timeouts came since the last sample. |
| Consumer.CountDelta | main/main.go:59-62 | s.Count − k0 + offset in uint64, with offset 50_000·50_000 when the count went down. |
| Consumer.Step | main/main.go:53-77 | The state after one event: a timeout increments missedSamples; a sample sets k0 and t0 to its Count and T and resets missedSamples. |
| Consumer.StepOutput | main/main.go:53-70 | What one event prints: a timeout notice with the count when missedSamples > 1, otherwise nothing. A sample prints its count delta, its time delta and the error message when the flag is nonzero. |
| Consumer.StepEffects | main/main.go:53-77 | A timeout keeps k0/t0 and increments missedSamples. A sample resets missedSamples and sets k0 to its Count. |
| Consumer.OutputsAt | main/main.go:51-78 | A run prints one output per event, and output k is what event k prints in the state the first k events lead to. |
| Consumer.Monitor.constructor | main/main.go:32-48 | k0 = 0, missedSamples = 0, t0 is the start time. |
| Consumer.Monitor.Handle | main/main.go:52-78 | One `select`: the new state and output are `Step` and `StepOutput`. |
| Consumer.Monitor.Run | main/main.go:51-80 | Exactly 100 events. The final state is `After(events)` and output i is that of event i in its state. |

## Left out

- Floating point:
  - the `eps` of `NearestFraction`;
  - the float64 rounding of every Si5351 quantity other than
    `uint64(z*1e12)`, which is a parameter known to lie within a unit or
    two of z·1e12;
  - the consumer's Δt in seconds and its frequency printout.
- `continuedFraction`: uint64 overflow of `term*e` and of the recombination
  is not modelled, because values are unbounded naturals.
- ContinuedFraction.Expand and ContinuedFraction.NearestFraction require
  b > 0. With b = 0 the Go code panics on integer division by zero. Every
  caller in the repository passes b = 1e12.
- Si5351.LowestOutputAt25MHz and Si5351.MidRangeOutputAt25MHz: success
  with f0 = 25 MHz and no hint is proved only below 100 MHz. From 100 MHz
  to 200 MHz `Test_range` expects every output to be configured, but the
  model does not promise it: the check at Si5351Config.go:88-91 uses the
  approximated feedback divider, so some outputs are rejected. For example,
  153125000.625 Hz is rejected (Si5351.RatioTooSmallAt153MHz).
- Si5351.New: `f == 0` follows Go's division by zero to +Inf, which is
  modelled as the "f_out too low" path.
- All `volatile.Register32` I/O, `ReplaceBits` as such, and the `rp`
  package's bit positions and masks.
  - Registers are fields, and `setClockDiv` uses the DIV layout its own
    comment gives.
  - The `dmaChannelConfig` setters other than `setBitPos` are not modelled.
  - Neither are `DefaultDMAConfig`, `Init`, `CurrentConfig`, `Busy` and
    `dmaInterruptEnable`.
- `dmaPush`, `dmaPull` and `abort`: busy-wait transfers on hardware.
  `newDeadline` and `expired`: they read the wall clock.
- Dma.Deadliner.SetTimeout: the duration is a mathematical integer in the
  int64 range, not a `time.Duration` value.
- Hardware bring-up is not modelled:
  - `setupClock`, `setupFrequencyCounters` and the register writes of
    `setupDMA`;
  - the PIO program `TimerInit`;
  - pin and interrupt registration;
  - `DirectSampler`, `MicroTime`, `CurrentCount` and `SlowCount`;
  - the DMA IRQ counter.
- Pwm: the public `SetClockDiv`, `Set`, `Channel`, `Configure` and the
  other register accessors are not modelled.
- Pwm: `cpuPeriod()` is the parameter `periodPerCycle`, required positive,
  because a zero value would make Go divide by zero.
- Concurrency: the DMA hardware writes the buffer while the handler spins,
  the handler races with `main`, and the ticker fires. Each is a
  sequential step with an explicit input.
  - The fill lands in one chosen spin iteration.
  - A gather started while un-armed is modelled as no fill. In the
    hardware it would read past the end of the control-block list.
- Sampling.Pipeline.Interrupt: `ErrorFlag` is read once per sample in
  `main`. The source reads it twice.
- The consumer's other printouts are not modelled:
  - the "setup complete" line with `InterruptMessage(ErrorFlag)` printed
    before the loop;
  - the FIFO level, the wait counter and the raw counter dump;
  - the slow-counter delta `s.A2 - s.A1` and the latency
    `MicroTime() - s.T` in the sample report;
  - the pin level `p.Get()` in the timeout message;
  - `EnterBootloader` after the loop.
- Consumer.DeltaRecoversAdvance: proved for a counter that wraps at exactly
  50_000·50_000. The hardware counters have TOP = 50_000, so they have
  50_001 states and do not match that offset exactly. The model keeps the
  code's constants.

## Findings

| source | as written | input that shows it | evidently intended | confidence | as-written member | corrected member |
|---|---|---|---|---|---|---|
| src/machine_x/machine_rp2040_pwm.go:295 | `mask := ^(channels & 0xfe)` never clears bit 0, so `SetEN_CH(PWM_CH0\|PWM_CH1, 0)` leaves slice 0 enabled | EN = 3, `SetEN_CH(3, 0)` gives EN = 1 | every requested slice takes the state `value != 0`, using the mask `^channels` | medium, not executed | Pwm.DisableLeavesSliceZero | Pwm.EnableWordIntendedBits |
