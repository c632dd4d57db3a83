/** The sampling pipeline shared by src/pico/setup.go and
    src/wspr/setup.go: the eight-word result buffer that a DMA gather fills
    and the interrupt handler reads and taints, the gather list, the
    reduction of the raw words into a `Sample`, and the interrupt step
    (bounded spin for fresh data, non-blocking push into a queue of two,
    error flag, re-arm). The two programs differ in the freshness test of
    the spin and in which `ReduceObservation` they call; `Variant` selects
    between them. The DMA hardware is a method of its own, `DmaFill`, whose
    moment in the spin loop is an input of the interrupt step. */
module Sampling {
  import opened Base
  import Observation
  import MTime

  /** Which program: pico/setup.go or wspr/setup.go. */
  datatype Variant = Pico | Wspr

  /** The counters' wrap value, `fastCycle` (and `slowCycle`). */
  const FAST_CYCLE: nat := 50_000

  /** Capacity of the `samples` channel. */
  const QUEUE_CAPACITY: nat := 2

  /** Iterations of the freshness spin. */
  const SPIN_LIMIT: nat := 1000

  /** The taint written into b1 and b2 after each read. */
  const TAINT_B1: u32 := 0
  const TAINT_B2: u32 := 100

  // ---------------------------------------------------------------------
  // Status codes

  const INTERRUPT_OK: u32 := 0
  const INTERRUPT_RUNNING: u32 := 1
  const FIRST_SEND_FAILED: u32 := 2
  const SECOND_SEND_FAILED: u32 := 3
  const NO_DMA_DATA: u32 := 4
  const DMA_BUSY: u32 := 5

  const UNKNOWN_PREFIX: string := "Unknown interrupt message "

  /** A digit character. */
  function DigitChar(d: nat): (c: char)
    requires d < 10
    ensures '0' <= c <= '9' && c as int - '0' as int == d
  {
    ['0', '1', '2', '3', '4', '5', '6', '7', '8', '9'][d]
  }

  /** `%d` of an unsigned number: decimal digits, no leading zero. */
  function Decimal(n: nat): (s: string)
    ensures |s| >= 1
    ensures forall i :: 0 <= i < |s| ==> '0' <= s[i] <= '9'
    ensures n > 0 ==> s[0] != '0'
    decreases n
  {
    if n < 10 then [DigitChar(n)] else Decimal(n / 10) + [DigitChar(n % 10)]
  }

  /** Reads a string of decimal digits back. */
  function ParseDecimal(s: string): nat
  {
    if |s| == 0 then 0
    else
      var c := s[|s| - 1];
      var d := if '0' <= c <= '9' then c as int - '0' as int else 0;
      10 * ParseDecimal(s[..|s| - 1]) + d
  }

  /** `%d` loses nothing: the digits read back give the number. */
  lemma {:induction false} DecimalRoundTrip(n: nat)
    ensures ParseDecimal(Decimal(n)) == n
    decreases n
  {
    var s := Decimal(n);
    if n < 10 {
      assert s[..0] == [];
    } else {
      DecimalRoundTrip(n / 10);
      assert s[..|s| - 1] == Decimal(n / 10);
    }
  }

  /** `InterruptMessage(code)`. */
  function InterruptMessage(code: u32): string
  {
    if code == INTERRUPT_OK then "Interrupt OK"
    else if code == INTERRUPT_RUNNING then "Interrupt Running"
    else if code == FIRST_SEND_FAILED then "First Send Failed"
    else if code == SECOND_SEND_FAILED then "Second Send Failed"
    else if code == NO_DMA_DATA then "No DMA Data"
    else if code == DMA_BUSY then "DMA Busy"
    else UNKNOWN_PREFIX + Decimal(code)
  }

  /** The codes 0 to 5 have short fixed messages; every other code is
      reported with the prefix and its own decimal number, which can be
      read back. */
  lemma MessageShape(code: u32)
    ensures code <= DMA_BUSY ==> |InterruptMessage(code)| < |UNKNOWN_PREFIX|
    ensures code > DMA_BUSY ==>
              var m := InterruptMessage(code);
              && |m| > |UNKNOWN_PREFIX|
              && m[..|UNKNOWN_PREFIX|] == UNKNOWN_PREFIX
              && ParseDecimal(m[|UNKNOWN_PREFIX|..]) == code
  {
    if code > DMA_BUSY {
      var m := InterruptMessage(code);
      assert m[|UNKNOWN_PREFIX|..] == Decimal(code);
      DecimalRoundTrip(code);
    }
  }

  /** Different codes give different messages, so a message identifies its
      code. */
  lemma MessageInjective(a: u32, b: u32)
    requires InterruptMessage(a) == InterruptMessage(b)
    ensures a == b
  {
    MessageShape(a);
    MessageShape(b);
    if a <= DMA_BUSY && b <= DMA_BUSY {
      assert InterruptMessage(a)[0] == InterruptMessage(b)[0];
      assert InterruptMessage(a)[|InterruptMessage(a)| - 2] == InterruptMessage(b)[|InterruptMessage(b)| - 2];
    }
  }

  // ---------------------------------------------------------------------
  // Raw words and samples

  /** The eight buffer words in buffer order: the timer read as high/low
      twice, then the slow (B, PWM1) and fast (A, PWM0) counters read
      alternately twice. */
  datatype RawWords = RawWords(th1: u32, tl1: u32, th2: u32, tl2: u32,
                               b1: u32, a1: u32, b2: u32, a2: u32)

  /** `Sample`: time in µs, cycle count, kind, and the raw words. */
  datatype Sample = Sample(t: u64, count: u64, kind: int,
                           th1: u32, tl1: u32, th2: u32, tl2: u32,
                           b1: u32, a1: u32, b2: u32, a2: u32)

  /** The sample `Collect` builds: the raw words, everything else zero. */
  function RawSample(w: RawWords): (s: Sample)
    ensures s.th1 == w.th1 && s.tl1 == w.tl1 && s.th2 == w.th2 && s.tl2 == w.tl2
    ensures s.b1 == w.b1 && s.a1 == w.a1 && s.b2 == w.b2 && s.a2 == w.a2
    ensures s.t == 0 && s.count == 0 && s.kind == 0
  {
    Sample(0, 0, 0, w.th1, w.tl1, w.th2, w.tl2, w.b1, w.a1, w.b2, w.a2)
  }

  /** The buffer after `Collect`: b1 and b2 overwritten with an impossible
      pair. */
  function Taint(w: RawWords): (t: RawWords)
    ensures t.b1 == TAINT_B1 && t.b2 == TAINT_B2
    ensures t.th1 == w.th1 && t.tl1 == w.tl1 && t.th2 == w.th2 && t.tl2 == w.tl2
    ensures t.a1 == w.a1 && t.a2 == w.a2
  {
    w.(b1 := TAINT_B1, b2 := TAINT_B2)
  }

  /** The spin's test for new data: pico looks at b1 and b2, wspr at b2
      only. */
  predicate Fresh(v: Variant, w: RawWords) {
    match v
    case Pico => w.b1 != TAINT_B1 || w.b2 != TAINT_B2
    case Wspr => w.b2 != TAINT_B2
  }

  /** A tainted buffer never passes the freshness test, in either program,
      and a second read without a fill in between sees the taint. */
  lemma TaintIsNotFresh(v: Variant, w: RawWords)
    ensures !Fresh(v, Taint(w))
    ensures RawSample(Taint(w)).b1 == TAINT_B1 && RawSample(Taint(w)).b2 == TAINT_B2
    ensures Taint(Taint(w)) == Taint(w)
  {
  }

  /** The reducer each program uses. */
  function Reduce(v: Variant, scale: u64, h1: u32, l1: u32, h2: u32, l2: u32): u64 {
    match v
    case Pico => Observation.ReduceObservation(scale, h1, l1, h2, l2)
    case Wspr => MTime.ReduceObservation(scale, h1, l1, h2, l2)
  }

  /** `collectSample`: Count from the counters with scale 50_000, T from
      the timer words with scale 2^32; the raw words are kept. */
  function CollectSample(v: Variant, r: Sample): (s: Sample)
    ensures s.th1 == r.th1 && s.tl1 == r.tl1 && s.th2 == r.th2 && s.tl2 == r.tl2
    ensures s.b1 == r.b1 && s.a1 == r.a1 && s.b2 == r.b2 && s.a2 == r.a2
    ensures s.kind == r.kind
  {
    r.(count := Reduce(v, FAST_CYCLE, r.b1, r.a1, r.b2, r.a2),
       t := Reduce(v, U32_LIMIT, r.th1, r.tl1, r.th2, r.tl2))
  }

  /** T is the 64-bit timer with the pair of words each program picks:
      pico keeps tl1 and pairs it with th2 only when the high reads
      differ and tl1 < tl2; wspr takes the second pair when the high reads
      differ. */
  lemma SampleTime(v: Variant, r: Sample)
    ensures var t := CollectSample(v, r).t;
            match v
            case Pico =>
              && t % U32_LIMIT == r.tl1
              && t / U32_LIMIT == if r.th1 != r.th2 && r.tl1 < r.tl2 then r.th2 else r.th1
            case Wspr =>
              && t % U32_LIMIT == (if r.th1 == r.th2 then r.tl1 else r.tl2)
              && t / U32_LIMIT == (if r.th1 == r.th2 then r.th1 else r.th2)
  {
    match v
    case Pico =>
      var h: u32 := if r.th1 != r.th2 && r.tl1 < r.tl2 then r.th2 else r.th1;
      Observation.Unwrapped(U32_LIMIT, r.th1, r.tl1, r.th2, r.tl2, h);
      DivModUnique(h * U32_LIMIT + r.tl1, h, r.tl1, U32_LIMIT);
    case Wspr =>
      MTime.MicroTimeScaleNoWrap(r.th1, r.tl1, r.th2, r.tl2);
  }

  /** Count is high·50_000 + low for the pair each program picks, so it
      never wraps: any 32-bit pair, including a low word at TOP = 50_000,
      stays far below 2^64 at this scale. */
  lemma SampleCount(v: Variant, r: Sample)
    ensures var c := CollectSample(v, r).count;
            match v
            case Pico =>
              c == (if r.b1 != r.b2 && r.a1 < r.a2 then r.b2 else r.b1) * FAST_CYCLE + r.a1
            case Wspr =>
              c == if r.b1 == r.b2 then r.b1 * FAST_CYCLE + r.a1 else r.b2 * FAST_CYCLE + r.a2
  {
    match v
    case Pico =>
      if r.b1 != r.b2 && r.a1 < r.a2 {
        FastCycleNoWrap(r.b2, r.a1);
        assert Observation.ReduceObservation(FAST_CYCLE, r.b1, r.a1, r.b2, r.a2)
            == Wrap64(Wrap64(r.b2 * FAST_CYCLE) + r.a1);
      } else {
        FastCycleNoWrap(r.b1, r.a1);
        assert Observation.ReduceObservation(FAST_CYCLE, r.b1, r.a1, r.b2, r.a2)
            == Wrap64(Wrap64(r.b1 * FAST_CYCLE) + r.a1);
      }
    case Wspr =>
      if r.b1 == r.b2 {
        FastCycleNoWrap(r.b1, r.a1);
      } else {
        FastCycleNoWrap(r.b2, r.a2);
      }
  }

  /** At scale 50_000 no pair of 32-bit words wraps uint64. */
  lemma FastCycleNoWrap(h: u32, l: u32)
    ensures Wrap64(Wrap64(h * FAST_CYCLE) + l) == h * FAST_CYCLE + l
  {
    var p: nat := h * FAST_CYCLE;
    MulMonotone(FAST_CYCLE, h, U32_LIMIT);
    assert p + l < U64_LIMIT;
    var w := Wrap64(p);
    assert w == p;
    assert Wrap64(w + l) == p + l;
  }

  // ---------------------------------------------------------------------
  // The gather list

  /** Registers the gather reads: the raw timer words and the two PWM
      counters. `NoSource` is address 0. */
  datatype Source = TimerRawHigh | TimerRawLow | Pwm1Counter | Pwm0Counter | NoSource

  /** Buffer words the gather writes. `NoDest` is address 0. */
  datatype Dest = Th1 | Tl1 | Th2 | Tl2 | B1 | A1 | B2 | A2 | NoDest

  /** `controlBlock`: one read address and one write address. */
  datatype ControlBlock = ControlBlock(from: Source, to: Dest)

  /** The (0, 0) block that ends the gather. */
  const TERMINATOR: ControlBlock := ControlBlock(NoSource, NoDest)

  /** `transfers`. */
  const TRANSFERS: seq<ControlBlock> := [
    ControlBlock(TimerRawHigh, Th1),
    ControlBlock(TimerRawLow, Tl1),
    ControlBlock(TimerRawHigh, Th2),
    ControlBlock(TimerRawLow, Tl2),
    ControlBlock(Pwm1Counter, B1),
    ControlBlock(Pwm0Counter, A1),
    ControlBlock(Pwm1Counter, B2),
    ControlBlock(Pwm0Counter, A2),
    TERMINATOR
  ]

  /** Number of words one gather moves. */
  const GATHER_WORDS: nat := 8

  /** The register each buffer word is meant to hold. */
  function Origin(d: Dest): Source {
    match d
    case Th1 => TimerRawHigh
    case Tl1 => TimerRawLow
    case Th2 => TimerRawHigh
    case Tl2 => TimerRawLow
    case B1 => Pwm1Counter
    case A1 => Pwm0Counter
    case B2 => Pwm1Counter
    case A2 => Pwm0Counter
    case NoDest => NoSource
  }

  /** Buffer order of the words. */
  function DestAt(k: nat): Dest
    requires k < GATHER_WORDS
  {
    [Th1, Tl1, Th2, Tl2, B1, A1, B2, A2][k]
  }

  /** The list has eight moves and then the terminator, and nothing before
      it ends the gather; the k-th move fills the k-th buffer word from the
      register that word stands for, so the timer is read high, low, high,
      low and the counters slow, fast, slow, fast, the order the reducers
      rely on. */
  lemma TransfersLayout()
    ensures |TRANSFERS| == GATHER_WORDS + 1 && TRANSFERS[GATHER_WORDS] == TERMINATOR
    ensures forall k :: 0 <= k < GATHER_WORDS ==>
              && TRANSFERS[k] != TERMINATOR
              && TRANSFERS[k].to == DestAt(k)
              && TRANSFERS[k].from == Origin(DestAt(k))
  {
  }

  /** One word written into the buffer. */
  function Store(w: RawWords, d: Dest, x: u32): RawWords {
    match d
    case Th1 => w.(th1 := x)
    case Tl1 => w.(tl1 := x)
    case Th2 => w.(th2 := x)
    case Tl2 => w.(tl2 := x)
    case B1 => w.(b1 := x)
    case A1 => w.(a1 := x)
    case B2 => w.(b2 := x)
    case A2 => w.(a2 := x)
    case NoDest => w
  }

  /** The buffer after the first n moves of the gather, the k-th move
      writing the k-th value read. */
  function GatherPrefix(w: RawWords, values: seq<u32>, n: nat): RawWords
    requires n <= |values| && n <= GATHER_WORDS
  {
    if n == 0 then w
    else Store(GatherPrefix(w, values, n - 1), TRANSFERS[n - 1].to, values[n - 1])
  }

  /** A whole gather overwrites all eight words, in buffer order, whatever
      the buffer held. */
  lemma GatherFillsInOrder(w: RawWords, values: seq<u32>)
    requires |values| == GATHER_WORDS
    ensures GatherPrefix(w, values, GATHER_WORDS)
         == RawWords(values[0], values[1], values[2], values[3], values[4], values[5], values[6], values[7])
  {
    TransfersLayout();
    assert GatherPrefix(w, values, 1) == w.(th1 := values[0]);
    assert GatherPrefix(w, values, 2) == w.(th1 := values[0], tl1 := values[1]);
    assert GatherPrefix(w, values, 3) == w.(th1 := values[0], tl1 := values[1], th2 := values[2]);
    assert GatherPrefix(w, values, 4) == w.(th1 := values[0], tl1 := values[1], th2 := values[2], tl2 := values[3]);
    assert GatherPrefix(w, values, 5).b1 == values[4];
    assert GatherPrefix(w, values, 6).a1 == values[5] && GatherPrefix(w, values, 6).b1 == values[4];
    assert GatherPrefix(w, values, 7).b2 == values[6];
  }

  // ---------------------------------------------------------------------
  // The result buffer

  /** `result`: the buffer the DMA gather writes. */
  class ResultBuffer {
    var th1: u32
    var tl1: u32
    var th2: u32
    var tl2: u32
    var b1: u32
    var a1: u32
    var b2: u32
    var a2: u32

    constructor(w: RawWords)
      ensures Words() == w
    {
      th1, tl1, th2, tl2 := w.th1, w.tl1, w.th2, w.tl2;
      b1, a1, b2, a2 := w.b1, w.a1, w.b2, w.a2;
    }

    function Words(): RawWords
      reads this
    {
      RawWords(th1, tl1, th2, tl2, b1, a1, b2, a2)
    }

    /** One DMA write into the buffer. */
    method Write(d: Dest, x: u32)
      modifies this
      ensures Words() == Store(old(Words()), d, x)
    {
      match d
      case Th1 => th1 := x;
      case Tl1 => tl1 := x;
      case Th2 => th2 := x;
      case Tl2 => tl2 := x;
      case B1 => b1 := x;
      case A1 => a1 := x;
      case B2 => b2 := x;
      case A2 => a2 := x;
      case NoDest =>
    }

    /** The DMA gather: walks the control blocks until the (0, 0) one,
        moving the next value read into each block's destination. */
    method Gather(values: seq<u32>)
      requires |values| == GATHER_WORDS
      modifies this
      ensures Words() == RawWords(values[0], values[1], values[2], values[3],
                                  values[4], values[5], values[6], values[7])
    {
      TransfersLayout();
      var i := 0;
      while TRANSFERS[i] != TERMINATOR
        invariant 0 <= i <= GATHER_WORDS
        invariant Words() == GatherPrefix(old(Words()), values, i)
        decreases GATHER_WORDS - i
      {
        Write(TRANSFERS[i].to, values[i]);
        i := i + 1;
      }
      GatherFillsInOrder(old(Words()), values);
    }

    /** `DmaSampler.Collect`: returns the eight words, then taints b1 and
        b2. */
    method Collect() returns (r: Sample)
      modifies this
      ensures r == RawSample(old(Words()))
      ensures Words() == Taint(old(Words()))
    {
      r := Sample(0, 0, 0, th1, tl1, th2, tl2, b1, a1, b2, a2);
      b1 := TAINT_B1;
      b2 := TAINT_B2;
    }
  }

  // ---------------------------------------------------------------------
  // The interrupt step

  /** The buffer as the spin sees it in iteration i when the DMA fill
      lands in iteration `landing`: before the fill the old words, from
      then on the filled ones. */
  function WordsAt(w0: RawWords, w1: RawWords, landing: nat, i: nat): RawWords {
    if landing <= i then w1 else w0
  }

  /** Iterations the spin runs: it stops at the first fresh view, or after
      1000. */
  function SpinCount(v: Variant, w0: RawWords, w1: RawWords, landing: nat): nat {
    if 0 < landing && Fresh(v, w0) then 0
    else if landing < SPIN_LIMIT && Fresh(v, w1) then landing
    else SPIN_LIMIT
  }

  /** The words `Collect` reads after the spin. */
  function Seen(v: Variant, w0: RawWords, w1: RawWords, landing: nat): RawWords {
    if landing < SPIN_LIMIT && landing <= SpinCount(v, w0, w1, landing) then w1 else w0
  }

  /** The spin is bounded by 1000, every view it passes over is stale, the
      view it stops on is fresh unless it ran out, and that view is what
      `Collect` then reads. */
  lemma SpinStopsAtFirstFresh(v: Variant, w0: RawWords, w1: RawWords, landing: nat)
    ensures var n := SpinCount(v, w0, w1, landing);
            && n <= SPIN_LIMIT
            && (forall i :: 0 <= i < n ==> !Fresh(v, WordsAt(w0, w1, landing, i)))
            && (n < SPIN_LIMIT ==> Fresh(v, WordsAt(w0, w1, landing, n)))
            && (n < SPIN_LIMIT ==> Seen(v, w0, w1, landing) == WordsAt(w0, w1, landing, n))
            && (n == SPIN_LIMIT ==> Seen(v, w0, w1, landing) == WordsAt(w0, w1, landing, SPIN_LIMIT - 1))
  {
  }

  /** The spin count is the only count with that property: a run that
      passes over stale views only and stops on a fresh one (or after 1000)
      ran exactly `SpinCount` iterations. */
  lemma FirstFreshIsSpinCount(v: Variant, w0: RawWords, w1: RawWords, landing: nat, n: nat)
    requires n <= SPIN_LIMIT
    requires forall i :: 0 <= i < n ==> !Fresh(v, WordsAt(w0, w1, landing, i))
    requires n < SPIN_LIMIT ==> Fresh(v, WordsAt(w0, w1, landing, n))
    ensures n == SpinCount(v, w0, w1, landing)
  {
    SpinStopsAtFirstFresh(v, w0, w1, landing);
  }

  /** The flag after a successful push: NoDMAData exactly when b1 reads
      all ones. */
  function FlagFor(s: Sample): (flag: u32)
    ensures flag == NO_DMA_DATA <==> s.b1 == 0xffff_ffff
    ensures flag == INTERRUPT_OK || flag == NO_DMA_DATA
  {
    if s.b1 != 0xffff_ffff then INTERRUPT_OK else NO_DMA_DATA
  }

  /** When no fill arrives after a read (the gather was not re-armed), the
      next interrupt spins all 1000 iterations, reads the tainted words and
      still reports InterruptOK: the taint can never produce NoDMAData. */
  lemma StaleBufferReportsOk(v: Variant, w: RawWords, landing: nat)
    ensures SpinCount(v, Taint(w), Taint(w), landing) == SPIN_LIMIT
    ensures Seen(v, Taint(w), Taint(w), landing) == Taint(w)
    ensures FlagFor(CollectSample(v, RawSample(Taint(w)))) == INTERRUPT_OK
  {
    TaintIsNotFresh(v, w);
  }

  /** The interrupt handler's state: the buffer, the `samples` channel,
      `ErrorFlag`, and whether D1's read address points at the start of the
      gather list (armed). */
  class Pipeline {
    const variant: Variant
    const buf: ResultBuffer
    var queue: seq<Sample>
    var errorFlag: u32
    var armed: bool

    constructor(variant: Variant, w: RawWords)
      ensures this.variant == variant && fresh(buf) && buf.Words() == w
      ensures queue == [] && errorFlag == INTERRUPT_OK && armed
    {
      this.variant := variant;
      buf := new ResultBuffer(w);
      queue := [];
      errorFlag := INTERRUPT_OK;
      armed := true;
    }

    /** The words a fill leaves in the buffer: a gather when armed, which
        uses up the arming, and nothing otherwise. */
    static function FillResult(armed: bool, w: RawWords, values: seq<u32>): RawWords
      requires |values| == GATHER_WORDS
    {
      if armed then RawWords(values[0], values[1], values[2], values[3],
                             values[4], values[5], values[6], values[7])
      else w
    }

    /** The hardware side: the PPS edge starts a gather if D1 is armed. */
    method DmaFill(values: seq<u32>)
      requires |values| == GATHER_WORDS
      modifies this, buf
      ensures buf.Words() == FillResult(old(armed), old(buf.Words()), values)
      ensures !armed && queue == old(queue) && errorFlag == old(errorFlag)
    {
      if armed {
        buf.Gather(values);
        armed := false;
      }
    }

    /** The pin interrupt: spin (with the fill landing in iteration
        `landing`), collect and reduce, then push if the queue has room,
        setting the flag and re-arming; otherwise drop the sample, flag
        SecondSendFailed and leave the gather un-armed. */
    method Interrupt(landing: nat, values: seq<u32>) returns (spins: nat)
      requires |values| == GATHER_WORDS
      modifies this, buf
      ensures var w0 := old(buf.Words());
              var w1 := FillResult(old(armed), w0, values);
              var seen := Seen(variant, w0, w1, landing);
              var s := CollectSample(variant, RawSample(seen));
              && spins == SpinCount(variant, w0, w1, landing)
              && buf.Words() == Taint(seen)
              && (|old(queue)| < QUEUE_CAPACITY ==>
                    queue == old(queue) + [s] && errorFlag == FlagFor(s) && armed)
              && (|old(queue)| >= QUEUE_CAPACITY ==>
                    && queue == old(queue) && errorFlag == SECOND_SEND_FAILED
                    && armed == (old(armed) && !(landing < SPIN_LIMIT && landing <= spins)))
    {
      ghost var w0 := buf.Words();
      ghost var w1 := FillResult(armed, w0, values);
      ghost var wasArmed := armed;
      spins := 0;
      while spins < SPIN_LIMIT
        invariant spins <= SPIN_LIMIT
        invariant buf.Words() == if landing < spins then w1 else w0
        invariant armed == (wasArmed && spins <= landing)
        invariant forall i :: 0 <= i < spins ==> !Fresh(variant, WordsAt(w0, w1, landing, i))
        invariant queue == old(queue) && errorFlag == old(errorFlag)
      {
        if spins == landing {
          DmaFill(values);
        }
        if Fresh(variant, buf.Words()) {
          break;
        }
        spins := spins + 1;
      }
      FirstFreshIsSpinCount(variant, w0, w1, landing, spins);
      ghost var seen := buf.Words();
      var raw := buf.Collect();
      var s := CollectSample(variant, raw);
      if |queue| < QUEUE_CAPACITY {
        queue := queue + [s];
      } else {
        errorFlag := SECOND_SEND_FAILED;
        return;
      }
      errorFlag := FlagFor(s);
      armed := true;
    }

    /** The consumer's receive: the oldest queued sample, if any. */
    method Receive() returns (s: Option<Sample>)
      modifies this
      ensures old(queue) == [] ==> s == None && queue == []
      ensures old(queue) != [] ==> s == Some(old(queue)[0]) && queue == old(queue)[1..]
      ensures errorFlag == old(errorFlag) && armed == old(armed)
    {
      if queue == [] {
        s := None;
      } else {
        s := Some(queue[0]);
        queue := queue[1..];
      }
    }
  }
}
