/** Reduction of a 64-bit reading taken as two 32-bit words
    (src/support/observation.go).

    The hardware exposes a counter as a high word and a low word that are
    read one after the other: th1, tl1, th2, tl2. The low word may roll
    over between the reads; `ReduceObservation` decides which high word
    belongs with tl1. */
module Observation {
  import opened Base

  /** `ReduceObservation(scale, th1, tl1, th2, tl2)`: tl1 is paired with
      th1 when the two high reads agree or when tl1 >= tl2, and with th2
      when they differ and tl1 < tl2. The products are `uint64`. */
  function ReduceObservation(scale: u64, th1: u32, tl1: u32, th2: u32, tl2: u32): (t0: u64)
    ensures t0 == Wrap64(th1 * scale + tl1) || t0 == Wrap64(th2 * scale + tl1)
  {
    WrapAdd(th1 * scale, tl1);
    WrapAdd(th2 * scale, tl1);
    if th1 == th2 then
      Wrap64(Wrap64(th1 * scale) + tl1)
    else if tl1 < tl2 then
      Wrap64(Wrap64(th2 * scale) + tl1)
    else
      Wrap64(Wrap64(th1 * scale) + tl1)
  }

  // ---------------------------------------------------------------------
  // No uint64 wrap-around for the scales in use.

  /** A high word below 2^32 and a low word below scale <= 2^32 combine to
      less than 2^64. */
  lemma CombinedFits(h: nat, l: nat, scale: nat)
    requires h < U32_LIMIT && l < scale <= U32_LIMIT
    ensures h * scale + l < U64_LIMIT
  {
    MulMonotone(scale, h + 1, U32_LIMIT);
    MulMonotone(U32_LIMIT, scale, U32_LIMIT);
  }

  /** With scale <= 2^32 (the call sites use 2^32 and 50_000) the
      computation never wraps: the result is exactly high*scale + tl1 for a
      high word that is th1 or th2. */
  lemma NoWrap(scale: u64, th1: u32, tl1: u32, th2: u32, tl2: u32)
    requires tl1 < scale <= U32_LIMIT
    ensures var t0 := ReduceObservation(scale, th1, tl1, th2, tl2);
            && (t0 == th1 * scale + tl1 || t0 == th2 * scale + tl1)
            && (th1 != th2 ==> (t0 == th2 * scale + tl1 <==> tl1 < tl2))
            && t0 % scale == tl1
  {
    var h: u32 := if th1 != th2 && tl1 < tl2 then th2 else th1;
    var t0 := ReduceObservation(scale, th1, tl1, th2, tl2);
    Unwrapped(scale, th1, tl1, th2, tl2, h);
    DivModUnique(t0, h, tl1, scale);
    if t0 == th2 * scale + tl1 {
      DivModUnique(t0, th2, tl1, scale);
    }
  }

  /** Neither uint64 operation wraps for a high word and a low word below
      scale <= 2^32. */
  lemma WrapsToItself(h: u32, l: u32, scale: u64)
    requires l < scale <= U32_LIMIT
    ensures Wrap64(Wrap64(h * scale) + l) == h * scale + l
  {
    var p: nat := h * scale;
    CombinedFits(h, l, scale);
    var w := Wrap64(p);
    assert w == p;
    assert Wrap64(w + l) == p + l;
  }

  lemma Unwrapped(scale: u64, th1: u32, tl1: u32, th2: u32, tl2: u32, h: u32)
    requires tl1 < scale <= U32_LIMIT
    requires h == if th1 != th2 && tl1 < tl2 then th2 else th1
    ensures ReduceObservation(scale, th1, tl1, th2, tl2) == h * scale + tl1
  {
    WrapsToItself(h, tl1, scale);
    if th1 != th2 && tl1 < tl2 {
      assert ReduceObservation(scale, th1, tl1, th2, tl2) == Wrap64(Wrap64(th2 * scale) + tl1);
    } else {
      assert ReduceObservation(scale, th1, tl1, th2, tl2) == Wrap64(Wrap64(th1 * scale) + tl1);
    }
  }

  // ---------------------------------------------------------------------
  // An abstract counter read four times.

  /** The four words come from one non-decreasing counter that had the
      values v1 <= v2 <= v3 <= v4 at the reads of th1, tl1, th2 and tl2,
      moved by less than `scale` across them, and is split into a high word
      v / scale and a low word v % scale, both below 2^32. */
  predicate CounterReads(scale: nat, v1: nat, v2: nat, v3: nat, v4: nat)
  {
    && 1 <= scale <= U32_LIMIT
    && v1 <= v2 <= v3 <= v4 < v1 + scale
    && v4 < U32_LIMIT * scale
  }

  function High(v: nat, scale: nat): (h: u32)
    requires 1 <= scale && v < U32_LIMIT * scale
    ensures h * scale <= v < h * scale + scale
  {
    HighFits(v, scale);
    v / scale
  }

  lemma HighFits(v: nat, scale: nat)
    requires 1 <= scale && v < U32_LIMIT * scale
    ensures v / scale < U32_LIMIT
  {
  }

  function Low(v: nat, scale: nat): (l: u32)
    requires 1 <= scale <= U32_LIMIT && v < U32_LIMIT * scale
    ensures l < scale && High(v, scale) * scale + l == v
  {
    v % scale
  }

  /** A counter that moves by less than `scale` moves its high word by at
      most one. */
  lemma HighStep(x: nat, y: nat, scale: nat)
    requires 1 <= scale <= U32_LIMIT && x <= y < x + scale && y < U32_LIMIT * scale
    ensures High(x, scale) <= High(y, scale) <= High(x, scale) + 1
  {
    var k := High(y, scale) - High(x, scale);
    assert k * scale == (y - Low(y, scale)) - (x - Low(x, scale));
    if k <= -1 {
      assert (-k) * scale == -(k * scale);
      MulAtLeast(-k, scale);
    } else if k >= 2 {
      assert k * scale == (k - 1) * scale + scale;
      MulAtLeast(k - 1, scale);
    }
  }

  /** Against the counter, the reduction returns the value v2 read with tl1
      whenever the counter moved between the two low reads, and always
      returns v2 or v2 - scale; the latter only when v2 == v4. */
  lemma ReducesToCounter(scale: u64, v1: nat, v2: nat, v3: nat, v4: nat)
    requires CounterReads(scale, v1, v2, v3, v4)
    ensures var t0 := ReduceObservation(scale, High(v1, scale), Low(v2, scale), High(v3, scale), Low(v4, scale));
            && (v2 < v4 ==> t0 == v2)
            && (t0 != v2 ==> v2 == v4 && t0 + scale == v2)
  {
    var h1, h2, h3, h4 := High(v1, scale), High(v2, scale), High(v3, scale), High(v4, scale);
    var l2, l4 := Low(v2, scale), Low(v4, scale);
    HighStep(v1, v2, scale);
    HighStep(v2, v3, scale);
    HighStep(v1, v3, scale);
    HighStep(v3, v4, scale);
    HighStep(v1, v4, scale);
    WordsDecide(scale, v2, v4, h1, h2, h3, h4, l2, l4);
  }

  /** The case analysis of `ReducesToCounter` on the words themselves. */
  lemma WordsDecide(scale: u64, v2: nat, v4: nat, h1: u32, h2: u32, h3: u32, h4: u32, l2: u32, l4: u32)
    requires 1 <= scale <= U32_LIMIT && l2 < scale && l4 < scale
    requires h2 * scale + l2 == v2 && h4 * scale + l4 == v4
    requires h1 <= h2 <= h3 <= h4 <= h1 + 1
    requires v2 <= v4 < v2 + scale
    ensures var t0 := ReduceObservation(scale, h1, l2, h3, l4);
            && (v2 < v4 ==> t0 == v2)
            && (t0 != v2 ==> v2 == v4 && t0 + scale == v2)
  {
    if h1 == h3 {
      Unwrapped(scale, h1, l2, h3, l4, h1);
    } else {
      assert h3 == h1 + 1;
      MulSucc(h1, scale);
      if h2 == h1 {
        assert l4 < l2;
        Unwrapped(scale, h1, l2, h3, l4, h1);
      } else if l2 < l4 {
        Unwrapped(scale, h1, l2, h3, l4, h3);
      } else {
        Unwrapped(scale, h1, l2, h3, l4, h1);
      }
    }
  }

  lemma MulSucc(h: nat, s: nat)
    ensures (h + 1) * s == h * s + s
  {
  }

  /** The case the decision table gets wrong: the high word ticks after the
      th1 read but before the tl1 read, and the counter does not move
      between the two low reads, so tl1 == tl2 sends tl1 to th1 although it
      was read after the tick. */
  lemma StillCounterAfterTick()
    ensures var scale, v1, v2 := 0x10000, 100 * 0x10000 + 0xffff, 101 * 0x10000 + 5;
            && CounterReads(scale, v1, v2, v2, v2)
            && ReduceObservation(scale, High(v1, scale), Low(v2, scale), High(v2, scale), Low(v2, scale)) == v2 - scale
  {
    var scale, v1, v2 := 0x10000, 100 * 0x10000 + 0xffff, 101 * 0x10000 + 5;
    DivModUnique(v1, 100, 0xffff, scale);
    DivModUnique(v2, 101, 5, scale);
    Unwrapped(scale, 100, 5, 101, 5, 100);
  }

  /** The table of src/support/observation_test.go, scale 0x10000. */
  lemma ObservationVectors()
    ensures ReduceObservation(0x10000, 100, 40, 100, 45) == 100 * 0x10000 + 40
    ensures ReduceObservation(0x10000, 100, 0xfff5, 100, 45) == 100 * 0x10000 + 0xfff5
    ensures ReduceObservation(0x10000, 100, 0xfff5, 101, 45) == 100 * 0x10000 + 0xfff5
    ensures ReduceObservation(0x10000, 100, 40, 101, 45) == 101 * 0x10000 + 40
  {
    Unwrapped(0x10000, 100, 40, 100, 45, 100);
    Unwrapped(0x10000, 100, 0xfff5, 100, 45, 100);
    Unwrapped(0x10000, 100, 0xfff5, 101, 45, 100);
    Unwrapped(0x10000, 100, 40, 101, 45, 101);
  }
}
