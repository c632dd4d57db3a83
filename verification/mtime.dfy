/** The rollover reducer of src/wspr/mtime.go, a variant of the one in
    src/support/observation.go: when the two high reads differ it returns
    the second pair (th2, tl2) instead of pairing tl1 with a high word.
    `MicroTime`, which reads the hardware timer, is not part of this
    model; it calls the reducer with scale 2^32. */
module MTime {
  import opened Base
  import Observation

  /** `ReduceObservation(scale, th1, tl1, th2, tl2)` of mtime.go. */
  function ReduceObservation(scale: u64, th1: u32, tl1: u32, th2: u32, tl2: u32): (t0: u64)
    ensures t0 == Wrap64(th1 * scale + tl1) || t0 == Wrap64(th2 * scale + tl2)
  {
    WrapAdd(th1 * scale, tl1);
    WrapAdd(th2 * scale, tl2);
    if th1 == th2 then
      Wrap64(Wrap64(th1 * scale) + tl1)
    else
      Wrap64(Wrap64(th2 * scale) + tl2)
  }

  lemma Unwrapped(scale: u64, th1: u32, tl1: u32, th2: u32, tl2: u32)
    requires tl1 < scale && tl2 < scale && scale <= U32_LIMIT
    ensures ReduceObservation(scale, th1, tl1, th2, tl2)
         == if th1 == th2 then th1 * scale + tl1 else th2 * scale + tl2
  {
    if th1 == th2 {
      Observation.WrapsToItself(th1, tl1, scale);
    } else {
      Observation.WrapsToItself(th2, tl2, scale);
    }
  }

  /** With the scale `MicroTime` uses, 2^32, the result never wraps: it is
      the 64-bit value whose words are the chosen pair. */
  lemma MicroTimeScaleNoWrap(th1: u32, tl1: u32, th2: u32, tl2: u32)
    ensures var t0 := ReduceObservation(U32_LIMIT, th1, tl1, th2, tl2);
            && (th1 == th2 ==> t0 / U32_LIMIT == th1 && t0 % U32_LIMIT == tl1)
            && (th1 != th2 ==> t0 / U32_LIMIT == th2 && t0 % U32_LIMIT == tl2)
  {
    Unwrapped(U32_LIMIT, th1, tl1, th2, tl2);
    DivModUnique(th1 * U32_LIMIT + tl1, th1, tl1, U32_LIMIT);
    DivModUnique(th2 * U32_LIMIT + tl2, th2, tl2, U32_LIMIT);
  }

  /** Against the abstract counter of `Observation.CounterReads`, the
      result is the value read with tl1 when the high reads agree and the
      value read with tl2 when they differ: never a value the counter did
      not hold. */
  lemma ReducesToCounter(scale: u64, v1: nat, v2: nat, v3: nat, v4: nat)
    requires Observation.CounterReads(scale, v1, v2, v3, v4)
    ensures var t0 := ReduceObservation(scale, Observation.High(v1, scale), Observation.Low(v2, scale),
                                         Observation.High(v3, scale), Observation.Low(v4, scale));
            && (Observation.High(v1, scale) == Observation.High(v3, scale) ==> t0 == v2)
            && (Observation.High(v1, scale) != Observation.High(v3, scale) ==> t0 == v4)
  {
    var h1, h2, h3, h4 := Observation.High(v1, scale), Observation.High(v2, scale),
                          Observation.High(v3, scale), Observation.High(v4, scale);
    Observation.HighStep(v1, v2, scale);
    Observation.HighStep(v2, v3, scale);
    Observation.HighStep(v3, v4, scale);
    Observation.HighStep(v1, v4, scale);
    WordsDecide(scale, v2, v4, h1, h2, h3, h4, Observation.Low(v2, scale), Observation.Low(v4, scale));
  }

  lemma WordsDecide(scale: u64, v2: nat, v4: nat, h1: u32, h2: u32, h3: u32, h4: u32, l2: u32, l4: u32)
    requires 1 <= scale <= U32_LIMIT && l2 < scale && l4 < scale
    requires h2 * scale + l2 == v2 && h4 * scale + l4 == v4
    requires h1 <= h2 <= h3 <= h4 <= h1 + 1
    ensures h1 == h3 ==> ReduceObservation(scale, h1, l2, h3, l4) == v2
    ensures h1 != h3 ==> ReduceObservation(scale, h1, l2, h3, l4) == v4
  {
    Unwrapped(scale, h1, l2, h3, l4);
  }

  /** With low words below `scale` <= 2^32, the two reducers agree exactly
      when the high reads agree. */
  lemma DiffersFromSupportExactlyOnTick(scale: u64, th1: u32, tl1: u32, th2: u32, tl2: u32)
    requires tl1 < scale && tl2 < scale && scale <= U32_LIMIT
    ensures ReduceObservation(scale, th1, tl1, th2, tl2) == Observation.ReduceObservation(scale, th1, tl1, th2, tl2)
        <==> th1 == th2
  {
    Unwrapped(scale, th1, tl1, th2, tl2);
    var h: u32 := if th1 != th2 && tl1 < tl2 then th2 else th1;
    Observation.Unwrapped(scale, th1, tl1, th2, tl2, h);
    if th1 != th2 {
      DivModUnique(th2 * scale + tl2, th2, tl2, scale);
      DivModUnique(h * scale + tl1, h, tl1, scale);
    }
  }

  /** The table entry (100, 0xfff5, 101, 45) with scale 0x10000: the
      support reducer answers 100*scale + 0xfff5, this one 101*scale + 45. */
  lemma TickExample()
    ensures ReduceObservation(0x10000, 100, 0xfff5, 101, 45) == 101 * 0x10000 + 45
    ensures Observation.ReduceObservation(0x10000, 100, 0xfff5, 101, 45) == 100 * 0x10000 + 0xfff5
  {
    Unwrapped(0x10000, 100, 0xfff5, 101, 45);
    Observation.Unwrapped(0x10000, 100, 0xfff5, 101, 45, 100);
  }
}
