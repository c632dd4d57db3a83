/** The second copy of the rollover reducer (src/support/timing.go). */
module Timing {
  import opened Base
  import Observation

  /** `ReduceObservation` as written in timing.go: the same decision table
      as observation.go. */
  function ReduceObservation(scale: u64, th1: u32, tl1: u32, th2: u32, tl2: u32): (t0: u64)
    ensures t0 == Wrap64(th1 * scale + tl1) || t0 == Wrap64(th2 * scale + tl1)
  {
    WrapAdd(th1 * scale, tl1);
    WrapAdd(th2 * scale, tl1);
    if th1 == th2 then
      Wrap64(Wrap64(th1 * scale) + tl1)
    else if tl1 < tl2 then
      Wrap64(Wrap64(th2 * scale) + tl1)
    else
      Wrap64(Wrap64(th1 * scale) + tl1)
  }

  /** The two copies return the same value for every input, so every
      property proved of the observation.go copy holds of this one. */
  lemma AgreesWithObservation(scale: u64, th1: u32, tl1: u32, th2: u32, tl2: u32)
    ensures ReduceObservation(scale, th1, tl1, th2, tl2)
         == Observation.ReduceObservation(scale, th1, tl1, th2, tl2)
  {
  }
}
