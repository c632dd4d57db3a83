/** The consumer loop of main/main.go: 100 events, each either a ticker
    timeout or a sample from the queue. A sample is compared with the
    previous one (cycle-count and time deltas, with a fixed offset added
    when the count went down), the error flag is reported when nonzero,
    and the sample becomes the new baseline; a timeout only counts a
    missed sample and complains from the third one on. The printing is
    modelled as the `Output` each event produces; the floating-point
    seconds and frequency, the latency MicroTime() - s.T, the slow-counter
    delta s.A2 - s.A1, the pin level in the timeout message, the FIFO
    level, the wait counter, the raw counter dump and the "setup complete"
    line printed before the loop are not. */
module Consumer {
  import opened Base
  import Sampling

  /** `50_000 * 50_000`: added to the count delta when the count went
      down. */
  const COUNT_OFFSET: nat := 2_500_000_000

  /** Events the loop handles before entering the bootloader. */
  const LOOP_EVENTS: nat := 100

  /** One `select` outcome: the ticker fired, or a sample arrived while
      `ErrorFlag` held `flag`. */
  datatype Event = Timeout | Received(s: Sampling.Sample, flag: u32)

  /** What one event prints. */
  datatype Output =
    | Quiet
    | TimeoutNotice(missed: nat)
    | SampleReport(deltaCount: u64, deltaTime: u64, error: Option<string>)

  /** The loop's variables: previous count and time, and timeouts since
      the last sample. */
  datatype MonitorState = MonitorState(k0: u64, t0: u64, missed: nat)

  /** `offset`: 50_000·50_000 when the count went down, else 0. */
  function Offset(count: u64, k0: u64): nat {
    if count < k0 then COUNT_OFFSET else 0
  }

  /** `s.Count - k0 + offset` in `uint64`. */
  function CountDelta(count: u64, k0: u64): u64 {
    Wrap64(count - k0 + Offset(count, k0))
  }

  /** For a count that wraps at 50_000·50_000 and advanced by d below
      that between two samples, the delta is d, whether or not the count
      wrapped in between. */
  lemma DeltaRecoversAdvance(k0: u64, d: nat)
    requires k0 < COUNT_OFFSET && d < COUNT_OFFSET
    ensures CountDelta(((k0 + d) % COUNT_OFFSET) as u64, k0) == d
  {
    var count := (k0 + d) % COUNT_OFFSET;
    if k0 + d < COUNT_OFFSET {
      SmallMod(k0 + d, COUNT_OFFSET);
    } else {
      DivModUnique(k0 + d, 1, k0 + d - COUNT_OFFSET, COUNT_OFFSET);
      assert count < k0;
    }
  }

  /** A count that dropped by more than the offset gives a delta that has
      wrapped around 2^64; otherwise the delta is the plain difference plus
      the offset. */
  lemma DeltaWraps(count: u64, k0: u64)
    ensures count + COUNT_OFFSET < k0 ==> CountDelta(count, k0) == U64_LIMIT + count + COUNT_OFFSET - k0
    ensures count + Offset(count, k0) >= k0 ==> CountDelta(count, k0) == count + Offset(count, k0) - k0
  {
    if count + COUNT_OFFSET < k0 {
      DivModUnique(count - k0 + COUNT_OFFSET, -1, U64_LIMIT + count + COUNT_OFFSET - k0, U64_LIMIT);
    }
  }

  /** The state after one event. */
  function Step(st: MonitorState, e: Event): MonitorState {
    match e
    case Timeout => st.(missed := st.missed + 1)
    case Received(s, _) => MonitorState(s.count, s.t, 0)
  }

  /** What one event prints in state st. */
  function StepOutput(st: MonitorState, e: Event): Output {
    match e
    case Timeout => if st.missed > 1 then TimeoutNotice(st.missed) else Quiet
    case Received(s, flag) =>
      SampleReport(CountDelta(s.count, st.k0), Wrap64(s.t - st.t0),
                   if flag != 0 then Some(Sampling.InterruptMessage(flag)) else None)
  }

  /** The state after a run of events, in order. */
  function After(st: MonitorState, events: seq<Event>): MonitorState
    decreases |events|
  {
    if |events| == 0 then st
    else Step(After(st, events[..|events| - 1]), events[|events| - 1])
  }

  /** The most recent sample among the events. */
  function LastSample(events: seq<Event>): Option<Sampling.Sample>
    decreases |events|
  {
    if |events| == 0 then None
    else if events[|events| - 1].Received? then Some(events[|events| - 1].s)
    else LastSample(events[..|events| - 1])
  }

  /** Timeouts since the most recent sample (or since the start). */
  function TrailingTimeouts(events: seq<Event>): nat
    decreases |events|
  {
    if |events| == 0 || events[|events| - 1].Received? then 0
    else 1 + TrailingTimeouts(events[..|events| - 1])
  }

  /** After any run, the baseline is the latest sample's count and time
      (unchanged if none arrived) and the missed counter is the number of
      timeouts since that sample (added to the old counter if none
      arrived). */
  lemma {:induction false} AfterSummary(st: MonitorState, events: seq<Event>)
    ensures var r := After(st, events);
            match LastSample(events)
            case Some(s) => r.k0 == s.count && r.t0 == s.t && r.missed == TrailingTimeouts(events)
            case None => r.k0 == st.k0 && r.t0 == st.t0 && r.missed == st.missed + |events|
    decreases |events|
  {
    if |events| > 0 {
      AfterSummary(st, events[..|events| - 1]);
    }
  }

  /** A timeout prints a notice exactly when at least two timeouts came
      since the last sample (counting the missed samples held at the start
      when no sample came). */
  lemma TimeoutNoticeRule(st: MonitorState, events: seq<Event>)
    ensures var out := StepOutput(After(st, events), Timeout);
            out.TimeoutNotice? <==>
              if LastSample(events).Some? then TrailingTimeouts(events) >= 2
              else st.missed + |events| >= 2
  {
    AfterSummary(st, events);
  }

  /** What a run of events prints, event by event. */
  function Outputs(st: MonitorState, events: seq<Event>): seq<Output>
    decreases |events|
  {
    if |events| == 0 then []
    else
      var prefix := events[..|events| - 1];
      Outputs(st, prefix) + [StepOutput(After(st, prefix), events[|events| - 1])]
  }

  /** Event k of a run prints what it prints in the state the first k
      events lead to. */
  lemma {:induction false} OutputsAt(st: MonitorState, events: seq<Event>)
    ensures |Outputs(st, events)| == |events|
    ensures forall k :: 0 <= k < |events| ==>
              Outputs(st, events)[k] == StepOutput(After(st, events[..k]), events[k])
    decreases |events|
  {
    if |events| > 0 {
      var prefix := events[..|events| - 1];
      OutputsAt(st, prefix);
      forall k | 0 <= k < |events|
        ensures Outputs(st, events)[k] == StepOutput(After(st, events[..k]), events[k])
      {
        if k < |prefix| {
          assert prefix[..k] == events[..k];
        } else {
          assert prefix == events[..k];
        }
      }
    }
  }

  /** The state and the outputs after the first i + 1 events are one step
      on from those after the first i. */
  lemma AfterOneMore(st: MonitorState, events: seq<Event>, i: nat)
    requires i < |events|
    ensures After(st, events[..i + 1]) == Step(After(st, events[..i]), events[i])
    ensures Outputs(st, events[..i + 1]) == Outputs(st, events[..i]) + [StepOutput(After(st, events[..i]), events[i])]
  {
    assert events[..i + 1][..i] == events[..i];
  }

  /** A timeout leaves the baseline alone; a sample resets the missed
      counter. */
  lemma StepEffects(st: MonitorState, e: Event)
    ensures e.Timeout? ==> Step(st, e).k0 == st.k0 && Step(st, e).t0 == st.t0
                           && Step(st, e).missed == st.missed + 1
    ensures e.Received? ==> Step(st, e).missed == 0 && Step(st, e).k0 == e.s.count
  {
  }

  /** The loop's variables. */
  class Monitor {
    var k0: u64
    var t0: u64
    var missedSamples: nat

    /** `t0` starts at the `MicroTime()` reading taken before the loop. */
    constructor(startTime: u64)
      ensures State() == MonitorState(0, startTime, 0)
    {
      k0 := 0;
      t0 := startTime;
      missedSamples := 0;
    }

    function State(): MonitorState
      reads this
    {
      MonitorState(k0, t0, missedSamples)
    }

    /** One pass of the `select`. */
    method Handle(e: Event) returns (out: Output)
      modifies this
      ensures State() == Step(old(State()), e)
      ensures out == StepOutput(old(State()), e)
    {
      match e
      case Timeout =>
        out := if missedSamples > 1 then TimeoutNotice(missedSamples) else Quiet;
        missedSamples := missedSamples + 1;
      case Received(s, flag) =>
        var offset := 0;
        if s.count < k0 {
          offset := COUNT_OFFSET;
        }
        var err := if flag != 0 then Some(Sampling.InterruptMessage(flag)) else None;
        out := SampleReport(Wrap64(s.count - k0 + offset), Wrap64(s.t - t0), err);
        k0 := s.count;
        t0 := s.t;
        missedSamples := 0;
    }

    /** The loop: exactly 100 events, then the bootloader (not modelled). */
    method Run(events: seq<Event>) returns (outs: seq<Output>)
      requires |events| == LOOP_EVENTS
      modifies this
      ensures State() == After(old(State()), events)
      ensures |outs| == LOOP_EVENTS
      ensures forall i :: 0 <= i < LOOP_EVENTS ==>
                outs[i] == StepOutput(After(old(State()), events[..i]), events[i])
    {
      ghost var st0 := State();
      outs := [];
      var i := 0;
      while i < LOOP_EVENTS
        invariant 0 <= i <= LOOP_EVENTS
        invariant State() == After(st0, events[..i])
        invariant outs == Outputs(st0, events[..i])
      {
        AfterOneMore(st0, events, i);
        var out := Handle(events[i]);
        outs := outs + [out];
        i := i + 1;
      }
      assert events[..LOOP_EVENTS] == events;
      OutputsAt(st0, events);
    }
  }
}
