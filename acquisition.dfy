/**
 * The acquisition loop of the radar firmware as a state machine over the
 * firmware's global state, with the two interrupt handlers as events that
 * may arrive between any two main-loop steps.
 *
 * The `for(;;)` body is cut into steps at three program points:
 *   Waiting  -- the test `recording_data == false` that guards the 10 ms poll;
 *   Sampling -- the test `recording_data == true` of the sampling loop;
 *   Stopping -- after the closing sentinel, before `recording_data = false`.
 * The step from Waiting that starts a session (sentinel, LED on, counter reset)
 * and one pass of the sampling loop are each one atomic step, and the write of
 * `false` at the end of a session is a step of its own, because an edge that
 * arrives before it is overwritten. Making a pass atomic is not exact in
 * three ways:
 *   - a SysTick between the test `get_ticks_ms() > 1000` and the reset that
 *     follows it is lost to the reset; if it wraps the counter, the flag
 *     `ticks_overflowed` is raised, which the atomic pass does not do;
 *   - a SysTick between the reset and the `printf` delays the line but not
 *     the next period, so two printed lines can be exactly 1000 ticks apart;
 *     the stamp of a line here is the time of its reset;
 *   - the globals are not `volatile`, and the model assumes every pass reads
 *     them afresh, as an optimising compiler need not.
 */
module Acquisition {
  import opened TickCounter
  import opened RecordingToggle

  /** A sample is taken once the counter exceeds this many ticks. */
  const SAMPLE_PERIOD: int := 1000

  datatype Pc = Waiting | Sampling | Stopping

  /** One line printed on the debug UART. */
  datatype Emitted = Sentinel | Sample(td: bool, pd: bool)

  /** `%i` applied to a C `bool`. */
  function Digit(b: bool): (c: char)
    ensures c == '1' <==> b
    ensures c == '0' <==> !b
  {
    if b then '1' else '0'
  }

  /** The exact text of a line: `"9 \r\n"` or `"%i %i \r\n"` (TD, then PD). */
  function Render(e: Emitted): (r: string)
    ensures |r| >= 2 && r[|r| - 2..] == "\r\n"
    ensures '\n' !in r[..|r| - 2]
    ensures e.Sample? ==> r[0] == Digit(e.td) && r[2] == Digit(e.pd)
  {
    match e
    case Sentinel => "9 \r\n"
    case Sample(td, pd) => [Digit(td), ' ', Digit(pd), ' ', '\r', '\n']
  }

  /** Different lines have different texts, so the text determines the line. */
  lemma RenderInjective(a: Emitted, b: Emitted)
    requires Render(a) == Render(b)
    ensures a == b
  {
    assert Render(a)[0] == Render(b)[0];
    if a.Sample? && b.Sample? {
      assert Render(a)[2] == Render(b)[2];
    }
  }

  /**
   * The firmware's globals, its LED and UART, and the place the main loop is at.
   * `now` counts SysTick interrupts since power-on and `stamps[i]` is the
   * value of `now` when `out[i]` was printed; the firmware itself keeps
   * neither, they measure time for the properties below.
   */
  datatype Machine = Machine(
    counter: Counter,
    recording: bool,
    led: bool,
    pc: Pc,
    out: seq<Emitted>,
    now: nat,
    stamps: seq<nat>)

  const PowerOn: Machine := Machine(TickCounter.Boot, false, false, Waiting, [], 0, [])

  /** `printf` of one line, noted with the time at which it happens. */
  function Emit(m: Machine, e: Emitted): (r: Machine)
    ensures r.out == m.out + [e] && r.stamps == m.stamps + [m.now]
    ensures r.(out := m.out, stamps := m.stamps) == m
  {
    m.(out := m.out + [e], stamps := m.stamps + [m.now])
  }

  /** The SysTick interrupt: one more tick on the counter and on the clock, and nothing else. */
  function OnTick(m: Machine): (r: Machine)
    ensures r.counter.ticks == Increment(m.counter.ticks) && r.now == m.now + 1
    ensures r.counter.overflowed <==> m.counter.overflowed || r.counter.ticks == 0
    ensures r.(counter := m.counter, now := m.now) == m
  {
    m.(counter := Tick(m.counter), now := m.now + 1)
  }

  /** The button's falling-edge interrupt: the recording flag flips, and nothing else changes. */
  function OnEdge(m: Machine): (r: Machine)
    ensures r.recording == !m.recording
    ensures r.(recording := m.recording) == m
  {
    m.(recording := Toggle(m.recording))
  }

  /**
   * One step of the main loop; `td` and `pd` are what the two radar pins
   * read if this step samples them.
   */
  function Step(m: Machine, td: bool, pd: bool): (r: Machine)
    // the main loop never touches the overflow flag and takes no time
    ensures r.counter.overflowed == m.counter.overflowed && r.now == m.now
    // output is only ever appended to, at most one line per step
    ensures m.out <= r.out && |r.out| <= |m.out| + 1
    ensures |r.stamps| - |m.stamps| == |r.out| - |m.out| && r.stamps[..|m.stamps|] == m.stamps
    ensures |r.out| > |m.out| ==> r.stamps[|r.stamps| - 1] == m.now
    // a sample is printed only by a recording session whose counter passed the
    // period, it carries the pins read in that step, and the counter restarts
    ensures |r.out| > |m.out| && r.out[|m.out|].Sample? <==>
              m.pc == Sampling && m.recording && m.counter.ticks > SAMPLE_PERIOD
    ensures |r.out| > |m.out| && r.out[|m.out|].Sample? ==>
              r.out[|m.out|] == Sample(td, pd) && r.counter.ticks == 0
              && r.(out := m.out, stamps := m.stamps, counter := m.counter) == m
    // a pass of the sampling loop before the period is up changes nothing
    ensures m.pc == Sampling && m.recording && m.counter.ticks <= SAMPLE_PERIOD ==> r == m
    // a sentinel is printed exactly when a session opens (LED on) or closes (LED off)
    ensures |r.out| > |m.out| && r.out[|m.out|].Sentinel? <==>
              (m.pc == Waiting && m.recording) || (m.pc == Sampling && !m.recording)
    ensures m.pc == Waiting && m.recording ==>
              r.pc == Sampling && r.led && r.counter.ticks == 0
              && r.(out := m.out, stamps := m.stamps, counter := m.counter, led := m.led, pc := m.pc) == m
    ensures m.pc == Sampling && !m.recording ==>
              r.pc == Stopping && !r.led
              && r.(out := m.out, stamps := m.stamps, led := m.led, pc := m.pc) == m
    // the main loop writes the flag only when it returns to waiting, and writes false
    ensures r.recording != m.recording ==> m.pc == Stopping
    ensures m.pc == Stopping ==>
              r.pc == Waiting && !r.recording && r.(recording := m.recording, pc := m.pc) == m
    // nothing changes while waiting for the flag
    ensures m.pc == Waiting && !m.recording ==> r == m
  {
    match m.pc
    case Waiting =>
      if !m.recording then m
      else Emit(m, Sentinel).(led := true, counter := Reset(m.counter), pc := Sampling)
    case Sampling =>
      if m.recording then
        if m.counter.ticks > SAMPLE_PERIOD then Emit(m.(counter := Reset(m.counter)), Sample(td, pd))
        else m
      else Emit(m.(led := false), Sentinel).(pc := Stopping)
    case Stopping =>
      m.(recording := false, pc := Waiting)
  }

  /** What can happen next: an interrupt, or a main-loop step reading the pins. */
  datatype Event = SysTick | ButtonEdge | MainStep(td: bool, pd: bool)

  /**
   * One event. Interrupts print nothing; output is only ever appended to;
   * nothing clears the overflow flag.
   */
  function Apply(m: Machine, e: Event): (r: Machine)
    ensures m.out <= r.out
    ensures !e.MainStep? ==> r.out == m.out && r.pc == m.pc && r.led == m.led
    ensures m.counter.overflowed ==> r.counter.overflowed
  {
    match e
    case SysTick => OnTick(m)
    case ButtonEdge => OnEdge(m)
    case MainStep(td, pd) => Step(m, td, pd)
  }

  /** The machine after the events `evs`, in order. */
  function Run(m: Machine, evs: seq<Event>): (r: Machine)
    ensures m.out <= r.out
  {
    if evs == [] then m else Apply(Run(m, evs[..|evs| - 1]), evs[|evs| - 1])
  }

  /** The number of sentinel lines in `out`. */
  function Sentinels(out: seq<Emitted>): nat
  {
    if out == [] then 0
    else Sentinels(out[..|out| - 1]) + (if out[|out| - 1].Sentinel? then 1 else 0)
  }

  /** After an odd number of sentinels, a session is open. */
  predicate SessionOpen(out: seq<Emitted>)
  {
    Sentinels(out) % 2 == 1
  }

  /** Every sample line stands inside an open session. */
  ghost predicate Bracketed(out: seq<Emitted>)
  {
    forall i :: 0 <= i < |out| && out[i].Sample? ==> SessionOpen(out[..i])
  }

  /** Every sample line comes more than SAMPLE_PERIOD ticks after the line before it. */
  ghost predicate Spaced(out: seq<Emitted>, stamps: seq<nat>)
    requires |stamps| == |out|
  {
    forall i :: 0 < i < |out| && out[i].Sample? ==> stamps[i - 1] + SAMPLE_PERIOD < stamps[i]
  }

  /** What holds of every state the firmware can reach. */
  ghost predicate Inv(m: Machine)
  {
    && |m.stamps| == |m.out|
    && Bracketed(m.out)
    && Spaced(m.out, m.stamps)
    && (m.led <==> m.pc == Sampling)
    && (SessionOpen(m.out) <==> m.pc == Sampling)
    && (m.pc == Sampling ==>
          && |m.out| > 0
          && m.stamps[|m.out| - 1] + m.counter.ticks <= m.now
          && m.counter.ticks == (m.now - m.stamps[|m.out| - 1]) % WRAP)
  }

  lemma SentinelsAppend(out: seq<Emitted>, e: Emitted)
    ensures Sentinels(out + [e]) == Sentinels(out) + (if e.Sentinel? then 1 else 0)
  {
    assert (out + [e])[..|out|] == out;
  }

  lemma {:induction false} InvEmit(m: Machine, e: Emitted)
    requires |m.stamps| == |m.out| && Bracketed(m.out) && Spaced(m.out, m.stamps)
    requires e.Sample? ==> SessionOpen(m.out)
    requires e.Sample? ==> |m.out| > 0 && m.stamps[|m.out| - 1] + SAMPLE_PERIOD < m.now
    ensures var r := Emit(m, e); Bracketed(r.out) && Spaced(r.out, r.stamps)
    ensures SessionOpen(Emit(m, e).out) <==> (SessionOpen(m.out) != e.Sentinel?)
  {
    var r := Emit(m, e);
    SentinelsAppend(m.out, e);
    forall i | 0 <= i < |r.out| && r.out[i].Sample?
      ensures SessionOpen(r.out[..i])
    {
      if i < |m.out| {
        assert r.out[..i] == m.out[..i];
      } else {
        assert r.out[..i] == m.out;
      }
    }
  }

  lemma InvPowerOn()
    ensures Inv(PowerOn)
  {
  }

  lemma InvTick(m: Machine)
    requires Inv(m)
    ensures Inv(OnTick(m))
  {
    if m.pc == Sampling {
      ModSucc(m.now - m.stamps[|m.out| - 1]);
    }
  }

  lemma InvEdge(m: Machine)
    requires Inv(m)
    ensures Inv(OnEdge(m))
  {
  }

  lemma InvStep(m: Machine, td: bool, pd: bool)
    requires Inv(m)
    ensures Inv(Step(m, td, pd))
  {
    match m.pc
    case Waiting =>
      if m.recording {
        InvOpen(m);
      }
    case Sampling =>
      if m.recording {
        if m.counter.ticks > SAMPLE_PERIOD {
          InvSample(m, td, pd);
        }
      } else {
        InvEmit(m.(led := false), Sentinel);
      }
    case Stopping =>
  }

  /** Opening a session keeps the invariant: the counter and the time since the sentinel both start at 0. */
  lemma InvOpen(m: Machine)
    requires Inv(m) && m.pc == Waiting && m.recording
    ensures Inv(Emit(m, Sentinel).(led := true, counter := Reset(m.counter), pc := Sampling))
  {
    InvEmit(m, Sentinel);
    var r := Emit(m, Sentinel).(led := true, counter := Reset(m.counter), pc := Sampling);
    assert r.stamps[|r.out| - 1] == r.now && r.counter.ticks == 0;
  }

  /** Printing a sample keeps the invariant: the counter and the time since the line both restart at 0. */
  lemma InvSample(m: Machine, td: bool, pd: bool)
    requires Inv(m) && m.pc == Sampling && m.recording && m.counter.ticks > SAMPLE_PERIOD
    ensures Inv(Emit(m.(counter := Reset(m.counter)), Sample(td, pd)))
  {
    InvEmit(m.(counter := Reset(m.counter)), Sample(td, pd));
    var r := Emit(m.(counter := Reset(m.counter)), Sample(td, pd));
    assert r.stamps[|r.out| - 1] == r.now && r.counter.ticks == 0;
  }

  lemma InvApply(m: Machine, e: Event)
    requires Inv(m)
    ensures Inv(Apply(m, e))
  {
    match e
    case SysTick => InvTick(m);
    case ButtonEdge => InvEdge(m);
    case MainStep(td, pd) => InvStep(m, td, pd);
  }

  /** Every state reached from power-on, under any interleaving of interrupts, satisfies Inv. */
  lemma {:induction false} InvRun(evs: seq<Event>)
    ensures Inv(Run(PowerOn, evs))
  {
    if evs == [] {
      InvPowerOn();
    } else {
      InvRun(evs[..|evs| - 1]);
      InvApply(Run(PowerOn, evs[..|evs| - 1]), evs[|evs| - 1]);
    }
  }

  /**
   * The sampling rate under any interleaving: while a session records, a
   * main-loop pass prints a sample, with the pins it reads, exactly when more
   * than SAMPLE_PERIOD ticks (mod 2^32) have passed since the last line, and
   * otherwise changes nothing.
   */
  lemma SampleRate(evs: seq<Event>, td: bool, pd: bool)
    requires Run(PowerOn, evs).pc == Sampling && Run(PowerOn, evs).recording
    ensures var m := Run(PowerOn, evs);
            |m.out| > 0 && |m.stamps| == |m.out| && m.stamps[|m.out| - 1] <= m.now
    ensures var m := Run(PowerOn, evs);
            var r := Step(m, td, pd);
            if (m.now - m.stamps[|m.out| - 1]) % WRAP > SAMPLE_PERIOD
            then r.out == m.out + [Sample(td, pd)]
            else r == m
  {
    InvRun(evs);
  }

  /** Sample lines appear only between an opening and a closing sentinel. */
  lemma SamplesInsideSessions(evs: seq<Event>, i: nat)
    requires i < |Run(PowerOn, evs).out|
    requires Run(PowerOn, evs).out[i].Sample?
    ensures SessionOpen(Run(PowerOn, evs).out[..i])
  {
    InvRun(evs);
  }

  /**
   * Consecutive samples, and the opening sentinel and the first sample, are
   * more than SAMPLE_PERIOD SysTick interrupts apart.
   */
  lemma SamplesSpaced(evs: seq<Event>, i: nat)
    requires 0 < i < |Run(PowerOn, evs).out|
    requires Run(PowerOn, evs).out[i].Sample?
    ensures |Run(PowerOn, evs).stamps| == |Run(PowerOn, evs).out|
    ensures Run(PowerOn, evs).stamps[i - 1] + SAMPLE_PERIOD < Run(PowerOn, evs).stamps[i]
  {
    InvRun(evs);
  }

  /** The LED is lit exactly while a session is open, i.e. the main loop is in its sampling loop. */
  lemma LedShowsSession(evs: seq<Event>)
    ensures Run(PowerOn, evs).led <==> SessionOpen(Run(PowerOn, evs).out)
    ensures Run(PowerOn, evs).led <==> Run(PowerOn, evs).pc == Sampling
  {
    InvRun(evs);
  }

  /** The first line ever printed is a sentinel. */
  lemma FirstLineIsSentinel(evs: seq<Event>)
    requires |Run(PowerOn, evs).out| > 0
    ensures Run(PowerOn, evs).out[0] == Sentinel
  {
    InvRun(evs);
    var out := Run(PowerOn, evs).out;
    assert out[..0] == [];
  }

  /**
   * An edge that arrives after the sampling loop has seen the flag false but
   * before the loop writes `recording_data = false` is lost: the main loop's next step ends in
   * the same state as if the button had not been pressed.
   */
  lemma EdgeLostWhileStopping(m: Machine, td: bool, pd: bool)
    requires m.pc == Stopping
    ensures Step(OnEdge(m), td, pd) == Step(m, td, pd)
    ensures !Step(OnEdge(m), td, pd).recording
  {
  }

  /**
   * `ticks_overflowed` is never cleared: its only writers are its
   * initialiser and the SysTick handler, which only ever sets it.
   */
  lemma {:induction false} OverflowNeverCleared(m: Machine, evs: seq<Event>)
    requires m.counter.overflowed
    ensures Run(m, evs).counter.overflowed
  {
    if evs != [] {
      OverflowNeverCleared(m, evs[..|evs| - 1]);
    }
  }

  /** Events in two batches are the events in one. */
  lemma {:induction false} RunAppend(m: Machine, a: seq<Event>, b: seq<Event>)
    ensures Run(m, a + b) == Run(Run(m, a), b)
  {
    if b == [] {
      assert a + b == a;
    } else {
      assert (a + b)[..|a + b| - 1] == a + b[..|b| - 1];
      RunAppend(m, a, b[..|b| - 1]);
    }
  }

  /** `n` SysTick interrupts in a row. */
  function Ticking(n: nat): (evs: seq<Event>)
    ensures |evs| == n && forall i :: 0 <= i < n ==> evs[i] == SysTick
  {
    seq(n, _ => SysTick)
  }

  /** Interrupts alone advance only the counter and the time. */
  lemma {:induction false} RunTicking(m: Machine, n: nat)
    ensures Run(m, Ticking(n)) == m.(counter := Ticks(m.counter, n), now := m.now + n)
  {
    if n > 0 {
      assert Ticking(n)[..n - 1] == Ticking(n - 1);
      RunTicking(m, n - 1);
    }
  }

  /**
   * A session that has just reset its counter samples on its first step after
   * SAMPLE_PERIOD + 1 interrupts, and prints exactly the pins it reads.
   */
  lemma SamplesAfterPeriod(m: Machine, td: bool, pd: bool)
    requires m.pc == Sampling && m.recording && m.counter.ticks == 0
    ensures var r := Step(Run(m, Ticking(SAMPLE_PERIOD + 1)), td, pd);
              r.out == m.out + [Sample(td, pd)] && r.pc == Sampling && r.recording && r.counter.ticks == 0
  {
    RunTicking(m, SAMPLE_PERIOD + 1);
    TicksAfter(m.counter, SAMPLE_PERIOD + 1);
  }

  /** ... and not before: with at most SAMPLE_PERIOD interrupts since the reset, no line is printed. */
  lemma NoSampleBeforePeriod(m: Machine, n: nat, td: bool, pd: bool)
    requires m.pc == Sampling && m.recording && m.counter.ticks == 0
    requires n <= SAMPLE_PERIOD
    ensures Step(Run(m, Ticking(n)), td, pd).out == m.out
  {
    RunTicking(m, n);
    TicksAfter(m.counter, n);
    var w := m.(counter := Ticks(m.counter, n), now := m.now + n);
    assert w.counter.ticks == n;
    assert Step(w, td, pd).out == m.out;
  }

  /** A button press seen by the waiting loop opens a session. */
  lemma OpenSession(m: Machine, td: bool, pd: bool)
    requires m.pc == Waiting && !m.recording
    ensures var r := Run(m, [ButtonEdge, MainStep(td, pd)]);
              r.out == m.out + [Sentinel] && r.pc == Sampling && r.recording && r.led && r.counter.ticks == 0
  {
    var evs := [ButtonEdge, MainStep(td, pd)];
    assert evs[..1] == [ButtonEdge] && evs[..1][..0] == [];
    assert Run(m, evs[..1]) == OnEdge(m);
    assert Run(m, evs) == Step(OnEdge(m), td, pd);
  }

  /** A button press seen by the sampling loop closes the session and clears the flag. */
  lemma CloseSession(m: Machine, td: bool, pd: bool)
    requires m.pc == Sampling && m.recording
    ensures var r := Run(m, [ButtonEdge, MainStep(td, pd), MainStep(td, pd)]);
              r.out == m.out + [Sentinel] && r.pc == Waiting && !r.recording && !r.led
  {
    var evs := [ButtonEdge, MainStep(td, pd), MainStep(td, pd)];
    assert evs[..2] == [ButtonEdge, MainStep(td, pd)];
    assert evs[..2][..1] == [ButtonEdge] && evs[..2][..1][..0] == [];
    assert Run(m, evs[..2][..1]) == OnEdge(m);
    assert Run(m, evs[..2]) == Step(OnEdge(m), td, pd);
    assert Run(m, evs) == Step(Step(OnEdge(m), td, pd), td, pd);
  }

  /** One sampling period ending in a step that reads the given pins. */
  lemma SamplePeriod(m: Machine, td: bool, pd: bool)
    requires m.pc == Sampling && m.recording && m.counter.ticks == 0
    ensures var r := Run(m, Ticking(SAMPLE_PERIOD + 1) + [MainStep(td, pd)]);
              r.out == m.out + [Sample(td, pd)] && r.pc == Sampling && r.recording && r.counter.ticks == 0
  {
    RunAppend(m, Ticking(SAMPLE_PERIOD + 1), [MainStep(td, pd)]);
    assert [MainStep(td, pd)][..0] == [];
    SamplesAfterPeriod(m, td, pd);
  }

  /**
   * Press, wait a period with TD=1 and PD=0, wait another with both high,
   * press again: two sentinels around the two samples, LED off, flag clear.
   */
  lemma Scenario()
    ensures var evs := [ButtonEdge, MainStep(false, false)]
                       + (Ticking(SAMPLE_PERIOD + 1) + [MainStep(true, false)])
                       + (Ticking(SAMPLE_PERIOD + 1) + [MainStep(true, true)])
                       + [ButtonEdge, MainStep(false, false), MainStep(false, false)];
            var m := Run(PowerOn, evs);
            m.out == [Sentinel, Sample(true, false), Sample(true, true), Sentinel]
            && !m.led && !m.recording && m.pc == Waiting
  {
    var a := [ButtonEdge, MainStep(false, false)];
    var b := Ticking(SAMPLE_PERIOD + 1) + [MainStep(true, false)];
    var c := Ticking(SAMPLE_PERIOD + 1) + [MainStep(true, true)];
    var d := [ButtonEdge, MainStep(false, false), MainStep(false, false)];
    OpenSession(PowerOn, false, false);
    var m0 := Run(PowerOn, a);
    assert m0.out == [Sentinel];
    SamplePeriod(m0, true, false);
    var m1 := Run(m0, b);
    assert m1.out == [Sentinel, Sample(true, false)];
    SamplePeriod(m1, true, true);
    var m2 := Run(m1, c);
    assert m2.out == [Sentinel, Sample(true, false), Sample(true, true)];
    CloseSession(m2, false, false);
    RunFour(PowerOn, a, b, c, d);
  }

  /** Four batches of events in a row. */
  lemma RunFour(m: Machine, a: seq<Event>, b: seq<Event>, c: seq<Event>, d: seq<Event>)
    ensures Run(m, a + b + c + d) == Run(Run(Run(Run(m, a), b), c), d)
  {
    RunAppend(m, a, b);
    RunAppend(m, a + b, c);
    RunAppend(m, a + b + c, d);
  }
}
