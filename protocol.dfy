/**
 * The line protocol between the firmware and the host recorder: what the
 * firmware prints, the recorder reads back.
 */
module Protocol {
  import opened PyText
  import opened Acquisition
  import opened Recorder

  /** What the recorder's `readline()` delivers for the firmware's output: one line per `printf`. */
  function Wire(out: seq<Emitted>): (raw: seq<RawLine>)
    ensures |raw| == |out|
    ensures forall i :: 0 <= i < |out| ==> raw[i] == Text(Render(out[i]))
  {
    seq(|out|, i requires 0 <= i < |out| => Text(Render(out[i])))
  }

  /** How a pin value is stored by the recorder: the text of its field. */
  function PinText(b: bool): (t: string)
    ensures t == "1" <==> b
    ensures t == "0" <==> !b
  {
    [Digit(b)]
  }

  /** The sentinel `"9 \r\n"` strips to `"9"`. */
  lemma SentinelRoundTrip()
    ensures Strip(Render(Sentinel)) == "9"
  {
    var s := Render(Sentinel);
    assert LeadingSpaces(s) == 0;
    assert s[0..] == s;
    assert TrimTrailing(s) == TrimTrailing(s[..3]) by {
      assert s[..|s| - 1] == s[..3];
    }
    assert TrimTrailing(s[..3]) == TrimTrailing(s[..2]) by {
      assert s[..3][..2] == s[..2];
    }
    assert TrimTrailing(s[..2]) == TrimTrailing(s[..1]) by {
      assert s[..2][..1] == s[..1];
    }
  }

  /** A sample line `"%i %i \r\n"` strips to its two pins with the space between them. */
  lemma SampleStrip(td: bool, pd: bool)
    ensures Strip(Render(Sample(td, pd))) == PinText(td) + " " + PinText(pd)
  {
    var s := Render(Sample(td, pd));
    assert LeadingSpaces(s) == 0;
    assert s[0..] == s;
    assert TrimTrailing(s) == TrimTrailing(s[..5]) by {
      assert s[..|s| - 1] == s[..5];
    }
    assert TrimTrailing(s[..5]) == TrimTrailing(s[..4]) by {
      assert s[..5][..4] == s[..4];
    }
    assert TrimTrailing(s[..4]) == TrimTrailing(s[..3]) by {
      assert s[..4][..3] == s[..3];
    }
  }

  /**
   * A sample line strips to something other than the sentinel, and splits
   * on the space into TD's field, then PD's.
   */
  lemma SampleRoundTrip(td: bool, pd: bool)
    ensures Strip(Render(Sample(td, pd))) != "9"
    ensures Split(Strip(Render(Sample(td, pd))), ' ') == [PinText(td), PinText(pd)]
  {
    SampleStrip(td, pd);
    SplitJoin([PinText(td), PinText(pd)], ' ');
    assert Join([PinText(td), PinText(pd)], ' ') == PinText(td) + " " + PinText(pd) by {
      assert [PinText(td), PinText(pd)][1..] == [PinText(pd)];
    }
  }

  /**
   * Where reading resumes once the first `i` lines of the firmware's output
   * have been read: just past the raw position of line `i - 1`.
   */
  function From(at: seq<nat>, i: nat): nat
    requires i <= |at|
  {
    if i == 0 then 0 else at[i - 1] + 1
  }

  /**
   * `raw` carries the firmware's output `out`: line `i` of `out` arrives
   * whole as raw line `at[i]`, in order, and every other raw line is blank
   * (the empty reads of a time-out, say).
   */
  predicate Carries(raw: seq<RawLine>, out: seq<Emitted>, at: seq<nat>): (r: bool)
    ensures r ==> |at| == |out|
  {
    && |at| == |out|
    && (forall i :: 0 <= i < |at| ==> Arrives(raw, out, at, i))
    && From(at, |at|) <= |raw|
    && Blank(raw, From(at, |at|), |raw|)
  }

  /** Line `i` of `out` arrives whole as raw line `at[i]`, after nothing but blank lines. */
  predicate Arrives(raw: seq<RawLine>, out: seq<Emitted>, at: seq<nat>, i: nat)
    requires i < |at| == |out|
  {
    && From(at, i) <= at[i] < |raw|
    && raw[at[i]] == Text(Render(out[i]))
    && Blank(raw, From(at, i), at[i])
  }

  /** The wire with no empty reads carries the output at positions 0, 1, 2, ... */
  lemma WireCarries(out: seq<Emitted>)
    ensures Carries(Wire(out), out, Range(0, |out|))
  {
    var raw, at := Wire(out), Range(0, |out|);
    forall i | 0 <= i < |at|
      ensures Arrives(raw, out, at, i)
    {
      assert From(at, i) == i == at[i];
    }
    assert From(at, |at|) == |raw|;
  }

  /** One more empty read, at any raw position, still carries the same output. */
  lemma CarriesPadded(raw: seq<RawLine>, out: seq<Emitted>, at: seq<nat>, p: nat)
    requires Carries(raw, out, at) && p <= |raw|
    ensures Carries(raw[..p] + [Text("")] + raw[p..], out, Shifted(at, p))
  {
    var raw', at' := raw[..p] + [Text("")] + raw[p..], Shifted(at, p);
    forall i | 0 <= i < |at|
      ensures Arrives(raw', out, at', i)
    {
      ArrivesPadded(raw, out, at, p, i);
    }
    assert From(at', |at|) == if From(at, |at|) <= p then From(at, |at|) else From(at, |at|) + 1;
    BlankPadded(raw, p, From(at, |at|), |raw|);
  }

  /** Line `i` still arrives, one raw position later if it came at or after `p`. */
  lemma ArrivesPadded(raw: seq<RawLine>, out: seq<Emitted>, at: seq<nat>, p: nat, i: nat)
    requires i < |at| == |out| && p <= |raw| && Arrives(raw, out, at, i)
    ensures Arrives(raw[..p] + [Text("")] + raw[p..], out, Shifted(at, p), i)
  {
    var raw', at' := raw[..p] + [Text("")] + raw[p..], Shifted(at, p);
    assert From(at', i) == if From(at, i) <= p then From(at, i) else From(at, i) + 1;
    BlankPadded(raw, p, From(at, i), at[i]);
    assert raw'[at'[i]] == raw[at[i]];
  }

  /** A blank stretch of raw lines stays blank, moved or widened, when an empty read is inserted at `p`. */
  lemma BlankPadded(raw: seq<RawLine>, p: nat, lo: nat, hi: nat)
    requires lo <= hi <= |raw| && p <= |raw| && Blank(raw, lo, hi)
    ensures var raw' := raw[..p] + [Text("")] + raw[p..];
            var lo', hi' := (if lo <= p then lo else lo + 1), (if hi < p then hi else hi + 1);
            lo' <= hi' <= |raw'| && Blank(raw', lo', hi')
  {
    var raw' := raw[..p] + [Text("")] + raw[p..];
    var lo', hi' := (if lo <= p then lo else lo + 1), (if hi < p then hi else hi + 1);
    assert Strip("") == [] by {
      assert LeadingSpaces("") == 0;
    }
    forall k | lo' <= k < hi'
      ensures BlankAt(raw', k)
    {
      if k < p {
        assert raw'[k] == raw[k] && BlankAt(raw, k);
      } else if k == p {
        assert raw'[k] == Text("");
      } else {
        assert raw'[k] == raw[k - 1] && BlankAt(raw, k - 1);
      }
    }
  }

  /** The raw positions in `at`, those at `p` or after moved one further on. */
  function Shifted(at: seq<nat>, p: nat): (r: seq<nat>)
    ensures |r| == |at|
    ensures forall i :: 0 <= i < |at| ==> r[i] == if at[i] < p then at[i] else at[i] + 1
  {
    seq(|at|, i requires 0 <= i < |at| => if at[i] < p then at[i] else at[i] + 1)
  }

  /** Past the blank lines of `lo .. hi - 1`, `read_data` reads what it reads at `hi`. */
  lemma {:induction false} SkipBlank(raw: seq<RawLine>, lo: nat, hi: nat)
    requires lo <= hi <= |raw| && Blank(raw, lo, hi)
    decreases hi - lo
    ensures NextLine(raw, lo) == NextLine(raw, hi)
  {
    if lo < hi {
      assert BlankAt(raw, lo);
      SkipBlank(raw, lo + 1, hi);
    }
  }

  /**
   * Each line the firmware sends is returned by `read_data`, stripped, in
   * order, with the raw position it arrived at; after the last one there is nothing more.
   */
  lemma ReadCarried(raw: seq<RawLine>, out: seq<Emitted>, at: seq<nat>, i: nat)
    requires Carries(raw, out, at) && i <= |out|
    ensures From(at, i) <= |raw| && (i < |out| ==> From(at, i) <= at[i] < |raw|)
    ensures NextLine(raw, From(at, i)) == if i == |out| then NoMore else Line(Strip(Render(out[i])), at[i])
  {
    if i == |out| {
      SkipBlank(raw, From(at, i), |raw|);
    } else {
      assert Arrives(raw, out, at, i);
      SkipBlank(raw, From(at, i), at[i]);
      match out[i]
      case Sentinel => SentinelRoundTrip();
      case Sample(td, pd) => SampleStrip(td, pd);
    }
  }

  /** The first sentinel at or after `pos`, or the end of `out`. */
  function RunEnd(out: seq<Emitted>, pos: nat): (k: nat)
    requires pos <= |out|
    ensures pos <= k <= |out|
    ensures forall i :: pos <= i < k ==> out[i].Sample?
    ensures k < |out| ==> out[k] == Sentinel
    decreases |out| - pos
  {
    if pos == |out| || out[pos].Sentinel? then pos else RunEnd(out, pos + 1)
  }

  /** The TD pins of the samples in `s`, as the recorder stores them. */
  function TdColumn(s: seq<Emitted>): seq<string>
  {
    if s == [] then [] else (if s[0].Sample? then [PinText(s[0].td)] else []) + TdColumn(s[1..])
  }

  /** The PD pins of the samples in `s`, as the recorder stores them. */
  function PdColumn(s: seq<Emitted>): seq<string>
  {
    if s == [] then [] else (if s[0].Sample? then [PinText(s[0].pd)] else []) + PdColumn(s[1..])
  }

  /** The line indices `lo`, ..., `hi - 1`. */
  function Range(lo: nat, hi: nat): (r: seq<nat>)
    requires lo <= hi
    ensures |r| == hi - lo && forall i :: 0 <= i < |r| ==> r[i] == lo + i
    decreases hi - lo
  {
    if lo == hi then [] else [lo] + Range(lo + 1, hi)
  }

  /**
   * What the recorder ends with when it reads `out` from line `i` on, line
   * `j` stamped with `at[j]`, with recording started in `h`: every sample up
   * to the next sentinel appended, then the loop ended by that sentinel, or
   * still waiting if there is none.
   */
  function ReadBack(out: seq<Emitted>, at: seq<nat>, i: nat, h: Host): (Host, Exit)
    requires i <= |out| == |at|
  {
    var k := RunEnd(out, i);
    (Host(k == |out|,
          h.timeStamps + at[i..k],
          h.tdResults + TdColumn(out[i..k]),
          h.pdResults + PdColumn(out[i..k])),
     if k < |out| then Ended else Exhausted)
  }

  /** ReadBack past one sample line is ReadBack from the next line, with that sample appended. */
  lemma ReadBackSample(out: seq<Emitted>, at: seq<nat>, i: nat, h: Host)
    requires i < |out| == |at| && out[i].Sample? && h.start
    ensures ReadBack(out, at, i, h)
            == ReadBack(out, at, i + 1, Host(true, h.timeStamps + [at[i]],
                                             h.tdResults + [PinText(out[i].td)],
                                             h.pdResults + [PinText(out[i].pd)]))
  {
    var k := RunEnd(out, i);
    assert RunEnd(out, i + 1) == k;
    var run := out[i..k];
    assert run != [] && run[0] == out[i] && run[1..] == out[i + 1..k];
    assert at[i..k] == [at[i]] + at[i + 1..k];
    assert TdColumn(run) == [PinText(out[i].td)] + TdColumn(out[i + 1..k]);
    assert PdColumn(run) == [PinText(out[i].pd)] + PdColumn(out[i + 1..k]);
    assert h.timeStamps + at[i..k] == (h.timeStamps + [at[i]]) + at[i + 1..k];
    assert h.tdResults + TdColumn(run) == (h.tdResults + [PinText(out[i].td)]) + TdColumn(out[i + 1..k]);
    assert h.pdResults + PdColumn(run) == (h.pdResults + [PinText(out[i].pd)]) + PdColumn(out[i + 1..k]);
  }

  /** ReadBack at the end of `out`, or at a sentinel, appends nothing. */
  lemma ReadBackStops(out: seq<Emitted>, at: seq<nat>, i: nat, h: Host)
    requires i <= |out| == |at|
    requires i == |out| || out[i].Sentinel?
    requires h.start
    ensures ReadBack(out, at, i, h) == if i == |out| then (h, Exhausted) else (h.(start := false), Ended)
  {
    assert RunEnd(out, i) == i;
    assert out[i..i] == [] && at[i..i] == [];
    assert h.timeStamps + [] == h.timeStamps && h.tdResults + [] == h.tdResults && h.pdResults + [] == h.pdResults;
  }

  /**
   * Once recording has started, the recorder stores every sample line up to
   * the next sentinel, TD, PD and raw position in order, and ends on that
   * sentinel; with no further sentinel it stores them all and keeps waiting.
   */
  lemma {:induction false} HostReadsRun(raw: seq<RawLine>, out: seq<Emitted>, at: seq<nat>, i: nat, h: Host)
    requires Carries(raw, out, at) && i <= |out| && h.start
    decreases |out| - i
    ensures From(at, i) <= |raw|
    ensures Session(raw, From(at, i), h) == ReadBack(out, at, i, h)
  {
    if i == |out| {
      HostReadsEnd(raw, out, at, h);
      ReadBackStops(out, at, i, h);
    } else if out[i].Sentinel? {
      HostReadsSentinel(raw, out, at, i, h);
      ReadBackStops(out, at, i, h);
    } else {
      var h1 := Host(true, h.timeStamps + [at[i]], h.tdResults + [PinText(out[i].td)], h.pdResults + [PinText(out[i].pd)]);
      ReadCarried(raw, out, at, i);
      SampleLine(raw, From(at, i), h, out[i].td, out[i].pd, at[i]);
      HostReadsRun(raw, out, at, i + 1, h1);
      ReadBackSample(out, at, i, h);
    }
  }

  /** Past the last line only blank reads remain, and the loop keeps polling with nothing appended. */
  lemma HostReadsEnd(raw: seq<RawLine>, out: seq<Emitted>, at: seq<nat>, h: Host)
    requires Carries(raw, out, at)
    ensures From(at, |out|) <= |raw|
    ensures Session(raw, From(at, |out|), h) == (h, Exhausted)
  {
    ReadCarried(raw, out, at, |out|);
  }

  /** A sentinel read while recording ends the loop, with nothing appended. */
  lemma HostReadsSentinel(raw: seq<RawLine>, out: seq<Emitted>, at: seq<nat>, i: nat, h: Host)
    requires Carries(raw, out, at) && i < |out| && out[i] == Sentinel && h.start
    ensures From(at, i) <= |raw|
    ensures Session(raw, From(at, i), h) == (h.(start := false), Ended)
  {
    ReadCarried(raw, out, at, i);
    SentinelRoundTrip();
    SessionOnLine(raw, From(at, i), h, "9", at[i]);
  }

  /** A sample line, wherever it is read from, is appended and the loop goes on past it. */
  lemma SampleLine(raw: seq<RawLine>, pos: nat, h: Host, td: bool, pd: bool, at: nat)
    requires pos <= |raw| && NextLine(raw, pos) == Line(Strip(Render(Sample(td, pd))), at)
    ensures pos <= at < |raw|
    ensures Session(raw, pos, h)
            == Session(raw, at + 1, Host(h.start, h.timeStamps + [at], h.tdResults + [PinText(td)], h.pdResults + [PinText(pd)]))
  {
    var data := PinText(td) + " " + PinText(pd);
    var h1 := Host(h.start, h.timeStamps + [at], h.tdResults + [PinText(td)], h.pdResults + [PinText(pd)]);
    SampleStrip(td, pd);
    SampleRoundTrip(td, pd);
    ReceivePair(h, PinText(td), PinText(pd), at);
    assert Receive(h, data, at) == Continue(h1);
    SessionOnLine(raw, pos, h, data, at);
  }

  /**
   * The recorder reading a raw stream that carries an output opening with a
   * sentinel stores the pins of the samples up to the next sentinel, each
   * stamped with the raw position it arrived at, and parses every line.
   */
  lemma {:induction false} HostReadsOutput(raw: seq<RawLine>, out: seq<Emitted>, at: seq<nat>)
    requires Carries(raw, out, at)
    requires out != [] ==> out[0] == Sentinel
    ensures var (h, e) := Session(raw, 0, Fresh);
            if out == [] then h == Fresh && e == Exhausted
            else
              var k := RunEnd(out, 1);
              && e == (if k < |out| then Ended else Exhausted)
              && h.tdResults == TdColumn(out[1..k])
              && h.pdResults == PdColumn(out[1..k])
              && h.timeStamps == at[1..k]
  {
    ReadCarried(raw, out, at, 0);
    if out != [] {
      var h0 := Fresh.(start := true);
      OpeningSentinel(raw, out, at);
      HostReadsRun(raw, out, at, 1, h0);
      ReadBackFresh(out, at);
    }
  }

  /** The opening sentinel, read from a fresh start, sets `start` and nothing else. */
  lemma OpeningSentinel(raw: seq<RawLine>, out: seq<Emitted>, at: seq<nat>)
    requires Carries(raw, out, at) && out != [] && out[0] == Sentinel
    ensures From(at, 1) <= |raw|
    ensures Session(raw, 0, Fresh) == Session(raw, From(at, 1), Fresh.(start := true))
  {
    ReadCarried(raw, out, at, 0);
    SentinelRoundTrip();
    SessionOnLine(raw, 0, Fresh, "9", at[0]);
  }

  /** ReadBack from line 1 with nothing recorded yet holds just the first session's columns. */
  lemma ReadBackFresh(out: seq<Emitted>, at: seq<nat>)
    requires 1 <= |out| == |at|
    ensures var k := RunEnd(out, 1);
            ReadBack(out, at, 1, Fresh.(start := true))
            == (Host(k == |out|, at[1..k], TdColumn(out[1..k]), PdColumn(out[1..k])),
                if k < |out| then Ended else Exhausted)
  {
    var k := RunEnd(out, 1);
    assert [] + at[1..k] == at[1..k];
    assert [] + TdColumn(out[1..k]) == TdColumn(out[1..k]);
    assert [] + PdColumn(out[1..k]) == PdColumn(out[1..k]);
  }

  /**
   * Whatever interleaving of ticks, button edges and pin values the
   * firmware runs, and however many empty reads arrive between its lines,
   * the recorder started with it never fails to parse its output: it stores
   * the TD and PD pins of every sample of the first session, in order, each
   * stamped with its raw line position, and stops on that session's closing
   * sentinel, or keeps waiting if the session is still open.
   */
  lemma EndToEnd(evs: seq<Event>, raw: seq<RawLine>, at: seq<nat>)
    requires Carries(raw, Run(PowerOn, evs).out, at)
    ensures var out := Run(PowerOn, evs).out;
            var (h, e) := Session(raw, 0, Fresh);
            if out == [] then h == Fresh && e == Exhausted
            else
              var k := RunEnd(out, 1);
              && e == (if k < |out| then Ended else Exhausted)
              && h.tdResults == TdColumn(out[1..k])
              && h.pdResults == PdColumn(out[1..k])
              && h.timeStamps == at[1..k]
  {
    var out := Run(PowerOn, evs).out;
    if out != [] {
      FirstLineIsSentinel(evs);
    }
    HostReadsOutput(raw, out, at);
  }

  /** The stored columns are the pins of the samples, one entry per sample. */
  lemma {:induction false} ColumnsOfSamples(s: seq<Emitted>)
    requires forall i :: 0 <= i < |s| ==> s[i].Sample?
    ensures |TdColumn(s)| == |PdColumn(s)| == |s|
    ensures forall i :: 0 <= i < |s| ==> TdColumn(s)[i] == PinText(s[i].td) && PdColumn(s)[i] == PinText(s[i].pd)
  {
    if s != [] {
      ColumnsOfSamples(s[1..]);
    }
  }
}
