/**
 * The host-side recorder: `read_data` and the line-dispatch loop of the
 * script's main block. The serial port is the sequence of raw lines it will
 * ever deliver; time stamps are the index of the raw line they were taken
 * for.
 */
module Recorder {
  import opened PyText

  /**
   * What `readline()` hands over: text that decodes, bytes that do not, or
   * the `SerialException` it raises when the port fails (unplugged, say).
   */
  datatype RawLine = Text(s: string) | BadBytes | PortError

  /**
   * What `read_data` does from a position: return the first line that is not
   * blank after `strip()`, raise on bytes that do not decode, pass on the
   * port's exception, or keep polling because nothing else ever arrives.
   */
  datatype Read = Line(text: string, at: nat) | DecodeError(at: nat) | PortFailed(at: nat) | NoMore

  /** The lines `raw[lo..hi]` all decode and strip to nothing. */
  predicate Blank(raw: seq<RawLine>, lo: nat, hi: nat)
    requires lo <= hi <= |raw|
  {
    forall k :: lo <= k < hi ==> BlankAt(raw, k)
  }

  /** Raw line `k` decodes and strips to nothing. */
  predicate BlankAt(raw: seq<RawLine>, k: nat)
    requires k < |raw|
  {
    raw[k].Text? && Strip(raw[k].s) == []
  }

  /** The line `read_data` returns when called at raw position `pos`. */
  function NextLine(raw: seq<RawLine>, pos: nat): (r: Read)
    requires pos <= |raw|
    ensures (r.Line? || r.DecodeError? || r.PortFailed?) ==> pos <= r.at < |raw|
    decreases |raw| - pos
  {
    if pos == |raw| then NoMore
    else match raw[pos]
      case BadBytes => DecodeError(pos)
      case PortError => PortFailed(pos)
      case Text(s) => if Strip(s) == [] then NextLine(raw, pos + 1) else Line(Strip(s), pos)
  }

  /**
   * `read_data` skips exactly the lines that are blank after `strip()`: it
   * returns the first line that is not, stripped and never empty; raises on
   * the first bytes that do not decode; passes on the first port failure;
   * or, when every remaining line is blank, polls for good.
   */
  lemma {:induction false} NextLineSpec(raw: seq<RawLine>, pos: nat)
    requires pos <= |raw|
    decreases |raw| - pos
    ensures var r := NextLine(raw, pos);
            r.Line? ==> pos <= r.at < |raw| && Blank(raw, pos, r.at)
                        && raw[r.at].Text? && r.text == Strip(raw[r.at].s) && r.text != []
    ensures var r := NextLine(raw, pos);
            r.DecodeError? ==> pos <= r.at < |raw| && Blank(raw, pos, r.at) && raw[r.at] == BadBytes
    ensures var r := NextLine(raw, pos);
            r.PortFailed? ==> pos <= r.at < |raw| && Blank(raw, pos, r.at) && raw[r.at] == PortError
    ensures NextLine(raw, pos).NoMore? ==> Blank(raw, pos, |raw|)
  {
    if pos < |raw| && raw[pos].Text? && Strip(raw[pos].s) == [] {
      NextLineSpec(raw, pos + 1);
    }
  }

  /** `read_data`: the line it returns is never empty. */
  method ReadData(raw: seq<RawLine>, pos: nat) returns (r: Read)
    requires pos <= |raw|
    ensures r == NextLine(raw, pos)
    ensures r.Line? ==> r.text != ""
  {
    var numbers := "";
    var i := pos;
    while numbers == ""
      invariant pos <= i <= |raw|
      invariant numbers == "" ==> NextLine(raw, i) == NextLine(raw, pos)
      invariant numbers != "" ==> 0 < i && NextLine(raw, pos) == Line(numbers, i - 1)
      decreases |raw| - i
    {
      if i == |raw| {
        return NoMore;
      }
      match raw[i]
      case BadBytes =>
        return DecodeError(i);
      case PortError =>
        return PortFailed(i);
      case Text(data) =>
        numbers := Strip(data);
      i := i + 1;
    }
    r := Line(numbers, i - 1);
  }

  /** The script's state: the `start` flag and the three result lists. */
  datatype Host = Host(start: bool, timeStamps: seq<nat>, tdResults: seq<string>, pdResults: seq<string>)

  const Fresh: Host := Host(false, [], [], [])

  /** The three lists have one entry per recorded line. */
  predicate Aligned(h: Host)
  {
    |h.timeStamps| == |h.tdResults| == |h.pdResults|
  }

  /**
   * Why the loop stopped: the closing sentinel; a line that did not split
   * into two fields, bytes that did not decode, or a failing port (all three
   * caught by the bare `except`); or the port never delivered another line.
   */
  datatype Exit = Ended | Malformed | Undecodable | PortLost | Exhausted

  datatype Outcome = Continue(host: Host) | Stop(host: Host, exit: Exit)

  /** One pass of the `while True` body for a line `data` read at time `ts`. */
  function Receive(h: Host, data: string, ts: nat): (r: Outcome)
    // the sentinel opens the recording, then ends it, and appends nothing
    ensures data == "9" && !h.start ==> r == Continue(h.(start := true))
    ensures data == "9" && h.start ==> r == Stop(h.(start := false), Ended)
    // any other line is time-stamped first, whatever `start` is
    ensures data != "9" ==> r.host.start == h.start && r.host.timeStamps == h.timeStamps + [ts]
    // only the sentinel ends the loop normally
    ensures r.Stop? ==> (r.exit == Ended <==> data == "9") && r.exit in {Ended, Malformed}
  {
    if data == "9" && !h.start then Continue(h.(start := true))
    else if data == "9" && h.start then Stop(h.(start := false), Ended)
    else
      var h1 := h.(timeStamps := h.timeStamps + [ts]);
      var fields := Split(data, ' ');
      if |fields| == 2 then
        Continue(h1.(tdResults := h.tdResults + [fields[0]], pdResults := h.pdResults + [fields[1]]))
      else
        Stop(h1, Malformed)
  }

  /**
   * Any line other than the sentinel goes on exactly when it holds one
   * space: its first field is added as TD and its second as PD. Otherwise
   * the loop ends with only its time stamp added.
   */
  lemma ReceiveFields(h: Host, data: string, ts: nat)
    requires data != "9"
    ensures var r := Receive(h, data, ts);
            r.Continue? <==> Occurrences(data, ' ') == 1
    ensures var r := Receive(h, data, ts);
            r.Continue? ==>
              && |r.host.tdResults| == |h.tdResults| + 1 && r.host.tdResults[..|h.tdResults|] == h.tdResults
              && |r.host.pdResults| == |h.pdResults| + 1 && r.host.pdResults[..|h.pdResults|] == h.pdResults
              && var td, pd := r.host.tdResults[|h.tdResults|], r.host.pdResults[|h.pdResults|];
                 ' ' !in td && ' ' !in pd && data == td + " " + pd
    ensures var r := Receive(h, data, ts);
            r.Stop? ==> r.exit == Malformed && r.host.tdResults == h.tdResults && r.host.pdResults == h.pdResults
  {
    var fields := Split(data, ' ');
    SplitSpec(data, ' ');
    if |fields| == 2 {
      SplitTwo(data, fields);
      assert ' ' !in fields[0] && ' ' !in fields[1];
    }
  }

  lemma SplitTwo(data: string, fields: seq<string>)
    requires fields == Split(data, ' ') && |fields| == 2
    ensures data == fields[0] + " " + fields[1]
  {
    SplitSpec(data, ' ');
    assert fields[1..] == [fields[1]];
    assert Join(fields[1..], ' ') == fields[1];
  }

  /** The whole loop from raw position `pos`, in state `h`, up to the `break`. */
  function Session(raw: seq<RawLine>, pos: nat, h: Host): (r: (Host, Exit))
    requires pos <= |raw|
    ensures r.1 == Ended ==> !r.0.start
    decreases |raw| - pos
  {
    match NextLine(raw, pos)
    case NoMore => (h, Exhausted)
    case DecodeError(_) => (h, Undecodable)
    case PortFailed(_) => (h, PortLost)
    case Line(data, at) =>
      match Receive(h, data, at)
      case Continue(h1) => Session(raw, at + 1, h1)
      case Stop(h1, e) => (h1, e)
  }

  /**
   * How the loop leaves the lists: the same length, except that a malformed
   * line leaves `time_stamps` one longer, its time stamp being appended
   * before the split.
   */
  predicate AlignedEnd(h: Host, e: Exit)
  {
    |h.tdResults| == |h.pdResults| && |h.timeStamps| == |h.tdResults| + (if e == Malformed then 1 else 0)
  }

  /** Over the whole loop the lists stay aligned, but for a malformed line's time stamp. */
  lemma {:induction false} SessionAligned(raw: seq<RawLine>, pos: nat, h: Host)
    requires pos <= |raw| && Aligned(h)
    decreases |raw| - pos, 1
    ensures AlignedEnd(Session(raw, pos, h).0, Session(raw, pos, h).1)
  {
    var next := NextLine(raw, pos);
    if next.Line? {
      SessionAlignedOnLine(raw, pos, h, next.text, next.at);
    } else {
      SessionNoLine(raw, pos, h);
    }
  }

  /** SessionAligned, once `read_data` has returned `data` from raw line `at`. */
  lemma {:induction false} SessionAlignedOnLine(raw: seq<RawLine>, pos: nat, h: Host, data: string, at: nat)
    requires pos <= |raw| && Aligned(h) && NextLine(raw, pos) == Line(data, at)
    decreases |raw| - pos, 0
    ensures AlignedEnd(Session(raw, pos, h).0, Session(raw, pos, h).1)
  {
    var o := Receive(h, data, at);
    ReceiveAligned(h, data, at);
    SessionOnLine(raw, pos, h, data, at);
    if o.Continue? {
      SessionAligned(raw, at + 1, o.host);
    }
  }

  /** When `read_data` returns no line, the loop ends with the lists as they were, and not as malformed. */
  lemma SessionNoLine(raw: seq<RawLine>, pos: nat, h: Host)
    requires pos <= |raw| && !NextLine(raw, pos).Line?
    ensures Session(raw, pos, h).0 == h
    ensures Session(raw, pos, h).1 in {Exhausted, Undecodable, PortLost}
  {
  }

  /** One pass keeps the lists aligned, except the time stamp a malformed line leaves behind. */
  lemma ReceiveAligned(h: Host, data: string, ts: nat)
    requires Aligned(h)
    ensures var o := Receive(h, data, ts);
            o.Continue? ==> Aligned(o.host)
    ensures var o := Receive(h, data, ts);
            o.Stop? ==> AlignedEnd(o.host, o.exit)
  {
    var o := Receive(h, data, ts);
    if data != "9" {
      ReceiveFields(h, data, ts);
    }
    if data != "9" && o.Continue? {
      assert |o.host.tdResults| == |h.tdResults| + 1 && |o.host.pdResults| == |h.pdResults| + 1;
    }
  }

  /**
   * A line of two space-free fields is recorded whatever `start` is: lines
   * that arrive before the first sentinel are kept too.
   */
  lemma ReceivePair(h: Host, td: string, pd: string, ts: nat)
    requires ' ' !in td && ' ' !in pd
    ensures Receive(h, td + " " + pd, ts)
            == Continue(Host(h.start, h.timeStamps + [ts], h.tdResults + [td], h.pdResults + [pd]))
  {
    var data := td + " " + pd;
    SplitJoin([td, pd], ' ');
    assert Join([td, pd], ' ') == data by {
      assert [td, pd][1..] == [pd];
    }
  }

  /** The loop, when `read_data` returns `data` from raw line `at`. */
  lemma SessionOnLine(raw: seq<RawLine>, pos: nat, h: Host, data: string, at: nat)
    requires pos <= |raw| && NextLine(raw, pos) == Line(data, at)
    ensures Session(raw, pos, h) == match Receive(h, data, at)
                                    case Continue(h1) => Session(raw, at + 1, h1)
                                    case Stop(h1, e) => (h1, e)
  {
  }

  /**
   * One pass of the `while True` body after `read_data` returned `data`
   * at time `ts`: the `if`/`elif`/`else` on the sentinel and the split.
   */
  method Dispatch(start: bool, timeStamps: seq<nat>, tdResults: seq<string>, pdResults: seq<string>,
                  data: string, ts: nat)
    returns (o: Outcome)
    ensures o == Receive(Host(start, timeStamps, tdResults, pdResults), data, ts)
  {
    if data == "9" && !start {
      return Continue(Host(true, timeStamps, tdResults, pdResults));
    } else if data == "9" && start {
      return Stop(Host(false, timeStamps, tdResults, pdResults), Ended);
    }
    var stamps := timeStamps + [ts];
    var fields := Split(data, ' ');
    if |fields| != 2 {
      return Stop(Host(start, stamps, tdResults, pdResults), Malformed);
    }
    o := Continue(Host(start, stamps, tdResults + [fields[0]], pdResults + [fields[1]]));
  }

  /** The main block of the script, up to the `break` (saving the lists is not modelled). */
  method RecordRadarData(raw: seq<RawLine>) returns (h: Host, exit: Exit)
    ensures (h, exit) == Session(raw, 0, Fresh)
  {
    var start := false;
    var timeStamps: seq<nat> := [];
    var tdResults: seq<string> := [];
    var pdResults: seq<string> := [];
    var pos := 0;
    while true
      invariant pos <= |raw|
      invariant Session(raw, pos, Host(start, timeStamps, tdResults, pdResults)) == Session(raw, 0, Fresh)
      decreases |raw| - pos
    {
      var data := ReadData(raw, pos);
      match data
      case NoMore =>
        return Host(start, timeStamps, tdResults, pdResults), Exhausted;
      case DecodeError(_) =>
        return Host(start, timeStamps, tdResults, pdResults), Undecodable;
      case PortFailed(_) =>
        return Host(start, timeStamps, tdResults, pdResults), PortLost;
      case Line(line, at) =>
        SessionOnLine(raw, pos, Host(start, timeStamps, tdResults, pdResults), line, at);
        var o := Dispatch(start, timeStamps, tdResults, pdResults, line, at);
        match o
        case Stop(after, e) =>
          return after, e;
        case Continue(after) =>
          start, timeStamps, tdResults, pdResults := after.start, after.timeStamps, after.tdResults, after.pdResults;
          pos := at + 1;
    }
  }
}
