/** The byte budget for retained log lines (internal/ansible/runner.go:441-495): what is kept, what
    the sink is told, and when the output counts as truncated. Lines are already redacted. */
module LogCollector {

  datatype SinkEvent = Line(text: string) | Marker

  function Total(lines: seq<string>): nat
    decreases |lines|
  {
    if lines == [] then 0 else Total(lines[..|lines| - 1]) + |lines[|lines| - 1]|
  }

  /** The lines that fit when each is offered in turn. */
  function Fitting(lines: seq<string>, limit: nat): seq<string>
    decreases |lines|
  {
    if lines == [] then []
    else
      var before, last := Fitting(lines[..|lines| - 1], limit), lines[|lines| - 1];
      if Total(before) + |last| <= limit then before + [last] else before
  }

  function LinesOf(events: seq<SinkEvent>): seq<string>
    decreases |events|
  {
    if events == [] then []
    else
      var before, last := LinesOf(events[..|events| - 1]), events[|events| - 1];
      if last.Line? then before + [last.text] else before
  }

  function Markers(events: seq<SinkEvent>): nat
    decreases |events|
  {
    if events == [] then 0 else Markers(events[..|events| - 1]) + if events[|events| - 1].Marker? then 1 else 0
  }

  class Collector {
    const maxBytes: nat
    var usedBytes: nat
    var events: seq<string>
    var truncated: bool
    var sink: seq<SinkEvent>
    ghost var offered: seq<string>

    ghost predicate Valid()
      reads this
    {
      && events == Fitting(offered, maxBytes) && usedBytes == Total(events)
      && (truncated <==> Total(offered) > maxBytes)
      && LinesOf(sink) == events && Markers(sink) == (if truncated then 1 else 0)
      && (!truncated ==> events == offered)
    }

    constructor (maxBytes: nat)
      ensures Valid() && offered == [] && this.maxBytes == maxBytes
    {
      this.maxBytes := maxBytes;
      usedBytes, events, truncated, sink, offered := 0, [], false, [], [];
    }

    /** Whatever fits is kept and passed on; the first line that does not is replaced, for the sink
        alone, by one marker. So output is truncated exactly when its total exceeds the budget. */
    method Emit(line: string)
      requires Valid()
      modifies this
      ensures Valid() && offered == old(offered) + [line]
      ensures
        var fits := old(usedBytes) + |line| <= maxBytes;
        && events == old(events) + (if fits then [line] else [])
        && sink == old(sink) + (if fits then [Line(line)] else if old(truncated) then [] else [Marker])
        && truncated == (old(truncated) || !fits)
    {
      hide Total, Fitting, LinesOf, Markers;
      OfferedMore(offered, line, maxBytes);
      FittingIsBounded(offered, maxBytes);
      if usedBytes + |line| <= maxBytes {
        TotalMore(events, line);
        SinkMore(sink, Line(line));
        events := events + [line];
        usedBytes := usedBytes + |line|;
        sink := sink + [Line(line)];
      } else if !truncated {
        SinkMore(sink, Marker);
        truncated := true;
        sink := sink + [Marker];
      }
      offered := offered + [line];
    }
  }

  lemma TotalMore(lines: seq<string>, line: string)
    ensures Total(lines + [line]) == Total(lines) + |line|
  {
    assert (lines + [line])[..|lines|] == lines;
  }

  lemma OfferedMore(lines: seq<string>, line: string, limit: nat)
    ensures Total(lines + [line]) == Total(lines) + |line|
    ensures Fitting(lines + [line], limit)
      == if Total(Fitting(lines, limit)) + |line| <= limit then Fitting(lines, limit) + [line]
        else Fitting(lines, limit)
  {
    assert (lines + [line])[..|lines|] == lines;
  }

  lemma SinkMore(sink: seq<SinkEvent>, e: SinkEvent)
    ensures LinesOf(sink + [e]) == if e.Line? then LinesOf(sink) + [e.text] else LinesOf(sink)
    ensures Markers(sink + [e]) == Markers(sink) + if e.Marker? then 1 else 0
  {
    assert (sink + [e])[..|sink|] == sink;
  }

  /** What is kept never exceeds the budget, nor what was offered. */
  lemma {:induction false} FittingIsBounded(lines: seq<string>, limit: nat)
    ensures Total(Fitting(lines, limit)) <= limit && Total(Fitting(lines, limit)) <= Total(lines)
    decreases |lines|
  {
    if lines != [] {
      FittingIsBounded(lines[..|lines| - 1], limit);
      TotalMore(Fitting(lines[..|lines| - 1], limit), lines[|lines| - 1]);
    }
  }

  /** Everything is kept exactly when the total fits. */
  lemma {:induction false} FittingIsPart(lines: seq<string>, limit: nat)
    ensures Fitting(lines, limit) == lines <==> Total(lines) <= limit
    ensures |Fitting(lines, limit)| <= |lines|
    decreases |lines|
  {
    if lines == [] {
    } else {
      var before, last := lines[..|lines| - 1], lines[|lines| - 1];
      FittingIsPart(before, limit);
      FittingIsBounded(before, limit);
      assert lines == before + [last];
    }
  }
}
