/** The bounded line splitter for docker output (internal/imagebuild/docker.go:99-144). */
module BuildOutput {
  import opened LineStreams

  const LINE_LIMIT: nat := 16 * 1024

  const MARKER: Bytes := " [truncated]"

  function Cut(line: Bytes): Bytes
  {
    if |line| > LINE_LIMIT then line[..LINE_LIMIT] else line
  }

  /** What is reported for one line of the stream, however long it is. */
  function Message(line: Bytes): Bytes
  {
    TrimReturn(Cut(line)) + if |line| > LINE_LIMIT then MARKER else ""
  }

  function Messages(lines: seq<Bytes>): (m: seq<Bytes>)
    ensures |m| == |lines|
  {
    seq(|lines|, i requires 0 <= i < |lines| => Message(lines[i]))
  }

  lemma OneMoreMessage(lines: seq<Bytes>, line: Bytes)
    ensures Messages(lines + [line]) == Messages(lines) + [Message(line)]
  {
    hide Message;
  }

  class LineOutput {
    var pending: Bytes
    var truncated: bool
    var emitted: seq<Bytes>
    ghost var consumed: Bytes

    /** The fields hold exactly what the bytes consumed so far determine. */
    ghost predicate Valid()
      reads this
    {
      && emitted == Messages(Lines(consumed))
      && pending == Cut(Rest(consumed))
      && (truncated <==> |Rest(consumed)| > LINE_LIMIT)
    }

    constructor ()
      ensures Valid() && consumed == "" && emitted == []
    {
      pending, truncated, emitted, consumed := "", false, [], "";
      new;
      NoNewline("");
    }

    method Write(data: Bytes) returns (n: nat)
      requires Valid()
      modifies this
      ensures Valid() && consumed == old(consumed) + data
      ensures n == |data|
    {
      hide Messages, Message, Cut, Lines, Rest, NewlineIn;
      n := |data|;
      var p := data;
      ghost var done := "";
      while |p| > 0
        invariant Valid() && consumed == old(consumed) + done && data == done + p
        decreases |p|
      {
        NewlineIsFirst(p);
        var end := NewlineIn(p);
        var part := if end >= 0 then p[..end] else p;
        Append(part);
        if end < 0 {
          Regroup(old(consumed), done, part, "");
          return;
        }
        Line();
        Regroup(old(consumed), done, part, ['\n']);
        Regroup(done, part, ['\n'], p[end + 1..]);
        done := done + part + ['\n'];
        p := p[end + 1..];
      }
    }

    /** Keep what still fits of a piece of the current line. */
    method Append(part: Bytes)
      requires Valid() && '\n' !in part
      modifies this`pending, this`truncated, this`consumed
      ensures Valid() && consumed == old(consumed) + part
    {
      var room := LINE_LIMIT - |pending|;
      if |part| > room {
        pending := pending + part[..room];
        truncated := true;
      } else {
        pending := pending + part;
      }
      MorePart(consumed, part);
      CutMore(Rest(consumed), part);
      consumed := consumed + part;
      hide Messages, Lines, Rest;
    }

    method Line()
      requires Valid()
      modifies this
      ensures Valid() && consumed == old(consumed) + ['\n']
    {
      MoreNewline(consumed);
      OneMoreMessage(Lines(consumed), Rest(consumed));
      hide Messages, Message, Lines, Rest;
      Emit();
      pending, truncated := "", false;
      consumed := consumed + ['\n'];
    }

    method Emit()
      requires Valid()
      modifies this`emitted
      ensures emitted == old(emitted) + [Message(Rest(consumed))]
    {
      hide Messages, TrimReturn, Cut, Lines, Rest;
      var message := TrimReturn(pending);
      if truncated {
        message := message + MARKER;
      } else {
        assert message == message + "";
      }
      emitted := emitted + [message];
    }

    /** The end of the stream stands for the newline of an unfinished line. */
    method Flush()
      requires Valid()
      modifies this
      ensures Valid() && pending == "" && !truncated
      ensures consumed == old(consumed) + (if Rest(old(consumed)) == "" then "" else ['\n'])
      ensures emitted == Messages(AllLines(old(consumed)))
    {
      ghost var before := consumed;
      hide Messages, Lines, Rest;
      if |pending| > 0 || truncated {
        MoreNewline(consumed);
        Line();
      } else {
        assert consumed == consumed + "";
      }
    }
  }

  lemma CutMore(rest: Bytes, part: Bytes)
    ensures
      var room := LINE_LIMIT - |Cut(rest)|;
      && room >= 0
      && Cut(rest + part) == Cut(rest) + (if |part| > room then part[..room] else part)
      && (|rest + part| > LINE_LIMIT <==> |rest| > LINE_LIMIT || |part| > room)
  {
  }

  /** A command's output, in whatever pieces it arrives, is reported line by line as if it had been
      split as a whole. */
  method RunCommand(chunks: seq<Bytes>) returns (emitted: seq<Bytes>)
    ensures emitted == Messages(AllLines(Concat(chunks)))
  {
    var stdout := new LineOutput();
    for i := 0 to |chunks|
      invariant stdout.Valid() && stdout.consumed == Concat(chunks[..i])
    {
      assert chunks[..i + 1][..i] == chunks[..i];
      var _ := stdout.Write(chunks[i]);
    }
    assert chunks[..|chunks|] == chunks;
    stdout.Flush();
    return stdout.emitted;
  }

  /** Every line has its message: itself without a final return, and of a line above 16 KiB its first
      16 KiB, again without a final return, and the mark. */
  lemma {:induction false} MessagesAreBounded(s: Bytes, i: nat)
    requires i < |AllLines(s)|
    ensures |Messages(AllLines(s))| == |AllLines(s)|
    ensures
      var line, m := AllLines(s)[i], Messages(AllLines(s))[i];
      if |line| <= 16384 then
        m == if line != "" && line[|line| - 1] == '\r' then line[..|line| - 1] else line
      else
        m == (if line[16383] == '\r' then line[..16383] else line[..16384]) + " [truncated]"
  {
    hide AllLines;
    var line := AllLines(s)[i];
    assert Messages(AllLines(s))[i] == Message(line);
    assert TrimReturn(line) + "" == TrimReturn(line);
  }
}
