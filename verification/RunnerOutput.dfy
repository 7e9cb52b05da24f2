/** The line splitter for ansible-playbook output (internal/ansible/runner.go:22, 353-392): lines are
    emitted as they are completed, and an unfinished line longer than the scanner limit in pieces. */
module RunnerOutput {
  import opened LineStreams

  const MAX_TOKEN: nat := 4 * 1024 * 1024

  /** The full pieces taken off an unfinished line, and what stays. */
  function Pieces(s: Bytes): seq<Bytes>
    decreases |s|
  {
    if |s| > MAX_TOKEN then [s[..MAX_TOKEN]] + Pieces(s[MAX_TOKEN..]) else []
  }

  function Leftover(s: Bytes): (r: Bytes)
    ensures |r| <= MAX_TOKEN
    decreases |s|
  {
    if |s| > MAX_TOKEN then Leftover(s[MAX_TOKEN..]) else s
  }

  function Emitted(pieces: seq<Bytes>): (e: seq<Bytes>)
    ensures |e| == |pieces|
  {
    seq(|pieces|, i requires 0 <= i < |pieces| => TrimReturn(pieces[i]))
  }

  lemma EmittedConcat(a: seq<Bytes>, b: seq<Bytes>)
    ensures Emitted(a + b) == Emitted(a) + Emitted(b)
  {
    hide TrimReturn;
  }

  datatype Progress = Progress(pieces: seq<Bytes>, pending: Bytes)

  function Written(p: Progress, data: Bytes): Progress
  {
    var rest := Rest(p.pending + data);
    Progress(p.pieces + Lines(p.pending + data) + Pieces(rest), Leftover(rest))
  }

  function Streamed(chunks: seq<Bytes>): Progress
    decreases |chunks|
  {
    if chunks == [] then Progress([], "") else Written(Streamed(chunks[..|chunks| - 1]), chunks[|chunks| - 1])
  }

  function Flushed(p: Progress): seq<Bytes>
  {
    if p.pending == "" then p.pieces else p.pieces + [p.pending]
  }

  // ---------------------------------------------------------------- the object

  class LineWriter {
    var pending: Bytes
    var events: seq<Bytes>
    ghost var pieces: seq<Bytes>

    ghost function Model(): Progress
      reads this
    {
      Progress(pieces, pending)
    }

    ghost predicate Valid()
      reads this
    {
      events == Emitted(pieces)
    }

    constructor ()
      ensures Valid() && Model() == Progress([], "")
    {
      pending, events, pieces := "", [], [];
    }

    method Emit(line: Bytes)
      requires Valid()
      modifies this`events, this`pieces
      ensures Valid() && pieces == old(pieces) + [line]
    {
      EmittedConcat(pieces, [line]);
      events := events + [TrimReturn(line)];
      pieces := pieces + [line];
    }

    method Write(data: Bytes) returns (n: nat)
      requires Valid()
      modifies this
      ensures Valid() && Model() == Written(old(Model()), data)
      ensures n == |data|
    {
      hide Emitted, TrimReturn;
      pending := pending + data;
      TakeLines();
      TakePieces();
      return |data|;
    }

    method TakeLines()
      requires Valid()
      modifies this
      ensures Valid() && pieces == old(pieces) + Lines(old(pending)) && pending == Rest(old(pending))
    {
      hide Emitted, TrimReturn, NewlineIn;
      ghost var whole := pending;
      assert pieces + Lines(pending) == old(pieces) + Lines(whole);
      var newline := NewlineIn(pending);
      while newline >= 0
        invariant Valid() && newline == NewlineIn(pending)
        invariant pieces + Lines(pending) == old(pieces) + Lines(whole) && Rest(pending) == Rest(whole)
        decreases |pending|
      {
        ghost var line, after := pending[..newline], pending[newline + 1..];
        assert pieces + ([line] + Lines(after)) == (pieces + [line]) + Lines(after);
        Emit(pending[..newline]);
        pending := pending[newline + 1..];
        newline := NewlineIn(pending);
      }
      assert Lines(pending) == [] && pieces + [] == pieces;
    }

    method TakePieces()
      requires Valid()
      modifies this
      ensures Valid() && pieces == old(pieces) + Pieces(old(pending)) && pending == Leftover(old(pending))
    {
      hide Emitted, TrimReturn;
      ghost var whole := pending;
      while |pending| > MAX_TOKEN
        invariant Valid()
        invariant pieces + Pieces(pending) == old(pieces) + Pieces(whole) && Leftover(pending) == Leftover(whole)
        decreases |pending|
      {
        ghost var piece, after := pending[..MAX_TOKEN], pending[MAX_TOKEN..];
        assert pieces + ([piece] + Pieces(after)) == (pieces + [piece]) + Pieces(after);
        Emit(pending[..MAX_TOKEN]);
        pending := pending[MAX_TOKEN..];
      }
      assert pieces + [] == pieces;
    }

    method Flush()
      requires Valid()
      modifies this
      ensures Valid() && pieces == Flushed(old(Model())) && pending == ""
    {
      if |pending| > 0 {
        Emit(pending);
        pending := "";
      }
    }
  }

  method RunPhase(chunks: seq<Bytes>) returns (events: seq<Bytes>)
    ensures events == Emitted(Flushed(Streamed(chunks)))
  {
    hide Emitted, Written;
    var stdout := new LineWriter();
    for i := 0 to |chunks|
      invariant stdout.Valid() && stdout.Model() == Streamed(chunks[..i])
    {
      assert chunks[..i + 1][..i] == chunks[..i];
      var _ := stdout.Write(chunks[i]);
    }
    assert chunks[..|chunks|] == chunks;
    stdout.Flush();
    return stdout.events;
  }

  // ---------------------------------------------------------------- what stays buffered

  lemma {:induction false} LeftoverPart(s: Bytes)
    ensures (s == "" <==> Leftover(s) == "") && ('\n' !in s ==> '\n' !in Leftover(s))
    decreases |s|
  {
    if |s| > MAX_TOKEN {
      LeftoverPart(s[MAX_TOKEN..]);
    }
  }

  /** Between writes the buffer holds no newline and at most one token. */
  lemma BufferIsBounded(chunks: seq<Bytes>)
    ensures |Streamed(chunks).pending| <= 4_194_304 && '\n' !in Streamed(chunks).pending
  {
    if chunks != [] {
      var rest := Rest(Streamed(chunks[..|chunks| - 1]).pending + chunks[|chunks| - 1]);
      RestHasNoNewline(Streamed(chunks[..|chunks| - 1]).pending + chunks[|chunks| - 1]);
      LeftoverPart(rest);
      hide Rest, Leftover, Lines, Pieces;
    }
  }

  // ---------------------------------------------------------------- streaming and splitting as a whole

  predicate ShortLines(s: Bytes)
  {
    forall i | 0 <= i < |AllLines(s)| :: |AllLines(s)[i]| <= 4_194_304
  }

  lemma StartsLonger(r: Bytes, t: Bytes)
    requires r != "" && '\n' !in r
    ensures AllLines(r + t) != [] && |AllLines(r + t)[0]| >= |r|
  {
    NewlineIsFirst(t);
    var i := NewlineIn(t);
    if i < 0 {
      NoNewline(r + t);
    } else {
      assert r + t == (r + t[..i]) + ['\n'] + t[i + 1..];
      OneLine(r + t[..i], t[i + 1..]);
    }
  }

  lemma AllLinesMore(s: Bytes, t: Bytes)
    ensures AllLines(s + t) == Lines(s) + AllLines(Rest(s) + t)
  {
    MoreBytes(s, t);
    hide Lines, Rest;
  }

  lemma ShortPrefix(s: Bytes, t: Bytes)
    requires ShortLines(s + t)
    ensures ShortLines(s) && |Rest(s)| <= MAX_TOKEN
  {
    AllLinesMore(s, t);
    RestHasNoNewline(s);
    var r := Rest(s);
    var more := AllLines(r + t);
    if r != "" {
      StartsLonger(r, t);
      assert AllLines(s + t)[|Lines(s)|] == more[0];
    }
    hide Rest, Lines;
    forall i | 0 <= i < |AllLines(s)|
      ensures |AllLines(s)[i]| <= MAX_TOKEN
    {
      if i < |Lines(s)| {
        assert AllLines(s + t)[i] == Lines(s)[i] == AllLines(s)[i];
      }
    }
  }

  lemma {:induction false} ShortLinesStream(chunks: seq<Bytes>)
    requires ShortLines(Concat(chunks))
    ensures Streamed(chunks) == Progress(Lines(Concat(chunks)), Rest(Concat(chunks)))
    decreases |chunks|
  {
    var s := Concat(chunks);
    if chunks == [] {
      NoNewline("");
    } else {
      var before, last := chunks[..|chunks| - 1], chunks[|chunks| - 1];
      ShortPrefix(Concat(before), last);
      assert s + "" == s;
      ShortPrefix(s, "");
      ShortLinesStream(before);
      MoreBytes(Concat(before), last);
      assert Lines(s) + [] == Lines(s);
      hide Lines, Rest, ShortLines;
    }
  }

  lemma SplitLines(a: Bytes, tail: Bytes)
    requires a != "" && '\n' !in a
    ensures
      var i := NewlineIn(tail);
      |AllLines(a + tail)| == 1 + if i < 0 then 0 else |AllLines(tail[i + 1..])|
  {
    NewlineIsFirst(tail);
    var i := NewlineIn(tail);
    if i < 0 {
      NoNewline(a + tail);
    } else {
      assert a + tail == (a + tail[..i]) + ['\n'] + tail[i + 1..];
      OneLine(a + tail[..i], tail[i + 1..]);
    }
  }

  lemma PiecesCount(s: Bytes)
    ensures |s| > MAX_TOKEN ==> |Pieces(s)| >= 1
    ensures |Pieces(s)| + (if Leftover(s) == "" then 0 else 1) >= if s == "" then 0 else 1
  {
    LeftoverPart(s);
  }

  lemma TwoWrites(a: Bytes, b: Bytes)
    ensures Streamed([a, b]) == Written(Written(Progress([], ""), a), b)
    ensures Concat([a, b]) == a + b
  {
    hide Written;
    assert [a, b][..1] == [a] && [a][..0] == [];
    assert Streamed([]) == Progress([], "") && Concat([]) == "";
    assert "" + a == a;
    assert Concat([a]) == a && Streamed([a]) == Written(Progress([], ""), a);
  }

  lemma FirstWrite(start: Bytes, line: Bytes)
    requires Rest(start) == "" && '\n' !in line
    ensures Written(Progress([], ""), start + line) == Progress(Lines(start) + Pieces(line), Leftover(line))
  {
    MorePart(start, line);
    hide Lines, Rest, Pieces, Leftover;
    assert "" + (start + line) == start + line && "" + line == line;
    assert [] + Lines(start) == Lines(start);
  }

  lemma SecondWrite(p: Progress, tail: Bytes)
    ensures |Flushed(Written(p, tail))| >= |p.pieces| + |AllLines(p.pending + tail)|
  {
    var rest := Rest(p.pending + tail);
    PiecesCount(rest);
    hide Lines, Rest, Pieces, Leftover;
  }

  /** A long line that arrives in a write of its own comes out in more pieces than it has lines. */
  lemma LongLineBreaks(start: Bytes, line: Bytes, tail: Bytes)
    requires Rest(start) == "" && '\n' !in line && |line| > MAX_TOKEN
    ensures |Flushed(Streamed([start + line, tail]))| > |AllLines(start + line + tail)|
  {
    hide Lines, Rest, Pieces, Leftover, NewlineIn, AllLines, Written, Flushed;
    TwoWrites(start + line, tail);
    FirstWrite(start, line);
    LeftoverPart(line);
    PiecesCount(line);
    SecondWrite(Written(Progress([], ""), start + line), tail);
    SplitLines(Leftover(line), tail);
    SplitLines(line, tail);
    AllLinesMore(start, line + tail);
    assert start + line + tail == start + (line + tail) && "" + (line + tail) == line + tail;
  }

  lemma LaterLines(a: Bytes, b: Bytes)
    requires '\n' !in a
    ensures AllLines(a + ['\n'] + b) == [a] + AllLines(b)
  {
    OneLine(a, b);
    hide Lines, Rest;
  }

  lemma {:induction false} LineStart(s: Bytes, n: nat) returns (start: Bytes, tail: Bytes)
    requires n < |AllLines(s)|
    ensures s == start + AllLines(s)[n] + tail && Rest(start) == "" && '\n' !in AllLines(s)[n]
    decreases |s|
  {
    hide Lines, NewlineIn, AllLines, Rest;
    NewlineIsFirst(s);
    var i := NewlineIn(s);
    NoNewline("");
    if i < 0 {
      OnlyLine(s, n);
      start, tail := "", "";
      assert s == "" + s + "";
    } else {
      var a, b := s[..i], s[i + 1..];
      LaterLines(a, b);
      if n == 0 {
        start, tail := "", ['\n'] + b;
        assert s == "" + a + tail;
      } else {
        var before;
        before, tail := LineStart(b, n - 1);
        OneLine(a, before);
        start := a + ['\n'] + before;
        Glue(a + ['\n'], before, AllLines(b)[n - 1], tail);
      }
    }
  }

  lemma OnlyLine(s: Bytes, n: nat)
    requires '\n' !in s && n < |AllLines(s)|
    ensures AllLines(s)[n] == s
  {
    NoNewline(s);
    hide Lines, Rest;
  }

  lemma Glue(a: Bytes, b: Bytes, c: Bytes, d: Bytes)
    ensures ((a + b) + c) + d == a + (b + (c + d))
    ensures a + (b + c + d) == a + b + c + d
  {
  }

  ghost predicate AlwaysWhole(s: Bytes)
  {
    forall chunks | Concat(chunks) == s :: Emitted(Flushed(Streamed(chunks))) == Emitted(AllLines(s))
  }

  lemma ShortLinesAreWhole(chunks: seq<Bytes>)
    requires ShortLines(Concat(chunks))
    ensures Flushed(Streamed(chunks)) == AllLines(Concat(chunks))
  {
    ShortLinesStream(chunks);
    hide Lines, Rest, Streamed, ShortLines, Concat;
  }

  lemma LongLineIsBroken(s: Bytes, n: nat) returns (chunks: seq<Bytes>)
    requires n < |AllLines(s)| && |AllLines(s)[n]| > MAX_TOKEN
    ensures Concat(chunks) == s && |Flushed(Streamed(chunks))| > |AllLines(s)|
  {
    hide Streamed, Flushed, AllLines, Rest, Concat;
    var start, tail := LineStart(s, n);
    LongLineBreaks(start, AllLines(s)[n], tail);
    TwoWrites(start + AllLines(s)[n], tail);
    chunks := [start + AllLines(s)[n], tail];
  }

  /** However the stream is cut into writes the events are its lines, exactly when no line is longer
      than a token. */
  lemma WholeExactlyForShortLines(s: Bytes)
    ensures AlwaysWhole(s) <==> ShortLines(s)
  {
    hide Emitted, Streamed, Flushed, AllLines, Concat;
    if ShortLines(s) {
      forall chunks | Concat(chunks) == s
        ensures Flushed(Streamed(chunks)) == AllLines(s)
      {
        ShortLinesAreWhole(chunks);
      }
    } else {
      var n :| 0 <= n < |AllLines(s)| && |AllLines(s)[n]| > MAX_TOKEN;
      var chunks := LongLineIsBroken(s, n);
      assert |Emitted(Flushed(Streamed(chunks)))| != |Emitted(AllLines(s))|;
    }
  }

  // ---------------------------------------------------------------- no byte is lost

  function WithoutNewlines(s: Bytes): Bytes
    decreases |s|
  {
    if s == "" then ""
    else if s[|s| - 1] == '\n' then WithoutNewlines(s[..|s| - 1])
    else WithoutNewlines(s[..|s| - 1]) + [s[|s| - 1]]
  }

  lemma {:induction false} StripConcat(a: Bytes, b: Bytes)
    ensures WithoutNewlines(a + b) == WithoutNewlines(a) + WithoutNewlines(b)
    decreases |b|
  {
    if b == "" {
      assert a + b == a;
    } else {
      assert (a + b)[..|a + b| - 1] == a + b[..|b| - 1];
      StripConcat(a, b[..|b| - 1]);
    }
  }

  lemma {:induction false} StripNothing(s: Bytes)
    requires '\n' !in s
    ensures WithoutNewlines(s) == s
    decreases |s|
  {
    if s != "" {
      StripNothing(s[..|s| - 1]);
      assert s == s[..|s| - 1] + [s[|s| - 1]];
    }
  }

  lemma {:induction false} ConcatConcat(a: seq<Bytes>, b: seq<Bytes>)
    ensures Concat(a + b) == Concat(a) + Concat(b)
    decreases |b|
  {
    if b == [] {
      assert a + b == a;
    } else {
      var last := b[|b| - 1];
      assert (a + b)[..|a + b| - 1] == a + b[..|b| - 1] && (a + b)[|a + b| - 1] == last;
      ConcatConcat(a, b[..|b| - 1]);
      Associate(Concat(a), Concat(b[..|b| - 1]), last);
    }
  }

  lemma ConcatOne(a: Bytes)
    ensures Concat([a]) == a
  {
    assert [a][..0] == [];
  }

  lemma {:induction false} LinesKeepBytes(s: Bytes)
    ensures Concat(Lines(s)) + Rest(s) == WithoutNewlines(s)
    decreases |s|
  {
    hide Lines, Rest, Concat, WithoutNewlines, NewlineIn;
    NewlineIsFirst(s);
    var i := NewlineIn(s);
    if i < 0 {
      NoNewline(s);
      StripNothing(s);
      ConcatNone(s);
    } else {
      var a, b := s[..i], s[i + 1..];
      OneLine(a, b);
      LinesKeepBytes(b);
      ConcatConcat([a], Lines(b));
      ConcatOne(a);
      StripLine(a, b);
      assert (a + Concat(Lines(b))) + Rest(b) == a + (Concat(Lines(b)) + Rest(b));
    }
  }

  lemma ConcatNone(s: Bytes)
    ensures Concat([]) + s == s
  {
  }

  lemma StripLine(a: Bytes, b: Bytes)
    requires '\n' !in a
    ensures WithoutNewlines(a + ['\n'] + b) == a + WithoutNewlines(b)
  {
    StripConcat(a + ['\n'], b);
    StripConcat(a, ['\n']);
    StripNothing(a);
    OnlyNewline();
    hide WithoutNewlines;
    assert a + "" == a;
  }

  lemma OnlyNewline()
    ensures WithoutNewlines(['\n']) == ""
  {
    assert ['\n'][..0] == "";
  }

  lemma {:induction false} PiecesKeepBytes(s: Bytes)
    ensures Concat(Pieces(s)) + Leftover(s) == s
    decreases |s|
  {
    if |s| > MAX_TOKEN {
      var piece, after := s[..MAX_TOKEN], s[MAX_TOKEN..];
      PiecesKeepBytes(after);
      ConcatConcat([piece], Pieces(after));
      ConcatOne(piece);
      hide Concat;
      assert (piece + Concat(Pieces(after))) + Leftover(after) == piece + (Concat(Pieces(after)) + Leftover(after));
      assert s == piece + after;
    } else {
      assert Concat([]) == "";
    }
  }

  /** Whatever the line lengths and the writes, the pieces hold every byte but the newlines, in order. */
  lemma {:induction false} StreamKeepsBytes(chunks: seq<Bytes>)
    ensures Concat(Streamed(chunks).pieces) + Streamed(chunks).pending == WithoutNewlines(Concat(chunks))
    decreases |chunks|
  {
    if chunks != [] {
      hide Written, WithoutNewlines, Lines, Rest;
      var before, last := chunks[..|chunks| - 1], chunks[|chunks| - 1];
      assert Concat(chunks) == Concat(before) + last && Streamed(chunks) == Written(Streamed(before), last);
      hide Concat, Streamed;
      StreamKeepsBytes(before);
      BufferIsBounded(before);
      StripConcat(Concat(before), last);
      var p := Streamed(before);
      WriteKeepsBytes(p, last);
      Associate(Concat(p.pieces), p.pending, WithoutNewlines(last));
    }
  }

  lemma Associate(a: Bytes, b: Bytes, c: Bytes)
    ensures a + (b + c) == (a + b) + c
  {
  }

  /** The same for everything emitted until the end. */
  lemma NoByteIsLost(chunks: seq<Bytes>)
    ensures Concat(Flushed(Streamed(chunks))) == WithoutNewlines(Concat(chunks))
  {
    hide Written, WithoutNewlines, Streamed, Concat;
    StreamKeepsBytes(chunks);
    var end := Streamed(chunks);
    ConcatConcat(end.pieces, [end.pending]);
    ConcatOne(end.pending);
    if end.pending == "" {
      assert Concat(end.pieces) + "" == Concat(end.pieces);
    }
  }

  predicate EndsInReturn(piece: Bytes)
  {
    piece != "" && piece[|piece| - 1] == '\r'
  }

  /** How many pieces lose a return when they are emitted. */
  function Returns(pieces: seq<Bytes>): nat
    decreases |pieces|
  {
    if pieces == [] then 0
    else Returns(pieces[..|pieces| - 1]) + if EndsInReturn(pieces[|pieces| - 1]) then 1 else 0
  }

  lemma {:induction false} EmittedLength(pieces: seq<Bytes>)
    ensures |Concat(Emitted(pieces))| + Returns(pieces) == |Concat(pieces)|
    decreases |pieces|
  {
    if pieces != [] {
      var rest, last := pieces[..|pieces| - 1], pieces[|pieces| - 1];
      EmittedLength(rest);
      assert pieces == rest + [last];
      EmittedConcat(rest, [last]);
      assert Emitted([last]) == [TrimReturn(last)];
      assert Emitted(pieces)[..|pieces| - 1] == Emitted(rest);
    }
  }

  lemma {:induction false} NoReturns(pieces: seq<Bytes>)
    ensures Returns(pieces) == 0 <==> forall i | 0 <= i < |pieces| :: !EndsInReturn(pieces[i])
    decreases |pieces|
  {
    hide EndsInReturn;
    if pieces != [] {
      NoReturns(pieces[..|pieces| - 1]);
    }
  }

  lemma UntrimmedIsSame(pieces: seq<Bytes>)
    requires forall i | 0 <= i < |pieces| :: !EndsInReturn(pieces[i])
    ensures Emitted(pieces) == pieces
  {
  }

  /** What emitting loses: each event is its piece without one return at the end, also where a long
      line was cut; so the events hold every byte but the newlines exactly when no piece ends in a
      return, and otherwise lack one return for each that does. */
  lemma EmittedLosesReturnsExactly(chunks: seq<Bytes>)
    ensures
      var pieces := Flushed(Streamed(chunks));
      var events := Emitted(pieces);
      var text := WithoutNewlines(Concat(chunks));
      && (forall i | 0 <= i < |pieces| :: pieces[i] == events[i] + if EndsInReturn(pieces[i]) then ['\r'] else "")
      && Concat(pieces) == text && |Concat(events)| + Returns(pieces) == |text|
      && (Concat(events) == text <==> forall i | 0 <= i < |pieces| :: !EndsInReturn(pieces[i]))
  {
    NoByteIsLost(chunks);
    hide Flushed, Streamed, WithoutNewlines, Concat;
    var pieces := Flushed(Streamed(chunks));
    EmittedLength(pieces);
    NoReturns(pieces);
    if forall i | 0 <= i < |pieces| :: !EndsInReturn(pieces[i]) {
      UntrimmedIsSame(pieces);
    }
  }

  lemma WriteKeepsBytes(p: Progress, data: Bytes)
    requires '\n' !in p.pending
    ensures Concat(Written(p, data).pieces) + Written(p, data).pending
      == Concat(p.pieces) + (p.pending + WithoutNewlines(data))
  {
    var s := p.pending + data;
    StripConcat(p.pending, data);
    StripNothing(p.pending);
    LinesKeepBytes(s);
    PiecesKeepBytes(Rest(s));
    hide Lines, Rest, Pieces, Leftover, Concat, WithoutNewlines;
    ConcatConcat(p.pieces + Lines(s), Pieces(Rest(s)));
    ConcatConcat(p.pieces, Lines(s));
    Glue(Concat(p.pieces), Concat(Lines(s)), Concat(Pieces(Rest(s))), Leftover(Rest(s)));
  }
}
