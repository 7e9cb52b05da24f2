/** For which texts the line splitter of ansible-playbook output (internal/ansible/runner.go:361-392)
    keeps every byte, however the text is cut into writes. */
module RunnerReturns {
  import opened LineStreams
  import opened RunnerOutput

  ghost predicate NoReturns(pieces: seq<Bytes>)
  {
    forall i | 0 <= i < |pieces| :: !EndsInReturn(pieces[i])
  }

  /** Neither the line ends in a return nor any full token that can be cut off it. */
  ghost predicate KeepsReturns(line: Bytes)
  {
    !EndsInReturn(line) && NoReturns(Pieces(line))
  }

  /** The tokens that can be cut off a line: those that leave something of it. */
  lemma {:induction false} TokenAt(line: Bytes, i: nat)
    ensures i < |Pieces(line)| <==> (i + 1) * MAX_TOKEN < |line|
    ensures i < |Pieces(line)| ==> Pieces(line)[i] == line[i * MAX_TOKEN..(i + 1) * MAX_TOKEN]
    decreases |line|
  {
    if |line| > MAX_TOKEN {
      var rest := line[MAX_TOKEN..];
      if i > 0 {
        TokenAt(rest, i - 1);
        assert (i + 1) * MAX_TOKEN == i * MAX_TOKEN + MAX_TOKEN;
        assert i < |Pieces(line)| ==> Pieces(line)[i] == Pieces(rest)[i - 1];
      }
    }
  }

  /** The line does not end in a return and has none just before a multiple of the token size. */
  ghost predicate NoReturnAtCuts(line: Bytes)
  {
    !EndsInReturn(line) && forall k: nat :: 0 < k && k * 4_194_304 < |line| ==> line[k * 4_194_304 - 1] != '\r'
  }

  lemma KeepsReturnsExactly(line: Bytes)
    ensures KeepsReturns(line) <==> NoReturnAtCuts(line)
  {
    hide Pieces;
    if KeepsReturns(line) {
      forall k: nat | 0 < k && k * MAX_TOKEN < |line|
        ensures line[k * MAX_TOKEN - 1] != '\r'
      {
        TokenAt(line, k - 1);
        assert !EndsInReturn(Pieces(line)[k - 1]);
      }
    } else if !EndsInReturn(line) {
      var i :| 0 <= i < |Pieces(line)| && EndsInReturn(Pieces(line)[i]);
      TokenAt(line, i);
      var k: nat := i + 1;
      assert 0 < k && k * MAX_TOKEN < |line| && line[k * MAX_TOKEN - 1] == '\r';
    }
  }

  // ---------------------------------------------------------------- what is left of a line

  /** q is what stays of r once some full tokens were cut off. */
  ghost predicate Remainder(q: Bytes, r: Bytes)
    decreases |r|
  {
    q == r || (|r| > MAX_TOKEN && Remainder(q, r[MAX_TOKEN..]))
  }

  lemma {:induction false} LeftoverRemains(r: Bytes)
    ensures Remainder(Leftover(r), r)
    decreases |r|
  {
    if |r| > MAX_TOKEN {
      LeftoverRemains(r[MAX_TOKEN..]);
    }
  }

  lemma {:induction false} RemainderMore(q: Bytes, r: Bytes, d: Bytes)
    requires Remainder(q, r)
    ensures Remainder(q + d, r + d)
    decreases |r|
  {
    if q != r {
      RemainderMore(q, r[MAX_TOKEN..], d);
      assert (r + d)[MAX_TOKEN..] == r[MAX_TOKEN..] + d;
    }
  }

  lemma {:induction false} RemainderTransitive(p: Bytes, q: Bytes, r: Bytes)
    requires Remainder(p, q) && Remainder(q, r)
    ensures Remainder(p, r)
    decreases |r|
  {
    if q != r {
      RemainderTransitive(p, q, r[MAX_TOKEN..]);
    }
  }

  lemma {:induction false} RemainderEnds(q: Bytes, r: Bytes)
    requires Remainder(q, r)
    ensures (r == "" <==> q == "") && (EndsInReturn(q) <==> EndsInReturn(r))
    decreases |r|
  {
    if q != r {
      RemainderEnds(q, r[MAX_TOKEN..]);
    }
  }

  lemma {:induction false} RemainderPieces(q: Bytes, r: Bytes)
    requires Remainder(q, r) && NoReturns(Pieces(r))
    ensures NoReturns(Pieces(q))
    decreases |r|
  {
    if q != r {
      assert Pieces(r) == [r[..MAX_TOKEN]] + Pieces(r[MAX_TOKEN..]);
      assert forall i | 0 <= i < |Pieces(r[MAX_TOKEN..])| :: Pieces(r[MAX_TOKEN..])[i] == Pieces(r)[i + 1];
      RemainderPieces(q, r[MAX_TOKEN..]);
    }
  }

  lemma {:induction false} PrefixPieces(a: Bytes, b: Bytes)
    requires NoReturns(Pieces(a + b))
    ensures NoReturns(Pieces(a))
    decreases |a|
  {
    if |a| > MAX_TOKEN {
      var rest := a[MAX_TOKEN..];
      assert (a + b)[MAX_TOKEN..] == rest + b && (a + b)[..MAX_TOKEN] == a[..MAX_TOKEN];
      var more := Pieces(a + b);
      assert more == [a[..MAX_TOKEN]] + Pieces(rest + b);
      assert forall i | 0 <= i < |Pieces(rest + b)| :: Pieces(rest + b)[i] == more[i + 1];
      PrefixPieces(rest, b);
      assert !EndsInReturn(more[0]);
    }
  }

  // ---------------------------------------------------------------- no piece ends in a return

  /** Every finished line keeps its returns, and so do the tokens of the unfinished one. */
  ghost predicate Fine(s: Bytes)
  {
    (forall i | 0 <= i < |Lines(s)| :: KeepsReturns(Lines(s)[i])) && NoReturns(Pieces(Rest(s)))
  }

  lemma {:induction false} FinePrefix(s: Bytes, t: Bytes)
    requires Fine(s + t)
    ensures Fine(s)
  {
    MoreBytes(s, t);
    RestHasNoNewline(s);
    NewlineIsFirst(t);
    var r, i := Rest(s), NewlineIn(t);
    hide Lines, Rest, NewlineIn, KeepsReturns, Pieces, NoReturns;
    assert forall k | 0 <= k < |Lines(s)| :: Lines(s + t)[k] == Lines(s)[k];
    if i < 0 {
      MorePart(s, t);
      PrefixPieces(r, t);
    } else {
      assert r + t == (r + t[..i]) + ['\n'] + t[i + 1..];
      OneLine(r + t[..i], t[i + 1..]);
      assert Lines(s + t)[|Lines(s)|] == r + t[..i];
      KeptTokens(r + t[..i]);
      PrefixPieces(r, t[..i]);
    }
  }

  lemma KeptTokens(line: Bytes)
    requires KeepsReturns(line)
    ensures NoReturns(Pieces(line)) && !EndsInReturn(line)
  {
  }

  ghost predicate Clean(p: Progress, s: Bytes)
  {
    NoReturns(p.pieces) && Remainder(p.pending, Rest(s))
  }

  /** One more write of a text that stays fine. */
  lemma FineWrite(p: Progress, s: Bytes, data: Bytes)
    requires Clean(p, s) && Fine(s + data)
    ensures Clean(Written(p, data), s + data)
  {
    RestHasNoNewline(s);
    RemainderHasNoNewline(p.pending, Rest(s));
    NewlineIsFirst(data);
    var i := NewlineIn(data);
    hide Lines, Rest, NewlineIn, Clean, Fine, Written;
    if i < 0 {
      FinePart(p, s, data);
    } else {
      FineLine(p, s, data[..i], data[i + 1..]);
      assert data == data[..i] + ['\n'] + data[i + 1..];
    }
  }

  lemma FinePart(p: Progress, s: Bytes, data: Bytes)
    requires Clean(p, s) && Fine(s + data) && '\n' !in p.pending && '\n' !in data
    ensures Clean(Written(p, data), s + data)
  {
    hide Lines, Rest, Pieces, NoReturns, Leftover, Remainder, KeepsReturns;
    NoNewline(p.pending + data);
    MorePart(s, data);
    RemainderMore(p.pending, Rest(s), data);
    NoReturnsNone();
    FineTail(p.pieces, [], p.pending + data, Rest(s) + data);
  }

  lemma NoReturnsNone()
    ensures NoReturns([])
  {
  }

  lemma FineLine(p: Progress, s: Bytes, a: Bytes, b: Bytes)
    requires Clean(p, s) && Fine(s + (a + ['\n'] + b)) && '\n' !in p.pending && '\n' !in a && '\n' !in Rest(s)
    ensures Clean(Written(p, a + ['\n'] + b), s + (a + ['\n'] + b))
  {
    var q, r := p.pending, Rest(s);
    hide Lines, Rest, Pieces, NoReturns, Leftover, Remainder, KeepsReturns, Fine, EndsInReturn;
    var data := a + ['\n'] + b;
    MoreBytes(s, data);
    assert q + data == (q + a) + ['\n'] + b && r + data == (r + a) + ['\n'] + b;
    OneLine(q + a, b);
    OneLine(r + a, b);
    RemainderMore(q, r, a);
    RemainderEnds(q + a, r + a);
    FineMiddle(s + data, Lines(s), r + a, Lines(b));
    NoReturnsCons(q + a, Lines(b));
    RestRemains(Rest(b));
    FineTail(p.pieces, [q + a] + Lines(b), Rest(b), Rest(b));
  }

  lemma FineMiddle(s: Bytes, before: seq<Bytes>, line: Bytes, after: seq<Bytes>)
    requires Fine(s) && Lines(s) == before + ([line] + after)
    ensures !EndsInReturn(line) && NoReturns(after) && NoReturns(Pieces(Rest(s)))
  {
    hide Lines, Rest, Pieces;
    assert Lines(s)[|before|] == line;
    assert Lines(s)[|before| + 1..] == after;
    KeptTokens(line);
    FineLines(s, |before| + 1, after);
  }

  lemma RestRemains(r: Bytes)
    ensures Remainder(r, r)
  {
  }

  lemma {:induction false} RemainderHasNoNewline(q: Bytes, r: Bytes)
    requires Remainder(q, r) && '\n' !in r
    ensures '\n' !in q
    decreases |r|
  {
    if q != r {
      RemainderHasNoNewline(q, r[MAX_TOKEN..]);
    }
  }

  lemma FineLines(s: Bytes, n: nat, more: seq<Bytes>)
    requires Fine(s) && n <= |Lines(s)| && more == Lines(s)[n..]
    ensures NoReturns(more)
  {
    hide Lines, Rest, Pieces;
    forall i | 0 <= i < |more|
      ensures !EndsInReturn(more[i])
    {
      assert more[i] == Lines(s)[n + i];
      KeptTokens(Lines(s)[n + i]);
    }
  }

  lemma NoReturnsCons(piece: Bytes, more: seq<Bytes>)
    requires !EndsInReturn(piece) && NoReturns(more)
    ensures NoReturns([piece] + more)
  {
  }

  /** Lines without returns, then the tokens and the remainder of an unfinished line. */
  lemma FineTail(pieces: seq<Bytes>, lines: seq<Bytes>, q: Bytes, r: Bytes)
    requires NoReturns(pieces) && NoReturns(lines) && Remainder(q, r) && NoReturns(Pieces(r))
    ensures NoReturns(pieces + lines + Pieces(q)) && Remainder(Leftover(q), r)
  {
    RemainderPieces(q, r);
    LeftoverRemains(q);
    RemainderTransitive(Leftover(q), q, r);
    hide Pieces, Leftover, Remainder, EndsInReturn;
  }

  lemma {:induction false} FineStream(chunks: seq<Bytes>)
    requires Fine(Concat(chunks))
    ensures Clean(Streamed(chunks), Concat(chunks))
    decreases |chunks|
  {
    hide Fine, Written, Rest, Lines;
    if chunks == [] {
      NoNewline("");
    } else {
      var before, last := chunks[..|chunks| - 1], chunks[|chunks| - 1];
      assert Concat(chunks) == Concat(before) + last && Streamed(chunks) == Written(Streamed(before), last);
      hide Concat, Streamed, Clean;
      FinePrefix(Concat(before), last);
      FineStream(before);
      FineWrite(Streamed(before), Concat(before), last);
    }
  }

  // ---------------------------------------------------------------- exactly when every byte is kept

  ghost predicate AlwaysKept(s: Bytes)
  {
    forall chunks | Concat(chunks) == s :: Concat(Emitted(Flushed(Streamed(chunks)))) == WithoutNewlines(s)
  }

  ghost predicate FineText(s: Bytes)
  {
    forall i | 0 <= i < |AllLines(s)| :: KeepsReturns(AllLines(s)[i])
  }

  lemma FineTextIsFine(s: Bytes)
    requires FineText(s)
    ensures Fine(s) && !EndsInReturn(Rest(s))
  {
    hide Lines, Rest, KeepsReturns;
    assert forall i | 0 <= i < |Lines(s)| :: AllLines(s)[i] == Lines(s)[i];
    if Rest(s) != "" {
      assert AllLines(s)[|Lines(s)|] == Rest(s);
      KeptTokens(Rest(s));
    }
  }

  lemma FineKeepsEverything(chunks: seq<Bytes>)
    requires FineText(Concat(chunks))
    ensures NoReturns(Flushed(Streamed(chunks)))
  {
    var s := Concat(chunks);
    hide FineText, Fine, Streamed, Concat, Rest, Remainder;
    FineTextIsFine(s);
    FineStream(chunks);
    RemainderEnds(Streamed(chunks).pending, Rest(s));
  }

  lemma PiecesStay(p: Progress, data: Bytes)
    ensures p.pieces <= Written(p, data).pieces <= Flushed(Written(p, data))
  {
    hide Lines, Rest, Pieces, Leftover;
  }

  lemma ReturnStays(pieces: seq<Bytes>, all: seq<Bytes>)
    requires !NoReturns(pieces) && pieces <= all
    ensures !NoReturns(all)
  {
    hide EndsInReturn;
    var i :| 0 <= i < |pieces| && EndsInReturn(pieces[i]);
    assert all[i] == pieces[i];
  }

  /** A line with a return at a token's end, written by itself, loses it. */
  lemma CutLosesReturn(start: Bytes, line: Bytes, tail: Bytes)
    requires Rest(start) == "" && '\n' !in line && !NoReturns(Pieces(line))
    ensures !NoReturns(Flushed(Streamed([start + line, tail])))
  {
    hide Lines, Rest, Pieces, Leftover, NoReturns, Written, Flushed;
    TwoWrites(start + line, tail);
    FirstWrite(start, line);
    var p := Written(Progress([], ""), start + line);
    PiecesStay(p, tail);
    ReturnsBehind(Lines(start), Pieces(line));
    ReturnStays(p.pieces, Flushed(Written(p, tail)));
  }

  lemma ReturnsBehind(a: seq<Bytes>, b: seq<Bytes>)
    requires !NoReturns(b)
    ensures !NoReturns(a + b)
  {
    hide EndsInReturn;
    var i :| 0 <= i < |b| && EndsInReturn(b[i]);
    assert (a + b)[|a| + i] == b[i];
  }

  /** A line that ends in a return loses it when the text is written at once. */
  lemma EndLosesReturn(s: Bytes, n: nat)
    requires n < |AllLines(s)| && EndsInReturn(AllLines(s)[n])
    ensures Concat([s]) == s && !NoReturns(Flushed(Streamed([s])))
  {
    OneWrite(s);
    var r := Rest(s);
    var p := Progress(Lines(s) + Pieces(r), Leftover(r));
    LeftoverRemains(r);
    RemainderEnds(Leftover(r), r);
    hide Lines, Rest, Pieces, Leftover, Remainder, EndsInReturn, Concat, Streamed;
    if n < |Lines(s)| {
      assert Flushed(p)[n] == Lines(s)[n] == AllLines(s)[n];
    } else {
      assert AllLines(s)[n] == r;
      assert Flushed(p)[|p.pieces|] == Leftover(r);
    }
  }

  lemma OneWrite(s: Bytes)
    ensures Concat([s]) == s && Streamed([s]) == Progress(Lines(s) + Pieces(Rest(s)), Leftover(Rest(s)))
  {
    hide Lines, Rest, Pieces, Leftover;
    assert [s][..0] == [];
    assert Streamed([]) == Progress([], "") && Concat([]) == "" && "" + s == s;
    assert [] + Lines(s) == Lines(s);
  }

  lemma SomeWritingLoses(s: Bytes, n: nat) returns (chunks: seq<Bytes>)
    requires n < |AllLines(s)| && !KeepsReturns(AllLines(s)[n])
    ensures Concat(chunks) == s && !NoReturns(Flushed(Streamed(chunks)))
  {
    var line := AllLines(s)[n];
    hide Streamed, Flushed, AllLines, Rest, Concat, Pieces, NoReturns;
    if EndsInReturn(line) {
      EndLosesReturn(s, n);
      chunks := [s];
    } else {
      var start, tail := LineStart(s, n);
      CutLosesReturn(start, line, tail);
      TwoWrites(start + line, tail);
      chunks := [start + line, tail];
    }
  }

  /** Every way of writing a text emits all of its bytes but the newlines, if and only if none of its
      lines ends in a return or has one just before a multiple of the token size that is inside it. */
  lemma KeptExactlyWithoutReturns(s: Bytes)
    ensures AlwaysKept(s) <==> forall i | 0 <= i < |AllLines(s)| :: NoReturnAtCuts(AllLines(s)[i])
  {
    hide Emitted, Streamed, Flushed, AllLines, Concat, WithoutNewlines, KeepsReturns, EndsInReturn, NoReturnAtCuts;
    forall i | 0 <= i < |AllLines(s)|
      ensures KeepsReturns(AllLines(s)[i]) <==> NoReturnAtCuts(AllLines(s)[i])
    {
      KeepsReturnsExactly(AllLines(s)[i]);
    }
    if FineText(s) {
      forall chunks | Concat(chunks) == s
        ensures Concat(Emitted(Flushed(Streamed(chunks)))) == WithoutNewlines(s)
      {
        FineKeepsEverything(chunks);
        EmittedLosesReturnsExactly(chunks);
      }
    } else {
      var n :| 0 <= n < |AllLines(s)| && !KeepsReturns(AllLines(s)[n]);
      var chunks := SomeWritingLoses(s, n);
      EmittedLosesReturnsExactly(chunks);
      assert Concat(Emitted(Flushed(Streamed(chunks)))) != WithoutNewlines(s);
    }
  }
}
