/** The lines of a byte stream, cut as a whole. A character stands for a byte. */
module LineStreams {

  type Bytes = string

  /** Where the first newline is, -1 when there is none. */
  function NewlineIn(s: Bytes): (i: int)
    ensures -1 <= i < |s|
  {
    if s == "" then -1
    else if s[0] == '\n' then 0
    else
      var i := NewlineIn(s[1..]);
      if i < 0 then -1 else i + 1
  }

  lemma {:induction false} NewlineIsFirst(s: Bytes)
    ensures
      var i := NewlineIn(s);
      if i < 0 then '\n' !in s else '\n' !in s[..i] && s == s[..i] + ['\n'] + s[i + 1..]
  {
    if s != "" && s[0] != '\n' {
      NewlineIsFirst(s[1..]);
      var i := NewlineIn(s);
      if i < 0 {
        assert s == [s[0]] + s[1..];
      } else {
        assert s[..i] == [s[0]] + s[1..][..i - 1];
        assert s[i + 1..] == s[1..][i..];
      }
    }
  }

  /** The terminated lines, without their newlines. */
  function Lines(s: Bytes): seq<Bytes>
    decreases |s|
  {
    var i := NewlineIn(s);
    if i < 0 then [] else [s[..i]] + Lines(s[i + 1..])
  }

  /** What follows the last newline. */
  function Rest(s: Bytes): (r: Bytes)
    ensures |r| <= |s|
    decreases |s|
  {
    var i := NewlineIn(s);
    if i < 0 then s else Rest(s[i + 1..])
  }

  /** The lines as a reader of the whole stream counts them: an empty unterminated one is none. */
  function AllLines(s: Bytes): seq<Bytes>
  {
    if Rest(s) == "" then Lines(s) else Lines(s) + [Rest(s)]
  }

  function TrimReturn(line: Bytes): Bytes
  {
    if line != "" && line[|line| - 1] == '\r' then line[..|line| - 1] else line
  }

  lemma {:induction false} FirstNewline(a: Bytes, b: Bytes)
    requires '\n' !in a
    ensures NewlineIn(a + ['\n'] + b) == |a|
  {
    var s := a + ['\n'] + b;
    if a != "" {
      assert s[0] == a[0] && s[1..] == a[1..] + ['\n'] + b;
      FirstNewline(a[1..], b);
    }
  }

  lemma NoNewline(s: Bytes)
    requires '\n' !in s
    ensures Lines(s) == [] && Rest(s) == s
  {
    NewlineIsFirst(s);
  }

  lemma OneLine(a: Bytes, b: Bytes)
    requires '\n' !in a
    ensures Lines(a + ['\n'] + b) == [a] + Lines(b) && Rest(a + ['\n'] + b) == Rest(b)
  {
    FirstNewline(a, b);
    var s := a + ['\n'] + b;
    assert s[..|a|] == a && s[|a| + 1..] == b;
  }

  lemma {:induction false} RestHasNoNewline(s: Bytes)
    ensures '\n' !in Rest(s)
    decreases |s|
  {
    NewlineIsFirst(s);
    if NewlineIn(s) >= 0 {
      RestHasNoNewline(s[NewlineIn(s) + 1..]);
    }
  }

  /** More bytes only continue the unfinished line: the lines already there stay as they are. */
  lemma {:induction false} MoreBytes(s: Bytes, t: Bytes)
    ensures Lines(s + t) == Lines(s) + Lines(Rest(s) + t)
    ensures Rest(s + t) == Rest(Rest(s) + t)
    decreases |s|
  {
    hide Lines, Rest, NewlineIn;
    NewlineIsFirst(s);
    var i := NewlineIn(s);
    if i < 0 {
      NoNewline(s);
      assert [] + Lines(s + t) == Lines(s + t);
    } else {
      var a, b := s[..i], s[i + 1..];
      assert s + t == a + ['\n'] + (b + t);
      OneLine(a, b);
      OneLine(a, b + t);
      MoreBytes(b, t);
      assert [a] + (Lines(b) + Lines(Rest(b) + t)) == ([a] + Lines(b)) + Lines(Rest(b) + t);
    }
  }

  lemma MorePart(s: Bytes, part: Bytes)
    requires '\n' !in part
    ensures Lines(s + part) == Lines(s) && Rest(s + part) == Rest(s) + part
  {
    MoreBytes(s, part);
    RestHasNoNewline(s);
    NoNewline(Rest(s) + part);
  }

  lemma MoreNewline(s: Bytes)
    ensures Lines(s + ['\n']) == Lines(s) + [Rest(s)] && Rest(s + ['\n']) == ""
  {
    hide Lines, Rest, NewlineIn;
    MoreBytes(s, ['\n']);
    RestHasNoNewline(s);
    OneLine(Rest(s), "");
    NoNewline("");
    assert Rest(s) + ['\n'] + "" == Rest(s) + ['\n'];
    assert [Rest(s)] + [] == [Rest(s)];
  }

  lemma Regroup(a: Bytes, b: Bytes, c: Bytes, d: Bytes)
    ensures a + (b + c + d) == (a + b + c) + d
  {
  }

  function Concat(chunks: seq<Bytes>): Bytes
    decreases |chunks|
  {
    if chunks == [] then "" else Concat(chunks[..|chunks| - 1]) + chunks[|chunks| - 1]
  }
}
