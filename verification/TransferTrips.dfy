/** What the answers of the transfer store mean to its callers (internal/mcpserver/transfers.go:123-341):
    why a call is refused, how long a transfer can be used, and a whole upload from its announcement to
    the bytes a reader gets. */
module TransferTrips {
  import opened FileNames
  import opened Transfers
  import opened TransferLaws
  import opened TransferNames

  // ---------------------------------------------------------------- digests

  const DIGITS := "0123456789abcdef"

  function Hex(bytes: seq<byte>): string
    decreases |bytes|
  {
    if bytes == [] then ""
    else
      var last := bytes[|bytes| - 1] as int;
      Hex(bytes[..|bytes| - 1]) + [DIGITS[last / 16], DIGITS[last % 16]]
  }

  predicate HexDigit(c: char)
  {
    '0' <= c <= '9' || 'a' <= c <= 'f'
  }

  function DigitValue(c: char): (v: int)
    requires HexDigit(c)
    ensures 0 <= v < 16 && DIGITS[v] == c
  {
    if c <= '9' then DigitOf(c) else LetterOf(c)
  }

  function DigitOf(c: char): (v: int)
    requires '0' <= c <= '9'
    ensures 0 <= v < 10 && DIGITS[v] == c
  {
    var v := c as int - '0' as int;
    assert v == 0 || v == 1 || v == 2 || v == 3 || v == 4 || v == 5 || v == 6 || v == 7 || v == 8 || v == 9;
    v
  }

  function LetterOf(c: char): (v: int)
    requires 'a' <= c <= 'f'
    ensures 10 <= v < 16 && DIGITS[v] == c
  {
    var v := c as int - 'a' as int + 10;
    assert v == 10 || v == 11 || v == 12 || v == 13 || v == 14 || v == 15;
    v
  }

  lemma DigitsAreHex(v: int)
    requires 0 <= v < 16
    ensures HexDigit(DIGITS[v])
  {
    assert v == 0 || v == 1 || v == 2 || v == 3 || v == 4 || v == 5 || v == 6 || v == 7 || v == 8 || v == 9
      || v == 10 || v == 11 || v == 12 || v == 13 || v == 14 || v == 15;
  }

  lemma {:induction false} HexIsHex(bytes: seq<byte>)
    ensures |Hex(bytes)| == 2 * |bytes| && forall c | c in Hex(bytes) :: HexDigit(c)
    decreases |bytes|
  {
    if bytes != [] {
      HexIsHex(bytes[..|bytes| - 1]);
      var last := bytes[|bytes| - 1] as int;
      DigitsAreHex(last / 16);
      DigitsAreHex(last % 16);
    }
  }

  lemma {:induction false} HexReadsBack(text: string, n: nat) returns (bytes: seq<byte>)
    requires |text| == 2 * n && forall c | c in text :: HexDigit(c)
    ensures |bytes| == n && Hex(bytes) == text
    decreases n
  {
    hide HexDigit, DigitValue;
    if n == 0 {
      bytes := [];
    } else {
      var front, high, low := text[..2 * n - 2], text[2 * n - 2], text[2 * n - 1];
      assert high in text && low in text;
      var less := HexReadsBack(front, n - 1);
      var b := TwoDigits(high, low);
      bytes := less + [b];
      assert bytes[..|bytes| - 1] == less && text == front + [high, low];
    }
  }

  lemma Nibbles(h: nat, l: nat)
    requires h < 16 && l < 16
    ensures 16 * h + l < 256 && (16 * h + l) / 16 == h && (16 * h + l) % 16 == l
  {
  }

  lemma TwoDigits(high: char, low: char) returns (b: byte)
    requires HexDigit(high) && HexDigit(low)
    ensures DIGITS[b as int / 16] == high && DIGITS[b as int % 16] == low
  {
    var h, l := DigitValue(high), DigitValue(low);
    hide DigitValue;
    Nibbles(h, l);
    b := (16 * h + l) as byte;
  }

  /** A digest is accepted exactly when it writes 32 bytes in lower-case hexadecimal. */
  lemma DigestsAreThirtyTwoBytes(digest: string)
    ensures LowerHexDigest(digest) <==> exists bytes: seq<byte> :: |bytes| == 32 && Hex(bytes) == digest
  {
    if LowerHexDigest(digest) {
      var bytes := HexReadsBack(digest, 32);
    }
    if bytes: seq<byte> :| |bytes| == 32 && Hex(bytes) == digest {
      HexIsHex(bytes);
    }
  }

  // ---------------------------------------------------------------- announcing an upload

  /** The transfer can be used by this owner: an hour from the moment it was made. */
  ghost predicate UsableFor(s: State, id: string, owner: string, made: int)
  {
    && id in s.files && s.files[id].owner == owner
    && forall who: string, at: int :: Visible(s, who, id, at) <==> who == owner && at < made + 3_600_000_000_000
  }

  ghost predicate NewTransfer(t: Transfer, filename: string, mediaType: string, size: int, sha256: string)
  {
    && t.filename == filename && t.mediaType == mediaType && t.size == size && t.sha256 == sha256
    && Untouched(t)
  }

  predicate Untouched(t: Transfer)
  {
    !t.complete && t.content == [] && t.written == 0 && t.readers == 0
  }

  predicate HasRoom(s: State, size: int)
  {
    0 <= size <= s.maxFile && s.reserved + size <= s.maxTotal && |s.files| < 1024
  }

  predicate Nameable(name: string)
  {
    && name != "" && name != "." && '\\' !in name && '\r' !in name && '\n' !in name && '\0' !in name
    && ('/' !in name || name == "/")
  }

  /** An announced upload is admitted exactly when its name and digest are well formed, the quotas have
      room and its file can be made; it then carries what was asked for, belongs to its owner, and can
      be used for an hour. Otherwise nothing changes and the answer names the first reason. */
  lemma CreateExactly(s: State, owner: string, filename: string, mediaType: string, size: int, sha256: string,
      id: string, now: int, openable: bool)
    ensures
      var a := Create(s, owner, filename, mediaType, size, sha256, id, now, openable);
      if !Nameable(filename) then a == Outcome(s, Refused(BadFilename))
      else if !exists bytes: seq<byte> :: |bytes| == 32 && Hex(bytes) == sha256 then a == Outcome(s, Refused(BadDigest))
      else if !HasRoom(s, size) then a == Outcome(s, Refused(QuotaExceeded))
      else if id in s.files || !openable then a == Outcome(s, Refused(IoError))
      else
        && id in a.state.files && a.reply == Info(a.state.files[id])
        && NewTransfer(a.state.files[id], filename, mediaType, size, sha256) && !a.state.files[id].produced
        && UsableFor(a.state, id, owner, now)
        && a.state.reserved == s.reserved + size && a.state.files == s.files[id := a.state.files[id]]
        && a.state.maxFile == s.maxFile && a.state.maxTotal == s.maxTotal && a.state.pins == s.pins
  {
    AdmittedNamesExactly(filename);
    DigestsAreThirtyTwoBytes(sha256);
    hide SimpleName, LowerHexDigest, Hex, Base;
  }

  /** The allowance of a result is admitted under the same quotas, as an anonymous transfer of the whole
      file limit, for an hour; if its file cannot be opened again it is withdrawn when it can be removed. */
  lemma OutputExactly(s: State, owner: string, id: string, now: int, openable: bool, reopenable: bool, unlinked: bool)
    ensures
      var a := Output(s, owner, id, now, openable, reopenable, unlinked);
      if !HasRoom(s, s.maxFile) then a == Outcome(s, Refused(QuotaExceeded))
      else if id in s.files || !openable then a == Outcome(s, Refused(IoError))
      else if !reopenable && unlinked then a == Outcome(s.(log := s.log - {id}), Refused(IoError))
      else
        && id in a.state.files && a.state.files[id].produced
        && NewTransfer(a.state.files[id], "result.bin", "application/octet-stream", s.maxFile, "")
        && UsableFor(a.state, id, owner, now)
        && a.state.reserved == s.reserved + s.maxFile && a.state.files == s.files[id := a.state.files[id]]
        && a.reply == if reopenable then Info(a.state.files[id]) else Refused(IoError)
  {
    if !HasRoom(s, s.maxFile) || id in s.files || !openable {
      hide Removed, Fresh;
    } else if !reopenable && unlinked {
      OutputWithdrawn(s, owner, id, now, openable);
    } else {
      OutputGranted(s, owner, id, now, reopenable, unlinked);
    }
    hide Output, HasRoom;
  }

  lemma OutputGranted(s: State, owner: string, id: string, now: int, reopenable: bool, unlinked: bool)
    requires HasRoom(s, s.maxFile) && id !in s.files && (reopenable || !unlinked)
    ensures
      var t := Fresh(owner, "result.bin", "application/octet-stream", s.maxFile, "", now, true);
      && Output(s, owner, id, now, true, reopenable, unlinked)
        == Outcome(s.(files := s.files[id := t], reserved := s.reserved + t.size, log := s.log[id := []]),
                   if reopenable then Info(t) else Refused(IoError))
  {
    hide Removed;
  }

  lemma OutputWithdrawn(s: State, owner: string, id: string, now: int, openable: bool)
    requires HasRoom(s, s.maxFile) && id !in s.files && openable
    ensures Output(s, owner, id, now, openable, false, true) == Outcome(s.(log := s.log - {id}), Refused(IoError))
  {
    UndoneWithdrawal(s, Fresh(owner, "result.bin", "application/octet-stream", s.maxFile, "", now, true), id);
    hide Removed, Fresh;
  }

  lemma UndoneWithdrawal(s: State, t: Transfer, id: string)
    requires id !in s.files
    ensures Removed(s.(files := s.files[id := t], reserved := s.reserved + t.size, log := s.log[id := []]), id)
      == s.(log := s.log - {id})
  {
    assert s.files[id := t] - {id} == s.files && s.log[id := []] - {id} == s.log - {id};
  }

  // ---------------------------------------------------------------- why a call is refused

  /** A transfer of this owner that has not expired. */
  predicate Mine(s: State, owner: string, id: string, now: int)
  {
    id in s.files && s.files[id].owner == owner && now < s.files[id].expiresAt
  }

  predicate ChunkFits(v: Transfer, offset: int, data: seq<byte>)
  {
    && !v.complete && 0 <= offset <= v.written
    && 1 <= |data| <= 1_048_576 && offset + |data| <= v.size
  }

  /** A chunk is refused for the first of these reasons that applies; one that lies behind the end must
      repeat what is stored there, one at the end is stored as far as the disk takes it. */
  lemma WriteExactly(s: State, owner: string, id: string, offset: int, data: seq<byte>, now: int, openable: bool,
      stored: nat)
    ensures
      var a := Write(s, owner, id, offset, data, now, openable, stored);
      if !Mine(s, owner, id, now) then a == Outcome(s, Refused(NotFound))
      else
        var v := s.files[id];
        if !ChunkFits(v, offset, data) then a == Outcome(s, Refused(BadChunk))
        else if !openable then a == Outcome(s, Refused(IoError))
        else if offset < v.written then
          if offset + |data| > v.written then a == Outcome(s, Refused(Overlapping))
          else if offset + |data| > |v.content| then a == Outcome(s, Refused(IoError))
          else if (exists k :: 0 <= k < |data| && data[k] != v.content[offset + k])
            then a == Outcome(s, Refused(Differs))
          else a == Outcome(s, Offset(v.written, false))
        else
          var n := if stored < |data| then stored else |data|;
          && id in a.state.files && a.reply == Offset(v.written + n, stored < |data|)
          && a.state.files[id] == v.(content := a.state.files[id].content, written := v.written + n)
          && a.state.files == s.files[id := a.state.files[id]] && a.state.reserved == s.reserved
          && a.state.pins == s.pins
  {
    hide Spliced;
    if Mine(s, owner, id, now) && ChunkFits(s.files[id], offset, data) {
      var v := s.files[id];
      if offset < v.written && offset + |data| <= v.written && offset + |data| <= |v.content| {
        var there := v.content[offset..offset + |data|];
        assert forall k | 0 <= k < |data| :: there[k] == v.content[offset + k];
        assert data == there <==> forall k | 0 <= k < |data| :: data[k] == there[k];
      }
    }
  }

  lemma FinishExactly(s: State, digest: Digest, owner: string, id: string, now: int, openable: bool)
    ensures
      var a := Finish(s, digest, owner, id, now, openable);
      if !Mine(s, owner, id, now) then a == Outcome(s, Refused(NotFound))
      else
        var v := s.files[id];
        if v.complete then a == Outcome(s, Info(v))
        else if v.written != v.size then a == Outcome(s, Refused(NotComplete))
        else if !openable then a == Outcome(s, Refused(IoError))
        else if digest(v.content) != v.sha256 then a == Outcome(s, Refused(DigestMismatch))
        else
          a.reply == Info(v.(complete := true)) && a.state == s.(files := s.files[id := v.(complete := true)])
  {
  }

  lemma OpenExactly(s: State, owner: string, id: string, now: int, openable: bool, handle: nat)
    requires handle !in s.pins
    ensures
      var a := Open(s, owner, id, now, openable, handle);
      if !Mine(s, owner, id, now) then a == Outcome(s, Refused(NotFound))
      else if !s.files[id].complete then a == Outcome(s, Refused(NotComplete))
      else if !openable then a == Outcome(s, Refused(IoError))
      else
        var v := s.files[id];
        && a.reply == Handle(handle, v.content)
        && a.state == s.(files := s.files[id := v.(readers := v.readers + 1)], pins := s.pins[handle := id])
  {
  }

  lemma DeleteExactly(s: State, owner: string, id: string, now: int, unlinked: bool)
    ensures
      var a := Delete(s, owner, id, now, unlinked);
      if !Mine(s, owner, id, now) then a == Outcome(s, Refused(NotFound))
      else if s.files[id].readers > 0 then a == Outcome(s, Refused(InUse))
      else if !unlinked then a == Outcome(s, Refused(IoError))
      else
        && a.reply == Done && a.state.files == (map k | k in s.files && k != id :: s.files[k])
        && a.state.reserved + s.files[id].size == s.reserved && a.state.pins == s.pins
  {
  }

  lemma SealExactly(s: State, digest: Digest, owner: string, id: string, filename: string, mediaType: string, size: int,
      now: int, openable: bool)
    ensures
      var a := Seal(s, digest, owner, id, filename, mediaType, size, now, openable);
      if !Mine(s, owner, id, now) then a == Outcome(s, Refused(NotFound))
      else if !(0 <= size <= s.files[id].size) then a == Outcome(s, Refused(TooLarge))
      else if !openable then a == Outcome(s, Refused(IoError))
      else if |s.files[id].content| != size then a == Outcome(s, Refused(LengthMismatch))
      else
        && id in a.state.files && a.reply == Info(a.state.files[id])
        && a.state.files == s.files[id := a.state.files[id]] && a.state.pins == s.pins
        && var v, w := s.files[id], a.state.files[id];
           && w.complete && w.size == w.written == size && w.sha256 == digest(v.content) && w.content == v.content
           && w.filename == Base(filename) && w.mediaType == mediaType
           && w.owner == v.owner && w.expiresAt == v.expiresAt && w.readers == v.readers && w.produced == v.produced
           && a.state.reserved == s.reserved - v.size + size
  {
  }

  /** A sweep takes exactly what has expired, is not being read and can be removed. */
  lemma SweepExactly(s: State, now: int, stuck: set<string>, id: string)
    ensures
      var t := Sweep(s, now, stuck);
      && (id in t.files <==> id in s.files && (now < s.files[id].expiresAt || s.files[id].readers != 0 || id in stuck))
      && (id in t.files ==> t.files[id] == s.files[id])
  {
    hide Total;
  }

  // ---------------------------------------------------------------- a whole upload

  function Length(chunks: seq<seq<byte>>): nat
    decreases |chunks|
  {
    if chunks == [] then 0 else Length(chunks[..|chunks| - 1]) + |chunks[|chunks| - 1]|
  }

  /** The chunks written one after the other, each at its time and where the last one ended. */
  function Sent(s: State, owner: string, id: string, chunks: seq<seq<byte>>, times: seq<int>): State
    requires |times| >= |chunks|
    decreases |chunks|
  {
    if chunks == [] then s
    else
      var n := |chunks| - 1;
      Write(Sent(s, owner, id, chunks[..n], times), owner, id, Length(chunks[..n]), chunks[n], times[n], true,
            |chunks[n]|).state
  }

  ghost predicate Holding(s: State, t: State, id: string, content: seq<byte>)
  {
    && id in s.files && id in t.files
    && t.files[id] == s.files[id].(content := content, written := |content|)
    && t.pins == s.pins
  }

  lemma LengthIs(chunks: seq<seq<byte>>)
    ensures Length(chunks) == |Flatten(chunks)|
    decreases |chunks|
  {
    if chunks != [] {
      LengthIs(chunks[..|chunks| - 1]);
    }
  }

  lemma {:induction false} LengthGrows(chunks: seq<seq<byte>>, n: nat)
    requires n <= |chunks|
    ensures Length(chunks[..n]) <= Length(chunks)
    decreases |chunks|
  {
    if n == |chunks| {
      assert chunks[..n] == chunks;
    } else {
      LengthGrows(chunks[..|chunks| - 1], n);
      assert chunks[..|chunks| - 1][..n] == chunks[..n];
    }
  }

  lemma SplicedAtEnd(content: seq<byte>, chunk: seq<byte>)
    ensures Spliced(content, |content|, chunk) == content + chunk
  {
  }

  lemma ChunkArrives(s: State, t: State, owner: string, id: string, content: seq<byte>, chunk: seq<byte>, now: int)
    requires id in s.files && Untouched(s.files[id])
    requires Holding(s, t, id, content) && Mine(s, owner, id, now)
    requires 1 <= |chunk| <= 1_048_576 && |content| + |chunk| <= s.files[id].size
    ensures
      var a := Write(t, owner, id, |content|, chunk, now, true, |chunk|);
      a.reply == Offset(|content| + |chunk|, false) && Holding(s, a.state, id, content + chunk)
  {
    SplicedAtEnd(content, chunk);
    hide Spliced;
  }

  lemma {:induction false} SentHolds(s: State, owner: string, id: string, chunks: seq<seq<byte>>, times: seq<int>)
    requires |times| >= |chunks| && id in s.files && Untouched(s.files[id])
    requires forall k | 0 <= k < |chunks| :: 1 <= |chunks[k]| <= 1_048_576 && Mine(s, owner, id, times[k])
    requires Length(chunks) <= s.files[id].size
    ensures Holding(s, Sent(s, owner, id, chunks, times), id, Flatten(chunks))
    decreases |chunks|
  {
    hide Write;
    if chunks != [] {
      var n := |chunks| - 1;
      LengthGrows(chunks, n);
      SentHolds(s, owner, id, chunks[..n], times);
      LengthIs(chunks[..n]);
      ChunkArrives(s, Sent(s, owner, id, chunks[..n], times), owner, id, Flatten(chunks[..n]), chunks[n], times[n]);
    }
  }

  /** An upload announced with its size and digest, sent in any chunks within the hour, is accepted
      chunk by chunk, finishes, and opens on exactly the bytes that were sent. */
  lemma UploadArrives(s: State, digest: Digest, owner: string, filename: string, mediaType: string, id: string,
      chunks: seq<seq<byte>>, made: int, times: seq<int>, finished: int, asked: int, handle: nat)
    requires Nameable(filename) && HasRoom(s, Length(chunks)) && id !in s.files && handle !in s.pins
    requires exists bytes: seq<byte> :: |bytes| == 32 && Hex(bytes) == digest(Flatten(chunks))
    requires |times| == |chunks| && forall k | 0 <= k < |chunks| :: 1 <= |chunks[k]| <= 1_048_576
    requires forall k | 0 <= k < |times| :: made <= times[k] < made + 3_600_000_000_000
    requires finished < made + 3_600_000_000_000 && asked < made + 3_600_000_000_000
    ensures
      var content := Flatten(chunks);
      var a := Create(s, owner, filename, mediaType, |content|, digest(content), id, made, true);
      var b := Sent(a.state, owner, id, chunks, times);
      var c := Finish(b, digest, owner, id, finished, true);
      var d := Open(c.state, owner, id, asked, true, handle);
      && a.reply.Info? && c.reply.Info? && c.reply.transfer.complete
      && d.reply == Handle(handle, content)
      && forall k | 0 <= k < |chunks| ::
        Write(Sent(a.state, owner, id, chunks[..k], times), owner, id, Length(chunks[..k]), chunks[k], times[k], true,
              |chunks[k]|).reply == Offset(Length(chunks[..k]) + |chunks[k]|, false)
  {
    var content := Flatten(chunks);
    LengthIs(chunks);
    CreateExactly(s, owner, filename, mediaType, |content|, digest(content), id, made, true);
    var a := Create(s, owner, filename, mediaType, |content|, digest(content), id, made, true).state;
    hide Create, Write, Finish, Open, Hex, Flatten, Length, Nameable, UsableFor, Holding, Untouched, Mine, Sent;
    Announced(a, owner, id, made);
    SentHolds(a, owner, id, chunks, times);
    HeldIsRead(a, Sent(a, owner, id, chunks, times), digest, owner, id, content, finished, asked, handle);
    forall k | 0 <= k < |chunks|
      ensures
        Write(Sent(a, owner, id, chunks[..k], times), owner, id, Length(chunks[..k]), chunks[k], times[k], true,
              |chunks[k]|).reply == Offset(Length(chunks[..k]) + |chunks[k]|, false)
    {
      OneChunkArrives(a, owner, id, chunks, times, k);
    }
  }

  lemma Announced(s: State, owner: string, id: string, made: int)
    requires UsableFor(s, id, owner, made)
    ensures forall at: int | at < made + 3_600_000_000_000 :: Mine(s, owner, id, at)
  {
    forall at: int | at < made + 3_600_000_000_000
      ensures Mine(s, owner, id, at)
    {
      assert Visible(s, owner, id, at);
    }
  }

  lemma OneChunkArrives(s: State, owner: string, id: string, chunks: seq<seq<byte>>, times: seq<int>, k: nat)
    requires k < |chunks| <= |times| && id in s.files && Untouched(s.files[id])
    requires forall j | 0 <= j < |chunks| :: 1 <= |chunks[j]| <= 1_048_576 && Mine(s, owner, id, times[j])
    requires Length(chunks) <= s.files[id].size
    ensures
      Write(Sent(s, owner, id, chunks[..k], times), owner, id, Length(chunks[..k]), chunks[k], times[k], true,
            |chunks[k]|).reply == Offset(Length(chunks[..k]) + |chunks[k]|, false)
  {
    hide Write, Flatten, Holding, Untouched, Mine;
    LengthGrows(chunks, k);
    LengthGrows(chunks, k + 1);
    LengthOneMore(chunks, k);
    SentHolds(s, owner, id, chunks[..k], times);
    LengthIs(chunks[..k]);
    ChunkArrives(s, Sent(s, owner, id, chunks[..k], times), owner, id, Flatten(chunks[..k]), chunks[k], times[k]);
  }

  lemma LengthOneMore(chunks: seq<seq<byte>>, k: nat)
    requires k < |chunks|
    ensures Length(chunks[..k + 1]) == Length(chunks[..k]) + |chunks[k]|
  {
    assert chunks[..k + 1][..k] == chunks[..k] && chunks[..k + 1][k] == chunks[k];
  }

  /** A transfer that holds all it announced finishes and opens on that. */
  lemma HeldIsRead(s: State, t: State, digest: Digest, owner: string, id: string, content: seq<byte>, finished: int,
      asked: int, handle: nat)
    requires id in s.files && Untouched(s.files[id]) && Holding(s, t, id, content) && handle !in s.pins
    requires s.files[id].size == |content| && s.files[id].sha256 == digest(content)
    requires Mine(s, owner, id, finished) && Mine(s, owner, id, asked)
    ensures
      var c := Finish(t, digest, owner, id, finished, true);
      && c.reply.Info? && c.reply.transfer.complete
      && Open(c.state, owner, id, asked, true, handle).reply == Handle(handle, content)
  {
    FinishExactly(t, digest, owner, id, finished, true);
    OpenExactly(Finish(t, digest, owner, id, finished, true).state, owner, id, asked, true, handle);
    hide Finish, Open;
  }
}
