/** The MCP transfer store (internal/mcpserver/transfers.go): what each call does to the table of
    transfers, and the object whose methods do it. */
module Transfers {
  import opened FileNames

  const CHUNK_BYTES := 0x10_0000
  const TRANSFER_TTL := 3600 * 1_000_000_000
  const MAX_TRANSFERS := 1024

  newtype byte = x: int | 0 <= x < 256

  datatype Transfer = Transfer(
    filename: string, mediaType: string, size: int, sha256: string, expiresAt: int, complete: bool,
    owner: string,
    /** the bytes of the file at `path` */
    content: seq<byte>,
    written: nat, readers: int,
    /** made by Output, so its file is also written through the handle Output returned */
    produced: bool)

  datatype Problem =
    | BadFilename | BadDigest | QuotaExceeded | IoError | NotFound | BadChunk | Overlapping | Differs
    | NotComplete | DigestMismatch | InUse | TooLarge | LengthMismatch

  datatype Reply = Refused(problem: Problem) | Info(transfer: Transfer) | Offset(written: nat,
      failed: bool) | Handle(handle: nat, content: seq<byte>) | Done

  datatype State = State(
    files: map<string, Transfer>, reserved: int, maxFile: int, maxTotal: int,
    /** the release functions handed out by Open and not called yet */
    pins: map<nat, string>,
    /** the chunks each transfer accepted, in order */
    log: map<string, seq<seq<byte>>>)

  datatype Outcome = Outcome(state: State, reply: Reply)

  type Digest = seq<byte> -> string

  function Deny(s: State, problem: Problem): Outcome
  {
    Outcome(s, Refused(problem))
  }

  predicate SimpleName(name: string)
  {
    && Base(name) == name && name != "" && name != "."
    && '\\' !in name && '\r' !in name && '\n' !in name && '\0' !in name
  }

  predicate LowerHexDigest(digest: string)
  {
    |digest| == 64 && forall c | c in digest :: '0' <= c <= '9' || 'a' <= c <= 'f'
  }

  predicate Visible(s: State, owner: string, id: string, now: int)
  {
    id in s.files && s.files[id].owner == owner && now < s.files[id].expiresAt
  }

  // ---------------------------------------------------------------- the calls

  /** `id` is the random identity drawn, `openable` whether its file could be created. */
  function CreateLocked(s: State, t: Transfer, id: string, openable: bool): Outcome
  {
    if t.size < 0 || t.size > s.maxFile || t.size > s.maxTotal - s.reserved || |s.files| >= MAX_TRANSFERS
      then Deny(s, QuotaExceeded)
    else if id in s.files || !openable then Deny(s, IoError)
    else Outcome(s.(files := s.files[id := t], reserved := s.reserved + t.size, log := s.log[id := []]), Info(t))
  }

  function Fresh(owner: string, filename: string, mediaType: string, size: int, digest: string, now: int,
      produced: bool): Transfer
  {
    Transfer(filename, mediaType, size, digest, now + TRANSFER_TTL, false, owner, [], 0, 0, produced)
  }

  function Create(s: State, owner: string, filename: string, mediaType: string, size: int, digest: string, id: string,
      now: int, openable: bool): Outcome
  {
    if !SimpleName(filename) then Deny(s, BadFilename)
    else if !LowerHexDigest(digest) then Deny(s, BadDigest)
    else CreateLocked(s, Fresh(owner, filename, mediaType, size, digest, now, false), id, openable)
  }

  /** WriteAt: bytes beyond the end are zero until written. */
  function Spliced(content: seq<byte>, offset: nat, data: seq<byte>): (r: seq<byte>)
    ensures |r| == if |content| >= offset + |data| then |content| else offset + |data|
  {
    var padded := if |content| >= offset then content else content + seq(offset - |content|, _ => 0);
    padded[..offset] + data + if |padded| > offset + |data| then padded[offset + |data|..] else []
  }

  function Appended(v: Transfer, chunk: seq<byte>): (w: Transfer)
    ensures w.readers == v.readers && w.complete == v.complete && w.size == v.size && w.owner == v.owner
  {
    v.(content := Spliced(v.content, v.written, chunk), written := v.written + |chunk|)
  }

  /** The chunk that reached the disk is added behind the `written` bytes. */
  function Append(s: State, id: string, chunk: seq<byte>, failed: bool): Outcome
    requires id in s.files
  {
    var w := Appended(s.files[id], chunk);
    Outcome(s.(files := s.files[id := w], log := s.log[id := (if id in s.log then s.log[id] else []) + [chunk]]),
      Offset(w.written, failed))
  }

  /** `openable`: the file could be opened; `stored`: how many bytes WriteAt got onto the disk. */
  function Write(s: State, owner: string, id: string, offset: int, data: seq<byte>, now: int, openable: bool,
      stored: nat): Outcome
  {
    if !Visible(s, owner, id, now) then Deny(s, NotFound)
    else
      var v := s.files[id];
      if v.complete || offset < 0 || |data| == 0 || |data| > CHUNK_BYTES || offset > v.written
        || |data| > v.size - offset then Deny(s, BadChunk)
      else if !openable then Deny(s, IoError)
      else if offset < v.written then
        if offset + |data| > v.written then Deny(s, Overlapping)
        else if offset + |data| > |v.content| then Deny(s, IoError)
        else if data != v.content[offset..offset + |data|] then Deny(s, Differs)
        else Outcome(s, Offset(v.written, false))
      else
        Append(s, id, if stored < |data| then data[..stored] else data, stored < |data|)
  }

  function Finish(s: State, digest: Digest, owner: string, id: string, now: int, openable: bool): Outcome
  {
    if !Visible(s, owner, id, now) then Deny(s, NotFound)
    else
      var v := s.files[id];
      if v.complete then Outcome(s, Info(v))
      else if v.written != v.size then Deny(s, NotComplete)
      else if !openable then Deny(s, IoError)
      else if digest(v.content) != v.sha256 then Deny(s, DigestMismatch)
      else
        var w := v.(complete := true);
        Outcome(s.(files := s.files[id := w]), Info(w))
  }

  /** `handle` identifies the returned release function. */
  function Open(s: State, owner: string, id: string, now: int, openable: bool, handle: nat): Outcome
  {
    if !Visible(s, owner, id, now) then Deny(s, NotFound)
    else
      var v := s.files[id];
      if !v.complete then Deny(s, NotComplete)
      else if !openable || handle in s.pins then Deny(s, IoError)
      else Outcome(s.(files := s.files[id := v.(readers := v.readers + 1)], pins := s.pins[handle := id]),
        Handle(handle, v.content))
  }

  /** A release function acts once; later calls do nothing. */
  function Release(s: State, handle: nat): Outcome
  {
    if handle !in s.pins then Outcome(s, Done)
    else
      var id := s.pins[handle];
      var rest := s.pins - {handle};
      if id !in s.files then Outcome(s.(pins := rest), Done)
      else Outcome(s.(files := s.files[id := s.files[id].(readers := s.files[id].readers - 1)], pins := rest), Done)
  }

  function Removed(s: State, id: string): State
    requires id in s.files
  {
    s.(files := s.files - {id}, reserved := s.reserved - s.files[id].size, log := s.log - {id})
  }

  function Delete(s: State, owner: string, id: string, now: int, unlinked: bool): Outcome
  {
    if !Visible(s, owner, id, now) then Deny(s, NotFound)
    else if s.files[id].readers > 0 then Deny(s, InUse)
    else if !unlinked then Deny(s, IoError)
    else Outcome(Removed(s, id), Done)
  }

  predicate Swept(s: State, now: int, stuck: set<string>, id: string)
  {
    id in s.files && now >= s.files[id].expiresAt && s.files[id].readers == 0 && id !in stuck
  }

  /** The transfers a sweep leaves: `stuck` are the expired files that cannot be unlinked. */
  function Kept(s: State, now: int, stuck: set<string>): map<string, Transfer>
  {
    map id | id in s.files && !Swept(s, now, stuck, id) :: s.files[id]
  }

  function Output(s: State, owner: string, id: string, now: int, openable: bool, reopenable: bool,
      unlinked: bool): Outcome
  {
    var made := CreateLocked(s, Fresh(owner, "result.bin", "application/octet-stream", s.maxFile, "", now, true), id,
      openable);
    if made.reply.Refused? || reopenable then made
    else if unlinked then Deny(Removed(made.state, id), IoError)
    else Deny(made.state, IoError)
  }

  /** The handle returned by Output writes the result before it is sealed. */
  function Produce(s: State, id: string, content: seq<byte>): Outcome
  {
    if id in s.files && s.files[id].produced && !s.files[id].complete && |content| >= |s.files[id].content|
    then Outcome(s.(files := s.files[id := s.files[id].(content := content)]), Done)
    else Outcome(s, Done)
  }

  function Seal(s: State, digest: Digest, owner: string, id: string, filename: string, mediaType: string, size: int,
      now: int, openable: bool): Outcome
  {
    if !Visible(s, owner, id, now) then Deny(s, NotFound)
    else
      var v := s.files[id];
      if size < 0 || size > v.size then Deny(s, TooLarge)
      else if !openable then Deny(s, IoError)
      else if |v.content| != size then Deny(s, LengthMismatch)
      else
        var w := v.(size := size, written := size, sha256 := digest(v.content), filename := Base(filename),
          mediaType := mediaType, complete := true);
        Outcome(s.(files := s.files[id := w], reserved := s.reserved - (v.size - size)), Info(w))
  }

  // ---------------------------------------------------------------- the total reserved

  ghost function Total(files: map<string, Transfer>): int
    decreases |files|
  {
    if files == map[] then 0
    else
      var id :| id in files;
      files[id].size + Total(files - {id})
  }

  lemma TotalSplit(files: map<string, Transfer>, id: string)
    requires id in files
    ensures Total(files) == files[id].size + Total(files - {id})
    decreases |files|
  {
    var first :| first in files && Total(files) == files[first].size + Total(files - {first});
    if first != id {
      TotalSplit(files - {first}, id);
      TotalSplit(files - {id}, first);
      assert files - {first} - {id} == files - {id} - {first};
    }
  }

  lemma TotalUpdate(files: map<string, Transfer>, id: string, t: Transfer)
    ensures Total(files[id := t]) == Total(files) + t.size - (if id in files then files[id].size else 0)
  {
    TotalSplit(files[id := t], id);
    assert files[id := t] - {id} == files - {id};
    if id in files {
      TotalSplit(files, id);
    } else {
      assert files - {id} == files;
    }
  }

  /** Removing releases exactly what the removed transfers had reserved. */
  ghost function Sweep(s: State, now: int, stuck: set<string>): State
  {
    var kept := Kept(s, now, stuck);
    s.(files := kept, reserved := s.reserved - (Total(s.files) - Total(kept)), log := map id | id in s.log
      && !Swept(s, now, stuck, id) :: s.log[id])
  }

  /** A sweep that has yet to look at the transfers in todo. */
  ghost predicate PartlySwept(before: State, now: int, stuck: set<string>, todo: set<string>, s: State)
  {
    && todo <= before.files.Keys
    && s.files == (map id | id in before.files && (id in todo || !Swept(before, now, stuck, id)) :: before.files[id])
    && s.log == (map id | id in before.log && (id in todo || !Swept(before, now, stuck, id)) :: before.log[id])
    && s.reserved - Total(s.files) == before.reserved - Total(before.files)
    && s.maxFile == before.maxFile && s.maxTotal == before.maxTotal && s.pins == before.pins
  }

  lemma NothingSwept(before: State, now: int, stuck: set<string>)
    ensures PartlySwept(before, now, stuck, before.files.Keys, before)
  {
    hide Total;
    assert forall id | id in before.log && id !in before.files :: !Swept(before, now, stuck, id);
    hide Swept;
  }

  lemma PartlySweptKeys(before: State, now: int, stuck: set<string>, todo: set<string>, s: State)
    requires PartlySwept(before, now, stuck, todo, s)
    ensures forall id | id in todo :: id in s.files && id in before.files && s.files[id] == before.files[id]
  {
    hide Total, Swept;
  }

  lemma SweepOne(before: State, now: int, stuck: set<string>, todo: set<string>, s: State, id: string)
    requires PartlySwept(before, now, stuck, todo, s) && id in todo && id in s.files && id in before.files
      && s.files[id] == before.files[id]
    ensures PartlySwept(before, now, stuck, todo - {id}, if Swept(before, now, stuck, id) then Removed(s, id) else s)
    ensures Swept(before, now, stuck, id) <==> now >= s.files[id].expiresAt && s.files[id].readers == 0 && id !in stuck
  {
    TotalSplit(s.files, id);
    assert Swept(before, now, stuck, id) <==> now >= s.files[id].expiresAt && s.files[id].readers == 0 && id !in stuck;
    hide Total, Swept;
    var rest := todo - {id};
    if Swept(before, now, stuck, id) {
      assert s.files - {id} == map k | k in before.files && (k in rest || !Swept(before, now, stuck, k)) ::
        before.files[k];
      assert s.log - {id} == map k | k in before.log && (k in rest || !Swept(before, now, stuck, k)) :: before.log[k];
    } else {
      assert s.files == map k | k in before.files && (k in rest || !Swept(before, now, stuck, k)) :: before.files[k];
      assert s.log == map k | k in before.log && (k in rest || !Swept(before, now, stuck, k)) :: before.log[k];
    }
  }

  lemma AllSwept(before: State, now: int, stuck: set<string>, s: State)
    requires PartlySwept(before, now, stuck, {}, s)
    ensures s == Sweep(before, now, stuck)
  {
    hide Total, Swept;
    assert s.files == Kept(before, now, stuck);
    assert s.log == Sweep(before, now, stuck).log;
  }

  // ---------------------------------------------------------------- the object

  class TransferStore {
    const digest: Digest
    var files: map<string, Transfer>
    var reserved: int
    var maxFile: int
    var maxTotal: int
    var pins: map<nat, string>
    ghost var log: map<string, seq<seq<byte>>>

    ghost function Value(): State
      reads this
    {
      State(files, reserved, maxFile, maxTotal, pins, log)
    }

    constructor (digest: Digest, maxFile: int, maxTotal: int)
      ensures this.digest == digest && Value() == State(map[], 0, maxFile, maxTotal, map[], map[])
    {
      this.digest := digest;
      this.maxFile, this.maxTotal := maxFile, maxTotal;
      files, reserved, pins, log := map[], 0, map[], map[];
    }

    method SetLimits(maxFile: int, maxTotal: int)
      modifies this`maxFile, this`maxTotal
      ensures Value() == old(Value()).(maxFile := maxFile, maxTotal := maxTotal)
    {
      this.maxFile, this.maxTotal := maxFile, maxTotal;
    }

    method CreateLockedEntry(t: Transfer, id: string, openable: bool) returns (reply: Reply)
      modifies this`files, this`reserved, this`log
      ensures Outcome(Value(), reply) == CreateLocked(old(Value()), t, id, openable)
    {
      if t.size < 0 || t.size > maxFile || t.size > maxTotal - reserved || |files| >= MAX_TRANSFERS {
        return Refused(QuotaExceeded);
      }
      if id in files || !openable {
        return Refused(IoError);
      }
      files := files[id := t];
      reserved := reserved + t.size;
      log := log[id := []];
      return Info(t);
    }

    method CreateUpload(owner: string, filename: string, mediaType: string, size: int, sha256: string, id: string,
        now: int, openable: bool) returns (reply: Reply)
      modifies this`files, this`reserved, this`log
      ensures Outcome(Value(), reply)
        == Create(old(Value()), owner, filename, mediaType, size, sha256, id, now, openable)
    {
      if !SimpleName(filename) {
        return Refused(BadFilename);
      }
      if !LowerHexDigest(sha256) {
        return Refused(BadDigest);
      }
      reply := CreateLockedEntry(Fresh(owner, filename, mediaType, size, sha256, now, false), id, openable);
    }

    method WriteChunk(owner: string, id: string, offset: int, data: seq<byte>, now: int, openable: bool, stored: nat)
        returns (reply: Reply)
      modifies this`files, this`log
      ensures Outcome(Value(), reply) == Write(old(Value()), owner, id, offset, data, now, openable, stored)
    {
      if id !in files || files[id].owner != owner || now >= files[id].expiresAt {
        return Refused(NotFound);
      }
      var v := files[id];
      if v.complete || offset < 0 || |data| == 0 || |data| > CHUNK_BYTES || offset > v.written
        || |data| > v.size - offset {
        return Refused(BadChunk);
      }
      if !openable {
        return Refused(IoError);
      }
      if offset < v.written {
        if offset + |data| > v.written {
          return Refused(Overlapping);
        }
        if offset + |data| > |v.content| {
          return Refused(IoError);
        }
        if data != v.content[offset..offset + |data|] {
          return Refused(Differs);
        }
        return Offset(v.written, false);
      }
      var chunk := data;
      if stored < |data| {
        chunk := data[..stored];
      }
      v := v.(content := Spliced(v.content, offset, chunk));
      v := v.(written := v.written + |chunk|);
      files := files[id := v];
      log := log[id := (if id in log then log[id] else []) + [chunk]];
      return Offset(v.written, stored < |data|);
    }

    method FinishUpload(owner: string, id: string, now: int, openable: bool) returns (reply: Reply)
      modifies this`files
      ensures Outcome(Value(), reply) == Finish(old(Value()), digest, owner, id, now, openable)
    {
      if id !in files || files[id].owner != owner || now >= files[id].expiresAt {
        return Refused(NotFound);
      }
      var v := files[id];
      if v.complete {
        return Info(v);
      }
      if v.written != v.size {
        return Refused(NotComplete);
      }
      if !openable {
        return Refused(IoError);
      }
      if digest(v.content) != v.sha256 {
        return Refused(DigestMismatch);
      }
      v := v.(complete := true);
      files := files[id := v];
      return Info(v);
    }

    method OpenCompleted(owner: string, id: string, now: int, openable: bool, handle: nat) returns (reply: Reply)
      modifies this`files, this`pins
      ensures Outcome(Value(), reply) == Open(old(Value()), owner, id, now, openable, handle)
    {
      if id !in files || files[id].owner != owner || now >= files[id].expiresAt {
        return Refused(NotFound);
      }
      var v := files[id];
      if !v.complete {
        return Refused(NotComplete);
      }
      if !openable || handle in pins {
        return Refused(IoError);
      }
      files := files[id := v.(readers := v.readers + 1)];
      pins := pins[handle := id];
      return Handle(handle, v.content);
    }

    method ReleaseHandle(handle: nat)
      modifies this`files, this`pins
      ensures Value() == Release(old(Value()), handle).state
    {
      if handle in pins {
        var id := pins[handle];
        pins := pins - {handle};
        if id in files {
          files := files[id := files[id].(readers := files[id].readers - 1)];
        }
      }
    }

    method Remove(id: string)
      requires id in files
      modifies this`files, this`reserved, this`log
      ensures Value() == Removed(old(Value()), id)
    {
      var size := files[id].size;
      files := files - {id};
      reserved := reserved - size;
      log := log - {id};
    }

    method DeleteTransfer(owner: string, id: string, now: int, unlinked: bool) returns (reply: Reply)
      modifies this`files, this`reserved, this`log
      ensures Outcome(Value(), reply) == Delete(old(Value()), owner, id, now, unlinked)
    {
      if id !in files || files[id].owner != owner || now >= files[id].expiresAt {
        return Refused(NotFound);
      }
      if files[id].readers > 0 {
        return Refused(InUse);
      }
      if !unlinked {
        return Refused(IoError);
      }
      Remove(id);
      return Done;
    }

    /** Every expired transfer without a reader goes, unless its file cannot be unlinked. */
    method SweepExpired(now: int, stuck: set<string>)
      modifies this`files, this`reserved, this`log
      ensures Value() == Sweep(old(Value()), now, stuck)
    {
      hide Total, Sweep, Swept, PartlySwept;
      ghost var before := Value();
      var todo := files.Keys;
      NothingSwept(before, now, stuck);
      while todo != {}
        invariant PartlySwept(before, now, stuck, todo, Value())
      {
        PartlySweptKeys(before, now, stuck, todo, Value());
        var id :| id in todo;
        SweepOne(before, now, stuck, todo, Value(), id);
        todo := todo - {id};
        if now >= files[id].expiresAt && files[id].readers == 0 && id !in stuck {
          Remove(id);
        }
      }
      AllSwept(before, now, stuck, Value());
    }

    method OutputFile(owner: string, id: string, now: int, openable: bool, reopenable: bool, unlinked: bool)
        returns (reply: Reply)
      modifies this`files, this`reserved, this`log
      ensures Outcome(Value(), reply) == Output(old(Value()), owner, id, now, openable, reopenable, unlinked)
    {
      reply := CreateLockedEntry(Fresh(owner, "result.bin", "application/octet-stream", maxFile, "", now, true), id,
        openable);
      if reply.Refused? || reopenable {
        return;
      }
      if unlinked {
        Remove(id);
      }
      reply := Refused(IoError);
    }

    method SealOutput(owner: string, id: string, filename: string, mediaType: string, size: int, now: int,
        openable: bool) returns (reply: Reply)
      modifies this`files, this`reserved
      ensures Outcome(Value(), reply) == Seal(old(Value()), digest, owner, id, filename, mediaType, size, now, openable)
    {
      if id !in files || files[id].owner != owner || now >= files[id].expiresAt {
        return Refused(NotFound);
      }
      var v := files[id];
      if size < 0 || size > v.size {
        return Refused(TooLarge);
      }
      if !openable {
        return Refused(IoError);
      }
      if |v.content| != size {
        return Refused(LengthMismatch);
      }
      reserved := reserved - (v.size - size);
      v := v.(size := size, written := size, sha256 := digest(v.content));
      v := v.(filename := Base(filename), mediaType := mediaType, complete := true);
      files := files[id := v];
      return Info(v);
    }
  }
}
