/** What every sequence of calls keeps true of the transfer store. */
module TransferLaws {
  import opened FileNames
  import opened Transfers

  // ---------------------------------------------------------------- runs

  datatype Call =
    | CallSetLimits(maxFile: int, maxTotal: int)
    | CallCreate(owner: string, filename: string, mediaType: string, size: int, sha256: string, id: string, now: int,
      openable: bool)
    | CallWrite(owner: string, id: string, offset: int, data: seq<byte>, now: int, openable: bool, stored: nat)
    | CallFinish(owner: string, id: string, now: int, openable: bool)
    | CallOpen(owner: string, id: string, now: int, openable: bool, handle: nat)
    | CallRelease(handle: nat)
    | CallDelete(owner: string, id: string, now: int, unlinked: bool)
    | CallSweep(now: int, stuck: set<string>)
    | CallOutput(owner: string, id: string, now: int, openable: bool, reopenable: bool, unlinked: bool)
    | CallProduce(id: string, content: seq<byte>)
    | CallSeal(owner: string, id: string, filename: string, mediaType: string, size: int, now: int, openable: bool)

  ghost function Apply(digest: Digest, s: State, c: Call): State
  {
    match c
    case CallSetLimits(maxFile, maxTotal) => s.(maxFile := maxFile, maxTotal := maxTotal)
    case CallCreate(owner, filename, mediaType, size, sha256, id, now, openable) =>
      Create(s, owner, filename, mediaType, size, sha256, id, now, openable).state
    case CallWrite(owner, id, offset, data, now, openable, stored) =>
      Write(s, owner, id, offset, data, now, openable, stored).state
    case CallFinish(owner, id, now, openable) => Finish(s, digest, owner, id, now, openable).state
    case CallOpen(owner, id, now, openable, handle) => Open(s, owner, id, now, openable, handle).state
    case CallRelease(handle) => Release(s, handle).state
    case CallDelete(owner, id, now, unlinked) => Delete(s, owner, id, now, unlinked).state
    case CallSweep(now, stuck) => Sweep(s, now, stuck)
    case CallOutput(owner, id, now, openable, reopenable, unlinked) =>
      Output(s, owner, id, now, openable, reopenable, unlinked).state
    case CallProduce(id, content) => Produce(s, id, content).state
    case CallSeal(owner, id, filename, mediaType, size, now, openable) =>
      Seal(s, digest, owner, id, filename, mediaType, size, now, openable).state
  }

  ghost function Run(digest: Digest, s: State, calls: seq<Call>): State
    decreases |calls|
  {
    if calls == [] then s else Run(digest, Apply(digest, s, calls[0]), calls[1..])
  }

  function Empty(maxFile: int, maxTotal: int): State
  {
    State(map[], 0, maxFile, maxTotal, map[], map[])
  }

  // ---------------------------------------------------------------- the invariant

  function Flatten(chunks: seq<seq<byte>>): seq<byte>
    decreases |chunks|
  {
    if chunks == [] then [] else Flatten(chunks[..|chunks| - 1]) + chunks[|chunks| - 1]
  }

  function PinsOf(pins: map<nat, string>, id: string): set<nat>
  {
    set h | h in pins && pins[h] == id
  }

  ghost predicate Sha(digest: Digest)
  {
    forall content :: |digest(content)| == 64
  }

  /** One transfer. An upload holds exactly the chunks accepted for it, in order; a complete one
      has its full length and the digest it announces. */
  ghost predicate Entry(digest: Digest, t: Transfer, chunks: seq<seq<byte>>)
  {
    && 0 <= t.size && t.written <= t.size && t.written <= |t.content|
    && (!t.produced ==> t.content == Flatten(chunks) && |t.content| == t.written)
    && (t.complete ==> |t.content| == t.written == t.size && digest(t.content) == t.sha256)
    && (t.produced && !t.complete ==> t.sha256 == "")
  }

  ghost predicate Pinned(s: State)
  {
    && (forall h | h in s.pins :: s.pins[h] in s.files && s.files[s.pins[h]].complete)
    && (forall id | id in s.files :: s.files[id].readers == |PinsOf(s.pins, id)|)
  }

  ghost predicate Books(digest: Digest, s: State)
  {
    && s.reserved == Total(s.files) && |s.files| <= MAX_TRANSFERS
    && s.log.Keys == s.files.Keys
    && (forall id | id in s.files :: Entry(digest, s.files[id], s.log[id]))
  }

  ghost predicate Inv(digest: Digest, s: State)
  {
    Books(digest, s) && Pinned(s)
  }

  lemma EmptyInv(digest: Digest, maxFile: int, maxTotal: int)
    ensures Inv(digest, Empty(maxFile, maxTotal))
  {
  }

  // ---------------------------------------------------------------- each call keeps it

  lemma NoPins(s: State, id: string)
    requires Pinned(s) && id !in s.files
    ensures PinsOf(s.pins, id) == {}
  {
  }

  /** createLocked adds one entry or refuses and changes nothing. */
  lemma Admitted(s: State, t: Transfer, id: string, openable: bool)
    ensures
      var a := CreateLocked(s, t, id, openable);
      if a.reply.Info? then
        && a.reply == Info(t) && id !in s.files && |s.files| < MAX_TRANSFERS
        && 0 <= t.size <= s.maxFile && t.size <= s.maxTotal - s.reserved
        && a.state == s.(files := s.files[id := t], reserved := s.reserved + t.size, log := s.log[id := []])
      else a.reply.Refused? && a.state == s
  {
  }

  lemma BooksAdded(digest: Digest, s: State, t: Transfer, id: string)
    requires Books(digest, s) && id !in s.files && |s.files| < MAX_TRANSFERS && Entry(digest, t, [])
    ensures Books(digest, s.(files := s.files[id := t], reserved := s.reserved + t.size, log := s.log[id := []]))
  {
    TotalUpdate(s.files, id, t);
    hide Total, Entry;
  }

  lemma PinsAdded(s: State, u: State, t: Transfer, id: string)
    requires Pinned(s) && id !in s.files && t.readers == 0 && u.files == s.files[id := t] && u.pins == s.pins
    ensures Pinned(u)
  {
    NoPins(s, id);
    hide PinsOf;
  }

  lemma EntryAdded(digest: Digest, s: State, t: Transfer, id: string)
    requires Inv(digest, s) && id !in s.files && |s.files| < MAX_TRANSFERS && 0 <= t.size
    requires t.content == [] && t.written == 0 && t.readers == 0 && !t.complete && (t.produced ==> t.sha256 == "")
    ensures Inv(digest, s.(files := s.files[id := t], reserved := s.reserved + t.size, log := s.log[id := []]))
  {
    assert Entry(digest, t, []);
    hide Books, Pinned, Entry;
    BooksAdded(digest, s, t, id);
    PinsAdded(s, s.(files := s.files[id := t], reserved := s.reserved + t.size, log := s.log[id := []]), t, id);
  }

  lemma CreateLockedKeeps(digest: Digest, s: State, t: Transfer, id: string, openable: bool)
    requires Inv(digest, s)
    requires t.content == [] && t.written == 0 && t.readers == 0 && !t.complete && (t.produced ==> t.sha256 == "")
    ensures Inv(digest, CreateLocked(s, t, id, openable).state)
  {
    Admitted(s, t, id, openable);
    hide CreateLocked, Inv;
    if CreateLocked(s, t, id, openable).reply.Info? {
      EntryAdded(digest, s, t, id);
    }
  }

  lemma FlattenAppend(chunks: seq<seq<byte>>, chunk: seq<byte>)
    ensures Flatten(chunks + [chunk]) == Flatten(chunks) + chunk
  {
    assert (chunks + [chunk])[..|chunks|] == chunks;
  }

  lemma ReplacedBooks(digest: Digest, s: State, id: string, w: Transfer, chunks: seq<seq<byte>>)
    requires Books(digest, s) && id in s.files && Entry(digest, w, chunks)
    ensures Books(digest,
      s.(files := s.files[id := w], log := s.log[id := chunks], reserved := s.reserved + w.size - s.files[id].size))
  {
    TotalUpdate(s.files, id, w);
    hide Total, Entry;
  }

  lemma ReplacedPins(s: State, t: State, id: string, w: Transfer)
    requires Pinned(s) && id in s.files && t.files == s.files[id := w] && t.pins == s.pins
    requires w.readers == s.files[id].readers && (s.files[id].complete ==> w.complete)
    ensures Pinned(t)
  {
    hide PinsOf;
  }

  /** Replacing one entry by one with the same readers and completeness at least as great. */
  lemma ReplacedKeeps(digest: Digest, s: State, id: string, w: Transfer, chunks: seq<seq<byte>>)
    requires Inv(digest, s) && id in s.files
    requires Entry(digest, w, chunks) && w.readers == s.files[id].readers && (s.files[id].complete ==> w.complete)
    ensures Inv(digest,
      s.(files := s.files[id := w], log := s.log[id := chunks], reserved := s.reserved + w.size - s.files[id].size))
  {
    hide Books, Pinned, Entry;
    ReplacedBooks(digest, s, id, w, chunks);
    ReplacedPins(s,
      s.(files := s.files[id := w], log := s.log[id := chunks], reserved := s.reserved + w.size - s.files[id].size),
      id, w);
  }

  lemma AppendKeeps(digest: Digest, s: State, id: string, chunk: seq<byte>, failed: bool)
    requires Inv(digest, s) && id in s.files && !s.files[id].complete
      && |chunk| <= s.files[id].size - s.files[id].written
    ensures Inv(digest, Append(s, id, chunk, failed).state)
  {
    assert id in s.log;
    ChunkStored(digest, s.files[id], s.log[id], chunk);
    hide Appended, Entry, Inv;
    ReplacedKeeps(digest, s, id, Appended(s.files[id], chunk), s.log[id] + [chunk]);
  }

  lemma WriteKeeps(digest: Digest, s: State, owner: string, id: string, offset: int, data: seq<byte>, now: int,
      openable: bool, stored: nat)
    requires Inv(digest, s)
    ensures Inv(digest, Write(s, owner, id, offset, data, now, openable, stored).state)
  {
    hide Inv, Append;
    if id in s.files && !s.files[id].complete && offset == s.files[id].written && |data| <= s.files[id].size - offset {
      AppendKeeps(digest, s, id, if stored < |data| then data[..stored] else data, stored < |data|);
    }
  }

  lemma ChunkStored(digest: Digest, v: Transfer, chunks: seq<seq<byte>>, chunk: seq<byte>)
    requires Entry(digest, v, chunks) && !v.complete && |chunk| <= v.size - v.written
    ensures Entry(digest, Appended(v, chunk), chunks + [chunk])
  {
    FlattenAppend(chunks, chunk);
    assert !v.produced ==> Spliced(v.content, v.written, chunk) == v.content + chunk;
  }

  lemma FinishKeeps(digest: Digest, s: State, owner: string, id: string, now: int, openable: bool)
    requires Sha(digest) && Inv(digest, s)
    ensures Inv(digest, Finish(s, digest, owner, id, now, openable).state)
  {
    var t := Finish(s, digest, owner, id, now, openable).state;
    if t != s {
      assert |digest(s.files[id].content)| == 64;
      assert s.log[id := s.log[id]] == s.log;
      ReplacedKeeps(digest, s, id, t.files[id], s.log[id]);
    }
  }

  lemma RereadBooks(digest: Digest, s: State, id: string, readers: int, pins: map<nat, string>)
    requires Books(digest, s) && id in s.files
    ensures Books(digest, s.(files := s.files[id := s.files[id].(readers := readers)], pins := pins))
  {
    TotalUpdate(s.files, id, s.files[id].(readers := readers));
    assert Entry(digest, s.files[id].(readers := readers), s.log[id]);
    hide Total, Entry;
  }

  lemma RereadKeeps(digest: Digest, s: State, id: string, readers: int, pins: map<nat, string>)
    requires Inv(digest, s) && id in s.files && s.files[id].complete
    requires forall h | h in pins :: (h in s.pins && pins[h] == s.pins[h]) || pins[h] == id
    requires readers == |PinsOf(pins, id)| && forall other | other != id :: PinsOf(pins, other) == PinsOf(s.pins, other)
    ensures Inv(digest, s.(files := s.files[id := s.files[id].(readers := readers)], pins := pins))
  {
    hide Books, PinsOf;
    RereadBooks(digest, s, id, readers, pins);
  }

  lemma OpenKeeps(digest: Digest, s: State, owner: string, id: string, now: int, openable: bool, handle: nat)
    requires Inv(digest, s)
    ensures Inv(digest, Open(s, owner, id, now, openable, handle).state)
  {
    var t := Open(s, owner, id, now, openable, handle).state;
    if t != s {
      PinAdded(s.pins, handle, id);
      RereadKeeps(digest, s, id, s.files[id].readers + 1, t.pins);
    }
  }

  lemma ReleaseKeeps(digest: Digest, s: State, handle: nat)
    requires Inv(digest, s)
    ensures Inv(digest, Release(s, handle).state)
  {
    var t := Release(s, handle).state;
    if handle in s.pins {
      var id := s.pins[handle];
      PinDropped(s.pins, handle);
      RereadKeeps(digest, s, id, s.files[id].readers - 1, t.pins);
    }
  }

  lemma PinAdded(pins: map<nat, string>, handle: nat, id: string)
    requires handle !in pins
    ensures |PinsOf(pins[handle := id], id)| == |PinsOf(pins, id)| + 1
    ensures forall other | other != id :: PinsOf(pins[handle := id], other) == PinsOf(pins, other)
  {
    assert PinsOf(pins[handle := id], id) == PinsOf(pins, id) + {handle};
  }

  lemma PinDropped(pins: map<nat, string>, handle: nat)
    requires handle in pins
    ensures |PinsOf(pins - {handle}, pins[handle])| == |PinsOf(pins, pins[handle])| - 1
    ensures forall other | other != pins[handle] :: PinsOf(pins - {handle}, other) == PinsOf(pins, other)
  {
    assert PinsOf(pins - {handle}, pins[handle]) == PinsOf(pins, pins[handle]) - {handle};
  }

  lemma RemovedKeeps(digest: Digest, s: State, id: string)
    requires Inv(digest, s) && id in s.files && s.files[id].readers == 0
    ensures Inv(digest, Removed(s, id))
  {
    TotalSplit(s.files, id);
    assert PinsOf(s.pins, id) == {};
    assert forall h | h in s.pins :: h in PinsOf(s.pins, s.pins[h]);
  }

  lemma SweepKeeps(digest: Digest, s: State, now: int, stuck: set<string>)
    requires Inv(digest, s)
    ensures Inv(digest, Sweep(s, now, stuck))
  {
    var t := Sweep(s, now, stuck);
    assert t.files.Keys <= s.files.Keys;
    KeysBound(t.files, s.files);
    forall h | h in s.pins ensures s.pins[h] in t.files {
      assert h in PinsOf(s.pins, s.pins[h]);
    }
  }

  lemma KeysBound(small: map<string, Transfer>, big: map<string, Transfer>)
    requires small.Keys <= big.Keys
    ensures |small| <= |big|
  {
    assert big.Keys == small.Keys + (big.Keys - small.Keys);
    assert |small.Keys| == |small| && |big.Keys| == |big|;
  }

  lemma OutputKeeps(digest: Digest, s: State, owner: string, id: string, now: int, openable: bool, reopenable: bool,
      unlinked: bool)
    requires Inv(digest, s)
    ensures Inv(digest, Output(s, owner, id, now, openable, reopenable, unlinked).state)
  {
    var t := Fresh(owner, "result.bin", "application/octet-stream", s.maxFile, "", now, true);
    CreateLockedKeeps(digest, s, t, id, openable);
    var made := CreateLocked(s, t, id, openable);
    if made.reply.Info? {
      RemovedKeeps(digest, made.state, id);
    }
  }

  lemma ProduceKeeps(digest: Digest, s: State, id: string, content: seq<byte>)
    requires Inv(digest, s)
    ensures Inv(digest, Produce(s, id, content).state)
  {
    var t := Produce(s, id, content).state;
    if t != s {
      assert s.log[id := s.log[id]] == s.log;
      ReplacedKeeps(digest, s, id, t.files[id], s.log[id]);
    }
  }

  lemma SealKeeps(digest: Digest, s: State, owner: string, id: string, filename: string, mediaType: string, size: int,
      now: int, openable: bool)
    requires Inv(digest, s)
    ensures Inv(digest, Seal(s, digest, owner, id, filename, mediaType, size, now, openable).state)
  {
    var t := Seal(s, digest, owner, id, filename, mediaType, size, now, openable).state;
    if t != s && id in s.files {
      assert s.log[id := s.log[id]] == s.log;
      ReplacedKeeps(digest, s, id, t.files[id], s.log[id]);
    }
  }

  lemma ApplyKeeps(digest: Digest, s: State, c: Call)
    requires Sha(digest) && Inv(digest, s)
    ensures Inv(digest, Apply(digest, s, c))
  {
    hide Inv, Sha;
    match c
    case CallSetLimits(maxFile, maxTotal) => LimitsKeep(digest, s, maxFile, maxTotal);
    case CallCreate(owner, filename, mediaType, size, sha256, id, now, openable) =>
      CreateLockedKeeps(digest, s, Fresh(owner, filename, mediaType, size, sha256, now, false), id, openable);
    case CallWrite(owner, id, offset, data, now, openable, stored) =>
      WriteKeeps(digest, s, owner, id, offset, data, now, openable, stored);
    case CallFinish(owner, id, now, openable) => FinishKeeps(digest, s, owner, id, now, openable);
    case CallOpen(owner, id, now, openable, handle) => OpenKeeps(digest, s, owner, id, now, openable, handle);
    case CallRelease(handle) => ReleaseKeeps(digest, s, handle);
    case CallDelete(owner, id, now, unlinked) => DeleteKeeps(digest, s, owner, id, now, unlinked);
    case CallSweep(now, stuck) => SweepKeeps(digest, s, now, stuck);
    case CallOutput(owner, id, now, openable, reopenable, unlinked) =>
      OutputKeeps(digest, s, owner, id, now, openable, reopenable, unlinked);
    case CallProduce(id, content) => ProduceKeeps(digest, s, id, content);
    case CallSeal(owner, id, filename, mediaType, size, now, openable) =>
      SealKeeps(digest, s, owner, id, filename, mediaType, size, now, openable);
  }

  lemma LimitsKeep(digest: Digest, s: State, maxFile: int, maxTotal: int)
    requires Inv(digest, s)
    ensures Inv(digest, s.(maxFile := maxFile, maxTotal := maxTotal))
  {
  }

  lemma DeleteKeeps(digest: Digest, s: State, owner: string, id: string, now: int, unlinked: bool)
    requires Inv(digest, s)
    ensures Inv(digest, Delete(s, owner, id, now, unlinked).state)
  {
    if id in s.files && s.files[id].readers == 0 {
      RemovedKeeps(digest, s, id);
    }
  }

  lemma {:induction false} RunKeeps(digest: Digest, s: State, calls: seq<Call>)
    requires Sha(digest) && Inv(digest, s)
    ensures Inv(digest, Run(digest, s, calls))
    decreases |calls|
  {
    hide Inv, Sha, Apply;
    if calls != [] {
      ApplyKeeps(digest, s, calls[0]);
      RunKeeps(digest, Apply(digest, s, calls[0]), calls[1..]);
    }
  }

  /** After any sequence of calls the reserved total is the sum of the live sizes, there are at
      most 1024 transfers, uploads hold exactly their accepted chunks, and complete transfers
      their full length and digest. */
  lemma EveryRunKeepsTheBooks(digest: Digest, maxFile: int, maxTotal: int, calls: seq<Call>)
    requires Sha(digest)
    ensures Inv(digest, Run(digest, Empty(maxFile, maxTotal), calls))
  {
    EmptyInv(digest, maxFile, maxTotal);
    RunKeeps(digest, Empty(maxFile, maxTotal), calls);
  }

  // ---------------------------------------------------------------- admission

  lemma AdmittedWithinQuota(digest: Digest, s: State, t: Transfer, id: string, openable: bool)
    requires Inv(digest, s)
    requires t.content == [] && t.written == 0 && t.readers == 0 && !t.complete && (t.produced ==> t.sha256 == "")
    ensures
      var a := CreateLocked(s, t, id, openable);
      && (a.reply.Info? ==>
        Total(a.state.files) <= s.maxTotal && |a.state.files| <= MAX_TRANSFERS
        && 0 <= t.size <= s.maxFile && a.reply == Info(t))
      && (a.reply.Refused? ==> a.state == s)
  {
    CreateLockedKeeps(digest, s, t, id, openable);
    Admitted(s, t, id, openable);
    hide Pinned, Entry, Total, CreateLocked;
  }

  lemma AdmissionUndone(digest: Digest, s: State, t: Transfer, id: string, openable: bool)
    requires Inv(digest, s)
    ensures var a := CreateLocked(s, t, id, openable); a.reply.Info? ==>
      id in a.state.files && Removed(a.state, id) == s
  {
    assert s.log.Keys == s.files.Keys;
    Admitted(s, t, id, openable);
    hide Inv, Removed, CreateLocked;
    if id !in s.files {
      UndoneCreation(s, t, id);
    }
  }

  /** Whatever happened before, also after limits were lowered: an admitted upload leaves the live
      sizes within the total limit now in force, and a refused one leaves everything as it was. */
  lemma UploadsRespectTheQuota(digest: Digest, maxFile: int, maxTotal: int, calls: seq<Call>, owner: string,
      filename: string, mediaType: string, size: int, sha256: string, id: string, now: int, openable: bool)
    requires Sha(digest)
    ensures
      var s := Run(digest, Empty(maxFile, maxTotal), calls);
      var a := Create(s, owner, filename, mediaType, size, sha256, id, now, openable);
      && (a.reply.Info? ==>
        Total(a.state.files) <= s.maxTotal && |a.state.files| <= MAX_TRANSFERS
        && 0 <= size <= s.maxFile)
      && (a.reply.Refused? ==> a.state == s)
  {
    hide Run, Sha, Inv, CreateLocked;
    EveryRunKeepsTheBooks(digest, maxFile, maxTotal, calls);
    AdmittedWithinQuota(digest, Run(digest, Empty(maxFile, maxTotal), calls),
      Fresh(owner, filename, mediaType, size, sha256, now, false), id, openable);
  }

  /** The same for the allowance that Output reserves; when its file cannot be reopened the
      allowance is given back. */
  lemma OutputsRespectTheQuota(digest: Digest, maxFile: int, maxTotal: int, calls: seq<Call>, owner: string,
      id: string, now: int, openable: bool, reopenable: bool, unlinked: bool)
    requires Sha(digest)
    ensures
      var s := Run(digest, Empty(maxFile, maxTotal), calls);
      var a := Output(s, owner, id, now, openable, reopenable, unlinked);
      && (a.reply.Info? ==>
        Total(a.state.files) <= s.maxTotal && |a.state.files| <= MAX_TRANSFERS
        && a.reply.transfer.size == s.maxFile)
      && (a.reply.Refused? && unlinked ==> a.state == s)
  {
    var s := Run(digest, Empty(maxFile, maxTotal), calls);
    var t := Fresh(owner, "result.bin", "application/octet-stream", s.maxFile, "", now, true);
    hide Run, Sha, Inv, Removed, Total;
    EveryRunKeepsTheBooks(digest, maxFile, maxTotal, calls);
    AdmittedWithinQuota(digest, s, t, id, openable);
    AdmissionUndone(digest, s, t, id, openable);
    hide CreateLocked;
  }

  /** Removing a transfer just created restores the store. */
  lemma UndoneCreation(s: State, t: Transfer, id: string)
    requires id !in s.files && s.log.Keys == s.files.Keys
    ensures Removed(s.(files := s.files[id := t], reserved := s.reserved + t.size, log := s.log[id := []]), id) == s
  {
    assert s.files[id := t] - {id} == s.files && s.log[id := []] - {id} == s.log;
  }

  // ---------------------------------------------------------------- owners

  predicate CalledBy(c: Call, owner: string)
  {
    match c
    case CallCreate(o, _, _, _, _, _, _, _) => o == owner
    case CallWrite(o, _, _, _, _, _, _) => o == owner
    case CallFinish(o, _, _, _) => o == owner
    case CallOpen(o, _, _, _, _) => o == owner
    case CallDelete(o, _, _, _) => o == owner
    case CallOutput(o, _, _, _, _, _) => o == owner
    case CallSeal(o, _, _, _, _, _, _) => o == owner
    case _ => false
  }

  /** Between two tables, only entries of one owner changed, went or came. */
  ghost predicate Confined(before: map<string, Transfer>, after: map<string, Transfer>, owner: string)
  {
    && (forall id | id in before && before[id].owner != owner :: id in after && after[id] == before[id])
    && (forall id | id in after && after[id].owner != owner :: id in before)
  }

  lemma ReplacementIsConfined(files: map<string, Transfer>, id: string, t: Transfer)
    requires id in files ==> files[id].owner == t.owner
    ensures Confined(files, files[id := t], t.owner)
  {
  }

  lemma RemovalIsConfined(files: map<string, Transfer>, id: string, owner: string)
    requires id in files && files[id].owner == owner
    ensures Confined(files, files - {id}, owner)
  {
  }

  lemma NothingIsConfined(files: map<string, Transfer>, owner: string)
    ensures Confined(files, files, owner)
  {
  }

  lemma CreationIsConfined(s: State, t: Transfer, id: string, openable: bool)
    ensures Confined(s.files, CreateLocked(s, t, id, openable).state.files, t.owner)
  {
    Admitted(s, t, id, openable);
    hide CreateLocked;
    NothingIsConfined(s.files, t.owner);
    if id !in s.files {
      ReplacementIsConfined(s.files, id, t);
    }
    hide Confined;
  }

  lemma OutputIsConfined(s: State, owner: string, id: string, now: int, openable: bool, reopenable: bool,
      unlinked: bool)
    ensures Confined(s.files, Output(s, owner, id, now, openable, reopenable, unlinked).state.files, owner)
  {
    var t := Fresh(owner, "result.bin", "application/octet-stream", s.maxFile, "", now, true);
    CreationIsConfined(s, t, id, openable);
    Admitted(s, t, id, openable);
    hide CreateLocked, Confined;
    var made := CreateLocked(s, t, id, openable);
    if made.reply.Info? {
      assert s.files[id := t] - {id} == s.files;
      NothingIsConfined(s.files, owner);
    }
  }

  lemma EntryCallIsConfined(digest: Digest, s: State, c: Call, owner: string, id: string)
    requires c.CallWrite? || c.CallFinish? || c.CallOpen? || c.CallSeal? || c.CallDelete?
    requires CalledBy(c, owner) && c.id == id
    ensures Confined(s.files, Apply(digest, s, c).files, owner)
  {
    NothingIsConfined(s.files, owner);
    hide Confined, Spliced;
    var t := Apply(digest, s, c);
    if c.CallDelete? && t != s {
      RemovalIsConfined(s.files, id, owner);
    } else if t != s {
      assert id in s.files && s.files[id].owner == owner && id in t.files && t.files[id].owner == owner;
      assert t.files == s.files[id := t.files[id]];
      ReplacementIsConfined(s.files, id, t.files[id]);
    }
  }

  /** A call by one owner neither changes, removes nor creates a transfer of another. */
  lemma OwnersAreIsolated(digest: Digest, s: State, c: Call, owner: string)
    requires CalledBy(c, owner)
    ensures
      var t := Apply(digest, s, c);
      && (forall id | id in s.files && s.files[id].owner != owner :: id in t.files && t.files[id] == s.files[id])
      && (forall id | id in t.files && t.files[id].owner != owner :: id in s.files)
  {
    if c.CallCreate? {
      NothingIsConfined(s.files, owner);
      CreationIsConfined(s, Fresh(owner, c.filename, c.mediaType, c.size, c.sha256, c.now, false), c.id, c.openable);
      hide CreateLocked, Confined, SimpleName, LowerHexDigest;
      assert Confined(s.files, Apply(digest, s, c).files, owner);
    } else if c.CallOutput? {
      OutputIsConfined(s, owner, c.id, c.now, c.openable, c.reopenable, c.unlinked);
      hide Output, Confined;
      assert Confined(s.files, Apply(digest, s, c).files, owner);
    } else {
      EntryCallIsConfined(digest, s, c, owner, c.id);
    }
    hide Apply;
  }

  // ---------------------------------------------------------------- bytes

  /** What a transfer that stays in the store may not lose in one call. */
  ghost predicate Keeps(before: Transfer, after: Transfer)
  {
    && after.owner == before.owner
    && (!before.produced ==> before.content <= after.content)
    && (before.complete ==>
      after.complete && after.content == before.content && after.sha256 == before.sha256
      && after.size == before.size)
  }

  lemma AppendKeepsBytes(digest: Digest, s: State, target: string, chunk: seq<byte>, failed: bool, id: string)
    requires Inv(digest, s) && id in s.files && target in s.files && !s.files[target].complete
    ensures id in Append(s, target, chunk, failed).state.files
      && Keeps(s.files[id], Append(s, target, chunk, failed).state.files[id])
  {
    assert Entry(digest, s.files[id], s.log[id]);
    hide Flatten, Inv;
  }

  lemma WriteKeepsBytes(digest: Digest, s: State, owner: string, target: string, offset: int, data: seq<byte>,
      now: int, openable: bool, stored: nat, id: string)
    requires Inv(digest, s) && id in s.files
    ensures var t := Write(s, owner, target, offset, data, now, openable, stored).state;
      id in t.files && Keeps(s.files[id], t.files[id])
  {
    hide Inv, Append;
    if target in s.files && !s.files[target].complete {
      AppendKeepsBytes(digest, s, target, if stored < |data| then data[..stored] else data, stored < |data|, id);
    }
  }

  lemma SealedFile(digest: Digest, s: State, owner: string, target: string, filename: string, mediaType: string,
      size: int, now: int, openable: bool)
    ensures
      var t := Seal(s, digest, owner, target, filename, mediaType, size, now, openable).state;
      t == s || (target in s.files && |s.files[target].content| == size && t.files
        == s.files[target :=
          s.files[target].(size := size, written := size, sha256 := digest(s.files[target].content), filename :=
          Base(filename), mediaType := mediaType, complete := true)])
  {
  }

  lemma SealKeepsBytes(digest: Digest, s: State, owner: string, target: string, filename: string, mediaType: string,
      size: int, now: int, openable: bool, id: string)
    requires Inv(digest, s) && id in s.files
    ensures var t := Seal(s, digest, owner, target, filename, mediaType, size, now, openable).state;
      id in t.files && Keeps(s.files[id], t.files[id])
  {
    var v := s.files[id];
    assert Entry(digest, v, s.log[id]);
    assert v.complete ==> |v.content| == v.size && digest(v.content) == v.sha256;
    SealedFile(digest, s, owner, target, filename, mediaType, size, now, openable);
    hide Inv, Entry, Seal;
  }

  lemma OutputKeepsBytes(s: State, owner: string, target: string, now: int, openable: bool, reopenable: bool,
      unlinked: bool, id: string)
    requires id in s.files
    ensures
      var t := Output(s, owner, target, now, openable, reopenable, unlinked).state;
      id in t.files ==> Keeps(s.files[id], t.files[id])
  {
  }

  lemma CreateKeepsBytes(s: State, owner: string, filename: string, mediaType: string, size: int, sha256: string,
      target: string, now: int, openable: bool, id: string)
    requires id in s.files
    ensures
      var t := Create(s, owner, filename, mediaType, size, sha256, target, now, openable).state;
      id in t.files ==> Keeps(s.files[id], t.files[id])
  {
    hide SimpleName, LowerHexDigest;
  }

  lemma ApplyKeepsBytes(digest: Digest, s: State, c: Call, id: string)
    requires Inv(digest, s) && id in s.files && id in Apply(digest, s, c).files
    ensures Keeps(s.files[id], Apply(digest, s, c).files[id])
  {
    hide Inv, Write, Seal, Total, Output, Create;
    match c
    case CallOutput(owner, target, now, openable, reopenable, unlinked) =>
      OutputKeepsBytes(s, owner, target, now, openable, reopenable, unlinked, id);
    case CallCreate(owner, filename, mediaType, size, sha256, target, now, openable) =>
      CreateKeepsBytes(s, owner, filename, mediaType, size, sha256, target, now, openable, id);
    case CallWrite(owner, target, offset, data, now, openable, stored) =>
      WriteKeepsBytes(digest, s, owner, target, offset, data, now, openable, stored, id);
    case CallSeal(owner, target, filename, mediaType, size, now, openable) =>
      SealKeepsBytes(digest, s, owner, target, filename, mediaType, size, now, openable, id);
    case _ =>
  }

  /** `id` is never removed on the way. */
  ghost predicate Lives(digest: Digest, s: State, calls: seq<Call>, id: string)
    decreases |calls|
  {
    id in s.files && (calls != [] ==> Lives(digest, Apply(digest, s, calls[0]), calls[1..], id))
  }

  /** As long as an entry lives, an upload's bytes are only ever extended, and once complete its
      bytes, size and digest are fixed. */
  lemma {:induction false} LivingBytesAreKept(digest: Digest, s: State, calls: seq<Call>, id: string)
    requires Sha(digest) && Inv(digest, s) && Lives(digest, s, calls, id)
    ensures var t := Run(digest, s, calls); id in t.files && Keeps(s.files[id], t.files[id])
    decreases |calls|
  {
    if calls != [] {
      hide Inv, Sha, Apply;
      var u := Apply(digest, s, calls[0]);
      ApplyKeeps(digest, s, calls[0]);
      assert id in u.files;
      ApplyKeepsBytes(digest, s, calls[0], id);
      ApplyKeepsOrigin(digest, s, calls[0], id);
      LivingBytesAreKept(digest, u, calls[1..], id);
    }
  }

  lemma ApplyKeepsOrigin(digest: Digest, s: State, c: Call, id: string)
    requires id in s.files && id in Apply(digest, s, c).files
    ensures Apply(digest, s, c).files[id].produced == s.files[id].produced
  {
  }

  /** A replayed chunk changes nothing, and is accepted exactly when it repeats stored bytes. */
  lemma ReplayChangesNothing(digest: Digest, s: State, owner: string, id: string, offset: nat, data: seq<byte>,
      now: int, stored: nat)
    requires Inv(digest, s) && Visible(s, owner, id, now) && !s.files[id].complete
    requires offset < s.files[id].written && 0 < |data| <= CHUNK_BYTES
    ensures
      var v := s.files[id];
      var a := Write(s, owner, id, offset, data, now, true, stored);
      && a.state == s
      && (a.reply.Offset? <==> offset + |data| <= v.written && v.content[offset..offset + |data|] == data)
      && (a.reply.Offset? ==> a.reply.written == v.written)
  {
    assert Entry(digest, s.files[id], s.log[id]);
  }

  /** A chunk at the end of an upload extends its bytes by exactly what was stored. */
  lemma NextChunkExtends(digest: Digest, s: State, owner: string, id: string, data: seq<byte>, now: int, stored: nat)
    requires Inv(digest, s) && Visible(s, owner, id, now) && !s.files[id].complete && !s.files[id].produced
    requires 0 < |data| <= CHUNK_BYTES && |data| <= s.files[id].size - s.files[id].written
    ensures
      var v := s.files[id];
      var a := Write(s, owner, id, v.written, data, now, true, stored);
      var chunk := if stored < |data| then data[..stored] else data;
      && a.reply == Offset(v.written + |chunk|, stored < |data|)
      && a.state.files[id].content == v.content + chunk
      && a.state.log[id] == s.log[id] + [chunk]
  {
    var v := s.files[id];
    assert id in s.log && Entry(digest, v, s.log[id]);
    assert |v.content| == v.written;
    hide Inv, Entry;
    var chunk := if stored < |data| then data[..stored] else data;
    assert Spliced(v.content, v.written, chunk) == v.content + chunk;
    hide Spliced;
  }

  // ---------------------------------------------------------------- readers

  lemma ReadTransferStays(digest: Digest, s: State, c: Call, id: string)
    requires id in s.files && s.files[id].readers > 0
    ensures id in Apply(digest, s, c).files
  {
    hide Appended;
  }

  lemma CreationKeepsPins(s: State, t: Transfer, id: string, openable: bool)
    ensures CreateLocked(s, t, id, openable).state.pins == s.pins
  {
  }

  lemma OutputKeepsPins(s: State, owner: string, id: string, now: int, openable: bool, reopenable: bool, unlinked: bool)
    ensures Output(s, owner, id, now, openable, reopenable, unlinked).state.pins == s.pins
  {
    CreationKeepsPins(s, Fresh(owner, "result.bin", "application/octet-stream", s.maxFile, "", now, true), id,
      openable);
    hide CreateLocked;
  }

  lemma OnlyReleaseUnpins(digest: Digest, s: State, c: Call, handle: nat)
    requires handle in s.pins && c != CallRelease(handle)
    ensures handle in Apply(digest, s, c).pins && Apply(digest, s, c).pins[handle] == s.pins[handle]
  {
    match c
    case CallOutput(owner, id, now, openable, reopenable, unlinked) =>
      OutputKeepsPins(s, owner, id, now, openable, reopenable, unlinked);
      hide Output;
    case CallCreate(owner, filename, mediaType, size, sha256, id, now, openable) =>
      CreationKeepsPins(s, Fresh(owner, filename, mediaType, size, sha256, now, false), id, openable);
      hide CreateLocked, SimpleName, LowerHexDigest;
    case CallWrite(owner, id, offset, data, now, openable, stored) => hide Appended;
    case CallSweep(now, stuck) => hide Total, Kept;
    case _ =>
  }

  lemma ApplyKeepsPin(digest: Digest, s: State, c: Call, handle: nat)
    requires Inv(digest, s) && handle in s.pins && c != CallRelease(handle)
    ensures
      var t := Apply(digest, s, c);
      handle in t.pins && t.pins[handle] == s.pins[handle] && t.pins[handle] in t.files
  {
    assert handle in PinsOf(s.pins, s.pins[handle]);
    assert s.pins[handle] in s.files && s.files[s.pins[handle]].readers == |PinsOf(s.pins, s.pins[handle])| > 0;
    hide Inv, Apply, PinsOf;
    OnlyReleaseUnpins(digest, s, c, handle);
    ReadTransferStays(digest, s, c, s.pins[handle]);
  }

  /** Until its release function is called, a reader's transfer survives every deletion and sweep
      with the bytes it was opened on. */
  lemma {:induction false} PinnedTransferSurvives(digest: Digest, s: State, calls: seq<Call>, handle: nat)
    requires Sha(digest) && Inv(digest, s) && handle in s.pins && CallRelease(handle) !in calls
    ensures
      var t := Run(digest, s, calls);
      && handle in t.pins && t.pins[handle] == s.pins[handle]
      && t.pins[handle] in t.files && s.pins[handle] in s.files
      && t.files[t.pins[handle]].complete && t.files[t.pins[handle]].content == s.files[s.pins[handle]].content
    decreases |calls|
  {
    if calls != [] {
      var u := Apply(digest, s, calls[0]);
      assert s.pins[handle] in s.files && s.files[s.pins[handle]].complete;
      hide Inv, Sha, Apply;
      ApplyKeeps(digest, s, calls[0]);
      ApplyKeepsPin(digest, s, calls[0], handle);
      ApplyKeepsBytes(digest, s, calls[0], s.pins[handle]);
      PinnedTransferSurvives(digest, u, calls[1..], handle);
    }
  }
}
