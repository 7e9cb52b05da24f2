/** Which file names transfers carry (internal/mcpserver/transfers.go:123-129, 310-341). */
module TransferNames {
  import opened FileNames
  import opened Transfers
  import opened TransferLaws

  /** A name that names one file, apart from the slash itself. */
  ghost predicate OneElement(name: string)
  {
    name != "" && ('/' in name <==> name == "/")
  }

  /** A name is taken exactly when it is not empty, not a dot, has none of the forbidden characters
      and has no slash, or is the slash alone. */
  lemma AdmittedNamesExactly(name: string)
    ensures SimpleName(name) <==>
      && name != "" && name != "." && '\\' !in name && '\r' !in name && '\n' !in name && '\0' !in name
      && ('/' !in name || name == "/")
  {
    if name != "" {
      OwnBaseExactly(name);
    }
  }

  /** An upload named "/" is admitted whenever the quotas allow it. */
  lemma SlashIsAdmitted(s: State, owner: string, mediaType: string, size: int, digest: string, id: string, now: int)
    requires LowerHexDigest(digest) && id !in s.files
    requires 0 <= size <= s.maxFile && size <= s.maxTotal - s.reserved && |s.files| < MAX_TRANSFERS
    ensures
      var t := Create(s, owner, "/", mediaType, size, digest, id, now, true);
      t.reply.Info? && id in t.state.files && t.state.files[id].filename == "/"
  {
    AdmittedNamesExactly("/");
  }

  ghost predicate Named(files: map<string, Transfer>)
  {
    forall id | id in files :: OneElement(files[id].filename)
  }

  lemma CreationKeepsNames(s: State, t: Transfer, id: string, openable: bool)
    requires Named(s.files) && OneElement(t.filename)
    ensures Named(CreateLocked(s, t, id, openable).state.files)
  {
    hide OneElement;
  }

  lemma WriteKeepsNames(s: State, owner: string, id: string, offset: int, data: seq<byte>, now: int, openable: bool,
      stored: nat)
    requires Named(s.files)
    ensures Named(Write(s, owner, id, offset, data, now, openable, stored).state.files)
  {
    hide OneElement, Spliced;
  }

  lemma OutputKeepsNames(s: State, owner: string, id: string, now: int, openable: bool, reopenable: bool,
      unlinked: bool)
    requires Named(s.files)
    ensures Named(Output(s, owner, id, now, openable, reopenable, unlinked).state.files)
  {
    var t := Fresh(owner, "result.bin", "application/octet-stream", s.maxFile, "", now, true);
    assert OneElement(t.filename) by {
      assert '/' !in "result.bin";
    }
    hide OneElement;
    CreationKeepsNames(s, t, id, openable);
  }

  lemma SealKeepsNames(digest: Digest, s: State, owner: string, id: string, filename: string, mediaType: string,
      size: int, now: int, openable: bool)
    requires Named(s.files)
    ensures Named(Seal(s, digest, owner, id, filename, mediaType, size, now, openable).state.files)
  {
    BaseIsOneElement(filename);
    assert OneElement(Base(filename));
    hide OneElement, Base;
  }

  lemma OwnedKeepNames(digest: Digest, s: State, owner: string, id: string, now: int, flag: bool, handle: nat)
    requires Named(s.files)
    ensures Named(Finish(s, digest, owner, id, now, flag).state.files)
    ensures Named(Open(s, owner, id, now, flag, handle).state.files)
    ensures Named(Delete(s, owner, id, now, flag).state.files)
  {
    hide OneElement;
  }

  lemma OthersKeepNames(s: State, handle: nat, id: string, content: seq<byte>, now: int, stuck: set<string>)
    requires Named(s.files)
    ensures Named(Release(s, handle).state.files) && Named(Produce(s, id, content).state.files)
      && Named(Sweep(s, now, stuck).files)
  {
    hide OneElement, Swept;
  }

  lemma CallKeepsNames(digest: Digest, s: State, c: Call)
    requires Named(s.files)
    ensures Named(Apply(digest, s, c).files)
  {
    hide Named, OneElement, Base, LowerHexDigest, CreateLocked, Write, Finish, Open, Release, Delete, Sweep, Output,
      Produce, Seal;
    match c
    case CallSetLimits(_, _) =>
    case CallCreate(owner, filename, mediaType, size, sha256, id, now, openable) =>
      if SimpleName(filename) {
        AdmittedIsOneElement(filename);
        CreationKeepsNames(s, Fresh(owner, filename, mediaType, size, sha256, now, false), id, openable);
      }
    case CallWrite(owner, id, offset, data, now, openable, stored) =>
      WriteKeepsNames(s, owner, id, offset, data, now, openable, stored);
    case CallFinish(owner, id, now, openable) => OwnedKeepNames(digest, s, owner, id, now, openable, 0);
    case CallOpen(owner, id, now, openable, handle) => OwnedKeepNames(digest, s, owner, id, now, openable, handle);
    case CallDelete(owner, id, now, unlinked) => OwnedKeepNames(digest, s, owner, id, now, unlinked, 0);
    case CallRelease(handle) => OthersKeepNames(s, handle, "", [], 0, {});
    case CallProduce(id, content) => OthersKeepNames(s, 0, id, content, 0, {});
    case CallSweep(now, stuck) => OthersKeepNames(s, 0, "", [], now, stuck);
    case CallOutput(owner, id, now, openable, reopenable, unlinked) =>
      OutputKeepsNames(s, owner, id, now, openable, reopenable, unlinked);
    case CallSeal(owner, id, filename, mediaType, size, now, openable) =>
      SealKeepsNames(digest, s, owner, id, filename, mediaType, size, now, openable);
  }

  lemma AdmittedIsOneElement(name: string)
    requires SimpleName(name)
    ensures OneElement(name)
  {
    BaseIsOneElement(name);
  }

  lemma {:induction false} CallsKeepNames(digest: Digest, s: State, calls: seq<Call>)
    requires Named(s.files)
    ensures Named(Run(digest, s, calls).files)
    decreases |calls|
  {
    hide Apply, Named;
    if calls != [] {
      CallKeepsNames(digest, s, calls[0]);
      CallsKeepNames(digest, Apply(digest, s, calls[0]), calls[1..]);
    }
  }

  /** After any calls every transfer is named by one element: its name contains a slash only if it
      is the slash. */
  lemma NamesAreElements(digest: Digest, maxFile: int, maxTotal: int, calls: seq<Call>)
    ensures
      var files := Run(digest, Empty(maxFile, maxTotal), calls).files;
      forall id | id in files :: OneElement(files[id].filename)
  {
    CallsKeepNames(digest, Empty(maxFile, maxTotal), calls);
  }
}
