/** filepath.Base on Unix, by which transfers decide whether a file name is simple
    (internal/mcpserver/transfers.go:126, 337). */
module FileNames {

  function WithoutTrailing(path: string): (r: string)
    ensures r == "" || r[|r| - 1] != '/'
  {
    if path != "" && path[|path| - 1] == '/' then WithoutTrailing(path[..|path| - 1]) else path
  }

  /** What stands behind the last slash. */
  function LastElement(path: string): (r: string)
    ensures '/' !in r
  {
    if path == "" || path[|path| - 1] == '/' then ""
    else LastElement(path[..|path| - 1]) + [path[|path| - 1]]
  }

  function Base(path: string): string
  {
    if path == "" then "."
    else
      var element := LastElement(WithoutTrailing(path));
      if element == "" then "/" else element
  }

  lemma {:induction false} WholeElement(path: string)
    requires '/' !in path
    ensures LastElement(path) == path
  {
    if path != "" {
      assert path[|path| - 1] in path;
      assert forall c | c in path[..|path| - 1] :: c in path;
      WholeElement(path[..|path| - 1]);
    }
  }

  lemma UntrimmedElement(path: string)
    requires '/' !in path
    ensures WithoutTrailing(path) == path
  {
  }

  /** No base contains a slash, except the base of nothing but slashes. */
  lemma BaseIsOneElement(path: string)
    ensures Base(path) != ""
    ensures '/' in Base(path) <==> Base(path) == "/"
  {
  }

  /** A nonempty name is its own base exactly when it has no slash or is the slash alone. */
  lemma OwnBaseExactly(name: string)
    requires name != ""
    ensures Base(name) == name <==> '/' !in name || name == "/"
  {
    BaseIsOneElement(name);
    if '/' !in name {
      UntrimmedElement(name);
      WholeElement(name);
    }
    assert Base("/") == "/" by {
      assert "/"[..0] == "";
    }
  }

  lemma {:induction false} SlashesGo(path: string, slashes: string)
    requires forall c | c in slashes :: c == '/'
    ensures WithoutTrailing(path + slashes) == WithoutTrailing(path)
    decreases |slashes|
  {
    if slashes == "" {
      assert path + slashes == path;
    } else {
      var fewer := slashes[..|slashes| - 1];
      assert slashes[|slashes| - 1] in slashes && forall c | c in fewer :: c in slashes;
      assert (path + slashes)[..|path + slashes| - 1] == path + fewer;
      SlashesGo(path, fewer);
    }
  }

  lemma {:induction false} ElementBehindSlash(directory: string, name: string)
    requires '/' !in name && (directory == "" || directory[|directory| - 1] == '/')
    ensures LastElement(directory + name) == name
    decreases |name|
  {
    if name == "" {
      assert directory + name == directory;
    } else {
      var shorter := name[..|name| - 1];
      assert name[|name| - 1] in name && forall c | c in shorter :: c in name;
      assert (directory + name)[..|directory + name| - 1] == directory + shorter;
      ElementBehindSlash(directory, shorter);
    }
  }

  /** The base of a path is the name behind its last slash, whatever slashes trail it. */
  lemma BaseIsLastElement(directory: string, name: string, slashes: string)
    requires name != "" && '/' !in name && (directory == "" || directory[|directory| - 1] == '/')
    requires forall c | c in slashes :: c == '/'
    ensures Base(directory + name + slashes) == name
  {
    var path := directory + name;
    SlashesGo(path, slashes);
    ElementBehindSlash(directory, name);
    assert path[|path| - 1] == name[|name| - 1] && name[|name| - 1] in name;
    assert WithoutTrailing(path) == path;
  }

  /** Nothing has the base ".", and nothing but slashes has the base "/". */
  lemma BaseOfNothing(slashes: string)
    requires forall c | c in slashes :: c == '/'
    ensures Base(slashes) == if slashes == "" then "." else "/"
  {
    SlashesGo("", slashes);
    assert "" + slashes == slashes;
  }
}
