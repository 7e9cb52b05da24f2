/** Validation of a task file and everything it includes (internal/ansible/role_validation.go:206-227,
    internal/ansible/task_targets.go:67-123). It succeeds exactly when every file reachable through
    includes obeys every rule and the reachable include graph is acyclic. */
module IncludeClosure {
  import opened Walks
  import opened RoleRules

  /** A file as the YAML decoder sees it: rejected, or the children of its document node. */
  datatype File = Malformed | Document(content: seq<Yaml>)

  /** The role directory. Paths are already cleaned; escapes and candidate stand for the path tests
      and for the choice between a path beside the including file and one below tasks. */
  datatype Role = Role(rules: Rules, files: map<string, File>, escapes: string -> bool,
      candidate: (string, string) -> string)

  function IncludesOf(f: File): set<string>
  {
    if f.Document? && f.content != [] then IncludesOfList(f.content[0]) else {}
  }

  ghost function IncludeArrows(r: Role): Arrows
  {
    set p, t | p in r.files && t in IncludesOf(r.files[p]) :: (p, r.candidate(p, t))
  }

  predicate SoundDocument(r: Rules, f: File)
  {
    && f.Document? && |f.content| == 1 && f.content[0].Sequence? && f.content[0].items != []
    && PlainTree(r, f.content[0])
    && SoundList(r, f.content[0])
  }

  predicate SoundFile(r: Role, path: string)
  {
    !r.escapes(path) && path in r.files && SoundDocument(r.rules, r.files[path])
  }

  ghost predicate AllSound(r: Role, path: string)
  {
    forall q | Reaches(IncludeArrows(r), path, q) :: SoundFile(r, q)
  }

  ghost predicate NoneOf(r: Role, path: string, visiting: set<string>)
  {
    forall q | Reaches(IncludeArrows(r), path, q) :: q !in visiting
  }

  ghost predicate OnCycle(a: Arrows, q: string)
  {
    exists s :: (q, s) in a && Reaches(a, s, q)
  }

  ghost predicate NoCycle(r: Role, path: string)
  {
    forall q | Reaches(IncludeArrows(r), path, q) :: !OnCycle(IncludeArrows(r), q)
  }

  /** Every file reachable from path is sound, none of them is being visited, none includes itself. */
  ghost predicate Good(r: Role, path: string, visiting: set<string>)
  {
    AllSound(r, path) && NoneOf(r, path, visiting) && NoCycle(r, path)
  }

  // ---------------------------------------------------------------- one step of the walk

  lemma {:induction false} FirstStep(a: Arrows, p: string, q: string)
    requires Reaches(a, p, q) && p != q
    ensures exists s :: (p, s) in a && Reaches(a, s, q)
  {
    var w :| WalkBetween(a, w, p, q);
    assert (w[0], w[1]) in a;
    assert WalkBetween(a, w[1..], w[1], q);
  }

  lemma GoodNext(r: Role, path: string, visiting: set<string>, next: string)
    requires Good(r, path, visiting) && (path, next) in IncludeArrows(r)
    ensures Good(r, next, visiting + {path})
  {
    var a := IncludeArrows(r);
    hide Reaches, SoundFile, IncludeArrows, OnCycle;
    ReachesItself(a, path);
    ReachesAcross(a, path, next);
    forall q | Reaches(a, next, q)
      ensures SoundFile(r, q) && q !in visiting + {path} && !OnCycle(a, q)
    {
      ReachesOn(a, path, next, q);
      ClosesCycle(a, path, next);
    }
  }

  lemma ClosesCycle(a: Arrows, path: string, next: string)
    requires (path, next) in a
    ensures Reaches(a, next, path) ==> OnCycle(a, path)
  {
    hide Reaches;
  }

  lemma GoodHere(r: Role, path: string, visiting: set<string>)
    requires SoundFile(r, path) && path !in visiting
    requires forall s | (path, s) in IncludeArrows(r) :: Good(r, s, visiting + {path})
    ensures Good(r, path, visiting)
  {
    var a := IncludeArrows(r);
    hide Reaches, SoundFile, IncludeArrows;
    forall q | Reaches(a, path, q)
      ensures SoundFile(r, q) && q !in visiting && !OnCycle(a, q)
    {
      if q == path {
        forall s | (path, s) in a
          ensures !Reaches(a, s, path)
        {
          assert Good(r, s, visiting + {path});
        }
      } else {
        FirstStep(a, path, q);
        var s :| (path, s) in a && Reaches(a, s, q);
        assert Good(r, s, visiting + {path});
      }
    }
  }

  /** The walk may go file by file, remembering the files it is inside of. */
  lemma GoodUnfolds(r: Role, path: string, visiting: set<string>)
    ensures Good(r, path, visiting) <==>
      && SoundFile(r, path) && path !in visiting
      && forall s | (path, s) in IncludeArrows(r) :: Good(r, s, visiting + {path})
  {
    hide SoundFile, IncludeArrows;
    if Good(r, path, visiting) {
      ReachesItself(IncludeArrows(r), path);
      hide Good, Reaches;
      forall s | (path, s) in IncludeArrows(r)
        ensures Good(r, s, visiting + {path})
      {
        GoodNext(r, path, visiting, s);
      }
      GoodImpliesSound(r, path, visiting);
    } else if SoundFile(r, path) && path !in visiting && forall s | (path, s) in IncludeArrows(r) ::
      Good(r, s, visiting + {path}) {
      hide Good, Reaches;
      GoodHere(r, path, visiting);
    }
  }

  lemma GoodImpliesSound(r: Role, path: string, visiting: set<string>)
    requires Good(r, path, visiting)
    ensures SoundFile(r, path) && path !in visiting
  {
    hide SoundFile, IncludeArrows;
    ReachesItself(IncludeArrows(r), path);
    hide Reaches;
  }

  lemma GoodIncludes(r: Role, path: string, visiting: set<string>)
    requires path in r.files
    ensures (forall s | (path, s) in IncludeArrows(r) :: Good(r, s, visiting))
      <==> forall t | t in IncludesOf(r.files[path]) :: Good(r, r.candidate(path, t), visiting)
  {
    hide Good, IncludesOf;
    forall t | t in IncludesOf(r.files[path])
      ensures (path, r.candidate(path, t)) in IncludeArrows(r)
    {
    }
  }

  // ---------------------------------------------------------------- one file, task by task

  ghost predicate IncludesGood(r: Role, path: string, visiting: set<string>, targets: set<string>)
  {
    forall t | t in targets :: Good(r, r.candidate(path, t), visiting)
  }

  ghost predicate AppliesGood(r: Role, path: string, visiting: set<string>, value: Yaml)
  {
    SoundApplies(r.rules, value) && IncludesGood(r, path, visiting, AppliedIncludes(value))
  }

  ghost predicate EntryGood(r: Role, path: string, visiting: set<string>, task: Yaml, i: nat)
    requires task.Mapping? && i < |task.entries|
  {
    SoundEntry(r.rules, task, i) && IncludesGood(r, path, visiting, IncludesOfEntry(task, i))
  }

  ghost predicate TaskGood(r: Role, path: string, visiting: set<string>, task: Yaml)
  {
    SoundTask(r.rules, task) && IncludesGood(r, path, visiting, IncludesOfTask(task))
  }

  ghost predicate ListGood(r: Role, path: string, visiting: set<string>, list: Yaml)
  {
    SoundList(r.rules, list) && IncludesGood(r, path, visiting, IncludesOfList(list))
  }

  lemma AppliesAreTasks(r: Role, path: string, visiting: set<string>, value: Yaml)
    ensures AppliesGood(r, path, visiting, value) <==> value.Mapping? ==>
      forall i | 0 <= i < |value.entries| && IsApply(value.entries[i]) ::
        TaskGood(r, path, visiting, value.entries[i].value)
  {
    hide Good, SoundTask, IncludesOfTask;
  }

  lemma ListIsTasks(r: Role, path: string, visiting: set<string>, list: Yaml)
    ensures ListGood(r, path, visiting, list) <==>
      list.Sequence? && forall i | 0 <= i < |list.items| :: TaskGood(r, path, visiting, list.items[i])
  {
    hide Good, SoundTask, IncludesOfTask;
  }

  lemma TaskIsEntries(r: Role, path: string, visiting: set<string>, task: Yaml)
    ensures TaskGood(r, path, visiting, task) <==>
      && task.Mapping? && TargetsOk(r.rules, task.entries)
      && (forall i | 0 <= i < |task.entries| && IsArgs(task.entries, i) ::
        AppliesGood(r, path, visiting, task.entries[i].value))
      && forall i | 0 <= i < |task.entries| && Effective(task.entries, i) :: EntryGood(r, path, visiting, task, i)
  {
    hide Good, SoundApplies, SoundEntry, IncludesOfEntry, AppliedIncludes, Effective, TargetsOk;
  }

  lemma GoodOneMore(r: Role, path: string, visiting: set<string>, targets: set<string>, target: string)
    ensures IncludesGood(r, path, visiting, targets + {target})
      <==> IncludesGood(r, path, visiting, targets) && Good(r, r.candidate(path, target), visiting)
  {
    hide Good;
    if IncludesGood(r, path, visiting, targets + {target}) {
      assert target in targets + {target};
    }
  }

  lemma EntryIsNested(r: Role, path: string, visiting: set<string>, task: Yaml, i: nat)
    requires task.Mapping? && i < |task.entries|
    ensures
      var value := task.entries[i].value;
      var mod := ModuleName(TextOf(task.entries[i].key));
      EntryGood(r, path, visiting, task, i) <==>
        && KeywordOk(r.rules, task.entries, TextOf(task.entries[i].key), value)
        && (mod in NESTED ==> ListGood(r, path, visiting, value))
        && (mod in INCLUDES ==>
          AppliesGood(r, path, visiting, value)
          && Good(r, r.candidate(path, IncludeTarget(value)), visiting))
  {
    hide Good, SoundApplies, SoundList, IncludesOfList, AppliedIncludes, KeywordOk, IncludeTarget, ModuleName;
    var value := task.entries[i].value;
    var mod := ModuleName(TextOf(task.entries[i].key));
    assert NESTED !! INCLUDES;
    if mod in INCLUDES {
      assert IncludesOfEntry(task, i) == AppliedIncludes(value) + {IncludeTarget(value)};
      GoodOneMore(r, path, visiting, AppliedIncludes(value), IncludeTarget(value));
      hide IncludesGood;
      assert mod !in NESTED;
      assert SoundEntry(r.rules, task, i) <==>
        KeywordOk(r.rules, task.entries, TextOf(task.entries[i].key), value)
        && SoundApplies(r.rules, value);
    } else if mod in NESTED {
      assert IncludesOfEntry(task, i) == IncludesOfList(value);
      hide IncludesGood;
      assert mod !in INCLUDES;
      assert SoundEntry(r.rules, task, i) <==>
        KeywordOk(r.rules, task.entries, TextOf(task.entries[i].key), value)
        && SoundList(r.rules, value);
    } else {
      assert IncludesOfEntry(task, i) == {};
      assert SoundEntry(r.rules, task, i) <==> KeywordOk(r.rules, task.entries, TextOf(task.entries[i].key), value);
    }
  }

  // ---------------------------------------------------------------- the walk itself

  class IncludeWalk {
    const role: Role
    var visiting: set<string>

    constructor (role: Role)
      ensures this.role == role && visiting == {}
    {
      this.role := role;
      visiting := {};
    }

    method ValidateEntry(path: string) returns (ok: bool)
      modifies this`visiting
      ensures visiting == old(visiting)
      ensures ok <==> Good(role, path, old(visiting))
      decreases role.files.Keys - visiting, 0
    {
      hide Good, ListGood, SoundDocument, IncludesOf, IncludesOfList, IncludeArrows;
      GoodUnfolds(role, path, visiting);
      if role.escapes(path) || path in visiting {
        return false;
      }
      ghost var before := visiting;
      visiting := visiting + {path};
      if path !in role.files {
        visiting := visiting - {path};
        return false;
      }
      GoodIncludes(role, path, visiting);
      DocumentIsList(role, path, visiting);
      var file := role.files[path];
      ok := file.Document? && |file.content| == 1 && file.content[0].Sequence? && file.content[0].items != []
        && PlainTree(role.rules, file.content[0]);
      if ok {
        assert role.files.Keys - visiting < role.files.Keys - before by {
          assert path in role.files.Keys - before;
        }
        ok := ValidateList(path, file.content[0]);
      }
      visiting := visiting - {path};
      assert visiting == before;
    }

    method ValidateList(path: string, list: Yaml) returns (ok: bool)
      modifies this`visiting
      ensures visiting == old(visiting)
      ensures ok <==> ListGood(role, path, visiting, list)
      decreases role.files.Keys - visiting, 1, list, 2
    {
      hide ListGood, TaskGood;
      ListIsTasks(role, path, visiting, list);
      if !list.Sequence? {
        return false;
      }
      for i := 0 to |list.items|
        invariant visiting == old(visiting)
        invariant forall j | 0 <= j < i :: TaskGood(role, path, visiting, list.items[j])
      {
        ok := ValidateTask(path, list.items[i]);
        if !ok {
          return;
        }
      }
      return true;
    }

    /** The tasks a mapping hands to included files through apply, each checked as a list of its own. */
    method ValidateApplies(path: string, value: Yaml) returns (ok: bool)
      requires value.Mapping?
      modifies this`visiting
      ensures visiting == old(visiting)
      ensures ok <==> AppliesGood(role, path, visiting, value)
      decreases role.files.Keys - visiting, 1, value, 0
    {
      hide AppliesGood, TaskGood;
      AppliesAreTasks(role, path, visiting, value);
      for i := 0 to |value.entries|
        invariant visiting == old(visiting)
        invariant forall j | 0 <= j < i && IsApply(value.entries[j]) ::
          TaskGood(role, path, visiting, value.entries[j].value)
      {
        if TextOf(value.entries[i].key) == "apply" {
          ok := ValidateTask(path, value.entries[i].value);
          if !ok {
            return;
          }
        }
      }
      return true;
    }

    method ValidateTask(path: string, task: Yaml) returns (ok: bool)
      modifies this`visiting
      ensures visiting == old(visiting)
      ensures ok <==> TaskGood(role, path, visiting, task)
      decreases role.files.Keys - visiting, 1, task, 1
    {
      hide TaskGood, EntryGood, AppliesGood, TargetsOk;
      TaskIsEntries(role, path, visiting, task);
      if !task.Mapping? {
        return false;
      }
      var values := LastEntries(task.entries);
      ok := ValidateTaskTargetAttributes(role.rules, task.entries);
      if !ok {
        return;
      }
      if "args" in values && task.entries[values["args"]].value.Mapping? {
        ok := ValidateApplies(path, task.entries[values["args"]].value);
        if !ok {
          assert IsArgs(task.entries, values["args"]);
          return;
        }
      } else if "args" in values {
        NotMapping(role, path, visiting, task.entries[values["args"]].value);
      }
      assert forall i | 0 <= i < |task.entries| && IsArgs(task.entries, i) :: i == values["args"];
      var keys := values.Keys;
      while keys != {}
        invariant keys <= values.Keys && visiting == old(visiting)
        invariant forall k | k in values && k !in keys :: EntryGood(role, path, visiting, task, values[k])
        decreases keys
      {
        var key :| key in keys;
        ok := ValidateTaskEntry(path, task, values[key]);
        if !ok {
          assert Effective(task.entries, values[key]);
          return;
        }
        keys := keys - {key};
      }
      assert forall i | 0 <= i < |task.entries| && Effective(task.entries, i) ::
        i == values[TextOf(task.entries[i].key)];
      return true;
    }

    method ValidateTaskEntry(path: string, task: Yaml, i: nat) returns (ok: bool)
      requires task.Mapping? && i < |task.entries|
      modifies this`visiting
      ensures visiting == old(visiting)
      ensures ok <==> EntryGood(role, path, visiting, task, i)
      decreases role.files.Keys - visiting, 1, task, 0
    {
      hide EntryGood, KeywordOk, ListGood, AppliesGood, Good, IncludeTarget;
      EntryIsNested(role, path, visiting, task, i);
      var key, value := TextOf(task.entries[i].key), task.entries[i].value;
      var mod := ModuleName(key);
      ok := KeywordOk(role.rules, task.entries, key, value);
      if ok && mod in NESTED {
        ok := ValidateList(path, value);
      }
      if ok && mod in INCLUDES {
        if value.Mapping? {
          ok := ValidateApplies(path, value);
        } else {
          NotMapping(role, path, visiting, value);
        }
        if ok {
          ok := ValidateEntry(role.candidate(path, IncludeTarget(value)));
        }
      }
    }
  }

  lemma DocumentIsList(r: Role, path: string, visiting: set<string>)
    requires path in r.files
    ensures
      var f := r.files[path];
      (SoundDocument(r.rules, f) && forall t | t in IncludesOf(f) :: Good(r, r.candidate(path, t), visiting)) <==>
        && f.Document? && |f.content| == 1 && f.content[0].Sequence? && f.content[0].items != []
        && PlainTree(r.rules, f.content[0]) && ListGood(r, path, visiting, f.content[0])
  {
    hide Good, PlainTree, SoundList, IncludesOfList;
  }

  lemma NotMapping(r: Role, path: string, visiting: set<string>, value: Yaml)
    requires !value.Mapping?
    ensures AppliesGood(r, path, visiting, value)
  {
  }

  /** The Go map from key to value node, as the position of the entry it keeps. */
  method LastEntries(entries: seq<Entry>) returns (values: map<string, nat>)
    ensures forall k | k in values ::
      values[k] < |entries| && TextOf(entries[values[k]].key) == k
      && Effective(entries, values[k])
    ensures forall i | 0 <= i < |entries| && Effective(entries, i) ::
      TextOf(entries[i].key) in values && values[TextOf(entries[i].key)] == i
  {
    values := map[];
    for i := 0 to |entries|
      invariant forall k | k in values :: values[k] < i && TextOf(entries[values[k]].key) == k
      invariant forall j | 0 <= j < i :: TextOf(entries[j].key) in values && values[TextOf(entries[j].key)] >= j
    {
      values := values[TextOf(entries[i].key) := i];
    }
  }

  method ValidateTaskTargetAttributes(r: Rules, entries: seq<Entry>) returns (ok: bool)
    ensures ok <==> TargetsOk(r, entries)
  {
    if r.scope.None? {
      return true;
    }
    var scope := r.scope.value;
    hide HostsLocked;
    for i := 0 to |entries|
      invariant forall j | 0 <= j < i :: TargetOk(r, scope, entries[j])
    {
      var key, value := TextOf(entries[i].key), entries[i].value;
      if key == "connection" || key == "local_action" {
        return false;
      }
      if key == "delegate_to" {
        if !value.Scalar? || value.tag != "!!str" {
          return false;
        }
        var target := r.delegate(value.value);
        if target.SelfTarget? {
          continue;
        }
        var candidates: seq<string>;
        if target.GroupTarget? {
          candidates := if target.group in scope.groups then scope.groups[target.group] else [];
          if target.index >= |candidates| {
            return false;
          }
        } else {
          candidates := [target.name];
        }
        var locked := AllLocked(candidates, scope.hosts);
        if !locked {
          return false;
        }
      }
    }
    return true;
  }

  method AllLocked(candidates: seq<string>, hosts: seq<string>) returns (locked: bool)
    ensures locked <==> HostsLocked(candidates, hosts)
  {
    for c := 0 to |candidates|
      invariant forall d | 0 <= d < c :: candidates[d] in hosts
    {
      var found := false;
      for h := 0 to |hosts|
        invariant found <==> candidates[c] in hosts[..h]
      {
        found := found || candidates[c] == hosts[h];
      }
      assert hosts[..|hosts|] == hosts;
      if !found {
        return false;
      }
    }
    return true;
  }

  // ---------------------------------------------------------------- what acceptance guarantees

  /** The tasks of a list at every depth: in blocks, under always, and behind apply. */
  ghost function TasksInApplies(value: Yaml): set<Yaml>
    decreases value, 0
  {
    if value.Mapping? then
      set i, t | 0 <= i < |value.entries| && IsApply(value.entries[i]) && t in TasksIn(value.entries[i].value) :: t
    else {}
  }

  ghost function TasksInEntry(task: Yaml, i: nat): set<Yaml>
    requires task.Mapping? && i < |task.entries|
    decreases task, 0
  {
    var mod, value := ModuleName(TextOf(task.entries[i].key)), task.entries[i].value;
    (if mod in NESTED then TasksInList(value) else if mod in INCLUDES then TasksInApplies(value) else {})
    + if IsArgs(task.entries, i) then TasksInApplies(value) else {}
  }

  ghost function TasksIn(task: Yaml): set<Yaml>
    decreases task, 1
  {
    {task}
    + if task.Mapping? then
        set i, t | 0 <= i < |task.entries| && Effective(task.entries, i) && t in TasksInEntry(task, i) :: t
      else {}
  }

  ghost function TasksInList(list: Yaml): set<Yaml>
    decreases list, 2
  {
    if list.Sequence? then set i, t | 0 <= i < |list.items| && t in TasksIn(list.items[i]) :: t else {}
  }

  /** The rules of one task, apart from what it nests. */
  ghost predicate ObeysRules(r: Rules, task: Yaml)
  {
    && task.Mapping?
    && TargetsOk(r, task.entries)
    && forall i | 0 <= i < |task.entries| && Effective(task.entries, i) ::
      KeywordOk(r, task.entries, TextOf(task.entries[i].key), task.entries[i].value)
  }

  lemma {:induction false} SoundAppliesObey(r: Rules, value: Yaml)
    requires SoundApplies(r, value)
    ensures forall t | t in TasksInApplies(value) :: ObeysRules(r, t)
    decreases value, 0
  {
    hide ObeysRules;
    if value.Mapping? {
      forall i | 0 <= i < |value.entries| && IsApply(value.entries[i])
        ensures forall t | t in TasksIn(value.entries[i].value) :: ObeysRules(r, t)
      {
        SoundTaskObeys(r, value.entries[i].value);
      }
    }
  }

  lemma {:induction false} SoundEntryObeys(r: Rules, task: Yaml, i: nat)
    requires task.Mapping? && i < |task.entries| && SoundEntry(r, task, i)
    requires IsArgs(task.entries, i) ==> SoundApplies(r, task.entries[i].value)
    ensures forall t | t in TasksInEntry(task, i) :: ObeysRules(r, t)
    decreases task, 0
  {
    hide ObeysRules, KeywordOk, SoundList, SoundApplies, TasksInList, TasksInApplies;
    var mod, value := ModuleName(TextOf(task.entries[i].key)), task.entries[i].value;
    if mod in NESTED {
      SoundListObeys(r, value);
    } else if mod in INCLUDES {
      SoundAppliesObey(r, value);
    }
    if IsArgs(task.entries, i) {
      SoundAppliesObey(r, value);
    }
  }

  lemma {:induction false} SoundTaskObeys(r: Rules, task: Yaml)
    requires SoundTask(r, task)
    ensures forall t | t in TasksIn(task) :: ObeysRules(r, t)
    decreases task, 1
  {
    hide TasksInEntry, SoundApplies, Effective;
    assert ObeysRules(r, task) by {
      hide SoundNested, KeywordOk, TargetsOk;
    }
    hide ObeysRules, SoundEntry, TargetsOk;
    forall i | 0 <= i < |task.entries| && Effective(task.entries, i)
      ensures forall t | t in TasksInEntry(task, i) :: ObeysRules(r, t)
    {
      SoundEntryObeys(r, task, i);
    }
  }

  lemma {:induction false} SoundListObeys(r: Rules, list: Yaml)
    requires SoundList(r, list)
    ensures forall t | t in TasksInList(list) :: ObeysRules(r, t)
    decreases list, 2
  {
    hide ObeysRules, SoundTask, TasksIn;
    forall i | 0 <= i < |list.items|
      ensures forall t | t in TasksIn(list.items[i]) :: ObeysRules(r, t)
    {
      SoundTaskObeys(r, list.items[i]);
    }
  }

  /** Once an entry is accepted, every task at every depth of every file it can reach obeys the rules
      of the mode it was checked in, and no reachable file includes itself, however indirectly. */
  lemma AcceptedEntryIsClosed(r: Role, entry: string, file: string)
    requires Good(r, entry, {}) && Reaches(IncludeArrows(r), entry, file)
    ensures file in r.files && SoundDocument(r.rules, r.files[file])
    ensures forall t | t in TasksInList(r.files[file].content[0]) :: ObeysRules(r.rules, t)
    ensures !OnCycle(IncludeArrows(r), file)
  {
    hide Reaches, IncludeArrows, ObeysRules, TasksInList, SoundList, PlainTree, OnCycle;
    assert SoundFile(r, file);
    SoundListObeys(r.rules, r.files[file].content[0]);
  }

  // ---------------------------------------------------------------- reset scope

  /** A file below handlers: what WalkDir reports of it. */
  datatype HandlerFile = HandlerFile(path: string, symlink: bool, yaml: bool)

  /** The check of a reset role: its entry and every handler file, each on its own walk. */
  method ValidateRoleTaskTargets(role: Role, entry: string, handlers: seq<HandlerFile>) returns (ok: bool)
    ensures ok <==> role.rules.scope.Some? ==>
      && role.rules.scope.value.hosts != [] && Good(role, entry, {})
      && forall i | 0 <= i < |handlers| ::
        !handlers[i].symlink && (handlers[i].yaml ==> Good(role, handlers[i].path, {}))
  {
    hide Good;
    if role.rules.scope.None? {
      return true;
    }
    if |role.rules.scope.value.hosts| == 0 {
      return false;
    }
    var walk := new IncludeWalk(role);
    ok := walk.ValidateEntry(entry);
    if !ok {
      return;
    }
    for i := 0 to |handlers|
      invariant forall j | 0 <= j < i ::
        !handlers[j].symlink && (handlers[j].yaml ==> Good(role, handlers[j].path, {}))
    {
      if handlers[i].symlink {
        return false;
      }
      if !handlers[i].yaml {
        continue;
      }
      walk := new IncludeWalk(role);
      ok := walk.ValidateEntry(handlers[i].path);
      if !ok {
        return;
      }
    }
    return true;
  }
}
