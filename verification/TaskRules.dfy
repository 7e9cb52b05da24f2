/** The rules for role tasks once more, keyword by keyword and without the functions that check them
    (internal/ansible/role_validation.go:16-205, internal/ansible/task_targets.go:16-64): what an
    accepted role entry means for every task of every file it can reach. */
module TaskRules {
  import opened JobPlan
  import opened Walks
  import opened RoleRules
  import opened IncludeClosure

  // ---------------------------------------------------------------- keywords

  /** The key is this keyword, as it is or with the prefixes of the builtin collections. */
  ghost predicate Names(key: string, keyword: string)
  {
    || key == keyword || key == "ansible.builtin." + keyword || key == "ansible.legacy." + keyword
    || key == "ansible.builtin." + "ansible.legacy." + keyword
  }

  /** Keywords that no prefix can be taken off. */
  predicate Bare(keyword: string)
  {
    keyword != "" && forall i | 0 <= i < |keyword| :: keyword[i] != '.'
  }

  lemma PrefixTaken(s: string, prefix: string)
    ensures TrimPrefix(prefix + s, prefix) == s
  {
    assert prefix <= prefix + s && (prefix + s)[|prefix|..] == s;
  }

  lemma NamesModule(key: string, keyword: string)
    requires Bare(keyword)
    ensures Names(key, keyword) <==> ModuleName(key) == keyword
  {
    ModuleIsNamed(key);
    if Names(key, keyword) {
      NamedIsModule(key, keyword);
    }
    hide Names, ModuleName, Bare;
  }

  lemma NamedIsModule(key: string, keyword: string)
    requires Bare(keyword) && Names(key, keyword)
    ensures ModuleName(key) == keyword
  {
    var a, b := "ansible.builtin.", "ansible.legacy.";
    PrefixTaken(keyword, a);
    PrefixTaken(b + keyword, a);
    PrefixTaken(keyword, b);
    BareHasNoPrefix(keyword, a);
    BareHasNoPrefix(keyword, b);
    LegacyIsNotBuiltin(keyword);
    assert a + b + keyword == a + (b + keyword);
    hide TrimPrefix, Bare;
  }

  lemma ModuleIsNamed(key: string)
    ensures Names(key, ModuleName(key))
  {
    var a, b := "ansible.builtin.", "ansible.legacy.";
    var once := TrimPrefix(key, a);
    var keyword := ModuleName(key);
    assert key == once || key == a + once;
    assert once == keyword || once == b + keyword;
    assert a + b + keyword == a + (b + keyword);
    hide TrimPrefix, HasPrefix;
  }

  lemma BareHasNoPrefix(keyword: string, prefix: string)
    requires Bare(keyword) && prefix != "" && prefix[|prefix| - 1] == '.'
    ensures TrimPrefix(keyword, prefix) == keyword
  {
    if prefix <= keyword {
      assert keyword[|prefix| - 1] == '.';
    }
  }

  lemma LegacyIsNotBuiltin(keyword: string)
    ensures TrimPrefix("ansible.legacy." + keyword, "ansible.builtin.") == "ansible.legacy." + keyword
  {
    var s := "ansible.legacy." + keyword;
    assert s[8] == 'l' && "ansible.builtin."[8] == 'b';
  }

  // ---------------------------------------------------------------- which tasks a list has

  /** Of entries with the same key the last one counts. */
  ghost predicate Counts(entries: seq<Entry>, i: nat)
    requires i < |entries|
  {
    forall j | i < j < |entries| :: TextOf(entries[j].key) != TextOf(entries[i].key)
  }

  lemma CountsIs(entries: seq<Entry>)
    ensures forall i | 0 <= i < |entries| :: Effective(entries, i) <==> Counts(entries, i)
  {
  }

  /** Task t is this one, stands in a block or under always, or is handed on through apply. */
  ghost predicate Occurs(t: Yaml, task: Yaml)
    decreases task, 1
  {
    || t == task
    || (task.Mapping? && exists i :: 0 <= i < |task.entries| && Counts(task.entries, i) && OccursUnder(t, task, i))
  }

  ghost predicate OccursUnder(t: Yaml, task: Yaml, i: nat)
    requires task.Mapping? && i < |task.entries|
    decreases task, 0
  {
    var key, value := TextOf(task.entries[i].key), task.entries[i].value;
    || ((Names(key, "block") || Names(key, "always")) && OccursInList(t, value))
    || ((Names(key, "include_tasks") || Names(key, "import_tasks") || key == "args") && OccursInApply(t, value))
  }

  ghost predicate OccursInList(t: Yaml, list: Yaml)
    decreases list, 2
  {
    list.Sequence? && exists i :: 0 <= i < |list.items| && Occurs(t, list.items[i])
  }

  ghost predicate OccursInApply(t: Yaml, value: Yaml)
    decreases value, 0
  {
    value.Mapping? && exists i ::
      0 <= i < |value.entries| && TextOf(value.entries[i].key) == "apply" && Occurs(t, value.entries[i].value)
  }

  // ---------------------------------------------------------------- the rules of one task

  ghost predicate IsKey(entries: seq<Entry>, i: nat, keyword: string)
  {
    i < |entries| && TextOf(entries[i].key) == keyword
  }

  /** The last entry with this key, or with one of two. */
  ghost predicate LastOf(entries: seq<Entry>, i: nat, keyword: string, other: string)
  {
    && (IsKey(entries, i, keyword) || IsKey(entries, i, other))
    && forall j: nat | i < j < |entries| :: !IsKey(entries, j, keyword) && !IsKey(entries, j, other)
  }

  ghost predicate TrueScalar(n: Yaml)
  {
    n.Scalar? && n.tag == "!!bool" && n.value == "true"
  }

  ghost predicate FalseScalar(n: Yaml)
  {
    n.Scalar? && n.tag == "!!bool" && n.value == "false"
  }

  /** A local file that a module copies lies inside the role, unless it is said to be remote. */
  ghost predicate FromTheRole(r: Rules, name: string, n: Yaml)
  {
    if n.Mapping? then
      || (exists i: nat :: LastOf(n.entries, i, "remote_src", "remote_src") && TrueScalar(n.entries[i].value))
      || forall i: nat | LastOf(n.entries, i, "src", if name == "script" then "cmd" else "src") ::
        TextOf(n.entries[i].value) == "" || r.safeSource(name, TextOf(n.entries[i].value))
    else name == "script" && (TextOf(n) == "" || r.safeSource("script", TextOf(n)))
  }

  ghost predicate ReservedName(name: string)
  {
    || name == "cf"
    || ("cf_" <= name && name != "cf_local" && !("cf_local_" <= name))
    || "ansible_" <= name
  }

  /** What an include names: the file entry of a mapping, or the text itself. */
  ghost predicate Includes(value: Yaml, target: string)
  {
    if value.Mapping? then
      || (exists i: nat :: LastOf(value.entries, i, "file", "file") && TextOf(value.entries[i].value) == target)
      || (target == "" && forall i: nat | i < |value.entries| :: !IsKey(value.entries, i, "file"))
    else TextOf(value) == target
  }

  ghost predicate InsideRole(target: string)
  {
    && target != "" && target[0] != '/'
    && !(exists a: string, b: string :: target == a + "{{" + b)
    && !(exists a: string, b: string :: target == a + ".." + b)
  }

  ghost predicate Refused(key: string)
  {
    || Names(key, "hosts") || Names(key, "roles") || Names(key, "import_playbook") || Names(key, "strategy")
    || Names(key, "force_handlers") || Names(key, "rescue") || Names(key, "local_action") || Names(key, "action")
    || Names(key, "any_errors_fatal") || Names(key, "async") || Names(key, "include_role") || Names(key, "import_role")
    || Names(key, "add_host") || Names(key, "group_by") || Names(key, "set_stats") || Names(key, "include_vars")
  }

  ghost predicate ChangesHost(key: string)
  {
    || Names(key, "copy") || Names(key, "template") || Names(key, "file") || Names(key, "package") || Names(key, "apt")
    || Names(key, "yum") || Names(key, "dnf") || Names(key, "service") || Names(key, "systemd")
    || Names(key, "systemd_service") || Names(key, "unarchive") || Names(key, "get_url") || Names(key, "lineinfile")
    || Names(key, "blockinfile") || Names(key, "user") || Names(key, "group") || Names(key, "mount")
    || Names(key, "reboot") || Names(key, "notify")
  }

  ghost predicate RunsCommand(key: string)
  {
    Names(key, "command") || Names(key, "shell") || Names(key, "raw") || Names(key, "script")
  }

  ghost predicate SourcesLawful(r: Rules, entries: seq<Entry>, key: string, value: Yaml, name: string)
  {
    Names(key, name) ==>
      && FromTheRole(r, name, value)
      && forall i: nat | LastOf(entries, i, "args", "args") :: FromTheRole(r, name, entries[i].value)
  }

  ghost predicate AllSourcesLawful(r: Rules, entries: seq<Entry>, key: string, value: Yaml)
  {
    && SourcesLawful(r, entries, key, value, "copy") && SourcesLawful(r, entries, key, value, "template")
    && SourcesLawful(r, entries, key, value, "unarchive") && SourcesLawful(r, entries, key, value, "script")
  }

  ghost predicate NamesLawful(key: string, value: Yaml)
  {
    && (Names(key, "register") ==> !ReservedName(TextOf(value)))
    && ((Names(key, "vars") || Names(key, "set_fact")) && value.Mapping? ==>
      forall i | 0 <= i < |value.entries| :: !ReservedName(TextOf(value.entries[i].key)))
  }

  ghost predicate CheckLawful(r: Rules, entries: seq<Entry>, key: string)
  {
    r.check ==>
      && !ChangesHost(key)
      && (RunsCommand(key) ==>
        exists i: nat :: LastOf(entries, i, "changed_when", "changed_when") && FalseScalar(entries[i].value))
  }

  ghost predicate NestingLawful(key: string, value: Yaml)
  {
    && (Names(key, "block") || Names(key, "always") ==> value.Sequence?)
    && (Names(key, "include_tasks") || Names(key, "import_tasks") ==>
      forall target | Includes(value, target) :: InsideRole(target))
  }

  ghost predicate EntryLawful(r: Rules, entries: seq<Entry>, key: string, value: Yaml)
  {
    && !Refused(key)
    && (Names(key, "ignore_errors") || Names(key, "ignore_unreachable") ==> FalseScalar(value))
    && (Names(key, "meta") ==> TextOf(value) == "flush_handlers" && !r.check)
    && AllSourcesLawful(r, entries, key, value) && NamesLawful(key, value) && CheckLawful(r, entries, key)
    && NestingLawful(key, value)
  }

  /** A reset may act only on its own connection and on the hosts it has locked. */
  ghost predicate DelegationLawful(r: Rules, hosts: seq<string>, groups: map<string, seq<string>>, value: Yaml)
  {
    && value.Scalar? && value.tag == "!!str"
    && match r.delegate(value.value)
       case SelfTarget => true
       case NamedTarget(name) => name in hosts
       case GroupTarget(group, index) =>
         group in groups && index < |groups[group]| && forall h | h in groups[group] :: h in hosts
  }

  ghost predicate TargetsLawful(r: Rules, entries: seq<Entry>)
  {
    r.scope.Some? ==> forall i: nat | i < |entries| ::
      && !IsKey(entries, i, "connection") && !IsKey(entries, i, "local_action")
      && (IsKey(entries, i, "delegate_to") ==>
        DelegationLawful(r, r.scope.value.hosts, r.scope.value.groups, entries[i].value))
  }

  ghost predicate Lawful(r: Rules, task: Yaml)
  {
    && task.Mapping? && TargetsLawful(r, task.entries)
    && forall i | 0 <= i < |task.entries| && Counts(task.entries, i) ::
      EntryLawful(r, task.entries, TextOf(task.entries[i].key), task.entries[i].value)
  }

  // ---------------------------------------------------------------- the rules are the ones checked

  ghost predicate LastValueRight(entries: seq<Entry>, a: string, b: string)
  {
    var last := LastValue(entries, {a, b});
    && (last.None? <==> forall i: nat | i < |entries| :: !IsKey(entries, i, a) && !IsKey(entries, i, b))
    && (last.Some? ==> exists i: nat :: LastOf(entries, i, a, b) && entries[i].value == last.value)
  }

  lemma OneMoreEntry(before: seq<Entry>, last: Entry, a: string, b: string)
    ensures
      var more := before + [last];
      && (forall i: nat, k: string | i < |before| :: IsKey(more, i, k) <==> IsKey(before, i, k))
      && (forall i: nat, k: string | IsKey(before, i, k) :: i < |before|)
      && LastValue(more, {a, b})
        == if IsKey(more, |before|, a) || IsKey(more, |before|, b) then Some(last.value) else LastValue(before, {a, b})
  {
    var more := before + [last];
    assert more[..|more| - 1] == before && more[|before|] == last;
    hide TextOf;
  }

  lemma LastValueStays(before: seq<Entry>, last: Entry, a: string, b: string)
    requires LastValueRight(before, a, b)
    ensures LastValueRight(before + [last], a, b)
  {
    var more, n := before + [last], |before|;
    OneMoreEntry(before, last, a, b);
    hide LastValue, IsKey;
    if IsKey(more, n, a) || IsKey(more, n, b) {
      assert LastOf(more, n, a, b);
    } else if LastValue(before, {a, b}).Some? {
      var i: nat :| LastOf(before, i, a, b) && before[i].value == LastValue(before, {a, b}).value;
      assert LastOf(more, i, a, b);
    }
  }

  lemma {:induction false} LastValueAt(entries: seq<Entry>, a: string, b: string)
    ensures LastValueRight(entries, a, b)
    decreases |entries|
  {
    if entries != [] {
      var before, last := entries[..|entries| - 1], entries[|entries| - 1];
      LastValueAt(before, a, b);
      LastValueStays(before, last, a, b);
      assert entries == before + [last];
    }
  }

  lemma OneLast(entries: seq<Entry>, a: string, b: string, i: nat, j: nat)
    requires LastOf(entries, i, a, b) && LastOf(entries, j, a, b)
    ensures i == j
  {
  }

  /** What the last entry with one of these keys says. */
  lemma LastValueSays(entries: seq<Entry>, a: string, b: string, i: nat)
    requires LastOf(entries, i, a, b)
    ensures LastValue(entries, {a, b}) == Some(entries[i].value)
  {
    LastValueAt(entries, a, b);
    var j: nat :| LastOf(entries, j, a, b) && entries[j].value == LastValue(entries, {a, b}).value;
    OneLast(entries, a, b, i, j);
  }

  lemma RemoteIsTrue(entries: seq<Entry>)
    ensures (exists i: nat :: LastOf(entries, i, "remote_src", "remote_src") && TrueScalar(entries[i].value)) <==>
      var remote := LastValue(entries, {"remote_src"});
      remote.Some? && remote.value.Scalar? && remote.value.tag == "!!bool" && remote.value.value == "true"
  {
    var key := "remote_src";
    assert {key, key} == {key};
    LastValueAt(entries, key, key);
    hide LastValue;
    forall i: nat | LastOf(entries, i, key, key)
      ensures LastValue(entries, {key, key}) == Some(entries[i].value)
    {
      LastValueSays(entries, key, key, i);
    }
  }

  lemma SourceIsLocal(r: Rules, entries: seq<Entry>, name: string, other: string)
    ensures (forall i: nat | LastOf(entries, i, "src", other) ::
        TextOf(entries[i].value) == "" || r.safeSource(name, TextOf(entries[i].value))) <==>
      var source := LastValue(entries, {"src", other});
      source.None? || TextOf(source.value) == "" || r.safeSource(name, TextOf(source.value))
  {
    LastValueAt(entries, "src", other);
    hide LastValue;
    forall i: nat | LastOf(entries, i, "src", other)
      ensures LastValue(entries, {"src", other}) == Some(entries[i].value)
    {
      LastValueSays(entries, "src", other, i);
    }
  }

  lemma LocalSourceIs(r: Rules, name: string, n: Yaml)
    ensures LocalSourceOk(r, name, n) <==> FromTheRole(r, name, n)
  {
    if n.Mapping? {
      var other := if name == "script" then "cmd" else "src";
      assert {"src", "src"} == {"src"};
      RemoteIsTrue(n.entries);
      SourceIsLocal(r, n.entries, name, other);
    }
    hide LastValue, LastOf, TrueScalar;
  }

  lemma IncludeTargetIs(value: Yaml, target: string)
    ensures Includes(value, target) <==> target == IncludeTarget(value)
  {
    if value.Mapping? {
      var key := "file";
      assert {key, key} == {key};
      LastValueAt(value.entries, key, key);
      hide LastValue;
      forall i: nat | LastOf(value.entries, i, key, key)
        ensures LastValue(value.entries, {key, key}) == Some(value.entries[i].value)
      {
        LastValueSays(value.entries, key, key, i);
      }
    }
  }

  lemma ContainsMeans(s: string, part: string)
    ensures Contains(s, part) <==> exists a: string, b: string :: s == a + part + b
  {
    if i :| 0 <= i <= |s| && HasPrefix(s[i..], part) {
      assert s == s[..i] + part + s[i..][|part|..];
    }
    if a: string, b: string :| s == a + part + b {
      assert s[|a|..] == part + b;
    }
  }

  lemma FixedIsInside(target: string)
    ensures FixedTarget(target) <==> InsideRole(target)
  {
    ContainsMeans(target, "{{");
    ContainsMeans(target, "..");
    hide Contains;
  }

  lemma TargetsAreLawful(r: Rules, entries: seq<Entry>)
    ensures TargetsOk(r, entries) <==> TargetsLawful(r, entries)
  {
    if r.scope.Some? {
      var scope := r.scope.value;
      forall i: nat | i < |entries|
        ensures DelegateOk(r, scope, entries[i].value) <==>
          DelegationLawful(r, scope.hosts, scope.groups, entries[i].value)
      {
        DelegationIs(r, scope, entries[i].value);
      }
      hide DelegateOk, DelegationLawful;
      assert forall i: nat | i < |entries| :: TargetOk(r, scope, entries[i]) <==>
        (&& !IsKey(entries, i, "connection") && !IsKey(entries, i, "local_action")
         && (IsKey(entries, i, "delegate_to") ==> DelegationLawful(r, scope.hosts, scope.groups, entries[i].value)));
    }
  }

  lemma DelegationIs(r: Rules, scope: TargetScope, value: Yaml)
    ensures DelegateOk(r, scope, value) <==> DelegationLawful(r, scope.hosts, scope.groups, value)
  {
    if value.Scalar? {
      match r.delegate(value.value)
      case SelfTarget =>
      case NamedTarget(name) => assert [name][0] == name;
      case GroupTarget(group, index) =>
    }
  }

  lemma SourcesAre(r: Rules, entries: seq<Entry>, name: string, value: Yaml)
    ensures (LocalSourceOk(r, name, value) && (LastValue(entries, {"args"}).Some? ==>
        LocalSourceOk(r, name, LastValue(entries, {"args"}).value))) <==>
      FromTheRole(r, name, value) && forall i: nat | LastOf(entries, i, "args", "args") ::
        FromTheRole(r, name, entries[i].value)
  {
    var key := "args";
    assert {key, key} == {key};
    LocalSourceIs(r, name, value);
    LastValueAt(entries, key, key);
    hide LastValue, FromTheRole, LocalSourceOk;
    forall i: nat | LastOf(entries, i, key, key)
      ensures LastValue(entries, {key, key}) == Some(entries[i].value)
      ensures LocalSourceOk(r, name, entries[i].value) <==> FromTheRole(r, name, entries[i].value)
    {
      LastValueSays(entries, key, key, i);
      LocalSourceIs(r, name, entries[i].value);
    }
  }

  lemma ChangedIsFalse(entries: seq<Entry>)
    ensures (exists i: nat :: LastOf(entries, i, "changed_when", "changed_when") && FalseScalar(entries[i].value)) <==>
      LastValue(entries, {"changed_when"}).Some? && IsFalse(LastValue(entries, {"changed_when"}).value)
  {
    var key := "changed_when";
    assert {key, key} == {key};
    LastValueAt(entries, key, key);
    hide LastValue;
    forall i: nat | LastOf(entries, i, key, key)
      ensures LastValue(entries, {key, key}) == Some(entries[i].value)
    {
      LastValueSays(entries, key, key, i);
    }
  }

  /** A key names a keyword exactly when it is that module. */
  lemma NamesAll(key: string)
    ensures forall keyword: string | Bare(keyword) :: Names(key, keyword) <==> ModuleName(key) == keyword
  {
    forall keyword: string | Bare(keyword)
      ensures Names(key, keyword) <==> ModuleName(key) == keyword
    {
      NamesModule(key, keyword);
    }
  }

  lemma RefusedIs(key: string)
    ensures Refused(key) <==> ModuleName(key) in REFUSED
  {
    NamesAll(key);
    hide Names, ModuleName;
  }

  lemma ChangesHostIs(key: string)
    ensures ChangesHost(key) <==> ModuleName(key) in MUTATING
    ensures RunsCommand(key) <==> ModuleName(key) in SHELLS
  {
    NamesAll(key);
    hide Names, ModuleName;
  }

  lemma AllSourcesAre(r: Rules, entries: seq<Entry>, key: string, value: Yaml)
    ensures
      var mod := ModuleName(key);
      var args := LastValue(entries, {"args"});
      AllSourcesLawful(r, entries, key, value) <==>
        (mod in SOURCED ==> LocalSourceOk(r, mod, value) && (args.Some? ==> LocalSourceOk(r, mod, args.value)))
  {
    NamesAll(key);
    SourcesAre(r, entries, ModuleName(key), value);
    hide Names, ModuleName, LocalSourceOk, FromTheRole, LastValue, LastOf;
  }

  lemma NamesAreLawful(key: string, value: Yaml)
    ensures
      var mod := ModuleName(key);
      NamesLawful(key, value) <==>
        && (mod == "register" ==> !Reserved(TextOf(value)))
        && ((mod == "vars" || mod == "set_fact") && value.Mapping? ==>
          forall i | 0 <= i < |value.entries| :: !Reserved(TextOf(value.entries[i].key)))
  {
    NamesAll(key);
    hide Names, ModuleName, TextOf;
    assert forall name: string :: Reserved(name) <==> ReservedName(name);
    hide Reserved, ReservedName;
  }

  lemma NestingIsLawful(key: string, value: Yaml)
    ensures
      var mod := ModuleName(key);
      NestingLawful(key, value) <==>
        (mod in NESTED ==> value.Sequence?) && (mod in INCLUDES ==> FixedTarget(IncludeTarget(value)))
  {
    NamesAll(key);
    FixedIsInside(IncludeTarget(value));
    hide Names, ModuleName, Includes, IncludeTarget, FixedTarget, InsideRole;
    forall target: string
      ensures Includes(value, target) <==> target == IncludeTarget(value)
    {
      IncludeTargetIs(value, target);
    }
  }

  lemma CheckIsLawful(r: Rules, entries: seq<Entry>, key: string)
    ensures
      var mod := ModuleName(key);
      var changed := LastValue(entries, {"changed_when"});
      CheckLawful(r, entries, key) <==>
        (r.check ==> mod !in MUTATING && (mod in SHELLS ==> changed.Some? && IsFalse(changed.value)))
  {
    ChangesHostIs(key);
    ChangedIsFalse(entries);
    hide ChangesHost, RunsCommand, ModuleName, LastValue, LastOf, IsFalse, FalseScalar;
  }

  lemma EntryIsLawful(r: Rules, entries: seq<Entry>, key: string, value: Yaml)
    ensures EntryLawful(r, entries, key, value) <==>
      KeywordOk(r, entries, key, value) && (ModuleName(key) in NESTED ==> value.Sequence?)
  {
    RefusedIs(key);
    AllSourcesAre(r, entries, key, value);
    NamesAreLawful(key, value);
    NestingIsLawful(key, value);
    CheckIsLawful(r, entries, key);
    NamesAll(key);
    hide Refused, AllSourcesLawful, NamesLawful, NestingLawful, CheckLawful, Names, ModuleName, LocalSourceOk,
      LastValue,
      Reserved, FixedTarget, IncludeTarget, TextOf;
  }

  // ---------------------------------------------------------------- a list is sound when all its tasks are lawful

  ghost predicate AllUnder(r: Rules, task: Yaml, i: nat)
    requires task.Mapping? && i < |task.entries|
  {
    forall t | OccursUnder(t, task, i) :: Lawful(r, t)
  }

  ghost predicate AllInList(r: Rules, list: Yaml)
  {
    forall t | OccursInList(t, list) :: Lawful(r, t)
  }

  ghost predicate AllInApply(r: Rules, value: Yaml)
  {
    forall t | OccursInApply(t, value) :: Lawful(r, t)
  }

  ghost predicate AllIn(r: Rules, task: Yaml)
  {
    forall t | Occurs(t, task) :: Lawful(r, t)
  }

  lemma {:induction false} SoundApplyIs(r: Rules, value: Yaml)
    ensures SoundApplies(r, value) <==> AllInApply(r, value)
    decreases value, 0
  {
    hide Lawful, SoundTask, Occurs;
    if value.Mapping? {
      forall i | 0 <= i < |value.entries| && IsApply(value.entries[i])
        ensures SoundTask(r, value.entries[i].value) <==> AllIn(r, value.entries[i].value)
      {
        SoundTaskIs(r, value.entries[i].value);
      }
    }
  }

  lemma {:induction false} SoundListIs(r: Rules, list: Yaml)
    ensures SoundList(r, list) <==> list.Sequence? && AllInList(r, list)
    decreases list, 2
  {
    hide Lawful, SoundTask, Occurs;
    if list.Sequence? {
      forall i | 0 <= i < |list.items|
        ensures SoundTask(r, list.items[i]) <==> AllIn(r, list.items[i])
      {
        SoundTaskIs(r, list.items[i]);
      }
    }
  }

  /** One entry with what it nests. */
  ghost predicate SoundWith(r: Rules, task: Yaml, i: nat)
    requires task.Mapping? && i < |task.entries|
  {
    SoundEntry(r, task, i) && (IsArgs(task.entries, i) ==> SoundApplies(r, task.entries[i].value))
  }

  lemma {:induction false} SoundUnderIs(r: Rules, task: Yaml, i: nat)
    requires task.Mapping? && i < |task.entries| && Counts(task.entries, i)
    ensures SoundWith(r, task, i) <==>
      EntryLawful(r, task.entries, TextOf(task.entries[i].key), task.entries[i].value) && AllUnder(r, task, i)
    decreases task, 0
  {
    var key, value := TextOf(task.entries[i].key), task.entries[i].value;
    EntryIsLawful(r, task.entries, key, value);
    NestingKeys(key);
    SoundListIs(r, value);
    SoundApplyIs(r, value);
    AllUnderIs(r, task, i);
    SoundWithIs(r, task, i);
    hide SoundWith, Lawful, EntryLawful, KeywordOk, SoundList, SoundApplies, AllInList, AllInApply, AllUnder,
      ModuleName, Counts,
      NestsList, NestsInclude;
  }

  lemma SoundWithIs(r: Rules, task: Yaml, i: nat)
    requires task.Mapping? && i < |task.entries| && Counts(task.entries, i)
    ensures
      var key, value := TextOf(task.entries[i].key), task.entries[i].value;
      SoundWith(r, task, i) <==>
        && KeywordOk(r, task.entries, key, value)
        && (ModuleName(key) in NESTED ==> SoundList(r, value))
        && (ModuleName(key) in INCLUDES || key == "args" ==> SoundApplies(r, value))
  {
    CountsIs(task.entries);
    hide KeywordOk, ModuleName, SoundApplies, SoundList, Counts, Effective;
    var key, value := TextOf(task.entries[i].key), task.entries[i].value;
    var mod := ModuleName(key);
    assert NESTED !! INCLUDES;
    if mod in INCLUDES {
      assert SoundEntry(r, task, i) <==> KeywordOk(r, task.entries, key, value) && SoundApplies(r, value);
    } else if mod in NESTED {
      assert SoundEntry(r, task, i) <==> KeywordOk(r, task.entries, key, value) && SoundList(r, value);
    } else {
      assert SoundEntry(r, task, i) <==> KeywordOk(r, task.entries, key, value);
    }
  }

  /** The keywords under which tasks stand, and those that include files. */
  ghost predicate NestsList(key: string)
  {
    Names(key, "block") || Names(key, "always")
  }

  ghost predicate NestsInclude(key: string)
  {
    Names(key, "include_tasks") || Names(key, "import_tasks")
  }

  lemma NestingKeys(key: string)
    ensures NestsList(key) <==> ModuleName(key) in NESTED
    ensures NestsInclude(key) <==> ModuleName(key) in INCLUDES
    ensures ModuleName(key) in NESTED ==> ModuleName(key) !in INCLUDES
  {
    NamesAll(key);
    hide Names, ModuleName;
  }

  lemma AllUnderIs(r: Rules, task: Yaml, i: nat)
    requires task.Mapping? && i < |task.entries|
    ensures
      var key, value := TextOf(task.entries[i].key), task.entries[i].value;
      AllUnder(r, task, i) <==>
        (NestsList(key) ==> AllInList(r, value)) && (NestsInclude(key) || key == "args" ==> AllInApply(r, value))
  {
    hide Names, Lawful, OccursInList, OccursInApply;
    assert forall t :: OccursUnder(t, task, i) <==>
      var key, value := TextOf(task.entries[i].key), task.entries[i].value;
      (NestsList(key) && OccursInList(t, value)) || ((NestsInclude(key) || key == "args") && OccursInApply(t, value));
    hide NestsList, NestsInclude;
  }

  lemma {:induction false} SoundTaskIs(r: Rules, task: Yaml)
    ensures SoundTask(r, task) <==> AllIn(r, task)
    decreases task, 1
  {
    if task.Mapping? {
      TargetsAreLawful(r, task.entries);
      CountsIs(task.entries);
      hide TargetsOk, TargetsLawful, SoundEntry, SoundApplies, OccursUnder, EntryLawful, Counts, Effective;
      forall i | 0 <= i < |task.entries| && Counts(task.entries, i)
        ensures SoundWith(r, task, i) <==>
          EntryLawful(r, task.entries, TextOf(task.entries[i].key), task.entries[i].value) && AllUnder(r, task, i)
      {
        SoundUnderIs(r, task, i);
      }
      ArgsCount(task.entries);
      assert SoundTask(r, task) <==>
        TargetsOk(r, task.entries)
        && forall i | 0 <= i < |task.entries| && Counts(task.entries, i) :: SoundWith(r, task, i);
      OccursSplits(r, task);
    } else {
      assert Occurs(task, task);
    }
  }

  lemma ArgsCount(entries: seq<Entry>)
    ensures forall i | 0 <= i < |entries| && IsArgs(entries, i) :: Counts(entries, i)
  {
  }

  lemma OccursSplits(r: Rules, task: Yaml)
    requires task.Mapping?
    ensures AllIn(r, task) <==>
      Lawful(r, task) && forall i | 0 <= i < |task.entries| && Counts(task.entries, i) :: AllUnder(r, task, i)
  {
    hide Lawful, OccursUnder, Counts;
    if AllIn(r, task) {
      assert Occurs(task, task);
      forall i, t | 0 <= i < |task.entries| && Counts(task.entries, i) && OccursUnder(t, task, i)
        ensures Lawful(r, t)
      {
        assert Occurs(t, task);
      }
    }
  }

  // ---------------------------------------------------------------- what a list includes

  /** The task has an include keyword that names this target. */
  ghost predicate Includer(t: Yaml, target: string)
  {
    t.Mapping? && exists i :: 0 <= i < |t.entries| && Counts(t.entries, i) && IncludesAt(t, i, target)
  }

  ghost predicate IncludesAt(t: Yaml, i: nat, target: string)
    requires t.Mapping? && i < |t.entries|
  {
    var key := TextOf(t.entries[i].key);
    (Names(key, "include_tasks") || Names(key, "import_tasks")) && Includes(t.entries[i].value, target)
  }

  lemma {:induction false} AppliedIncludesAre(value: Yaml, target: string)
    ensures target in AppliedIncludes(value) <==> exists t :: OccursInApply(t, value) && Includer(t, target)
    decreases value, 0
  {
    hide Includer, IncludesOfTask, Occurs;
    if value.Mapping? {
      forall i | 0 <= i < |value.entries| && IsApply(value.entries[i])
        ensures target in IncludesOfTask(value.entries[i].value) <==>
          exists t :: Occurs(t, value.entries[i].value) && Includer(t, target)
      {
        TaskIncludesAre(value.entries[i].value, target);
      }
    }
  }

  lemma {:induction false} ListIncludesAre(list: Yaml, target: string)
    ensures target in IncludesOfList(list) <==> exists t :: OccursInList(t, list) && Includer(t, target)
    decreases list, 2
  {
    hide Includer, IncludesOfTask, Occurs;
    if list.Sequence? {
      forall i | 0 <= i < |list.items|
        ensures target in IncludesOfTask(list.items[i]) <==> exists t :: Occurs(t, list.items[i]) && Includer(t, target)
      {
        TaskIncludesAre(list.items[i], target);
      }
    }
  }

  /** What one entry of a task includes, by itself or in the tasks it nests. */
  ghost predicate FromEntry(task: Yaml, i: nat, target: string)
    requires task.Mapping? && i < |task.entries|
  {
    target in IncludesOfEntry(task, i) || (IsArgs(task.entries, i) && target in AppliedIncludes(task.entries[i].value))
  }

  lemma {:induction false} EntryIncludesAre(task: Yaml, i: nat, target: string)
    requires task.Mapping? && i < |task.entries| && Counts(task.entries, i)
    ensures FromEntry(task, i, target) <==>
      IncludesAt(task, i, target) || exists t :: OccursUnder(t, task, i) && Includer(t, target)
    decreases task, 0
  {
    var key, value := TextOf(task.entries[i].key), task.entries[i].value;
    NestingKeys(key);
    ListIncludesAre(value, target);
    AppliedIncludesAre(value, target);
    IncludeTargetIs(value, target);
    IncluderUnder(task, i, target);
    FromEntryIs(task, i, target);
    hide FromEntry, Includer, IncludesOfList, AppliedIncludes, OccursInList, OccursInApply, OccursUnder, ModuleName,
      Includes,
      IncludeTarget, Counts, Names;
    assert IncludesAt(task, i, target) <==> NestsInclude(key) && Includes(value, target);
    hide NestsList, NestsInclude, IncludesAt;
  }

  lemma FromEntryIs(task: Yaml, i: nat, target: string)
    requires task.Mapping? && i < |task.entries| && Counts(task.entries, i)
    ensures
      var key, value := TextOf(task.entries[i].key), task.entries[i].value;
      var mod := ModuleName(key);
      FromEntry(task, i, target) <==>
        || (mod in NESTED && target in IncludesOfList(value))
        || (mod !in NESTED && mod in INCLUDES && (target in AppliedIncludes(value) || target == IncludeTarget(value)))
        || (key == "args" && target in AppliedIncludes(value))
  {
    CountsIs(task.entries);
    hide ModuleName, IncludeTarget, IncludesOfList, AppliedIncludes, Counts, Effective;
    var key, value := TextOf(task.entries[i].key), task.entries[i].value;
    var mod := ModuleName(key);
    if mod in NESTED {
      assert IncludesOfEntry(task, i) == IncludesOfList(value);
    } else if mod in INCLUDES {
      assert IncludesOfEntry(task, i) == AppliedIncludes(value) + {IncludeTarget(value)};
    } else {
      assert IncludesOfEntry(task, i) == {};
    }
  }

  lemma IncluderUnder(task: Yaml, i: nat, target: string)
    requires task.Mapping? && i < |task.entries|
    ensures
      var key, value := TextOf(task.entries[i].key), task.entries[i].value;
      (exists t :: OccursUnder(t, task, i) && Includer(t, target)) <==>
        || (NestsList(key) && exists t :: OccursInList(t, value) && Includer(t, target))
        || ((NestsInclude(key) || key == "args") && exists t :: OccursInApply(t, value) && Includer(t, target))
  {
    hide Names, Includer, OccursInList, OccursInApply;
    assert forall t :: OccursUnder(t, task, i) <==>
      var key, value := TextOf(task.entries[i].key), task.entries[i].value;
      (NestsList(key) && OccursInList(t, value)) || ((NestsInclude(key) || key == "args") && OccursInApply(t, value));
    hide NestsList, NestsInclude;
    var key, value := TextOf(task.entries[i].key), task.entries[i].value;
    if NestsList(key) {
      if t :| OccursInList(t, value) && Includer(t, target) {
        assert OccursUnder(t, task, i);
      }
    }
    if NestsInclude(key) || key == "args" {
      if t :| OccursInApply(t, value) && Includer(t, target) {
        assert OccursUnder(t, task, i);
      }
    }
  }

  lemma {:induction false} TaskIncludesAre(task: Yaml, target: string)
    ensures target in IncludesOfTask(task) <==> exists t :: Occurs(t, task) && Includer(t, target)
    decreases task, 1
  {
    if task.Mapping? {
      CountsIs(task.entries);
      hide IncludesOfEntry, AppliedIncludes, OccursUnder, Counts, Effective, IncludesAt;
      forall i | 0 <= i < |task.entries| && Counts(task.entries, i)
        ensures FromEntry(task, i, target) <==>
          IncludesAt(task, i, target) || exists t :: OccursUnder(t, task, i) && Includer(t, target)
      {
        EntryIncludesAre(task, i, target);
      }
      ArgsCount(task.entries);
      assert target in IncludesOfTask(task) <==>
        exists i :: 0 <= i < |task.entries| && Counts(task.entries, i) && FromEntry(task, i, target);
      IncluderSplits(task, target);
    }
  }

  lemma IncluderSplits(task: Yaml, target: string)
    requires task.Mapping?
    ensures (exists t :: Occurs(t, task) && Includer(t, target)) <==>
      exists i :: 0 <= i < |task.entries| && Counts(task.entries, i)
        && (IncludesAt(task, i, target) || exists t :: OccursUnder(t, task, i) && Includer(t, target))
  {
    hide OccursUnder, Counts, IncludesAt;
    if i :|
      0 <= i < |task.entries| && Counts(task.entries, i)
      && (IncludesAt(task, i, target) || exists t :: OccursUnder(t, task, i) && Includer(t, target)) {
      if IncludesAt(task, i, target) {
        assert Occurs(task, task) && Includer(task, target);
      } else {
        var t :| OccursUnder(t, task, i) && Includer(t, target);
        assert Occurs(t, task);
      }
    }
  }

  // ---------------------------------------------------------------- files

  /** Everything a tree is made of, keys as well as values. */
  ghost predicate Within(n: Yaml, tree: Yaml)
    decreases tree
  {
    || n == tree
    || (tree.Sequence? && exists i :: 0 <= i < |tree.items| && Within(n, tree.items[i]))
    || (tree.Mapping? && exists i ::
        0 <= i < |tree.entries|
        && (Within(n, tree.entries[i].key) || Within(n, tree.entries[i].value)))
  }

  ghost predicate PlainNode(r: Rules, n: Yaml)
  {
    !n.Alias? && (n.Scalar? ==> r.safeLookups(n.value))
  }

  /** No alias and no unsafe lookup anywhere in a tree. */
  lemma {:induction false} PlainTreeIs(r: Rules, tree: Yaml)
    ensures PlainTree(r, tree) <==> forall n | Within(n, tree) :: PlainNode(r, n)
    decreases tree
  {
    assert Within(tree, tree);
    match tree
    case Scalar(_, _) =>
    case Alias(_) =>
    case Sequence(items) =>
      forall i | 0 <= i < |items|
        ensures PlainTree(r, items[i]) <==> forall n | Within(n, items[i]) :: PlainNode(r, n)
      {
        PlainTreeIs(r, items[i]);
      }
      hide PlainNode;
      assert forall i, n | 0 <= i < |items| && Within(n, items[i]) :: Within(n, tree);
    case Mapping(entries) =>
      forall i | 0 <= i < |entries|
        ensures PlainTree(r, entries[i].key) <==> forall n | Within(n, entries[i].key) :: PlainNode(r, n)
        ensures PlainTree(r, entries[i].value) <==> forall n | Within(n, entries[i].value) :: PlainNode(r, n)
      {
        PlainTreeIs(r, entries[i].key);
        PlainTreeIs(r, entries[i].value);
      }
      hide PlainNode;
      assert forall i, n | 0 <= i < |entries| && Within(n, entries[i].key) :: Within(n, tree);
      assert forall i, n | 0 <= i < |entries| && Within(n, entries[i].value) :: Within(n, tree);
  }

  /** A file of tasks: one nonempty list, plain throughout, all of whose tasks at any depth are lawful. */
  ghost predicate LawfulFile(r: Rules, f: File)
  {
    && f.Document? && |f.content| == 1 && f.content[0].Sequence? && f.content[0].items != []
    && (forall n | Within(n, f.content[0]) :: PlainNode(r, n))
    && forall t | OccursInList(t, f.content[0]) :: Lawful(r, t)
  }

  lemma LawfulFileIs(r: Rules, f: File)
    ensures SoundDocument(r, f) <==> LawfulFile(r, f)
  {
    if f.Document? && |f.content| == 1 {
      PlainTreeIs(r, f.content[0]);
      SoundListIs(r, f.content[0]);
    }
    hide PlainTree, SoundList, Lawful, PlainNode, OccursInList, Within;
  }

  /** A file leads to those that its tasks name after include_tasks or import_tasks. */
  ghost predicate LeadsTo(r: Role, path: string, next: string)
  {
    && path in r.files && r.files[path].Document? && r.files[path].content != []
    && exists t, target ::
      OccursInList(t, r.files[path].content[0]) && Includer(t, target) && next == r.candidate(path, target)
  }

  lemma ArrowsAre(r: Role, path: string, next: string)
    ensures (path, next) in IncludeArrows(r) <==> LeadsTo(r, path, next)
  {
    hide IncludesOfList, OccursInList, Includer;
    if path in r.files && r.files[path].Document? && r.files[path].content != [] {
      var list := r.files[path].content[0];
      forall target: string
        ensures target in IncludesOfList(list) <==> exists t :: OccursInList(t, list) && Includer(t, target)
      {
        ListIncludesAre(list, target);
      }
      if (path, next) in IncludeArrows(r) {
        var target :| target in IncludesOfList(list) && next == r.candidate(path, target);
        var t :| OccursInList(t, list) && Includer(t, target);
      }
    }
  }

  /** Includes followed any number of times. */
  ghost predicate Follows(r: Role, path: string, file: string, steps: nat)
    decreases steps
  {
    if steps == 0 then path == file else exists next :: LeadsTo(r, path, next) && Follows(r, next, file, steps - 1)
  }

  lemma {:induction false} FollowsReaches(r: Role, path: string, file: string, steps: nat)
    requires Follows(r, path, file, steps)
    ensures Reaches(IncludeArrows(r), path, file)
    decreases steps
  {
    hide LeadsTo, IncludeArrows;
    if steps == 0 {
      ReachesItself(IncludeArrows(r), path);
    } else {
      var next :| LeadsTo(r, path, next) && Follows(r, next, file, steps - 1);
      FollowsReaches(r, next, file, steps - 1);
      ArrowsAre(r, path, next);
      ReachesAcross(IncludeArrows(r), path, next);
      ReachesOn(IncludeArrows(r), path, next, file);
    }
  }

  lemma {:induction false} WalkFollows(r: Role, p: seq<string>)
    requires IsWalk(IncludeArrows(r), p)
    ensures Follows(r, p[0], p[|p| - 1], |p| - 1)
    decreases |p|
  {
    hide LeadsTo, IncludeArrows;
    if |p| > 1 {
      assert (p[0], p[1]) in IncludeArrows(r);
      ArrowsAre(r, p[0], p[1]);
      WalkFollows(r, p[1..]);
    }
  }

  lemma ReachesFollows(r: Role, path: string, file: string) returns (steps: nat)
    requires Reaches(IncludeArrows(r), path, file)
    ensures Follows(r, path, file, steps)
  {
    hide IncludeArrows, Follows;
    var p :| WalkBetween(IncludeArrows(r), p, path, file);
    WalkFollows(r, p);
    steps := |p| - 1;
  }

  ghost predicate LawfulAt(r: Role, file: string)
  {
    && !r.escapes(file) && file in r.files && LawfulFile(r.rules, r.files[file])
    && forall steps: nat :: steps > 0 ==> !Follows(r, file, file, steps)
  }

  ghost predicate LedTo(r: Role, path: string, file: string)
  {
    exists steps: nat :: Follows(r, path, file, steps)
  }

  lemma LedToReaches(r: Role, path: string, file: string)
    ensures Reaches(IncludeArrows(r), path, file) <==> LedTo(r, path, file)
  {
    hide IncludeArrows, LeadsTo;
    if Reaches(IncludeArrows(r), path, file) {
      var steps := ReachesFollows(r, path, file);
    }
    if steps: nat :| Follows(r, path, file, steps) {
      FollowsReaches(r, path, file, steps);
    }
  }

  /** A role entry is accepted exactly when every file that its includes lead to, in any number of
      steps, lies in the role, exists, has only lawful tasks, and is not led back to by its own. */
  lemma AcceptedExactly(r: Role, entry: string)
    ensures Good(r, entry, {}) <==> forall file: string | LedTo(r, entry, file) :: LawfulAt(r, file)
  {
    GoodMeans(r, entry);
    hide Good, IncludeArrows, LedTo, Reaches, SoundFile, OnCycle, LawfulAt;
    forall file: string
      ensures Reaches(IncludeArrows(r), entry, file) <==> LedTo(r, entry, file)
      ensures SoundFile(r, file) && !OnCycle(IncludeArrows(r), file) <==> LawfulAt(r, file)
    {
      LedToReaches(r, entry, file);
      LawfulAtIs(r, file);
    }
  }

  lemma GoodMeans(r: Role, entry: string)
    ensures Good(r, entry, {}) <==>
      forall file: string | Reaches(IncludeArrows(r), entry, file) ::
        SoundFile(r, file) && !OnCycle(IncludeArrows(r), file)
  {
    hide Reaches, SoundFile, OnCycle, IncludeArrows;
  }

  lemma LawfulAtIs(r: Role, file: string)
    ensures SoundFile(r, file) && !OnCycle(IncludeArrows(r), file) <==> LawfulAt(r, file)
  {
    hide IncludeArrows, LawfulFile, SoundDocument, LeadsTo;
    if file in r.files {
      LawfulFileIs(r.rules, r.files[file]);
    }
    if OnCycle(IncludeArrows(r), file) {
      var s :| (file, s) in IncludeArrows(r) && Reaches(IncludeArrows(r), s, file);
      ArrowsAre(r, file, s);
      var steps := ReachesFollows(r, s, file);
      assert Follows(r, file, file, steps + 1);
    }
    if steps: nat :| steps > 0 && Follows(r, file, file, steps) {
      var next :| LeadsTo(r, file, next) && Follows(r, next, file, steps - 1);
      ArrowsAre(r, file, next);
      FollowsReaches(r, next, file, steps - 1);
    }
  }
}
