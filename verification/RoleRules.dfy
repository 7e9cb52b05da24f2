/** The rules for executable role tasks (internal/ansible/role_validation.go:16-153, 176-205 and
    internal/ansible/task_targets.go:16-64), on parsed YAML trees. */
module RoleRules {
  import opened JobPlan

  datatype Yaml =
    | Scalar(tag: string, value: string)
    | Sequence(items: seq<Yaml>)
    | Mapping(entries: seq<Entry>)
    | Alias(anchor: string)

  datatype Entry = Entry(key: Yaml, value: Yaml)

  datatype DelegateTarget = SelfTarget | GroupTarget(group: string, index: nat) | NamedTarget(name: string)

  datatype TargetScope = TargetScope(hosts: seq<string>, groups: map<string, seq<string>>)

  /** What the rules depend on besides the tree: the mode, the reset scope, and what the regular
      expressions and path functions of the standard library answer. */
  datatype Rules = Rules(
    check: bool,
    scope: Option<TargetScope>,
    delegate: string -> DelegateTarget,
    safeLookups: string -> bool,
    safeSource: (string, string) -> bool)

  function TextOf(n: Yaml): string
  {
    match n
    case Scalar(_, value) => value
    case Alias(anchor) => anchor
    case _ => ""
  }

  predicate IsFalse(n: Yaml)
  {
    n.Scalar? && n.tag == "!!bool" && n.value == "false"
  }

  predicate HasPrefix(s: string, prefix: string)
  {
    prefix <= s
  }

  function TrimPrefix(s: string, prefix: string): string
  {
    if HasPrefix(s, prefix) then s[|prefix|..] else s
  }

  function ModuleName(key: string): string
  {
    TrimPrefix(TrimPrefix(key, "ansible.builtin."), "ansible.legacy.")
  }

  // ---------------------------------------------------------------- whole-tree checks

  /** No alias anywhere, and every scalar, key or value, uses only safe lookups. */
  predicate PlainTree(r: Rules, n: Yaml)
    decreases n
  {
    match n
    case Alias(_) => false
    case Scalar(_, value) => r.safeLookups(value)
    case Sequence(items) => forall i | 0 <= i < |items| :: PlainTree(r, items[i])
    case Mapping(entries) => forall i | 0 <= i < |entries| ::
      PlainTree(r, entries[i].key) && PlainTree(r, entries[i].value)
  }

  // ---------------------------------------------------------------- keyword rules

  const REFUSED: set<string> := {
    "hosts", "roles", "import_playbook", "strategy", "force_handlers", "rescue", "local_action", "action",
    "any_errors_fatal", "async", "include_role", "import_role", "add_host", "group_by", "set_stats", "include_vars"
  }

  const MUTATING: set<string> := {
    "copy", "template", "file", "package", "apt", "yum", "dnf", "service", "systemd", "systemd_service", "unarchive",
    "get_url", "lineinfile", "blockinfile", "user", "group", "mount", "reboot", "notify"
  }

  const SHELLS: set<string> := {"command", "shell", "raw", "script"}

  const SOURCED: set<string> := {"copy", "template", "unarchive", "script"}

  const INCLUDES: set<string> := {"include_tasks", "import_tasks"}

  const NESTED: set<string> := {"block", "always"}

  predicate Reserved(name: string)
  {
    || name == "cf"
    || (HasPrefix(name, "cf_") && name != "cf_local" && !HasPrefix(name, "cf_local_"))
    || HasPrefix(name, "ansible_")
  }

  /** The entry a Go map built from the mapping keeps for its key: the last one. */
  predicate Effective(entries: seq<Entry>, i: nat)
    requires i < |entries|
  {
    forall j | i < j < |entries| :: TextOf(entries[j].key) != TextOf(entries[i].key)
  }

  predicate IsArgs(entries: seq<Entry>, i: nat)
    requires i < |entries|
  {
    Effective(entries, i) && TextOf(entries[i].key) == "args"
  }

  function LastValue(entries: seq<Entry>, keys: set<string>): Option<Yaml>
  {
    if entries == [] then None
    else
      var last := entries[|entries| - 1];
      if TextOf(last.key) in keys then Some(last.value) else LastValue(entries[..|entries| - 1], keys)
  }

  predicate LocalSourceOk(r: Rules, mod: string, n: Yaml)
  {
    if n.Mapping? then
      var remote := LastValue(n.entries, {"remote_src"});
      var source := LastValue(n.entries, if mod == "script" then {"src", "cmd"} else {"src"});
      || (remote.Some? && remote.value.Scalar? && remote.value.tag == "!!bool" && remote.value.value == "true")
      || source.None? || TextOf(source.value) == "" || r.safeSource(mod, TextOf(source.value))
    else mod == "script" && (TextOf(n) == "" || r.safeSource(mod, TextOf(n)))
  }

  predicate HostsLocked(hosts: seq<string>, locked: seq<string>)
  {
    forall i | 0 <= i < |hosts| :: hosts[i] in locked
  }

  predicate DelegateOk(r: Rules, scope: TargetScope, value: Yaml)
  {
    && value.Scalar? && value.tag == "!!str"
    && match r.delegate(value.value)
       case SelfTarget => true
       case GroupTarget(group, index) =>
         var hosts := if group in scope.groups then scope.groups[group] else [];
         index < |hosts| && HostsLocked(hosts, scope.hosts)
       case NamedTarget(name) => HostsLocked([name], scope.hosts)
  }

  /** Every target keyword of a task, also one a later duplicate would override. */
  predicate TargetsOk(r: Rules, entries: seq<Entry>)
  {
    r.scope.Some? ==> forall i | 0 <= i < |entries| :: TargetOk(r, r.scope.value, entries[i])
  }

  predicate TargetOk(r: Rules, scope: TargetScope, e: Entry)
  {
    var key := TextOf(e.key);
    key != "connection" && key != "local_action" && (key == "delegate_to" ==> DelegateOk(r, scope, e.value))
  }

  function IncludeTarget(value: Yaml): string
  {
    if value.Mapping? then
      var file := LastValue(value.entries, {"file"});
      if file.Some? then TextOf(file.value) else ""
    else TextOf(value)
  }

  predicate Contains(s: string, part: string)
  {
    exists i | 0 <= i <= |s| :: HasPrefix(s[i..], part)
  }

  predicate FixedTarget(target: string)
  {
    target != "" && !Contains(target, "{{") && target[0] != '/' && !Contains(target, "..")
  }

  /** The rules for one entry that look neither into nested tasks nor into other files. */
  predicate KeywordOk(r: Rules, entries: seq<Entry>, key: string, value: Yaml)
  {
    var mod := ModuleName(key);
    var args := LastValue(entries, {"args"});
    var changed := LastValue(entries, {"changed_when"});
    && (mod in SOURCED ==> LocalSourceOk(r, mod, value) && (args.Some? ==> LocalSourceOk(r, mod, args.value)))
    && mod !in REFUSED
    && (mod == "ignore_errors" || mod == "ignore_unreachable" ==> IsFalse(value))
    && (mod == "meta" ==> TextOf(value) == "flush_handlers" && !r.check)
    && (mod == "register" ==> !Reserved(TextOf(value)))
    && ((mod == "vars" || mod == "set_fact") && value.Mapping? ==>
      forall i | 0 <= i < |value.entries| :: !Reserved(TextOf(value.entries[i].key)))
    && (mod in INCLUDES ==> FixedTarget(IncludeTarget(value)))
    && (r.check ==> mod !in MUTATING && (mod in SHELLS ==> changed.Some? && IsFalse(changed.value)))
  }

  // ---------------------------------------------------------------- nested tasks

  /** An entry that hands a task to the included files. */
  predicate IsApply(e: Entry)
  {
    TextOf(e.key) == "apply"
  }

  predicate SoundApplies(r: Rules, value: Yaml)
    decreases value, 0
  {
    value.Mapping? ==> forall i | 0 <= i < |value.entries| && IsApply(value.entries[i]) ::
      SoundTask(r, value.entries[i].value)
  }

  predicate SoundNested(r: Rules, mod: string, value: Yaml)
    decreases value, 3
  {
    && (mod in NESTED ==> SoundList(r, value))
    && (mod in INCLUDES ==> SoundApplies(r, value))
  }

  predicate SoundTask(r: Rules, task: Yaml)
    decreases task, 1
  {
    && task.Mapping?
    && TargetsOk(r, task.entries)
    && (forall i | 0 <= i < |task.entries| && IsArgs(task.entries, i) :: SoundApplies(r, task.entries[i].value))
    && forall i | 0 <= i < |task.entries| && Effective(task.entries, i) :: SoundEntry(r, task, i)
  }

  predicate SoundEntry(r: Rules, task: Yaml, i: nat)
    requires task.Mapping? && i < |task.entries|
    decreases task, 0
  {
    var key := TextOf(task.entries[i].key);
    KeywordOk(r, task.entries, key, task.entries[i].value) && SoundNested(r, ModuleName(key), task.entries[i].value)
  }

  predicate SoundList(r: Rules, list: Yaml)
    decreases list, 2
  {
    list.Sequence? && forall i | 0 <= i < |list.items| :: SoundTask(r, list.items[i])
  }

  // ---------------------------------------------------------------- what a task list includes

  function AppliedIncludes(value: Yaml): set<string>
    decreases value, 0
  {
    if value.Mapping? then
      set i, t | 0 <= i < |value.entries| && IsApply(value.entries[i])
        && t in IncludesOfTask(value.entries[i].value) :: t
    else {}
  }

  function NestedIncludes(mod: string, value: Yaml): set<string>
    decreases value, 3
  {
    if mod in NESTED then IncludesOfList(value)
    else if mod in INCLUDES then AppliedIncludes(value) + {IncludeTarget(value)}
    else {}
  }

  function IncludesOfEntry(task: Yaml, i: nat): set<string>
    requires task.Mapping? && i < |task.entries|
    decreases task, 0
  {
    NestedIncludes(ModuleName(TextOf(task.entries[i].key)), task.entries[i].value)
  }

  function IncludesOfTask(task: Yaml): set<string>
    decreases task, 1
  {
    if task.Mapping? then
      (set i, t | 0 <= i < |task.entries| && IsArgs(task.entries, i) && t in AppliedIncludes(task.entries[i].value) ::
        t)
      + set i, t | 0 <= i < |task.entries| && Effective(task.entries, i) && t in IncludesOfEntry(task, i) :: t
    else {}
  }

  function IncludesOfList(list: Yaml): set<string>
    decreases list, 2
  {
    if list.Sequence? then set i, t | 0 <= i < |list.items| && t in IncludesOfTask(list.items[i]) :: t else {}
  }
}
