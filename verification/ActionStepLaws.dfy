/** What expansion guarantees (internal/service/action_steps.go:11-124): every action becomes its own
    block of steps in order, expanding again changes nothing, and after syncing every check shares the
    backup context of the body it belongs to. */
module ActionStepLaws {
  import opened JobPlan
  import opened ActionSteps

  // ---------------------------------------------------------------- the shape of a block

  /** A check of the same release bound to a body. */
  predicate ChecksFor(check: Step, body: Step, phase: Phase)
  {
    && check.phase == phase && check.kind.Check?
    && check.parentActionId == body.actionId && check.sourceNodeId == body.sourceNodeId
    && check.releaseId == body.releaseId && check.componentId == body.componentId
    && check.limit == body.limit && check.stage == body.stage && check.sourceType == body.sourceType
  }

  /** What a check runs with: the inputs of its body, except that the post-check a rollback takes over
      from the action it undoes (defaulted) runs with that action's inputs and remembers it. */
  predicate Inherits(check: Step, body: Step, defaulted: bool)
  {
    && check.variables
      == (if defaulted && body.rollbackSourceVariables.Some? then body.rollbackSourceVariables.value
      else body.variables)
    && check.frozen == (if defaulted then body.rollbackSourceFrozen else body.frozen)
    && check.rollbackSourceActionId == (if defaulted then body.rollbackSourceActionId else "")
  }

  predicate BodyOf(body: Step, main: Step)
  {
    && body.phase.Execute? && body.id == main.id && body.actionId == main.actionId
      && body.parentActionId == main.actionId
    && body.sourceNodeId == (if main.sourceNodeId == "" then main.nodeId else main.sourceNodeId)
    && body.variables == main.variables && body.backup == main.backup && body.backupRef == main.backupRef
  }

  predicate RollbackBlock(main: Step, block: seq<Step>, defaulted: bool)
  {
    && |block| == 2
    && BodyOf(block[0], main) && block[0].rollbackSourceActionId == SourceAction(main)
    && ChecksFor(block[1], block[0], Post) && Inherits(block[1], block[0], defaulted)
  }

  predicate OrdinaryBlock(main: Step, block: seq<Step>)
  {
    && |block| == 3
    && ChecksFor(block[0], block[1], Pre) && Inherits(block[0], block[1], false)
    && BodyOf(block[1], main) && block[1].rollbackSourceActionId == main.rollbackSourceActionId
    && ChecksFor(block[2], block[1], Post) && Inherits(block[2], block[1], false)
  }

  predicate BlockFor(p: Planner, main: Step, block: seq<Step>)
  {
    if !Unplanned(main.phase) then block == [main]
    else
      && main.releaseId in p.releases && ActionById(p.releases[main.releaseId].actions, main.actionId).Some?
      && match ActionById(p.releases[main.releaseId].actions, main.actionId).value.kind
         case Check => block == [Rooted(main).(phase := CheckPhase)]
         case Rollback =>
           RollbackBlock(main, block, ActionById(p.releases[main.releaseId].actions, main.actionId).value.post == "")
         case _ => OrdinaryBlock(main, block)
  }

  lemma {:induction false} FoundById(actions: seq<Action>, i: nat)
    requires i < |actions| && forall j, k | 0 <= j < k < |actions| :: actions[j].id != actions[k].id
    ensures ActionById(actions, actions[i].id) == Some(actions[i])
  {
    if i > 0 {
      FoundById(actions[1..], i - 1);
    }
  }

  lemma NamedCheckIsFound(r: Release, id: string, complete: bool)
    requires BindingsOk(r, complete) && NamesCheck(r.actions, id)
    ensures id != "" && ActionById(r.actions, id).Some? && ActionById(r.actions, id).value.kind.Check?
  {
    var i :| 0 <= i < |r.actions| && r.actions[i].id == id && r.actions[i].kind.Check?;
    FoundById(r.actions, i);
  }

  lemma BindingOfFound(r: Release, a: Action, complete: bool)
    requires BindingsOk(r, complete) && a in r.actions
    ensures BindingOk(r.actions, a, complete) && a.id != ""
  {
    hide BindingOk, HasKind;
  }

  /** In a release whose bindings are complete an ordinary action names two checks, and they exist. */
  lemma OrdinaryBindings(r: Release, a: Action)
    requires BindingsOk(r, true) && a in r.actions && !a.kind.Check? && !a.kind.Rollback?
    ensures a.pre != "" && a.post != ""
    ensures ActionById(r.actions, a.pre).Some? && ActionById(r.actions, a.pre).value.kind.Check?
    ensures ActionById(r.actions, a.post).Some? && ActionById(r.actions, a.post).value.kind.Check?
  {
    BindingOfFound(r, a, true);
    hide BindingsOk, NamesCheck;
    NamedCheckIsFound(r, a.pre, true);
    NamedCheckIsFound(r, a.post, true);
  }

  lemma RollbackBinding(r: Release, a: Action, source: string)
    requires BindingsOk(r, true) && RollbackPostCheck(r, a, source).Some?
    ensures
      var check := RollbackPostCheck(r, a, source).value;
      check.id != "" && check.kind.Check? && ActionById(r.actions, check.id) == Some(check)
  {
    var check := RollbackPostCheck(r, a, source).value;
    assert check in r.actions;
    BindingOfFound(r, check, true);
    var i :| 0 <= i < |r.actions| && r.actions[i] == check;
    FoundById(r.actions, i);
  }

  lemma BlockOfThree(p: Planner, main: Step, r: Release, pre: Action, post: Action)
    requires pre.id != "" && post.id != "" && ActionById(r.actions, pre.id) == Some(pre)
      && ActionById(r.actions, post.id) == Some(post)
    ensures Block(p, main, r, pre.id, post.id, false) == Success([
      CheckStep(p, main, r, pre, Pre, false), main.(phase := Execute),
        CheckStep(p, main.(phase := Execute), r, post, Post, false)])
  {
    hide ActionById, CheckStep;
    var a, b := CheckStep(p, main, r, pre, Pre, false), main.(phase := Execute);
    var c := CheckStep(p, b, r, post, Post, false);
    assert [a] + [b] + [c] == [a, b, c];
  }

  lemma BlockOfTwo(p: Planner, main: Step, r: Release, post: Action, defaulted: bool)
    requires post.id != "" && ActionById(r.actions, post.id) == Some(post)
    ensures Block(p, main, r, "", post.id, defaulted) == Success([
      main.(phase := Execute), CheckStep(p, main.(phase := Execute), r, post, Post, defaulted)])
  {
    hide ActionById, CheckStep;
    var b := main.(phase := Execute);
    var c := CheckStep(p, b, r, post, Post, defaulted);
    assert [] + [b] + [c] == [b, c];
  }

  /** A step that expands becomes the block its action calls for, and a bound check is never missing. */
  lemma EveryStepBecomesItsBlock(p: Planner, main: Step)
    requires forall id | id in p.releases :: p.releases[id].id == id
    ensures ExpandOne(p, main).Success? ==> BlockFor(p, main, ExpandOne(p, main).value)
    ensures ExpandOne(p, main).Failure? ==> !ExpandOne(p, main).error.MissingCheck?
  {
    hide BindingsOk, RollbackPostCheck, Block, CheckStep;
    if Unplanned(main.phase) && main.releaseId in p.releases {
      var r := p.releases[main.releaseId];
      var found := ActionById(r.actions, main.actionId);
      if found.Some? && BindingsOk(r, true) && !found.value.kind.Check? && main.componentId in p.components {
        var action := found.value;
        if action.kind.Rollback? {
          var source := SourceAction(main);
          if RollbackPostCheck(r, action, source).Some? {
            RollbackExpands(p, main, r, action);
          }
        } else {
          OrdinaryExpands(p, main, r, action);
        }
      }
    }
  }

  lemma CheckStepShape(p: Planner, main: Step, r: Release, check: Action, phase: Phase, defaulted: bool)
    requires check.kind.Check? && main.releaseId == r.id
    ensures
      var body := main.(phase := Execute);
      && ChecksFor(CheckStep(p, main, r, check, phase, defaulted), body, phase)
      && Inherits(CheckStep(p, main, r, check, phase, defaulted), body, defaulted)
      && CheckStep(p, body, r, check, phase, defaulted) == CheckStep(p, main, r, check, phase, defaulted)
  {
  }

  lemma RollbackExpands(p: Planner, main: Step, r: Release, action: Action)
    requires main.releaseId == r.id && BindingsOk(r, true) && RollbackPostCheck(r, action, SourceAction(main)).Some?
    ensures
      var check := RollbackPostCheck(r, action, SourceAction(main)).value;
      var b := Block(p, Rooted(main).(rollbackSourceActionId := SourceAction(main)), r, "", check.id,
        action.post == "");
      b.Success? && RollbackBlock(main, b.value, action.post == "")
  {
    hide BindingsOk, RollbackPostCheck, Block, ActionById, CheckStep, ChecksFor, Inherits;
    var check := RollbackPostCheck(r, action, SourceAction(main)).value;
    var rooted := Rooted(main).(rollbackSourceActionId := SourceAction(main));
    RollbackBinding(r, action, SourceAction(main));
    BlockOfTwo(p, rooted, r, check, action.post == "");
    CheckStepShape(p, rooted, r, check, Post, action.post == "");
  }

  lemma OrdinaryExpands(p: Planner, main: Step, r: Release, action: Action)
    requires main.releaseId == r.id && BindingsOk(r, true) && action in r.actions && !action.kind.Check?
      && !action.kind.Rollback?
    ensures
      var b := Block(p, Rooted(main), r, action.pre, action.post, false);
      b.Success? && OrdinaryBlock(main, b.value)
  {
    hide BindingsOk, Block, ActionById, CheckStep, ChecksFor, Inherits;
    OrdinaryBindings(r, action);
    var pre, post := ActionById(r.actions, action.pre).value, ActionById(r.actions, action.post).value;
    BlockOfThree(p, Rooted(main), r, pre, post);
    CheckStepShape(p, Rooted(main), r, pre, Pre, false);
    CheckStepShape(p, Rooted(main), r, post, Post, false);
  }

  // ---------------------------------------------------------------- the whole plan

  function Flatten(blocks: seq<seq<Step>>): seq<Step>
    decreases |blocks|
  {
    if blocks == [] then [] else Flatten(blocks[..|blocks| - 1]) + blocks[|blocks| - 1]
  }

  function Blocks(p: Planner, steps: seq<Step>): seq<seq<Step>>
    requires forall i | 0 <= i < |steps| :: ExpandOne(p, steps[i]).Success?
  {
    seq(|steps|, i requires 0 <= i < |steps| => ExpandOne(p, steps[i]).value)
  }

  /** A plan expands exactly when each of its steps does, to their blocks in the order of the steps. */
  lemma {:induction false} ExpansionIsBlocksInOrder(p: Planner, steps: seq<Step>)
    ensures Expand(p, steps).Success? <==> forall i | 0 <= i < |steps| :: ExpandOne(p, steps[i]).Success?
    ensures Expand(p, steps).Success? ==> Expand(p, steps).value == Flatten(Blocks(p, steps))
    decreases |steps|
  {
    hide ExpandOne;
    if steps != [] {
      var before := steps[..|steps| - 1];
      ExpansionIsBlocksInOrder(p, before);
      assert forall i | 0 <= i < |before| :: before[i] == steps[i];
      if Expand(p, steps).Success? {
        assert Blocks(p, steps)[..|steps| - 1] == Blocks(p, before);
      }
    }
  }

  predicate AllPlanned(steps: seq<Step>)
  {
    forall i | 0 <= i < |steps| :: !Unplanned(steps[i].phase)
  }

  lemma BlockIsPlanned(p: Planner, main: Step)
    requires ExpandOne(p, main).Success?
    ensures AllPlanned(ExpandOne(p, main).value)
  {
    hide BindingsOk, RollbackPostCheck, ActionById, Block;
    forall body: Step, r: Release, pre: string, post: string, defaulted: bool
      | Block(p, body, r, pre, post, defaulted).Success?
      ensures AllPlanned(Block(p, body, r, pre, post, defaulted).value)
    {
      BoundedBlockIsPlanned(p, body, r, pre, post, defaulted);
    }
  }

  lemma BoundedBlockIsPlanned(p: Planner, main: Step, r: Release, pre: string, post: string, defaulted: bool)
    requires Block(p, main, r, pre, post, defaulted).Success?
    ensures AllPlanned(Block(p, main, r, pre, post, defaulted).value)
  {
    hide ActionById;
  }

  lemma {:induction false} ExpandedIsPlanned(p: Planner, steps: seq<Step>)
    requires Expand(p, steps).Success?
    ensures AllPlanned(Expand(p, steps).value)
    decreases |steps|
  {
    hide ExpandOne;
    if steps != [] {
      ExpandedIsPlanned(p, steps[..|steps| - 1]);
      BlockIsPlanned(p, steps[|steps| - 1]);
    }
  }

  lemma {:induction false} PlannedIsFixed(p: Planner, steps: seq<Step>)
    requires AllPlanned(steps)
    ensures Expand(p, steps) == Success(steps)
    decreases |steps|
  {
    if steps != [] {
      var before, last := steps[..|steps| - 1], steps[|steps| - 1];
      PlannedIsFixed(p, before);
      assert ExpandOne(p, last) == Success([last]);
      hide ExpandOne;
      assert steps == before + [last];
    }
  }

  /** Expanding an expanded plan changes nothing, whatever the store has become by then. */
  lemma ExpandingTwiceIsExpandingOnce(p: Planner, later: Planner, steps: seq<Step>)
    requires Expand(p, steps).Success?
    ensures Expand(later, Expand(p, steps).value) == Expand(p, steps)
  {
    ExpandedIsPlanned(p, steps);
    PlannedIsFixed(later, Expand(p, steps).value);
  }

  // ---------------------------------------------------------------- sharing the backup context

  function Key(sourceNodeId: string, actionId: string): string
  {
    sourceNodeId + ['\0'] + actionId
  }

  /** Source nodes without NUL make the key exact: the bodies and checks of different actions, or of one action
      on different nodes, are never taken for each other. */
  lemma {:induction false} KeysTellApart(a: string, x: string, b: string, y: string)
    requires '\0' !in a && '\0' !in b
    ensures Key(a, x) == Key(b, y) <==> a == b && x == y
  {
    if Key(a, x) == Key(b, y) {
      var key := Key(a, x);
      assert key[|a|] == '\0' && key[|b|] == '\0';
      assert (forall i | 0 <= i < |a| :: key[i] == a[i]) && forall i | 0 <= i < |b| :: key[i] == b[i];
      assert |a| == |b|;
      assert a == key[..|a|] == b && x == key[|a| + 1..] == y;
    }
  }

  /** The bodies by source node and action; of several with the same key the last. */
  function Parents(steps: seq<Step>): map<string, Step>
    decreases |steps|
  {
    if steps == [] then map[]
    else
      var before, last := Parents(steps[..|steps| - 1]), steps[|steps| - 1];
      if last.phase.Execute? then before[Key(last.sourceNodeId, last.actionId) := last] else before
  }

  predicate StartsWith(s: string, prefix: string)
  {
    prefix <= s
  }

  predicate Shared(name: string)
  {
    StartsWith(name, "clusterforge_backup_") || StartsWith(name, "clusterforge_replaced_")
  }

  /** A rollback's post-check keeps its own variables except the backup context. */
  function Overlay(own: Variables, parent: Variables): Variables
  {
    own + map name | name in parent && Shared(name) :: parent[name]
  }

  function SyncedStep(parents: map<string, Step>, step: Step): Step
  {
    if !step.phase.Pre? && !step.phase.Post? then step
    else if Key(step.sourceNodeId, step.parentActionId) !in parents then step
    else
      var parent := parents[Key(step.sourceNodeId, step.parentActionId)];
      step.(
        variables := if step.phase.Post? && step.rollbackSourceActionId != ""
          then Overlay(step.variables, parent.variables) else parent.variables,
        backupRef := parent.backupRef, backup := parent.backup)
  }

  function SyncedWith(parents: map<string, Step>, steps: seq<Step>): (r: seq<Step>)
    ensures |r| == |steps|
  {
    seq(|steps|, i requires 0 <= i < |steps| => SyncedStep(parents, steps[i]))
  }

  function Synced(steps: seq<Step>): (r: seq<Step>)
    ensures |r| == |steps|
  {
    SyncedWith(Parents(steps), steps)
  }

  function OverlayWithout(own: Variables, parent: Variables, names: set<string>): Variables
  {
    own + map name | name in parent && name !in names && Shared(name) :: parent[name]
  }

  lemma OverlayOneMore(own: Variables, parent: Variables, names: set<string>, name: string)
    requires name in names && name in parent
    ensures OverlayWithout(own, parent, names - {name})
      == if Shared(name) then OverlayWithout(own, parent, names)[name := parent[name]]
        else OverlayWithout(own, parent, names)
  {
    hide Shared;
  }

  method OverlayLoop(own: Variables, parent: Variables) returns (variables: Variables)
    ensures variables == Overlay(own, parent)
  {
    hide OverlayWithout, Shared;
    variables := own;
    var names := parent.Keys;
    OverlayEnds(own, parent);
    while names != {}
      invariant names <= parent.Keys && variables == OverlayWithout(own, parent, names)
      decreases names
    {
      var name :| name in names;
      OverlayOneMore(own, parent, names, name);
      names := names - {name};
      if Shared(name) {
        variables := variables[name := parent[name]];
      }
    }
  }

  lemma OverlayEnds(own: Variables, parent: Variables)
    ensures OverlayWithout(own, parent, parent.Keys) == own && OverlayWithout(own, parent, {}) == Overlay(own, parent)
  {
    hide Shared;
  }

  method SyncActionCheckContext(steps: array<Step>)
    modifies steps
    ensures steps[..] == Synced(old(steps[..]))
  {
    hide SyncedStep, Parents;
    var parents := CollectParents(steps);
    for i := 0 to steps.Length
      invariant forall k | 0 <= k < i :: steps[k] == SyncedStep(parents, old(steps[k]))
      invariant forall k | i <= k < steps.Length :: steps[k] == old(steps[k])
    {
      var step := SyncOne(parents, steps[i]);
      steps[i] := step;
    }
    assert steps[..] == SyncedWith(parents, old(steps[..]));
  }

  method CollectParents(steps: array<Step>) returns (parents: map<string, Step>)
    ensures parents == Parents(steps[..])
  {
    parents := map[];
    for i := 0 to steps.Length
      invariant parents == Parents(steps[..i])
    {
      assert steps[..i + 1][..i] == steps[..i];
      if steps[i].phase.Execute? {
        parents := parents[Key(steps[i].sourceNodeId, steps[i].actionId) := steps[i]];
      }
    }
    assert steps[..steps.Length] == steps[..];
  }

  method SyncOne(parents: map<string, Step>, step: Step) returns (r: Step)
    ensures r == SyncedStep(parents, step)
  {
    if !step.phase.Pre? && !step.phase.Post? {
      return step;
    }
    if Key(step.sourceNodeId, step.parentActionId) !in parents {
      return step;
    }
    var parent := parents[Key(step.sourceNodeId, step.parentActionId)];
    var variables := parent.variables;
    if step.phase.Post? && step.rollbackSourceActionId != "" {
      variables := OverlayLoop(step.variables, parent.variables);
    }
    return step.(variables := variables, backupRef := parent.backupRef, backup := parent.backup);
  }

  lemma OverlayTwice(own: Variables, parent: Variables)
    ensures Overlay(Overlay(own, parent), parent) == Overlay(own, parent)
  {
  }

  lemma SyncedStepTwice(parents: map<string, Step>, step: Step)
    ensures SyncedStep(parents, SyncedStep(parents, step)) == SyncedStep(parents, step)
  {
    if Key(step.sourceNodeId, step.parentActionId) in parents {
      OverlayTwice(step.variables, parents[Key(step.sourceNodeId, step.parentActionId)].variables);
    }
    hide Overlay, Key;
  }

  lemma {:induction false} SyncingKeepsParents(parents: map<string, Step>, steps: seq<Step>)
    ensures Parents(SyncedWith(parents, steps)) == Parents(steps)
    decreases |steps|
  {
    if steps != [] {
      var before := steps[..|steps| - 1];
      SyncingKeepsParents(parents, before);
      assert SyncedWith(parents, steps)[..|steps| - 1] == SyncedWith(parents, before);
      hide Key, Overlay;
    }
  }

  /** Syncing a synced plan changes nothing. */
  lemma SyncingTwiceIsSyncingOnce(steps: seq<Step>)
    ensures Synced(Synced(steps)) == Synced(steps)
  {
    var parents := Parents(steps);
    SyncingKeepsParents(parents, steps);
    hide SyncedStep, Parents;
    forall i | 0 <= i < |steps|
      ensures SyncedStep(parents, SyncedStep(parents, steps[i])) == SyncedStep(parents, steps[i])
    {
      SyncedStepTwice(parents, steps[i]);
    }
  }

  predicate IsBody(steps: seq<Step>, i: nat)
    requires i < |steps|
  {
    steps[i].phase.Execute?
  }

  function KeyAt(steps: seq<Step>, i: nat): string
    requires i < |steps|
  {
    Key(steps[i].sourceNodeId, steps[i].actionId)
  }

  predicate UniqueBodies(steps: seq<Step>)
  {
    forall i, j | 0 <= i < j < |steps| && IsBody(steps, i) && IsBody(steps, j) :: KeyAt(steps, i) != KeyAt(steps, j)
  }

  /** A body behind which no other has its key. */
  predicate LastBody(steps: seq<Step>, i: nat)
    requires i < |steps|
  {
    IsBody(steps, i) && forall j | i < j < |steps| && IsBody(steps, j) :: KeyAt(steps, j) != KeyAt(steps, i)
  }

  lemma {:induction false} BodyIsParent(steps: seq<Step>, i: nat)
    requires i < |steps| && LastBody(steps, i)
    ensures KeyAt(steps, i) in Parents(steps) && Parents(steps)[KeyAt(steps, i)] == steps[i]
    decreases |steps|
  {
    hide Key;
    if i < |steps| - 1 {
      var before := steps[..|steps| - 1];
      assert KeyAt(before, i) == KeyAt(steps, i);
      forall j | i < j < |before| && IsBody(before, j)
        ensures KeyAt(before, j) != KeyAt(before, i)
      {
        assert IsBody(steps, j) && KeyAt(steps, j) == KeyAt(before, j);
      }
      BodyIsParent(before, i);
      assert IsBody(steps, |steps| - 1) ==> KeyAt(steps, i) != KeyAt(steps, |steps| - 1);
    }
  }

  /** Every key of a body has a last one. */
  lemma {:induction false} LastBodyExists(steps: seq<Step>, i: nat) returns (last: nat)
    requires i < |steps| && IsBody(steps, i)
    ensures last < |steps| && LastBody(steps, last) && KeyAt(steps, last) == KeyAt(steps, i)
    decreases |steps| - i
  {
    hide Key;
    if j :| i < j < |steps| && IsBody(steps, j) && KeyAt(steps, j) == KeyAt(steps, i) {
      last := LastBodyExists(steps, j);
    } else {
      last := i;
    }
  }

  /** Every check ends up with the backup context of the last body with its key, and with that body's
      variables unless it is the post-check a rollback took over. */
  lemma EveryCheckSharesItsBody(steps: seq<Step>, body: nat, check: nat)
    requires body < |steps| && check < |steps| && LastBody(steps, body)
    requires steps[check].phase.Pre? || steps[check].phase.Post?
    requires steps[check].parentActionId == steps[body].actionId
      && steps[check].sourceNodeId == steps[body].sourceNodeId
    ensures
      var after := Synced(steps);
      && after[body] == steps[body]
      && after[check].backupRef == after[body].backupRef && after[check].backup == after[body].backup
      && (steps[check].phase.Pre? || steps[check].rollbackSourceActionId == "" ==>
        after[check].variables == after[body].variables)
      && (forall name | name in after[body].variables
            && ("clusterforge_backup_" <= name || "clusterforge_replaced_" <= name) ::
        name in after[check].variables && after[check].variables[name] == after[body].variables[name])
      && (steps[check].phase.Post? && steps[check].rollbackSourceActionId != "" ==>
        forall name | !("clusterforge_backup_" <= name || "clusterforge_replaced_" <= name) ::
          && (name in after[check].variables <==> name in steps[check].variables)
          && (name in steps[check].variables ==> after[check].variables[name] == steps[check].variables[name]))
  {
    BodyIsParent(steps, body);
    SharedNames();
    hide Key, Parents, Shared;
  }

  lemma SharedNames()
    ensures forall name: string ::
      Shared(name) <==> ("clusterforge_backup_" <= name || "clusterforge_replaced_" <= name)
  {
  }

  /** Everything else stays as it is. */
  lemma OtherStepsStay(steps: seq<Step>, i: nat)
    requires i < |steps|
    requires forall j | 0 <= j < |steps| && IsBody(steps, j) ::
      !(steps[i].phase.Pre? || steps[i].phase.Post?)
      || Key(steps[i].sourceNodeId, steps[i].parentActionId) != KeyAt(steps, j)
    ensures Synced(steps)[i] == steps[i]
  {
    if steps[i].phase.Pre? || steps[i].phase.Post? {
      NoParent(steps, Key(steps[i].sourceNodeId, steps[i].parentActionId));
    }
    hide Key, Parents, Overlay;
  }

  lemma {:induction false} NoParent(steps: seq<Step>, key: string)
    requires forall j | 0 <= j < |steps| && IsBody(steps, j) :: key != KeyAt(steps, j)
    ensures key !in Parents(steps)
    decreases |steps|
  {
    hide Key;
    if steps != [] {
      var before := steps[..|steps| - 1];
      assert forall j | 0 <= j < |before| && IsBody(before, j) ::
        IsBody(steps, j) && KeyAt(before, j) == KeyAt(steps, j);
      NoParent(before, key);
      assert IsBody(steps, |steps| - 1) ==> key != KeyAt(steps, |steps| - 1);
    }
  }

  lemma {:induction false} BlockIsInside(p: Planner, steps: seq<Step>, i: nat)
    requires Expand(p, steps).Success? && i < |steps|
    ensures ExpandOne(p, steps[i]).Success? && forall s | s in ExpandOne(p, steps[i]).value ::
      s in Expand(p, steps).value
    decreases |steps|
  {
    hide ExpandOne;
    if i < |steps| - 1 {
      BlockIsInside(p, steps[..|steps| - 1], i);
    }
  }

  /** In a plan whose bodies are unique, expanding and then syncing gives each check of an action the
      backup of that action's body, and of no other. */
  lemma ExpandedChecksShareTheirBody(p: Planner, steps: seq<Step>, i: nat, body: Step, check: Step)
    requires forall id | id in p.releases :: p.releases[id].id == id
    requires Expand(p, steps).Success? && UniqueBodies(Expand(p, steps).value)
    requires i < |steps| && Unplanned(steps[i].phase) && ExpandOne(p, steps[i]).Success?
    requires body in ExpandOne(p, steps[i]).value && check in ExpandOne(p, steps[i]).value
    requires body.phase.Execute? && (check.phase.Pre? || check.phase.Post?)
    ensures
      var plan := Expand(p, steps).value;
      var synced := SyncedStep(Parents(plan), check);
      check in plan && body in plan && synced.backupRef == body.backupRef && synced.backup == body.backup
  {
    hide Expand, ExpandOne, Parents, Key, Overlay, BlockFor, ActionById;
    EveryStepBecomesItsBlock(p, steps[i]);
    BlockIsInside(p, steps, i);
    ChecksOfBlock(p, steps[i], ExpandOne(p, steps[i]).value, body, check);
    var plan := Expand(p, steps).value;
    var k :| 0 <= k < |plan| && plan[k] == body;
    BodyIsParent(plan, k);
  }

  lemma ChecksOfBlock(p: Planner, main: Step, block: seq<Step>, body: Step, check: Step)
    requires Unplanned(main.phase) && BlockFor(p, main, block) && body in block && check in block
    requires body.phase.Execute? && (check.phase.Pre? || check.phase.Post?)
    ensures check.parentActionId == body.actionId && check.sourceNodeId == body.sourceNodeId
  {
    hide ActionById, BodyOf, Inherits;
  }
}
