/** Expansion of planned actions into pre-check, body and post-check steps, and the sharing of backup
    context between them (internal/service/action_steps.go:11-124, with the binding rules of
    internal/domain/action_bindings.go:29-101). */
module ActionSteps {
  import opened JobPlan

  datatype Action = Action(id: string, releaseId: string, kind: ActionKind, pre: string, post: string,
      destructive: bool)

  datatype Release = Release(id: string, actions: seq<Action>)

  /** The phase of a step not yet expanded is the empty text. */
  predicate Unplanned(phase: Phase)
  {
    phase.OtherPhase? && phase.name == ""
  }

  type Variables = map<string, string>

  datatype Backup = Backup(actionId: string, reference: string)

  datatype Step = Step(
    id: string,
    nodeId: string,
    sourceNodeId: string,
    releaseId: string,
    componentId: string,
    actionId: string,
    parentActionId: string,
    kind: ActionKind,
    phase: Phase,
    limit: string,
    stage: string,
    sourceType: string,
    variables: Variables,
    frozen: bool,
    rollbackSourceActionId: string,
    rollbackSourceVariables: Option<Variables>,
    rollbackSourceFrozen: bool,
    backupRef: string,
    backup: Option<Backup>)

  datatype Problem = MissingRelease | MissingAction | BadBindings | MissingComponent | NoRollbackCheck | MissingCheck

  /** The store, and the digest that names a locked step. */
  datatype Planner = Planner(releases: map<string, Release>, components: set<string>,
      lockedId: (string, string, string) -> string)

  function ActionById(actions: seq<Action>, id: string): (r: Option<Action>)
    ensures r.Some? ==> r.value in actions && r.value.id == id
  {
    if actions == [] then None else if actions[0].id == id then Some(actions[0]) else ActionById(actions[1..], id)
  }

  // ---------------------------------------------------------------- bindings

  predicate NamesCheck(actions: seq<Action>, id: string)
  {
    exists i | 0 <= i < |actions| :: actions[i].id == id && actions[i].kind.Check?
  }

  predicate HasKind(actions: seq<Action>, kind: ActionKind)
  {
    exists i | 0 <= i < |actions| :: actions[i].kind == kind
  }

  predicate BindingOk(actions: seq<Action>, a: Action, complete: bool)
  {
    if a.kind.Check? then a.pre == "" && a.post == "" && !a.destructive
    else
      && (a.kind.Rollback? ==> a.pre == "")
      && (NamesCheck(actions, a.pre) || (a.pre == "" && (a.kind.Rollback? || !complete)))
      && (NamesCheck(actions, a.post) || (a.post == "" && (a.kind.Rollback? || !complete)))
  }

  predicate BindingsOk(r: Release, complete: bool)
  {
    && (forall i | 0 <= i < |r.actions| ::
      r.actions[i].id != ""
      && (r.actions[i].releaseId == "" || r.actions[i].releaseId == r.id))
    && (forall i, j | 0 <= i < j < |r.actions| :: r.actions[i].id != r.actions[j].id)
    && (forall i, j | 0 <= i < j < |r.actions| :: r.actions[i].kind == r.actions[j].kind ==> r.actions[i].kind.Check?)
    && (complete ==> HasKind(r.actions, Install) && HasKind(r.actions, Rollback))
    && forall i | 0 <= i < |r.actions| :: BindingOk(r.actions, r.actions[i], complete)
  }

  function RollbackPostCheck(r: Release, rollback: Action, sourceActionId: string): Option<Action>
  {
    var source := ActionById(r.actions, sourceActionId);
    var id :=
      if rollback.post != "" then Some(rollback.post)
      else if source.None?
        || !(source.value.kind.Install? || source.value.kind.Upgrade? || source.value.kind.Configure?) then None
      else Some(source.value.pre);
    if id.None? then None
    else
      var check := ActionById(r.actions, id.value);
      if check.None? || !check.value.kind.Check? then None else check
  }

  // ---------------------------------------------------------------- expansion of one step

  function Rooted(main: Step): Step
  {
    main.(sourceNodeId := if main.sourceNodeId == "" then main.nodeId
      else main.sourceNodeId, parentActionId := main.actionId)
  }

  function SourceAction(main: Step): string
  {
    if main.rollbackSourceActionId == "" && main.backup.Some? then main.backup.value.actionId
      else main.rollbackSourceActionId
  }

  function PhaseName(phase: Phase): string
  {
    if phase.Pre? then "pre" else "post"
  }

  /** The locked step of a check bound to main; defaulted marks the post-check a rollback takes over
      from the action it undoes. */
  function CheckStep(p: Planner, main: Step, r: Release, check: Action, phase: Phase, defaulted: bool): Step
  {
    var nodeId := main.nodeId + "-" + PhaseName(phase) + "-" + check.id;
    Step(
      p.lockedId(nodeId, r.id, check.id), nodeId, main.sourceNodeId, r.id, main.componentId, check.id, main.actionId,
        check.kind, phase,
      main.limit, main.stage, main.sourceType,
      if defaulted && main.rollbackSourceVariables.Some? then main.rollbackSourceVariables.value else main.variables,
      if defaulted then main.rollbackSourceFrozen else main.frozen,
      if defaulted then main.rollbackSourceActionId else "",
      None, false, "", None)
  }

  function Bound(p: Planner, main: Step, r: Release, id: string, phase: Phase,
      defaulted: bool): Result<seq<Step>, Problem>
  {
    if id == "" then Success([])
    else
      var check := ActionById(r.actions, id);
      if check.None? then Failure(MissingCheck) else Success([CheckStep(p, main, r, check.value, phase, defaulted)])
  }

  function Block(p: Planner, main: Step, r: Release, pre: string, post: string,
      defaulted: bool): Result<seq<Step>, Problem>
  {
    var before := Bound(p, main, r, pre, Pre, false);
    var body := main.(phase := Execute);
    var after := Bound(p, body, r, post, Post, defaulted);
    if before.Failure? then before else if after.Failure? then after else Success(before.value + [body] + after.value)
  }

  function ExpandedAction(p: Planner, main: Step, r: Release, action: Action): Result<seq<Step>, Problem>
  {
    if action.kind.Rollback? then
      var source := SourceAction(main);
      var check := RollbackPostCheck(r, action, source);
      if check.None? then Failure(NoRollbackCheck)
      else Block(p, main.(rollbackSourceActionId := source), r, "", check.value.id, action.post == "")
    else Block(p, main, r, action.pre, action.post, false)
  }

  function ExpandOne(p: Planner, main: Step): Result<seq<Step>, Problem>
  {
    if !Unplanned(main.phase) then Success([main])
    else if main.releaseId !in p.releases then Failure(MissingRelease)
    else
      var r := p.releases[main.releaseId];
      var action := ActionById(r.actions, main.actionId);
      if action.None? then Failure(MissingAction)
      else if !BindingsOk(r, !action.value.kind.Check?) then Failure(BadBindings)
      else if action.value.kind.Check? then Success([Rooted(main).(phase := CheckPhase)])
      else if main.componentId !in p.components then Failure(MissingComponent)
      else ExpandedAction(p, Rooted(main), r, action.value)
  }

  function Expand(p: Planner, steps: seq<Step>): Result<seq<Step>, Problem>
    decreases |steps|
  {
    if steps == [] then Success([])
    else
      var before := Expand(p, steps[..|steps| - 1]);
      if before.Failure? then before
      else
        var last := ExpandOne(p, steps[|steps| - 1]);
        if last.Failure? then last else Success(before.value + last.value)
  }

  // ---------------------------------------------------------------- the loops

  method ExpandActionSteps(p: Planner, steps: seq<Step>) returns (r: Result<seq<Step>, Problem>)
    ensures r == Expand(p, steps)
  {
    hide ExpandOne;
    var expanded: seq<Step> := [];
    for i := 0 to |steps|
      invariant Expand(p, steps[..i]) == Success(expanded)
    {
      ExpandStops(p, steps, i);
      ExpandNext(p, steps, i);
      var block := ExpandStep(p, steps[i]);
      if block.Failure? {
        return block;
      }
      expanded := expanded + block.value;
    }
    assert steps[..|steps|] == steps;
    return Success(expanded);
  }

  /** One turn of the loop: the step as it is, or what it becomes. */
  method ExpandStep(p: Planner, step: Step) returns (r: Result<seq<Step>, Problem>)
    ensures r == ExpandOne(p, step)
  {
    hide BindingsOk, RollbackPostCheck, Block, ActionById;
    var main := step;
    if !Unplanned(main.phase) {
      return Success([main]);
    }
    if main.releaseId !in p.releases {
      return Failure(MissingRelease);
    }
    var release := p.releases[main.releaseId];
    var action := ActionById(release.actions, main.actionId);
    if action.None? {
      return Failure(MissingAction);
    }
    if !BindingsOk(release, !action.value.kind.Check?) {
      return Failure(BadBindings);
    }
    if main.sourceNodeId == "" {
      main := main.(sourceNodeId := main.nodeId);
    }
    main := main.(parentActionId := main.actionId);
    assert main == Rooted(step);
    if action.value.kind.Check? {
      main := main.(phase := CheckPhase);
      return Success([main]);
    }
    if main.componentId !in p.components {
      return Failure(MissingComponent);
    }
    hide Rooted;
    r := ExpandAction(p, main, release, action.value);
  }

  /** The body of an action between its checks. */
  method ExpandAction(p: Planner, rooted: Step, release: Release, action: Action)
      returns (r: Result<seq<Step>, Problem>)
    ensures r == ExpandedAction(p, rooted, release, action)
  {
    hide RollbackPostCheck, Block;
    var main := rooted;
    var preId, postId := action.pre, action.post;
    if action.kind.Rollback? {
      preId := "";
      var sourceId := main.rollbackSourceActionId;
      if sourceId == "" && main.backup.Some? {
        sourceId := main.backup.value.actionId;
      }
      var check := RollbackPostCheck(release, action, sourceId);
      if check.None? {
        return Failure(NoRollbackCheck);
      }
      postId := check.value.id;
      main := main.(rollbackSourceActionId := sourceId);
    }
    r := ExpandBlock(p, main, release, preId, postId, action.kind.Rollback? && action.post == "");
  }

  method ExpandBlock(p: Planner, step: Step, release: Release, preId: string, postId: string, defaulted: bool)
      returns (r: Result<seq<Step>, Problem>)
    ensures r == Block(p, step, release, preId, postId, defaulted)
  {
    var main := step;
    var expanded: seq<Step> := [];
    if preId != "" {
      var check := ActionById(release.actions, preId);
      if check.None? {
        return Failure(MissingCheck);
      }
      expanded := expanded + [CheckStep(p, main, release, check.value, Pre, false)];
    }
    main := main.(phase := Execute);
    expanded := expanded + [main];
    if postId != "" {
      var check := ActionById(release.actions, postId);
      if check.None? {
        return Failure(MissingCheck);
      }
      expanded := expanded + [CheckStep(p, main, release, check.value, Post, defaulted)];
    }
    assert expanded == Bound(p, step, release, preId, Pre, false).value + [main]
      + Bound(p, main, release, postId, Post, defaulted).value;
    return Success(expanded);
  }

  lemma ExpandNext(p: Planner, steps: seq<Step>, i: nat)
    requires i < |steps| && Expand(p, steps[..i]).Success?
    ensures Expand(p, steps[..i + 1]) ==
      var last := ExpandOne(p, steps[i]);
      if last.Failure? then last else Success(Expand(p, steps[..i]).value + last.value)
  {
    assert steps[..i + 1][..i] == steps[..i];
    hide ExpandOne;
  }

  /** The first failure is the answer. */
  lemma {:induction false} ExpandStops(p: Planner, steps: seq<Step>, i: nat)
    requires i < |steps| && Expand(p, steps[..i]).Success?
    ensures ExpandOne(p, steps[i]).Failure? ==> Expand(p, steps) == ExpandOne(p, steps[i])
    decreases |steps|
  {
    hide ExpandOne;
    var before := steps[..|steps| - 1];
    if i < |before| {
      assert before[..i] == steps[..i];
      ExpandStops(p, before, i);
    } else {
      assert steps[..i] == before;
    }
  }
}
