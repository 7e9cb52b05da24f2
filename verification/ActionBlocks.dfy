/** What a planned action expands into, field by field (internal/service/action_steps.go:11-91), and
    exactly when it is refused and why, with the binding rules spelled out
    (internal/domain/action_bindings.go:29-101). */
module ActionBlocks {
  import opened JobPlan
  import opened ActionSteps
  import opened ActionStepLaws

  // ---------------------------------------------------------------- bindings

  /** The action with this id; the first, should there be several. */
  ghost predicate Defines(actions: seq<Action>, id: string, a: Action)
  {
    exists i :: 0 <= i < |actions| && actions[i] == a && a.id == id && forall j | 0 <= j < i :: actions[j].id != id
  }

  lemma {:induction false} DefinesExactly(actions: seq<Action>, id: string)
    ensures forall a :: Defines(actions, id, a) <==> ActionById(actions, id) == Some(a)
  {
    if actions != [] {
      DefinesExactly(actions[1..], id);
      forall a
        ensures Defines(actions, id, a) <==> ActionById(actions, id) == Some(a)
      {
        if actions[0].id != id {
          DefinedBehind(actions, id, a);
        } else if Defines(actions, id, a) {
          var i :| 0 <= i < |actions| && actions[i] == a && a.id == id && forall j | 0 <= j < i :: actions[j].id != id;
          assert i == 0;
        }
      }
    }
  }

  lemma DefinedBehind(actions: seq<Action>, id: string, a: Action)
    requires actions != [] && actions[0].id != id
    ensures Defines(actions, id, a) <==> Defines(actions[1..], id, a)
  {
    var rest := actions[1..];
    assert forall j | 0 <= j < |rest| :: rest[j] == actions[j + 1];
    if Defines(actions, id, a) {
      var i :| 0 <= i < |actions| && actions[i] == a && a.id == id && forall j | 0 <= j < i :: actions[j].id != id;
      assert rest[i - 1] == a;
    }
    if Defines(rest, id, a) {
      var i :| 0 <= i < |rest| && rest[i] == a && a.id == id && forall j | 0 <= j < i :: rest[j].id != id;
      assert actions[i + 1] == a && forall j | 0 <= j < i + 1 :: actions[j].id != id;
    }
  }

  /** Some check of the release has this id. */
  ghost predicate IsCheck(r: Release, id: string)
  {
    exists a :: a in r.actions && a.id == id && a.kind == Check
  }

  /** What a release must be for one of its actions to be planned; a check on its own may be tested
      before the release is complete. */
  ghost predicate Contract(r: Release, complete: bool)
  {
    && (forall a | a in r.actions :: a.id != "" && (a.releaseId == "" || a.releaseId == r.id))
    && (forall i, j | 0 <= i < |r.actions| && 0 <= j < |r.actions| && i != j ::
          r.actions[i].id != r.actions[j].id && (r.actions[i].kind == r.actions[j].kind ==> r.actions[i].kind == Check))
    && (complete ==> (exists a :: a in r.actions && a.kind == Install)
                     && exists a :: a in r.actions && a.kind == ActionKind.Rollback)
    && (forall a | a in r.actions && a.kind == Check :: a.pre == "" && a.post == "" && !a.destructive)
    && (forall a | a in r.actions && a.kind == ActionKind.Rollback ::
      a.pre == "" && (a.post == "" || IsCheck(r, a.post)))
    && (forall a | a in r.actions && a.kind != Check && a.kind != ActionKind.Rollback ::
          && (IsCheck(r, a.pre) || (a.pre == "" && !complete))
          && (IsCheck(r, a.post) || (a.post == "" && !complete)))
  }

  lemma NamesCheckIs(r: Release, id: string)
    ensures NamesCheck(r.actions, id) <==> IsCheck(r, id)
  {
  }

  lemma HasKindIs(r: Release, kind: ActionKind)
    ensures HasKind(r.actions, kind) <==> exists a :: a in r.actions && a.kind == kind
  {
  }

  lemma OneBindingIs(r: Release, a: Action, complete: bool)
    ensures BindingOk(r.actions, a, complete) <==>
      if a.kind == Check then a.pre == "" && a.post == "" && !a.destructive
      else if a.kind == ActionKind.Rollback then a.pre == "" && (a.post == "" || IsCheck(r, a.post))
      else
        && (IsCheck(r, a.pre) || (a.pre == "" && !complete))
        && (IsCheck(r, a.post) || (a.post == "" && !complete))
  {
    NamesCheckIs(r, a.pre);
    NamesCheckIs(r, a.post);
    hide NamesCheck, IsCheck;
  }

  lemma AllBindingsAre(r: Release, complete: bool)
    ensures (forall i | 0 <= i < |r.actions| :: BindingOk(r.actions, r.actions[i], complete)) <==>
      && (forall a | a in r.actions && a.kind == Check :: a.pre == "" && a.post == "" && !a.destructive)
      && (forall a | a in r.actions && a.kind == ActionKind.Rollback ::
        a.pre == "" && (a.post == "" || IsCheck(r, a.post)))
      && (forall a | a in r.actions && a.kind != Check && a.kind != ActionKind.Rollback ::
          && (IsCheck(r, a.pre) || (a.pre == "" && !complete))
          && (IsCheck(r, a.post) || (a.post == "" && !complete)))
  {
    forall a | a in r.actions
      ensures BindingOk(r.actions, a, complete) <==>
        if a.kind == Check then a.pre == "" && a.post == "" && !a.destructive
        else if a.kind == ActionKind.Rollback then a.pre == "" && (a.post == "" || IsCheck(r, a.post))
        else
          && (IsCheck(r, a.pre) || (a.pre == "" && !complete))
          && (IsCheck(r, a.post) || (a.post == "" && !complete))
    {
      OneBindingIs(r, a, complete);
    }
    hide BindingOk, IsCheck;
  }

  lemma AllApartIs(r: Release)
    ensures
      && (forall i, j | 0 <= i < j < |r.actions| :: r.actions[i].id != r.actions[j].id)
      && (forall i, j | 0 <= i < j < |r.actions| ::
        r.actions[i].kind == r.actions[j].kind ==> r.actions[i].kind.Check?)
      <==> forall i, j | 0 <= i < |r.actions| && 0 <= j < |r.actions| && i != j ::
          r.actions[i].id != r.actions[j].id && (r.actions[i].kind == r.actions[j].kind ==> r.actions[i].kind == Check)
  {
  }

  lemma ContractExactly(r: Release, complete: bool)
    ensures BindingsOk(r, complete) <==> Contract(r, complete)
  {
    HasKindIs(r, Install);
    HasKindIs(r, ActionKind.Rollback);
    AllBindingsAre(r, complete);
    AllApartIs(r);
    hide BindingOk, HasKind, IsCheck;
  }

  /** The check that verifies a rollback: its own post check, or else the precheck of the install,
      upgrade or configure action that it undoes. */
  ghost predicate Verifies(r: Release, rollback: Action, sourceId: string, check: Action)
  {
    && check.kind == Check
    && if rollback.post != "" then Defines(r.actions, rollback.post, check)
       else exists source ::
         && Defines(r.actions, sourceId, source)
         && (source.kind == Install || source.kind == Upgrade || source.kind == Configure)
         && Defines(r.actions, source.pre, check)
  }

  lemma VerifiesExactly(r: Release, rollback: Action, sourceId: string, check: Action)
    ensures Verifies(r, rollback, sourceId, check) <==> RollbackPostCheck(r, rollback, sourceId) == Some(check)
  {
    DefinesExactly(r.actions, sourceId);
    DefinesExactly(r.actions, rollback.post);
    if ActionById(r.actions, sourceId).Some? {
      DefinesExactly(r.actions, ActionById(r.actions, sourceId).value.pre);
    }
    hide Defines, ActionById;
  }

  // ---------------------------------------------------------------- blocks

  /** The action whose undoing a rollback is, as far as the plan knows. */
  ghost predicate Undoes(main: Step, sourceId: string)
  {
    if main.rollbackSourceActionId != "" then sourceId == main.rollbackSourceActionId
    else if main.backup.Some? then sourceId == main.backup.value.actionId
    else sourceId == ""
  }

  /** The body of an action: the planned step, set to execute, with itself as parent. */
  ghost predicate IsBodyOf(body: Step, main: Step)
  {
    && body.phase == Execute && body.parentActionId == main.actionId
    && (main.sourceNodeId != "" ==> body.sourceNodeId == main.sourceNodeId)
    && (main.sourceNodeId == "" ==> body.sourceNodeId == main.nodeId)
    && body == main.(phase := body.phase, parentActionId := body.parentActionId, sourceNodeId := body.sourceNodeId,
                     rollbackSourceActionId := body.rollbackSourceActionId)
  }

  /** A check bound to a body: its own identity, the place and stage of the body, no backup of its own. */
  ghost predicate IsBoundCheck(p: Planner, check: Step, main: Step, body: Step, id: string, phase: Phase, name: string)
  {
    && check.actionId == id && check.kind == Check && check.phase == phase
    && check.nodeId == main.nodeId + "-" + name + "-" + id
    && check.id == p.lockedId(check.nodeId, main.releaseId, id)
    && check.parentActionId == main.actionId && check.sourceNodeId == body.sourceNodeId
    && check.releaseId == main.releaseId && check.componentId == main.componentId
    && check.limit == main.limit && check.stage == main.stage && check.sourceType == main.sourceType
    && check.backupRef == "" && check.backup == None
    && check.rollbackSourceVariables == None && !check.rollbackSourceFrozen
  }

  ghost predicate WithInputsOf(check: Step, main: Step)
  {
    check.variables == main.variables && check.frozen == main.frozen && check.rollbackSourceActionId == ""
  }

  /** A rollback without a post check of its own is verified with the inputs of the action it undoes. */
  ghost predicate WithInputsUndone(check: Step, main: Step, sourceId: string)
  {
    && check.variables == (if main.rollbackSourceVariables == None then main.variables
                           else main.rollbackSourceVariables.value)
    && check.frozen == main.rollbackSourceFrozen && check.rollbackSourceActionId == sourceId
  }

  ghost predicate OrdinaryPlan(p: Planner, main: Step, action: Action, block: seq<Step>)
  {
    && |block| == 3
    && IsBodyOf(block[1], main) && block[1].rollbackSourceActionId == main.rollbackSourceActionId
    && IsBoundCheck(p, block[0], main, block[1], action.pre, Pre, "pre") && WithInputsOf(block[0], main)
    && IsBoundCheck(p, block[2], main, block[1], action.post, Post, "post") && WithInputsOf(block[2], main)
  }

  ghost predicate RollbackPlan(p: Planner, main: Step, r: Release, action: Action, block: seq<Step>)
  {
    && |block| == 2
    && IsBodyOf(block[0], main) && Undoes(main, block[0].rollbackSourceActionId)
    && (exists check ::
          && Verifies(r, action, block[0].rollbackSourceActionId, check)
          && IsBoundCheck(p, block[1], main, block[0], check.id, Post, "post"))
    && if action.post == "" then WithInputsUndone(block[1], main, block[0].rollbackSourceActionId)
       else WithInputsOf(block[1], main)
  }

  ghost predicate CheckPlan(main: Step, block: seq<Step>)
  {
    && |block| == 1 && block[0].phase == CheckPhase && block[0].parentActionId == main.actionId
    && block[0].sourceNodeId == (if main.sourceNodeId == "" then main.nodeId else main.sourceNodeId)
    && block[0] == main.(phase := CheckPhase, parentActionId := main.actionId, sourceNodeId := block[0].sourceNodeId)
  }

  lemma CheckStepIs(p: Planner, main: Step, r: Release, check: Action, phase: Phase, defaulted: bool)
    requires check.kind.Check? && main.releaseId == r.id && (phase.Pre? || phase.Post?)
    ensures
      var rooted := Rooted(main);
      var c := CheckStep(p, rooted, r, check, phase, defaulted);
      && IsBoundCheck(p, c, main, rooted.(phase := Execute), check.id, phase, if phase.Pre? then "pre" else "post")
      && (!defaulted ==> WithInputsOf(c, main))
      && (defaulted ==> WithInputsUndone(c, main, main.rollbackSourceActionId))
  {
  }

  lemma OrdinaryExactly(p: Planner, main: Step, r: Release, action: Action)
    requires main.releaseId == r.id && BindingsOk(r, true) && action in r.actions && !action.kind.Check?
      && !action.kind.Rollback?
    ensures ExpandedAction(p, Rooted(main), r, action).Success?
    ensures OrdinaryPlan(p, main, action, ExpandedAction(p, Rooted(main), r, action).value)
  {
    hide BindingsOk, Block, ActionById, CheckStep, IsBoundCheck, WithInputsOf;
    OrdinaryBindings(r, action);
    var rooted := Rooted(main);
    var pre, post := ActionById(r.actions, action.pre).value, ActionById(r.actions, action.post).value;
    BlockOfThree(p, rooted, r, pre, post);
    CheckStepIs(p, main, r, pre, Pre, false);
    CheckStepIs(p, main, r, post, Post, false);
    PhaseAside(p, rooted, r, post, Post, false);
  }

  lemma PhaseAside(p: Planner, main: Step, r: Release, check: Action, phase: Phase, defaulted: bool)
    ensures CheckStep(p, main.(phase := Execute), r, check, phase, defaulted)
      == CheckStep(p, main, r, check, phase, defaulted)
  {
  }

  lemma UndoesExactly(main: Step, sourceId: string)
    ensures Undoes(main, sourceId) <==> sourceId == SourceAction(main)
  {
  }

  lemma RollbackExactly(p: Planner, main: Step, r: Release, action: Action)
    requires main.releaseId == r.id && BindingsOk(r, true) && action.kind.Rollback?
    ensures ExpandedAction(p, Rooted(main), r, action).Success? <==>
      exists sourceId: string, check :: Undoes(main, sourceId) && Verifies(r, action, sourceId, check)
    ensures ExpandedAction(p, Rooted(main), r, action).Success? ==>
      RollbackPlan(p, main, r, action, ExpandedAction(p, Rooted(main), r, action).value)
    ensures ExpandedAction(p, Rooted(main), r, action).Failure? ==>
      ExpandedAction(p, Rooted(main), r, action).error == NoRollbackCheck
  {
    hide BindingsOk, RollbackPostCheck, Block, ActionById, CheckStep, IsBoundCheck, WithInputsOf, WithInputsUndone,
      Verifies, Undoes;
    var source := SourceAction(main);
    UndoesExactly(main, source);
    RootedSource(main);
    var found := RollbackPostCheck(r, action, source);
    forall sourceId: string, check
      ensures Undoes(main, sourceId) && Verifies(r, action, sourceId, check) <==>
        sourceId == source && found == Some(check)
    {
      UndoesExactly(main, sourceId);
      VerifiesExactly(r, action, sourceId, check);
    }
    if found.Some? {
      var sourced := main.(rollbackSourceActionId := source);
      RollbackBinding(r, action, source);
      BlockOfTwo(p, Rooted(main).(rollbackSourceActionId := source), r, found.value, action.post == "");
      CheckStepIs(p, sourced, r, found.value, Post, action.post == "");
      PhaseAside(p, Rooted(sourced), r, found.value, Post, action.post == "");
      SourcedAlike(p, main, source, CheckStep(p, Rooted(sourced), r, found.value, Post, action.post == ""),
        Rooted(sourced).(phase := Execute), found.value.id);
    }
  }

  lemma RootedSource(main: Step)
    ensures SourceAction(Rooted(main)) == SourceAction(main)
    ensures forall source: string ::
      Rooted(main.(rollbackSourceActionId := source)) == Rooted(main).(rollbackSourceActionId := source)
  {
  }

  lemma SourcedAlike(p: Planner, main: Step, source: string, c: Step, body: Step, id: string)
    ensures
      var sourced := main.(rollbackSourceActionId := source);
      && (IsBoundCheck(p, c, sourced, body, id, Post, "post") <==> IsBoundCheck(p, c, main, body, id, Post, "post"))
      && (WithInputsOf(c, sourced) <==> WithInputsOf(c, main))
      && (WithInputsUndone(c, sourced, source) <==> WithInputsUndone(c, main, source))
  {
  }

  // ---------------------------------------------------------------- exactly when and why a step is refused

  /** The reason an action is not planned, tried in the order of the code. */
  ghost predicate ActionRefused(p: Planner, main: Step, r: Release, action: Action, problem: Problem)
  {
    if !Contract(r, action.kind != Check) then problem == BadBindings
    else if action.kind == Check then false
    else if main.componentId !in p.components then problem == MissingComponent
    else
      && action.kind == ActionKind.Rollback && problem == NoRollbackCheck
      && forall sourceId: string, check :: !(Undoes(main, sourceId) && Verifies(r, action, sourceId, check))
  }

  ghost predicate ActionPlanned(p: Planner, main: Step, r: Release, action: Action, block: seq<Step>)
  {
    if action.kind == Check then CheckPlan(main, block)
    else if action.kind == ActionKind.Rollback then RollbackPlan(p, main, r, action, block)
    else OrdinaryPlan(p, main, action, block)
  }

  /** The result for a step whose action is known. */
  ghost predicate ActionExpandsRight(p: Planner, main: Step, r: Release, action: Action,
      result: Result<seq<Step>, Problem>)
  {
    && (forall problem :: result == Failure(problem) <==> ActionRefused(p, main, r, action, problem))
    && (result.Success? ==> ActionPlanned(p, main, r, action, result.value))
  }

  lemma EveryActionExpandsRight(p: Planner, main: Step, r: Release, action: Action)
    requires Unplanned(main.phase) && main.releaseId in p.releases && p.releases[main.releaseId] == r
    requires main.releaseId == r.id && ActionById(r.actions, main.actionId) == Some(action)
    ensures ActionExpandsRight(p, main, r, action, ExpandOne(p, main))
  {
    ContractExactly(r, action.kind != Check);
    hide BindingsOk, ActionById, Contract, ExpandedAction, RollbackPlan, OrdinaryPlan, Verifies, Undoes;
    if BindingsOk(r, true) && action.kind.Rollback? {
      RollbackExactly(p, main, r, action);
    } else if BindingsOk(r, true) && !action.kind.Check? {
      OrdinaryExactly(p, main, r, action);
    }
  }

  /** A planned step becomes exactly the block of its action, or is refused for exactly one reason: its
      release or action is missing, or the reason lies with the action. */
  lemma EveryStepExpandsRight(p: Planner, main: Step)
    requires forall id | id in p.releases :: p.releases[id].id == id
    ensures main.phase != OtherPhase("") ==> ExpandOne(p, main) == Success([main])
    ensures main.phase == OtherPhase("") && main.releaseId !in p.releases ==>
      ExpandOne(p, main) == Failure(MissingRelease)
    ensures main.phase == OtherPhase("") && main.releaseId in p.releases ==>
      var r := p.releases[main.releaseId];
      && ((forall a :: !Defines(r.actions, main.actionId, a)) ==> ExpandOne(p, main) == Failure(MissingAction))
      && forall a | Defines(r.actions, main.actionId, a) :: ActionExpandsRight(p, main, r, a, ExpandOne(p, main))
  {
    if Unplanned(main.phase) && main.releaseId in p.releases {
      var r := p.releases[main.releaseId];
      DefinesExactly(r.actions, main.actionId);
      hide BindingsOk, ActionById, Defines, ExpandedAction, ActionExpandsRight;
      var found := ActionById(r.actions, main.actionId);
      if found.Some? {
        EveryActionExpandsRight(p, main, r, found.value);
      }
    }
  }
}
