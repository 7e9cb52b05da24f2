/** The durable receipt of the standalone launcher (internal/jobcli/run.go) and the rules that
    decide what resume and rollback may run. */
module ActionReceipt {
  import opened JobPlan
  import JobController

  datatype ActionStatus = Started | MainSucceeded | Verified | RolledBack

  type Actions = map<string, ActionStatus>

  datatype Operation = RunOperation | RollbackOperation

  /** One JobStepResult, reduced to whether its status is "succeeded". */
  datatype StageRecord = StageRecord(stepId: string, succeeded: bool)

  datatype Receipt = Receipt(operation: Operation, original: Plan, steps: seq<JobStep>, results: seq<StageRecord>,
      actions: Actions, attempts: nat)

  function Look(actions: Actions, id: string): Option<ActionStatus>
  {
    if id in actions then Some(actions[id]) else None
  }

  // ---------------------------------------------------------------- updateActionReceipt

  predicate IsParent(candidate: JobStep, step: JobStep)
  {
    && candidate.phase.Execute? && candidate.nodeId == step.nodeId
    && candidate.actionId == step.parentActionId && candidate.recoveryOfStepId == step.recoveryOfStepId
  }

  function FirstParent(steps: seq<JobStep>, step: JobStep): (r: Option<JobStep>)
    ensures r.Some? ==> r.value in steps && IsParent(r.value, step)
    ensures r.None? ==> forall k | 0 <= k < |steps| :: !IsParent(steps[k], step)
  {
    if steps == [] then None
    else if IsParent(steps[0], step) then Some(steps[0])
    else FirstParent(steps[1..], step)
  }

  /** The parent is looked up in the running plan, then the original steps, then its recovery. */
  function Parent(current: seq<JobStep>, original: Plan, step: JobStep): Option<JobStep>
  {
    var a := FirstParent(current, step);
    var b := FirstParent(original.steps, step);
    if a.Some? then a else if b.Some? then b else FirstParent(original.recovery, step)
  }

  predicate CapturedWith(o: JobStep, ref: Option<string>)
  {
    o.phase.Execute? && o.captures && o.backupRef == ref
  }

  function MarkCaptured(steps: seq<JobStep>, ref: Option<string>, actions: Actions): (marked: Actions)
    ensures forall id ::
      (if exists k | 0 <= k < |steps| :: steps[k].id == id && CapturedWith(steps[k], ref)
       then id in marked && marked[id] == RolledBack
       else (id in marked <==> id in actions) && (id in actions ==> marked[id] == actions[id]))
    decreases |steps|
  {
    if steps == [] then actions
    else
      var o := steps[|steps| - 1];
      var before := MarkCaptured(steps[..|steps| - 1], ref, actions);
      if CapturedWith(o, ref) then before[o.id := RolledBack] else before
  }

  function MarkBoundary(actions: Actions, boundary: JobController.Boundary, step: JobStep): Actions
  {
    if step.phase.Execute? then actions[step.id := if boundary.EndStage? then MainSucceeded else Started] else actions
  }

  function MarkVerified(actions: Actions, original: Plan, parent: JobStep, step: JobStep): Actions
  {
    var verified := actions[parent.id := Verified];
    if parent.action.Rollback? || parent.action.Uninstall? then
      MarkCaptured(original.steps, parent.backupRef, if step.recoveryOfStepId != ""
        then verified[step.recoveryOfStepId := RolledBack] else verified)
    else verified
  }

  function Updated(r: Receipt, boundary: JobController.Boundary, step: JobStep): Actions
  {
    var actions := MarkBoundary(r.actions, boundary, step);
    var parent := Parent(r.steps, r.original, step);
    if step.phase.Post? && boundary.EndStage? && parent.Some?
      then MarkVerified(actions, r.original, parent.value, step) else actions
  }

  // ---------------------------------------------------------------- OnBoundary

  function Acknowledged(results: seq<StageRecord>, id: string): (r: seq<StageRecord>)
    ensures |r| == |results|
    ensures forall i | 0 <= i < |r| :: r[i] == if results[i].stepId == id then StageRecord(id, true) else results[i]
  {
    seq(|results|, i requires 0 <= i < |results| => if results[i].stepId == id then StageRecord(id, true)
      else results[i])
  }

  /** The receipt in memory after one boundary callback, just before it is persisted. */
  function AfterBoundary(r: Receipt, boundary: JobController.Boundary, step: JobStep): Receipt
  {
    var results := if boundary.BeginStage? then r.results + [StageRecord(step.id, false)]
      else Acknowledged(r.results, step.id);
    r.(results := results, actions := Updated(r, boundary, step))
  }

  class ReceiptObject {
    const original: Plan
    var operation: Operation
    var steps: seq<JobStep>
    var results: seq<StageRecord>
    var actions: Actions
    var attempts: nat

    ghost function Value(): Receipt
      reads this
    {
      Receipt(operation, original, steps, results, actions, attempts)
    }

    constructor (r: Receipt)
      ensures Value() == r
    {
      original := r.original;
      operation, steps, results, actions, attempts := r.operation, r.steps, r.results, r.actions, r.attempts;
    }

    method FindParent(step: JobStep) returns (parent: Option<JobStep>)
      ensures parent == Parent(steps, original, step)
    {
      hide FirstParent;
      var lists := [steps, original.steps, original.recovery];
      for l := 0 to 3
        invariant l > 0 ==> FirstParent(steps, step).None?
        invariant l > 1 ==> FirstParent(original.steps, step).None?
        invariant l > 2 ==> FirstParent(original.recovery, step).None?
      {
        assert l == 0 || l == 1 || l == 2;
        parent := FindIn(lists[l], step);
        if parent.Some? {
          return;
        }
      }
      return None;
    }

    static method FindIn(list: seq<JobStep>, step: JobStep) returns (parent: Option<JobStep>)
      ensures parent == FirstParent(list, step)
    {
      for i := 0 to |list|
        invariant FirstParent(list, step) == FirstParent(list[i..], step)
      {
        if IsParent(list[i], step) {
          return Some(list[i]);
        }
      }
      return None;
    }

    method UpdateActionReceipt(boundary: JobController.Boundary, step: JobStep)
      modifies this`actions
      ensures actions == Updated(old(Value()), boundary, step)
    {
      if step.phase.Execute? {
        var status := Started;
        if boundary.EndStage? {
          status := MainSucceeded;
        }
        actions := actions[step.id := status];
      }
      if !step.phase.Post? || !boundary.EndStage? {
        return;
      }
      var parent := FindParent(step);
      if parent.None? {
        return;
      }
      actions := actions[parent.value.id := Verified];
      if parent.value.action.Rollback? || parent.value.action.Uninstall? {
        if step.recoveryOfStepId != "" {
          actions := actions[step.recoveryOfStepId := RolledBack];
        }
        ghost var before := actions;
        for i := 0 to |original.steps|
          invariant actions == MarkCaptured(original.steps[..i], parent.value.backupRef, before)
        {
          assert original.steps[..i + 1][..i] == original.steps[..i];
          if CapturedWith(original.steps[i], parent.value.backupRef) {
            actions := actions[original.steps[i].id := RolledBack];
          }
        }
        assert original.steps[..|original.steps|] == original.steps;
      }
    }

    method OnBoundary(boundary: JobController.Boundary, step: JobStep)
      modifies this`results, this`actions
      ensures Value() == AfterBoundary(old(Value()), boundary, step)
    {
      if boundary.BeginStage? {
        results := results + [StageRecord(step.id, false)];
      } else {
        for i := 0 to |results|
          invariant |results| == |old(results)| && actions == old(actions)
          invariant forall k | 0 <= k < i :: results[k] == Acknowledged(old(results), step.id)[k]
          invariant forall k | i <= k < |results| :: results[k] == old(results)[k]
        {
          if results[i].stepId == step.id {
            results := results[i := StageRecord(step.id, true)];
          }
        }
        assert results == Acknowledged(old(results), step.id);
      }
      UpdateActionReceipt(boundary, step);
    }
  }

  // ---------------------------------------------------------------- which stages are left

  /** The last result recorded for a step is a success. */
  predicate Completed(results: seq<StageRecord>, id: string)
    decreases |results|
  {
    if results == [] then false
    else
      var last := results[|results| - 1];
      if last.stepId == id then last.succeeded else Completed(results[..|results| - 1], id)
  }

  predicate AllSucceeded(steps: seq<JobStep>, results: seq<StageRecord>)
  {
    steps != [] && forall k | 0 <= k < |steps| :: Completed(results, steps[k].id)
  }

  method AllStagesSucceeded(steps: seq<JobStep>, results: seq<StageRecord>) returns (b: bool)
    ensures b == AllSucceeded(steps, results)
  {
    var completed: map<string, bool> := map[];
    for i := 0 to |results|
      invariant forall id :: (id in completed && completed[id]) == Completed(results[..i], id)
    {
      assert results[..i + 1][..i] == results[..i];
      completed := completed[results[i].stepId := results[i].succeeded];
    }
    assert results[..|results|] == results;
    for k := 0 to |steps|
      invariant forall m | 0 <= m < k :: Completed(results, steps[m].id)
    {
      if !(steps[k].id in completed && completed[steps[k].id]) {
        return false;
      }
    }
    return |steps| > 0;
  }

  predicate NeedsRollback(actions: Actions, step: JobStep)
  {
    step.recoveryOfStepId in actions && actions[step.recoveryOfStepId] != RolledBack
  }

  /** The recovery stages whose source was touched and is not rolled back yet. */
  function Touched(recovery: seq<JobStep>, actions: Actions): seq<JobStep>
    decreases |recovery|
  {
    if recovery == [] then []
    else
      var before := Touched(recovery[..|recovery| - 1], actions);
      if NeedsRollback(actions, recovery[|recovery| - 1]) then before + [recovery[|recovery| - 1]] else before
  }

  lemma {:induction false} TouchedIff(recovery: seq<JobStep>, actions: Actions, x: JobStep)
    ensures x in Touched(recovery, actions) <==> x in recovery && NeedsRollback(actions, x)
    decreases |recovery|
  {
    if recovery != [] {
      hide NeedsRollback;
      var rest, last := recovery[..|recovery| - 1], recovery[|recovery| - 1];
      TouchedIff(rest, actions, x);
      assert recovery == rest + [last];
    }
  }

  method TouchedStages(recovery: seq<JobStep>, actions: Actions) returns (stages: seq<JobStep>)
    ensures stages == Touched(recovery, actions)
  {
    stages := [];
    for i := 0 to |recovery|
      invariant stages == Touched(recovery[..i], actions)
    {
      assert recovery[..i + 1][..i] == recovery[..i];
      if recovery[i].recoveryOfStepId in actions && actions[recovery[i].recoveryOfStepId] != RolledBack {
        stages := stages + [recovery[i]];
      }
    }
    assert recovery[..|recovery|] == recovery;
  }

  // ---------------------------------------------------------------- RetryStages (cf_recovery.py)

  datatype RetryError = NothingIncomplete | AcceptanceNotReplayable | NotRetrySafe | NoPrecheck

  function Instance(step: JobStep): string
  {
    step.componentId + "/" + step.nodeId
  }

  predicate IsTeardown(parents: seq<JobStep>, step: JobStep)
  {
    exists k | 0 <= k < |parents| ::
      && parents[k].phase.Execute? && (parents[k].action.Rollback? || parents[k].action.Uninstall?)
      && Instance(parents[k]) == Instance(step) && parents[k].actionId == step.parentActionId
  }

  predicate Refreshable(parents: seq<JobStep>, step: JobStep)
  {
    (step.phase.Post? || step.phase.CheckPhase?) && !IsTeardown(parents, step)
  }

  /** steps[k] is the last refreshable check of its component instance before `start`, and that
      instance has nothing pending. */
  predicate Refreshes(steps: seq<JobStep>, parents: seq<JobStep>, start: nat, k: nat)
    requires start <= |steps| && k < start
  {
    && Refreshable(parents, steps[k])
    && (forall m | k < m < start :: Refreshable(parents, steps[m]) ==> Instance(steps[m]) != Instance(steps[k]))
    && (forall m | start <= m < |steps| :: Instance(steps[m]) != Instance(steps[k]))
  }

  const REFRESH := "refresh-"

  function RefreshCheck(step: JobStep): JobStep
  {
    step.(id := if REFRESH <= step.id then step.id else REFRESH + step.id, phase := CheckPhase)
  }

  function Refreshed(steps: seq<JobStep>, parents: seq<JobStep>, start: nat, upto: nat): seq<JobStep>
    requires upto <= start <= |steps|
  {
    if upto == 0 then []
    else
      var before := Refreshed(steps, parents, start, upto - 1);
      if Refreshes(steps, parents, start, upto - 1) then before + [RefreshCheck(steps[upto - 1])] else before
  }

  /** `metadata` are the parent actions recorded in plan.Metadata. */
  function Continuation(steps: seq<JobStep>, recovery: seq<JobStep>, metadata: seq<JobStep>, start: nat): seq<JobStep>
    requires start <= |steps|
  {
    Refreshed(steps, steps + recovery + metadata, start, start) + steps[start..]
  }

  function FirstIncomplete(steps: seq<JobStep>, results: seq<StageRecord>, from: nat): (start: nat)
    requires from <= |steps|
    ensures from <= start <= |steps|
    ensures forall k | from <= k < start :: Completed(results, steps[k].id)
    ensures start < |steps| ==> !Completed(results, steps[start].id)
    decreases |steps| - from
  {
    if from == |steps| || !Completed(results, steps[from].id) then from else FirstIncomplete(steps, results, from + 1)
  }

  predicate HasPrecheck(steps: seq<JobStep>, start: nat)
    requires start < |steps|
  {
    && start > 0 && steps[start - 1].phase.Pre?
    && steps[start - 1].parentActionId == steps[start].actionId && Instance(steps[start - 1]) == Instance(steps[start])
  }

  function RetryStages(steps: seq<JobStep>, recovery: seq<JobStep>, metadata: seq<JobStep>,
      results: seq<StageRecord>): Result<seq<JobStep>, RetryError>
  {
    var start := FirstIncomplete(steps, results, 0);
    if start == |steps| then Failure(NothingIncomplete)
    else
      var step := steps[start];
      if step.acceptance && !step.retrySafe then Failure(AcceptanceNotReplayable)
      else if step.phase.Execute? then
        if !step.retrySafe then Failure(NotRetrySafe)
        else if HasPrecheck(steps, start) then Success(Continuation(steps, recovery, metadata, start - 1))
        else if !step.action.Rollback? then Failure(NoPrecheck)
        else Success(Continuation(steps, recovery, metadata, start))
      else Success(Continuation(steps, recovery, metadata, start))
  }
}
