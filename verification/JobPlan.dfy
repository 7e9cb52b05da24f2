/** The locked plan a job is compiled from (internal/ansible/job.go:34-78), reduced to the
    fields the controller, the compiler and the receipt read. */
module JobPlan {

  datatype Option<+T> = None | Some(value: T)

  datatype Result<+T, +E> = Success(value: T) | Failure(error: E)

  datatype Phase = Pre | Execute | Post | CheckPhase | OtherPhase(name: string)

  datatype ActionKind = Check | Install | Upgrade | Configure | Rollback | Uninstall | OtherAction(name: string)

  datatype JobStep = JobStep(
    id: string,
    componentId: string,
    nodeId: string,
    actionId: string,
    parentActionId: string,
    action: ActionKind,
    phase: Phase,
    /** sourceType == "scenario_acceptance" */
    acceptance: bool,
    recoveryOfStepId: string,
    role: string,
    timeoutSeconds: int,
    retrySafe: bool,
    /** Variables["clusterforge_backup_operation"] == "capture" */
    captures: bool,
    /** Variables["clusterforge_backup_ref"], None when the variable is absent */
    backupRef: Option<string>)

  datatype Plan = Plan(steps: seq<JobStep>, recovery: seq<JobStep>)

  predicate UniqueIds(steps: seq<JobStep>)
  {
    forall i, j | 0 <= i < j < |steps| :: steps[i].id != steps[j].id
  }

  predicate NonemptyIds(steps: seq<JobStep>)
  {
    forall i | 0 <= i < |steps| :: steps[i].id != ""
  }

  predicate PositiveTimeouts(steps: seq<JobStep>)
  {
    forall i | 0 <= i < |steps| :: steps[i].timeoutSeconds > 0
  }

  /** What BuildJob demands of a plan, apart from its source files. */
  predicate Buildable(plan: Plan)
  {
    && plan.steps != []
    && NonemptyIds(plan.steps) && UniqueIds(plan.steps) && PositiveTimeouts(plan.steps)
    && NonemptyIds(plan.recovery) && UniqueIds(plan.recovery) && PositiveTimeouts(plan.recovery)
  }

  /** The identity and timeout part of BuildJob's loop over Steps followed by Recovery; the
      table of identities starts afresh at the first recovery step. */
  method CheckSteps(plan: Plan) returns (ok: bool)
    ensures ok <==> Buildable(plan)
  {
    if plan.steps == [] {
      return false;
    }
    var all := plan.steps + plan.recovery;
    var ids: set<string> := {};
    ghost var base := 0;
    for index := 0 to |all|
      invariant base == if index <= |plan.steps| then 0 else |plan.steps|
      invariant forall k | 0 <= k < index :: all[k].id != "" && all[k].timeoutSeconds > 0
      invariant forall i, j | base <= i < j < index :: all[i].id != all[j].id
      invariant index > |plan.steps| ==> UniqueIds(plan.steps)
      invariant forall id :: id in ids <==> exists k :: base <= k < index && all[k].id == id
    {
      if index == |plan.steps| {
        forall i, j | 0 <= i < j < |plan.steps| ensures plan.steps[i].id != plan.steps[j].id {
          assert all[i] == plan.steps[i] && all[j] == plan.steps[j];
        }
        ids := {};
        base := |plan.steps|;
      }
      var step := all[index];
      if step.id == "" || step.id in ids || step.timeoutSeconds <= 0 {
        Refuted(plan, all, base, index);
        return false;
      }
      ids := ids + {step.id};
    }
    Accepted(plan, all);
    return true;
  }

  lemma Accepted(plan: Plan, all: seq<JobStep>)
    requires all == plan.steps + plan.recovery && plan.steps != []
    requires forall k | 0 <= k < |all| :: all[k].id != "" && all[k].timeoutSeconds > 0
    requires
      var base := if |all| <= |plan.steps| then 0 else |plan.steps|;
      forall i, j | base <= i < j < |all| :: all[i].id != all[j].id
    requires |all| > |plan.steps| ==> UniqueIds(plan.steps)
    ensures Buildable(plan)
  {
    var n := |plan.steps|;
    assert forall k | 0 <= k < n :: plan.steps[k] == all[k];
    assert forall k | 0 <= k < |plan.recovery| :: plan.recovery[k] == all[n + k];
  }

  lemma Refuted(plan: Plan, all: seq<JobStep>, base: nat, index: nat)
    requires all == plan.steps + plan.recovery && index < |all|
    requires base == if index < |plan.steps| then 0 else |plan.steps|
    requires
      || all[index].id == ""
      || all[index].timeoutSeconds <= 0
      || exists k :: base <= k < index && all[k].id == all[index].id
    ensures !Buildable(plan)
  {
    if index < |plan.steps| {
      assert all[index] == plan.steps[index];
      if k :| base <= k < index && all[k].id == all[index].id {
        assert all[k] == plan.steps[k];
      }
    } else {
      assert all[index] == plan.recovery[index - |plan.steps|];
      if k :| base <= k < index && all[k].id == all[index].id {
        assert all[k] == plan.recovery[k - |plan.steps|];
      }
    }
  }
}
