/** A run and the rollbacks after it, from one end to the other: the receipt a compiled job leaves
    (internal/jobcli/run.go:233-264) is the one rollback histories start from (internal/jobcli/run.go:97-131). */
module JobRecovery {
  import opened JobPlan
  import opened JobController
  import opened PlayCompiler
  import opened JobExecution
  import opened ActionReceipt
  import opened JobPersistence
  import opened RollbackSessions
  import opened RollbackOrder
  import opened RollbackSafety
  import opened RollbackBaselines

  /** What the run of a compiled job leaves behind for rollbacks. */
  function RunBase(job: Job, tape: seq<PlayWorld>, landed: bool, metadata: seq<JobStep>): Base
    requires |tape| == 3 * |Stages(job)| + 2
  {
    Base(Persisted(Unstarted(job.plan), Perform(job, tape).controller.calls, landed), metadata)
  }

  lemma {:induction false} PersistedStays(r: Receipt, calls: seq<Call>, landed: bool)
    ensures
      var p := Persisted(r, calls, landed);
      p.original == r.original && p.operation == r.operation && p.steps == r.steps
    decreases |calls|
  {
    if calls != [] {
      hide Updated, Acknowledged;
      PersistedStays(r, calls[..|calls| - 1], landed);
    }
  }

  lemma RunBaseIsValid(job: Job, tape: seq<PlayWorld>, landed: bool, metadata: seq<JobStep>)
    requires |tape| == 3 * |Stages(job)| + 2 && RecoveryPlan(job.plan)
    ensures ValidBase(RunBase(job, tape, landed, metadata))
    ensures RunBase(job, tape, landed, metadata).receipt.original == job.plan
  {
    hide Perform, RecoveryPlan;
    PersistedStays(Unstarted(job.plan), Perform(job, tape).controller.calls, landed);
  }

  /** What is offered at the start and no longer at the end has become rolled back. */
  lemma NoLongerOffered(base: Base, actions: Actions, verified: set<nat>, x: JobStep)
    requires ValidBase(base) && Marked(base, actions, verified)
    requires x in base.receipt.original.recovery
    requires x in Touched(base.receipt.original.recovery, base.receipt.actions)
    requires x !in Touched(base.receipt.original.recovery, actions)
    ensures Look(actions, x.recoveryOfStepId) == Some(RolledBack)
  {
    var recovery := base.receipt.original.recovery;
    TouchedIff(recovery, base.receipt.actions, x);
    TouchedIff(recovery, actions, x);
    hide Touched, Cleared, Closed, Order, ValidBase;
    var k :| 0 <= k < |recovery| && recovery[k] == x;
    assert Look(actions, recovery[k].recoveryOfStepId) ==
      if recovery[k].recoveryOfStepId in Cleared(base, verified) then Some(RolledBack)
      else Look(base.receipt.actions, recovery[k].recoveryOfStepId);
  }

  /** However a run of a forward plan went, and whatever happened while it was rolled back: an execute
      stage whose role ran and that has a recovery is offered until it is rolled back. */
  lemma OfferedUntilRolledBack(job: Job, tape: seq<PlayWorld>, landed: bool, metadata: seq<JobStep>,
      events: seq<Happening>, i: nat, k: nat)
    requires Buildable(job.plan) && Forward(job.plan) && RecoveryPlan(job.plan) && |tape| == 3 * |Stages(job)| + 2
    requires i < |Perform(job, tape).roles| && k < |job.plan.recovery|
    requires
      var step := Perform(job, tape).roles[i];
      step.phase.Execute? && job.plan.recovery[k].recoveryOfStepId == step.id
    ensures
      var base := RunBase(job, tape, landed, metadata);
      var r := History(metadata, Store(base.receipt, None), events).durable;
      job.plan.recovery[k] in Touched(job.plan.recovery, r.actions) <==>
        Look(r.actions, Perform(job, tape).roles[i].id) != Some(RolledBack)
  {
    var base := RunBase(job, tape, landed, metadata);
    EveryRoleCanBeRolledBack(job, tape, landed, i, k);
    hide Perform, Buildable, Forward, RecoveryPlan, Touched, Marked, History, Persisted;
    RunBaseIsValid(job, tape, landed, metadata);
    HistoryKeeps(base, events);
    var r := History(metadata, Store(base.receipt, None), events).durable;
    var verified := DurableMark(base, r);
    TouchedIff(job.plan.recovery, r.actions, job.plan.recovery[k]);
    if job.plan.recovery[k] !in Touched(job.plan.recovery, r.actions) {
      NoLongerOffered(base, r.actions, verified, job.plan.recovery[k]);
    }
  }

  /** After a run and any history of rollbacks that comes to rest with nothing offered, where baselines
      are shared only within instances: every group of the recovery order was verified, and every
      execute stage whose role ran and that has a recovery is rolled back. */
  lemma FullRollbackUndoesTheRun(job: Job, tape: seq<PlayWorld>, landed: bool, metadata: seq<JobStep>,
      events: seq<Happening>)
    requires Buildable(job.plan) && Forward(job.plan) && RecoveryPlan(job.plan) && |tape| == 3 * |Stages(job)| + 2
    requires SharedWithinInstances(RunBase(job, tape, landed, metadata))
    requires
      var t := History(metadata, Store(RunBase(job, tape, landed, metadata).receipt, None), events);
      Resting(t) && Touched(job.plan.recovery, t.durable.actions) == []
    ensures
      var base := RunBase(job, tape, landed, metadata);
      var r := History(metadata, Store(base.receipt, None), events).durable;
      && RolledBackUpto(base, r.actions, |Order(base)| / 2)
      && forall i | 0 <= i < |Perform(job, tape).roles| && Recoverable(job.plan, Perform(job, tape).roles[i]) ::
        Look(r.actions, Perform(job, tape).roles[i].id) == Some(RolledBack)
  {
    var base := RunBase(job, tape, landed, metadata);
    hide Perform, Buildable, Forward, RecoveryPlan, Touched, History, Persisted, Resting, RolledBackUpto,
      SharedWithinInstances, Order, ValidBase, RunBase;
    RunBaseIsValid(job, tape, landed, metadata);
    var r := History(metadata, Store(base.receipt, None), events).durable;
    EverythingRolledBack(base, metadata, events);
    forall i | 0 <= i < |Perform(job, tape).roles| && Recoverable(job.plan, Perform(job, tape).roles[i])
      ensures Look(r.actions, Perform(job, tape).roles[i].id) == Some(RolledBack)
    {
      var k :| 0 <= k < |job.plan.recovery| && job.plan.recovery[k].recoveryOfStepId == Perform(job, tape).roles[i].id;
      OfferedUntilRolledBack(job, tape, landed, metadata, events, i, k);
    }
  }

  /** An execute stage with a recovery of its own. */
  predicate Recoverable(plan: Plan, step: JobStep)
  {
    step.phase.Execute? && exists k | 0 <= k < |plan.recovery| :: plan.recovery[k].recoveryOfStepId == step.id
  }

  lemma EverythingRolledBack(base: Base, metadata: seq<JobStep>, events: seq<Happening>)
    requires ValidBase(base) && SharedWithinInstances(base) && base.metadata == metadata
    requires
      var t := History(metadata, Store(base.receipt, None), events);
      Resting(t) && Touched(base.receipt.original.recovery, t.durable.actions) == []
    ensures
      RolledBackUpto(base, History(metadata, Store(base.receipt, None), events).durable.actions, |Order(base)| / 2)
  {
    hide ValidBase, Order, Touched, Resting, SharedWithinInstances, History, RolledBackUpto;
    var groups := RestingGroupsFormAPrefix(base, events);
    NoGroupLeft(base, History(metadata, Store(base.receipt, None), events).durable.actions, groups);
  }

  lemma NoGroupLeft(base: Base, actions: Actions, groups: nat)
    requires RolledBackUpto(base, actions, groups) && 2 * groups <= |Order(base)| && Order(base)[2 * groups..] == []
    ensures RolledBackUpto(base, actions, |Order(base)| / 2)
  {
    hide Order, Look;
    assert |Order(base)[2 * groups..]| == |Order(base)| - 2 * groups;
  }
}
