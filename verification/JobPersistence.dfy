/** Write-ahead: what the durable receipt says about a job (internal/jobcli/run.go:233-251) whenever
    its controller lets a role run (internal/ansible/job_runner.go:150-175, 352-371). */
module JobPersistence {
  import opened JobPlan
  import opened JobController
  import opened JobSafety
  import opened PlayCompiler
  import opened JobExecution
  import opened ActionReceipt

  // ---------------------------------------------------------------- the receipt of a trace of callbacks

  /** The durable receipt once these callbacks were made: an accepted one has been persisted, a
      rejected one only if its write landed all the same. */
  function Persisted(r: Receipt, calls: seq<Call>, landed: bool): Receipt
    decreases |calls|
  {
    if calls == [] then r
    else
      var before := Persisted(r, calls[..|calls| - 1], landed);
      var last := calls[|calls| - 1];
      if last.accepted || landed then AfterBoundary(before, last.boundary, last.step) else before
  }

  /** Whenever a reply lets the role of an execute stage run, whatever preceded it and whatever
      the receipt was, the durable receipt already says that this stage has started. */
  lemma RunImpliesStartedPersisted(job: Job, moves: seq<Move>, e: Event, w: World, r: Receipt, landed: bool)
    requires Buildable(job.plan)
    ensures
      var s := Run(job, START, moves);
      var a := Handle(job, s, e, w);
      ReplyTo(job, a.state, e, a.error).run ==>
        && a.state.next < |job.plan.steps| && job.plan.steps[a.state.next].id == e.stepId
        && (job.plan.steps[a.state.next].phase.Execute? ==>
              Look(Persisted(r, a.state.calls, landed).actions, e.stepId) == Some(Started))
  {
    hide Run, Handle, Inv, Buildable;
    RunRepliesFollowAcceptedBegin(job, moves, e, w);
    var a := Handle(job, Run(job, START, moves), e, w);
    if ReplyTo(job, a.state, e, a.error).run && job.plan.steps[a.state.next].phase.Execute? {
      BegunLast(r, a.state.calls, landed);
    }
  }

  lemma BegunLast(r: Receipt, calls: seq<Call>, landed: bool)
    requires calls != []
    requires
      var last := calls[|calls| - 1];
      last.boundary == BeginStage && last.accepted && last.step.phase.Execute?
    ensures Look(Persisted(r, calls, landed).actions, calls[|calls| - 1].step.id) == Some(Started)
  {
  }

  // ---------------------------------------------------------------- an entry is never lost

  lemma UpdatedKeepsKeys(r: Receipt, boundary: Boundary, step: JobStep)
    ensures r.actions.Keys <= Updated(r, boundary, step).Keys
    ensures step.phase.Execute? ==> step.id in Updated(r, boundary, step)
  {
    hide Parent, IsParent;
    var actions := MarkBoundary(r.actions, boundary, step);
    var parent := Parent(r.steps, r.original, step);
    if parent.Some? {
      VerifiedKeepsKeys(actions, r.original, parent.value, step);
    }
  }

  lemma VerifiedKeepsKeys(actions: Actions, original: Plan, parent: JobStep, step: JobStep)
    ensures actions.Keys <= MarkVerified(actions, original, parent, step).Keys
  {
  }

  /** Every execute stage whose begin was accepted has an entry from then on. */
  lemma {:induction false} BegunIsRecorded(r: Receipt, calls: seq<Call>, landed: bool, k: nat)
    requires k < |calls| && calls[k].accepted && calls[k].step.phase.Execute?
    ensures calls[k].step.id in Persisted(r, calls, landed).actions
    decreases |calls|
  {
    var less, last := calls[..|calls| - 1], calls[|calls| - 1];
    var before := Persisted(r, less, landed);
    UpdatedKeepsKeys(before, last.boundary, last.step);
    if k < |less| {
      BegunIsRecorded(r, less, landed, k);
    }
  }

  // ---------------------------------------------------------------- callbacks behind every role

  /** The begin callback of the last role that ran was accepted. */
  ghost predicate Begun(m: Machine)
  {
    m.roles != [] ==> 2 * |m.roles| - 2 < |m.controller.calls| && m.controller.calls[2 * |m.roles| - 2].accepted
  }

  lemma SendGrows(job: Job, c: State, e: Event, turn: Turn)
    requires Indexed(c)
    ensures c.calls <= Send(job, c, e, turn).state.calls
  {
    hide Handle, Indexed;
    var d := Run(job, c, turn.before);
    RunExtends(job, c, turn.before);
    ApplyExtends(job, d, Message(e, turn.world));
    hide Run;
    assert Apply(job, d, Message(e, turn.world)) == Send(job, c, e, turn).state;
  }

  lemma {:induction false} DeliverGrows(job: Job, c: State, step: JobStep, emitted: nat, reports: seq<TaskReport>)
    requires Indexed(c)
    ensures c.calls <= Deliver(job, c, step, emitted, reports).calls
    decreases |reports|
  {
    hide Send;
    if reports != [] {
      var e := ReportEvent(job, step, emitted + 1, reports[0]);
      SendGrows(job, c, e, reports[0].turn);
      DeliverGrows(job, Send(job, c, e, reports[0].turn).state, step, emitted + 1, reports[1..]);
    }
  }

  lemma RoleGrows(job: Job, m: Machine, step: JobStep, w: PlayWorld)
    requires Indexed(m.controller)
    ensures m.controller.calls <= ExecPlay(job, m, RolePlay(step), w).controller.calls
  {
    hide Send, Deliver, Indexed;
    var e := Envelope(job, Current, step.id);
    SendGrows(job, m.controller, e, w.gate);
    var a := Send(job, m.controller, e, w.gate).state;
    var p := Envelope(job, PlayStart, step.id).(sequence := m.emitted + 1);
    SendGrows(job, a, p, w.start);
    DeliverGrows(job, Send(job, a, p, w.start).state, step, m.emitted + 1, w.reports);
  }

  lemma GateGrows(job: Job, m: Machine, boundary: Boundary, id: string, w: PlayWorld)
    requires Indexed(m.controller)
    ensures
      var n := ExecPlay(job, m, GatePlay(boundary, id), w);
      m.controller.calls <= n.controller.calls && n.roles == m.roles
  {
    hide Send, Indexed;
    SendGrows(job, m.controller, Envelope(job, if boundary == BeginStage then Begin else End, id), w.gate);
  }

  /** Entering stage i for good leaves its accepted begin callback behind. */
  lemma EnteredIsBegun(job: Job, c: State)
    requires Inv(job, c) && c.failure.None? && c.active >= 0
    ensures 2 * c.next < |c.calls| && c.calls[2 * c.next].accepted
  {
    hide JobSafety.Verified, Numbered, Tallied;
    LastBeginAccepted(job, c);
  }

  lemma StageBegun(job: Job, m: Machine, i: nat, tape: seq<PlayWorld>)
    requires Buildable(job.plan) && i < |job.plan.steps| && Before(job, m, i) && |tape| == 3 && Begun(m)
    ensures Begun(ExecStage(job, m, job.plan.steps[i], tape))
  {
    hide ExecPlay, Inv, Buildable;
    var step := job.plan.steps[i];
    BeforeIsIndexed(job, m, i);
    hide Indexed;
    BeginGate(job, m, i, tape[0]);
    GateGrows(job, m, BeginStage, step.id, tape[0]);
    var m1 := ExecPlay(job, m, GatePlay(BeginStage, step.id), tape[0]);
    var m2 := ExecPlay(job, m1, RolePlay(step), tape[1]);
    if m1.status == Going {
      EnteredIsBegun(job, m1.controller);
      RoleBody(job, m1, i, tape[1]);
      RoleGrows(job, m1, step, tape[1]);
      GateGrows(job, m2, EndStage, step.id, tape[2]);
    } else {
      NotPlayed(job, m1, RolePlay(step), tape[1]);
      NotPlayed(job, m1, GatePlay(EndStage, step.id), tape[2]);
    }
  }

  lemma BeforeIsIndexed(job: Job, m: Machine, i: nat)
    requires Before(job, m, i)
    ensures Indexed(m.controller)
  {
    hide JobSafety.Verified, Numbered, Tallied, Trace;
  }

  // ---------------------------------------------------------------- the whole playbook

  lemma StageStaysBegun(job: Job, m: Machine, i: nat, tape: seq<PlayWorld>)
    requires Buildable(job.plan) && i < |Stages(job)| && |tape| == 3 && Indexed(m.controller)
    requires Before(job, m, i) || Halted(job, m)
    requires Begun(m)
    ensures Begun(ExecStage(job, m, Stages(job)[i], tape))
  {
    hide Inv, ExecPlay, Buildable;
    if m.status != Going {
      hide ExecStage;
      StoppedStays(job, m, Stages(job)[i], tape);
    } else if i < |job.plan.steps| {
      hide ExecStage;
      StageBegun(job, m, i, tape);
    } else {
      RecoveryStage(job, m, i, tape);
      RecoveryGrows(job, m, Stages(job)[i], tape);
    }
  }

  lemma RecoveryGrows(job: Job, m: Machine, step: JobStep, tape: seq<PlayWorld>)
    requires Indexed(m.controller) && |tape| == 3
    ensures m.controller.calls <= ExecStage(job, m, step, tape).controller.calls
  {
    hide ExecPlay, Indexed;
    var m1 := ExecPlay(job, m, GatePlay(BeginStage, step.id), tape[0]);
    GateGrows(job, m, BeginStage, step.id, tape[0]);
    RoleGrows(job, m1, step, tape[1]);
    GateGrows(job, ExecPlay(job, m1, RolePlay(step), tape[1]), EndStage, step.id, tape[2]);
  }

  lemma {:induction false} StagesAreBegun(job: Job, tape: seq<PlayWorld>, i: nat)
    requires Buildable(job.plan) && |tape| == 3 * |Stages(job)| + 2 && i <= |Stages(job)|
    ensures Begun(MachineAt(job, tape, i))
  {
    hide Before, Halted, ExecStage, MachineAt, StageTape, Begun;
    if i == 0 {
      NothingRunYet(job, tape);
    } else {
      StagesAreBegun(job, tape, i - 1);
      StagesAreSafe(job, tape, i - 1);
      NextStage(job, tape, i - 1);
      StageStaysBegun(job, MachineAt(job, tape, i - 1), i - 1, StageTape(tape, i - 1));
    }
  }

  lemma NothingRunYet(job: Job, tape: seq<PlayWorld>)
    requires Buildable(job.plan) && |tape| == 3 * |Stages(job)| + 2
    ensures Begun(MachineAt(job, tape, 0))
  {
    hide Send, Run, Handle;
    assert Stages(job)[..0] == [] && Upto(job, 0) == [InitializePlay];
    assert tape[..1][..0] == [] && [InitializePlay][..0] == [];
    assert Exec(job, BOOT, [], []) == BOOT;
    assert MachineAt(job, tape, 0) == ExecPlay(job, BOOT, InitializePlay, tape[0]);
  }

  lemma FinishGrows(job: Job, m: Machine, w: PlayWorld)
    requires Indexed(m.controller) && Begun(m)
    ensures Begun(ExecPlay(job, m, FinishPlay, w))
  {
    hide Send, Indexed;
    SendGrows(job, m.controller, Envelope(job, Finish, ""), w.gate);
  }

  lemma PerformedIsBegun(job: Job, tape: seq<PlayWorld>)
    requires Buildable(job.plan) && |tape| == 3 * |Stages(job)| + 2
    ensures Begun(Perform(job, tape)) && Ended(job, Perform(job, tape))
  {
    hide MachineAt, ExecPlay, Perform, Exec, Begun;
    StagesAreBegun(job, tape, |Stages(job)|);
    StagesAreSafe(job, tape, |Stages(job)|);
    FinishStage(job, MachineAt(job, tape, |Stages(job)|), tape[|tape| - 1]);
    FinishGrows(job, MachineAt(job, tape, |Stages(job)|), tape[|tape| - 1]);
    PerformEnds(job, tape);
  }

  /** Behind every role that ran there is an accepted begin callback of its step. */
  lemma RoleHasCallback(job: Job, m: Machine, i: nat)
    requires Ended(job, m) && Begun(m) && i < |m.roles|
    ensures
      && 2 * i < |m.controller.calls| && m.controller.calls[2 * i] == Call(BeginStage, m.roles[i], true)
  {
    hide JobSafety.Verified, Numbered, Tallied;
    var calls := m.controller.calls;
    assert 2 * i < |calls|;
    assert calls[2 * i].boundary == BeginStage && calls[2 * i].step == m.roles[i];
  }

  /** After a job, whatever the outside world did, every execute stage whose role ran has an entry
      in the durable receipt. */
  lemma EveryRoleIsRecorded(job: Job, tape: seq<PlayWorld>, r: Receipt, landed: bool)
    requires Buildable(job.plan) && |tape| == 3 * |Stages(job)| + 2
    ensures
      var m := Perform(job, tape);
      var actions := Persisted(r, m.controller.calls, landed).actions;
      forall i | 0 <= i < |m.roles| && m.roles[i].phase.Execute? :: m.roles[i].id in actions
  {
    PerformedIsBegun(job, tape);
    var m := Perform(job, tape);
    hide Perform, Ended, Begun, Persisted, Buildable;
    forall i | 0 <= i < |m.roles| && m.roles[i].phase.Execute?
      ensures m.roles[i].id in Persisted(r, m.controller.calls, landed).actions
    {
      RoleHasCallback(job, m, i);
      BegunIsRecorded(r, m.controller.calls, landed, 2 * i);
    }
  }

  // ---------------------------------------------------------------- what a rollback is then offered

  /** A plan that takes nothing back: no step recovers another, undoes or uninstalls. */
  predicate Forward(plan: Plan)
  {
    && (forall i | 0 <= i < |plan.steps| ::
          && plan.steps[i].recoveryOfStepId == ""
          && !(plan.steps[i].phase.Execute? && (plan.steps[i].action.Rollback? || plan.steps[i].action.Uninstall?)))
    && (forall k | 0 <= k < |plan.recovery| :: plan.recovery[k].recoveryOfStepId != "")
  }

  /** The receipt a run starts from. */
  function Unstarted(plan: Plan): Receipt
  {
    Receipt(RunOperation, plan, plan.steps, [], map[], 0)
  }

  lemma ForwardParent(r: Receipt, plan: Plan, step: JobStep)
    requires Forward(plan) && r.original == plan && r.steps == plan.steps && step in plan.steps
    ensures
      var p := Parent(r.steps, r.original, step);
      p.Some? ==> !p.value.action.Rollback? && !p.value.action.Uninstall?
  {
  }

  lemma {:induction false} NothingTakenBack(plan: Plan, calls: seq<Call>, landed: bool, id: string)
    requires Forward(plan) && forall k | 0 <= k < |calls| :: calls[k].step in plan.steps
    ensures
      var r := Persisted(Unstarted(plan), calls, landed);
      r.original == plan && r.steps == plan.steps && Look(r.actions, id) != Some(RolledBack)
    decreases |calls|
  {
    if calls != [] {
      var less, last := calls[..|calls| - 1], calls[|calls| - 1];
      NothingTakenBack(plan, less, landed, id);
      var before := Persisted(Unstarted(plan), less, landed);
      ForwardParent(before, plan, last.step);
      hide Parent, Forward, Persisted;
      assert Look(Updated(before, last.boundary, last.step), id) != Some(RolledBack);
    }
  }

  /** After any run of a forward plan, the recovery of every execute stage whose role ran is
      offered to a rollback. */
  lemma EveryRoleCanBeRolledBack(job: Job, tape: seq<PlayWorld>, landed: bool, i: nat, k: nat)
    requires Buildable(job.plan) && Forward(job.plan) && |tape| == 3 * |Stages(job)| + 2
    requires i < |Perform(job, tape).roles| && k < |job.plan.recovery|
    requires
      var step := Perform(job, tape).roles[i];
      step.phase.Execute? && job.plan.recovery[k].recoveryOfStepId == step.id
    ensures
      var r := Persisted(Unstarted(job.plan), Perform(job, tape).controller.calls, landed);
      job.plan.recovery[k] in Touched(job.plan.recovery, r.actions)
  {
    EveryRoleIsRecorded(job, tape, Unstarted(job.plan), landed);
    PerformedIsBegun(job, tape);
    var m := Perform(job, tape);
    hide Perform, Persisted, Buildable, Forward, Begun;
    CallsAreOfThePlan(job, m);
    NothingTakenBack(job.plan, m.controller.calls, landed, m.roles[i].id);
    TouchedIff(job.plan.recovery, Persisted(Unstarted(job.plan), m.controller.calls, landed).actions,
      job.plan.recovery[k]);
  }

  lemma CallsAreOfThePlan(job: Job, m: Machine)
    requires Ended(job, m)
    ensures forall k | 0 <= k < |m.controller.calls| :: m.controller.calls[k].step in job.plan.steps
  {
    hide JobSafety.Verified, Numbered, Tallied;
  }
}
