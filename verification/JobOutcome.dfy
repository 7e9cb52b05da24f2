/** Exactly which roles a compiled job runs and exactly when RunBundle reports success
    (internal/ansible/job_runner.go:389-458), read off the outside world alone. */
module JobOutcome {
  import opened JobPlan
  import opened JobController
  import JobSafety
  import opened PlayCompiler
  import opened JobExecution
  import opened JobCompletion

  // ---------------------------------------------------------------- which roles run

  /** The begin of a stage is acknowledged in time and its role is let run. */
  predicate Reached(step: JobStep, a: Alarm, tape: seq<PlayWorld>)
    requires |tape| == 3
  {
    var begin := tape[0].gate.world;
    var b := After(a, 0, tape[0].gate.before);
    && begin.bundleValid && begin.boundaryAccepts && !begin.interrupted && !b.cancelled
    && !After(b, Deadline(step, tape[0]), tape[1].gate.before).failed
  }

  lemma BodyRuns(job: Job, m: Machine, i: nat, b: Alarm, deadline: int, w: PlayWorld)
    requires Begun(job, m, i, b, deadline)
    ensures
      var n := ExecPlay(job, m, RolePlay(job.plan.steps[i]), w);
      n.roles == if After(b, deadline, w.gate.before).failed then m.roles else m.roles + [job.plan.steps[i]]
  {
    hide Send, JobSafety.Inv, After, Deliver;
    CurrentExactly(job, m.controller, job.plan.steps[i], w.gate);
  }

  lemma GateRunsNothing(job: Job, m: Machine, boundary: Boundary, id: string, w: PlayWorld)
    requires Indexed(m.controller)
    ensures ExecPlay(job, m, GatePlay(boundary, id), w).roles == m.roles
  {
    hide Send, Indexed;
  }

  /** A clean stage runs its role exactly when it is reached. */
  lemma StageRuns(job: Job, m: Machine, i: nat, a: Alarm, tape: seq<PlayWorld>)
    requires Buildable(job.plan) && i < |job.plan.steps| && Clean(job, m, i, a) && |tape| == 3 && Indexed(m.controller)
    ensures
      var step := job.plan.steps[i];
      ExecStage(job, m, step, tape).roles == if Reached(step, a, tape) then m.roles + [step] else m.roles
  {
    var step := job.plan.steps[i];
    hide JobSafety.Inv, ExecPlay, After, Buildable, Clean, Begun;
    BeginExactly(job, m, i, a, tape[0]);
    var b := After(a, 0, tape[0].gate.before);
    FailedStays(b, Deadline(step, tape[0]), tape[1].gate.before);
    var m1 := ExecPlay(job, m, GatePlay(BeginStage, step.id), tape[0]);
    var m2 := ExecPlay(job, m1, RolePlay(step), tape[1]);
    GateRunsNothing(job, m, BeginStage, step.id, tape[0]);
    GateRunsNothing(job, m2, EndStage, step.id, tape[2]);
    if m1.status == Going {
      BodyRuns(job, m1, i, b, Deadline(step, tape[0]), tape[1]);
    } else {
      StoppedPlay(job, m1, RolePlay(step), tape[1]);
    }
  }

  /** Of the first steps, exactly those ran whose predecessors are smooth and that were reached. */
  ghost predicate RolesAt(job: Job, tape: seq<PlayWorld>, m: Machine, upto: nat)
    requires |tape| == 3 * |Stages(job)| + 2 && upto <= |job.plan.steps|
  {
    && |m.roles| <= upto
    && forall k | 0 <= k < upto ::
      k < |m.roles| <==>
        SmoothUpto(job, tape, k) && Reached(job.plan.steps[k], AlarmAt(job, tape, k), StageTape(tape, k))
  }

  lemma CleanRoles(job: Job, m: Machine, i: nat, a: Alarm)
    requires Clean(job, m, i, a)
    ensures m.status == Going && |m.roles| == Position(job, i)
  {
    hide JobSafety.Inv;
  }

  lemma {:induction false} RolesUpto(job: Job, tape: seq<PlayWorld>, i: nat)
    requires Buildable(job.plan) && |tape| == 3 * |Stages(job)| + 2 && i <= |Stages(job)|
    ensures RolesAt(job, tape, MachineAt(job, tape, i), Position(job, i))
  {
    hide ExecStage, JobSafety.Inv, MachineAt, StageTape, Clean, Buildable, SmoothUpto, AlarmAt, Reached, GoodStage,
      CalmStage;
    if i == 0 {
      NoRoleYet(job, tape);
    } else {
      RolesUpto(job, tape, i - 1);
      ExactUpto(job, tape, i - 1);
      NextStage(job, tape, i - 1);
      var m, t, a := MachineAt(job, tape, i - 1), StageTape(tape, i - 1), AlarmAt(job, tape, i - 1);
      if m.status == Stopped {
        StoppedStays(job, m, Stages(job)[i - 1], t);
        StoppedIsNotClean(job, m, i - 1, a);
      } else if i - 1 < |job.plan.steps| {
        assert Stages(job)[i - 1] == job.plan.steps[i - 1];
        StageRuns(job, m, i - 1, a, t);
        CleanRoles(job, m, i - 1, a);
      } else {
        CleanIsBefore(job, m, i - 1, a);
        RecoveryStage(job, m, i - 1, t);
      }
    }
  }

  lemma CleanIsBefore(job: Job, m: Machine, i: nat, a: Alarm)
    requires Clean(job, m, i, a)
    ensures Before(job, m, i)
  {
  }

  lemma NoRoleYet(job: Job, tape: seq<PlayWorld>)
    requires |tape| == 3 * |Stages(job)| + 2
    ensures MachineAt(job, tape, 0).roles == []
  {
    hide Send, Run, Handle;
    assert Stages(job)[..0] == [] && JobExecution.Upto(job, 0) == [InitializePlay];
    assert tape[..1][..0] == [] && [InitializePlay][..0] == [];
    assert Exec(job, BOOT, [], []) == BOOT;
    assert MachineAt(job, tape, 0) == ExecPlay(job, BOOT, InitializePlay, tape[0]);
  }

  /** For every outside world: the role of step k runs exactly when every stage before it is good and
      calm, its begin is acknowledged, nothing cancelled the job by then, and the watchdog has not
      failed it when the role asks for leave. */
  lemma RolesExactly(job: Job, tape: seq<PlayWorld>, k: nat)
    requires Buildable(job.plan) && |tape| == 3 * |Stages(job)| + 2 && k < |job.plan.steps|
    ensures
      job.plan.steps[k] in Perform(job, tape).roles <==>
        SmoothUpto(job, tape, k) && Reached(job.plan.steps[k], AlarmAt(job, tape, k), StageTape(tape, k))
    ensures
      k < |Perform(job, tape).roles| <==>
        SmoothUpto(job, tape, k) && Reached(job.plan.steps[k], AlarmAt(job, tape, k), StageTape(tape, k))
  {
    var n := |Stages(job)|;
    hide MachineAt, ExecPlay, Perform, Exec, SmoothUpto, AlarmAt, Reached, StageTape;
    RolesUpto(job, tape, n);
    PerformEnds(job, tape);
    FinishRunsNothing(job, MachineAt(job, tape, n), tape[|tape| - 1]);
    CompiledJobIsSafe(job, tape);
    InInitialPart(job.plan.steps, Perform(job, tape).roles, k);
  }

  lemma InInitialPart(steps: seq<JobStep>, roles: seq<JobStep>, k: nat)
    requires UniqueIds(steps) && |roles| <= |steps| && roles == steps[..|roles|] && k < |steps|
    ensures steps[k] in roles <==> k < |roles|
  {
    if k < |roles| {
      assert roles[k] == steps[k];
    }
    forall j | 0 <= j < |roles|
      ensures roles[j] == steps[k] ==> j == k
    {
      assert roles[j] == steps[j];
      if j < k { } else if k < j { }
    }
  }

  lemma FinishRunsNothing(job: Job, m: Machine, w: PlayWorld)
    requires Indexed(m.controller)
    ensures ExecPlay(job, m, FinishPlay, w).roles == m.roles
  {
    hide Send, Indexed;
  }

  // ---------------------------------------------------------------- what RunBundle reports

  /** A stopped playbook has failed or has steps left. */
  ghost predicate Unfinished(job: Job, m: Machine)
  {
    m.status == Stopped ==> m.controller.failure.Some? || m.controller.next < |job.plan.steps|
  }

  lemma BeginKeepsNext(job: Job, m: Machine, i: nat, w: PlayWorld)
    requires Buildable(job.plan) && i < |job.plan.steps| && Before(job, m, i) && Indexed(m.controller)
    ensures ExecPlay(job, m, GatePlay(BeginStage, job.plan.steps[i].id), w).controller.next == i
  {
    hide Handle, JobSafety.Inv, Run, Buildable, Indexed;
    DisturbedKeeps(job, m.controller, w.gate.before);
    BeginAnswer(job, Run(job, m.controller, w.gate.before), w.gate.world);
  }

  lemma EndStops(job: Job, m: Machine, i: nat, w: PlayWorld)
    requires Buildable(job.plan) && i < |job.plan.steps| && m.status == Going && Indexed(m.controller)
    requires JobSafety.Inv(job, m.controller) && m.controller.active == m.controller.next == i
    ensures Unfinished(job, ExecPlay(job, m, GatePlay(EndStage, job.plan.steps[i].id), w))
  {
    hide Handle, JobSafety.Inv, Run, Buildable, Indexed;
    DisturbedKeeps(job, m.controller, w.gate.before);
    EndAnswer(job, Run(job, m.controller, w.gate.before), w.gate.world);
  }

  lemma StageStops(job: Job, m: Machine, i: nat, tape: seq<PlayWorld>)
    requires Buildable(job.plan) && i < |job.plan.steps| && Before(job, m, i) && |tape| == 3 && Indexed(m.controller)
    ensures Unfinished(job, ExecStage(job, m, job.plan.steps[i], tape))
  {
    hide ExecPlay, JobSafety.Inv, Buildable, Indexed;
    var step := job.plan.steps[i];
    BeginGate(job, m, i, tape[0]);
    BeginKeepsNext(job, m, i, tape[0]);
    var m1 := ExecPlay(job, m, GatePlay(BeginStage, step.id), tape[0]);
    var m2 := ExecPlay(job, m1, RolePlay(step), tape[1]);
    if m1.status == Going {
      RoleBody(job, m1, i, tape[1]);
      if m2.status == Going {
        EndStops(job, m2, i, tape[2]);
      } else {
        StoppedPlay(job, m2, GatePlay(EndStage, step.id), tape[2]);
      }
    } else {
      StoppedPlay(job, m1, RolePlay(step), tape[1]);
      StoppedPlay(job, m1, GatePlay(EndStage, step.id), tape[2]);
    }
  }

  lemma RecoveryGateStops(job: Job, m: Machine, i: nat, boundary: Boundary, w: PlayWorld)
    requires Buildable(job.plan) && |job.plan.steps| <= i < |Stages(job)| && Before(job, m, i) && Indexed(m.controller)
    ensures Unfinished(job, ExecPlay(job, m, GatePlay(boundary, Stages(job)[i].id), w))
  {
    hide Handle, JobSafety.Inv, Run, Buildable, Indexed;
    DisturbedKeeps(job, m.controller, w.gate.before);
    assert Stages(job)[i] == job.plan.recovery[i - |job.plan.steps|];
    RecoveryAnswer(job, Run(job, m.controller, w.gate.before), if boundary == BeginStage then Begin else End,
      Stages(job)[i].id, w.gate.world);
  }

  lemma RecoveryBodyStops(job: Job, m: Machine, i: nat, w: PlayWorld)
    requires Buildable(job.plan) && |job.plan.steps| <= i < |Stages(job)| && Before(job, m, i) && !m.gateRun
    requires Indexed(m.controller)
    ensures Unfinished(job, ExecPlay(job, m, RolePlay(Stages(job)[i]), w))
  {
    hide Handle, JobSafety.Inv, Run, Buildable;
    CurrentHandled(job, Run(job, m.controller, w.gate.before), Envelope(job, Current, Stages(job)[i].id), w.gate.world);
  }

  lemma RecoveryStops(job: Job, m: Machine, i: nat, tape: seq<PlayWorld>)
    requires Buildable(job.plan) && |job.plan.steps| <= i < |Stages(job)| && Before(job, m, i) && |tape| == 3
    requires Indexed(m.controller)
    ensures Unfinished(job, ExecStage(job, m, Stages(job)[i], tape))
  {
    hide ExecPlay, JobSafety.Inv, Buildable, Indexed, Unfinished;
    var step := Stages(job)[i];
    RecoveryGate(job, m, i, BeginStage, tape[0]);
    RecoveryGateStops(job, m, i, BeginStage, tape[0]);
    var m1 := ExecPlay(job, m, GatePlay(BeginStage, step.id), tape[0]);
    var m2 := ExecPlay(job, m1, RolePlay(step), tape[1]);
    if m1.status == Going {
      RecoveryBody(job, m1, i, tape[1]);
      RecoveryBodyStops(job, m1, i, tape[1]);
      if m2.status == Going {
        RecoveryGateStops(job, m2, i, EndStage, tape[2]);
      } else {
        StoppedPlay(job, m2, GatePlay(EndStage, step.id), tape[2]);
      }
    } else {
      StoppedPlay(job, m1, RolePlay(step), tape[1]);
      StoppedPlay(job, m1, GatePlay(EndStage, step.id), tape[2]);
    }
  }

  lemma InitializeStops(job: Job, tape: seq<PlayWorld>)
    requires Buildable(job.plan) && |tape| == 3 * |Stages(job)| + 2
    ensures Unfinished(job, MachineAt(job, tape, 0))
  {
    assert Stages(job)[..0] == [] && JobExecution.Upto(job, 0) == [InitializePlay];
    assert tape[..1][..0] == [] && [InitializePlay][..0] == [];
    assert Exec(job, BOOT, [], []) == BOOT;
    assert MachineAt(job, tape, 0) == ExecPlay(job, BOOT, InitializePlay, tape[0]);
    JobSafety.StartInv(job);
    SendKeeps(job, START, Envelope(job, Initialize, ""), tape[0].gate);
    hide Send, Run, Handle, MachineAt, JobSafety.Inv;
  }

  lemma {:induction false} StopsUnfinished(job: Job, tape: seq<PlayWorld>, i: nat)
    requires Buildable(job.plan) && |tape| == 3 * |Stages(job)| + 2 && i <= |Stages(job)|
    ensures Unfinished(job, MachineAt(job, tape, i))
  {
    hide JobSafety.Inv, ExecStage, MachineAt, StageTape, Unfinished, Buildable;
    if i == 0 {
      InitializeStops(job, tape);
    } else {
      StopsUnfinished(job, tape, i - 1);
      StagesAreSafe(job, tape, i - 1);
      NextStage(job, tape, i - 1);
      var m, t := MachineAt(job, tape, i - 1), StageTape(tape, i - 1);
      if m.status == Stopped {
        StoppedStays(job, m, Stages(job)[i - 1], t);
      } else if i - 1 < |job.plan.steps| {
        assert Stages(job)[i - 1] == job.plan.steps[i - 1];
        StageStops(job, m, i - 1, t);
      } else {
        RecoveryStops(job, m, i - 1, t);
      }
    }
  }

  lemma FinishStops(job: Job, m: Machine, w: PlayWorld)
    requires Indexed(m.controller) && Unfinished(job, m)
    ensures Unfinished(job, ExecPlay(job, m, FinishPlay, w))
  {
    hide Run;
  }

  /** The final play: answered with the alarm its disturbances raise, or refused. */
  lemma FinishExactly(job: Job, m: Machine, a: Alarm, w: PlayWorld)
    requires Buildable(job.plan) && Indexed(m.controller) && Clean(job, m, |Stages(job)|, a)
    ensures
      var n := ExecPlay(job, m, FinishPlay, w);
      var b := After(a, 0, w.gate.before);
      if b.failed then n.status == Stopped
      else
        && n.status == Completed && AlarmOf(n.controller) == b && n.controller.next == |job.plan.steps|
        && n.controller.deadline <= 0
  {
    var c := m.controller;
    IdleDeadline(job, c);
    hide Handle, JobSafety.Inv, Run, After, Buildable;
    Disturbed(job, c, w.gate.before);
    NoDeadline(a, c.deadline, w.gate.before);
    FinishPlaced(job, Run(job, c, w.gate.before), w.gate.world, c);
  }

  lemma FinishPlaced(job: Job, d: State, w: World, c: State)
    requires Indexed(c) && JobSafety.Inv(job, c) && c.next == |job.plan.steps| && OnlyAlarmed(c, d)
    ensures
      var r := Handle(job, d, Envelope(job, Finish, ""), w);
      r.error.None? <==> d.failure.None?
    ensures Handle(job, d, Envelope(job, Finish, ""), w).error.None? ==>
      Handle(job, d, Envelope(job, Finish, ""), w).state == d
  {
    PlaceInPlan(job, c);
    hide JobSafety.Inv;
  }

  /** For every outside world, also while RunBundle waits for the watchdog after the last answer: the
      job is reported successful exactly when the playbook had no error of its own, every stage is
      good and calm, and the watchdog has acted on no missed deadline until the end. */
  lemma SuccessExactly(job: Job, tape: seq<PlayWorld>, after: seq<Disturbance>, phaseError: Option<Refusal>,
      parentCancelled: bool)
    requires Buildable(job.plan) && |tape| == 3 * |Stages(job)| + 2
    ensures
      var n := |Stages(job)|;
      var end := After(After(AlarmAt(job, tape, n), 0, tape[|tape| - 1].gate.before), 0, after);
      Close(job, Run(job, Perform(job, tape).controller, after), phaseError, parentCancelled).successful <==>
        phaseError.None? && SmoothUpto(job, tape, n) && !end.failed
  {
    var n, w := |Stages(job)|, tape[|tape| - 1];
    var m := MachineAt(job, tape, n);
    hide MachineAt, Exec, ExecPlay, Perform, JobSafety.Inv, AlarmAt, SmoothUpto, After, Run, Buildable, Clean;
    ExactUpto(job, tape, n);
    PerformEnds(job, tape);
    var c := Perform(job, tape).controller;
    Disturbed(job, c, after);
    FailedStays(After(AlarmAt(job, tape, n), 0, w.gate.before), 0, after);
    if SmoothUpto(job, tape, n) {
      FinishExactly(job, m, AlarmAt(job, tape, n), w);
      if !After(AlarmAt(job, tape, n), 0, w.gate.before).failed {
        NoDeadline(AlarmOf(c), c.deadline, after);
      }
    } else {
      StoppedPlay(job, m, FinishPlay, w);
    }
    StopsUnfinished(job, tape, n);
    FinishStops(job, m, w);
  }
}
