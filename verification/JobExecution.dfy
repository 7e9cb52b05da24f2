/** Compiler correctness: what playing the compiled plays does, for every outside world. */
module JobExecution {
  import opened JobPlan
  import opened JobController
  import opened JobSafety
  import opened PlayCompiler

  // ---------------------------------------------------------------- messages that do not move the stage

  ghost predicate SamePlace(c: State, d: State)
  {
    d.next == c.next && d.active == c.active
  }

  lemma ObservationKeepsPlace(c: State, e: Event, w: World)
    requires Indexed(c)
    ensures SamePlace(c, HandleObservation(c, e, w).state)
  {
    hide Noted;
  }

  lemma HandleKeepsPlace(job: Job, c: State, e: Event, w: World)
    requires Indexed(c) && !e.kind.Begin? && !e.kind.End?
    ensures SamePlace(c, Handle(job, c, e, w).state)
  {
    hide HandleObservation;
    ObservationKeepsPlace(c, e, w);
  }

  lemma DisturbanceKeepsPlace(job: Job, c: State, m: Disturbance)
    requires Indexed(c)
    ensures SamePlace(c, Apply(job, c, m))
  {
    hide Handle;
  }

  lemma {:induction false} DisturbedKeeps(job: Job, c: State, before: seq<Disturbance>)
    requires Buildable(job.plan) && Inv(job, c) && Indexed(c)
    ensures var d := Run(job, c, before); Inv(job, d) && SamePlace(c, d)
    decreases |before|
  {
    hide Inv, Apply, Buildable;
    if before != [] {
      var d := Apply(job, c, before[0]);
      DisturbanceKeepsPlace(job, c, before[0]);
      ApplyKeeps(job, c, before[0]);
      DisturbedKeeps(job, d, before[1..]);
    }
  }

  lemma SendKeeps(job: Job, c: State, e: Event, turn: Turn)
    requires Buildable(job.plan) && Inv(job, c) && Indexed(c)
    ensures var d := Send(job, c, e, turn).state; Inv(job, d) && (!e.kind.Begin? && !e.kind.End? ==> SamePlace(c, d))
  {
    DisturbedKeeps(job, c, turn.before);
    var d := Run(job, c, turn.before);
    HandleKeeps(job, d, e, turn.world);
    if !e.kind.Begin? && !e.kind.End? {
      HandleKeepsPlace(job, d, e, turn.world);
    }
  }

  lemma {:induction false} DeliverKeeps(job: Job, c: State, step: JobStep, emitted: nat, reports: seq<TaskReport>)
    requires Buildable(job.plan) && Inv(job, c) && Indexed(c)
    ensures var d := Deliver(job, c, step, emitted, reports); Inv(job, d) && SamePlace(c, d)
    decreases |reports|
  {
    if reports != [] {
      var e := ReportEvent(job, step, emitted + 1, reports[0]);
      SendKeeps(job, c, e, reports[0].turn);
      DeliverKeeps(job, Send(job, c, e, reports[0].turn).state, step, emitted + 1, reports[1..]);
    }
  }

  // ---------------------------------------------------------------- what the gates answer

  lemma BeginAnswer(job: Job, c: State, w: World)
    requires Buildable(job.plan) && Inv(job, c) && c.active == -1 && c.next < |job.plan.steps|
    ensures
      var step := job.plan.steps[c.next];
      var e := Envelope(job, Begin, step.id);
      var a := Handle(job, c, e, w);
      && (a.error.None? <==> c.failure.None? && w.bundleValid && w.boundaryAccepts && !c.cancelled && !w.interrupted)
      && a.state.next == c.next
      && (a.error.None? ==>
        && a.state.failure.None? && a.state.active == c.next && a.state.cancelled == c.cancelled
        && !a.state.playSeen && a.state.ownerObserved == {} && a.state.sequence == c.sequence
        && a.state.results[c.next].hosts == map[]
        && ReplyTo(job, a.state, e, a.error).run)
  {
  }

  lemma EndAnswer(job: Job, c: State, w: World)
    requires Buildable(job.plan) && Inv(job, c) && c.active == c.next
    ensures
      var step := job.plan.steps[c.next];
      var hosts := c.results[c.next].hosts;
      var a := Handle(job, c, Envelope(job, End, step.id), w);
      && (a.error.None? <==>
        && c.failure.None? && c.playSeen && hosts != map[]
        && (forall h | h in hosts :: HostVerified(step, hosts[h], h in c.ownerObserved))
        && w.bundleValid && w.boundaryAccepts)
      && (a.error.None? ==>
        a.state.active == -1 && a.state.next == c.next + 1 && a.state.failure.None?
        && a.state.cancelled == c.cancelled && a.state.sequence == c.sequence)
      && (a.error.Some? ==> SamePlace(c, a.state))
  {
  }

  lemma RecoveryAnswer(job: Job, c: State, kind: Kind, id: string, w: World)
    requires Buildable(job.plan) && Inv(job, c) && c.active == -1 && c.next == |job.plan.steps|
    requires kind.Begin? || kind.End?
    requires IsRecoveryId(job.plan, id)
    ensures
      var e := Envelope(job, kind, id);
      var a := Handle(job, c, e, w);
      a.state == c && (a.error.None? <==> c.failure.None?) && !ReplyTo(job, c, e, a.error).run
  {
  }

  // ---------------------------------------------------------------- safety of one stage

  function Stages(job: Job): seq<JobStep>
  {
    job.plan.steps + job.plan.recovery
  }

  function Position(job: Job, i: nat): nat
  {
    if i <= |job.plan.steps| then i else |job.plan.steps|
  }

  /** The machine stands before stage i of the playbook. */
  ghost predicate Before(job: Job, m: Machine, i: nat)
  {
    && m.status == Going && Inv(job, m.controller)
    && m.controller.active == -1 && m.controller.next == Position(job, i)
    && m.roles == job.plan.steps[..Position(job, i)]
  }

  /** The machine gave up: the roles run so far are the acknowledged steps, plus at most the
      next one. */
  ghost predicate Halted(job: Job, m: Machine)
  {
    && m.status == Stopped && Inv(job, m.controller)
    && |m.roles| <= |job.plan.steps| && m.roles == job.plan.steps[..|m.roles|]
    && (|m.roles| == m.controller.next || |m.roles| == m.controller.next + 1)
  }

  function ExecStage(job: Job, m: Machine, step: JobStep, tape: seq<PlayWorld>): (n: Machine)
    requires Indexed(m.controller) && |tape| == 3
    ensures Indexed(n.controller)
  {
    var plays := StagePlays(step);
    ExecPlay(job, ExecPlay(job, ExecPlay(job, m, plays[0], tape[0]), plays[1], tape[1]), plays[2], tape[2])
  }

  lemma BeginGate(job: Job, m: Machine, i: nat, w: PlayWorld)
    requires Buildable(job.plan) && i < |job.plan.steps| && Before(job, m, i)
    ensures
      var n := ExecPlay(job, m, GatePlay(BeginStage, job.plan.steps[i].id), w);
      && n.roles == m.roles && n.emitted == m.emitted
      && (Halted(job, n)
        || (n.status == Going && Inv(job, n.controller) && n.gateRun && n.controller.active == n.controller.next == i
        && n.controller.failure.None?))
  {
    DisturbedKeeps(job, m.controller, w.gate.before);
    var d := Run(job, m.controller, w.gate.before);
    var e := Envelope(job, Begin, job.plan.steps[i].id);
    BeginAnswer(job, d, w.gate.world);
    HandleKeeps(job, d, e, w.gate.world);
    assert m.roles == job.plan.steps[..i];
  }

  lemma CurrentAnswer(job: Job, c: State, id: string, turn: Turn)
    requires Buildable(job.plan) && Inv(job, c) && Indexed(c)
    ensures
      var e := Envelope(job, Current, id);
      var a := Send(job, c, e, turn);
      && Inv(job, a.state) && SamePlace(c, a.state)
      && (a.error.None? ==> a.state == Run(job, c, turn.before) && a.state.failure.None?)
      && (ReplyTo(job, a.state, e, a.error).run <==> a.error.None? && c.active >= 0 && job.plan.steps[c.next].id == id)
      && (turn.before == [] ==> a.state == c && (a.error.None? <==> c.failure.None?))
  {
    SendKeeps(job, c, Envelope(job, Current, id), turn);
    DisturbedKeeps(job, c, turn.before);
    PlaceInPlan(job, c);
    var d := Run(job, c, turn.before);
    CurrentHandled(job, d, Envelope(job, Current, id), turn.world);
    assert turn.before == [] ==> d == c;
    hide Inv, Handle, Run, Buildable, Indexed;
  }

  lemma PlaceInPlan(job: Job, c: State)
    requires Inv(job, c)
    ensures c.active >= 0 ==> c.next < |job.plan.steps|
    ensures c.finished <==> c.next == |job.plan.steps|
  {
  }

  lemma CurrentHandled(job: Job, d: State, e: Event, w: World)
    requires Indexed(d) && e.token == job.token && e.kind.Current?
    ensures Handle(job, d, e, w) == Answer(d, d.failure)
  {
  }

  lemma FinishHandled(job: Job, d: State, e: Event, w: World)
    requires Indexed(d) && e.token == job.token && e.kind.Finish?
    ensures
      var a := Handle(job, d, e, w);
      && (a.error.None? <==> d.failure.None? && d.finished)
      && (a.error.None? ==> a.state.failure.None?)
  {
  }

  lemma RoleBody(job: Job, m: Machine, i: nat, w: PlayWorld)
    requires Buildable(job.plan) && i < |job.plan.steps|
    requires m.status == Going && Inv(job, m.controller) && m.gateRun && m.controller.active == m.controller.next == i
    requires Indexed(m.controller) && m.roles == job.plan.steps[..i]
    ensures
      var n := ExecPlay(job, m, RolePlay(job.plan.steps[i]), w);
      && Inv(job, n.controller) && n.controller.active == n.controller.next == i
      && (n.status == Going ==> n.roles == job.plan.steps[..i + 1])
      && (n.status != Going ==> Halted(job, n))
  {
    hide Inv, Send, Deliver;
    var step := job.plan.steps[i];
    var e := Envelope(job, Current, step.id);
    CurrentAnswer(job, m.controller, step.id, w.gate);
    var a := Send(job, m.controller, e, w.gate);
    assert job.plan.steps[..i + 1] == job.plan.steps[..i] + [step];
    if a.error.None? {
      var p := Envelope(job, PlayStart, step.id).(sequence := m.emitted + 1);
      SendKeeps(job, a.state, p, w.start);
      DeliverKeeps(job, Send(job, a.state, p, w.start).state, step, m.emitted + 1, w.reports);
    }
  }

  lemma EndGate(job: Job, m: Machine, i: nat, w: PlayWorld)
    requires Buildable(job.plan) && i < |job.plan.steps|
    requires m.status == Going && Inv(job, m.controller) && m.controller.active == m.controller.next == i
    requires m.roles == job.plan.steps[..i + 1]
    ensures
      var n := ExecPlay(job, m, GatePlay(EndStage, job.plan.steps[i].id), w);
      Before(job, n, i + 1) || Halted(job, n)
  {
    DisturbedKeeps(job, m.controller, w.gate.before);
    hide Handle, Inv, Run;
    var d := Run(job, m.controller, w.gate.before);
    EndAnswer(job, d, w.gate.world);
    HandleKeeps(job, d, Envelope(job, End, job.plan.steps[i].id), w.gate.world);
  }

  lemma StepStage(job: Job, m: Machine, i: nat, tape: seq<PlayWorld>)
    requires Buildable(job.plan) && i < |job.plan.steps| && Before(job, m, i) && |tape| == 3
    ensures var n := ExecStage(job, m, job.plan.steps[i], tape); Before(job, n, i + 1) || Halted(job, n)
  {
    var step := job.plan.steps[i];
    BeginGate(job, m, i, tape[0]);
    var m1 := ExecPlay(job, m, GatePlay(BeginStage, step.id), tape[0]);
    if m1.status == Going {
      RoleBody(job, m1, i, tape[1]);
      var m2 := ExecPlay(job, m1, RolePlay(step), tape[1]);
      if m2.status == Going {
        EndGate(job, m2, i, tape[2]);
      }
    }
  }

  lemma RecoveryGate(job: Job, m: Machine, i: nat, boundary: Boundary, w: PlayWorld)
    requires Buildable(job.plan) && |job.plan.steps| <= i < |Stages(job)| && Before(job, m, i)
    requires Indexed(m.controller)
    ensures
      var n := ExecPlay(job, m, GatePlay(boundary, Stages(job)[i].id), w);
      && (Before(job, n, i) || Halted(job, n))
      && (boundary == BeginStage && n.status == Going ==> !n.gateRun)
      && (boundary == EndStage ==> n.gateRun == m.gateRun)
      && (w.gate.before == [] && m.controller.failure.None? ==> n == m.(gateRun := n.gateRun))
  {
    hide Handle, Inv;
    DisturbedKeeps(job, m.controller, w.gate.before);
    var d := Run(job, m.controller, w.gate.before);
    var id := Stages(job)[i].id;
    assert Stages(job)[i] == job.plan.recovery[i - |job.plan.steps|];
    RecoveryAnswer(job, d, if boundary == BeginStage then Begin else End, id, w.gate.world);
  }

  lemma RecoveryBody(job: Job, m: Machine, i: nat, w: PlayWorld)
    requires Buildable(job.plan) && |job.plan.steps| <= i < |Stages(job)| && Before(job, m, i) && !m.gateRun
    requires Indexed(m.controller)
    ensures
      var n := ExecPlay(job, m, RolePlay(Stages(job)[i]), w);
      && (Before(job, n, i) || Halted(job, n)) && n.roles == m.roles && n.gateRun == m.gateRun
      && (w.gate.before == [] && m.controller.failure.None? ==> n == m)
  {
    hide Inv, Send;
    CurrentAnswer(job, m.controller, Stages(job)[i].id, w.gate);
  }

  /** A Recovery entry passes its gates without running its role. */
  lemma RecoveryStage(job: Job, m: Machine, i: nat, tape: seq<PlayWorld>)
    requires Buildable(job.plan) && |job.plan.steps| <= i < |Stages(job)| && Before(job, m, i) && |tape| == 3
    ensures
      var n := ExecStage(job, m, Stages(job)[i], tape);
      && (Before(job, n, i + 1) || Halted(job, n)) && n.roles == m.roles
      && ((forall k | 0 <= k < 3 :: tape[k].gate.before == []) && m.controller.failure.None? ==>
        n == m.(gateRun := n.gateRun) && n.status == Going)
  {
    assert Indexed(m.controller);
    hide ExecPlay, Inv, Buildable, Indexed, Halted, Before;
    var step := Stages(job)[i];
    BeforeOrHalted(job, m, i);
    RecoveryGate(job, m, i, BeginStage, tape[0]);
    var m1 := ExecPlay(job, m, GatePlay(BeginStage, step.id), tape[0]);
    BeforeOrHalted(job, m1, i);
    if m1.status == Going {
      RecoveryBody(job, m1, i, tape[1]);
      var m2 := ExecPlay(job, m1, RolePlay(step), tape[1]);
      BeforeOrHalted(job, m2, i);
      if m2.status == Going {
        RecoveryGate(job, m2, i, EndStage, tape[2]);
        BeforeOrHalted(job, ExecPlay(job, m2, GatePlay(EndStage, step.id), tape[2]), i);
      } else {
        NotPlayed(job, m2, GatePlay(EndStage, step.id), tape[2]);
      }
    } else {
      NotPlayed(job, m1, RolePlay(step), tape[1]);
      NotPlayed(job, m1, GatePlay(EndStage, step.id), tape[2]);
    }
  }

  /** Behind the steps one place is as good as the next. */
  lemma BeforeOrHalted(job: Job, m: Machine, i: nat)
    ensures Halted(job, m) ==> m.status == Stopped
    ensures Before(job, m, i) ==> m.status == Going && |m.roles| <= |job.plan.steps|
    ensures Before(job, m, i) && i >= |job.plan.steps| ==> Before(job, m, i + 1)
    ensures Before(job, m, i) && i >= |job.plan.steps| ==> m.roles == job.plan.steps
    ensures Before(job, m, i) || Halted(job, m) ==> m.status != Completed
  {
    hide Inv;
    assert job.plan.steps[..|job.plan.steps|] == job.plan.steps;
  }

  lemma NotPlayed(job: Job, m: Machine, play: Play, w: PlayWorld)
    requires Indexed(m.controller) && m.status != Going
    ensures ExecPlay(job, m, play, w) == m
  {
  }

  // ---------------------------------------------------------------- the whole playbook

  function Upto(job: Job, i: nat): (plays: seq<Play>)
    requires i <= |Stages(job)|
    ensures |plays| == 3 * i + 1
  {
    [InitializePlay] + AllStages(Stages(job)[..i])
  }

  function MachineAt(job: Job, tape: seq<PlayWorld>, i: nat): (m: Machine)
    requires |tape| == 3 * |Stages(job)| + 2 && i <= |Stages(job)|
    ensures Indexed(m.controller)
  {
    Exec(job, BOOT, Upto(job, i), tape[..3 * i + 1])
  }

  function StageTape(tape: seq<PlayWorld>, i: nat): (t: seq<PlayWorld>)
    requires 3 * i + 4 <= |tape|
    ensures |t| == 3
  {
    tape[3 * i + 1..3 * i + 4]
  }

  lemma ExecThree(job: Job, m: Machine, plays: seq<Play>, step: JobStep, tape: seq<PlayWorld>)
    requires Indexed(m.controller) && |tape| == |plays| + 3
    ensures Exec(job, m, plays + StagePlays(step), tape)
      == ExecStage(job, Exec(job, m, plays, tape[..|plays|]), step, tape[|plays|..])
  {
    var s := StagePlays(step);
    var p1, p2, p3 := plays + s[..1], plays + s[..2], plays + s;
    assert p3[..|p3| - 1] == p2 && p2[..|p2| - 1] == p1 && p1[..|p1| - 1] == plays;
    var t2, t1 := tape[..|plays| + 2], tape[..|plays| + 1];
    assert tape[..|tape| - 1] == t2 && t2[..|t2| - 1] == t1 && t1[..|t1| - 1] == tape[..|plays|];
    assert Exec(job, m, p1, t1) == ExecPlay(job, Exec(job, m, plays, tape[..|plays|]), s[0], tape[|plays|]);
    assert Exec(job, m, p2, t2) == ExecPlay(job, Exec(job, m, p1, t1), s[1], tape[|plays| + 1]);
    assert Exec(job, m, p3, tape) == ExecPlay(job, Exec(job, m, p2, t2), s[2], tape[|plays| + 2]);
  }

  lemma NextStage(job: Job, tape: seq<PlayWorld>, i: nat)
    requires |tape| == 3 * |Stages(job)| + 2 && i < |Stages(job)|
    ensures MachineAt(job, tape, i + 1) == ExecStage(job, MachineAt(job, tape, i), Stages(job)[i], StageTape(tape, i))
  {
    hide ExecStage, Exec, ExecPlay;
    var all := Stages(job);
    assert all[..i + 1][..i] == all[..i];
    assert Upto(job, i + 1) == Upto(job, i) + StagePlays(all[i]);
    var t := tape[..3 * (i + 1) + 1];
    assert t[..3 * i + 1] == tape[..3 * i + 1] && t[3 * i + 1..] == tape[3 * i + 1..3 * i + 4];
    ExecThree(job, BOOT, Upto(job, i), all[i], t);
  }

  lemma StoppedStays(job: Job, m: Machine, step: JobStep, tape: seq<PlayWorld>)
    requires Indexed(m.controller) && |tape| == 3 && m.status != Going
    ensures ExecStage(job, m, step, tape) == m
  {
  }

  lemma Booted(job: Job, tape: seq<PlayWorld>)
    requires Buildable(job.plan) && |tape| == 3 * |Stages(job)| + 2
    ensures var m := MachineAt(job, tape, 0); Before(job, m, 0) || Halted(job, m)
    ensures tape[0].gate.before == [] ==> MachineAt(job, tape, 0) == BOOT.(controller := START.(initialized := true))
  {
    assert Stages(job)[..0] == [] && Upto(job, 0) == [InitializePlay];
    assert tape[..1][..0] == [] && [InitializePlay][..0] == [];
    assert Exec(job, BOOT, [], []) == BOOT;
    assert MachineAt(job, tape, 0) == ExecPlay(job, BOOT, InitializePlay, tape[0]);
    StartInv(job);
    SendKeeps(job, START, Envelope(job, Initialize, ""), tape[0].gate);
  }

  lemma OneMoreStage(job: Job, m: Machine, i: nat, tape: seq<PlayWorld>)
    requires Buildable(job.plan) && i < |Stages(job)| && |tape| == 3 && Indexed(m.controller)
    requires Before(job, m, i) || Halted(job, m)
    ensures var n := ExecStage(job, m, Stages(job)[i], tape); Before(job, n, i + 1) || Halted(job, n)
  {
    hide Inv;
    if m.status != Going {
      StoppedStays(job, m, Stages(job)[i], tape);
    } else if i < |job.plan.steps| {
      StepStage(job, m, i, tape);
    } else {
      RecoveryStage(job, m, i, tape);
    }
  }

  lemma {:induction false} StagesAreSafe(job: Job, tape: seq<PlayWorld>, i: nat)
    requires Buildable(job.plan) && |tape| == 3 * |Stages(job)| + 2 && i <= |Stages(job)|
    ensures var m := MachineAt(job, tape, i); Before(job, m, i) || Halted(job, m)
  {
    hide Before, Halted, ExecStage, MachineAt, StageTape;
    if i == 0 {
      Booted(job, tape);
    } else {
      StagesAreSafe(job, tape, i - 1);
      NextStage(job, tape, i - 1);
      OneMoreStage(job, MachineAt(job, tape, i - 1), i - 1, StageTape(tape, i - 1));
    }
  }

  lemma PerformEnds(job: Job, tape: seq<PlayWorld>)
    requires |tape| == 3 * |Stages(job)| + 2
    ensures Perform(job, tape) == ExecPlay(job, MachineAt(job, tape, |Stages(job)|), FinishPlay, tape[|tape| - 1])
  {
    var all := Stages(job);
    assert all[..|all|] == all;
    var plays := Compile(job.plan);
    assert plays[..|plays| - 1] == Upto(job, |all|);
  }

  /** What a playbook that has been played leaves behind. */
  ghost predicate Ended(job: Job, m: Machine)
  {
    var steps := job.plan.steps;
    && Inv(job, m.controller) && m.status != Going
    && |m.roles| <= |steps| && m.roles == steps[..|m.roles|]
    && m.controller.next <= |m.roles| <= m.controller.next + 1
    && (m.status == Completed ==> m.roles == steps && m.controller.next == |steps| && m.controller.failure.None?)
  }

  lemma FinishStage(job: Job, m: Machine, w: PlayWorld)
    requires Buildable(job.plan) && Indexed(m.controller)
    requires Before(job, m, |Stages(job)|) || Halted(job, m)
    ensures Ended(job, ExecPlay(job, m, FinishPlay, w))
  {
    hide Inv, Send, Run;
    if m.status == Going {
      assert job.plan.steps[..|job.plan.steps|] == job.plan.steps;
      FinishAnswer(job, m.controller, w.gate);
    }
  }

  /** Compiler correctness, safety half, for every outside world: the roles executed are an
      initial part of plan.Steps in order, at most one beyond the acknowledged steps, never a
      Recovery entry and never twice; and the playbook completes only with every step run and
      proven. */
  lemma CompiledJobIsSafe(job: Job, tape: seq<PlayWorld>)
    requires Buildable(job.plan) && |tape| == 3 * |Stages(job)| + 2
    ensures
      var m := Perform(job, tape);
      var steps := job.plan.steps;
      && m.status != Going
      && |m.roles| <= |steps| && m.roles == steps[..|m.roles|] && UniqueIds(m.roles)
      && m.controller.next <= |m.roles| <= m.controller.next + 1
      && (m.status == Completed ==>
        && m.roles == steps && m.controller.next == |m.controller.results| == |steps| && m.controller.failure.None?
        && forall i | 0 <= i < |steps| :: Proven(steps[i], m.controller.results[i], m.controller.accepted))
  {
    hide MachineAt, ExecPlay, Perform, Exec;
    StagesAreSafe(job, tape, |Stages(job)|);
    FinishStage(job, MachineAt(job, tape, |Stages(job)|), tape[|tape| - 1]);
    PerformEnds(job, tape);
  }

  /** `finish` is accepted exactly when no failure is recorded and every step has succeeded. */
  lemma FinishAnswer(job: Job, c: State, turn: Turn)
    requires Buildable(job.plan) && Inv(job, c) && Indexed(c)
    ensures
      var d := Run(job, c, turn.before);
      var a := Send(job, c, Envelope(job, Finish, ""), turn);
      && Inv(job, a.state) && SamePlace(c, a.state)
      && (a.error.None? <==> d.failure.None? && d.next == |job.plan.steps|)
      && (a.error.None? ==> a.state.failure.None?)
  {
    DisturbedKeeps(job, c, turn.before);
    SendKeeps(job, c, Envelope(job, Finish, ""), turn);
    var d := Run(job, c, turn.before);
    PlaceInPlan(job, d);
    FinishHandled(job, d, Envelope(job, Finish, ""), turn.world);
    hide Inv, Handle, Run, Buildable, Indexed;
  }
}
