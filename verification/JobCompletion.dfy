/** Compiler correctness, the exact half: for every outside world, with timeouts and cancellations
    anywhere, a compiled job completes if and only if every stage of plan.Steps is good and no
    alarm comes at the wrong time. Both conditions are read off the world alone. */
module JobCompletion {
  import opened JobPlan
  import opened JobController
  import opened JobSafety
  import opened PlayCompiler
  import opened JobExecution

  // ---------------------------------------------------------------- alarms

  /** What disturbances have raised: cancelled once the outside cancelled or a deadline was missed,
      expired while the watchdog waits for the lock, failed once it obtained it. */
  datatype Alarm = Alarm(cancelled: bool, expired: bool, failed: bool)

  const SILENCE := Alarm(false, false, false)

  function Raised(a: Alarm, deadline: int, m: Disturbance): Alarm
  {
    match m
    case Tick(now) => if deadline > 0 && now > deadline then a.(cancelled := true, expired := true) else a
    case Expire => if a.expired then Alarm(true, false, true) else a
    case Cancel => a.(cancelled := true)
  }

  function After(a: Alarm, deadline: int, before: seq<Disturbance>): Alarm
    decreases |before|
  {
    if before == [] then a else After(Raised(a, deadline, before[0]), deadline, before[1..])
  }

  function AfterReports(a: Alarm, deadline: int, reports: seq<TaskReport>): Alarm
    decreases |reports|
  {
    if reports == [] then a else AfterReports(After(a, deadline, reports[0].turn.before), deadline, reports[1..])
  }

  /** During the role of a stage with this deadline. */
  function AfterBody(a: Alarm, deadline: int, w: PlayWorld): Alarm
  {
    AfterReports(After(After(a, deadline, w.gate.before), deadline, w.start.before), deadline, w.reports)
  }

  function Deadline(step: JobStep, begin: PlayWorld): int
  {
    begin.gate.world.later + step.timeoutSeconds * SECOND
  }

  /** The alarm after a stage, whose deadline stands from its begin to its end. */
  function AfterStage(a: Alarm, step: JobStep, tape: seq<PlayWorld>): Alarm
    requires |tape| == 3
  {
    var d := Deadline(step, tape[0]);
    After(AfterBody(After(a, 0, tape[0].gate.before), d, tape[1]), d, tape[2].gate.before)
  }

  /** A Recovery entry has no deadline. */
  function AfterRecovery(a: Alarm, tape: seq<PlayWorld>): Alarm
    requires |tape| == 3
  {
    After(After(After(a, 0, tape[0].gate.before), 0, tape[1].gate.before), 0, tape[2].gate.before)
  }

  function AlarmOf(c: State): Alarm
  {
    Alarm(c.cancelled, c.expired, c.failure.Some?)
  }

  lemma {:induction false} FailedStays(a: Alarm, deadline: int, before: seq<Disturbance>)
    ensures a.failed ==> After(a, deadline, before).failed
    decreases |before|
  {
    if before != [] {
      FailedStays(Raised(a, deadline, before[0]), deadline, before[1..]);
    }
  }

  lemma {:induction false} FailedStaysReporting(a: Alarm, deadline: int, reports: seq<TaskReport>)
    ensures a.failed ==> AfterReports(a, deadline, reports).failed
    decreases |reports|
  {
    if reports != [] {
      FailedStays(a, deadline, reports[0].turn.before);
      FailedStaysReporting(After(a, deadline, reports[0].turn.before), deadline, reports[1..]);
    }
  }

  /** Without an active stage no deadline can be missed. */
  lemma {:induction false} NoDeadline(a: Alarm, deadline: int, before: seq<Disturbance>)
    requires deadline <= 0
    ensures After(a, deadline, before) == After(a, 0, before)
    decreases |before|
  {
    if before != [] {
      NoDeadline(Raised(a, 0, before[0]), deadline, before[1..]);
    }
  }

  /** Disturbances raise the alarm and do nothing else. */
  ghost predicate OnlyAlarmed(c: State, d: State)
  {
    Indexed(d) && d == c.(cancelled := d.cancelled, expired := d.expired, failure := d.failure)
    && (c.failure.Some? ==> d.failure == c.failure)
  }

  lemma OneDisturbance(job: Job, c: State, m: Disturbance)
    requires Indexed(c)
    ensures AlarmOf(Apply(job, c, m)) == Raised(AlarmOf(c), c.deadline, m) && OnlyAlarmed(c, Apply(job, c, m))
  {
  }

  lemma {:induction false} Disturbed(job: Job, c: State, before: seq<Disturbance>)
    requires Indexed(c)
    ensures
      var d := Run(job, c, before);
      AlarmOf(d) == After(AlarmOf(c), c.deadline, before) && OnlyAlarmed(c, d)
    decreases |before|
  {
    hide Apply, Raised;
    if before != [] {
      OneDisturbance(job, c, before[0]);
      Disturbed(job, Apply(job, c, before[0]), before[1..]);
    }
  }

  // ---------------------------------------------------------------- good stages

  predicate FineReport(r: TaskReport)
  {
    r.turn.world.redacts && r.turn.world.observerAccepts && (r.isResult ==> r.status.Ok? || r.status.Skipped?)
  }

  function Hosts(reports: seq<TaskReport>): set<string>
  {
    set k | 0 <= k < |reports| && reports[k].isResult :: reports[k].host
  }

  function Owners(reports: seq<TaskReport>): set<string>
  {
    set k | 0 <= k < |reports| && reports[k].isResult && reports[k].status.Ok? && reports[k].ownerTask ::
      reports[k].host
  }

  /** A stage whose gates are acknowledged, whose events are all accepted, none of whose hosts
      failed, that reached at least one host, and that for a check has an owner task succeed on
      every host it reached. */
  predicate GoodStage(step: JobStep, tape: seq<PlayWorld>)
    requires |tape| == 3
  {
    var begin, body, end := tape[0].gate.world, tape[1], tape[2].gate.world;
    && begin.bundleValid && begin.boundaryAccepts && !begin.interrupted
    && body.start.world.redacts && body.start.world.observerAccepts
    && (forall k | 0 <= k < |body.reports| :: FineReport(body.reports[k]))
    && Hosts(body.reports) != {}
    && (NeedsOwner(step) ==> Hosts(body.reports) <= Owners(body.reports))
    && end.bundleValid && end.boundaryAccepts
  }

  // ---------------------------------------------------------------- delivering the reports

  /** Stage `step` is active in c and nothing has failed. */
  ghost predicate Open(job: Job, c: State, step: JobStep)
  {
    && Indexed(c) && c.failure.None? && c.active == c.next < |job.plan.steps| && step == job.plan.steps[c.next]
  }

  ghost predicate Unharmed(r: StageResult)
  {
    forall h | h in r.hosts :: r.hosts[h].failed == 0 && r.hosts[h].unreachable == 0
  }

  /** From c to d, `count` events arrived that concerned these hosts, all of them fine. */
  ghost predicate Delivered(job: Job, c: State, d: State, step: JobStep, hosts: set<string>, owners: set<string>,
      count: nat)
  {
    && Open(job, c, step) && Open(job, d, step) && d.next == c.next && d.deadline == c.deadline
    && d.playSeen == c.playSeen && d.sequence == c.sequence + count
    && Unharmed(d.results[c.active])
    && d.results[c.active].hosts.Keys == c.results[c.active].hosts.Keys + hosts
    && d.ownerObserved == c.ownerObserved + owners
  }

  lemma DeliveredTransitive(job: Job, c: State, d: State, e: State, step: JobStep, h1: set<string>, o1: set<string>,
      n1: nat, h2: set<string>, o2: set<string>, n2: nat)
    requires Delivered(job, c, d, step, h1, o1, n1) && Delivered(job, d, e, step, h2, o2, n2)
    ensures Delivered(job, c, e, step, h1 + h2, o1 + o2, n1 + n2)
  {
  }

  lemma FineHandled(job: Job, c: State, step: JobStep, r: TaskReport)
    requires Open(job, c, step) && FineReport(r) && r.turn.before == []
    ensures
      var e := ReportEvent(job, step, c.sequence + 1, r);
      Send(job, c, e, r.turn).state == Noted(c, e).(accepted := c.accepted + [e])
  {
  }

  lemma SingleReport(r: TaskReport)
    ensures Hosts([r]) == if r.isResult then {r.host} else {}
    ensures Owners([r]) == if r.isResult && r.status.Ok? && r.ownerTask then {r.host} else {}
  {
    assert [r][0] == r;
  }

  lemma RecordedUnharmed(s: StageResult, e: Event)
    requires Unharmed(s) && (e.status.Ok? || e.status.Skipped?)
    ensures Unharmed(Recorded(s, e)) && Recorded(s, e).hosts.Keys == s.hosts.Keys + {e.host}
  {
  }

  lemma FineAnswer(job: Job, c: State, step: JobStep, r: TaskReport)
    requires Open(job, c, step) && Indexed(c) && 0 <= c.active && FineReport(r) && r.turn.before == []
      && Unharmed(c.results[c.active])
    ensures
      var d := Send(job, c, ReportEvent(job, step, c.sequence + 1, r), r.turn).state;
      Delivered(job, c, d, step, Hosts([r]), Owners([r]), 1) && AlarmOf(d) == AlarmOf(c)
  {
    var e := ReportEvent(job, step, c.sequence + 1, r);
    FineHandled(job, c, step, r);
    SingleReport(r);
    hide Send, Handle, Hosts, Owners, Unharmed, Recorded, Noted;
    NotedFrame(c, e);
    NotedActive(c, e);
    if r.isResult {
      RecordedUnharmed(c.results[c.active], e);
    }
  }

  lemma SpoiledAnswer(job: Job, c: State, step: JobStep, r: TaskReport)
    requires Open(job, c, step) && !FineReport(r) && r.turn.before == []
    requires r.isResult ==> !r.status.Failed? && !r.status.Unreachable?
    ensures Send(job, c, ReportEvent(job, step, c.sequence + 1, r), r.turn).state.failure.Some?
  {
  }

  lemma {:induction false} DeliverFrozen(job: Job, c: State, step: JobStep, emitted: nat, reports: seq<TaskReport>)
    requires Indexed(c) && c.failure.Some?
    ensures Deliver(job, c, step, emitted, reports).failure.Some?
    decreases |reports|
  {
    if reports != [] {
      var e := ReportEvent(job, step, emitted + 1, reports[0]);
      RunExtends(job, c, reports[0].turn.before);
      DeliverFrozen(job, Send(job, c, e, reports[0].turn).state, step, emitted + 1, reports[1..]);
    }
  }

  lemma HostsSplit(reports: seq<TaskReport>)
    requires reports != []
    ensures Hosts(reports) == Hosts([reports[0]]) + Hosts(reports[1..])
    ensures Owners(reports) == Owners([reports[0]]) + Owners(reports[1..])
  {
    var rest := reports[1..];
    assert forall k | 0 < k < |reports| :: reports[k] == rest[k - 1];
    assert forall k | 0 <= k < |rest| :: rest[k] == reports[k + 1];
    assert [reports[0]][0] == reports[0];
  }

  lemma DeliveredReady(job: Job, c: State, d: State, step: JobStep, hosts: set<string>, owners: set<string>, count: nat)
    requires Delivered(job, c, d, step, hosts, owners, count)
    ensures Open(job, d, step) && Indexed(d) && d.active >= 0 && Unharmed(d.results[d.active])
    ensures d.sequence == c.sequence + count && d.deadline == c.deadline
  {
  }

  lemma DeliveredNothing(job: Job, c: State, step: JobStep)
    requires Open(job, c, step) && Indexed(c) && 0 <= c.active && Unharmed(c.results[c.active])
    ensures Delivered(job, c, c, step, Hosts([]), Owners([]), 0)
  {
  }

  lemma AlarmedDelivery(job: Job, c: State, d: State, step: JobStep)
    requires Open(job, c, step) && Unharmed(c.results[c.active]) && OnlyAlarmed(c, d) && d.failure.None?
    ensures Delivered(job, c, d, step, {}, {}, 0) && Open(job, d, step) && d.active >= 0
      && Unharmed(d.results[d.active])
  {
  }

  /** A message that finds the controller disturbed is one sent to the disturbed controller. */
  lemma SendSettled(job: Job, c: State, e: Event, turn: Turn)
    requires Indexed(c)
    ensures Send(job, c, e, turn) == Send(job, Run(job, c, turn.before), e, Turn([], turn.world))
  {
    hide Handle, Apply;
  }

  /** One report: the stage has failed, or it is delivered and the alarm is that of its disturbances. */
  lemma OneReport(job: Job, c: State, step: JobStep, r: TaskReport)
    requires Open(job, c, step) && Indexed(c) && 0 <= c.active && Unharmed(c.results[c.active])
    requires r.isResult ==> !r.status.Failed? && !r.status.Unreachable?
    ensures
      var d := Send(job, c, ReportEvent(job, step, c.sequence + 1, r), r.turn).state;
      var a := After(AlarmOf(c), c.deadline, r.turn.before);
      if FineReport(r) && !a.failed then Delivered(job, c, d, step, Hosts([r]), Owners([r]), 1) && AlarmOf(d) == a
      else d.failure.Some?
  {
    var e := ReportEvent(job, step, c.sequence + 1, r);
    var d := Run(job, c, r.turn.before);
    var quiet := r.(turn := Turn([], r.turn.world));
    assert Indexed(d);
    hide Send, Handle, Delivered, Hosts, Owners, Run, Open, Unharmed, Indexed;
    Disturbed(job, c, r.turn.before);
    SendSettled(job, c, e, r.turn);
    SameReport(r, quiet);
    if d.failure.Some? {
      FrozenSend(job, d, e, quiet.turn);
    } else {
      AlarmedDelivery(job, c, d, step);
      assert e == ReportEvent(job, step, d.sequence + 1, quiet);
      if FineReport(r) {
        FineAnswer(job, d, step, quiet);
        DeliveredTransitive(job, c, d, Send(job, d, e, quiet.turn).state, step, {}, {}, 0, Hosts([r]), Owners([r]), 1);
        assert {} + Hosts([r]) == Hosts([r]) && {} + Owners([r]) == Owners([r]);
      } else {
        SpoiledAnswer(job, d, step, quiet);
      }
    }
  }

  lemma SameReport(r: TaskReport, quiet: TaskReport)
    requires quiet == r.(turn := Turn([], r.turn.world))
    ensures Hosts([quiet]) == Hosts([r]) && Owners([quiet]) == Owners([r]) && (FineReport(quiet) <==> FineReport(r))
  {
    SingleReport(r);
    SingleReport(quiet);
    hide Hosts, Owners;
  }

  lemma FrozenSend(job: Job, d: State, e: Event, turn: Turn)
    requires Indexed(d) && d.failure.Some? && turn.before == []
    ensures Send(job, d, e, turn).state.failure.Some?
  {
    hide Handle, Indexed;
    assert Run(job, d, turn.before) == d;
    ApplyExtends(job, d, Message(e, turn.world));
  }

  lemma {:induction false} DeliverExactly(job: Job, c: State, step: JobStep, reports: seq<TaskReport>)
    requires Open(job, c, step) && Indexed(c) && 0 <= c.active && c.sequence >= 0 && Unharmed(c.results[c.active])
    requires !HostFailed(reports)
    ensures
      var d := Deliver(job, c, step, c.sequence, reports);
      var a := AfterReports(AlarmOf(c), c.deadline, reports);
      if (forall k | 0 <= k < |reports| :: FineReport(reports[k])) && !a.failed
      then Delivered(job, c, d, step, Hosts(reports), Owners(reports), |reports|) && AlarmOf(d) == a
      else d.failure.Some?
    decreases |reports|
  {
    hide Send, Unharmed, Hosts, Owners, FineReport, Delivered, ReportEvent, Open, AlarmOf, After;
    if reports == [] {
      DeliveredNothing(job, c, step);
      assert !AlarmOf(c).failed by {
        OpenIsSilent(job, c, step);
      }
    } else {
      var r, rest := reports[0], reports[1..];
      NobodyFailed(reports);
      OneReport(job, c, step, r);
      var d := Send(job, c, ReportEvent(job, step, c.sequence + 1, r), r.turn).state;
      var a := After(AlarmOf(c), c.deadline, r.turn.before);
      FailedStaysReporting(a, c.deadline, rest);
      AllFine(reports);
      if FineReport(r) && !a.failed {
        DeliveredReady(job, c, d, step, Hosts([r]), Owners([r]), 1);
        DeliverExactly(job, d, step, rest);
        HostsSplit(reports);
        if (forall k | 0 <= k < |reports| :: FineReport(reports[k])) && !AfterReports(a, c.deadline, rest).failed {
          var end := Deliver(job, d, step, d.sequence, rest);
          DeliveredTransitive(job, c, d, end, step, Hosts([r]), Owners([r]), 1, Hosts(rest), Owners(rest), |rest|);
        }
      } else {
        DeliverFrozen(job, d, step, c.sequence + 1, rest);
      }
    }
  }

  lemma OpenIsSilent(job: Job, c: State, step: JobStep)
    requires Open(job, c, step)
    ensures !AlarmOf(c).failed
  {
  }

  lemma NobodyFailed(reports: seq<TaskReport>)
    requires reports != [] && !HostFailed(reports)
    ensures !HostFailed(reports[1..])
    ensures reports[0].isResult ==> !reports[0].status.Failed? && !reports[0].status.Unreachable?
  {
    var rest := reports[1..];
    assert forall k | 0 <= k < |rest| :: rest[k] == reports[k + 1];
  }

  lemma AllFine(reports: seq<TaskReport>)
    requires reports != []
    ensures (forall k | 0 <= k < |reports| :: FineReport(reports[k]))
            <==> FineReport(reports[0]) && forall k | 0 <= k < |reports[1..]| :: FineReport(reports[1..][k])
  {
    hide FineReport;
    var rest := reports[1..];
    assert forall k | 0 <= k < |rest| :: rest[k] == reports[k + 1];
    assert forall k | 0 < k < |reports| :: reports[k] == rest[k - 1];
  }

  // ---------------------------------------------------------------- one stage, exactly

  /** Before stage i with nothing failed, this alarm raised and the two event counters in step. */
  ghost predicate Clean(job: Job, m: Machine, i: nat, a: Alarm)
  {
    Before(job, m, i) && AlarmOf(m.controller) == a && !a.failed && m.controller.sequence == m.emitted
  }

  ghost predicate Begun(job: Job, m: Machine, i: nat, a: Alarm, deadline: int)
  {
    && m.status == Going && Inv(job, m.controller) && m.gateRun && i < |job.plan.steps|
      && Open(job, m.controller, job.plan.steps[i])
    && m.controller.next == i && AlarmOf(m.controller) == a && m.controller.deadline == deadline
    && m.controller.sequence == m.emitted && m.roles == job.plan.steps[..i]
    && !m.controller.playSeen && m.controller.ownerObserved == {} && m.controller.results[i].hosts == map[]
  }

  lemma IdleDeadline(job: Job, c: State)
    requires Inv(job, c) && c.active == -1
    ensures c.deadline <= 0
  {
    hide JobSafety.Verified, Numbered, Tallied, Trace;
  }

  lemma BeginAlarm(job: Job, c: State, w: World)
    requires Buildable(job.plan) && Inv(job, c) && c.active == -1 && c.next < |job.plan.steps|
    ensures
      var step := job.plan.steps[c.next];
      var r := Handle(job, c, Envelope(job, Begin, step.id), w);
      r.error.None? ==> AlarmOf(r.state) == AlarmOf(c) && r.state.deadline == w.later + step.timeoutSeconds * SECOND
  {
  }

  lemma BeginExactly(job: Job, m: Machine, i: nat, a: Alarm, w: PlayWorld)
    requires Buildable(job.plan) && i < |job.plan.steps| && Clean(job, m, i, a) && Indexed(m.controller)
    ensures
      var n := ExecPlay(job, m, GatePlay(BeginStage, job.plan.steps[i].id), w);
      var b := After(a, 0, w.gate.before);
      var good := w.gate.world.bundleValid && w.gate.world.boundaryAccepts && !w.gate.world.interrupted && !b.cancelled
        && !b.failed;
      if good then Begun(job, n, i, b, Deadline(job.plan.steps[i], w)) else n.status == Stopped
  {
    var c := m.controller;
    IdleDeadline(job, c);
    hide Handle, Inv, Run, After, Buildable;
    Disturbed(job, c, w.gate.before);
    NoDeadline(a, c.deadline, w.gate.before);
    DisturbedKeeps(job, c, w.gate.before);
    var d := Run(job, c, w.gate.before);
    var e := Envelope(job, Begin, job.plan.steps[i].id);
    BeginAnswer(job, d, w.gate.world);
    BeginAlarm(job, d, w.gate.world);
    HandleKeeps(job, d, e, w.gate.world);
  }

  lemma StartAnswer(job: Job, c: State, step: JobStep, world: World)
    requires Open(job, c, step) && !c.playSeen && c.sequence >= 0
    ensures
      var d := Send(job, c, Envelope(job, PlayStart, step.id).(sequence := c.sequence + 1), Turn([], world)).state;
      && Indexed(d)
      && (d.failure.None? <==> world.redacts && world.observerAccepts)
      && (d.failure.None? ==>
        && Open(job, d, step) && d.next == c.next && AlarmOf(d) == AlarmOf(c) && d.deadline == c.deadline
        && d.playSeen && d.sequence == c.sequence + 1 && d.results == c.results && d.ownerObserved == c.ownerObserved)
  {
  }

  predicate GoodBody(w: PlayWorld)
  {
    w.start.world.redacts && w.start.world.observerAccepts && forall k | 0 <= k < |w.reports| ::
      FineReport(w.reports[k])
  }

  /** The role of the open stage has announced itself. */
  ghost predicate Launched(job: Job, c: State, d: State, step: JobStep, a: Alarm)
  {
    && Indexed(d) && Open(job, d, step) && d.next == c.next && AlarmOf(d) == a && d.deadline == c.deadline
    && d.playSeen && d.sequence == c.sequence + 1 && d.results == c.results && d.ownerObserved == c.ownerObserved
  }

  /** The start of a role that is let run: it fails, or the stage is open with its alarm. */
  lemma StartExactly(job: Job, c: State, step: JobStep, turn: Turn)
    requires Open(job, c, step) && Indexed(c) && !c.playSeen && c.sequence >= 0
    ensures
      var d := Send(job, c, Envelope(job, PlayStart, step.id).(sequence := c.sequence + 1), turn).state;
      var a := After(AlarmOf(c), c.deadline, turn.before);
      if turn.world.redacts && turn.world.observerAccepts && !a.failed then Launched(job, c, d, step, a)
      else Indexed(d) && d.failure.Some?
  {
    var e := Envelope(job, PlayStart, step.id).(sequence := c.sequence + 1);
    var d := Run(job, c, turn.before);
    hide Send, Run, After;
    Disturbed(job, c, turn.before);
    SendSettled(job, c, e, turn);
    if d.failure.Some? {
      FrozenSend(job, d, e, Turn([], turn.world));
    } else {
      StartAnswer(job, d, step, turn.world);
    }
  }

  /** The current gate of a role lets it run exactly when no alarm has failed the job. */
  lemma CurrentExactly(job: Job, c: State, step: JobStep, turn: Turn)
    requires Open(job, c, step) && Indexed(c)
    ensures
      var e := Envelope(job, Current, step.id);
      var r := Send(job, c, e, turn);
      var a := After(AlarmOf(c), c.deadline, turn.before);
      && (r.error.None? <==> !a.failed)
      && (r.error.None? ==>
        && ReplyTo(job, r.state, e, r.error).run && Open(job, r.state, step) && OnlyAlarmed(c, r.state)
          && AlarmOf(r.state) == a)
  {
    hide Handle, Run, After;
    Disturbed(job, c, turn.before);
    CurrentHandled(job, Run(job, c, turn.before), Envelope(job, Current, step.id), turn.world);
  }

  ghost predicate Played(job: Job, n: Machine, i: nat, a: Alarm, deadline: int, w: PlayWorld)
  {
    var c := n.controller;
    && n.status == Going && i < |job.plan.steps| && Open(job, c, job.plan.steps[i]) && c.next == i
    && AlarmOf(c) == a && c.deadline == deadline && c.playSeen && c.sequence == n.emitted
    && Unharmed(c.results[i]) && c.results[i].hosts.Keys == Hosts(w.reports) && c.ownerObserved == Owners(w.reports)
  }

  /** After a good body the controller has seen exactly the reported hosts and owner tasks. */
  lemma BodyExactly(job: Job, m: Machine, i: nat, a: Alarm, deadline: int, w: PlayWorld)
    requires Begun(job, m, i, a, deadline)
    ensures
      var n := ExecPlay(job, m, RolePlay(job.plan.steps[i]), w);
      var b := AfterBody(a, deadline, w);
      if GoodBody(w) && !b.failed then Played(job, n, i, b, deadline, w)
      else n.status == Stopped || (Indexed(n.controller) && n.controller.failure.Some?)
  {
    var step, c := job.plan.steps[i], m.controller;
    BegunSequence(job, m, i, a, deadline);
    hide Send, Inv, After, AfterReports, Deliver;
    CurrentExactly(job, c, step, w.gate);
    var current := Send(job, c, Envelope(job, Current, step.id), w.gate);
    var b := After(a, deadline, w.gate.before);
    FailedStays(b, deadline, w.start.before);
    FailedStaysReporting(After(b, deadline, w.start.before), deadline, w.reports);
    if current.error.None? {
      StartedBody(job, current.state, step, w);
    }
  }

  lemma BegunSequence(job: Job, m: Machine, i: nat, a: Alarm, deadline: int)
    requires Begun(job, m, i, a, deadline)
    ensures m.controller.sequence >= 0
  {
    hide JobSafety.Verified, Tallied, Trace;
  }

  /** All these reports arrived at the open stage. */
  ghost predicate Reported(job: Job, d: State, step: JobStep, a: Alarm, next: nat, deadline: int, sequence: int,
      reports: seq<TaskReport>)
  {
    && Open(job, d, step) && AlarmOf(d) == a && d.next == next && d.deadline == deadline
    && d.playSeen && d.sequence == sequence + |reports|
    && Unharmed(d.results[d.active]) && d.results[d.active].hosts.Keys == Hosts(reports)
      && d.ownerObserved == Owners(reports)
  }

  /** From the start of a role to its last report. */
  lemma StartedBody(job: Job, c: State, step: JobStep, w: PlayWorld)
    requires Open(job, c, step) && Indexed(c) && !c.playSeen && c.sequence >= 0
    requires c.ownerObserved == {} && c.results[c.active].hosts == map[]
    ensures
      var started := Send(job, c, Envelope(job, PlayStart, step.id).(sequence := c.sequence + 1), w.start).state;
      var d := Deliver(job, started, step, c.sequence + 1, w.reports);
      var b := AfterReports(After(AlarmOf(c), c.deadline, w.start.before), c.deadline, w.reports);
      if GoodBody(w) && !b.failed then !HostFailed(w.reports)
        && Reported(job, d, step, b, c.next, c.deadline, c.sequence + 1, w.reports)
      else HostFailed(w.reports) || d.failure.Some?
  {
    var started := Send(job, c, Envelope(job, PlayStart, step.id).(sequence := c.sequence + 1), w.start).state;
    var a := After(AlarmOf(c), c.deadline, w.start.before);
    hide Send, After, AfterReports, Deliver, FineReport, HostFailed, Launched, Reported;
    StartExactly(job, c, step, w.start);
    FailedStaysReporting(a, c.deadline, w.reports);
    if started.failure.Some? {
      DeliverFrozen(job, started, step, c.sequence + 1, w.reports);
      LaunchedIsOpen(job, c, started, step, a);
    } else {
      LaunchedBody(job, c, started, step, a, w.reports);
    }
  }

  lemma LaunchedIsOpen(job: Job, c: State, d: State, step: JobStep, a: Alarm)
    requires d.failure.Some?
    ensures !Launched(job, c, d, step, a)
  {
  }

  lemma LaunchedBody(job: Job, c: State, d: State, step: JobStep, a: Alarm, reports: seq<TaskReport>)
    requires Indexed(c) && Open(job, c, step) && c.sequence >= 0 && Launched(job, c, d, step, a)
    requires c.ownerObserved == {} && c.results[c.active].hosts == map[]
    ensures
      var end := Deliver(job, d, step, c.sequence + 1, reports);
      var b := AfterReports(a, c.deadline, reports);
      if (forall k | 0 <= k < |reports| :: FineReport(reports[k])) && !b.failed
      then !HostFailed(reports) && Reported(job, end, step, b, c.next, c.deadline, c.sequence + 1, reports)
      else HostFailed(reports) || end.failure.Some?
  {
    hide AfterReports, Deliver, FineReport, HostFailed, Reported;
    ReportedBody(job, d, step, reports);
  }

  lemma ReportedBody(job: Job, c: State, step: JobStep, reports: seq<TaskReport>)
    requires Open(job, c, step) && Indexed(c) && c.sequence >= 0 && c.playSeen
    requires c.ownerObserved == {} && c.results[c.active].hosts == map[]
    ensures
      var d := Deliver(job, c, step, c.sequence, reports);
      var a := AfterReports(AlarmOf(c), c.deadline, reports);
      if (forall k | 0 <= k < |reports| :: FineReport(reports[k])) && !a.failed then
        !HostFailed(reports) && Reported(job, d, step, a, c.next, c.deadline, c.sequence, reports)
      else HostFailed(reports) || d.failure.Some?
  {
    FineMeansNobodyFailed(reports);
    FreshIsUnharmed(c);
    hide AfterReports, Deliver, FineReport, Hosts, Owners, HostFailed, Unharmed, AlarmOf;
    if !HostFailed(reports) {
      DeliverExactly(job, c, step, reports);
      var d := Deliver(job, c, step, c.sequence, reports);
      hide Open;
      if (forall k | 0 <= k < |reports| :: FineReport(reports[k]))
        && !AfterReports(AlarmOf(c), c.deadline, reports).failed {
        FreshDelivered(job, c, d, step, reports);
      }
    }
  }

  lemma FreshIsUnharmed(c: State)
    requires 0 <= c.active < |c.results| && c.results[c.active].hosts == map[]
    ensures Unharmed(c.results[c.active])
  {
  }

  lemma FreshDelivered(job: Job, c: State, d: State, step: JobStep, reports: seq<TaskReport>)
    requires Delivered(job, c, d, step, Hosts(reports), Owners(reports), |reports|)
    requires c.results[c.active].hosts == map[] && c.ownerObserved == {}
    ensures Open(job, d, step) && d.next == c.next && d.deadline == c.deadline && d.playSeen == c.playSeen
    ensures d.sequence == c.sequence + |reports|
    ensures Unharmed(d.results[d.active]) && d.results[d.active].hosts.Keys == Hosts(reports)
      && d.ownerObserved == Owners(reports)
  {
    hide Hosts, Owners, Unharmed;
  }

  lemma FineMeansNobodyFailed(reports: seq<TaskReport>)
    ensures (forall k | 0 <= k < |reports| :: FineReport(reports[k])) ==> !HostFailed(reports)
  {
  }

  lemma EndAlarm(job: Job, c: State, w: World)
    requires Buildable(job.plan) && Inv(job, c) && c.active == c.next && c.active < |c.results|
    ensures
      var r := Handle(job, c, Envelope(job, End, job.plan.steps[c.next].id), w);
      r.error.None? ==> AlarmOf(r.state) == AlarmOf(c)
  {
  }

  lemma EndExactly(job: Job, m: Machine, i: nat, a: Alarm, w: PlayWorld)
    requires Buildable(job.plan) && i < |job.plan.steps| && m.status == Going
    requires Inv(job, m.controller) && Indexed(m.controller) && m.controller.active == m.controller.next == i
    requires m.roles == job.plan.steps[..i + 1] && AlarmOf(m.controller) == a && m.controller.sequence == m.emitted
    ensures
      var c := m.controller;
      var step := job.plan.steps[i];
      var hosts := c.results[i].hosts;
      var n := ExecPlay(job, m, GatePlay(EndStage, step.id), w);
      var b := After(a, c.deadline, w.gate.before);
      var good :=
        && !b.failed && c.playSeen && hosts != map[]
        && (forall h | h in hosts :: HostVerified(step, hosts[h], h in c.ownerObserved))
        && w.gate.world.bundleValid && w.gate.world.boundaryAccepts;
      if good then Clean(job, n, i + 1, b) else n.status == Stopped
  {
    var c := m.controller;
    hide Handle, Inv, Run, After, Buildable, HostVerified;
    Disturbed(job, c, w.gate.before);
    DisturbedKeeps(job, c, w.gate.before);
    var d := Run(job, c, w.gate.before);
    EndAnswer(job, d, w.gate.world);
    EndAlarm(job, d, w.gate.world);
    HandleKeeps(job, d, Envelope(job, End, job.plan.steps[i].id), w.gate.world);
  }

  lemma FrozenEnd(job: Job, m: Machine, id: string, w: PlayWorld)
    requires Indexed(m.controller) && m.status == Going && m.controller.failure.Some?
    ensures ExecPlay(job, m, GatePlay(EndStage, id), w).status == Stopped
  {
    hide Run;
    Disturbed(job, m.controller, w.gate.before);
  }

  /** No cancellation has come before the begin of the stage, and no failure until its end. */
  predicate CalmStage(step: JobStep, a: Alarm, tape: seq<PlayWorld>)
    requires |tape| == 3
  {
    !After(a, 0, tape[0].gate.before).cancelled && !AfterStage(a, step, tape).failed
  }

  lemma CalmBegin(step: JobStep, a: Alarm, tape: seq<PlayWorld>)
    requires |tape| == 3
    ensures
      var b := After(a, 0, tape[0].gate.before);
      var d := AfterBody(b, Deadline(step, tape[0]), tape[1]);
      (b.failed ==> d.failed) && (d.failed ==> AfterStage(a, step, tape).failed)
  {
    var deadline := Deadline(step, tape[0]);
    var b := After(a, 0, tape[0].gate.before);
    hide After, AfterReports;
    FailedStays(b, deadline, tape[1].gate.before);
    FailedStays(After(b, deadline, tape[1].gate.before), deadline, tape[1].start.before);
    FailedStaysReporting(After(After(b, deadline, tape[1].gate.before), deadline, tape[1].start.before), deadline,
      tape[1].reports);
    FailedStays(AfterBody(b, deadline, tape[1]), deadline, tape[2].gate.before);
  }

  /** One stage: it leaves the machine ready for the next exactly when it is good and calm, and
      stopped otherwise. */
  lemma ExactStage(job: Job, m: Machine, i: nat, a: Alarm, tape: seq<PlayWorld>)
    requires Buildable(job.plan) && i < |job.plan.steps| && Clean(job, m, i, a) && |tape| == 3 && Indexed(m.controller)
    ensures
      var step := job.plan.steps[i];
      var n := ExecStage(job, m, step, tape);
      if GoodStage(step, tape) && CalmStage(step, a, tape) then Clean(job, n, i + 1, AfterStage(a, step, tape))
      else n.status == Stopped
  {
    var step := job.plan.steps[i];
    hide Inv, ExecPlay, After, AfterBody, Buildable, Clean, Begun, FineReport;
    BeginExactly(job, m, i, a, tape[0]);
    CalmBegin(step, a, tape);
    var b := After(a, 0, tape[0].gate.before);
    var m1 := ExecPlay(job, m, GatePlay(BeginStage, step.id), tape[0]);
    if m1.status == Going {
      BegunStage(job, m1, i, b, tape);
    } else {
      StoppedPlay(job, m1, RolePlay(step), tape[1]);
      StoppedPlay(job, m1, GatePlay(EndStage, step.id), tape[2]);
    }
  }

  predicate GoodRest(step: JobStep, tape: seq<PlayWorld>)
    requires |tape| == 3
  {
    && GoodBody(tape[1]) && Hosts(tape[1].reports) != {}
    && (NeedsOwner(step) ==> Hosts(tape[1].reports) <= Owners(tape[1].reports))
    && tape[2].gate.world.bundleValid && tape[2].gate.world.boundaryAccepts
  }

  lemma BegunStage(job: Job, m: Machine, i: nat, b: Alarm, tape: seq<PlayWorld>)
    requires Buildable(job.plan) && i < |job.plan.steps| && |tape| == 3 && Indexed(m.controller)
    requires Begun(job, m, i, b, Deadline(job.plan.steps[i], tape[0]))
    ensures
      var step := job.plan.steps[i];
      var deadline := Deadline(step, tape[0]);
      var n := ExecPlay(job, ExecPlay(job, m, RolePlay(step), tape[1]), GatePlay(EndStage, step.id), tape[2]);
      var end := After(AfterBody(b, deadline, tape[1]), deadline, tape[2].gate.before);
      if GoodRest(step, tape) && !end.failed then Clean(job, n, i + 1, end) else n.status == Stopped
  {
    var step := job.plan.steps[i];
    var deadline := Deadline(step, tape[0]);
    var d := AfterBody(b, deadline, tape[1]);
    BodyExactly(job, m, i, b, deadline, tape[1]);
    RoleBody(job, m, i, tape[1]);
    FailedStays(d, deadline, tape[2].gate.before);
    hide Inv, ExecPlay, After, AfterBody, Buildable, Clean, FineReport, NeedsOwner;
    var m2 := ExecPlay(job, m, RolePlay(step), tape[1]);
    if m2.status == Going {
      if m2.controller.failure.Some? {
        FrozenEnd(job, m2, step.id, tape[2]);
      } else {
        EndExactly(job, m2, i, d, tape[2]);
        VerifiedHosts(step, m2.controller, i, tape[1].reports);
      }
    } else {
      StoppedPlay(job, m2, GatePlay(EndStage, step.id), tape[2]);
    }
  }

  lemma StoppedPlay(job: Job, m: Machine, play: Play, w: PlayWorld)
    requires Indexed(m.controller)
    ensures m.status != Going ==> ExecPlay(job, m, play, w) == m
  {
  }

  lemma VerifiedHosts(step: JobStep, c: State, i: nat, reports: seq<TaskReport>)
    requires i < |c.results| && Unharmed(c.results[i]) && c.results[i].hosts.Keys == Hosts(reports)
      && c.ownerObserved == Owners(reports)
    ensures
      var hosts := c.results[i].hosts;
      && (hosts != map[] <==> Hosts(reports) != {})
      && ((forall h | h in hosts :: HostVerified(step, hosts[h], h in c.ownerObserved)) <==>
        (NeedsOwner(step) ==> Hosts(reports) <= Owners(reports)))
  {
    var hosts := c.results[i].hosts;
    assert hosts.Keys == {} <==> hosts == map[];
  }

  // ---------------------------------------------------------------- recovery entries, exactly

  lemma RecoveryGateExactly(job: Job, m: Machine, i: nat, a: Alarm, boundary: Boundary, w: PlayWorld)
    requires Buildable(job.plan) && |job.plan.steps| <= i < |Stages(job)| && Clean(job, m, i, a)
    requires Indexed(m.controller)
    ensures
      var n := ExecPlay(job, m, GatePlay(boundary, Stages(job)[i].id), w);
      var b := After(a, 0, w.gate.before);
      && (if b.failed then n.status == Stopped else Clean(job, n, i, b))
      && (boundary == BeginStage && n.status == Going ==> !n.gateRun)
  {
    var c := m.controller;
    IdleDeadline(job, c);
    hide Handle, Inv, Run, After, Buildable;
    Disturbed(job, c, w.gate.before);
    NoDeadline(a, c.deadline, w.gate.before);
    DisturbedKeeps(job, c, w.gate.before);
    var d := Run(job, c, w.gate.before);
    var id := Stages(job)[i].id;
    assert Stages(job)[i] == job.plan.recovery[i - |job.plan.steps|];
    RecoveryAnswer(job, d, if boundary == BeginStage then Begin else End, id, w.gate.world);
  }

  lemma RecoveryBodyExactly(job: Job, m: Machine, i: nat, a: Alarm, w: PlayWorld)
    requires Buildable(job.plan) && |job.plan.steps| <= i < |Stages(job)| && Clean(job, m, i, a) && !m.gateRun
    requires Indexed(m.controller)
    ensures
      var n := ExecPlay(job, m, RolePlay(Stages(job)[i]), w);
      var b := After(a, 0, w.gate.before);
      if b.failed then n.status == Stopped else Clean(job, n, i, b)
  {
    var c := m.controller;
    IdleDeadline(job, c);
    hide Handle, Inv, Run, After, Buildable;
    Disturbed(job, c, w.gate.before);
    NoDeadline(a, c.deadline, w.gate.before);
    DisturbedKeeps(job, c, w.gate.before);
    CurrentHandled(job, Run(job, c, w.gate.before), Envelope(job, Current, Stages(job)[i].id), w.gate.world);
  }

  lemma RecoveryExactly(job: Job, m: Machine, i: nat, a: Alarm, tape: seq<PlayWorld>)
    requires Buildable(job.plan) && |job.plan.steps| <= i < |Stages(job)| && Clean(job, m, i, a) && |tape| == 3
    requires Indexed(m.controller)
    ensures
      var n := ExecStage(job, m, Stages(job)[i], tape);
      if AfterRecovery(a, tape).failed then n.status == Stopped else Clean(job, n, i + 1, AfterRecovery(a, tape))
  {
    hide ExecPlay, Inv, Buildable, Indexed, After;
    var step := Stages(job)[i];
    var b := After(a, 0, tape[0].gate.before);
    var d := After(b, 0, tape[1].gate.before);
    FailedStays(b, 0, tape[1].gate.before);
    FailedStays(d, 0, tape[2].gate.before);
    RecoveryGateExactly(job, m, i, a, BeginStage, tape[0]);
    var m1 := ExecPlay(job, m, GatePlay(BeginStage, step.id), tape[0]);
    if m1.status == Going {
      RecoveryBodyExactly(job, m1, i, b, tape[1]);
      var m2 := ExecPlay(job, m1, RolePlay(step), tape[1]);
      if m2.status == Going {
        RecoveryGateExactly(job, m2, i, d, EndStage, tape[2]);
      } else {
        StoppedPlay(job, m2, GatePlay(EndStage, step.id), tape[2]);
      }
    } else {
      StoppedPlay(job, m1, RolePlay(step), tape[1]);
      StoppedPlay(job, m1, GatePlay(EndStage, step.id), tape[2]);
    }
  }

  // ---------------------------------------------------------------- the whole job, exactly

  /** The alarm before stage i of the playbook. */
  function AlarmAt(job: Job, tape: seq<PlayWorld>, i: nat): Alarm
    requires |tape| == 3 * |Stages(job)| + 2 && i <= |Stages(job)|
  {
    if i == 0 then After(SILENCE, 0, tape[0].gate.before)
    else if i <= |job.plan.steps|
      then AfterStage(AlarmAt(job, tape, i - 1), job.plan.steps[i - 1], StageTape(tape, i - 1))
    else AfterRecovery(AlarmAt(job, tape, i - 1), StageTape(tape, i - 1))
  }

  /** Each stage among the first i of the playbook is calm; and good, unless it is a Recovery entry. */
  predicate SmoothUpto(job: Job, tape: seq<PlayWorld>, i: nat)
    requires |tape| == 3 * |Stages(job)| + 2 && i <= |Stages(job)|
  {
    && !AlarmAt(job, tape, i).failed
    && (i > 0 ==> SmoothUpto(job, tape, i - 1))
    && (0 < i <= |job.plan.steps| ==>
          var step, t := job.plan.steps[i - 1], StageTape(tape, i - 1);
          GoodStage(step, t) && CalmStage(step, AlarmAt(job, tape, i - 1), t))
  }

  lemma BootedExactly(job: Job, tape: seq<PlayWorld>)
    requires Buildable(job.plan) && |tape| == 3 * |Stages(job)| + 2
    ensures
      var m := MachineAt(job, tape, 0);
      if AlarmAt(job, tape, 0).failed then m.status == Stopped else Clean(job, m, 0, AlarmAt(job, tape, 0))
  {
    var before, w := tape[0].gate.before, tape[0].gate.world;
    assert Stages(job)[..0] == [] && JobExecution.Upto(job, 0) == [InitializePlay];
    assert tape[..1][..0] == [] && [InitializePlay][..0] == [];
    assert Exec(job, BOOT, [], []) == BOOT;
    assert MachineAt(job, tape, 0) == ExecPlay(job, BOOT, InitializePlay, tape[0]);
    StartInv(job);
    hide Inv, Run, After, Buildable;
    Disturbed(job, START, before);
    DisturbedKeeps(job, START, before);
    var d := Run(job, START, before);
    HandleKeeps(job, d, Envelope(job, Initialize, ""), w);
    assert job.plan.steps[..0] == [];
  }

  lemma {:induction false} ExactUpto(job: Job, tape: seq<PlayWorld>, i: nat)
    requires Buildable(job.plan) && |tape| == 3 * |Stages(job)| + 2 && i <= |Stages(job)|
    ensures
      var m := MachineAt(job, tape, i);
      if SmoothUpto(job, tape, i) then Clean(job, m, i, AlarmAt(job, tape, i)) else m.status == Stopped
  {
    hide ExecStage, Inv, GoodStage, MachineAt, StageTape, Clean, Buildable, After, AfterStage, AfterRecovery, CalmStage;
    if i == 0 {
      BootedExactly(job, tape);
    } else {
      ExactUpto(job, tape, i - 1);
      NextStage(job, tape, i - 1);
      var m, t, a := MachineAt(job, tape, i - 1), StageTape(tape, i - 1), AlarmAt(job, tape, i - 1);
      if m.status == Stopped {
        StoppedStays(job, m, Stages(job)[i - 1], t);
        StoppedIsNotClean(job, m, i - 1, a);
      } else if i - 1 < |job.plan.steps| {
        assert Stages(job)[i - 1] == job.plan.steps[i - 1];
        ExactStage(job, m, i - 1, a, t);
        CalmEnd(job.plan.steps[i - 1], a, t);
      } else {
        RecoveryExactly(job, m, i - 1, a, t);
      }
    }
  }

  lemma CalmEnd(step: JobStep, a: Alarm, t: seq<PlayWorld>)
    requires |t| == 3
    ensures CalmStage(step, a, t) ==> !AfterStage(a, step, t).failed
  {
  }

  lemma StoppedIsNotClean(job: Job, m: Machine, i: nat, a: Alarm)
    requires m.status == Stopped
    ensures !Clean(job, m, i, a)
  {
  }

  /** A compiled job completes if and only if every stage of plan.Steps is good, no cancellation has
      come by the begin of any stage, and no missed deadline is acted upon by the watchdog until the
      final play is answered. */
  lemma CompletesExactly(job: Job, tape: seq<PlayWorld>)
    requires Buildable(job.plan) && |tape| == 3 * |Stages(job)| + 2
    ensures
      var n := |Stages(job)|;
      Perform(job, tape).status == Completed <==>
        SmoothUpto(job, tape, n) && !After(AlarmAt(job, tape, n), 0, tape[|tape| - 1].gate.before).failed
  {
    var n := |Stages(job)|;
    hide MachineAt, Exec, Perform, GoodStage, StageTape, Inv, AlarmAt, SmoothUpto, After, Run, Buildable;
    ExactUpto(job, tape, n);
    PerformEnds(job, tape);
    var m := MachineAt(job, tape, n);
    if m.status == Going {
      StagesAreSafe(job, tape, n);
      FinishAnswer(job, m.controller, tape[|tape| - 1].gate);
      Disturbed(job, m.controller, tape[|tape| - 1].gate.before);
      IdleDeadline(job, m.controller);
      NoDeadline(AlarmOf(m.controller), m.controller.deadline, tape[|tape| - 1].gate.before);
    }
  }

  // ---------------------------------------------------------------- without disturbances

  predicate Quiet(w: PlayWorld)
  {
    w.gate.before == [] && w.start.before == [] && forall k | 0 <= k < |w.reports| :: w.reports[k].turn.before == []
  }

  lemma {:induction false} QuietReports(a: Alarm, deadline: int, reports: seq<TaskReport>)
    requires forall k | 0 <= k < |reports| :: reports[k].turn.before == []
    ensures AfterReports(a, deadline, reports) == a
    decreases |reports|
  {
    if reports != [] {
      QuietReports(a, deadline, reports[1..]);
    }
  }

  lemma QuietTriple(a: Alarm, step: JobStep, t: seq<PlayWorld>)
    requires |t| == 3 && Quiet(t[0]) && Quiet(t[1]) && Quiet(t[2])
    ensures AfterStage(a, step, t) == AfterRecovery(a, t) == After(a, 0, t[0].gate.before) == a
  {
    QuietReports(a, Deadline(step, t[0]), t[1].reports);
  }

  lemma {:induction false} QuietUpto(job: Job, tape: seq<PlayWorld>, i: nat)
    requires |tape| == 3 * |Stages(job)| + 2 && i <= |Stages(job)|
    requires forall k | 0 <= k < |tape| :: Quiet(tape[k])
    ensures AlarmAt(job, tape, i) == SILENCE
    ensures SmoothUpto(job, tape, i) <==> forall k | 0 <= k < i && k < |job.plan.steps| ::
      GoodStage(job.plan.steps[k], StageTape(tape, k))
  {
    hide Quiet, GoodStage, AfterStage, AfterRecovery;
    if i == 0 {
      assert Quiet(tape[0]);
      QuietGate(tape[0]);
    } else {
      QuietUpto(job, tape, i - 1);
      var t := StageTape(tape, i - 1);
      assert t[0] == tape[3 * i - 2] && t[1] == tape[3 * i - 1] && t[2] == tape[3 * i];
      QuietTriple(SILENCE, Stages(job)[i - 1], t);
      if i <= |job.plan.steps| {
        assert Stages(job)[i - 1] == job.plan.steps[i - 1];
      }
    }
  }

  lemma QuietGate(w: PlayWorld)
    requires Quiet(w)
    ensures forall a: Alarm :: After(a, 0, w.gate.before) == a
  {
  }

  /** When nothing disturbs it, a job completes if and only if every stage of plan.Steps is good; the
      Recovery entries and the initial and final plays have no say. */
  lemma CompletesExactlyWhenEveryStageIsGood(job: Job, tape: seq<PlayWorld>)
    requires Buildable(job.plan) && |tape| == 3 * |Stages(job)| + 2
    requires forall k | 0 <= k < |tape| :: Quiet(tape[k])
    ensures Perform(job, tape).status == Completed <==>
      forall k | 0 <= k < |job.plan.steps| :: GoodStage(job.plan.steps[k], StageTape(tape, k))
  {
    CompletesExactly(job, tape);
    hide Perform, AlarmAt, SmoothUpto, GoodStage, StageTape, Quiet, Buildable, After;
    QuietUpto(job, tape, |Stages(job)|);
    QuietGate(tape[|tape| - 1]);
  }
}
