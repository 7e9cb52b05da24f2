/** The playbook that writeJobFiles compiles a plan into (internal/ansible/job.go:331-361), and
    an interpreter that plays it against the controller. */
module PlayCompiler {
  import opened JobPlan
  import opened JobController

  // ---------------------------------------------------------------- the compiler

  datatype Play = InitializePlay | GatePlay(boundary: Boundary, stepId: string) | RolePlay(step: JobStep) | FinishPlay

  function StagePlays(step: JobStep): seq<Play>
  {
    [GatePlay(BeginStage, step.id), RolePlay(step), GatePlay(EndStage, step.id)]
  }

  function AllStages(steps: seq<JobStep>): (plays: seq<Play>)
    ensures |plays| == 3 * |steps|
    decreases |steps|
  {
    if steps == [] then [] else AllStages(steps[..|steps| - 1]) + StagePlays(steps[|steps| - 1])
  }

  function Compile(plan: Plan): seq<Play>
  {
    [InitializePlay] + AllStages(plan.steps + plan.recovery) + [FinishPlay]
  }

  method WriteJobFiles(plan: Plan) returns (plays: seq<Play>)
    ensures plays == Compile(plan)
  {
    plays := [InitializePlay];
    var all := plan.steps + plan.recovery;
    for i := 0 to |all|
      invariant plays == [InitializePlay] + AllStages(all[..i])
    {
      var step := all[i];
      assert all[..i + 1][..i] == all[..i];
      plays := plays + [GatePlay(BeginStage, step.id)];
      plays := plays + [RolePlay(step)];
      plays := plays + [GatePlay(EndStage, step.id)];
    }
    assert all[..|all|] == all;
    plays := plays + [FinishPlay];
  }

  // ---------------------------------------------------------------- the interpreter

  /** What may happen besides messages: watchdog ticks, the watchdog's failure, cancellation. */
  type Disturbance = m: Move | !m.Message? witness Expire

  /** What happens before one message is handled, and what the world answers meanwhile. */
  datatype Turn = Turn(before: seq<Disturbance>, world: World)

  /** One callback of cf_events while a role runs: a task result, or any other task event. */
  datatype TaskReport = TaskReport(turn: Turn, isResult: bool, host: string, task: string, status: TaskStatus,
      changed: bool, ownerTask: bool)

  /** The outside world during one play. A gate play sends one message (`gate`); a role play
      first asks for the current stage (`gate`), then announces itself (`start`) and reports. */
  datatype PlayWorld = PlayWorld(gate: Turn, start: Turn, reports: seq<TaskReport>)

  datatype Status = Going | Stopped | Completed

  /** `gateRun` is the registered cf_gate_result.run, `emitted` the plugin's own event counter,
      `roles` the roles that were executed. */
  datatype Machine = Machine(controller: State, gateRun: bool, emitted: nat, roles: seq<JobStep>, status: Status)

  function Envelope(job: Job, kind: Kind, stepId: string): Event
  {
    Event(job.token, kind, stepId, 0, "", "", Skipped, false, false)
  }

  function Send(job: Job, c: State, e: Event, turn: Turn): (a: Answer)
    requires Indexed(c)
    ensures Indexed(a.state)
  {
    Handle(job, Run(job, c, turn.before), e, turn.world)
  }

  function ReportEvent(job: Job, step: JobStep, sequence: int, r: TaskReport): Event
  {
    Event(job.token, if r.isResult then Report else OtherKind("task"), step.id, sequence, r.host, r.task, r.status,
      r.changed, r.ownerTask)
  }

  /** A rejected event raises in the callback, which Ansible turns into a warning: the role goes on. */
  function Deliver(job: Job, c: State, step: JobStep, emitted: nat, reports: seq<TaskReport>): (d: State)
    requires Indexed(c)
    ensures Indexed(d)
    decreases |reports|
  {
    if reports == [] then c
    else Deliver(job, Send(job, c, ReportEvent(job, step, emitted + 1, reports[0]), reports[0].turn).state, step,
      emitted + 1, reports[1..])
  }

  predicate HostFailed(reports: seq<TaskReport>)
  {
    exists k | 0 <= k < |reports| ::
      reports[k].isResult && (reports[k].status.Failed? || reports[k].status.Unreachable?)
  }

  function ExecGate(job: Job, m: Machine, boundary: Boundary, stepId: string, w: PlayWorld): (n: Machine)
    requires Indexed(m.controller)
    ensures Indexed(n.controller)
  {
    var e := Envelope(job, if boundary == BeginStage then Begin else End, stepId);
    var a := Send(job, m.controller, e, w.gate);
    m.(controller := a.state,
       gateRun := if boundary == BeginStage && a.error.None? then ReplyTo(job, a.state, e, a.error).run else m.gateRun,
       status := if a.error.None? then m.status else Stopped)
  }

  function ExecRole(job: Job, m: Machine, step: JobStep, w: PlayWorld): (n: Machine)
    requires Indexed(m.controller)
    ensures Indexed(n.controller)
  {
    var e := Envelope(job, Current, step.id);
    var a := Send(job, m.controller, e, w.gate);
    if a.error.Some? then m.(controller := a.state, status := Stopped)
    else if !ReplyTo(job, a.state, e, a.error).run then
      m.(controller := a.state, roles := if m.gateRun then m.roles + [step] else m.roles,
         status := if m.gateRun && HostFailed(w.reports) then Stopped else m.status)
    else
      var started := Send(job, a.state, Envelope(job, PlayStart, step.id).(sequence := m.emitted + 1), w.start).state;
      if !m.gateRun then m.(controller := started, emitted := m.emitted + 1)
      else
        m.(controller := Deliver(job, started, step, m.emitted + 1, w.reports),
           emitted := m.emitted + 1 + |w.reports|,
           roles := m.roles + [step],
           status := if HostFailed(w.reports) then Stopped else m.status)
  }

  function ExecPlay(job: Job, m: Machine, play: Play, w: PlayWorld): (n: Machine)
    requires Indexed(m.controller)
    ensures Indexed(n.controller)
  {
    if m.status != Going then m
    else
      match play
      case GatePlay(boundary, id) => ExecGate(job, m, boundary, id, w)
      case RolePlay(step) => ExecRole(job, m, step, w)
      case InitializePlay =>
        var a := Send(job, m.controller, Envelope(job, Initialize, ""), w.gate);
        m.(controller := a.state, status := if a.error.None? then Going else Stopped)
      case FinishPlay =>
        var a := Send(job, m.controller, Envelope(job, Finish, ""), w.gate);
        m.(controller := a.state, status := if a.error.None? then Completed else Stopped)
  }

  function Exec(job: Job, m: Machine, plays: seq<Play>, tape: seq<PlayWorld>): (n: Machine)
    requires Indexed(m.controller) && |tape| == |plays|
    ensures Indexed(n.controller)
    decreases |plays|
  {
    if plays == [] then m
    else ExecPlay(job, Exec(job, m, plays[..|plays| - 1], tape[..|tape| - 1]), plays[|plays| - 1], tape[|tape| - 1])
  }

  const BOOT := Machine(START, false, 0, [], Going)

  /** Playing the compiled playbook of a plan from the start. */
  function Perform(job: Job, tape: seq<PlayWorld>): (n: Machine)
    requires |tape| == 3 * |job.plan.steps + job.plan.recovery| + 2
    ensures Indexed(n.controller)
  {
    Exec(job, BOOT, Compile(job.plan), tape)
  }
}
