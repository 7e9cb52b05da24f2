/** The controller that the gates and callbacks of a running job talk to
    (internal/ansible/job_runner.go): `Handle` is one message together with its reply, `Apply`
    adds the watchdog and outside cancellation, and `Run` is any sequence of them. */
module JobController {
  import opened JobPlan

  const SECOND := 1_000_000_000

  datatype Kind =
    | Heartbeat | Abort | Initialize | Finish | Current | Begin | End | PlayStart | Report | OtherKind(name: string)

  datatype TaskStatus = Ok | Failed | Unreachable | Skipped | UnknownStatus(name: string)

  datatype Event = Event(token: string, kind: Kind, stepId: string, sequence: int, host: string, task: string,
      status: TaskStatus, changed: bool, ownerTask: bool)

  datatype Recap = Recap(ok: nat, changed: nat, failed: nat, unreachable: nat, skipped: nat)

  datatype Refusal =
    | InvalidToken | Preflight | AlreadyInitialized | EndedEarly | AfterFinalStage | OutOfOrder | StageAlreadyActive
    | BundleInvalid | BoundaryRejected | ContextDone | MissingObservations | NoTargetHosts | TargetNotVerified
    | OutsideActiveStage | SequenceBroken | DuplicatePlay | InvalidStatus | NotRedacted | ObserverRejected
    | StageTimeout | PhaseFailed | Unacknowledged

  datatype Problem = TaskFailed(task: string) | HostUnreachable(host: string) | JobError(cause: Refusal)

  datatype StageStatus = Running | Succeeded | Aborted | Cancelled

  datatype StageResult = StageResult(stepId: string, status: StageStatus, error: Option<Problem>, hosts: map<string,
      Recap>)

  datatype Boundary = BeginStage | EndStage

  /** One OnBoundary callback, and whether it returned without an error. */
  datatype Call = Call(boundary: Boundary, step: JobStep, accepted: bool)

  /** What the world answers while one message is handled: bundle.Validate, OnBoundary, a
      cancellation arriving during OnBoundary, redaction, OnEvent, and the clock (ns) before
      and after OnBoundary. */
  datatype World = World(bundleValid: bool, boundaryAccepts: bool, interrupted: bool, redacts: bool,
      observerAccepts: bool, now: nat, later: nat)

  datatype Job = Job(plan: Plan, token: string, preparationTimeout: int)

  datatype State = State(
    initialized: bool,
    cancelled: bool,
    active: int,
    next: nat,
    sequence: int,
    playSeen: bool,
    ownerObserved: set<string>,
    results: seq<StageResult>,
    failure: Option<Refusal>,
    finished: bool,
    deadline: int,
    /** the watchdog has seen an expired deadline and is waiting for the lock */
    expired: bool,
    calls: seq<Call>,
    accepted: seq<Event>)

  datatype Reply = Reply(error: Option<Refusal>, done: bool, run: bool)

  datatype Answer = Answer(state: State, error: Option<Refusal>)

  const START := State(false, false, -1, 0, 0, false, {}, [], None, false, 0, false, [], [])

  // ---------------------------------------------------------------- one message

  /** States from which a run can go on. */
  predicate Indexed(s: State)
  {
    s.active < |s.results| && s.active <= s.next <= |s.results|
  }

  function Fail(s: State, cause: Refusal): State
  {
    s.(failure := if s.failure.None? then Some(cause) else s.failure, cancelled := true)
  }

  function Refuse(s: State, cause: Refusal): Answer
  {
    Answer(Fail(s, cause), Some(cause))
  }

  predicate NeedsOwner(step: JobStep)
  {
    step.action.Check? || step.acceptance
  }

  function Preparation(job: Job, step: JobStep): int
  {
    if job.preparationTimeout <= 0 then step.timeoutSeconds * SECOND else job.preparationTimeout
  }

  /** The stage is entered before its begin callback is asked. */
  function Entered(job: Job, s: State, w: World): State
    requires s.next < |job.plan.steps|
  {
    var step := job.plan.steps[s.next];
    s.(results := s.results + [StageResult(step.id, Running, None, map[])], active := s.next,
       deadline := w.now + Preparation(job, step), playSeen := false, ownerObserved := {},
       calls := s.calls + [Call(BeginStage, step, w.boundaryAccepts)])
  }

  function HandleBegin(job: Job, s: State, w: World): (r: Answer)
    requires s.next < |job.plan.steps|
    ensures Indexed(s) ==> Indexed(r.state)
  {
    if s.active >= 0 then Refuse(s, StageAlreadyActive)
    else if !w.bundleValid then Refuse(s, BundleInvalid)
    else
      var begun := Entered(job, s, w);
      if !w.boundaryAccepts then Refuse(begun, BoundaryRejected)
      else if s.cancelled || w.interrupted then Refuse(begun, ContextDone)
      else Answer(begun.(deadline := w.later + job.plan.steps[s.next].timeoutSeconds * SECOND), None)
  }

  predicate HostVerified(step: JobStep, recap: Recap, owned: bool)
  {
    (NeedsOwner(step) ==> owned) && recap.failed == 0 && recap.unreachable == 0
  }

  predicate AllVerified(step: JobStep, hosts: map<string, Recap>, owners: set<string>)
  {
    forall h | h in hosts :: HostVerified(step, hosts[h], h in owners)
  }

  /** The stage is done and the next one may begin. */
  function Advanced(job: Job, s: State): State
    requires 0 <= s.active < |s.results|
  {
    s.(results := s.results[s.active := s.results[s.active].(status := Succeeded)], active := -1, deadline := 0,
       next := s.next + 1, finished := s.finished || s.next + 1 == |job.plan.steps|)
  }

  function HandleEnd(job: Job, s: State, w: World): (r: Answer)
    requires s.next < |job.plan.steps| && s.active < |s.results|
    ensures Indexed(s) ==> Indexed(r.state)
  {
    var step := job.plan.steps[s.next];
    if s.active != s.next || !s.playSeen then Refuse(s, MissingObservations)
    else
      var result := s.results[s.active];
      if result.hosts == map[] then Refuse(s, NoTargetHosts)
      else if !AllVerified(step, result.hosts, s.ownerObserved) then Refuse(s, TargetNotVerified)
      else if !w.bundleValid then Refuse(s, BundleInvalid)
      else
        var called := s.(calls := s.calls + [Call(EndStage, step, w.boundaryAccepts)]);
        if !w.boundaryAccepts then Refuse(called, BoundaryRejected)
        else Answer(Advanced(job, called), None)
  }

  function RecapOf(hosts: map<string, Recap>, host: string): Recap
  {
    if host in hosts then hosts[host] else Recap(0, 0, 0, 0, 0)
  }

  function Count(r: Recap, e: Event): Recap
  {
    match e.status
    case Ok => r.(ok := r.ok + 1, changed := if e.changed then r.changed + 1 else r.changed)
    case Failed => r.(failed := r.failed + 1)
    case Unreachable => r.(unreachable := r.unreachable + 1)
    case Skipped => r.(skipped := r.skipped + 1)
    case UnknownStatus(_) => r
  }

  function Recorded(r: StageResult, e: Event): StageResult
  {
    r.(hosts := r.hosts[e.host := Count(RecapOf(r.hosts, e.host), e)],
       error := if e.status.Failed? then Some(TaskFailed(e.task)) else if e.status.Unreachable?
         then Some(HostUnreachable(e.host)) else r.error)
  }

  /** The state once a sequenced event is counted, before it is handed to OnEvent. */
  function Noted(s: State, e: Event): (t: State)
    requires 0 <= s.active < |s.results|
    ensures t.active == s.active && t.next == s.next && |t.results| == |s.results|
  {
    if e.kind.PlayStart? then s.(sequence := e.sequence, playSeen := true)
    else if e.kind.Report? then
      s.(sequence := e.sequence,
         results := s.results[s.active := Recorded(s.results[s.active], e)],
         ownerObserved := if e.status.Ok? && e.ownerTask then s.ownerObserved + {e.host} else s.ownerObserved)
    else s.(sequence := e.sequence)
  }

  function Publish(noted: State, e: Event, w: World): (r: Answer)
    ensures Indexed(noted) ==> Indexed(r.state)
  {
    if !w.redacts then Refuse(noted, NotRedacted)
    else if !w.observerAccepts then Refuse(noted, ObserverRejected)
    else Answer(noted.(accepted := noted.accepted + [e]), None)
  }

  function HandleObservation(s: State, e: Event, w: World): (r: Answer)
    requires s.active < |s.results|
    ensures Indexed(s) ==> Indexed(r.state)
  {
    if s.active != s.next then Refuse(s, OutsideActiveStage)
    else if e.sequence != s.sequence + 1 then Refuse(s, SequenceBroken)
    else if e.kind.PlayStart? && s.playSeen then Refuse(s.(sequence := e.sequence), DuplicatePlay)
    else if e.kind.Report? && e.status.UnknownStatus? then Refuse(s.(sequence := e.sequence), InvalidStatus)
    else Publish(Noted(s, e), e, w)
  }

  predicate IsRecoveryId(plan: Plan, id: string)
  {
    exists k | 0 <= k < |plan.recovery| :: plan.recovery[k].id == id
  }

  predicate ForRecovery(plan: Plan, s: State, e: Event)
  {
    && s.active < 0
    && (s.next >= |plan.steps| || e.stepId != plan.steps[s.next].id)
    && IsRecoveryId(plan, e.stepId)
  }

  function HandleStage(job: Job, s: State, e: Event, w: World): (r: Answer)
    requires s.active < |s.results|
    ensures Indexed(s) ==> Indexed(r.state)
  {
    var steps := job.plan.steps;
    if (e.kind.Begin? || e.kind.End?) && ForRecovery(job.plan, s, e) then Answer(s, None)
    else if s.next >= |steps| then Refuse(s, AfterFinalStage)
    else if e.stepId != steps[s.next].id then Refuse(s, OutOfOrder)
    else if e.kind.Begin? then HandleBegin(job, s, w)
    else if e.kind.End? then HandleEnd(job, s, w)
    else HandleObservation(s, e, w)
  }

  function Handle(job: Job, s: State, e: Event, w: World): (r: Answer)
    requires s.active < |s.results|
    ensures Indexed(s) ==> Indexed(r.state)
  {
    if e.token != job.token then Answer(s, Some(InvalidToken))
    else if e.kind.Heartbeat? then Answer(s, if s.cancelled then Some(ContextDone) else None)
    else if s.failure.Some? then Answer(s, s.failure)
    else if e.kind.Abort? then Refuse(s, Preflight)
    else if e.kind.Initialize? then
      if s.initialized || s.next != 0 || s.active >= 0 then Refuse(s, AlreadyInitialized)
        else Answer(s.(initialized := true), None)
    else if e.kind.Finish? then
      if !s.finished then Refuse(s, EndedEarly) else Answer(s, None)
    else if e.kind.Current? then Answer(s, None)
    else HandleStage(job, s, e, w)
  }

  /** The `run` field of the reply (job_runner.go:363-371). */
  predicate Runs(job: Job, s: State, e: Event)
  {
    && (e.kind.Begin? || e.kind.Current?)
    && s.active >= 0 && s.next < |job.plan.steps|
    && job.plan.steps[s.next].id == e.stepId
  }

  function ReplyTo(job: Job, after: State, e: Event, error: Option<Refusal>): Reply
  {
    Reply(error, after.finished, error.None? && Runs(job, after, e))
  }

  // ---------------------------------------------------------------- whole runs

  /** Everything that can happen to the controller: a message, a watchdog tick, the watchdog
      obtaining the lock after an expired deadline, and cancellation of the parent context. */
  datatype Move = Message(event: Event, world: World) | Tick(now: int) | Expire | Cancel

  function Apply(job: Job, s: State, m: Move): (t: State)
    requires Indexed(s)
    ensures Indexed(t)
  {
    match m
    case Message(e, w) => Handle(job, s, e, w).state
    case Tick(now) => if s.deadline > 0 && now > s.deadline then s.(cancelled := true, expired := true) else s
    case Expire => if s.expired then Fail(s, StageTimeout).(expired := false) else s
    case Cancel => s.(cancelled := true)
  }

  function Run(job: Job, s: State, moves: seq<Move>): (t: State)
    requires Indexed(s)
    ensures Indexed(t)
    decreases |moves|
  {
    if moves == [] then s
    else
      Run(job, Apply(job, s, moves[0]), moves[1..])
  }

  // ---------------------------------------------------------------- the end of the job

  /** What RunBundle reports. */
  datatype Outcome = Outcome(successful: bool, error: Option<Refusal>, steps: seq<StageResult>)

  function Verdict(job: Job, s: State, phaseError: Option<Refusal>): Option<Refusal>
  {
    if s.failure.Some? then s.failure
    else if phaseError.Some? then phaseError
    else if s.next != |job.plan.steps| then Some(Unacknowledged)
    else None
  }

  /** A stage that was still active when the job ended. */
  function Interrupted(r: StageResult, error: Option<Refusal>, parentCancelled: bool): StageResult
  {
    r.(status := if parentCancelled then Cancelled else Aborted,
       error := if error.Some? then Some(JobError(error.value)) else r.error)
  }

  /** The deferred closing of RunBundle (job_runner.go:424-458): the controller's failure wins,
      a stage still active is marked failed or cancelled. */
  function Close(job: Job, s: State, phaseError: Option<Refusal>, parentCancelled: bool): Outcome
    requires Indexed(s)
  {
    var error := Verdict(job, s, phaseError);
    var steps :=
      if s.active >= 0 then s.results[s.active := Interrupted(s.results[s.active], error, parentCancelled)]
      else s.results;
    Outcome(error.None?, error, steps)
  }

  // ---------------------------------------------------------------- the controller object

  class Controller {
    const job: Job
    var initialized: bool
    var cancelled: bool
    var active: int
    var next: nat
    var sequence: int
    var playSeen: bool
    var ownerObserved: set<string>
    var results: seq<StageResult>
    var failure: Option<Refusal>
    var finished: bool
    var deadline: int
    var expired: bool
    ghost var calls: seq<Call>
    ghost var accepted: seq<Event>

    ghost function Model(): State
      reads this
    {
      State(initialized, cancelled, active, next, sequence, playSeen, ownerObserved, results, failure, finished,
        deadline, expired, calls, accepted)
    }

    constructor (job: Job)
      ensures this.job == job && Model() == START
    {
      this.job := job;
      initialized, cancelled, active, next, sequence, playSeen := false, false, -1, 0, 0, false;
      ownerObserved, results, failure, finished, deadline, expired := {}, [], None, false, 0, false;
      calls, accepted := [], [];
    }

    method FailWith(cause: Refusal) returns (error: Option<Refusal>)
      modifies this`failure, this`cancelled
      ensures Answer(Model(), error) == Refuse(old(Model()), cause)
    {
      if failure == None {
        failure := Some(cause);
      }
      cancelled := true;
      error := Some(cause);
    }

    method PreparationTimeout(step: JobStep) returns (timeout: int)
      ensures timeout == Preparation(job, step)
    {
      timeout := job.preparationTimeout;
      if timeout <= 0 {
        timeout := step.timeoutSeconds * SECOND;
      }
    }

    method EnterStep(w: World)
      requires next < |job.plan.steps|
      modifies this
      ensures Model() == Entered(job, old(Model()), w)
    {
      hide Preparation;
      var step := job.plan.steps[next];
      results := results + [StageResult(step.id, Running, None, map[])];
      active := next;
      var timeout := PreparationTimeout(step);
      deadline := w.now + timeout;
      playSeen := false;
      ownerObserved := {};
      calls := calls + [Call(BeginStage, step, w.boundaryAccepts)];
    }

    method BeginStep(w: World) returns (error: Option<Refusal>)
      requires next < |job.plan.steps| && Indexed(Model())
      modifies this
      ensures Answer(Model(), error) == HandleBegin(job, old(Model()), w)
    {
      if active >= 0 {
        error := FailWith(StageAlreadyActive);
        return;
      }
      if !w.bundleValid {
        error := FailWith(BundleInvalid);
        return;
      }
      var step := job.plan.steps[next];
      EnterStep(w);
      hide Entered;
      if !w.boundaryAccepts {
        error := FailWith(BoundaryRejected);
        return;
      }
      if cancelled || w.interrupted {
        error := FailWith(ContextDone);
        return;
      }
      deadline := w.later + step.timeoutSeconds * SECOND;
      error := None;
    }

    method HostsVerified(step: JobStep, hosts: map<string, Recap>) returns (ok: bool)
      ensures ok <==> AllVerified(step, hosts, ownerObserved)
    {
      var unchecked := hosts.Keys;
      while unchecked != {}
        invariant unchecked <= hosts.Keys
        invariant forall h | h in hosts && h !in unchecked :: HostVerified(step, hosts[h], h in ownerObserved)
      {
        var host :| host in unchecked;
        var recap := hosts[host];
        if (step.action.Check? || step.acceptance) && host !in ownerObserved {
          return false;
        }
        if recap.failed > 0 || recap.unreachable > 0 {
          return false;
        }
        unchecked := unchecked - {host};
      }
      return true;
    }

    method EndStep(w: World) returns (error: Option<Refusal>)
      requires next < |job.plan.steps| && Indexed(Model())
      modifies this
      ensures Answer(Model(), error) == HandleEnd(job, old(Model()), w)
    {
      hide AllVerified, Advanced;
      var step := job.plan.steps[next];
      if active != next || !playSeen {
        error := FailWith(MissingObservations);
        return;
      }
      var result := results[active];
      if result.hosts == map[] {
        error := FailWith(NoTargetHosts);
        return;
      }
      var verified := HostsVerified(step, result.hosts);
      if !verified {
        error := FailWith(TargetNotVerified);
        return;
      }
      if !w.bundleValid {
        error := FailWith(BundleInvalid);
        return;
      }
      calls := calls + [Call(EndStage, step, w.boundaryAccepts)];
      if !w.boundaryAccepts {
        error := FailWith(BoundaryRejected);
        return;
      }
      AdvanceStep();
      error := None;
    }

    method AdvanceStep()
      requires 0 <= active < |results|
      modifies this`results, this`active, this`deadline, this`next, this`finished
      ensures Model() == Advanced(job, old(Model()))
    {
      results := results[active := results[active].(status := Succeeded)];
      active := -1;
      deadline := 0;
      next := next + 1;
      if next == |job.plan.steps| {
        finished := true;
      }
    }

    method NoteEvent(e: Event)
      requires 0 <= active < |results|
      requires e.kind.PlayStart? ==> !playSeen
      modifies this`sequence, this`playSeen, this`ownerObserved, this`results
      ensures Model() == Noted(old(Model()), e)
    {
      sequence := e.sequence;
      if e.kind.PlayStart? {
        playSeen := true;
      }
      if e.kind.Report? {
        if e.status.Ok? && e.ownerTask {
          ownerObserved := ownerObserved + {e.host};
        }
        results := results[active := Recorded(results[active], e)];
      }
    }

    method Observe(e: Event, w: World) returns (error: Option<Refusal>)
      requires Indexed(Model())
      modifies this
      ensures Answer(Model(), error) == HandleObservation(old(Model()), e, w)
    {
      if active != next {
        error := FailWith(OutsideActiveStage);
        return;
      }
      if e.sequence != sequence + 1 {
        error := FailWith(SequenceBroken);
        return;
      }
      if e.kind.PlayStart? && playSeen {
        sequence := e.sequence;
        error := FailWith(DuplicatePlay);
        return;
      }
      if e.kind.Report? && e.status.UnknownStatus? {
        sequence := e.sequence;
        error := FailWith(InvalidStatus);
        return;
      }
      NoteEvent(e);
      hide Noted;
      if !w.redacts {
        error := FailWith(NotRedacted);
        return;
      }
      if !w.observerAccepts {
        error := FailWith(ObserverRejected);
        return;
      }
      accepted := accepted + [e];
      error := None;
    }

    method HandleStageMessage(e: Event, w: World) returns (error: Option<Refusal>)
      requires Indexed(Model())
      modifies this
      ensures Answer(Model(), error) == HandleStage(job, old(Model()), e, w)
    {
      var steps := job.plan.steps;
      error := None;
      if e.kind.Begin? || e.kind.End? {
        if active < 0 && (next >= |steps| || e.stepId != steps[next].id) && IsRecoveryId(job.plan, e.stepId) {
          return;
        }
      }
      if next >= |steps| {
        error := FailWith(AfterFinalStage);
      } else if e.stepId != steps[next].id {
        error := FailWith(OutOfOrder);
      } else if e.kind.Begin? {
        error := BeginStep(w);
      } else if e.kind.End? {
        error := EndStep(w);
      } else {
        error := Observe(e, w);
      }
    }

    method HandleEvent(e: Event, w: World) returns (error: Option<Refusal>)
      requires Indexed(Model())
      modifies this
      ensures Answer(Model(), error) == Handle(job, old(Model()), e, w)
    {
      error := None;
      if e.token != job.token {
        error := Some(InvalidToken);
      } else if e.kind.Heartbeat? {
        error := if cancelled then Some(ContextDone) else None;
      } else if failure != None {
        error := failure;
      } else if e.kind.Abort? {
        error := FailWith(Preflight);
      } else if e.kind.Initialize? {
        if initialized || next != 0 || active >= 0 {
          error := FailWith(AlreadyInitialized);
        } else {
          initialized := true;
        }
      } else if e.kind.Finish? {
        if !finished {
          error := FailWith(EndedEarly);
        }
      } else if !e.kind.Current? {
        error := HandleStageMessage(e, w);
      }
    }

    /** One connection: `handle` under the lock, then the reply. */
    method HandleMessage(e: Event, w: World) returns (reply: Reply)
      requires Indexed(Model())
      modifies this
      ensures Indexed(Model())
      ensures var a := Handle(job, old(Model()), e, w);
        Model() == a.state && reply == ReplyTo(job, a.state, e, a.error)
    {
      var error := HandleEvent(e, w);
      var run := false;
      if error == None && (e.kind.Begin? || e.kind.Current?) && active >= 0 && next < |job.plan.steps| {
        run := job.plan.steps[next].id == e.stepId;
      }
      reply := Reply(error, finished, run);
    }

    method WatchdogTick(now: int)
      requires Indexed(Model())
      modifies this`cancelled, this`expired
      ensures Model() == Apply(job, old(Model()), Tick(now))
    {
      if deadline > 0 && now > deadline {
        cancelled := true;
        expired := true;
      }
    }

    method WatchdogFail()
      requires Indexed(Model())
      modifies this`failure, this`cancelled, this`expired
      ensures Model() == Apply(job, old(Model()), Expire)
    {
      if expired {
        var _ := FailWith(StageTimeout);
        expired := false;
      }
    }

    /** The controller's failure wins; a job that ended early has failed as well. */
    method Decide(phaseError: Option<Refusal>) returns (error: Option<Refusal>)
      ensures error == Verdict(job, Model(), phaseError)
    {
      error := phaseError;
      if failure != None {
        error := failure;
      }
      if error == None && next != |job.plan.steps| {
        error := Some(Unacknowledged);
      }
    }

    method CloseStage(result: StageResult, error: Option<Refusal>, parentCancelled: bool) returns (closed: StageResult)
      ensures closed == Interrupted(result, error, parentCancelled)
    {
      closed := result.(status := Aborted);
      if error.Some? {
        closed := closed.(error := Some(JobError(error.value)));
      }
      if parentCancelled {
        closed := closed.(status := Cancelled);
      }
    }

    method Finish(phaseError: Option<Refusal>, parentCancelled: bool) returns (outcome: Outcome)
      requires Indexed(Model())
      modifies this`results
      ensures outcome == Close(job, old(Model()), phaseError, parentCancelled)
      ensures Model() == old(Model()).(results := outcome.steps)
    {
      hide Verdict, Interrupted;
      var error := Decide(phaseError);
      if active >= 0 {
        var current := CloseStage(results[active], error, parentCancelled);
        results := results[active := current];
      }
      outcome := Outcome(error == None, error, results);
    }
  }
}
