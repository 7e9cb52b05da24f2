/** For every reason, exactly when the controller refuses a message for it, and what it then leaves
    behind (internal/ansible/job_runner.go:99-270, 352-371). */
module JobRefusals {
  import opened JobPlan
  import opened JobController

  // ---------------------------------------------------------------- the situations of a message

  /** A message of the job while nothing has failed. */
  predicate Heard(job: Job, s: State, e: Event)
  {
    e.token == job.token && s.failure == None
  }

  /** A gate of a Recovery entry: between stages, not the next step, and known as a recovery. */
  ghost predicate RecoveryGate(job: Job, s: State, e: Event)
  {
    && (e.kind == Begin || e.kind == End) && s.active < 0
    && (exists r :: r in job.plan.recovery && r.id == e.stepId)
    && !(s.next < |job.plan.steps| && job.plan.steps[s.next].id == e.stepId)
  }

  /** A message about a stage. */
  ghost predicate AboutStage(job: Job, s: State, e: Event)
  {
    && Heard(job, s, e) && !RecoveryGate(job, s, e)
    && e.kind != Heartbeat && e.kind != Abort && e.kind != Initialize && e.kind != JobController.Finish
      && e.kind != Current
  }

  /** It names the next step. */
  ghost predicate InOrder(job: Job, s: State, e: Event)
  {
    AboutStage(job, s, e) && s.next < |job.plan.steps| && e.stepId == job.plan.steps[s.next].id
  }

  ghost predicate Entering(job: Job, s: State, e: Event)
  {
    InOrder(job, s, e) && e.kind == Begin && s.active < 0
  }

  /** The end of the stage at work, which has announced itself. */
  ghost predicate Ending(job: Job, s: State, e: Event)
  {
    InOrder(job, s, e) && e.kind == End && s.active == s.next && s.playSeen
  }

  /** Some host failed, could not be reached, or, where an owner task is demanded, ran none. */
  ghost predicate SomeHostUnverified(step: JobStep, hosts: map<string, Recap>, owners: set<string>)
  {
    exists h :: h in hosts
      && (hosts[h].failed != 0 || hosts[h].unreachable != 0
        || ((step.action == Check || step.acceptance) && h !in owners))
  }

  ghost predicate EndingVerified(job: Job, s: State, e: Event)
  {
    && Ending(job, s, e) && s.next < |s.results| && s.results[s.next].hosts != map[]
    && !SomeHostUnverified(job.plan.steps[s.next], s.results[s.next].hosts, s.ownerObserved)
  }

  ghost predicate Observing(job: Job, s: State, e: Event)
  {
    InOrder(job, s, e) && e.kind != Begin && e.kind != End && s.active == s.next
  }

  ghost predicate Sequenced(job: Job, s: State, e: Event)
  {
    Observing(job, s, e) && e.sequence == s.sequence + 1
  }

  predicate UnknownResult(e: Event)
  {
    e.kind == Report && e.status != Ok && e.status != Failed && e.status != Unreachable && e.status != Skipped
  }

  ghost predicate Publishable(job: Job, s: State, e: Event)
  {
    Sequenced(job, s, e) && !(e.kind == PlayStart && s.playSeen) && !UnknownResult(e)
  }

  // ---------------------------------------------------------------- the reasons

  ghost predicate RefusedFor(job: Job, s: State, e: Event, w: World, cause: Refusal)
  {
    match cause
    case InvalidToken => e.token != job.token
    case Preflight => Heard(job, s, e) && e.kind == Abort
    case AlreadyInitialized =>
      Heard(job, s, e) && e.kind == Initialize && (s.initialized || s.next != 0 || s.active >= 0)
    case EndedEarly => Heard(job, s, e) && e.kind == JobController.Finish && !s.finished
    case AfterFinalStage => AboutStage(job, s, e) && s.next >= |job.plan.steps|
    case OutOfOrder => AboutStage(job, s, e) && s.next < |job.plan.steps| && e.stepId != job.plan.steps[s.next].id
    case StageAlreadyActive => InOrder(job, s, e) && e.kind == Begin && s.active >= 0
    case BundleInvalid => (Entering(job, s, e) || EndingVerified(job, s, e)) && !w.bundleValid
    case BoundaryRejected => (Entering(job, s, e) || EndingVerified(job, s, e)) && w.bundleValid && !w.boundaryAccepts
    case ContextDone =>
      || (e.token == job.token && e.kind == Heartbeat && s.cancelled)
      || (Entering(job, s, e) && w.bundleValid && w.boundaryAccepts && (s.cancelled || w.interrupted))
    case MissingObservations => InOrder(job, s, e) && e.kind == End && !(s.active == s.next && s.playSeen)
    case NoTargetHosts => Ending(job, s, e) && s.next < |s.results| && s.results[s.next].hosts == map[]
    case TargetNotVerified =>
      && Ending(job, s, e) && s.next < |s.results|
      && SomeHostUnverified(job.plan.steps[s.next], s.results[s.next].hosts, s.ownerObserved)
    case OutsideActiveStage => InOrder(job, s, e) && e.kind != Begin && e.kind != End && s.active != s.next
    case SequenceBroken => Observing(job, s, e) && e.sequence != s.sequence + 1
    case DuplicatePlay => Sequenced(job, s, e) && e.kind == PlayStart && s.playSeen
    case InvalidStatus => Sequenced(job, s, e) && UnknownResult(e)
    case NotRedacted => Publishable(job, s, e) && !w.redacts
    case ObserverRejected => Publishable(job, s, e) && w.redacts && !w.observerAccepts
    case _ => false
  }

  /** The failure on record, which answers everything but a heartbeat. */
  predicate AlreadyFailed(job: Job, s: State, e: Event)
  {
    e.token == job.token && e.kind != Heartbeat && s.failure != None
  }

  lemma RecoveryGateIs(job: Job, s: State, e: Event)
    ensures RecoveryGate(job, s, e) <==> (e.kind.Begin? || e.kind.End?) && ForRecovery(job.plan, s, e)
  {
    assert IsRecoveryId(job.plan, e.stepId) <==> exists r :: r in job.plan.recovery && r.id == e.stepId;
  }

  lemma UnverifiedIs(step: JobStep, hosts: map<string, Recap>, owners: set<string>)
    ensures SomeHostUnverified(step, hosts, owners) <==> !AllVerified(step, hosts, owners)
    ensures hosts == map[] ==> !SomeHostUnverified(step, hosts, owners)
  {
  }

  lemma BeginRefusals(job: Job, s: State, e: Event, w: World, cause: Refusal)
    requires Indexed(s) && InOrder(job, s, e) && e.kind == Begin
    ensures HandleBegin(job, s, w).error == Some(cause) <==> RefusedFor(job, s, e, w, cause)
  {
    hide Entered, RecoveryGate, SomeHostUnverified;
  }

  lemma EndRefusals(job: Job, s: State, e: Event, w: World, cause: Refusal)
    requires Indexed(s) && InOrder(job, s, e) && e.kind == End
    ensures HandleEnd(job, s, w).error == Some(cause) <==> RefusedFor(job, s, e, w, cause)
  {
    hide RecoveryGate, Advanced, AllVerified, SomeHostUnverified;
    if s.active == s.next {
      UnverifiedIs(job.plan.steps[s.next], s.results[s.next].hosts, s.ownerObserved);
    }
  }

  lemma ObservationRefusals(job: Job, s: State, e: Event, w: World, cause: Refusal)
    requires Indexed(s) && InOrder(job, s, e) && e.kind != Begin && e.kind != End
    ensures HandleObservation(s, e, w).error == Some(cause) <==> RefusedFor(job, s, e, w, cause)
  {
    hide RecoveryGate, SomeHostUnverified, Noted;
    UnknownIs(e);
    hide UnknownResult;
  }

  lemma UnknownIs(e: Event)
    ensures UnknownResult(e) <==> e.kind.Report? && e.status.UnknownStatus?
  {
  }

  lemma StageRefusals(job: Job, s: State, e: Event, w: World, cause: Refusal)
    requires Indexed(s) && AboutStage(job, s, e)
    ensures HandleStage(job, s, e, w).error == Some(cause) <==> RefusedFor(job, s, e, w, cause)
  {
    RecoveryGateIs(job, s, e);
    if InOrder(job, s, e) {
      if e.kind == Begin {
        BeginRefusals(job, s, e, w, cause);
      } else if e.kind == End {
        EndRefusals(job, s, e, w, cause);
      } else {
        ObservationRefusals(job, s, e, w, cause);
      }
    }
    hide RecoveryGate, ForRecovery, SomeHostUnverified, HandleBegin, HandleEnd, HandleObservation;
  }

  /** A message is refused for a reason exactly when that reason applies; once something has failed,
      everything but heartbeats is answered with it. */
  lemma RefusalsExactly(job: Job, s: State, e: Event, w: World)
    requires Indexed(s)
    ensures
      var error := Handle(job, s, e, w).error;
      if AlreadyFailed(job, s, e) then error == s.failure
      else forall cause :: error == Some(cause) <==> RefusedFor(job, s, e, w, cause)
  {
    RecoveryGateIs(job, s, e);
    if !AlreadyFailed(job, s, e) {
      forall cause: Refusal
        ensures Handle(job, s, e, w).error == Some(cause) <==> RefusedFor(job, s, e, w, cause)
      {
        if AboutStage(job, s, e) {
          StageRefusals(job, s, e, w, cause);
        } else {
          OtherRefusals(job, s, e, w, cause);
        }
        hide HandleStage;
      }
    }
  }

  lemma OtherRefusals(job: Job, s: State, e: Event, w: World, cause: Refusal)
    requires Indexed(s) && !AboutStage(job, s, e) && !AlreadyFailed(job, s, e)
    ensures Handle(job, s, e, w).error == Some(cause) <==> RefusedFor(job, s, e, w, cause)
  {
    RecoveryGateIs(job, s, e);
    hide SomeHostUnverified, HandleBegin, HandleEnd, HandleObservation, ForRecovery;
  }

  // ---------------------------------------------------------------- what is left behind

  /** From a state in which nothing has failed: a refusal is recorded and cancels, an answer does not. */
  ghost predicate Recorded(s: State, a: Answer)
  {
    && (a.error != None ==> a.state.failure == a.error && a.state.cancelled)
    && (a.error == None ==> a.state.failure == None && a.state.cancelled == s.cancelled)
  }

  lemma StageRecords(job: Job, s: State, e: Event, w: World)
    requires s.active < |s.results| && s.failure == None && s.next < |job.plan.steps|
    ensures Recorded(s, HandleBegin(job, s, w)) && Recorded(s, HandleEnd(job, s, w))
  {
    hide AllVerified, Preparation;
  }

  lemma ObservationRecords(s: State, e: Event, w: World)
    requires s.active < |s.results| && s.failure == None
    ensures Recorded(s, HandleObservation(s, e, w))
  {
    hide Noted, Publish, Recorded;
    if s.active == s.next && s.active >= 0 {
      NotedQuietly(s, e);
      PublishRecords(s, Noted(s, e), e, w);
    }
    RefusalRecords(s, s, OutsideActiveStage);
    RefusalRecords(s, s, SequenceBroken);
    RefusalRecords(s, s.(sequence := e.sequence), DuplicatePlay);
    RefusalRecords(s, s.(sequence := e.sequence), InvalidStatus);
  }

  lemma RefusalRecords(s: State, t: State, cause: Refusal)
    requires t.failure == None
    ensures Recorded(s, Refuse(t, cause))
  {
  }

  lemma PublishRecords(s: State, noted: State, e: Event, w: World)
    requires noted.failure == None && noted.cancelled == s.cancelled
    ensures Recorded(s, Publish(noted, e, w))
  {
  }

  lemma NotedQuietly(s: State, e: Event)
    requires 0 <= s.active < |s.results|
    ensures Noted(s, e).failure == s.failure && Noted(s, e).cancelled == s.cancelled
  {
    hide JobController.Recorded;
  }

  /** A refusal is recorded as the failure and cancels the job, except that a stranger's message and a
      heartbeat leave everything as it is. */
  lemma RefusalsFail(job: Job, s: State, e: Event, w: World)
    requires Indexed(s)
    ensures
      var a := Handle(job, s, e, w);
      && (e.token != job.token || e.kind == Heartbeat || s.failure != None ==> a.state == s)
      && (Heard(job, s, e) && e.kind != Heartbeat ==> Recorded(s, a))
  {
    if s.failure == None {
      StageMessageRecords(job, s, e, w);
    }
    hide HandleStage;
  }

  lemma StageMessageRecords(job: Job, s: State, e: Event, w: World)
    requires Indexed(s) && s.failure == None
    ensures Recorded(s, HandleStage(job, s, e, w))
  {
    hide ForRecovery, HandleBegin, HandleEnd, HandleObservation, Recorded;
    ObservationRecords(s, e, w);
    RefusalRecords(s, s, AfterFinalStage);
    RefusalRecords(s, s, OutOfOrder);
    NothingRecords(s);
    if s.next < |job.plan.steps| {
      StageRecords(job, s, e, w);
    }
  }

  lemma NothingRecords(s: State)
    requires s.failure == None
    ensures Recorded(s, Answer(s, None))
  {
  }

  /** The reply: done once every step is acknowledged, run only for the stage at work. */
  lemma RepliesExactly(job: Job, s: State, e: Event, w: World)
    requires Indexed(s)
    ensures
      var a := Handle(job, s, e, w);
      var reply := ReplyTo(job, a.state, e, a.error);
      && reply.error == a.error && reply.done == a.state.finished
      && (reply.run <==>
        && a.error == None && (e.kind == Begin || e.kind == Current)
        && 0 <= a.state.active && a.state.next < |job.plan.steps| && job.plan.steps[a.state.next].id == e.stepId)
  {
  }

  /** While the begin callback is asked the stage has the time set for preparing it, afterwards its own;
      both from the clock at that moment, in nanoseconds. */
  lemma DeadlinesExactly(job: Job, s: State, e: Event, w: World)
    requires Indexed(s) && Entering(job, s, e) && w.bundleValid
    ensures
      var a := Handle(job, s, e, w);
      var step := job.plan.steps[s.next];
      && (a.error == None ==> a.state.deadline == w.later + step.timeoutSeconds * 1_000_000_000)
      && (a.error != None ==>
            a.state.deadline == w.now + if job.preparationTimeout > 0 then job.preparationTimeout
                                        else step.timeoutSeconds * 1_000_000_000)
  {
    EnteringIs(job, s, e, w);
    hide RecoveryGate, Handle;
  }

  lemma EnteringIs(job: Job, s: State, e: Event, w: World)
    requires Indexed(s) && Entering(job, s, e)
    ensures Handle(job, s, e, w) == HandleBegin(job, s, w)
  {
    RecoveryGateIs(job, s, e);
    hide RecoveryGate, ForRecovery, HandleBegin, HandleEnd, HandleObservation;
  }
}
