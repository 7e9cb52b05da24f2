/** What every run of the controller keeps, whatever arrives and in whatever order. */
module JobSafety {
  import opened JobPlan
  import opened JobController

  // ---------------------------------------------------------------- what is kept

  /** Position, results and deadline agree with one another. */
  ghost predicate Shape(job: Job, s: State)
  {
    var steps := job.plan.steps;
    && s.next <= |steps|
    && (s.active == -1 || (s.active == s.next && s.next < |steps|))
    && |s.results| == s.next + (if s.active >= 0 then 1 else 0)
    && (forall i | 0 <= i < |s.results| :: s.results[i].stepId == steps[i].id)
    && (s.active >= 0 ==> s.results[s.active].status == Running)
    && (s.finished <==> s.next == |steps|)
    && (s.deadline > 0 <==> s.active >= 0)
  }

  predicate Observed(e: Event, id: string, host: string)
  {
    e.kind.Report? && e.stepId == id && e.host == host && e.status.Ok? && e.ownerTask
  }

  predicate Owned(events: seq<Event>, id: string, host: string)
  {
    exists k | 0 <= k < |events| :: Observed(events[k], id, host)
  }

  /** The recaps that a step's accepted reports add up to. */
  function Tally(events: seq<Event>, id: string): map<string, Recap>
    decreases |events|
  {
    if events == [] then map[]
    else
      var e := events[|events| - 1];
      var before := Tally(events[..|events| - 1], id);
      if e.kind.Report? && e.stepId == id then before[e.host := Count(RecapOf(before, e.host), e)] else before
  }

  /** A stage that may be called done: at least one host, none failed or unreachable, and for
      checks an owner task seen to succeed on every host. */
  ghost predicate Proven(step: JobStep, r: StageResult, events: seq<Event>)
  {
    && r.stepId == step.id && r.status == Succeeded && r.error.None?
    && r.hosts != map[]
    && forall h | h in r.hosts ::
      && r.hosts[h].failed == 0 && r.hosts[h].unreachable == 0
      && (NeedsOwner(step) ==> Owned(events, step.id, h))
  }

  ghost predicate Verified(job: Job, s: State)
    requires Shape(job, s)
  {
    forall i | 0 <= i < s.next :: Proven(job.plan.steps[i], s.results[i], s.accepted)
  }

  ghost predicate Clean(r: StageResult)
  {
    r.error.Some? ==> exists h | h in r.hosts :: r.hosts[h].failed > 0 || r.hosts[h].unreachable > 0
  }

  /** Accepted events are numbered 1, 2, 3, ... and every recap is exactly their tally; an event
      is only ever accepted for a stage that has begun. */
  ghost predicate Numbered(s: State)
  {
    && (forall k | 0 <= k < |s.accepted| :: s.accepted[k].sequence == k + 1)
    && (s.failure.None? ==> s.sequence == |s.accepted|)
  }

  ghost predicate Tallied(job: Job, s: State)
    requires Shape(job, s)
  {
    var steps := job.plan.steps;
    && (forall i | 0 <= i < s.next :: s.results[i].hosts == Tally(s.accepted, steps[i].id))
    && (forall i, k | |s.results| <= i < |steps| && 0 <= k < |s.accepted| :: s.accepted[k].stepId != steps[i].id)
    && (s.failure.None? && s.active >= 0 ==>
      && s.results[s.active].hosts == Tally(s.accepted, steps[s.active].id)
      && Clean(s.results[s.active])
      && (forall h :: h in s.ownerObserved <==> Owned(s.accepted, steps[s.active].id, h)))
  }

  function ExpectedBoundary(k: nat): Boundary
  {
    if k % 2 == 0 then BeginStage else EndStage
  }

  /** The callbacks are begin s0, end s0, begin s1, end s1, ... cut somewhere, and only the
      last one can have been rejected. */
  ghost predicate Boundaries(steps: seq<JobStep>, calls: seq<Call>)
  {
    && |calls| <= 2 * |steps|
    && (forall k | 0 <= k < |calls| :: calls[k].boundary == ExpectedBoundary(k) && calls[k].step == steps[k / 2])
    && (forall k | 0 <= k < |calls| - 1 :: calls[k].accepted)
  }

  ghost predicate Rejected(calls: seq<Call>)
  {
    calls != [] && !calls[|calls| - 1].accepted
  }

  ghost predicate Trace(job: Job, s: State)
  {
    && Boundaries(job.plan.steps, s.calls)
    && (Rejected(s.calls) ==>
      s.failure == Some(BoundaryRejected) && s.active >= 0
      && 2 * s.next < |s.calls| <= 2 * s.next + 2)
    && (!Rejected(s.calls) ==> |s.calls| == 2 * s.next + (if s.active >= 0 then 1 else 0))
  }

  ghost predicate Inv(job: Job, s: State)
  {
    Shape(job, s) && Verified(job, s) && Numbered(s) && Tallied(job, s) && Trace(job, s)
  }

  lemma StartInv(job: Job)
    requires Buildable(job.plan)
    ensures Inv(job, START)
  {
  }

  // ---------------------------------------------------------------- one step at a time

  lemma RefuseKeeps(job: Job, s: State, cause: Refusal)
    requires Inv(job, s) && s.failure.None?
    ensures Inv(job, Fail(s, cause))
  {
  }

  lemma BoundariesGrow(steps: seq<JobStep>, calls: seq<Call>, accepted: bool)
    requires Boundaries(steps, calls) && !Rejected(calls) && |calls| < 2 * |steps|
    ensures Boundaries(steps, calls + [Call(ExpectedBoundary(|calls|), steps[|calls| / 2], accepted)])
  {
  }

  /** What the begin of a stage leaves behind when the stage could be entered. */
  lemma BeginFrame(job: Job, s: State, w: World)
    requires s.next < |job.plan.steps| && s.failure.None? && s.active < 0 && w.bundleValid
    ensures
      var t := HandleBegin(job, s, w).state;
      var step := job.plan.steps[s.next];
      && t.next == t.active == s.next && t.finished == s.finished && t.accepted == s.accepted
        && t.sequence == s.sequence
      && t.calls == s.calls + [Call(BeginStage, step, w.boundaryAccepts)]
      && t.results == s.results + [StageResult(step.id, Running, None, map[])] && t.ownerObserved == {}
      && (!w.boundaryAccepts ==> t.failure == Some(BoundaryRejected))
      && t.deadline == if w.boundaryAccepts && !s.cancelled && !w.interrupted
        then w.later + step.timeoutSeconds * SECOND else w.now + Preparation(job, step)
  {
    hide Preparation, Indexed;
  }

  lemma DeadlineAhead(job: Job, step: JobStep, now: nat)
    requires step.timeoutSeconds > 0
    ensures now + Preparation(job, step) > 0 && now + step.timeoutSeconds * SECOND > 0
  {
  }

  lemma BeginKeepsOrder(job: Job, s: State, w: World)
    requires Buildable(job.plan) && Shape(job, s) && Trace(job, s) && s.failure.None? && s.next < |job.plan.steps|
    requires s.active < 0 && w.bundleValid
    ensures var t := HandleBegin(job, s, w).state; Shape(job, t) && Trace(job, t)
  {
    BeginFrame(job, s, w);
    var step := job.plan.steps[s.next];
    assert step.timeoutSeconds > 0;
    DeadlineAhead(job, step, w.now);
    DeadlineAhead(job, step, w.later);
    hide HandleBegin, Preparation, Buildable;
    assert |s.calls| == 2 * s.next;
    BoundariesGrow(job.plan.steps, s.calls, w.boundaryAccepts);
    hide Boundaries;
  }

  lemma BeginKeepsRecords(job: Job, s: State, w: World)
    requires Buildable(job.plan) && Shape(job, s) && Verified(job, s) && Numbered(s) && Tallied(job, s)
    requires s.failure.None? && s.next < |job.plan.steps| && s.active < 0 && w.bundleValid
    requires Shape(job, HandleBegin(job, s, w).state)
    ensures var t := HandleBegin(job, s, w).state; Verified(job, t) && Numbered(t) && Tallied(job, t)
  {
    BeginFrame(job, s, w);
    hide HandleBegin, Proven, Clean, Owned;
    var t := HandleBegin(job, s, w).state;
    TallyUntouched(s.accepted, job.plan.steps[s.next].id);
    assert forall i | 0 <= i < s.next :: t.results[i] == s.results[i];
    assert Clean(t.results[s.next]) by { NothingHappened(t.results[s.next]); }
    assert forall h ::
      !Owned(s.accepted, job.plan.steps[s.next].id, h) by { NobodyOwned(s.accepted, job.plan.steps[s.next].id); }
  }

  lemma NothingHappened(r: StageResult)
    requires r.error.None?
    ensures Clean(r)
  {
  }

  lemma NobodyOwned(events: seq<Event>, id: string)
    requires forall k | 0 <= k < |events| :: events[k].stepId != id
    ensures forall h :: !Owned(events, id, h)
  {
  }

  lemma BeginKeeps(job: Job, s: State, w: World)
    requires Buildable(job.plan) && Inv(job, s) && s.failure.None? && s.next < |job.plan.steps|
    ensures Inv(job, HandleBegin(job, s, w).state)
  {
    if s.active >= 0 {
      RefuseKeeps(job, s, StageAlreadyActive);
    } else if !w.bundleValid {
      RefuseKeeps(job, s, BundleInvalid);
    } else {
      BeginKeepsOrder(job, s, w);
      BeginKeepsRecords(job, s, w);
    }
  }

  lemma TallyUntouched(events: seq<Event>, id: string)
    requires forall k | 0 <= k < |events| :: events[k].stepId != id
    ensures Tally(events, id) == map[]
    decreases |events|
  {
    if events != [] {
      TallyUntouched(events[..|events| - 1], id);
    }
  }

  lemma EndKeepsOrder(job: Job, s: State, w: World)
    requires Buildable(job.plan) && Shape(job, s) && Trace(job, s) && s.failure.None? && s.next < |job.plan.steps|
    requires var a := HandleEnd(job, s, w); a.error.None? || a.error.value.BoundaryRejected?
    ensures var t := HandleEnd(job, s, w).state; Shape(job, t) && Trace(job, t)
  {
    var t := HandleEnd(job, s, w).state;
    BoundariesGrow(job.plan.steps, s.calls, w.boundaryAccepts);
    assert |s.calls| == 2 * s.next + 1;
    assert t.calls == s.calls + [Call(EndStage, job.plan.steps[s.next], w.boundaryAccepts)];
    assert forall i | 0 <= i < |s.results| :: t.results[i].stepId == s.results[i].stepId;
  }

  lemma EndKeepsRecords(job: Job, s: State, w: World)
    requires Buildable(job.plan) && Shape(job, s) && Verified(job, s) && Numbered(s) && Tallied(job, s)
    requires s.failure.None? && s.next < |job.plan.steps|
    requires var a := HandleEnd(job, s, w); a.error.None? || a.error.value.BoundaryRejected?
    requires Shape(job, HandleEnd(job, s, w).state)
    ensures var t := HandleEnd(job, s, w).state; Verified(job, t) && Numbered(t) && Tallied(job, t)
  {
    var t := HandleEnd(job, s, w).state;
    assert t.accepted == s.accepted && t.sequence == s.sequence && |t.results| == |s.results|;
    assert forall i | 0 <= i < s.next :: t.results[i] == s.results[i];
    assert t.results[s.next].hosts == s.results[s.next].hosts;
  }

  lemma EndKeeps(job: Job, s: State, w: World)
    requires Buildable(job.plan) && Inv(job, s) && s.failure.None? && s.next < |job.plan.steps|
    ensures Inv(job, HandleEnd(job, s, w).state)
  {
    var a := HandleEnd(job, s, w);
    if a.error.Some? && !a.error.value.BoundaryRejected? {
      RefuseKeeps(job, s, a.error.value);
    } else {
      EndKeepsOrder(job, s, w);
      EndKeepsRecords(job, s, w);
    }
  }

  lemma OwnedGrows(events: seq<Event>, e: Event, id: string, host: string)
    ensures Owned(events + [e], id, host) <==> Owned(events, id, host) || Observed(e, id, host)
  {
    var more := events + [e];
    assert more[|events|] == e;
    if Owned(events, id, host) {
      var k :| 0 <= k < |events| && Observed(events[k], id, host);
      assert more[k] == events[k];
    }
  }

  lemma TallyGrows(events: seq<Event>, e: Event, id: string)
    ensures Tally(events + [e], id)
      == if e.kind.Report? && e.stepId == id then var t := Tally(events, id);
        t[e.host := Count(RecapOf(t, e.host), e)] else Tally(events, id)
  {
    assert (events + [e])[..|events|] == events;
  }

  lemma OtherStep(job: Job, i: nat, next: nat)
    requires UniqueIds(job.plan.steps) && i < |job.plan.steps| && next < |job.plan.steps| && i != next
    ensures job.plan.steps[i].id != job.plan.steps[next].id
  {
    if i < next { } else { }
  }

  lemma ProvenGrows(step: JobStep, r: StageResult, events: seq<Event>, e: Event)
    requires Proven(step, r, events)
    ensures Proven(step, r, events + [e])
  {
    forall h | h in r.hosts && NeedsOwner(step) ensures Owned(events + [e], step.id, h) {
      OwnedGrows(events, e, step.id, h);
    }
  }

  lemma NotedFrame(s: State, e: Event)
    requires 0 <= s.active < |s.results|
    ensures var t := Noted(s, e);
      && t.next == s.next && t.active == s.active && t.calls == s.calls && t.accepted == s.accepted
      && t.failure == s.failure && t.finished == s.finished && t.deadline == s.deadline
      && |t.results| == |s.results|
      && t.results[s.active].stepId == s.results[s.active].stepId
        && t.results[s.active].status == s.results[s.active].status
      && forall i | 0 <= i < |s.results| && i != s.active :: t.results[i] == s.results[i]
  {
    NotedOnly(s, e);
    NotedResults(s, e);
    hide Noted;
  }

  lemma NotedOnly(s: State, e: Event)
    requires 0 <= s.active < |s.results|
    ensures
      var t := Noted(s, e);
      t == s.(sequence := t.sequence, playSeen := t.playSeen, results := t.results, ownerObserved := t.ownerObserved)
  {
    hide Recorded;
  }

  lemma NotedResults(s: State, e: Event)
    requires 0 <= s.active < |s.results|
    ensures Noted(s, e).results == if e.kind.Report? then s.results[s.active := Recorded(s.results[s.active], e)]
      else s.results
    ensures Recorded(s.results[s.active], e).stepId == s.results[s.active].stepId
    ensures Recorded(s.results[s.active], e).status == s.results[s.active].status
  {
    RecordedFrame(s.results[s.active], e);
    hide Recorded;
  }

  lemma RecordedFrame(r: StageResult, e: Event)
    ensures Recorded(r, e).stepId == r.stepId && Recorded(r, e).status == r.status
  {
    hide Count, RecapOf;
  }

  lemma SameOrder(job: Job, s: State, t: State)
    requires Shape(job, s) && Trace(job, s) && s.failure.None?
    requires t.next == s.next && t.active == s.active && t.calls == s.calls && t.finished == s.finished
      && t.deadline == s.deadline
    requires |t.results| == |s.results|
    requires forall i | 0 <= i < |s.results| ::
      t.results[i].stepId == s.results[i].stepId
      && t.results[i].status == s.results[i].status
    ensures Shape(job, t) && Trace(job, t)
  {
  }

  lemma NotedKeepsOrder(job: Job, s: State, e: Event, cause: Refusal)
    requires Shape(job, s) && Trace(job, s) && s.failure.None? && s.active >= 0
    ensures var t := Fail(Noted(s, e), cause); Shape(job, t) && Trace(job, t)
  {
    NotedFrame(s, e);
    SameOrder(job, s, Fail(Noted(s, e), cause));
  }

  /** Noting an event and refusing it leaves everything already done in place. */
  lemma NotedThenRefused(job: Job, s: State, e: Event, cause: Refusal)
    requires Inv(job, s) && s.failure.None? && s.active >= 0
    ensures Inv(job, Fail(Noted(s, e), cause))
  {
    var t := Fail(Noted(s, e), cause);
    NotedKeepsOrder(job, s, e, cause);
    NotedFrame(s, e);
    assert forall i | 0 <= i < s.next :: t.results[i] == s.results[i];
  }

  lemma SequencedThenRefused(job: Job, s: State, sequence: int, cause: Refusal)
    requires Inv(job, s) && s.failure.None?
    ensures Inv(job, Fail(s.(sequence := sequence), cause))
  {
  }

  lemma OwnersGrow(owners: set<string>, events: seq<Event>, e: Event, id: string)
    requires e.stepId == id
    requires forall h :: h in owners <==> Owned(events, id, h)
    ensures
      var more := if e.kind.Report? && e.status.Ok? && e.ownerTask then owners + {e.host} else owners;
      forall h :: h in more <==> Owned(events + [e], id, h)
  {
    hide Owned;
    var more := if e.kind.Report? && e.status.Ok? && e.ownerTask then owners + {e.host} else owners;
    forall h ensures h in more <==> Owned(events + [e], id, h) {
      OwnedGrows(events, e, id, h);
    }
  }

  lemma NotedActive(s: State, e: Event)
    requires 0 <= s.active < |s.results|
    ensures Noted(s, e).results[s.active] == if e.kind.Report? then Recorded(s.results[s.active], e)
      else s.results[s.active]
    ensures Noted(s, e).ownerObserved == if e.kind.Report? && e.status.Ok? && e.ownerTask
      then s.ownerObserved + {e.host} else s.ownerObserved
  {
    hide Recorded;
  }

  lemma RecordedHosts(r: StageResult, e: Event)
    ensures Recorded(r, e).hosts == r.hosts[e.host := Count(RecapOf(r.hosts, e.host), e)]
  {
    hide Count, RecapOf;
  }

  /** The active stage's recap and owners stay in step with the accepted events. */
  lemma AcceptedActive(s: State, e: Event, id: string)
    requires 0 <= s.active < |s.results| && e.stepId == id
    requires s.results[s.active].hosts == Tally(s.accepted, id) && Clean(s.results[s.active])
    requires forall h :: h in s.ownerObserved <==> Owned(s.accepted, id, h)
    ensures
      var t := Noted(s, e);
      var events := s.accepted + [e];
      && t.results[s.active].hosts == Tally(events, id) && Clean(t.results[s.active])
      && forall h :: h in t.ownerObserved <==> Owned(events, id, h)
  {
    hide Tally, Owned, Clean, Count, RecapOf, Noted, Recorded;
    NotedActive(s, e);
    RecordedHosts(s.results[s.active], e);
    TallyGrows(s.accepted, e, id);
    RecordedClean(s.results[s.active], e);
    OwnersGrow(s.ownerObserved, s.accepted, e, id);
  }

  lemma AcceptedTallies(job: Job, s: State, e: Event)
    requires Buildable(job.plan) && Inv(job, s) && s.failure.None?
    requires s.active >= 0 && e.stepId == job.plan.steps[s.next].id && e.sequence == s.sequence + 1
    requires e.kind.Report? ==> !e.status.UnknownStatus?
    requires Shape(job, Noted(s, e).(accepted := s.accepted + [e]))
    ensures Tallied(job, Noted(s, e).(accepted := s.accepted + [e]))
  {
    var steps := job.plan.steps;
    var t := Noted(s, e).(accepted := s.accepted + [e]);
    AcceptedActive(s, e, steps[s.next].id);
    NotedFrame(s, e);
    hide Noted, Trace, Verified, Numbered, Clean, Owned, Tally;
    forall i | 0 <= i < s.next ensures t.results[i].hosts == Tally(t.accepted, steps[i].id) {
      OtherStep(job, i, s.next);
      TallyGrows(s.accepted, e, steps[i].id);
    }
    forall i, k | |t.results| <= i < |steps| && 0 <= k < |t.accepted| ensures t.accepted[k].stepId != steps[i].id {
      OtherStep(job, i, s.next);
    }
  }

  lemma RecordedClean(r: StageResult, e: Event)
    requires Clean(r)
    ensures Clean(Recorded(r, e))
  {
    var t := Recorded(r, e);
    if t.error.Some? {
      if e.status.Failed? || e.status.Unreachable? {
        assert e.host in t.hosts;
      } else {
        var h :| h in r.hosts && (r.hosts[h].failed > 0 || r.hosts[h].unreachable > 0);
        assert h in t.hosts;
      }
    }
  }

  lemma AcceptedKeeps(job: Job, s: State, e: Event)
    requires Buildable(job.plan) && Inv(job, s) && s.failure.None?
    requires s.active >= 0 && e.stepId == job.plan.steps[s.next].id && e.sequence == s.sequence + 1
    requires e.kind.Report? ==> !e.status.UnknownStatus?
    ensures Inv(job, Noted(s, e).(accepted := s.accepted + [e]))
  {
    var t := Noted(s, e).(accepted := s.accepted + [e]);
    NotedFrame(s, e);
    SameOrder(job, s, t);
    AcceptedTallies(job, s, e);
    assert t.sequence == e.sequence;
    hide Tallied, Noted, Trace, Proven, Shape;
    forall i | 0 <= i < s.next ensures Proven(job.plan.steps[i], t.results[i], t.accepted) {
      ProvenGrows(job.plan.steps[i], s.results[i], s.accepted, e);
      assert t.results[i] == s.results[i];
    }
  }

  lemma PublishKeeps(job: Job, s: State, e: Event, w: World)
    requires Buildable(job.plan) && Inv(job, s) && s.failure.None?
    requires s.active >= 0 && e.stepId == job.plan.steps[s.next].id && e.sequence == s.sequence + 1
    requires e.kind.Report? ==> !e.status.UnknownStatus?
    ensures Inv(job, Publish(Noted(s, e), e, w).state)
  {
    assert 0 <= s.active < |s.results|;
    hide Inv, Noted, Fail, Buildable, Indexed;
    if !w.redacts {
      NotedThenRefused(job, s, e, NotRedacted);
    } else if !w.observerAccepts {
      NotedThenRefused(job, s, e, ObserverRejected);
    } else {
      NotedFrame(s, e);
      AcceptedKeeps(job, s, e);
    }
  }

  lemma ObservationKeeps(job: Job, s: State, e: Event, w: World)
    requires Buildable(job.plan) && Inv(job, s) && s.failure.None?
    requires s.next < |job.plan.steps| && e.stepId == job.plan.steps[s.next].id
    ensures Inv(job, HandleObservation(s, e, w).state)
  {
    assert s.active < |s.results| && 0 <= s.next;
    hide Inv, Noted, Publish, Fail, Buildable, Indexed;
    if s.active != s.next {
      RefuseKeeps(job, s, OutsideActiveStage);
    } else if e.sequence != s.sequence + 1 {
      RefuseKeeps(job, s, SequenceBroken);
    } else if e.kind.PlayStart? && s.playSeen {
      SequencedThenRefused(job, s, e.sequence, DuplicatePlay);
    } else if e.kind.Report? && e.status.UnknownStatus? {
      SequencedThenRefused(job, s, e.sequence, InvalidStatus);
    } else {
      PublishKeeps(job, s, e, w);
    }
  }

  lemma StageKeeps(job: Job, s: State, e: Event, w: World)
    requires Buildable(job.plan) && Inv(job, s) && s.failure.None?
    ensures Inv(job, HandleStage(job, s, e, w).state)
  {
    assert s.active < |s.results|;
    hide Inv, HandleBegin, HandleEnd, HandleObservation, ForRecovery, Fail, Buildable;
    if (e.kind.Begin? || e.kind.End?) && ForRecovery(job.plan, s, e) {
    } else if s.next >= |job.plan.steps| {
      RefuseKeeps(job, s, AfterFinalStage);
    } else if e.stepId != job.plan.steps[s.next].id {
      RefuseKeeps(job, s, OutOfOrder);
    } else if e.kind.Begin? {
      BeginKeeps(job, s, w);
    } else if e.kind.End? {
      EndKeeps(job, s, w);
    } else {
      ObservationKeeps(job, s, e, w);
    }
  }

  /** Flags of the surroundings say nothing about the stages. */
  lemma FlagsKeep(job: Job, s: State, initialized: bool, cancelled: bool, expired: bool)
    requires Inv(job, s)
    ensures Inv(job, s.(initialized := initialized, cancelled := cancelled, expired := expired))
  {
    hide Proven, Tally, Clean, Owned, Boundaries;
  }

  lemma HandleKeeps(job: Job, s: State, e: Event, w: World)
    requires Buildable(job.plan) && Inv(job, s)
    ensures Inv(job, Handle(job, s, e, w).state)
  {
    assert s.active < |s.results|;
    hide Inv, HandleStage, Fail, Buildable, Indexed;
    if e.token == job.token && !e.kind.Heartbeat? && s.failure.None? {
      if e.kind.Abort? {
        RefuseKeeps(job, s, Preflight);
      } else if e.kind.Initialize? {
        RefuseKeeps(job, s, AlreadyInitialized);
        FlagsKeep(job, s, true, s.cancelled, s.expired);
      } else if e.kind.Finish? {
        RefuseKeeps(job, s, EndedEarly);
      } else if !e.kind.Current? {
        StageKeeps(job, s, e, w);
      }
    }
  }

  lemma ApplyKeeps(job: Job, s: State, m: Move)
    requires Buildable(job.plan) && Inv(job, s)
    ensures Inv(job, Apply(job, s, m))
  {
    assert Indexed(s);
    hide Inv, Handle, Fail, Buildable;
    match m
    case Message(e, w) => HandleKeeps(job, s, e, w);
    case Tick(now) => FlagsKeep(job, s, s.initialized, true, true);
    case Expire => if s.expired { ExpireKeeps(job, s); }
    case Cancel => FlagsKeep(job, s, s.initialized, true, s.expired);
  }

  lemma ExpireKeeps(job: Job, s: State)
    requires Inv(job, s)
    ensures Inv(job, Fail(s, StageTimeout).(expired := false))
  {
    if s.failure.None? {
      RefuseKeeps(job, s, StageTimeout);
      hide Inv;
      var t := Fail(s, StageTimeout);
      FlagsKeep(job, t, t.initialized, t.cancelled, false);
    } else {
      hide Inv;
      FlagsKeep(job, s, s.initialized, true, false);
    }
  }

  // ---------------------------------------------------------------- whole runs

  lemma {:induction false} RunKeeps(job: Job, s: State, moves: seq<Move>)
    requires Buildable(job.plan) && Inv(job, s) && Indexed(s)
    ensures Inv(job, Run(job, s, moves))
    decreases |moves|
  {
    if moves != [] {
      ApplyKeeps(job, s, moves[0]);
      RunKeeps(job, Apply(job, s, moves[0]), moves[1..]);
    }
  }

  /** The controller invariant, for every sequence of messages, timeouts and cancellations. */
  lemma EveryRunIsSafe(job: Job, moves: seq<Move>)
    requires Buildable(job.plan)
    ensures Inv(job, Run(job, START, moves))
  {
    StartInv(job);
    RunKeeps(job, START, moves);
  }

  /** What a later state may not take back. */
  ghost predicate Grows(s: State, t: State)
  {
    && s.calls <= t.calls && s.accepted <= t.accepted
    && s.next <= t.next && (s.finished ==> t.finished) && (s.cancelled ==> t.cancelled)
    && s.next <= |s.results| <= |t.results|
    && (forall i | 0 <= i < s.next :: t.results[i] == s.results[i])
  }

  ghost predicate Frozen(s: State, t: State)
  {
    && t.failure == s.failure && t.calls == s.calls && t.accepted == s.accepted && t.results == s.results
    && t.next == s.next && t.active == s.active && t.sequence == s.sequence && t.finished == s.finished
  }

  ghost predicate Extends(s: State, t: State)
  {
    Grows(s, t) && (s.failure.Some? ==> Frozen(s, t))
  }

  lemma FailGrows(s: State, t: State, cause: Refusal)
    requires Grows(s, t)
    ensures Grows(s, Fail(t, cause))
  {
  }

  lemma SameGrows(s: State, cause: Refusal)
    requires Indexed(s)
    ensures Grows(s, s) && Grows(s, Fail(s, cause))
  {
  }

  lemma StageGrows(job: Job, s: State, e: Event, w: World)
    requires Indexed(s) && s.failure.None?
    ensures Grows(s, HandleStage(job, s, e, w).state)
  {
    assert s.active < |s.results|;
    SameGrows(s, AfterFinalStage);
    SameGrows(s, OutOfOrder);
    hide Grows, HandleBegin, HandleEnd, HandleObservation, ForRecovery, Fail;
    if s.next < |job.plan.steps| {
      if e.kind.Begin? {
        BeginGrows(job, s, w);
      } else if e.kind.End? {
        EndGrows(job, s, w);
      } else {
        ObservationGrows(s, e, w);
      }
    }
  }

  lemma HandleGrows(job: Job, s: State, e: Event, w: World)
    requires Indexed(s) && s.failure.None?
    ensures Grows(s, Handle(job, s, e, w).state)
  {
    assert s.active < |s.results|;
    assert Grows(s, s.(initialized := true));
    SameGrows(s, Preflight);
    SameGrows(s, AlreadyInitialized);
    SameGrows(s, EndedEarly);
    StageGrows(job, s, e, w);
    hide Grows, HandleStage, Fail, Indexed;
  }

  lemma EnteredGrows(job: Job, s: State, w: World)
    requires Indexed(s) && s.next < |job.plan.steps|
    ensures Grows(s, Entered(job, s, w)) && Entered(job, s, w).failure == s.failure
  {
  }

  lemma BeginGrows(job: Job, s: State, w: World)
    requires Indexed(s) && s.failure.None? && s.next < |job.plan.steps|
    ensures Grows(s, HandleBegin(job, s, w).state)
  {
    EnteredGrows(job, s, w);
    hide Entered;
  }

  lemma EndFrame(job: Job, s: State, w: World)
    requires s.next < |job.plan.steps| && s.active < |s.results|
    ensures
      var t := HandleEnd(job, s, w).state;
      && t.accepted == s.accepted && s.calls <= t.calls && (t.next == s.next || t.next == s.next + 1)
      && (s.finished ==> t.finished) && (s.cancelled ==> t.cancelled)
      && (t.results == s.results
        || (s.active == s.next && t.results == s.results[s.next := s.results[s.next].(status := Succeeded)]))
  {
    hide AllVerified, Indexed, Advanced;
    if s.active == s.next {
      AdvancedFrame(job, s.(calls := s.calls + [Call(EndStage, job.plan.steps[s.next], w.boundaryAccepts)]));
    }
  }

  lemma AdvancedFrame(job: Job, s: State)
    requires 0 <= s.active < |s.results|
    ensures
      var t := Advanced(job, s);
      && t.accepted == s.accepted && t.calls == s.calls && t.next == s.next + 1 && (s.finished ==> t.finished)
        && t.cancelled == s.cancelled
      && t.results == s.results[s.active := s.results[s.active].(status := Succeeded)]
  {
  }

  lemma EndGrows(job: Job, s: State, w: World)
    requires Indexed(s) && s.failure.None? && s.next < |job.plan.steps|
    ensures Grows(s, HandleEnd(job, s, w).state)
  {
    EndFrame(job, s, w);
    hide HandleEnd;
  }

  lemma NotedGrows(s: State, e: Event)
    requires Indexed(s) && 0 <= s.active == s.next
    ensures Grows(s, Noted(s, e))
  {
    NotedFrame(s, e);
  }

  lemma ObservationGrows(s: State, e: Event, w: World)
    requires Indexed(s) && s.failure.None?
    ensures Grows(s, HandleObservation(s, e, w).state)
  {
    assert s.active < |s.results|;
    if s.active == s.next {
      assert Grows(s, s.(sequence := e.sequence));
      NotedGrows(s, e);
      PublishGrows(s, Noted(s, e), e, w);
    }
    SameGrows(s, OutsideActiveStage);
    SameGrows(s, SequenceBroken);
    hide Grows, Noted, Publish, Indexed, Fail;
    if s.active == s.next {
      FailGrows(s, s.(sequence := e.sequence), DuplicatePlay);
      FailGrows(s, s.(sequence := e.sequence), InvalidStatus);
    }
  }

  lemma PublishGrows(s: State, noted: State, e: Event, w: World)
    requires Grows(s, noted)
    ensures Grows(s, Publish(noted, e, w).state)
  {
  }

  /** Callbacks, accepted observations and completed results are only ever added to; after a
      failure nothing is added any more and the failure stays the first one. */
  lemma {:induction false} RunExtends(job: Job, s: State, moves: seq<Move>)
    requires Indexed(s)
    ensures Extends(s, Run(job, s, moves))
    decreases |moves|
  {
    if moves != [] {
      var t := Apply(job, s, moves[0]);
      ApplyExtends(job, s, moves[0]);
      RunExtends(job, t, moves[1..]);
      ExtendsTransitive(s, t, Run(job, t, moves[1..]));
    }
  }

  lemma ApplyExtends(job: Job, s: State, m: Move)
    requires Indexed(s)
    ensures Extends(s, Apply(job, s, m))
  {
    if m.Message? && s.failure.None? {
      HandleGrows(job, s, m.event, m.world);
    }
  }

  lemma ExtendsTransitive(s: State, t: State, u: State)
    requires Extends(s, t) && Extends(t, u)
    ensures Extends(s, u)
  {
  }

  /** Write-ahead: a reply says `run` only for the stage whose begin callback was accepted last,
      and that callback was the begin of exactly the step asked for. */
  lemma RunRepliesFollowAcceptedBegin(job: Job, moves: seq<Move>, e: Event, w: World)
    requires Buildable(job.plan)
    ensures
      var s := Run(job, START, moves);
      var a := Handle(job, s, e, w);
      ReplyTo(job, a.state, e, a.error).run ==>
        && |a.state.calls| == 2 * a.state.next + 1
        && var last := a.state.calls[2 * a.state.next];
           last.boundary == BeginStage && last.accepted && last.step.id == e.stepId
             && last.step == job.plan.steps[a.state.next]
  {
    hide Apply, Run, Handle, Inv, Buildable;
    var s := Run(job, START, moves);
    EveryRunIsSafe(job, moves);
    HandleKeeps(job, s, e, w);
    var a := Handle(job, s, e, w);
    if ReplyTo(job, a.state, e, a.error).run {
      HealthyAfterReply(job, s, e, w);
      LastBeginAccepted(job, a.state);
    }
  }

  lemma LastBeginAccepted(job: Job, s: State)
    requires Inv(job, s) && s.failure.None? && s.active >= 0
    ensures |s.calls| == 2 * s.next + 1 && s.next < |job.plan.steps|
    ensures var last := s.calls[2 * s.next];
      last.boundary == BeginStage && last.accepted
      && last.step == job.plan.steps[s.next]
  {
    hide Verified, Numbered, Tallied;
    assert !Rejected(s.calls);
  }

  lemma HealthyAfterReply(job: Job, s: State, e: Event, w: World)
    requires Inv(job, s)
    requires e.kind.Begin? || e.kind.Current?
    requires Handle(job, s, e, w).error.None?
    ensures Handle(job, s, e, w).state.failure.None?
  {
  }

  // ---------------------------------------------------------------- what RunBundle may report

  lemma AllBoundariesMade(job: Job, s: State)
    requires Shape(job, s) && Trace(job, s) && s.failure.None? && s.next == |job.plan.steps|
    ensures |s.calls| == 2 * s.next
    ensures forall k | 0 <= k < |s.calls| :: s.calls[k] == Call(ExpectedBoundary(k), job.plan.steps[k / 2], true)
  {
  }

  /** Successful exactly when nothing failed and every step was acknowledged; then every step of
      the plan is proven, its recap is the tally of the accepted events, and all 2n callbacks
      were made and accepted. */
  lemma SuccessMeansEveryStepProven(job: Job, moves: seq<Move>, phaseError: Option<Refusal>, parentCancelled: bool)
    requires Buildable(job.plan)
    ensures
      var s := Run(job, START, moves);
      var o := Close(job, s, phaseError, parentCancelled);
      var steps := job.plan.steps;
      && (o.successful <==> s.failure.None? && phaseError.None? && s.next == |steps|)
      && (o.successful ==>
        && |o.steps| == |steps|
        && (forall i | 0 <= i < |steps| ::
          Proven(steps[i], o.steps[i], s.accepted)
          && o.steps[i].hosts == Tally(s.accepted, steps[i].id))
        && |s.calls| == 2 * |steps|
        && (forall k | 0 <= k < |s.calls| :: s.calls[k] == Call(ExpectedBoundary(k), steps[k / 2], true)))
  {
    EveryRunIsSafe(job, moves);
    var s := Run(job, START, moves);
    var o := Close(job, s, phaseError, parentCancelled);
    if o.successful {
      AllBoundariesMade(job, s);
      assert o.steps == s.results;
    }
  }

  /** The reported error is the controller's own failure, else that of the playbook, else that steps are
      left. No stage is shown as running: those shown as succeeded are exactly the proven ones, and one
      that was at work is failed, or cancelled exactly when the job was, with the reported error. */
  lemma FailureReportsHonestly(job: Job, moves: seq<Move>, phaseError: Option<Refusal>, parentCancelled: bool)
    requires Buildable(job.plan)
    ensures
      var s := Run(job, START, moves);
      var o := Close(job, s, phaseError, parentCancelled);
      && (s.failure.Some? ==> o.error == s.failure)
      && (s.failure.None? && phaseError.Some? ==> o.error == phaseError)
      && (s.failure.None? && phaseError.None? ==>
            o.error == if s.next == |job.plan.steps| then None else Some(Unacknowledged))
      && (o.successful <==> o.error == None)
      && |o.steps| == |s.results| <= |job.plan.steps|
      && forall i | 0 <= i < |o.steps| ::
        && o.steps[i].stepId == job.plan.steps[i].id && o.steps[i].hosts == s.results[i].hosts
        && o.steps[i].status != Running
        && (o.steps[i].status == Succeeded <==> i < s.next)
        && (i < s.next ==> Proven(job.plan.steps[i], o.steps[i], s.accepted))
        && (i >= s.next ==>
          && !o.successful && o.error.Some? && o.steps[i].error == Some(JobError(o.error.value))
          && (parentCancelled <==> o.steps[i].status == Cancelled)
          && (!parentCancelled <==> o.steps[i].status == Aborted))
  {
    EveryRunIsSafe(job, moves);
    hide Tally, Run;
  }

  /** The converse does not hold: a deadline that expires just before its stage ends still fails
      the job once the watchdog obtains the lock, although every step was acknowledged. */
  lemma EveryStepProvenYetUnsuccessful(job: Job, step: JobStep, w: World, report: Event)
    requires job.plan == Plan([step], []) && step.id != "" && step.timeoutSeconds == 60 && job.preparationTimeout == 0
    requires w == World(true, true, false, true, true, 0, 0)
    requires report == Event(job.token, Report, step.id, 2, "host", "task", Ok, false, true)
    ensures
      var s := Run(job, START, ReportMoves(step, w, report) + EndMoves(w, report));
      && s.next == |job.plan.steps| && s.finished
      && s.failure == Some(StageTimeout)
      && !Close(job, s, None, false).successful
  {
    StageReported(job, step, w, report);
    hide Handle, Run;
    var s3 := Run(job, START, ReportMoves(step, w, report));
    RunConcat(job, START, ReportMoves(step, w, report), EndMoves(w, report));
    RunThree(job, s3, Tick(61 * SECOND), Message(report.(kind := End), w), Expire);
    LateEnd(job, s3, w, report);
  }

  lemma LateEnd(job: Job, s: State, w: World, report: Event)
    requires |job.plan.steps| == 1 && job.plan.recovery == [] && report.token == job.token
      && report.stepId == job.plan.steps[0].id
    requires w.bundleValid && w.boundaryAccepts
    requires s.failure.None? && s.active == s.next == 0 && s.playSeen && s.ownerObserved == {"host"}
      && s.deadline == 60 * SECOND
    requires |s.results| == 1 && s.results[0].hosts == map["host" := Recap(1, 0, 0, 0, 0)]
    ensures
      var t := Apply(job, Apply(job, Apply(job, s, Tick(61 * SECOND)), Message(report.(kind := End), w)), Expire);
      && t.next == 1 && t.finished && t.failure == Some(StageTimeout)
  {
    hide Handle;
    var s4 := Apply(job, s, Tick(61 * SECOND));
    assert s4 == s.(cancelled := true, expired := true);
    EndsLate(job, s4, Message(report.(kind := End), w));
    var s5 := Apply(job, s4, Message(report.(kind := End), w));
    assert Apply(job, s5, Expire) == Fail(s5, StageTimeout).(expired := false);
  }

  lemma RunThree(job: Job, s: State, a: Move, b: Move, c: Move)
    requires Indexed(s)
    ensures Run(job, s, [a, b, c]) == Apply(job, Apply(job, Apply(job, s, a), b), c)
  {
    hide Apply;
    assert [a, b, c][1..] == [b, c] && [b, c][1..] == [c] && [c][1..] == [];
    var t := Apply(job, s, a);
    assert Run(job, s, [a, b, c]) == Run(job, t, [b, c]);
    var u := Apply(job, t, b);
    assert Run(job, t, [b, c]) == Run(job, u, [c]);
    assert Run(job, u, [c]) == Run(job, Apply(job, u, c), []);
  }

  lemma {:induction false} RunConcat(job: Job, s: State, first: seq<Move>, rest: seq<Move>)
    requires Indexed(s)
    ensures Run(job, s, first + rest) == Run(job, Run(job, s, first), rest)
    decreases |first|
  {
    hide Apply;
    if first == [] {
      assert first + rest == rest;
    } else {
      assert (first + rest)[0] == first[0] && (first + rest)[1..] == first[1..] + rest;
      RunConcat(job, Apply(job, s, first[0]), first[1..], rest);
    }
  }

  lemma StageReported(job: Job, step: JobStep, w: World, report: Event)
    requires job.plan == Plan([step], []) && step.id != "" && step.timeoutSeconds == 60 && job.preparationTimeout == 0
    requires w == World(true, true, false, true, true, 0, 0)
    requires report == Event(job.token, Report, step.id, 2, "host", "task", Ok, false, true)
    ensures
      var s := Run(job, START, ReportMoves(step, w, report));
      && s.failure.None? && s.active == s.next == 0 && s.playSeen && s.ownerObserved == {"host"}
        && s.deadline == 60 * SECOND
      && |s.results| == 1 && s.results[0].hosts == map["host" := Recap(1, 0, 0, 0, 0)]
  {
    var begin := Message(report.(kind := Begin), w);
    StageBegun(job, step, w, report);
    hide Apply, Run;
    RunThree(job, START, begin, Message(report.(kind := PlayStart, sequence := 1), w), Message(report, w));
    StageNoted(job, step, w, report, Apply(job, START, begin));
  }

  lemma StageBegun(job: Job, step: JobStep, w: World, report: Event)
    requires job.plan == Plan([step], []) && step.timeoutSeconds == 60
    requires w == World(true, true, false, true, true, 0, 0) && report.token == job.token && report.stepId == step.id
    ensures
      var s := Apply(job, START, Message(report.(kind := Begin), w));
      && s.active == 0 && s.next == 0 && s.failure.None? && s.deadline == 60 * SECOND && s.sequence == 0 && !s.playSeen
      && s.results == [StageResult(step.id, Running, None, map[])] && s.ownerObserved == {}
  {
  }

  lemma StageNoted(job: Job, step: JobStep, w: World, report: Event, s: State)
    requires job.plan == Plan([step], [])
    requires w == World(true, true, false, true, true, 0, 0)
    requires report == Event(job.token, Report, step.id, 2, "host", "task", Ok, false, true)
    requires s.active == 0 && s.next == 0 && s.failure.None? && s.sequence == 0 && !s.playSeen
    requires s.results == [StageResult(step.id, Running, None, map[])] && s.ownerObserved == {}
    ensures
      var t := Apply(job, Apply(job, s, Message(report.(kind := PlayStart, sequence := 1), w)), Message(report, w));
      && t.failure.None? && t.active == t.next == 0 && t.playSeen && t.ownerObserved == {"host"}
        && t.deadline == s.deadline
      && |t.results| == 1 && t.results[0].hosts == map["host" := Recap(1, 0, 0, 0, 0)]
  {
    var played := Apply(job, s, Message(report.(kind := PlayStart, sequence := 1), w));
    assert played == s.(playSeen := true, sequence := 1, accepted := played.accepted);
  }

  function ReportMoves(step: JobStep, w: World, report: Event): seq<Move>
  {
    [Message(report.(kind := Begin), w), Message(report.(kind := PlayStart, sequence := 1), w), Message(report, w)]
  }

  function EndMoves(w: World, report: Event): seq<Move>
  {
    [Tick(61 * SECOND), Message(report.(kind := End), w), Expire]
  }

  lemma EndsLate(job: Job, s: State, m: Move)
    requires Indexed(s) && m.Message? && m.event.kind.End? && m.event.token == job.token
    requires |job.plan.steps| == 1 && job.plan.recovery == [] && m.event.stepId == job.plan.steps[0].id
    requires s.failure.None? && s.active == s.next == 0 && s.playSeen && s.ownerObserved == {"host"} && s.expired
    requires |s.results| == 1 && s.results[0].hosts == map["host" := Recap(1, 0, 0, 0, 0)]
    requires m.world.bundleValid && m.world.boundaryAccepts
    ensures var t := Apply(job, s, m); t.failure.None? && t.next == 1 && t.finished && t.active == -1 && t.expired
  {
    var hosts := s.results[0].hosts;
    assert "host" in hosts && hosts != map[];
    assert forall h | h in hosts :: HostVerified(job.plan.steps[0], hosts[h], h in s.ownerObserved);
  }
}
