/** What the recaps and errors of a job's stages say about the accepted task reports
    (internal/ansible/job_runner.go:209-267), counted report by report. */
module JobTallies {
  import opened JobPlan
  import opened JobController
  import opened JobSafety

  /** The positions of the reports of one status for one host of a step. */
  function Reported(events: seq<Event>, id: string, host: string, status: TaskStatus): set<int>
  {
    set k | 0 <= k < |events|
      && events[k].kind == Report && events[k].stepId == id && events[k].host == host && events[k].status == status
  }

  /** The positions of its reports of a change. */
  function Changes(events: seq<Event>, id: string, host: string): set<int>
  {
    set k | k in Reported(events, id, host, Ok) && 0 <= k < |events| && events[k].changed
  }

  ghost predicate Heard(events: seq<Event>, id: string, host: string)
  {
    exists k :: 0 <= k < |events| && events[k].kind == Report && events[k].stepId == id && events[k].host == host
  }

  lemma OneMoreReport(events: seq<Event>, e: Event, id: string, host: string, status: TaskStatus)
    ensures Reported(events + [e], id, host, status) == Reported(events, id, host, status)
      + if e.kind == Report && e.stepId == id && e.host == host && e.status == status then {|events|} else {}
  {
    var more := events + [e];
    assert forall k | 0 <= k < |events| :: more[k] == events[k];
  }

  lemma OneMoreChange(events: seq<Event>, e: Event, id: string, host: string)
    ensures Changes(events + [e], id, host) == Changes(events, id, host)
      + if e.kind == Report && e.stepId == id && e.host == host && e.status == Ok && e.changed then {|events|} else {}
  {
    OneMoreReport(events, e, id, host, Ok);
    var more := events + [e];
    assert forall k | 0 <= k < |events| :: more[k] == events[k];
    hide Reported;
    ReportedWithin(events, id, host, Ok);
    assert more[|events|] == e;
  }

  lemma ReportedWithin(events: seq<Event>, id: string, host: string, status: TaskStatus)
    ensures forall k | k in Reported(events, id, host, status) :: 0 <= k < |events|
    ensures forall k | k in Changes(events, id, host) :: 0 <= k < |events|
  {
  }

  lemma OneMoreHeard(events: seq<Event>, e: Event, id: string, host: string)
    ensures Heard(events + [e], id, host) <==>
      Heard(events, id, host) || (e.kind == Report && e.stepId == id && e.host == host)
  {
    var more := events + [e];
    assert more[|events|] == e && forall k | 0 <= k < |events| :: more[k] == events[k];
  }

  /** A recap says how many reports of each kind were accepted. */
  ghost predicate Counted(recap: Recap, events: seq<Event>, id: string, host: string)
  {
    && recap.ok == |Reported(events, id, host, Ok)|
    && recap.changed == |Changes(events, id, host)|
    && recap.failed == |Reported(events, id, host, Failed)|
    && recap.unreachable == |Reported(events, id, host, Unreachable)|
    && recap.skipped == |Reported(events, id, host, Skipped)|
  }

  lemma OneMoreCounted(recap: Recap, events: seq<Event>, e: Event, id: string, host: string)
    requires Counted(recap, events, id, host)
    ensures Counted(if e.kind == Report && e.stepId == id && e.host == host then Count(recap, e) else recap,
                    events + [e], id, host)
  {
    OneMoreReport(events, e, id, host, Ok);
    OneMoreReport(events, e, id, host, Failed);
    OneMoreReport(events, e, id, host, Unreachable);
    OneMoreReport(events, e, id, host, Skipped);
    OneMoreChange(events, e, id, host);
    ReportedWithin(events, id, host, Ok);
    ReportedWithin(events, id, host, Failed);
    ReportedWithin(events, id, host, Unreachable);
    ReportedWithin(events, id, host, Skipped);
    hide Reported, Changes;
  }

  lemma NothingCounted(id: string, host: string)
    ensures Counted(Recap(0, 0, 0, 0, 0), [], id, host) && !Heard([], id, host)
  {
    assert Reported([], id, host, Ok) == Changes([], id, host) == {};
    assert Reported([], id, host, Failed) == Reported([], id, host, Unreachable) == Reported([], id, host, Skipped)
      == {};
  }

  lemma {:induction false} TallyCounts(events: seq<Event>, id: string, host: string)
    ensures host in Tally(events, id) <==> Heard(events, id, host)
    ensures Counted(RecapOf(Tally(events, id), host), events, id, host)
    decreases |events|
  {
    hide Counted, Heard, Count;
    if events == [] {
      NothingCounted(id, host);
    } else {
      var before, e := events[..|events| - 1], events[|events| - 1];
      TallyCounts(before, id, host);
      OneMoreCounted(RecapOf(Tally(before, id), host), before, e, id, host);
      OneMoreHeard(before, e, id, host);
      assert events == before + [e];
    }
  }

  /** The stages a run has completed, and the one it is in as long as nothing failed: each names
      exactly the hosts that were reported on, and every number of a host's recap is the number of
      accepted reports of that kind. */
  lemma EveryRecapCounts(job: Job, moves: seq<Move>, i: nat, host: string)
    requires Buildable(job.plan)
    ensures
      var s := Run(job, START, moves);
      i < |s.results| && (i < s.next || s.failure.None?) && i < |job.plan.steps| ==>
        var hosts, id := s.results[i].hosts, job.plan.steps[i].id;
        && (host in hosts <==> Heard(s.accepted, id, host))
        && (host in hosts ==> Counted(hosts[host], s.accepted, id, host))
  {
    EveryRunIsSafe(job, moves);
    var s := Run(job, START, moves);
    hide Run, Counted, Heard;
    if i < |job.plan.steps| {
      TallyCounts(s.accepted, job.plan.steps[i].id, host);
      RecapsAreTallies(job, s, i);
    }
  }

  lemma RecapsAreTallies(job: Job, s: State, i: nat)
    requires Inv(job, s) && i < |job.plan.steps|
    ensures i < |s.results| && (i < s.next || s.failure.None?) ==>
      s.results[i].hosts == Tally(s.accepted, job.plan.steps[i].id)
  {
    hide Verified, Numbered, Trace, Tally;
  }

  // ---------------------------------------------------------------- the recorded error

  /** A report that a task failed or its host could not be reached. */
  predicate Failing(e: Event, id: string)
  {
    e.kind == Report && e.stepId == id && (e.status == Failed || e.status == Unreachable)
  }

  /** The error is that of the last failing report, none when there is none. */
  ghost predicate LastError(events: seq<Event>, id: string, error: Option<Problem>)
  {
    && (error == None <==> forall k | 0 <= k < |events| :: !Failing(events[k], id))
    && forall k | 0 <= k < |events| && Failing(events[k], id)
      && (forall m | k < m < |events| :: !Failing(events[m], id)) ::
      error == Some(if events[k].status == Failed then TaskFailed(events[k].task) else HostUnreachable(events[k].host))
  }

  ghost predicate ErrorsKept(job: Job, s: State)
  {
    s.failure.None? && 0 <= s.active < |s.results| && s.active < |job.plan.steps| ==>
      LastError(s.accepted, job.plan.steps[s.active].id, s.results[s.active].error)
  }

  lemma OneMoreError(events: seq<Event>, e: Event, id: string, r: StageResult)
    requires LastError(events, id, r.error) && e.stepId == id
    ensures LastError(events + [e], id, if e.kind.Report? then Recorded(r, e).error else r.error)
  {
    hide Count, RecapOf;
    var more := events + [e];
    assert more[|events|] == e && forall k | 0 <= k < |events| :: more[k] == events[k];
  }

  lemma NothingFailing(events: seq<Event>, id: string)
    requires forall k | 0 <= k < |events| :: events[k].stepId != id
    ensures LastError(events, id, None)
  {
  }

  lemma ObservationKeepsErrors(job: Job, s: State, e: Event, w: World)
    requires Inv(job, s) && ErrorsKept(job, s) && s.failure.None? && s.next < |job.plan.steps|
    requires e.stepId == job.plan.steps[s.next].id
    ensures ErrorsKept(job, HandleObservation(s, e, w).state)
  {
    var t := HandleObservation(s, e, w).state;
    hide Verified, Numbered, Tallied, Trace, LastError, Recorded;
    if t.failure.None? {
      NotedActive(s, e);
      NotedFrame(s, e);
      OneMoreError(s.accepted, e, e.stepId, s.results[s.active]);
    }
  }

  lemma BeginKeepsErrors(job: Job, s: State, w: World)
    requires Inv(job, s) && s.failure.None? && s.next < |job.plan.steps|
    ensures ErrorsKept(job, HandleBegin(job, s, w).state)
  {
    hide Verified, Numbered, Trace, LastError, Preparation;
    if s.active < 0 {
      NothingFailing(s.accepted, job.plan.steps[s.next].id);
    }
  }

  lemma EndKeepsErrors(job: Job, s: State, w: World)
    requires s.failure.None? && s.next < |job.plan.steps| && s.active < |s.results|
    ensures HandleEnd(job, s, w).state.failure.None? ==> HandleEnd(job, s, w).state.active == -1
  {
    hide AllVerified;
  }

  lemma StageKeepsErrors(job: Job, s: State, e: Event, w: World)
    requires Inv(job, s) && ErrorsKept(job, s) && s.failure.None?
    ensures ErrorsKept(job, HandleStage(job, s, e, w).state)
  {
    hide Verified, Numbered, Tallied, Trace, LastError, HandleBegin, HandleEnd, HandleObservation, ForRecovery;
    if s.next < |job.plan.steps| && e.stepId == job.plan.steps[s.next].id {
      if e.kind.Begin? {
        BeginKeepsErrors(job, s, w);
      } else if e.kind.End? {
        EndKeepsErrors(job, s, w);
      } else {
        ObservationKeepsErrors(job, s, e, w);
      }
    }
  }

  lemma HandleKeepsErrors(job: Job, s: State, e: Event, w: World)
    requires Inv(job, s) && s.active < |s.results| && ErrorsKept(job, s)
    ensures ErrorsKept(job, Handle(job, s, e, w).state)
  {
    hide Inv, LastError, HandleStage;
    if s.failure.None? {
      StageKeepsErrors(job, s, e, w);
    }
  }

  lemma ApplyKeepsErrors(job: Job, s: State, m: Move)
    requires Buildable(job.plan) && Inv(job, s) && ErrorsKept(job, s)
    ensures Inv(job, Apply(job, s, m)) && ErrorsKept(job, Apply(job, s, m))
  {
    ApplyKeeps(job, s, m);
    hide Buildable, Inv, LastError, Handle;
    if m.Message? {
      HandleKeepsErrors(job, s, m.event, m.world);
    }
  }

  lemma {:induction false} RunKeepsErrors(job: Job, s: State, moves: seq<Move>)
    requires Buildable(job.plan) && Inv(job, s) && ErrorsKept(job, s)
    ensures Inv(job, Run(job, s, moves)) && ErrorsKept(job, Run(job, s, moves))
    decreases |moves|
  {
    hide Buildable, Verified, Numbered, Tallied, Trace, ErrorsKept, Apply;
    if moves != [] {
      ApplyKeepsErrors(job, s, moves[0]);
      RunKeepsErrors(job, Apply(job, s, moves[0]), moves[1..]);
    }
  }

  /** In every run the error of the stage at work is that of the last report of a failed task or an
      unreachable host, and completed stages have none. */
  lemma EveryErrorIsTheLast(job: Job, moves: seq<Move>)
    requires Buildable(job.plan)
    ensures
      var s := Run(job, START, moves);
      && s.next <= |s.results| && s.active < |s.results| && s.active < |job.plan.steps|
      && (forall i | 0 <= i < s.next :: s.results[i].error == None)
      && (s.failure.None? && s.active >= 0 ==>
            LastError(s.accepted, job.plan.steps[s.active].id, s.results[s.active].error))
  {
    StartInv(job);
    RunKeepsErrors(job, START, moves);
    hide LastError, Run;
  }
}
