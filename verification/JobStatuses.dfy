/** What the durable receipt of a run says of every action (internal/jobcli/run.go:233-251, 404-431),
    in terms of the callbacks that were persisted. */
module JobStatuses {
  import opened JobPlan
  import opened JobController
  import JobSafety
  import opened ActionReceipt
  import opened JobPersistence

  /** The callback reached the disk. */
  predicate Landed(calls: seq<Call>, landed: bool, k: nat)
  {
    k < |calls| && (calls[k].accepted || landed)
  }

  /** A post check of the plan whose parent this step is: the first execute stage of its node with the
      action it checks. */
  ghost predicate Checks(plan: Plan, post: JobStep, step: JobStep)
  {
    post.phase.Post? && FirstParent(plan.steps, post) == Some(step)
  }

  predicate BeginOf(call: Call, step: JobStep)
  {
    call.boundary == BeginStage && call.step == step
  }

  predicate EndOf(call: Call, step: JobStep)
  {
    call.boundary == EndStage && call.step == step
  }

  ghost predicate CheckedBy(plan: Plan, call: Call, step: JobStep)
  {
    call.boundary == EndStage && Checks(plan, call.step, step)
  }

  /** The callback says something about this step. */
  ghost predicate Concerns(plan: Plan, call: Call, step: JobStep)
  {
    BeginOf(call, step) || EndOf(call, step) || CheckedBy(plan, call, step)
  }

  /** The last persisted callback that concerns the step is number k. */
  ghost predicate LastOf(plan: Plan, calls: seq<Call>, landed: bool, step: JobStep, k: nat)
  {
    && Landed(calls, landed, k) && Concerns(plan, calls[k], step)
    && forall m: nat | k < m < |calls| && Landed(calls, landed, m) :: !Concerns(plan, calls[m], step)
  }

  /** The status that the last persisted callback about a step gives it. */
  ghost predicate Decided(plan: Plan, calls: seq<Call>, landed: bool, step: JobStep, status: Option<ActionStatus>)
  {
    && (status == None <==> forall k: nat | Landed(calls, landed, k) :: !Concerns(plan, calls[k], step))
    && forall k: nat | LastOf(plan, calls, landed, step, k) ::
      && (BeginOf(calls[k], step) <==> status == Some(Started))
      && (EndOf(calls[k], step) <==> status == Some(MainSucceeded))
      && (CheckedBy(plan, calls[k], step) <==> status == Some(ActionStatus.Verified))
  }

  lemma ForwardParentIsFirst(r: Receipt, plan: Plan, post: JobStep)
    requires Forward(plan) && r.original == plan && r.steps == plan.steps && post in plan.steps
    ensures Parent(r.steps, r.original, post) == FirstParent(plan.steps, post)
  {
  }

  lemma SameStep(steps: seq<JobStep>, a: JobStep, b: JobStep)
    requires UniqueIds(steps) && a in steps && b in steps
    ensures a.id == b.id <==> a == b
  {
    var i :| 0 <= i < |steps| && steps[i] == a;
    var j :| 0 <= j < |steps| && steps[j] == b;
    if i < j { } else if j < i { }
  }

  /** What one persisted callback does to the status of a step. */
  lemma OneCallback(r: Receipt, plan: Plan, call: Call, step: JobStep)
    requires Forward(plan) && UniqueIds(plan.steps) && r.original == plan && r.steps == plan.steps
    requires call.step in plan.steps && step in plan.steps && step.phase.Execute?
    ensures
      var after := Look(AfterBoundary(r, call.boundary, call.step).actions, step.id);
      && (BeginOf(call, step) ==> after == Some(Started))
      && (EndOf(call, step) ==> after == Some(MainSucceeded))
      && (CheckedBy(plan, call, step) ==> after == Some(ActionStatus.Verified))
      && (!Concerns(plan, call, step) ==> after == Look(r.actions, step.id))
  {
    SameStep(plan.steps, call.step, step);
    ForwardParentIsFirst(r, plan, call.step);
    var parent := FirstParent(plan.steps, call.step);
    if parent.Some? {
      ForwardParent(r, plan, call.step);
      SameStep(plan.steps, parent.value, step);
    }
    hide Parent, Forward, UniqueIds, FirstParent, Acknowledged;
  }

  lemma DecidedNext(plan: Plan, calls: seq<Call>, last: Call, landed: bool, step: JobStep, before: Option<ActionStatus>,
      after: Option<ActionStatus>)
    requires step.phase.Execute? && Decided(plan, calls, landed, step, before)
    requires
      if last.accepted || landed then
        && (BeginOf(last, step) ==> after == Some(Started))
        && (EndOf(last, step) ==> after == Some(MainSucceeded))
        && (CheckedBy(plan, last, step) ==> after == Some(ActionStatus.Verified))
        && (!Concerns(plan, last, step) ==> after == before)
      else after == before
    ensures Decided(plan, calls + [last], landed, step, after)
  {
    hide Checks;
    var more := calls + [last];
    assert forall k: nat | k < |calls| ::
      more[k] == calls[k]
      && (Landed(more, landed, k) <==> Landed(calls, landed, k));
    assert more[|calls|] == last;
    forall k: nat | LastOf(plan, more, landed, step, k)
      ensures BeginOf(more[k], step) <==> after == Some(Started)
      ensures EndOf(more[k], step) <==> after == Some(MainSucceeded)
      ensures CheckedBy(plan, more[k], step) <==> after == Some(ActionStatus.Verified)
    {
      CheckIsNoExecute(plan, more[k], step);
      if k < |calls| {
        assert LastOf(plan, calls, landed, step, k);
      }
    }
  }

  lemma CheckIsNoExecute(plan: Plan, call: Call, step: JobStep)
    requires step.phase.Execute?
    ensures CheckedBy(plan, call, step) ==> !BeginOf(call, step) && !EndOf(call, step)
  {
  }

  /** In any run of a forward plan, from an empty map, the last persisted callback about an execute
      step decides its status: its begin makes it started, its end main_succeeded, the end of a post
      check of it verified; without any it has none. */
  lemma {:induction false} LastCallbackDecides(plan: Plan, calls: seq<Call>, landed: bool, step: JobStep)
    requires Forward(plan) && UniqueIds(plan.steps) && step in plan.steps && step.phase.Execute?
    requires forall k | 0 <= k < |calls| :: calls[k].step in plan.steps
    ensures
      var r := Persisted(Unstarted(plan), calls, landed);
      && r.original == plan && r.steps == plan.steps
      && Decided(plan, calls, landed, step, Look(r.actions, step.id))
    decreases |calls|
  {
    hide Forward, UniqueIds, Decided, AfterBoundary;
    if calls == [] {
      NothingDecided(plan, landed, step);
    } else {
      var less, last := calls[..|calls| - 1], calls[|calls| - 1];
      LastCallbackDecides(plan, less, landed, step);
      var before := Persisted(Unstarted(plan), less, landed);
      OneCallback(before, plan, last, step);
      StaysInPlan(before, last);
      assert calls == less + [last];
      DecidedNext(plan, less, last, landed, step, Look(before.actions, step.id),
        Look(Persisted(Unstarted(plan), calls, landed).actions, step.id));
    }
  }

  lemma StaysInPlan(r: Receipt, call: Call)
    ensures AfterBoundary(r, call.boundary, call.step).original == r.original
    ensures AfterBoundary(r, call.boundary, call.step).steps == r.steps
  {
    hide Updated, Acknowledged;
  }

  lemma NothingDecided(plan: Plan, landed: bool, step: JobStep)
    ensures Decided(plan, [], landed, step, None)
  {
  }

  // ---------------------------------------------------------------- in the order of a controller run

  /** Every post check stands behind the execute stage it checks. */
  ghost predicate ParentsFirst(plan: Plan)
  {
    forall i, j | 0 <= i < |plan.steps| && 0 <= j < |plan.steps| && Checks(plan, plan.steps[j], plan.steps[i]) :: i < j
  }

  /** The begin callback of step i reached the disk. */
  predicate Entered(calls: seq<Call>, landed: bool, i: nat)
  {
    Landed(calls, landed, 2 * i)
  }

  predicate Left(calls: seq<Call>, landed: bool, i: nat)
  {
    Landed(calls, landed, 2 * i + 1)
  }

  /** A post check of step i has ended. */
  ghost predicate Checked(plan: Plan, calls: seq<Call>, landed: bool, i: nat)
    requires i < |plan.steps|
  {
    exists j: nat :: j < |plan.steps| && Checks(plan, plan.steps[j], plan.steps[i]) && Left(calls, landed, j)
  }

  lemma CallAt(plan: Plan, calls: seq<Call>, i: nat, k: nat)
    requires JobSafety.Boundaries(plan.steps, calls) && UniqueIds(plan.steps) && i < |plan.steps| && k < |calls|
    ensures BeginOf(calls[k], plan.steps[i]) <==> k == 2 * i
    ensures EndOf(calls[k], plan.steps[i]) <==> k == 2 * i + 1
  {
    assert calls[k].step == plan.steps[k / 2] && calls[k].boundary == JobSafety.ExpectedBoundary(k);
    SameIndex(plan.steps, i, k / 2);
  }

  lemma SameIndex(steps: seq<JobStep>, i: nat, j: nat)
    requires UniqueIds(steps) && i < |steps| && j < |steps|
    ensures steps[i] == steps[j] <==> i == j
  {
    if i < j { } else if j < i { }
  }

  lemma CheckAt(plan: Plan, calls: seq<Call>, i: nat, k: nat)
    requires JobSafety.Boundaries(plan.steps, calls) && i < |plan.steps| && k < |calls|
    ensures CheckedBy(plan, calls[k], plan.steps[i]) <==> k % 2 == 1 && Checks(plan, plan.steps[k / 2], plan.steps[i])
  {
    assert calls[k].step == plan.steps[k / 2] && calls[k].boundary == JobSafety.ExpectedBoundary(k);
  }

  ghost predicate StatusByCallbacks(plan: Plan, calls: seq<Call>, landed: bool, i: nat, status: Option<ActionStatus>)
    requires i < |plan.steps|
  {
    && (status == None <==> !Entered(calls, landed, i))
    && (status == Some(Started) <==> Entered(calls, landed, i) && !Left(calls, landed, i))
    && (status == Some(MainSucceeded) <==> Left(calls, landed, i) && !Checked(plan, calls, landed, i))
    && (status == Some(ActionStatus.Verified) <==> Checked(plan, calls, landed, i))
  }

  lemma ConcernsAt(plan: Plan, calls: seq<Call>, i: nat, k: nat)
    requires JobSafety.Boundaries(plan.steps, calls) && UniqueIds(plan.steps) && ParentsFirst(plan)
    requires i < |plan.steps| && k < |calls| && Concerns(plan, calls[k], plan.steps[i])
    ensures k == 2 * i || k == 2 * i + 1 || (k > 2 * i + 1 && CheckedBy(plan, calls[k], plan.steps[i]))
  {
    CallAt(plan, calls, i, k);
    CheckAt(plan, calls, i, k);
    hide Checks;
    if CheckedBy(plan, calls[k], plan.steps[i]) {
      assert i < k / 2;
    }
  }

  lemma {:induction false} LastConcern(plan: Plan, calls: seq<Call>, landed: bool, step: JobStep, k: nat)
      returns (last: nat)
    requires Landed(calls, landed, k) && Concerns(plan, calls[k], step)
    ensures k <= last && LastOf(plan, calls, landed, step, last)
    decreases |calls| - k
  {
    hide Concerns;
    if m: nat :| k < m < |calls| && Landed(calls, landed, m) && Concerns(plan, calls[m], step) {
      last := LastConcern(plan, calls, landed, step, m);
    } else {
      last := k;
    }
  }

  lemma NeverEntered(plan: Plan, calls: seq<Call>, landed: bool, i: nat, status: Option<ActionStatus>)
    requires JobSafety.Boundaries(plan.steps, calls) && UniqueIds(plan.steps) && ParentsFirst(plan) && i < |plan.steps|
    requires Decided(plan, calls, landed, plan.steps[i], status) && !Entered(calls, landed, i)
    ensures status == None && !Left(calls, landed, i) && !Checked(plan, calls, landed, i)
  {
    hide Concerns, Checks, UniqueIds;
    forall k: nat | Landed(calls, landed, k)
      ensures !Concerns(plan, calls[k], plan.steps[i])
    {
      if Concerns(plan, calls[k], plan.steps[i]) {
        ConcernsAt(plan, calls, i, k);
      }
    }
  }

  /** The check of step i by step j is number 2j + 1 and concerns step i. */
  lemma CheckConcerns(plan: Plan, calls: seq<Call>, landed: bool, i: nat, j: nat)
    requires JobSafety.Boundaries(plan.steps, calls) && ParentsFirst(plan) && i < |plan.steps| && j < |plan.steps|
    requires Checks(plan, plan.steps[j], plan.steps[i]) && Left(calls, landed, j)
    ensures 2 * j + 1 > 2 * i + 1 && Landed(calls, landed, 2 * j + 1)
    ensures Concerns(plan, calls[2 * j + 1], plan.steps[i])
  {
    CheckAt(plan, calls, i, 2 * j + 1);
  }

  lemma OnceEntered(plan: Plan, calls: seq<Call>, landed: bool, i: nat, status: Option<ActionStatus>)
    requires JobSafety.Boundaries(plan.steps, calls) && UniqueIds(plan.steps) && ParentsFirst(plan) && i < |plan.steps|
    requires Decided(plan, calls, landed, plan.steps[i], status) && Entered(calls, landed, i)
    ensures StatusByCallbacks(plan, calls, landed, i, status)
  {
    var step := plan.steps[i];
    CallAt(plan, calls, i, 2 * i);
    var last := LastConcern(plan, calls, landed, step, 2 * i);
    ConcernsAt(plan, calls, i, last);
    CallAt(plan, calls, i, last);
    CheckAt(plan, calls, i, last);
    if Left(calls, landed, i) {
      CallAt(plan, calls, i, 2 * i + 1);
    }
    forall j: nat | j < |plan.steps| && Checks(plan, plan.steps[j], step) && Left(calls, landed, j)
      ensures last >= 2 * j + 1
    {
      CheckConcerns(plan, calls, landed, i, j);
    }
    LastIsLeft(plan, calls, landed, i, last);
    hide Checks, UniqueIds, JobSafety.Boundaries, ParentsFirst;
    assert status != None;
  }

  lemma LastIsLeft(plan: Plan, calls: seq<Call>, landed: bool, i: nat, last: nat)
    requires JobSafety.Boundaries(plan.steps, calls) && i < |plan.steps| && Landed(calls, landed, last)
    ensures last == 2 * i ==> Entered(calls, landed, i)
    ensures last >= 2 * i + 1 ==> Left(calls, landed, i)
    ensures last % 2 == 1 && Checks(plan, calls[last].step, plan.steps[i]) ==> Checked(plan, calls, landed, i)
  {
    assert calls[last].step == plan.steps[last / 2];
    if last % 2 == 1 && Checks(plan, calls[last].step, plan.steps[i]) {
      assert Left(calls, landed, last / 2);
    }
  }

  /** In any run of the controller over a forward plan whose checks stand behind their actions: an
      execute step is started exactly when its begin was persisted and its end was not, main_succeeded
      exactly when its end was and no post check of it has ended, verified exactly when one has. */
  lemma StatusExactly(job: Job, moves: seq<Move>, landed: bool, i: nat)
    requires Buildable(job.plan) && Forward(job.plan) && ParentsFirst(job.plan)
    requires i < |job.plan.steps| && job.plan.steps[i].phase.Execute?
    ensures
      var calls := Run(job, START, moves).calls;
      var actions := Persisted(Unstarted(job.plan), calls, landed).actions;
      StatusByCallbacks(job.plan, calls, landed, i, Look(actions, job.plan.steps[i].id))
  {
    JobSafety.EveryRunIsSafe(job, moves);
    var calls := Run(job, START, moves).calls;
    RunBoundaries(job, Run(job, START, moves));
    hide JobSafety.Inv, JobSafety.Boundaries, Run, Forward, ParentsFirst, Decided, StatusByCallbacks, Persisted;
    LastCallbackDecides(job.plan, calls, landed, job.plan.steps[i]);
    var status := Look(Persisted(Unstarted(job.plan), calls, landed).actions, job.plan.steps[i].id);
    if Entered(calls, landed, i) {
      OnceEntered(job.plan, calls, landed, i, status);
    } else {
      NeverEntered(job.plan, calls, landed, i, status);
      NothingSaid(job.plan, calls, landed, i);
    }
  }

  lemma NothingSaid(plan: Plan, calls: seq<Call>, landed: bool, i: nat)
    requires i < |plan.steps|
    requires !Entered(calls, landed, i) && !Left(calls, landed, i) && !Checked(plan, calls, landed, i)
    ensures StatusByCallbacks(plan, calls, landed, i, None)
  {
    hide Checked, Landed;
  }

  lemma RunBoundaries(job: Job, s: State)
    requires JobSafety.Inv(job, s)
    ensures JobSafety.Boundaries(job.plan.steps, s.calls)
    ensures forall k | 0 <= k < |s.calls| :: s.calls[k].step in job.plan.steps
  {
    hide JobSafety.Shape, JobSafety.Verified, JobSafety.Numbered, JobSafety.Tallied;
    forall k | 0 <= k < |s.calls|
      ensures s.calls[k].step in job.plan.steps
    {
      assert s.calls[k].step == job.plan.steps[k / 2];
    }
  }

  /** After a successful job every execute step with a post check is verified, and one without is
      main_succeeded. */
  lemma SuccessVerifiesChecked(job: Job, moves: seq<Move>, phaseError: Option<Refusal>, parentCancelled: bool,
      landed: bool, i: nat)
    requires Buildable(job.plan) && Forward(job.plan) && ParentsFirst(job.plan)
    requires i < |job.plan.steps| && job.plan.steps[i].phase.Execute?
    requires Close(job, Run(job, START, moves), phaseError, parentCancelled).successful
    ensures
      var calls := Run(job, START, moves).calls;
      var status := Look(Persisted(Unstarted(job.plan), calls, landed).actions, job.plan.steps[i].id);
      status == if exists j: nat :: j < |job.plan.steps| && Checks(job.plan, job.plan.steps[j], job.plan.steps[i])
        then Some(ActionStatus.Verified) else Some(MainSucceeded)
  {
    StatusExactly(job, moves, landed, i);
    JobSafety.SuccessMeansEveryStepProven(job, moves, phaseError, parentCancelled);
    var calls := Run(job, START, moves).calls;
    hide Run, Close, Persisted, Checks, Forward, ParentsFirst, Buildable;
    EverythingLeft(job.plan, calls, landed);
    EverythingChecked(job.plan, calls, landed, i);
    hide Checked, Left, JobSafety.Proven, JobSafety.Tally;
  }

  lemma EverythingLeft(plan: Plan, calls: seq<Call>, landed: bool)
    requires |calls| == 2 * |plan.steps|
    requires forall k | 0 <= k < |calls| :: calls[k] == Call(JobSafety.ExpectedBoundary(k), plan.steps[k / 2], true)
    ensures forall j: nat | j < |plan.steps| :: Left(calls, landed, j)
  {
  }

  lemma EverythingChecked(plan: Plan, calls: seq<Call>, landed: bool, i: nat)
    requires i < |plan.steps| && forall j: nat | j < |plan.steps| :: Left(calls, landed, j)
    ensures Checked(plan, calls, landed, i)
      <==> exists j: nat :: j < |plan.steps| && Checks(plan, plan.steps[j], plan.steps[i])
  {
    hide Checks, Left;
  }
}
