/** What resuming a job runs, for any plan (internal/ansible/job_plugins/cf_recovery.py:15-64): the
    execute stages not acknowledged yet, each exactly once over any number of attempts, behind fresh
    checks of what is already settled. */
module JobRetry {
  import opened JobPlan
  import opened ActionReceipt
  import JobController
  import JobSafety
  import opened RollbackSessions
  import opened RollbackSafety

  // ---------------------------------------------------------------- the checks in front

  predicate Pending(steps: seq<JobStep>, start: nat, step: JobStep)
    requires start <= |steps|
  {
    exists m | start <= m < |steps| :: Instance(steps[m]) == Instance(step)
  }

  lemma {:induction false} RefreshedFrom(steps: seq<JobStep>, parents: seq<JobStep>, start: nat, upto: nat)
    requires upto <= start <= |steps|
    ensures forall x :: x in Refreshed(steps, parents, start, upto) <==>
      exists k :: 0 <= k < upto && Refreshes(steps, parents, start, k) && x == RefreshCheck(steps[k])
  {
    hide Refreshes, RefreshCheck;
    if upto > 0 {
      RefreshedFrom(steps, parents, start, upto - 1);
    }
  }

  predicate OnePerInstance(steps: seq<JobStep>)
  {
    forall i, j | 0 <= i < j < |steps| :: Instance(steps[i]) != Instance(steps[j])
  }

  lemma {:induction false} RefreshedOnce(steps: seq<JobStep>, parents: seq<JobStep>, start: nat, upto: nat)
    requires upto <= start <= |steps|
    ensures OnePerInstance(Refreshed(steps, parents, start, upto))
  {
    hide Refreshable, Refreshes;
    if upto > 0 {
      var before := Refreshed(steps, parents, start, upto - 1);
      RefreshedOnce(steps, parents, start, upto - 1);
      if Refreshes(steps, parents, start, upto - 1) {
        RefreshedFrom(steps, parents, start, upto - 1);
        forall i | 0 <= i < |before|
          ensures Instance(before[i]) != Instance(steps[upto - 1])
        {
          assert before[i] in before;
          var k :| 0 <= k < upto - 1 && Refreshes(steps, parents, start, k) && before[i] == RefreshCheck(steps[k]);
          LaterCheckDiffers(steps, parents, start, k, upto - 1);
        }
        OneMoreInstance(before, RefreshCheck(steps[upto - 1]));
      } else {
        assert Refreshed(steps, parents, start, upto) == before;
      }
    }
  }

  lemma LaterCheckDiffers(steps: seq<JobStep>, parents: seq<JobStep>, start: nat, k: nat, m: nat)
    requires k < m < start <= |steps| && Refreshes(steps, parents, start, k) && Refreshes(steps, parents, start, m)
    ensures Instance(steps[k]) != Instance(steps[m])
  {
    hide Refreshable, Instance;
  }

  lemma OneMoreInstance(before: seq<JobStep>, x: JobStep)
    requires OnePerInstance(before)
    requires forall i | 0 <= i < |before| :: Instance(before[i]) != Instance(x)
    ensures OnePerInstance(before + [x])
  {
    hide Instance;
  }

  /** The last refreshable check of an instance. */
  lemma {:induction false} LastCheck(steps: seq<JobStep>, parents: seq<JobStep>, start: nat, k: nat) returns (last: nat)
    requires k < start <= |steps| && Refreshable(parents, steps[k]) && !Pending(steps, start, steps[k])
    ensures k <= last < start && Refreshes(steps, parents, start, last) && Instance(steps[last]) == Instance(steps[k])
    decreases start - k
  {
    hide Refreshable, Instance;
    if m: nat :| k < m < start && Refreshable(parents, steps[m]) && Instance(steps[m]) == Instance(steps[k]) {
      last := LastCheck(steps, parents, start, m);
    } else {
      last := k;
    }
  }

  /** In front of a resumed list stands, for each component instance with a refreshable check and
      nothing left to do, its last such check and no other. */
  lemma RefreshedExactly(steps: seq<JobStep>, parents: seq<JobStep>, start: nat)
    requires start <= |steps|
    ensures
      var r := Refreshed(steps, parents, start, start);
      && (forall x :: x in r <==>
        exists k :: 0 <= k < start && Refreshes(steps, parents, start, k) && x == RefreshCheck(steps[k]))
      && OnePerInstance(r)
      && forall k | 0 <= k < start && Refreshable(parents, steps[k]) && !Pending(steps, start, steps[k]) ::
        exists x :: x in r && Instance(x) == Instance(steps[k])
  {
    RefreshedFrom(steps, parents, start, start);
    RefreshedOnce(steps, parents, start, start);
    hide Refreshable, Refreshes, Refreshed, Pending;
    forall k | 0 <= k < start && Refreshable(parents, steps[k]) && !Pending(steps, start, steps[k])
      ensures exists x :: x in Refreshed(steps, parents, start, start) && Instance(x) == Instance(steps[k])
    {
      var last := LastCheck(steps, parents, start, k);
      assert RefreshCheck(steps[last]) in Refreshed(steps, parents, start, start);
    }
  }

  // ---------------------------------------------------------------- one resumption

  function Executes(steps: seq<JobStep>): seq<JobStep>
    decreases |steps|
  {
    if steps == [] then []
    else Executes(steps[..|steps| - 1]) + if steps[|steps| - 1].phase.Execute? then [steps[|steps| - 1]] else []
  }

  lemma {:induction false} ExecutesConcat(a: seq<JobStep>, b: seq<JobStep>)
    ensures Executes(a + b) == Executes(a) + Executes(b)
    decreases |b|
  {
    if b == [] {
      assert a + b == a;
    } else {
      assert (a + b)[..|a + b| - 1] == a + b[..|b| - 1];
      ExecutesConcat(a, b[..|b| - 1]);
    }
  }

  lemma {:induction false} NoExecutes(steps: seq<JobStep>)
    requires forall i | 0 <= i < |steps| :: !steps[i].phase.Execute?
    ensures Executes(steps) == []
    decreases |steps|
  {
    if steps != [] {
      NoExecutes(steps[..|steps| - 1]);
    }
  }

  lemma ListingStart(steps: seq<JobStep>, done: nat, active: bool)
    requires UniqueIds(steps) && done + (if active then 1 else 0) <= |steps|
    ensures FirstIncomplete(steps, Listing(steps, done, active), 0) == done
  {
    hide Listing, Completed;
    var results := Listing(steps, done, active);
    forall k | 0 <= k < |steps|
      ensures Completed(results, steps[k].id) <==> k < done
    {
      ListingCompleted(steps, done, active, k);
    }
    var start := FirstIncomplete(steps, results, 0);
    assert done < |steps| ==> !Completed(results, steps[done].id);
    assert start < |steps| ==> !Completed(results, steps[start].id);
  }

  lemma RefreshesAreChecks(steps: seq<JobStep>, parents: seq<JobStep>, start: nat)
    requires start <= |steps|
    ensures forall i | 0 <= i < |Refreshed(steps, parents, start, start)| ::
      Refreshed(steps, parents, start, start)[i].phase.CheckPhase?
  {
    RefreshedFrom(steps, parents, start, start);
    var r := Refreshed(steps, parents, start, start);
    hide Refreshed, Refreshes;
    forall i | 0 <= i < |r|
      ensures r[i].phase.CheckPhase?
    {
      assert r[i] in r;
    }
  }

  /** Where a resumed list goes on: at the first stage not acknowledged, or at the precheck in front. */
  lemma RetryFrom(steps: seq<JobStep>, recovery: seq<JobStep>, metadata: seq<JobStep>, results: seq<StageRecord>,
      done: nat) returns (from: nat)
    requires FirstIncomplete(steps, results, 0) == done && RetryStages(steps, recovery, metadata, results).Success?
    ensures done < |steps| && from <= done <= from + 1 && (from < done ==> steps[from].phase.Pre?)
    ensures RetryStages(steps, recovery, metadata, results).value == Continuation(steps, recovery, metadata, from)
    ensures steps[done].acceptance ==> steps[done].retrySafe
    ensures steps[done].phase.Execute? ==>
      && steps[done].retrySafe && (from < done || steps[done].action.Rollback?)
      && (from < done ==>
        Instance(steps[from]) == Instance(steps[done])
        && steps[from].parentActionId == steps[done].actionId)
  {
    hide FirstIncomplete, Continuation, Instance;
    from := if steps[done].phase.Execute? && HasPrecheck(steps, done) then done - 1 else done;
  }

  /** Resuming after a run that acknowledged `done` stages: fresh checks, then from there every stage in
      order, none of the acknowledged execute stages among them; a begun action is repeated only if it
      is declared safe, and then behind its own precheck or as a rollback. */
  lemma ResumedStages(steps: seq<JobStep>, recovery: seq<JobStep>, metadata: seq<JobStep>, done: nat, active: bool)
      returns (from: nat)
    requires UniqueIds(steps) && done + (if active then 1 else 0) <= |steps|
    requires RetryStages(steps, recovery, metadata, Listing(steps, done, active)).Success?
    ensures done < |steps| && from <= done <= from + 1 && (from < done ==> steps[from].phase.Pre?)
    ensures
      var stages := RetryStages(steps, recovery, metadata, Listing(steps, done, active)).value;
      && stages == Refreshed(steps, steps + recovery + metadata, from, from) + steps[from..]
      && Executes(stages) == Executes(steps[done..])
    ensures steps[done].phase.Execute? ==> steps[done].retrySafe && (from < done || steps[done].action.Rollback?)
  {
    ListingStart(steps, done, active);
    hide RetryStages, FirstIncomplete, Listing, Refreshed;
    from := RetryFrom(steps, recovery, metadata, Listing(steps, done, active), done);
    var checks := Refreshed(steps, steps + recovery + metadata, from, from);
    RefreshesAreChecks(steps, steps + recovery + metadata, from);
    NoExecutes(checks);
    ExecutesConcat(checks, steps[from..]);
    SkippedPrecheck(steps, from, done);
    assert [] + Executes(steps[done..]) == Executes(steps[done..]);
  }

  lemma SkippedPrecheck(steps: seq<JobStep>, from: nat, done: nat)
    requires from <= done <= from + 1 && done <= |steps| && (from < done ==> steps[from].phase.Pre?)
    ensures Executes(steps[from..]) == Executes(steps[done..])
  {
    if from < done {
      assert steps[from..] == [steps[from]] + steps[done..];
      NoExecutes([steps[from]]);
      ExecutesConcat([steps[from]], steps[done..]);
      assert [] + Executes(steps[done..]) == Executes(steps[done..]);
    }
  }

  // ---------------------------------------------------------------- any number of attempts

  /** One attempt at a list: how many stages it acknowledged, and whether it left one active. */
  datatype Attempt = Attempt(done: nat, active: bool)

  /** The execute stages acknowledged so far, in order, and the list the next attempt will run. */
  datatype Progress = Progress(acknowledged: seq<JobStep>, rest: seq<JobStep>)

  /** What attempts and resumptions in turn lead to, None when one of them is refused; a list whose ids
      are not unique is refused when the job is built. */
  function After(steps: seq<JobStep>, recovery: seq<JobStep>, metadata: seq<JobStep>,
      attempts: seq<Attempt>): Option<Progress>
    decreases |attempts|
  {
    if attempts == [] then Some(Progress([], steps))
    else
      var before := After(steps, recovery, metadata, attempts[..|attempts| - 1]);
      var a := attempts[|attempts| - 1];
      if before.None? then None
      else
        var list := before.value.rest;
        if !UniqueIds(list) || a.done + (if a.active then 1 else 0) > |list| then None
        else
          var retry := RetryStages(list, recovery, metadata, Listing(list, a.done, a.active));
          if retry.Failure? then None
          else Some(Progress(before.value.acknowledged + Executes(list[..a.done]), retry.value))
  }

  /** Over any number of attempts no execute stage is lost and none is acknowledged twice: those
      acknowledged so far followed by those still listed are those of the plan. */
  lemma {:induction false} EveryExecuteOnce(steps: seq<JobStep>, recovery: seq<JobStep>, metadata: seq<JobStep>,
      attempts: seq<Attempt>)
    requires After(steps, recovery, metadata, attempts).Some?
    ensures
      var p := After(steps, recovery, metadata, attempts).value;
      Executes(steps) == p.acknowledged + Executes(p.rest)
    decreases |attempts|
  {
    hide RetryStages, Executes, Listing, UniqueIds;
    if attempts == [] {
      assert [] + Executes(steps) == Executes(steps);
    } else {
      var a := attempts[|attempts| - 1];
      EveryExecuteOnce(steps, recovery, metadata, attempts[..|attempts| - 1]);
      var before := After(steps, recovery, metadata, attempts[..|attempts| - 1]).value;
      var list := before.rest;
      var from := ResumedStages(list, recovery, metadata, a.done, a.active);
      ExecutesConcat(list[..a.done], list[a.done..]);
      assert list[..a.done] + list[a.done..] == list;
      Regroup(before.acknowledged, Executes(list[..a.done]), Executes(list[a.done..]));
    }
  }

  lemma Regroup(a: seq<JobStep>, b: seq<JobStep>, c: seq<JobStep>)
    ensures a + (b + c) == (a + b) + c
  {
  }

  lemma {:induction false} ExecutesAreMembers(steps: seq<JobStep>)
    requires UniqueIds(steps)
    ensures UniqueIds(Executes(steps)) && forall x | x in Executes(steps) :: x in steps
    decreases |steps|
  {
    if steps != [] {
      var before, last := steps[..|steps| - 1], steps[|steps| - 1];
      ExecutesAreMembers(before);
      assert steps == before + [last];
      forall i | 0 <= i < |Executes(before)|
        ensures Executes(before)[i].id != last.id
      {
        assert Executes(before)[i] in before;
        var k :| 0 <= k < |before| && before[k] == Executes(before)[i];
        assert steps[k] == before[k];
      }
    }
  }

  /** So an execute stage that was acknowledged once is never run again. */
  lemma AcknowledgedNeverAgain(steps: seq<JobStep>, recovery: seq<JobStep>, metadata: seq<JobStep>,
      attempts: seq<Attempt>)
    requires UniqueIds(steps) && After(steps, recovery, metadata, attempts).Some?
    ensures
      var p := After(steps, recovery, metadata, attempts).value;
      && UniqueIds(p.acknowledged)
      && forall i, j | 0 <= i < |p.acknowledged| && 0 <= j < |Executes(p.rest)| ::
        p.acknowledged[i].id != Executes(p.rest)[j].id
  {
    hide Executes, After, UniqueIds;
    EveryExecuteOnce(steps, recovery, metadata, attempts);
    ExecutesAreMembers(steps);
    var p := After(steps, recovery, metadata, attempts).value;
    ApartIfUnique(p.acknowledged, Executes(p.rest));
  }

  lemma ApartIfUnique(a: seq<JobStep>, b: seq<JobStep>)
    requires UniqueIds(a + b)
    ensures UniqueIds(a) && forall i, j | 0 <= i < |a| && 0 <= j < |b| :: a[i].id != b[j].id
  {
    var all := a + b;
    forall i, j | 0 <= i < |a| && 0 <= j < |b|
      ensures a[i].id != b[j].id
    {
      assert all[i] == a[i] && all[|a| + j] == b[j];
    }
    forall i, j | 0 <= i < j < |a|
      ensures a[i].id != a[j].id
    {
      assert all[i] == a[i] && all[j] == a[j];
    }
  }

  // ---------------------------------------------------------------- the results of a job

  function Records(results: seq<JobController.StageResult>): (r: seq<StageRecord>)
    ensures |r| == |results|
    ensures forall i | 0 <= i < |r| ::
      r[i] == StageRecord(results[i].stepId, results[i].status == JobController.Succeeded)
  {
    seq(|results|, i requires 0 <= i < |results| =>
      StageRecord(results[i].stepId, results[i].status == JobController.Succeeded))
  }

  /** The results that any run of the controller reports are those of an attempt. */
  lemma EveryRunIsAnAttempt(job: JobController.Job, moves: seq<JobController.Move>,
      phaseError: Option<JobController.Refusal>, parentCancelled: bool) returns (a: Attempt)
    requires Buildable(job.plan)
    ensures
      var s := JobController.Run(job, JobController.START, moves);
      && a.done == s.next && a.done + (if a.active then 1 else 0) <= |job.plan.steps|
      && Records(JobController.Close(job, s, phaseError, parentCancelled).steps)
        == Listing(job.plan.steps, a.done, a.active)
  {
    SessionsAreControllerRuns(job, moves, phaseError, parentCancelled);
    JobSafety.EveryRunIsSafe(job, moves);
    var s := JobController.Run(job, JobController.START, moves);
    var calls, live := |s.calls|, !JobSafety.Rejected(s.calls);
    a := Attempt(Done(calls, live), LeftActive(calls, live));
    hide JobController.Close, Listing, JobController.Run;
    assert Done(calls, live) == s.next;
  }
}
