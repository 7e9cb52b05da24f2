/** The rules by which a receipt is read (internal/jobcli/run.go:267-290, 404-441 and
    internal/ansible/job_plugins/cf_recovery.py:15-64), stated without the functions that apply them. */
module ReceiptRules {
  import opened JobPlan
  import opened ActionReceipt
  import opened JobRetry
  import JobController

  // ---------------------------------------------------------------- the parent of a check

  /** An execute stage on the same node, with the action the check names, recovering the same action. */
  ghost predicate Matches(candidate: JobStep, check: JobStep)
  {
    && candidate.phase == Execute && candidate.nodeId == check.nodeId
    && candidate.actionId == check.parentActionId && candidate.recoveryOfStepId == check.recoveryOfStepId
  }

  lemma {:induction false} FirstParentIs(steps: seq<JobStep>, check: JobStep, k: nat)
    requires k < |steps| && Matches(steps[k], check) && forall j | 0 <= j < k :: !Matches(steps[j], check)
    ensures FirstParent(steps, check) == Some(steps[k])
  {
    if k > 0 {
      assert !IsParent(steps[0], check);
      assert forall j | 0 <= j < k - 1 :: steps[1..][j] == steps[j + 1];
      FirstParentIs(steps[1..], check, k - 1);
    }
  }

  lemma NoParentIs(steps: seq<JobStep>, check: JobStep)
    ensures FirstParent(steps, check) == None <==> forall k | 0 <= k < |steps| :: !Matches(steps[k], check)
  {
    assert forall x :: Matches(x, check) <==> IsParent(x, check);
    hide Matches, IsParent;
  }

  /** The first match of a list is behind the matches of another in front of it. */
  lemma {:induction false} FirstOfBoth(a: seq<JobStep>, b: seq<JobStep>, check: JobStep)
    ensures FirstParent(a + b, check) == if FirstParent(a, check).Some? then FirstParent(a, check)
      else FirstParent(b, check)
  {
    if a == [] {
      assert a + b == b;
    } else {
      assert (a + b)[0] == a[0] && (a + b)[1..] == a[1..] + b;
      FirstOfBoth(a[1..], b, check);
    }
  }

  /** The parent is the first match among the running stages, the original steps and the recovery, in
      this order; without a match there is none. */
  lemma ParentIsFirstMatch(current: seq<JobStep>, original: Plan, check: JobStep)
    ensures
      var all := current + original.steps + original.recovery;
      && (Parent(current, original, check) == None <==> forall k | 0 <= k < |all| :: !Matches(all[k], check))
      && forall k | 0 <= k < |all| && Matches(all[k], check) && (forall j | 0 <= j < k :: !Matches(all[j], check)) ::
        Parent(current, original, check) == Some(all[k])
  {
    var all := current + original.steps + original.recovery;
    hide FirstParent, Matches;
    FirstOfBoth(current, original.steps, check);
    FirstOfBoth(current + original.steps, original.recovery, check);
    assert Parent(current, original, check) == FirstParent(all, check);
    hide Parent;
    NoParentIs(all, check);
    forall k | 0 <= k < |all| && Matches(all[k], check) && (forall j | 0 <= j < k :: !Matches(all[j], check))
      ensures Parent(current, original, check) == Some(all[k])
    {
      FirstParentIs(all, check, k);
    }
  }

  // ---------------------------------------------------------------- what a boundary marks

  /** The original action captured the baseline with this reference. */
  ghost predicate Captured(original: Plan, id: string, ref: Option<string>)
  {
    exists o :: o in original.steps && o.id == id && o.phase == Execute && o.captures && o.backupRef == ref
  }

  /** The end of a post check with a parent. */
  ghost predicate Verifies(r: Receipt, b: JobController.Boundary, step: JobStep)
  {
    step.phase == Post && b == JobController.EndStage && Parent(r.steps, r.original, step) != None
  }

  /** A boundary of an execute stage marks that stage. The end of a post check marks its parent; where that
      takes something back, also the source and every original action that captured the parent's baseline.
      Nothing else is marked. */
  lemma MarkedExactly(r: Receipt, b: JobController.Boundary, step: JobStep, id: string)
    ensures
      var before, after := Look(r.actions, id), Look(Updated(r, b, step), id);
      if step.phase == Execute then
        after == if id == step.id then Some(if b == JobController.EndStage then MainSucceeded else Started) else before
      else if Verifies(r, b, step) then
        var parent := Parent(r.steps, r.original, step).value;
        after ==
          if (parent.action == ActionKind.Rollback || parent.action == Uninstall)
            && ((id == step.recoveryOfStepId && id != "") || Captured(r.original, id, parent.backupRef))
          then Some(RolledBack)
          else if id == parent.id then Some(ActionStatus.Verified) else before
      else after == before
  {
    hide Parent;
    if Verifies(r, b, step) {
      var parent := Parent(r.steps, r.original, step).value;
      CapturedIs(r.original, id, parent.backupRef);
    }
    hide Captured, CapturedWith;
  }

  lemma CapturedIs(original: Plan, id: string, ref: Option<string>)
    ensures Captured(original, id, ref)
      <==> exists k :: 0 <= k < |original.steps| && original.steps[k].id == id && CapturedWith(original.steps[k], ref)
  {
  }

  // ---------------------------------------------------------------- which stages are done

  /** The last result with this id says succeeded. */
  ghost predicate LastSucceeded(results: seq<StageRecord>, id: string)
  {
    exists i :: 0 <= i < |results| && results[i] == StageRecord(id, true) && forall j | i < j < |results| ::
      results[j].stepId != id
  }

  lemma {:induction false} CompletedIsLast(results: seq<StageRecord>, id: string)
    ensures Completed(results, id) <==> LastSucceeded(results, id)
    decreases |results|
  {
    if results != [] {
      var n, before := |results| - 1, results[..|results| - 1];
      CompletedIsLast(before, id);
      assert forall i | 0 <= i < n :: before[i] == results[i];
      if LastSucceeded(before, id) && results[n].stepId != id {
        var i :| 0 <= i < n && before[i] == StageRecord(id, true) && forall j | i < j < n :: before[j].stepId != id;
        assert results[i] == StageRecord(id, true);
      }
      if LastSucceeded(results, id) && results[n].stepId != id {
        var i :| 0 <= i < |results| && results[i] == StageRecord(id, true) && forall j | i < j < |results| ::
          results[j].stepId != id;
        assert before[i] == StageRecord(id, true);
      }
    }
  }

  /** A plan has succeeded when it has stages and the last result of each says so. */
  lemma SucceededExactly(steps: seq<JobStep>, results: seq<StageRecord>)
    ensures AllSucceeded(steps, results) <==> steps != [] && forall x | x in steps :: LastSucceeded(results, x.id)
  {
    forall x | x in steps
      ensures Completed(results, x.id) <==> LastSucceeded(results, x.id)
    {
      CompletedIsLast(results, x.id);
    }
    hide Completed, LastSucceeded;
  }

  // ---------------------------------------------------------------- why a job is not resumed

  /** The stage in front checks what this one does. */
  ghost predicate PrecheckOf(check: JobStep, step: JobStep)
  {
    && check.phase == Pre && check.parentActionId == step.actionId
    && check.componentId + "/" + check.nodeId == step.componentId + "/" + step.nodeId
  }

  /** The first stage that has not succeeded. */
  ghost predicate FirstOpen(steps: seq<JobStep>, results: seq<StageRecord>, k: nat)
  {
    k < |steps| && !LastSucceeded(results, steps[k].id) && forall j | 0 <= j < k :: LastSucceeded(results, steps[j].id)
  }

  ghost predicate NotResumed(steps: seq<JobStep>, results: seq<StageRecord>, problem: RetryError)
  {
    match problem
    case NothingIncomplete => forall j | 0 <= j < |steps| :: LastSucceeded(results, steps[j].id)
    case AcceptanceNotReplayable =>
      exists k: nat :: FirstOpen(steps, results, k) && steps[k].acceptance && !steps[k].retrySafe
    case NotRetrySafe =>
      exists k: nat ::
        FirstOpen(steps, results, k) && !steps[k].acceptance && steps[k].phase == Execute && !steps[k].retrySafe
    case NoPrecheck =>
      exists k: nat ::
        && FirstOpen(steps, results, k) && steps[k].phase == Execute && steps[k].retrySafe
        && steps[k].action != ActionKind.Rollback && !(k > 0 && PrecheckOf(steps[k - 1], steps[k]))
  }

  lemma FirstOpenIs(steps: seq<JobStep>, results: seq<StageRecord>)
    ensures
      var start := FirstIncomplete(steps, results, 0);
      if start == |steps| then forall j | 0 <= j < |steps| :: LastSucceeded(results, steps[j].id)
      else FirstOpen(steps, results, start)
    ensures forall k: nat | FirstOpen(steps, results, k) :: k == FirstIncomplete(steps, results, 0)
  {
    forall k | 0 <= k < |steps|
      ensures Completed(results, steps[k].id) <==> LastSucceeded(results, steps[k].id)
    {
      CompletedIsLast(results, steps[k].id);
    }
    hide Completed, LastSucceeded, FirstIncomplete;
    forall k: nat | FirstOpen(steps, results, k)
      ensures k == FirstIncomplete(steps, results, 0)
    {
      assert !LastSucceeded(results, steps[k].id);
    }
  }

  /** Resuming is refused for a reason exactly when it applies to the first stage that has not succeeded. */
  lemma NotResumedExactly(steps: seq<JobStep>, recovery: seq<JobStep>, metadata: seq<JobStep>,
      results: seq<StageRecord>,
      problem: RetryError)
    ensures RetryStages(steps, recovery, metadata, results) == Failure(problem) <==> NotResumed(steps, results, problem)
  {
    FirstOpenIs(steps, results);
    hide LastSucceeded, FirstIncomplete, Continuation;
    var start := FirstIncomplete(steps, results, 0);
    if start < |steps| {
      assert FirstOpen(steps, results, start);
      assert exists j :: 0 <= j < |steps| && !LastSucceeded(results, steps[j].id);
      hide FirstOpen;
    }
  }

  // ---------------------------------------------------------------- which checks are run again

  /** Some execute stage takes down what this stage belongs to. */
  ghost predicate TornDown(parents: seq<JobStep>, step: JobStep)
  {
    exists p :: p in parents && p.phase == Execute && (p.action == ActionKind.Rollback || p.action == Uninstall)
      && p.componentId + "/" + p.nodeId == step.componentId + "/" + step.nodeId && p.actionId == step.parentActionId
  }

  /** A finished check that can be run again: a post or standalone check of nothing torn down. */
  ghost predicate Repeatable(parents: seq<JobStep>, step: JobStep)
  {
    (step.phase == Post || step.phase == CheckPhase) && !TornDown(parents, step)
  }

  ghost predicate SameInstance(a: JobStep, b: JobStep)
  {
    a.componentId + "/" + a.nodeId == b.componentId + "/" + b.nodeId
  }

  /** Number k is the last repeatable check of its instance in front of `start`, which has nothing left. */
  ghost predicate RunAgain(steps: seq<JobStep>, parents: seq<JobStep>, start: nat, k: nat)
    requires start <= |steps|
  {
    && k < start && Repeatable(parents, steps[k])
    && (forall m | k < m < start && SameInstance(steps[m], steps[k]) :: !Repeatable(parents, steps[m]))
    && forall m | start <= m < |steps| :: !SameInstance(steps[m], steps[k])
  }

  /** The check as it is run again: the same, as a standalone check, under a name that says so. */
  ghost predicate AgainAs(step: JobStep, again: JobStep)
  {
    && again == step.(id := again.id, phase := CheckPhase)
    && (if "refresh-" <= step.id then again.id == step.id else again.id == "refresh-" + step.id)
  }

  lemma RepeatableIs(parents: seq<JobStep>, step: JobStep)
    ensures Refreshable(parents, step) <==> Repeatable(parents, step)
  {
  }

  lemma RunAgainIs(steps: seq<JobStep>, parents: seq<JobStep>, start: nat, k: nat)
    requires k < start <= |steps|
    ensures Refreshes(steps, parents, start, k) <==> RunAgain(steps, parents, start, k)
  {
    forall m | 0 <= m < |steps|
      ensures Refreshable(parents, steps[m]) <==> Repeatable(parents, steps[m])
    {
      RepeatableIs(parents, steps[m]);
    }
    hide Refreshable, Repeatable;
  }

  /** In front of a resumed list stand exactly these checks, one for each instance. */
  lemma RunAgainExactly(steps: seq<JobStep>, parents: seq<JobStep>, start: nat)
    requires start <= |steps|
    ensures
      var r := Refreshed(steps, parents, start, start);
      && (forall x :: x in r <==> exists k: nat :: RunAgain(steps, parents, start, k) && AgainAs(steps[k], x))
      && forall i, j | 0 <= i < j < |r| :: !SameInstance(r[i], r[j])
  {
    RefreshedExactly(steps, parents, start);
    forall k: nat | k < start
      ensures Refreshes(steps, parents, start, k) <==> RunAgain(steps, parents, start, k)
      ensures forall x :: x == RefreshCheck(steps[k]) <==> AgainAs(steps[k], x)
    {
      RunAgainIs(steps, parents, start, k);
      AgainIs(steps[k]);
    }
    hide Refreshed, Refreshes, RefreshCheck, AgainAs;
    assert forall k: nat | RunAgain(steps, parents, start, k) :: k < start;
    hide RunAgain;
  }

  lemma AgainIs(step: JobStep)
    ensures forall x :: x == RefreshCheck(step) <==> AgainAs(step, x)
  {
  }
}
