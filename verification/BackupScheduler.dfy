/** The snapshot scheduler (internal/backup/scheduler.go:130-231) as a protocol: publications request
    snapshots through a bounded queue that drops requests when full, one goroutine collects them and
    takes snapshots, and SnapshotNow takes others in between under the same lock. */
module BackupScheduler {
  import opened JobPlan

  const QUEUE_SIZE: nat := 64

  datatype Phase =
    | Idle
    | Collecting(reasons: set<string>)
    | Locking(reasons: set<string>)
    | Snapshotting
    | Retrying

  datatype Holder = Nobody | TheLoop | ACaller

  /** generation is the database's publication counter; captured what the running snapshot copied;
      backedUp the generation of the last successful snapshot; requested the highest generation
      whose Request has returned. */
  datatype State = State(
    enabled: bool,
    generation: nat,
    requested: nat,
    queue: seq<string>,
    phase: Phase,
    holder: Holder,
    captured: Option<nat>,
    backedUp: nat)

  datatype Step =
    | Publish
    | Request(generation: nat, reason: string)
    | SetEnabled(enabled: bool)
    | Take
    | Collect
    | TimerFires
    | LoopLocks
    | CallerLocks
    | Capture
    | Finish(success: bool)
    | RetryFires

  const RETRY: string := "retry-after-failure"

  function Start(generation: nat, backedUp: nat): State
  {
    State(true, generation, 0, [], Idle, Nobody, None, backedUp)
  }

  function Enqueued(s: State, reason: string): seq<string>
  {
    if s.enabled && |s.queue| < QUEUE_SIZE then s.queue + [reason] else s.queue
  }

  /** Whether a step can happen; a step that cannot changes nothing. */
  predicate Possible(s: State, step: Step)
  {
    match step
    case Publish => true
    case Request(generation, _) => generation <= s.generation
    case SetEnabled(_) => true
    case Take => s.phase.Idle? && s.queue != []
    case Collect => s.phase.Collecting? && s.queue != []
    case TimerFires => s.phase.Collecting?
    case LoopLocks => s.phase.Locking? && s.holder.Nobody?
    case CallerLocks => s.holder.Nobody?
    case Capture => !s.holder.Nobody? && s.captured.None?
    case Finish(success) => !s.holder.Nobody? && (success ==> s.captured.Some?)
    case RetryFires => s.phase.Retrying?
  }

  function Next(s: State, step: Step): State
    requires Possible(s, step)
  {
    match step
    case Publish => s.(generation := s.generation + 1)
    case Request(generation, reason) =>
      if !s.enabled then s
      else s.(queue := Enqueued(s, reason), requested := if generation > s.requested then generation else s.requested)
    case SetEnabled(enabled) => s.(enabled := enabled)
    case Take => s.(queue := s.queue[1..], phase := Collecting({s.queue[0]}))
    case Collect => s.(queue := s.queue[1..], phase := Collecting(s.phase.reasons + {s.queue[0]}))
    case TimerFires => s.(phase := Locking(s.phase.reasons))
    case LoopLocks => s.(phase := Snapshotting, holder := TheLoop)
    case CallerLocks => s.(holder := ACaller)
    case Capture => s.(captured := Some(s.generation))
    case Finish(success) =>
      s.(backedUp := if success then s.captured.value else s.backedUp,
         phase := if s.holder.ACaller? then s.phase else if success then Idle else Retrying,
         holder := Nobody, captured := None)
    case RetryFires => s.(queue := Enqueued(s, RETRY), phase := Idle)
  }

  function Do(s: State, step: Step): State
  {
    if Possible(s, step) then Next(s, step) else s
  }

  function Run(s: State, steps: seq<Step>): State
    decreases |steps|
  {
    if steps == [] then s else Do(Run(s, steps[..|steps| - 1]), steps[|steps| - 1])
  }

  // ---------------------------------------------------------------- nothing requested is forgotten

  /** Someone will still back this generation up, or has. */
  predicate Covered(s: State, generation: nat)
  {
    || generation <= s.backedUp
    || s.queue != []
    || s.phase.Collecting? || s.phase.Locking? || s.phase.Retrying?
    || (s.phase.Snapshotting? && (s.captured.None? || generation <= s.captured.value))
  }

  predicate Inv(s: State)
  {
    && s.requested <= s.generation && s.backedUp <= s.generation
    && |s.queue| <= QUEUE_SIZE
    && (s.phase.Snapshotting? <==> s.holder.TheLoop?)
    && (s.captured.Some? ==> !s.holder.Nobody? && s.backedUp <= s.captured.value <= s.generation)
  }

  /** Enabled when the retry fires, or something else already waits in the queue, or nothing was missed. */
  predicate RetryKept(s: State, step: Step)
  {
    Possible(s, step) && step.RetryFires? ==> s.enabled || s.queue != [] || s.requested <= s.backedUp
  }

  lemma StepKeepsOrder(s: State, step: Step)
    requires Inv(s)
    ensures Inv(Do(s, step))
    ensures Do(s, step).backedUp >= s.backedUp && Do(s, step).generation >= s.generation
      && Do(s, step).requested >= s.requested
  {
  }

  /** A step forgets what was requested exactly when it is a retry that is not kept. */
  lemma StepKeepsCoverExactly(s: State, step: Step)
    requires Inv(s) && Covered(s, s.requested)
    ensures Covered(Do(s, step), Do(s, step).requested) <==> RetryKept(s, step)
  {
    if step.Request? && Possible(s, step) && s.enabled {
      assert Do(s, step).queue != [];
    }
    if step.RetryFires? && Possible(s, step) && s.enabled {
      assert Do(s, step).queue != [];
    }
  }

  predicate RetriesKept(s: State, steps: seq<Step>)
    decreases |steps|
  {
    steps == [] || (RetriesKept(s, steps[..|steps| - 1]) && RetryKept(Run(s, steps[..|steps| - 1]), steps[|steps| - 1]))
  }

  lemma {:induction false} RunKeepsOrder(s: State, steps: seq<Step>)
    requires Inv(s)
    ensures Inv(Run(s, steps)) && Run(s, steps).backedUp >= s.backedUp && Run(s, steps).requested >= s.requested
    ensures Run(s, steps).generation >= s.generation
    decreases |steps|
  {
    if steps != [] {
      RunKeepsOrder(s, steps[..|steps| - 1]);
      StepKeepsOrder(Run(s, steps[..|steps| - 1]), steps[|steps| - 1]);
    }
  }

  /** Whatever the schedule, whatever fails, and however often the queue is full. */
  lemma {:induction false} NothingRequestedIsForgotten(s: State, steps: seq<Step>)
    requires Inv(s) && Covered(s, s.requested) && RetriesKept(s, steps)
    ensures Covered(Run(s, steps), Run(s, steps).requested)
    decreases |steps|
  {
    if steps != [] {
      var before := steps[..|steps| - 1];
      NothingRequestedIsForgotten(s, before);
      RunKeepsOrder(s, before);
      StepKeepsCoverExactly(Run(s, before), steps[|steps| - 1]);
    }
  }

  /** What was requested is covered after every step. */
  predicate CoveredThroughout(s: State, steps: seq<Step>)
    decreases |steps|
  {
    && Covered(Run(s, steps), Run(s, steps).requested)
    && (steps != [] ==> CoveredThroughout(s, steps[..|steps| - 1]))
  }

  /** A schedule never forgets a request if and only if all its retries are kept. */
  lemma {:induction false} NeverForgetsExactly(s: State, steps: seq<Step>)
    requires Inv(s) && Covered(s, s.requested)
    ensures CoveredThroughout(s, steps) <==> RetriesKept(s, steps)
    decreases |steps|
  {
    hide Inv, Covered, RetryKept, Do;
    if steps != [] {
      var before := steps[..|steps| - 1];
      NeverForgetsExactly(s, before);
      RunKeepsOrder(s, before);
      if CoveredThroughout(s, before) {
        StepKeepsCoverExactly(Run(s, before), steps[|steps| - 1]);
      }
    }
  }

  predicate NeverDisabled(steps: seq<Step>)
  {
    forall i | 0 <= i < |steps| :: steps[i] != SetEnabled(false)
  }

  /** Enabled, or nothing has been queued yet. */
  predicate EnabledOrUnused(s: State)
  {
    s.enabled || (s.queue == [] && s.phase.Idle? && !s.holder.TheLoop?)
  }

  /** Only switching backups off can drop a retry. */
  lemma {:induction false} EnabledKeepsRetries(s: State, steps: seq<Step>)
    requires EnabledOrUnused(s) && NeverDisabled(steps)
    ensures EnabledOrUnused(Run(s, steps)) && RetriesKept(s, steps)
    decreases |steps|
  {
    if steps != [] {
      EnabledKeepsRetries(s, steps[..|steps| - 1]);
    }
  }

  /** The generations that step i requested while backups were enabled. */
  predicate Requests(s: State, steps: seq<Step>, i: nat, generation: nat)
    requires i < |steps|
  {
    var at := Run(s, steps[..i]);
    steps[i].Request? && steps[i].generation == generation && Possible(at, steps[i]) && at.enabled
  }

  lemma {:induction false} RunSplits(s: State, first: seq<Step>, rest: seq<Step>)
    ensures Run(s, first + rest) == Run(Run(s, first), rest)
    decreases |rest|
  {
    if rest == [] {
      assert first + rest == first;
    } else {
      var front := rest[..|rest| - 1];
      assert (first + rest)[..|first + rest| - 1] == first + front;
      RunSplits(s, first, front);
    }
  }

  lemma RequestRaises(s: State, steps: seq<Step>, i: nat, generation: nat)
    requires i < |steps| && Requests(s, steps, i, generation)
    ensures Do(Run(s, steps[..i]), steps[i]).requested >= generation
  {
    hide Run;
  }

  lemma RequestIsNoted(s: State, steps: seq<Step>, i: nat, generation: nat)
    requires Inv(s) && i < |steps| && Requests(s, steps, i, generation)
    ensures Run(s, steps).requested >= generation
  {
    hide Run, Do, Inv, Requests;
    var at := Run(s, steps[..i]);
    var after := Do(at, steps[i]);
    RequestRaises(s, steps, i, generation);
    RunKeepsOrder(s, steps[..i]);
    RunPrefix(s, steps, i);
    StepKeepsOrder(at, steps[i]);
    RunSplits(s, steps[..i + 1], steps[i + 1..]);
    assert steps == steps[..i + 1] + steps[i + 1..];
    RunKeepsOrder(after, steps[i + 1..]);
  }

  /** Every generation ever requested is covered, and once the loop is idle with nothing queued it is
      in a snapshot that succeeded. */
  lemma EveryRequestIsServed(start: nat, saved: nat, on: bool, steps: seq<Step>, i: nat, generation: nat)
    requires saved <= start && RetriesKept(Start(start, saved).(enabled := on), steps)
    requires i < |steps| && Requests(Start(start, saved).(enabled := on), steps, i, generation)
    ensures
      var end := Run(Start(start, saved).(enabled := on), steps);
      Covered(end, generation) && (end.phase.Idle? && end.queue == [] ==> generation <= end.backedUp)
  {
    var s := Start(start, saved).(enabled := on);
    NothingRequestedIsForgotten(s, steps);
    RequestIsNoted(s, steps, i, generation);
    RunKeepsOrder(s, steps);
  }

  /** All retries are kept when backups are never switched off once the scheduler runs, whether or not
      they were on at the start. */
  lemma EveryRequestIsServedUnlessDisabled(start: nat, saved: nat, on: bool, steps: seq<Step>, i: nat, generation: nat)
    requires saved <= start && NeverDisabled(steps)
    requires i < |steps| && Requests(Start(start, saved).(enabled := on), steps, i, generation)
    ensures
      var end := Run(Start(start, saved).(enabled := on), steps);
      Covered(end, generation) && (end.phase.Idle? && end.queue == [] ==> generation <= end.backedUp)
  {
    hide Run, Requests, Covered;
    EnabledKeepsRetries(Start(start, saved).(enabled := on), steps);
    EveryRequestIsServed(start, saved, on, steps, i, generation);
  }

  /** A success that captured after s backs up everything published before s. */
  predicate SucceedsIn(s: State, steps: seq<Step>)
    decreases |steps|
  {
    steps != [] &&
    var before, last := steps[..|steps| - 1], steps[|steps| - 1];
    SucceedsIn(s, before) || (last.Finish? && last.success && Possible(Run(s, before), last))
  }

  lemma {:induction false} SuccessCoversThePast(s: State, steps: seq<Step>)
    requires Inv(s) && s.captured.None?
    ensures
      var end := Run(s, steps);
      && (end.captured.Some? ==> end.captured.value >= s.generation)
      && (SucceedsIn(s, steps) ==> end.backedUp >= s.generation)
    decreases |steps|
  {
    if steps != [] {
      var before, last := steps[..|steps| - 1], steps[|steps| - 1];
      SuccessCoversThePast(s, before);
      RunKeepsOrder(s, before);
      hide Inv;
      LastStepCovers(Run(s, before), last, s.generation, SucceedsIn(s, before));
    }
  }

  lemma LastStepCovers(at: State, last: Step, generation: nat, succeeded: bool)
    requires Inv(at) && at.generation >= generation
    requires at.captured.Some? ==> at.captured.value >= generation
    requires succeeded ==> at.backedUp >= generation
    ensures Do(at, last).captured.Some? ==> Do(at, last).captured.value >= generation
    ensures succeeded || (last.Finish? && last.success && Possible(at, last)) ==> Do(at, last).backedUp >= generation
  {
  }

  // ---------------------------------------------------------------- one round of the loop

  function Collects(n: nat): (r: seq<Step>)
    ensures |r| == n
  {
    if n == 0 then [] else Collects(n - 1) + [Collect]
  }

  ghost function FirstReasons(queue: seq<string>, n: nat): set<string>
    requires n <= |queue|
  {
    set i | 0 <= i < n :: queue[i]
  }

  lemma OneMoreReason(queue: seq<string>, n: nat)
    requires n < |queue|
    ensures FirstReasons(queue, n + 1) == FirstReasons(queue, n) + {queue[n]}
  {
  }

  lemma {:induction false} CollectsAll(s: State, n: nat)
    requires s.phase.Collecting? && n <= |s.queue|
    ensures Run(s, Collects(n))
      == s.(queue := s.queue[n..], phase := Collecting(s.phase.reasons + FirstReasons(s.queue, n)))
  {
    hide FirstReasons, Run;
    if n > 0 {
      CollectsAll(s, n - 1);
      assert Collects(n)[..n - 1] == Collects(n - 1);
      assert Collects(n)[..n] == Collects(n);
      RunPrefix(s, Collects(n), n - 1);
      OneMoreReason(s.queue, n - 1);
      assert s.queue[n - 1..][1..] == s.queue[n..];
      var before := s.phase.reasons;
      assert before + FirstReasons(s.queue, n) == before + FirstReasons(s.queue, n - 1) + {s.queue[n - 1]};
    } else {
      NothingYet(s);
    }
  }

  lemma NothingYet(s: State)
    ensures Run(s, []) == s && FirstReasons(s.queue, 0) == {}
  {
  }

  const SNAPSHOT: seq<Step> := [TimerFires, LoopLocks, Capture, Finish(true)]

  lemma SnapshotSucceeds(s: State)
    requires s.phase.Collecting? && s.holder.Nobody? && s.captured.None?
    ensures Run(s, SNAPSHOT) == s.(phase := Idle, backedUp := s.generation)
  {
    NothingYet(s);
    hide Run;
    assert SNAPSHOT[..4] == SNAPSHOT && SNAPSHOT[..0] == [];
    RunPrefix(s, SNAPSHOT, 0);
    RunPrefix(s, SNAPSHOT, 1);
    RunPrefix(s, SNAPSHOT, 2);
    RunPrefix(s, SNAPSHOT, 3);
  }

  /** Left alone, the loop takes one snapshot for everything in its queue, with every queued reason,
      and then everything published is backed up. */
  lemma OneRoundServesTheQueue(s: State)
    requires Inv(s) && s.phase.Idle? && s.holder.Nobody? && s.queue != []
    ensures
      var collected := Run(s, [Take] + Collects(|s.queue| - 1));
      && collected.phase == Collecting(FirstReasons(s.queue, |s.queue|))
      && Run(collected, SNAPSHOT) == s.(queue := [], backedUp := s.generation)
  {
    var n := |s.queue| - 1;
    var taken := Do(s, Take);
    NothingYet(s);
    assert [Take][..0] == [] && [Take][..1] == [Take];
    RunPrefix(s, [Take], 0);
    RunSplits(s, [Take], Collects(n));
    CollectsAll(taken, n);
    FirstAndRest(s.queue);
    var collected := Run(taken, Collects(n));
    SnapshotSucceeds(collected);
    assert s.queue[1..][n..] == [];
  }

  lemma FirstAndRest(queue: seq<string>)
    requires queue != []
    ensures FirstReasons(queue, |queue|) == {queue[0]} + FirstReasons(queue[1..], |queue| - 1)
  {
    forall x | x in FirstReasons(queue, |queue|)
      ensures x in {queue[0]} + FirstReasons(queue[1..], |queue| - 1)
    {
      var i :| 0 <= i < |queue| && queue[i] == x;
      if i > 0 {
        assert queue[1..][i - 1] == x;
      }
    }
  }

  // ---------------------------------------------------------------- where reasons come from

  /** The reason waits in the queue or is collected for the next snapshot. */
  predicate Pending(s: State, reason: string)
  {
    || reason in s.queue
    || (s.phase.Collecting? && reason in s.phase.reasons)
    || (s.phase.Locking? && reason in s.phase.reasons)
  }

  /** The loop's own snapshot has failed in some step. */
  ghost predicate LoopFailed(s: State, steps: seq<Step>)
  {
    exists i :: 0 <= i < |steps| && steps[i] == Finish(false) && Run(s, steps[..i]).holder == TheLoop
  }

  ghost predicate AskedFor(s: State, steps: seq<Step>, reason: string)
  {
    exists i :: 0 <= i < |steps| && steps[i].Request? && steps[i].reason == reason && Run(s, steps[..i]).enabled
  }

  /** Why a reason may be pending: somebody asked for it, or it is the loop's own after a failure. */
  ghost predicate Explained(s: State, steps: seq<Step>, reason: string)
  {
    AskedFor(s, steps, reason) || (reason == "retry-after-failure" && LoopFailed(s, steps))
  }

  lemma ExplainedMore(s: State, steps: seq<Step>, step: Step, reason: string)
    ensures Explained(s, steps, reason) ==> Explained(s, steps + [step], reason)
    ensures LoopFailed(s, steps) ==> LoopFailed(s, steps + [step])
    ensures step == Finish(false) && Run(s, steps).holder == TheLoop ==> LoopFailed(s, steps + [step])
    ensures step.Request? && Run(s, steps).enabled ==> AskedFor(s, steps + [step], step.reason)
  {
    hide Run;
    var more := steps + [step];
    assert more[|steps|] == step && more[..|steps|] == steps;
    assert forall i | 0 <= i < |steps| :: more[i] == steps[i] && more[..i] == steps[..i];
  }

  lemma StepExplains(s: State, step: Step, reason: string)
    ensures Pending(Do(s, step), reason) ==>
      || Pending(s, reason)
      || (step.Request? && s.enabled && step.reason == reason)
      || (step == RetryFires && s.phase == Retrying && reason == "retry-after-failure")
    ensures Do(s, step).phase == Retrying ==> s.phase == Retrying || (step == Finish(false) && s.holder == TheLoop)
    ensures |s.queue| <= 64 ==> |Do(s, step).queue| <= 64
  {
  }

  /** In every run a pending reason is one somebody asked for while backups were on, or the loop's own
      retry, after a snapshot of the loop has failed; and at most 64 requests wait. */
  lemma {:induction false} EveryReasonIsExplained(start: nat, saved: nat, on: bool, steps: seq<Step>, reason: string)
    ensures
      var s := Start(start, saved).(enabled := on);
      && (Pending(Run(s, steps), reason) ==> Explained(s, steps, reason))
      && (Run(s, steps).phase == Retrying ==> LoopFailed(s, steps))
      && |Run(s, steps).queue| <= 64
    decreases |steps|
  {
    hide Explained, LoopFailed, AskedFor, Do, Pending;
    var s := Start(start, saved).(enabled := on);
    if steps == [] {
      NothingPending(s, reason);
    } else {
      var before, last := steps[..|steps| - 1], steps[|steps| - 1];
      EveryReasonIsExplained(start, saved, on, before, reason);
      ExplainedMore(s, before, last, reason);
      StepExplains(Run(s, before), last, reason);
      assert steps == before + [last];
      ExplainedIs(s, before, reason);
      ExplainedIs(s, steps, reason);
    }
  }

  lemma NothingPending(s: State, reason: string)
    requires s.queue == [] && s.phase == Idle
    ensures !Pending(s, reason)
  {
  }

  lemma ExplainedIs(s: State, steps: seq<Step>, reason: string)
    ensures Explained(s, steps, reason)
      <==> AskedFor(s, steps, reason) || (reason == "retry-after-failure" && LoopFailed(s, steps))
  {
  }

  /** A failed snapshot of the loop is retried under its own reason if there is room and backups are on;
      a failed or finished one of a caller leaves the loop and its queue alone. */
  lemma FailureIsRetried(s: State)
    requires s.phase == Snapshotting && s.holder == TheLoop
    ensures
      var retried := Run(s, [Finish(false), RetryFires]);
      && retried.phase == Idle && retried.holder == Nobody && retried.backedUp == s.backedUp
      && retried.queue == s.queue + if s.enabled && |s.queue| < 64 then ["retry-after-failure"] else []
  {
    var steps := [Finish(false), RetryFires];
    assert steps[..2] == steps && steps[..0] == [];
    NothingYet(s);
    RunPrefix(s, steps, 0);
    RunPrefix(s, steps, 1);
    hide Run;
  }

  lemma CallersLeaveTheLoopAlone(s: State, success: bool)
    requires s.holder == ACaller
    ensures
      var end := Do(s, Finish(success));
      end.phase == s.phase && end.queue == s.queue && end.requested == s.requested && end.enabled == s.enabled
    ensures
      var end := Do(s, Finish(success));
      && end.backedUp == (if success && s.captured.Some? then s.captured.value else s.backedUp)
      && (end.holder == Nobody <==> !success || s.captured.Some?)
  {
  }

  // ---------------------------------------------------------------- what is lost

  /** A reason is queued exactly when there is room, so a saturated queue can lose the only mention
      of a reason, though not the snapshot it asks for. */
  lemma ReasonNeedsRoom(s: State, generation: nat, reason: string)
    requires Inv(s) && s.enabled && generation <= s.generation && reason !in s.queue
    ensures reason in Do(s, Request(generation, reason)).queue <==> |s.queue| < 64
    ensures Covered(Do(s, Request(generation, reason)), generation)
  {
    if |s.queue| < 64 {
      assert (s.queue + [reason])[|s.queue|] == reason;
    }
  }

  const ASKED: seq<Step> := [Publish, Request(1, "publication"), Take]
  const FAILED: seq<Step> := [TimerFires, LoopLocks, Finish(false)]
  const DISABLED: seq<Step> := [SetEnabled(false), RetryFires, SetEnabled(true)]

  lemma ThreeSteps(s: State, a: Step, b: Step, c: Step)
    ensures Run(s, [a, b, c]) == Do(Do(Do(s, a), b), c)
  {
    NothingYet(s);
    hide Run, Do;
    var steps := [a, b, c];
    assert steps[..0] == [] && steps[..3] == steps;
    RunPrefix(s, steps, 0);
    RunPrefix(s, steps, 1);
    RunPrefix(s, steps, 2);
  }

  lemma Asked()
    ensures Run(Start(0, 0), ASKED) == State(true, 1, 1, [], Collecting({"publication"}), Nobody, None, 0)
  {
    hide Run;
    ThreeSteps(Start(0, 0), Publish, Request(1, "publication"), Take);
  }

  lemma Failed(s: State)
    requires s.phase.Collecting? && s.holder.Nobody?
    ensures Run(s, FAILED) == s.(phase := Retrying, captured := None)
  {
    hide Run;
    ThreeSteps(s, TimerFires, LoopLocks, Finish(false));
  }

  lemma Disabled(s: State)
    requires s.phase.Retrying?
    ensures Run(s, DISABLED) == s.(phase := Idle, enabled := true)
  {
    hide Run;
    ThreeSteps(s, SetEnabled(false), RetryFires, SetEnabled(true));
  }

  /** A retry that fires while backups are switched off is dropped, and switching them on again does
      not bring it back. */
  lemma DisabledRetryForgets()
    ensures
      var end := Run(Start(0, 0), ASKED + FAILED + DISABLED);
      end.enabled && end.requested == 1 && !Covered(end, end.requested)
  {
    hide Run, Do;
    RunSplits(Start(0, 0), ASKED + FAILED, DISABLED);
    RunSplits(Start(0, 0), ASKED, FAILED);
    Asked();
    Failed(Run(Start(0, 0), ASKED));
    Disabled(Run(Start(0, 0), ASKED + FAILED));
  }

  lemma RunPrefix(s: State, steps: seq<Step>, i: nat)
    requires i < |steps|
    ensures Run(s, steps[..i + 1]) == Do(Run(s, steps[..i]), steps[i])
  {
    assert steps[..i + 1][..i] == steps[..i];
  }

  // ---------------------------------------------------------------- the object

  class Scheduler {
    var enabled: bool
    var generation: nat
    ghost var requested: nat
    var requests: seq<string>
    var phase: Phase
    var snapshotLock: Holder
    var captured: Option<nat>
    var backedUp: nat

    ghost function Model(): State
      reads this
    {
      State(enabled, generation, requested, requests, phase, snapshotLock, captured, backedUp)
    }

    constructor (generation: nat, backedUp: nat)
      ensures Model() == Start(generation, backedUp)
    {
      this.enabled, this.generation, this.requested := true, generation, 0;
      this.requests, this.phase, this.snapshotLock, this.captured := [], Idle, Nobody, None;
      this.backedUp := backedUp;
    }

    /** Called after a commit; published is the generation that commit produced. */
    method Request(published: nat, reason: string)
      requires published <= generation
      modifies this`requests, this`requested
      ensures Model() == Do(old(Model()), Step.Request(published, reason))
    {
      if !enabled {
        return;
      }
      Offer(reason);
      if published > requested {
        requested := published;
      }
    }

    /** The non-blocking send. */
    method Offer(reason: string)
      requires enabled
      modifies this`requests
      ensures requests == Enqueued(old(Model()), reason)
    {
      if |requests| < QUEUE_SIZE {
        requests := requests + [reason];
      }
    }

    /** The loop receives the first reason and starts its timer. */
    method Receive()
      requires phase.Idle? && requests != []
      modifies this`requests, this`phase
      ensures Model() == Do(old(Model()), Take)
    {
      phase := Collecting({requests[0]});
      requests := requests[1..];
    }

    /** The loop receives further reasons until the timer fires. */
    method CollectOne()
      requires phase.Collecting? && requests != []
      modifies this`requests, this`phase
      ensures Model() == Do(old(Model()), Collect)
    {
      phase := Collecting(phase.reasons + {requests[0]});
      requests := requests[1..];
    }

    /** executeSnapshot: under the lock, copy the database, then record the outcome. */
    method BeginSnapshot(caller: Holder)
      requires snapshotLock.Nobody? && !caller.Nobody?
      requires caller.TheLoop? ==> phase.Locking?
      modifies this`snapshotLock, this`phase
      ensures Model() == Do(old(Model()), if caller.TheLoop? then LoopLocks else CallerLocks)
    {
      snapshotLock := caller;
      if caller.TheLoop? {
        phase := Snapshotting;
      }
    }

    method CopyDatabase()
      requires !snapshotLock.Nobody? && captured.None?
      modifies this`captured
      ensures Model() == Do(old(Model()), Capture)
    {
      captured := Some(generation);
    }

    method EndSnapshot(success: bool)
      requires !snapshotLock.Nobody? && (success ==> captured.Some?)
      modifies this`backedUp, this`phase, this`snapshotLock, this`captured
      ensures Model() == Do(old(Model()), Finish(success))
    {
      if success {
        backedUp := captured.value;
      }
      if snapshotLock.TheLoop? {
        phase := if success then Idle else Retrying;
      }
      snapshotLock, captured := Nobody, None;
    }

    method RetryAfterDelay()
      requires phase.Retrying?
      modifies this`requests, this`phase
      ensures Model() == Do(old(Model()), RetryFires)
    {
      if enabled {
        Offer(RETRY);
      }
      phase := Idle;
    }
  }
}
