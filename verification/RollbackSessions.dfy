/** Rollback over whole histories of the standalone launcher: sessions that are opened, resumed,
    cut short by a failed callback or a crash, and whose receipt is saved, lost, or saved without
    acknowledgement (internal/jobcli/run.go:97-263). */
module RollbackSessions {
  import opened JobPlan
  import opened RollbackScope
  import opened ActionReceipt
  import JobSafety

  // ---------------------------------------------------------------- the machine

  /** What became of one atomic write of the receipt. */
  datatype Save = Saved | Lost | Unacknowledged

  datatype Request = RollbackRequest(nodes: seq<string>) | ResumeRequest

  /** A running RunBundle: `calls` boundary callbacks were made; `live` until one was rejected. */
  datatype Session = Session(memory: Receipt, calls: nat, live: bool)

  datatype Store = Store(durable: Receipt, session: Option<Session>)

  datatype Happening = Open(request: Request,
      save: Save) | Boundary(save: Save) | MediaRefused | Close(save: Save) | Crash

  /** The stages a request would run, None when it is refused. */
  ghost function Prepare(r: Receipt, metadata: seq<JobStep>, request: Request): Option<seq<JobStep>>
  {
    match request
    case ResumeRequest =>
      var retry := RetryStages(r.steps, r.original.recovery, metadata, r.results);
      if retry.Success? then Some(retry.value) else None
    case RollbackRequest(nodes) =>
      if r.operation.RollbackOperation? && !AllSucceeded(r.steps, r.results) then None
      else
        var stages := Touched(r.original.recovery, r.actions);
        if stages == [] then None else Selection(stages, nodes)
  }

  function Persist(durable: Receipt, memory: Receipt, save: Save): Receipt
  {
    if save.Lost? then durable else memory
  }

  ghost function OpenSession(store: Store, stages: seq<JobStep>, request: Request, save: Save): Store
  {
    var r := store.durable;
    var memory := r.(steps := stages, results := [], attempts := r.attempts + 1,
                     operation := if request.RollbackRequest? then RollbackOperation else r.operation);
    Store(Persist(r, memory, save), if save.Saved? then Some(Session(memory, 0, true)) else None)
  }

  function NextStep(s: Session): JobStep
    requires s.calls < 2 * |s.memory.steps|
  {
    s.memory.steps[s.calls / 2]
  }

  function BoundaryCall(store: Store, s: Session, save: Save): Store
    requires s.calls < 2 * |s.memory.steps|
  {
    var memory := AfterBoundary(s.memory, JobSafety.ExpectedBoundary(s.calls), NextStep(s));
    Store(Persist(store.durable, memory, save), Some(Session(memory, s.calls + 1, save.Saved?)))
  }

  /** A result list with `done` succeeded stages, and one unfinished stage if `active`. */
  function Listing(steps: seq<JobStep>, done: nat, active: bool): (r: seq<StageRecord>)
    requires done + (if active then 1 else 0) <= |steps|
    ensures |r| == done + (if active then 1 else 0)
  {
    seq(done, i requires 0 <= i < done => StageRecord(steps[i].id, true)) + if active
      then [StageRecord(steps[done].id, false)] else []
  }

  /** How many stages the controller acknowledged, and whether it left one active. */
  function Done(calls: nat, live: bool): nat
  {
    if live || calls == 0 then calls / 2 else (calls - 1) / 2
  }

  predicate LeftActive(calls: nat, live: bool)
  {
    !live || calls % 2 == 1
  }

  function CloseSession(store: Store, s: Session, save: Save): Store
    requires s.calls <= 2 * |s.memory.steps| && (!s.live ==> s.calls >= 1)
  {
    var memory := s.memory.(results := Listing(s.memory.steps, Done(s.calls, s.live), LeftActive(s.calls, s.live)));
    Store(Persist(store.durable, memory, save), None)
  }

  predicate Sound(s: Session)
  {
    s.calls <= 2 * |s.memory.steps| && (!s.live ==> s.calls >= 1)
  }

  /** One thing that may happen while rollbacks are run and resumed; what is not possible in a
      state leaves it unchanged. */
  ghost function Step(metadata: seq<JobStep>, store: Store, h: Happening): Store
  {
    match h
    case Open(request, save) =>
      if store.session.Some? || (request.ResumeRequest? && store.durable.operation.RunOperation?) then store
      else
        var stages := Prepare(store.durable, metadata, request);
        if stages.None? then store else OpenSession(store, stages.value, request, save)
    case Boundary(save) =>
      if store.session.Some? && store.session.value.live
        && store.session.value.calls < 2 * |store.session.value.memory.steps|
        then BoundaryCall(store, store.session.value, save)
      else store
    case MediaRefused =>
      if store.session.Some? && store.session.value.live && store.session.value.calls % 2 == 0
        && store.session.value.calls < 2 * |store.session.value.memory.steps| then
        store.(session := Some(store.session.value.(calls := store.session.value.calls + 1, live := false)))
      else store
    case Close(save) =>
      if store.session.Some? && Sound(store.session.value) then CloseSession(store, store.session.value, save)
        else store
    case Crash => store.(session := None)
  }

  ghost function History(metadata: seq<JobStep>, store: Store, events: seq<Happening>): Store
    decreases |events|
  {
    if events == [] then store
      else Step(metadata, History(metadata, store, events[..|events| - 1]), events[|events| - 1])
  }

  /** A request is admitted while no session goes on: a resumption of a rollback whose stages can be
      told, or a rollback, not over an unfinished one, of something still to undo. */
  ghost predicate Admitted(metadata: seq<JobStep>, store: Store, request: Request)
  {
    && store.session == None
    && match request
       case ResumeRequest =>
         && store.durable.operation == RollbackOperation
         && RetryStages(store.durable.steps, store.durable.original.recovery, metadata, store.durable.results).Success?
       case RollbackRequest(nodes) =>
         && (store.durable.operation == RollbackOperation ==>
               AllSucceeded(store.durable.steps, store.durable.results))
         && Touched(store.durable.original.recovery, store.durable.actions) != []
         && Selection(Touched(store.durable.original.recovery, store.durable.actions), nodes) != None
  }

  /** An admitted request whose receipt is saved starts a session from its beginning, as a further attempt
      at the same plan with what is known of its actions; any other changes nothing. */
  lemma OpenedExactly(metadata: seq<JobStep>, store: Store, request: Request)
    ensures
      var after := Step(metadata, store, Open(request, Saved));
      if Admitted(metadata, store, request) then
        && after.session == Some(Session(after.durable, 0, true))
        && after.durable.original == store.durable.original && after.durable.actions == store.durable.actions
        && after.durable.operation == RollbackOperation && after.durable.results == []
        && after.durable.attempts == store.durable.attempts + 1
        && Some(after.durable.steps) == Prepare(store.durable, metadata, request)
      else after == store
  {
    hide RetryStages, AllSucceeded, Touched, Selection;
  }

  /** Happening i admits a request, and its receipt reaches the disk. */
  ghost predicate Opening(metadata: seq<JobStep>, store: Store, events: seq<Happening>, i: int)
  {
    0 <= i < |events| && events[i].Open? && events[i].save != Lost
      && Admitted(metadata, History(metadata, store, events[..i]), events[i].request)
  }

  ghost function Openings(metadata: seq<JobStep>, store: Store, events: seq<Happening>): set<int>
  {
    set i | 0 <= i < |events| && Opening(metadata, store, events, i)
  }

  /** A session runs the attempt that is on disk. */
  predicate SameAttempt(store: Store)
  {
    store.session.Some? ==> store.session.value.memory.attempts == store.durable.attempts
  }

  lemma StepCountsAttempts(metadata: seq<JobStep>, store: Store, h: Happening)
    requires SameAttempt(store)
    ensures SameAttempt(Step(metadata, store, h))
    ensures Step(metadata, store, h).durable.attempts == store.durable.attempts
      + if h.Open? && h.save != Lost && Admitted(metadata, store, h.request) then 1 else 0
  {
    hide RetryStages, AllSucceeded, Touched, Selection, AfterBoundary, Listing;
    if h.Boundary? && store.session.Some? && store.session.value.calls < 2 * |store.session.value.memory.steps| {
      var s := store.session.value;
      BoundaryIsSameAttempt(s.memory, JobSafety.ExpectedBoundary(s.calls), NextStep(s));
    }
  }

  lemma BoundaryIsSameAttempt(r: Receipt, b: JobController.Boundary, step: JobStep)
    ensures AfterBoundary(r, b, step).attempts == r.attempts
  {
  }

  lemma NoOpenings(metadata: seq<JobStep>, store: Store)
    ensures Openings(metadata, store, []) == {}
  {
  }

  lemma OpeningStays(metadata: seq<JobStep>, store: Store, events: seq<Happening>, i: nat)
    requires i < |events| - 1
    ensures Opening(metadata, store, events, i) <==> Opening(metadata, store, events[..|events| - 1], i)
  {
    hide History, Admitted;
    assert events[..i] == events[..|events| - 1][..i];
  }

  lemma OpeningsMore(metadata: seq<JobStep>, store: Store, events: seq<Happening>)
    requires events != []
    ensures
      var n := |events| - 1;
      |Openings(metadata, store, events)| == |Openings(metadata, store, events[..n])|
        + if Opening(metadata, store, events, n) then 1 else 0
  {
    hide Opening;
    var n := |events| - 1;
    var before := events[..n];
    forall i: nat | i < n
      ensures Opening(metadata, store, events, i) <==> Opening(metadata, store, before, i)
    {
      OpeningStays(metadata, store, events, i);
    }
    assert n !in Openings(metadata, store, before);
    assert Openings(metadata, store, events) == Openings(metadata, store, before)
      + if Opening(metadata, store, events, n) then {n} else {};
  }

  /** The attempts on record are counted exactly: one for every admitted request that reached the disk. */
  lemma {:induction false} AttemptsAreOpenings(metadata: seq<JobStep>, store: Store, events: seq<Happening>)
    requires SameAttempt(store)
    ensures SameAttempt(History(metadata, store, events))
    ensures History(metadata, store, events).durable.attempts
      == store.durable.attempts + |Openings(metadata, store, events)|
    decreases |events|
  {
    hide Step, Admitted, Openings;
    if events == [] {
      NoOpenings(metadata, store);
    } else {
      var n := |events| - 1;
      var before := events[..n];
      AttemptsAreOpenings(metadata, store, before);
      StepCountsAttempts(metadata, History(metadata, store, before), events[n]);
      OpeningsMore(metadata, store, events);
    }
  }

  /** While a session goes on, what it remembers is what is on disk. */
  ghost predicate Synchronous(store: Store)
  {
    store.session.Some? && store.session.value.live ==> store.durable == store.session.value.memory
  }

  lemma StepSynchronous(metadata: seq<JobStep>, store: Store, h: Happening)
    requires Synchronous(store)
    ensures Synchronous(Step(metadata, store, h))
  {
    hide Prepare, AfterBoundary, Listing;
  }

  lemma {:induction false} LiveSessionsAreDurable(metadata: seq<JobStep>, store: Store, events: seq<Happening>)
    requires Synchronous(store)
    ensures Synchronous(History(metadata, store, events))
    decreases |events|
  {
    hide Step, Synchronous;
    if events != [] {
      LiveSessionsAreDurable(metadata, store, events[..|events| - 1]);
      StepSynchronous(metadata, History(metadata, store, events[..|events| - 1]), events[|events| - 1]);
    }
  }

  // ---------------------------------------------------------------- well-formed recovery plans

  /** An execute stage followed by its post check, both recovering the same original action. */
  predicate Pair(execute: JobStep, post: JobStep)
  {
    && execute.phase.Execute? && post.phase.Post?
    && (execute.action.Rollback? || execute.action.Uninstall?)
    && execute.recoveryOfStepId == post.recoveryOfStepId != ""
    && execute.componentId == post.componentId && execute.nodeId == post.nodeId
    && post.parentActionId == execute.actionId
  }

  predicate Pairs(stages: seq<JobStep>)
  {
    |stages| % 2 == 0 && forall i | 0 <= i < |stages| && i % 2 == 0 :: Pair(stages[i], stages[i + 1])
  }

  predicate DistinctSources(stages: seq<JobStep>)
  {
    forall i, j | 0 <= i < j < |stages| && i / 2 != j / 2 :: stages[i].recoveryOfStepId != stages[j].recoveryOfStepId
  }

  predicate RecoveryPlan(plan: Plan)
  {
    && Pairs(plan.recovery) && DistinctSources(plan.recovery) && UniqueIds(plan.recovery)
    && (forall i, j | 0 <= i < |plan.recovery| && 0 <= j < |plan.recovery| ::
      plan.recovery[i].id != plan.recovery[j].recoveryOfStepId)
    && (forall i | 0 <= i < |plan.steps| :: plan.steps[i].recoveryOfStepId == "")
  }

  // ---------------------------------------------------------------- the touched stages

  function Remaining(stages: seq<JobStep>, done: set<string>): seq<JobStep>
    decreases |stages|
  {
    if stages == [] then []
    else
      var before := Remaining(stages[..|stages| - 1], done);
      if stages[|stages| - 1].recoveryOfStepId in done then before else before + [stages[|stages| - 1]]
  }

  /** Compared with `before`, exactly the sources in `done` have become rolled back. */
  ghost predicate Advanced(recovery: seq<JobStep>, before: Actions, after: Actions, done: set<string>)
  {
    forall k | 0 <= k < |recovery| ::
      var s := recovery[k].recoveryOfStepId;
      Look(after, s) == if s in done then Some(RolledBack) else Look(before, s)
  }

  lemma {:induction false} TouchedAfter(recovery: seq<JobStep>, before: Actions, after: Actions, done: set<string>)
    requires Advanced(recovery, before, after, done)
    ensures Touched(recovery, after) == Remaining(Touched(recovery, before), done)
    decreases |recovery|
  {
    if recovery != [] {
      var rest, last := recovery[..|recovery| - 1], recovery[|recovery| - 1];
      TouchedAfter(rest, before, after, done);
      var t := Touched(rest, before);
      assert (t + [last])[..|t|] == t;
      assert Look(after, last.recoveryOfStepId) == if last.recoveryOfStepId in done then Some(RolledBack)
        else Look(before, last.recoveryOfStepId);
    }
  }

  lemma {:induction false} RemainingSuffix(stages: seq<JobStep>, m: nat, done: set<string>)
    requires m <= |stages|
    requires forall k | 0 <= k < m :: stages[k].recoveryOfStepId in done
    requires forall k | m <= k < |stages| :: stages[k].recoveryOfStepId !in done
    ensures Remaining(stages, done) == stages[m..]
    decreases |stages|
  {
    if stages != [] {
      var rest := stages[..|stages| - 1];
      if m < |stages| {
        RemainingSuffix(rest, m, done);
        assert stages[m..] == rest[m..] + [stages[|stages| - 1]];
      } else {
        RemainingSuffix(rest, m - 1, done);
      }
    }
  }

  /** Filtering keeps pairs together, in order, and invents nothing. */
  lemma {:induction false} TouchedShape(recovery: seq<JobStep>, actions: Actions)
    requires Pairs(recovery) && DistinctSources(recovery) && UniqueIds(recovery)
    ensures var t := Touched(recovery, actions);
      && Pairs(t) && DistinctSources(t) && UniqueIds(t)
      && (forall i | 0 <= i < |t| :: t[i] in recovery && NeedsRollback(actions, t[i]))
    decreases |recovery|
  {
    TouchedMembers(recovery, actions);
    if recovery != [] {
      hide NeedsRollback, DistinctSources, UniqueIds, Touched;
      var n := |recovery| - 2;
      var rest, e, p := recovery[..n], recovery[n], recovery[n + 1];
      ShorterRecovery(recovery);
      TouchedShape(rest, actions);
      TouchedPair(recovery, actions);
      hide Pairs, Pair;
      FromRest(rest, recovery, Touched(rest, actions), e, p);
    }
  }

  lemma TouchedMembers(recovery: seq<JobStep>, actions: Actions)
    ensures
      var t := Touched(recovery, actions);
      forall i | 0 <= i < |t| :: t[i] in recovery && NeedsRollback(actions, t[i])
  {
    hide Touched, NeedsRollback;
    forall x: JobStep
      ensures x in Touched(recovery, actions) <==> x in recovery && NeedsRollback(actions, x)
    {
      TouchedIff(recovery, actions, x);
    }
  }

  lemma ShorterRecovery(recovery: seq<JobStep>)
    requires Pairs(recovery) && DistinctSources(recovery) && UniqueIds(recovery) && recovery != []
    ensures |recovery| >= 2 && recovery == recovery[..|recovery| - 2]
      + [recovery[|recovery| - 2], recovery[|recovery| - 1]]
    ensures Pair(recovery[|recovery| - 2], recovery[|recovery| - 1])
    ensures
      var rest := recovery[..|recovery| - 2];
      Pairs(rest) && DistinctSources(rest) && UniqueIds(rest)
  {
    var n := |recovery| - 2;
    assert Pair(recovery[n], recovery[n + 1]);
    assert Pairs(recovery[..n]) by {
      hide Pair;
    }
  }

  lemma TouchedPair(recovery: seq<JobStep>, actions: Actions)
    requires |recovery| >= 2 && Pair(recovery[|recovery| - 2], recovery[|recovery| - 1])
    ensures
      var e, p := recovery[|recovery| - 2], recovery[|recovery| - 1];
      var t := Touched(recovery[..|recovery| - 2], actions);
      Touched(recovery, actions) == if NeedsRollback(actions, e) then t + [e, p] else t
  {
    var n := |recovery| - 2;
    var e, p := recovery[n], recovery[n + 1];
    var t := Touched(recovery[..n], actions);
    assert recovery[..n + 1][..n] == recovery[..n] && recovery[..n + 2] == recovery;
    assert Touched(recovery[..n + 1], actions) == if NeedsRollback(actions, e) then t + [e] else t;
    assert NeedsRollback(actions, e) == NeedsRollback(actions, p);
    assert NeedsRollback(actions, e) ==> t + [e] + [p] == t + [e, p];
  }

  ghost predicate FreshFor(t: seq<JobStep>, e: JobStep, p: JobStep)
  {
    forall i | 0 <= i < |t| :: t[i].recoveryOfStepId != e.recoveryOfStepId && t[i].id != e.id && t[i].id != p.id
  }

  lemma FreshPair(rest: seq<JobStep>, recovery: seq<JobStep>, t: seq<JobStep>, e: JobStep, p: JobStep)
    requires recovery == rest + [e, p] && |rest| % 2 == 0
    requires DistinctSources(recovery) && UniqueIds(recovery)
    requires forall i | 0 <= i < |t| :: t[i] in rest
    ensures FreshFor(t, e, p) && e.id != p.id
  {
    var n := |rest|;
    assert recovery[n] == e && recovery[n + 1] == p;
    forall i | 0 <= i < |t|
      ensures t[i].recoveryOfStepId != e.recoveryOfStepId && t[i].id != e.id && t[i].id != p.id
    {
      assert t[i] in rest;
      var k :| 0 <= k < n && rest[k] == t[i];
      assert recovery[k] == t[i] && k / 2 != n / 2;
    }
  }

  lemma FromRest(rest: seq<JobStep>, recovery: seq<JobStep>, t: seq<JobStep>, e: JobStep, p: JobStep)
    requires recovery == rest + [e, p] && |rest| % 2 == 0 && |t| % 2 == 0
    requires DistinctSources(recovery) && UniqueIds(recovery) && Pair(e, p)
    requires Pairs(t) && DistinctSources(t) && UniqueIds(t)
    requires forall i | 0 <= i < |t| :: t[i] in rest
    ensures Pairs(t + [e, p]) && DistinctSources(t + [e, p]) && UniqueIds(t + [e, p])
  {
    FreshPair(rest, recovery, t, e, p);
    assert UniqueIds(t + [e, p]) by { hide Pairs, DistinctSources, Pair; }
    assert Pairs(t + [e, p]) by { hide UniqueIds, DistinctSources, FreshFor; }
    assert DistinctSources(t + [e, p]) by { hide UniqueIds; }
  }
}
