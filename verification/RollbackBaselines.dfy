/** What a backup reference shared by several actions means for their rollbacks
    (internal/jobcli/run.go:404-442): which groups a completed rollback leaves behind, and when the
    rolled-back groups are an initial part of the recovery order. */
module RollbackBaselines {
  import opened JobPlan
  import opened RollbackScope
  import opened ActionReceipt
  import JobController
  import JobSafety
  import opened RollbackSessions
  import opened RollbackOrder
  import opened RollbackSafety

  // ---------------------------------------------------------------- an initial part of the order

  /** Exactly the first `groups` groups of the order are rolled back. */
  ghost predicate RolledBackUpto(base: Base, actions: Actions, groups: nat)
  {
    var f := Order(base);
    && 2 * groups <= |f|
    && forall k | 0 <= k < |f| :: Look(actions, f[k].recoveryOfStepId) == Some(RolledBack) <==> k < 2 * groups
  }

  /** Verified groups that clear only themselves are the first ones. */
  lemma ClosedIsInitial(base: Base, verified: set<nat>) returns (n: nat)
    requires Closed(base, verified) && OnlyVerified(base, verified)
    ensures 2 * n <= |Order(base)|
    ensures forall g: nat | IsGroup(Order(base), g) :: g in verified <==> g < n
  {
    hide Order, Cleared;
    n := 0;
    while IsGroup(Order(base), n) && n in verified
      invariant 2 * n <= |Order(base)|
      invariant forall g | 0 <= g < n :: g in verified
      decreases |Order(base)| - n
    {
      n := n + 1;
    }
    forall g: nat | IsGroup(Order(base), g) && g >= n
      ensures g !in verified
    {
      assert IsGroup(Order(base), n);
      assert Source(Order(base), n) !in Cleared(base, verified);
    }
  }

  lemma ClearedAt(base: Base, verified: set<nat>, n: nat, k: nat)
    requires ValidBase(base) && OnlyVerified(base, verified) && k < |Order(base)|
    requires forall g: nat | IsGroup(Order(base), g) :: g in verified <==> g < n
    ensures Order(base)[k].recoveryOfStepId in Cleared(base, verified) <==> k < 2 * n
  {
    var f := Order(base);
    OrderShape(base);
    hide Order, ValidBase, Cleared, NeedsRollback, UniqueIds, DistinctSources;
    assert Pair(f[k / 2 * 2], f[k / 2 * 2 + 1]);
    assert IsGroup(f, k / 2) && Source(f, k / 2) == f[k].recoveryOfStepId;
    if k < 2 * n {
      VerifiedIsCleared(base, verified, k / 2);
    }
  }

  lemma InitialPart(base: Base, actions: Actions, verified: set<nat>) returns (n: nat)
    requires ValidBase(base) && Marked(base, actions, verified) && OnlyVerified(base, verified)
    ensures 2 * n <= |Order(base)| && RolledBackUpto(base, actions, n)
    ensures Touched(base.receipt.original.recovery, actions) == Order(base)[2 * n..]
    ensures forall g: nat | IsGroup(Order(base), g) :: g in verified <==> g < n
  {
    MarkMeans(base, actions, verified);
    StillTouched(base, actions, verified);
    hide ValidBase, Order, Touched, Cleared, OnlyVerified, Advanced, Closed, Remaining;
    n := ClosedIsInitial(base, verified);
    forall k | 0 <= k < |Order(base)|
      ensures Order(base)[k].recoveryOfStepId in Cleared(base, verified) <==> k < 2 * n
    {
      ClearedAt(base, verified, n, k);
    }
    RemainingSuffix(Order(base), 2 * n, Cleared(base, verified));
  }

  // ---------------------------------------------------------------- baselines of one's own

  /** What one original captured is restored by its own recovery only. */
  predicate OwnBaselines(plan: Plan)
  {
    forall i, k | 0 <= i < |plan.steps| && 0 <= k < |plan.recovery| ::
      plan.recovery[k].phase.Execute? && CapturedWith(plan.steps[i], plan.recovery[k].backupRef) ==>
      plan.steps[i].id == plan.recovery[k].recoveryOfStepId
  }

  lemma OwnCaptures(base: Base, g: nat, v: nat)
    requires ValidBase(base) && OwnBaselines(base.receipt.original)
    requires IsGroup(Order(base), g) && IsGroup(Order(base), v)
    requires Source(Order(base), g) in Clears(base, v)
    ensures g == v
  {
    var f, plan := Order(base), base.receipt.original;
    OrderShape(base);
    OneGroupPerSource(base, g, v);
    hide Order, ValidBase, NeedsRollback, UniqueIds, DistinctSources;
    assert Pair(f[2 * v], f[2 * v + 1]);
    var k :| 0 <= k < |plan.recovery| && plan.recovery[k] == f[2 * v];
    assert forall i | 0 <= i < |plan.steps| && CapturedWith(plan.steps[i], plan.recovery[k].backupRef) ::
      plan.steps[i].id == Source(f, v);
  }

  lemma OwnClears(base: Base, verified: set<nat>)
    requires ValidBase(base) && OwnBaselines(base.receipt.original)
    ensures OnlyVerified(base, verified)
  {
    hide ValidBase, Order, OwnBaselines, Clears;
    forall g: nat | IsGroup(Order(base), g) && Source(Order(base), g) in Cleared(base, verified)
      ensures g in verified
    {
      var v :| v in verified && IsGroup(Order(base), v) && Source(Order(base), g) in Clears(base, v);
      OwnCaptures(base, g, v);
    }
  }

  /** With baselines of one's own, after any history of rollback and resume sessions, with failures,
      lost writes and crashes anywhere, the durable receipt has exactly an initial part of the
      recovery order rolled back, in whole groups, and a further rollback is offered exactly the rest. */
  lemma RolledBackGroupsFormAPrefix(base: Base, events: seq<Happening>)
    requires ValidBase(base) && OwnBaselines(base.receipt.original)
    ensures
      var r := History(base.metadata, Store(base.receipt, None), events).durable;
      exists groups: nat ::
        && RolledBackUpto(base, r.actions, groups)
        && Touched(base.receipt.original.recovery, r.actions) == Order(base)[2 * groups..]
  {
    HistoryKeeps(base, events);
    var r := History(base.metadata, Store(base.receipt, None), events).durable;
    hide ValidBase, Order, Touched, RolledBackUpto, Marked, OnlyVerified, OwnBaselines, History;
    var verified := DurableMark(base, r);
    OwnClears(base, verified);
    var groups := InitialPart(base, r.actions, verified);
  }

  /** With baselines of one's own, whenever a running session is about to begin an execute stage, the
      durable receipt has exactly the groups ahead of it rolled back, neither it nor any later one. */
  lemma EveryGroupStartsInTurn(base: Base, events: seq<Happening>)
    requires ValidBase(base) && OwnBaselines(base.receipt.original)
    ensures
      var t := History(base.metadata, Store(base.receipt, None), events);
      Beginning(t.session) ==>
        && t.durable == t.session.value.memory
        && exists group: nat ::
          && IsGroup(Order(base), group) && NextStep(t.session.value) == Order(base)[2 * group]
          && RolledBackUpto(base, t.durable.actions, group)
  {
    HistoryKeeps(base, events);
    LiveSessionsAreDurable(base.metadata, Store(base.receipt, None), events);
    var t := History(base.metadata, Store(base.receipt, None), events);
    hide ValidBase, History, RolledBackUpto, DurableInv, Beginning, OwnBaselines, SessionInv;
    if Beginning(t.session) {
      BeginningIsRunning(t.session);
      var group := InTurn(base, t.session.value);
    }
  }

  lemma BeginningIsRunning(session: Option<Session>)
    requires Beginning(session)
    ensures session.Some? && session.value.live && session.value.calls < 2 * |session.value.memory.steps|
  {
  }

  lemma InTurn(base: Base, s: Session) returns (group: nat)
    requires ValidBase(base) && OwnBaselines(base.receipt.original) && SessionInv(base, s) && Beginning(Some(s))
    ensures IsGroup(Order(base), group) && NextStep(s) == Order(base)[2 * group]
    ensures RolledBackUpto(base, s.memory.actions, group)
  {
    hide ValidBase, RolledBackUpto, Beginning, OwnBaselines, SessionInv, Order, Marked, AllAheadRolledBack,
      OnlyVerified, Touched;
    var at, verified := StartsAtGroup(base, s);
    group := at;
    OwnClears(base, verified);
    var n := InitialPart(base, s.memory.actions, verified);
    AheadBounds(base, s.memory.actions, group, n);
  }

  lemma AheadBounds(base: Base, actions: Actions, group: nat, n: nat)
    requires AllAheadRolledBack(base, actions, group) && RolledBackUpto(base, actions, n)
    requires IsGroup(Order(base), group)
    ensures n >= group
  {
    hide Order;
    forall h: nat | h < group && IsGroup(Order(base), h)
      ensures h < n
    {
      assert Order(base)[2 * h].recoveryOfStepId == Source(Order(base), h);
    }
    if group > 0 {
      assert IsGroup(Order(base), group - 1);
    }
  }

  /** Captured baselines are distinct and nonempty, and each recovery restores the baseline that
      its own source captured. */
  predicate SeparateBaselines(plan: Plan)
  {
    && (forall i | 0 <= i < |plan.steps| && plan.steps[i].phase.Execute? && plan.steps[i].captures ::
          plan.steps[i].backupRef.Some? && plan.steps[i].backupRef.value != "")
    && (forall i, j | 0 <= i < j < |plan.steps| && plan.steps[i].phase.Execute? && plan.steps[i].captures
                      && plan.steps[j].phase.Execute? && plan.steps[j].captures ::
          plan.steps[i].backupRef != plan.steps[j].backupRef)
    && (forall k | 0 <= k < |plan.recovery| && plan.recovery[k].phase.Execute? ::
          exists i | 0 <= i < |plan.steps| ::
            plan.steps[i].id == plan.recovery[k].recoveryOfStepId
              && CapturedWith(plan.steps[i], plan.recovery[k].backupRef))
  }

  lemma SeparateBaselinesSuffice(plan: Plan)
    requires SeparateBaselines(plan)
    ensures OwnBaselines(plan)
  {
    forall i, k | 0 <= i < |plan.steps| && 0 <= k < |plan.recovery| && plan.recovery[k].phase.Execute?
                  && CapturedWith(plan.steps[i], plan.recovery[k].backupRef)
      ensures plan.steps[i].id == plan.recovery[k].recoveryOfStepId
    {
      var own :| 0 <= own < |plan.steps| && plan.steps[own].id == plan.recovery[k].recoveryOfStepId
                 && CapturedWith(plan.steps[own], plan.recovery[k].backupRef);
      assert own == i by {
        if own < i { } else if i < own { }
      }
    }
  }

  /** Exactly when a verified rollback marks nothing but its own source: no other original step
      that is not yet rolled back captured the same baseline. */
  lemma MarksOnlyItsSourceExactly(actions: Actions, original: Plan, parent: JobStep, post: JobStep)
    requires (parent.action.Rollback? || parent.action.Uninstall?) && post.recoveryOfStepId != ""
    ensures
      var after := MarkVerified(actions, original, parent, post);
      (forall id: string :: id != parent.id && id != post.recoveryOfStepId ==> Look(after, id) == Look(actions, id))
      <==>
      forall i | 0 <= i < |original.steps| && CapturedWith(original.steps[i], parent.backupRef) ::
        || original.steps[i].id == parent.id || original.steps[i].id == post.recoveryOfStepId
        || Look(actions, original.steps[i].id) == Some(RolledBack)
  {
    var after := MarkVerified(actions, original, parent, post);
    if forall id: string :: id != parent.id && id != post.recoveryOfStepId ==> Look(after, id) == Look(actions, id) {
      forall i | 0 <= i < |original.steps| && CapturedWith(original.steps[i], parent.backupRef)
        ensures || original.steps[i].id == parent.id || original.steps[i].id == post.recoveryOfStepId
                || Look(actions, original.steps[i].id) == Some(RolledBack)
      {
        assert Look(after, original.steps[i].id) == Some(RolledBack);
      }
    }
  }

  // ---------------------------------------------------------------- shared within instances

  /** Nothing runs and no rollback is unfinished. */
  ghost predicate Resting(store: Store)
  {
    && store.session.None?
    && (store.durable.operation.RollbackOperation? ==> AllSucceeded(store.durable.steps, store.durable.results))
  }

  /** When references are shared only by actions on one instance, every history that comes to rest
      has exactly an initial part of the order rolled back: no recovery was skipped on the way. */
  lemma RestingGroupsFormAPrefix(base: Base, events: seq<Happening>) returns (groups: nat)
    requires ValidBase(base) && SharedWithinInstances(base)
    requires Resting(History(base.metadata, Store(base.receipt, None), events))
    ensures
      var r := History(base.metadata, Store(base.receipt, None), events).durable;
      && 2 * groups <= |Order(base)| && RolledBackUpto(base, r.actions, groups)
      && Touched(base.receipt.original.recovery, r.actions) == Order(base)[2 * groups..]
  {
    HistoryKeeps(base, events);
    var r := History(base.metadata, Store(base.receipt, None), events).durable;
    hide ValidBase, Order, Touched, RolledBackUpto, Marked, OnlyVerified, SharedWithinInstances, History, AllSucceeded;
    var verified := RestingMark(base, r);
    groups := InitialPart(base, r.actions, verified);
  }

  // ---------------------------------------------------------------- one whole session

  /** A rollback request and every callback of its n stages, all saved, and the closing save. */
  function Opening(nodes: seq<string>, calls: nat): seq<Happening>
  {
    if calls == 0 then [Open(RollbackRequest(nodes), Saved)] else Opening(nodes, calls - 1) + [Boundary(Saved)]
  }

  function WholeSession(nodes: seq<string>, stages: nat): seq<Happening>
  {
    Opening(nodes, 2 * stages) + [Close(Saved)]
  }

  function Upto(n: nat): (r: set<nat>)
    ensures forall g: nat :: g in r <==> g < n
  {
    if n == 0 then {} else Upto(n - 1) + {n - 1}
  }

  function FirstLanes(n: nat): (lanes: seq<nat>)
    ensures |lanes| == n && forall i | 0 <= i < n :: lanes[i] == i
  {
    seq(n, i => i)
  }

  lemma AllLanes(f: seq<JobStep>)
    requires Pairs(f)
    ensures Lanes(f, FirstLanes(|f| / 2)) && Lane(f, FirstLanes(|f| / 2)) == f
  {
  }

  lemma FirstSelected(base: Base, nodes: seq<string>, stages: seq<JobStep>)
    requires ValidBase(base) && Prepare(base.receipt, base.metadata, RollbackRequest(nodes)) == Some(stages)
    ensures |stages| % 2 == 0 && |stages| <= |Order(base)| && stages == Order(base)[..|stages|] && Pairs(Order(base))
    ensures forall i, j | 0 <= i < |stages| <= j < |Order(base)| :: Key(Order(base)[i]) != Key(Order(base)[j])
  {
    OrderShape(base);
    hide ValidBase, NeedsRollback, UniqueIds, DistinctSources, Selection, Prepare, Key, Pairs, Touched;
    PrepareSelects(base.receipt, base.metadata, nodes);
    SelectionIsPrefix(Order(base), nodes);
  }

  lemma FirstScope(base: Base, nodes: seq<string>, stages: seq<JobStep>)
    requires ValidBase(base) && Prepare(base.receipt, base.metadata, RollbackRequest(nodes)) == Some(stages)
    ensures |stages| % 2 == 0 && |stages| <= |Order(base)|
    ensures Lanes(Order(base), FirstLanes(|stages| / 2)) && Lane(Order(base), FirstLanes(|stages| / 2)) == stages
    ensures Within(base, FirstLanes(|stages| / 2), {}, 0)
    ensures forall i, j | 0 <= i < |stages| <= j < |Order(base)| :: Key(Order(base)[i]) != Key(Order(base)[j])
  {
    hide Order, ValidBase, Prepare, Key, Cleared, Pairs, Lane, Lanes, OnlyVerified, Within, SharedWithinInstances;
    FirstSelected(base, nodes, stages);
    var f := Order(base);
    var k := |stages| / 2;
    NothingVerified(base);
    NothingCleared(base);
    var all := FirstLanes(|f| / 2);
    AllLanes(f);
    LaneTake(f, all, k);
    assert all[..k] == FirstLanes(k);
    EveryGroup(f, all);
    NothingBegun(base, all, {}, k);
  }

  lemma NothingCleared(base: Base)
    ensures Cleared(base, {}) == {}
  {
  }

  lemma EveryGroup(f: seq<JobStep>, all: seq<nat>)
    requires all == FirstLanes(|f| / 2)
    ensures forall g: nat | IsGroup(f, g) :: g in all
  {
    forall g: nat | IsGroup(f, g)
      ensures g in all
    {
      assert all[g] == g;
    }
  }

  /** The state of the first rollback after so many saved callbacks. */
  ghost predicate Midway(base: Base, t: Store, stages: seq<JobStep>, calls: nat)
  {
    && t.session.Some?
    && var s := t.session.value;
    && s.live && s.calls == calls && s.memory.steps == stages
    && exists n: nat :: RunningAt(base, s, FirstLanes(|stages| / 2), 0, Upto(n), n)
  }

  lemma FirstOpened(base: Base, nodes: seq<string>, stages: seq<JobStep>)
    requires ValidBase(base) && Prepare(base.receipt, base.metadata, RollbackRequest(nodes)) == Some(stages)
    ensures Midway(base, History(base.metadata, Store(base.receipt, None), Opening(nodes, 0)), stages, 0)
  {
    FirstScope(base, nodes, stages);
    NothingMarked(base);
    hide Prepare, Order, Marked, Within, Lane, Lanes;
    var start := Store(base.receipt, None);
    assert History(base.metadata, start, []) == start;
    var t := History(base.metadata, start, Opening(nodes, 0));
    assert t == OpenSession(start, stages, RollbackRequest(nodes), Saved);
    assert Upto(0) == {};
    assert Lane(Order(base), FirstLanes(|stages| / 2))[0..] == stages;
    assert RunningAt(base, t.session.value, FirstLanes(|stages| / 2), 0, Upto(0), 0);
  }

  lemma VerifiedUpto(calls: nat, groups: nat, n: nat)
    requires Tight(0, calls / 2, n) && calls < 4 * groups
    ensures VerifiedAfter(calls, 0, FirstLanes(groups), Upto(n)) == Upto(GroupsAfter(calls, calls / 2, n))
  {
  }

  lemma RunningCall(base: Base, s: Session, stages: seq<JobStep>, n: nat)
    requires ValidBase(base) && RunningAt(base, s, FirstLanes(|stages| / 2), 0, Upto(n), n)
    requires s.live && s.memory.steps == stages && s.calls < 2 * |stages|
    ensures
      var after := AfterBoundary(s.memory, JobSafety.ExpectedBoundary(s.calls), NextStep(s));
      var m := GroupsAfter(s.calls, s.calls / 2, n);
      after.steps == stages
        && RunningAt(base, Session(after, s.calls + 1, true), FirstLanes(|stages| / 2), 0, Upto(m), m)
  {
    var lanes := FirstLanes(|stages| / 2);
    hide ValidBase, Order, Updated, Marked, Within, Listing, Acknowledged, GroupsAfter, VerifiedAfter, AfterBoundary,
      Segment, Tight, Upto;
    SegmentLength(base, s.memory, lanes, 0);
    VerifiedUpto(s.calls, |stages| / 2, n);
    RunningNext(base, s, lanes, 0, Upto(n), n, true);
    SegmentStays(base, s.memory, lanes, 0, JobSafety.ExpectedBoundary(s.calls), NextStep(s));
  }

  lemma OneMoreCall(base: Base, t: Store, stages: seq<JobStep>, calls: nat)
    requires ValidBase(base) && Midway(base, t, stages, calls) && calls < 2 * |stages|
    ensures Midway(base, Step(base.metadata, t, Boundary(Saved)), stages, calls + 1)
  {
    hide ValidBase, RunningAt, AfterBoundary, GroupsAfter;
    var s := t.session.value;
    var n: nat :| RunningAt(base, s, FirstLanes(|stages| / 2), 0, Upto(n), n);
    RunningCall(base, s, stages, n);
  }

  lemma SegmentLength(base: Base, r: Receipt, lanes: seq<nat>, off: nat)
    requires Segment(base, r, lanes, off)
    ensures |r.steps| == 2 * |lanes| - off
  {
    hide Order, Lanes;
  }

  lemma {:induction false} MidwayThrough(base: Base, nodes: seq<string>, stages: seq<JobStep>, calls: nat)
    requires ValidBase(base) && Prepare(base.receipt, base.metadata, RollbackRequest(nodes)) == Some(stages)
    requires calls <= 2 * |stages|
    ensures Midway(base, History(base.metadata, Store(base.receipt, None), Opening(nodes, calls)), stages, calls)
  {
    hide ValidBase, Prepare, Midway, Step;
    if calls == 0 {
      FirstOpened(base, nodes, stages);
    } else {
      MidwayThrough(base, nodes, stages, calls - 1);
      var events := Opening(nodes, calls);
      assert events[..|events| - 1] == Opening(nodes, calls - 1);
      OneMoreCall(base, History(base.metadata, Store(base.receipt, None), Opening(nodes, calls - 1)), stages,
        calls - 1);
    }
  }

  /** After the first rollback of an accepted scope has run undisturbed, exactly its groups are
      verified, and the store is at rest. */
  lemma WholeScope(base: Base, nodes: seq<string>, stages: seq<JobStep>)
    requires ValidBase(base) && Prepare(base.receipt, base.metadata, RollbackRequest(nodes)) == Some(stages)
      && stages != []
    ensures
      var t := History(base.metadata, Store(base.receipt, None), WholeSession(nodes, |stages|));
      && Resting(t) && t.durable.steps == stages && t.durable.operation.RollbackOperation?
      && |stages| % 2 == 0 && Marked(base, t.durable.actions, Upto(|stages| / 2))
  {
    hide ValidBase, Prepare, Midway, Resting, Marked;
    MidwayThrough(base, nodes, stages, 2 * |stages|);
    FirstSelected(base, nodes, stages);
    var events := WholeSession(nodes, |stages|);
    assert events[..|events| - 1] == Opening(nodes, 2 * |stages|);
    ClosesWhole(base, History(base.metadata, Store(base.receipt, None), Opening(nodes, 2 * |stages|)), stages);
  }

  lemma ClosesWhole(base: Base, t: Store, stages: seq<JobStep>)
    requires ValidBase(base) && Midway(base, t, stages, 2 * |stages|) && stages != [] && |stages| % 2 == 0
    ensures
      var u := Step(base.metadata, t, Close(Saved));
      && Resting(u) && u.durable.steps == stages && u.durable.operation.RollbackOperation?
      && Marked(base, u.durable.actions, Upto(|stages| / 2))
  {
    hide ValidBase, RunningAt, AllSucceeded, Listing, Marked;
    var s := t.session.value;
    var n: nat :| RunningAt(base, s, FirstLanes(|stages| / 2), 0, Upto(n), n);
    RanThrough(base, s, stages, n);
  }

  lemma RanThrough(base: Base, s: Session, stages: seq<JobStep>, n: nat)
    requires ValidBase(base) && RunningAt(base, s, FirstLanes(|stages| / 2), 0, Upto(n), n)
    requires s.live && s.memory.steps == stages && s.calls == 2 * |stages| && stages != [] && |stages| % 2 == 0
    ensures n == |stages| / 2 && Marked(base, s.memory.actions, Upto(n)) && s.memory.operation.RollbackOperation?
    ensures AllSucceeded(stages, Listing(stages, |stages|, false))
  {
    hide ValidBase, Order, Marked, Within, Listing, AllSucceeded, Segment;
    SavedIsRollback(base, s.memory, FirstLanes(|stages| / 2), 0);
    AllDone(base, s.memory, FirstLanes(|stages| / 2));
  }

  lemma AllDone(base: Base, r: Receipt, lanes: seq<nat>)
    requires ValidBase(base) && Segment(base, r, lanes, 0) && r.steps != []
    ensures AllSucceeded(r.steps, Listing(r.steps, |r.steps|, false))
  {
    SegmentShape(base, r, lanes, 0);
    hide ValidBase, Segment, Order, Listing, Completed;
    forall k | 0 <= k < |r.steps|
      ensures Completed(Listing(r.steps, |r.steps|, false), r.steps[k].id)
    {
      ListingCompleted(r.steps, |r.steps|, false, k);
    }
  }

  // ---------------------------------------------------------------- what is left behind

  lemma OfferedIff(base: Base, actions: Actions, verified: set<nat>, g: nat)
    requires ValidBase(base) && Marked(base, actions, verified) && IsGroup(Order(base), g)
    ensures
      var execute := Order(base)[2 * g];
      execute in Touched(base.receipt.original.recovery, actions) <==>
        Source(Order(base), g) !in Cleared(base, verified)
  {
    var recovery := base.receipt.original.recovery;
    OrderShape(base);
    var execute := Order(base)[2 * g];
    hide Order, ValidBase, Cleared, Closed, UniqueIds, DistinctSources, Pairs;
    TouchedIff(recovery, actions, execute);
    var k :| 0 <= k < |recovery| && recovery[k] == execute;
    assert Look(actions, recovery[k].recoveryOfStepId) ==
      if recovery[k].recoveryOfStepId in Cleared(base, verified) then Some(RolledBack)
      else Look(base.receipt.actions, recovery[k].recoveryOfStepId);
  }

  /** A group of the first n restores a baseline that the source of group g captured. */
  ghost predicate CapturedByOneOf(base: Base, n: nat, g: nat)
    requires IsGroup(Order(base), g)
  {
    exists v: nat ::
      v < n && IsGroup(Order(base), v) && Source(Order(base), g) in Captures(base.receipt.original, Order(base)[2 * v])
  }

  lemma ClearedUptoIff(base: Base, n: nat, g: nat)
    requires ValidBase(base) && IsGroup(Order(base), g) && g >= n
    ensures Source(Order(base), g) in Cleared(base, Upto(n)) <==> CapturedByOneOf(base, n, g)
  {
    hide Order, ValidBase, Captures;
    forall v: nat | v < n && IsGroup(Order(base), v)
      ensures Source(Order(base), g) != Source(Order(base), v)
    {
      OneGroupPerSource(base, g, v);
    }
    if CapturedByOneOf(base, n, g) {
      var v: nat :| v < n && IsGroup(Order(base), v)
        && Source(Order(base), g) in Captures(base.receipt.original, Order(base)[2 * v]);
      assert v in Upto(n) && Source(Order(base), g) in Clears(base, v);
    }
  }

  /** After the first rollback of an accepted scope has completed, a group outside the scope, which
      it never ran, is no longer offered if and only if a group of the scope restored a baseline that
      the skipped group's source captured; and then no later history ever begins it. */
  lemma LeftBehindExactly(base: Base, nodes: seq<string>, stages: seq<JobStep>, g: nat)
    requires ValidBase(base) && Prepare(base.receipt, base.metadata, RollbackRequest(nodes)) == Some(stages)
      && stages != []
    requires IsGroup(Order(base), g) && 2 * g >= |stages|
    ensures
      var t := History(base.metadata, Store(base.receipt, None), WholeSession(nodes, |stages|));
      var execute := Order(base)[2 * g];
      && (execute !in Touched(base.receipt.original.recovery, t.durable.actions) <==>
        CapturedByOneOf(base, |stages| / 2, g))
      && (CapturedByOneOf(base, |stages| / 2, g) ==>
            forall later: seq<Happening> :: !Begins(History(base.metadata, t, later), execute))
  {
    WholeScope(base, nodes, stages);
    FirstScope(base, nodes, stages);
    var t := History(base.metadata, Store(base.receipt, None), WholeSession(nodes, |stages|));
    hide ValidBase, Order, Prepare, Marked, Touched, History, Begins, CapturedByOneOf, Captures, Key;
    OfferedIff(base, t.durable.actions, Upto(|stages| / 2), g);
    ClearedUptoIff(base, |stages| / 2, g);
    if CapturedByOneOf(base, |stages| / 2, g) {
      assert Away(base, t, g) by {
        OutsideIsAway(base, nodes, stages, g);
      }
      forall later: seq<Happening>
        ensures !Begins(History(base.metadata, t, later), Order(base)[2 * g])
      {
        StaysAway(base, t, g, later);
      }
    }
  }

  /** A running session is about to begin this stage. */
  predicate Begins(store: Store, stage: JobStep)
  {
    Beginning(store.session) && NextStep(store.session.value) == stage
  }

  ghost predicate Gone(r: Receipt, stage: JobStep)
  {
    Look(r.actions, stage.recoveryOfStepId) == Some(RolledBack) && stage !in r.steps
  }

  /** Group g counts as rolled back and is in no list of stages. */
  ghost predicate Away(base: Base, store: Store, g: nat)
    requires IsGroup(Order(base), g)
  {
    && Inv(base, store) && Gone(store.durable, Order(base)[2 * g])
    && (store.session.Some? ==> Gone(store.session.value.memory, Order(base)[2 * g]))
  }

  lemma OutsideIsAway(base: Base, nodes: seq<string>, stages: seq<JobStep>, g: nat)
    requires ValidBase(base) && Prepare(base.receipt, base.metadata, RollbackRequest(nodes)) == Some(stages)
      && stages != []
    requires IsGroup(Order(base), g) && 2 * g >= |stages| && CapturedByOneOf(base, |stages| / 2, g)
    ensures Away(base, History(base.metadata, Store(base.receipt, None), WholeSession(nodes, |stages|)), g)
  {
    WholeScope(base, nodes, stages);
    FirstScope(base, nodes, stages);
    HistoryKeeps(base, WholeSession(nodes, |stages|));
    var t := History(base.metadata, Store(base.receipt, None), WholeSession(nodes, |stages|));
    hide ValidBase, Order, Prepare, Inv, History, Captures, CapturedByOneOf, Cleared, Lane, Lanes, Within,
      AllSucceeded, Marked;
    ClearedUptoIff(base, |stages| / 2, g);
    MarkMeans(base, t.durable.actions, Upto(|stages| / 2));
    assert Order(base)[2 * g].recoveryOfStepId == Source(Order(base), g);
    forall i | 0 <= i < |stages|
      ensures stages[i] != Order(base)[2 * g]
    {
      LaneAt(Order(base), FirstLanes(|stages| / 2), i);
    }
  }

  lemma {:induction false} StaysAway(base: Base, t: Store, g: nat, later: seq<Happening>)
    requires ValidBase(base) && IsGroup(Order(base), g) && Away(base, t, g)
    ensures Away(base, History(base.metadata, t, later), g)
    ensures !Begins(History(base.metadata, t, later), Order(base)[2 * g])
    decreases |later|
  {
    hide ValidBase, Order, Inv, Step, Look;
    if later != [] {
      StaysAway(base, t, g, later[..|later| - 1]);
      StepStaysAway(base, History(base.metadata, t, later[..|later| - 1]), g, later[|later| - 1]);
    }
  }

  lemma StepStaysAway(base: Base, store: Store, g: nat, h: Happening)
    requires ValidBase(base) && IsGroup(Order(base), g) && Away(base, store, g)
    ensures Away(base, Step(base.metadata, store, h), g)
  {
    StepKeeps(base, store, h);
    hide ValidBase, Order, Inv, Prepare, Look, AfterBoundary;
    match h
    case Open(request, save) =>
      if store.session.None? && !(request.ResumeRequest? && store.durable.operation.RunOperation?)
         && Prepare(store.durable, base.metadata, request).Some? {
        PreparedAway(base, store, request, g);
      }
    case Boundary(save) =>
      if store.session.Some? && store.session.value.live
        && store.session.value.calls < 2 * |store.session.value.memory.steps| {
        BoundaryAway(base, store, g);
      }
    case MediaRefused =>
    case Close(save) =>
    case Crash =>
  }

  lemma PreparedAway(base: Base, store: Store, request: Request, g: nat)
    requires ValidBase(base) && IsGroup(Order(base), g) && Away(base, store, g)
    requires request.ResumeRequest? ==> store.durable.operation.RollbackOperation?
    requires Prepare(store.durable, base.metadata, request).Some?
    ensures Order(base)[2 * g] !in Prepare(store.durable, base.metadata, request).value
  {
    var r := store.durable;
    hide RecoveryPlan, Order, Marked, Within, Selection, Touched, AllSucceeded, RetryStages, Segment, Listing, Loose;
    match request
    case RollbackRequest(nodes) =>
      PrepareSelects(r, base.metadata, nodes);
      TouchedIff(r.original.recovery, r.actions, Order(base)[2 * g]);
      SelectionIsPart(Touched(r.original.recovery, r.actions), nodes, Order(base)[2 * g]);
    case ResumeRequest =>
      var lanes, off: nat, verified, done: nat, active: bool,
        n: nat :| SavedAt(base, r, lanes, off, verified, done, active, n);
      ResumeContinues(base, r, lanes, off, verified, done, active, n);
  }

  lemma SelectionIsPart(stages: seq<JobStep>, nodes: seq<string>, x: JobStep)
    requires Selection(stages, nodes).Some? && x !in stages
    ensures x !in Selection(stages, nodes).value
  {
  }

  lemma BoundaryAway(base: Base, store: Store, g: nat)
    requires ValidBase(base) && IsGroup(Order(base), g) && Away(base, store, g)
    requires store.session.Some? && store.session.value.calls < 2 * |store.session.value.memory.steps|
    ensures
      var s := store.session.value;
      Gone(AfterBoundary(s.memory, JobSafety.ExpectedBoundary(s.calls), NextStep(s)), Order(base)[2 * g])
  {
    var s := store.session.value;
    var lanes, off: nat, verified, n: nat :| RunningAt(base, s, lanes, off, verified, n);
    SegmentShape(base, s.memory, lanes, off);
    OrderShape(base);
    hide Order, Marked, Within, Tight, Updated, NeedsRollback, Lane, Lanes, Pairs, UniqueIds, DistinctSources,
      ValidBase;
    RolledBackStays(base, s.memory, JobSafety.ExpectedBoundary(s.calls), NextStep(s), Order(base)[2 * g]);
  }

  /** No callback over recovery stages takes back that a source is rolled back. */
  lemma RolledBackStays(base: Base, r: Receipt, boundary: JobController.Boundary, step: JobStep, x: JobStep)
    requires ValidBase(base) && r.original == base.receipt.original
    requires step in r.original.recovery && x in r.original.recovery
    requires forall k | 0 <= k < |r.steps| :: r.steps[k] in r.original.recovery
    requires Look(r.actions, x.recoveryOfStepId) == Some(RolledBack)
    ensures Look(Updated(r, boundary, step), x.recoveryOfStepId) == Some(RolledBack)
  {
    InRecovery(base, step);
    assert step.id != x.recoveryOfStepId;
    var parent := Parent(r.steps, r.original, step);
    if step.phase.Post? && boundary.EndStage? && parent.Some? {
      RecoversSomething(base, step);
      OriginalStepsAreNoParents(base, step);
      assert parent.value in r.original.recovery;
      InRecovery(base, parent.value);
      assert parent.value.id != x.recoveryOfStepId;
      hide ValidBase, Parent, FirstParent;
    }
  }

  lemma RecoversSomething(base: Base, step: JobStep)
    requires ValidBase(base) && step in base.receipt.original.recovery
    ensures step.recoveryOfStepId != ""
  {
    var recovery := base.receipt.original.recovery;
    var i :| 0 <= i < |recovery| && recovery[i] == step;
    assert Pair(recovery[i / 2 * 2], recovery[i / 2 * 2 + 1]);
  }

  /** When baselines are shared only within instances, a completed scope leaves nothing behind. */
  lemma WholeInstancesLeaveNothingBehind(base: Base, nodes: seq<string>, stages: seq<JobStep>, g: nat)
    requires ValidBase(base) && SharedWithinInstances(base)
    requires Prepare(base.receipt, base.metadata, RollbackRequest(nodes)) == Some(stages) && stages != []
    requires IsGroup(Order(base), g) && 2 * g >= |stages|
    ensures !CapturedByOneOf(base, |stages| / 2, g)
  {
    FirstScope(base, nodes, stages);
    hide ValidBase, Order, Prepare, Captures, Key, Lane, Lanes, Within;
    forall v: nat | v < |stages| / 2 && IsGroup(Order(base), v)
      ensures Source(Order(base), g) !in Captures(base.receipt.original, Order(base)[2 * v])
    {
      assert Key(Order(base)[2 * v]) != Key(Order(base)[2 * g]);
    }
  }

  // ---------------------------------------------------------------- a rollback that leaves one behind

  /** Actions 1 and 2 of one component captured the same baseline on two nodes. */
  const FIRST := JobStep("1", "c", "n", "i", "", Install, Execute, false, "", "role", 60, true, true, Some("shared"))
  const SECOND := FIRST.(id := "2", nodeId := "m")

  const UNDO_SECOND :=
    JobStep("3", "c", "m", "r", "", ActionKind.Rollback, Execute, false, "2", "role", 60, true, false, Some("shared"))
  const CHECK_SECOND :=
    JobStep("4", "c", "m", "k", "r", Check, Post, false, "2", "role", 60, true, false, Some("shared"))
  const UNDO_FIRST := UNDO_SECOND.(id := "5", nodeId := "n", recoveryOfStepId := "1")
  const CHECK_FIRST := CHECK_SECOND.(id := "6", nodeId := "n", recoveryOfStepId := "1")

  const SHARING := Plan([FIRST, SECOND], [UNDO_SECOND, CHECK_SECOND, UNDO_FIRST, CHECK_FIRST])
  const FINISHED := Receipt(RunOperation, SHARING, SHARING.steps, [], map["1" := Verified, "2" := Verified], 1)
  const SHARING_BASE := Base(FINISHED, [])

  lemma SharingIsValid()
    ensures ValidBase(SHARING_BASE)
    ensures Order(SHARING_BASE) == SHARING.recovery
  {
    var r := SHARING.recovery;
    assert |r| == 4 && Pair(r[0], r[1]) && Pair(r[2], r[3]);
    AllTouched(r, FINISHED.actions);
  }

  lemma SharingPrepares()
    ensures Prepare(FINISHED, [], RollbackRequest(["c/m"])) == Some([UNDO_SECOND, CHECK_SECOND])
  {
    SharingIsValid();
    var stages := SHARING.recovery;
    var nodes := ["c/m"];
    assert Key(UNDO_SECOND) == Key(CHECK_SECOND) == "c/m" && Key(UNDO_FIRST) == Key(CHECK_FIRST) == "c/n";
    assert "c/m"[2] != "c/n"[2];
    assert stages[..2] == [UNDO_SECOND, CHECK_SECOND];
    assert Key(stages[..2][0]) in Keys(stages[..2]);
    assert Scope(stages, nodes, 2);
    OnlyScope(stages, nodes, 2);
  }

  /** A rollback of node m alone restores the baseline of node n as well: afterwards nothing is
      offered for action 1, although its own recovery never ran and no later history begins it. */
  lemma SharedBaselineSkipsARecovery()
    ensures
      var t := History([], Store(FINISHED, None), WholeSession(["c/m"], 2));
      && ValidBase(SHARING_BASE) && UNDO_FIRST in Touched(SHARING.recovery, FINISHED.actions)
      && Resting(t) && t.durable.steps == [UNDO_SECOND, CHECK_SECOND]
      && UNDO_FIRST !in Touched(SHARING.recovery, t.durable.actions)
      && forall later: seq<Happening> :: !Begins(History([], t, later), UNDO_FIRST)
  {
    hide Touched, History, Prepare, Begins, ValidBase, Resting;
    SharingIsValid();
    SharingPrepares();
    var stages := [UNDO_SECOND, CHECK_SECOND];
    WholeScope(SHARING_BASE, ["c/m"], stages);
    SharingCaptures();
    LeftBehindExactly(SHARING_BASE, ["c/m"], stages, 1);
    assert Order(SHARING_BASE)[2] == UNDO_FIRST;
    assert UNDO_FIRST in SHARING.recovery;
  }

  lemma SharingCaptures()
    ensures IsGroup(Order(SHARING_BASE), 1) && CapturedByOneOf(SHARING_BASE, 1, 1)
  {
    SharingIsValid();
    hide Order, Touched;
    var f := Order(SHARING_BASE);
    assert f[0] == UNDO_SECOND && f[2] == UNDO_FIRST;
    assert SHARING.steps[0] == FIRST && CapturedWith(FIRST, UNDO_SECOND.backupRef);
    assert Source(f, 1) in Captures(SHARING, f[0]);
    assert IsGroup(f, 0);
  }

  lemma {:induction false} AllTouched(recovery: seq<JobStep>, actions: Actions)
    requires forall k | 0 <= k < |recovery| :: NeedsRollback(actions, recovery[k])
    ensures Touched(recovery, actions) == recovery
    decreases |recovery|
  {
    if recovery != [] {
      AllTouched(recovery[..|recovery| - 1], actions);
    }
  }
}
