/** Rollback over whole histories: which sources are rolled back after any run of rollback and resume
    sessions, and that no group starts before all groups ahead of it in the recovery order are
    rolled back. Nothing is assumed about the baselines that actions captured. */
module RollbackSafety {
  import opened JobPlan
  import opened RollbackScope
  import opened ActionReceipt
  import JobController
  import JobSafety
  import opened RollbackSessions
  import opened RollbackOrder

  // ---------------------------------------------------------------- where a history stands

  /** Compared with the start, exactly what the verified groups clear is rolled back; and a group is
      verified only when every group ahead of it is cleared. */
  ghost predicate Marked(base: Base, actions: Actions, verified: set<nat>)
  {
    && (forall g | g in verified :: IsGroup(Order(base), g))
    && Advanced(base.receipt.original.recovery, base.receipt.actions, actions, Cleared(base, verified))
    && Closed(base, verified)
  }

  ghost predicate Closed(base: Base, verified: set<nat>)
  {
    forall g, h: nat | g in verified && h < g && IsGroup(Order(base), h) ::
      Source(Order(base), h) in Cleared(base, verified)
  }

  /** An action captures the baseline that a group restores only on the group's own instance. */
  ghost predicate SharedWithinInstances(base: Base)
  {
    var f := Order(base);
    forall g: nat, v: nat | IsGroup(f, g) && IsGroup(f, v)
      && Source(f, g) in Captures(base.receipt.original, f[2 * v]) ::
      Key(f[2 * g]) == Key(f[2 * v])
  }

  /** Besides verified groups only the session's own are cleared, and it works on whole instances. */
  ghost predicate WholeInstances(base: Base, lanes: seq<nat>, verified: set<nat>)
  {
    && (forall g: nat | IsGroup(Order(base), g) && Source(Order(base), g) in Cleared(base, verified) ::
      g in verified || g in lanes)
    && (forall i, h: nat | 0 <= i < |lanes| && IsGroup(Order(base), h) && IsGroup(Order(base), lanes[i]) ::
      Key(Order(base)[2 * h]) == Key(Order(base)[2 * lanes[i]]) ==> h in verified || h in lanes)
  }

  /** Nothing is cleared but what was verified itself. */
  ghost predicate OnlyVerified(base: Base, verified: set<nat>)
  {
    forall g: nat | IsGroup(Order(base), g) && Source(Order(base), g) in Cleared(base, verified) :: g in verified
  }

  /** Of the groups a session works on, the first n are verified, and everything ahead of any of them
      is either among them or cleared. */
  ghost predicate Within(base: Base, lanes: seq<nat>, verified: set<nat>, n: nat)
  {
    && n <= |lanes|
    && (forall i | 0 <= i < |lanes| :: lanes[i] in verified <==> i < n)
    && (SharedWithinInstances(base) ==> WholeInstances(base, lanes, verified))
    && forall i, h: nat | 0 <= i < |lanes| && h < lanes[i] && h !in lanes && IsGroup(Order(base), h) ::
      Source(Order(base), h) in Cleared(base, verified)
  }

  /** Position `at` counts acknowledged stages; between the two stages of a group the group may or
      may not already be marked. */
  predicate Loose(at: nat, groups: nat)
  {
    if at % 2 == 0 then 2 * groups == at else 2 * groups == at - 1 || 2 * groups == at + 1
  }

  /** The same within a session that started at `from`: after its first stage the mark is exact. */
  predicate Tight(from: nat, done: nat, groups: nat)
  {
    var at := from + done;
    if at % 2 == 0 then 2 * groups == at
    else if done == 0 then 2 * groups == at - 1 || 2 * groups == at + 1
    else 2 * groups == at - 1
  }

  /** A rollback of whole groups, the first of which may already be past its execute stage. */
  ghost predicate Segment(base: Base, r: Receipt, lanes: seq<nat>, off: nat)
  {
    && Lanes(Order(base), lanes) && off <= 1 && off <= 2 * |lanes|
    && r.original == base.receipt.original && r.operation.RollbackOperation?
    && r.steps == Lane(Order(base), lanes)[off..]
  }

  /** A saved receipt of a rollback with `done` of its stages acknowledged. */
  ghost predicate SavedAt(base: Base, r: Receipt, lanes: seq<nat>, off: nat, verified: set<nat>, done: nat,
      active: bool, n: nat)
  {
    && Segment(base, r, lanes, off)
    && done + (if active then 1 else 0) <= |r.steps| && r.results == Listing(r.steps, done, active)
    && Marked(base, r.actions, verified) && Within(base, lanes, verified, n) && Loose(off + done, n)
  }

  ghost predicate DurableInv(base: Base, r: Receipt)
  {
    r == base.receipt || exists lanes, off: nat, verified, done: nat, active: bool, n: nat ::
      SavedAt(base, r, lanes, off, verified, done, active, n)
  }

  ghost predicate RunningAt(base: Base, s: Session, lanes: seq<nat>, off: nat, verified: set<nat>, n: nat)
  {
    && Segment(base, s.memory, lanes, off) && Sound(s)
    && Marked(base, s.memory.actions, verified) && Within(base, lanes, verified, n) && Tight(off, s.calls / 2, n)
    && (s.live ==> s.memory.results == Listing(s.memory.steps, s.calls / 2, s.calls % 2 == 1))
  }

  ghost predicate SessionInv(base: Base, s: Session)
  {
    exists lanes, off: nat, verified, n: nat :: RunningAt(base, s, lanes, off, verified, n)
  }

  ghost predicate Inv(base: Base, store: Store)
  {
    DurableInv(base, store.durable) && (store.session.Some? ==> SessionInv(base, store.session.value))
  }

  lemma NothingMarked(base: Base)
    ensures Marked(base, base.receipt.actions, {})
  {
    hide Order;
    assert Cleared(base, {}) == {};
  }

  /** What is still to be rolled back is the order without what is cleared. */
  lemma StillTouched(base: Base, actions: Actions, verified: set<nat>)
    requires Marked(base, actions, verified)
    ensures Touched(base.receipt.original.recovery, actions) == Remaining(Order(base), Cleared(base, verified))
  {
    hide Touched, Remaining, Advanced, Cleared, Closed;
    TouchedAfter(base.receipt.original.recovery, base.receipt.actions, actions, Cleared(base, verified));
  }

  lemma SegmentShape(base: Base, r: Receipt, lanes: seq<nat>, off: nat)
    requires ValidBase(base) && Segment(base, r, lanes, off)
    ensures UniqueIds(r.steps) && |r.steps| == 2 * |lanes| - off
    ensures forall k | 0 <= k < |r.steps| :: r.steps[k] == Lane(Order(base), lanes)[off + k]
    ensures forall k | 0 <= k < |r.steps| :: r.steps[k] in base.receipt.original.recovery
    ensures Pairs(Lane(Order(base), lanes))
  {
    OrderShape(base);
    hide Order, ValidBase, NeedsRollback;
    LaneShape(Order(base), lanes);
    hide Lane, Pairs;
    var l := Lane(Order(base), lanes);
    forall k | 0 <= k < |r.steps|
      ensures r.steps[k] in base.receipt.original.recovery
    {
      assert r.steps[k] == l[off + k] && l[off + k] in Order(base);
    }
  }

  // ---------------------------------------------------------------- opening a session

  lemma {:induction false} ListingCompleted(steps: seq<JobStep>, done: nat, active: bool, k: nat)
    requires UniqueIds(steps) && k < |steps| && done + (if active then 1 else 0) <= |steps|
    ensures Completed(Listing(steps, done, active), steps[k].id) <==> k < done
    decreases done, active
  {
    var l := Listing(steps, done, active);
    if active {
      assert l[..|l| - 1] == Listing(steps, done, false);
      ListingCompleted(steps, done, false, k);
      assert l[|l| - 1] == StageRecord(steps[done].id, false);
      DistinctAt(steps, k, done);
    } else if done > 0 {
      assert l[..|l| - 1] == Listing(steps, done - 1, false);
      ListingCompleted(steps, done - 1, false, k);
      assert l[|l| - 1] == StageRecord(steps[done - 1].id, true);
      DistinctAt(steps, k, done - 1);
    }
  }

  lemma DistinctAt(steps: seq<JobStep>, i: nat, j: nat)
    requires UniqueIds(steps) && i < |steps| && j < |steps|
    ensures steps[i].id == steps[j].id <==> i == j
  {
    if i < j { } else if j < i { }
  }

  /** A scope of whole nodes never splits a group. */
  lemma SplitGroupIsNoScope(stages: seq<JobStep>, nodes: seq<string>, n: nat)
    requires Pairs(stages) && n < |stages| && n % 2 == 1
    ensures !Scope(stages, nodes, n)
  {
    assert Pair(stages[n - 1], stages[n]);
    assert Key(stages[n - 1]) == Key(stages[n]);
  }

  lemma SelectionIsPrefix(stages: seq<JobStep>, nodes: seq<string>)
    requires Pairs(stages)
    ensures
      var s := Selection(stages, nodes);
      s.Some? ==>
        && |s.value| <= |stages| && s.value == stages[..|s.value|] && |s.value| % 2 == 0
        && forall i, j | 0 <= i < |s.value| <= j < |stages| :: Key(stages[i]) != Key(stages[j])
  {
    forall n: nat | n < |stages| && n % 2 == 1 ensures !Scope(stages, nodes, n) {
      SplitGroupIsNoScope(stages, nodes, n);
    }
  }

  /** An accepted rollback request runs the next groups still to be rolled back, whole groups of them, and
      every group ahead of one it runs is among them or cleared. */
  lemma RollbackSelectsNext(base: Base, r: Receipt, nodes: seq<string>)
      returns (lanes: seq<nat>, verified: set<nat>)
    requires ValidBase(base) && DurableInv(base, r)
    requires Prepare(r, base.metadata, RollbackRequest(nodes)).Some?
    ensures r.original == base.receipt.original
    ensures Marked(base, r.actions, verified) && Lanes(Order(base), lanes)
    ensures Prepare(r, base.metadata, RollbackRequest(nodes)).value == Lane(Order(base), lanes)
    ensures Within(base, lanes, verified, 0)
  {
    hide Order, Selection, Touched, Marked, ValidBase, DurableInv, AllSucceeded, Prepare, Pairs, DistinctSources,
      UniqueIds, Lanes, Lane,
      Cleared, Remaining, Within, NeedsRollback, SharedWithinInstances, OnlyVerified, Key;
    PrepareSelects(r, base.metadata, nodes);
    verified := RestingMark(base, r);
    OrderShape(base);
    StillTouched(base, r.actions, verified);
    var all := RemainingLanes(Order(base), Cleared(base, verified));
    LanePairs(Order(base), all);
    SelectionIsPrefix(Lane(Order(base), all), nodes);
    var stages := Prepare(r, base.metadata, RollbackRequest(nodes)).value;
    lanes := all[..|stages| / 2];
    LaneTake(Order(base), all, |stages| / 2);
    NothingBegun(base, all, verified, |stages| / 2);
  }

  lemma LanePairs(f: seq<JobStep>, lanes: seq<nat>)
    requires Pairs(f) && UniqueIds(f) && Lanes(f, lanes)
    ensures Pairs(Lane(f, lanes))
  {
    LaneShape(f, lanes);
  }

  lemma NothingBegun(base: Base, all: seq<nat>, verified: set<nat>, k: nat)
    requires Lanes(Order(base), all) && k <= |all|
    requires forall g | IsGroup(Order(base), g) :: g in all <==> Source(Order(base), g) !in Cleared(base, verified)
    requires SharedWithinInstances(base) ==> OnlyVerified(base, verified)
    requires forall i, j | 0 <= i < 2 * k <= j < 2 * |all| ::
      Key(Lane(Order(base), all)[i]) != Key(Lane(Order(base), all)[j])
    ensures Within(base, all[..k], verified, 0)
  {
    hide Order, Cleared, SharedWithinInstances, WholeInstances, OnlyVerified;
    var lanes := all[..k];
    if SharedWithinInstances(base) {
      WholeSelection(base, all, verified, k);
    }
    hide Lane, Key;
    forall i | 0 <= i < |lanes|
      ensures lanes[i] !in verified
    {
      assert lanes[i] == all[i] && all[i] in all;
      NotVerified(base, verified, all[i]);
    }
    forall i, h: nat | 0 <= i < |lanes| && h < lanes[i] && h !in lanes && IsGroup(Order(base), h)
      ensures Source(Order(base), h) in Cleared(base, verified)
    {
      assert lanes[i] == all[i];
      EarlierLane(all, k, i, h);
    }
  }

  lemma WholeSelection(base: Base, all: seq<nat>, verified: set<nat>, k: nat)
    requires Lanes(Order(base), all) && k <= |all| && OnlyVerified(base, verified)
    requires forall g | IsGroup(Order(base), g) :: g in all <==> Source(Order(base), g) !in Cleared(base, verified)
    requires forall i, j | 0 <= i < 2 * k <= j < 2 * |all| ::
      Key(Lane(Order(base), all)[i]) != Key(Lane(Order(base), all)[j])
    ensures WholeInstances(base, all[..k], verified)
  {
    hide Order, Cleared, Key, Lane;
    var lanes := all[..k];
    forall i, h: nat | 0 <= i < |lanes| && IsGroup(Order(base), h)
      && Key(Order(base)[2 * h]) == Key(Order(base)[2 * lanes[i]])
      ensures h in verified || h in lanes
    {
      if h in all {
        SameInstanceSelected(Order(base), all, k, i, h);
      }
    }
  }

  /** What is on the instance of a selected group is selected. */
  lemma SameInstanceSelected(f: seq<JobStep>, all: seq<nat>, k: nat, i: nat, h: nat)
    requires Lanes(f, all) && i < k <= |all| && h in all && Key(f[2 * h]) == Key(f[2 * all[..k][i]])
    requires forall a, b | 0 <= a < 2 * k <= b < 2 * |all| :: Key(Lane(f, all)[a]) != Key(Lane(f, all)[b])
    ensures h in all[..k]
  {
    hide Key, Lane;
    var j :| 0 <= j < |all| && all[j] == h;
    LaneAt(f, all, 2 * i);
    LaneAt(f, all, 2 * j);
    assert j < k;
    assert all[..k][j] == h;
  }

  lemma NotVerified(base: Base, verified: set<nat>, g: nat)
    requires IsGroup(Order(base), g) && Source(Order(base), g) !in Cleared(base, verified)
    ensures g !in verified
  {
    if g in verified {
      VerifiedIsCleared(base, verified, g);
    }
  }

  lemma EarlierLane(all: seq<nat>, k: nat, i: nat, h: nat)
    requires i < k <= |all| && h < all[i] && h !in all[..k]
    requires forall a, b | 0 <= a < b < |all| :: all[a] < all[b]
    ensures h !in all
  {
    forall j | 0 <= j < |all|
      ensures all[j] != h
    {
      if j < k {
        assert all[..k][j] == all[j];
      }
    }
  }

  lemma PrepareSelects(r: Receipt, metadata: seq<JobStep>, nodes: seq<string>)
    requires Prepare(r, metadata, RollbackRequest(nodes)).Some?
    ensures r.operation.RollbackOperation? ==> AllSucceeded(r.steps, r.results)
    ensures Prepare(r, metadata, RollbackRequest(nodes)) == Selection(Touched(r.original.recovery, r.actions), nodes)
  {
    hide Selection, Touched, AllSucceeded;
  }

  lemma NothingRefreshed(steps: seq<JobStep>, parents: seq<JobStep>, start: nat, upto: nat)
    requires upto <= start <= |steps|
    requires forall k | 0 <= k < upto :: !Refreshable(parents, steps[k])
    ensures Refreshed(steps, parents, start, upto) == []
  {
  }

  lemma InConcat(a: seq<JobStep>, b: seq<JobStep>, c: seq<JobStep>)
    ensures forall i | 0 <= i < |b| :: b[i] in a + b + c
  {
    forall i | 0 <= i < |b| ensures b[i] in a + b + c {
      assert (a + b + c)[|a| + i] == b[i];
    }
  }

  lemma RetryWithoutPrecheck(r: Receipt, metadata: seq<JobStep>, start: nat)
    requires FirstIncomplete(r.steps, r.results, 0) == start && start <= |r.steps|
    requires 0 < start < |r.steps| ==> !r.steps[start - 1].phase.Pre?
    ensures
      var retry := RetryStages(r.steps, r.original.recovery, metadata, r.results);
      retry.Success? ==> start < |r.steps| && retry.value == Continuation(r.steps, r.original.recovery, metadata, start)
  {
    hide FirstIncomplete, Continuation, Instance;
  }

  lemma NoPrePhase(stages: seq<JobStep>, k: nat)
    requires Pairs(stages) && k < |stages|
    ensures !stages[k].phase.Pre?
  {
    if k % 2 == 0 {
      assert Pair(stages[k], stages[k + 1]);
    } else {
      assert Pair(stages[k - 1], stages[k]);
    }
  }


  /** A receipt a new rollback may start from: nothing is cleared that was not verified, if baselines
      are shared only within instances. */
  lemma RestingMark(base: Base, r: Receipt) returns (verified: set<nat>)
    requires ValidBase(base) && DurableInv(base, r)
    requires r.operation.RollbackOperation? ==> AllSucceeded(r.steps, r.results)
    ensures r.original == base.receipt.original && Marked(base, r.actions, verified)
    ensures SharedWithinInstances(base) ==> OnlyVerified(base, verified)
  {
    hide Marked, Within, Loose, Order, Listing, ValidBase, AllSucceeded, OnlyVerified, Segment, SharedWithinInstances;
    if r == base.receipt {
      verified := {};
      NothingMarked(base);
      NothingVerified(base);
    } else {
      var lanes, off: nat, v, done: nat, active: bool, n: nat :| SavedAt(base, r, lanes, off, v, done, active, n);
      verified := v;
      SavedIsRollback(base, r, lanes, off);
      FinishedSegment(base, r, lanes, off, v, done, active, n);
      if SharedWithinInstances(base) {
        FinishedClears(base, lanes, v);
      }
    }
  }

  lemma SavedIsRollback(base: Base, r: Receipt, lanes: seq<nat>, off: nat)
    requires Segment(base, r, lanes, off)
    ensures r.operation.RollbackOperation? && r.original == base.receipt.original
  {
    hide Order, Lanes;
  }

  lemma NothingVerified(base: Base)
    ensures OnlyVerified(base, {})
  {
    hide Order;
    assert Cleared(base, {}) == {};
  }

  lemma FinishedSegment(base: Base, r: Receipt, lanes: seq<nat>, off: nat, verified: set<nat>, done: nat, active: bool,
      n: nat)
    requires ValidBase(base) && SavedAt(base, r, lanes, off, verified, done, active, n)
    requires AllSucceeded(r.steps, r.results)
    ensures n == |lanes| && Within(base, lanes, verified, |lanes|)
  {
    hide Order, Marked, Within, ValidBase, Listing, Lane, Lanes, Completed, Pairs;
    SegmentShape(base, r, lanes, off);
    hide Segment;
    if done < |r.steps| {
      ListingCompleted(r.steps, done, active, done);
    }
  }

  lemma FinishedClears(base: Base, lanes: seq<nat>, verified: set<nat>)
    requires Within(base, lanes, verified, |lanes|) && SharedWithinInstances(base)
    ensures OnlyVerified(base, verified)
  {
    hide Order, Cleared, SharedWithinInstances;
  }

  /** A durable receipt is marked by some set of verified groups. */
  lemma DurableMark(base: Base, r: Receipt) returns (verified: set<nat>)
    requires DurableInv(base, r)
    ensures r.original == base.receipt.original && Marked(base, r.actions, verified)
  {
    hide Marked, Within, Loose, Order, Listing;
    if r == base.receipt {
      verified := {};
      NothingMarked(base);
    } else {
      var lanes, off: nat, v, done: nat, active: bool, n: nat :| SavedAt(base, r, lanes, off, v, done, active, n);
      verified := v;
    }
  }

  /** The post checks of rollbacks are never replayed as refreshes. */
  lemma LaneNotRefreshable(base: Base, lanes: seq<nat>, parents: seq<JobStep>, k: nat)
    requires ValidBase(base) && Lanes(Order(base), lanes) && k < 2 * |lanes|
    requires forall i | 0 <= i < |base.receipt.original.recovery| :: base.receipt.original.recovery[i] in parents
    ensures !Refreshable(parents, Lane(Order(base), lanes)[k])
  {
    var f := Order(base);
    var g := lanes[k / 2];
    OrderShape(base);
    hide Order, ValidBase, NeedsRollback, DistinctSources, UniqueIds, Refreshable, Pair, Pairs, Lane, Lanes;
    LaneGroup(f, lanes, k);
    GroupPair(f, g);
    MemberOf(base.receipt.original.recovery, parents, f[2 * g]);
    PairNotRefreshable(parents, f[2 * g], f[2 * g + 1]);
  }

  lemma MemberOf(part: seq<JobStep>, all: seq<JobStep>, x: JobStep)
    requires x in part && forall i | 0 <= i < |part| :: part[i] in all
    ensures x in all
  {
  }

  lemma PairNotRefreshable(parents: seq<JobStep>, execute: JobStep, post: JobStep)
    requires Pair(execute, post) && execute in parents
    ensures !Refreshable(parents, execute) && !Refreshable(parents, post)
  {
    var i :| 0 <= i < |parents| && parents[i] == execute;
    assert IsTeardown(parents, post);
  }

  lemma SegmentStart(base: Base, r: Receipt, lanes: seq<nat>, off: nat, verified: set<nat>, done: nat, active: bool,
      n: nat)
    requires ValidBase(base) && SavedAt(base, r, lanes, off, verified, done, active, n)
    ensures FirstIncomplete(r.steps, r.results, 0) == done
  {
    SegmentShape(base, r, lanes, off);
    hide Order, Marked, Within, Loose, ValidBase, Listing, Completed, Segment;
    forall k | 0 <= k < |r.steps|
      ensures Completed(r.results, r.steps[k].id) <==> k < done
    {
      ListingCompleted(r.steps, done, active, k);
    }
    var start := FirstIncomplete(r.steps, r.results, 0);
    if done < |r.steps| {
      assert !Completed(r.results, r.steps[done].id);
    }
    if start < |r.steps| {
      assert !Completed(r.results, r.steps[start].id);
    }
  }

  lemma SegmentContinuation(base: Base, r: Receipt, lanes: seq<nat>, off: nat, start: nat)
    requires ValidBase(base) && Segment(base, r, lanes, off) && start <= |r.steps|
    ensures Continuation(r.steps, r.original.recovery, base.metadata, start) == r.steps[start..]
  {
    var parents := r.steps + r.original.recovery + base.metadata;
    hide ValidBase, Segment, Refreshable, Refreshed;
    forall k | 0 <= k < start
      ensures !Refreshable(parents, r.steps[k])
    {
      SegmentNotRefreshable(base, r, lanes, off, k);
    }
    NothingRefreshed(r.steps, parents, start, start);
  }

  lemma SegmentNotRefreshable(base: Base, r: Receipt, lanes: seq<nat>, off: nat, k: nat)
    requires ValidBase(base) && Segment(base, r, lanes, off) && k < |r.steps|
    ensures !Refreshable(r.steps + r.original.recovery + base.metadata, r.steps[k])
  {
    SegmentShape(base, r, lanes, off);
    hide Order, ValidBase, Refreshable, Lane, Pairs, UniqueIds;
    InConcat(r.steps, r.original.recovery, base.metadata);
    LaneNotRefreshable(base, lanes, r.steps + r.original.recovery + base.metadata, off + k);
  }

  lemma SegmentNoPre(base: Base, r: Receipt, lanes: seq<nat>, off: nat)
    requires ValidBase(base) && Segment(base, r, lanes, off)
    ensures forall k | 0 <= k < |r.steps| :: !r.steps[k].phase.Pre?
  {
    SegmentShape(base, r, lanes, off);
    hide Order, ValidBase, Pairs, Lane;
    forall k | 0 <= k < |r.steps|
      ensures !r.steps[k].phase.Pre?
    {
      NoPrePhase(Lane(Order(base), lanes), off + k);
    }
  }

  /** Resuming a rollback runs exactly the stages not acknowledged yet. */
  lemma ResumeContinues(base: Base, r: Receipt, lanes: seq<nat>, off: nat, verified: set<nat>, done: nat, active: bool,
      n: nat)
    requires ValidBase(base) && SavedAt(base, r, lanes, off, verified, done, active, n)
    requires RetryStages(r.steps, r.original.recovery, base.metadata, r.results).Success?
    ensures done < |r.steps|
    ensures RetryStages(r.steps, r.original.recovery, base.metadata, r.results).value == r.steps[done..]
  {
    hide Order, ValidBase, RetryStages, Marked, Within, Loose, Listing, Continuation, FirstIncomplete, Segment;
    SegmentStart(base, r, lanes, off, verified, done, active, n);
    SegmentNoPre(base, r, lanes, off);
    SegmentContinuation(base, r, lanes, off, done);
    RetryWithoutPrecheck(r, base.metadata, done);
  }

  /** Saving, losing or half-saving the first receipt of a session over the stages of `lanes`. */
  lemma OpenedKeeps(base: Base, store: Store, request: Request, save: Save, lanes: seq<nat>, off: nat,
      verified: set<nat>, n: nat)
    requires Inv(base, store) && store.session.None?
    requires store.durable.original == base.receipt.original && Marked(base, store.durable.actions, verified)
    requires request.ResumeRequest? ==> store.durable.operation.RollbackOperation?
    requires Lanes(Order(base), lanes) && off <= 1 && off <= 2 * |lanes| && Loose(off, n)
      && Within(base, lanes, verified, n)
    ensures Inv(base, OpenSession(store, Lane(Order(base), lanes)[off..], request, save))
  {
    hide Order, Marked, Within, Lane, Lanes;
    var t := OpenSession(store, Lane(Order(base), lanes)[off..], request, save);
    var memory := t.durable;
    if !save.Lost? {
      assert memory.results == Listing(memory.steps, 0, false);
      assert SavedAt(base, memory, lanes, off, verified, 0, false, n);
      if save.Saved? {
        assert RunningAt(base, t.session.value, lanes, off, verified, n);
      }
    }
  }

  lemma OpenRollbackKeeps(base: Base, store: Store, nodes: seq<string>, save: Save)
    requires ValidBase(base) && Inv(base, store) && store.session.None?
    requires Prepare(store.durable, base.metadata, RollbackRequest(nodes)).Some?
    ensures
      var request := RollbackRequest(nodes);
      Inv(base, OpenSession(store, Prepare(store.durable, base.metadata, request).value, request, save))
  {
    var request := RollbackRequest(nodes);
    var lanes, verified := RollbackSelectsNext(base, store.durable, nodes);
    hide Order, Marked, Within, Lanes, Lane, DurableInv, OpenSession, SessionInv, Prepare;
    OpenedKeeps(base, store, request, save, lanes, 0, verified, 0);
    assert Lane(Order(base), lanes)[0..] == Lane(Order(base), lanes);
  }

  /** What is left of a saved rollback is again a rollback of whole groups, the first perhaps begun. */
  lemma RestOfSegment(base: Base, lanes: seq<nat>, verified: set<nat>, at: nat, n: nat)
    requires Lanes(Order(base), lanes) && at <= 2 * |lanes| && Loose(at, n) && Within(base, lanes, verified, n)
    ensures Lanes(Order(base), lanes[at / 2..])
    ensures Lane(Order(base), lanes)[at..] == Lane(Order(base), lanes[at / 2..])[at % 2..]
    ensures n >= at / 2 && Within(base, lanes[at / 2..], verified, n - at / 2) && Loose(at % 2, n - at / 2)
  {
    hide Order, Cleared;
    RestWithin(base, lanes, verified, at / 2, n);
    LaneDrop(Order(base), lanes, at / 2, at % 2);
  }

  lemma RestWithin(base: Base, lanes: seq<nat>, verified: set<nat>, k: nat, n: nat)
    requires Lanes(Order(base), lanes) && k <= n && Within(base, lanes, verified, n)
    ensures Within(base, lanes[k..], verified, n - k)
  {
    hide Order, Cleared, SharedWithinInstances, WholeInstances;
    var rest := lanes[k..];
    if SharedWithinInstances(base) {
      WholeRest(base, lanes, verified, k);
    }
    forall i, h: nat | 0 <= i < |rest| && h < rest[i] && h !in rest && IsGroup(Order(base), h)
      ensures Source(Order(base), h) in Cleared(base, verified)
    {
      assert rest[i] == lanes[k + i];
      if h in lanes {
        DroppedLane(lanes, k, h);
        VerifiedIsCleared(base, verified, h);
      }
    }
  }

  lemma WholeRest(base: Base, lanes: seq<nat>, verified: set<nat>, k: nat)
    requires k <= |lanes| && WholeInstances(base, lanes, verified)
    requires forall i | 0 <= i < k :: lanes[i] in verified
    ensures WholeInstances(base, lanes[k..], verified)
  {
    hide Order, Cleared, Key;
    var rest := lanes[k..];
    assert forall h | h in lanes :: h in verified || h in rest by {
      assert lanes == lanes[..k] + rest;
    }
    assert forall i | 0 <= i < |rest| :: rest[i] == lanes[k + i];
  }

  lemma DroppedLane(lanes: seq<nat>, k: nat, h: nat)
    requires k <= |lanes| && h in lanes && h !in lanes[k..]
    ensures h in lanes[..k]
  {
    assert lanes == lanes[..k] + lanes[k..];
  }

  /** A receipt saved by a rollback stands somewhere in its stages. */
  lemma SavedSomewhere(base: Base, r: Receipt)
      returns (lanes: seq<nat>, off: nat, verified: set<nat>, done: nat, active: bool, n: nat)
    requires ValidBase(base) && DurableInv(base, r) && r.operation.RollbackOperation?
    ensures SavedAt(base, r, lanes, off, verified, done, active, n)
  {
    hide SavedAt, RecoveryPlan;
    lanes, off, verified, done, active, n :| SavedAt(base, r, lanes, off, verified, done, active, n);
  }

  lemma ResumedKeeps(base: Base, store: Store, save: Save, lanes: seq<nat>, off: nat, verified: set<nat>, done: nat,
      active: bool, n: nat)
    requires ValidBase(base) && Inv(base, store) && store.session.None? && store.durable.operation.RollbackOperation?
    requires SavedAt(base, store.durable, lanes, off, verified, done, active, n)
    requires done <= |store.durable.steps|
    ensures Inv(base, OpenSession(store, store.durable.steps[done..], ResumeRequest, save))
  {
    hide Order, Marked, Within, SavedAt, OpenSession, Inv, Loose, Lanes, Lane, ValidBase;
    var at := off + done;
    SavedFacts(base, store.durable, lanes, off, verified, done, active, n);
    RestOfSegment(base, lanes, verified, at, n);
    OpenedKeeps(base, store, ResumeRequest, save, lanes[at / 2..], at % 2, verified, n - at / 2);
  }

  lemma OpenResumeKeeps(base: Base, store: Store, save: Save)
    requires ValidBase(base) && Inv(base, store) && store.session.None? && store.durable.operation.RollbackOperation?
    requires Prepare(store.durable, base.metadata, ResumeRequest).Some?
    ensures
      var stages := Prepare(store.durable, base.metadata, ResumeRequest).value;
      Inv(base, OpenSession(store, stages, ResumeRequest, save))
  {
    hide ValidBase, DurableInv, SessionInv, SavedAt, OpenSession, RetryStages;
    var lanes, off, verified, done, active, n := SavedSomewhere(base, store.durable);
    ResumeContinues(base, store.durable, lanes, off, verified, done, active, n);
    ResumedKeeps(base, store, save, lanes, off, verified, done, active, n);
  }

  lemma SavedFacts(base: Base, r: Receipt, lanes: seq<nat>, off: nat, verified: set<nat>, done: nat, active: bool,
      n: nat)
    requires SavedAt(base, r, lanes, off, verified, done, active, n)
    ensures r.original == base.receipt.original && Marked(base, r.actions, verified) && Loose(off + done, n)
    ensures Lanes(Order(base), lanes) && off + done <= 2 * |lanes| && Within(base, lanes, verified, n)
    ensures done <= |r.steps| ==> r.steps[done..] == Lane(Order(base), lanes)[off + done..]
  {
    hide Order, Marked, Within, Listing, Loose, Lanes;
  }

  lemma OpenKeeps(base: Base, store: Store, request: Request, save: Save)
    requires ValidBase(base) && Inv(base, store)
    ensures Inv(base, Step(base.metadata, store, Open(request, save)))
  {
    hide Inv, Prepare, OpenSession, ValidBase;
    if store.session.None? && !(request.ResumeRequest? && store.durable.operation.RunOperation?)
      && Prepare(store.durable, base.metadata, request).Some? {
      match request
      case RollbackRequest(nodes) => OpenRollbackKeeps(base, store, nodes, save);
      case ResumeRequest => OpenResumeKeeps(base, store, save);
    }
  }

  // ---------------------------------------------------------------- one boundary callback

  lemma InRecovery(base: Base, step: JobStep)
    requires ValidBase(base) && step in base.receipt.original.recovery
    ensures forall k | 0 <= k < |base.receipt.original.recovery| ::
      step.id != base.receipt.original.recovery[k].recoveryOfStepId
  {
    var i :| 0 <= i < |base.receipt.original.recovery| && base.receipt.original.recovery[i] == step;
  }

  /** Marking an execute stage's own id says nothing about any source. */
  lemma OwnIdIsNoSource(base: Base, actions: Actions, verified: set<nat>, step: JobStep, status: ActionStatus)
    requires ValidBase(base) && Marked(base, actions, verified) && step in base.receipt.original.recovery
    ensures Marked(base, actions[step.id := status], verified)
  {
    InRecovery(base, step);
    hide ValidBase, Order, Closed, Cleared;
  }

  lemma QuietBoundary(base: Base, r: Receipt, verified: set<nat>, boundary: JobController.Boundary, step: JobStep)
    requires ValidBase(base) && Marked(base, r.actions, verified) && step in base.receipt.original.recovery
    requires step.phase.Execute? || (step.phase.Post? && boundary.BeginStage?)
    ensures Marked(base, Updated(r, boundary, step), verified)
  {
    hide Marked, ValidBase;
    if step.phase.Execute? {
      OwnIdIsNoSource(base, r.actions, verified, step, if boundary.EndStage? then MainSucceeded else Started);
    }
  }

  lemma OriginalStepsAreNoParents(base: Base, post: JobStep)
    requires ValidBase(base) && post.recoveryOfStepId != ""
    ensures FirstParent(base.receipt.original.steps, post).None?
  {
    var steps := base.receipt.original.steps;
    assert forall i | 0 <= i < |steps| :: !IsParent(steps[i], post);
  }

  /** Two execute stages recovering the same action are the same stage. */
  lemma OneExecutePerSource(recovery: seq<JobStep>, a: JobStep, b: JobStep)
    requires Pairs(recovery) && DistinctSources(recovery) && a in recovery && b in recovery
    requires a.phase.Execute? && b.phase.Execute? && a.recoveryOfStepId == b.recoveryOfStepId
    ensures a == b
  {
    var i :| 0 <= i < |recovery| && recovery[i] == a;
    var j :| 0 <= j < |recovery| && recovery[j] == b;
    assert Pair(recovery[i / 2 * 2], recovery[i / 2 * 2 + 1]) && Pair(recovery[j / 2 * 2], recovery[j / 2 * 2 + 1]);
    hide Pairs, Pair;
    assert i / 2 == j / 2 by {
      if i < j { } else if j < i { }
    }
  }

  /** The parent of a group's post check is the group's own execute stage. */
  lemma ParentOfPost(base: Base, current: seq<JobStep>, execute: JobStep, post: JobStep)
    requires ValidBase(base) && Pair(execute, post)
    requires execute in base.receipt.original.recovery
    requires forall k | 0 <= k < |current| :: current[k] in base.receipt.original.recovery
    ensures Parent(current, base.receipt.original, post) == Some(execute)
  {
    var original := base.receipt.original;
    assert IsParent(execute, post);
    OriginalStepsAreNoParents(base, post);
    hide FirstParent, DistinctSources, UniqueIds, Pairs;
    var p := Parent(current, original, post).value;
    assert p in original.recovery && IsParent(p, post);
    OneExecutePerSource(original.recovery, p, execute);
  }

  /** Among the sources, those in `ids` become rolled back and nothing else changes. */
  ghost predicate OnlyMarks(recovery: seq<JobStep>, actions: Actions, after: Actions, ids: set<string>)
  {
    forall k | 0 <= k < |recovery| ::
      var s := recovery[k].recoveryOfStepId;
      Look(after, s) == if s in ids then Some(RolledBack) else Look(actions, s)
  }

  lemma CapturesAreMarked(plan: Plan, execute: JobStep, actions: Actions, id: string)
    ensures Look(MarkCaptured(plan.steps, execute.backupRef, actions), id) ==
            if id in Captures(plan, execute) then Some(RolledBack) else Look(actions, id)
  {
    hide CapturedWith;
  }

  lemma VerifiedMarks(base: Base, actions: Actions, execute: JobStep, post: JobStep)
    requires ValidBase(base) && post.recoveryOfStepId != "" && execute in base.receipt.original.recovery
    requires execute.action.Rollback? || execute.action.Uninstall?
    ensures
      var original := base.receipt.original;
      OnlyMarks(original.recovery, actions, MarkVerified(actions, original, execute, post),
                {post.recoveryOfStepId} + Captures(original, execute))
  {
    var original := base.receipt.original;
    InRecovery(base, execute);
    hide ValidBase, Captures;
    var verified := actions[execute.id := Verified];
    var marked := verified[post.recoveryOfStepId := RolledBack];
    forall k | 0 <= k < |original.recovery|
      ensures
        var s := original.recovery[k].recoveryOfStepId;
        Look(MarkVerified(actions, original, execute, post), s) ==
        if s in {post.recoveryOfStepId} + Captures(original, execute) then Some(RolledBack) else Look(actions, s)
    {
      CapturesAreMarked(original, execute, marked, original.recovery[k].recoveryOfStepId);
    }
  }

  lemma PostEndVerifies(base: Base, r: Receipt, g: nat)
    requires ValidBase(base) && IsGroup(Order(base), g)
    requires r.original == base.receipt.original
    requires forall k | 0 <= k < |r.steps| :: r.steps[k] in base.receipt.original.recovery
    ensures OnlyMarks(r.original.recovery, r.actions, Updated(r, JobController.EndStage, Order(base)[2 * g + 1]),
      Clears(base, g))
  {
    var f := Order(base);
    OrderShape(base);
    hide Order, ValidBase, Parent, MarkVerified, Look, NeedsRollback, Captures, OnlyMarks, UniqueIds, DistinctSources;
    var execute, post := f[2 * g], f[2 * g + 1];
    assert Pair(execute, post);
    ParentOfPost(base, r.steps, execute, post);
    VerifiedMarks(base, r.actions, execute, post);
  }

  lemma AdvancedByMore(recovery: seq<JobStep>, before: Actions, actions: Actions, after: Actions, done: set<string>,
      ids: set<string>)
    requires Advanced(recovery, before, actions, done)
    requires OnlyMarks(recovery, actions, after, ids)
    ensures Advanced(recovery, before, after, done + ids)
  {
  }

  /** The end of the post check of the next group, or of the group just before, marks that group. */
  lemma PostEndMarks(base: Base, r: Receipt, lanes: seq<nat>, verified: set<nat>, g: nat, n: nat)
    requires ValidBase(base) && Marked(base, r.actions, verified) && Lanes(Order(base), lanes) && g < |lanes|
    requires r.original == base.receipt.original && Within(base, lanes, verified, n) && (n == g || n == g + 1)
    requires forall k | 0 <= k < |r.steps| :: r.steps[k] in base.receipt.original.recovery
    ensures
      var more := verified + {lanes[g]};
      && Marked(base, Updated(r, JobController.EndStage, Order(base)[2 * lanes[g] + 1]), more)
      && Within(base, lanes, more, g + 1)
  {
    hide Order, ValidBase, Updated, Advanced, OnlyMarks, Cleared, Clears;
    PostEndVerifies(base, r, lanes[g]);
    ClearedByOneMore(base, verified, lanes[g]);
    AdvancedByMore(base.receipt.original.recovery, base.receipt.actions, r.actions,
                   Updated(r, JobController.EndStage, Order(base)[2 * lanes[g] + 1]), Cleared(base, verified),
                     Clears(base, lanes[g]));
    ClosedByOneMore(base, lanes, verified, g, n);
    WithinByOneMore(base, lanes, verified, g, n);
  }

  lemma ClosedByOneMore(base: Base, lanes: seq<nat>, verified: set<nat>, g: nat, n: nat)
    requires Lanes(Order(base), lanes) && g < |lanes| && Within(base, lanes, verified, n) && n >= g
    requires Closed(base, verified)
    ensures Closed(base, verified + {lanes[g]})
  {
    hide Order, Cleared, Clears;
    ClearedByOneMore(base, verified, lanes[g]);
    forall h: nat | h < lanes[g] && IsGroup(Order(base), h)
      ensures Source(Order(base), h) in Cleared(base, verified)
    {
      if h in lanes {
        var j :| 0 <= j < |lanes| && lanes[j] == h;
        EarlierIndex(lanes, j, g);
        VerifiedIsCleared(base, verified, h);
      }
    }
  }

  lemma EarlierIndex(lanes: seq<nat>, j: nat, g: nat)
    requires j < |lanes| && g < |lanes| && lanes[j] < lanes[g]
    requires forall a, b | 0 <= a < b < |lanes| :: lanes[a] < lanes[b]
    ensures j < g
  {
    if g < j { }
  }

  lemma WholeByOneMore(base: Base, lanes: seq<nat>, verified: set<nat>, g: nat)
    requires ValidBase(base) && Lanes(Order(base), lanes) && g < |lanes|
    requires SharedWithinInstances(base) && WholeInstances(base, lanes, verified)
    ensures WholeInstances(base, lanes, verified + {lanes[g]})
  {
    hide Order, Cleared, Key, Captures, ValidBase;
    ClearedByOneMore(base, verified, lanes[g]);
    var more := verified + {lanes[g]};
    forall h: nat | IsGroup(Order(base), h) && Source(Order(base), h) in Cleared(base, more)
      ensures h in more || h in lanes
    {
      if Source(Order(base), h) !in Cleared(base, verified) {
        assert Source(Order(base), h) in Clears(base, lanes[g]);
        OneGroupPerSource(base, h, lanes[g]);
      }
    }
  }

  lemma WithinByOneMore(base: Base, lanes: seq<nat>, verified: set<nat>, g: nat, n: nat)
    requires ValidBase(base) && Lanes(Order(base), lanes) && g < |lanes|
    requires Within(base, lanes, verified, n) && (n == g || n == g + 1)
    ensures Within(base, lanes, verified + {lanes[g]}, g + 1)
  {
    hide ValidBase, Order, Cleared, Clears, SharedWithinInstances, WholeInstances;
    ClearedByOneMore(base, verified, lanes[g]);
    if SharedWithinInstances(base) {
      WholeByOneMore(base, lanes, verified, g);
    }
    forall i | 0 <= i < |lanes|
      ensures lanes[i] == lanes[g] <==> i == g
    {
      if i < g { } else if g < i { }
    }
  }

  lemma EndListing(steps: seq<JobStep>, done: nat)
    requires UniqueIds(steps) && done < |steps|
    ensures Acknowledged(Listing(steps, done, true), steps[done].id) == Listing(steps, done + 1, false)
  {
    forall i | 0 <= i < done ensures steps[i].id != steps[done].id {
      DistinctAt(steps, i, done);
    }
  }

  /** Which groups of the session are verified once a callback was made. */
  function VerifiedAfter(calls: nat, off: nat, lanes: seq<nat>, verified: set<nat>): set<nat>
  {
    var at := off + calls / 2;
    if calls % 2 == 1 && at % 2 == 1 && at / 2 < |lanes| then verified + {lanes[at / 2]} else verified
  }

  function GroupsAfter(calls: nat, at: nat, n: nat): nat
  {
    if calls % 2 == 1 && at % 2 == 1 then at / 2 + 1 else n
  }

  lemma BoundaryMarks(base: Base, r: Receipt, lanes: seq<nat>, off: nat, verified: set<nat>, calls: nat, n: nat)
    requires ValidBase(base) && Segment(base, r, lanes, off) && calls < 2 * |r.steps|
    requires Marked(base, r.actions, verified) && Within(base, lanes, verified, n) && Tight(off, calls / 2, n)
    ensures
      var step := r.steps[calls / 2];
      var after := VerifiedAfter(calls, off, lanes, verified);
      var m := GroupsAfter(calls, off + calls / 2, n);
      && Marked(base, Updated(r, JobSafety.ExpectedBoundary(calls), step), after)
      && Within(base, lanes, after, m) && Tight(off, (calls + 1) / 2, m)
  {
    hide Order, ValidBase, Marked, Updated, Within, Segment, Tight;
    var at := off + calls / 2;
    TightNext(off, calls, n);
    StageInSegment(base, r, lanes, off, calls / 2);
    if calls % 2 == 1 && at % 2 == 1 {
      SegmentStepsRecover(base, r, lanes, off);
      PostEndMarks(base, r, lanes, verified, at / 2, n);
    } else {
      QuietBoundary(base, r, verified, JobSafety.ExpectedBoundary(calls), r.steps[calls / 2]);
    }
  }

  lemma SegmentStepsRecover(base: Base, r: Receipt, lanes: seq<nat>, off: nat)
    requires ValidBase(base) && Segment(base, r, lanes, off)
    ensures Lanes(Order(base), lanes) && r.original == base.receipt.original
    ensures forall k | 0 <= k < |r.steps| :: r.steps[k] in base.receipt.original.recovery
  {
    SegmentShape(base, r, lanes, off);
    hide Order, ValidBase, Lane, Pairs, UniqueIds;
  }

  /** The stage at position k of the session, its phase and its place in the order. */
  lemma StageInSegment(base: Base, r: Receipt, lanes: seq<nat>, off: nat, k: nat)
    requires ValidBase(base) && Segment(base, r, lanes, off) && k < |r.steps|
    ensures Lanes(Order(base), lanes) && (off + k) / 2 < |lanes| && r.steps[k] in base.receipt.original.recovery
    ensures r.original == base.receipt.original
    ensures r.steps[k] == Order(base)[2 * lanes[(off + k) / 2] + (off + k) % 2]
    ensures if (off + k) % 2 == 0 then r.steps[k].phase.Execute? else r.steps[k].phase.Post?
  {
    hide Order, ValidBase, Lane, Lanes, Segment;
    StageInLane(base, r, lanes, off, k);
    PhaseAt(base, lanes, off + k);
  }

  lemma StageInLane(base: Base, r: Receipt, lanes: seq<nat>, off: nat, k: nat)
    requires ValidBase(base) && Segment(base, r, lanes, off) && k < |r.steps|
    ensures Lanes(Order(base), lanes) && off + k < 2 * |lanes| && r.original == base.receipt.original
    ensures r.steps[k] == Lane(Order(base), lanes)[off + k] && r.steps[k] in base.receipt.original.recovery
    ensures (off + k) / 2 < |lanes|
  {
    SegmentShape(base, r, lanes, off);
    hide Order, ValidBase, Lane, Lanes, Pairs, UniqueIds;
  }

  lemma TightNext(off: nat, calls: nat, n: nat)
    requires Tight(off, calls / 2, n)
    ensures
      var at := off + calls / 2;
      && (at % 2 == 1 ==> n == at / 2 || n == at / 2 + 1)
      && Tight(off, (calls + 1) / 2, GroupsAfter(calls, at, n))
  {
  }

  lemma PhaseAt(base: Base, lanes: seq<nat>, at: nat)
    requires ValidBase(base) && Lanes(Order(base), lanes) && at < 2 * |lanes|
    ensures
      var step := Lane(Order(base), lanes)[at];
      && (if at % 2 == 0 then step.phase.Execute? else step.phase.Post?)
      && step == Order(base)[2 * lanes[at / 2] + at % 2]
  {
    OrderShape(base);
    hide Order, ValidBase, NeedsRollback, UniqueIds, DistinctSources, Lane, Lanes, Pairs;
    LaneGroup(Order(base), lanes, at);
    GroupPair(Order(base), lanes[at / 2]);
  }

  lemma BoundaryResults(base: Base, r: Receipt, lanes: seq<nat>, off: nat, calls: nat)
    requires ValidBase(base) && Segment(base, r, lanes, off) && calls < 2 * |r.steps|
    requires r.results == Listing(r.steps, calls / 2, calls % 2 == 1)
    ensures
      var after := AfterBoundary(r, JobSafety.ExpectedBoundary(calls), r.steps[calls / 2]);
      after.results == Listing(r.steps, (calls + 1) / 2, (calls + 1) % 2 == 1)
  {
    SegmentShape(base, r, lanes, off);
    hide Order, ValidBase, Updated, Lane, Lanes;
    if calls % 2 == 1 {
      EndListing(r.steps, calls / 2);
    }
  }

  lemma SegmentStays(base: Base, r: Receipt, lanes: seq<nat>, off: nat, boundary: JobController.Boundary, step: JobStep)
    requires Segment(base, r, lanes, off)
    ensures
      var after := AfterBoundary(r, boundary, step);
      Segment(base, after, lanes, off) && after.steps == r.steps && after.actions == Updated(r, boundary, step)
  {
    hide Order, Updated, Acknowledged;
  }

  lemma RunningNext(base: Base, s: Session, lanes: seq<nat>, off: nat, verified: set<nat>, n: nat, live: bool)
    requires ValidBase(base) && RunningAt(base, s, lanes, off, verified, n) && s.live && s.calls < 2 * |s.memory.steps|
    ensures
      var after := AfterBoundary(s.memory, JobSafety.ExpectedBoundary(s.calls), NextStep(s));
      && RunningAt(base, Session(after, s.calls + 1, live), lanes, off, VerifiedAfter(s.calls, off, lanes, verified),
                   GroupsAfter(s.calls, off + s.calls / 2, n))
      && after.results == Listing(after.steps, (s.calls + 1) / 2, (s.calls + 1) % 2 == 1)
  {
    var r := s.memory;
    hide Order, ValidBase, Updated, Marked, Within, Listing, Acknowledged, GroupsAfter, VerifiedAfter, AfterBoundary,
      Segment, Tight;
    SegmentStays(base, r, lanes, off, JobSafety.ExpectedBoundary(s.calls), NextStep(s));
    BoundaryMarks(base, r, lanes, off, verified, s.calls, n);
    BoundaryResults(base, r, lanes, off, s.calls);
  }

  /** A running session whose listing is up to date could be saved as it is. */
  lemma RunningSaves(base: Base, s: Session, lanes: seq<nat>, off: nat, verified: set<nat>, n: nat)
    requires RunningAt(base, s, lanes, off, verified, n)
    requires s.memory.results == Listing(s.memory.steps, s.calls / 2, s.calls % 2 == 1)
    ensures SavedAt(base, s.memory, lanes, off, verified, s.calls / 2, s.calls % 2 == 1, n)
  {
    hide Order, Marked, Within, Listing, Segment, Tight, Loose;
    TightIsLoose(off, s.calls / 2, n);
  }

  lemma SavedNext(base: Base, s: Session, lanes: seq<nat>, off: nat, verified: set<nat>, n: nat)
    requires ValidBase(base) && RunningAt(base, s, lanes, off, verified, n) && s.live && s.calls < 2 * |s.memory.steps|
    ensures
      var after := AfterBoundary(s.memory, JobSafety.ExpectedBoundary(s.calls), NextStep(s));
      SavedAt(base, after, lanes, off, VerifiedAfter(s.calls, off, lanes, verified), (s.calls + 1) / 2,
        (s.calls + 1) % 2 == 1, GroupsAfter(s.calls, off + s.calls / 2, n))
  {
    hide ValidBase, RunningAt, SavedAt, Listing, GroupsAfter, VerifiedAfter, AfterBoundary;
    RunningNext(base, s, lanes, off, verified, n, true);
    var after := AfterBoundary(s.memory, JobSafety.ExpectedBoundary(s.calls), NextStep(s));
    RunningSaves(base, Session(after, s.calls + 1, true), lanes, off, VerifiedAfter(s.calls, off, lanes, verified),
      GroupsAfter(s.calls, off + s.calls / 2, n));
  }

  lemma TightIsLoose(from: nat, done: nat, groups: nat)
    requires Tight(from, done, groups)
    ensures Loose(from + done, groups)
  {
  }

  lemma BoundaryKeeps(base: Base, store: Store, s: Session, save: Save)
    requires ValidBase(base) && Inv(base, store) && store.session == Some(s)
    requires s.live && s.calls < 2 * |s.memory.steps|
    ensures Inv(base, BoundaryCall(store, s, save))
  {
    var lanes, off: nat, verified, n: nat :| RunningAt(base, s, lanes, off, verified, n);
    RunningNext(base, s, lanes, off, verified, n, save.Saved?);
    SavedNext(base, s, lanes, off, verified, n);
    hide RunningAt, SavedAt, AfterBoundary, VerifiedAfter;
    var after := AfterBoundary(s.memory, JobSafety.ExpectedBoundary(s.calls), NextStep(s));
    hide GroupsAfter, NextStep;
    var t := BoundaryCall(store, s, save);
    assert t.session.value == Session(after, s.calls + 1, save.Saved?)
      && (t.durable == after || t.durable == store.durable);
    assert SessionInv(base, t.session.value);
    assert DurableInv(base, after);
    hide SessionInv, DurableInv, BoundaryCall;
  }

  // ---------------------------------------------------------------- the end of a session

  lemma DoneIsLoose(from: nat, calls: nat, live: bool, groups: nat)
    requires Tight(from, calls / 2, groups) && (!live ==> calls >= 1)
    ensures Loose(from + Done(calls, live), groups)
  {
  }

  lemma ResultsAside(base: Base, r: Receipt, lanes: seq<nat>, off: nat, results: seq<StageRecord>)
    requires Segment(base, r, lanes, off)
    ensures Segment(base, r.(results := results), lanes, off)
  {
    hide Order, Lane, Lanes;
  }

  /** The closing receipt is saved at the stages the controller acknowledged. */
  lemma ClosedAt(base: Base, s: Session, lanes: seq<nat>, off: nat, verified: set<nat>, n: nat)
    requires RunningAt(base, s, lanes, off, verified, n)
    ensures
      var done, active := Done(s.calls, s.live), LeftActive(s.calls, s.live);
      && done + (if active then 1 else 0) <= |s.memory.steps|
      && var closed := s.memory.(results := Listing(s.memory.steps, done, active));
         SavedAt(base, closed, lanes, off, verified, done, active, n)
  {
    hide Order, Marked, Within, Tight, Loose, Segment, Listing;
    DoneIsLoose(off, s.calls, s.live, n);
    ResultsAside(base, s.memory, lanes, off,
      Listing(s.memory.steps, Done(s.calls, s.live), LeftActive(s.calls, s.live)));
  }

  lemma CloseKeeps(base: Base, store: Store, s: Session, save: Save)
    requires Inv(base, store) && store.session == Some(s) && Sound(s)
    ensures Inv(base, CloseSession(store, s, save))
  {
    hide RunningAt, SavedAt, Listing, Done, LeftActive;
    var lanes, off: nat, verified, n: nat :| RunningAt(base, s, lanes, off, verified, n);
    ClosedAt(base, s, lanes, off, verified, n);
  }

  lemma RefusedKeeps(base: Base, s: Session)
    requires SessionInv(base, s) && s.live && s.calls % 2 == 0 && s.calls < 2 * |s.memory.steps|
    ensures SessionInv(base, s.(calls := s.calls + 1, live := false))
  {
    var lanes, off: nat, verified, n: nat :| RunningAt(base, s, lanes, off, verified, n);
    hide Order, Marked, Within, Listing;
    assert (s.calls + 1) / 2 == s.calls / 2;
    assert RunningAt(base, s.(calls := s.calls + 1, live := false), lanes, off, verified, n);
  }

  lemma StepKeeps(base: Base, store: Store, h: Happening)
    requires ValidBase(base) && Inv(base, store)
    ensures Inv(base, Step(base.metadata, store, h))
  {
    hide ValidBase, DurableInv, SessionInv, BoundaryCall, CloseSession, OpenSession, Prepare;
    match h
    case Open(request, save) => OpenKeeps(base, store, request, save);
    case Boundary(save) =>
      if store.session.Some? && store.session.value.live
        && store.session.value.calls < 2 * |store.session.value.memory.steps| {
        BoundaryKeeps(base, store, store.session.value, save);
      }
    case MediaRefused =>
      if store.session.Some? {
        var s := store.session.value;
        if s.live && s.calls % 2 == 0 && s.calls < 2 * |s.memory.steps| {
          RefusedKeeps(base, s);
        }
      }
    case Close(save) =>
      if store.session.Some? && Sound(store.session.value) {
        CloseKeeps(base, store, store.session.value, save);
      }
    case Crash =>
  }

  lemma {:induction false} HistoryKeeps(base: Base, events: seq<Happening>)
    requires ValidBase(base)
    ensures Inv(base, History(base.metadata, Store(base.receipt, None), events))
    decreases |events|
  {
    hide ValidBase, DurableInv, SessionInv, Step;
    if events == [] {
      assert DurableInv(base, base.receipt) by {
        StartDurable(base);
      }
    } else {
      HistoryKeeps(base, events[..|events| - 1]);
      StepKeeps(base, History(base.metadata, Store(base.receipt, None), events[..|events| - 1]), events[|events| - 1]);
    }
  }

  lemma StartDurable(base: Base)
    ensures DurableInv(base, base.receipt)
  {
  }

  // ---------------------------------------------------------------- the theorems

  /** What the recovery order says of every stage once exactly `ids` are cleared. */
  ghost predicate RolledBackExactly(base: Base, actions: Actions, ids: set<string>)
  {
    var f := Order(base);
    forall k | 0 <= k < |f| :: Look(actions, f[k].recoveryOfStepId) == Some(RolledBack) <==>
      f[k].recoveryOfStepId in ids
  }

  lemma MarkMeans(base: Base, actions: Actions, verified: set<nat>)
    requires ValidBase(base) && Marked(base, actions, verified)
    ensures RolledBackExactly(base, actions, Cleared(base, verified))
  {
    var f := Order(base);
    OrderShape(base);
    hide Order, ValidBase, Cleared, Closed;
    forall k | 0 <= k < |f|
      ensures Look(actions, f[k].recoveryOfStepId) == Some(RolledBack) <==>
        f[k].recoveryOfStepId in Cleared(base, verified)
    {
      var recovery := base.receipt.original.recovery;
      var i :| 0 <= i < |recovery| && recovery[i] == f[k];
      assert Look(actions, recovery[i].recoveryOfStepId) ==
        if recovery[i].recoveryOfStepId in Cleared(base, verified) then Some(RolledBack)
        else Look(base.receipt.actions, recovery[i].recoveryOfStepId);
    }
  }

  /** After any history of rollback and resume sessions, with failures, lost writes and crashes
      anywhere, some groups are verified such that the durable receipt has exactly what these clear
      rolled back, every group ahead of a verified one is among it, and what a further rollback
      would offer is exactly the rest of the order. */
  lemma VerifiedGroupsDecideTheReceipt(base: Base, events: seq<Happening>) returns (verified: set<nat>)
    requires ValidBase(base)
    ensures forall g | g in verified :: IsGroup(Order(base), g)
    ensures Closed(base, verified)
    ensures
      var r := History(base.metadata, Store(base.receipt, None), events).durable;
      && RolledBackExactly(base, r.actions, Cleared(base, verified))
      && Touched(base.receipt.original.recovery, r.actions) == Remaining(Order(base), Cleared(base, verified))
  {
    HistoryKeeps(base, events);
    var r := History(base.metadata, Store(base.receipt, None), events).durable;
    hide ValidBase, Order, Touched, RolledBackExactly, Cleared, Closed, Remaining, History, Advanced;
    verified := DurableMark(base, r);
    MarkMeans(base, r.actions, verified);
    StillTouched(base, r.actions, verified);
  }

  /** Every group ahead of this one is rolled back. */
  ghost predicate AllAheadRolledBack(base: Base, actions: Actions, group: nat)
  {
    forall h: nat | h < group && IsGroup(Order(base), h) :: Look(actions, Source(Order(base), h)) == Some(RolledBack)
  }

  /** The session is about to begin an execute stage. */
  predicate Beginning(session: Option<Session>)
  {
    && session.Some? && session.value.live && session.value.calls % 2 == 0
    && session.value.calls < 2 * |session.value.memory.steps| && NextStep(session.value).phase.Execute?
  }

  /** Whenever a running session is about to begin an execute stage, it is that of some group of the
      recovery order, and the durable receipt already says of every group ahead that it is rolled back. */
  lemma NoGroupStartsEarly(base: Base, events: seq<Happening>)
    requires ValidBase(base)
    ensures
      var t := History(base.metadata, Store(base.receipt, None), events);
      Beginning(t.session) ==>
        && t.durable == t.session.value.memory
        && exists group: nat ::
          && IsGroup(Order(base), group) && NextStep(t.session.value) == Order(base)[2 * group]
          && AllAheadRolledBack(base, t.durable.actions, group)
  {
    HistoryKeeps(base, events);
    LiveSessionsAreDurable(base.metadata, Store(base.receipt, None), events);
    var t := History(base.metadata, Store(base.receipt, None), events);
    hide ValidBase, History, AllAheadRolledBack, DurableInv;
    if Beginning(t.session) {
      var group, verified := StartsAtGroup(base, t.session.value);
    }
  }

  /** A session about to begin an execute stage stands at the first group it has not verified. */
  lemma StartsAtGroup(base: Base, s: Session) returns (group: nat, verified: set<nat>)
    requires ValidBase(base) && SessionInv(base, s)
    requires Beginning(Some(s))
    ensures IsGroup(Order(base), group) && NextStep(s) == Order(base)[2 * group]
    ensures AllAheadRolledBack(base, s.memory.actions, group)
    ensures Marked(base, s.memory.actions, verified) && group !in verified
  {
    hide ValidBase, RunningAt, AllAheadRolledBack, Marked, Beginning, Order;
    var lanes, off: nat, v, n: nat :| RunningAt(base, s, lanes, off, v, n);
    group := StandsAtGroup(base, s, lanes, off, v, n);
    verified := v;
  }

  lemma StandsAtGroup(base: Base, s: Session, lanes: seq<nat>, off: nat, verified: set<nat>, n: nat)
      returns (group: nat)
    requires ValidBase(base) && RunningAt(base, s, lanes, off, verified, n) && Beginning(Some(s))
    ensures IsGroup(Order(base), group) && NextStep(s) == Order(base)[2 * group]
    ensures AllAheadRolledBack(base, s.memory.actions, group)
    ensures Marked(base, s.memory.actions, verified) && group !in verified
  {
    hide ValidBase, Order, Marked, Listing, Sound, AllAheadRolledBack, Within, Beginning, Segment, Tight;
    NextIsExecute(base, s, lanes, off, verified, n);
    group := lanes[n];
    NextIsUnverified(base, lanes, verified, n);
    AheadIsRolledBack(base, s.memory.actions, lanes, verified, n, n);
  }

  /** The session stands at the execute stage of the first group it has not verified. */
  lemma NextIsExecute(base: Base, s: Session, lanes: seq<nat>, off: nat, verified: set<nat>, n: nat)
    requires ValidBase(base) && RunningAt(base, s, lanes, off, verified, n) && Beginning(Some(s))
    ensures Lanes(Order(base), lanes) && n < |lanes| && NextStep(s) == Order(base)[2 * lanes[n]]
  {
    hide ValidBase, Order, Marked, Listing, Within, Lane, Segment, Tight, NextStep;
    var at := off + s.calls / 2;
    NextIsInLane(base, s, lanes, off);
    PhaseAt(base, lanes, at);
    hide Lanes;
    assert at % 2 == 0;
    TightBegin(off, s.calls / 2, n);
  }

  lemma NextIsInLane(base: Base, s: Session, lanes: seq<nat>, off: nat)
    requires ValidBase(base) && Segment(base, s.memory, lanes, off) && s.calls < 2 * |s.memory.steps|
    ensures
      var at := off + s.calls / 2;
      Lanes(Order(base), lanes) && at < 2 * |lanes| && NextStep(s) == Lane(Order(base), lanes)[at]
  {
    SegmentShape(base, s.memory, lanes, off);
    hide ValidBase, Order, Lane, Pairs, UniqueIds;
  }

  lemma TightBegin(from: nat, done: nat, n: nat)
    requires Tight(from, done, n) && (from + done) % 2 == 0
    ensures n == (from + done) / 2
  {
  }

  lemma NextIsUnverified(base: Base, lanes: seq<nat>, verified: set<nat>, n: nat)
    requires Within(base, lanes, verified, n) && n < |lanes|
    ensures lanes[n] !in verified
  {
    hide Cleared, Order;
  }

  lemma AheadIsRolledBack(base: Base, actions: Actions, lanes: seq<nat>, verified: set<nat>, g: nat, n: nat)
    requires ValidBase(base) && Lanes(Order(base), lanes) && Marked(base, actions, verified)
      && Within(base, lanes, verified, n)
    requires g < |lanes| && g <= n
    ensures AllAheadRolledBack(base, actions, lanes[g])
  {
    MarkMeans(base, actions, verified);
    hide Order, Cleared, ValidBase, Marked;
    forall h: nat | h < lanes[g] && IsGroup(Order(base), h)
      ensures Look(actions, Source(Order(base), h)) == Some(RolledBack)
    {
      assert Source(Order(base), h) in Cleared(base, verified) by {
        if h in lanes {
          var j :| 0 <= j < |lanes| && lanes[j] == h;
          EarlierIndex(lanes, j, g);
          VerifiedIsCleared(base, verified, h);
        }
      }
      assert Order(base)[2 * h].recoveryOfStepId == Source(Order(base), h);
    }
  }

  // ---------------------------------------------------------------- what the theorems rest on

  /** The callbacks and results of a session are those of a controller run over its stages. */
  lemma SessionsAreControllerRuns(job: JobController.Job, moves: seq<JobController.Move>,
      phaseError: Option<JobController.Refusal>, parentCancelled: bool)
    requires Buildable(job.plan)
    ensures
      var s := JobController.Run(job, JobController.START, moves);
      var steps := JobController.Close(job, s, phaseError, parentCancelled).steps;
      var calls, live := |s.calls|, !JobSafety.Rejected(s.calls);
      && JobSafety.Boundaries(job.plan.steps, s.calls) && (!live ==> calls >= 1)
      && Done(calls, live) + (if LeftActive(calls, live) then 1 else 0) <= |job.plan.steps|
      && |steps| == |Listing(job.plan.steps, Done(calls, live), LeftActive(calls, live))|
      && forall i | 0 <= i < |steps| ::
        Listing(job.plan.steps, Done(calls, live), LeftActive(calls, live))[i]
          == StageRecord(steps[i].stepId, steps[i].status == JobController.Succeeded)
  {
    JobSafety.EveryRunIsSafe(job, moves);
    JobSafety.FailureReportsHonestly(job, moves, phaseError, parentCancelled);
    var s := JobController.Run(job, JobController.START, moves);
    var calls, live := |s.calls|, !JobSafety.Rejected(s.calls);
    assert Done(calls, live) == s.next;
    assert LeftActive(calls, live) <==> s.active >= 0;
  }
}
