/** The recovery order of a receipt: groups of an execute stage and its post check, what the verified
    post check of a group marks as rolled back (internal/jobcli/run.go:404-442), and the stages that
    are left (internal/jobcli/run.go:112-121). */
module RollbackOrder {
  import opened JobPlan
  import opened ActionReceipt
  import opened RollbackSessions

  // ---------------------------------------------------------------- the recovery order

  /** `order` is the recovery order at the start: the stages touched and not yet rolled back. */
  datatype Base = Base(receipt: Receipt, metadata: seq<JobStep>)

  function Order(base: Base): seq<JobStep>
  {
    Touched(base.receipt.original.recovery, base.receipt.actions)
  }

  ghost predicate ValidBase(base: Base)
  {
    RecoveryPlan(base.receipt.original) && base.receipt.operation.RunOperation?
  }

  lemma OrderShape(base: Base)
    requires ValidBase(base)
    ensures
      var f := Order(base);
      && Pairs(f) && DistinctSources(f) && UniqueIds(f)
      && forall i | 0 <= i < |f| ::
        f[i] in base.receipt.original.recovery && NeedsRollback(base.receipt.actions, f[i])
  {
    TouchedShape(base.receipt.original.recovery, base.receipt.actions);
  }

  /** Group g is the execute stage at 2g and the post check behind it. */
  predicate IsGroup(f: seq<JobStep>, g: nat)
  {
    2 * g + 1 < |f|
  }

  function Source(f: seq<JobStep>, g: nat): string
    requires IsGroup(f, g)
  {
    f[2 * g].recoveryOfStepId
  }

  lemma OneGroupPerSource(base: Base, g: nat, h: nat)
    requires ValidBase(base) && IsGroup(Order(base), g) && IsGroup(Order(base), h)
    ensures Source(Order(base), g) == Source(Order(base), h) <==> g == h
  {
    OrderShape(base);
    hide Order, ValidBase, NeedsRollback, Pairs, UniqueIds;
    if g < h { } else if h < g { }
  }

  /** The original actions whose captured baseline an execute stage restores. */
  function Captures(plan: Plan, execute: JobStep): set<string>
  {
    set i | 0 <= i < |plan.steps| && CapturedWith(plan.steps[i], execute.backupRef) :: plan.steps[i].id
  }

  /** What the verified post check of a group marks as rolled back. */
  function Clears(base: Base, g: nat): set<string>
    requires IsGroup(Order(base), g)
  {
    {Source(Order(base), g)} + Captures(base.receipt.original, Order(base)[2 * g])
  }

  function Cleared(base: Base, verified: set<nat>): set<string>
  {
    set g, id | g in verified && IsGroup(Order(base), g) && id in Clears(base, g) :: id
  }

  lemma ClearedByOneMore(base: Base, verified: set<nat>, g: nat)
    requires IsGroup(Order(base), g)
    ensures Cleared(base, verified + {g}) == Cleared(base, verified) + Clears(base, g)
    ensures Source(Order(base), g) in Cleared(base, verified + {g})
  {
    hide Order, Clears;
    assert Source(Order(base), g) in Clears(base, g) by { ClearsSource(base, g); }
  }

  lemma ClearsSource(base: Base, g: nat)
    requires IsGroup(Order(base), g)
    ensures Source(Order(base), g) in Clears(base, g)
  {
    hide Order;
  }

  lemma VerifiedIsCleared(base: Base, verified: set<nat>, g: nat)
    requires g in verified && IsGroup(Order(base), g)
    ensures Source(Order(base), g) in Cleared(base, verified)
  {
    hide Order, Clears;
    ClearsSource(base, g);
  }

  // ---------------------------------------------------------------- lanes

  /** Groups in growing order. */
  predicate Lanes(f: seq<JobStep>, lanes: seq<nat>)
  {
    && (forall i | 0 <= i < |lanes| :: IsGroup(f, lanes[i]))
    && forall i, j | 0 <= i < j < |lanes| :: lanes[i] < lanes[j]
  }

  /** The stages of those groups. */
  function Lane(f: seq<JobStep>, lanes: seq<nat>): (r: seq<JobStep>)
    requires Lanes(f, lanes)
    ensures |r| == 2 * |lanes|
  {
    seq(2 * |lanes|, i requires 0 <= i < 2 * |lanes| => f[2 * lanes[i / 2] + i % 2])
  }

  lemma LaneAt(f: seq<JobStep>, lanes: seq<nat>, i: nat)
    requires Lanes(f, lanes) && i < 2 * |lanes|
    ensures Lane(f, lanes)[i] == f[2 * lanes[i / 2] + i % 2]
  {
  }

  /** What is left of whole groups is whole groups. */
  lemma {:induction false} RemainingLanes(f: seq<JobStep>, done: set<string>) returns (lanes: seq<nat>)
    requires Pairs(f)
    ensures Lanes(f, lanes) && Remaining(f, done) == Lane(f, lanes)
    ensures forall g | IsGroup(f, g) :: g in lanes <==> Source(f, g) !in done
    decreases |f|
  {
    hide Remaining, Lane, Pairs, Lanes;
    if f == [] {
      lanes := [];
      NoLanes(f, done);
    } else {
      ShorterPairs(f);
      var before := RemainingLanes(f[..|f| - 2], done);
      LanesGrow(f, before, done);
      RemainingPair(f, done);
      var last := |f| / 2 - 1;
      lanes := if Source(f, last) in done then before else before + [last];
    }
  }

  lemma NoLanes(f: seq<JobStep>, done: set<string>)
    requires f == []
    ensures Lanes(f, []) && Remaining(f, done) == Lane(f, [])
  {
  }

  lemma ShorterPairs(f: seq<JobStep>)
    requires Pairs(f) && f != []
    ensures |f| % 2 == 0 && |f| >= 2 && Pairs(f[..|f| - 2])
  {
    var rest := f[..|f| - 2];
    forall i | 0 <= i < |rest| && i % 2 == 0
      ensures Pair(rest[i], rest[i + 1])
    {
      assert Pair(f[i], f[i + 1]);
    }
  }

  lemma RemainingPair(f: seq<JobStep>, done: set<string>)
    requires Pairs(f) && f != []
    ensures
      var n := |f| - 2;
      Remaining(f, done) ==
        if Source(f, |f| / 2 - 1) in done then Remaining(f[..n], done) else Remaining(f[..n], done) + [f[n], f[n + 1]]
  {
    var n := |f| - 2;
    assert Pair(f[n], f[n + 1]);
    hide Pairs, Pair, Remaining;
    assert f[..n + 1][..n] == f[..n] && f[..|f| - 1] == f[..n + 1];
    RemainingLast(f, done);
    RemainingLast(f[..n + 1], done);
    var r := Remaining(f[..n], done);
    assert (r + [f[n]]) + [f[n + 1]] == r + [f[n], f[n + 1]];
  }

  lemma RemainingLast(f: seq<JobStep>, done: set<string>)
    requires f != []
    ensures
      var before := Remaining(f[..|f| - 1], done);
      Remaining(f, done) == if f[|f| - 1].recoveryOfStepId in done then before else before + [f[|f| - 1]]
  {
  }

  /** The two stages of a group belong together. */
  lemma GroupPair(f: seq<JobStep>, g: nat)
    requires Pairs(f) && IsGroup(f, g)
    ensures Pair(f[2 * g], f[2 * g + 1])
  {
    hide Pair;
    assert 2 * g % 2 == 0;
  }

  /** A stage of the lanes is the first or second of a group. */
  lemma LaneGroup(f: seq<JobStep>, lanes: seq<nat>, at: nat)
    requires Lanes(f, lanes) && at < 2 * |lanes|
    ensures IsGroup(f, lanes[at / 2])
    ensures Lane(f, lanes)[at] == if at % 2 == 0 then f[2 * lanes[at / 2]] else f[2 * lanes[at / 2] + 1]
  {
    LaneAt(f, lanes, at);
    hide Lane;
    assert 0 <= at / 2 < |lanes| && (at % 2 == 0 || at % 2 == 1);
  }

  lemma LanesGrow(f: seq<JobStep>, before: seq<nat>, done: set<string>)
    requires Pairs(f) && f != [] && Lanes(f[..|f| - 2], before)
    requires forall g | IsGroup(f[..|f| - 2], g) :: g in before <==> Source(f[..|f| - 2], g) !in done
    ensures
      var last := |f| / 2 - 1;
      && Lanes(f, before) && Lane(f, before) == Lane(f[..|f| - 2], before)
      && Lanes(f, before + [last]) && Lane(f, before + [last]) == Lane(f, before) + [f[|f| - 2], f[|f| - 1]]
      && last !in before
      && forall g | IsGroup(f, g) && g != last :: g in before <==> Source(f, g) !in done
  {
    ShorterPairs(f);
    hide Pairs, Lane;
    var last := |f| / 2 - 1;
    LanesOfMore(f, before);
    LaneOfMore(f, before);
    forall g | IsGroup(f, g) && g != last
      ensures g in before <==> Source(f, g) !in done
    {
      assert IsGroup(f[..|f| - 2], g) && Source(f[..|f| - 2], g) == Source(f, g);
    }
  }

  lemma LanesOfMore(f: seq<JobStep>, before: seq<nat>)
    requires |f| % 2 == 0 && |f| >= 2 && Lanes(f[..|f| - 2], before)
    ensures Lanes(f, before) && Lanes(f, before + [|f| / 2 - 1]) && |f| / 2 - 1 !in before
  {
    assert forall i | 0 <= i < |before| :: IsGroup(f[..|f| - 2], before[i]);
  }

  lemma LaneOfMore(f: seq<JobStep>, before: seq<nat>)
    requires |f| % 2 == 0 && |f| >= 2 && Lanes(f[..|f| - 2], before)
    requires Lanes(f, before) && Lanes(f, before + [|f| / 2 - 1])
    ensures Lane(f, before) == Lane(f[..|f| - 2], before)
    ensures Lane(f, before + [|f| / 2 - 1]) == Lane(f, before) + [f[|f| - 2], f[|f| - 1]]
  {
    var more := Lane(f, before + [|f| / 2 - 1]);
    hide Lanes;
    assert forall i | 0 <= i < 2 * |before| :: more[i] == Lane(f, before)[i];
  }

  lemma LaneShape(f: seq<JobStep>, lanes: seq<nat>)
    requires Pairs(f) && UniqueIds(f) && Lanes(f, lanes)
    ensures Pairs(Lane(f, lanes)) && UniqueIds(Lane(f, lanes))
    ensures forall i | 0 <= i < 2 * |lanes| :: Lane(f, lanes)[i] in f
  {
    var l := Lane(f, lanes);
    forall i | 0 <= i < |l| && i % 2 == 0
      ensures Pair(l[i], l[i + 1])
    {
      assert Pair(f[2 * lanes[i / 2]], f[2 * lanes[i / 2] + 1]);
    }
    forall i, j | 0 <= i < j < |l|
      ensures l[i].id != l[j].id
    {
      assert i / 2 == j / 2 || lanes[i / 2] < lanes[j / 2];
      assert 2 * lanes[i / 2] + i % 2 < 2 * lanes[j / 2] + j % 2;
    }
  }

  lemma LaneDrop(f: seq<JobStep>, lanes: seq<nat>, k: nat, off: nat)
    requires Lanes(f, lanes) && k <= |lanes| && off <= 1 && 2 * k + off <= 2 * |lanes|
    ensures Lanes(f, lanes[k..]) && Lane(f, lanes)[2 * k + off..] == Lane(f, lanes[k..])[off..]
  {
    var a, b := Lane(f, lanes)[2 * k + off..], Lane(f, lanes[k..])[off..];
    assert |a| == |b|;
    forall i | 0 <= i < |a|
      ensures a[i] == b[i]
    {
      assert a[i] == Lane(f, lanes)[2 * k + off + i] && b[i] == Lane(f, lanes[k..])[off + i];
      assert (2 * k + off + i) / 2 == k + (off + i) / 2 && (2 * k + off + i) % 2 == (off + i) % 2;
    }
  }

  lemma LaneTake(f: seq<JobStep>, lanes: seq<nat>, k: nat)
    requires Lanes(f, lanes) && k <= |lanes|
    ensures Lanes(f, lanes[..k]) && Lane(f, lanes)[..2 * k] == Lane(f, lanes[..k])
  {
  }
}
