/** How the seeder combines the dependency edges of a scenario with its explicit ordering edges
    (internal/seed/seed.go:462-498): edges already implied are not added, and sequence edges
    implied by the final graph are taken out again. */
module SeedGraph {
  import opened Walks

  datatype EdgeKind = DependencyEdge | SequenceEdge

  datatype Edge = Edge(id: string, source: string, target: string, kind: EdgeKind)

  ghost function ArrowsOf(edges: seq<Edge>): Arrows
  {
    set i | 0 <= i < |edges| :: (edges[i].source, edges[i].target)
  }

  function Without(edges: seq<Edge>, i: nat): seq<Edge>
    requires i < |edges|
  {
    edges[..i] + edges[i + 1..]
  }

  function Dependencies(edges: seq<Edge>): seq<Edge>
  {
    if edges == [] then []
    else if edges[0].kind.DependencyEdge? then [edges[0]] + Dependencies(edges[1..])
    else Dependencies(edges[1..])
  }

  ghost predicate Implied(edges: seq<Edge>, i: nat)
    requires i < |edges|
  {
    Reaches(ArrowsOf(Without(edges, i)), edges[i].source, edges[i].target)
  }

  // ---------------------------------------------------------------- the search

  ghost function Ends(edges: seq<Edge>, source: string): set<string>
  {
    {source} + set i | 0 <= i < |edges| :: edges[i].target
  }

  ghost predicate Explored(edges: seq<Edge>, queue: seq<string>, seen: set<string>)
  {
    forall s, t | (s, t) in ArrowsOf(edges) && s in seen :: t in seen || t in queue
  }

  ghost predicate AllReached(a: Arrows, source: string, queue: seq<string>)
  {
    forall x | x in queue :: Reaches(a, source, x)
  }

  method SeedReachable(edges: seq<Edge>, source: string, target: string) returns (found: bool)
    ensures found <==> Reaches(ArrowsOf(edges), source, target)
  {
    ghost var arrows := ArrowsOf(edges);
    ghost var all := Ends(edges, source);
    hide Reaches, Closed;
    ReachesItself(arrows, source);
    var queue := [source];
    var seen: set<string> := {};
    while queue != []
      invariant seen <= all && forall x | x in queue :: x in all
      invariant source in seen || source in queue
      invariant target !in seen
      invariant AllReached(arrows, source, queue)
      invariant Explored(edges, queue, seen)
      decreases all - seen, |queue|
    {
      ghost var before := queue;
      var current := queue[0];
      queue := queue[1..];
      assert before == [current] + queue;
      assert Reaches(arrows, source, current);
      if current == target {
        return true;
      }
      if current in seen {
        continue;
      }
      ghost var rest := queue;
      assert forall x | x in rest :: x in before;
      for i := 0 to |edges|
        invariant rest <= queue
        invariant forall x | x in queue :: x in all
        invariant AllReached(arrows, source, queue)
        invariant forall j | 0 <= j < i && edges[j].source == current :: edges[j].target in queue
      {
        if edges[i].source == current {
          assert (current, edges[i].target) in arrows;
          ReachesAcross(arrows, current, edges[i].target);
          ReachesOn(arrows, source, current, edges[i].target);
          queue := queue + [edges[i].target];
        }
      }
      seen := seen + {current};
      assert all - seen < all - (seen - {current}) by { assert current in all; }
      assert Explored(edges, queue, seen);
    }
    SeenIsClosed(edges, seen);
    ClosedKeepsOut(arrows, seen, source, target);
    return false;
  }

  lemma SeenIsClosed(edges: seq<Edge>, seen: set<string>)
    requires Explored(edges, [], seen)
    ensures Closed(ArrowsOf(edges), seen)
  {
  }

  // ---------------------------------------------------------------- the reduction

  lemma OneMore(edges: seq<Edge>, e: Edge)
    ensures ArrowsOf(edges + [e]) == ArrowsOf(edges) + {(e.source, e.target)}
  {
    var more := edges + [e];
    assert more[|edges|] == e;
    forall x | x in ArrowsOf(edges)
      ensures x in ArrowsOf(more)
    {
      var i :| 0 <= i < |edges| && x == (edges[i].source, edges[i].target);
      assert more[i] == edges[i];
    }
  }

  lemma OneLess(edges: seq<Edge>, i: nat)
    requires i < |edges|
    ensures ArrowsOf(Without(edges, i)) <= ArrowsOf(edges) <= ArrowsOf(Without(edges, i))
      + {(edges[i].source, edges[i].target)}
  {
    var rest := Without(edges, i);
    forall x | x in ArrowsOf(edges)
      ensures x in ArrowsOf(rest) || x == (edges[i].source, edges[i].target)
    {
      var j :| 0 <= j < |edges| && x == (edges[j].source, edges[j].target);
      if j < i {
        assert rest[j] == edges[j];
      } else if j > i {
        assert rest[j - 1] == edges[j];
      }
    }
  }

  lemma {:induction false} DependenciesConcat(a: seq<Edge>, b: seq<Edge>)
    ensures Dependencies(a + b) == Dependencies(a) + Dependencies(b)
  {
    if a == [] {
      assert a + b == b;
    } else {
      assert (a + b)[0] == a[0] && (a + b)[1..] == a[1..] + b;
      DependenciesConcat(a[1..], b);
    }
  }

  lemma SequencesLeaveDependencies(edges: seq<Edge>, i: nat)
    requires i < |edges| && edges[i].kind.SequenceEdge?
    ensures Dependencies(Without(edges, i)) == Dependencies(edges)
  {
    assert edges == edges[..i] + ([edges[i]] + edges[i + 1..]);
    DependenciesConcat(edges[..i], [edges[i]] + edges[i + 1..]);
    DependenciesConcat([edges[i]], edges[i + 1..]);
    DependenciesConcat(edges[..i], edges[i + 1..]);
  }

  lemma RemovalIsSafe(edges: seq<Edge>, i: nat)
    requires i < |edges| && Implied(edges, i)
    ensures SameReach(ArrowsOf(edges), ArrowsOf(Without(edges, i)))
  {
    OneLess(edges, i);
    hide Reaches;
    ImpliedArrow(ArrowsOf(edges), ArrowsOf(Without(edges, i)), edges[i].source, edges[i].target);
  }

  /** An edge that is not implied stays needed when another edge goes. */
  lemma StillNeeded(edges: seq<Edge>, i: nat, j: nat)
    requires j < i < |edges| && !Implied(edges, j)
    ensures Without(edges, i)[j] == edges[j] && !Implied(Without(edges, i), j)
  {
    var fewer := Without(Without(edges, i), j);
    var rest := Without(edges, j);
    assert fewer == Without(rest, i - 1);
    OneLess(rest, i - 1);
    if Reaches(ArrowsOf(fewer), edges[j].source, edges[j].target) {
      ReachesMore(ArrowsOf(fewer), ArrowsOf(rest), edges[j].source, edges[j].target);
    }
  }

  ghost predicate NeededBefore(edges: seq<Edge>, n: nat)
    requires n <= |edges|
  {
    forall j | 0 <= j < n && edges[j].kind.SequenceEdge? :: !Implied(edges, j)
  }

  /** The edges are those of the whole list at growing positions. */
  ghost predicate Picks(edges: seq<Edge>, whole: seq<Edge>, at: seq<nat>)
  {
    && |at| == |edges|
    && (forall k | 0 <= k < |at| :: at[k] < |whole| && edges[k] == whole[at[k]])
    && forall k, m | 0 <= k < m < |at| :: at[k] < at[m]
  }

  ghost predicate InOrder(edges: seq<Edge>, whole: seq<Edge>)
  {
    exists at: seq<nat> :: Picks(edges, whole, at)
  }

  lemma AllInOrder(edges: seq<Edge>)
    ensures InOrder(edges, edges)
  {
    assert Picks(edges, edges, seq(|edges|, i => i));
  }

  lemma InOrderTaken(edges: seq<Edge>, whole: seq<Edge>, e: Edge)
    requires InOrder(edges, whole)
    ensures InOrder(edges + [e], whole + [e]) && InOrder(edges, whole + [e])
  {
    var at: seq<nat> :| Picks(edges, whole, at);
    assert Picks(edges + [e], whole + [e], at + [|whole|]);
    assert Picks(edges, whole + [e], at);
  }

  lemma InOrderDropped(edges: seq<Edge>, whole: seq<Edge>, i: nat)
    requires InOrder(edges, whole) && i < |edges|
    ensures InOrder(Without(edges, i), whole)
  {
    var at: seq<nat> :| Picks(edges, whole, at);
    assert Picks(Without(edges, i), whole, at[..i] + at[i + 1..]);
  }

  lemma AddedImplied(edges: seq<Edge>, whole: seq<Edge>, e: Edge)
    requires SameReach(ArrowsOf(edges), ArrowsOf(whole)) && Reaches(ArrowsOf(edges), e.source, e.target)
    ensures SameReach(ArrowsOf(edges), ArrowsOf(whole + [e]))
  {
    OneMore(whole, e);
    hide Reaches, ArrowsOf;
    ImpliedArrow(ArrowsOf(whole + [e]), ArrowsOf(whole), e.source, e.target);
  }

  lemma AddedNeeded(edges: seq<Edge>, whole: seq<Edge>, e: Edge)
    requires SameReach(ArrowsOf(edges), ArrowsOf(whole))
    ensures SameReach(ArrowsOf(edges + [e]), ArrowsOf(whole + [e]))
  {
    OneMore(edges, e);
    OneMore(whole, e);
    hide Reaches, ArrowsOf, SameReach;
    SameReachOneMore(ArrowsOf(edges), ArrowsOf(whole), e.source, e.target);
  }

  /** The dependency edges with each ordering edge that is not yet implied, in turn. */
  ghost function Extended(dependencies: seq<Edge>, ordering: seq<Edge>): seq<Edge>
    decreases |ordering|
  {
    if ordering == [] then dependencies
    else
      var n := |ordering| - 1;
      var before := Extended(dependencies, ordering[..n]);
      if Reaches(ArrowsOf(before), ordering[n].source, ordering[n].target) then before else before + [ordering[n]]
  }

  lemma ExtendedByOne(dependencies: seq<Edge>, ordering: seq<Edge>, k: nat)
    requires k < |ordering|
    ensures
      var before, e := Extended(dependencies, ordering[..k]), ordering[k];
      Extended(dependencies, ordering[..k + 1]) == if Reaches(ArrowsOf(before), e.source, e.target) then before
        else before + [e]
  {
    assert ordering[..k + 1][..k] == ordering[..k];
    hide Reaches;
  }

  method CombineEdges(dependencies: seq<Edge>, ordering: seq<Edge>) returns (edges: seq<Edge>)
    ensures SameReach(ArrowsOf(edges), ArrowsOf(dependencies + ordering))
    ensures NeededBefore(edges, |edges|)
    ensures Dependencies(dependencies) <= Dependencies(edges)
    ensures (forall k | 0 <= k < |ordering| :: ordering[k].kind.SequenceEdge?) ==>
      Dependencies(edges) == Dependencies(dependencies)
    ensures InOrder(edges, Extended(dependencies, ordering))
      && InOrder(Extended(dependencies, ordering), dependencies + ordering)
    ensures Dependencies(edges) == Dependencies(Extended(dependencies, ordering))
  {
    hide ArrowsOf, SameReach, Reaches, Implied, InOrder, Dependencies, Extended;
    edges := dependencies;
    AllInOrder(dependencies);
    SameReachSame(ArrowsOf(dependencies));
    assert ordering[..0] == [] && dependencies + ordering[..0] == dependencies;
    ExtendedByNone(dependencies);
    for k := 0 to |ordering|
      invariant edges == Extended(dependencies, ordering[..k])
      invariant SameReach(ArrowsOf(edges), ArrowsOf(dependencies + ordering[..k]))
      invariant InOrder(edges, dependencies + ordering[..k])
      invariant Dependencies(dependencies) <= Dependencies(edges)
      invariant (forall m | 0 <= m < k :: ordering[m].kind.SequenceEdge?) ==>
        Dependencies(edges) == Dependencies(dependencies)
    {
      var e := ordering[k];
      ghost var whole := dependencies + ordering[..k];
      assert dependencies + ordering[..k + 1] == whole + [e];
      ExtendedByOne(dependencies, ordering, k);
      InOrderTaken(edges, whole, e);
      DependenciesOfOne(edges, e);
      var implied := SeedReachable(edges, e.source, e.target);
      if implied {
        AddedImplied(edges, whole, e);
      } else {
        AddedNeeded(edges, whole, e);
        edges := edges + [e];
      }
    }
    ghost var whole := dependencies + ordering;
    assert ordering[..|ordering|] == ordering;
    ghost var extended := edges;
    AllInOrder(extended);
    var i := 0;
    while i < |edges|
      invariant i <= |edges|
      invariant SameReach(ArrowsOf(edges), ArrowsOf(whole))
      invariant InOrder(edges, extended)
      invariant Dependencies(edges) == Dependencies(extended)
      invariant NeededBefore(edges, i)
      decreases |edges| - i
    {
      var e := edges[i];
      var rest := edges[..i] + edges[i + 1..];
      assert rest == Without(edges, i);
      var implied := false;
      if e.kind.SequenceEdge? {
        implied := SeedReachable(rest, e.source, e.target);
        ImpliedMeans(edges, i);
      }
      if implied {
        RemovalIsSafe(edges, i);
        InOrderDropped(edges, extended, i);
        SequencesLeaveDependencies(edges, i);
        SameReachBack(ArrowsOf(edges), ArrowsOf(rest), ArrowsOf(whole));
        PrefixStillNeeded(edges, i);
        edges := rest;
      } else {
        i := i + 1;
      }
    }
  }

  lemma ExtendedByNone(dependencies: seq<Edge>)
    ensures Extended(dependencies, []) == dependencies
  {
  }

  lemma ImpliedMeans(edges: seq<Edge>, i: nat)
    requires i < |edges|
    ensures Implied(edges, i) <==> Reaches(ArrowsOf(Without(edges, i)), edges[i].source, edges[i].target)
  {
    hide Reaches;
  }

  lemma SameReachSame(a: Arrows)
    ensures SameReach(a, a)
  {
  }

  lemma SameReachBack(a: Arrows, b: Arrows, c: Arrows)
    requires SameReach(a, b) && SameReach(a, c)
    ensures SameReach(b, c)
  {
  }

  lemma DependenciesOfOne(edges: seq<Edge>, e: Edge)
    ensures Dependencies(edges) <= Dependencies(edges + [e])
    ensures e.kind.SequenceEdge? ==> Dependencies(edges + [e]) == Dependencies(edges)
  {
    DependenciesConcat(edges, [e]);
  }

  lemma PrefixStillNeeded(edges: seq<Edge>, i: nat)
    requires i < |edges| && NeededBefore(edges, i)
    ensures NeededBefore(Without(edges, i), i)
  {
    hide Implied;
    forall j | 0 <= j < i && edges[j].kind.SequenceEdge?
      ensures Without(edges, i)[j] == edges[j] && !Implied(Without(edges, i), j)
    {
      StillNeeded(edges, i, j);
    }
  }

  /** So the kept sequence edges are minimal: taking any one out loses reachability. */
  lemma EveryKeptSequenceIsNeeded(edges: seq<Edge>, i: nat)
    requires i < |edges| && edges[i].kind.SequenceEdge? && NeededBefore(edges, |edges|)
    ensures !SameReach(ArrowsOf(edges), ArrowsOf(Without(edges, i)))
  {
    assert (edges[i].source, edges[i].target) in ArrowsOf(edges);
    ReachesAcross(ArrowsOf(edges), edges[i].source, edges[i].target);
    hide Reaches;
    assert !Implied(edges, i);
  }
}
