/** When the duplicate-pair check of a scenario graph (internal/domain/domain.go:644-648) reports an
    edge that duplicates nothing: its key joins two ids with a NUL, which ids may contain. */
module ScenarioPairs {
  import opened ScenarioGraph

  const NUL := ['\0']

  predicate SameEnds(e: Edge, f: Edge)
  {
    e.source == f.source && e.target == f.target
  }

  /** The key of both is the source of e, NUL, x, NUL and the target of f. */
  ghost predicate Overlap(e: Edge, f: Edge)
  {
    exists x: string :: f.source == e.source + NUL + x && e.target == x + NUL + f.target
  }

  lemma OverlapCollides(e: Edge, f: Edge)
    requires Overlap(e, f)
    ensures Pair(e) == Pair(f) && !SameEnds(e, f)
  {
    var x: string :| f.source == e.source + NUL + x && e.target == x + NUL + f.target;
    assert Pair(e) == e.source + NUL + x + NUL + f.target;
    assert |f.source| > |e.source|;
  }

  lemma ShorterOverlaps(e: Edge, f: Edge)
    requires Pair(e) == Pair(f) && |e.source| < |f.source|
    ensures Overlap(e, f)
  {
    var n, m := |e.source|, |f.source|;
    var p := Pair(e);
    var x := f.source[n + 1..];
    assert p[..n] == e.source && p[n] == '\0' && p[n + 1..] == e.target;
    assert p[..m] == f.source && p[m] == '\0' && p[m + 1..] == f.target;
    assert f.source == f.source[..n] + [f.source[n]] + x;
    assert f.source[..n] == p[..n] && f.source[n] == p[n];
    assert x == p[n + 1..m];
    assert p[n + 1..] == p[n + 1..m] + [p[m]] + p[m + 1..];
  }

  lemma EqualLengthsAgree(e: Edge, f: Edge)
    requires Pair(e) == Pair(f) && |e.source| == |f.source|
    ensures SameEnds(e, f)
  {
    assert e.source == Pair(e)[..|e.source|] && f.source == Pair(f)[..|f.source|];
    assert e.target == Pair(e)[|e.source| + 1..] && f.target == Pair(f)[|f.source| + 1..];
  }

  /** Two edges have one key exactly when they join the same nodes or one overlaps the other. */
  lemma KeysAgreeExactly(e: Edge, f: Edge)
    ensures Pair(e) == Pair(f) <==> SameEnds(e, f) || Overlap(e, f) || Overlap(f, e)
  {
    hide Overlap;
    if Overlap(e, f) {
      OverlapCollides(e, f);
    }
    if Overlap(f, e) {
      OverlapCollides(f, e);
    }
    if Pair(e) == Pair(f) {
      if |e.source| < |f.source| {
        ShorterOverlaps(e, f);
      } else if |f.source| < |e.source| {
        ShorterOverlaps(f, e);
      } else {
        EqualLengthsAgree(e, f);
      }
    }
  }

  /** The key tells endpoints apart as long as no source id contains NUL. */
  lemma PairsTellEndpointsApart(e: Edge, f: Edge)
    requires '\0' !in e.source && '\0' !in f.source
    ensures Pair(e) == Pair(f) <==> SameEnds(e, f)
  {
    KeysAgreeExactly(e, f);
    hide Pair, SameEnds;
    SourceWithoutNul(e, f);
    SourceWithoutNul(f, e);
  }

  lemma SourceWithoutNul(e: Edge, f: Edge)
    requires '\0' !in f.source
    ensures !Overlap(e, f)
  {
    forall x: string
      ensures f.source != e.source + NUL + x
    {
      assert (e.source + NUL + x)[|e.source|] == '\0';
    }
  }

  /** A retained edge is reported as a duplicate pair exactly when an earlier retained edge joins
      the same nodes or overlaps with it. */
  lemma ReportedExactly(known: set<string>, edges: seq<Edge>, i: nat)
    requires i < |edges| && Retained(known, edges[i])
    ensures
      Issue(DuplicateEdgePair, edges[i].target) in EndpointIssues(known, RetainedPairs(known, edges[..i]), edges[i])
      <==> exists j ::
        && 0 <= j < i && Retained(known, edges[j])
        && (SameEnds(edges[j], edges[i]) || Overlap(edges[j], edges[i]) || Overlap(edges[i], edges[j]))
  {
    hide Overlap, SameEnds, Pair;
    forall j | 0 <= j < i
      ensures Pair(edges[j]) == Pair(edges[i])
        <==> SameEnds(edges[j], edges[i]) || Overlap(edges[j], edges[i]) || Overlap(edges[i], edges[j])
    {
      KeysAgreeExactly(edges[j], edges[i]);
    }
    var before := edges[..i];
    assert forall j | 0 <= j < i :: before[j] == edges[j];
    assert Pair(edges[i]) in RetainedPairs(known, before)
      <==> exists j :: 0 <= j < i && Retained(known, before[j]) && Pair(before[j]) == Pair(edges[i]);
  }

  /** Edge i is reported as a duplicate pair although no earlier edge joins its nodes. */
  ghost predicate FalselyReported(known: set<string>, edges: seq<Edge>, i: nat)
    requires i < |edges|
  {
    && Retained(known, edges[i])
    && Issue(DuplicateEdgePair, edges[i].target) in EndpointIssues(known, RetainedPairs(known, edges[..i]), edges[i])
    && forall j | 0 <= j < i :: !SameEnds(edges[j], edges[i])
  }

  /** Four ids that two overlapping edges can join. */
  predicate Overlapping(known: set<string>, a: string, x: string, d: string)
  {
    && a in known && d in known && a + NUL + x in known && x + NUL + d in known
    && a != x + NUL + d && a + NUL + x != d
  }

  lemma OverlapNeedsIds(known: set<string>, e: Edge, f: Edge)
    requires Retained(known, e) && Retained(known, f) && Overlap(e, f)
    ensures exists a: string, x: string, d: string :: Overlapping(known, a, x, d)
  {
    var x: string :| f.source == e.source + NUL + x && e.target == x + NUL + f.target;
    assert Overlapping(known, e.source, x, f.target);
  }

  function Crossing(a: string, x: string, d: string): seq<Edge>
  {
    [Edge("1", a, x + NUL + d, SequenceKind, ""), Edge("2", a + NUL + x, d, SequenceKind, "")]
  }

  lemma CrossingIsReported(known: set<string>, a: string, x: string, d: string)
    requires Overlapping(known, a, x, d)
    ensures FalselyReported(known, Crossing(a, x, d), 1)
  {
    var edges := Crossing(a, x, d);
    assert Overlap(edges[0], edges[1]);
    OverlapCollides(edges[0], edges[1]);
    ReportedExactly(known, edges, 1);
    assert Retained(known, edges[0]) && Retained(known, edges[1]);
  }

  /** Over given node ids some edges can be falsely reported if and only if ids a, d, a NUL x and
      x NUL d are all among them for some x, where a is not x NUL d and d is not a NUL x, since an
      edge from a node to itself is not retained. */
  lemma FalseReportsExactly(known: set<string>)
    ensures (exists edges: seq<Edge>, i: nat :: i < |edges| && FalselyReported(known, edges, i))
            <==> exists a: string, x: string, d: string :: Overlapping(known, a, x, d)
  {
    hide Overlapping, Crossing, Overlap;
    if a: string, x: string, d: string :| Overlapping(known, a, x, d) {
      CrossingIsReported(known, a, x, d);
      CrossingHasTwo(a, x, d);
    }
    if edges: seq<Edge>, i: nat :| i < |edges| && FalselyReported(known, edges, i) {
      ReportedExactly(known, edges, i);
      var j :| 0 <= j < i && Retained(known, edges[j]) && (Overlap(edges[j], edges[i]) || Overlap(edges[i], edges[j]));
      if Overlap(edges[j], edges[i]) {
        OverlapNeedsIds(known, edges[j], edges[i]);
      } else {
        OverlapNeedsIds(known, edges[i], edges[j]);
      }
    }
  }

  lemma CrossingHasTwo(a: string, x: string, d: string)
    ensures |Crossing(a, x, d)| == 2
  {
  }

  /** Without NUL in the ids nothing is falsely reported. */
  lemma NothingFalseWithoutNul(known: set<string>)
    requires forall id | id in known :: '\0' !in id
    ensures !exists edges: seq<Edge>, i: nat :: i < |edges| && FalselyReported(known, edges, i)
  {
    hide FalselyReported;
    FalseReportsExactly(known);
    forall a: string, x: string, d: string
      ensures !Overlapping(known, a, x, d)
    {
      assert (a + NUL + x)[|a|] == '\0';
    }
  }

  const NUL_NODES := [Node("a", "r", "i", "g"), Node(['b', '\0', 'c'], "r", "i", "g"),
                     Node(['a', '\0', 'b'], "r", "i", "g"), Node("c", "r", "i", "g")]
  const NUL_GRAPH := Graph(NUL_NODES, Crossing("a", "b", "c"))

  lemma NulKnown()
    ensures Overlapping(Known(NUL_NODES), "a", "b", "c")
  {
    assert NUL_NODES[0].id == "a" && NUL_NODES[1].id == "b" + NUL + "c";
    assert NUL_NODES[2].id == "a" + NUL + "b" && NUL_NODES[3].id == "c";
    assert forall i | 0 <= i < 4 :: !IsSpace(NUL_NODES[i].id[0]);
    assert |"a" + NUL + "b"| == 3;
  }

  /** A graph of two edges between four different nodes whose issues name a duplicate pair. */
  lemma NulGraphIsRefused()
    ensures Issue(DuplicateEdgePair, "c") in IssuesOf(NUL_GRAPH)
    ensures !SameEnds(NUL_GRAPH.edges[0], NUL_GRAPH.edges[1])
  {
    NulKnown();
    hide Overlapping, Known;
    var known := Known(NUL_NODES);
    CrossingIsReported(known, "a", "b", "c");
    var edges := NUL_GRAPH.edges;
    assert EdgeIssues(known, edges, 2) == EdgeIssues(known, edges, 1) + EdgeIssuesAt(known, edges, 1);
  }
}
