/** For every code, exactly when a scenario graph is reported with it, and in what order
    (internal/domain/domain.go:586-674). */
module ScenarioIssues {
  import opened Walks
  import opened ScenarioGraph

  /** An id that is more than white space, and a node that has it. */
  ghost predicate IsNode(nodes: seq<Node>, id: string)
  {
    !Blank(id) && exists i :: 0 <= i < |nodes| && nodes[i].id == id
  }

  /** What is wrong with node i. */
  ghost predicate NodeHas(nodes: seq<Node>, i: nat, issue: Issue)
    requires i < |nodes|
  {
    var n := nodes[i];
    match issue.code
    case MissingNodeId => Blank(n.id) && issue.nodeId == ""
    case DuplicateNode => !Blank(n.id) && issue.nodeId == n.id && exists j :: 0 <= j < i && nodes[j].id == n.id
    case MissingRelease => !Blank(n.id) && issue.nodeId == n.id && n.releaseId == ""
    case MissingAction => !Blank(n.id) && issue.nodeId == n.id && n.action == ""
    case MissingHostGroup => !Blank(n.id) && issue.nodeId == n.id && n.hostGroup == ""
    case _ => false
  }

  /** Edge j joins two different nodes. */
  ghost predicate Joins(nodes: seq<Node>, e: Edge)
  {
    IsNode(nodes, e.source) && IsNode(nodes, e.target) && e.source != e.target
  }

  /** What is wrong with edge i. */
  ghost predicate EdgeHas(nodes: seq<Node>, edges: seq<Edge>, i: nat, issue: Issue)
    requires i < |edges|
  {
    var e := edges[i];
    match issue.code
    case DuplicateEdge => issue.nodeId == "" && e.id != "" && exists j :: 0 <= j < i && edges[j].id == e.id
    case InvalidEdgeKind => issue.nodeId == "" && e.kind != DependencyKind && e.kind != SequenceKind
    case MissingEdgeDependency => issue.nodeId == "" && e.kind == DependencyKind && Blank(e.dependencyId)
    case UnexpectedEdgeDependency => issue.nodeId == "" && e.kind == SequenceKind && !Blank(e.dependencyId)
    case MissingEdgeSource => issue.nodeId == e.source && !IsNode(nodes, e.source)
    case MissingEdgeTarget => issue.nodeId == e.target && IsNode(nodes, e.source) && !IsNode(nodes, e.target)
    case SelfEdge => issue.nodeId == e.source && IsNode(nodes, e.source) && e.source == e.target
    case DuplicateEdgePair => issue.nodeId == e.target && Joins(nodes, e) && exists j ::
      0 <= j < i && Joins(nodes, edges[j])
      && edges[j].source + ['\0'] + edges[j].target == e.source + ['\0'] + e.target
    case _ => false
  }

  /** What is wrong with the graph as a whole. */
  ghost predicate GraphHas(g: Graph, issue: Issue)
  {
    match issue.code
    case EmptyGraph => issue.nodeId == "" && g.nodes == []
    case Cycle => issue.nodeId == "" && g.nodes != [] && Cyclic(Joined(g))
    case _ => false
  }

  ghost function Joined(g: Graph): Arrows
  {
    set i | 0 <= i < |g.edges| && Joins(g.nodes, g.edges[i]) :: (g.edges[i].source, g.edges[i].target)
  }

  lemma KnownAre(nodes: seq<Node>, id: string)
    ensures id in Known(nodes) <==> IsNode(nodes, id)
  {
    hide Blank;
  }

  lemma JoinedAre(g: Graph)
    ensures RetainedArrows(g) == Joined(g)
  {
    forall e: Edge
      ensures Retained(Known(g.nodes), e) <==> Joins(g.nodes, e)
    {
      KnownAre(g.nodes, e.source);
      KnownAre(g.nodes, e.target);
    }
    hide Retained, Joins, Known;
  }

  lemma InWhen(c: bool, code: Code, nodeId: string, issue: Issue)
    ensures issue in When(c, code, nodeId) <==> c && issue == Issue(code, nodeId)
  {
  }

  lemma NodeIssuesAre(nodes: seq<Node>, i: nat, issue: Issue)
    requires i < |nodes|
    ensures issue in NodeIssuesAt(nodes, i) <==> NodeHas(nodes, i, issue)
  {
    hide Blank, When, Known, IsNode;
    var n := nodes[i];
    EarlierIs(nodes, i);
    InWhen(n.id in Known(nodes[..i]), DuplicateNode, n.id, issue);
    InWhen(n.releaseId == "", MissingRelease, n.id, issue);
    InWhen(n.action == "", MissingAction, n.id, issue);
    InWhen(n.hostGroup == "", MissingHostGroup, n.id, issue);
    InFour(issue, When(n.id in Known(nodes[..i]), DuplicateNode, n.id), When(n.releaseId == "", MissingRelease, n.id),
      When(n.action == "", MissingAction, n.id), When(n.hostGroup == "", MissingHostGroup, n.id));
  }

  lemma EarlierIs(nodes: seq<Node>, i: nat)
    requires i < |nodes|
    ensures !Blank(nodes[i].id) ==>
      (nodes[i].id in Known(nodes[..i]) <==> exists j :: 0 <= j < i && nodes[j].id == nodes[i].id)
  {
    KnownAre(nodes[..i], nodes[i].id);
    hide Blank, Known;
    assert forall j | 0 <= j < i :: nodes[..i][j] == nodes[j];
  }

  lemma InFour(x: Issue, a: seq<Issue>, b: seq<Issue>, c: seq<Issue>, d: seq<Issue>)
    ensures x in a + b + c + d <==> x in a || x in b || x in c || x in d
  {
  }

  lemma EdgeIdsAre(edges: seq<Edge>, i: nat, id: string)
    requires i < |edges|
    ensures id in EdgeIds(edges[..i]) <==> exists j :: 0 <= j < i && edges[j].id == id
  {
    assert forall j | 0 <= j < i :: edges[..i][j] == edges[j];
  }

  lemma PairsAre(nodes: seq<Node>, edges: seq<Edge>, i: nat)
    requires i < |edges|
    ensures Pair(edges[i]) in RetainedPairs(Known(nodes), edges[..i]) <==> exists j ::
      0 <= j < i && Joins(nodes, edges[j])
      && edges[j].source + ['\0'] + edges[j].target == edges[i].source + ['\0'] + edges[i].target
  {
    var before := edges[..i];
    forall e: Edge
      ensures Retained(Known(nodes), e) <==> Joins(nodes, e)
    {
      KnownAre(nodes, e.source);
      KnownAre(nodes, e.target);
    }
    hide Retained, Joins, Known;
    assert forall j | 0 <= j < i :: before[j] == edges[j];
  }

  lemma EndpointIssuesAre(nodes: seq<Node>, edges: seq<Edge>, i: nat, issue: Issue)
    requires i < |edges|
    ensures issue in EndpointIssues(Known(nodes), RetainedPairs(Known(nodes), edges[..i]), edges[i]) <==>
      && EdgeHas(nodes, edges, i, issue)
      && (issue.code.MissingEdgeSource? || issue.code.MissingEdgeTarget? || issue.code.SelfEdge?
          || issue.code.DuplicateEdgePair?)
  {
    PairsAre(nodes, edges, i);
    KnownAre(nodes, edges[i].source);
    KnownAre(nodes, edges[i].target);
    hide Known, IsNode, RetainedPairs, Pair, Blank;
  }

  lemma EdgeIssuesIn(known: set<string>, edges: seq<Edge>, i: nat, issue: Issue)
    requires i < |edges|
    ensures
      var e := edges[i];
      issue in EdgeIssuesAt(known, edges, i) <==>
        || (e.id != "" && e.id in EdgeIds(edges[..i]) && issue == Issue(DuplicateEdge, ""))
        || (e.kind.UnknownKind? && issue == Issue(InvalidEdgeKind, ""))
        || (e.kind.DependencyKind? && Blank(e.dependencyId) && issue == Issue(MissingEdgeDependency, ""))
        || (e.kind.SequenceKind? && !Blank(e.dependencyId) && issue == Issue(UnexpectedEdgeDependency, ""))
        || issue in EndpointIssues(known, RetainedPairs(known, edges[..i]), e)
  {
    hide EndpointIssues, EdgeIds, RetainedPairs, Blank, When;
    var e := edges[i];
    InWhen(e.id != "" && e.id in EdgeIds(edges[..i]), DuplicateEdge, "", issue);
    InWhen(e.kind.UnknownKind?, InvalidEdgeKind, "", issue);
    InWhen(e.kind.DependencyKind? && Blank(e.dependencyId), MissingEdgeDependency, "", issue);
    InWhen(e.kind.SequenceKind? && !Blank(e.dependencyId), UnexpectedEdgeDependency, "", issue);
  }

  lemma EdgeIssuesAre(nodes: seq<Node>, edges: seq<Edge>, i: nat, issue: Issue)
    requires i < |edges|
    ensures issue in EdgeIssuesAt(Known(nodes), edges, i) <==> EdgeHas(nodes, edges, i, issue)
  {
    EndpointIssuesAre(nodes, edges, i, issue);
    EdgeIdsAre(edges, i, edges[i].id);
    EdgeIssuesIn(Known(nodes), edges, i, issue);
    hide Known, IsNode, Joins, RetainedPairs, EndpointIssues, EdgeIds, Blank, EdgeIssuesAt;
  }

  lemma {:induction false} AllNodeIssues(nodes: seq<Node>, n: nat, issue: Issue)
    requires n <= |nodes|
    ensures issue in NodeIssues(nodes, n) <==> exists i: nat :: i < n && NodeHas(nodes, i, issue)
  {
    hide NodeHas, NodeIssuesAt;
    if n > 0 {
      AllNodeIssues(nodes, n - 1, issue);
      NodeIssuesAre(nodes, n - 1, issue);
    }
  }

  lemma {:induction false} AllEdgeIssues(nodes: seq<Node>, edges: seq<Edge>, n: nat, issue: Issue)
    requires n <= |edges|
    ensures issue in EdgeIssues(Known(nodes), edges, n) <==> exists i: nat :: i < n && EdgeHas(nodes, edges, i, issue)
  {
    hide EdgeHas, EdgeIssuesAt, Known;
    if n > 0 {
      AllEdgeIssues(nodes, edges, n - 1, issue);
      EdgeIssuesAre(nodes, edges, n - 1, issue);
    }
  }

  /** A graph is reported with an issue exactly when a node, an edge or the graph has it; of an empty
      graph nothing else is said. */
  lemma ReportedExactlyForCause(g: Graph, issue: Issue)
    ensures issue in IssuesOf(g) <==>
      || GraphHas(g, issue)
      || (g.nodes != [] && exists i: nat :: i < |g.nodes| && NodeHas(g.nodes, i, issue))
      || (g.nodes != [] && exists i: nat :: i < |g.edges| && EdgeHas(g.nodes, g.edges, i, issue))
  {
    hide NodeIssues, EdgeIssues, Known, NodeHas, EdgeHas, Cyclic, RetainedArrows, When, Joined;
    if g.nodes != [] {
      AllNodeIssues(g.nodes, |g.nodes|, issue);
      AllEdgeIssues(g.nodes, g.edges, |g.edges|, issue);
      JoinedAre(g);
      var nodes, edges := NodeIssues(g.nodes, |g.nodes|), EdgeIssues(Known(g.nodes), g.edges, |g.edges|);
      var cycle := When(Cyclic(RetainedArrows(g)), Cycle, "");
      InWhen(Cyclic(RetainedArrows(g)), Cycle, "", issue);
      InFour(issue, nodes, edges, cycle, []);
      NoneBehind(nodes + edges + cycle);
    }
  }

  lemma NoneBehind(a: seq<Issue>)
    ensures a + [] == a
  {
  }

  // ---------------------------------------------------------------- order

  /** The order in which the issues of one node or edge are reported. */
  function Rank(code: Code): nat
  {
    match code
    case EmptyGraph => 0
    case MissingNodeId => 1
    case DuplicateNode => 2
    case MissingRelease => 3
    case MissingAction => 4
    case MissingHostGroup => 5
    case DuplicateEdge => 6
    case InvalidEdgeKind => 7
    case MissingEdgeDependency => 8
    case UnexpectedEdgeDependency => 9
    case MissingEdgeSource => 10
    case MissingEdgeTarget => 11
    case SelfEdge => 12
    case DuplicateEdgePair => 13
    case Cycle => 14
  }

  ghost predicate Ordered(issues: seq<Issue>)
  {
    forall i, j | 0 <= i < j < |issues| :: Rank(issues[i].code) < Rank(issues[j].code)
  }

  /** What is wrong with one node or edge is reported once each and in this order. */
  lemma IssuesAreOrdered(nodes: seq<Node>, known: set<string>, edges: seq<Edge>, i: nat)
    ensures i < |nodes| ==> Ordered(NodeIssuesAt(nodes, i))
    ensures i < |edges| ==> Ordered(EdgeIssuesAt(known, edges, i))
  {
    hide Known, EdgeIds, RetainedPairs, Blank, Pair;
    if i < |nodes| {
      NodeIssuesOrdered(nodes, i);
    }
    if i < |edges| {
      EdgeIssuesOrdered(known, edges, i);
    }
  }

  lemma Appended(a: seq<Issue>, c: bool, code: Code, nodeId: string)
    requires Ordered(a) && forall i | 0 <= i < |a| :: Rank(a[i].code) < Rank(code)
    ensures Ordered(a + When(c, code, nodeId))
    ensures forall i | 0 <= i < |a + When(c, code, nodeId)| :: Rank((a + When(c, code, nodeId))[i].code) <= Rank(code)
  {
  }

  lemma NodeIssuesOrdered(nodes: seq<Node>, i: nat)
    requires i < |nodes|
    ensures Ordered(NodeIssuesAt(nodes, i))
  {
    hide Known, Blank, When, Ordered;
    var n := nodes[i];
    var a := When(n.id in Known(nodes[..i]), DuplicateNode, n.id);
    var b := a + When(n.releaseId == "", MissingRelease, n.id);
    var c := b + When(n.action == "", MissingAction, n.id);
    NothingOrdered(Issue(MissingNodeId, ""));
    Appended([], n.id in Known(nodes[..i]), DuplicateNode, n.id);
    assert [] + a == a;
    Appended(a, n.releaseId == "", MissingRelease, n.id);
    Appended(b, n.action == "", MissingAction, n.id);
    Appended(c, n.hostGroup == "", MissingHostGroup, n.id);
  }

  lemma NothingOrdered(issue: Issue)
    ensures Ordered([]) && Ordered([issue])
  {
  }

  lemma EdgeIssuesOrdered(known: set<string>, edges: seq<Edge>, i: nat)
    requires i < |edges|
    ensures Ordered(EdgeIssuesAt(known, edges, i))
  {
    hide EdgeIds, RetainedPairs, Blank, When, Ordered, EndpointIssues;
    var e := edges[i];
    var duplicate := e.id != "" && e.id in EdgeIds(edges[..i]);
    var missing := e.kind.DependencyKind? && Blank(e.dependencyId);
    var unexpected := e.kind.SequenceKind? && !Blank(e.dependencyId);
    var a := When(duplicate, DuplicateEdge, "");
    var b := a + When(e.kind.UnknownKind?, InvalidEdgeKind, "");
    var c := b + When(missing, MissingEdgeDependency, "");
    var d := c + When(unexpected, UnexpectedEdgeDependency, "");
    NothingOrdered(Issue(EmptyGraph, ""));
    Appended([], duplicate, DuplicateEdge, "");
    assert [] + a == a;
    Appended(a, e.kind.UnknownKind?, InvalidEdgeKind, "");
    Appended(b, missing, MissingEdgeDependency, "");
    Appended(c, unexpected, UnexpectedEdgeDependency, "");
    EndpointIssueIsOne(known, RetainedPairs(known, edges[..i]), e);
    LastOrdered(d, EndpointIssues(known, RetainedPairs(known, edges[..i]), e));
  }

  lemma EndpointIssueIsOne(known: set<string>, pairs: set<string>, e: Edge)
    ensures |EndpointIssues(known, pairs, e)| <= 1
    ensures forall issue | issue in EndpointIssues(known, pairs, e) :: Rank(issue.code) >= 10
  {
    hide Pair;
  }

  lemma LastOrdered(a: seq<Issue>, b: seq<Issue>)
    requires Ordered(a) && (forall i | 0 <= i < |a| :: Rank(a[i].code) <= 9)
    requires |b| <= 1 && forall issue | issue in b :: Rank(issue.code) >= 10
    ensures Ordered(a + b)
  {
    assert forall i | 0 <= i < |b| :: b[i] in b;
  }
}
