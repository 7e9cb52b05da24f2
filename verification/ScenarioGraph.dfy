/** Validation of a scenario graph (internal/domain/domain.go:573-673): the exact list of issues,
    with cycles found by counting and retiring incoming edges. */
module ScenarioGraph {
  import opened Walks

  datatype Node = Node(id: string, releaseId: string, action: string, hostGroup: string)

  datatype EdgeKind = DependencyKind | SequenceKind | UnknownKind

  datatype Edge = Edge(id: string, source: string, target: string, kind: EdgeKind, dependencyId: string)

  datatype Graph = Graph(nodes: seq<Node>, edges: seq<Edge>)

  datatype Code =
    | EmptyGraph | MissingNodeId | DuplicateNode | MissingRelease | MissingAction | MissingHostGroup
    | DuplicateEdge | InvalidEdgeKind | MissingEdgeDependency | UnexpectedEdgeDependency
    | MissingEdgeSource | MissingEdgeTarget | SelfEdge | DuplicateEdgePair | Cycle

  datatype Issue = Issue(code: Code, nodeId: string)

  /** What strings.TrimSpace removes. */
  predicate IsSpace(c: char)
  {
    || '\t' <= c <= '\r' || c == ' ' || c == '\U{0085}' || c == '\U{00A0}' || c == '\U{1680}'
    || '\U{2000}' <= c <= '\U{200A}' || c == '\U{2028}' || c == '\U{2029}' || c == '\U{202F}'
    || c == '\U{205F}' || c == '\U{3000}'
  }

  predicate Blank(s: string)
  {
    forall i | 0 <= i < |s| :: IsSpace(s[i])
  }

  function When(c: bool, code: Code, nodeId: string): seq<Issue>
  {
    if c then [Issue(code, nodeId)] else []
  }

  lemma InTurn(before: seq<Issue>, a: seq<Issue>, b: seq<Issue>, c: seq<Issue>, d: seq<Issue>)
    ensures before + a + b + c + d == before + (a + b + c + d)
  {
  }

  // ---------------------------------------------------------------- nodes

  function Known(nodes: seq<Node>): set<string>
  {
    set i | 0 <= i < |nodes| && !Blank(nodes[i].id) :: nodes[i].id
  }

  function NodeIssuesAt(nodes: seq<Node>, i: nat): seq<Issue>
    requires i < |nodes|
  {
    var n := nodes[i];
    if Blank(n.id) then [Issue(MissingNodeId, "")]
    else
      When(n.id in Known(nodes[..i]), DuplicateNode, n.id)
      + When(n.releaseId == "", MissingRelease, n.id)
      + When(n.action == "", MissingAction, n.id)
      + When(n.hostGroup == "", MissingHostGroup, n.id)
  }

  function NodeIssues(nodes: seq<Node>, n: nat): seq<Issue>
    requires n <= |nodes|
  {
    if n == 0 then [] else NodeIssues(nodes, n - 1) + NodeIssuesAt(nodes, n - 1)
  }

  lemma KnownOneMore(nodes: seq<Node>, i: nat)
    requires i < |nodes|
    ensures Known(nodes[..i + 1]) == if Blank(nodes[i].id) then Known(nodes[..i]) else Known(nodes[..i]) + {nodes[i].id}
  {
    var before, after := nodes[..i], nodes[..i + 1];
    hide Blank;
    forall x | x in Known(before)
      ensures x in Known(after)
    {
      var j :| 0 <= j < i && !Blank(before[j].id) && before[j].id == x;
      assert after[j] == before[j];
    }
    assert after[i] == nodes[i];
    assert forall j | 0 <= j < i :: after[j] == before[j];
  }

  method ValidateNodes(nodes: seq<Node>) returns (known: set<string>, issues: seq<Issue>)
    ensures known == Known(nodes) && issues == NodeIssues(nodes, |nodes|)
  {
    hide Known, Blank, When;
    known, issues := {}, [];
    KnownNone();
    assert nodes[..0] == [];
    for i := 0 to |nodes|
      invariant known == Known(nodes[..i]) && issues == NodeIssues(nodes, i)
    {
      KnownOneMore(nodes, i);
      var n := nodes[i];
      if Blank(n.id) {
        issues := issues + [Issue(MissingNodeId, "")];
        continue;
      }
      ghost var before := issues;
      issues := issues + When(n.id in known, DuplicateNode, n.id);
      known := known + {n.id};
      issues := issues + When(n.releaseId == "", MissingRelease, n.id);
      issues := issues + When(n.action == "", MissingAction, n.id);
      issues := issues + When(n.hostGroup == "", MissingHostGroup, n.id);
      InTurn(before, When(n.id in Known(nodes[..i]), DuplicateNode, n.id),
        When(n.releaseId == "", MissingRelease, n.id),
        When(n.action == "", MissingAction, n.id), When(n.hostGroup == "", MissingHostGroup, n.id));
    }
    assert nodes[..|nodes|] == nodes;
  }

  lemma KnownNone()
    ensures Known([]) == {}
  {
  }

  // ---------------------------------------------------------------- edges

  predicate Retained(known: set<string>, e: Edge)
  {
    e.source in known && e.target in known && e.source != e.target
  }

  function Pair(e: Edge): string
  {
    e.source + ['\0'] + e.target
  }

  function EdgeIds(edges: seq<Edge>): set<string>
  {
    set i | 0 <= i < |edges| :: edges[i].id
  }

  function RetainedPairs(known: set<string>, edges: seq<Edge>): set<string>
  {
    set i | 0 <= i < |edges| && Retained(known, edges[i]) :: Pair(edges[i])
  }

  function EndpointIssues(known: set<string>, pairs: set<string>, e: Edge): seq<Issue>
  {
    if e.source !in known then [Issue(MissingEdgeSource, e.source)]
    else if e.target !in known then [Issue(MissingEdgeTarget, e.target)]
    else if e.source == e.target then [Issue(SelfEdge, e.source)]
    else When(Pair(e) in pairs, DuplicateEdgePair, e.target)
  }

  function EdgeIssuesAt(known: set<string>, edges: seq<Edge>, i: nat): seq<Issue>
    requires i < |edges|
  {
    var e := edges[i];
    When(e.id != "" && e.id in EdgeIds(edges[..i]), DuplicateEdge, "")
    + When(e.kind.UnknownKind?, InvalidEdgeKind, "")
    + When(e.kind.DependencyKind? && Blank(e.dependencyId), MissingEdgeDependency, "")
    + When(e.kind.SequenceKind? && !Blank(e.dependencyId), UnexpectedEdgeDependency, "")
    + EndpointIssues(known, RetainedPairs(known, edges[..i]), e)
  }

  function EdgeIssues(known: set<string>, edges: seq<Edge>, n: nat): seq<Issue>
    requires n <= |edges|
  {
    if n == 0 then [] else EdgeIssues(known, edges, n - 1) + EdgeIssuesAt(known, edges, n - 1)
  }

  lemma EdgeIssuesInTurn(known: set<string>, edges: seq<Edge>, i: nat, before: seq<Issue>, issues: seq<Issue>)
    requires i < |edges|
    requires
      var e := edges[i];
      issues == before + (When(e.id != "" && e.id in EdgeIds(edges[..i]), DuplicateEdge, "")
        + When(e.kind.UnknownKind?, InvalidEdgeKind, "")
        + When(e.kind.DependencyKind? && Blank(e.dependencyId), MissingEdgeDependency, "")
        + When(e.kind.SequenceKind? && !Blank(e.dependencyId), UnexpectedEdgeDependency, ""))
    ensures issues + EndpointIssues(known, RetainedPairs(known, edges[..i]), edges[i])
      == before + EdgeIssuesAt(known, edges, i)
  {
    hide When, EndpointIssues, Blank, EdgeIds, RetainedPairs;
  }

  /** The retained edges as pairs of node ids, duplicates counted. */
  function Kept(known: set<string>, edges: seq<Edge>): seq<(string, string)>
  {
    if edges == [] then []
    else
      var e := edges[|edges| - 1];
      var before := Kept(known, edges[..|edges| - 1]);
      if Retained(known, e) then before + [(e.source, e.target)] else before
  }

  function Targets(kept: seq<(string, string)>, id: string): seq<string>
  {
    if kept == [] then []
    else
      var before := Targets(kept[..|kept| - 1], id);
      if kept[|kept| - 1].0 == id then before + [kept[|kept| - 1].1] else before
  }

  /** How many retained edges enter a node from outside a set of nodes. */
  function Incoming(kept: seq<(string, string)>, done: set<string>, id: string): nat
  {
    if kept == [] then 0
    else
      var last := kept[|kept| - 1];
      Incoming(kept[..|kept| - 1], done, id) + (if last.1 == id && last.0 !in done then 1 else 0)
  }

  function Lookup(adjacent: map<string, seq<string>>, id: string): seq<string>
  {
    if id in adjacent then adjacent[id] else []
  }

  ghost predicate Tabled(known: set<string>, kept: seq<(string, string)>, adjacent: map<string, seq<string>>,
      indegree: map<string, int>)
  {
    && (forall id :: Lookup(adjacent, id) == Targets(kept, id))
    && indegree.Keys == known
    && forall id | id in known :: indegree[id] == Incoming(kept, {}, id)
  }

  lemma OneMoreKept(kept: seq<(string, string)>, s: string, t: string, id: string)
    ensures Targets(kept + [(s, t)], id) == if id == s then Targets(kept, id) + [t] else Targets(kept, id)
    ensures Incoming(kept + [(s, t)], {}, id) == Incoming(kept, {}, id) + if id == t then 1 else 0
  {
    var more := kept + [(s, t)];
    assert more[..|more| - 1] == kept && more[|more| - 1] == (s, t);
  }

  lemma TabledOneMore(known: set<string>, kept: seq<(string, string)>, adjacent: map<string, seq<string>>,
      indegree: map<string, int>, s: string, t: string)
    requires Tabled(known, kept, adjacent, indegree) && t in known
    ensures Tabled(known, kept + [(s, t)], adjacent[s := Lookup(adjacent, s) + [t]], indegree[t := indegree[t] + 1])
  {
    hide Targets, Incoming;
    forall id
      ensures Lookup(adjacent[s := Lookup(adjacent, s) + [t]], id) == Targets(kept + [(s, t)], id)
      ensures id in known ==> indegree[t := indegree[t] + 1][id] == Incoming(kept + [(s, t)], {}, id)
    {
      OneMoreKept(kept, s, t, id);
    }
  }

  method ValidateEdges(known: set<string>, edges: seq<Edge>)
      returns (issues: seq<Issue>, adjacent: map<string, seq<string>>, indegree: map<string, int>)
    ensures issues == EdgeIssues(known, edges, |edges|)
    ensures Tabled(known, Kept(known, edges), adjacent, indegree)
  {
    hide Tabled, Blank, EdgeIds, RetainedPairs, Pair, When, EdgeIssuesAt;
    issues, adjacent := [], map[];
    indegree := map id | id in known :: 0;
    var edgeIds: set<string>, edgePairs: set<string> := {}, {};
    NothingTabled(known, indegree);
    assert edges[..0] == [];
    for i := 0 to |edges|
      invariant issues == EdgeIssues(known, edges, i)
      invariant Tabled(known, Kept(known, edges[..i]), adjacent, indegree)
      invariant edgeIds == EdgeIds(edges[..i]) && edgePairs == RetainedPairs(known, edges[..i])
    {
      SetsOneMore(known, edges, i);
      KeptOneMore(known, edges, i);
      var e := edges[i];
      ghost var before := issues;
      issues := issues + When(e.id != "" && e.id in edgeIds, DuplicateEdge, "");
      edgeIds := edgeIds + {e.id};
      issues := issues + When(e.kind.UnknownKind?, InvalidEdgeKind, "");
      issues := issues + When(e.kind.DependencyKind? && Blank(e.dependencyId), MissingEdgeDependency, "");
      issues := issues + When(e.kind.SequenceKind? && !Blank(e.dependencyId), UnexpectedEdgeDependency, "");
      InTurn(before, When(e.id != "" && e.id in EdgeIds(edges[..i]), DuplicateEdge, ""),
        When(e.kind.UnknownKind?, InvalidEdgeKind, ""),
        When(e.kind.DependencyKind? && Blank(e.dependencyId), MissingEdgeDependency, ""),
        When(e.kind.SequenceKind? && !Blank(e.dependencyId), UnexpectedEdgeDependency, ""));
      EdgeIssuesInTurn(known, edges, i, before, issues);
      if e.source !in known {
        issues := issues + [Issue(MissingEdgeSource, e.source)];
        continue;
      }
      if e.target !in known {
        issues := issues + [Issue(MissingEdgeTarget, e.target)];
        continue;
      }
      if e.source == e.target {
        issues := issues + [Issue(SelfEdge, e.source)];
        continue;
      }
      issues := issues + When(Pair(e) in edgePairs, DuplicateEdgePair, e.target);
      edgePairs := edgePairs + {Pair(e)};
      TabledOneMore(known, Kept(known, edges[..i]), adjacent, indegree, e.source, e.target);
      IndegreeKeys(known, Kept(known, edges[..i]), adjacent, indegree);
      adjacent := adjacent[e.source := Lookup(adjacent, e.source) + [e.target]];
      indegree := indegree[e.target := indegree[e.target] + 1];
    }
    assert edges[..|edges|] == edges;
  }

  lemma IndegreeKeys(known: set<string>, kept: seq<(string, string)>, adjacent: map<string, seq<string>>,
      indegree: map<string, int>)
    requires Tabled(known, kept, adjacent, indegree)
    ensures indegree.Keys == known
  {
  }

  lemma NothingTabled(known: set<string>, indegree: map<string, int>)
    requires indegree == map id | id in known :: 0
    ensures Tabled(known, Kept(known, []), map[], indegree)
    ensures EdgeIds([]) == {} && RetainedPairs(known, []) == {}
  {
  }

  lemma KeptOneMore(known: set<string>, edges: seq<Edge>, i: nat)
    requires i < |edges|
    ensures Kept(known, edges[..i + 1]) == if Retained(known, edges[i])
      then Kept(known, edges[..i]) + [(edges[i].source, edges[i].target)] else Kept(known, edges[..i])
  {
    assert edges[..i + 1][..i] == edges[..i];
  }

  lemma SetsOneMore(known: set<string>, edges: seq<Edge>, i: nat)
    requires i < |edges|
    ensures EdgeIds(edges[..i + 1]) == EdgeIds(edges[..i]) + {edges[i].id}
    ensures RetainedPairs(known, edges[..i + 1]) == RetainedPairs(known, edges[..i])
      + (if Retained(known, edges[i]) then {Pair(edges[i])} else {})
  {
    var before, after := edges[..i], edges[..i + 1];
    hide Retained, Pair;
    assert after[i] == edges[i] && forall j | 0 <= j < i :: after[j] == before[j];
    forall x | x in EdgeIds(before)
      ensures x in EdgeIds(after)
    {
      var j :| 0 <= j < i && before[j].id == x;
      assert after[j] == before[j];
    }
    forall x | x in RetainedPairs(known, before)
      ensures x in RetainedPairs(known, after)
    {
      var j :| 0 <= j < i && Retained(known, before[j]) && Pair(before[j]) == x;
      assert after[j] == before[j];
    }
  }

  // ---------------------------------------------------------------- retiring edges

  ghost function ArrowsIn(kept: seq<(string, string)>): Arrows
  {
    set i | 0 <= i < |kept| :: kept[i]
  }

  ghost predicate Within(known: set<string>, kept: seq<(string, string)>)
  {
    forall i | 0 <= i < |kept| :: kept[i].0 in known && kept[i].1 in known
  }

  lemma {:induction false} NoneIncoming(kept: seq<(string, string)>, done: set<string>, id: string)
    ensures Incoming(kept, done, id) == 0 <==> forall s | (s, id) in ArrowsIn(kept) :: s in done
  {
    if kept != [] {
      var rest, last := kept[..|kept| - 1], kept[|kept| - 1];
      NoneIncoming(rest, done, id);
      assert ArrowsIn(kept) == ArrowsIn(rest) + {last} by { ArrowsInLast(kept); }
      hide ArrowsIn;
    }
  }

  lemma ArrowsInLast(kept: seq<(string, string)>)
    requires kept != []
    ensures ArrowsIn(kept) == ArrowsIn(kept[..|kept| - 1]) + {kept[|kept| - 1]}
  {
    var rest := kept[..|kept| - 1];
    forall x | x in ArrowsIn(rest)
      ensures x in ArrowsIn(kept)
    {
      var i :| 0 <= i < |rest| && rest[i] == x;
      assert kept[i] == x;
    }
  }

  /** Retiring a node takes exactly its own edges off the count of every target. */
  lemma {:induction false} RetireOne(kept: seq<(string, string)>, done: set<string>, id: string, v: string)
    requires id !in done
    ensures Incoming(kept, done, v) == Incoming(kept, done + {id}, v) + multiset(Targets(kept, id))[v]
  {
    if kept != [] {
      RetireOne(kept[..|kept| - 1], done, id, v);
    }
  }

  lemma {:induction false} TargetsWithin(known: set<string>, kept: seq<(string, string)>, id: string)
    requires Within(known, kept)
    ensures forall t | t in Targets(kept, id) :: t in known
  {
    if kept != [] {
      TargetsWithin(known, kept[..|kept| - 1], id);
    }
  }

  ghost predicate Counted(known: set<string>, kept: seq<(string, string)>, done: set<string>, pending: seq<string>,
      indegree: map<string, int>)
  {
    indegree.Keys == known && forall v | v in known :: indegree[v] == Incoming(kept, done, v) + multiset(pending)[v]
  }

  ghost predicate Distinct(queue: seq<string>)
  {
    forall i, j | 0 <= i < j < |queue| :: queue[i] != queue[j]
  }

  ghost predicate Queued(known: set<string>, done: set<string>, queue: seq<string>, indegree: map<string, int>)
  {
    && indegree.Keys == known && Distinct(queue)
    && (forall q | q in queue :: q in known && q !in done)
    && forall v | v in known :: indegree[v] == 0 <==> v in done || v in queue
  }

  /** Retired nodes are numbered in the order of retirement, after all their predecessors. */
  ghost predicate Ranked(kept: seq<(string, string)>, done: set<string>, rank: map<string, int>)
  {
    && rank.Keys == done
    && (forall x | x in done :: rank[x] < |done|)
    && (forall x, y | x in done && y in done && x != y :: rank[x] != rank[y])
    && forall s, t | (s, t) in ArrowsIn(kept) && t in done :: s in done && rank[s] < rank[t]
  }

  lemma RankOneMore(kept: seq<(string, string)>, done: set<string>, rank: map<string, int>, id: string)
    requires Ranked(kept, done, rank) && id !in done && Incoming(kept, done, id) == 0
    ensures Ranked(kept, done + {id}, rank[id := |done|])
  {
    NoneIncoming(kept, done, id);
    hide ArrowsIn, Incoming;
  }

  lemma CountOneMore(known: set<string>, kept: seq<(string, string)>, done: set<string>, id: string,
      indegree: map<string, int>)
    requires Counted(known, kept, done, [], indegree) && id !in done
    ensures Counted(known, kept, done + {id}, Targets(kept, id), indegree)
  {
    hide Incoming, Targets;
    forall v | v in known
      ensures indegree[v] == Incoming(kept, done + {id}, v) + multiset(Targets(kept, id))[v]
    {
      RetireOne(kept, done, id, v);
    }
  }

  lemma PendingOneLess(known: set<string>, kept: seq<(string, string)>, done: set<string>, pending: seq<string>,
      indegree: map<string, int>)
    requires Counted(known, kept, done, pending, indegree) && pending != [] && pending[0] in known
    ensures indegree[pending[0]] > 0
    ensures Counted(known, kept, done, pending[1..], indegree[pending[0] := indegree[pending[0]] - 1])
  {
    hide Incoming;
    assert pending == [pending[0]] + pending[1..];
  }

  lemma QueueOneMore(known: set<string>, done: set<string>, queue: seq<string>, indegree: map<string, int>,
      next: string)
    requires Queued(known, done, queue, indegree) && next in known && indegree[next] > 0
    ensures
      var degree := indegree[next] - 1;
      Queued(known, done, if degree == 0 then queue + [next] else queue, indegree[next := degree])
  {
  }

  lemma QueueOneLess(known: set<string>, done: set<string>, queue: seq<string>, indegree: map<string, int>)
    requires Queued(known, done, queue, indegree) && queue != []
    ensures Queued(known, done + {queue[0]}, queue[1..], indegree) && queue[0] in known && queue[0] !in done
      && indegree[queue[0]] == 0
  {
    assert queue == [queue[0]] + queue[1..];
    assert forall q | q in queue[1..] :: q in queue;
    forall q | q in queue[1..]
      ensures q != queue[0]
    {
      var i :| 0 <= i < |queue| - 1 && queue[1..][i] == q;
      assert queue[i + 1] == q;
    }
  }

  lemma AllRetired(known: set<string>, kept: seq<(string, string)>, done: set<string>, rank: map<string, int>)
    requires Within(known, kept) && done == known && Ranked(kept, done, rank)
    ensures Ascends(ArrowsIn(kept), rank) && !Cyclic(ArrowsIn(kept))
  {
    AscendingIsAcyclic(ArrowsIn(kept), rank);
    hide Cyclic;
  }

  lemma SomeLeft(known: set<string>, kept: seq<(string, string)>, done: set<string>, indegree: map<string, int>)
    requires Within(known, kept) && done <= known && done != known
    requires Counted(known, kept, done, [], indegree) && Queued(known, done, [], indegree)
    ensures Cyclic(ArrowsIn(kept))
  {
    hide Incoming, Cyclic;
    var left := known - done;
    forall x | x in left
      ensures HasPredecessor(ArrowsIn(kept), left, x)
    {
      NoneIncoming(kept, done, x);
      assert indegree[x] != 0;
      var s :| (s, x) in ArrowsIn(kept) && s !in done;
      assert s in left;
    }
    hide HasPredecessor;
    var y :| y in known && y !in done;
    assert y in left;
    EnteredIsCyclic(ArrowsIn(kept), left);
  }

  method InitialQueue(known: set<string>, indegree: map<string, int>) returns (queue: seq<string>)
    requires indegree.Keys == known
    ensures Queued(known, {}, queue, indegree)
  {
    queue := [];
    var ids := known;
    while ids != {}
      invariant ids <= known && Distinct(queue)
      invariant forall q | q in queue :: q in known && q !in ids
      invariant forall v | v in known && v !in ids :: indegree[v] == 0 <==> v in queue
      decreases ids
    {
      var id :| id in ids;
      ids := ids - {id};
      if indegree[id] == 0 {
        queue := queue + [id];
      }
    }
  }

  method CountRetired(known: set<string>, ghost kept: seq<(string, string)>, adjacent: map<string, seq<string>>,
      degrees: map<string, int>)
      returns (visited: nat, ghost rank: map<string, int>)
    requires Tabled(known, kept, adjacent, degrees) && Within(known, kept)
    ensures visited == |known| <==> !Cyclic(ArrowsIn(kept))
    ensures visited == |known| ==> Ranked(kept, known, rank)
  {
    hide Cyclic, ArrowsIn, Incoming, Targets, Ranked, Within, Tabled, Counted, Queued, Lookup;
    TabledIsCounted(known, kept, adjacent, degrees);
    var indegree := degrees;
    var queue := InitialQueue(known, indegree);
    visited, rank := 0, map[];
    ghost var done: set<string> := {};
    NoneRanked(kept);
    while queue != []
      invariant Counted(known, kept, done, [], indegree) && Queued(known, done, queue, indegree)
      invariant Ranked(kept, done, rank) && visited == |done| && done <= known
      decreases known - done
    {
      var id := queue[0];
      QueueKeys(known, done, queue, indegree);
      QueueOneLess(known, done, queue, indegree);
      IsCounted(known, kept, done, indegree, id);
      RankOneMore(kept, done, rank, id);
      CountOneMore(known, kept, done, id, indegree);
      queue := queue[1..];
      rank := rank[id := |done|];
      done := done + {id};
      visited := visited + 1;
      TargetsWithin(known, kept, id);
      TabledTargets(known, kept, adjacent, degrees, id);
      var targets := Lookup(adjacent, id);
      assert targets[0..] == targets;
      for k := 0 to |targets|
        invariant Counted(known, kept, done, targets[k..], indegree) && Queued(known, done, queue, indegree)
      {
        var next := targets[k];
        FirstOfRest(targets, k);
        QueueKeys(known, done, queue, indegree);
        PendingOneLess(known, kept, done, targets[k..], indegree);
        QueueOneMore(known, done, queue, indegree, next);
        indegree := indegree[next := indegree[next] - 1];
        if indegree[next] == 0 {
          queue := queue + [next];
        }
      }
      assert targets[|targets|..] == [];
    }
    if visited == |known| {
      SameSize(done, known);
      AllRetired(known, kept, done, rank);
    } else {
      SomeLeft(known, kept, done, indegree);
    }
  }

  lemma TabledIsCounted(known: set<string>, kept: seq<(string, string)>, adjacent: map<string, seq<string>>,
      indegree: map<string, int>)
    requires Tabled(known, kept, adjacent, indegree)
    ensures Counted(known, kept, {}, [], indegree) && indegree.Keys == known
  {
    hide Incoming, Targets;
  }

  lemma TabledTargets(known: set<string>, kept: seq<(string, string)>, adjacent: map<string, seq<string>>,
      indegree: map<string, int>, id: string)
    requires Tabled(known, kept, adjacent, indegree)
    ensures Lookup(adjacent, id) == Targets(kept, id)
  {
    hide Incoming, Targets, Lookup;
  }

  lemma FirstOfRest(s: seq<string>, k: nat)
    requires k < |s|
    ensures s[k..] != [] && s[k..][0] == s[k] && s[k..][1..] == s[k + 1..] && s[k] in s
  {
  }

  lemma QueueKeys(known: set<string>, done: set<string>, queue: seq<string>, indegree: map<string, int>)
    requires Queued(known, done, queue, indegree)
    ensures indegree.Keys == known
  {
  }

  lemma IsCounted(known: set<string>, kept: seq<(string, string)>, done: set<string>, indegree: map<string, int>,
      id: string)
    requires Counted(known, kept, done, [], indegree) && id in known && id in indegree && indegree[id] == 0
    ensures Incoming(kept, done, id) == 0
  {
  }

  lemma NoneRanked(kept: seq<(string, string)>)
    ensures Ranked(kept, {}, map[])
  {
  }

  lemma SameSize(a: set<string>, b: set<string>)
    requires a <= b && |a| == |b|
    ensures a == b
  {
    assert b == a + (b - a);
    assert |b| == |a| + |b - a|;
  }

  // ---------------------------------------------------------------- the whole validation

  ghost function RetainedArrows(g: Graph): Arrows
  {
    set i | 0 <= i < |g.edges| && Retained(Known(g.nodes), g.edges[i]) :: (g.edges[i].source, g.edges[i].target)
  }

  ghost function IssuesOf(g: Graph): seq<Issue>
  {
    if g.nodes == [] then [Issue(EmptyGraph, "")]
    else
      NodeIssues(g.nodes, |g.nodes|) + EdgeIssues(Known(g.nodes), g.edges, |g.edges|)
      + When(Cyclic(RetainedArrows(g)), Cycle, "")
  }

  /** Every node once, every retained edge forwards. */
  ghost predicate Topological(g: Graph, rank: map<string, int>)
  {
    && rank.Keys == Known(g.nodes)
    && (forall x, y | x in rank && y in rank && x != y :: rank[x] != rank[y])
    && Ascends(RetainedArrows(g), rank)
  }

  lemma {:induction false} KeptArrows(known: set<string>, edges: seq<Edge>)
    ensures ArrowsIn(Kept(known, edges)) == set i | 0 <= i < |edges| && Retained(known, edges[i]) ::
      (edges[i].source, edges[i].target)
    ensures Within(known, Kept(known, edges))
  {
    if edges != [] {
      var rest, last := edges[..|edges| - 1], edges[|edges| - 1];
      KeptArrows(known, rest);
      var kept := Kept(known, edges);
      if Retained(known, last) {
        ArrowsInLast(kept);
        assert kept[..|kept| - 1] == Kept(known, rest);
      }
      hide Retained, ArrowsIn, Kept, Within;
      forall i | 0 <= i < |rest| && Retained(known, rest[i])
        ensures (rest[i].source, rest[i].target) in set j | 0 <= j < |edges| && Retained(known, edges[j]) ::
          (edges[j].source, edges[j].target)
      {
        assert edges[i] == rest[i];
      }
    }
  }

  method ValidateGraph(g: Graph) returns (issues: seq<Issue>)
    ensures issues == IssuesOf(g)
    ensures issues == [] ==> exists rank :: Topological(g, rank)
  {
    hide Cyclic, Tabled, Known, ArrowsIn, Kept, Within, NodeIssues, EdgeIssues, Ranked;
    if |g.nodes| == 0 {
      return [Issue(EmptyGraph, "")];
    }
    var known, nodeIssues := ValidateNodes(g.nodes);
    var edgeIssues, adjacent, indegree := ValidateEdges(known, g.edges);
    issues := nodeIssues + edgeIssues;
    ghost var kept := Kept(known, g.edges);
    KeptArrows(known, g.edges);
    assert ArrowsIn(kept) == RetainedArrows(g);
    var visited, rank := CountRetired(known, kept, adjacent, indegree);
    if visited != |known| {
      issues := issues + [Issue(Cycle, "")];
    } else {
      RankIsTopological(g, kept, rank);
    }
  }

  lemma RankIsTopological(g: Graph, kept: seq<(string, string)>, rank: map<string, int>)
    requires Ranked(kept, Known(g.nodes), rank) && Within(Known(g.nodes), kept) && ArrowsIn(kept) == RetainedArrows(g)
    ensures Topological(g, rank)
  {
    hide Known, RetainedArrows;
    forall s, t | (s, t) in ArrowsIn(kept)
      ensures s in rank && t in rank && rank[s] < rank[t]
    {
      var i :| 0 <= i < |kept| && kept[i] == (s, t);
    }
    hide ArrowsIn, Within;
    assert Ascends(ArrowsIn(kept), rank);
  }

  // ---------------------------------------------------------------- what an empty list means

  ghost predicate SoundNode(nodes: seq<Node>, i: nat)
    requires i < |nodes|
  {
    var n := nodes[i];
    && !Blank(n.id) && n.releaseId != "" && n.action != "" && n.hostGroup != ""
    && forall j | 0 <= j < i :: nodes[j].id != n.id
  }

  ghost predicate SoundEdge(known: set<string>, edges: seq<Edge>, i: nat)
    requires i < |edges|
  {
    var e := edges[i];
    && (e.id == "" || forall j | 0 <= j < i :: edges[j].id != e.id)
    && (if e.kind.DependencyKind? then !Blank(e.dependencyId) else e.kind.SequenceKind? && Blank(e.dependencyId))
    && Retained(known, e)
    && forall j | 0 <= j < i && Retained(known, edges[j]) :: Pair(edges[j]) != Pair(e)
  }

  lemma SoundNodeHasNoIssue(nodes: seq<Node>, i: nat)
    requires i < |nodes|
    ensures NodeIssuesAt(nodes, i) == [] <==> SoundNode(nodes, i)
  {
    var n := nodes[i];
    hide Blank;
    if !Blank(n.id) {
      assert n.id in Known(nodes[..i]) <==> exists j | 0 <= j < i :: nodes[j].id == n.id by {
        if j :| 0 <= j < i && nodes[j].id == n.id {
          assert nodes[..i][j] == nodes[j];
        }
      }
    }
  }

  lemma SoundEdgeHasNoIssue(known: set<string>, edges: seq<Edge>, i: nat)
    requires i < |edges|
    ensures EdgeIssuesAt(known, edges, i) == [] <==> SoundEdge(known, edges, i)
  {
    var e, before := edges[i], edges[..i];
    assert e.id in EdgeIds(before) <==> exists j | 0 <= j < i :: edges[j].id == e.id by {
      if j :| 0 <= j < i && edges[j].id == e.id {
        assert before[j] == edges[j];
      }
    }
    assert Pair(e) in RetainedPairs(known, before) <==> exists j | 0 <= j < i && Retained(known, edges[j]) ::
      Pair(edges[j]) == Pair(e) by {
      if j :| 0 <= j < i && Retained(known, edges[j]) && Pair(edges[j]) == Pair(e) {
        assert before[j] == edges[j];
      }
    }
    hide EdgeIds, RetainedPairs, Blank, Pair;
  }

  lemma BothEmpty(a: seq<Issue>, b: seq<Issue>)
    ensures a + b == [] <==> a == [] && b == []
  {
    assert |a + b| == |a| + |b|;
  }

  lemma {:induction false} NoNodeIssues(nodes: seq<Node>, n: nat)
    requires n <= |nodes|
    ensures NodeIssues(nodes, n) == [] <==> forall i | 0 <= i < n :: SoundNode(nodes, i)
  {
    hide NodeIssuesAt, SoundNode;
    if n > 0 {
      NoNodeIssues(nodes, n - 1);
      SoundNodeHasNoIssue(nodes, n - 1);
      BothEmpty(NodeIssues(nodes, n - 1), NodeIssuesAt(nodes, n - 1));
    }
  }

  lemma {:induction false} NoEdgeIssues(known: set<string>, edges: seq<Edge>, n: nat)
    requires n <= |edges|
    ensures EdgeIssues(known, edges, n) == [] <==> forall i | 0 <= i < n :: SoundEdge(known, edges, i)
  {
    hide EdgeIssuesAt, SoundEdge;
    if n > 0 {
      NoEdgeIssues(known, edges, n - 1);
      SoundEdgeHasNoIssue(known, edges, n - 1);
      BothEmpty(EdgeIssues(known, edges, n - 1), EdgeIssuesAt(known, edges, n - 1));
    }
  }

  ghost predicate SoundGraph(g: Graph)
  {
    && g.nodes != []
    && (forall i | 0 <= i < |g.nodes| :: SoundNode(g.nodes, i))
    && (forall i | 0 <= i < |g.edges| :: SoundEdge(Known(g.nodes), g.edges, i))
    && !Cyclic(RetainedArrows(g))
  }

  /** Nothing is reported exactly for a sound graph, and a cycle exactly for a cyclic one. */
  lemma IssuesAreExact(g: Graph)
    ensures IssuesOf(g) == [] <==> SoundGraph(g)
    ensures g.nodes != [] ==> (Issue(Cycle, "") in IssuesOf(g) <==> Cyclic(RetainedArrows(g)))
  {
    NoNodeIssues(g.nodes, |g.nodes|);
    NoEdgeIssues(Known(g.nodes), g.edges, |g.edges|);
    NodesReportNoCycle(g.nodes, |g.nodes|);
    EdgesReportNoCycle(Known(g.nodes), g.edges, |g.edges|);
    hide NodeIssues, EdgeIssues, SoundNode, SoundEdge, Cyclic, RetainedArrows, Known;
  }

  ghost predicate NoCycleIn(issues: seq<Issue>)
  {
    forall i | 0 <= i < |issues| :: !issues[i].code.Cycle?
  }

  lemma NoCycleInBoth(a: seq<Issue>, b: seq<Issue>)
    requires NoCycleIn(a) && NoCycleIn(b)
    ensures NoCycleIn(a + b)
  {
  }

  lemma NoCycleWhen(c: bool, code: Code, nodeId: string)
    requires !code.Cycle?
    ensures NoCycleIn(When(c, code, nodeId))
  {
  }

  lemma NoCycleInFour(a: seq<Issue>, b: seq<Issue>, c: seq<Issue>, d: seq<Issue>)
    requires NoCycleIn(a) && NoCycleIn(b) && NoCycleIn(c) && NoCycleIn(d)
    ensures NoCycleIn(a + b + c + d)
  {
    hide NoCycleIn;
    NoCycleInBoth(a, b);
    NoCycleInBoth(a + b, c);
    NoCycleInBoth(a + b + c, d);
  }

  lemma NodeReportsNoCycle(nodes: seq<Node>, i: nat)
    requires i < |nodes|
    ensures NoCycleIn(NodeIssuesAt(nodes, i))
  {
    hide Known, Blank, When;
    var n := nodes[i];
    var a, b := When(n.id in Known(nodes[..i]), DuplicateNode, n.id), When(n.releaseId == "", MissingRelease, n.id);
    var c, d := When(n.action == "", MissingAction, n.id), When(n.hostGroup == "", MissingHostGroup, n.id);
    NoCycleWhen(n.id in Known(nodes[..i]), DuplicateNode, n.id);
    NoCycleWhen(n.releaseId == "", MissingRelease, n.id);
    NoCycleWhen(n.action == "", MissingAction, n.id);
    NoCycleWhen(n.hostGroup == "", MissingHostGroup, n.id);
    NoCycleInFour(a, b, c, d);
  }

  lemma EndpointsReportNoCycle(known: set<string>, pairs: set<string>, e: Edge)
    ensures NoCycleIn(EndpointIssues(known, pairs, e))
  {
    hide Pair;
  }

  lemma EdgeReportsNoCycle(known: set<string>, edges: seq<Edge>, i: nat)
    requires i < |edges|
    ensures NoCycleIn(EdgeIssuesAt(known, edges, i))
  {
    hide EdgeIds, RetainedPairs, Blank, When, EndpointIssues, NoCycleIn;
    var e := edges[i];
    var duplicate, missing := e.id != "" && e.id in EdgeIds(edges[..i]), e.kind.DependencyKind?
      && Blank(e.dependencyId);
    var unexpected := e.kind.SequenceKind? && !Blank(e.dependencyId);
    NoCycleWhen(duplicate, DuplicateEdge, "");
    NoCycleWhen(e.kind.UnknownKind?, InvalidEdgeKind, "");
    NoCycleWhen(missing, MissingEdgeDependency, "");
    NoCycleWhen(unexpected, UnexpectedEdgeDependency, "");
    NoCycleInFour(When(duplicate, DuplicateEdge, ""), When(e.kind.UnknownKind?, InvalidEdgeKind, ""),
      When(missing, MissingEdgeDependency, ""), When(unexpected, UnexpectedEdgeDependency, ""));
    var pairs := RetainedPairs(known, edges[..i]);
    EndpointsReportNoCycle(known, pairs, e);
    NoCycleInBoth(When(duplicate, DuplicateEdge, "") + When(e.kind.UnknownKind?, InvalidEdgeKind, "")
      + When(missing, MissingEdgeDependency, "") + When(unexpected, UnexpectedEdgeDependency, ""),
        EndpointIssues(known, pairs, e));
  }

  lemma {:induction false} NodesReportNoCycle(nodes: seq<Node>, n: nat)
    requires n <= |nodes|
    ensures NoCycleIn(NodeIssues(nodes, n))
  {
    hide NodeIssuesAt;
    if n > 0 {
      NodesReportNoCycle(nodes, n - 1);
      NodeReportsNoCycle(nodes, n - 1);
      NoCycleInBoth(NodeIssues(nodes, n - 1), NodeIssuesAt(nodes, n - 1));
    }
  }

  lemma {:induction false} EdgesReportNoCycle(known: set<string>, edges: seq<Edge>, n: nat)
    requires n <= |edges|
    ensures NoCycleIn(EdgeIssues(known, edges, n))
  {
    hide EdgeIssuesAt;
    if n > 0 {
      EdgesReportNoCycle(known, edges, n - 1);
      EdgeReportsNoCycle(known, edges, n - 1);
      NoCycleInBoth(EdgeIssues(known, edges, n - 1), EdgeIssuesAt(known, edges, n - 1));
    }
  }
}
