/** Which recovery stages a rollback may run (internal/ansible/job_scope_selection.go:7-38). */
module RollbackScope {
  import opened JobPlan

  datatype ScopeError = BadNodes | SkipsDependents | UnknownNode

  function Key(step: JobStep): string
  {
    step.componentId + "/" + step.nodeId
  }

  function Keys(stages: seq<JobStep>): set<string>
  {
    set k | 0 <= k < |stages| :: Key(stages[k])
  }

  predicate ProperNodes(nodes: seq<string>)
  {
    (forall i | 0 <= i < |nodes| :: nodes[i] != "") && forall i, j | 0 <= i < j < |nodes| :: nodes[i] != nodes[j]
  }

  /** The first n stages are exactly the stages of the requested nodes, and every requested node
      has one. */
  predicate Scope(stages: seq<JobStep>, nodes: seq<string>, n: nat)
  {
    && n <= |stages|
    && (forall k | 0 <= k < n :: Key(stages[k]) in nodes)
    && (forall k | n <= k < |stages| :: Key(stages[k]) !in nodes)
    && (forall i | 0 <= i < |nodes| :: nodes[i] in Keys(stages[..n]))
  }

  /** A requested stage depends on one that was not requested. */
  ghost predicate Skips(stages: seq<JobStep>, nodes: seq<string>)
  {
    exists i, k :: 0 <= i < k < |stages| && Key(stages[i]) !in nodes && Key(stages[k]) in nodes
  }

  /** The stages a rollback restricted to `nodes` may run, None when the request is refused. */
  ghost function Selection(stages: seq<JobStep>, nodes: seq<string>): Option<seq<JobStep>>
  {
    if nodes == [] then Some(stages)
    else if ProperNodes(nodes) && exists n: nat :: Scope(stages, nodes, n) then
      var n: nat :| Scope(stages, nodes, n);
      Some(stages[..n])
    else None
  }

  method SelectRollbackStages(stages: seq<JobStep>, nodes: seq<string>) returns (r: Result<seq<JobStep>, ScopeError>)
    ensures nodes == [] ==> r == Success(stages)
    ensures nodes != [] ==> (r.Success? <==> ProperNodes(nodes) && exists n: nat :: Scope(stages, nodes, n))
    ensures nodes != [] && r.Success? ==> Scope(stages, nodes, |r.value|) && r.value == stages[..|r.value|]
    ensures nodes != [] ==> (r == Failure(BadNodes) <==> !ProperNodes(nodes))
    ensures nodes != [] ==> (r == Failure(SkipsDependents) <==> ProperNodes(nodes) && Skips(stages, nodes))
    ensures Selection(stages, nodes) == if r.Success? then Some(r.value) else None
  {
    if |nodes| == 0 {
      return Success(stages);
    }
    var requested: set<string> := {};
    for i := 0 to |nodes|
      invariant ProperNodes(nodes[..i])
      invariant requested == set k | 0 <= k < i :: nodes[k]
    {
      if nodes[i] == "" || nodes[i] in requested {
        return Failure(BadNodes);
      }
      requested := requested + {nodes[i]};
    }
    assert nodes[..|nodes|] == nodes;
    assert forall key :: key in requested <==> key in nodes;
    assert forall i | 0 <= i < |nodes| :: nodes[i] in requested;
    var selected: seq<JobStep> := [];
    var seen: set<string> := {};
    var omitted := false;
    for k := 0 to |stages|
      invariant |selected| <= k && selected == stages[..|selected|]
      invariant omitted <==> |selected| < k
      invariant forall i | 0 <= i < |selected| :: Key(stages[i]) in nodes
      invariant forall i | |selected| <= i < k :: Key(stages[i]) !in nodes
      invariant seen == Keys(stages[..|selected|]) && seen <= requested
    {
      var key := Key(stages[k]);
      if key !in requested {
        omitted := true;
      } else if omitted {
        NoScope(stages, nodes, |selected|, k);
        return Failure(SkipsDependents);
      } else {
        KeysGrow(stages, k);
        seen := seen + {key};
        selected := selected + [stages[k]];
      }
    }
    OnlyScope(stages, nodes, |selected|);
    SizesAgree(seen, requested);
    if |seen| != |requested| {
      assert !Scope(stages, nodes, |selected|) by {
        var missing :| missing in requested && missing !in seen;
        assert missing in nodes;
      }
      return Failure(UnknownNode);
    }
    assert Scope(stages, nodes, |selected|);
    return Success(selected);
  }

  lemma NoScope(stages: seq<JobStep>, nodes: seq<string>, i: nat, k: nat)
    requires i < k < |stages| && Key(stages[i]) !in nodes && Key(stages[k]) in nodes
    ensures forall n: nat :: !Scope(stages, nodes, n)
  {
  }

  lemma KeysGrow(stages: seq<JobStep>, n: nat)
    requires n < |stages|
    ensures Keys(stages[..n + 1]) == Keys(stages[..n]) + {Key(stages[n])}
  {
    var more, less := stages[..n + 1], stages[..n];
    assert forall k | 0 <= k < n :: more[k] == less[k];
    assert more[n] == stages[n];
  }

  /** A scope is determined by where the requested stages stop. */
  lemma OnlyScope(stages: seq<JobStep>, nodes: seq<string>, n: nat)
    requires n <= |stages|
    requires forall k | 0 <= k < n :: Key(stages[k]) in nodes
    requires forall k | n <= k < |stages| :: Key(stages[k]) !in nodes
    ensures forall m: nat :: Scope(stages, nodes, m) ==> m == n
  {
    forall m: nat | Scope(stages, nodes, m) ensures m == n {
      if m < |stages| {
        assert Key(stages[m]) !in nodes;
      }
      if n < |stages| {
        assert Key(stages[n]) !in nodes;
      }
    }
  }

  lemma SizesAgree(a: set<string>, b: set<string>)
    requires a <= b
    ensures |a| <= |b|
    ensures |a| == |b| <==> a == b
    ensures |a| != |b| ==> exists x :: x in b && x !in a
  {
    assert b == a + (b - a);
    assert |b| == |a| + |b - a|;
    if b - a != {} {
      var x :| x in b - a;
    }
  }
}
