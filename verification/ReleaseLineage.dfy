/** Validation of release lineage in a restored catalog (internal/backup/restore.go:479-514). The
    records are those left by the row checks, so every id is nonempty. */
module ReleaseLineage {
  import opened Walks

  /** retained: released, or deprecated with a publication timestamp. */
  datatype Release = Release(componentId: string, lineId: string, parentId: string, templateId: string, retained: bool)

  type Releases = m: map<string, Release> | "" !in m witness map[]

  predicate ParentOk(records: Releases, id: string)
    requires id in records
  {
    var r := records[id];
    r.parentId != "" ==>
      && r.parentId in records && r.parentId != id
      && records[r.parentId].componentId == r.componentId && records[r.parentId].lineId == r.lineId
  }

  predicate TemplateOk(records: Releases, id: string)
    requires id in records
  {
    var r := records[id];
    r.templateId != "" ==>
      r.templateId in records && r.templateId != id
      && records[r.templateId].componentId == r.componentId
  }

  /** The release a retained one succeeds, "" for none. */
  function Succeeds(records: Releases, id: string): string
    requires id in records
  {
    if records[id].retained then records[id].parentId else ""
  }

  ghost predicate OneSuccessor(records: Releases)
  {
    forall a, b | a in records && b in records && Succeeds(records, a) != ""
      && Succeeds(records, a) == Succeeds(records, b) :: a == b
  }

  ghost predicate LinksOk(records: Releases)
  {
    && (forall id | id in records :: ParentOk(records, id) && TemplateOk(records, id))
    && OneSuccessor(records)
  }

  ghost function ParentArrows(records: Releases): Arrows
  {
    set id | id in records && records[id].parentId != "" :: (id, records[id].parentId)
  }

  // ---------------------------------------------------------------- the links

  method CheckLinks(records: Releases) returns (ok: bool)
    ensures ok <==> LinksOk(records)
  {
    var retainedSuccessors: map<string, string> := map[];
    var left := records.Keys;
    while left != {}
      invariant left <= records.Keys
      invariant forall id | id in records && id !in left :: ParentOk(records, id) && TemplateOk(records, id)
      invariant forall id | id in records && id !in left && Succeeds(records, id) != "" ::
        Succeeds(records, id) in retainedSuccessors && retainedSuccessors[Succeeds(records, id)] == id
      invariant forall p | p in retainedSuccessors ::
        retainedSuccessors[p] in records && p != "" && Succeeds(records, retainedSuccessors[p]) == p
      decreases left
    {
      var id :| id in left;
      left := left - {id};
      var r := records[id];
      if r.parentId != "" {
        if r.parentId !in records {
          assert !ParentOk(records, id);
          return false;
        }
        var parent := records[r.parentId];
        if r.parentId == id || parent.componentId != r.componentId || parent.lineId != r.lineId {
          assert !ParentOk(records, id);
          return false;
        }
        if r.retained {
          if r.parentId in retainedSuccessors && retainedSuccessors[r.parentId] != id {
            assert !OneSuccessor(records) by {
              var prior := retainedSuccessors[r.parentId];
              assert Succeeds(records, prior) == Succeeds(records, id);
            }
            return false;
          }
          retainedSuccessors := retainedSuccessors[r.parentId := id];
        }
      }
      if r.templateId != ""
        && (r.templateId !in records || r.templateId == id || records[r.templateId].componentId != r.componentId) {
        assert !TemplateOk(records, id);
        return false;
      }
    }
    return true;
  }

  // ---------------------------------------------------------------- the chains

  /** The releases visited by following parents: each the parent of the one before, none twice. */
  ghost predicate Chain(records: Releases, p: seq<string>)
  {
    && p != [] && (forall i | 0 <= i < |p| :: p[i] in records)
    && (forall i | 0 <= i < |p| - 1 :: records[p[i]].parentId == p[i + 1])
    && forall i, j | 0 <= i < j < |p| :: p[i] != p[j]
  }

  lemma ChainIsWalk(records: Releases, p: seq<string>, i: nat)
    requires Chain(records, p) && i < |p|
    ensures Reaches(ParentArrows(records), p[i], p[|p| - 1])
  {
    var a := ParentArrows(records);
    forall k | 0 <= k < |p| - 1
      ensures (p[k], p[k + 1]) in a
    {
    }
    assert WalkBetween(a, p[i..], p[i], p[|p| - 1]);
  }

  lemma ChainCloses(records: Releases, p: seq<string>)
    requires Chain(records, p) && records[p[|p| - 1]].parentId in p
    ensures Cyclic(ParentArrows(records))
  {
    var last := p[|p| - 1];
    var i :| 0 <= i < |p| && p[i] == records[last].parentId;
    ChainIsWalk(records, p, i);
    assert p[i] in records && (last, p[i]) in ParentArrows(records);
  }

  /** A chain that ends at a root starts on no cycle. */
  lemma EndedChain(records: Releases, p: seq<string>)
    requires Chain(records, p) && records[p[|p| - 1]].parentId == ""
    ensures forall t | (p[0], t) in ParentArrows(records) :: !Reaches(ParentArrows(records), t, p[0])
  {
    var a := ParentArrows(records);
    forall t | (p[0], t) in a
      ensures !Reaches(a, t, p[0])
    {
      assert records[p[0]].parentId == t != "";
      assert |p| > 1 && p[1] == t;
      var above := set i | 1 <= i < |p| :: p[i];
      forall x, y | (x, y) in a && x in above
        ensures y in above
      {
        var i :| 1 <= i < |p| && p[i] == x;
        assert records[x].parentId == y;
        assert i < |p| - 1;
        assert p[i + 1] == y;
      }
      assert p[0] !in above;
      hide Reaches;
      ClosedKeepsOut(a, above, t, p[0]);
    }
  }

  ghost predicate OffCycles(records: Releases, id: string)
  {
    forall t | (id, t) in ParentArrows(records) :: !Reaches(ParentArrows(records), t, id)
  }

  method CheckChains(records: Releases) returns (ok: bool)
    requires forall id | id in records :: ParentOk(records, id)
    ensures ok <==> !Cyclic(ParentArrows(records))
  {
    hide Reaches, ParentArrows, Chain, OffCycles, Cyclic;
    var left := records.Keys;
    while left != {}
      invariant left <= records.Keys
      invariant forall id | id in records && id !in left :: OffCycles(records, id)
      decreases left
    {
      var id :| id in left;
      left := left - {id};
      var seen: set<string> := {};
      var current := id;
      ghost var p: seq<string> := [];
      while current != ""
        invariant current != "" ==> current in records
        invariant seen <= records.Keys && forall x :: x in seen <==> x in p
        invariant p == [] ==> current == id
        invariant p != [] ==> p[0] == id && Chain(records, p) && records[p[|p| - 1]].parentId == current
        decreases records.Keys - seen
      {
        if current in seen {
          ChainCloses(records, p);
          return false;
        }
        ChainGrows(records, p, current);
        p := p + [current];
        seen := seen + {current};
        current := records[current].parentId;
      }
      assert p != [];
      EndedChain(records, p);
      assert OffCycles(records, id) by { OffCyclesIs(records, id); }
    }
    NoneOnCycle(records);
    return true;
  }

  lemma OffCyclesIs(records: Releases, id: string)
    ensures OffCycles(records, id) <==> forall t | (id, t) in ParentArrows(records) ::
      !Reaches(ParentArrows(records), t, id)
  {
    hide Reaches, ParentArrows;
  }

  lemma ChainGrows(records: Releases, p: seq<string>, current: string)
    requires current in records && current !in p
    requires p != [] ==> Chain(records, p) && records[p[|p| - 1]].parentId == current
    ensures Chain(records, p + [current])
  {
  }

  lemma SomeOnCycle(records: Releases)
    requires Cyclic(ParentArrows(records))
    ensures exists id :: id in records && !OffCycles(records, id)
  {
    hide Reaches;
    var s, t :| (s, t) in ParentArrows(records) && Reaches(ParentArrows(records), t, s);
    assert s in records && !OffCycles(records, s);
  }

  lemma NoneOnCycle(records: Releases)
    requires forall id | id in records :: OffCycles(records, id)
    ensures !Cyclic(ParentArrows(records))
  {
    hide Cyclic, OffCycles;
    if Cyclic(ParentArrows(records)) {
      SomeOnCycle(records);
    }
  }

  ghost predicate Accepted(records: Releases)
  {
    LinksOk(records) && !Cyclic(ParentArrows(records))
  }

  method ValidateLineage(records: Releases) returns (ok: bool)
    ensures ok <==> Accepted(records)
  {
    hide OneSuccessor, ParentOk, TemplateOk, Cyclic, ParentArrows;
    ok := CheckLinks(records);
    if ok {
      ok := CheckChains(records);
    }
  }

  // ---------------------------------------------------------------- what acceptance guarantees

  /** A catalog is accepted exactly when every parent is another release of the same line and component,
      every template another one of the same component, no release has two retained successors, and no
      chain of parents comes round. */
  lemma AcceptedExactly(records: Releases)
    ensures Accepted(records) <==>
      && (forall id | id in records && records[id].parentId != "" ::
        var parent := records[id].parentId;
        && parent in records && parent != id
        && records[parent].componentId == records[id].componentId && records[parent].lineId == records[id].lineId)
      && (forall id | id in records && records[id].templateId != "" ::
        var template := records[id].templateId;
        template in records && template != id && records[template].componentId == records[id].componentId)
      && (forall a, b | a in records && b in records && a != b && records[a].retained && records[b].retained
        && records[a].parentId != "" :: records[a].parentId != records[b].parentId)
      && (forall id | id in records && records[id].parentId != "" ::
        !Reaches(set c | c in records && records[c].parentId != "" :: (c, records[c].parentId),
                 records[id].parentId, id))
  {
    hide Reaches;
  }

  /** The n-th ancestor, "" beyond the root. */
  function Ancestor(records: Releases, id: string, n: nat): string
  {
    if n == 0 then id
    else
      var child := Ancestor(records, id, n - 1);
      if child in records then records[child].parentId else ""
  }

  lemma {:induction false} AncestorOfParent(records: Releases, id: string, n: nat)
    requires id in records
    ensures Ancestor(records, id, n + 1) == Ancestor(records, records[id].parentId, n)
  {
    if n > 0 {
      AncestorOfParent(records, id, n - 1);
    } else {
      assert Ancestor(records, id, 1) == records[Ancestor(records, id, 0)].parentId;
    }
  }

  ghost predicate SameLine(records: Releases, a: string, b: string)
  {
    a in records && b in records && records[a].componentId == records[b].componentId
      && records[a].lineId == records[b].lineId
  }

  ghost predicate RootAfter(records: Releases, id: string, n: nat)
  {
    && (forall k | 0 <= k <= n :: SameLine(records, id, Ancestor(records, id, k)))
    && records[Ancestor(records, id, n)].parentId == ""
  }

  lemma RootOneAbove(records: Releases, id: string, n: nat)
    requires id in records && ParentOk(records, id) && records[id].parentId != ""
      && RootAfter(records, records[id].parentId, n)
    ensures RootAfter(records, id, n + 1)
  {
    AncestorOfParent(records, id, n);
    forall k | 0 <= k <= n + 1
      ensures SameLine(records, id, Ancestor(records, id, k))
    {
      if k > 0 {
        AncestorOfParent(records, id, k - 1);
        assert SameLine(records, records[id].parentId, Ancestor(records, records[id].parentId, k - 1));
      }
    }
  }

  ghost predicate Below(records: Releases, below: set<string>, id: string)
  {
    below <= records.Keys && forall b | b in below :: exists t ::
      (b, t) in ParentArrows(records) && Reaches(ParentArrows(records), t, id)
  }

  lemma BelowExcludes(records: Releases, below: set<string>, id: string)
    requires Below(records, below, id) && !Cyclic(ParentArrows(records))
    ensures id !in below
  {
    hide Reaches, ParentArrows;
  }

  lemma BelowParent(records: Releases, below: set<string>, id: string)
    requires Below(records, below, id) && id in records && records[id].parentId != ""
    ensures Below(records, below + {id}, records[id].parentId)
  {
    var a := ParentArrows(records);
    var parent := records[id].parentId;
    assert (id, parent) in a;
    hide Reaches, ParentArrows;
    ReachesItself(a, parent);
    ReachesAcross(a, id, parent);
    forall b | b in below
      ensures exists t :: (b, t) in a && Reaches(a, t, parent)
    {
      var t :| (b, t) in a && Reaches(a, t, id);
      ReachesOn(a, t, id, parent);
    }
  }

  lemma {:induction false} RootWithin(records: Releases, id: string, below: set<string>) returns (n: nat)
    requires Accepted(records) && id in records && Below(records, below, id)
    ensures n + |below| < |records| && RootAfter(records, id, n)
    decreases records.Keys - below
  {
    hide ParentArrows, Cyclic, OneSuccessor, Below, RootAfter;
    BelowExcludes(records, below, id);
    assert below + {id} <= records.Keys by { BelowKeys(records, below, id); }
    Smaller(below + {id}, records.Keys);
    assert |below + {id}| == |below| + 1 && |records.Keys| == |records|;
    assert ParentOk(records, id);
    if records[id].parentId == "" {
      n := 0;
      RootHere(records, id);
    } else {
      BelowParent(records, below, id);
      n := RootWithin(records, records[id].parentId, below + {id});
      RootOneAbove(records, id, n);
      n := n + 1;
    }
  }

  lemma RootHere(records: Releases, id: string)
    requires id in records && records[id].parentId == ""
    ensures RootAfter(records, id, 0)
  {
  }

  lemma BelowKeys(records: Releases, below: set<string>, id: string)
    requires Below(records, below, id)
    ensures below <= records.Keys
  {
  }

  lemma Smaller(a: set<string>, b: set<string>)
    requires a <= b
    ensures |a| <= |b|
  {
    assert b == a + (b - a);
    assert |b| == |a| + |b - a|;
  }

  /** In an accepted catalog, following parents from any release stays in its component and line and
      ends at a root in fewer steps than there are releases. */
  lemma EveryReleaseHasARoot(records: Releases, id: string)
    requires Accepted(records) && id in records
    ensures exists n: nat :: n < |records| && RootAfter(records, id, n)
  {
    hide ParentArrows, Cyclic, LinksOk, RootAfter;
    assert Below(records, {}, id);
    var n := RootWithin(records, id, {});
  }

  ghost predicate RetainedBelow(records: Releases, id: string, n: nat)
  {
    forall k | 0 <= k < n :: Ancestor(records, id, k) in records && records[Ancestor(records, id, k)].retained
  }

  /** Retained releases do not branch: two of them with a common ancestor, everything below it being
      retained, are one above the other. */
  lemma {:induction false} RetainedLineIsLinear(records: Releases, a: string, i: nat, b: string, j: nat)
    requires Accepted(records) && i <= j
    requires Ancestor(records, a, i) == Ancestor(records, b, j) && Ancestor(records, a, i) in records
    requires RetainedBelow(records, a, i) && RetainedBelow(records, b, j)
    ensures Ancestor(records, b, j - i) == a
    decreases i
  {
    hide Cyclic, ParentArrows, ParentOk, TemplateOk;
    if i > 0 {
      var x, y := Ancestor(records, a, i - 1), Ancestor(records, b, j - 1);
      assert x in records && records[x].retained && y in records && records[y].retained;
      assert Succeeds(records, x) == Ancestor(records, a, i) == Succeeds(records, y);
      assert x == y;
      RetainedLineIsLinear(records, a, i - 1, b, j - 1);
    }
  }
}
