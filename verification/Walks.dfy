/** Walks through a finite directed graph, given as the set of its arrows. */
module Walks {

  type Arrows = set<(string, string)>

  ghost predicate IsWalk(a: Arrows, p: seq<string>)
  {
    p != [] && forall i | 0 <= i < |p| - 1 :: (p[i], p[i + 1]) in a
  }

  ghost predicate WalkBetween(a: Arrows, p: seq<string>, s: string, t: string)
  {
    IsWalk(a, p) && p[0] == s && p[|p| - 1] == t
  }

  ghost predicate Reaches(a: Arrows, s: string, t: string)
  {
    exists p :: WalkBetween(a, p, s, t)
  }

  ghost predicate Cyclic(a: Arrows)
  {
    exists s, t :: (s, t) in a && Reaches(a, t, s)
  }

  lemma ReachesItself(a: Arrows, s: string)
    ensures Reaches(a, s, s)
  {
    assert WalkBetween(a, [s], s, s);
  }

  lemma ReachesAcross(a: Arrows, s: string, t: string)
    requires (s, t) in a
    ensures Reaches(a, s, t)
  {
    assert WalkBetween(a, [s, t], s, t);
  }

  lemma ReachesOn(a: Arrows, r: string, s: string, t: string)
    requires Reaches(a, r, s) && Reaches(a, s, t)
    ensures Reaches(a, r, t)
  {
    var p :| WalkBetween(a, p, r, s);
    var q :| WalkBetween(a, q, s, t);
    var w := p + q[1..];
    forall i | 0 <= i < |w| - 1
      ensures (w[i], w[i + 1]) in a
    {
      if i >= |p| - 1 {
        assert w[i] == q[i - |p| + 1] && w[i + 1] == q[i - |p| + 2];
      }
    }
    assert WalkBetween(a, w, r, t);
  }

  lemma ReachesMore(a: Arrows, b: Arrows, s: string, t: string)
    requires a <= b && Reaches(a, s, t)
    ensures Reaches(b, s, t)
  {
    var p :| WalkBetween(a, p, s, t);
    assert WalkBetween(b, p, s, t);
  }

  /** Reachability in a is contained in reachability in b once every arrow of a is. */
  lemma {:induction false} WalkReroutes(a: Arrows, b: Arrows, p: seq<string>)
    requires IsWalk(a, p) && forall x, y | (x, y) in a :: Reaches(b, x, y)
    ensures Reaches(b, p[0], p[|p| - 1])
    decreases |p|
  {
    if |p| == 1 {
      ReachesItself(b, p[0]);
    } else {
      var front := p[..|p| - 1];
      assert IsWalk(a, front);
      WalkReroutes(a, b, front);
      assert (p[|p| - 2], p[|p| - 1]) in a;
      ReachesOn(b, p[0], p[|p| - 2], p[|p| - 1]);
    }
  }

  ghost predicate SameReach(a: Arrows, b: Arrows)
  {
    forall s, t :: Reaches(a, s, t) <==> Reaches(b, s, t)
  }

  /** Leaving out an arrow that is implied by the others changes no reachability. */
  lemma ImpliedArrow(a: Arrows, b: Arrows, x: string, y: string)
    requires b <= a <= b + {(x, y)} && Reaches(b, x, y)
    ensures SameReach(a, b)
  {
    forall s, t | (s, t) in a
      ensures Reaches(b, s, t)
    {
      if (s, t) in b {
        ReachesAcross(b, s, t);
      }
    }
    forall s, t
      ensures Reaches(a, s, t) <==> Reaches(b, s, t)
    {
      if Reaches(a, s, t) {
        var p :| WalkBetween(a, p, s, t);
        WalkReroutes(a, b, p);
      }
      if Reaches(b, s, t) {
        ReachesMore(b, a, s, t);
      }
    }
  }

  lemma SameReachOneMore(a: Arrows, b: Arrows, x: string, y: string)
    requires SameReach(a, b)
    ensures SameReach(a + {(x, y)}, b + {(x, y)})
  {
    forall s, t
      ensures Reaches(a + {(x, y)}, s, t) <==> Reaches(b + {(x, y)}, s, t)
    {
      if Reaches(a + {(x, y)}, s, t) {
        WideReach(a, b, x, y, s, t);
      }
      if Reaches(b + {(x, y)}, s, t) {
        WideReach(b, a, x, y, s, t);
      }
    }
  }

  lemma WideReach(a: Arrows, b: Arrows, x: string, y: string, s: string, t: string)
    requires SameReach(a, b) && Reaches(a + {(x, y)}, s, t)
    ensures Reaches(b + {(x, y)}, s, t)
  {
    var p :| WalkBetween(a + {(x, y)}, p, s, t);
    hide Reaches;
    forall v, w | (v, w) in a + {(x, y)}
      ensures Reaches(b + {(x, y)}, v, w)
    {
      if (v, w) in a {
        ReachesAcross(a, v, w);
        ReachesMore(b, b + {(x, y)}, v, w);
      } else {
        ReachesAcross(b + {(x, y)}, v, w);
      }
    }
    WalkReroutes(a + {(x, y)}, b + {(x, y)}, p);
  }

  ghost predicate Closed(a: Arrows, c: set<string>)
  {
    forall s, t | (s, t) in a && s in c :: t in c
  }

  lemma {:induction false} WalkStays(a: Arrows, c: set<string>, p: seq<string>)
    requires Closed(a, c) && IsWalk(a, p) && p[0] in c
    ensures p[|p| - 1] in c
    decreases |p|
  {
    if |p| > 1 {
      assert IsWalk(a, p[..|p| - 1]);
      WalkStays(a, c, p[..|p| - 1]);
      assert (p[|p| - 2], p[|p| - 1]) in a;
    }
  }

  lemma ClosedKeepsOut(a: Arrows, c: set<string>, s: string, t: string)
    requires Closed(a, c) && s in c && t !in c
    ensures !Reaches(a, s, t)
  {
    if Reaches(a, s, t) {
      var p :| WalkBetween(a, p, s, t);
      WalkStays(a, c, p);
    }
  }

  // ---------------------------------------------------------------- cycles

  /** A numbering that grows along every arrow. */
  ghost predicate Ascends(a: Arrows, rank: map<string, int>)
  {
    forall s, t | (s, t) in a :: s in rank && t in rank && rank[s] < rank[t]
  }

  lemma {:induction false} WalkAscends(a: Arrows, rank: map<string, int>, p: seq<string>)
    requires Ascends(a, rank) && IsWalk(a, p) && p[0] in rank
    ensures p[|p| - 1] in rank && rank[p[0]] <= rank[p[|p| - 1]]
    decreases |p|
  {
    if |p| > 1 {
      assert IsWalk(a, p[..|p| - 1]);
      WalkAscends(a, rank, p[..|p| - 1]);
      assert (p[|p| - 2], p[|p| - 1]) in a;
    }
  }

  lemma AscendingIsAcyclic(a: Arrows, rank: map<string, int>)
    requires Ascends(a, rank)
    ensures !Cyclic(a)
  {
    if Cyclic(a) {
      var s, t :| (s, t) in a && Reaches(a, t, s);
      var p :| WalkBetween(a, p, t, s);
      WalkAscends(a, rank, p);
    }
  }

  /** The members of u from which x is reachable. */
  ghost function Above(a: Arrows, u: set<string>, x: string): set<string>
  {
    set v | v in u && exists w :: (v, w) in a && Reaches(a, w, x)
  }

  ghost predicate Entered(a: Arrows, u: set<string>)
  {
    forall x | x in u :: HasPredecessor(a, u, x)
  }

  ghost predicate HasPredecessor(a: Arrows, u: set<string>, x: string)
  {
    exists y :: y in u && (y, x) in a
  }

  /** Going back from x inside u never runs out of members, so it must come round. */
  lemma {:induction false} GoingBackComesRound(a: Arrows, u: set<string>, x: string)
    requires Entered(a, u) && x in u
    ensures Cyclic(a)
    decreases Above(a, u, x)
  {
    hide Reaches, Cyclic;
    assert HasPredecessor(a, u, x);
    var y :| y in u && (y, x) in a;
    ReachesItself(a, x);
    assert y in Above(a, u, x);
    if y !in Above(a, u, y) {
      forall v | v in Above(a, u, y)
        ensures v in Above(a, u, x)
      {
        var w :| (v, w) in a && Reaches(a, w, y);
        ReachesAcross(a, y, x);
        ReachesOn(a, w, y, x);
      }
      assert Above(a, u, y) < Above(a, u, x);
      GoingBackComesRound(a, u, y);
    } else {
      ComesRound(a, u, y);
    }
  }

  lemma ComesRound(a: Arrows, u: set<string>, y: string)
    requires y in Above(a, u, y)
    ensures Cyclic(a)
  {
    hide Reaches;
  }

  lemma EnteredIsCyclic(a: Arrows, u: set<string>)
    requires Entered(a, u) && u != {}
    ensures Cyclic(a)
  {
    hide Entered;
    var x :| x in u;
    GoingBackComesRound(a, u, x);
  }
}
