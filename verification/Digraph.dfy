/**
 Finite directed graphs as sets of arcs: reachability, acyclicity and ranks.
 */
module Digraph {
  type Node = nat
  type Arcs = set<(Node, Node)>

  /** A walk of |w| - 1 arcs. */
  predicate Walk(a: Arcs, w: seq<Node>) {
    w != [] && forall i :: 0 <= i < |w| - 1 ==> (w[i], w[i + 1]) in a
  }

  ghost predicate Joins(a: Arcs, w: seq<Node>, x: Node, y: Node) {
    Walk(a, w) && w[0] == x && w[|w| - 1] == y
  }

  /** y can be reached from x, in zero or more steps. */
  ghost predicate Reach(a: Arcs, x: Node, y: Node) {
    exists w :: Joins(a, w, x, y)
  }

  /** y can be reached from x in one or more steps. */
  ghost predicate ReachPlus(a: Arcs, x: Node, y: Node) {
    exists z :: (x, z) in a && Reach(a, z, y)
  }

  ghost predicate Acyclic(a: Arcs) {
    forall x :: !ReachPlus(a, x, x)
  }

  /** Every arc goes down. */
  ghost predicate Ranked(a: Arcs, rank: Node -> nat) {
    forall x, y :: (x, y) in a ==> rank(x) > rank(y)
  }

  lemma ReachSelf(a: Arcs, x: Node)
    ensures Reach(a, x, x)
  {
    assert Joins(a, [x], x, x);
  }

  lemma ReachStep(a: Arcs, x: Node, y: Node, z: Node)
    requires (x, y) in a && Reach(a, y, z)
    ensures Reach(a, x, z) && ReachPlus(a, x, z)
  {
    var w :| Joins(a, w, y, z);
    var v := [x] + w;
    forall i | 0 <= i < |v| - 1 ensures (v[i], v[i + 1]) in a {
      if i > 0 { assert (w[i - 1], w[i - 1 + 1]) in a; }
    }
    assert Joins(a, v, x, z);
  }

  /** The first arc of a walk, if it has one. */
  lemma ReachUnfold(a: Arcs, x: Node, z: Node)
    requires Reach(a, x, z)
    ensures x == z || ReachPlus(a, x, z)
  {
    var w :| Joins(a, w, x, z);
    if |w| > 1 {
      assert (w[0], w[0 + 1]) in a;
      var v := w[1..];
      forall i | 0 <= i < |v| - 1 ensures (v[i], v[i + 1]) in a {
        assert (w[i + 1], w[i + 1 + 1]) in a;
      }
      assert Joins(a, v, w[1], z);
    }
  }

  lemma {:induction false} ReachTransitiveVia(a: Arcs, w: seq<Node>, x: Node, y: Node, z: Node)
    requires Joins(a, w, x, y) && Reach(a, y, z)
    ensures Reach(a, x, z)
    decreases |w|
  {
    if |w| > 1 {
      assert (w[0], w[0 + 1]) in a;
      var v := w[1..];
      forall i | 0 <= i < |v| - 1 ensures (v[i], v[i + 1]) in a {
        assert (w[i + 1], w[i + 1 + 1]) in a;
      }
      ReachTransitiveVia(a, v, w[1], y, z);
      ReachStep(a, x, w[1], z);
    }
  }

  lemma ReachTransitive(a: Arcs, x: Node, y: Node, z: Node)
    requires Reach(a, x, y) && Reach(a, y, z)
    ensures Reach(a, x, z)
  {
    var w :| Joins(a, w, x, y);
    ReachTransitiveVia(a, w, x, y, z);
  }

  lemma PlusThenReach(a: Arcs, x: Node, y: Node, z: Node)
    requires ReachPlus(a, x, y) && Reach(a, y, z)
    ensures ReachPlus(a, x, z)
  {
    var u :| (x, u) in a && Reach(a, u, y);
    ReachTransitive(a, u, y, z);
  }

  lemma PlusIsReach(a: Arcs, x: Node, y: Node)
    requires ReachPlus(a, x, y)
    ensures Reach(a, x, y)
  {
    var u :| (x, u) in a && Reach(a, u, y);
    ReachStep(a, x, u, y);
  }

  lemma ReachArc(a: Arcs, x: Node, y: Node, z: Node)
    requires Reach(a, x, y) && (y, z) in a
    ensures Reach(a, x, z)
  {
    ReachSelf(a, z);
    ReachStep(a, y, z, z);
    ReachTransitive(a, x, y, z);
  }

  lemma ReachMonotone(a: Arcs, b: Arcs, x: Node, y: Node)
    requires a <= b && Reach(a, x, y)
    ensures Reach(b, x, y)
  {
    var w :| Joins(a, w, x, y);
    assert Joins(b, w, x, y);
  }

  /** The nodes that can be reached from x in one or more steps. */
  ghost function Below(a: Arcs, x: Node): set<Node> {
    set p | p in a && ReachPlus(a, x, p.1) :: p.1
  }

  lemma {:induction false} WalkEndsInArc(a: Arcs, w: seq<Node>)
    requires Walk(a, w) && |w| > 1
    ensures exists p :: p in a && p.1 == w[|w| - 1]
  {
    var k := |w| - 2;
    assert (w[k], w[k + 1]) in a;
  }

  lemma BelowIsReach(a: Arcs, x: Node, y: Node)
    ensures y in Below(a, x) <==> ReachPlus(a, x, y)
  {
    if ReachPlus(a, x, y) {
      var z :| (x, z) in a && Reach(a, z, y);
      if z == y {
        assert (x, y).1 in Below(a, x);
      } else {
        var w :| Joins(a, w, z, y);
        WalkEndsInArc(a, w);
        var p :| p in a && p.1 == w[|w| - 1];
        assert p.1 in Below(a, x);
      }
    }
  }

  lemma ProperSubsetIsSmaller(s: set<Node>, t: set<Node>)
    requires s < t
    ensures |s| < |t|
  {
    var x :| x in t && x !in s;
    assert |t| == |t - s| + |s| by {
      assert (t - s) + s == t;
    }
    assert x in t - s;
  }

  /** In an acyclic graph an arc leads to a node with less below it. */
  lemma BelowShrinks(a: Arcs, x: Node, y: Node)
    requires Acyclic(a) && (x, y) in a
    ensures Below(a, y) < Below(a, x) && |Below(a, y)| < |Below(a, x)|
  {
    forall z <- Below(a, y) ensures z in Below(a, x) {
      BelowIsReach(a, y, z);
      PlusIsReach(a, y, z);
      ReachStep(a, x, y, z);
      BelowIsReach(a, x, z);
    }
    ReachSelf(a, y);
    BelowIsReach(a, x, y);
    BelowIsReach(a, y, y);
    assert ReachPlus(a, x, y);
    ProperSubsetIsSmaller(Below(a, y), Below(a, x));
  }

  lemma AcyclicIsRanked(a: Arcs)
    requires Acyclic(a)
    ensures Ranked(a, (x: Node) => |Below(a, x)|)
  {
    forall x, y | (x, y) in a ensures |Below(a, x)| > |Below(a, y)| {
      BelowShrinks(a, x, y);
    }
  }

  lemma {:induction false} RankFalls(a: Arcs, rank: Node -> nat, w: seq<Node>)
    requires Ranked(a, rank) && Walk(a, w)
    ensures rank(w[|w| - 1]) <= rank(w[0])
    decreases |w|
  {
    if |w| > 1 {
      var v := w[..|w| - 1];
      assert (w[|w| - 2], w[|w| - 2 + 1]) in a;
      RankFalls(a, rank, v);
    }
  }

  lemma RankedIsAcyclic(a: Arcs, rank: Node -> nat)
    requires Ranked(a, rank)
    ensures Acyclic(a)
  {
    forall x: Node ensures !ReachPlus(a, x, x) {
      if ReachPlus(a, x, x) {
        var z :| (x, z) in a && Reach(a, z, x);
        var w :| Joins(a, w, z, x);
        RankFalls(a, rank, w);
        assert false;
      }
    }
  }

  lemma AcyclicSubset(a: Arcs, b: Arcs)
    requires Acyclic(b) && a <= b
    ensures Acyclic(a)
  {
    AcyclicIsRanked(b);
    var rank := (x: Node) => |Below(b, x)|;
    assert Ranked(a, rank);
    RankedIsAcyclic(a, rank);
  }

  /** An arc from x to y is safe exactly when x is not reachable from y. */
  lemma AddArc(a: Arcs, x: Node, y: Node)
    requires Acyclic(a)
    ensures Acyclic(a + {(x, y)}) <==> !Reach(a, y, x)
  {
    var b := a + {(x, y)};
    if Reach(a, y, x) {
      ReachMonotone(a, b, y, x);
      assert (x, y) in b && Reach(b, y, x);
      assert ReachPlus(b, x, x);
    } else {
      AddArcRank(a, x, y);
    }
  }

  /** Lifting everything above x by more than y's rank makes room for the arc. */
  ghost function Lifted(a: Arcs, x: Node, y: Node, n: Node): nat {
    if Reach(a, n, x) then |Below(a, n)| + |Below(a, y)| + 1 else |Below(a, n)|
  }

  lemma LiftedFalls(a: Arcs, x: Node, y: Node, u: Node, v: Node)
    requires Acyclic(a) && !Reach(a, y, x) && (u, v) in a + {(x, y)}
    ensures Lifted(a, x, y, u) > Lifted(a, x, y, v)
  {
    if (u, v) in a {
      BelowShrinks(a, u, v);
      if Reach(a, v, x) {
        ReachStep(a, u, v, x);
      }
    } else {
      ReachSelf(a, x);
    }
  }

  lemma AddArcRank(a: Arcs, x: Node, y: Node)
    requires Acyclic(a) && !Reach(a, y, x)
    ensures Acyclic(a + {(x, y)})
  {
    var rank := (n: Node) => Lifted(a, x, y, n);
    forall u, v | (u, v) in a + {(x, y)} ensures rank(u) > rank(v) {
      LiftedFalls(a, x, y, u, v);
    }
    RankedIsAcyclic(a + {(x, y)}, rank);
  }
}
