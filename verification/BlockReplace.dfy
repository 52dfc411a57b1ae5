/**
 Replacing a node: which edges move to the new node, and why none of the moves
 closes a loop.
 */
module BlockReplace {
  import opened Options
  import opened Digraph
  import opened BlockGraph
  import opened BlockSearch

  /** What should_update_child decides. */
  ghost predicate Updatable(edges: Edges, c: Child, to: Node) {
    c in edges && !(edges[c].parent.OfRoot? && edges[c].parent.stay) && !InSubtree(edges, c, to)
  }

  /** An edge does not stand in the way of a replacement: it can move, or it
      need not. */
  ghost predicate MoveAllowed(edges: Edges, c: Child, to: Node, autoSkip: bool) {
    c in edges && if Updatable(edges, c, to) then !edges[c].frozen else autoSkip
  }

  /** The edges after the users in `moved` that may move have moved to `to`. */
  ghost function Moved(edges: Edges, moved: set<Child>, to: Node): Edges {
    map c | c in edges :: if c in moved && Updatable(edges, c, to) then edges[c].(bs := Some(to)) else edges[c]
  }

  /** Two graphs that agree on the arcs leaving everything that `x` reaches. */
  ghost predicate AgreeBelow(a: Arcs, b: Arcs, x: Node) {
    forall u: Node, v: Node :: Reach(a, x, u) ==> ((u, v) in a <==> (u, v) in b)
  }

  lemma {:induction false} AgreeWalk(a: Arcs, b: Arcs, x: Node, w: seq<Node>)
    requires AgreeBelow(a, b, x) && w != [] && w[0] == x && (Walk(a, w) || Walk(b, w))
    ensures Walk(a, w) && Walk(b, w)
    decreases |w|
  {
    if |w| > 1 {
      var v := w[..|w| - 1];
      forall i | 0 <= i < |v| - 1
        ensures Walk(a, w) ==> (v[i], v[i + 1]) in a
        ensures Walk(b, w) ==> (v[i], v[i + 1]) in b
      {
        assert v[i] == w[i] && v[i + 1] == w[i + 1];
      }
      assert Walk(a, v) || Walk(b, v);
      AgreeWalk(a, b, x, v);
      var k := |w| - 2;
      assert Joins(a, v, x, w[k]);
      assert Reach(a, x, w[k]);
      assert Walk(a, w) ==> (w[k], w[k + 1]) in a;
      assert Walk(b, w) ==> (w[k], w[k + 1]) in b;
      forall i | 0 <= i < |w| - 1 ensures (w[i], w[i + 1]) in a && (w[i], w[i + 1]) in b {
        if i < k {
          assert (v[i], v[i + 1]) in a && (v[i], v[i + 1]) in b;
        }
      }
    }
  }

  lemma AgreeReach(a: Arcs, b: Arcs, x: Node)
    requires AgreeBelow(a, b, x)
    ensures forall y :: Reach(a, x, y) <==> Reach(b, x, y)
  {
    forall y: Node ensures Reach(a, x, y) <==> Reach(b, x, y) {
      if Reach(a, x, y) {
        var w :| Joins(a, w, x, y);
        AgreeWalk(a, b, x, w);
        assert Joins(b, w, x, y);
      }
      if Reach(b, x, y) {
        var w :| Joins(b, w, x, y);
        AgreeWalk(a, b, x, w);
        assert Joins(a, w, x, y);
      }
    }
  }

  /** Edges that may move do not belong to the subtree of `to`, so moving them
      leaves that subtree as it is. */
  lemma MovedAgrees(edges: Edges, from: Node, moved: set<Child>, to: Node)
    requires moved <= ParentsOf(edges, from)
    ensures AgreeBelow(ArcsOf(edges), ArcsOf(Moved(edges, moved, to)), to)
  {
    var e := Moved(edges, moved, to);
    forall u: Node, v: Node | Reach(ArcsOf(edges), to, u) ensures (u, v) in ArcsOf(edges) <==> (u, v) in ArcsOf(e) {
      ArcIsEdge(edges, u, v);
      ArcIsEdge(e, u, v);
      forall c ensures (IsChild(edges, c, u) && IsParent(edges, c, v)) <==> (IsChild(e, c, u) && IsParent(e, c, v)) {
        if c in edges {
          assert IsChild(edges, c, u) ==> InSubtree(edges, c, to);
        }
      }
    }
  }

  /** So whether an edge may move does not depend on which others have moved. */
  lemma MovedUpdatable(edges: Edges, from: Node, moved: set<Child>, to: Node, c: Child)
    requires moved <= ParentsOf(edges, from) && c in edges
    ensures Updatable(Moved(edges, moved, to), c, to) <==> Updatable(edges, c, to)
  {
    var e := Moved(edges, moved, to);
    MovedAgrees(edges, from, moved, to);
    AgreeReach(ArcsOf(edges), ArcsOf(e), to);
    assert forall v :: IsChild(e, c, v) <==> IsChild(edges, c, v);
  }

  lemma MovedNone(edges: Edges, to: Node)
    ensures Moved(edges, {}, to) == edges
  {
  }

  /** One more edge moves; whether it may is decided on the graph as it is by
      then, which gives the same answer as the original graph. */
  lemma MoveOne(edges: Edges, from: Node, moved: set<Child>, to: Node, c: Child)
    requires moved <= ParentsOf(edges, from) && c in ParentsOf(edges, from) - moved
    ensures var e := Moved(edges, moved, to);
            && c in e && e[c] == edges[c]
            && (Updatable(e, c, to) <==> Updatable(edges, c, to))
            && (forall autoSkip :: MoveAllowed(e, c, to, autoSkip) <==> MoveAllowed(edges, c, to, autoSkip))
            && Moved(edges, moved + {c}, to) == if Updatable(e, c, to) then Redirect(e, c, Some(to)) else e
  {
    MovedUpdatable(edges, from, moved, to, c);
  }

  /** Moving any of the edges to `from` that may move closes no loop. */
  lemma {:induction false} MoveIsAcyclic(edges: Edges, from: Node, moved: set<Child>, to: Node)
    requires Acyclic(ArcsOf(edges)) && moved <= ParentsOf(edges, from)
    ensures Acyclic(ArcsOf(Moved(edges, moved, to)))
    decreases |moved|
  {
    if moved == {} {
      MovedNone(edges, to);
    } else {
      var c :| c in moved;
      var rest := moved - {c};
      MoveIsAcyclic(edges, from, rest, to);
      MoveOne(edges, from, rest, to, c);
      assert rest + {c} == moved;
      if Updatable(Moved(edges, rest, to), c, to) {
        EdgeMoves(Moved(edges, rest, to), c, to);
      }
    }
  }

  /** Moving one edge that may move. */
  lemma EdgeMoves(edges: Edges, c: Child, to: Node)
    requires Acyclic(ArcsOf(edges)) && c in edges && edges[c].bs.Some? && Updatable(edges, c, to)
    ensures edges[c].parent.OfNode? ==> !Reach(ArcsOf(edges), to, edges[c].parent.node)
    ensures Acyclic(ArcsOf(Redirect(edges, c, Some(to))))
  {
    if edges[c].parent.OfNode? {
      assert IsChild(edges, c, edges[c].parent.node);
    }
    RedirectAcyclic(edges, c, Some(to));
  }

  /** And an edge of a node below `to` would: the test is exact. */
  lemma RefusedMoveIsCyclic(edges: Edges, c: Child, to: Node)
    requires Acyclic(ArcsOf(edges)) && c in edges && edges[c].bs.Some? && edges[c].parent.OfNode?
    requires !Updatable(edges, c, to)
    ensures !Acyclic(ArcsOf(Redirect(edges, c, Some(to))))
  {
    var e := Redirect(edges, c, Some(to));
    var a, b := ArcsOf(edges), ArcsOf(e);
    var n := edges[c].parent.node;
    var v :| IsChild(edges, c, v) && Reach(a, to, v);
    assert v == n;
    ArcIsEdge(e, n, to);
    assert IsChild(e, c, n) && IsParent(e, c, to);
    var w :| Joins(a, w, to, n);
    FirstVisit(a, w, to, n);
    var w' :| Joins(a, w', to, n) && forall i :: 0 <= i < |w'| - 1 ==> w'[i] != n;
    forall i | 0 <= i < |w'| - 1 ensures (w'[i], w'[i + 1]) in b {
      ArcIsEdge(edges, w'[i], w'[i + 1]);
      var d :| IsChild(edges, d, w'[i]) && IsParent(edges, d, w'[i + 1]);
      ArcIsEdge(e, w'[i], w'[i + 1]);
      assert IsChild(e, d, w'[i]) && IsParent(e, d, w'[i + 1]);
    }
    assert Joins(b, w', to, n);
    assert ReachPlus(b, n, n);
  }

  /** A walk to `n` can be cut at its first visit of `n`. */
  lemma {:induction false} FirstVisit(a: Arcs, w: seq<Node>, x: Node, n: Node)
    requires Joins(a, w, x, n)
    ensures exists w' :: Joins(a, w', x, n) && forall i :: 0 <= i < |w'| - 1 ==> w'[i] != n
    decreases |w|
  {
    if k :| 0 <= k < |w| - 1 && w[k] == n {
      var v := w[..k + 1];
      forall i | 0 <= i < |v| - 1 ensures (v[i], v[i + 1]) in a {
        assert (w[i], w[i + 1]) in a;
      }
      FirstVisit(a, v, x, n);
    }
  }
}
