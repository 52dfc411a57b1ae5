/**
 The searches of the block graph: the depth-first search behind permission
 updates, the recursive descendant test and the breadth-first search that
 protects node replacement from creating loops.
 */
module BlockSearch {
  import opened Digraph
  import opened BlockGraph

  ghost predicate Inside(edges: Edges, nodes: set<Node>) {
    forall p <- ArcsOf(edges) :: p.0 in nodes && p.1 in nodes
  }

  /** `x` is reachable through one of the edges in `via`. */
  ghost predicate ReachedVia(edges: Edges, via: set<Child>, x: Node) {
    exists c :: c in via && c in edges && edges[c].bs.Some? && Reach(ArcsOf(edges), edges[c].bs.value, x)
  }

  lemma ReachViaChildren(edges: Edges, n: Node, x: Node)
    ensures Reach(ArcsOf(edges), n, x) <==> n == x || ReachedVia(edges, ChildrenOf(edges, n), x)
  {
    var a := ArcsOf(edges);
    if Reach(a, n, x) && n != x {
      ReachUnfold(a, n, x);
      var z :| (n, z) in a && Reach(a, z, x);
      ArcIsEdge(edges, n, z);
      var c :| IsChild(edges, c, n) && IsParent(edges, c, z);
      assert c in ChildrenOf(edges, n);
    }
    if n == x {
      ReachSelf(a, n);
    } else if ReachedVia(edges, ChildrenOf(edges, n), x) {
      var c :| c in ChildrenOf(edges, n) && edges[c].bs.Some? && Reach(a, edges[c].bs.value, x);
      assert (n, edges[c].bs.value) in a;
      ReachStep(a, n, edges[c].bs.value, x);
    }
  }

  lemma {:induction false} ClosedWalk(a: Arcs, list: seq<Node>, w: seq<Node>)
    requires ClosedDown(a, list) && Walk(a, w) && w[0] in list
    ensures w[|w| - 1] in list
    decreases |w|
  {
    if |w| > 1 {
      assert (w[0], w[0 + 1]) in a;
      var v := w[1..];
      forall i | 0 <= i < |v| - 1 ensures (v[i], v[i + 1]) in a {
        assert (w[i + 1], w[i + 1 + 1]) in a;
      }
      ClosedWalk(a, list, v);
    }
  }

  /** A list that is closed under children holds whatever its nodes reach. */
  lemma ClosedReach(a: Arcs, list: seq<Node>, x: Node)
    requires ClosedDown(a, list) && x in list
    ensures forall y :: Reach(a, x, y) ==> y in list
  {
    forall y | Reach(a, x, y) ensures y in list {
      var w :| Joins(a, w, x, y);
      ClosedWalk(a, list, w);
    }
  }

  /** Prepending a node whose children are all listed and whose parents are not. */
  lemma PrependTopological(a: Arcs, list: seq<Node>, n: Node)
    requires Topological(a, list) && n !in list
    requires forall y :: (n, y) in a ==> y in list
    ensures Topological(a, [n] + list)
  {
    var l := [n] + list;
    forall i, j | 0 <= i < |l| && 0 <= j < |l| && (l[i], l[j]) in a ensures i < j {
      if i > 0 && j > 0 {
        assert (list[i - 1], list[j - 1]) in a;
      }
    }
  }

  /** bdrv_topological_dfs.  The nodes in `found` that are not in the list yet
      are those whose children are being visited: they all lead to `bs`. */
  method TopologicalDfs(edges: Edges, list: seq<Node>, found: set<Node>, bs: Node, ghost nodes: set<Node>)
    returns (list': seq<Node>, found': set<Node>)
    requires Acyclic(ArcsOf(edges)) && Inside(edges, nodes) && bs in nodes && found <= nodes
    requires Topological(ArcsOf(edges), list)
    requires forall x <- list :: x in found
    requires forall x <- found :: x in list || ReachPlus(ArcsOf(edges), x, bs)
    ensures Topological(ArcsOf(edges), list')
    ensures forall x :: x in list' <==> x in list || Reach(ArcsOf(edges), bs, x)
    ensures forall x :: x in found' <==> x in found || Reach(ArcsOf(edges), bs, x)
    ensures found' <= nodes
    decreases nodes - found
  {
    ghost var a := ArcsOf(edges);
    if bs in found {
      ClosedReach(a, list, bs);
      return list, found;
    }
    list', found' := list, found + {bs};
    var todo := ChildrenOf(edges, bs);
    ghost var all := todo;
    while todo != {}
      invariant todo <= all
      invariant Topological(a, list')
      invariant forall x :: x in list' <==> x in list || ReachedVia(edges, all - todo, x)
      invariant forall x :: x in found' <==> x in found || x == bs || ReachedVia(edges, all - todo, x)
      invariant found' <= nodes
    {
      var c :| c in todo;
      ghost var child := edges[c].bs.value;
      assert (bs, child) in a;
      forall x <- found' ensures x in list' || ReachPlus(a, x, child) {
        if x !in list' {
          ReachSelf(a, child);
          if x == bs {
            assert ReachPlus(a, bs, child);
          } else {
            assert ReachPlus(a, x, bs);
            ReachStep(a, bs, child, child);
            PlusThenReach(a, x, bs, child);
          }
        }
      }
      ViaGrows(edges, all, todo, c);
      list', found' := TopologicalDfs(edges, list', found', edges[c].bs.value, nodes);
      todo := todo - {c};
    }
    assert all - {} == all;
    FinishDfs(edges, list, list', bs);
    forall x ensures Reach(a, bs, x) <==> x == bs || ReachedVia(edges, all, x) {
      ReachViaChildren(edges, bs, x);
    }
    list' := [bs] + list';
  }

  lemma ViaGrows(edges: Edges, all: set<Child>, todo: set<Child>, c: Child)
    requires c in todo && todo <= all && c in edges && edges[c].bs.Some?
    ensures forall x :: ReachedVia(edges, all - (todo - {c}), x) <==>
                        ReachedVia(edges, all - todo, x) || Reach(ArcsOf(edges), edges[c].bs.value, x)
  {
    forall x ensures ReachedVia(edges, all - (todo - {c}), x) <==>
                     ReachedVia(edges, all - todo, x) || Reach(ArcsOf(edges), edges[c].bs.value, x)
    {
      assert c in all - (todo - {c});
      assert all - (todo - {c}) == (all - todo) + {c};
    }
  }

  /** When all children of `bs` have been visited it can be prepended. */
  lemma FinishDfs(edges: Edges, list: seq<Node>, list': seq<Node>, bs: Node)
    requires Acyclic(ArcsOf(edges)) && bs !in list && Topological(ArcsOf(edges), list')
    requires forall x :: x in list' <==> x in list || ReachedVia(edges, ChildrenOf(edges, bs), x)
    ensures Topological(ArcsOf(edges), [bs] + list')
  {
    var a := ArcsOf(edges);
    assert !ReachPlus(a, bs, bs);
    forall c <- ChildrenOf(edges, bs) ensures !Reach(a, edges[c].bs.value, bs) {
      assert (bs, edges[c].bs.value) in a;
    }
    forall y | (bs, y) in a ensures y in list' {
      ArcIsEdge(edges, bs, y);
      var c :| IsChild(edges, c, bs) && IsParent(edges, c, y);
      ReachSelf(a, y);
      assert c in ChildrenOf(edges, bs);
    }
    PrependTopological(a, list', bs);
  }

  /** The repeated searches of bdrv_list_refresh_perms, sharing `found`. */
  method TopologicalList(edges: Edges, roots: seq<Node>, ghost nodes: set<Node>) returns (list: seq<Node>)
    requires Acyclic(ArcsOf(edges)) && Inside(edges, nodes) && forall r <- roots :: r in nodes
    ensures Topological(ArcsOf(edges), list)
    ensures forall x :: x in list <==> exists r :: r in roots && Reach(ArcsOf(edges), r, x)
    ensures forall x <- list :: x in nodes
  {
    list := [];
    var found := {};
    var i := 0;
    while i < |roots|
      invariant 0 <= i <= |roots|
      invariant Topological(ArcsOf(edges), list)
      invariant forall x :: x in list <==> x in found
      invariant forall x :: x in list <==> exists r :: r in roots[..i] && Reach(ArcsOf(edges), r, x)
      invariant found <= nodes
    {
      assert roots[..i + 1] == roots[..i] + [roots[i]];
      list, found := TopologicalDfs(edges, list, found, roots[i], nodes);
      i := i + 1;
    }
    assert roots[..i] == roots;
  }

  /** bdrv_recurse_has_child.  It has no table of visited nodes: that it ends is
      due to the graph being acyclic. */
  function RecurseHasChild(edges: Edges, bs: Node, child: Node): (found: bool)
    requires Acyclic(ArcsOf(edges))
    ensures found <==> Reach(ArcsOf(edges), bs, child)
    decreases |Below(ArcsOf(edges), bs)|
  {
    ReachViaChildren(edges, bs, child);
    if bs == child then true
    else exists c :: c in ChildrenOf(edges, bs) && (Descends(edges, bs, c); RecurseHasChild(edges, edges[c].bs.value, child))
  }

  lemma Descends(edges: Edges, bs: Node, c: Child)
    requires Acyclic(ArcsOf(edges)) && c in ChildrenOf(edges, bs)
    ensures |Below(ArcsOf(edges), edges[c].bs.value)| < |Below(ArcsOf(edges), bs)|
  {
    assert (bs, edges[c].bs.value) in ArcsOf(edges);
    BelowShrinks(ArcsOf(edges), bs, edges[c].bs.value);
  }

  /** Edge `c` belongs to a node that can be reached from `to`. */
  ghost predicate InSubtree(edges: Edges, c: Child, to: Node) {
    exists v :: IsChild(edges, c, v) && Reach(ArcsOf(edges), to, v)
  }

  /** should_update_child: `c` may be redirected to `to` unless its class stays at
      its node or it lies in the subtree of `to`. */
  method ShouldUpdateChild(edges: Edges, c: Child, to: Node, ghost nodes: set<Node>) returns (ret: bool)
    requires c in edges && Inside(edges, nodes) && to in nodes
    ensures ret <==> !(edges[c].parent.OfRoot? && edges[c].parent.stay) && !InSubtree(edges, c, to)
  {
    if edges[c].parent.OfRoot? && edges[c].parent.stay {
      return false;
    }
    ghost var a := ArcsOf(edges);
    ret := true;
    var found := {to};
    var queue := [to];
    ghost var done: set<Node> := {};
    ReachSelf(a, to);
    while queue != []
      invariant found <= nodes && to in found && forall x <- found :: Reach(a, to, x)
      invariant forall x :: x in found <==> x in done || x in queue
      invariant !ret ==> InSubtree(edges, c, to)
      invariant ret ==> forall v <- done :: Explored(edges, c, v, found)
      decreases nodes - found, |queue|
    {
      var v := queue[0];
      queue := queue[1..];
      done := done + {v};
      ghost var found0, queue0 := found, queue;
      var todo := ChildrenOf(edges, v);
      while todo != {}
        invariant todo <= ChildrenOf(edges, v)
        invariant found0 <= found <= nodes && forall x <- found :: Reach(a, to, x)
        invariant forall x :: x in found <==> x in done || x in queue
        invariant !ret ==> InSubtree(edges, c, to)
        invariant ret ==> forall d <- ChildrenOf(edges, v) - todo :: d != c && edges[d].bs.value in found
        invariant found == found0 ==> queue == queue0
      {
        var c2 :| c2 in todo;
        todo := todo - {c2};
        if c2 == c {
          ret := false;
          assert IsChild(edges, c, v) && Reach(a, to, v);
          break;
        }
        if edges[c2].bs.value in found {
          continue;
        }
        assert (v, edges[c2].bs.value) in a;
        ReachArc(a, to, v, edges[c2].bs.value);
        queue := queue + [edges[c2].bs.value];
        found := found + {edges[c2].bs.value};
      }
    }
    if ret {
      SubtreeExplored(edges, c, to, done);
    }
  }

  /** All of v's children have been looked at, and `c` was not among them. */
  ghost predicate Explored(edges: Edges, c: Child, v: Node, found: set<Node>) {
    forall d :: IsChild(edges, d, v) ==> d != c && edges[d].bs.value in found
  }

  lemma {:induction false} ExploredWalk(edges: Edges, c: Child, done: set<Node>, w: seq<Node>)
    requires Walk(ArcsOf(edges), w) && w[0] in done && forall v <- done :: Explored(edges, c, v, done)
    ensures w[|w| - 1] in done
    decreases |w|
  {
    if |w| > 1 {
      assert (w[0], w[0 + 1]) in ArcsOf(edges);
      ArcIsEdge(edges, w[0], w[1]);
      assert Explored(edges, c, w[0], done);
      var v := w[1..];
      forall i | 0 <= i < |v| - 1 ensures (v[i], v[i + 1]) in ArcsOf(edges) {
        assert (w[i + 1], w[i + 1 + 1]) in ArcsOf(edges);
      }
      ExploredWalk(edges, c, done, v);
    }
  }

  lemma SubtreeExplored(edges: Edges, c: Child, to: Node, done: set<Node>)
    requires to in done && forall v <- done :: Explored(edges, c, v, done)
    ensures !InSubtree(edges, c, to)
  {
    forall v | Reach(ArcsOf(edges), to, v) ensures !IsChild(edges, c, v) {
      var w :| Joins(ArcsOf(edges), w, to, v);
      ExploredWalk(edges, c, done, w);
      assert Explored(edges, c, v, done);
    }
  }
}
