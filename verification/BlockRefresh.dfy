/**
 Permission updates over a topologically sorted list of nodes: what they
 establish, and why taking a user away can never make one fail with a conflict.
 */
module BlockRefresh {
  import opened Options
  import opened Digraph
  import opened BlockPerms
  import opened BlockGraph
  import opened Sequences

  /** The edges differ in nothing but their permissions. */
  ghost predicate SameShape(e1: Edges, e2: Edges) {
    && e1.Keys == e2.Keys
    && forall c <- e1 :: e2[c] == e1[c].(access := e2[c].access)
  }

  /** What bdrv_node_refresh_perm does to the children of `n` once its checks
      have passed. */
  ghost function SetChildren(cfg: Config, edges: Edges, n: Node): Edges
    requires n in cfg.nodes
  {
    map c | c in edges ::
      if IsChild(edges, c, n) && cfg.nodes[n].hasDriver
      then edges[c].(access := ChildPerm(cfg, n, Some(c), edges[c].role, edges[c].bs.value, Cumulative(edges, n)))
      else edges[c]
  }

  datatype Outcome = Outcome(edges: Edges, error: Option<PermError>)

  /** bdrv_do_refresh_perms: the nodes of the list in order, until one fails. */
  ghost function Refresh(cfg: Config, edges: Edges, list: seq<Node>): Outcome
    requires forall n <- list :: n in cfg.nodes
    decreases |list|
  {
    if list == [] then Outcome(edges, None)
    else if Conflict(edges, list[0]) then Outcome(edges, Some(ParentConflict))
    else
      var r := NodeCheck(cfg, list[0], Cumulative(edges, list[0]));
      if r.Some? then Outcome(edges, r)
      else Refresh(cfg, SetChildren(cfg, edges, list[0]), list[1..])
  }

  // ---- Shape -----------------------------------------------------------

  lemma ShapeArcs(e1: Edges, e2: Edges)
    requires SameShape(e1, e2)
    ensures ArcsOf(e1) == ArcsOf(e2)
    ensures forall n :: ParentsOf(e1, n) == ParentsOf(e2, n) && ChildrenOf(e1, n) == ChildrenOf(e2, n)
  {
    forall x: Node, y: Node ensures (x, y) in ArcsOf(e1) <==> (x, y) in ArcsOf(e2) {
      ArcIsEdge(e1, x, y);
      ArcIsEdge(e2, x, y);
      assert forall c :: (IsChild(e1, c, x) && IsParent(e1, c, y)) <==> (IsChild(e2, c, x) && IsParent(e2, c, y));
    }
  }

  lemma {:induction false} RefreshShape(cfg: Config, edges: Edges, list: seq<Node>)
    requires forall n <- list :: n in cfg.nodes
    ensures SameShape(edges, Refresh(cfg, edges, list).edges)
    decreases |list|
  {
    if list != [] && !Conflict(edges, list[0]) && NodeCheck(cfg, list[0], Cumulative(edges, list[0])).None? {
      RefreshShape(cfg, SetChildren(cfg, edges, list[0]), list[1..]);
    }
  }

  // ---- A successful refresh --------------------------------------------

  /** The users of a node that is not a child of `n` keep their permissions. */
  lemma CumulativeKept(cfg: Config, edges: Edges, n: Node, x: Node)
    requires n in cfg.nodes && (n, x) !in ArcsOf(edges)
    ensures Cumulative(SetChildren(cfg, edges, n), x) == Cumulative(edges, x)
    ensures Conflict(SetChildren(cfg, edges, n), x) <==> Conflict(edges, x)
  {
    var e := SetChildren(cfg, edges, n);
    forall c | c in edges && edges[c].bs == Some(x) ensures e[c] == edges[c] {
      if IsChild(edges, c, n) {
        ArcIsEdge(edges, n, x);
        assert IsParent(edges, c, x);
      }
    }
    assert forall c :: IsParent(e, c, x) <==> IsParent(edges, c, x);
  }

  lemma FreshAfterSet(cfg: Config, edges: Edges, n: Node)
    requires n in cfg.nodes && Acyclic(ArcsOf(edges))
    requires !Conflict(edges, n) && NodeCheck(cfg, n, Cumulative(edges, n)).None?
    ensures NodeFresh(cfg, SetChildren(cfg, edges, n), n)
  {
    NoSelfArc(ArcsOf(edges), n);
    CumulativeKept(cfg, edges, n, n);
  }

  lemma NoSelfArc(a: Arcs, n: Node)
    requires Acyclic(a)
    ensures (n, n) !in a
  {
    ReachSelf(a, n);
    assert !ReachPlus(a, n, n);
  }

  lemma FreshKept(cfg: Config, edges: Edges, n: Node, x: Node)
    requires n in cfg.nodes && x != n && (n, x) !in ArcsOf(edges)
    requires NodeFresh(cfg, edges, x)
    ensures NodeFresh(cfg, SetChildren(cfg, edges, n), x)
  {
    CumulativeKept(cfg, edges, n, x);
  }

  /** Refreshing a list that comes later leaves an already fresh node fresh. */
  lemma {:induction false} FreshSurvives(cfg: Config, edges: Edges, list: seq<Node>, x: Node)
    requires forall n <- list :: n in cfg.nodes && n != x && (n, x) !in ArcsOf(edges)
    requires NodeFresh(cfg, edges, x)
    ensures NodeFresh(cfg, Refresh(cfg, edges, list).edges, x)
    decreases |list|
  {
    if list != [] && !Conflict(edges, list[0]) && NodeCheck(cfg, list[0], Cumulative(edges, list[0])).None? {
      var e := SetChildren(cfg, edges, list[0]);
      FreshKept(cfg, edges, list[0], x);
      ShapeArcs(edges, e);
      FreshSurvives(cfg, e, list[1..], x);
    }
  }

  lemma TailTopological(a: Arcs, list: seq<Node>)
    requires list != [] && NoDup(list) && ParentsFirst(a, list)
    ensures NoDup(list[1..]) && ParentsFirst(a, list[1..])
    ensures forall n <- list[1..] :: n != list[0] && (n, list[0]) !in a
  {
    forall i, j | 0 <= i < |list[1..]| && 0 <= j < |list[1..]| && (list[1..][i], list[1..][j]) in a ensures i < j {
      assert (list[i + 1], list[j + 1]) in a;
    }
    forall n <- list[1..] ensures n != list[0] && (n, list[0]) !in a {
      var i :| 0 <= i < |list[1..]| && list[1..][i] == n;
      assert list[i + 1] == n;
      assert (list[i + 1], list[0]) !in a;
    }
  }

  /** Because parents come first, no user of a node changes after the node has
      been checked: when the whole list succeeds, every node on it is free of
      conflicts, passes its checks and has its children as its driver wants. */
  lemma {:induction false} RefreshMakesFresh(cfg: Config, edges: Edges, list: seq<Node>)
    requires forall n <- list :: n in cfg.nodes
    requires Acyclic(ArcsOf(edges)) && NoDup(list) && ParentsFirst(ArcsOf(edges), list)
    requires Refresh(cfg, edges, list).error.None?
    ensures forall n <- list :: NodeFresh(cfg, Refresh(cfg, edges, list).edges, n)
    decreases |list|
  {
    if list != [] {
      var n := list[0];
      var e := SetChildren(cfg, edges, n);
      ShapeArcs(edges, e);
      TailTopological(ArcsOf(edges), list);
      RefreshMakesFresh(cfg, e, list[1..]);
      FreshAfterSet(cfg, edges, n);
      FreshSurvives(cfg, e, list[1..], n);
    }
  }

  /** A refresh touches only edges that belong to nodes of the list. */
  lemma {:induction false} RefreshFrame(cfg: Config, edges: Edges, list: seq<Node>, c: Child)
    requires forall n <- list :: n in cfg.nodes
    requires c in edges && forall n <- list :: !IsChild(edges, c, n)
    ensures c in Refresh(cfg, edges, list).edges && Refresh(cfg, edges, list).edges[c] == edges[c]
    decreases |list|
  {
    if list != [] && !Conflict(edges, list[0]) && NodeCheck(cfg, list[0], Cumulative(edges, list[0])).None? {
      var e := SetChildren(cfg, edges, list[0]);
      assert list[0] in list && e[c] == edges[c];
      forall n <- list[1..] ensures !IsChild(e, c, n) {
        assert n in list;
      }
      RefreshFrame(cfg, e, list[1..], c);
    }
  }

  // ---- Taking a user away ----------------------------------------------

  /** Every driver's child permissions are monotone, as the default ones are. */
  ghost predicate MonotoneDrivers(cfg: Config) {
    forall n, c, role, a, b {:trigger cfg.childPerm(n, c, role, a), cfg.childPerm(n, c, role, b)} ::
      Looser(a, b) ==> Looser(cfg.childPerm(n, c, role, a), cfg.childPerm(n, c, role, b))
  }

  /** `e` has no edges that `g` has not, and each of them is at most as strict. */
  ghost predicate LooserGraph(e: Edges, g: Edges) {
    forall c <- e :: c in g && e[c] == g[c].(access := e[c].access) && Looser(e[c].access, g[c].access)
  }

  lemma LooserCumulative(e: Edges, g: Edges, n: Node)
    requires LooserGraph(e, g)
    ensures Looser(Cumulative(e, n), Cumulative(g, n))
    ensures Conflict(e, n) ==> Conflict(g, n)
  {
    assert forall c :: IsParent(e, c, n) ==> IsParent(g, c, n);
    if Conflict(e, n) {
      var a, b :| IsParent(e, a, n) && IsParent(e, b, n) && a != b && !Within(e[b].access.perm, e[a].access.shared);
      assert IsParent(g, a, n) && IsParent(g, b, n);
    }
  }

  lemma LooserChildPerm(cfg: Config, n: Node, c: Option<Child>, role: Role, bs: Node, a: Access, b: Access)
    requires MonotoneDrivers(cfg) && Looser(a, b)
    ensures Looser(ChildPerm(cfg, n, c, role, bs, a), ChildPerm(cfg, n, c, role, bs, b))
  {
    assert Looser(cfg.childPerm(n, c, role, a), cfg.childPerm(n, c, role, b));
  }

  lemma LooserAfterSet(cfg: Config, e: Edges, g: Edges, n: Node)
    requires MonotoneDrivers(cfg) && LooserGraph(e, g) && NodeFresh(cfg, g, n)
    ensures LooserGraph(SetChildren(cfg, e, n), g)
  {
    LooserCumulative(e, g, n);
    var e' := SetChildren(cfg, e, n);
    forall c <- e' ensures e'[c] == g[c].(access := e'[c].access) && Looser(e'[c].access, g[c].access) {
      if IsChild(e, c, n) && cfg.nodes[n].hasDriver {
        assert IsChild(g, c, n);
        LooserChildPerm(cfg, n, Some(c), e[c].role, e[c].bs.value, Cumulative(e, n), Cumulative(g, n));
      }
    }
  }

  /** In a graph that is looser than a consistent one, a refresh loosens further
      and cannot fail with a conflict or for want of write access: only the
      alignment check and the drivers' own checks are not monotone. */
  lemma {:induction false} LooseningIsSafe(cfg: Config, e: Edges, g: Edges, list: seq<Node>)
    requires forall n <- list :: n in cfg.nodes && NodeFresh(cfg, g, n)
    requires MonotoneDrivers(cfg) && LooserGraph(e, g)
    ensures LooserGraph(Refresh(cfg, e, list).edges, g)
    ensures var r := Refresh(cfg, e, list).error; r == None || r == Some(Unaligned) || r == Some(DriverRefused)
    decreases |list|
  {
    if list != [] {
      LooserCumulative(e, g, list[0]);
      LooserAfterSet(cfg, e, g, list[0]);
      if NodeCheck(cfg, list[0], Cumulative(e, list[0])).None? {
        LooseningIsSafe(cfg, SetChildren(cfg, e, list[0]), g, list[1..]);
      }
    }
  }

  /** Removing an edge loosens the graph. */
  lemma RemovalLoosens(g: Edges, c: Child)
    ensures LooserGraph(g - {c}, g)
  {
  }

  /** Nodes whose drivers use bdrv_default_perms. */
  ghost predicate DefaultDrivers(cfg: Config, flags: Node -> Flags) {
    forall n, c, role, a {:trigger cfg.childPerm(n, c, role, a)} ::
      cfg.childPerm(n, c, role, a) == if RoleOk(role) then DefaultPerms(flags(n), role, a) else a
  }

  lemma DefaultDriversAreMonotone(cfg: Config, flags: Node -> Flags)
    requires DefaultDrivers(cfg, flags)
    ensures MonotoneDrivers(cfg)
  {
    forall n, c, role, a, b | Looser(a, b)
      ensures Looser(cfg.childPerm(n, c, role, a), cfg.childPerm(n, c, role, b))
    {
      if RoleOk(role) {
        DefaultPermsMonotone(flags(n), role, a, b);
      }
    }
  }
}
