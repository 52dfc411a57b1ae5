/**
 The block graph as a value: nodes (BlockDriverState), edges (BdrvChild) with
 their permissions, and the undo log of an open transaction.
 */
module BlockGraph {
  import opened Options
  import opened Digraph
  import opened BlockPerms
  import opened Sequences

  type Child = nat

  /** Who uses a node through an edge: another node (child_of_bds) or someone
      outside the graph; `stay` is the class's stay_at_node, set for jobs. */
  datatype Parent = OfNode(node: Node) | OfRoot(stay: bool)

  /** Which of the parent's `backing` and `file` links the edge occupies. */
  datatype Slot = Backing | File | Neither

  datatype Edge = Edge(parent: Parent, role: Role, slot: Slot, bs: Option<Node>, access: Access, frozen: bool)

  type Edges = map<Child, Edge>
  type Links = map<Node, Child>

  /** What does not change: the nodes' properties and the driver callbacks. */
  datatype NodeInfo = NodeInfo(
    hasDriver: bool, isFilter: bool, supportsBacking: bool, writable: bool, sizeAligned: bool, forceShare: bool)

  datatype Config = Config(
    nodes: map<Node, NodeInfo>,
    /** bdrv_child_perm of a node's driver, for an edge (None for one that is
        about to be created) with a role */
    childPerm: (Node, Option<Child>, Role, Access) -> Access,
    /** bdrv_check_perm of a node's driver */
    checkPerm: (Node, Access) -> bool)

  // ---- Edges -----------------------------------------------------------

  predicate IsParent(edges: Edges, c: Child, n: Node) {
    c in edges && edges[c].bs == Some(n)
  }

  /** `c` is on the children list of node `n`. */
  predicate IsChild(edges: Edges, c: Child, n: Node) {
    c in edges && edges[c].parent == OfNode(n) && edges[c].bs.Some?
  }

  function ParentsOf(edges: Edges, n: Node): set<Child> {
    set c | c in edges && IsParent(edges, c, n)
  }

  function ChildrenOf(edges: Edges, n: Node): set<Child> {
    set c | c in edges && IsChild(edges, c, n)
  }

  function ArcsOf(edges: Edges): Arcs {
    set c | c in edges && edges[c].parent.OfNode? && edges[c].bs.Some? :: (edges[c].parent.node, edges[c].bs.value)
  }

  /** Edges join nodes of the graph. */
  ghost predicate EdgesOk(cfg: Config, edges: Edges) {
    forall c <- edges ::
      && (edges[c].parent.OfNode? ==> edges[c].parent.node in cfg.nodes)
      && (edges[c].bs.Some? ==> edges[c].bs.value in cfg.nodes)
  }

  lemma ArcIsEdge(edges: Edges, x: Node, y: Node)
    ensures (x, y) in ArcsOf(edges) <==> exists c :: IsChild(edges, c, x) && IsParent(edges, c, y)
  {
    if (x, y) in ArcsOf(edges) {
      var c :| c in edges && edges[c].parent.OfNode? && edges[c].bs.Some? && (edges[c].parent.node, edges[c].bs.value) == (x, y);
      assert IsChild(edges, c, x) && IsParent(edges, c, y);
    }
  }

  // ---- Cumulative permissions ------------------------------------------

  /** bdrv_get_cumulative_perm. */
  ghost function Cumulative(edges: Edges, n: Node): Access {
    Access(
      Perms(exists c :: IsParent(edges, c, n) && edges[c].access.perm.consistentRead,
            exists c :: IsParent(edges, c, n) && edges[c].access.perm.write,
            exists c :: IsParent(edges, c, n) && edges[c].access.perm.writeUnchanged,
            exists c :: IsParent(edges, c, n) && edges[c].access.perm.resize),
      Perms(forall c :: IsParent(edges, c, n) ==> edges[c].access.shared.consistentRead,
            forall c :: IsParent(edges, c, n) ==> edges[c].access.shared.write,
            forall c :: IsParent(edges, c, n) ==> edges[c].access.shared.writeUnchanged,
            forall c :: IsParent(edges, c, n) ==> edges[c].access.shared.resize))
  }

  /** Two users of `n` want incompatible things (bdrv_parent_perms_conflict). */
  ghost predicate Conflict(edges: Edges, n: Node) {
    exists a, b :: IsParent(edges, a, n) && IsParent(edges, b, n) && a != b &&
                   !Within(edges[b].access.perm, edges[a].access.shared)
  }

  /** bdrv_child_perm: the driver's wish, overridden by force_share. */
  function ChildPerm(cfg: Config, n: Node, c: Option<Child>, role: Role, bs: Node, a: Access): Access {
    var w := cfg.childPerm(n, c, role, a);
    if bs in cfg.nodes && cfg.nodes[bs].forceShare then w.(shared := ALL_PERMS) else w
  }

  predicate Writes(p: Perms) { p.write || p.writeUnchanged }

  datatype PermError = ParentConflict | ReadOnly | Unaligned | DriverRefused

  /** The checks that bdrv_node_refresh_perm makes itself. */
  function ImageCheck(cfg: Config, n: Node, a: Access): Option<PermError>
    requires n in cfg.nodes
  {
    var info := cfg.nodes[n];
    if Writes(a.perm) && !info.writable then Some(ReadOnly)
    else if Writes(a.perm) && !a.perm.resize && !info.sizeAligned then Some(Unaligned)
    else None
  }

  /** A node without a driver agrees to everything. */
  predicate DriverAgrees(cfg: Config, n: Node, a: Access)
    requires n in cfg.nodes
  {
    cfg.nodes[n].hasDriver ==> cfg.checkPerm(n, a)
  }

  /** All that is checked before children are touched. */
  function NodeCheck(cfg: Config, n: Node, a: Access): Option<PermError>
    requires n in cfg.nodes
  {
    if ImageCheck(cfg, n, a).Some? then ImageCheck(cfg, n, a)
    else if !DriverAgrees(cfg, n, a) then Some(DriverRefused)
    else None
  }

  /** What a refresh establishes for a node: no conflict among its users, all
      checks passed, and every child edge exactly as its driver wants it. */
  ghost predicate NodeFresh(cfg: Config, edges: Edges, n: Node) {
    && n in cfg.nodes
    && !Conflict(edges, n)
    && NodeCheck(cfg, n, Cumulative(edges, n)) == None
    && (cfg.nodes[n].hasDriver ==>
          forall c :: IsChild(edges, c, n) ==>
            edges[c].access == ChildPerm(cfg, n, Some(c), edges[c].role, edges[c].bs.value, Cumulative(edges, n)))
  }

  // ---- Topological lists -----------------------------------------------

  /** Every parent comes before each of its children. */
  ghost predicate ParentsFirst(a: Arcs, list: seq<Node>) {
    forall i, j :: 0 <= i < |list| && 0 <= j < |list| && (list[i], list[j]) in a ==> i < j
  }

  /** With a node the list holds all its children. */
  ghost predicate ClosedDown(a: Arcs, list: seq<Node>) {
    forall x, y :: x in list && (x, y) in a ==> y in list
  }

  ghost predicate Topological(a: Arcs, list: seq<Node>) {
    NoDup(list) && ParentsFirst(a, list) && ClosedDown(a, list)
  }

  // ---- Changing edges --------------------------------------------------

  /** bdrv_replace_child_noperm, as far as the edge is concerned. */
  function Redirect(edges: Edges, c: Child, bs: Option<Node>): Edges
    requires c in edges
  {
    edges[c := edges[c].(bs := bs)]
  }

  function SetAccess(edges: Edges, c: Child, a: Access): Edges
    requires c in edges
  {
    edges[c := edges[c].(access := a)]
  }

  lemma RedirectArcs(edges: Edges, c: Child, bs: Option<Node>)
    requires c in edges
    ensures bs.None? ==> ArcsOf(Redirect(edges, c, bs)) <= ArcsOf(edges)
    ensures bs.Some? && edges[c].parent.OfNode? ==>
              ArcsOf(Redirect(edges, c, bs)) <= ArcsOf(edges) + {(edges[c].parent.node, bs.value)}
    ensures !edges[c].parent.OfNode? ==> ArcsOf(Redirect(edges, c, bs)) <= ArcsOf(edges)
  {
  }

  /** Redirecting an edge to a node from which its owner cannot be reached keeps
      the graph acyclic. */
  lemma RedirectAcyclic(edges: Edges, c: Child, bs: Option<Node>)
    requires c in edges && Acyclic(ArcsOf(edges))
    requires bs.Some? && edges[c].parent.OfNode? ==> !Reach(ArcsOf(edges), bs.value, edges[c].parent.node)
    ensures Acyclic(ArcsOf(Redirect(edges, c, bs)))
  {
    RedirectArcs(edges, c, bs);
    if bs.Some? && edges[c].parent.OfNode? {
      AddArc(ArcsOf(edges), edges[c].parent.node, bs.value);
      AcyclicSubset(ArcsOf(Redirect(edges, c, bs)), ArcsOf(edges) + {(edges[c].parent.node, bs.value)});
    } else {
      AcyclicSubset(ArcsOf(Redirect(edges, c, bs)), ArcsOf(edges));
    }
  }

  // ---- The `backing` and `file` links ----------------------------------

  /** The link map of one slot is exactly the attached edges in that slot. */
  ghost predicate LinksOk(edges: Edges, links: Links, slot: Slot) {
    && (forall n <- links :: IsChild(edges, links[n], n) && edges[links[n]].slot == slot)
    && (forall c <- edges :: edges[c].parent.OfNode? && edges[c].bs.Some? && edges[c].slot == slot ==>
          edges[c].parent.node in links && links[edges[c].parent.node] == c)
  }

  lemma LinksDetermined(edges: Edges, l1: Links, l2: Links, slot: Slot)
    requires LinksOk(edges, l1, slot) && LinksOk(edges, l2, slot)
    ensures l1 == l2
  {
    assert forall n :: n in l1 <==> n in l2;
  }

  /** The attach and detach callbacks of child_of_bds on one link map. */
  function Relink(links: Links, edges: Edges, c: Child, bs: Option<Node>, slot: Slot): Links
    requires c in edges
  {
    var e := edges[c];
    if !e.parent.OfNode? then links
    else
      var n := e.parent.node;
      var detached := if e.bs.Some? && n in links && links[n] == c then links - {n} else links;
      if bs.Some? && e.slot == slot then detached[n := c] else detached
  }

  lemma RelinkOk(edges: Edges, links: Links, c: Child, bs: Option<Node>, slot: Slot)
    requires c in edges && LinksOk(edges, links, slot)
    requires bs.Some? && edges[c].bs.None? && edges[c].parent.OfNode? && edges[c].slot == slot ==>
               edges[c].parent.node !in links
    ensures LinksOk(Redirect(edges, c, bs), Relink(links, edges, c, bs, slot), slot)
  {
  }

  // ---- Transactions ----------------------------------------------------

  /** The entries of a transaction, with what their abort callbacks restore. */
  datatype Action =
    | SetPerm(c: Child, oldAccess: Access)         // bdrv_child_set_perm
    | CheckedPerm(n: Node)                         // bdrv_drv_set_perm
    | ReplaceChild(c: Child, oldBs: Option<Node>)  // bdrv_replace_child_tran
    | AttachChild(c: Child)                        // bdrv_attach_child_common
    | RemoveChild(c: Child)                        // bdrv_remove_child

  /** The effect of one abort callback on the edges. */
  function Undo(edges: Edges, act: Action): Edges {
    match act
    case SetPerm(c, access) => if c in edges then SetAccess(edges, c, access) else edges
    case ReplaceChild(c, bs) => if c in edges then Redirect(edges, c, bs) else edges
    case AttachChild(c) => edges - {c}
    case _ => edges
  }

  /** The effect of aborting a transaction, newest entry first. */
  function UndoAll(edges: Edges, tran: seq<Action>): Edges
    decreases |tran|
  {
    if tran == [] then edges else UndoAll(Undo(edges, tran[0]), tran[1..])
  }

  // ---- References ------------------------------------------------------

  /** A node has at most one edge in each of its link slots. */
  ghost predicate SlotsOk(edges: Edges) {
    forall c, d {:trigger SameSlot(edges[c], edges[d])} :: c in edges && d in edges && SameSlot(edges[c], edges[d]) ==> c == d
  }

  predicate SameSlot(e: Edge, f: Edge) {
    e.bs.Some? && f.bs.Some? && e.parent.OfNode? && e.parent == f.parent && e.slot == f.slot && !e.slot.Neither?
  }

  ghost predicate GraphOk(cfg: Config, edges: Edges) {
    EdgesOk(cfg, edges) && Acyclic(ArcsOf(edges)) && SlotsOk(edges)
  }

  /** How many edges point at `n`. */
  function InEdges(edges: Edges, n: Node): nat { |ParentsOf(edges, n)| }

  /** How many transaction entries hold a reference to `n` as their old_bs. */
  function Held(tran: seq<Action>, n: Node): nat
    decreases |tran|
  {
    if tran == [] then 0
    else (if tran[0].ReplaceChild? && tran[0].oldBs == Some(n) then 1 else 0) + Held(tran[1..], n)
  }

  lemma RedirectInEdges(edges: Edges, c: Child, bs: Option<Node>, n: Node)
    requires c in edges && edges[c].bs != bs
    ensures InEdges(Redirect(edges, c, bs), n) ==
            InEdges(edges, n) + (if bs == Some(n) then 1 else 0) - (if edges[c].bs == Some(n) then 1 else 0)
  {
    var before := ParentsOf(edges, n);
    var after := ParentsOf(Redirect(edges, c, bs), n);
    if bs == Some(n) {
      assert after == before + {c};
    } else if edges[c].bs == Some(n) {
      assert after == before - {c};
    } else {
      assert after == before;
    }
  }
}
