/**
 The block layer's graph operations: edges are changed inside a transaction
 without regard to permissions, permissions are then refreshed, and the
 transaction commits or is rolled back.
 */
module BlockLayer {
  import opened Options
  import opened Digraph
  import opened BlockPerms
  import opened BlockGraph
  import opened BlockSearch
  import opened BlockRefresh
  import opened BlockReplace
  import opened BlockTran

  /** Cumulative permissions over some of a node's users. */
  ghost function AccessOver(edges: Edges, s: set<Child>): Access {
    Access(
      Perms(exists c :: c in s && c in edges && edges[c].access.perm.consistentRead,
            exists c :: c in s && c in edges && edges[c].access.perm.write,
            exists c :: c in s && c in edges && edges[c].access.perm.writeUnchanged,
            exists c :: c in s && c in edges && edges[c].access.perm.resize),
      Perms(forall c :: c in s && c in edges ==> edges[c].access.shared.consistentRead,
            forall c :: c in s && c in edges ==> edges[c].access.shared.write,
            forall c :: c in s && c in edges ==> edges[c].access.shared.writeUnchanged,
            forall c :: c in s && c in edges ==> edges[c].access.shared.resize))
  }

  lemma AccessOverParents(edges: Edges, n: Node)
    ensures AccessOver(edges, ParentsOf(edges, n)) == Cumulative(edges, n)
  {
    assert forall c :: c in ParentsOf(edges, n) <==> IsParent(edges, c, n);
  }

  lemma AccessOverOne(edges: Edges, s: set<Child>, c: Child)
    requires c in edges
    ensures AccessOver(edges, s + {c}) ==
            Access(Union(AccessOver(edges, s).perm, edges[c].access.perm), Meet(AccessOver(edges, s).shared, edges[c].access.shared))
  {
  }

  /** bdrv_get_cumulative_perm. */
  method GetCumulativePerm(edges: Edges, n: Node) returns (a: Access)
    ensures a == Cumulative(edges, n)
  {
    a := Access(NO_PERMS, ALL_PERMS);
    var todo := ParentsOf(edges, n);
    ghost var all := todo;
    while todo != {}
      invariant todo <= all
      invariant a == AccessOver(edges, all - todo)
    {
      var c :| c in todo;
      AccessOverOne(edges, all - todo, c);
      assert all - (todo - {c}) == (all - todo) + {c};
      a := Access(Union(a.perm, edges[c].access.perm), Meet(a.shared, edges[c].access.shared));
      todo := todo - {c};
    }
    assert all - {} == all;
    AccessOverParents(edges, n);
  }

  /** bdrv_parent_perms_conflict: each pair in both directions. */
  method ParentPermsConflict(edges: Edges, n: Node) returns (conflict: bool)
    ensures conflict <==> Conflict(edges, n)
  {
    var parents := ParentsOf(edges, n);
    var todo := parents;
    while todo != {}
      invariant todo <= parents
      invariant forall a, b :: a in parents - todo && b in parents && a != b ==> Within(edges[b].access.perm, edges[a].access.shared)
    {
      var a :| a in todo;
      var others := parents;
      while others != {}
        invariant others <= parents
        invariant forall b :: b in parents - others && a != b ==> Within(edges[b].access.perm, edges[a].access.shared)
      {
        var b :| b in others;
        if a != b && !Within(edges[b].access.perm, edges[a].access.shared) {
          assert IsParent(edges, a, n) && IsParent(edges, b, n);
          return true;
        }
        others := others - {b};
      }
      todo := todo - {a};
    }
    forall a, b | IsParent(edges, a, n) && IsParent(edges, b, n) && a != b
      ensures Within(edges[b].access.perm, edges[a].access.shared)
    {
      assert a in parents - todo && b in parents;
    }
    return false;
  }

  /** What `n` wants of one of its edges, when its users want `a` of it. */
  function Wanted(cfg: Config, n: Node, a: Access, c: Child, e: Edge): Edge {
    if e.bs.Some? then e.(access := ChildPerm(cfg, n, Some(c), e.role, e.bs.value, a)) else e
  }

  ghost predicate SetSoFar(cfg: Config, n: Node, a: Access, e0: Edges, e: Edges, done: set<Child>) {
    && e.Keys == e0.Keys
    && forall c <- e :: e[c] == if c in done then Wanted(cfg, n, a, c, e0[c]) else e0[c]
  }

  lemma SetNext(cfg: Config, n: Node, a: Access, e0: Edges, e: Edges, done: set<Child>, c: Child)
    requires SetSoFar(cfg, n, a, e0, e, done) && c in e && c !in done
    ensures SetSoFar(cfg, n, a, e0, e[c := Wanted(cfg, n, a, c, e[c])], done + {c})
  {
  }

  lemma WantedIsSet(cfg: Config, e: Edges, e': Edges, n: Node)
    requires n in cfg.nodes && cfg.nodes[n].hasDriver
    requires SetSoFar(cfg, n, Cumulative(e, n), e, e', ChildrenOf(e, n))
    ensures e' == SetChildren(cfg, e, n)
  {
  }

  lemma NoEdges(e: Edges)
    requires e == map[]
    ensures Acyclic(ArcsOf(e)) && forall n :: InEdges(e, n) == 0
  {
    assert ArcsOf(e) == {};
    forall n: Node ensures InEdges(e, n) == 0 {
      assert ParentsOf(e, n) == {};
    }
  }

  lemma InsideNodes(cfg: Config, edges: Edges)
    requires EdgesOk(cfg, edges)
    ensures Inside(edges, cfg.nodes.Keys)
  {
  }

  class BlockLayer {
    const cfg: Config

    var edges: Edges
    var backing: Links
    var file: Links
    var refs: Refs
    /** The open transaction, newest entry first. */
    var tran: seq<Action>

    ghost predicate Valid()
      reads this
    {
      && GraphOk(cfg, edges)
      && LinksOk(edges, backing, Backing)
      && LinksOk(edges, file, File)
      && LogOk(cfg, edges, tran, refs)
    }

    /** Nodes that have been opened, and no edges yet. */
    constructor (cfg: Config, owners: multiset<Node>)
      ensures Valid() && this.cfg == cfg && edges == map[] && tran == [] && refs.owners == owners
    {
      this.cfg := cfg;
      edges, backing, file, tran := map[], map[], map[], [];
      refs := Refs(map n | n in cfg.nodes :: owners[n], multiset{}, owners);
      new;
      NoEdges(edges);
    }

    /** A node that an edge points at has references, so it is not deleted. */
    lemma PointedAtIsAlive(c: Child)
      requires Valid() && c in edges && edges[c].bs.Some?
      ensures edges[c].bs.value in refs.refcnt && refs.refcnt[edges[c].bs.value] >= 1
    {
      assert c in ParentsOf(edges, edges[c].bs.value);
      assert edges[c].bs.value in cfg.nodes;
    }

    /** bdrv_replace_child_noperm, with the class's detach and attach callbacks. */
    method ReplaceChildNoperm(c: Child, bs: Option<Node>)
      requires c in edges && !edges[c].frozen && edges[c].bs != bs
      requires LinksOk(edges, backing, Backing) && LinksOk(edges, file, File)
      requires SlotsOk(Redirect(edges, c, bs))
      modifies this`edges, this`backing, this`file
      ensures edges == Redirect(old(edges), c, bs)
      ensures LinksOk(edges, backing, Backing) && LinksOk(edges, file, File)
    {
      SlotFree(edges, backing, c, bs, Backing);
      SlotFree(edges, file, c, bs, File);
      RelinkOk(edges, backing, c, bs, Backing);
      RelinkOk(edges, file, c, bs, File);
      backing := Relink(backing, edges, c, bs, Backing);
      file := Relink(file, edges, c, bs, File);
      edges := Redirect(edges, c, bs);
    }

    /** bdrv_replace_child_tran. */
    method ReplaceChildTran(c: Child, bs: Option<Node>)
      requires Valid() && c in edges && !edges[c].frozen && edges[c].bs.Some? && edges[c].bs != bs
      requires GraphOk(cfg, Redirect(edges, c, bs))
      modifies this`edges, this`backing, this`file, this`tran, this`refs
      ensures Valid() && refs.owners == old(refs.owners)
      ensures edges == Redirect(old(edges), c, bs)
      ensures tran == [ReplaceChild(c, old(edges[c].bs))] + old(tran)
      ensures UndoAll(edges, tran) == old(UndoAll(edges, tran))
    {
      ReplaceStep(cfg, edges, tran, refs, c, bs);
      tran := [ReplaceChild(c, edges[c].bs)] + tran;
      refs := AddRef(refs, bs);
      ReplaceChildNoperm(c, bs);
    }

    /** bdrv_child_set_perm. */
    method ChildSetPerm(c: Child, a: Access)
      requires Valid() && c in edges
      modifies this`edges, this`tran
      ensures Valid()
      ensures edges == SetAccess(old(edges), c, a)
      ensures Removed(tran) == Removed(old(tran))
      ensures UndoAll(edges, tran) == old(UndoAll(edges, tran))
    {
      SetPermStep(cfg, edges, tran, refs, c, a);
      SetAccessShape(edges, c, a);
      ShapeLinks(edges, SetAccess(edges, c, a), backing, Backing);
      ShapeLinks(edges, SetAccess(edges, c, a), file, File);
      ShapeGraphOk(cfg, edges, SetAccess(edges, c, a));
      RemovedPush(SetPerm(c, edges[c].access), tran);
      tran := [SetPerm(c, edges[c].access)] + tran;
      edges := SetAccess(edges, c, a);
    }

    method SetOneChild(n: Node, a: Access, c: Child)
      requires Valid() && c in edges && edges[c].bs.Some?
      modifies this`edges, this`tran
      ensures Valid() && edges == old(edges)[c := Wanted(cfg, n, a, c, old(edges)[c])]
      ensures Removed(tran) == Removed(old(tran))
      ensures UndoAll(edges, tran) == old(UndoAll(edges, tran))
    {
      ChildSetPerm(c, ChildPerm(cfg, n, Some(c), edges[c].role, edges[c].bs.value, a));
    }

    /** The loop of bdrv_node_refresh_perm over the children. */
    method SetChildPerms(n: Node, a: Access)
      requires Valid()
      modifies this`edges, this`tran
      ensures Valid() && SetSoFar(cfg, n, a, old(edges), edges, ChildrenOf(old(edges), n))
      ensures Removed(tran) == Removed(old(tran))
      ensures UndoAll(edges, tran) == old(UndoAll(edges, tran))
    {
      ghost var e0 := edges;
      var all, done: set<Child> := ChildrenOf(edges, n), {};
      while all - done != {}
        invariant Valid() && done <= all
        invariant SetSoFar(cfg, n, a, e0, edges, done)
        invariant Removed(tran) == Removed(old(tran))
        invariant UndoAll(edges, tran) == old(UndoAll(edges, tran))
      {
        var c :| c in all - done;
        SetNext(cfg, n, a, e0, edges, done, c);
        SetOneChild(n, a, c);
        done := done + {c};
      }
      assert done == all;
    }

    /** bdrv_drv_set_perm: the driver has to agree to the node's permissions. */
    method DriverSetPerm(n: Node, a: Access) returns (ok: bool)
      requires Valid() && n in cfg.nodes
      modifies this`tran
      ensures Valid() && (ok <==> DriverAgrees(cfg, n, a))
      ensures tran == if ok && cfg.nodes[n].hasDriver then [CheckedPerm(n)] + old(tran) else old(tran)
      ensures Removed(tran) == Removed(old(tran))
      ensures UndoAll(edges, tran) == old(UndoAll(edges, tran))
    {
      if !cfg.nodes[n].hasDriver {
        return true;
      }
      if !cfg.checkPerm(n, a) {
        return false;
      }
      CheckStep(cfg, edges, tran, refs, n);
      RemovedPush(CheckedPerm(n), tran);
      tran := [CheckedPerm(n)] + tran;
      return true;
    }

    /** bdrv_node_refresh_perm after its own checks. */
    method ApplyPerms(n: Node, a: Access) returns (ok: bool)
      requires Valid() && n in cfg.nodes && a == Cumulative(edges, n)
      modifies this`edges, this`tran
      ensures Valid() && (ok <==> DriverAgrees(cfg, n, a))
      ensures edges == if ok then SetChildren(cfg, old(edges), n) else old(edges)
      ensures Removed(tran) == Removed(old(tran))
      ensures UndoAll(edges, tran) == old(UndoAll(edges, tran))
    {
      ok := DriverSetPerm(n, a);
      if ok && cfg.nodes[n].hasDriver {
        SetChildPerms(n, a);
        WantedIsSet(cfg, old(edges), edges, n);
      } else if ok {
        assert edges == SetChildren(cfg, edges, n);
      }
    }

    /** bdrv_node_refresh_perm. */
    method NodeRefreshPerm(n: Node) returns (error: Option<PermError>)
      requires Valid() && n in cfg.nodes
      modifies this`edges, this`tran
      ensures Valid()
      ensures error == NodeCheck(cfg, n, Cumulative(old(edges), n))
      ensures edges == if error.None? then SetChildren(cfg, old(edges), n) else old(edges)
      ensures Removed(tran) == Removed(old(tran))
      ensures UndoAll(edges, tran) == old(UndoAll(edges, tran))
    {
      var a := GetCumulativePerm(edges, n);
      error := ImageCheck(cfg, n, a);
      if error.None? {
        var ok := ApplyPerms(n, a);
        error := if ok then None else Some(DriverRefused);
      }
    }

    /** bdrv_do_refresh_perms. */
    method DoRefreshPerms(list: seq<Node>) returns (error: Option<PermError>)
      requires Valid() && forall n <- list :: n in cfg.nodes
      modifies this`edges, this`tran
      ensures Valid()
      ensures Outcome(edges, error) == Refresh(cfg, old(edges), list)
      ensures Removed(tran) == Removed(old(tran))
      ensures UndoAll(edges, tran) == old(UndoAll(edges, tran))
    {
      var i := 0;
      while i < |list|
        invariant 0 <= i <= |list| && Valid()
        invariant Refresh(cfg, edges, list[i..]) == Refresh(cfg, old(edges), list)
        invariant Removed(tran) == Removed(old(tran))
        invariant UndoAll(edges, tran) == old(UndoAll(edges, tran))
      {
        assert list[i..][0] == list[i] && list[i..][1..] == list[i + 1..];
        var conflict := ParentPermsConflict(edges, list[i]);
        if conflict {
          return Some(ParentConflict);
        }
        error := NodeRefreshPerm(list[i]);
        if error.Some? {
          return;
        }
        i := i + 1;
      }
      return None;
    }

    /** bdrv_list_refresh_perms, and bdrv_refresh_perms for a single root. */
    method RefreshPerms(roots: seq<Node>) returns (error: Option<PermError>)
      requires Valid() && forall n <- roots :: n in cfg.nodes
      modifies this`edges, this`tran
      ensures Valid()
      ensures error.None? ==> Refreshed(cfg, old(edges), edges, roots)
      ensures exists list :: IsRefreshList(cfg, old(edges), roots, list) && Outcome(edges, error) == Refresh(cfg, old(edges), list)
      ensures Removed(tran) == Removed(old(tran))
      ensures UndoAll(edges, tran) == old(UndoAll(edges, tran))
    {
      InsideNodes(cfg, edges);
      var list := TopologicalList(edges, roots, cfg.nodes.Keys);
      assert IsRefreshList(cfg, edges, roots, list);
      if Refresh(cfg, edges, list).error.None? {
        RefreshIsRefreshed(cfg, edges, list, roots);
      }
      error := DoRefreshPerms(list);
    }

    // ---- Finishing a transaction -----------------------------------------

    /** One abort callback: the newest entry is undone and taken off. */
    method AbortOne()
      requires tran != [] && CanUndoAll(cfg, edges, tran) && RefsOk(cfg, edges, tran, refs)
      requires LinksOk(edges, backing, Backing) && LinksOk(edges, file, File)
      modifies this`edges, this`backing, this`file, this`tran, this`refs
      ensures tran == old(tran)[1..] && edges == Undo(old(edges), old(tran)[0])
      ensures CanUndoAll(cfg, edges, tran) && RefsOk(cfg, edges, tran, refs)
      ensures LinksOk(edges, backing, Backing) && LinksOk(edges, file, File)
      ensures refs.owners == old(refs.owners)
    {
      match tran[0] {
        case SetPerm(c, access) =>
          SetAccessShape(edges, c, access);
          ShapeArcs(edges, SetAccess(edges, c, access));
          ShapeLinks(edges, SetAccess(edges, c, access), backing, Backing);
          ShapeLinks(edges, SetAccess(edges, c, access), file, File);
          edges := SetAccess(edges, c, access);
        case ReplaceChild(c, bs) =>
          UnreplaceRefs(cfg, edges, tran, refs, c, bs);
          refs := DropRef(refs, edges[c].bs);
          ReplaceChildNoperm(c, bs);
        case AttachChild(c) =>
          UnattachRefs(cfg, edges, tran, refs, c);
          DetachForFree(cfg, edges, c);
          refs := Schedule(refs, edges[c].bs);
          ReplaceChildNoperm(c, None);
          FreeLinks(edges, c, backing, Backing);
          FreeLinks(edges, c, file, File);
          edges := edges - {c};
        case CheckedPerm(_) =>
        case RemoveChild(_) =>
      }
      tran := tran[1..];
    }

    /** tran_abort: the callbacks run from the newest entry to the oldest. */
    method TranAbort()
      requires Valid()
      modifies this`edges, this`backing, this`file, this`tran, this`refs
      ensures Valid() && tran == []
      ensures edges == old(UndoAll(edges, tran)) && refs.owners == old(refs.owners)
    {
      while tran != []
        invariant CanUndoAll(cfg, edges, tran) && RefsOk(cfg, edges, tran, refs)
        invariant LinksOk(edges, backing, Backing) && LinksOk(edges, file, File)
        invariant UndoAll(edges, tran) == old(UndoAll(edges, tran))
        invariant refs.owners == old(refs.owners)
        decreases |tran|
      {
        AbortOne();
      }
    }

    /** tran_commit: old references are dropped and removed edges are freed. */
    method TranCommit()
      requires Valid()
      modifies this`edges, this`tran, this`refs
      ensures Valid() && tran == [] && refs.owners == old(refs.owners)
      ensures edges == old(edges) - Removed(old(tran))
    {
      ghost var t0 := tran;
      while tran != []
        invariant GraphOk(cfg, edges) && RemovalsOk(edges, tran) && RefsOk(cfg, edges, tran, refs)
        invariant LinksOk(edges, backing, Backing) && LinksOk(edges, file, File)
        invariant edges - Removed(tran) == old(edges) - Removed(t0)
        invariant refs.owners == old(refs.owners)
        decreases |tran|
      {
        CommitOne();
      }
    }

    method CommitOne()
      requires tran != [] && GraphOk(cfg, edges) && RemovalsOk(edges, tran) && RefsOk(cfg, edges, tran, refs)
      requires LinksOk(edges, backing, Backing) && LinksOk(edges, file, File)
      modifies this`edges, this`tran, this`refs
      ensures tran == old(tran)[1..] && refs.owners == old(refs.owners)
      ensures GraphOk(cfg, edges) && RemovalsOk(edges, tran) && RefsOk(cfg, edges, tran, refs)
      ensures LinksOk(edges, backing, Backing) && LinksOk(edges, file, File)
      ensures edges - Removed(tran) == old(edges) - Removed(old(tran))
    {
      RemovalsTail(edges, tran);
      match tran[0] {
        case ReplaceChild(_, bs) =>
          CommitReplaceRefs(cfg, edges, tran, refs);
          refs := Schedule(refs, bs);
        case RemoveChild(c) =>
          FreeDetached(cfg, edges, c);
          FreeLinks(edges, c, backing, Backing);
          FreeLinks(edges, c, file, File);
          edges := edges - {c};
        case SetPerm(_, _) =>
        case AttachChild(_) =>
        case CheckedPerm(_) =>
      }
      tran := tran[1..];
    }

    /** tran_finalize. */
    method TranFinalize(ok: bool)
      requires Valid()
      modifies this`edges, this`backing, this`file, this`tran, this`refs
      ensures Valid() && tran == [] && refs.owners == old(refs.owners)
      ensures edges == if ok then old(edges) - Removed(old(tran)) else old(UndoAll(edges, tran))
    {
      if ok {
        TranCommit();
      } else {
        TranAbort();
      }
    }

    // ---- Changing the graph ----------------------------------------------

    /** bdrv_attach_child_common.  `ctxOk` says whether parent and child could be
        brought into the same AioContext. */
    method AttachChildCommon(c: Child, e: Edge, ctxOk: bool) returns (ok: bool)
      requires Valid() && c !in edges && !e.frozen && e.bs.Some? && e.bs.value in cfg.nodes
      requires e.parent.OfNode? ==> e.parent.node in cfg.nodes && !Reach(ArcsOf(edges), e.bs.value, e.parent.node)
      requires SlotOpen(edges, e)
      modifies this`edges, this`backing, this`file, this`tran, this`refs
      ensures Valid() && ok == ctxOk && refs.owners == old(refs.owners)
      ensures edges == if ok then old(edges)[c := e] else old(edges)
      ensures UndoAll(edges, tran) == old(UndoAll(edges, tran))
      ensures tran == if ok then [AttachChild(c)] + old(tran) else old(tran)
    {
      if !ctxOk {
        return false;
      }
      AttachGraphOk(cfg, edges, c, e);
      AttachStep(cfg, edges, tran, refs, c, e);
      refs := AddRef(refs, e.bs);
      tran := [AttachChild(c)] + tran;
      FillNewEdge(c, e);
      return true;
    }

    /** The new edge starts empty. */
    method FillNewEdge(c: Child, e: Edge)
      requires c !in edges && !e.frozen && e.bs.Some? && GraphOk(cfg, edges[c := e])
      requires LinksOk(edges, backing, Backing) && LinksOk(edges, file, File)
      modifies this`edges, this`backing, this`file
      ensures edges == old(edges)[c := e]
      ensures LinksOk(edges, backing, Backing) && LinksOk(edges, file, File)
    {
      AttachLinks(edges, backing, c, e, Backing);
      AttachLinks(edges, file, c, e, File);
      ghost var e0 := edges;
      edges := edges[c := e.(bs := None)];
      assert Redirect(edges, c, e.bs) == e0[c := e];
      ReplaceChildNoperm(c, e.bs);
    }

    /** bdrv_attach_child_noperm: refuses an edge that would close a loop. */
    method AttachChildNoperm(parent: Node, bs: Node, c: Child, role: Role, slot: Slot, ctxOk: bool) returns (ok: bool)
      requires Valid() && c !in edges && parent in cfg.nodes && bs in cfg.nodes
      requires SlotOpen(edges, NewEdge(cfg, edges, parent, bs, role, slot))
      modifies this`edges, this`backing, this`file, this`tran, this`refs
      ensures Valid() && refs.owners == old(refs.owners)
      ensures ok <==> ctxOk && Acyclic(old(ArcsOf(edges)) + {(parent, bs)})
      ensures edges == if ok then old(edges)[c := NewEdge(cfg, old(edges), parent, bs, role, slot)] else old(edges)
      ensures UndoAll(edges, tran) == old(UndoAll(edges, tran))
      ensures tran == if ok then [AttachChild(c)] + old(tran) else old(tran)
    {
      AddArc(ArcsOf(edges), parent, bs);
      if RecurseHasChild(edges, bs, parent) {
        return false;
      }
      var a := GetCumulativePerm(edges, parent);
      var e := Edge(OfNode(parent), role, slot, Some(bs), ChildPerm(cfg, parent, None, role, bs, a), false);
      ok := AttachChildCommon(c, e, ctxOk);
    }

    /** bdrv_remove_child; an edge may be empty already. */
    method RemoveChildTran(c: Child)
      requires Valid() && c in edges && if edges[c].bs.Some? then !edges[c].frozen else c !in Removed(tran)
      modifies this`edges, this`backing, this`file, this`tran, this`refs
      ensures Valid() && refs.owners == old(refs.owners)
      ensures edges == Redirect(old(edges), c, None)
      ensures tran == [RemoveChild(c)] + (if old(edges[c].bs).Some? then [ReplaceChild(c, old(edges[c].bs))] else []) + old(tran)
      ensures UndoAll(edges, tran) == old(UndoAll(edges, tran))
    {
      ghost var e0, t0 := edges, tran;
      if edges[c].bs.Some? {
        DetachGraphOk(cfg, edges, c);
        ReplaceChildTran(c, None);
        forall i | 0 <= i < |tran| && tran[i].RemoveChild? ensures tran[i].c != c {
          assert tran[i] == t0[i - 1];
        }
      }
      RemoveStep(cfg, edges, tran, refs, c);
      tran := [RemoveChild(c)] + tran;
    }

    /** The same for an edge that is not empty. */
    method RemoveAttached(c: Child)
      requires Valid() && c in edges && !edges[c].frozen && edges[c].bs.Some?
      modifies this`edges, this`backing, this`file, this`tran, this`refs
      ensures Valid() && refs.owners == old(refs.owners)
      ensures edges == Redirect(old(edges), c, None) && Removed(tran) == Removed(old(tran)) + {c}
      ensures UndoAll(edges, tran) == old(UndoAll(edges, tran))
    {
      RemovedPushPair(c, edges[c].bs, tran);
      RemoveChildTran(c);
      assert tran == [RemoveChild(c), ReplaceChild(c, old(edges[c].bs))] + old(tran);
    }

    /** One user of a node that is being replaced: it moves, stays, or may do
        neither. */
    method MoveUser(c: Child, to: Node, autoSkip: bool) returns (ok: bool)
      requires Valid() && c in edges && edges[c].bs.Some? && edges[c].bs != Some(to) && to in cfg.nodes
      modifies this`edges, this`backing, this`file, this`tran, this`refs
      ensures Valid() && refs.owners == old(refs.owners)
      ensures UndoAll(edges, tran) == old(UndoAll(edges, tran))
      ensures Removed(tran) == Removed(old(tran))
      ensures ok <==> MoveAllowed(old(edges), c, to, autoSkip)
      ensures edges == if ok && Updatable(old(edges), c, to) then Redirect(old(edges), c, Some(to)) else old(edges)
    {
      InsideNodes(cfg, edges);
      var update := ShouldUpdateChild(edges, c, to, cfg.nodes.Keys);
      if !update {
        return autoSkip;
      }
      if edges[c].frozen {
        return false;
      }
      MoveGraphOk(cfg, edges, c, to);
      RemovedPush(ReplaceChild(c, edges[c].bs), tran);
      ReplaceChildTran(c, Some(to));
      return true;
    }

    /** bdrv_replace_node_noperm: the users of `from` move to `to`, unless they
        must stay or their move would close a loop; with `autoSkip` false such a
        user is an error, and so is one whose link is frozen. */
    method ReplaceNodeNoperm(from: Node, to: Node, autoSkip: bool) returns (ok: bool)
      requires Valid() && from in cfg.nodes && to in cfg.nodes && from != to
      modifies this`edges, this`backing, this`file, this`tran, this`refs
      ensures Valid() && refs.owners == old(refs.owners)
      ensures UndoAll(edges, tran) == old(UndoAll(edges, tran))
      ensures Removed(tran) == Removed(old(tran))
      ensures ok <==> forall c <- ParentsOf(old(edges), from) :: MoveAllowed(old(edges), c, to, autoSkip)
      ensures ok ==> edges == Moved(old(edges), ParentsOf(old(edges), from), to)
    {
      ghost var e0 := edges;
      var all := ParentsOf(edges, from);
      var done := {};
      MovedNone(edges, to);
      while all - done != {}
        invariant Valid() && refs.owners == old(refs.owners) && done <= all
        invariant edges == Moved(e0, done, to)
        invariant UndoAll(edges, tran) == old(UndoAll(edges, tran))
        invariant Removed(tran) == Removed(old(tran))
        invariant forall c <- done :: MoveAllowed(e0, c, to, autoSkip)
        decreases all - done
      {
        var c :| c in all - done;
        MoveOne(e0, from, done, to, c);
        ok := MoveUser(c, to, autoSkip);
        if !ok {
          return false;
        }
        done := done + {c};
      }
      assert done == all;
      return true;
    }

    // ---- The operations --------------------------------------------------

    /** Whatever has been done in the transaction is undone: the edges, with
        their permissions, and both kinds of link are as they were. */
    twostate predicate Restored()
      reads this
    {
      edges == old(edges) && backing == old(backing) && file == old(file) && refs.owners == old(refs.owners)
    }

    /** The common end of the operations: the permissions below `roots` are
        refreshed, and the transaction is committed or rolled back. */
    method Finish(roots: seq<Node>) returns (error: Option<PermError>)
      requires Valid() && forall n <- roots :: n in cfg.nodes
      modifies this`edges, this`backing, this`file, this`tran, this`refs
      ensures Valid() && tran == [] && refs.owners == old(refs.owners)
      ensures error.None? ==> Refreshed(cfg, old(edges) - Removed(old(tran)), edges, roots)
      ensures error.Some? ==> edges == old(UndoAll(edges, tran)) && RefreshFails(cfg, old(edges), roots, error.value)
      ensures error.None? ==> exists e :: RefreshGives(cfg, old(edges), roots, e) && edges == e - Removed(old(tran))
    {
      ghost var e0, removed := edges, Removed(tran);
      RemovedDetached(edges, tran);
      error := RefreshPerms(roots);
      if error.None? {
        RefreshedWithout(cfg, e0, edges, removed, roots);
      }
      TranFinalize(error.None?);
    }

    /** bdrv_child_try_set_perm.  A failure to loosen permissions is hidden. */
    method ChildTrySetPerm(c: Child, a: Access) returns (ok: bool, applied: bool)
      requires Valid() && tran == [] && c in edges && edges[c].bs.Some?
      modifies this`edges, this`backing, this`file, this`tran, this`refs
      ensures Valid() && tran == []
      ensures applied ==> ok && Refreshed(cfg, SetAccess(old(edges), c, a), edges, [old(edges)[c].bs.value]) && edges[c].access == a
      ensures !applied ==> Restored() && (ok <==> Looser(a, edges[c].access))
      ensures !applied ==> CannotRefresh(cfg, SetAccess(old(edges), c, a), [old(edges)[c].bs.value])
    {
      ghost var b0, f0 := backing, file;
      var bs := edges[c].bs.value;
      ChildSetPerm(c, a);
      NothingRemoved(edges);
      OwnerNotBelow(edges, c);
      var error := Finish([bs]);
      if error.None? {
        return true, true;
      }
      LinksDetermined(edges, backing, b0, Backing);
      LinksDetermined(edges, file, f0, File);
      return Looser(a, edges[c].access), false;
    }

    /** The part of bdrv_replace_node_common that does not look at permissions. */
    method ReplaceAndDetach(from: Node, to: Node, autoSkip: bool, detach: Option<Child>) returns (ok: bool)
      requires Valid() && tran == [] && from in cfg.nodes && to in cfg.nodes && from != to
      requires detach.Some? ==> IsParent(edges, detach.value, to) && !edges[detach.value].frozen
      modifies this`edges, this`backing, this`file, this`tran, this`refs
      ensures Valid() && refs.owners == old(refs.owners)
      ensures ok <==> forall c <- ParentsOf(old(edges), from) :: MoveAllowed(old(edges), c, to, autoSkip)
      ensures ok ==> edges == Detached(old(edges), from, to, detach)
      ensures ok ==> edges - Removed(tran) == Replaced(old(edges), from, to, detach)
      ensures UndoAll(edges, tran) == old(edges)
    {
      NothingRemoved(Replaced(edges, from, to, None));
      ok := ReplaceNodeNoperm(from, to, autoSkip);
      if ok && detach.Some? {
        RemoveAttached(detach.value);
      }
    }

    /** bdrv_filter_or_cow_child. */
    function ChainChild(n: Node): Option<Child>
      reads this
    {
      if n !in cfg.nodes || !cfg.nodes[n].hasDriver then None
      else if n in backing then Some(backing[n])
      else if cfg.nodes[n].isFilter && n in file then Some(file[n])
      else None
    }

    /** bdrv_filter_or_cow_bs. */
    function ChainNext(n: Node): Option<Node>
      reads this
    {
      if ChainChild(n).Some? && ChainChild(n).value in edges then edges[ChainChild(n).value].bs else None
    }

    /** Filters and backing files, from the top down. */
    ghost predicate IsChain(chain: seq<Node>, from: Node, to: Node)
      reads this
    {
      && chain != [] && chain[0] == from && chain[|chain| - 1] == to
      && forall i :: 0 <= i < |chain| - 1 ==> ChainNext(chain[i]) == Some(chain[i + 1])
    }

    /** The link of a node in a chain that ends at `to`. */
    ghost predicate IsChainLink(c: Child, from: Node, to: Node)
      reads this
    {
      exists chain :: |chain| > 1 && IsChain(chain, from, to) && ChainChild(chain[|chain| - 2]) == Some(c)
    }

    /** The search for the parent of `to` in the chain below `from`. */
    method FindChainLink(from: Node, to: Node) returns (c: Child)
      requires Valid() && from != to && exists chain :: IsChain(chain, from, to)
      ensures IsChainLink(c, from, to) && IsParent(edges, c, to)
    {
      ghost var chain :| IsChain(chain, from, to);
      ghost var i := 0;
      var n := from;
      while ChainNext(n) != Some(to)
        invariant 0 <= i < |chain| - 1 && n == chain[i]
        decreases |chain| - i
      {
        assert ChainNext(chain[i]) == Some(chain[i + 1]);
        n := ChainNext(n).value;
        i := i + 1;
      }
      c := ChainChild(n).value;
      ghost var part := chain[..i + 1] + [to];
      assert forall j :: 0 <= j < i ==> ChainNext(chain[j]) == Some(chain[j + 1]);
      assert IsChain(part, from, to) && part[|part| - 2] == n;
    }

    /** bdrv_replace_node_common.  When the subchain is to be detached, the link
        that leads to `to` is removed, too. */
    method ReplaceNode(from: Node, to: Node, autoSkip: bool, detachSubchain: bool) returns (ok: bool, detach: Option<Child>)
      requires Valid() && tran == [] && from in cfg.nodes && to in cfg.nodes && from != to
      requires detachSubchain ==> exists chain :: IsChain(chain, from, to)
      requires detachSubchain ==> forall c :: IsChainLink(c, from, to) && c in edges ==> !edges[c].frozen
      modifies this`edges, this`backing, this`file, this`tran, this`refs
      ensures Valid() && tran == [] && (detach.Some? <==> detachSubchain)
      ensures detach.Some? ==> old(IsChainLink(detach.value, from, to)) && IsParent(old(edges), detach.value, to)
      ensures ok ==> Refreshed(cfg, Replaced(old(edges), from, to, detach), edges, [from, to])
      ensures ok ==> forall c <- ParentsOf(old(edges), from) :: MoveAllowed(old(edges), c, to, autoSkip)
      ensures !ok ==> Restored()
      ensures !ok ==> (exists c :: IsParent(old(edges), c, from) && !MoveAllowed(old(edges), c, to, autoSkip))
                      || CannotRefresh(cfg, Detached(old(edges), from, to, detach), [from, to])
    {
      detach := None;
      if detachSubchain {
        var c := FindChainLink(from, to);
        detach := Some(c);
      }
      ok := ReplaceThrough(from, to, autoSkip, detach);
    }

    /** The same when it is known which link to remove. */
    method ReplaceThrough(from: Node, to: Node, autoSkip: bool, detach: Option<Child>) returns (ok: bool)
      requires Valid() && tran == [] && from in cfg.nodes && to in cfg.nodes && from != to
      requires detach.Some? ==> IsParent(edges, detach.value, to) && !edges[detach.value].frozen
      modifies this`edges, this`backing, this`file, this`tran, this`refs
      ensures Valid() && tran == []
      ensures ok ==> Refreshed(cfg, Replaced(old(edges), from, to, detach), edges, [from, to])
      ensures ok ==> forall c <- ParentsOf(old(edges), from) :: MoveAllowed(old(edges), c, to, autoSkip)
      ensures !ok ==> Restored()
      ensures !ok ==> (exists c :: IsParent(old(edges), c, from) && !MoveAllowed(old(edges), c, to, autoSkip))
                      || CannotRefresh(cfg, Detached(old(edges), from, to, detach), [from, to])
    {
      ghost var b0, f0 := backing, file;
      ok := ReplaceAndDetach(from, to, autoSkip, detach);
      if ok {
        var error := Finish([from, to]);
        ok := error.None?;
      } else {
        TranFinalize(false);
      }
      if !ok {
        LinksDetermined(edges, backing, b0, Backing);
        LinksDetermined(edges, file, f0, File);
      }
    }

    method RemoveLink(child: Option<Child>)
      requires Valid() && tran == []
      requires child.Some? ==> child.value in edges && edges[child.value].bs.Some? && !edges[child.value].frozen
      modifies this`edges, this`backing, this`file, this`tran, this`refs
      ensures Valid() && refs.owners == old(refs.owners) && UndoAll(edges, tran) == old(edges)
      ensures edges == WithoutLink(old(edges), child) && Removed(tran) == Gone(child)
    {
      if child.Some? {
        RemoveAttached(child.value);
      } else {
        NothingRemoved(edges);
      }
    }

    /** The old link of a node, if there is one, gives way to a new one. */
    method ReplaceLink(parent: Node, child: Option<Child>, bs: Option<Node>, c: Child, role: Role, slot: Slot,
                       ctxOk: bool)
      returns (ok: bool)
      requires Valid() && tran == [] && parent in cfg.nodes && c !in edges && (bs.Some? ==> bs.value in cfg.nodes)
      requires LinkIs(edges, parent, slot, child) && (child.Some? ==> !edges[child.value].frozen)
      modifies this`edges, this`backing, this`file, this`tran, this`refs
      ensures Valid() && refs.owners == old(refs.owners) && UndoAll(edges, tran) == old(edges)
      ensures ok ==> edges == Relinked(cfg, old(edges), child, parent, bs, c, role, slot) && Removed(tran) == Gone(child)
      ensures ok <==> CanLink(old(edges), child, parent, bs, ctxOk)
    {
      RemoveLink(child);
      ghost var t1 := tran;
      if bs.None? {
        return true;
      }
      SlotOpens(old(edges), child, NewEdge(cfg, edges, parent, bs.value, role, slot));
      ok := AttachChildNoperm(parent, bs.value, c, role, slot, ctxOk);
      if ok {
        RemovedPush(AttachChild(c), t1);
      }
    }

    /** bdrv_set_file_or_backing_noperm and the caller's refresh of permissions,
        as in bdrv_set_backing_hd_drained: the backing or file link of a node is
        removed or replaced. */
    method SetFileOrBacking(parent: Node, bs: Option<Node>, isBacking: bool, c: Child, ctxOk: bool)
      returns (ok: bool)
      requires Valid() && tran == [] && parent in cfg.nodes && c !in edges && (bs.Some? ==> bs.value in cfg.nodes)
      modifies this`edges, this`backing, this`file, this`tran, this`refs
      ensures Valid() && tran == []
      ensures !ok ==> Restored()
      ensures ok ==> LinkAllowed(cfg, old(edges), old(LinkOf(parent, isBacking)), parent, isBacking)
      ensures ok ==> var child := old(LinkOf(parent, isBacking));
                     Refreshed(cfg, Relinked(cfg, old(edges), child, parent, bs, c, LinkRole(cfg, old(edges), child, parent, isBacking),
                                             SlotFor(isBacking)) - Gone(child), edges, [parent])
      ensures ok ==> CanLink(old(edges), old(LinkOf(parent, isBacking)), parent, bs, ctxOk)
      ensures !ok ==> var child := old(LinkOf(parent, isBacking));
                      || !LinkAllowed(cfg, old(edges), child, parent, isBacking)
                      || !CanLink(old(edges), child, parent, bs, ctxOk)
                      || CannotRefresh(cfg, Relinked(cfg, old(edges), child, parent, bs, c,
                                                     LinkRole(cfg, old(edges), child, parent, isBacking), SlotFor(isBacking)),
                                       [parent])
    {
      var child := LinkOf(parent, isBacking);
      if !LinkAllowed(cfg, edges, child, parent, isBacking) {
        return false;
      }
      ok := ReplaceAndRefresh(parent, child, bs, c, LinkRole(cfg, edges, child, parent, isBacking), SlotFor(isBacking), ctxOk);
    }

    method ReplaceAndRefresh(parent: Node, child: Option<Child>, bs: Option<Node>, c: Child, role: Role, slot: Slot,
                             ctxOk: bool)
      returns (ok: bool)
      requires Valid() && tran == [] && parent in cfg.nodes && c !in edges && (bs.Some? ==> bs.value in cfg.nodes)
      requires LinkIs(edges, parent, slot, child) && (child.Some? ==> !edges[child.value].frozen)
      modifies this`edges, this`backing, this`file, this`tran, this`refs
      ensures Valid() && tran == []
      ensures !ok ==> Restored()
      ensures ok ==> Refreshed(cfg, Relinked(cfg, old(edges), child, parent, bs, c, role, slot) - Gone(child), edges, [parent])
      ensures ok ==> CanLink(old(edges), child, parent, bs, ctxOk)
      ensures !ok ==> || !CanLink(old(edges), child, parent, bs, ctxOk)
                      || CannotRefresh(cfg, Relinked(cfg, old(edges), child, parent, bs, c, role, slot), [parent])
    {
      ghost var b0, f0 := backing, file;
      ok := ReplaceLink(parent, child, bs, c, role, slot, ctxOk);
      if ok {
        var error := Finish([parent]);
        ok := error.None?;
      } else {
        TranFinalize(false);
      }
      if !ok {
        LinksDetermined(edges, backing, b0, Backing);
        LinksDetermined(edges, file, f0, File);
      }
    }

    /** bs->backing or bs->file. */
    function LinkOf(n: Node, isBacking: bool): (r: Option<Child>)
      reads this
      ensures Valid() ==> LinkIs(edges, n, SlotFor(isBacking), r)
    {
      var links := if isBacking then backing else file;
      if n in links then Some(links[n]) else None
    }

    /** The part of bdrv_append that does not look at permissions. */
    method AttachAndMove(bsNew: Node, bsTop: Node, c: Child, role: Role, slot: Slot, ctxOk: bool) returns (ok: bool)
      requires Valid() && tran == [] && bsNew in cfg.nodes && bsTop in cfg.nodes && bsNew != bsTop && c !in edges
      requires SlotOpen(edges, NewEdge(cfg, edges, bsNew, bsTop, role, slot))
      modifies this`edges, this`backing, this`file, this`tran, this`refs
      ensures Valid() && refs.owners == old(refs.owners)
      ensures ok ==> Acyclic(old(ArcsOf(edges)) + {(bsNew, bsTop)})
      ensures ok ==> edges - Removed(tran) == edges == Appended(cfg, old(edges), bsNew, bsTop, c, role, slot)
      ensures !ok ==> || !ctxOk || !Acyclic(old(ArcsOf(edges)) + {(bsNew, bsTop)})
                      || HasFrozenUser(old(edges), bsTop)
      ensures UndoAll(edges, tran) == old(edges)
    {
      ghost var e0 := edges;
      ok := AttachChildNoperm(bsNew, bsTop, c, role, slot, ctxOk);
      if ok {
        NothingRemoved(Appended(cfg, e0, bsNew, bsTop, c, role, slot));
        RemovedPush(AttachChild(c), []);
        FrozenUser(cfg, e0, bsNew, bsTop, c, role, slot);
        ok := ReplaceNodeNoperm(bsTop, bsNew, true);
      }
    }

    /** bdrv_append: `bsTop` becomes a child of `bsNew`, and its other users move
        to `bsNew`. */
    method Append(bsNew: Node, bsTop: Node, c: Child, role: Role, slot: Slot, ctxOk: bool) returns (ok: bool)
      requires Valid() && tran == [] && bsNew in cfg.nodes && bsTop in cfg.nodes && bsNew != bsTop && c !in edges
      requires SlotOpen(edges, NewEdge(cfg, edges, bsNew, bsTop, role, slot))
      modifies this`edges, this`backing, this`file, this`tran, this`refs
      ensures Valid() && tran == []
      ensures ok ==> Acyclic(old(ArcsOf(edges)) + {(bsNew, bsTop)})
      ensures ok ==> Refreshed(cfg, Appended(cfg, old(edges), bsNew, bsTop, c, role, slot), edges, [bsNew])
      ensures ok ==> edges[c].bs == Some(bsTop)
      ensures !ok ==> Restored()
      ensures !ok ==> || !ctxOk || !Acyclic(old(ArcsOf(edges)) + {(bsNew, bsTop)})
                      || HasFrozenUser(old(edges), bsTop)
                      || CannotRefresh(cfg, Appended(cfg, old(edges), bsNew, bsTop, c, role, slot), [bsNew])
    {
      ghost var b0, f0 := backing, file;
      NewEdgeStays(cfg, edges, bsNew, bsTop, c, role, slot);
      ok := AttachAndMove(bsNew, bsTop, c, role, slot, ctxOk);
      if ok {
        var error := Finish([bsNew]);
        ok := error.None?;
      } else {
        TranFinalize(false);
      }
      if !ok {
        LinksDetermined(edges, backing, b0, Backing);
        LinksDetermined(edges, file, f0, File);
      }
    }

    /** bdrv_schedule_unref of a reference that a caller holds. */
    method ScheduleOwned(bs: Node)
      requires Valid() && bs in cfg.nodes && refs.owners[bs] > 0
      modifies this`refs
      ensures Valid()
      ensures refs == old(refs).(unrefs := old(refs.unrefs) + multiset{bs}, owners := old(refs.owners) - multiset{bs})
    {
      refs := refs.(unrefs := refs.unrefs + multiset{bs}, owners := refs.owners - multiset{bs});
    }

    /** The bottom half of bdrv_schedule_unref.  When the count drops to zero, and
        the node would be deleted, no edge and no transaction refers to it. */
    method RunScheduledUnref(bs: Node)
      requires Valid() && bs in cfg.nodes && refs.unrefs[bs] > 0
      modifies this`refs
      ensures Valid() && refs.refcnt[bs] >= 0
      ensures refs.refcnt[bs] == 0 ==> ParentsOf(edges, bs) == {} && Held(tran, bs) == 0 && refs.unrefs[bs] == 0 && refs.owners[bs] == 0
      ensures refs == DropRef(old(refs), Some(bs)).(unrefs := old(refs.unrefs) - multiset{bs})
    {
      refs := DropRef(refs, Some(bs)).(unrefs := refs.unrefs - multiset{bs});
    }

    method TryAttach(parent: Node, bs: Node, c: Child, role: Role, slot: Slot, ctxOk: bool) returns (ok: bool)
      requires Valid() && tran == [] && parent in cfg.nodes && bs in cfg.nodes && c !in edges
      requires SlotOpen(edges, NewEdge(cfg, edges, parent, bs, role, slot))
      modifies this`edges, this`backing, this`file, this`tran, this`refs
      ensures Valid() && tran == [] && refs.owners == old(refs.owners)
      ensures ok ==> Refreshed(cfg, old(edges)[c := NewEdge(cfg, old(edges), parent, bs, role, slot)], edges, [parent])
      ensures !ok ==> edges == old(edges)
      ensures !ok ==> || !ctxOk || !Acyclic(old(ArcsOf(edges)) + {(parent, bs)})
                      || CannotRefresh(cfg, old(edges)[c := NewEdge(cfg, old(edges), parent, bs, role, slot)], [parent])
    {
      ok := AttachChildNoperm(parent, bs, c, role, slot, ctxOk);
      if ok {
        RemovedPush(AttachChild(c), []);
        NothingRemoved(edges);
        var error := Finish([parent]);
        ok := error.None?;
      } else {
        TranFinalize(false);
      }
    }

    /** bdrv_attach_child: on success and on failure it uses up the caller's
        reference to the child. */
    method AttachToNode(parent: Node, bs: Node, c: Child, role: Role, slot: Slot, ctxOk: bool) returns (ok: bool)
      requires Valid() && tran == [] && parent in cfg.nodes && bs in cfg.nodes && c !in edges && refs.owners[bs] > 0
      requires SlotOpen(edges, NewEdge(cfg, edges, parent, bs, role, slot))
      modifies this`edges, this`backing, this`file, this`tran, this`refs
      ensures Valid() && tran == [] && refs.owners == old(refs.owners) - multiset{bs}
      ensures ok ==> Refreshed(cfg, old(edges)[c := NewEdge(cfg, old(edges), parent, bs, role, slot)], edges, [parent])
      ensures !ok ==> edges == old(edges) && backing == old(backing) && file == old(file)
      ensures !ok ==> || !ctxOk || !Acyclic(old(ArcsOf(edges)) + {(parent, bs)})
                      || CannotRefresh(cfg, old(edges)[c := NewEdge(cfg, old(edges), parent, bs, role, slot)], [parent])
    {
      ghost var b0, f0 := backing, file;
      ok := TryAttach(parent, bs, c, role, slot, ctxOk);
      if !ok {
        LinksDetermined(edges, backing, b0, Backing);
        LinksDetermined(edges, file, f0, File);
      }
      ScheduleOwned(bs);
    }

    /** bdrv_root_attach_child: a user outside the graph; it cannot close a loop. */
    method RootAttachChild(c: Child, e: Edge, ctxOk: bool) returns (ok: bool)
      requires Valid() && tran == [] && c !in edges && !e.frozen && e.parent.OfRoot?
      requires e.bs.Some? && e.bs.value in cfg.nodes && refs.owners[e.bs.value] > 0
      modifies this`edges, this`backing, this`file, this`tran, this`refs
      ensures Valid() && tran == [] && refs.owners == old(refs.owners) - multiset{e.bs.value}
      ensures ok ==> Refreshed(cfg, old(edges)[c := e], edges, [e.bs.value])
      ensures !ok ==> edges == old(edges) && backing == old(backing) && file == old(file)
      ensures !ok ==> !ctxOk || CannotRefresh(cfg, old(edges)[c := e], [e.bs.value])
    {
      ghost var b0, f0 := backing, file;
      ok := AttachAndRefresh(c, e, ctxOk);
      if !ok {
        LinksDetermined(edges, backing, b0, Backing);
        LinksDetermined(edges, file, f0, File);
      }
      ScheduleOwned(e.bs.value);
    }

    method AttachAndRefresh(c: Child, e: Edge, ctxOk: bool) returns (ok: bool)
      requires Valid() && tran == [] && c !in edges && !e.frozen && e.parent.OfRoot?
      requires e.bs.Some? && e.bs.value in cfg.nodes
      modifies this`edges, this`backing, this`file, this`tran, this`refs
      ensures Valid() && tran == [] && refs.owners == old(refs.owners)
      ensures ok ==> Refreshed(cfg, old(edges)[c := e], edges, [e.bs.value])
      ensures !ok ==> edges == old(edges) && (!ctxOk || CannotRefresh(cfg, old(edges)[c := e], [e.bs.value]))
    {
      ok := AttachChildCommon(c, e, ctxOk);
      if ok {
        RemovedPush(AttachChild(c), []);
        NothingRemoved(edges);
        var error := Finish([e.bs.value]);
        ok := error.None?;
      } else {
        TranFinalize(false);
      }
    }

    /** bdrv_root_unref_child.  `error` is the result of the refresh, which is
        ignored: the edge is gone in any case.  From a consistent graph, and with
        monotone drivers, neither a conflict nor missing write access can be the
        reason, and nothing has become stricter. */
    method RootUnrefChild(c: Child) returns (error: Option<PermError>)
      requires Valid() && tran == [] && c in edges && !edges[c].frozen && edges[c].bs.Some?
      modifies this`edges, this`backing, this`file, this`tran, this`refs
      ensures Valid() && tran == [] && refs.owners == old(refs.owners)
      ensures error.None? ==> Refreshed(cfg, old(edges) - {c}, edges, [old(edges)[c].bs.value])
      ensures error.Some? ==> edges == old(edges) - {c}
      ensures MonotoneDrivers(cfg) && FreshBelow(cfg, old(edges), old(edges)[c].bs.value) ==>
                error != Some(ParentConflict) && error != Some(ReadOnly) && LooserGraph(edges, old(edges))
    {
      ghost var e0 := edges;
      var bs := edges[c].bs;
      FreeAttached(cfg, edges, tran, refs, c);
      DetachForFree(cfg, edges, c);
      ReplaceChildNoperm(c, None);
      FreeLinks(edges, c, backing, Backing);
      FreeLinks(edges, c, file, File);
      edges := edges - {c};
      refs := Schedule(refs, bs);
      if MonotoneDrivers(cfg) && FreshBelow(cfg, e0, bs.value) {
        UnrefIsSafe(cfg, e0, c);
      }
      NothingRemoved(edges);
      error := Finish([bs.value]);
    }
  }

  /** A new link to `bs` in place of `child` closes no loop, and the two nodes can
      be in the same AioContext. */
  ghost predicate CanLink(edges: Edges, child: Option<Child>, parent: Node, bs: Option<Node>, ctxOk: bool) {
    bs.None? || (ctxOk && Acyclic(ArcsOf(WithoutLink(edges, child)) + {(parent, bs.value)}))
  }

  /** Edge `c` belongs to a node that one of the roots reaches. */
  ghost predicate BelowRoots(edges: Edges, c: Child, roots: seq<Node>) {
    exists r :: r in roots && InSubtree(edges, c, r)
  }

  /** `e'` is `e` with the permissions below the roots brought up to date: nothing
      else has changed, and every node that a root reaches is free of conflicts,
      passes its checks and has its children as its driver wants them. */
  ghost predicate Refreshed(cfg: Config, e: Edges, e': Edges, roots: seq<Node>) {
    && SameShape(e, e')
    && (forall c <- e :: !BelowRoots(e, c, roots) ==> e'[c] == e[c])
    && (forall r, x :: r in roots && Reach(ArcsOf(e'), r, x) ==> NodeFresh(cfg, e', x))
  }

  /** A list as the depth-first searches from the roots build it. */
  ghost predicate IsRefreshList(cfg: Config, e: Edges, roots: seq<Node>, list: seq<Node>) {
    && (forall n <- list :: n in cfg.nodes)
    && Topological(ArcsOf(e), list)
    && (forall x :: x in list <==> exists r :: r in roots && Reach(ArcsOf(e), r, x))
  }

  /** A refresh below the roots succeeds and gives `e'`. */
  ghost predicate RefreshGives(cfg: Config, e: Edges, roots: seq<Node>, e': Edges) {
    exists list :: IsRefreshList(cfg, e, roots, list) && Refresh(cfg, e, list) == Outcome(e', None)
  }

  /** A refresh below the roots fails with `error`. */
  ghost predicate RefreshFails(cfg: Config, e: Edges, roots: seq<Node>, error: PermError) {
    exists list :: IsRefreshList(cfg, e, roots, list) && Refresh(cfg, e, list).error == Some(error)
  }

  ghost predicate CannotRefresh(cfg: Config, e: Edges, roots: seq<Node>) {
    exists error :: RefreshFails(cfg, e, roots, error)
  }

  lemma RefreshIsRefreshed(cfg: Config, e: Edges, list: seq<Node>, roots: seq<Node>)
    requires Acyclic(ArcsOf(e)) && IsRefreshList(cfg, e, roots, list)
    requires Refresh(cfg, e, list).error.None?
    ensures Refreshed(cfg, e, Refresh(cfg, e, list).edges, roots)
  {
    var e' := Refresh(cfg, e, list).edges;
    RefreshShape(cfg, e, list);
    ShapeArcs(e, e');
    RefreshMakesFresh(cfg, e, list);
    forall c <- e | !BelowRoots(e, c, roots) ensures e'[c] == e[c] {
      forall n <- list ensures !IsChild(e, c, n) {
        var r :| r in roots && Reach(ArcsOf(e), r, n);
        assert !InSubtree(e, c, r);
      }
      RefreshFrame(cfg, e, list, c);
    }
  }

  lemma DetachGraphOk(cfg: Config, edges: Edges, c: Child)
    requires GraphOk(cfg, edges) && c in edges
    ensures GraphOk(cfg, Redirect(edges, c, None))
  {
    RedirectGraphOk(cfg, edges, c, None);
  }

  lemma MoveGraphOk(cfg: Config, edges: Edges, c: Child, to: Node)
    requires GraphOk(cfg, edges) && c in edges && edges[c].bs.Some? && Updatable(edges, c, to) && to in cfg.nodes
    ensures GraphOk(cfg, Redirect(edges, c, Some(to)))
  {
    EdgeMoves(edges, c, to);
    forall d <- edges | d != c ensures !SameSlot(edges[c].(bs := Some(to)), edges[d]) {
      assert !SameSlot(edges[c], edges[d]);
    }
    RedirectGraphOk(cfg, edges, c, Some(to));
  }

  lemma RemovedPush(act: Action, tran: seq<Action>)
    requires !act.RemoveChild?
    ensures Removed([act] + tran) == Removed(tran)
  {
    var t := [act] + tran;
    forall c ensures c in Removed(t) <==> c in Removed(tran) {
      if c in Removed(tran) {
        var i :| 0 <= i < |tran| && tran[i].RemoveChild? && tran[i].c == c;
        assert t[i + 1] == tran[i];
      }
      if c in Removed(t) {
        var i :| 0 <= i < |t| && t[i].RemoveChild? && t[i].c == c;
        assert t[i] == tran[i - 1];
      }
    }
  }

  /** An edge that points at a node does not belong to a node below it. */
  lemma OwnerNotBelow(edges: Edges, c: Child)
    requires c in edges && edges[c].bs.Some? && Acyclic(ArcsOf(edges))
    ensures !BelowRoots(edges, c, [edges[c].bs.value])
  {
    var bs := edges[c].bs.value;
    forall v: Node | IsChild(edges, c, v) ensures !Reach(ArcsOf(edges), bs, v) {
      assert (v, bs) in ArcsOf(edges);
      assert !ReachPlus(ArcsOf(edges), v, v);
    }
  }

  lemma RemovedDetached(edges: Edges, tran: seq<Action>)
    requires RemovalsOk(edges, tran)
    ensures forall c <- Removed(tran) :: c in edges && edges[c].bs.None?
  {
  }

  /** Detached edges play no part in permissions. */
  lemma WithoutDetached(cfg: Config, e: Edges, removed: set<Child>, n: Node)
    requires forall c <- removed :: c in e && e[c].bs.None?
    ensures ArcsOf(e - removed) == ArcsOf(e)
    ensures NodeFresh(cfg, e, n) ==> NodeFresh(cfg, e - removed, n)
  {
    var e' := e - removed;
    assert forall c :: IsParent(e', c, n) <==> IsParent(e, c, n);
    assert forall c :: IsChild(e', c, n) <==> IsChild(e, c, n);
    assert Cumulative(e', n) == Cumulative(e, n);
  }

  /** Freeing detached edges keeps a graph refreshed. */
  lemma RefreshedWithout(cfg: Config, e: Edges, e': Edges, removed: set<Child>, roots: seq<Node>)
    requires Refreshed(cfg, e, e', roots)
    requires forall c <- removed :: c in e && e[c].bs.None?
    ensures Refreshed(cfg, e - removed, e' - removed, roots)
  {
    WithoutDetached(cfg, e, removed, 0);
    WithoutDetached(cfg, e', removed, 0);
    forall c <- e - removed | !BelowRoots(e - removed, c, roots) ensures (e' - removed)[c] == (e - removed)[c] {
      assert forall r :: InSubtree(e, c, r) ==> InSubtree(e - removed, c, r) by {
        forall r | InSubtree(e, c, r) ensures InSubtree(e - removed, c, r) {
          var v :| IsChild(e, c, v) && Reach(ArcsOf(e), r, v);
          assert IsChild(e - removed, c, v);
        }
      }
    }
    forall r, x | r in roots && Reach(ArcsOf(e' - removed), r, x) ensures NodeFresh(cfg, e' - removed, x) {
      WithoutDetached(cfg, e', removed, x);
    }
  }

  lemma NothingRemoved(edges: Edges)
    ensures Removed([]) == {} && edges - {} == edges
  {
  }

  /** The edges after replacing `from` by `to`, permissions aside. */
  ghost function Replaced(e: Edges, from: Node, to: Node, detach: Option<Child>): Edges {
    Moved(e, ParentsOf(e, from), to) - (if detach.Some? then {detach.value} else {})
  }

  /** The same before the transaction that detaches the subchain commits. */
  ghost function Detached(e: Edges, from: Node, to: Node, detach: Option<Child>): Edges {
    var m := Moved(e, ParentsOf(e, from), to);
    if detach.Some? && detach.value in m then Redirect(m, detach.value, None) else m
  }

  /** The edge that bdrv_attach_child_noperm creates. */
  ghost function NewEdge(cfg: Config, e: Edges, parent: Node, bs: Node, role: Role, slot: Slot): Edge {
    Edge(OfNode(parent), role, slot, Some(bs), ChildPerm(cfg, parent, None, role, bs, Cumulative(e, parent)), false)
  }

  /** The edges after appending, permissions aside. */
  ghost function Appended(cfg: Config, e: Edges, bsNew: Node, bsTop: Node, c: Child, role: Role, slot: Slot): Edges {
    var e' := e[c := NewEdge(cfg, e, bsNew, bsTop, role, slot)];
    Moved(e', ParentsOf(e', bsTop), bsNew)
  }

  function SlotFor(isBacking: bool): Slot { if isBacking then Backing else File }

  /** `child` is the node's edge in that slot, if there is one. */
  ghost predicate LinkIs(e: Edges, n: Node, slot: Slot, child: Option<Child>) {
    && !slot.Neither?
    && (child.Some? ==> IsChild(e, child.value, n) && e[child.value].bs.Some? && e[child.value].slot == slot)
    && forall d <- e :: e[d].parent == OfNode(n) && e[d].slot == slot && e[d].bs.Some? ==> child == Some(d)
  }

  /** The conditions under which bdrv_set_file_or_backing_noperm goes ahead. */
  predicate LinkAllowed(cfg: Config, e: Edges, child: Option<Child>, parent: Node, isBacking: bool) {
    && parent in cfg.nodes && cfg.nodes[parent].hasDriver
    && (child.Some? ==> child.value in e && !e[child.value].frozen)
    && (!cfg.nodes[parent].isFilter ==> if isBacking then cfg.nodes[parent].supportsBacking else child.Some?)
  }

  /** Filters filter, a backing file is copied from, and a new file child does
      what the old one did. */
  function LinkRole(cfg: Config, e: Edges, child: Option<Child>, parent: Node, isBacking: bool): Role
    requires parent in cfg.nodes && (isBacking || cfg.nodes[parent].isFilter || (child.Some? && child.value in e))
  {
    if cfg.nodes[parent].isFilter then Role(false, false, true, false, true)
    else if isBacking then Role(false, false, false, true, false)
    else e[child.value].role
  }

  function Gone(child: Option<Child>): set<Child> { if child.Some? then {child.value} else {} }

  ghost function WithoutLink(e: Edges, child: Option<Child>): Edges {
    if child.Some? && child.value in e then Redirect(e, child.value, None) else e
  }

  /** The edges after a link was replaced, permissions aside. */
  ghost function Relinked(cfg: Config, e: Edges, child: Option<Child>, parent: Node, bs: Option<Node>, c: Child,
                          role: Role, slot: Slot): Edges {
    var e' := WithoutLink(e, child);
    if bs.Some? then e'[c := NewEdge(cfg, e', parent, bs.value, role, slot)] else e'
  }

  /** Once the old link is detached, its slot can be used again. */
  lemma SlotOpens(e: Edges, child: Option<Child>, edge: Edge)
    requires edge.parent.OfNode? && LinkIs(e, edge.parent.node, edge.slot, child)
    ensures SlotOpen(WithoutLink(e, child), edge)
  {
  }

  ghost predicate HasFrozenUser(e: Edges, n: Node) {
    exists d :: IsParent(e, d, n) && e[d].frozen
  }

  /** With the skipping of users that cannot move, only frozen ones are in the
      way of an append. */
  lemma FrozenUser(cfg: Config, e: Edges, bsNew: Node, bsTop: Node, c: Child, role: Role, slot: Slot)
    requires c !in e
    ensures var e' := e[c := NewEdge(cfg, e, bsNew, bsTop, role, slot)];
            HasFrozenUser(e, bsTop) || forall d <- ParentsOf(e', bsTop) :: MoveAllowed(e', d, bsNew, true)
  {
    var e' := e[c := NewEdge(cfg, e, bsNew, bsTop, role, slot)];
    forall d <- ParentsOf(e', bsTop) | !HasFrozenUser(e, bsTop) ensures MoveAllowed(e', d, bsNew, true) {
      if d != c {
        assert IsParent(e, d, bsTop);
      }
    }
  }

  /** The new edge is in the subtree of its own parent, so it does not move. */
  lemma NewEdgeStays(cfg: Config, e: Edges, bsNew: Node, bsTop: Node, c: Child, role: Role, slot: Slot)
    ensures var a := Appended(cfg, e, bsNew, bsTop, c, role, slot); c in a && a[c].bs == Some(bsTop)
  {
    var e' := e[c := NewEdge(cfg, e, bsNew, bsTop, role, slot)];
    ReachSelf(ArcsOf(e'), bsNew);
    assert IsChild(e', c, bsNew);
  }

  lemma RemovedPushPair(c: Child, bs: Option<Node>, tran: seq<Action>)
    ensures Removed([RemoveChild(c), ReplaceChild(c, bs)] + tran) == Removed(tran) + {c}
  {
    var t := [RemoveChild(c), ReplaceChild(c, bs)] + tran;
    assert t[0].c == c;
    forall x ensures x in Removed(t) <==> x in Removed(tran) + {c} {
      if x in Removed(tran) {
        var i :| 0 <= i < |tran| && tran[i].RemoveChild? && tran[i].c == x;
        assert t[i + 2] == tran[i];
      }
      if x in Removed(t) && x != c {
        var i :| 0 <= i < |t| && t[i].RemoveChild? && t[i].c == x;
        assert t[i] == tran[i - 2];
      }
    }
  }

  /** Everything that `n` reaches is consistent. */
  ghost predicate FreshBelow(cfg: Config, e: Edges, n: Node) {
    forall x :: Reach(ArcsOf(e), n, x) ==> NodeFresh(cfg, e, x)
  }

  /** Taking an edge away from a consistent graph. */
  lemma UnrefIsSafe(cfg: Config, e: Edges, c: Child)
    requires c in e && e[c].bs.Some? && MonotoneDrivers(cfg) && FreshBelow(cfg, e, e[c].bs.value)
    ensures forall error :: RefreshFails(cfg, e - {c}, [e[c].bs.value], error) ==> error == Unaligned || error == DriverRefused
    ensures forall e' :: RefreshGives(cfg, e - {c}, [e[c].bs.value], e') ==> LooserGraph(e', e)
    ensures LooserGraph(e - {c}, e)
  {
    var roots := [e[c].bs.value];
    RemovalLoosens(e, c);
    forall list | IsRefreshList(cfg, e - {c}, roots, list)
      ensures LooserGraph(Refresh(cfg, e - {c}, list).edges, e)
      ensures var r := Refresh(cfg, e - {c}, list).error; r == None || r == Some(Unaligned) || r == Some(DriverRefused)
    {
      forall n <- list ensures NodeFresh(cfg, e, n) {
        ReachMonotone(ArcsOf(e - {c}), ArcsOf(e), e[c].bs.value, n);
      }
      LooseningIsSafe(cfg, e - {c}, e, list);
    }
  }

  /** A freed edge's reference is left to a scheduled unref. */
  lemma FreeAttached(cfg: Config, edges: Edges, tran: seq<Action>, refs: Refs, c: Child)
    requires GraphOk(cfg, edges) && tran == [] && RefsOk(cfg, edges, tran, refs) && c in edges && edges[c].bs.Some?
    ensures GraphOk(cfg, edges - {c}) && LogOk(cfg, edges - {c}, [], Schedule(refs, edges[c].bs))
  {
    DetachGraphOk(cfg, edges, c);
    FreeDetached(cfg, Redirect(edges, c, None), c);
    assert Redirect(edges, c, None) - {c} == edges - {c};
    forall n <- cfg.nodes ensures InEdges(edges - {c}, n) + Schedule(refs, edges[c].bs).unrefs[n] == InEdges(edges, n) + refs.unrefs[n] {
      assert edges == (edges - {c})[c := edges[c]];
      AttachInEdges(edges - {c}, c, edges[c], n);
    }
  }
}
