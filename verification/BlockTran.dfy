/**
 The bookkeeping of graph transactions: what each entry does to the edges, how
 the log undoes it, and where every reference to a node is kept meanwhile.
 */
module BlockTran {
  import opened Options
  import opened Digraph
  import opened BlockPerms
  import opened BlockGraph
  import opened BlockRefresh

  // ---- Rolling back ----------------------------------------------------

  /** The abort callback of `act` can run: what its assertions demand. */
  ghost predicate CanUndo(edges: Edges, act: Action) {
    match act
    case SetPerm(c, _) => c in edges
    case ReplaceChild(c, bs) => c in edges && !edges[c].frozen && edges[c].bs != bs
    case AttachChild(c) => c in edges && !edges[c].frozen && edges[c].bs.Some?
    case _ => true
  }

  /** Aborting `tran`, newest entry first, passes only through good graphs. */
  ghost predicate CanUndoAll(cfg: Config, edges: Edges, tran: seq<Action>)
    decreases |tran|
  {
    && GraphOk(cfg, edges)
    && (tran != [] ==> CanUndo(edges, tran[0]) && CanUndoAll(cfg, Undo(edges, tran[0]), tran[1..]))
  }

  /** Edges whose removal is pending are detached, and pending only once. */
  ghost predicate RemovalsOk(edges: Edges, tran: seq<Action>) {
    && (forall i :: 0 <= i < |tran| && tran[i].RemoveChild? ==> tran[i].c in edges && edges[tran[i].c].bs.None?)
    && (forall i, j :: 0 <= i < j < |tran| && tran[i].RemoveChild? && tran[j].RemoveChild? ==> tran[i].c != tran[j].c)
  }

  ghost predicate TranOk(cfg: Config, edges: Edges, tran: seq<Action>) {
    CanUndoAll(cfg, edges, tran) && RemovalsOk(edges, tran)
  }

  lemma PushOk(cfg: Config, edges: Edges, edges': Edges, act: Action, tran: seq<Action>)
    requires CanUndoAll(cfg, edges, tran) && GraphOk(cfg, edges') && CanUndo(edges', act) && Undo(edges', act) == edges
    ensures CanUndoAll(cfg, edges', [act] + tran) && UndoAll(edges', [act] + tran) == UndoAll(edges, tran)
  {
    assert ([act] + tran)[1..] == tran;
  }

  lemma HeldHead(act: Action, tran: seq<Action>, n: Node)
    ensures Held([act] + tran, n) == (if act.ReplaceChild? && act.oldBs == Some(n) then 1 else 0) + Held(tran, n)
  {
    assert ([act] + tran)[1..] == tran;
  }

  lemma ShapeGraphOk(cfg: Config, e1: Edges, e2: Edges)
    requires SameShape(e1, e2) && GraphOk(cfg, e1)
    ensures GraphOk(cfg, e2)
  {
    ShapeArcs(e1, e2);
    forall c, d | c in e2 && d in e2 && SameSlot(e2[c], e2[d]) ensures c == d {
      assert SameSlot(e1[c], e1[d]);
    }
  }

  lemma RedirectGraphOk(cfg: Config, edges: Edges, c: Child, bs: Option<Node>)
    requires GraphOk(cfg, edges) && c in edges && (bs.Some? ==> bs.value in cfg.nodes)
    requires bs.Some? && edges[c].parent.OfNode? ==> !Reach(ArcsOf(edges), bs.value, edges[c].parent.node)
    requires bs.Some? ==> forall d <- edges :: d != c ==> !SameSlot(edges[c].(bs := bs), edges[d])
    ensures GraphOk(cfg, Redirect(edges, c, bs))
  {
    RedirectAcyclic(edges, c, bs);
    var e := Redirect(edges, c, bs);
    forall x, y | x in e && y in e && SameSlot(e[x], e[y]) ensures x == y {
      if x != c && y != c {
        assert SameSlot(edges[x], edges[y]);
      } else if x == c && y != c {
        assert !SameSlot(edges[c].(bs := bs), edges[y]);
      } else if y == c && x != c {
        assert !SameSlot(edges[c].(bs := bs), edges[x]);
        assert SameSlot(e[y], e[x]);
      }
    }
  }

  // ---- References ------------------------------------------------------

  /** Reference counts, the references that scheduled bottom halves will drop,
      and those held outside the graph by callers and monitor commands. */
  datatype Refs = Refs(refcnt: map<Node, int>, unrefs: multiset<Node>, owners: multiset<Node>)

  /** Reference conservation: each reference to a node belongs to an edge, to an
      entry of the open transaction, to a scheduled unref or to an owner. */
  ghost predicate RefsOk(cfg: Config, edges: Edges, tran: seq<Action>, refs: Refs) {
    && refs.refcnt.Keys == cfg.nodes.Keys
    && forall n <- cfg.nodes :: refs.refcnt[n] == InEdges(edges, n) + Held(tran, n) + refs.unrefs[n] + refs.owners[n]
  }

  function AddRef(refs: Refs, bs: Option<Node>): Refs
    requires bs.Some? ==> bs.value in refs.refcnt
  {
    if bs.Some? then refs.(refcnt := refs.refcnt[bs.value := refs.refcnt[bs.value] + 1]) else refs
  }

  /** bdrv_unref, short of deleting the node. */
  function DropRef(refs: Refs, bs: Option<Node>): Refs
    requires bs.Some? ==> bs.value in refs.refcnt
  {
    if bs.Some? then refs.(refcnt := refs.refcnt[bs.value := refs.refcnt[bs.value] - 1]) else refs
  }

  /** bdrv_schedule_unref. */
  function Schedule(refs: Refs, bs: Option<Node>): Refs {
    if bs.Some? then refs.(unrefs := refs.unrefs + multiset{bs.value}) else refs
  }

  /** The edge's reference moves to the transaction entry; the new node gets one. */
  lemma ReplaceRefs(cfg: Config, edges: Edges, tran: seq<Action>, refs: Refs, c: Child, bs: Option<Node>)
    requires RefsOk(cfg, edges, tran, refs)
    requires c in edges && edges[c].bs != bs && (bs.Some? ==> bs.value in cfg.nodes)
    ensures RefsOk(cfg, Redirect(edges, c, bs), [ReplaceChild(c, edges[c].bs)] + tran, AddRef(refs, bs))
  {
    forall n <- cfg.nodes ensures AddRef(refs, bs).refcnt[n] ==
        InEdges(Redirect(edges, c, bs), n) + Held([ReplaceChild(c, edges[c].bs)] + tran, n) + refs.unrefs[n] + refs.owners[n]
    {
      RedirectInEdges(edges, c, bs, n);
      HeldHead(ReplaceChild(c, edges[c].bs), tran, n);
    }
  }

  /** Aborting gives the entry's reference back to the edge. */
  lemma UnreplaceRefs(cfg: Config, edges: Edges, tran: seq<Action>, refs: Refs, c: Child, bs: Option<Node>)
    requires tran != [] && tran[0] == ReplaceChild(c, bs) && RefsOk(cfg, edges, tran, refs)
    requires c in edges && edges[c].bs != bs && (edges[c].bs.Some? ==> edges[c].bs.value in cfg.nodes)
    ensures RefsOk(cfg, Redirect(edges, c, bs), tran[1..], DropRef(refs, edges[c].bs))
  {
    forall n <- cfg.nodes ensures DropRef(refs, edges[c].bs).refcnt[n] ==
        InEdges(Redirect(edges, c, bs), n) + Held(tran[1..], n) + refs.unrefs[n] + refs.owners[n]
    {
      RedirectInEdges(edges, c, bs, n);
    }
  }

  lemma RemovalsPush(edges: Edges, edges': Edges, act: Action, tran: seq<Action>)
    requires RemovalsOk(edges, tran)
    requires forall i :: 0 <= i < |tran| && tran[i].RemoveChild? ==> tran[i].c in edges' && edges'[tran[i].c].bs.None?
    requires act.RemoveChild? ==>
               && act.c in edges' && edges'[act.c].bs.None?
               && forall i :: 0 <= i < |tran| && tran[i].RemoveChild? ==> tran[i].c != act.c
    ensures RemovalsOk(edges', [act] + tran)
  {
    var t := [act] + tran;
    forall i | 0 <= i < |t| && t[i].RemoveChild? ensures t[i].c in edges' && edges'[t[i].c].bs.None? {
      if i > 0 { assert t[i] == tran[i - 1]; }
    }
    forall i, j | 0 <= i < j < |t| && t[i].RemoveChild? && t[j].RemoveChild? ensures t[i].c != t[j].c {
      assert t[j] == tran[j - 1];
      if i > 0 { assert t[i] == tran[i - 1]; }
    }
  }

  /** Attaching a detached edge finds its slot free. */
  lemma SlotFree(edges: Edges, links: Links, c: Child, bs: Option<Node>, slot: Slot)
    requires c in edges && LinksOk(edges, links, slot) && SlotsOk(Redirect(edges, c, bs)) && !slot.Neither?
    ensures bs.Some? && edges[c].bs.None? && edges[c].parent.OfNode? && edges[c].slot == slot ==>
              edges[c].parent.node !in links
  {
    var e := Redirect(edges, c, bs);
    if bs.Some? && edges[c].bs.None? && edges[c].parent.OfNode? && edges[c].slot == slot && edges[c].parent.node in links {
      var d := links[edges[c].parent.node];
      assert IsChild(edges, d, edges[c].parent.node);
      assert SameSlot(e[c], e[d]);
    }
  }

  // ---- The entries of a transaction ------------------------------------

  /** The edges' part of the state, consistent with the transaction and the
      reference counts. */
  ghost predicate LogOk(cfg: Config, edges: Edges, tran: seq<Action>, refs: Refs) {
    TranOk(cfg, edges, tran) && RefsOk(cfg, edges, tran, refs)
  }

  lemma ReplaceStep(cfg: Config, edges: Edges, tran: seq<Action>, refs: Refs, c: Child, bs: Option<Node>)
    requires LogOk(cfg, edges, tran, refs)
    requires c in edges && !edges[c].frozen && edges[c].bs.Some? && edges[c].bs != bs && GraphOk(cfg, Redirect(edges, c, bs))
    ensures bs.Some? ==> bs.value in refs.refcnt
    ensures var tran' := [ReplaceChild(c, edges[c].bs)] + tran;
            && LogOk(cfg, Redirect(edges, c, bs), tran', AddRef(refs, bs))
            && UndoAll(Redirect(edges, c, bs), tran') == UndoAll(edges, tran)
  {
    var act := ReplaceChild(c, edges[c].bs);
    assert Redirect(edges, c, bs)[c].bs == bs;
    ReplaceRefs(cfg, edges, tran, refs, c, bs);
    assert Undo(Redirect(edges, c, bs), act) == edges;
    PushOk(cfg, edges, Redirect(edges, c, bs), act, tran);
    RemovalsPush(edges, Redirect(edges, c, bs), act, tran);
  }

  lemma SetAccessShape(edges: Edges, c: Child, a: Access)
    requires c in edges
    ensures SameShape(edges, SetAccess(edges, c, a))
  {
  }

  lemma ShapeLinks(e1: Edges, e2: Edges, links: Links, slot: Slot)
    requires SameShape(e1, e2) && LinksOk(e1, links, slot)
    ensures LinksOk(e2, links, slot)
  {
    forall n <- links ensures IsChild(e2, links[n], n) && e2[links[n]].slot == slot {
      assert IsChild(e1, links[n], n);
    }
  }

  /** An entry that neither moves an edge nor holds a reference. */
  lemma PlainRefs(cfg: Config, edges: Edges, edges': Edges, tran: seq<Action>, refs: Refs, act: Action)
    requires RefsOk(cfg, edges, tran, refs) && !act.ReplaceChild?
    requires forall n :: ParentsOf(edges', n) == ParentsOf(edges, n)
    ensures RefsOk(cfg, edges', [act] + tran, refs)
  {
    forall n <- cfg.nodes ensures refs.refcnt[n] == InEdges(edges', n) + Held([act] + tran, n) + refs.unrefs[n] + refs.owners[n] {
      HeldHead(act, tran, n);
    }
  }

  lemma SetPermStep(cfg: Config, edges: Edges, tran: seq<Action>, refs: Refs, c: Child, a: Access)
    requires LogOk(cfg, edges, tran, refs) && GraphOk(cfg, edges) && c in edges
    ensures var tran' := [SetPerm(c, edges[c].access)] + tran;
            && LogOk(cfg, SetAccess(edges, c, a), tran', refs)
            && UndoAll(SetAccess(edges, c, a), tran') == UndoAll(edges, tran)
  {
    var act := SetPerm(c, edges[c].access);
    var e := SetAccess(edges, c, a);
    SetAccessShape(edges, c, a);
    ShapeArcs(edges, e);
    ShapeGraphOk(cfg, edges, e);
    PlainRefs(cfg, edges, e, tran, refs, act);
    assert Undo(e, act) == edges;
    PushOk(cfg, edges, e, act, tran);
    RemovalsPush(edges, e, act, tran);
  }

  lemma CheckStep(cfg: Config, edges: Edges, tran: seq<Action>, refs: Refs, n: Node)
    requires LogOk(cfg, edges, tran, refs) && GraphOk(cfg, edges)
    ensures var tran' := [CheckedPerm(n)] + tran;
            LogOk(cfg, edges, tran', refs) && UndoAll(edges, tran') == UndoAll(edges, tran)
  {
    PlainRefs(cfg, edges, edges, tran, refs, CheckedPerm(n));
    PushOk(cfg, edges, edges, CheckedPerm(n), tran);
    RemovalsPush(edges, edges, CheckedPerm(n), tran);
  }

  lemma RemoveStep(cfg: Config, edges: Edges, tran: seq<Action>, refs: Refs, c: Child)
    requires LogOk(cfg, edges, tran, refs) && GraphOk(cfg, edges)
    requires c in edges && edges[c].bs.None? && forall i :: 0 <= i < |tran| && tran[i].RemoveChild? ==> tran[i].c != c
    ensures var tran' := [RemoveChild(c)] + tran;
            LogOk(cfg, edges, tran', refs) && UndoAll(edges, tran') == UndoAll(edges, tran)
  {
    PlainRefs(cfg, edges, edges, tran, refs, RemoveChild(c));
    PushOk(cfg, edges, edges, RemoveChild(c), tran);
    RemovalsPush(edges, edges, RemoveChild(c), tran);
  }

  /** A new edge, and the reference it takes. */
  lemma AttachInEdges(edges: Edges, c: Child, e: Edge, n: Node)
    requires c !in edges && e.bs.Some?
    ensures InEdges(edges[c := e], n) == InEdges(edges, n) + if e.bs == Some(n) then 1 else 0
  {
    if e.bs == Some(n) {
      assert ParentsOf(edges[c := e], n) == ParentsOf(edges, n) + {c};
    } else {
      assert ParentsOf(edges[c := e], n) == ParentsOf(edges, n);
    }
  }

  lemma AttachRefs(cfg: Config, edges: Edges, tran: seq<Action>, refs: Refs, c: Child, e: Edge)
    requires RefsOk(cfg, edges, tran, refs)
    requires c !in edges && e.bs.Some? && e.bs.value in cfg.nodes
    ensures RefsOk(cfg, edges[c := e], [AttachChild(c)] + tran, AddRef(refs, e.bs))
  {
    var r := AddRef(refs, e.bs);
    forall n <- cfg.nodes ensures r.refcnt[n] == InEdges(edges[c := e], n) + Held([AttachChild(c)] + tran, n) + r.unrefs[n] + r.owners[n] {
      AttachInEdges(edges, c, e, n);
      HeldHead(AttachChild(c), tran, n);
    }
  }

  lemma AttachStep(cfg: Config, edges: Edges, tran: seq<Action>, refs: Refs, c: Child, e: Edge)
    requires LogOk(cfg, edges, tran, refs)
    requires c !in edges && !e.frozen && e.bs.Some? && GraphOk(cfg, edges[c := e])
    ensures e.bs.value in refs.refcnt
    ensures var tran' := [AttachChild(c)] + tran;
            && LogOk(cfg, edges[c := e], tran', AddRef(refs, e.bs))
            && UndoAll(edges[c := e], tran') == UndoAll(edges, tran)
  {
    assert edges[c := e][c] == e;
    AttachRefs(cfg, edges, tran, refs, c, e);
    assert Undo(edges[c := e], AttachChild(c)) == edges;
    PushOk(cfg, edges, edges[c := e], AttachChild(c), tran);
    RemovalsPush(edges, edges[c := e], AttachChild(c), tran);
  }

  /** The slot of a new edge is free. */
  ghost predicate SlotOpen(edges: Edges, e: Edge) {
    forall d <- edges :: !SameSlot(e, edges[d])
  }

  lemma AttachGraphOk(cfg: Config, edges: Edges, c: Child, e: Edge)
    requires GraphOk(cfg, edges) && c !in edges && SlotOpen(edges, e)
    requires e.bs.Some? && e.bs.value in cfg.nodes && (e.parent.OfNode? ==> e.parent.node in cfg.nodes)
    requires e.parent.OfNode? ==> !Reach(ArcsOf(edges), e.bs.value, e.parent.node)
    ensures GraphOk(cfg, edges[c := e])
  {
    var e' := edges[c := e];
    if e.parent.OfNode? {
      AddArc(ArcsOf(edges), e.parent.node, e.bs.value);
      AcyclicSubset(ArcsOf(e'), ArcsOf(edges) + {(e.parent.node, e.bs.value)});
    } else {
      AcyclicSubset(ArcsOf(e'), ArcsOf(edges));
    }
    forall x, y | x in e' && y in e' && SameSlot(e'[x], e'[y]) ensures x == y {
      if x != c && y != c {
        assert SameSlot(edges[x], edges[y]);
      } else if y == c && x != c {
        assert SameSlot(e'[y], e'[x]);
      }
    }
  }

  lemma AttachLinks(edges: Edges, links: Links, c: Child, e: Edge, slot: Slot)
    requires c !in edges && LinksOk(edges, links, slot)
    ensures LinksOk(edges[c := e.(bs := None)], links, slot)
  {
    var e' := edges[c := e.(bs := None)];
    forall n <- links ensures IsChild(e', links[n], n) && e'[links[n]].slot == slot {
      assert IsChild(edges, links[n], n);
    }
  }

  // ---- Aborting and committing -----------------------------------------

  lemma UnattachRefs(cfg: Config, edges: Edges, tran: seq<Action>, refs: Refs, c: Child)
    requires tran != [] && tran[0] == AttachChild(c) && RefsOk(cfg, edges, tran, refs)
    requires c in edges && edges[c].bs.Some?
    ensures RefsOk(cfg, edges - {c}, tran[1..], Schedule(refs, edges[c].bs))
  {
    forall n <- cfg.nodes ensures
        refs.refcnt[n] == InEdges(edges - {c}, n) + Held(tran[1..], n) + Schedule(refs, edges[c].bs).unrefs[n] + refs.owners[n]
    {
      assert edges == (edges - {c})[c := edges[c]];
      AttachInEdges(edges - {c}, c, edges[c], n);
    }
  }

  lemma CommitReplaceRefs(cfg: Config, edges: Edges, tran: seq<Action>, refs: Refs)
    requires tran != [] && tran[0].ReplaceChild? && RefsOk(cfg, edges, tran, refs)
    ensures RefsOk(cfg, edges, tran[1..], Schedule(refs, tran[0].oldBs))
  {
  }

  /** The edges that committing `tran` frees. */
  function Removed(tran: seq<Action>): set<Child> {
    set i | 0 <= i < |tran| && tran[i].RemoveChild? :: tran[i].c
  }

  lemma RemovalsTail(edges: Edges, tran: seq<Action>)
    requires tran != [] && RemovalsOk(edges, tran)
    ensures RemovalsOk(edges, tran[1..])
    ensures tran[0].RemoveChild? ==> RemovalsOk(edges - {tran[0].c}, tran[1..])
    ensures Removed(tran) == Removed(tran[1..]) + if tran[0].RemoveChild? then {tran[0].c} else {}
  {
    forall c ensures c in Removed(tran) <==> c in Removed(tran[1..]) + if tran[0].RemoveChild? then {tran[0].c} else {} {
      if c in Removed(tran[1..]) {
        var i :| 0 <= i < |tran[1..]| && tran[1..][i].RemoveChild? && tran[1..][i].c == c;
        assert tran[i + 1].c == c;
      }
      if c in Removed(tran) {
        var i :| 0 <= i < |tran| && tran[i].RemoveChild? && tran[i].c == c;
        assert i > 0 ==> tran[1..][i - 1].c == c;
      }
    }
  }

  /** Freeing a detached edge. */
  lemma FreeDetached(cfg: Config, edges: Edges, c: Child)
    requires GraphOk(cfg, edges) && c in edges && edges[c].bs.None?
    ensures GraphOk(cfg, edges - {c})
    ensures forall n :: ParentsOf(edges - {c}, n) == ParentsOf(edges, n)
  {
    AcyclicSubset(ArcsOf(edges - {c}), ArcsOf(edges));
    forall x, y | x in edges - {c} && y in edges - {c} && SameSlot((edges - {c})[x], (edges - {c})[y]) ensures x == y {
      assert SameSlot(edges[x], edges[y]);
    }
  }

  lemma FreeLinks(edges: Edges, c: Child, links: Links, slot: Slot)
    requires c in edges && edges[c].bs.None? && LinksOk(edges, links, slot)
    ensures LinksOk(edges - {c}, links, slot)
  {
    forall n <- links ensures IsChild(edges - {c}, links[n], n) && (edges - {c})[links[n]].slot == slot {
      assert IsChild(edges, links[n], n);
    }
  }

  /** Detaching an edge keeps link slots unique. */
  lemma DetachForFree(cfg: Config, edges: Edges, c: Child)
    requires GraphOk(cfg, edges) && c in edges
    ensures SlotsOk(Redirect(edges, c, None)) && Redirect(edges, c, None) - {c} == edges - {c}
  {
    var e := Redirect(edges, c, None);
    forall x, y | x in e && y in e && SameSlot(e[x], e[y]) ensures x == y {
      assert SameSlot(edges[x], edges[y]);
    }
  }
}
