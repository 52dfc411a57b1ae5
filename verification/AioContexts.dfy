/**
 * Moving block nodes to another AioContext (block.c, blockjob.c): nodes that are
 * connected through edges, or through a job, move together or not at all.
 */
module AioContexts {
  import opened Digraph

  type Child = nat
  type JobId = nat
  type Context = nat

  /** Who uses a node: another node, a job, or somebody who may or may not be
      able to follow it. */
  datatype Owner = OfNode(node: Node) | OfJob(job: JobId) | Other(movable: bool)

  datatype Link = Link(owner: Owner, bs: Node)

  type Links = map<Child, Link>

  function ParentLinks(links: Links, n: Node): set<Child> { set c | c in links && links[c].bs == n }

  function ChildLinks(links: Links, n: Node): set<Child> { set c | c in links && links[c].owner == OfNode(n) }

  function JobLinks(links: Links, j: JobId): set<Child> { set c | c in links && links[c].owner == OfJob(j) }

  /** Nodes are joined in both directions, and all the nodes of a job are. */
  predicate Joined(links: Links, a: Node, b: Node, c: Child, d: Child)
    requires c in links && d in links
  {
    || (c == d && links[c].owner == OfNode(a) && links[c].bs == b)
    || (c == d && links[c].owner == OfNode(b) && links[c].bs == a)
    || (links[c].owner.OfJob? && links[c].owner == links[d].owner && links[c].bs == a && links[d].bs == b)
  }

  function Nodes(links: Links): set<Node> {
    (set c | c in links :: links[c].bs) + (set c | c in links && links[c].owner.OfNode? :: links[c].owner.node)
  }

  ghost function JoinArcs(links: Links): Arcs {
    set a, b | a in Nodes(links) && b in Nodes(links) && HasJoin(links, a, b) :: (a, b)
  }

  ghost predicate HasJoin(links: Links, a: Node, b: Node) {
    exists c, d :: c in links && d in links && Joined(links, a, b, c, d)
  }

  lemma JoinIsArc(links: Links, a: Node, b: Node, c: Child, d: Child)
    requires c in links && d in links && Joined(links, a, b, c, d)
    ensures (a, b) in JoinArcs(links)
  {
    assert a in Nodes(links) && b in Nodes(links);
  }

  /** Connected nodes share a context. */
  ghost predicate Shared(links: Links, ctx: map<Node, Context>) {
    forall a, b :: (a, b) in JoinArcs(links) ==> a in ctx && b in ctx && ctx[a] == ctx[b]
  }

  /** The nodes that are in the context already. */
  function Settled(ctx: map<Node, Context>, to: Context): set<Node> { set n | n in ctx && ctx[n] == to }

  /** The connections along which a change spreads: it stops at settled nodes. */
  ghost function Spread(links: Links, ctx: map<Node, Context>, to: Context): Arcs {
    set a | a in JoinArcs(links) && a.0 !in Settled(ctx, to) && a.1 !in Settled(ctx, to)
  }

  /** Entries of the transaction, the newest first. */
  datatype Entry = SetNode(node: Node) | SetJob(job: JobId)

  function Enlisted(tran: seq<Entry>): multiset<Node> {
    if tran == [] then multiset{}
    else (if tran[0].SetNode? then multiset{tran[0].node} else multiset{}) + Enlisted(tran[1..])
  }

  // ---- The search ------------------------------------------------------

  ghost predicate Known(link: Link, tran: seq<Entry>, path: set<Node>, jobs: set<JobId>) {
    && (link.bs in path || SetNode(link.bs) in tran)
    && match link.owner
       case OfNode(n) => n in path || SetNode(n) in tran
       case OfJob(j) => j in jobs || SetJob(j) in tran
       case Other(movable) => movable
  }

  /** Both ends of every visited edge are enlisted or being dealt with. */
  ghost predicate Closed(links: Links, visited: set<Child>, tran: seq<Entry>, path: set<Node>, jobs: set<JobId>) {
    forall c <- visited :: c in links && Known(links[c], tran, path, jobs)
  }

  /** All the edges of what is enlisted have been visited. */
  ghost predicate Full(links: Links, visited: set<Child>, tran: seq<Entry>) {
    forall e <- tran ::
      match e
      case SetNode(n) => ParentLinks(links, n) <= visited && ChildLinks(links, n) <= visited
      case SetJob(j) => JobLinks(links, j) <= visited
  }

  /** Only what is connected to the root is enlisted. */
  ghost predicate Inside(arcs: Arcs, root: Node, tran: seq<Entry>) {
    forall e <- tran :: e.SetNode? ==> Reach(arcs, root, e.node)
  }

  ghost predicate SearchOk(links: Links, arcs: Arcs, visited: set<Child>, tran: seq<Entry>, path: set<Node>,
                           jobs: set<JobId>, root: Node) {
    Closed(links, visited, tran, path, jobs) && Full(links, visited, tran) && Inside(arcs, root, tran)
  }

  /** The search has ended: what is enlisted or settled is closed under
      connections. */
  lemma ClosedArc(links: Links, visited: set<Child>, tran: seq<Entry>, settled: set<Node>, a: Node, b: Node)
    requires Closed(links, visited, tran, settled, {}) && Full(links, visited, tran)
    requires SetNode(a) in tran && (a, b) in JoinArcs(links)
    ensures SetNode(b) in tran || b in settled
  {
    var c, d :| c in links && d in links && Joined(links, a, b, c, d);
    assert ParentLinks(links, a) <= visited && ChildLinks(links, a) <= visited;
    assert c in ParentLinks(links, a) || c in ChildLinks(links, a);
    if links[c].owner.OfJob? {
      assert SetJob(links[c].owner.job) in tran;
      assert d in JobLinks(links, links[c].owner.job);
    }
    assert d in visited;
  }

  lemma {:induction false} ClosedWalk(links: Links, ctx: map<Node, Context>, to: Context, visited: set<Child>,
                                      tran: seq<Entry>, w: seq<Node>)
    requires Closed(links, visited, tran, Settled(ctx, to), {}) && Full(links, visited, tran)
    requires Walk(Spread(links, ctx, to), w) && SetNode(w[0]) in tran
    ensures SetNode(w[|w| - 1]) in tran
  {
    if |w| > 1 {
      assert (w[0], w[1]) in Spread(links, ctx, to);
      ClosedArc(links, visited, tran, Settled(ctx, to), w[0], w[1]);
      ClosedWalk(links, ctx, to, visited, tran, w[1..]);
    }
  }

  /** Exactly the nodes connected to the root are enlisted. */
  lemma ComponentEnlisted(links: Links, ctx: map<Node, Context>, to: Context, visited: set<Child>, tran: seq<Entry>,
                          root: Node, n: Node)
    requires SearchOk(links, Spread(links, ctx, to), visited, tran, Settled(ctx, to), {}, root) && SetNode(root) in tran
    ensures SetNode(n) in tran <==> Reach(Spread(links, ctx, to), root, n)
  {
    var arcs := Spread(links, ctx, to);
    if Reach(arcs, root, n) {
      var w :| Joins(arcs, w, root, n);
      ClosedWalk(links, ctx, to, visited, tran, w);
    }
  }

  ghost predicate Immovable(links: Links, arcs: Arcs, c: Child, root: Node) {
    c in links && links[c].owner == Other(false) && Reach(arcs, root, links[c].bs)
  }

  /** A connected node has a user that cannot follow. */
  ghost predicate Blocked(links: Links, arcs: Arcs, root: Node) {
    exists c :: Immovable(links, arcs, c, root)
  }

  lemma NotBlocked(links: Links, ctx: map<Node, Context>, to: Context, visited: set<Child>, tran: seq<Entry>, root: Node)
    requires SearchOk(links, Spread(links, ctx, to), visited, tran, Settled(ctx, to), {}, root) && SetNode(root) in tran
    ensures !Blocked(links, Spread(links, ctx, to), root)
  {
    var arcs := Spread(links, ctx, to);
    forall c ensures !Immovable(links, arcs, c, root) {
      if c in links && Reach(arcs, root, links[c].bs) {
        ComponentEnlisted(links, ctx, to, visited, tran, root, links[c].bs);
        assert c in ParentLinks(links, links[c].bs);
        assert c in visited;
      }
    }
  }

  /** A node whose edges have all been visited is enlisted. */
  lemma EnlistNode(links: Links, arcs: Arcs, visited: set<Child>, tran: seq<Entry>, path: set<Node>, jobs: set<JobId>,
                   root: Node, n: Node)
    requires SearchOk(links, arcs, visited, tran, path + {n}, jobs, root) && Reach(arcs, root, n)
    requires ParentLinks(links, n) <= visited && ChildLinks(links, n) <= visited
    ensures SearchOk(links, arcs, visited, [SetNode(n)] + tran, path, jobs, root)
  {
    var tran' := [SetNode(n)] + tran;
    assert forall e :: e in tran' <==> e == SetNode(n) || e in tran;
  }

  lemma EnlistJob(links: Links, arcs: Arcs, visited: set<Child>, tran: seq<Entry>, path: set<Node>, jobs: set<JobId>,
                  root: Node, j: JobId)
    requires SearchOk(links, arcs, visited, tran, path, jobs + {j}, root) && JobLinks(links, j) <= visited
    ensures SearchOk(links, arcs, visited, [SetJob(j)] + tran, path, jobs, root)
  {
    var tran' := [SetJob(j)] + tran;
    assert forall e :: e in tran' <==> e == SetJob(j) || e in tran;
  }

  /** An edge is visited, and its far end is about to be dealt with. */
  lemma VisitLink(links: Links, arcs: Arcs, visited: set<Child>, tran: seq<Entry>, path: set<Node>, jobs: set<JobId>,
                  path': set<Node>, jobs': set<JobId>, root: Node, c: Child)
    requires SearchOk(links, arcs, visited, tran, path, jobs, root) && c in links
    requires path <= path' && jobs <= jobs' && Known(links[c], tran, path', jobs')
    ensures SearchOk(links, arcs, visited + {c}, tran, path', jobs', root)
  {
  }

  class ContextChange {
    const links: Links
    var ctx: map<Node, Context>
    var drained: multiset<Node>
    var visited: set<Child>
    var ignored: set<Child> // ignore_child
    var tran: seq<Entry>

    constructor (links: Links, ctx: map<Node, Context>, drained: multiset<Node>)
      ensures this.links == links && this.ctx == ctx && this.drained == drained && visited == {} && tran == []
    {
      this.links, this.ctx, this.drained, this.visited, this.ignored, this.tran := links, ctx, drained, {}, {}, [];
    }

    /** The edges that the search takes notice of. */
    function Live(): Links
      reads this`ignored
    {
      links - ignored
    }

    /** The search has come this far: the nodes in `path` and the jobs in `jobs`
        are being dealt with. */
    ghost predicate Searching(path: set<Node>, jobs: set<JobId>, root: Node, base: multiset<Node>, to: Context)
      reads this
    {
      && ignored <= visited && SearchOk(Live(), Arcs(to), visited - ignored, tran, path, jobs, root)
      && drained == base + Enlisted(tran) && Settled(ctx, to) <= path
    }

    ghost function Arcs(to: Context): Arcs
      reads this`ctx, this`ignored
    {
      Spread(Live(), ctx, to)
    }

    ghost predicate NodeOk(n: Node, root: Node, to: Context)
      reads this
    {
      n in ctx && (ctx[n] != to ==> Reach(Arcs(to), root, n))
    }

    /** bdrv_change_aio_context. */
    method ChangeNode(n: Node, to: Context, ghost path: set<Node>, ghost jobs: set<JobId>, ghost root: Node,
                      ghost base: multiset<Node>)
      returns (ok: bool)
      requires Nodes(Live()) <= ctx.Keys && Searching(path + {n}, jobs, root, base, to)
      requires Settled(ctx, to) <= path && NodeOk(n, root, to)
      modifies this`drained, this`visited, this`tran
      ensures visited >= old(visited) && drained == base + Enlisted(tran) && (!ok ==> Blocked(Live(), Arcs(to), root))
      ensures ok ==> Searching(path, jobs, root, base, to) && (ctx[n] != to ==> SetNode(n) in tran)
      ensures ctx[n] == to ==> ok && visited == old(visited) && tran == old(tran)
      decreases links.Keys - visited, 3
    {
      if ctx[n] == to {
        assert path + {n} == path;
        return true;
      }
      ok := ChangeParents(n, to, path + {n}, jobs, root, base);
      if !ok {
        return false;
      }
      ok := ChangeChildren(n, to, path + {n}, jobs, root, base);
      if !ok {
        return false;
      }
      IgnoredNodeLinks(links, ignored, n);
      EnlistNode(Live(), Arcs(to), visited - ignored, tran, path, jobs, root, n);
      ghost var t0 := tran;
      drained := drained + multiset{n};
      tran := [SetNode(n)] + tran;
      assert tran[1..] == t0;
      return true;
    }

    /** Its first loop. */
    method ChangeParents(n: Node, to: Context, ghost path: set<Node>, ghost jobs: set<JobId>, ghost root: Node,
                         ghost base: multiset<Node>)
      returns (ok: bool)
      requires Nodes(Live()) <= ctx.Keys && Searching(path, jobs, root, base, to) && n in path && n in ctx && ctx[n] != to && NodeOk(n, root, to)
      modifies this`drained, this`visited, this`tran
      ensures visited >= old(visited) && drained == base + Enlisted(tran) && (!ok ==> Blocked(Live(), Arcs(to), root))
      ensures ok ==> Searching(path, jobs, root, base, to) && ParentLinks(links, n) <= visited
      decreases links.Keys - visited, 2
    {
      var todo := ParentLinks(links, n);
      while todo != {}
        invariant todo <= ParentLinks(links, n) && ParentLinks(links, n) - todo <= visited && visited >= old(visited)
        invariant Searching(path, jobs, root, base, to)
      {
        var c :| c in todo;
        ok := ChangeParent(c, n, to, path, jobs, root, base);
        if !ok {
          return false;
        }
        todo := todo - {c};
      }
      return true;
    }

    /** Its second loop. */
    method ChangeChildren(n: Node, to: Context, ghost path: set<Node>, ghost jobs: set<JobId>, ghost root: Node,
                          ghost base: multiset<Node>)
      returns (ok: bool)
      requires Nodes(Live()) <= ctx.Keys && Searching(path, jobs, root, base, to) && n in path && n in ctx && ctx[n] != to && NodeOk(n, root, to)
      modifies this`drained, this`visited, this`tran
      ensures visited >= old(visited) && drained == base + Enlisted(tran) && (!ok ==> Blocked(Live(), Arcs(to), root))
      ensures ok ==> Searching(path, jobs, root, base, to) && ChildLinks(links, n) <= visited
      decreases links.Keys - visited, 2
    {
      var todo := ChildLinks(links, n);
      while todo != {}
        invariant todo <= ChildLinks(links, n) && ChildLinks(links, n) - todo <= visited && visited >= old(visited)
        invariant Searching(path, jobs, root, base, to)
      {
        var c :| c in todo;
        if c !in visited {
          JoinIsArc(Live(), n, links[c].bs, c, c);
        }
        ok := ChangeChild(c, n, to, path, jobs, root, base);
        if !ok {
          return false;
        }
        todo := todo - {c};
      }
      return true;
    }

    /** bdrv_parent_change_aio_context: the owner of an edge to `n` has to follow. */
    method ChangeParent(c: Child, n: Node, to: Context, ghost path: set<Node>, ghost jobs: set<JobId>,
                        ghost root: Node, ghost base: multiset<Node>)
      returns (ok: bool)
      requires Nodes(Live()) <= ctx.Keys && Searching(path, jobs, root, base, to)
      requires c in links && links[c].bs == n && n in path && n in ctx && ctx[n] != to && NodeOk(n, root, to)
      modifies this`drained, this`visited, this`tran
      ensures visited >= old(visited) && drained == base + Enlisted(tran) && (!ok ==> Blocked(Live(), Arcs(to), root))
      ensures ok ==> Searching(path, jobs, root, base, to) && c in visited
      decreases links.Keys - visited, 1
    {
      if c in visited {
        return true;
      }
      var owner := links[c].owner;
      if owner.Other? && !owner.movable {
        assert Immovable(Live(), Arcs(to), c, root);
        visited := visited + {c};
        return false;
      }
      ghost var path', jobs' := if owner.OfNode? then path + {owner.node} else path, if owner.OfJob? then jobs + {owner.job} else jobs;
      VisitLink(Live(), Arcs(to), visited - ignored, tran, path, jobs, path', jobs', root, c);
      assert visited - ignored + {c} == visited + {c} - ignored;
      visited := visited + {c};
      match owner
      case OfNode(p) =>
        JoinIsArc(Live(), n, p, c, c);
        NextNode(n, p, root, to);
        ok := ChangeNode(p, to, path, jobs, root, base);
      case OfJob(j) =>
        ok := ChangeJob(j, c, n, to, path, jobs, root, base);
      case Other(_) =>
        ok := true;
    }

    /** bdrv_child_change_aio_context, from the owner or a sibling at `from`. */
    method ChangeChild(c: Child, from: Node, to: Context, ghost path: set<Node>, ghost jobs: set<JobId>,
                       ghost root: Node, ghost base: multiset<Node>)
      returns (ok: bool)
      requires Nodes(Live()) <= ctx.Keys && Searching(path, jobs, root, base, to)
      requires c in links && (c !in visited ==> (from, links[c].bs) in JoinArcs(Live())) && NodeOk(from, root, to) && ctx[from] != to
      requires Known(links[c], tran, path + {links[c].bs}, jobs)
      modifies this`drained, this`visited, this`tran
      ensures visited >= old(visited) && drained == base + Enlisted(tran) && (!ok ==> Blocked(Live(), Arcs(to), root))
      ensures ok ==> Searching(path, jobs, root, base, to) && c in visited
      decreases links.Keys - visited, 1
    {
      if c in visited {
        return true;
      }
      VisitLink(Live(), Arcs(to), visited - ignored, tran, path, jobs, path + {links[c].bs}, jobs, root, c);
      assert visited - ignored + {c} == visited + {c} - ignored;
      visited := visited + {c};
      NextNode(from, links[c].bs, root, to);
      ok := ChangeNode(links[c].bs, to, path, jobs, root, base);
    }

    /** child_job_change_aio_ctx: all the nodes of the job follow. */
    method ChangeJob(j: JobId, via: Child, n: Node, to: Context, ghost path: set<Node>, ghost jobs: set<JobId>,
                     ghost root: Node, ghost base: multiset<Node>)
      returns (ok: bool)
      requires Nodes(Live()) <= ctx.Keys && Searching(path, jobs + {j}, root, base, to)
      requires via in Live() && Live()[via] == Link(OfJob(j), n) && NodeOk(n, root, to) && ctx[n] != to
      modifies this`drained, this`visited, this`tran
      ensures visited >= old(visited) && drained == base + Enlisted(tran) && (!ok ==> Blocked(Live(), Arcs(to), root))
      ensures ok ==> Searching(path, jobs, root, base, to)
      decreases links.Keys - visited, 4
    {
      var todo := JobLinks(links, j);
      while todo != {}
        invariant todo <= JobLinks(links, j) && JobLinks(links, j) - todo <= visited && visited >= old(visited)
        invariant Searching(path, jobs + {j}, root, base, to)
      {
        var c :| c in todo;
        if c !in visited {
          JoinIsArc(Live(), n, links[c].bs, via, c);
        }
        ok := ChangeChild(c, n, to, path, jobs + {j}, root, base);
        if !ok {
          return false;
        }
        todo := todo - {c};
      }
      IgnoredJobLinks(links, ignored, j);
      EnlistJob(Live(), Arcs(to), visited - ignored, tran, path, jobs, root, j);
      ghost var t0 := tran;
      tran := [SetJob(j)] + tran;
      assert tran[1..] == t0;
      return true;
    }

    lemma NextNode(n: Node, m: Node, root: Node, to: Context)
      requires Nodes(Live()) <= ctx.Keys && (n, m) in JoinArcs(Live()) && NodeOk(n, root, to) && ctx[n] != to
      ensures NodeOk(m, root, to)
    {
      if ctx[m] != to {
        ReachArc(Arcs(to), root, n, m);
      }
    }

    /** The commit callbacks. */
    method Commit(to: Context)
      requires forall e <- tran :: e.SetNode? ==> e.node in ctx
      modifies this`ctx
      ensures ctx.Keys == old(ctx).Keys
      ensures forall n <- ctx :: ctx[n] == if SetNode(n) in tran then to else old(ctx)[n]
    {
      var i := 0;
      while i < |tran|
        invariant 0 <= i <= |tran| && ctx.Keys == old(ctx).Keys
        invariant forall n <- ctx :: ctx[n] == if SetNode(n) in tran[..i] then to else old(ctx)[n]
      {
        assert tran[..i + 1] == tran[..i] + [tran[i]];
        if tran[i].SetNode? {
          ctx := ctx[tran[i].node := to];
        }
        i := i + 1;
      }
      assert tran[..i] == tran;
    }

    /** The clean callbacks: every drained section that was begun is ended. */
    method Clean(ghost base: multiset<Node>)
      requires drained == base + Enlisted(tran)
      modifies this`drained, this`tran, this`visited
      ensures drained == base && tran == [] && visited == {}
    {
      while tran != []
        invariant drained == base + Enlisted(tran)
        decreases |tran|
      {
        if tran[0].SetNode? {
          EndOne(base, Enlisted(tran[1..]), tran[0].node);
          drained := drained - multiset{tran[0].node};
        }
        tran := tran[1..];
      }
      visited := {};
    }

    /** bdrv_try_change_aio_context: it succeeds just if no connected node has a
        user that cannot follow.  Then exactly the connected nodes move; otherwise
        none does.  In both cases all drained sections are over.  Nothing is
        connected through `ignore`, or through a node that need not move. */
    method TryChange(n: Node, to: Context, ignore: set<Child>) returns (ok: bool)
      requires Nodes(links - ignore) <= ctx.Keys && n in ctx && tran == []
      modifies this
      ensures visited == {} && tran == [] && drained == old(drained) && ctx.Keys == old(ctx).Keys
      ensures ok <==> old(ctx)[n] == to || !Blocked(links - ignore, Spread(links - ignore, old(ctx), to), n)
      ensures forall m <- ctx ::
                ctx[m] == if ok && old(ctx)[n] != to && Reach(Spread(links - ignore, old(ctx), to), n, m) then to
                          else old(ctx)[m]
    {
      visited, ignored := ignore, ignore;
      ReachSelf(Arcs(to), n);
      assert visited - ignored == {};
      ok := ChangeNode(n, to, Settled(ctx, to), {}, n, drained);
      if ok && ctx[n] != to {
        MovedNodes(Live(), ctx, to, visited - ignored, tran, n);
        NotBlocked(Live(), ctx, to, visited - ignored, tran, n);
        Commit(to);
      }
      Clean(old(drained));
    }
  }

  /** In a graph whose connected nodes share a context, the whole component moves,
      and connected nodes share a context again. */
  lemma MovesTogether(links: Links, ctx: map<Node, Context>, to: Context, n: Node, ctx': map<Node, Context>)
    requires Shared(links, ctx) && n in ctx && ctx[n] != to && ctx'.Keys == ctx.Keys
    requires forall m <- ctx :: ctx'[m] == if Reach(Spread(links, ctx, to), n, m) then to else ctx[m]
    ensures forall m <- ctx :: ctx'[m] == if Reach(JoinArcs(links), n, m) then to else ctx[m]
    ensures Shared(links, ctx')
  {
    forall m: Node ensures Reach(JoinArcs(links), n, m) <==> Reach(Spread(links, ctx, to), n, m) {
      SpreadsAll(links, ctx, to, n, m);
    }
    forall a, b | (a, b) in JoinArcs(links) ensures a in ctx' && b in ctx' && ctx'[a] == ctx'[b] {
      JoinSymmetric(links, a, b);
      if Reach(JoinArcs(links), n, a) {
        ReachArc(JoinArcs(links), n, a, b);
      }
      if Reach(JoinArcs(links), n, b) {
        ReachArc(JoinArcs(links), n, b, a);
      }
    }
  }

  lemma JoinSymmetric(links: Links, a: Node, b: Node)
    requires (a, b) in JoinArcs(links)
    ensures (b, a) in JoinArcs(links)
  {
    var c, d :| c in links && d in links && Joined(links, a, b, c, d);
    assert Joined(links, b, a, d, c);
  }

  lemma SpreadsAll(links: Links, ctx: map<Node, Context>, to: Context, n: Node, m: Node)
    requires Shared(links, ctx) && n in ctx && ctx[n] != to
    ensures Reach(JoinArcs(links), n, m) <==> Reach(Spread(links, ctx, to), n, m)
  {
    if Reach(JoinArcs(links), n, m) {
      var w :| Joins(JoinArcs(links), w, n, m);
      SpreadWalk(links, ctx, to, w);
      assert Joins(Spread(links, ctx, to), w, n, m);
    }
    if Reach(Spread(links, ctx, to), n, m) {
      ReachMonotone(Spread(links, ctx, to), JoinArcs(links), n, m);
    }
  }

  /** A walk from a node that is to move only meets such nodes. */
  lemma {:induction false} SpreadWalk(links: Links, ctx: map<Node, Context>, to: Context, w: seq<Node>)
    requires Shared(links, ctx) && Walk(JoinArcs(links), w) && w[0] in ctx && ctx[w[0]] != to
    ensures Walk(Spread(links, ctx, to), w)
  {
    if |w| > 1 {
      assert (w[0], w[1]) in JoinArcs(links);
      SpreadWalk(links, ctx, to, w[1..]);
      forall i | 0 <= i < |w| - 1 ensures (w[i], w[i + 1]) in Spread(links, ctx, to) {
        if i > 0 {
          assert (w[1..][i - 1], w[1..][i]) in Spread(links, ctx, to);
        }
      }
    }
  }

  lemma IgnoredNodeLinks(links: Links, ignored: set<Child>, n: Node)
    ensures ParentLinks(links - ignored, n) == ParentLinks(links, n) - ignored
    ensures ChildLinks(links - ignored, n) == ChildLinks(links, n) - ignored
  {
  }

  lemma IgnoredJobLinks(links: Links, ignored: set<Child>, j: JobId)
    ensures JobLinks(links - ignored, j) == JobLinks(links, j) - ignored
  {
  }

  lemma EndOne(base: multiset<Node>, rest: multiset<Node>, n: Node)
    ensures base + (multiset{n} + rest) - multiset{n} == base + rest
  {
  }

  lemma MovedNodes(links: Links, ctx: map<Node, Context>, to: Context, visited: set<Child>, tran: seq<Entry>, root: Node)
    requires SearchOk(links, Spread(links, ctx, to), visited, tran, Settled(ctx, to), {}, root) && SetNode(root) in tran
    requires Nodes(links) <= ctx.Keys && root in ctx
    ensures forall m :: SetNode(m) in tran <==> Reach(Spread(links, ctx, to), root, m)
    ensures forall e <- tran :: e.SetNode? ==> e.node in ctx
  {
    var arcs := Spread(links, ctx, to);
    forall m: Node
      ensures SetNode(m) in tran <==> Reach(arcs, root, m)
      ensures SetNode(m) in tran ==> m in ctx {
      ComponentEnlisted(links, ctx, to, visited, tran, root, m);
      if Reach(arcs, root, m) {
        ReachesKnown(links, ctx, to, root, m);
      }
    }
  }

  lemma ReachesKnown(links: Links, ctx: map<Node, Context>, to: Context, root: Node, m: Node)
    requires Nodes(links) <= ctx.Keys && root in ctx && Reach(Spread(links, ctx, to), root, m)
    ensures m in ctx
  {
    var w :| Joins(Spread(links, ctx, to), w, root, m);
    if |w| > 1 {
      assert (w[|w| - 2], w[|w| - 1]) in JoinArcs(links);
    }
  }
}
