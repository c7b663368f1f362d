// When the size-alignment check of a permission refresh can start to fail although the users of
// the graph only give permissions up (block.c:2482-2491, block.c:2659-2807).
module Alignment {
  import opened BlockGraph
  import opened GraphSearch
  import opened Permissions
  import opened Refresh
  import opened Wrappers

  /** Users give up required permissions or share more; the edges of nodes are left to the refresh. */
  ghost predicate UserLoosening(es: Edges, es': Edges) {
    && SameShape(es, es')
    && forall e :: e in es ==> if es[e].owner.User? then es'[e].perm <= es[e].perm && es[e].shared <= es'[e].shared else es'[e] == es[e]
  }

  ghost predicate Writes(ps: Perms) {
    Write in ps || WriteUnchanged in ps
  }

  /** Write access passes through every child but a backing file. */
  predicate Passes(role: Role) {
    role.filtered || !role.cow
  }

  /** Through a data child it turns into the right to resize. */
  predicate Grows(role: Role) {
    !role.filtered && !role.cow && role.data
  }

  /** A writable node holds WRITE and RESIZE on its metadata child, whatever its own parents need. */
  ghost predicate Pins(nodes: map<NodeId, Node>, es: Edges, part: set<NodeId>, e: EdgeId)
    requires e in es
  {
    Governed(nodes, es, part, e) && !es[e].role.filtered && !es[e].role.cow && es[e].role.metadata && Writable(nodes[es[e].owner.node])
  }

  /** What a governed edge asks for, in terms of what the node's own parents ask for. */
  lemma EdgeAsks(nodes: map<NodeId, Node>, es: Edges, part: set<NodeId>, e: EdgeId)
    requires e in es && Governed(nodes, es, part, e) && ChildrenOk(DefaultFn(nodes), nodes, es, es[e].owner.node)
    ensures var up := CumPerm(es, es[e].owner.node);
      && (Writes(es[e].perm) <==> Pins(nodes, es, part, e) || (Passes(es[e].role) && Writes(up)))
      && (Resize in es[e].perm <==>
          Pins(nodes, es, part, e) || (Passes(es[e].role) && (Resize in up || (Grows(es[e].role) && Writes(up)))))
  {
    var u := es[e].owner.node;
    assert OwnedBy(es, e, u);
    assert es[e].perm == DefaultPerms(nodes[u], es[e].role, CumPerm(es, u), CumShared(es, u)).0;
    AsksFor(nodes[u], es[e].role, CumPerm(es, u), CumShared(es, u));
  }

  lemma AsksFor(n: Node, role: Role, up: Perms, shared: Perms)
    ensures var p := DefaultPerms(n, role, up, shared).0;
      var pinned := !role.filtered && !role.cow && role.metadata && Writable(n);
      && (Writes(p) <==> pinned || (Passes(role) && Writes(up)))
      && (Resize in p <==> pinned || (Passes(role) && (Resize in up || (Grows(role) && Writes(up)))))
  {
    PermInAll(Write);
    PermInAll(WriteUnchanged);
    PermInAll(Resize);
  }

  // ----- chains of edges from a source to a node ------------------------------------------

  ghost predicate Link(nodes: map<NodeId, Node>, es: Edges, part: set<NodeId>, a: EdgeId, b: EdgeId) {
    a in es && b in es && Governed(nodes, es, part, b) && Passes(es[b].role) && es[a].bs == Some(es[b].owner.node)
  }

  /** The edges lead down to `n`, and all but the first are refreshed and pass write access on. */
  ghost predicate Chain(nodes: map<NodeId, Node>, es: Edges, part: set<NodeId>, c: seq<EdgeId>, n: NodeId) {
    && c != [] && (forall i :: 0 <= i < |c| ==> c[i] in es)
    && (forall i :: 0 < i < |c| ==> Link(nodes, es, part, c[i - 1], c[i]))
    && es[c[|c| - 1]].bs == Some(n)
  }

  /** One of the edges after the first adds RESIZE to WRITE. */
  ghost predicate Growing(es: Edges, c: seq<EdgeId>) {
    exists i :: 0 < i < |c| && c[i] in es && Grows(es[c[i]].role)
  }

  ghost predicate WriteSource(nodes: map<NodeId, Node>, es: Edges, part: set<NodeId>, e: EdgeId)
    requires e in es
  {
    Pins(nodes, es, part, e) || (!Governed(nodes, es, part, e) && Writes(es[e].perm))
  }

  /** The chain brings RESIZE to its end: it starts with it, or with WRITE and grows. */
  ghost predicate BringsResize(nodes: map<NodeId, Node>, es: Edges, part: set<NodeId>, c: seq<EdgeId>)
    requires c != [] && c[0] in es
  {
    || Pins(nodes, es, part, c[0])
    || (!Governed(nodes, es, part, c[0]) && (Resize in es[c[0]].perm || (Writes(es[c[0]].perm) && Growing(es, c))))
  }

  ghost predicate Settled(nodes: map<NodeId, Node>, es: Edges, part: set<NodeId>) {
    forall n :: n in part ==> ChildrenOk(DefaultFn(nodes), nodes, es, n)
  }

  lemma ChainFront(nodes: map<NodeId, Node>, es: Edges, part: set<NodeId>, c: seq<EdgeId>, n: NodeId)
    requires Chain(nodes, es, part, c, n) && |c| > 1
    ensures var e := c[|c| - 1];
      && Governed(nodes, es, part, e) && Passes(es[e].role)
      && Chain(nodes, es, part, c[..|c| - 1], es[e].owner.node)
      && (Growing(es, c) <==> Growing(es, c[..|c| - 1]) || Grows(es[e].role))
  {
    var last := |c| - 1;
    var front, e := c[..last], c[last];
    assert Link(nodes, es, part, c[last - 1], e);
    if i :| 0 < i < |c| && Grows(es[c[i]].role) && i < last {
      assert front[i] == c[i];
    }
    if Grows(es[e].role) {
      assert c[last] in es;
    }
  }

  lemma ChainSnoc(nodes: map<NodeId, Node>, es: Edges, part: set<NodeId>, c: seq<EdgeId>, u: NodeId, e: EdgeId, n: NodeId)
    requires Chain(nodes, es, part, c, u) && e in es && Governed(nodes, es, part, e) && Passes(es[e].role)
    requires es[e].owner == Bds(u) && es[e].bs == Some(n)
    ensures Chain(nodes, es, part, c + [e], n) && (c + [e])[0] == c[0]
    ensures Growing(es, c) || Grows(es[e].role) ==> Growing(es, c + [e])
  {
    var c' := c + [e];
    forall i | 0 < i < |c'| ensures Link(nodes, es, part, c'[i - 1], c'[i]) {
      if i < |c| { assert Link(nodes, es, part, c[i - 1], c[i]); }
    }
    if i :| 0 < i < |c| && c[i] in es && Grows(es[c[i]].role) { assert c'[i] == c[i]; }
    if Grows(es[e].role) { assert c'[|c|] == e; }
  }

  lemma Asked(es: Edges, e: EdgeId, n: NodeId)
    requires e in es && es[e].bs == Some(n)
    ensures es[e].perm <= CumPerm(es, n)
  {
    forall p | p in es[e].perm ensures p in CumPerm(es, n) {
      PermInAll(p);
      assert UsedBy(es, n, p);
    }
  }

  /** What a chain carries arrives at its end. */
  lemma {:induction false} Arrives(nodes: map<NodeId, Node>, es: Edges, part: set<NodeId>, c: seq<EdgeId>, n: NodeId)
    requires Settled(nodes, es, part) && Chain(nodes, es, part, c, n)
    ensures WriteSource(nodes, es, part, c[0]) ==> Writes(es[c[|c| - 1]].perm) && Writes(CumPerm(es, n))
    ensures BringsResize(nodes, es, part, c) ==> Resize in es[c[|c| - 1]].perm && Resize in CumPerm(es, n)
    decreases |c|
  {
    var e := c[|c| - 1];
    if Governed(nodes, es, part, e) {
      EdgeAsks(nodes, es, part, e);
    }
    if |c| > 1 {
      ChainFront(nodes, es, part, c, n);
      Arrives(nodes, es, part, c[..|c| - 1], es[e].owner.node);
    }
    Asked(es, e, n);
  }

  lemma Climbs(g: Graph, e: EdgeId, n: NodeId)
    requires Indexed(g) && Acyclic(g.edges) && e in g.edges && g.edges[e].owner.Bds? && g.edges[e].bs == Some(n)
    ensures g.edges[e].owner.node in g.nodes && n in g.nodes
    ensures g.nodes.Keys - Below(g, g.edges[e].owner.node) < g.nodes.Keys - Below(g, n)
  {
    var u := g.edges[e].owner.node;
    assert EndsOk(g, e) && ArcBy(g.edges, e, u, n);
    ArcNotBack(g.edges, u, n);
    ReachArc(g.edges, u, n);
    ReachSelf(g.edges, u);
    assert u in g.nodes.Keys - Below(g, n) && u !in g.nodes.Keys - Below(g, u);
    forall x | x in Below(g, n) ensures x in Below(g, u) { ReachTrans(g.edges, u, n, x); }
  }

  /** Whoever writes to a node does so along a chain. */
  lemma {:induction false} WriteComesFrom(g: Graph, part: set<NodeId>, n: NodeId) returns (c: seq<EdgeId>)
    requires Indexed(g) && Acyclic(g.edges) && Settled(g.nodes, g.edges, part) && Writes(CumPerm(g.edges, n))
    ensures Chain(g.nodes, g.edges, part, c, n) && WriteSource(g.nodes, g.edges, part, c[0])
    decreases g.nodes.Keys - Below(g, n)
  {
    var p := if Write in CumPerm(g.edges, n) then Write else WriteUnchanged;
    assert UsedBy(g.edges, n, p);
    var e :| e in g.edges && g.edges[e].bs == Some(n) && p in g.edges[e].perm;
    c := [e];
    if Governed(g.nodes, g.edges, part, e) {
      EdgeAsks(g.nodes, g.edges, part, e);
      if !Pins(g.nodes, g.edges, part, e) {
        Climbs(g, e, n);
        var up := WriteComesFrom(g, part, g.edges[e].owner.node);
        ChainSnoc(g.nodes, g.edges, part, up, g.edges[e].owner.node, e, n);
        c := up + [e];
      }
    }
  }

  lemma {:induction false} ResizeComesFrom(g: Graph, part: set<NodeId>, n: NodeId) returns (c: seq<EdgeId>)
    requires Indexed(g) && Acyclic(g.edges) && Settled(g.nodes, g.edges, part) && Resize in CumPerm(g.edges, n)
    ensures Chain(g.nodes, g.edges, part, c, n) && BringsResize(g.nodes, g.edges, part, c)
    decreases g.nodes.Keys - Below(g, n)
  {
    assert UsedBy(g.edges, n, Resize);
    var e :| e in g.edges && g.edges[e].bs == Some(n) && Resize in g.edges[e].perm;
    c := [e];
    if Governed(g.nodes, g.edges, part, e) {
      EdgeAsks(g.nodes, g.edges, part, e);
      if !Pins(g.nodes, g.edges, part, e) {
        var u := g.edges[e].owner.node;
        Climbs(g, e, n);
        var up;
        if Resize in CumPerm(g.edges, u) {
          up := ResizeComesFrom(g, part, u);
        } else {
          up := WriteComesFrom(g, part, u);
        }
        ChainSnoc(g.nodes, g.edges, part, up, u, e, n);
        c := up + [e];
      }
    }
  }

  // ----- the exact condition --------------------------------------------------------------

  /** A writer of `n` that reaches it directly or through filters, and on no way through a data child. */
  ghost predicate PlainWriter(nodes: map<NodeId, Node>, es: Edges, part: set<NodeId>, w: EdgeId, n: NodeId) {
    && w in es && !Governed(nodes, es, part, w) && Writes(es[w].perm)
    && (exists c :: Chain(nodes, es, part, c, n) && c[0] == w)
    && (forall c :: Chain(nodes, es, part, c, n) && c[0] == w ==> !Growing(es, c))
  }

  /** RESIZE is asked of `n` by somebody who is not a user: a metadata child or an edge out of the refresh's reach. */
  ghost predicate FirmResize(nodes: map<NodeId, Node>, es: Edges, part: set<NodeId>, n: NodeId) {
    exists c :: Chain(nodes, es, part, c, n) && BringsResize(nodes, es, part, c) && !es[c[0]].owner.User?
  }

  /** The users can give up RESIZE on `n` and still write to it. */
  ghost predicate CanLoseResize(nodes: map<NodeId, Node>, es: Edges, part: set<NodeId>, n: NodeId) {
    !FirmResize(nodes, es, part, n) && exists w :: PlainWriter(nodes, es, part, w, n)
  }

  /** Chains are made of edges, not of permissions. */
  lemma LooseChains(nodes: map<NodeId, Node>, es: Edges, es': Edges, part: set<NodeId>)
    requires SameShape(es, es')
    ensures forall e :: e in es ==> (Governed(nodes, es', part, e) <==> Governed(nodes, es, part, e))
    ensures forall e :: e in es ==> (Pins(nodes, es', part, e) <==> Pins(nodes, es, part, e))
    ensures forall c, n :: Chain(nodes, es', part, c, n) <==> Chain(nodes, es, part, c, n)
    ensures forall c :: Growing(es', c) <==> Growing(es, c)
  {
    forall a, b ensures Link(nodes, es', part, a, b) <==> Link(nodes, es, part, a, b) {}
    forall c, n ensures Chain(nodes, es', part, c, n) <==> Chain(nodes, es, part, c, n) {
      if Chain(nodes, es', part, c, n) { ChainLoose(nodes, es', es, part, c, n); }
      if Chain(nodes, es, part, c, n) { ChainLoose(nodes, es, es', part, c, n); }
    }
  }

  lemma ChainLoose(nodes: map<NodeId, Node>, es: Edges, es': Edges, part: set<NodeId>, c: seq<EdgeId>, n: NodeId)
    requires SameShape(es, es') && Chain(nodes, es, part, c, n)
    ensures Chain(nodes, es', part, c, n)
  {
    forall i | 0 < i < |c| ensures Link(nodes, es', part, c[i - 1], c[i]) {
      assert Link(nodes, es, part, c[i - 1], c[i]);
    }
  }

  /** The graph after a refresh that follows the loosening. */
  lemma Refreshed(g: Graph, es': Edges, list: seq<NodeId>) returns (r: Graph)
    requires Indexed(g) && Acyclic(g.edges) && TopoList(g, list) && UserLoosening(g.edges, es')
    ensures r == g.(edges := RefreshAll(DefaultFn(g.nodes), g.nodes, es', list))
    ensures Indexed(r) && Acyclic(r.edges) && SameShape(g.edges, r.edges) && Settled(g.nodes, r.edges, Elems(list))
    ensures forall e :: e in g.edges && !Governed(g.nodes, g.edges, Elems(list), e) ==> r.edges[e] == es'[e]
  {
    var g', cp := g.(edges := es'), DefaultFn(g.nodes);
    KeepShape(g, es');
    ShapeTopo(g, es', list);
    r := g.(edges := RefreshAll(cp, g.nodes, es', list));
    RefreshUnique(cp, g', list, r.edges);
    KeepShape(g', r.edges);
    LooseChains(g.nodes, g.edges, es', Elems(list));
  }

  lemma ShapeTopo(g: Graph, es': Edges, list: seq<NodeId>)
    requires Indexed(g) && TopoList(g, list) && SameShape(g.edges, es') && Indexed(g.(edges := es'))
    ensures TopoList(g.(edges := es'), list)
  {
    var g' := g.(edges := es');
    forall a, b ensures Reach(es', a, b) <==> Reach(g.edges, a, b) { ShapeReach(g.edges, es', a, b); }
    forall x | x in list ensures x in g'.nodes && Below(g', x) <= Elems(list) {
      assert Below(g', x) == Below(g, x);
    }
  }

  /** If the check fails after some loosening, the condition for it held before. */
  lemma MisalignedCould(g: Graph, es': Edges, list: seq<NodeId>, n: NodeId)
    requires Indexed(g) && Acyclic(g.edges) && TopoList(g, list) && UserLoosening(g.edges, es')
    requires !AlignOk(g.nodes, RefreshAll(DefaultFn(g.nodes), g.nodes, es', list), n)
    ensures CanLoseResize(g.nodes, g.edges, Elems(list), n)
  {
    var nodes, es, part := g.nodes, g.edges, Elems(list);
    var r := Refreshed(g, es', list);
    LooseChains(nodes, es, r.edges, part);
    forall c | Chain(nodes, es, part, c, n)
      ensures !BringsResize(nodes, r.edges, part, c) && (BringsResize(nodes, es, part, c) ==> es[c[0]].owner.User?) {
      Arrives(nodes, r.edges, part, c, n);
    }
    var c := WriteComesFrom(r, part, n);
    assert PlainWriter(nodes, es, part, c[0], n);
  }

  /** Every user but `w` gives up everything, and `w` all but one permission. */
  ghost function AllBut(es: Edges, w: EdgeId, p: Perm): Edges {
    map e | e in es :: if es[e].owner.User? then es[e].(perm := if e == w then {p} else {}) else es[e]
  }

  /** What is left of the users' permissions then. */
  ghost predicate Stripped(nodes: map<NodeId, Node>, es: Edges, es': Edges, part: set<NodeId>, w: EdgeId)
    requires SameShape(es, es')
  {
    && (forall e :: e in es && es[e].owner.User? ==> Resize !in es'[e].perm && (e != w ==> es'[e].perm == {}))
    && (forall e :: e in es && !es[e].owner.User? && !Governed(nodes, es, part, e) ==> es'[e] == es[e])
    && w in es && Writes(es'[w].perm)
  }

  /** After that loosening a chain brings RESIZE only if no user is behind it. */
  lemma OnlyFirm(nodes: map<NodeId, Node>, es: Edges, es': Edges, part: set<NodeId>, w: EdgeId, n: NodeId, c: seq<EdgeId>)
    requires SameShape(es, es') && PlainWriter(nodes, es, part, w, n) && Chain(nodes, es', part, c, n)
    requires Stripped(nodes, es, es', part, w)
    requires BringsResize(nodes, es', part, c)
    ensures FirmResize(nodes, es, part, n)
  {
    LooseChains(nodes, es, es', part);
    assert !es[c[0]].owner.User? && BringsResize(nodes, es, part, c);
  }

  lemma WriteStays(r: Graph, es: Edges, part: set<NodeId>, w: EdgeId, n: NodeId)
    requires Settled(r.nodes, r.edges, part) && SameShape(es, r.edges)
    requires PlainWriter(r.nodes, es, part, w, n) && Stripped(r.nodes, es, r.edges, part, w)
    ensures Writes(CumPerm(r.edges, n))
  {
    LooseChains(r.nodes, es, r.edges, part);
    var c :| Chain(r.nodes, es, part, c, n) && c[0] == w;
    Arrives(r.nodes, r.edges, part, c, n);
  }

  lemma ResizeGoes(r: Graph, es: Edges, part: set<NodeId>, w: EdgeId, n: NodeId)
    requires Indexed(r) && Acyclic(r.edges) && Settled(r.nodes, r.edges, part) && SameShape(es, r.edges)
    requires PlainWriter(r.nodes, es, part, w, n) && Stripped(r.nodes, es, r.edges, part, w) && !FirmResize(r.nodes, es, part, n)
    ensures Resize !in CumPerm(r.edges, n)
  {
    if Resize in CumPerm(r.edges, n) {
      var c := ResizeComesFrom(r, part, n);
      OnlyFirm(r.nodes, es, r.edges, part, w, n, c);
      assert false;
    }
  }

  /** If the condition holds, the check fails after some loosening. */
  lemma CouldMisalign(g: Graph, list: seq<NodeId>, n: NodeId, w: EdgeId) returns (es': Edges)
    requires Indexed(g) && Acyclic(g.edges) && TopoList(g, list) && n in g.nodes && !g.nodes[n].sizeAligned
    requires PlainWriter(g.nodes, g.edges, Elems(list), w, n) && !FirmResize(g.nodes, g.edges, Elems(list), n)
    ensures UserLoosening(g.edges, es') && !AlignOk(g.nodes, RefreshAll(DefaultFn(g.nodes), g.nodes, es', list), n)
  {
    es' := AllBut(g.edges, w, if Write in g.edges[w].perm then Write else WriteUnchanged);
    var r := Refreshed(g, es', list);
    assert Stripped(g.nodes, g.edges, r.edges, Elems(list), w);
    WriteStays(r, g.edges, Elems(list), w, n);
    ResizeGoes(r, g.edges, Elems(list), w, n);
  }

  /**
   * The size-alignment check of a node survives everything the users may give up, with the refresh
   * that follows it, if and only if the image is aligned or the users cannot lose RESIZE alone.
   */
  lemma AlignmentSurvives(g: Graph, list: seq<NodeId>, n: NodeId)
    requires Indexed(g) && Acyclic(g.edges) && TopoList(g, list) && n in g.nodes
    ensures (forall es' :: UserLoosening(g.edges, es') ==> AlignOk(g.nodes, RefreshAll(DefaultFn(g.nodes), g.nodes, es', list), n))
            <==> g.nodes[n].sizeAligned || !CanLoseResize(g.nodes, g.edges, Elems(list), n)
  {
    if !g.nodes[n].sizeAligned && CanLoseResize(g.nodes, g.edges, Elems(list), n) {
      var w :| PlainWriter(g.nodes, g.edges, Elems(list), w, n);
      var es' := CouldMisalign(g, list, n, w);
    } else {
      forall es' | UserLoosening(g.edges, es')
        ensures AlignOk(g.nodes, RefreshAll(DefaultFn(g.nodes), g.nodes, es', list), n) {
        if !AlignOk(g.nodes, RefreshAll(DefaultFn(g.nodes), g.nodes, es', list), n) {
          MisalignedCould(g, es', list, n);
        }
      }
    }
  }

  /** The nodes below a format driver are safe: a data child that may be written to may be resized. */
  lemma DataChildSurvives(g: Graph, list: seq<NodeId>, n: NodeId)
    requires Indexed(g) && Acyclic(g.edges) && TopoList(g, list) && n in g.nodes
    requires forall e :: e in g.edges && g.edges[e].bs == Some(n) ==>
      Governed(g.nodes, g.edges, Elems(list), e) && (Passes(g.edges[e].role) ==> Grows(g.edges[e].role))
    ensures forall es' :: UserLoosening(g.edges, es') ==> AlignOk(g.nodes, RefreshAll(DefaultFn(g.nodes), g.nodes, es', list), n)
  {
    forall w ensures !PlainWriter(g.nodes, g.edges, Elems(list), w, n) {
      if PlainWriter(g.nodes, g.edges, Elems(list), w, n) {
        var c :| Chain(g.nodes, g.edges, Elems(list), c, n) && c[0] == w;
        ChainFront(g.nodes, g.edges, Elems(list), c, n);
      }
    }
    AlignmentSurvives(g, list, n);
  }

  /** A user that gives up RESIZE on an unaligned image and keeps WRITE makes the check fail. */
  lemma LooseningCanMisalign()
    ensures exists nodes: map<NodeId, Node>, es: Edges, es': Edges, n ::
      UserLoosening(es, es') && AlignOk(nodes, es, n) && RwOk(nodes, es, n) && NoConflict(es, n)
      && !AlignOk(nodes, RefreshAll(DefaultFn(nodes), nodes, es', [n]), n)
  {
    var node := Node(None, None, Some(Driver(false, false)), true, false, false, false, false);
    var user := Child(Some(0), User, Role(false, false, false, false), {Write, Resize}, ALL_PERMS, false, false);
    var nodes: map<NodeId, Node> := map[0 := node];
    var es: Edges := map[0 := user];
    var es' := es[0 := user.(perm := {Write})];
    assert es[0].bs == Some(0) && es'[0].bs == Some(0);
    assert UsedBy(es, 0, Resize) && UsedBy(es', 0, Write) && !UsedBy(es', 0, Resize);
    assert UserLoosening(es, es') && AlignOk(nodes, es, 0) && RwOk(nodes, es, 0) && NoConflict(es, 0);
    var list: seq<NodeId> := [0];
    StillConsistent(DefaultFn(nodes), nodes, es', list, 1);
    assert RefreshAll(DefaultFn(nodes), nodes, es', list) == es' && !AlignOk(nodes, es', 0);
  }
}
