// Permission refresh over a list of nodes: what bdrv_list_refresh_perms computes when no check
// fails, and what is true of the result (block.c:2452-2544).
module Refresh {
  import opened BlockGraph
  import opened GraphSearch
  import opened Permissions
  import opened Wrappers

  /** The two permission masks of an edge that is owned by a node with a driver. */
  ghost function Wanted(cp: ChildPermFn, nodes: map<NodeId, Node>, es: Edges, e: EdgeId): (Perms, Perms)
    requires e in es && es[e].owner.Bds? && es[e].bs.Some?
  {
    var u, bs := es[e].owner.node, es[e].bs.value;
    var r := cp(u, Some(e), es[e].role, CumPerm(es, u), CumShared(es, u));
    (r.0, if bs in nodes && nodes[bs].forceShare then ALL_PERMS else r.1)
  }

  ghost predicate OwnedBy(es: Edges, e: EdgeId, n: NodeId) {
    e in es && es[e].owner == Bds(n) && es[e].bs.Some?
  }

  /** Every child edge of `n` holds exactly the driver's function of the masks of its parents. */
  ghost predicate ChildrenOk(cp: ChildPermFn, nodes: map<NodeId, Node>, es: Edges, n: NodeId) {
    n in nodes && nodes[n].drv.Some? ==>
      forall e :: OwnedBy(es, e, n) ==> (es[e].perm, es[e].shared) == Wanted(cp, nodes, es, e)
  }

  /** Write permissions never work with read-only images (block.c:2463-2475). */
  ghost predicate RwOk(nodes: map<NodeId, Node>, es: Edges, n: NodeId) {
    CumPerm(es, n) !! {Write, WriteUnchanged} || (n in nodes && Writable(nodes[n]))
  }

  /** Writing without resizing needs an aligned image size (block.c:2482-2491). */
  ghost predicate AlignOk(nodes: map<NodeId, Node>, es: Edges, n: NodeId) {
    CumPerm(es, n) !! {Write, WriteUnchanged} || Resize in CumPerm(es, n) || (n in nodes && nodes[n].sizeAligned)
  }

  ghost predicate DriverOk(check: (NodeId, Perms, Perms) -> bool, nodes: map<NodeId, Node>, es: Edges, n: NodeId) {
    n in nodes && nodes[n].drv.Some? ==> check(n, CumPerm(es, n), CumShared(es, n))
  }

  ghost predicate ChecksOk(check: (NodeId, Perms, Perms) -> bool, nodes: map<NodeId, Node>, es: Edges, n: NodeId) {
    NoConflict(es, n) && RwOk(nodes, es, n) && AlignOk(nodes, es, n) && DriverOk(check, nodes, es, n)
  }

  /**
   * The checks at a node, one by one: every user shares what every other requires; who writes, writes
   * to a writable image; an image that is written to and that nobody may resize has an aligned size;
   * and the driver agrees with what is required and shared altogether.
   */
  lemma ChecksMean(check: (NodeId, Perms, Perms) -> bool, nodes: map<NodeId, Node>, es: Edges, n: NodeId)
    requires n in nodes
    ensures ChecksOk(check, nodes, es, n) <==>
      && (forall a, b :: a in es && b in es && a != b && es[a].bs == Some(n) && es[b].bs == Some(n) ==> es[b].perm <= es[a].shared)
      && (forall e :: e in es && es[e].bs == Some(n) && (Write in es[e].perm || WriteUnchanged in es[e].perm) ==> nodes[n].rdwr && !nodes[n].inactive)
      && (nodes[n].sizeAligned || (exists e :: e in es && es[e].bs == Some(n) && Resize in es[e].perm)
          || (forall e :: e in es && es[e].bs == Some(n) ==> Write !in es[e].perm && WriteUnchanged !in es[e].perm))
      && (nodes[n].drv.Some? ==> check(n, CumPerm(es, n), CumShared(es, n)))
  {
    forall p: Perm ensures p in ALL_PERMS { PermInAll(p); }
    assert Write in CumPerm(es, n) <==> UsedBy(es, n, Write);
    assert WriteUnchanged in CumPerm(es, n) <==> UsedBy(es, n, WriteUnchanged);
    assert Resize in CumPerm(es, n) <==> UsedBy(es, n, Resize);
  }

  /** A consistent edge holds the driver's masks, except that an image opened with force-share shares everything. */
  lemma ConsistentMeans(cp: ChildPermFn, nodes: map<NodeId, Node>, es: Edges, n: NodeId, e: EdgeId)
    requires ChildrenOk(cp, nodes, es, n) && n in nodes && nodes[n].drv.Some?
    requires e in es && es[e].owner == Bds(n) && es[e].bs.Some? && es[e].bs.value in nodes
    ensures var r := cp(n, Some(e), es[e].role, CumPerm(es, n), CumShared(es, n));
      && es[e].perm == r.0
      && es[e].shared == if nodes[es[e].bs.value].forceShare then {ConsistentRead, Write, WriteUnchanged, Resize} else r.1
  {
    assert OwnedBy(es, e, n);
  }

  /** bdrv_node_refresh_perm on the edges: recompute every child edge of `n`. */
  ghost function RefreshNode(cp: ChildPermFn, nodes: map<NodeId, Node>, es: Edges, n: NodeId): Edges {
    if n in nodes && nodes[n].drv.Some? then
      map e | e in es :: if OwnedBy(es, e, n)
                         then es[e].(perm := Wanted(cp, nodes, es, e).0, shared := Wanted(cp, nodes, es, e).1)
                         else es[e]
    else es
  }

  /** The first `k` nodes of the list have been refreshed, in order. */
  ghost function RefreshUpTo(cp: ChildPermFn, nodes: map<NodeId, Node>, es: Edges, list: seq<NodeId>, k: nat): Edges
    requires k <= |list|
  {
    if k == 0 then es else RefreshNode(cp, nodes, RefreshUpTo(cp, nodes, es, list, k - 1), list[k - 1])
  }

  ghost function RefreshAll(cp: ChildPermFn, nodes: map<NodeId, Node>, es: Edges, list: seq<NodeId>): Edges {
    RefreshUpTo(cp, nodes, es, list, |list|)
  }

  /** Only the permission masks differ. */
  ghost predicate SameShape(es: Edges, es': Edges) {
    && es'.Keys == es.Keys
    && forall e :: e in es ==> es'[e] == es[e].(perm := es'[e].perm, shared := es'[e].shared)
  }

  lemma SameShapeArcs(es: Edges, es': Edges, a: NodeId, b: NodeId)
    requires SameShape(es, es')
    ensures Arc(es, a, b) <==> Arc(es', a, b)
  {
    if e :| ArcBy(es, e, a, b) { assert ArcBy(es', e, a, b); }
    if e :| ArcBy(es', e, a, b) { assert ArcBy(es, e, a, b); }
  }

  /** The lists of a graph and its paths do not depend on the permission masks. */
  lemma KeepShape(g: Graph, es': Edges)
    requires Indexed(g) && SameShape(g.edges, es')
    ensures Indexed(g.(edges := es'))
    ensures Acyclic(g.edges) ==> Acyclic(es')
  {
    var g' := g.(edges := es');
    forall n | n in g'.nodes ensures ListsOk(g', n) {
      assert ListsOk(g, n);
      forall x ensures InParents(g', x, n) <==> InParents(g, x, n) {}
      forall x ensures InChildren(g', x, n) <==> InChildren(g, x, n) {}
    }
    forall x | x in g'.edges ensures EndsOk(g', x) { assert EndsOk(g, x); }
    if Acyclic(g.edges) {
      forall p | IsPath(es', p) && |p| > 1 ensures p[0] != p[|p| - 1] {
        forall i | 0 <= i < |p| - 1 ensures Arc(g.edges, p[i], p[i + 1]) {
          SameShapeArcs(g.edges, es', p[i], p[i + 1]);
          assert Arc(es', p[i], p[i + 1]);
        }
        assert IsPath(g.edges, p);
      }
    }
  }

  lemma ShapeReach(es: Edges, es': Edges, a: NodeId, b: NodeId)
    requires SameShape(es, es')
    ensures Reach(es', a, b) <==> Reach(es, a, b)
  {
    forall x, y ensures Arc(es, x, y) <==> Arc(es', x, y) { SameShapeArcs(es, es', x, y); }
    if p :| PathFromTo(es, p, a, b) { assert PathFromTo(es', p, a, b); }
    if p :| PathFromTo(es', p, a, b) { assert PathFromTo(es, p, a, b); }
  }

  lemma {:induction false} RefreshShape(cp: ChildPermFn, nodes: map<NodeId, Node>, es: Edges, list: seq<NodeId>, k: nat)
    requires k <= |list|
    ensures SameShape(es, RefreshUpTo(cp, nodes, es, list, k))
    ensures forall e :: e in es && (es[e].owner.User? || es[e].owner.node !in list[..k] || es[e].bs.None?) ==>
      RefreshUpTo(cp, nodes, es, list, k)[e] == es[e]
  {
    if k > 0 {
      RefreshShape(cp, nodes, es, list, k - 1);
      assert list[..k] == list[..k - 1] + [list[k - 1]];
    }
  }

  /** The two edge tables agree on the edges into `n`. */
  ghost predicate SameInto(es: Edges, es': Edges, n: NodeId) {
    && es'.Keys == es.Keys
    && (forall e :: e in es ==> (es[e].bs == Some(n) <==> es'[e].bs == Some(n)))
    && (forall e :: e in es && es[e].bs == Some(n) ==> es'[e] == es[e])
  }

  lemma SameIntoCum(es: Edges, es': Edges, n: NodeId)
    requires SameInto(es, es', n)
    ensures CumPerm(es', n) == CumPerm(es, n) && CumShared(es', n) == CumShared(es, n)
    ensures NoConflict(es', n) <==> NoConflict(es, n)
  {
    forall p ensures UsedBy(es', n, p) <==> UsedBy(es, n, p) {
      if e :| e in es && es[e].bs == Some(n) && p in es[e].perm { assert es'[e] == es[e]; }
      if e :| e in es' && es'[e].bs == Some(n) && p in es'[e].perm { assert es'[e] == es[e]; }
    }
    forall p ensures SharedByAll(es', n, p) <==> SharedByAll(es, n, p) {
      if SharedByAll(es, n, p) {
        forall e | e in es' && es'[e].bs == Some(n) ensures p in es'[e].shared { assert e in es; }
      }
    }
  }

  /** In a sorted list, refreshing a node leaves the edges into itself and its predecessors alone. */
  lemma {:induction false} IntoStable(cp: ChildPermFn, g: Graph, list: seq<NodeId>, i: nat, k: nat)
    requires Indexed(g) && Acyclic(g.edges) && TopoList(g, list) && i < |list| && i <= k <= |list|
    ensures SameInto(RefreshUpTo(cp, g.nodes, g.edges, list, i), RefreshUpTo(cp, g.nodes, g.edges, list, k), list[i])
    decreases k
  {
    var esi := RefreshUpTo(cp, g.nodes, g.edges, list, i);
    if k > i {
      IntoStable(cp, g, list, i, k - 1);
      RefreshShape(cp, g.nodes, g.edges, list, k - 1);
      var es1 := RefreshUpTo(cp, g.nodes, g.edges, list, k - 1);
      var m := list[k - 1];
      forall e | OwnedBy(es1, e, m) ensures es1[e].bs != Some(list[i]) {
        if es1[e].bs == Some(list[i]) {
          assert ArcBy(g.edges, e, m, list[i]);
          if k - 1 > i { ReachArc(g.edges, m, list[i]); } else { ArcNotBack(g.edges, m, m); ReachSelf(g.edges, m); }
        }
      }
    }
  }

  /** A node is refreshed once: its child edges keep what its own turn gave them. */
  lemma {:induction false} OwnStable(cp: ChildPermFn, nodes: map<NodeId, Node>, es: Edges, list: seq<NodeId>, i: nat, k: nat, e: EdgeId)
    requires NoDup(list) && i < k <= |list| && OwnedBy(es, e, list[i])
    ensures e in RefreshUpTo(cp, nodes, es, list, k) && e in RefreshUpTo(cp, nodes, es, list, i + 1)
    ensures RefreshUpTo(cp, nodes, es, list, k)[e] == RefreshUpTo(cp, nodes, es, list, i + 1)[e]
    decreases k
  {
    if k > i + 1 {
      OwnStable(cp, nodes, es, list, i, k - 1, e);
      OwnerStable(cp, nodes, es, list, k - 1, e);
      assert list[k - 1] != list[i];
    } else {
      OwnerStable(cp, nodes, es, list, k, e);
    }
  }

  lemma OwnerStable(cp: ChildPermFn, nodes: map<NodeId, Node>, es: Edges, list: seq<NodeId>, k: nat, e: EdgeId)
    requires k <= |list| && e in es
    ensures e in RefreshUpTo(cp, nodes, es, list, k) && RefreshUpTo(cp, nodes, es, list, k)[e].owner == es[e].owner
  {
    RefreshShape(cp, nodes, es, list, k);
  }

  /** After the refresh every listed node is consistent with its final cumulative masks. */
  lemma RefreshConsistent(cp: ChildPermFn, g: Graph, list: seq<NodeId>, i: nat)
    requires Indexed(g) && Acyclic(g.edges) && TopoList(g, list) && i < |list|
    ensures ChildrenOk(cp, g.nodes, RefreshAll(cp, g.nodes, g.edges, list), list[i])
  {
    var n := list[i];
    var esi := RefreshUpTo(cp, g.nodes, g.edges, list, i);
    var es' := RefreshAll(cp, g.nodes, g.edges, list);
    IntoStable(cp, g, list, i, |list|);
    SameIntoCum(esi, es', n);
    RefreshShape(cp, g.nodes, g.edges, list, i);
    RefreshShape(cp, g.nodes, g.edges, list, |list|);
    if n in g.nodes && g.nodes[n].drv.Some? {
      forall e | OwnedBy(es', e, n) ensures (es'[e].perm, es'[e].shared) == Wanted(cp, g.nodes, es', e) {
        OwnStable(cp, g.nodes, g.edges, list, i, |list|, e);
        assert OwnedBy(esi, e, n);
        assert Wanted(cp, g.nodes, es', e) == Wanted(cp, g.nodes, esi, e);
      }
    }
  }

  /** The checks made at a node's turn say the same as the checks on the final masks. */
  lemma ChecksStable(cp: ChildPermFn, check: (NodeId, Perms, Perms) -> bool, g: Graph, list: seq<NodeId>, i: nat)
    requires Indexed(g) && Acyclic(g.edges) && TopoList(g, list) && i < |list|
    ensures ChecksOk(check, g.nodes, RefreshUpTo(cp, g.nodes, g.edges, list, i), list[i])
            <==> ChecksOk(check, g.nodes, RefreshAll(cp, g.nodes, g.edges, list), list[i])
  {
    IntoStable(cp, g, list, i, |list|);
    SameIntoCum(RefreshUpTo(cp, g.nodes, g.edges, list, i), RefreshAll(cp, g.nodes, g.edges, list), list[i]);
  }

  // ----- the refresh is the only consistent assignment --------------------------------------

  /** The edge belongs to a node of the part whose driver decides its masks. */
  ghost predicate Governed(nodes: map<NodeId, Node>, es: Edges, part: set<NodeId>, e: EdgeId)
    requires e in es
  {
    es[e].owner.Bds? && es[e].bs.Some? && es[e].owner.node in part && es[e].owner.node in nodes && nodes[es[e].owner.node].drv.Some?
  }

  /** Masks on the same edges, equal outside the part to refresh, and consistent at every node of it. */
  ghost predicate Assignment(cp: ChildPermFn, nodes: map<NodeId, Node>, es: Edges, part: set<NodeId>, es': Edges) {
    && SameShape(es, es')
    && (forall e :: e in es && !Governed(nodes, es, part, e) ==> es'[e] == es[e])
    && (forall n :: n in part ==> ChildrenOk(cp, nodes, es', n))
  }

  lemma {:induction false} AssignmentAgrees(cp: ChildPermFn, g: Graph, list: seq<NodeId>, es': Edges, k: nat, e: EdgeId)
    requires Indexed(g) && Acyclic(g.edges) && TopoList(g, list) && Assignment(cp, g.nodes, g.edges, Elems(list), es')
    requires k <= |list| && e in g.edges
    requires g.edges[e].owner.Bds? && g.edges[e].owner.node in list ==> g.edges[e].owner.node in list[..k]
    ensures e in es' && e in RefreshUpTo(cp, g.nodes, g.edges, list, k)
    ensures RefreshUpTo(cp, g.nodes, g.edges, list, k)[e] == es'[e]
    decreases k, 0
  {
    RefreshShape(cp, g.nodes, g.edges, list, k);
    if !Governed(g.nodes, g.edges, Elems(list), e) {
      UngovernedStays(cp, g.nodes, g.edges, list, k, e);
    } else {
      var n := g.edges[e].owner.node;
      var i :| 0 <= i < k && list[i] == n;
      var esi := RefreshUpTo(cp, g.nodes, g.edges, list, i);
      RefreshShape(cp, g.nodes, g.edges, list, i);
      AssignmentInto(cp, g, list, es', i);
      assert OwnedBy(esi, e, n) && OwnedBy(es', e, n);
      assert ChildrenOk(cp, g.nodes, es', n) && Wanted(cp, g.nodes, es', e) == Wanted(cp, g.nodes, esi, e);
      OwnStable(cp, g.nodes, g.edges, list, i, k, e);
    }
  }

  lemma {:induction false} AssignmentInto(cp: ChildPermFn, g: Graph, list: seq<NodeId>, es': Edges, i: nat)
    requires Indexed(g) && Acyclic(g.edges) && TopoList(g, list) && Assignment(cp, g.nodes, g.edges, Elems(list), es') && i < |list|
    ensures var esi := RefreshUpTo(cp, g.nodes, g.edges, list, i);
      CumPerm(esi, list[i]) == CumPerm(es', list[i]) && CumShared(esi, list[i]) == CumShared(es', list[i])
    decreases i, 1
  {
    var n, esi := list[i], RefreshUpTo(cp, g.nodes, g.edges, list, i);
    RefreshShape(cp, g.nodes, g.edges, list, i);
    forall x | x in esi && esi[x].bs == Some(n) ensures esi[x] == es'[x] {
      if esi[x].owner.Bds? && esi[x].owner.node in list {
        PredecessorInPrefix(g, list, i, x);
      }
      AssignmentAgrees(cp, g, list, es', i, x);
    }
    SameIntoCum(esi, es', n);
  }

  lemma PredecessorInPrefix(g: Graph, list: seq<NodeId>, i: nat, x: EdgeId)
    requires Indexed(g) && Acyclic(g.edges) && TopoList(g, list) && i < |list|
    requires x in g.edges && g.edges[x].owner.Bds? && g.edges[x].owner.node in list && g.edges[x].bs == Some(list[i])
    ensures g.edges[x].owner.node in list[..i]
  {
    var u := g.edges[x].owner.node;
    assert ArcBy(g.edges, x, u, list[i]);
    ReachArc(g.edges, u, list[i]);
    ArcNotBack(g.edges, u, list[i]);
    ReachSelf(g.edges, u);
    var j :| 0 <= j < |list| && list[j] == u;
    assert j < i;
  }

  lemma {:induction false} UngovernedStays(cp: ChildPermFn, nodes: map<NodeId, Node>, es: Edges, list: seq<NodeId>, k: nat, e: EdgeId)
    requires k <= |list| && e in es && !Governed(nodes, es, Elems(list), e)
    ensures e in RefreshUpTo(cp, nodes, es, list, k) && RefreshUpTo(cp, nodes, es, list, k)[e] == es[e]
  {
    if k > 0 { UngovernedStays(cp, nodes, es, list, k - 1, e); }
  }

  /** bdrv_list_refresh_perms computes the one and only consistent assignment. */
  lemma RefreshUnique(cp: ChildPermFn, g: Graph, list: seq<NodeId>, es': Edges)
    requires Indexed(g) && Acyclic(g.edges) && TopoList(g, list)
    ensures Assignment(cp, g.nodes, g.edges, Elems(list), es') <==> es' == RefreshAll(cp, g.nodes, g.edges, list)
  {
    var r := RefreshAll(cp, g.nodes, g.edges, list);
    RefreshShape(cp, g.nodes, g.edges, list, |list|);
    forall n | n in list ensures ChildrenOk(cp, g.nodes, r, n) {
      var i :| 0 <= i < |list| && list[i] == n;
      RefreshConsistent(cp, g, list, i);
    }
    forall e | e in g.edges && !Governed(g.nodes, g.edges, Elems(list), e) ensures r[e] == g.edges[e] {
      UngovernedStays(cp, g.nodes, g.edges, list, |list|, e);
    }
    if Assignment(cp, g.nodes, g.edges, Elems(list), es') {
      assert list[..|list|] == list;
      forall e | e in g.edges ensures r[e] == es'[e] {
        AssignmentAgrees(cp, g, list, es', |list|, e);
      }
    }
  }

  // ----- when a refresh succeeds ----------------------------------------------------------

  /** Some consistent assignment of masks to the part passes every check; the order of the nodes plays no role. */
  ghost predicate Refreshable(cp: ChildPermFn, check: (NodeId, Perms, Perms) -> bool, nodes: map<NodeId, Node>, es: Edges,
                              part: set<NodeId>) {
    exists es' :: Assignment(cp, nodes, es, part, es') && forall n :: n in part ==> ChecksOk(check, nodes, es', n)
  }

  /** Refreshing a sorted, subtree-closed list succeeds exactly when its nodes can be refreshed at all. */
  lemma RefreshableIff(cp: ChildPermFn, check: (NodeId, Perms, Perms) -> bool, g: Graph, list: seq<NodeId>)
    requires Indexed(g) && Acyclic(g.edges) && TopoList(g, list)
    ensures Refreshable(cp, check, g.nodes, g.edges, Elems(list))
            <==> forall n :: n in list ==> ChecksOk(check, g.nodes, RefreshAll(cp, g.nodes, g.edges, list), n)
  {
    var r, part := RefreshAll(cp, g.nodes, g.edges, list), Elems(list);
    RefreshUnique(cp, g, list, r);
    if Refreshable(cp, check, g.nodes, g.edges, part) {
      var es' :| Assignment(cp, g.nodes, g.edges, part, es') && forall n :: n in part ==> ChecksOk(check, g.nodes, es', n);
      RefreshUnique(cp, g, list, es');
    }
  }

  /** A second refresh changes nothing. */
  lemma RefreshIdempotent(cp: ChildPermFn, g: Graph, list: seq<NodeId>)
    requires Indexed(g) && Acyclic(g.edges) && TopoList(g, list)
    ensures var r := RefreshAll(cp, g.nodes, g.edges, list);
            RefreshAll(cp, g.nodes, r, list) == r
  {
    var r := RefreshAll(cp, g.nodes, g.edges, list);
    RefreshUnique(cp, g, list, r);
    StillConsistent(cp, g.nodes, r, list, |list|);
  }

  lemma {:induction false} StillConsistent(cp: ChildPermFn, nodes: map<NodeId, Node>, es: Edges, list: seq<NodeId>, k: nat)
    requires k <= |list| && forall n :: n in list ==> ChildrenOk(cp, nodes, es, n)
    ensures RefreshUpTo(cp, nodes, es, list, k) == es
  {
    if k > 0 {
      StillConsistent(cp, nodes, es, list, k - 1);
      assert ChildrenOk(cp, nodes, es, list[k - 1]);
    }
  }

  // ----- loosening is safe ----------------------------------------------------------------

  /** `es'` lacks some edges of `es`, and those it has require no more and share no less. */
  ghost predicate LooserEdges(es': Edges, es: Edges) {
    && es'.Keys <= es.Keys
    && forall e :: e in es' ==>
         && es'[e] == es[e].(perm := es'[e].perm, shared := es'[e].shared)
         && Looser((es'[e].perm, es'[e].shared), (es[e].perm, es[e].shared))
  }

  /** The drivers that use bdrv_default_perms. */
  ghost function DefaultFn(nodes: map<NodeId, Node>): ChildPermFn {
    (n: NodeId, e: Option<EdgeId>, role: Role, p: Perms, s: Perms) =>
      if n in nodes then DefaultPerms(nodes[n], role, p, s) else (p, s)
  }

  lemma LooserCum(es': Edges, es: Edges, n: NodeId)
    requires LooserEdges(es', es)
    ensures Looser((CumPerm(es', n), CumShared(es', n)), (CumPerm(es, n), CumShared(es, n)))
    ensures NoConflict(es, n) ==> NoConflict(es', n)
  {
    forall p | p in CumPerm(es', n) ensures p in CumPerm(es, n) {
      var e :| e in es' && es'[e].bs == Some(n) && p in es'[e].perm;
      assert e in es && es[e].bs == Some(n) && p in es[e].perm;
    }
    forall p | p in CumShared(es, n) ensures p in CumShared(es', n) {
      forall e | e in es' && es'[e].bs == Some(n) ensures p in es'[e].shared { assert e in es; }
    }
  }

  lemma LooserNode(nodes: map<NodeId, Node>, es': Edges, es: Edges, n: NodeId)
    requires LooserEdges(es', es) && ChildrenOk(DefaultFn(nodes), nodes, es, n)
    ensures LooserEdges(RefreshNode(DefaultFn(nodes), nodes, es', n), es)
  {
    LooserCum(es', es, n);
    if n in nodes && nodes[n].drv.Some? {
      forall e | OwnedBy(es', e, n)
        ensures Looser(Wanted(DefaultFn(nodes), nodes, es', e), (es[e].perm, es[e].shared)) {
        assert OwnedBy(es, e, n);
        DefaultPermsMonotone(nodes[n], es[e].role, CumPerm(es, n), CumShared(es, n), CumPerm(es', n), CumShared(es', n));
        forall p ensures p in ALL_PERMS { PermInAll(p); }
      }
    }
  }

  /**
   * From a consistent state, dropping edges, shrinking required sets and enlarging shared sets
   * leaves every edge weakly looser after a refresh of any of the nodes, ...
   */
  lemma {:induction false} LooseningSpreads(nodes: map<NodeId, Node>, es: Edges, es': Edges, list: seq<NodeId>, k: nat)
    requires k <= |list| && LooserEdges(es', es)
    requires forall n :: n in list ==> ChildrenOk(DefaultFn(nodes), nodes, es, n)
    ensures LooserEdges(RefreshUpTo(DefaultFn(nodes), nodes, es', list, k), es)
  {
    if k > 0 {
      LooseningSpreads(nodes, es, es', list, k - 1);
      LooserNode(nodes, RefreshUpTo(DefaultFn(nodes), nodes, es', list, k - 1), es, list[k - 1]);
    }
  }

  /** ... so no permission conflict and no read-only failure can arise that was not there before. */
  lemma LooseningSafe(nodes: map<NodeId, Node>, es: Edges, es': Edges, list: seq<NodeId>, n: NodeId)
    requires LooserEdges(es', es)
    requires forall m :: m in list ==> ChildrenOk(DefaultFn(nodes), nodes, es, m)
    ensures
      var r := RefreshAll(DefaultFn(nodes), nodes, es', list);
      && LooserEdges(r, es)
      && (NoConflict(es, n) ==> NoConflict(r, n))
      && (RwOk(nodes, es, n) ==> RwOk(nodes, r, n))
  {
    LooseningSpreads(nodes, es, es', list, |list|);
    LooserCum(RefreshAll(DefaultFn(nodes), nodes, es', list), es, n);
  }

  /** A refresh after loosening succeeds unless the alignment or a driver objects. */
  lemma LooseningFailsOnlyOnDrivers(check: (NodeId, Perms, Perms) -> bool, nodes: map<NodeId, Node>, es: Edges, es': Edges,
                                    list: seq<NodeId>, n: NodeId)
    requires LooserEdges(es', es) && NoConflict(es, n) && RwOk(nodes, es, n)
    requires forall m :: m in list ==> ChildrenOk(DefaultFn(nodes), nodes, es, m)
    ensures
      var r := RefreshAll(DefaultFn(nodes), nodes, es', list);
      ChecksOk(check, nodes, r, n) <==> AlignOk(nodes, r, n) && DriverOk(check, nodes, r, n)
  {
    LooseningSafe(nodes, es, es', list, n);
  }
}
