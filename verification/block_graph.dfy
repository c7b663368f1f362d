// The graph of block nodes and the edges ("BdrvChild") that join them (block.c).
module BlockGraph {

  import opened Wrappers

  type NodeId = nat // a BlockDriverState
  type EdgeId = nat // a BdrvChild

  /** The four BLK_PERM_* bits; a permission mask is a set of them. */
  datatype Perm = ConsistentRead | Write | WriteUnchanged | Resize
  type Perms = set<Perm>
  const ALL_PERMS: Perms := {ConsistentRead, Write, WriteUnchanged, Resize}

  /** BdrvChildRole bits that the permission functions look at. */
  datatype Role = Role(data: bool, metadata: bool, filtered: bool, cow: bool)

  /** Who uses the child: another node, or a user outside the graph (a BlockBackend or a job). */
  datatype Owner = Bds(node: NodeId) | User

  datatype Child = Child(
    bs: Option<NodeId>,
    owner: Owner,
    role: Role,
    perm: Perms,
    shared: Perms,
    frozen: bool,
    stayAtNode: bool)

  type Edges = map<EdgeId, Child>

  // ----- paths ----------------------------------------------------------------------------

  ghost predicate ArcBy(es: Edges, e: EdgeId, u: NodeId, v: NodeId) {
    e in es && es[e].owner == Bds(u) && es[e].bs == Some(v)
  }

  ghost predicate Arc(es: Edges, u: NodeId, v: NodeId) {
    exists e :: ArcBy(es, e, u, v)
  }

  ghost predicate IsPath(es: Edges, p: seq<NodeId>) {
    |p| > 0 && forall i :: 0 <= i < |p| - 1 ==> Arc(es, p[i], p[i + 1])
  }

  ghost predicate PathFromTo(es: Edges, p: seq<NodeId>, a: NodeId, b: NodeId) {
    IsPath(es, p) && p[0] == a && p[|p| - 1] == b
  }

  /** `b` is `a` or lies below it. */
  ghost predicate Reach(es: Edges, a: NodeId, b: NodeId) {
    exists p :: PathFromTo(es, p, a, b)
  }

  ghost predicate Acyclic(es: Edges) {
    forall p :: IsPath(es, p) && |p| > 1 ==> p[0] != p[|p| - 1]
  }

  lemma ReachSelf(es: Edges, a: NodeId)
    ensures Reach(es, a, a)
  {
    assert PathFromTo(es, [a], a, a);
  }

  lemma ReachArc(es: Edges, a: NodeId, b: NodeId)
    requires Arc(es, a, b)
    ensures Reach(es, a, b)
  {
    assert PathFromTo(es, [a, b], a, b);
  }

  lemma PathConcat(es: Edges, p: seq<NodeId>, q: seq<NodeId>)
    requires IsPath(es, p) && IsPath(es, q) && p[|p| - 1] == q[0]
    ensures IsPath(es, p + q[1..])
    ensures (p + q[1..])[0] == p[0] && (p + q[1..])[|p + q[1..]| - 1] == q[|q| - 1]
  {
    var r := p + q[1..];
    forall i | 0 <= i < |r| - 1 ensures Arc(es, r[i], r[i + 1]) {
      if i < |p| - 1 {
        assert Arc(es, p[i], p[i + 1]);
      } else {
        var j := i - (|p| - 1);
        assert Arc(es, q[j], q[j + 1]);
      }
    }
  }

  lemma ReachTrans(es: Edges, a: NodeId, b: NodeId, c: NodeId)
    requires Reach(es, a, b) && Reach(es, b, c)
    ensures Reach(es, a, c)
  {
    var p :| PathFromTo(es, p, a, b);
    var q :| PathFromTo(es, q, b, c);
    PathConcat(es, p, q);
    assert PathFromTo(es, p + q[1..], a, c);
  }

  lemma SubPath(es: Edges, p: seq<NodeId>, i: nat, j: nat)
    requires IsPath(es, p) && i < j <= |p|
    ensures IsPath(es, p[i..j])
  {
    forall k | 0 <= k < |p[i..j]| - 1 ensures Arc(es, p[i..j][k], p[i..j][k + 1]) {
      assert Arc(es, p[i + k], p[i + k + 1]);
    }
  }

  /** Everything strictly below `a` is below one of its children. */
  lemma ReachViaChild(es: Edges, a: NodeId, b: NodeId) returns (c: NodeId)
    requires Reach(es, a, b) && a != b
    ensures Arc(es, a, c) && Reach(es, c, b)
  {
    var p :| PathFromTo(es, p, a, b);
    c := p[1];
    SubPath(es, p, 1, |p|);
    assert Arc(es, p[0], p[1]);
    assert PathFromTo(es, p[1..], c, b);
  }

  lemma ArcNotBack(es: Edges, a: NodeId, b: NodeId)
    requires Acyclic(es) && Arc(es, a, b)
    ensures !Reach(es, b, a)
  {
    if Reach(es, b, a) {
      var q :| PathFromTo(es, q, b, a);
      assert IsPath(es, [a, b]);
      PathConcat(es, [a, b], q);
      assert false;
    }
  }

  // ----- changing the edges below one node ------------------------------------------------

  /** The two graphs differ at most in the edges that leave `u`. */
  ghost predicate SameArcsExcept(es: Edges, es': Edges, u: NodeId) {
    forall a, b :: a != u ==> (Arc(es, a, b) <==> Arc(es', a, b))
  }

  /** A path that meets `u` only at its end is a path of both graphs. */
  lemma PathAvoiding(es: Edges, es': Edges, u: NodeId, p: seq<NodeId>)
    requires SameArcsExcept(es, es', u)
    requires IsPath(es, p) && forall i :: 0 <= i < |p| - 1 ==> p[i] != u
    ensures IsPath(es', p)
  {
    forall i | 0 <= i < |p| - 1 ensures Arc(es', p[i], p[i + 1]) {
      assert Arc(es, p[i], p[i + 1]);
    }
  }

  lemma {:induction false} FirstAt(p: seq<NodeId>, u: NodeId) returns (j: nat)
    requires u in p
    ensures j < |p| && p[j] == u && forall i :: 0 <= i < j ==> p[i] != u
  {
    if p[0] == u {
      j := 0;
    } else {
      assert p == [p[0]] + p[1..];
      j := FirstAt(p[1..], u);
      j := j + 1;
    }
  }

  /** Whether `u` lies below `a` does not depend on the edges that leave `u`. */
  lemma ReachUpTo(es: Edges, es': Edges, u: NodeId, a: NodeId)
    requires SameArcsExcept(es, es', u) && Reach(es, a, u)
    ensures Reach(es', a, u)
  {
    var p :| PathFromTo(es, p, a, u);
    var j := FirstAt(p, u);
    SubPath(es, p, 0, j + 1);
    PathAvoiding(es, es', u, p[..j + 1]);
    assert PathFromTo(es', p[..j + 1], a, u);
  }

  /**
   * Giving `u` new edges keeps the graph acyclic exactly when `u` is not below any of the new
   * children; `to` is the only new child.
   */
  lemma NewArcKeepsAcyclic(es: Edges, es': Edges, u: NodeId, to: NodeId)
    requires Acyclic(es) && SameArcsExcept(es, es', u)
    requires forall b :: Arc(es', u, b) ==> Arc(es, u, b) || b == to
    requires !Reach(es, to, u)
    ensures Acyclic(es')
  {
    forall p | IsPath(es', p) && |p| > 1 ensures p[0] != p[|p| - 1] {
      if u in p {
        NoCycleThrough(es, es', u, to, p);
      } else {
        PathAvoiding(es', es, u, p);
      }
    }
  }

  /** A cycle through `u` can be walked from `u`. */
  lemma CycleFrom(es: Edges, u: NodeId, p: seq<NodeId>) returns (x: NodeId)
    requires IsPath(es, p) && |p| > 1 && p[0] == p[|p| - 1] && u in p
    ensures Arc(es, u, x) && Reach(es, x, u)
  {
    var i := FirstAt(p, u);
    if i == 0 {
      x := p[1];
      SubPath(es, p, 1, |p|);
      assert Arc(es, p[0], p[1]) && PathFromTo(es, p[1..], x, u);
    } else {
      SubPath(es, p, 0, i + 1);
      assert PathFromTo(es, p[..i + 1], p[0], u);
      x := p[i + 1];
      assert Arc(es, p[i], p[i + 1]);
      SubPath(es, p, i + 1, |p|);
      assert PathFromTo(es, p[i + 1..], x, p[0]);
      ReachTrans(es, x, p[0], u);
    }
  }

  lemma NoCycleThrough(es: Edges, es': Edges, u: NodeId, to: NodeId, p: seq<NodeId>)
    requires Acyclic(es) && SameArcsExcept(es, es', u)
    requires forall b :: Arc(es', u, b) ==> Arc(es, u, b) || b == to
    requires !Reach(es, to, u)
    requires IsPath(es', p) && |p| > 1 && u in p
    ensures p[0] != p[|p| - 1]
  {
    if p[0] == p[|p| - 1] {
      var x := CycleFrom(es', u, p);
      ReachUpTo(es', es, u, x);
      if Arc(es, u, x) {
        ArcNotBack(es, u, x);
      }
    }
  }

  /** Conversely, an edge from `u` to a node above or equal to `u` closes a cycle. */
  lemma BackArcMakesCycle(es: Edges, es': Edges, u: NodeId, to: NodeId)
    requires SameArcsExcept(es, es', u) && Arc(es', u, to) && Reach(es, to, u)
    ensures !Acyclic(es')
  {
    ReachUpTo(es, es', u, to);
    if Acyclic(es') {
      ArcNotBack(es', u, to);
    }
  }

  lemma FewerArcsAcyclic(es: Edges, es': Edges)
    requires Acyclic(es) && forall a, b :: Arc(es', a, b) ==> Arc(es, a, b)
    ensures Acyclic(es')
  {
    forall p | IsPath(es', p) && |p| > 1 ensures p[0] != p[|p| - 1] {
      assert IsPath(es, p);
    }
  }

  /** Adding an edge, or pointing it elsewhere: only arcs that leave its owner can change. */
  lemma OneEdgeArcs(es: Edges, es': Edges, e: EdgeId)
    requires forall x :: x != e ==> (x in es <==> x in es') && (x in es ==> es'[x] == es[x])
    requires e in es && e in es' ==> es'[e].owner == es[e].owner
    ensures forall a, b :: (e in es ==> es[e].owner != Bds(a)) && (e in es' ==> es'[e].owner != Bds(a)) ==>
      (Arc(es, a, b) <==> Arc(es', a, b))
    ensures forall a, b :: Arc(es', a, b) ==> Arc(es, a, b) || (e in es' && ArcBy(es', e, a, b))
  {
    forall a, b | Arc(es', a, b) ensures Arc(es, a, b) || (e in es' && ArcBy(es', e, a, b)) {
      var x :| ArcBy(es', x, a, b);
      assert x != e ==> ArcBy(es, x, a, b);
    }
    forall a, b | Arc(es, a, b) && (e in es ==> es[e].owner != Bds(a)) ensures Arc(es', a, b) {
      var x :| ArcBy(es, x, a, b);
      assert ArcBy(es', x, a, b);
    }
  }

  /** What may become of an edge `e` without closing a cycle: it points nowhere, its owner is
      outside the graph, or its owner is not below the new target. */
  lemma OneEdgeAcyclic(es: Edges, es': Edges, e: EdgeId)
    requires forall x :: x != e ==> (x in es <==> x in es') && (x in es ==> es'[x] == es[x])
    requires e in es && e in es' ==> es'[e].owner == es[e].owner
    requires Acyclic(es)
    requires e in es' && es'[e].owner.Bds? && es'[e].bs.Some? ==> !Reach(es, es'[e].bs.value, es'[e].owner.node)
    ensures Acyclic(es')
  {
    OneEdgeArcs(es, es', e);
    if e in es' && es'[e].owner.Bds? && es'[e].bs.Some? {
      NewArcKeepsAcyclic(es, es', es'[e].owner.node, es'[e].bs.value);
    } else {
      FewerArcsAcyclic(es, es');
    }
  }

  /** ... and otherwise it does close one. */
  lemma OneEdgeCycle(es: Edges, es': Edges, e: EdgeId)
    requires forall x :: x != e ==> (x in es <==> x in es') && (x in es ==> es'[x] == es[x])
    requires e in es && e in es' ==> es'[e].owner == es[e].owner
    requires e in es' && es'[e].owner.Bds? && es'[e].bs.Some? && Reach(es, es'[e].bs.value, es'[e].owner.node)
    ensures !Acyclic(es')
  {
    OneEdgeArcs(es, es', e);
    assert ArcBy(es', e, es'[e].owner.node, es'[e].bs.value);
    BackArcMakesCycle(es, es', es'[e].owner.node, es'[e].bs.value);
  }

  /** Changing edges that leave a node outside the subtree of `to` leaves that subtree alone. */
  lemma ReachAvoids(es: Edges, es': Edges, u: NodeId, to: NodeId, x: NodeId)
    requires SameArcsExcept(es, es', u) && !Reach(es, to, u)
    ensures Reach(es', to, x) <==> Reach(es, to, x)
  {
    if p :| PathFromTo(es, p, to, x) {
      if u in p {
        var j := FirstAt(p, u);
        SubPath(es, p, 0, j + 1);
        assert PathFromTo(es, p[..j + 1], to, u);
      }
      PathAvoiding(es, es', u, p);
      assert PathFromTo(es', p, to, x);
    }
    if p :| PathFromTo(es', p, to, x) {
      if u in p {
        var j := FirstAt(p, u);
        SubPath(es', p, 0, j + 1);
        assert PathFromTo(es', p[..j + 1], to, u);
        ReachUpTo(es', es, u, to);
      }
      PathAvoiding(es', es, u, p);
      assert PathFromTo(es, p, to, x);
    }
  }

  // ----- nodes and the two index lists ----------------------------------------------------

  /** What the block layer reads of a node's driver. */
  datatype Driver = Driver(isFilter: bool, supportsBacking: bool)

  datatype Node = Node(
    backing: Option<EdgeId>,
    file: Option<EdgeId>,
    drv: Option<Driver>,
    rdwr: bool,        // BDRV_O_RDWR
    inactive: bool,    // BDRV_O_INACTIVE
    noIo: bool,        // BDRV_O_NO_IO
    forceShare: bool,
    sizeAligned: bool) // the image size is a multiple of bl.request_alignment

  /** The edges point to nodes; `parents` and `children` are the lists kept at the nodes. */
  datatype Graph = Graph(
    nodes: map<NodeId, Node>,
    edges: Edges,
    refs: map<NodeId, int>, // refcnt
    parents: map<NodeId, seq<EdgeId>>,
    children: map<NodeId, seq<EdgeId>>)

  ghost predicate InParents(g: Graph, e: EdgeId, n: NodeId) {
    e in g.edges && g.edges[e].bs == Some(n)
  }

  ghost predicate InChildren(g: Graph, e: EdgeId, n: NodeId) {
    e in g.edges && g.edges[e].owner == Bds(n) && g.edges[e].bs.Some?
  }

  /** The lists at node `n` hold exactly the edges into and out of it, each once. */
  ghost predicate ListsOk(g: Graph, n: NodeId) {
    && n in g.parents && n in g.children
    && NoDup(g.parents[n]) && NoDup(g.children[n])
    && (forall e :: e in g.parents[n] <==> InParents(g, e, n))
    && (forall e :: e in g.children[n] <==> InChildren(g, e, n))
  }

  ghost predicate EndsOk(g: Graph, e: EdgeId)
    requires e in g.edges
  {
    g.edges[e].bs.Some? ==>
      && g.edges[e].bs.value in g.nodes
      && (g.edges[e].owner.Bds? ==> g.edges[e].owner.node in g.nodes)
  }

  /** The parents and children lists agree exactly with the edges. */
  ghost predicate Indexed(g: Graph) {
    && g.refs.Keys == g.nodes.Keys
    && g.parents.Keys == g.nodes.Keys
    && g.children.Keys == g.nodes.Keys
    && (forall n {:trigger ListsOk(g, n)} :: n in g.nodes ==> ListsOk(g, n))
    && (forall e {:trigger EndsOk(g, e)} :: e in g.edges ==> EndsOk(g, e))
  }

  /** What a path from a node of the graph can reach is a node of the graph. */
  lemma {:induction false} PathInNodes(g: Graph, p: seq<NodeId>)
    requires Indexed(g) && IsPath(g.edges, p) && p[0] in g.nodes
    ensures p[|p| - 1] in g.nodes
    decreases |p|
  {
    if |p| > 1 {
      assert Arc(g.edges, p[0], p[1]);
      var e :| ArcBy(g.edges, e, p[0], p[1]);
      assert EndsOk(g, e);
      SubPath(g.edges, p, 1, |p|);
      PathInNodes(g, p[1..]);
    }
  }

  /** The subtree of `n`, `n` included. */
  ghost function Below(g: Graph, n: NodeId): set<NodeId> {
    Subtree(g.nodes, g.edges, n)
  }

  ghost function Subtree(nodes: map<NodeId, Node>, es: Edges, n: NodeId): set<NodeId> {
    set x | x in nodes && Reach(es, n, x)
  }

  lemma BelowIsReach(g: Graph, n: NodeId, x: NodeId)
    requires Indexed(g) && n in g.nodes
    ensures x in Below(g, n) <==> Reach(g.edges, n, x)
  {
    if Reach(g.edges, n, x) {
      var p :| PathFromTo(g.edges, p, n, x);
      PathInNodes(g, p);
    }
  }
}
