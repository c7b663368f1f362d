// The three traversals of the block graph: the topological order used for permission updates,
// the reachability test that guards new edges, and the breadth-first search that guards moved
// edges (block.c:2213-2247, block.c:4141-4157, block.c:4996-5073).
module GraphSearch {
  import opened BlockGraph
  import opened Wrappers

  // ----- bdrv_topological_dfs -------------------------------------------------------------

  /** No node comes after one of its descendants. */
  ghost predicate Sorted(es: Edges, list: seq<NodeId>) {
    forall i, j :: 0 <= i < j < |list| ==> !Reach(es, list[j], list[i])
  }

  ghost function Elems(list: seq<NodeId>): set<NodeId> {
    set x | x in list
  }

  /** With a node, the list holds its whole subtree. */
  ghost predicate SubtreeClosed(g: Graph, list: seq<NodeId>)
    requires Indexed(g)
  {
    forall x {:trigger Below(g, x)} :: x in list ==> x in g.nodes && Below(g, x) <= Elems(list)
  }

  ghost predicate TopoList(g: Graph, list: seq<NodeId>)
    requires Indexed(g)
  {
    NoDup(list) && Sorted(g.edges, list) && SubtreeClosed(g, list)
  }

  /** Nodes found but not yet listed are on the recursion stack: they lie strictly above `bs`. */
  ghost predicate StackAbove(es: Edges, stack: set<NodeId>, bs: NodeId) {
    forall x :: x in stack ==> x != bs && Reach(es, x, bs)
  }

  lemma StackAboveChild(es: Edges, stack: set<NodeId>, bs: NodeId, c: NodeId)
    requires Acyclic(es) && StackAbove(es, stack, bs) && Arc(es, bs, c)
    ensures StackAbove(es, stack + {bs}, c)
  {
    ReachArc(es, bs, c);
    ArcNotBack(es, bs, c);
    forall x | x in stack + {bs} ensures x != c && Reach(es, x, c) {
      if x != bs { ReachTrans(es, x, bs, c); }
    }
  }

  function Target(g: Graph, e: EdgeId): (n: NodeId)
    requires Indexed(g) && e in g.edges && g.edges[e].bs.Some?
    ensures n in g.nodes
  {
    assert EndsOk(g, e);
    g.edges[e].bs.value
  }

  function ChildNode(g: Graph, bs: NodeId, i: nat): (n: NodeId)
    requires Indexed(g) && bs in g.nodes && i < |g.children[bs]|
    ensures n in g.nodes && ArcBy(g.edges, g.children[bs][i], bs, n)
  {
    assert ListsOk(g, bs);
    assert InChildren(g, g.children[bs][i], bs);
    Target(g, g.children[bs][i])
  }

  lemma ArcIndex(g: Graph, bs: NodeId, c: NodeId) returns (i: nat)
    requires Indexed(g) && bs in g.nodes && Arc(g.edges, bs, c)
    ensures i < |g.children[bs]| && ChildNode(g, bs, i) == c
  {
    var e :| ArcBy(g.edges, e, bs, c);
    assert ListsOk(g, bs);
    assert InChildren(g, e, bs);
    i :| 0 <= i < |g.children[bs]| && g.children[bs][i] == e;
  }

  /** The subtrees of the first `k` children of `bs`. */
  ghost function BelowKids(g: Graph, bs: NodeId, k: nat): (r: set<NodeId>)
    requires Indexed(g) && bs in g.nodes && k <= |g.children[bs]|
    ensures r <= g.nodes.Keys
  {
    if k == 0 then {} else BelowKids(g, bs, k - 1) + Below(g, ChildNode(g, bs, k - 1))
  }

  lemma {:induction false} KidInKids(g: Graph, bs: NodeId, k: nat, i: nat)
    requires Indexed(g) && bs in g.nodes && i < k <= |g.children[bs]|
    ensures Below(g, ChildNode(g, bs, i)) <= BelowKids(g, bs, k)
  {
    if i < k - 1 { KidInKids(g, bs, k - 1, i); }
  }

  lemma {:induction false} WhichKid(g: Graph, bs: NodeId, k: nat, x: NodeId) returns (i: nat)
    requires Indexed(g) && bs in g.nodes && k <= |g.children[bs]| && x in BelowKids(g, bs, k)
    ensures i < k && Reach(g.edges, ChildNode(g, bs, i), x)
  {
    if x in BelowKids(g, bs, k - 1) {
      i := WhichKid(g, bs, k - 1, x);
    } else {
      i := k - 1;
    }
  }

  lemma BelowOrKids(g: Graph, bs: NodeId, x: NodeId)
    requires Indexed(g) && bs in g.nodes && x in Below(g, bs) && x != bs
    ensures x in BelowKids(g, bs, |g.children[bs]|)
  {
    var c := ReachViaChild(g.edges, bs, x);
    var i := ArcIndex(g, bs, c);
    KidInKids(g, bs, |g.children[bs]|, i);
  }

  lemma KidsBelow(g: Graph, bs: NodeId, k: nat, x: NodeId)
    requires Indexed(g) && bs in g.nodes && k <= |g.children[bs]| && x in BelowKids(g, bs, k)
    ensures x in Below(g, bs) && (Acyclic(g.edges) ==> x != bs)
  {
    var i := WhichKid(g, bs, k, x);
    var c := ChildNode(g, bs, i);
    assert Arc(g.edges, bs, c);
    ReachArc(g.edges, bs, c);
    ReachTrans(g.edges, bs, c, x);
    if Acyclic(g.edges) { ArcNotBack(g.edges, bs, c); }
  }

  /** The subtree of `bs` is `bs` and the subtrees of its children; without cycles, disjointly so. */
  lemma BelowUnfold(g: Graph, bs: NodeId)
    requires Indexed(g) && bs in g.nodes
    ensures Below(g, bs) == {bs} + BelowKids(g, bs, |g.children[bs]|)
  {
    ReachSelf(g.edges, bs);
    forall x | x in Below(g, bs) && x != bs ensures x in BelowKids(g, bs, |g.children[bs]|) {
      BelowOrKids(g, bs, x);
    }
    forall x | x in BelowKids(g, bs, |g.children[bs]|) ensures x in Below(g, bs) {
      KidsBelow(g, bs, |g.children[bs]|, x);
    }
  }

  lemma NotBelowKids(g: Graph, bs: NodeId, k: nat)
    requires Indexed(g) && Acyclic(g.edges) && bs in g.nodes && k <= |g.children[bs]|
    ensures bs !in BelowKids(g, bs, k)
  {
    if bs in BelowKids(g, bs, k) { KidsBelow(g, bs, k, bs); }
  }

  /** Prepending a node whose subtree is otherwise listed. */
  lemma PrependKeepsTopo(g: Graph, list: seq<NodeId>, bs: NodeId)
    requires Indexed(g) && TopoList(g, list)
    requires bs in g.nodes && bs !in list && Below(g, bs) <= {bs} + Elems(list)
    ensures TopoList(g, [bs] + list) && Elems([bs] + list) == {bs} + Elems(list)
  {
    var r := [bs] + list;
    forall i, j | 0 <= i < j < |r| ensures !Reach(g.edges, r[j], r[i]) {
      if i == 0 {
        assert list[j - 1] in list;
        assert bs !in Below(g, list[j - 1]);
      } else {
        assert r[i] == list[i - 1] && r[j] == list[j - 1];
      }
    }
    assert Elems(r) == {bs} + Elems(list);
    forall x | x in r ensures x in g.nodes && Below(g, x) <= Elems(r) {
      assert x != bs ==> x in list && Below(g, x) <= Elems(list);
    }
  }

  /**
   * bdrv_topological_dfs: `found` is the shared hash table, `list` the list built so far.  From
   * a sorted, subtree-closed list it returns a duplicate-free, sorted, subtree-closed list of
   * exactly the old nodes and everything reachable from `bs`.
   */
  method TopologicalDfs(g: Graph, list: seq<NodeId>, found: set<NodeId>, bs: NodeId)
    returns (list': seq<NodeId>, found': set<NodeId>)
    requires Indexed(g) && Acyclic(g.edges) && bs in g.nodes && found <= g.nodes.Keys
    requires TopoList(g, list) && Elems(list) <= found && StackAbove(g.edges, found - Elems(list), bs)
    ensures TopoList(g, list')
    ensures Elems(list') == Elems(list) + Below(g, bs)
    ensures found' == found + Below(g, bs) && found' <= g.nodes.Keys
    decreases g.nodes.Keys - found, 1
  {
    ghost var stack := found - Elems(list);
    if bs in found {
      assert bs !in stack;
      assert Below(g, bs) <= Elems(list);
      return list, found;
    }
    list', found' := DfsChildren(g, list, found + {bs}, bs, stack);
    NotBelowKids(g, bs, |g.children[bs]|);
    BelowUnfold(g, bs);
    PrependKeepsTopo(g, list', bs);
    list' := [bs] + list';
  }

  lemma AddUp(a: set<NodeId>, b: set<NodeId>, c: set<NodeId>)
    ensures a + b + c == a + (b + c)
  {
  }

  /** What has been found and is not in the list yet lies above the next child. */
  lemma NextOnStack(g: Graph, stack: set<NodeId>, bs: NodeId, i: nat, open: set<NodeId>)
    requires Indexed(g) && Acyclic(g.edges) && bs in g.nodes && i < |g.children[bs]|
    requires StackAbove(g.edges, stack, bs) && open <= stack + {bs}
    ensures StackAbove(g.edges, open, ChildNode(g, bs, i))
  {
    assert Arc(g.edges, bs, ChildNode(g, bs, i));
    StackAboveChild(g.edges, stack, bs, ChildNode(g, bs, i));
  }

  /** The loop over the children of a node that has just been marked as found. */
  method DfsChildren(g: Graph, list: seq<NodeId>, found: set<NodeId>, bs: NodeId, ghost stack: set<NodeId>)
    returns (list': seq<NodeId>, found': set<NodeId>)
    requires Indexed(g) && Acyclic(g.edges) && bs in g.nodes && found <= g.nodes.Keys
    requires TopoList(g, list) && found == Elems(list) + stack + {bs} && StackAbove(g.edges, stack, bs)
    ensures TopoList(g, list')
    ensures Elems(list') == Elems(list) + BelowKids(g, bs, |g.children[bs]|)
    ensures found' == found + BelowKids(g, bs, |g.children[bs]|) && found' <= g.nodes.Keys
    decreases g.nodes.Keys - found, 3
  {
    list', found' := list, found;
    ghost var elems := Elems(list);
    assert elems == elems + BelowKids(g, bs, 0) && found == found + BelowKids(g, bs, 0);
    for i := 0 to |g.children[bs]|
      invariant TopoList(g, list') && found' <= g.nodes.Keys
      invariant Elems(list') == elems + BelowKids(g, bs, i)
      invariant found' == found + BelowKids(g, bs, i)
    {
      list', found' := DfsChild(g, list', found', bs, i, stack, elems, found);
    }
  }

  /** One turn of that loop; `list0` and `found0` are the nodes listed and found before the first. */
  method DfsChild(g: Graph, list: seq<NodeId>, found: set<NodeId>, bs: NodeId, i: nat,
                  ghost stack: set<NodeId>, ghost list0: set<NodeId>, ghost found0: set<NodeId>)
    returns (list': seq<NodeId>, found': set<NodeId>)
    requires Indexed(g) && Acyclic(g.edges) && bs in g.nodes && i < |g.children[bs]| && found <= g.nodes.Keys
    requires TopoList(g, list) && StackAbove(g.edges, stack, bs) && found0 == list0 + stack + {bs}
    requires Elems(list) == list0 + BelowKids(g, bs, i) && found == found0 + BelowKids(g, bs, i)
    ensures TopoList(g, list') && found' <= g.nodes.Keys
    ensures Elems(list') == list0 + BelowKids(g, bs, i + 1) && found' == found0 + BelowKids(g, bs, i + 1)
    decreases g.nodes.Keys - found0, 2
  {
    ghost var kids, below := BelowKids(g, bs, i), Below(g, ChildNode(g, bs, i));
    NextOnStack(g, stack, bs, i, found - Elems(list));
    list', found' := TopologicalDfs(g, list, found, ChildNode(g, bs, i));
    AddUp(list0, kids, below);
    AddUp(found0, kids, below);
  }

  // ----- bdrv_recurse_has_child -----------------------------------------------------------

  lemma BelowShrinks(g: Graph, bs: NodeId, i: nat)
    requires Indexed(g) && Acyclic(g.edges) && bs in g.nodes && i < |g.children[bs]|
    ensures Below(g, ChildNode(g, bs, i)) < Below(g, bs)
  {
    var c := ChildNode(g, bs, i);
    assert Arc(g.edges, bs, c);
    ArcNotBack(g.edges, bs, c);
    ReachSelf(g.edges, bs);
    assert bs in Below(g, bs) && bs !in Below(g, c);
    forall x | x in Below(g, c) ensures x in Below(g, bs) {
      ReachArc(g.edges, bs, c);
      ReachTrans(g.edges, bs, c, x);
    }
  }

  /** bdrv_recurse_has_child terminates on every acyclic graph and decides reachability. */
  predicate RecurseHasChild(g: Graph, bs: NodeId, child: NodeId)
    requires Indexed(g) && Acyclic(g.edges) && bs in g.nodes
    ensures RecurseHasChild(g, bs, child) <==> Reach(g.edges, bs, child)
    decreases Below(g, bs)
  {
    assert forall i :: 0 <= i < |g.children[bs]| ==> Below(g, ChildNode(g, bs, i)) < Below(g, bs) by {
      forall i | 0 <= i < |g.children[bs]| ensures Below(g, ChildNode(g, bs, i)) < Below(g, bs) {
        BelowShrinks(g, bs, i);
      }
    }
    assert Reach(g.edges, bs, child) <==>
           bs == child || exists i :: 0 <= i < |g.children[bs]| && Reach(g.edges, ChildNode(g, bs, i), child) by {
      BelowIsReach(g, bs, child);
      if Reach(g.edges, bs, child) && child != bs {
        BelowOrKids(g, bs, child);
        var i := WhichKid(g, bs, |g.children[bs]|, child);
      }
      if i :| 0 <= i < |g.children[bs]| && Reach(g.edges, ChildNode(g, bs, i), child) {
        BelowIsReach(g, ChildNode(g, bs, i), child);
        KidInKids(g, bs, |g.children[bs]|, i);
        KidsBelow(g, bs, |g.children[bs]|, child);
      }
      ReachSelf(g.edges, bs);
    }
    bs == child || exists i :: 0 <= i < |g.children[bs]| && RecurseHasChild(g, ChildNode(g, bs, i), child)
  }

  // ----- should_update_child --------------------------------------------------------------

  /** The edge leaves a node of the subtree of `to`: pointing it at `to` would close a cycle. */
  ghost predicate EdgeBelow(g: Graph, c: EdgeId, to: NodeId)
    requires c in g.edges
  {
    g.edges[c].owner.Bds? && g.edges[c].bs.Some? && Reach(g.edges, to, g.edges[c].owner.node)
  }

  /** `v` has been expanded without meeting `c`: all its children have been found. */
  ghost predicate Expanded(g: Graph, c: EdgeId, found: set<NodeId>, v: NodeId, k: nat)
    requires Indexed(g) && v in g.nodes && k <= |g.children[v]|
  {
    forall i :: 0 <= i < k ==> g.children[v][i] != c && ChildNode(g, v, i) in found
  }

  lemma {:induction false} ClosedContainsPath(g: Graph, c: EdgeId, found: set<NodeId>, p: seq<NodeId>)
    requires Indexed(g) && found <= g.nodes.Keys && IsPath(g.edges, p) && p[0] in found
    requires forall v :: v in found ==> Expanded(g, c, found, v, |g.children[v]|)
    ensures p[|p| - 1] in found
    decreases |p|
  {
    if |p| > 1 {
      assert Arc(g.edges, p[0], p[1]);
      var i := ArcIndex(g, p[0], p[1]);
      assert Expanded(g, c, found, p[0], |g.children[p[0]]|);
      SubPath(g.edges, p, 1, |p|);
      ClosedContainsPath(g, c, found, p[1..]);
    }
  }

  lemma SearchComplete(g: Graph, c: EdgeId, found: set<NodeId>, to: NodeId)
    requires Indexed(g) && c in g.edges && found <= g.nodes.Keys && to in found
    requires forall v :: v in found ==> Expanded(g, c, found, v, |g.children[v]|)
    ensures !EdgeBelow(g, c, to)
  {
    if EdgeBelow(g, c, to) {
      var u := g.edges[c].owner.node;
      var p :| PathFromTo(g.edges, p, to, u);
      ClosedContainsPath(g, c, found, p);
      assert EndsOk(g, c) && ListsOk(g, u) && InChildren(g, c, u);
    }
  }

  /** The search state: everything found is below `to`, everything else found waits in the queue. */
  ghost predicate SearchInv(g: Graph, c: EdgeId, to: NodeId, found: set<NodeId>, queue: seq<NodeId>)
    requires Indexed(g) && to in g.nodes
  {
    && to in found && found <= Below(g, to) && found <= g.nodes.Keys
    && Elems(queue) <= found
    && (forall v :: v in found && v !in queue ==> Expanded(g, c, found, v, |g.children[v]|))
  }

  /** One round of the search: put the children of `v` that are new at the end of the queue. */
  method ExpandNode(g: Graph, c: EdgeId, to: NodeId, v: NodeId, found: set<NodeId>, queue: seq<NodeId>, ghost missed: bool)
    returns (hit: bool, found': set<NodeId>, queue': seq<NodeId>)
    requires Indexed(g) && c in g.edges && to in g.nodes
    requires v in found && Elems(queue) <= found <= Below(g, to) && found <= g.nodes.Keys
    requires missed ==> SearchInv(g, c, to, found, [v] + queue)
    ensures hit ==> EdgeBelow(g, c, to)
    ensures missed && !hit ==> SearchInv(g, c, to, found', queue')
    ensures Elems(queue') <= found' <= Below(g, to) && found' <= g.nodes.Keys
    ensures found <= found' && (found' == found ==> queue' == queue)
  {
    hit, found', queue' := false, found, queue;
    BelowUnfoldPath(g, to, v);
    for i := 0 to |g.children[v]|
      invariant found <= found' <= Below(g, to) && found' <= g.nodes.Keys && Elems(queue') <= found'
      invariant found' == found ==> queue' == queue
      invariant missed ==> forall w :: w in found' && w !in queue' && w != v ==>
                                       Expanded(g, c, found', w, |g.children[w]|)
      invariant Expanded(g, c, found', v, i)
    {
      var w := ChildNode(g, v, i);
      if g.children[v][i] == c {
        return true, found', queue';
      }
      assert Arc(g.edges, v, w);
      if w !in found' {
        queue' := queue' + [w];
        found' := found' + {w};
      }
    }
  }

  lemma BelowUnfoldPath(g: Graph, to: NodeId, v: NodeId)
    requires Indexed(g) && to in g.nodes && v in Below(g, to)
    ensures forall w :: Arc(g.edges, v, w) ==> w in Below(g, to)
  {
    forall w | Arc(g.edges, v, w) ensures w in Below(g, to) {
      ReachArc(g.edges, v, w);
      ReachTrans(g.edges, to, v, w);
      BelowIsReach(g, to, w);
    }
  }

  /**
   * should_update_child: breadth-first search of the subtree of `to`.  It says yes exactly when
   * the edge may move and does not leave a node of that subtree.
   */
  method ShouldUpdateChild(g: Graph, c: EdgeId, to: NodeId) returns (ret: bool)
    requires Indexed(g) && c in g.edges && to in g.nodes
    ensures ret <==> !g.edges[c].stayAtNode && !EdgeBelow(g, c, to)
  {
    if g.edges[c].stayAtNode {
      return false;
    }
    ret := true;
    var found, queue := {to}, [to];
    ReachSelf(g.edges, to);
    while queue != []
      invariant Elems(queue) <= found <= Below(g, to) && found <= g.nodes.Keys
      invariant if ret then SearchInv(g, c, to, found, queue) else EdgeBelow(g, c, to)
      decreases g.nodes.Keys - found, |queue|
    {
      var hit;
      assert queue == [queue[0]] + queue[1..];
      hit, found, queue := ExpandNode(g, c, to, queue[0], found, queue[1..], ret);
      if hit {
        ret := false;
      }
    }
    if ret {
      SearchComplete(g, c, found, to);
    }
  }
}
