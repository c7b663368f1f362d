// The block layer: one object that holds all nodes and edges and changes them in place, as
// block.c does through pointers.
module BlockLayer {
  import opened BlockGraph
  import opened GraphSearch
  import opened Permissions
  import opened References
  import opened Refresh
  import opened Transactions
  import opened Wrappers

  // ----- the index lists under bdrv_replace_child_noperm ----------------------------------

  /** Leaving the old node (block.c:2868-2882). */
  function Unlinked(g: Graph, e: EdgeId): Graph
    requires Indexed(g) && e in g.edges && g.edges[e].bs.Some?
  {
    assert EndsOk(g, e);
    var c := g.edges[e];
    g.(children := if c.owner.Bds? then g.children[c.owner.node := Without(g.children[c.owner.node], e)] else g.children,
       parents := g.parents[c.bs.value := Without(g.parents[c.bs.value], e)],
       edges := g.edges[e := c.(bs := None)])
  }

  predicate OwnerAlive(g: Graph, e: EdgeId)
    requires e in g.edges
  {
    g.edges[e].owner.Bds? ==> g.edges[e].owner.node in g.nodes
  }

  /** Entering the new node (block.c:2884-2903). */
  function Linked(g: Graph, e: EdgeId, bs: NodeId): Graph
    requires Indexed(g) && e in g.edges && g.edges[e].bs.None? && bs in g.nodes && OwnerAlive(g, e)
  {
    assert EndsOk(g, e);
    var c := g.edges[e];
    g.(children := if c.owner.Bds? then g.children[c.owner.node := [e] + g.children[c.owner.node]] else g.children,
       parents := g.parents[bs := [e] + g.parents[bs]],
       edges := g.edges[e := c.(bs := Some(bs))])
  }

  lemma UnlinkedLists(g: Graph, e: EdgeId, n: NodeId)
    requires Indexed(g) && e in g.edges && g.edges[e].bs.Some? && n in g.nodes
    ensures ListsOk(Unlinked(g, e), n)
  {
    assert ListsOk(g, n);
    var g' := Unlinked(g, e);
    forall x ensures InParents(g', x, n) <==> InParents(g, x, n) && x != e {}
    forall x ensures InChildren(g', x, n) <==> InChildren(g, x, n) && x != e {}
  }

  lemma UnlinkedIndexed(g: Graph, e: EdgeId)
    requires Indexed(g) && e in g.edges && g.edges[e].bs.Some?
    ensures Indexed(Unlinked(g, e))
  {
    assert EndsOk(g, e);
    var g' := Unlinked(g, e);
    forall n | n in g'.nodes ensures ListsOk(g', n) { UnlinkedLists(g, e, n); }
    forall x | x in g'.edges ensures EndsOk(g', x) { assert EndsOk(g, x); }
  }

  lemma LinkedLists(g: Graph, e: EdgeId, bs: NodeId, n: NodeId)
    requires Indexed(g) && e in g.edges && g.edges[e].bs.None? && bs in g.nodes && OwnerAlive(g, e) && n in g.nodes
    ensures ListsOk(Linked(g, e, bs), n)
  {
    assert ListsOk(g, n);
    var g' := Linked(g, e, bs);
    assert !InParents(g, e, n) && !InChildren(g, e, n);
    forall x ensures InParents(g', x, n) <==> InParents(g, x, n) || (x == e && n == bs) {}
    forall x ensures InChildren(g', x, n) <==> InChildren(g, x, n) || (x == e && g.edges[e].owner == Bds(n)) {}
  }

  lemma LinkedIndexed(g: Graph, e: EdgeId, bs: NodeId)
    requires Indexed(g) && e in g.edges && g.edges[e].bs.None? && bs in g.nodes && OwnerAlive(g, e)
    ensures Indexed(Linked(g, e, bs))
  {
    assert EndsOk(g, e);
    var g' := Linked(g, e, bs);
    forall n | n in g'.nodes ensures ListsOk(g', n) { LinkedLists(g, e, bs, n); }
    forall x | x in g'.edges ensures EndsOk(g', x) { assert EndsOk(g, x); }
  }

  /** Fields of the nodes, and references, do not matter to the lists. */
  lemma KeepLists(g: Graph, g': Graph)
    requires Indexed(g) && g'.nodes.Keys == g.nodes.Keys && g'.refs.Keys == g.refs.Keys
    requires g'.edges == g.edges && g'.parents == g.parents && g'.children == g.children
    ensures Indexed(g')
  {
    forall n | n in g'.nodes ensures ListsOk(g', n) {
      assert ListsOk(g, n);
      forall x ensures InParents(g', x, n) <==> InParents(g, x, n) {}
      forall x ensures InChildren(g', x, n) <==> InChildren(g, x, n) {}
    }
    forall x | x in g'.edges ensures EndsOk(g', x) { assert EndsOk(g, x); }
  }

  /** The child edges of `bs` in `done` have been refreshed. */
  ghost function PartRefreshed(cp: ChildPermFn, nodes: map<NodeId, Node>, es: Edges, bs: NodeId, done: seq<EdgeId>): Edges {
    map e | e in es :: if OwnedBy(es, e, bs) && e in done
                       then es[e].(perm := Wanted(cp, nodes, es, e).0, shared := Wanted(cp, nodes, es, e).1)
                       else es[e]
  }

  lemma PartNone(cp: ChildPermFn, nodes: map<NodeId, Node>, es: Edges, bs: NodeId, kids: seq<EdgeId>)
    ensures PartRefreshed(cp, nodes, es, bs, kids[..0]) == es
  {
  }

  lemma PartStep(cp: ChildPermFn, nodes: map<NodeId, Node>, es: Edges, bs: NodeId, kids: seq<EdgeId>, i: nat)
    requires i < |kids| && NoDup(kids) && OwnedBy(es, kids[i], bs)
    ensures
      var part, w := PartRefreshed(cp, nodes, es, bs, kids[..i]), Wanted(cp, nodes, es, kids[i]);
      && part[kids[i]] == es[kids[i]]
      && PartRefreshed(cp, nodes, es, bs, kids[..i + 1]) == part[kids[i] := es[kids[i]].(perm := w.0, shared := w.1)]
  {
    assert kids[..i + 1] == kids[..i] + [kids[i]];
    assert kids[i] !in kids[..i];
  }

  lemma PartAll(cp: ChildPermFn, nodes: map<NodeId, Node>, es: Edges, bs: NodeId, kids: seq<EdgeId>)
    requires bs in nodes && nodes[bs].drv.Some? && forall e :: OwnedBy(es, e, bs) ==> e in kids
    ensures PartRefreshed(cp, nodes, es, bs, kids[..|kids|]) == RefreshNode(cp, nodes, es, bs)
  {
    assert kids[..|kids|] == kids;
  }

  /** All checks pass at every node of the subtree, and every child edge holds what its node wants. */
  ghost predicate Consistent(cp: ChildPermFn, check: (NodeId, Perms, Perms) -> bool, nodes: map<NodeId, Node>, es: Edges,
                             n: NodeId) {
    forall m :: m in nodes && Reach(es, n, m) ==> ChecksOk(check, nodes, es, m) && ChildrenOk(cp, nodes, es, m)
  }

  /** A successful refresh of a subtree leaves it consistent. */
  lemma Settled(cp: ChildPermFn, check: (NodeId, Perms, Perms) -> bool, g: Graph, list: seq<NodeId>, es': Edges, n: NodeId)
    requires Indexed(g) && Acyclic(g.edges) && TopoList(g, list) && Below(g, n) <= Elems(list)
    requires es' == RefreshAll(cp, g.nodes, g.edges, list)
    requires forall m :: m in list ==> ChecksOk(check, g.nodes, es', m)
    ensures Consistent(cp, check, g.nodes, es', n)
  {
    RefreshUnique(cp, g, list, es');
    forall m | m in g.nodes && Reach(es', n, m) ensures ChecksOk(check, g.nodes, es', m) && ChildrenOk(cp, g.nodes, es', m) {
      ShapeReach(g.edges, es', n, m);
      assert m in Below(g, n);
    }
  }

  /** What the refresh of the whole subtree of `n` decides and leaves behind. */
  lemma RefreshOutcome(cp: ChildPermFn, check: (NodeId, Perms, Perms) -> bool, g: Graph, list: seq<NodeId>, n: NodeId)
    requires Indexed(g) && Acyclic(g.edges) && TopoList(g, list) && Elems(list) == Below(g, n)
    ensures var r := RefreshAll(cp, g.nodes, g.edges, list);
      var ok := forall m :: m in list ==> ChecksOk(check, g.nodes, r, m);
      && (ok <==> Refreshable(cp, check, g.nodes, g.edges, Below(g, n)))
      && Assignment(cp, g.nodes, g.edges, Below(g, n), r)
      && (ok ==> Consistent(cp, check, g.nodes, r, n))
  {
    var r := RefreshAll(cp, g.nodes, g.edges, list);
    RefreshableIff(cp, check, g, list);
    RefreshUnique(cp, g, list, r);
    if forall m :: m in list ==> ChecksOk(check, g.nodes, r, m) {
      Settled(cp, check, g, list, r, n);
    }
  }

  lemma ListedInNodes(g: Graph, list: seq<NodeId>, i: nat)
    requires Indexed(g) && TopoList(g, list) && i < |list|
    ensures list[i] in g.nodes
  {
    assert list[i] in list && Below(g, list[i]) == Below(g, list[i]);
  }

  /** A new edge points nowhere yet and is in no list. */
  lemma NewEdgeIndexed(g: Graph, e: EdgeId, c: Child)
    requires Indexed(g) && e !in g.edges && c.bs.None? && (c.owner.Bds? ==> c.owner.node in g.nodes)
    ensures Indexed(g.(edges := g.edges[e := c]))
  {
    var g' := g.(edges := g.edges[e := c]);
    forall n | n in g'.nodes ensures ListsOk(g', n) {
      assert ListsOk(g, n);
      forall x ensures InParents(g', x, n) <==> InParents(g, x, n) {}
      forall x ensures InChildren(g', x, n) <==> InChildren(g, x, n) {}
    }
    forall x | x in g'.edges ensures EndsOk(g', x) { assert x != e ==> EndsOk(g, x); }
  }

  lemma PermRecorded(c: Core, acts: seq<Action>, e: EdgeId, perm: Perms, shared: Perms)
    requires Undoable(acts, c) && e in c.edges
    ensures
      var a, c' := SetPerm(e, c.edges[e].perm, c.edges[e].shared), Repermit(c, e, perm, shared);
      Undoable([a] + acts, c') && Revert([a] + acts, c') == Revert(acts, c) && SameParked(acts, [a] + acts)
  {
    var a, c' := SetPerm(e, c.edges[e].perm, c.edges[e].shared), Repermit(c, e, perm, shared);
    assert Abort(a, c').edges == c.edges;
    Record(a, acts, c, c');
    ParkedRecord(a, acts);
  }

  ghost function Attached(c: Core, e: EdgeId, child: Child, bs: NodeId, slot: Slot): Core
    requires bs in c.refs
  {
    Core(PutSlotIn(c.nodes, slot, Some(e)), c.edges[e := child.(bs := Some(bs))], c.refs[bs := c.refs[bs] + 1])
  }

  /** bdrv_backing_role (block.c:3341-3348). */
  function BackingRole(nodes: map<NodeId, Node>, n: NodeId): Role {
    if n in nodes && nodes[n].drv.Some? && nodes[n].drv.value.isFilter
    then Role(false, false, true, false) else Role(false, false, false, true)
  }

  /** The edge that bdrv_attach_child_noperm creates: its masks are the driver's answer for the parent as it is. */
  ghost function NewChild(cp: ChildPermFn, c: Core, parent: NodeId, bs: NodeId, role: Role): Child {
    var r := cp(parent, None, role, CumPerm(c.edges, parent), CumShared(c.edges, parent));
    Child(None, Bds(parent), role, r.0, if bs in c.nodes && c.nodes[bs].forceShare then ALL_PERMS else r.1, false, false)
  }

  lemma AttachedSteps(c: Core, e: EdgeId, child: Child, bs: NodeId, slot: Slot)
    requires e !in c.edges && bs in c.refs && child.bs.None?
    ensures PutSlot(Retarget(RefAdd(c.(edges := c.edges[e := child]), bs, 1), e, Some(bs)), slot, Some(e))
            == Attached(c, e, child, bs, slot)
  {
    assert c.edges[e := child][e := child.(bs := Some(bs))] == c.edges[e := child.(bs := Some(bs))];
  }

  lemma AttachUndone(c: Core, e: EdgeId, child: Child, bs: NodeId, slot: Slot)
    requires e !in c.edges && bs in c.nodes && bs in c.refs && !child.frozen
    requires SlotIn(c.nodes, slot) == None && (slot.Local? || slot.node in c.nodes)
    ensures Abort(AttachChild(e, slot), Attached(c, e, child, bs, slot)) == c
    ensures CanAbort(AttachChild(e, slot), Attached(c, e, child, bs, slot))
  {
  }

  lemma AbortAttachSteps(c: Core, a: Action)
    requires a.AttachChild? && a.child in c.edges && c.edges[a.child].bs.Some?
    ensures
      var c1 := RefAdd(PutSlot(Retarget(c, a.child, None), a.slot, None), c.edges[a.child].bs.value, -1);
      c1.(edges := c1.edges - {a.child}) == Abort(a, c)
  {
    assert c.edges[a.child := c.edges[a.child].(bs := None)] - {a.child} == c.edges - {a.child};
  }

  lemma AttachRecorded(c: Core, acts: seq<Action>, held: Held, e: EdgeId, child: Child, bs: NodeId, slot: Slot)
    requires Undoable(acts, c) && Balanced(c, held, acts)
    requires e !in c.edges && bs in c.nodes && bs in c.refs && !child.frozen
    requires SlotIn(c.nodes, slot) == None && (slot.Local? || slot.node in c.nodes)
    ensures
      var c', acts' := Attached(c, e, child, bs, slot), [AttachChild(e, slot)] + acts;
      Undoable(acts', c') && Balanced(c', held, acts') && Revert(acts', c') == Revert(acts, c)
  {
    var c', a := Attached(c, e, child, bs, slot), AttachChild(e, slot);
    AttachUndone(c, e, child, bs, slot);
    Record(a, acts, c, c');
    BalancedAttach(c, c', held, e, bs, acts);
    ParkedRecord(a, acts);
    BalancedPerms(c', c', held, acts, [a] + acts);
  }

  ghost function Replaced(c: Core, e: EdgeId, newBs: Option<NodeId>, slot: Slot): Core {
    match newBs
    case Some(n) => RefAdd(Retarget(c, e, newBs), n, 1)
    case None => PutSlot(Retarget(c, e, None), slot, None)
  }

  lemma ReplaceUndone(c: Core, e: EdgeId, newBs: Option<NodeId>, slot: Slot, free: bool)
    requires e in c.edges && !c.edges[e].frozen && c.edges[e].bs.Some? && c.edges[e].bs != newBs
    requires c.edges[e].bs.value in c.nodes && (newBs.Some? ==> newBs.value in c.nodes)
    requires c.edges[e].owner.Bds? ==> c.edges[e].owner.node in c.nodes
    requires newBs.None? ==> !slot.Local? && slot.node in c.nodes && SlotIn(c.nodes, slot) == Some(e)
    ensures
      var a := ReplaceChild(e, slot, c.edges[e].bs.value, free);
      Abort(a, Replaced(c, e, newBs, slot)) == c && CanAbort(a, Replaced(c, e, newBs, slot))
  {
    var c' := Replaced(c, e, newBs, slot);
    var c'' := Abort(ReplaceChild(e, slot, c.edges[e].bs.value, free), c');
    assert c''.edges == c.edges && c''.refs == c.refs && c''.nodes == c.nodes;
  }

  lemma ReplaceRecorded(c: Core, acts: seq<Action>, held: Held, e: EdgeId, newBs: Option<NodeId>, slot: Slot, free: bool)
    requires Undoable(acts, c) && Balanced(c, held, acts)
    requires e in c.edges && !c.edges[e].frozen && c.edges[e].bs.Some? && c.edges[e].bs != newBs
    requires c.edges[e].bs.value in c.nodes && (newBs.Some? ==> newBs.value in c.nodes)
    requires c.edges[e].owner.Bds? ==> c.edges[e].owner.node in c.nodes
    requires newBs.None? ==> !slot.Local? && slot.node in c.nodes && SlotIn(c.nodes, slot) == Some(e)
    ensures
      var c', acts' := Replaced(c, e, newBs, slot), [ReplaceChild(e, slot, c.edges[e].bs.value, free)] + acts;
      Undoable(acts', c') && Balanced(c', held, acts') && Revert(acts', c') == Revert(acts, c)
  {
    var c', was := Replaced(c, e, newBs, slot), c.edges[e].bs.value;
    var a := ReplaceChild(e, slot, was, free);
    ReplaceUndone(c, e, newBs, slot, free);
    Record(a, acts, c, c');
    if newBs.Some? {
      BalancedReplace(c, c', held, e, slot, was, newBs, free, acts);
    } else {
      BalancedReplace(c, Retarget(c, e, None), held, e, slot, was, newBs, free, acts);
      BalancedPerms(Retarget(c, e, None), c', held, [a] + acts, [a] + acts);
    }
  }

  /** A node's backing or file link: an edge of that node that points to some node. */
  predicate SlotHolds(g: Graph, slot: Slot, e: EdgeId) {
    && !slot.Local? && slot.node in g.nodes && SlotIn(g.nodes, slot) == Some(e)
    && e in g.edges && g.edges[e].owner == Bds(slot.node) && g.edges[e].bs.Some? && !g.edges[e].frozen
  }

  ghost function Removed(c: Core, e: EdgeId, slot: Slot): Core
    requires !slot.Local?
  {
    RefAdd(Replaced(c, e, None, slot), slot.node, 1)
  }

  lemma RemoveUndone(c: Core, e: EdgeId, slot: Slot)
    requires e in c.edges && !c.edges[e].frozen && c.edges[e].bs.Some? && c.edges[e].bs.value in c.nodes
    requires c.edges[e].owner.Bds? ==> c.edges[e].owner.node in c.nodes
    requires !slot.Local? && slot.node in c.nodes && SlotIn(c.nodes, slot) == Some(e)
    ensures
      var a1, a2 := RemoveChild(e, slot), ReplaceChild(e, slot, c.edges[e].bs.value, false);
      var c' := Removed(c, e, slot);
      && CanAbort(a1, c') && CanAbort(a2, Abort(a1, c'))
      && Clean(a1, Abort(a1, c')) == PutSlot(Replaced(c, e, None, slot), slot, Some(e))
      && Abort(a2, Clean(a1, Abort(a1, c'))) == c
  {
    var a1, a2 := RemoveChild(e, slot), ReplaceChild(e, slot, c.edges[e].bs.value, false);
    var c1 := Clean(a1, Abort(a1, Removed(c, e, slot)));
    assert c1.refs == c.refs;
    SlotBack(c.nodes, slot, e);
    assert c1.nodes == c.nodes;
    var c2 := Abort(a2, c1);
    assert c2.edges == c.edges;
  }

  lemma SlotBack(nodes: map<NodeId, Node>, slot: Slot, e: EdgeId)
    requires SlotIn(nodes, slot) == Some(e)
    ensures PutSlotIn(PutSlotIn(nodes, slot, None), slot, Some(e)) == nodes && PutSlotIn(nodes, slot, Some(e)) == nodes
  {
    assert PutSlotIn(nodes, slot, Some(e)) == nodes;
  }

  lemma RemoveRecorded(c: Core, acts: seq<Action>, held: Held, e: EdgeId, slot: Slot)
    requires Undoable(acts, c) && Balanced(c, held, acts)
    requires e in c.edges && !c.edges[e].frozen && c.edges[e].bs.Some? && c.edges[e].bs.value in c.nodes
    requires c.edges[e].owner.Bds? ==> c.edges[e].owner.node in c.nodes
    requires !slot.Local? && slot.node in c.nodes && SlotIn(c.nodes, slot) == Some(e)
    ensures
      var c', acts' := Removed(c, e, slot), [RemoveChild(e, slot)] + ([ReplaceChild(e, slot, c.edges[e].bs.value, false)] + acts);
      Undoable(acts', c') && Balanced(c', held, acts') && Revert(acts', c') == Revert(acts, c)
  {
    var a1, a2 := RemoveChild(e, slot), ReplaceChild(e, slot, c.edges[e].bs.value, false);
    var c' := Removed(c, e, slot);
    RemoveUndone(c, e, slot);
    var c1 := Clean(a1, Abort(a1, c'));
    Record(a2, acts, c, c1);
    Record(a1, [a2] + acts, c1, c');
    ReplaceRecorded(c, acts, held, e, None, slot, false);
    BalancedRemove(Replaced(c, e, None, slot), held, e, slot, [a2] + acts);
  }

  lemma UnfrozenIndexed(g: Graph, e: EdgeId)
    requires Indexed(g) && e in g.edges
    ensures Indexed(g.(edges := g.edges[e := g.edges[e].(frozen := false)]))
  {
    var g' := g.(edges := g.edges[e := g.edges[e].(frozen := false)]);
    forall n | n in g'.nodes ensures ListsOk(g', n) {
      assert ListsOk(g, n);
      forall x ensures InParents(g', x, n) <==> InParents(g, x, n) {}
      forall x ensures InChildren(g', x, n) <==> InChildren(g, x, n) {}
    }
    forall x | x in g'.edges ensures EndsOk(g', x) { assert EndsOk(g, x); }
  }

  /** `e` was added between `parent` and `bs`, and otherwise only masks changed. */
  ghost predicate NewUser(es0: Edges, es: Edges, e: EdgeId, parent: NodeId, bs: NodeId) {
    && e !in es0 && es.Keys == es0.Keys + {e} && ArcBy(es, e, parent, bs)
    && forall x :: x in es0 ==> es[x] == es0[x].(perm := es[x].perm, shared := es[x].shared)
  }

  lemma AttachedNewUser(c: Core, e: EdgeId, child: Child, parent: NodeId, bs: NodeId, es': Edges)
    requires e !in c.edges && bs in c.refs && child.owner == Bds(parent)
    requires SameShape(Attached(c, e, child, bs, Local).edges, es')
    ensures NewUser(c.edges, es', e, parent, bs)
  {
  }

  lemma NothingElse(a: Perms, b: Perms)
    ensures a - b == {} <==> a <= b
  {
    forall x | x in a ensures x in b || x in a - b {}
  }

  lemma KeptSame(c: Core, c': Core)
    requires c'.nodes == c.nodes && SameShape(c.edges, c'.edges)
    ensures Kept(c, c')
  {
  }

  /** A closing node has one child edge less, and keeps the others. */
  lemma OwnedLess(g0: Graph, g1: Graph, g2: Graph, e: EdgeId, n: NodeId)
    requires g1.edges.Keys == g0.edges.Keys - {e} && Survives(g0, g1, n, Some(n)) && Survives(g0, g2, n, Some(n))
    requires g2.edges.Keys <= g1.edges.Keys
    requires forall x :: x in g1.edges && g1.edges[x].owner == Bds(n) ==> x in g2.edges
    ensures Owned(g2.edges, n) == Owned(g0.edges, n) - {e}
  {
    forall x ensures x in Owned(g2.edges, n) <==> x in Owned(g0.edges, n) - {e} {
      assert x in g1.edges ==> g1.edges[x].owner == g0.edges[x].owner;
      assert x in g2.edges ==> g2.edges[x].owner == g0.edges[x].owner;
    }
  }

  lemma BumpBack(refs: map<NodeId, int>, n: NodeId)
    requires n in refs
    ensures refs[n := refs[n] + 1][n := refs[n]] == refs
  {
  }

  lemma MoreRefs(refs: map<NodeId, int>, refs': map<NodeId, int>, n: NodeId, n2: NodeId)
    requires SameRefsBut2(refs, refs', n, n2) && (n in refs ==> refs[n] >= 1) && (n2 in refs ==> refs[n2] >= 1)
    ensures NoNewLeak(refs, refs')
  {
  }

  /** The two nodes may have gained references, and the others have what they had. */
  ghost predicate SameRefsBut2(refs: map<NodeId, int>, refs': map<NodeId, int>, n: NodeId, n2: NodeId) {
    && refs'.Keys == refs.Keys && (forall m :: m in refs && m != n && m != n2 ==> refs'[m] == refs[m])
    && (n in refs ==> refs'[n] >= refs[n]) && (n2 in refs ==> refs'[n2] >= refs[n2])
  }

  ghost function Emptied(es: Edges, e: EdgeId): Edges {
    if e in es then es[e := es[e].(bs := None)] else es
  }

  // ----- backing chains -------------------------------------------------------------------

  /** Where bdrv_filter_or_cow_child finds its edge (block.c:8014-8079). */
  function FilterOrCowSlot(n: NodeId, node: Node): Option<Slot> {
    if node.drv.None? then None
    else if node.backing.Some? then Some(Backing(n))
    else if node.drv.value.isFilter && node.file.Some? then Some(File(n))
    else None
  }

  function FilterOrCowBs(g: Graph, n: NodeId): Option<NodeId> {
    if n !in g.nodes || FilterOrCowSlot(n, g.nodes[n]).None? then None
    else
      var e := SlotIn(g.nodes, FilterOrCowSlot(n, g.nodes[n]).value);
      if e.Some? && e.value in g.edges then g.edges[e.value].bs else None
  }

  /** The next node of a chain: behind the backing slot, or for a filter without one behind its file slot. */
  lemma ChainLink(g: Graph, n: NodeId)
    requires n in g.nodes && g.nodes[n].drv.Some?
    ensures var node := g.nodes[n];
      FilterOrCowSlot(n, node) == if node.backing.Some? then Some(Backing(n)) else if node.drv.value.isFilter && node.file.Some? then Some(File(n)) else None
    ensures g.nodes[n].backing.Some? && g.nodes[n].backing.value in g.edges ==> FilterOrCowBs(g, n) == g.edges[g.nodes[n].backing.value].bs
  {
  }

  ghost predicate IsChain(g: Graph, chain: seq<NodeId>) {
    && |chain| > 0 && chain[0] in g.nodes
    && forall i :: 0 <= i < |chain| - 1 ==> FilterOrCowBs(g, chain[i]) == Some(chain[i + 1])
  }

  lemma FilterOrCowUses(g: Graph, n: NodeId)
    requires Indexed(g) && FilterOrCowBs(g, n).Some?
    ensures FilterOrCowBs(g, n).value in g.nodes && InDegree(g.edges, FilterOrCowBs(g, n).value) >= 1
  {
    var e := SlotIn(g.nodes, FilterOrCowSlot(n, g.nodes[n]).value).value;
    assert EndsOk(g, e);
    assert e in Into(g.edges, FilterOrCowBs(g, n).value);
  }

  /** The node's link down its chain exists and may be changed. */
  ghost predicate LinkOk(g: Graph, n: NodeId) {
    && n in g.nodes && FilterOrCowSlot(n, g.nodes[n]).Some?
    && SlotIn(g.nodes, FilterOrCowSlot(n, g.nodes[n]).value).Some?
    && SlotHolds(g, FilterOrCowSlot(n, g.nodes[n]).value, SlotIn(g.nodes, FilterOrCowSlot(n, g.nodes[n]).value).value)
  }

  /** The backing link of a node is an edge of that node that points somewhere. */
  ghost predicate BackingOk(g: Graph, n: NodeId)
    requires n in g.nodes && g.nodes[n].backing.Some?
  {
    var e := g.nodes[n].backing.value;
    e in g.edges && g.edges[e].owner == Bds(n) && g.edges[e].bs.Some?
  }

  /** The slot holds the link from some node of the chain to `to`. */
  ghost predicate LinkTo(g: Graph, chain: seq<NodeId>, to: NodeId, slot: Option<Slot>) {
    exists p :: p in chain && p in g.nodes && FilterOrCowBs(g, p) == Some(to) && slot == FilterOrCowSlot(p, g.nodes[p])
  }

  lemma RefUpDown(c: Core, n: NodeId)
    ensures RefAdd(RefAdd(c, n, 1), n, -1) == c
  {
    assert n in c.refs ==> RefAdd(RefAdd(c, n, 1), n, -1).refs == c.refs;
  }

  ghost function Owned(es: Edges, n: NodeId): set<EdgeId> {
    set e | e in es && OwnedBy(es, e, n)
  }

  lemma ElemsRest(s: seq<EdgeId>, i: nat)
    requires NoDup(s) && i < |s|
    ensures Elems(s[i + 1..]) == Elems(s[i..]) - {s[i]}
  {
    assert s[i..] == [s[i]] + s[i + 1..];
    assert s[i] !in s[i + 1..];
  }

  ghost predicate SameRefsBut(refs: map<NodeId, int>, refs': map<NodeId, int>, n: NodeId) {
    && refs'.Keys == refs.Keys && (forall m :: m in refs && m != n ==> refs'[m] == refs[m])
    && (n in refs ==> refs'[n] >= refs[n])
  }

  // ----- what bdrv_replace_node_noperm moves ------------------------------------------------

  /** The edge may be pointed at `to`: it need not stay and does not leave the subtree of `to`. */
  ghost predicate MayMove(es: Edges, e: EdgeId, to: NodeId)
    requires e in es
  {
    !es[e].stayAtNode && !(es[e].owner.Bds? && es[e].bs.Some? && Reach(es, to, es[e].owner.node))
  }

  ghost function MovedFirst(es: Edges, from: NodeId, to: NodeId, users: seq<EdgeId>): Edges {
    map e | e in es :: if e in users && es[e].bs == Some(from) && MayMove(es, e, to) then es[e].(bs := Some(to)) else es[e]
  }

  ghost function Moved(es: Edges, from: NodeId, to: NodeId): Edges {
    map e | e in es :: if es[e].bs == Some(from) && MayMove(es, e, to) then es[e].(bs := Some(to)) else es[e]
  }

  /** Every user of `from` can be moved, or may be skipped. */
  ghost predicate UsersMovable(es: Edges, from: NodeId, to: NodeId, autoSkip: bool) {
    forall e :: e in es && es[e].bs == Some(from) ==> MovesOn(es, e, to, autoSkip)
  }

  /** The edge can be moved to `to`, or may be skipped. */
  ghost predicate MovesOn(es: Edges, e: EdgeId, to: NodeId, autoSkip: bool)
    requires e in es
  {
    if MayMove(es, e, to) then !es[e].frozen else autoSkip
  }

  /** Exactly the users of `from` that need not stay move, but for edges of nodes below `to`; nothing else about them changes. */
  lemma MovedMeans(es: Edges, from: NodeId, to: NodeId, e: EdgeId)
    requires e in es
    ensures var es' := Moved(es, from, to);
      && es'.Keys == es.Keys && es'[e] == es[e].(bs := es'[e].bs)
      && es'[e].bs == if es[e].bs == Some(from) && !es[e].stayAtNode && (es[e].owner.Bds? ==> !Reach(es, to, es[e].owner.node)) then Some(to) else es[e].bs
  {
  }

  /** A user that has to move and is frozen stands in the way, and so does one that cannot move unless it may be skipped. */
  lemma MovableMeans(es: Edges, from: NodeId, to: NodeId, autoSkip: bool)
    requires from != to
    ensures UsersMovable(es, from, to, autoSkip) <==> forall e :: e in es && es[e].bs == Some(from) ==>
      if Moved(es, from, to)[e].bs == Some(to) then !es[e].frozen else autoSkip
  {
  }

  lemma AllMovable(es: Edges, from: NodeId, to: NodeId, users: seq<EdgeId>, autoSkip: bool)
    requires forall e :: e in users <==> e in es && es[e].bs == Some(from)
    requires forall j :: 0 <= j < |users| ==> users[j] in es && MovesOn(es, users[j], to, autoSkip)
    ensures UsersMovable(es, from, to, autoSkip)
  {
    forall e | e in es && es[e].bs == Some(from) ensures MovesOn(es, e, to, autoSkip) {
      assert e in users;
    }
  }

  ghost predicate SameReach(es: Edges, es': Edges, to: NodeId) {
    forall x :: Reach(es', to, x) <==> Reach(es, to, x)
  }

  /** The edge from the new top to the old one stays, so the old top is not deleted with the references of its users. */
  lemma AppendAnchored(es: Edges, bsNew: NodeId, bsTop: NodeId, e: EdgeId, acts: seq<Action>)
    requires e in es && es[e].owner == Bds(bsNew) && es[e].bs == Some(bsTop)
    requires OnlyMoves(es, bsTop, [AttachChild(e, Backing(bsNew))], acts)
    ensures AllAnchored(Moved(es, bsTop, bsNew), acts)
  {
    ReachSelf(es, bsNew);
    assert e in Into(Moved(es, bsTop, bsNew), bsTop);
  }

  lemma ShapeAnchored(es: Edges, es': Edges, acts: seq<Action>)
    requires SameShape(es, es') && AllAnchored(es, acts)
    ensures AllAnchored(es', acts)
  {
    forall n ensures Into(es', n) == Into(es, n) {}
  }

  /** The owner of an edge does not lie below its target. */
  lemma AboveTarget(g: Graph, e: EdgeId)
    requires Indexed(g) && Acyclic(g.edges) && e in g.edges && g.edges[e].bs.Some?
    ensures !Governed(g.nodes, g.edges, Below(g, g.edges[e].bs.value), e)
  {
    if g.edges[e].owner.Bds? {
      assert ArcBy(g.edges, e, g.edges[e].owner.node, g.edges[e].bs.value);
      ArcNotBack(g.edges, g.edges[e].owner.node, g.edges[e].bs.value);
    }
  }

  lemma ShapeBelow(g: Graph, g': Graph, n: NodeId)
    requires g'.nodes == g.nodes && SameShape(g.edges, g'.edges)
    ensures Below(g', n) == Below(g, n)
  {
    forall x ensures Reach(g'.edges, n, x) <==> Reach(g.edges, n, x) { ShapeReach(g.edges, g'.edges, n, x); }
  }

  /** The driver of every listed node will be told its new permissions. */
  ghost predicate AllTold(nodes: map<NodeId, Node>, list: seq<NodeId>, acts: seq<Action>) {
    forall n :: n in list && n in nodes && nodes[n].drv.Some? ==> DrvSetPerm(n) in acts
  }

  lemma ToldMore(nodes: map<NodeId, Node>, list: seq<NodeId>, i: nat, acts: seq<Action>, acts': seq<Action>)
    requires i < |list| && AllTold(nodes, list[..i], acts) && Grown(acts, acts')
    requires list[i] in nodes && nodes[list[i]].drv.Some? ==> DrvSetPerm(list[i]) in acts'
    ensures AllTold(nodes, list[..i + 1], acts')
  {
    assert list[..i + 1] == list[..i] + [list[i]];
  }

  /** Edges that point nowhere do not matter for the permissions. */
  lemma ConsistentKept(cp: ChildPermFn, check: (NodeId, Perms, Perms) -> bool, nodes: map<NodeId, Node>, es: Edges, es': Edges, n: NodeId)
    requires Consistent(cp, check, nodes, es, n)
    requires forall e :: e in es' ==> e in es && es'[e] == es[e]
    requires forall e :: e in es && es[e].bs.Some? ==> e in es'
    ensures Consistent(cp, check, nodes, es', n)
  {
    forall a, b ensures Arc(es', a, b) ==> Arc(es, a, b) {
      if e :| ArcBy(es', e, a, b) { assert ArcBy(es, e, a, b); }
    }
    forall m | m in nodes && Reach(es', n, m) ensures ChecksOk(check, nodes, es', m) && ChildrenOk(cp, nodes, es', m) {
      var p :| PathFromTo(es', p, n, m);
      assert PathFromTo(es, p, n, m);
      NoOtherUser(es, es', m);
      if m in nodes && nodes[m].drv.Some? {
        forall e | OwnedBy(es', e, m) ensures (es'[e].perm, es'[e].shared) == Wanted(cp, nodes, es', e) {
          assert OwnedBy(es, e, m);
        }
      }
    }
  }

  /** If committing has deleted no node, what the refresh has made consistent still is. */
  lemma SettlesConsistent(cp: ChildPermFn, check: (NodeId, Perms, Perms) -> bool, g: Graph, c: Core, n: NodeId)
    requires Indexed(g) && Settles(CoreOf(g), c) && Consistent(cp, check, g.nodes, g.edges, n)
    ensures c.nodes.Keys == g.nodes.Keys ==> Consistent(cp, check, c.nodes, c.edges, n)
  {
    if c.nodes.Keys == g.nodes.Keys {
      assert c.nodes == g.nodes;
      forall e | e in g.edges && g.edges[e].bs.Some? ensures e in c.edges {
        assert EndsOk(g, e) && OwnerIn(CoreOf(g), c, e);
      }
      ConsistentKept(cp, check, g.nodes, g.edges, c.edges, n);
    }
  }

  /** From `x`, the graph as planned, to `c`: as long as nothing has been deleted, the subtree of `n` is consistent. */
  ghost predicate Carried(cp: ChildPermFn, check: (NodeId, Perms, Perms) -> bool, x: Core, c: Core, n: NodeId) {
    Kept(x, c) && (c.nodes.Keys == x.nodes.Keys ==> Consistent(cp, check, c.nodes, c.edges, n))
  }

  lemma CarriedOn(cp: ChildPermFn, check: (NodeId, Perms, Perms) -> bool, x: Core, g: Graph, c: Core, n: NodeId)
    requires Indexed(g) && Carried(cp, check, x, CoreOf(g), n) && Settles(CoreOf(g), c)
    ensures Carried(cp, check, x, c, n)
  {
    KeptTrans(x, CoreOf(g), c);
    if c.nodes.Keys == x.nodes.Keys {
      assert g.nodes.Keys == x.nodes.Keys;
      SettlesConsistent(cp, check, g, c, n);
    }
  }

  lemma CarriedRefs(cp: ChildPermFn, check: (NodeId, Perms, Perms) -> bool, x: Core, x': Core, c: Core, n: NodeId)
    requires x'.nodes == x.nodes && x'.edges == x.edges && Carried(cp, check, x', c, n)
    ensures Carried(cp, check, x, c, n)
  {
    forall e | e in x.edges && x.edges[e].bs.Some? && OwnerIn(x, c, e) ensures e in c.edges {
      assert OwnerIn(x', c, e);
    }
  }

  /** One reference more. */
  ghost predicate Bumped(refs: map<NodeId, int>, refs': map<NodeId, int>, n: NodeId) {
    n in refs && refs' == refs[n := refs[n] + 1]
  }

  lemma AttachedCore(c: Core, e: EdgeId, child: Child, bs: NodeId)
    requires bs in c.refs
    ensures Attached(c, e, child, bs, Local).nodes == c.nodes && Attached(c, e, child, bs, Local).refs == c.refs[bs := c.refs[bs] + 1]
    ensures Bumped(c.refs, Attached(c, e, child, bs, Local).refs, bs)
  {
  }

  /** With the default function a filter passes everything on to its filtered child, and anything else only reads its backing child. */
  lemma BackingChildMeans(c: Core, parent: NodeId, bs: NodeId)
    requires parent in c.nodes && bs in c.nodes && c.nodes[parent].drv.Some?
    ensures var edge, up := NewChild(DefaultFn(c.nodes), c, parent, bs, BackingRole(c.nodes, parent)), CumPerm(c.edges, parent);
      && edge.owner == Bds(parent) && edge.bs == None && !edge.frozen && !edge.stayAtNode
      && !edge.role.data && !edge.role.metadata && (edge.role.filtered <==> !edge.role.cow)
      && (if c.nodes[parent].drv.value.isFilter then edge.role.filtered && edge.perm == up
          else edge.role.cow && edge.perm == if ConsistentRead in up then {ConsistentRead} else {})
      && (c.nodes[bs].forceShare ==> edge.shared == ALL_PERMS)
      && (!c.nodes[bs].forceShare && c.nodes[parent].drv.value.isFilter ==> edge.shared == CumShared(c.edges, parent))
      && (!c.nodes[bs].forceShare && !c.nodes[parent].drv.value.isFilter ==>
          {ConsistentRead, WriteUnchanged} <= edge.shared && (Write in edge.shared <==> Write in CumShared(c.edges, parent) || c.nodes[parent].inactive))
  {
    forall p: Perm ensures p in ALL_PERMS { PermInAll(p); }
    var up, sh := CumPerm(c.edges, parent), CumShared(c.edges, parent);
    assert up * ALL_PERMS == up && sh * ALL_PERMS == sh;
  }

  lemma NoOtherUser(es: Edges, es': Edges, m: NodeId)
    requires forall e :: e in es' ==> e in es && es'[e] == es[e]
    requires forall e :: e in es && es[e].bs.Some? ==> e in es'
    ensures CumPerm(es', m) == CumPerm(es, m) && CumShared(es', m) == CumShared(es, m) && (NoConflict(es, m) ==> NoConflict(es', m))
  {
    forall p ensures UsedBy(es', m, p) <==> UsedBy(es, m, p) {
      if e :| e in es && es[e].bs == Some(m) && p in es[e].perm { assert e in es'; }
    }
    forall p ensures SharedByAll(es', m, p) <==> SharedByAll(es, m, p) {
      if SharedByAll(es', m, p) {
        forall e | e in es && es[e].bs == Some(m) ensures p in es[e].shared { assert e in es'; }
      }
    }
  }

  lemma UsersOf(g: Graph, from: NodeId)
    requires Indexed(g) && from in g.nodes
    ensures NoDup(g.parents[from]) && forall e :: e in g.parents[from] <==> e in g.edges && g.edges[e].bs == Some(from)
  {
    assert ListsOk(g, from);
    forall e ensures e in g.parents[from] <==> e in g.edges && g.edges[e].bs == Some(from) {
      assert e in g.parents[from] <==> InParents(g, e, from);
    }
  }

  lemma MovedNone(es: Edges, from: NodeId, to: NodeId, users: seq<EdgeId>)
    ensures MovedFirst(es, from, to, users[..0]) == es
  {
  }

  lemma MovedStep(es: Edges, from: NodeId, to: NodeId, users: seq<EdgeId>, i: nat)
    requires NoDup(users) && i < |users| && users[i] in es && es[users[i]].bs == Some(from)
    ensures
      var e, part := users[i], MovedFirst(es, from, to, users[..i]);
      && part[e] == es[e]
      && MovedFirst(es, from, to, users[..i + 1]) == if MayMove(es, e, to) then part[e := es[e].(bs := Some(to))] else part
  {
    assert users[..i + 1] == users[..i] + [users[i]];
    assert users[i] !in users[..i];
  }

  lemma MovedAll(es: Edges, from: NodeId, to: NodeId, users: seq<EdgeId>)
    requires forall e :: e in es && es[e].bs == Some(from) ==> e in users
    ensures MovedFirst(es, from, to, users[..|users|]) == Moved(es, from, to)
  {
    assert users[..|users|] == users;
  }

  /** Pointing an edge of a node outside the subtree of `to` at `to` leaves that subtree alone. */
  lemma MoveKeepsSubtree(es: Edges, es': Edges, e: EdgeId, to: NodeId, x: NodeId)
    requires e in es && MayMove(es, e, to) && es[e].bs.Some? && es' == es[e := es[e].(bs := Some(to))]
    ensures Reach(es', to, x) <==> Reach(es, to, x)
  {
    OneEdgeArcs(es, es', e);
    if es[e].owner.Bds? {
      ReachAvoids(es, es', es[e].owner.node, to, x);
    } else {
      if p :| PathFromTo(es, p, to, x) { assert PathFromTo(es', p, to, x); }
      if p :| PathFromTo(es', p, to, x) { assert PathFromTo(es, p, to, x); }
    }
  }

  datatype Status = Ok | Err(code: ErrorCode)
  datatype ErrorCode = EPERM | EINVAL

  class Transaction {
    var actions: seq<Action>

    constructor ()
      ensures actions == []
    {
      actions := [];
    }

    /** tran_add: the newest action is first. */
    method Add(a: Action)
      modifies this
      ensures actions == [a] + old(actions)
    {
      actions := [a] + actions;
    }
  }

  /** All nodes and edges, as the global state that block.c reaches through pointers. */
  class Layer {
    const childPerm: ChildPermFn
    const checkPerm: (NodeId, Perms, Perms) -> bool // .bdrv_check_perm did not fail
    var g: Graph

    /** What is left of the graph when the order of the lists is forgotten. */
    ghost function C(): Core
      reads this
    {
      CoreOf(g)
    }

    // ----- elementary operations ----------------------------------------------------------

    /** bdrv_replace_child_noperm: the lists stay exact (block.c:2839-2917). */
    method ReplaceChildNoperm(e: EdgeId, newBs: Option<NodeId>)
      requires Indexed(g) && e in g.edges && !g.edges[e].frozen && g.edges[e].bs != newBs
      requires newBs.Some? ==> newBs.value in g.nodes && OwnerAlive(g, e)
      modifies this
      ensures Indexed(g) && C() == Retarget(old(C()), e, newBs)
    {
      if g.edges[e].bs.Some? {
        UnlinkedIndexed(g, e);
        g := Unlinked(g, e);
      }
      if newBs.Some? {
        LinkedIndexed(g, e, newBs.value);
        g := Linked(g, e, newBs.value);
      }
    }

    /** `*childp = v` */
    method SetSlot(slot: Slot, v: Option<EdgeId>)
      requires Indexed(g)
      modifies this
      ensures Indexed(g) && C() == PutSlot(old(C()), slot, v)
    {
      ghost var g0 := g;
      g := g.(nodes := PutSlotIn(g.nodes, slot, v));
      KeepLists(g0, g);
    }

    /** bdrv_ref (block.c:6902-6906). */
    method Ref(n: NodeId)
      requires Indexed(g) && n in g.nodes
      modifies this
      ensures Indexed(g) && C() == RefAdd(old(C()), n, 1)
    {
      ghost var g0 := g;
      g := g.(refs := g.refs[n := g.refs[n] + 1]);
      KeepLists(g0, g);
    }

    /** bdrv_unref of a reference that is not the last one (block.c:6911-6921). */
    method Drop(n: NodeId)
      requires Indexed(g) && n in g.nodes && g.refs[n] > 1
      modifies this
      ensures Indexed(g) && C() == RefAdd(old(C()), n, -1)
    {
      ghost var g0 := g;
      g := g.(refs := g.refs[n := g.refs[n] - 1]);
      KeepLists(g0, g);
    }

    /** Frees an edge that points nowhere (bdrv_child_free, block.c:2925-2933). */
    method FreeChild(e: EdgeId)
      requires Indexed(g) && e in g.edges && g.edges[e].bs.None?
      modifies this
      ensures Indexed(g) && C() == old(C()).(edges := old(g.edges) - {e})
    {
      ghost var g0 := g;
      g := g.(edges := g.edges - {e});
      forall n | n in g.nodes ensures ListsOk(g, n) {
        assert ListsOk(g0, n);
        forall x ensures InParents(g, x, n) <==> InParents(g0, x, n) {}
        forall x ensures InChildren(g, x, n) <==> InChildren(g0, x, n) {}
      }
      forall x | x in g.edges ensures EndsOk(g, x) { assert EndsOk(g0, x); }
    }

    // ----- permission updates -------------------------------------------------------------

    /** bdrv_child_set_perm (block.c:2270-2286). */
    method ChildSetPerm(e: EdgeId, perm: Perms, shared: Perms, tran: Transaction)
      requires Indexed(g) && e in g.edges && Undoable(tran.actions, C())
      modifies this, tran
      ensures Indexed(g) && C() == Repermit(old(C()), e, perm, shared)
      ensures Undoable(tran.actions, C()) && Revert(tran.actions, C()) == old(Revert(tran.actions, C()))
      ensures SameParked(old(tran.actions), tran.actions)
    {
      PermRecorded(C(), tran.actions, e, perm, shared);
      tran.Add(SetPerm(e, g.edges[e].perm, g.edges[e].shared));
      KeepShape(g, g.edges[e := g.edges[e].(perm := perm, shared := shared)]);
      g := g.(edges := g.edges[e := g.edges[e].(perm := perm, shared := shared)]);
    }

    /** The driver's function, with force-share taken into account (block.c:2196-2211). */
    function WantedPerm(bs: NodeId, e: EdgeId, perm: Perms, shared: Perms): (Perms, Perms)
      requires e in g.edges && g.edges[e].bs.Some?
      reads this
    {
      var r := childPerm(bs, Some(e), g.edges[e].role, perm, shared);
      var target := g.edges[e].bs.value;
      (r.0, if target in g.nodes && g.nodes[target].forceShare then ALL_PERMS else r.1)
    }

    /** bdrv_node_refresh_perm (block.c:2452-2521). */
    method NodeRefreshPerm(bs: NodeId, tran: Transaction) returns (st: Status)
      requires Indexed(g) && bs in g.nodes && Undoable(tran.actions, C())
      modifies this, tran
      ensures Indexed(g)
      ensures Undoable(tran.actions, C()) && Revert(tran.actions, C()) == old(Revert(tran.actions, C()))
      ensures SameParked(old(tran.actions), tran.actions)
      ensures st.Ok? <==> old(RwOk(g.nodes, g.edges, bs) && AlignOk(g.nodes, g.edges, bs)
                              && DriverOk(checkPerm, g.nodes, g.edges, bs))
      ensures C() == old(C()).(edges := if st.Ok? then old(RefreshNode(childPerm, g.nodes, g.edges, bs)) else old(g.edges))
      ensures st.Ok? && g.nodes[bs].drv.Some? ==> DrvSetPerm(bs) in tran.actions
    {
      var perm, shared := GetCumulativePerm(g, bs);
      var node := g.nodes[bs];
      if (Write in perm || WriteUnchanged in perm) && !Writable(node) {
        return Err(EPERM);
      }
      if (Write in perm || WriteUnchanged in perm) && Resize !in perm && !node.sizeAligned {
        return Err(EPERM);
      }
      if node.drv.None? {
        return Ok;
      }
      if !checkPerm(bs, perm, shared) {
        return Err(EPERM);
      }
      Record(DrvSetPerm(bs), tran.actions, C(), C());
      ParkedRecord(DrvSetPerm(bs), tran.actions);
      tran.Add(DrvSetPerm(bs));
      RefreshChildren(bs, perm, shared, tran);
      st := Ok;
    }

    /** The loop over the children (block.c:2510-2518). */
    method RefreshChildren(bs: NodeId, perm: Perms, shared: Perms, tran: Transaction)
      requires Indexed(g) && bs in g.nodes && g.nodes[bs].drv.Some? && Undoable(tran.actions, C())
      requires perm == CumPerm(g.edges, bs) && shared == CumShared(g.edges, bs)
      modifies this, tran
      ensures Indexed(g)
      ensures Undoable(tran.actions, C()) && Revert(tran.actions, C()) == old(Revert(tran.actions, C()))
      ensures SameParked(old(tran.actions), tran.actions)
      ensures C() == old(C()).(edges := old(RefreshNode(childPerm, g.nodes, g.edges, bs)))
    {
      ghost var es := g.edges;
      var kids := g.children[bs];
      assert ListsOk(g, bs);
      forall e ensures e in kids <==> OwnedBy(es, e, bs) { assert e in kids <==> InChildren(g, e, bs); }
      PartNone(childPerm, g.nodes, es, bs, kids);
      for i := 0 to |kids|
        invariant Indexed(g) && C() == old(C()).(edges := PartRefreshed(childPerm, g.nodes, es, bs, kids[..i]))
        invariant Undoable(tran.actions, C()) && Revert(tran.actions, C()) == old(Revert(tran.actions, C()))
        invariant SameParked(old(tran.actions), tran.actions)
      {
        var e := kids[i];
        assert e in kids;
        PartStep(childPerm, g.nodes, es, bs, kids, i);
        var (p, s) := WantedPerm(bs, e, perm, shared);
        ChildSetPerm(e, p, s, tran);
      }
      PartAll(childPerm, g.nodes, es, bs, kids);
    }

    /**
     * bdrv_list_refresh_perms: succeeds exactly when the only consistent assignment passes the
     * checks at every listed node, and then leaves that assignment (block.c:2523-2544).
     */
    method ListRefreshPerms(list: seq<NodeId>, tran: Transaction) returns (st: Status)
      requires Indexed(g) && Acyclic(g.edges) && TopoList(g, list) && Undoable(tran.actions, C())
      modifies this, tran
      ensures Indexed(g) && Acyclic(g.edges) && SameShape(old(g.edges), g.edges)
      ensures Undoable(tran.actions, C()) && Revert(tran.actions, C()) == old(Revert(tran.actions, C()))
      ensures SameParked(old(tran.actions), tran.actions)
      ensures C() == old(C()).(edges := g.edges)
      ensures
        var r := old(RefreshAll(childPerm, g.nodes, g.edges, list));
        && (st.Ok? <==> forall n :: n in list ==> ChecksOk(checkPerm, g.nodes, r, n))
        && (st.Ok? ==> g.edges == r)
      ensures st.Ok? ==> AllTold(g.nodes, list, tran.actions)
    {
      ghost var g0 := g;
      st := Ok;
      for i := 0 to |list|
        invariant st.Ok? && Indexed(g)
        invariant C() == old(C()).(edges := RefreshUpTo(childPerm, g0.nodes, g0.edges, list, i))
        invariant Undoable(tran.actions, C()) && Revert(tran.actions, C()) == old(Revert(tran.actions, C()))
        invariant SameParked(old(tran.actions), tran.actions)
        invariant forall j :: 0 <= j < i ==>
          ChecksOk(checkPerm, g0.nodes, RefreshAll(childPerm, g0.nodes, g0.edges, list), list[j])
        invariant AllTold(g0.nodes, list[..i], tran.actions)
      {
        st := RefreshListed(list, i, g0, tran);
        KeepShape(g0, g.edges);
        if st.Err? {
          return;
        }
      }
      assert list[..|list|] == list;
      RefreshShape(childPerm, g0.nodes, g0.edges, list, |list|);
      KeepShape(g0, g.edges);
      forall n | n in list
        ensures ChecksOk(checkPerm, g0.nodes, RefreshAll(childPerm, g0.nodes, g0.edges, list), n) {
        var j :| 0 <= j < |list| && list[j] == n;
      }
    }

    /** One turn of that loop: the node's checks decide, and they say the same as on the final masks. */
    method RefreshListed(list: seq<NodeId>, i: nat, ghost g0: Graph, tran: Transaction) returns (st: Status)
      requires Indexed(g0) && Acyclic(g0.edges) && TopoList(g0, list) && i < |list| && Indexed(g)
      requires C() == CoreOf(g0).(edges := RefreshUpTo(childPerm, g0.nodes, g0.edges, list, i)) && Undoable(tran.actions, C())
      modifies this, tran
      ensures Indexed(g) && Undoable(tran.actions, C()) && Revert(tran.actions, C()) == old(Revert(tran.actions, C()))
      ensures SameParked(old(tran.actions), tran.actions) && SameShape(g0.edges, g.edges) && C() == CoreOf(g0).(edges := g.edges)
      ensures st.Ok? <==> ChecksOk(checkPerm, g0.nodes, RefreshAll(childPerm, g0.nodes, g0.edges, list), list[i])
      ensures st.Ok? ==> g.edges == RefreshUpTo(childPerm, g0.nodes, g0.edges, list, i + 1)
      ensures st.Ok? && AllTold(g0.nodes, list[..i], old(tran.actions)) ==> AllTold(g0.nodes, list[..i + 1], tran.actions)
    {
      var bs := list[i];
      assert bs in list;
      ListedInNodes(g0, list, i);
      ChecksStable(childPerm, checkPerm, g0, list, i);
      RefreshShape(childPerm, g0.nodes, g0.edges, list, i);
      KeepShape(g0, g.edges);
      var conflict := ParentPermsConflict(g, bs);
      if conflict {
        return Err(EINVAL);
      }
      st := NodeRefreshPerm(bs, tran);
      RefreshShape(childPerm, g0.nodes, g0.edges, list, i + 1);
      if st.Ok? && AllTold(g0.nodes, list[..i], old(tran.actions)) {
        ToldMore(g0.nodes, list, i, old(tran.actions), tran.actions);
      }
    }

    // ----- tran_abort ---------------------------------------------------------------------

    /** bdrv_replace_child_abort (block.c:2357-2392). */
    method AbortReplaceChild(a: Action)
      requires a.ReplaceChild? && Indexed(g) && CanAbort(a, C())
      requires KeepsLastRef(C(), Abort(a, C()))
      modifies this
      ensures Indexed(g) && C() == Abort(a, old(C()))
    {
      var newBs := g.edges[a.child].bs;
      ReplaceChildNoperm(a.child, Some(a.oldBs));
      if newBs.None? {
        SetSlot(a.slot, Some(a.child));
      } else {
        Drop(newBs.value);
      }
    }

    /** bdrv_attach_child_common_abort (block.c:2941-2977). */
    method AbortAttachChild(a: Action)
      requires a.AttachChild? && Indexed(g) && CanAbort(a, C())
      requires KeepsLastRef(C(), Abort(a, C()))
      modifies this
      ensures Indexed(g) && C() == Abort(a, old(C()))
    {
      var bs := g.edges[a.child].bs.value;
      AbortAttachSteps(C(), a);
      ReplaceChildNoperm(a.child, None);
      SetSlot(a.slot, None);
      Drop(bs);
      FreeChild(a.child);
    }

    /** The .abort callback of one action. */
    method AbortOne(a: Action)
      requires Indexed(g) && CanAbort(a, C())
      requires KeepsLastRef(C(), Abort(a, C()))
      modifies this
      ensures Indexed(g) && C() == Abort(a, old(C()))
    {
      match a
      case SetPerm(e, p, s) =>
        KeepShape(g, g.edges[e := g.edges[e].(perm := p, shared := s)]);
        g := g.(edges := g.edges[e := g.edges[e].(perm := p, shared := s)]);
      case DrvSetPerm(_) =>
      case ReplaceChild(_, _, _, _) => AbortReplaceChild(a);
      case AttachChild(_, _) => AbortAttachChild(a);
      case RemoveChild(e, slot) => SetSlot(slot, Some(e)); // block.c:5081-5098
    }

    /** All .abort callbacks, newest first. */
    method AbortPass(acts: seq<Action>)
      requires Indexed(g) && Undoable(acts, C()) && RefsLeft(acts, C())
      modifies this
      ensures Indexed(g) && C() == AbortAll(acts, old(C())) && KeepsLastRef(old(C()), C())
    {
      ghost var c0 := C();
      assert acts[0..] == acts;
      for i := 0 to |acts|
        invariant Indexed(g) && KeepsLastRef(c0, C())
        invariant Undoable(acts[i..], C()) && AbortAll(acts[i..], C()) == AbortAll(acts, c0)
      {
        assert acts[i..][1..] == acts[i + 1..];
        AbortKeepsLastRef(acts, c0, i, C());
        AbortOne(acts[i]);
      }
    }

    /** tran_abort: all .abort callbacks, newest first, then all .clean callbacks. */
    method TranAbort(tran: Transaction)
      requires Indexed(g) && Undoable(tran.actions, C()) && RefsLeft(tran.actions, C())
      modifies this
      ensures Indexed(g) && C() == old(Revert(tran.actions, C()))
    {
      ghost var c0 := C();
      var acts := tran.actions;
      AbortPass(acts);
      assert acts[0..] == acts;
      for i := 0 to |acts|
        invariant Indexed(g) && KeepsLastRef(c0, C()) && CleanAll(acts[i..], C()) == Revert(acts, c0)
      {
        assert acts[i..][1..] == acts[i + 1..];
        CleanKeepsLastRef(acts, c0, i, C());
        if acts[i].RemoveChild? && !acts[i].slot.Local? && acts[i].slot.node in g.nodes {
          Drop(acts[i].slot.node); // block.c:5107-5114
        }
      }
    }

    // ----- refreshing a subtree -----------------------------------------------------------

    /**
     * bdrv_refresh_perms: all or nothing (block.c:2593-2604).  Committing the transaction only
     * tells the drivers about it.
     */
    method RefreshPerms(bs: NodeId) returns (st: Status)
      requires Indexed(g) && Acyclic(g.edges) && bs in g.nodes
      modifies this
      ensures Indexed(g) && Acyclic(g.edges) && SameShape(old(g.edges), g.edges)
      ensures C() == old(C()).(edges := g.edges)
      ensures st.Ok? <==> RefreshableAt(old(C()), bs)
      ensures st.Ok? ==> Assignment(childPerm, g.nodes, old(g.edges), old(Below(g, bs)), g.edges)
      ensures st.Ok? ==> Consistent(childPerm, checkPerm, g.nodes, g.edges, bs)
      ensures st.Err? ==> g.edges == old(g.edges)
    {
      ghost var g0 := g;
      var tran := new Transaction();
      var list, _ := TopologicalDfs(g, [], {}, bs);
      assert Elems(list) == Below(g, bs);
      RefreshOutcome(childPerm, checkPerm, g, list, bs);
      st := ListRefreshPerms(list, tran);
      if st.Err? {
        TranAbort(tran);
      }
    }

    /** The subtree of `n` can be given consistent masks that pass every check. */
    /** What a refresh below `n` leaves when its failure is ignored: the consistent masks if there are any, and the old ones otherwise. */
    ghost predicate TriedRefresh(c: Core, es: Edges, n: NodeId) {
      if RefreshableAt(c, n)
      then Assignment(childPerm, c.nodes, c.edges, Subtree(c.nodes, c.edges, n), es) && Consistent(childPerm, checkPerm, c.nodes, es, n)
      else es == c.edges
    }

    ghost predicate RefreshableAt(c: Core, n: NodeId) {
      Refreshable(childPerm, checkPerm, c.nodes, c.edges, Subtree(c.nodes, c.edges, n))
    }

    /** bdrv_child_try_set_perm: an attempt to loosen never reports failure (block.c:2606-2638). */
    method ChildTrySetPerm(e: EdgeId, perm: Perms, shared: Perms) returns (st: Status, ghost applied: bool)
      requires Indexed(g) && Acyclic(g.edges)
      requires e in g.edges && g.edges[e].bs.Some?
      modifies this
      ensures Indexed(g) && Acyclic(g.edges) && SameShape(old(g.edges), g.edges)
      ensures C() == old(C()).(edges := g.edges)
      ensures applied <==> RefreshableAt(Repermit(old(C()), e, perm, shared), old(g.edges)[e].bs.value)
      ensures applied ==> Consistent(childPerm, checkPerm, g.nodes, g.edges, old(g.edges)[e].bs.value)
      ensures applied ==> g.edges[e].perm == perm && g.edges[e].shared == shared
      ensures applied ==> Assignment(childPerm, g.nodes, Repermit(old(C()), e, perm, shared).edges, old(Below(g, g.edges[e].bs.value)), g.edges)
      ensures !applied ==> g.edges == old(g.edges)
      ensures st.Err? <==> !applied && !Looser((perm, shared), (old(g.edges)[e].perm, old(g.edges)[e].shared))
    {
      st := SetPermOrRollBack(e, perm, shared);
      applied := st.Ok?;
      if st.Err? {
        NothingElse(perm, g.edges[e].perm);
        NothingElse(g.edges[e].shared, shared);
        if perm - g.edges[e].perm == {} && g.edges[e].shared - shared == {} {
          st := Ok;
        }
      }
    }

    /** Set the masks of one edge and refresh everything below it, or neither. */
    method SetPermOrRollBack(e: EdgeId, perm: Perms, shared: Perms) returns (st: Status)
      requires Indexed(g) && Acyclic(g.edges)
      requires e in g.edges && g.edges[e].bs.Some?
      modifies this
      ensures Indexed(g) && Acyclic(g.edges) && SameShape(old(g.edges), g.edges)
      ensures C() == old(C()).(edges := g.edges)
      ensures st.Ok? <==> RefreshableAt(Repermit(old(C()), e, perm, shared), old(g.edges)[e].bs.value)
      ensures st.Ok? ==> Consistent(childPerm, checkPerm, g.nodes, g.edges, old(g.edges)[e].bs.value)
      ensures st.Ok? ==> g.edges[e].perm == perm && g.edges[e].shared == shared
      ensures st.Ok? ==> Assignment(childPerm, g.nodes, Repermit(old(C()), e, perm, shared).edges, old(Below(g, g.edges[e].bs.value)), g.edges)
      ensures st.Err? ==> g.edges == old(g.edges)
    {
      var tran := new Transaction();
      assert EndsOk(g, e);
      ChildSetPerm(e, perm, shared, tran);
      KeepShape(Graph(old(g.nodes), old(g.edges), old(g.refs), old(g.parents), old(g.children)), g.edges);
      ghost var g1 := g;
      AboveTarget(g1, e);
      ShapeBelow(old(g), g1, g1.edges[e].bs.value);
      st := RefreshPerms(g.edges[e].bs.value);
      if st.Err? {
        TranAbort(tran);
      }
    }

    // ----- attaching ----------------------------------------------------------------------

    /** The transaction can be rolled back, and all references are accounted for. */
    ghost predicate TranOk(tran: Transaction, held: Held)
      reads this, tran
    {
      Undoable(tran.actions, C()) && Balanced(C(), held, tran.actions)
    }

    method AddEdge(e: EdgeId, c: Child)
      requires Indexed(g) && e !in g.edges && c.bs.None? && (c.owner.Bds? ==> c.owner.node in g.nodes)
      modifies this
      ensures Indexed(g) && C() == old(C()).(edges := old(g.edges)[e := c])
    {
      NewEdgeIndexed(g, e, c);
      g := g.(edges := g.edges[e := c]);
    }

    /** The new edge, its reference, its lists and the pointer to it. */
    method InsertEdge(e: EdgeId, c: Child, bs: NodeId, slot: Slot)
      requires Indexed(g) && e !in g.edges && bs in g.nodes
      requires c.bs.None? && !c.frozen && (c.owner.Bds? ==> c.owner.node in g.nodes)
      modifies this
      ensures Indexed(g) && C() == Attached(old(C()), e, c, bs, slot)
    {
      AttachedSteps(C(), e, c, bs, slot);
      AddEdge(e, c);
      Ref(bs);
      ReplaceChildNoperm(e, Some(bs));
      SetSlot(slot, Some(e));
    }

    /** bdrv_attach_child_common for a parent in the AioContext of `bs` (block.c:2995-3070). */
    method AttachChildCommon(e: EdgeId, c: Child, bs: NodeId, slot: Slot, tran: Transaction, ghost held: Held)
      requires Indexed(g) && TranOk(tran, held) && e !in g.edges && bs in g.nodes
      requires c.bs.None? && !c.frozen && (c.owner.Bds? ==> c.owner.node in g.nodes)
      requires SlotIn(g.nodes, slot) == None && (slot.Local? || slot.node in g.nodes)
      modifies this, tran
      ensures Indexed(g) && TranOk(tran, held) && Revert(tran.actions, C()) == old(Revert(tran.actions, C()))
      ensures C() == Attached(old(C()), e, c, bs, slot) && tran.actions == [AttachChild(e, slot)] + old(tran.actions)
    {
      AttachRecorded(C(), tran.actions, held, e, c, bs, slot);
      InsertEdge(e, c, bs, slot);
      tran.Add(AttachChild(e, slot));
    }

    /**
     * bdrv_attach_child_noperm refuses exactly the edges that would close a cycle, and otherwise
     * keeps the graph acyclic (block.c:3078-3111).
     */
    method AttachChildNoperm(parent: NodeId, bs: NodeId, role: Role, e: EdgeId, slot: Slot, tran: Transaction,
                             ghost held: Held) returns (st: Status)
      requires Indexed(g) && Acyclic(g.edges) && TranOk(tran, held) && e !in g.edges && bs in g.nodes
      requires parent in g.nodes && SlotIn(g.nodes, slot) == None && (slot.Local? || slot.node in g.nodes)
      modifies this, tran
      ensures Indexed(g) && Acyclic(g.edges)
      ensures TranOk(tran, held) && Revert(tran.actions, C()) == old(Revert(tran.actions, C()))
      ensures st == if Reach(old(g.edges), bs, parent) then Err(EINVAL) else Ok
      ensures C() == if st.Ok? then Attached(old(C()), e, NewChild(childPerm, old(C()), parent, bs, role), bs, slot) else old(C())
      ensures tran.actions == if st.Ok? then [AttachChild(e, slot)] + old(tran.actions) else old(tran.actions)
    {
      if RecurseHasChild(g, bs, parent) {
        return Err(EINVAL);
      }
      var perm, shared := GetCumulativePerm(g, parent);
      var r := childPerm(parent, None, role, perm, shared);
      var child := Child(None, Bds(parent), role, r.0, if g.nodes[bs].forceShare then ALL_PERMS else r.1, false, false);
      ghost var es := g.edges;
      AttachChildCommon(e, child, bs, slot, tran, held);
      OneEdgeAcyclic(es, g.edges, e);
      st := Ok;
    }

    // ----- moving edges -------------------------------------------------------------------

    /** bdrv_replace_child_tran (block.c:2419-2446); `slot` is cleared when the edge is emptied. */
    method ReplaceChildTran(e: EdgeId, newBs: Option<NodeId>, slot: Slot, free: bool, tran: Transaction, ghost held: Held)
      requires Indexed(g) && TranOk(tran, held) && e in g.edges && !g.edges[e].frozen
      requires g.edges[e].bs.Some? && g.edges[e].bs != newBs && (newBs.Some? ==> newBs.value in g.nodes)
      requires newBs.None? ==> !slot.Local? && slot.node in g.nodes && SlotIn(g.nodes, slot) == Some(e)
      modifies this, tran
      ensures Indexed(g) && TranOk(tran, held) && Revert(tran.actions, C()) == old(Revert(tran.actions, C()))
      ensures C() == Replaced(old(C()), e, newBs, slot)
      ensures tran.actions == [ReplaceChild(e, slot, old(g.edges)[e].bs.value, free)] + old(tran.actions)
    {
      assert EndsOk(g, e);
      ReplaceRecorded(C(), tran.actions, held, e, newBs, slot, free);
      tran.Add(ReplaceChild(e, slot, g.edges[e].bs.value, free));
      if newBs.Some? {
        Ref(newBs.value);
      }
      ReplaceChildNoperm(e, newBs);
      if newBs.None? {
        SetSlot(slot, None);
      }
    }

    /** One round of bdrv_replace_node_noperm. */
    method MoveUser(e: EdgeId, to: NodeId, autoSkip: bool, tran: Transaction, ghost held: Held) returns (st: Status)
      requires Indexed(g) && Acyclic(g.edges) && TranOk(tran, held)
      requires e in g.edges && g.edges[e].bs.Some? && g.edges[e].bs != Some(to) && to in g.nodes
      modifies this, tran
      ensures Indexed(g) && Acyclic(g.edges) && g.nodes == old(g.nodes) && SameRefsBut(old(g.refs), g.refs, to)
      ensures TranOk(tran, held) && Revert(tran.actions, C()) == old(Revert(tran.actions, C()))
      ensures st == if !MayMove(old(g.edges), e, to) then (if autoSkip then Ok else Err(EINVAL))
                    else if old(g.edges)[e].frozen then Err(EPERM) else Ok
      ensures g.edges == if MayMove(old(g.edges), e, to) && !old(g.edges)[e].frozen
                         then old(g.edges)[e := old(g.edges)[e].(bs := Some(to))] else old(g.edges)
      ensures tran.actions == old(tran.actions) || tran.actions == [ReplaceChild(e, Local, old(g.edges)[e].bs.value, true)] + old(tran.actions)
      ensures forall x :: Reach(g.edges, to, x) <==> Reach(old(g.edges), to, x)
    {
      var move := ShouldUpdateChild(g, e, to);
      if !move {
        return if autoSkip then Ok else Err(EINVAL);
      }
      if g.edges[e].frozen {
        return Err(EPERM);
      }
      ghost var es := g.edges;
      ReplaceChildTran(e, Some(to), Local, true, tran, held);
      OneEdgeAcyclic(es, g.edges, e);
      forall x ensures Reach(g.edges, to, x) <==> Reach(es, to, x) { MoveKeepsSubtree(es, g.edges, e, to, x); }
      st := Ok;
    }

    /**
     * bdrv_replace_node_noperm (block.c:5178-5212).  Although every edge is tested on the graph
     * as changed so far, what moves is decided by the graph before the call: all users of `from`
     * except those that must stay and those inside the subtree of `to`.
     */
    method ReplaceNodeNoperm(from: NodeId, to: NodeId, autoSkip: bool, tran: Transaction, ghost held: Held)
      returns (st: Status)
      requires Indexed(g) && Acyclic(g.edges) && TranOk(tran, held)
      requires from in g.nodes && to in g.nodes && from != to
      modifies this, tran
      ensures Indexed(g) && Acyclic(g.edges) && g.nodes == old(g.nodes) && SameRefsBut(old(g.refs), g.refs, to)
      ensures TranOk(tran, held) && Revert(tran.actions, C()) == old(Revert(tran.actions, C()))
      ensures OnlyMoves(old(g.edges), from, old(tran.actions), tran.actions)
      ensures st.Ok? ==> g.edges == Moved(old(g.edges), from, to)
      ensures st.Ok? <==> UsersMovable(old(g.edges), from, to, autoSkip)
    {
      UsersOf(g, from);
      st := MoveAll(from, to, g.parents[from], autoSkip, tran, held);
    }

    /** Its loop over the users. */
    method MoveAll(from: NodeId, to: NodeId, users: seq<EdgeId>, autoSkip: bool, tran: Transaction, ghost held: Held)
      returns (st: Status)
      requires Indexed(g) && Acyclic(g.edges) && TranOk(tran, held) && to in g.nodes && from != to
      requires NoDup(users) && forall e :: e in users <==> e in g.edges && g.edges[e].bs == Some(from)
      modifies this, tran
      ensures Indexed(g) && Acyclic(g.edges) && g.nodes == old(g.nodes) && SameRefsBut(old(g.refs), g.refs, to)
      ensures TranOk(tran, held) && Revert(tran.actions, C()) == old(Revert(tran.actions, C()))
      ensures OnlyMoves(old(g.edges), from, old(tran.actions), tran.actions)
      ensures st.Ok? ==> g.edges == Moved(old(g.edges), from, to)
      ensures st.Ok? <==> UsersMovable(old(g.edges), from, to, autoSkip)
    {
      ghost var g0 := g;
      MovedNone(g0.edges, from, to, users);
      st := Ok;
      for i := 0 to |users|
        invariant st.Ok? && Indexed(g) && Acyclic(g.edges) && g.nodes == g0.nodes && SameRefsBut(g0.refs, g.refs, to)
        invariant TranOk(tran, held) && Revert(tran.actions, C()) == old(Revert(tran.actions, C()))
        invariant OnlyMoves(g0.edges, from, old(tran.actions), tran.actions)
        invariant g.edges == MovedFirst(g0.edges, from, to, users[..i]) && SameReach(g0.edges, g.edges, to)
        invariant forall j :: 0 <= j < i ==> users[j] in g0.edges && MovesOn(g0.edges, users[j], to, autoSkip)
      {
        assert users[i] in users;
        st := MoveNext(g0, from, to, users, i, autoSkip, tran, held);
        if st.Err? {
          return;
        }
      }
      MovedAll(g0.edges, from, to, users);
      AllMovable(g0.edges, from, to, users, autoSkip);
    }

    /** The round for the user with index `i`; `g0` is the graph before the first. */
    method MoveNext(ghost g0: Graph, from: NodeId, to: NodeId, users: seq<EdgeId>, i: nat, autoSkip: bool, tran: Transaction,
                    ghost held: Held) returns (st: Status)
      requires Indexed(g) && Acyclic(g.edges) && TranOk(tran, held) && to in g.nodes && from != to && NoDup(users) && i < |users|
      requires forall e :: e in users ==> e in g0.edges && g0.edges[e].bs == Some(from)
      requires g.edges == MovedFirst(g0.edges, from, to, users[..i]) && SameReach(g0.edges, g.edges, to)
      modifies this, tran
      ensures Indexed(g) && Acyclic(g.edges) && g.nodes == old(g.nodes) && SameRefsBut(old(g.refs), g.refs, to)
      ensures TranOk(tran, held) && Revert(tran.actions, C()) == old(Revert(tran.actions, C()))
      ensures OnlyMoves(g0.edges, from, old(tran.actions), tran.actions)
      ensures st.Ok? <==> MovesOn(g0.edges, users[i], to, autoSkip)
      ensures st.Ok? ==> g.edges == MovedFirst(g0.edges, from, to, users[..i + 1]) && SameReach(g0.edges, g.edges, to)
    {
      MovedStep(g0.edges, from, to, users, i);
      st := MoveUser(users[i], to, autoSkip, tran, held);
    }

    /**
     * bdrv_remove_file_or_backing_child (block.c:5126-5165): empties the edge that `slot` holds
     * and keeps a reference to its node until the transaction is over.
     */
    method RemoveFileOrBackingChild(slot: Slot, tran: Transaction, ghost held: Held)
      requires Indexed(g) && TranOk(tran, held) && !slot.Local? && slot.node in g.nodes
      requires SlotIn(g.nodes, slot).Some? && SlotHolds(g, slot, SlotIn(g.nodes, slot).value)
      modifies this, tran
      ensures Indexed(g) && TranOk(tran, held) && Revert(tran.actions, C()) == old(Revert(tran.actions, C()))
      ensures C() == Removed(old(C()), old(SlotIn(g.nodes, slot)).value, slot)
      ensures RemoveChild(old(SlotIn(g.nodes, slot)).value, slot) in tran.actions && Grown(old(tran.actions), tran.actions)
    {
      var e := SlotIn(g.nodes, slot).value;
      assert EndsOk(g, e);
      RemoveRecorded(C(), tran.actions, held, e, slot);
      ReplaceChildTran(e, None, slot, false, tran, held);
      Ref(slot.node);
      tran.Add(RemoveChild(e, slot));
    }

    // ----- references ---------------------------------------------------------------------

    /** bdrv_detach_child (block.c:3113-3134); its reference is left to the caller. */
    method DetachChild(e: EdgeId, ghost held: Held, ghost acts: seq<Action>) returns (bs: NodeId)
      requires Indexed(g) && Acyclic(g.edges) && Balanced(C(), held, acts)
      requires e in g.edges && g.edges[e].bs.Some? && !g.edges[e].frozen
      modifies this
      ensures old(g.edges)[e].bs == Some(bs) && bs in g.nodes
      ensures Indexed(g) && Acyclic(g.edges) && Balanced(C(), Hold(held, bs), acts)
      ensures g.nodes == old(g.nodes) && g.refs == old(g.refs) && SameShape(old(g.edges) - {e}, g.edges)
      ensures TriedRefresh(old(C()).(edges := old(g.edges) - {e}), g.edges, bs)
    {
      assert EndsOk(g, e);
      bs := g.edges[e].bs.value;
      ghost var g0 := g;
      ReplaceChildNoperm(e, None);
      FreeChild(e);
      assert g.edges == g0.edges - {e};
      OneEdgeAcyclic(g0.edges, g.edges, e);
      BalancedDetach(CoreOf(g0), C(), held, e, bs, acts);
      ghost var c1 := C();
      var _ := RefreshPerms(bs);
      BalancedPerms(c1, C(), Hold(held, bs), acts, acts);
    }

    /** A closing driver unfreezes its children (block.c:4931-4937). */
    method Unfreeze(e: EdgeId)
      requires Indexed(g) && e in g.edges
      modifies this
      ensures Indexed(g) && C() == old(C()).(edges := old(g.edges)[e := old(g.edges)[e].(frozen := false)])
    {
      UnfrozenIndexed(g, e);
      g := g.(edges := g.edges[e := g.edges[e].(frozen := false)]);
    }

    /** The same for one child of a closing node, whatever its driver had frozen. */
    method CloseEdge(e: EdgeId, ghost held: Held, ghost acts: seq<Action>) returns (bs: NodeId)
      requires Indexed(g) && Acyclic(g.edges) && Balanced(C(), held, acts) && e in g.edges && g.edges[e].bs.Some?
      modifies this
      ensures old(g.edges)[e].bs == Some(bs) && bs in g.nodes
      ensures Indexed(g) && Acyclic(g.edges) && Balanced(C(), Hold(held, bs), acts)
      ensures g.nodes == old(g.nodes) && g.refs == old(g.refs) && SameShape(old(g.edges) - {e}, g.edges)
      ensures TriedRefresh(old(C()).(edges := old(g.edges) - {e}), g.edges, bs)
    {
      ghost var g0 := g;
      Unfreeze(e);
      OneEdgeArcs(g0.edges, g.edges, e);
      forall a, b ensures Arc(g.edges, a, b) ==> Arc(g0.edges, a, b) {
        if ArcBy(g.edges, e, a, b) { assert ArcBy(g0.edges, e, a, b); }
      }
      FewerArcsAcyclic(g0.edges, g.edges);
      BalancedPerms(CoreOf(g0), C(), held, acts, acts);
      assert g.edges - {e} == g0.edges - {e};
      bs := DetachChild(e, held, acts);
    }

    /**
     * bdrv_unref by a holder: the last reference deletes the node, and with it every node that
     * only it kept alive (block.c:6911-6921).
     */
    method Unref(n: NodeId, ghost held: Held, ghost acts: seq<Action>)
      requires Indexed(g) && Acyclic(g.edges) && n in g.nodes
      requires Balanced(C(), held, acts) && Alive(g, held, acts) && HeldOf(held, n) >= 1
      modifies this
      ensures Indexed(g) && Acyclic(g.edges) && Balanced(C(), Yield(held, n), acts) && Alive(g, Yield(held, n), acts)
      ensures Survives(old(g), g, n, None)
      ensures old(g.refs[n]) > 1 ==> C() == RefAdd(old(C()), n, -1)
      ensures g.nodes.Keys == old(g.nodes).Keys ==> g.edges == old(g.edges)
      ensures (n in g.nodes <==> old(g.refs[n]) > 1) && NoNewLeak(old(g.refs), g.refs)
      decreases g.edges.Keys, 3
    {
      ghost var g0 := g;
      assert BalancedAt(C(), held, acts, n);
      BalancedYield(C(), held, n, acts);
      YieldAlive(g, held, acts, n);
      g := g.(refs := g.refs[n := g.refs[n] - 1]);
      KeepLists(g0, g);
      if g.refs[n] == 0 {
        ghost var g1 := g;
        Delete(n, Yield(held, n), acts);
        SurvivesCount(g0, g1, g, n);
      }
    }

    /**
     * bdrv_delete and bdrv_close: nothing points to the node any more; its child edges are
     * released one by one (block.c:4919-4944, block.c:5392-5407).
     */
    method Delete(n: NodeId, ghost held: Held, ghost acts: seq<Action>)
      requires Indexed(g) && Acyclic(g.edges) && n in g.nodes && g.refs[n] == 0
      requires Balanced(C(), held, acts) && Alive(g, held, acts)
      modifies this
      ensures Indexed(g) && Acyclic(g.edges) && Balanced(C(), held, acts) && Alive(g, held, acts)
      ensures n !in g.nodes && old(g.parents[n]) == [] && Survives(old(g), g, n, None)
      ensures NoNewLeak(old(g.refs), g.refs)
      decreases g.edges.Keys, 2
    {
      ghost var g0 := g;
      ZeroMeansUnused(g, held, acts, n);
      CloseChildren(n, held, acts);
      ZeroMeansUnused(g, held, acts, n);
      ghost var g2 := g;
      Forget(n, held, acts);
      SurvivesForget(g0, g2, g, n);
    }

    /** The loop over the children of a node that is being closed (block.c:4939-4941). */
    method CloseChildren(n: NodeId, ghost held: Held, ghost acts: seq<Action>)
      requires Indexed(g) && Acyclic(g.edges) && n in g.nodes && g.refs[n] == 0
      requires Balanced(C(), held, acts) && Alive(g, held, acts)
      modifies this
      ensures Indexed(g) && Acyclic(g.edges) && Balanced(C(), held, acts) && Alive(g, held, acts)
      ensures n in g.nodes && g.refs[n] == 0 && Survives(old(g), g, n, Some(n))
      ensures Owned(g.edges, n) == {}
      ensures NoNewLeak(old(g.refs), g.refs)
      decreases g.edges.Keys, 1
    {
      ghost var g0 := g;
      var kids := g.children[n];
      assert ListsOk(g, n);
      forall e ensures e in kids <==> OwnedBy(g.edges, e, n) { assert e in kids <==> InChildren(g, e, n); }
      assert Owned(g.edges, n) == Elems(kids[0..]);
      for i := 0 to |kids|
        invariant Indexed(g) && Acyclic(g.edges) && Balanced(C(), held, acts) && Alive(g, held, acts)
        invariant n in g.nodes && g.refs[n] == 0 && Survives(g0, g, n, Some(n))
        invariant Owned(g.edges, n) == Elems(kids[i..]) && NoNewLeak(g0.refs, g.refs)
      {
        ghost var g1 := g;
        assert kids[i] in kids[i..];
        CloseChild(n, kids[i], held, acts);
        SurvivesClosing(g0, g1, g, n);
        ElemsRest(kids, i);
      }
    }

    /** One child of a node that is being closed. */
    method CloseChild(n: NodeId, e: EdgeId, ghost held: Held, ghost acts: seq<Action>)
      requires Indexed(g) && Acyclic(g.edges) && Balanced(C(), held, acts) && Alive(g, held, acts)
      requires n in g.nodes && g.refs[n] == 0 && e in Owned(g.edges, n)
      modifies this
      ensures Indexed(g) && Acyclic(g.edges) && Balanced(C(), held, acts) && Alive(g, held, acts)
      ensures n in g.nodes && g.refs[n] == 0 && Survives(old(g), g, n, Some(n))
      ensures Owned(g.edges, n) == Owned(old(g.edges), n) - {e}
      ensures NoNewLeak(old(g.refs), g.refs)
      decreases g.edges.Keys, 0
    {
      ghost var g0 := g;
      var bs := CloseEdge(e, held, acts);
      ghost var g1 := g;
      assert ArcBy(g0.edges, e, n, bs);
      ArcNotBack(g0.edges, n, bs);
      ReachSelf(g0.edges, n);
      assert e in Into(g0.edges, bs);
      HoldAlive(g, held, acts, bs);
      Unref(bs, Hold(held, bs), acts);
      YieldHold(g, held, acts, bs);
      BalancedSameHeld(C(), Yield(Hold(held, bs), bs), held, acts);
      ClosingStays(g1, g, n, bs, held, acts);
      SurvivesDetach(g0, g1, e, n);
      SurvivesTrans(g0, g1, g, n, bs, n);
      OwnedLess(g0, g1, g, e, n);
    }

    /** Frees the node itself. */
    method Forget(n: NodeId, ghost held: Held, ghost acts: seq<Action>)
      requires Indexed(g) && Acyclic(g.edges) && Balanced(C(), held, acts) && n in g.nodes
      requires (forall e :: e in g.edges ==> g.edges[e].bs != Some(n)) && Owned(g.edges, n) == {}
      modifies this
      ensures Indexed(g) && Acyclic(g.edges) && Balanced(C(), held, acts)
      ensures g.nodes == old(g.nodes) - {n} && g.edges == old(g.edges) && g.refs == old(g.refs) - {n}
    {
      ghost var g0 := g;
      g := Graph(g.nodes - {n}, g.edges, g.refs - {n}, g.parents - {n}, g.children - {n});
      forall m | m in g.nodes ensures ListsOk(g, m) {
        assert ListsOk(g0, m);
        forall x ensures InParents(g, x, m) <==> InParents(g0, x, m) {}
        forall x ensures InChildren(g, x, m) <==> InChildren(g0, x, m) {}
      }
      forall x | x in g.edges ensures EndsOk(g, x) { assert EndsOk(g0, x) && x !in Owned(g0.edges, n); }
      BalancedForget(CoreOf(g0), C(), held, n, acts);
    }

    /** bdrv_root_unref_child (block.c:3223-3232): the edge and its reference go together. */
    method BdrvRootUnrefChild(e: EdgeId, ghost held: Held)
      requires Indexed(g) && Acyclic(g.edges) && Balanced(C(), held, []) && Alive(g, held, [])
      requires e in g.edges && g.edges[e].bs.Some? && !g.edges[e].frozen
      modifies this
      ensures Indexed(g) && Acyclic(g.edges) && Balanced(C(), held, []) && Alive(g, held, []) && e !in g.edges
      ensures Kept(old(C()).(edges := old(g.edges) - {e}), C())
      ensures g.nodes.Keys == old(g.nodes).Keys ==> TriedRefresh(old(C()).(edges := old(g.edges) - {e}), g.edges, old(g.edges)[e].bs.value)
      ensures var n := old(g.edges)[e].bs.value; n in old(g.refs) && (n in g.nodes <==> old(g.refs)[n] > 1) && NoNewLeak(old(g.refs), g.refs)
    {
      ghost var c0 := C().(edges := g.edges - {e});
      var bs := DetachChild(e, held, []);
      ghost var g1 := g;
      KeptSame(c0, C());
      HoldAlive(g, held, [], bs);
      Unref(bs, Hold(held, bs), []);
      SurvivesKept(g1, g, bs);
      KeptTrans(c0, CoreOf(g1), C());
      YieldHold(g, held, [], bs);
      BalancedSameHeld(C(), Yield(Hold(held, bs), bs), held, []);
    }

    // ----- tran_commit --------------------------------------------------------------------

    /** The .commit callback of one action; `rest` are the actions still to be committed. */
    method CommitOne(a: Action, ghost h: Held, ghost rest: seq<Action>) returns (ghost h': Held)
      requires Indexed(g) && Acyclic(g.edges) && Balanced(C(), h, [a] + rest) && Alive(g, h, [a] + rest)
      modifies this
      ensures Indexed(g) && Acyclic(g.edges) && Balanced(C(), h', rest) && Alive(g, h', rest)
      ensures forall n :: HeldOf(h', n) == HeldOf(h, n) + ToClean([a], n)
      ensures Settles(old(C()), C()) && (Inert(a) ==> C() == old(C()))
      ensures Anchored(old(g.edges), a) ==> g.nodes == old(g.nodes) && g.edges == old(g.edges)
      ensures Frees(old(g.edges), a) ==> a.child !in g.edges
    {
      KeptSame(C(), C());
      assert ([a] + rest)[1..] == rest;
      match a
      case ReplaceChild(e, _, was, free) =>
        BalancedUnpark(C(), h, a, rest, was);
        UnparkAlive(g, h, a, rest, was);
        CommitReplace(e, was, free, Hold(h, was), rest);
        h' := Yield(Hold(h, was), was);
        HeldBack(h, was, a);
      case RemoveChild(e, slot) =>
        h' := CommitRemove(a, h, rest);
      case _ =>
        h' := h;
        NoParkSame(C(), h, a, rest, g);
    }

    /** bdrv_replace_child_commit (block.c:2346-2355). */
    method CommitReplace(e: EdgeId, was: NodeId, free: bool, ghost h: Held, ghost rest: seq<Action>)
      requires Indexed(g) && Acyclic(g.edges) && Balanced(C(), h, rest) && Alive(g, h, rest) && was in g.nodes && HeldOf(h, was) >= 1
      modifies this
      ensures Indexed(g) && Acyclic(g.edges) && Balanced(C(), Yield(h, was), rest) && Alive(g, Yield(h, was), rest)
      ensures Settles(old(C()), C())
      ensures Into(old(g.edges), was) != {} && (e in old(g.edges) ==> old(g.edges)[e].bs.Some?) ==> g.nodes == old(g.nodes) && g.edges == old(g.edges)
      ensures free && e in old(g.edges) && old(g.edges)[e].bs.None? ==> e !in g.edges
    {
      KeptSame(C(), C());
      if free && e in g.edges && g.edges[e].bs.None? {
        FreeEmpty(e, h, rest);
      }
      ghost var g1 := g;
      if Into(g.edges, was) != {} {
        AnchoredTwice(C(), h, rest, was);
      }
      Unref(was, h, rest);
      UnrefSettles(g1, g, was);
      SettlesTrans(old(C()), CoreOf(g1), C());
    }

    /** bdrv_remove_filter_or_cow_child_commit (block.c:5100-5105). */
    method CommitRemove(a: Action, ghost h: Held, ghost rest: seq<Action>) returns (ghost h': Held)
      requires Indexed(g) && Acyclic(g.edges) && Balanced(C(), h, [a] + rest) && Alive(g, h, [a] + rest) && a.RemoveChild?
      modifies this
      ensures Indexed(g) && Acyclic(g.edges) && Balanced(C(), h', rest) && Alive(g, h', rest)
      ensures forall n :: HeldOf(h', n) == HeldOf(h, n) + ToClean([a], n)
      ensures Settles(old(C()), C()) && (Frees(old(g.edges), a) ==> a.child !in g.edges)
    {
      KeptSame(C(), C());
      assert ([a] + rest)[1..] == rest;
      if a.slot.Local? {
        h' := h;
        NoParkSame(C(), h, a, rest, g);
      } else {
        BalancedUnpark(C(), h, a, rest, a.slot.node);
        UnparkAlive(g, h, a, rest, a.slot.node);
        h' := Hold(h, a.slot.node);
      }
      if a.child in g.edges && g.edges[a.child].bs.None? {
        FreeEmpty(a.child, h', rest);
      }
    }

    method FreeEmpty(e: EdgeId, ghost h: Held, ghost acts: seq<Action>)
      requires Indexed(g) && Acyclic(g.edges) && Balanced(C(), h, acts) && Alive(g, h, acts)
      requires e in g.edges && g.edges[e].bs.None?
      modifies this
      ensures Indexed(g) && Acyclic(g.edges) && Balanced(C(), h, acts) && Alive(g, h, acts)
      ensures C() == old(C()).(edges := old(g.edges) - {e}) && Settles(old(C()), C())
    {
      ghost var g0 := g;
      FreeChild(e);
      OneEdgeAcyclic(g0.edges, g.edges, e);
      BalancedFree(CoreOf(g0), C(), h, e, acts);
    }

    /** tran_commit: every .commit, newest first, then every .clean. */
    method TranCommit(tran: Transaction, ghost held: Held)
      requires Indexed(g) && Acyclic(g.edges) && Balanced(C(), held, tran.actions) && Alive(g, held, tran.actions)
      modifies this
      ensures Indexed(g) && Acyclic(g.edges) && Balanced(C(), held, []) && Alive(g, held, [])
      ensures Settles(old(C()), C()) && ((forall a :: a in tran.actions ==> Inert(a)) ==> C() == old(C()))
      ensures AllAnchored(old(g.edges), tran.actions) ==> g.nodes == old(g.nodes) && g.edges == old(g.edges)
      ensures AllFreed(old(g.edges), tran.actions, g.edges)
    {
      var acts := tran.actions;
      ghost var h := CommitPass(acts, held);
      ghost var c1 := C();
      CleanPass(acts, h, held);
      SettlesTrans(old(C()), c1, C());
    }

    method CleanPass(acts: seq<Action>, ghost h0: Held, ghost held: Held)
      requires Indexed(g) && Acyclic(g.edges) && Balanced(C(), h0, []) && Alive(g, h0, []) && HeldPlus(h0, held, acts)
      modifies this
      ensures Indexed(g) && Acyclic(g.edges) && Balanced(C(), held, []) && Alive(g, held, [])
      ensures Settles(old(C()), C()) && ((forall a :: a in acts ==> !a.RemoveChild?) ==> C() == old(C()))
    {
      ghost var h := h0;
      ghost var c0 := C();
      KeptSame(c0, c0);
      assert acts[0..] == acts;
      for i := 0 to |acts|
        invariant Indexed(g) && Acyclic(g.edges) && Balanced(C(), h, []) && Alive(g, h, []) && HeldPlus(h, held, acts[i..])
        invariant Settles(c0, C())
        invariant (forall a :: a in acts ==> !a.RemoveChild?) ==> C() == c0
      {
        assert acts[i..] == [acts[i]] + acts[i + 1..] && acts[i] in acts;
        ghost var c1 := C();
        h := CleanOne(acts[i], h, held, acts[i + 1..]);
        SettlesTrans(c0, c1, C());
      }
      forall n ensures HeldOf(held, n) == HeldOf(h, n) { assert HeldOf(h, n) == HeldOf(held, n) + ToClean([], n); }
      BalancedSameHeld(C(), h, held, []);
    }

    /** bdrv_remove_filter_or_cow_child_clean (block.c:5107-5114); no other action has something to clean. */
    method CleanOne(a: Action, ghost h: Held, ghost held: Held, ghost rest: seq<Action>) returns (ghost h': Held)
      requires Indexed(g) && Acyclic(g.edges) && Balanced(C(), h, []) && Alive(g, h, []) && HeldPlus(h, held, [a] + rest)
      modifies this
      ensures Indexed(g) && Acyclic(g.edges) && Balanced(C(), h', []) && Alive(g, h', []) && HeldPlus(h', held, rest)
      ensures Settles(old(C()), C()) && (!a.RemoveChild? ==> C() == old(C()))
    {
      KeptSame(C(), C());
      h' := h;
      HeldPlusNext(h, held, a, rest);
      if a.RemoveChild? && !a.slot.Local? {
        ghost var g1 := g;
        Unref(a.slot.node, h, []);
        h' := Yield(h, a.slot.node);
        UnrefSettles(g1, g, a.slot.node);
      }
    }

    method CommitPass(acts: seq<Action>, ghost held: Held) returns (ghost h: Held)
      requires Indexed(g) && Acyclic(g.edges) && Balanced(C(), held, acts) && Alive(g, held, acts)
      modifies this
      ensures Indexed(g) && Acyclic(g.edges) && Balanced(C(), h, []) && Alive(g, h, []) && HeldPlus(h, held, acts)
      ensures Settles(old(C()), C()) && ((forall a :: a in acts ==> Inert(a)) ==> C() == old(C()))
      ensures AllAnchored(old(g.edges), acts) ==> g.nodes == old(g.nodes) && g.edges == old(g.edges)
      ensures AllFreed(old(g.edges), acts, g.edges)
    {
      h := held;
      ghost var c0 := C();
      KeptSame(c0, c0);
      assert acts[0..] == acts;
      for i := 0 to |acts|
        invariant Indexed(g) && Acyclic(g.edges) && Balanced(C(), h, acts[i..]) && Alive(g, h, acts[i..])
        invariant Settles(c0, C())
        invariant HeldPlus(h, held, acts[..i])
        invariant (forall a :: a in acts ==> Inert(a)) ==> C() == c0
        invariant AllAnchored(c0.edges, acts) ==> g.nodes == c0.nodes && g.edges == c0.edges
        invariant AllFreed(c0.edges, acts[..i], g.edges)
      {
        assert acts[i..] == [acts[i]] + acts[i + 1..] && acts[i] in acts;
        ghost var h0, c1 := h, C();
        h := CommitOne(acts[i], h, acts[i + 1..]);
        SettlesTrans(c0, c1, C());
        HeldPlusMore(h0, h, held, acts, i);
        FreedMore(c0, c1, C(), acts[..i], acts[i]);
        assert acts[..i + 1] == acts[..i] + [acts[i]];
      }
      assert acts[..|acts|] == acts;
    }

    // ----- the public operations ----------------------------------------------------------

    /** tran_finalize: a failed operation goes back to where its transaction started. */
    method TranFinalize(st: Status, tran: Transaction, ghost held: Held, ghost c0: Core)
      requires Indexed(g) && g.nodes.Keys == c0.nodes.Keys
      requires Balanced(c0, held, []) && Acyclic(c0.edges) && Alive(g, held, [])
      requires st.Ok? ==> Acyclic(g.edges) && Balanced(C(), held, tran.actions) && Alive(g, held, tran.actions)
      requires st.Err? ==> CanRollBack(tran, c0)
      modifies this
      ensures Indexed(g) && Acyclic(g.edges) && Balanced(C(), held, []) && Alive(g, held, [])
      ensures st.Err? ==> C() == c0
      ensures st.Ok? ==> Settles(old(C()), C())
      ensures st.Ok? && (forall a :: a in tran.actions ==> Inert(a)) ==> C() == old(C())
      ensures st.Ok? && AllAnchored(old(g.edges), tran.actions) ==> g.nodes == old(g.nodes) && g.edges == old(g.edges)
      ensures st.Ok? ==> AllFreed(old(g.edges), tran.actions, g.edges)
    {
      if st.Err? {
        TranAbort(tran);
      } else {
        TranCommit(tran, held);
      }
    }

    ghost predicate CanRollBack(tran: Transaction, c0: Core)
      reads this, tran
    {
      && Undoable(tran.actions, C()) && Revert(tran.actions, C()) == c0
      && RefsBack(c0, C())
    }

    /** The part of bdrv_attach_child before the transaction is finalized. */
    method AttachAndRefresh(parent: NodeId, bs: NodeId, role: Role, e: EdgeId, tran: Transaction, ghost held: Held)
      returns (st: Status)
      requires Indexed(g) && Acyclic(g.edges) && TranOk(tran, held) && tran.actions == []
      requires parent in g.nodes && bs in g.nodes && e !in g.edges && g.refs[bs] >= 1
      modifies this, tran
      ensures Indexed(g) && Acyclic(g.edges) && Balanced(C(), held, tran.actions) && g.nodes == old(g.nodes)
      ensures forall a :: a in tran.actions ==> Inert(a)
      ensures st.Ok? <==> AttachWorks(old(C()), parent, bs, role, e)
      ensures st.Err? ==> CanRollBack(tran, old(C()))
      ensures st.Ok? ==> NewUser(old(g.edges), g.edges, e, parent, bs)
      ensures st.Ok? ==> Bumped(old(g.refs), g.refs, bs)
      ensures st.Ok? ==> Consistent(childPerm, checkPerm, g.nodes, g.edges, parent)
    {
      st := AttachNew(parent, bs, role, e, tran, held);
      if st.Ok? {
        ghost var c1 := C();
        st := RefreshPerms(parent);
        assert g.refs == c1.refs && g.nodes == c1.nodes;
        if st.Ok? {
          AttachedNewUser(old(C()), e, NewChild(childPerm, old(C()), parent, bs, role), parent, bs, g.edges);
        }
        BalancedPerms(c1, C(), held, tran.actions, tran.actions);
      }
    }

    method AttachNew(parent: NodeId, bs: NodeId, role: Role, e: EdgeId, tran: Transaction, ghost held: Held)
      returns (st: Status)
      requires Indexed(g) && Acyclic(g.edges) && TranOk(tran, held) && tran.actions == []
      requires parent in g.nodes && bs in g.nodes && e !in g.edges && g.refs[bs] >= 1
      modifies this, tran
      ensures Indexed(g) && Acyclic(g.edges) && TranOk(tran, held) && CanRollBack(tran, old(C()))
      ensures forall a :: a in tran.actions ==> Inert(a)
      ensures st.Ok? <==> !Reach(old(g.edges), bs, parent)
      ensures C() == if st.Ok? then Attached(old(C()), e, NewChild(childPerm, old(C()), parent, bs, role), bs, Local) else old(C())
      ensures g.nodes == old(g.nodes) && (st.Ok? ==> Bumped(old(g.refs), g.refs, bs))
    {
      AttachedCore(C(), e, NewChild(childPerm, C(), parent, bs, role), bs);
      st := AttachChildNoperm(parent, bs, role, e, Local, tran, held);
    }

    /** The edge closes no cycle, and with it the subtree of the parent can be refreshed. */
    ghost predicate AttachWorks(c: Core, parent: NodeId, bs: NodeId, role: Role, e: EdgeId)
      requires bs in c.refs
    {
      && !Reach(c.edges, bs, parent)
      && RefreshableAt(Attached(c, e, NewChild(childPerm, c, parent, bs, role), bs, Local), parent)
    }

    /** bdrv_attach_child up to the point where it drops the caller's reference. */
    method AttachOrRollBack(parent: NodeId, bs: NodeId, role: Role, e: EdgeId, ghost held: Held) returns (st: Status)
      requires Indexed(g) && Acyclic(g.edges) && Balanced(C(), held, []) && Alive(g, held, [])
      requires parent in g.nodes && bs in g.nodes && g.refs[bs] >= 1 && e !in g.edges
      modifies this
      ensures Indexed(g) && Acyclic(g.edges) && Balanced(C(), held, []) && Alive(g, held, [])
      ensures g.nodes == old(g.nodes)
      ensures st.Ok? <==> AttachWorks(old(C()), parent, bs, role, e)
      ensures st.Err? ==> C() == old(C())
      ensures st.Ok? ==> NewUser(old(g.edges), g.edges, e, parent, bs) && Bumped(old(g.refs), g.refs, bs)
      ensures st.Ok? ==> Consistent(childPerm, checkPerm, g.nodes, g.edges, parent)
    {
      ghost var c0 := C();
      var tran := new Transaction();
      st := AttachAndRefresh(parent, bs, role, e, tran, held);
      ghost var g1 := g;
      FinalizeInert(st, tran, held, c0);
      assert st.Ok? ==> g.nodes == g1.nodes && g.edges == g1.edges && g.refs == g1.refs;
    }

    /** tran_finalize where committing only tells the drivers. */
    method FinalizeInert(st: Status, tran: Transaction, ghost held: Held, ghost c0: Core)
      requires Indexed(g) && Acyclic(g.edges) && g.nodes.Keys == c0.nodes.Keys && Balanced(C(), held, tran.actions)
      requires Balanced(c0, held, []) && Acyclic(c0.edges) && Alive(g, held, []) && (st.Err? ==> CanRollBack(tran, c0))
      requires forall a :: a in tran.actions ==> Inert(a)
      modifies this
      ensures Indexed(g) && Acyclic(g.edges) && Balanced(C(), held, []) && Alive(g, held, [])
      ensures C() == if st.Ok? then old(C()) else c0
    {
      InertAlive(g, held, tran.actions);
      TranFinalize(st, tran, held, c0);
    }

    /**
     * bdrv_attach_child (block.c:3188-3220).  It takes over the caller's reference to `bs`; apart
     * from that a failure leaves no trace, and it fails whenever the edge would close a cycle.
     */
    method BdrvAttachChild(parent: NodeId, bs: NodeId, role: Role, e: EdgeId, ghost held: Held) returns (st: Status)
      requires Indexed(g) && Acyclic(g.edges) && Balanced(C(), held, []) && Alive(g, held, [])
      requires parent in g.nodes && bs in g.nodes && HeldOf(held, bs) >= 1 && e !in g.edges
      modifies this
      ensures Indexed(g) && Acyclic(g.edges) && Balanced(C(), Yield(held, bs), [])
      ensures st.Ok? <==> AttachWorks(old(C()), parent, bs, role, e)
      ensures st.Err? ==> Kept(old(C()), C()) && (old(g.refs[bs]) > 1 ==> C() == RefAdd(old(C()), bs, -1))
      ensures st.Err? ==> (bs in g.nodes <==> old(g.refs[bs]) > 1) && NoNewLeak(old(g.refs), g.refs)
      ensures st.Ok? ==> NewUser(old(g.edges), g.edges, e, parent, bs) && g.nodes == old(g.nodes) && g.refs == old(g.refs)
      ensures st.Ok? ==> Consistent(childPerm, checkPerm, g.nodes, g.edges, parent)
    {
      HeldCounts(C(), held, [], bs);
      st := AttachOrRollBack(parent, bs, role, e, held);
      BumpBack(old(g.refs), bs);
      UnrefHeld(bs, held);
    }

    /** The caller gives up its own reference (block.c:3216). */
    method UnrefHeld(bs: NodeId, ghost held: Held)
      requires Indexed(g) && Acyclic(g.edges) && Balanced(C(), held, []) && Alive(g, held, [])
      requires bs in g.nodes && HeldOf(held, bs) >= 1
      modifies this
      ensures Indexed(g) && Acyclic(g.edges) && Balanced(C(), Yield(held, bs), [])
      ensures old(g.refs[bs]) > 1 ==> C() == RefAdd(old(C()), bs, -1)
      ensures Kept(old(C()), C())
      ensures (bs in g.nodes <==> old(g.refs[bs]) > 1) && NoNewLeak(old(g.refs), g.refs)
    {
      HeldCounts(C(), held, [], bs);
      ghost var g0 := g;
      Unref(bs, held, []);
      SurvivesKept(g0, g, bs);
    }

    // ----- bdrv_append --------------------------------------------------------------------

    /** The graph changes of bdrv_append: attach, then move the users of the old top. */
    method AppendNoperm(bsNew: NodeId, bsTop: NodeId, e: EdgeId, tran: Transaction, ghost held: Held)
      returns (st: Status)
      requires Indexed(g) && Acyclic(g.edges) && TranOk(tran, held)
      requires bsNew in g.nodes && bsTop in g.nodes && e !in g.edges && g.nodes[bsNew].backing == None
      modifies this, tran
      ensures Indexed(g) && Acyclic(g.edges) && g.nodes.Keys == old(g.nodes).Keys
      ensures TranOk(tran, held) && Revert(tran.actions, C()) == old(Revert(tran.actions, C()))
      ensures SameRefsBut2(old(g.refs), g.refs, bsNew, bsTop)
      ensures st.Ok? <==> !Reach(old(g.edges), bsTop, bsNew) && UsersMovable(old(Stacked(C(), bsNew, bsTop, e)).edges, bsTop, bsNew, true)
      ensures st.Ok? ==> g.nodes == old(Stacked(C(), bsNew, bsTop, e)).nodes
                         && g.edges == Moved(old(Stacked(C(), bsNew, bsTop, e)).edges, bsTop, bsNew)
      ensures st.Ok? && old(tran.actions) == [] ==> AllAnchored(g.edges, tran.actions)
    {
      st := StackOn(bsNew, bsTop, e, tran, held);
      if st.Ok? {
        ghost var es1 := g.edges;
        st := ReplaceNodeNoperm(bsTop, bsNew, true, tran, held);
        if st.Ok? && old(tran.actions) == [] {
          AppendAnchored(es1, bsNew, bsTop, e, tran.actions);
        }
      }
    }

    /** Makes `bsTop` the backing or filtered child of `bsNew` (block.c:5336-5341). */
    method StackOn(bsNew: NodeId, bsTop: NodeId, e: EdgeId, tran: Transaction, ghost held: Held) returns (st: Status)
      requires Indexed(g) && Acyclic(g.edges) && TranOk(tran, held)
      requires bsNew in g.nodes && bsTop in g.nodes && e !in g.edges && g.nodes[bsNew].backing == None
      modifies this, tran
      ensures Indexed(g) && Acyclic(g.edges) && g.nodes.Keys == old(g.nodes).Keys && SameRefsBut(old(g.refs), g.refs, bsTop)
      ensures TranOk(tran, held) && Revert(tran.actions, C()) == old(Revert(tran.actions, C()))
      ensures st.Ok? <==> !Reach(old(g.edges), bsTop, bsNew)
      ensures st.Ok? ==> bsNew != bsTop && g.nodes == old(Stacked(C(), bsNew, bsTop, e)).nodes && g.edges == old(Stacked(C(), bsNew, bsTop, e)).edges
      ensures st.Ok? ==> tran.actions == [AttachChild(e, Backing(bsNew))] + old(tran.actions)
    {
      ReachSelf(g.edges, bsTop);
      st := AttachChildNoperm(bsNew, bsTop, BackingRole(g.nodes, bsNew), e, Backing(bsNew), tran, held);
    }

    /** The graph with `bsTop` as the new backing or filtered child of `bsNew`. */
    ghost function Stacked(c: Core, bsNew: NodeId, bsTop: NodeId, e: EdgeId): Core
      requires bsTop in c.refs
    {
      Attached(c, e, NewChild(childPerm, c, bsNew, bsTop, BackingRole(c.nodes, bsNew)), bsTop, Backing(bsNew))
    }

    /** What bdrv_append makes of the graph before the refresh. */
    ghost function Appended(c: Core, bsNew: NodeId, bsTop: NodeId, e: EdgeId): Core
      requires bsTop in c.refs
    {
      var c1 := Stacked(c, bsNew, bsTop, e);
      c1.(edges := Moved(c1.edges, bsTop, bsNew))
    }

    /** The old top is the child of the new node in its backing slot, and every outside user that may move has moved. */
    lemma AppendedMeans(c: Core, bsNew: NodeId, bsTop: NodeId, e: EdgeId, x: EdgeId)
      requires bsTop in c.refs && bsNew in c.nodes && bsNew != bsTop && e !in c.edges && x in c.edges
      ensures var a := Appended(c, bsNew, bsTop, e);
        && a.edges.Keys == c.edges.Keys + {e} && a.edges[e].owner == Bds(bsNew) && a.edges[e].bs == Some(bsTop)
        && a.nodes == c.nodes[bsNew := c.nodes[bsNew].(backing := Some(e))]
        && a.edges[x] == c.edges[x].(bs := a.edges[x].bs) && (a.edges[x].bs == c.edges[x].bs || a.edges[x].bs == Some(bsNew))
        && (c.edges[x].owner.User? ==> a.edges[x].bs == if c.edges[x].bs == Some(bsTop) && !c.edges[x].stayAtNode then Some(bsNew) else c.edges[x].bs)
    {
      var c1 := Stacked(c, bsNew, bsTop, e);
      ReachSelf(c1.edges, bsNew);
      assert c1.edges[x] == c.edges[x];
    }

    /** No cycle arises, no user that has to move is frozen, and the result can be refreshed. */
    ghost predicate AppendWorks(c: Core, bsNew: NodeId, bsTop: NodeId, e: EdgeId)
      requires bsTop in c.refs
    {
      && !Reach(c.edges, bsTop, bsNew)
      && UsersMovable(Stacked(c, bsNew, bsTop, e).edges, bsTop, bsNew, true)
      && RefreshableAt(Appended(c, bsNew, bsTop, e), bsNew)
    }

    /** bdrv_append before the transaction is finalized. */
    method AppendAndRefresh(bsNew: NodeId, bsTop: NodeId, e: EdgeId, tran: Transaction, ghost held: Held)
      returns (st: Status)
      requires Indexed(g) && Acyclic(g.edges) && TranOk(tran, held) && tran.actions == []
      requires bsNew in g.nodes && bsTop in g.nodes && e !in g.edges && g.nodes[bsNew].backing == None
      requires g.refs[bsNew] >= 1 && g.refs[bsTop] >= 1 && Alive(g, held, [])
      modifies this, tran
      ensures Indexed(g) && Acyclic(g.edges) && g.nodes.Keys == old(g.nodes).Keys
      ensures Balanced(C(), held, tran.actions) && Alive(g, held, tran.actions)
      ensures st.Ok? <==> AppendWorks(old(C()), bsNew, bsTop, e)
      ensures st.Err? ==> CanRollBack(tran, old(C()))
      ensures st.Ok? ==> g.nodes == Appended(old(C()), bsNew, bsTop, e).nodes
      ensures st.Ok? ==> SameShape(Appended(old(C()), bsNew, bsTop, e).edges, g.edges)
      ensures st.Ok? ==> Consistent(childPerm, checkPerm, g.nodes, g.edges, bsNew) && AllAnchored(g.edges, tran.actions)
      ensures SameRefsBut2(old(g.refs), g.refs, bsNew, bsTop)
    {
      st := AppendNoperm(bsNew, bsTop, e, tran, held);
      TranAlive(g, held, tran.actions);
      if st.Ok? {
        ghost var g1 := g;
        st := RefreshPerms(bsNew);
        BalancedPerms(CoreOf(g1), C(), held, tran.actions, tran.actions);
        ShapeAnchored(g1.edges, g.edges, tran.actions);
      }
    }

    /** bdrv_append (block.c:5326-5355): all or nothing, and never a cycle. */
    method BdrvAppend(bsNew: NodeId, bsTop: NodeId, e: EdgeId, ghost held: Held) returns (st: Status)
      requires Indexed(g) && Acyclic(g.edges) && Balanced(C(), held, []) && Alive(g, held, [])
      requires bsNew in g.nodes && bsTop in g.nodes && e !in g.edges && g.nodes[bsNew].backing == None
      requires g.refs[bsNew] >= 1 && g.refs[bsTop] >= 1
      modifies this
      ensures Indexed(g) && Acyclic(g.edges) && Balanced(C(), held, []) && Alive(g, held, [])
      ensures st.Ok? <==> AppendWorks(old(C()), bsNew, bsTop, e)
      ensures st.Ok? ==> g.nodes == Appended(old(C()), bsNew, bsTop, e).nodes && SameShape(Appended(old(C()), bsNew, bsTop, e).edges, g.edges)
      ensures st.Ok? ==> Consistent(childPerm, checkPerm, g.nodes, g.edges, bsNew)
      ensures st.Err? ==> C() == old(C())
      ensures NoNewLeak(old(g.refs), g.refs)
    {
      ghost var c0 := C();
      var tran := new Transaction();
      st := AppendAndRefresh(bsNew, bsTop, e, tran, held);
      ghost var c1 := C();
      MoreRefs(c0.refs, c1.refs, bsNew, bsTop);
      TranFinalize(st, tran, held, c0);
      if st.Ok? {
        NoNewLeakTrans(c0.refs, c1.refs, g.refs);
      }
    }

    // ----- bdrv_replace_node_common -------------------------------------------------------

    /** The last node of the backing chain above `to` (block.c:5240-5249). */
    method FindCowParent(from: NodeId, to: NodeId, ghost chain: seq<NodeId>) returns (p: NodeId)
      requires Indexed(g) && from != to && IsChain(g, chain) && chain[0] == from && chain[|chain| - 1] == to
      ensures p in g.nodes && FilterOrCowBs(g, p) == Some(to) && (p == from || InDegree(g.edges, p) >= 1)
      ensures p in chain[..|chain| - 1]
    {
      p := from;
      ghost var i := 0;
      while FilterOrCowBs(g, p) != Some(to)
        invariant 0 <= i < |chain| - 1 && chain[i] == p && p in g.nodes && (i == 0 || InDegree(g.edges, p) >= 1)
        decreases |chain| - i
      {
        assert FilterOrCowBs(g, chain[i]) == Some(chain[i + 1]);
        FilterOrCowUses(g, p);
        p := FilterOrCowBs(g, p).value;
        i := i + 1;
      }
    }

    /** What bdrv_replace_node_common makes of nodes and edges before the refresh. */
    ghost function Exchanged(c: Core, from: NodeId, to: NodeId, detach: Option<Slot>): Core {
      var es := Moved(c.edges, from, to);
      match detach
      case None => c.(edges := es)
      case Some(slot) =>
        var e := SlotIn(c.nodes, slot);
        c.(edges := if e.Some? then Emptied(es, e.value) else es, nodes := PutSlotIn(c.nodes, slot, None))
    }

    /** The users that may move have moved; the slot given is empty and its edge points nowhere; nothing else has changed. */
    lemma ExchangedMeans(c: Core, from: NodeId, to: NodeId, detach: Option<Slot>, x: EdgeId)
      requires x in c.edges && (detach.Some? ==> SlotIn(c.nodes, detach.value).Some?)
      ensures var a := Exchanged(c, from, to, detach);
        && a.edges.Keys == c.edges.Keys && a.nodes.Keys == c.nodes.Keys && a.edges[x] == c.edges[x].(bs := a.edges[x].bs)
        && (if detach.Some? && SlotIn(c.nodes, detach.value) == Some(x) then a.edges[x].bs == None else a.edges[x] == Moved(c.edges, from, to)[x])
        && (detach.Some? ==> SlotIn(a.nodes, detach.value) == None)
        && (detach.None? ==> a.nodes == c.nodes)
    {
    }

    /** The users of `from` can move, and the result can be refreshed below both nodes. */
    ghost predicate ReplaceWorks(c: Core, from: NodeId, to: NodeId, autoSkip: bool, detach: Option<Slot>) {
      var c1 := Exchanged(c, from, to, detach);
      && UsersMovable(c.edges, from, to, autoSkip)
      && Refreshable(childPerm, checkPerm, c1.nodes, c1.edges, Subtree(c1.nodes, c1.edges, to) + Subtree(c1.nodes, c1.edges, from))
    }

    /** The graph changes of bdrv_replace_node_common. */
    method ReplaceAndDetach(from: NodeId, to: NodeId, autoSkip: bool, detach: Option<Slot>, tran: Transaction, ghost held: Held)
      returns (st: Status)
      requires Indexed(g) && Acyclic(g.edges) && TranOk(tran, held)
      requires from in g.nodes && to in g.nodes && from != to
      requires detach.Some? ==> SlotIn(g.nodes, detach.value).Some? && SlotHolds(g, detach.value, SlotIn(g.nodes, detach.value).value)
      modifies this, tran
      ensures Indexed(g) && Acyclic(g.edges) && g.nodes.Keys == old(g.nodes).Keys
      ensures TranOk(tran, held) && Revert(tran.actions, C()) == old(Revert(tran.actions, C()))
      ensures SameRefsBut2(old(g.refs), g.refs, to, if detach.Some? then detach.value.node else to)
      ensures st.Ok? <==> UsersMovable(old(g.edges), from, to, autoSkip)
      ensures st.Ok? ==> g.edges == old(Exchanged(C(), from, to, detach)).edges && g.nodes == old(Exchanged(C(), from, to, detach)).nodes
      ensures st.Ok? && detach.Some? ==> RemoveChild(SlotIn(old(g.nodes), detach.value).value, detach.value) in tran.actions
    {
      st := ReplaceNodeNoperm(from, to, autoSkip, tran, held);
      if st.Ok? && detach.Some? {
        DetachSlot(detach.value, tran, held);
      }
    }

    /** The child on the chain is taken away (block.c:5265-5269). */
    method DetachSlot(slot: Slot, tran: Transaction, ghost held: Held)
      requires Indexed(g) && Acyclic(g.edges) && TranOk(tran, held)
      requires SlotIn(g.nodes, slot).Some? && SlotHolds(g, slot, SlotIn(g.nodes, slot).value)
      modifies this, tran
      ensures Indexed(g) && Acyclic(g.edges) && g.nodes.Keys == old(g.nodes).Keys
      ensures TranOk(tran, held) && Revert(tran.actions, C()) == old(Revert(tran.actions, C()))
      ensures SameRefsBut(old(g.refs), g.refs, slot.node)
      ensures g.nodes == PutSlotIn(old(g.nodes), slot, None) && g.edges == Emptied(old(g.edges), SlotIn(old(g.nodes), slot).value)
      ensures RemoveChild(SlotIn(old(g.nodes), slot).value, slot) in tran.actions
    {
      ghost var es := g.edges;
      RemoveFileOrBackingChild(slot, tran, held);
      OneEdgeAcyclic(es, g.edges, SlotIn(old(g.nodes), slot).value);
    }

    /** bdrv_replace_node_common before the transaction is finalized. */
    method ReplaceAndRefresh(from: NodeId, to: NodeId, autoSkip: bool, detach: Option<Slot>, tran: Transaction, ghost held: Held)
      returns (st: Status)
      requires Indexed(g) && Acyclic(g.edges) && TranOk(tran, held) && tran.actions == [] && Alive(g, held, [])
      requires from in g.nodes && to in g.nodes && from != to && g.refs[to] >= 1
      requires detach.Some? ==> SlotIn(g.nodes, detach.value).Some? && SlotHolds(g, detach.value, SlotIn(g.nodes, detach.value).value)
      requires detach.Some? ==> g.refs[detach.value.node] >= 1
      modifies this, tran
      ensures Indexed(g) && Acyclic(g.edges) && g.nodes.Keys == old(g.nodes).Keys
      ensures TranOk(tran, held) && Alive(g, held, tran.actions) && CanRollBack(tran, old(C()))
      ensures st.Ok? <==> ReplaceWorks(old(C()), from, to, autoSkip, detach)
      ensures st.Ok? ==> SameShape(Exchanged(old(C()), from, to, detach).edges, g.edges)
      ensures st.Ok? ==> g.nodes == Exchanged(old(C()), from, to, detach).nodes
      ensures st.Ok? ==> Consistent(childPerm, checkPerm, g.nodes, g.edges, to)
                         && Consistent(childPerm, checkPerm, g.nodes, g.edges, from)
      ensures st.Ok? && detach.Some? ==> RemoveChild(SlotIn(old(g.nodes), detach.value).value, detach.value) in tran.actions
      ensures SameRefsBut2(old(g.refs), g.refs, to, if detach.Some? then detach.value.node else to)
    {
      st := ReplaceAndDetach(from, to, autoSkip, detach, tran, held);
      assert RefsBack(old(C()), C());
      if st.Ok? {
        ghost var c1 := C();
        st := RefreshTwo(to, from, tran, held);
        assert g.refs == c1.refs && g.nodes == c1.nodes;
      }
      TranAlive(g, held, tran.actions);
    }

    /** The refresh of two subtrees at once (block.c:5274-5282). */
    method RefreshTwo(a: NodeId, b: NodeId, tran: Transaction, ghost held: Held) returns (st: Status)
      requires Indexed(g) && Acyclic(g.edges) && TranOk(tran, held) && a in g.nodes && b in g.nodes
      modifies this, tran
      ensures Indexed(g) && Acyclic(g.edges) && SameShape(old(g.edges), g.edges) && C() == old(C()).(edges := g.edges)
      ensures TranOk(tran, held) && Revert(tran.actions, C()) == old(Revert(tran.actions, C())) && Grown(old(tran.actions), tran.actions)
      ensures st.Ok? <==> old(Refreshable(childPerm, checkPerm, g.nodes, g.edges, Below(g, a) + Below(g, b)))
      ensures st.Ok? ==> Consistent(childPerm, checkPerm, g.nodes, g.edges, a)
                         && Consistent(childPerm, checkPerm, g.nodes, g.edges, b)
    {
      ghost var g1 := g;
      ghost var acts1 := tran.actions;
      var list, found := TopologicalDfs(g, [], {}, a);
      list, found := TopologicalDfs(g, list, found, b);
      assert Elems(list) == Below(g, a) + Below(g, b);
      RefreshableIff(childPerm, checkPerm, g, list);
      st := ListRefreshPerms(list, tran);
      BalancedPerms(CoreOf(g1), C(), held, acts1, tran.actions);
      if st.Ok? {
        Settled(childPerm, checkPerm, g1, list, g.edges, a);
        Settled(childPerm, checkPerm, g1, list, g.edges, b);
      }
    }

    /**
     * bdrv_replace_node_common (block.c:5226-5293): all or nothing, and never a cycle.  With
     * `detachSubchain`, `to` lies on the backing chain of `from`, whose links are not frozen.
     */
    method BdrvReplaceNodeCommon(from: NodeId, to: NodeId, autoSkip: bool, detachSubchain: bool, ghost chain: seq<NodeId>,
                                 ghost held: Held) returns (st: Status, ghost detached: Option<Slot>)
      requires Indexed(g) && Acyclic(g.edges) && Balanced(C(), held, []) && Alive(g, held, [])
      requires from in g.nodes && to in g.nodes && from != to && g.refs[from] >= 1 && g.refs[to] >= 1
      requires detachSubchain ==> IsChain(g, chain) && chain[0] == from && chain[|chain| - 1] == to
      requires detachSubchain ==> forall n :: n in chain[..|chain| - 1] ==> LinkOk(g, n)
      modifies this
      ensures Indexed(g) && Acyclic(g.edges) && Balanced(C(), held, []) && Alive(g, held, [])
      ensures if detachSubchain then LinkTo(old(g), chain, to, detached) else detached == None
      ensures st.Ok? <==> ReplaceWorks(old(C()), from, to, autoSkip, detached)
      ensures st.Ok? ==> Carried(childPerm, checkPerm, Exchanged(old(C()), from, to, detached), C(), to)
                         && Carried(childPerm, checkPerm, Exchanged(old(C()), from, to, detached), C(), from)
      ensures st.Ok? && detachSubchain ==> SlotIn(old(g.nodes), detached.value).Some? && SlotIn(old(g.nodes), detached.value).value !in g.edges
      ensures NoNewLeak(old(g.refs), g.refs)
      ensures st.Err? ==> C() == old(C())
    {
      var detach := None;
      HeldCounts(C(), held, [], from);
      if detachSubchain {
        var p := FindCowParent(from, to, chain);
        assert LinkOk(g, p);
        HeldCounts(C(), held, [], p);
        detach := FilterOrCowSlot(p, g.nodes[p]);
      }
      detached := detach;
      st := ReplaceHolding(from, to, autoSkip, detach, held);
    }

    /** The transaction itself, while an extra reference keeps `from` alive (block.c:5251-5292). */
    method ReplaceHolding(from: NodeId, to: NodeId, autoSkip: bool, detach: Option<Slot>, ghost held: Held) returns (st: Status)
      requires Indexed(g) && Acyclic(g.edges) && Balanced(C(), held, []) && Alive(g, held, [])
      requires from in g.nodes && to in g.nodes && from != to && g.refs[from] >= 1 && g.refs[to] >= 1
      requires detach.Some? ==> SlotIn(g.nodes, detach.value).Some? && SlotHolds(g, detach.value, SlotIn(g.nodes, detach.value).value)
      requires detach.Some? ==> detach.value.node in g.nodes && g.refs[detach.value.node] >= 1
      modifies this
      ensures Indexed(g) && Acyclic(g.edges) && Balanced(C(), held, []) && Alive(g, held, [])
      ensures st.Ok? <==> ReplaceWorks(old(C()), from, to, autoSkip, detach)
      ensures st.Ok? ==> Carried(childPerm, checkPerm, Exchanged(old(C()), from, to, detach), C(), to)
                         && Carried(childPerm, checkPerm, Exchanged(old(C()), from, to, detach), C(), from)
      ensures st.Ok? && detach.Some? ==> SlotIn(old(g.nodes), detach.value).value !in g.edges
      ensures NoNewLeak(old(g.refs), g.refs)
      ensures st.Err? ==> C() == old(C())
    {
      ghost var c0 := C();
      BalancedHold(C(), held, from, []);
      HoldAlive(g, held, [], from);
      Ref(from);
      ghost var c1 := C();
      ReplaceWorksSame(c0, c1, from, to, autoSkip, detach);
      st := ReplaceAndRelease(from, to, autoSkip, detach, held);
      RefUpDown(c0, from);
      if st.Ok? {
        ExchangedDone(c0, c1, C(), from, to, detach);
      }
    }

    lemma ExchangedDone(c0: Core, c1: Core, c: Core, from: NodeId, to: NodeId, detach: Option<Slot>)
      requires c1 == RefAdd(c0, from, 1) && from in c0.refs && c0.refs[from] >= 1 && NoNewLeak(c1.refs, c.refs)
      requires Carried(childPerm, checkPerm, Exchanged(c1, from, to, detach), c, to)
               && Carried(childPerm, checkPerm, Exchanged(c1, from, to, detach), c, from)
      ensures Carried(childPerm, checkPerm, Exchanged(c0, from, to, detach), c, to)
              && Carried(childPerm, checkPerm, Exchanged(c0, from, to, detach), c, from)
      ensures NoNewLeak(c0.refs, c.refs)
    {
      CarriedRefs(childPerm, checkPerm, Exchanged(c0, from, to, detach), Exchanged(c1, from, to, detach), c, to);
      CarriedRefs(childPerm, checkPerm, Exchanged(c0, from, to, detach), Exchanged(c1, from, to, detach), c, from);
      NoNewLeakTrans(c0.refs, c1.refs, c.refs);
    }

    method ReplaceAndRelease(from: NodeId, to: NodeId, autoSkip: bool, detach: Option<Slot>, ghost held: Held) returns (st: Status)
      requires Indexed(g) && Acyclic(g.edges) && Balanced(C(), Hold(held, from), []) && Alive(g, Hold(held, from), [])
      requires from in g.nodes && to in g.nodes && from != to && g.refs[to] >= 1
      requires detach.Some? ==> SlotIn(g.nodes, detach.value).Some? && SlotHolds(g, detach.value, SlotIn(g.nodes, detach.value).value)
      requires detach.Some? ==> detach.value.node in g.nodes && g.refs[detach.value.node] >= 1
      requires g.refs[from] > 1
      modifies this
      ensures Indexed(g) && Acyclic(g.edges) && Balanced(C(), held, []) && Alive(g, held, [])
      ensures st.Ok? <==> ReplaceWorks(old(C()), from, to, autoSkip, detach)
      ensures st.Ok? ==> Carried(childPerm, checkPerm, Exchanged(old(C()), from, to, detach), C(), to)
                         && Carried(childPerm, checkPerm, Exchanged(old(C()), from, to, detach), C(), from)
      ensures st.Ok? && detach.Some? ==> SlotIn(old(g.nodes), detach.value).value !in g.edges
      ensures st.Ok? ==> NoNewLeak(old(g.refs), g.refs)
      ensures st.Err? ==> C() == RefAdd(old(C()), from, -1)
    {
      ghost var c0 := C();
      st := ReplaceTran(from, to, autoSkip, detach, Hold(held, from));
      ghost var g1 := g;
      assert HeldOf(Hold(held, from), from) >= 1;
      Unref(from, Hold(held, from), []);
      if st.Ok? {
        UnrefSettles(g1, g, from);
        CarriedOn(childPerm, checkPerm, Exchanged(c0, from, to, detach), g1, C(), to);
        CarriedOn(childPerm, checkPerm, Exchanged(c0, from, to, detach), g1, C(), from);
        NoNewLeakTrans(c0.refs, g1.refs, g.refs);
      }
      YieldHold(g, held, [], from);
      BalancedSameHeld(C(), Yield(Hold(held, from), from), held, []);
    }

    method ReplaceTran(from: NodeId, to: NodeId, autoSkip: bool, detach: Option<Slot>, ghost held: Held) returns (st: Status)
      requires Indexed(g) && Acyclic(g.edges) && Balanced(C(), held, []) && Alive(g, held, [])
      requires from in g.nodes && to in g.nodes && from != to && g.refs[to] >= 1
      requires detach.Some? ==> SlotIn(g.nodes, detach.value).Some? && SlotHolds(g, detach.value, SlotIn(g.nodes, detach.value).value)
      requires detach.Some? ==> detach.value.node in g.nodes && g.refs[detach.value.node] >= 1
      modifies this
      ensures Indexed(g) && Acyclic(g.edges) && Balanced(C(), held, []) && Alive(g, held, [])
      ensures st.Ok? <==> ReplaceWorks(old(C()), from, to, autoSkip, detach)
      ensures st.Ok? ==> Carried(childPerm, checkPerm, Exchanged(old(C()), from, to, detach), C(), to)
                         && Carried(childPerm, checkPerm, Exchanged(old(C()), from, to, detach), C(), from)
      ensures st.Ok? && detach.Some? ==> SlotIn(old(g.nodes), detach.value).value !in g.edges
      ensures NoNewLeak(old(g.refs), g.refs)
      ensures st.Err? ==> C() == old(C())
    {
      ghost var c0 := C();
      var tran := new Transaction();
      st := ReplaceAndRefresh(from, to, autoSkip, detach, tran, held);
      ghost var g1 := g;
      MoreRefs(c0.refs, g1.refs, to, if detach.Some? then detach.value.node else to);
      TranFinalize(st, tran, held, c0);
      if st.Ok? {
        NoNewLeakTrans(c0.refs, g1.refs, g.refs);
        KeptSame(Exchanged(c0, from, to, detach), CoreOf(g1));
        if detach.Some? {
          DetachedFree(c0, g1.edges, from, to, detach.value, tran.actions);
        }
        CarriedOn(childPerm, checkPerm, Exchanged(c0, from, to, detach), g1, C(), to);
        CarriedOn(childPerm, checkPerm, Exchanged(c0, from, to, detach), g1, C(), from);
      }
    }

    lemma DetachedFree(c: Core, es: Edges, from: NodeId, to: NodeId, slot: Slot, acts: seq<Action>)
      requires SlotIn(c.nodes, slot).Some? && SlotIn(c.nodes, slot).value in c.edges && SameShape(Exchanged(c, from, to, Some(slot)).edges, es)
      requires RemoveChild(SlotIn(c.nodes, slot).value, slot) in acts
      ensures Frees(es, RemoveChild(SlotIn(c.nodes, slot).value, slot))
    {
    }

    lemma ReplaceWorksSame(c: Core, c': Core, from: NodeId, to: NodeId, autoSkip: bool, detach: Option<Slot>)
      requires c'.nodes == c.nodes && c'.edges == c.edges
      ensures ReplaceWorks(c', from, to, autoSkip, detach) == ReplaceWorks(c, from, to, autoSkip, detach)
    {
    }

    // ----- bdrv_set_backing_hd ------------------------------------------------------------

    method DetachBacking(bs: NodeId, tran: Transaction, ghost held: Held)
      requires Indexed(g) && Acyclic(g.edges) && TranOk(tran, held) && bs in g.nodes
      requires g.nodes[bs].backing.Some? && BackingOk(g, bs) && !g.edges[g.nodes[bs].backing.value].frozen
      modifies this, tran
      ensures Indexed(g) && Acyclic(g.edges) && g.nodes == PutSlotIn(old(g.nodes), Backing(bs), None)
      ensures TranOk(tran, held) && Revert(tran.actions, C()) == old(Revert(tran.actions, C()))
      ensures SameRefsBut(old(g.refs), g.refs, bs) && g.edges == Emptied(old(g.edges), old(g.nodes)[bs].backing.value)
      ensures RemoveChild(old(g.nodes)[bs].backing.value, Backing(bs)) in tran.actions
    {
      ghost var es := g.edges;
      RemoveFileOrBackingChild(Backing(bs), tran, held);
      OneEdgeAcyclic(es, g.edges, old(g.nodes)[bs].backing.value);
    }

    /** The nodes and edges without the present backing child of `bs`. */
    ghost function Unbacked(c: Core, bs: NodeId): Core
      requires bs in c.nodes
    {
      if c.nodes[bs].backing.None? then c
      else c.(edges := Emptied(c.edges, c.nodes[bs].backing.value), nodes := PutSlotIn(c.nodes, Backing(bs), None))
    }

    /** The nodes and edges with a new backing child, if there is to be one. */
    ghost function Backed(c: Core, bs: NodeId, backing: Option<NodeId>, e: EdgeId): Core {
      match backing
      case None => c
      case Some(b) =>
        var child := NewChild(childPerm, c, bs, b, BackingRole(c.nodes, bs)).(bs := Some(b));
        c.(edges := c.edges[e := child], nodes := PutSlotIn(c.nodes, Backing(bs), Some(e)))
    }

    ghost function Rebacked(c: Core, bs: NodeId, backing: Option<NodeId>, e: EdgeId): Core
      requires bs in c.nodes
    {
      Backed(Unbacked(c, bs), bs, backing, e)
    }

    /** The backing slot holds the new edge to the given node, or nothing; the old backing edge points nowhere; no other edge has changed. */
    lemma RebackedMeans(c: Core, bs: NodeId, backing: Option<NodeId>, e: EdgeId, x: EdgeId)
      requires bs in c.nodes && e !in c.edges && x in c.edges
      ensures var a := Rebacked(c, bs, backing, e);
        && a.nodes == c.nodes[bs := c.nodes[bs].(backing := if backing.Some? then Some(e) else None)]
        && a.edges.Keys == (if backing.Some? then c.edges.Keys + {e} else c.edges.Keys)
        && (backing.Some? ==> a.edges[e].owner == Bds(bs) && a.edges[e].bs == backing)
        && a.edges[x] == if c.nodes[bs].backing == Some(x) then c.edges[x].(bs := None) else c.edges[x]
    {
      assert c.nodes[bs].backing.None? && backing.None? ==> c.nodes[bs := c.nodes[bs].(backing := None)] == c.nodes;
      assert Rebacked(c, bs, backing, e).nodes == c.nodes[bs := c.nodes[bs].(backing := if backing.Some? then Some(e) else None)];
    }

    /** What committing leaves of the graph as planned. */
    lemma BackingDone(c0: Core, g1: Graph, c: Core, bs: NodeId, backing: Option<NodeId>, e: EdgeId, acts: seq<Action>)
      requires Indexed(g1) && bs in c0.nodes && e !in c0.edges && (c0.nodes[bs].backing.Some? ==> c0.nodes[bs].backing.value in c0.edges)
      requires g1.nodes == Rebacked(c0, bs, backing, e).nodes && SameShape(Rebacked(c0, bs, backing, e).edges, g1.edges)
      requires Consistent(childPerm, checkPerm, g1.nodes, g1.edges, bs) && Settles(CoreOf(g1), c) && AllFreed(g1.edges, acts, c.edges)
      requires c0.nodes[bs].backing.Some? ==> RemoveChild(c0.nodes[bs].backing.value, Backing(bs)) in acts
      requires SameRefsBut2(c0.refs, g1.refs, bs, if backing.Some? then backing.value else bs)
      requires (bs in c0.refs ==> c0.refs[bs] >= 1) && (backing.Some? && backing.value in c0.refs ==> c0.refs[backing.value] >= 1)
      ensures Carried(childPerm, checkPerm, Rebacked(c0, bs, backing, e), c, bs) && NoNewLeak(c0.refs, c.refs)
      ensures c0.nodes[bs].backing.Some? ==> c0.nodes[bs].backing.value !in c.edges
    {
      KeptSame(Rebacked(c0, bs, backing, e), CoreOf(g1));
      if c0.nodes[bs].backing.Some? {
        UnbackedFree(c0, g1.edges, bs, backing, e);
      }
      CarriedOn(childPerm, checkPerm, Rebacked(c0, bs, backing, e), g1, c, bs);
      MoreRefs(c0.refs, g1.refs, bs, if backing.Some? then backing.value else bs);
      NoNewLeakTrans(c0.refs, g1.refs, c.refs);
    }

    lemma UnbackedFree(c: Core, es: Edges, bs: NodeId, backing: Option<NodeId>, e: EdgeId)
      requires bs in c.nodes && e !in c.edges && c.nodes[bs].backing.Some? && c.nodes[bs].backing.value in c.edges
      requires SameShape(Rebacked(c, bs, backing, e).edges, es)
      ensures Frees(es, RemoveChild(c.nodes[bs].backing.value, Backing(bs)))
    {
      RebackedMeans(c, bs, backing, e, c.nodes[bs].backing.value);
    }

    /** The driver takes a backing child, the present one is not frozen, and the new one closes no cycle. */
    ghost predicate BackingAllowed(c: Core, bs: NodeId, backing: Option<NodeId>)
      requires bs in c.nodes
    {
      var node := c.nodes[bs];
      && node.drv.Some? && (node.drv.value.isFilter || node.drv.value.supportsBacking)
      && (node.backing.Some? && node.backing.value in c.edges ==> !c.edges[node.backing.value].frozen)
      && (backing.Some? ==> !Reach(Unbacked(c, bs).edges, backing.value, bs))
    }

    /** What stands in the way of a new backing child: no driver, a driver without one, a frozen link, or a cycle. */
    lemma BackingRefused(c: Core, bs: NodeId, backing: Option<NodeId>)
      requires bs in c.nodes && (c.nodes[bs].backing.Some? ==> c.nodes[bs].backing.value in c.edges)
      ensures !BackingAllowed(c, bs, backing) <==>
        || c.nodes[bs].drv.None?
        || (!c.nodes[bs].drv.value.isFilter && !c.nodes[bs].drv.value.supportsBacking)
        || (c.nodes[bs].backing.Some? && c.edges[c.nodes[bs].backing.value].frozen)
        || (backing.Some? && Reach(Rebacked(c, bs, None, 0).edges, backing.value, bs))
    {
    }

    /** The change is allowed, and the result can be refreshed. */
    ghost predicate SetBackingWorks(c: Core, bs: NodeId, backing: Option<NodeId>, e: EdgeId)
      requires bs in c.nodes
    {
      BackingAllowed(c, bs, backing) && RefreshableAt(Rebacked(c, bs, backing, e), bs)
    }

    /** The graph changes of bdrv_set_backing_hd (block.c:3356-3442 with is_backing set). */
    method SetBackingNoperm(bs: NodeId, backing: Option<NodeId>, e: EdgeId, tran: Transaction, ghost held: Held)
      returns (st: Status)
      requires Indexed(g) && Acyclic(g.edges) && TranOk(tran, held) && bs in g.nodes && e !in g.edges
      requires backing.Some? ==> backing.value in g.nodes
      requires g.nodes[bs].backing.Some? ==> BackingOk(g, bs)
      modifies this, tran
      ensures Indexed(g) && Acyclic(g.edges) && g.nodes.Keys == old(g.nodes).Keys
      ensures TranOk(tran, held) && Revert(tran.actions, C()) == old(Revert(tran.actions, C()))
      ensures SameRefsBut2(old(g.refs), g.refs, bs, if backing.Some? then backing.value else bs)
      ensures st.Ok? <==> BackingAllowed(old(C()), bs, backing)
      ensures st.Ok? ==> g.nodes == Rebacked(old(C()), bs, backing, e).nodes && g.edges == Rebacked(old(C()), bs, backing, e).edges
      ensures st.Ok? && old(g.nodes)[bs].backing.Some? ==> RemoveChild(old(g.nodes)[bs].backing.value, Backing(bs)) in tran.actions
    {
      var node := g.nodes[bs];
      if node.drv.None? {
        return Err(EINVAL);
      }
      if node.backing.Some? && g.edges[node.backing.value].frozen {
        return Err(EPERM);
      }
      if !node.drv.value.isFilter && !node.drv.value.supportsBacking {
        return Err(EINVAL);
      }
      st := Reback(bs, backing, e, tran, held);
    }

    /** Take the present backing child away and attach the new one. */
    method Reback(bs: NodeId, backing: Option<NodeId>, e: EdgeId, tran: Transaction, ghost held: Held) returns (st: Status)
      requires Indexed(g) && Acyclic(g.edges) && TranOk(tran, held) && bs in g.nodes && e !in g.edges
      requires backing.Some? ==> backing.value in g.nodes
      requires g.nodes[bs].backing.Some? ==> BackingOk(g, bs) && !g.edges[g.nodes[bs].backing.value].frozen
      modifies this, tran
      ensures Indexed(g) && Acyclic(g.edges) && g.nodes.Keys == old(g.nodes).Keys
      ensures TranOk(tran, held) && Revert(tran.actions, C()) == old(Revert(tran.actions, C()))
      ensures SameRefsBut2(old(g.refs), g.refs, bs, if backing.Some? then backing.value else bs)
      ensures st.Ok? <==> (backing.Some? ==> !Reach(Unbacked(old(C()), bs).edges, backing.value, bs))
      ensures st.Ok? ==> g.nodes == Rebacked(old(C()), bs, backing, e).nodes && g.edges == Rebacked(old(C()), bs, backing, e).edges
      ensures st.Ok? && old(g.nodes)[bs].backing.Some? ==> RemoveChild(old(g.nodes)[bs].backing.value, Backing(bs)) in tran.actions
    {
      if g.nodes[bs].backing.Some? {
        DetachBacking(bs, tran, held);
      }
      BackedSame(Unbacked(old(C()), bs), C(), bs, backing, e);
      st := AttachBacking(bs, backing, e, tran, held);
    }

    lemma BackedSame(c: Core, c': Core, bs: NodeId, backing: Option<NodeId>, e: EdgeId)
      requires c'.nodes == c.nodes && c'.edges == c.edges
      ensures Backed(c', bs, backing, e).nodes == Backed(c, bs, backing, e).nodes
      ensures Backed(c', bs, backing, e).edges == Backed(c, bs, backing, e).edges
    {
    }

    method AttachBacking(bs: NodeId, backing: Option<NodeId>, e: EdgeId, tran: Transaction, ghost held: Held)
      returns (st: Status)
      requires Indexed(g) && Acyclic(g.edges) && TranOk(tran, held) && bs in g.nodes && e !in g.edges
      requires (backing.Some? ==> backing.value in g.nodes) && g.nodes[bs].backing.None?
      modifies this, tran
      ensures Indexed(g) && Acyclic(g.edges) && g.nodes.Keys == old(g.nodes).Keys
      ensures TranOk(tran, held) && Revert(tran.actions, C()) == old(Revert(tran.actions, C()))
      ensures SameRefsBut(old(g.refs), g.refs, if backing.Some? then backing.value else bs)
      ensures st.Ok? <==> (backing.Some? ==> !Reach(old(g.edges), backing.value, bs))
      ensures st.Ok? ==> g.nodes == Backed(old(C()), bs, backing, e).nodes && g.edges == Backed(old(C()), bs, backing, e).edges
      ensures Grown(old(tran.actions), tran.actions)
    {
      st := Ok;
      if backing.Some? {
        st := AttachChildNoperm(bs, backing.value, BackingRole(g.nodes, bs), e, Backing(bs), tran, held);
      }
    }

    /** bdrv_set_backing_hd before the transaction is finalized. */
    method SetBackingAndRefresh(bs: NodeId, backing: Option<NodeId>, e: EdgeId, tran: Transaction, ghost held: Held)
      returns (st: Status)
      requires Indexed(g) && Acyclic(g.edges) && TranOk(tran, held) && tran.actions == [] && Alive(g, held, [])
      requires bs in g.nodes && e !in g.edges && (backing.Some? ==> backing.value in g.nodes && g.refs[backing.value] >= 1)
      requires g.refs[bs] >= 1 && (g.nodes[bs].backing.Some? ==> BackingOk(g, bs))
      modifies this, tran
      ensures Indexed(g) && Acyclic(g.edges) && g.nodes.Keys == old(g.nodes).Keys
      ensures Balanced(C(), held, tran.actions) && Alive(g, held, tran.actions)
      ensures st.Err? ==> CanRollBack(tran, old(C()))
      ensures st.Ok? <==> SetBackingWorks(old(C()), bs, backing, e)
      ensures st.Ok? ==> g.nodes == Rebacked(old(C()), bs, backing, e).nodes
      ensures st.Ok? ==> SameShape(Rebacked(old(C()), bs, backing, e).edges, g.edges)
      ensures st.Ok? && old(g.nodes)[bs].backing.Some? ==> RemoveChild(old(g.nodes)[bs].backing.value, Backing(bs)) in tran.actions
      ensures st.Ok? ==> Consistent(childPerm, checkPerm, g.nodes, g.edges, bs)
      ensures SameRefsBut2(old(g.refs), g.refs, bs, if backing.Some? then backing.value else bs)
    {
      st := SetBackingNoperm(bs, backing, e, tran, held);
      TranAlive(g, held, tran.actions);
      if st.Ok? {
        ghost var g1 := g;
        st := RefreshPerms(bs);
        BalancedPerms(CoreOf(g1), C(), held, tran.actions, tran.actions);
      }
    }

    /** bdrv_set_backing_hd (block.c:3452-3473): all or nothing, and never a cycle. */
    method BdrvSetBackingHd(bs: NodeId, backing: Option<NodeId>, e: EdgeId, ghost held: Held) returns (st: Status)
      requires Indexed(g) && Acyclic(g.edges) && Balanced(C(), held, []) && Alive(g, held, [])
      requires bs in g.nodes && e !in g.edges && (backing.Some? ==> backing.value in g.nodes && g.refs[backing.value] >= 1)
      requires g.refs[bs] >= 1 && (g.nodes[bs].backing.Some? ==> BackingOk(g, bs))
      modifies this
      ensures Indexed(g) && Acyclic(g.edges) && Balanced(C(), held, []) && Alive(g, held, [])
      ensures st.Ok? <==> SetBackingWorks(old(C()), bs, backing, e)
      ensures st.Ok? ==> Carried(childPerm, checkPerm, Rebacked(old(C()), bs, backing, e), C(), bs)
      ensures st.Ok? && old(g.nodes)[bs].backing.Some? ==> old(g.nodes)[bs].backing.value !in g.edges
      ensures NoNewLeak(old(g.refs), g.refs)
      ensures st.Err? ==> C() == old(C())
    {
      ghost var c0 := C();
      var tran := new Transaction();
      st := SetBackingAndRefresh(bs, backing, e, tran, held);
      ghost var g1 := g;
      TranFinalize(st, tran, held, c0);
      if st.Ok? {
        BackingDone(c0, g1, C(), bs, backing, e, tran.actions);
      }
    }
  }
}
