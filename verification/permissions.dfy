// Permission masks on the edges of the block graph: cumulative masks, conflicts, and the default
// .bdrv_child_perm implementations (block.c:2141-2211, block.c:2546-2562, block.c:2659-2807).
module Permissions {
  import opened BlockGraph
  import opened Wrappers

  /** A driver's .bdrv_child_perm: node, edge (absent while attaching), role, masks of the parents. */
  type ChildPermFn = (NodeId, Option<EdgeId>, Role, Perms, Perms) -> (Perms, Perms)

  // ----- cumulative masks and conflicts ---------------------------------------------------

  ghost predicate UsedBy(es: Edges, n: NodeId, p: Perm) {
    exists e :: e in es && es[e].bs == Some(n) && p in es[e].perm
  }

  /** What the parents of `n` together require. */
  ghost function CumPerm(es: Edges, n: NodeId): Perms {
    set p | p in ALL_PERMS && UsedBy(es, n, p)
  }

  ghost predicate SharedByAll(es: Edges, n: NodeId, p: Perm) {
    forall e :: e in es && es[e].bs == Some(n) ==> p in es[e].shared
  }

  /** What all the parents of `n` let others do. */
  ghost function CumShared(es: Edges, n: NodeId): Perms {
    set p | p in ALL_PERMS && SharedByAll(es, n, p)
  }

  /** bdrv_a_allow_b in both directions for every two users of `n`. */
  ghost predicate NoConflict(es: Edges, n: NodeId) {
    forall a, b :: a in es && b in es && a != b && es[a].bs == Some(n) && es[b].bs == Some(n) ==>
      es[b].perm <= es[a].shared
  }

  lemma PermInAll(p: Perm)
    ensures p in ALL_PERMS
  {
  }

  /** bdrv_get_cumulative_perm (block.c:2546-2562). */
  method GetCumulativePerm(g: Graph, n: NodeId) returns (perm: Perms, shared: Perms)
    requires Indexed(g) && n in g.nodes
    ensures perm == CumPerm(g.edges, n) && shared == CumShared(g.edges, n)
  {
    perm, shared := {}, ALL_PERMS;
    forall p ensures p in ALL_PERMS { PermInAll(p); }
    assert ListsOk(g, n);
    var ps := g.parents[n];
    for i := 0 to |ps|
      invariant forall p :: p in perm <==> exists j :: 0 <= j < i && InParents(g, ps[j], n) && p in g.edges[ps[j]].perm
      invariant forall p :: p in shared <==> forall j :: 0 <= j < i && InParents(g, ps[j], n) ==> p in g.edges[ps[j]].shared
    {
      assert ps[i] in ps && InParents(g, ps[i], n);
      perm := perm + g.edges[ps[i]].perm;
      shared := shared * g.edges[ps[i]].shared;
    }
    forall p ensures p in perm <==> p in CumPerm(g.edges, n) {
      PermInAll(p);
      if e :| e in g.edges && g.edges[e].bs == Some(n) && p in g.edges[e].perm {
        assert InParents(g, e, n) && e in ps;
      }
    }
    forall p ensures p in shared <==> p in CumShared(g.edges, n) {
      PermInAll(p);
      if p in shared {
        forall e | e in g.edges && g.edges[e].bs == Some(n) ensures p in g.edges[e].shared {
          assert InParents(g, e, n) && e in ps;
        }
      }
    }
  }

  /** bdrv_parent_perms_conflict (block.c:2171-2194). */
  method ParentPermsConflict(g: Graph, n: NodeId) returns (conflict: bool)
    requires Indexed(g) && n in g.nodes
    ensures conflict <==> !NoConflict(g.edges, n)
  {
    assert ListsOk(g, n);
    var ps := g.parents[n];
    for i := 0 to |ps|
      invariant forall k, j :: 0 <= k < i && 0 <= j < |ps| && k != j ==> Allows(g, n, ps[k], ps[j])
    {
      assert ps[i] in ps && InParents(g, ps[i], n);
      for j := 0 to |ps|
        invariant forall k :: 0 <= k < j && k != i ==> Allows(g, n, ps[i], ps[k])
      {
        assert ps[j] in ps && InParents(g, ps[j], n);
        var a, b := g.edges[ps[i]], g.edges[ps[j]];
        assert b.perm <= a.shared <==> b.perm * a.shared == b.perm;
        if ps[i] != ps[j] && b.perm * a.shared != b.perm {
          return true;
        }
      }
    }
    forall a, b | a in g.edges && b in g.edges && a != b && g.edges[a].bs == Some(n) && g.edges[b].bs == Some(n)
      ensures g.edges[b].perm <= g.edges[a].shared {
      assert InParents(g, a, n) && InParents(g, b, n);
      var k :| 0 <= k < |ps| && ps[k] == a;
      var j :| 0 <= j < |ps| && ps[j] == b;
      assert Allows(g, n, ps[k], ps[j]);
    }
    return false;
  }

  ghost predicate Allows(g: Graph, n: NodeId, a: EdgeId, b: EdgeId) {
    InParents(g, a, n) && InParents(g, b, n) && g.edges[b].perm <= g.edges[a].shared
  }

  // ----- the default permission functions -------------------------------------------------

  predicate Writable(n: Node) {
    n.rdwr && !n.inactive
  }

  function FilterPerms(perm: Perms, shared: Perms): (Perms, Perms) {
    (perm * ALL_PERMS, shared * ALL_PERMS)
  }

  function CowPerms(n: Node, perm: Perms, shared: Perms): (Perms, Perms) {
    (perm * {ConsistentRead},
     (if Write in shared then {Write, Resize} else {})
     + {ConsistentRead, WriteUnchanged}
     + (if n.inactive then {Write, Resize} else {}))
  }

  function StoragePerms(n: Node, role: Role, perm: Perms, shared: Perms): (Perms, Perms) {
    var (p0, s0) := FilterPerms(perm, shared);
    var p1 := if role.metadata
              then p0 + (if Writable(n) then {Write, Resize} else {}) + (if n.noIo then {} else {ConsistentRead})
              else p0;
    var s1 := if role.metadata then s0 - {Write, Resize} else s0;
    var s2 := if role.data then s1 - {Resize} else s1;
    var p2 := if role.data && WriteUnchanged in p1 then p1 + {Write} else p1;
    var p3 := if role.data && Write in p2 then p2 + {Resize} else p2;
    (p3, if n.inactive then s2 + {Write, Resize} else s2)
  }

  /** bdrv_default_perms; a child has a filtered, a COW, or a data/metadata role. */
  function DefaultPerms(n: Node, role: Role, perm: Perms, shared: Perms): (Perms, Perms) {
    if role.filtered then FilterPerms(perm, shared)
    else if role.cow then CowPerms(n, perm, shared)
    else StoragePerms(n, role, perm, shared)
  }

  /** Requiring no more and sharing no less. */
  ghost predicate Looser(a: (Perms, Perms), b: (Perms, Perms)) {
    a.0 <= b.0 && b.1 <= a.1
  }

  /** With looser parents, a node asks for looser permissions on each child. */
  lemma DefaultPermsMonotone(n: Node, role: Role, p: Perms, s: Perms, p': Perms, s': Perms)
    requires Looser((p', s'), (p, s))
    ensures Looser(DefaultPerms(n, role, p', s'), DefaultPerms(n, role, p, s))
  {
  }

  /** A backing file is only read, and may change under the reader only if the reader's parents allow writes. */
  lemma CowChild(n: Node, role: Role, perm: Perms, shared: Perms)
    requires role.cow && !role.filtered
    ensures var (p, s) := DefaultPerms(n, role, perm, shared);
      && p == (if ConsistentRead in perm then {ConsistentRead} else {})
      && {ConsistentRead, WriteUnchanged} <= s
      && (Write in s <==> Write in shared || n.inactive) && (Resize in s <==> Write in s)
  {
  }

  /** A filtered child is asked for exactly what the parents ask for, and shares exactly what they share. */
  lemma FilteredChild(n: Node, role: Role, perm: Perms, shared: Perms)
    requires role.filtered
    ensures DefaultPerms(n, role, perm, shared) == (perm, shared)
  {
    forall p: Perm ensures p in ALL_PERMS { PermInAll(p); }
    assert perm * ALL_PERMS == perm && shared * ALL_PERMS == shared;
  }

  /**
   * A storage child gets all that the parents need, and CONSISTENT_READ for its metadata unless no
   * I/O is done; whoever may write may also grow the file. While the node is active nobody else
   * may resize the child, nor write to it if it holds metadata; apart from that the parents'
   * sharing is passed on.
   */
  lemma StorageChild(n: Node, role: Role, perm: Perms, shared: Perms)
    requires (role.data || role.metadata) && !role.filtered && !role.cow
    ensures var (p, s) := DefaultPerms(n, role, perm, shared);
      var always := role.metadata && Writable(n);
      && (ConsistentRead in p <==> ConsistentRead in perm || (role.metadata && !n.noIo))
      && (Write in p <==> Write in perm || always || (role.data && WriteUnchanged in perm))
      && (WriteUnchanged in p <==> WriteUnchanged in perm)
      && (Resize in p <==> Resize in perm || always || (role.data && (Write in perm || WriteUnchanged in perm)))
      && (ConsistentRead in s <==> ConsistentRead in shared) && (WriteUnchanged in s <==> WriteUnchanged in shared)
      && (Write in s <==> n.inactive || (Write in shared && !role.metadata))
      && (Resize in s <==> n.inactive)
  {
    forall p: Perm ensures p in ALL_PERMS { PermInAll(p); }
  }
}
