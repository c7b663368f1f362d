// Conservation of node references: every reference counted in `refcnt` is held by an edge into
// the node, by a caller, or by a pending transaction record (block.c:2346-2446, block.c:3054-3067,
// block.c:5126-5165, block.c:6902-6921).
module References {
  import opened BlockGraph
  import opened Transactions
  import opened Wrappers

  ghost function Into(es: Edges, n: NodeId): set<EdgeId> {
    set e | e in es && es[e].bs == Some(n)
  }

  ghost function InDegree(es: Edges, n: NodeId): nat {
    |Into(es, n)|
  }

  /** The reference that one pending record keeps until it is committed, aborted or cleaned. */
  ghost function ParkedBy(a: Action, n: NodeId): nat {
    match a
    case ReplaceChild(_, _, was, _) => if was == n then 1 else 0
    case RemoveChild(_, slot) => if !slot.Local? && slot.node == n then 1 else 0
    case _ => 0
  }

  /** Committing such an action only calls drivers. */
  predicate Inert(a: Action) {
    a.SetPerm? || a.DrvSetPerm? || a.AttachChild?
  }

  ghost function Parked(acts: seq<Action>, n: NodeId): nat {
    if acts == [] then 0 else ParkedBy(acts[0], n) + Parked(acts[1..], n)
  }

  /** The two transactions hold the same references. */
  ghost predicate SameParked(acts: seq<Action>, acts': seq<Action>) {
    (forall n :: Parked(acts', n) == Parked(acts, n)) && Grown(acts, acts')
  }

  /** Actions have only been added. */
  ghost predicate Grown(acts: seq<Action>, acts': seq<Action>) {
    forall a :: a in acts ==> a in acts'
  }

  lemma ParkedRecord(a: Action, acts: seq<Action>)
    requires a.SetPerm? || a.DrvSetPerm? || a.AttachChild?
    ensures SameParked(acts, [a] + acts)
  {
    assert ([a] + acts)[1..] == acts;
  }

  /** References held by callers outside the graph. */
  type Held = map<NodeId, nat>

  ghost function HeldOf(held: Held, n: NodeId): nat {
    if n in held then held[n] else 0
  }

  ghost function Hold(held: Held, n: NodeId): Held {
    held[n := HeldOf(held, n) + 1]
  }

  ghost function Yield(held: Held, n: NodeId): Held {
    if HeldOf(held, n) == 0 then held else held[n := held[n] - 1]
  }

  /** Whoever holds a reference refers to a node that exists. */
  ghost predicate Alive(g: Graph, held: Held, acts: seq<Action>) {
    forall n {:trigger HeldOf(held, n)} {:trigger Parked(acts, n)} ::
      HeldOf(held, n) > 0 || Parked(acts, n) > 0 ==> n in g.nodes
  }

  ghost predicate BalancedAt(c: Core, held: Held, acts: seq<Action>, n: NodeId) {
    n in c.refs ==> c.refs[n] == InDegree(c.edges, n) + HeldOf(held, n) + Parked(acts, n)
  }

  ghost predicate Balanced(c: Core, held: Held, acts: seq<Action>) {
    forall n :: BalancedAt(c, held, acts, n)
  }

  lemma ParentsInto(g: Graph, n: NodeId)
    requires Indexed(g) && n in g.nodes
    ensures g.parents[n] != [] ==> Into(g.edges, n) != {}
  {
    assert ListsOk(g, n);
    if g.parents[n] != [] {
      assert InParents(g, g.parents[n][0], n);
      assert g.parents[n][0] in Into(g.edges, n);
    }
  }

  /** A node whose count reaches zero has no edge pointing to it, no holder and no pending record. */
  lemma ZeroMeansUnused(g: Graph, held: Held, acts: seq<Action>, n: NodeId)
    requires Indexed(g) && Balanced(CoreOf(g), held, acts) && n in g.nodes && g.refs[n] == 0
    ensures g.parents[n] == [] && HeldOf(held, n) == 0 && Parked(acts, n) == 0
    ensures forall e :: e in g.edges ==> g.edges[e].bs != Some(n)
  {
    assert BalancedAt(CoreOf(g), held, acts, n);
    assert Into(g.edges, n) == {};
    assert ListsOk(g, n);
    forall e | e in g.edges ensures g.edges[e].bs != Some(n) {
      assert e !in Into(g.edges, n);
    }
    ParentsInto(g, n);
  }

  // ----- counting edges -------------------------------------------------------------------

  lemma InDegreeSame(es: Edges, es': Edges, n: NodeId)
    requires forall e :: e in es && es[e].bs == Some(n) <==> e in es' && es'[e].bs == Some(n)
    ensures InDegree(es', n) == InDegree(es, n)
  {
    assert Into(es', n) == Into(es, n);
  }

  /** Pointing one edge elsewhere moves one unit. */
  lemma InDegreeMove(es: Edges, es': Edges, e: EdgeId, n: NodeId)
    requires forall x :: x != e ==> (x in es <==> x in es') && (x in es ==> es'[x].bs == es[x].bs)
    ensures InDegree(es', n) == InDegree(es, n) - (if e in es && es[e].bs == Some(n) then 1 else 0)
                                                + (if e in es' && es'[e].bs == Some(n) then 1 else 0)
  {
    assert Into(es, n) - {e} == Into(es', n) - {e};
    OneLess(Into(es, n), e);
    OneLess(Into(es', n), e);
  }

  lemma OneLess(s: set<EdgeId>, e: EdgeId)
    ensures |s - {e}| == |s| - if e in s then 1 else 0
  {
    if e !in s { assert s - {e} == s; }
  }

  // ----- what each change does to the balance ---------------------------------------------

  /** Permission masks, slots and the records of permission changes hold no references. */
  lemma BalancedPerms(c: Core, c': Core, held: Held, acts: seq<Action>, acts': seq<Action>)
    requires Balanced(c, held, acts) && c'.refs == c.refs && SameParked(acts, acts')
    requires c'.edges.Keys == c.edges.Keys && forall e :: e in c.edges ==> c'.edges[e].bs == c.edges[e].bs
    ensures Balanced(c', held, acts')
  {
    forall n ensures BalancedAt(c', held, acts', n) {
      assert BalancedAt(c, held, acts, n);
      InDegreeSame(c.edges, c'.edges, n);
    }
  }

  /** bdrv_replace_child_tran: the edge's reference to the old node moves into the record. */
  lemma BalancedReplace(c: Core, c': Core, held: Held, e: EdgeId, slot: Slot, was: NodeId, newBs: Option<NodeId>,
                        free: bool, acts: seq<Action>)
    requires Balanced(c, held, acts) && e in c.edges && c.edges[e].bs == Some(was) && newBs != Some(was)
    requires c' == (if newBs.Some? then RefAdd(Retarget(c, e, newBs), newBs.value, 1) else Retarget(c, e, newBs))
    ensures Balanced(c', held, [ReplaceChild(e, slot, was, free)] + acts)
  {
    var acts' := [ReplaceChild(e, slot, was, free)] + acts;
    assert acts'[1..] == acts;
    forall n ensures BalancedAt(c', held, acts', n) {
      assert BalancedAt(c, held, acts, n);
      InDegreeMove(c.edges, c'.edges, e, n);
    }
  }

  /** bdrv_attach_child_common: the new edge takes a new reference. */
  lemma BalancedAttach(c: Core, c': Core, held: Held, e: EdgeId, bs: NodeId, acts: seq<Action>)
    requires Balanced(c, held, acts) && e !in c.edges
    requires c'.edges.Keys == c.edges.Keys + {e} && c'.edges[e].bs == Some(bs)
    requires forall x :: x in c.edges ==> c'.edges[x] == c.edges[x]
    requires c'.refs == RefAdd(c, bs, 1).refs
    ensures Balanced(c', held, acts)
  {
    forall n ensures BalancedAt(c', held, acts, n) {
      assert BalancedAt(c, held, acts, n);
      InDegreeMove(c.edges, c'.edges, e, n);
    }
  }

  /** bdrv_remove_file_or_backing_child keeps the parent node alive until the clean pass. */
  lemma BalancedRemove(c: Core, held: Held, e: EdgeId, slot: Slot, acts: seq<Action>)
    requires Balanced(c, held, acts) && !slot.Local?
    ensures Balanced(RefAdd(c, slot.node, 1), held, [RemoveChild(e, slot)] + acts)
  {
    var acts' := [RemoveChild(e, slot)] + acts;
    assert acts'[1..] == acts;
    forall n ensures BalancedAt(RefAdd(c, slot.node, 1), held, acts', n) { assert BalancedAt(c, held, acts, n); }
  }

  /** bdrv_ref and bdrv_unref by a caller. */
  lemma BalancedHold(c: Core, held: Held, n: NodeId, acts: seq<Action>)
    requires Balanced(c, held, acts)
    ensures Balanced(RefAdd(c, n, 1), Hold(held, n), acts)
  {
    forall m ensures BalancedAt(RefAdd(c, n, 1), Hold(held, n), acts, m) { assert BalancedAt(c, held, acts, m); }
  }

  lemma BalancedYield(c: Core, held: Held, n: NodeId, acts: seq<Action>)
    requires Balanced(c, held, acts) && HeldOf(held, n) >= 1
    ensures Balanced(RefAdd(c, n, -1), Yield(held, n), acts)
  {
    forall m ensures BalancedAt(RefAdd(c, n, -1), Yield(held, n), acts, m) { assert BalancedAt(c, held, acts, m); }
  }

  /** Committing or cleaning a record hands its reference to the code that will drop it. */
  lemma BalancedUnpark(c: Core, held: Held, a: Action, acts: seq<Action>, n: NodeId)
    requires Balanced(c, held, [a] + acts) && ParkedBy(a, n) == 1
    ensures Balanced(c, Hold(held, n), acts)
  {
    assert ([a] + acts)[1..] == acts;
    forall m ensures BalancedAt(c, Hold(held, n), acts, m) { assert BalancedAt(c, held, [a] + acts, m); }
  }

  /** Detaching an edge leaves its reference with the code that will drop it. */
  lemma BalancedDetach(c: Core, c': Core, held: Held, e: EdgeId, bs: NodeId, acts: seq<Action>)
    requires Balanced(c, held, acts) && e in c.edges && c.edges[e].bs == Some(bs)
    requires c'.edges == c.edges - {e} && c'.refs == c.refs
    ensures Balanced(c', Hold(held, bs), acts)
  {
    forall n ensures BalancedAt(c', Hold(held, bs), acts, n) {
      assert BalancedAt(c, held, acts, n);
      InDegreeMove(c.edges, c'.edges, e, n);
    }
  }

  lemma BalancedSameHeld(c: Core, held: Held, held': Held, acts: seq<Action>)
    requires Balanced(c, held, acts) && forall n :: HeldOf(held', n) == HeldOf(held, n)
    ensures Balanced(c, held', acts)
  {
    forall n ensures BalancedAt(c, held', acts, n) { assert BalancedAt(c, held, acts, n); }
  }

  lemma BalancedForget(c: Core, c': Core, held: Held, n: NodeId, acts: seq<Action>)
    requires Balanced(c, held, acts) && c'.edges == c.edges && c'.refs == c.refs - {n}
    ensures Balanced(c', held, acts)
  {
    forall m ensures BalancedAt(c', held, acts, m) { assert BalancedAt(c, held, acts, m); }
  }

  // ----- what a deletion may take with it -------------------------------------------------

  /**
   * From `g0` to `g` nodes were deleted: what is left is unchanged up to permission masks, edges
   * of surviving owners survive, and besides `n` only nodes that had a user are gone.  While
   * `closing` is being taken apart its own edges may be missing.
   */
  ghost predicate Survives(g0: Graph, g: Graph, n: NodeId, closing: Option<NodeId>) {
    && g.nodes.Keys <= g0.nodes.Keys && (forall m {:trigger g.nodes[m]} :: m in g.nodes ==> g.nodes[m] == g0.nodes[m])
    && g.edges.Keys <= g0.edges.Keys
    && (forall e {:trigger g.edges[e]} :: e in g.edges ==>
          g.edges[e] == g0.edges[e].(perm := g.edges[e].perm, shared := g.edges[e].shared))
    && (forall e {:trigger OwnerStays(g0, g, e, closing)} :: e in g0.edges && OwnerStays(g0, g, e, closing) ==> e in g.edges)
    && (forall m {:trigger Into(g0.edges, m)} :: m in g0.nodes && m !in g.nodes ==> m == n || Into(g0.edges, m) != {})
  }

  ghost predicate OwnerStays(g0: Graph, g: Graph, e: EdgeId, closing: Option<NodeId>)
    requires e in g0.edges
  {
    match g0.edges[e].owner
    case User => true
    case Bds(u) => u in g.nodes && closing != Some(u)
  }

  /**
   * What committing leaves of nodes and edges: nothing new, nothing changed but permission masks, and
   * every edge that points somewhere stays as long as its owner does.
   */
  ghost predicate Kept(c0: Core, c: Core) {
    && c.nodes.Keys <= c0.nodes.Keys && (forall m {:trigger c.nodes[m]} :: m in c.nodes ==> c.nodes[m] == c0.nodes[m])
    && c.edges.Keys <= c0.edges.Keys
    && (forall e {:trigger c.edges[e]} :: e in c.edges ==>
          c.edges[e] == c0.edges[e].(perm := c.edges[e].perm, shared := c.edges[e].shared))
    && (forall e {:trigger OwnerIn(c0, c, e)} :: e in c0.edges && c0.edges[e].bs.Some? && OwnerIn(c0, c, e) ==> e in c.edges)
  }

  ghost predicate OwnerIn(c0: Core, c: Core, e: EdgeId)
    requires e in c0.edges
  {
    c0.edges[e].owner.Bds? ==> c0.edges[e].owner.node in c.nodes
  }

  lemma KeptTrans(c0: Core, c1: Core, c2: Core)
    requires Kept(c0, c1) && Kept(c1, c2)
    ensures Kept(c0, c2)
  {
    forall e | e in c0.edges && c0.edges[e].bs.Some? && OwnerIn(c0, c2, e) ensures e in c2.edges {
      assert OwnerIn(c0, c1, e) && e in c1.edges && OwnerIn(c1, c2, e);
    }
  }

  /** As long as no node has been deleted, every edge that is left is as it was, masks and all. */
  ghost predicate MasksKept(c0: Core, c: Core) {
    c.nodes.Keys == c0.nodes.Keys ==> forall e :: e in c.edges ==> e in c0.edges && c.edges[e] == c0.edges[e]
  }

  /** No node has been left behind that nobody refers to, and that had been referred to before. */
  ghost predicate NoNewLeak(refs: map<NodeId, int>, refs': map<NodeId, int>) {
    forall n {:trigger refs'[n]} :: n in refs' && refs'[n] == 0 ==> n in refs && refs[n] == 0
  }

  lemma NoNewLeakTrans(refs0: map<NodeId, int>, refs1: map<NodeId, int>, refs2: map<NodeId, int>)
    requires NoNewLeak(refs0, refs1) && NoNewLeak(refs1, refs2)
    ensures NoNewLeak(refs0, refs2)
  {
    forall n | n in refs2 && refs2[n] == 0 ensures n in refs0 && refs0[n] == 0 {
      assert refs1[n] == 0;
    }
  }

  ghost predicate Settles(c0: Core, c: Core) {
    Kept(c0, c) && MasksKept(c0, c) && NoNewLeak(c0.refs, c.refs)
  }

  lemma SettlesTrans(c0: Core, c1: Core, c2: Core)
    requires Settles(c0, c1) && Settles(c1, c2)
    ensures Settles(c0, c2)
  {
    NoNewLeakTrans(c0.refs, c1.refs, c2.refs);
    KeptTrans(c0, c1, c2);
  }

  /** Giving up a reference deletes the node or changes no edge. */
  lemma UnrefSettles(g0: Graph, g: Graph, n: NodeId)
    requires Survives(g0, g, n, None) && (g.nodes.Keys == g0.nodes.Keys ==> g.edges == g0.edges)
    requires NoNewLeak(g0.refs, g.refs)
    ensures Settles(CoreOf(g0), CoreOf(g))
  {
    SurvivesKept(g0, g, n);
  }

  /** Committing the action deletes nothing: the node that loses a reference has another, and the edge is in use. */
  ghost predicate Anchored(es: Edges, a: Action) {
    Inert(a) || (a.ReplaceChild? && Into(es, a.oldBs) != {} && (a.child in es ==> es[a.child].bs.Some?))
  }

  ghost predicate AllAnchored(es: Edges, acts: seq<Action>) {
    forall a :: a in acts ==> Anchored(es, a)
  }

  /** Committing the action frees its edge, which points nowhere any more. */
  ghost predicate Frees(es: Edges, a: Action) {
    (a.RemoveChild? || (a.ReplaceChild? && a.freeEmptyChild)) && a.child in es && es[a.child].bs.None?
  }

  /** What the actions free is gone. */
  ghost predicate AllFreed(es: Edges, acts: seq<Action>, es': Edges) {
    forall a :: a in acts && Frees(es, a) ==> a.child !in es'
  }

  lemma FreedMore(c0: Core, c1: Core, c2: Core, acts: seq<Action>, a: Action)
    requires Kept(c0, c1) && Kept(c1, c2) && AllFreed(c0.edges, acts, c1.edges) && (Frees(c1.edges, a) ==> a.child !in c2.edges)
    ensures AllFreed(c0.edges, acts + [a], c2.edges)
  {
    forall x | x in acts + [a] && Frees(c0.edges, x) ensures x.child !in c2.edges {
      if x in acts {
        assert x.child !in c1.edges;
      } else if x.child in c1.edges {
        assert Frees(c1.edges, a);
      }
    }
  }

  /** The new actions move users of `from` and nothing else. */
  ghost predicate OnlyMoves(es: Edges, from: NodeId, before: seq<Action>, acts: seq<Action>) {
    forall a :: a in acts ==> a in before || (a.ReplaceChild? && a.oldBs == from && a.child in es && es[a.child].bs == Some(from))
  }

  lemma AnchoredTwice(c: Core, h: Held, acts: seq<Action>, n: NodeId)
    requires Balanced(c, h, acts) && n in c.refs && Into(c.edges, n) != {} && HeldOf(h, n) >= 1
    ensures c.refs[n] > 1
  {
    assert BalancedAt(c, h, acts, n);
  }

  lemma SurvivesKept(g0: Graph, g: Graph, n: NodeId)
    requires Survives(g0, g, n, None)
    ensures Kept(CoreOf(g0), CoreOf(g))
  {
    forall e | e in g0.edges && OwnerIn(CoreOf(g0), CoreOf(g), e) ensures e in g.edges {
      assert OwnerStays(g0, g, e, None);
    }
  }

  lemma SurvivesTrans(g0: Graph, g1: Graph, g2: Graph, n: NodeId, bs: NodeId, closing: NodeId)
    requires Survives(g0, g1, n, Some(closing)) && Survives(g1, g2, bs, None)
    requires Into(g0.edges, bs) != {} || bs == n
    ensures Survives(g0, g2, n, Some(closing))
  {
    forall m | m in g0.nodes && m !in g2.nodes ensures m == n || Into(g0.edges, m) != {} {
      if m in g1.nodes && m != bs {
        var e :| e in Into(g1.edges, m);
        assert e in Into(g0.edges, m);
      }
    }
    forall e | e in g0.edges && OwnerStays(g0, g2, e, Some(closing)) ensures e in g2.edges {
      assert OwnerStays(g0, g1, e, Some(closing));
      assert OwnerStays(g1, g2, e, None);
    }
  }

  /** The node being closed has no users, so deleting a child of it cannot take it along. */
  lemma ClosingStays(g1: Graph, g2: Graph, n: NodeId, bs: NodeId, held: Held, acts: seq<Action>)
    requires Survives(g1, g2, bs, None) && n in g1.nodes && n != bs
    requires Indexed(g1) && g1.refs[n] == 0 && Balanced(CoreOf(g1), Hold(held, bs), acts)
    requires Indexed(g2) && Balanced(CoreOf(g2), held, acts)
    ensures n in g2.nodes && g2.refs[n] == 0
    ensures forall e :: e in g1.edges && g1.edges[e].owner == Bds(n) ==> e in g2.edges
  {
    ZeroMeansUnused(g1, Hold(held, bs), acts, n);
    assert Into(g1.edges, n) == {};
    forall e | e in g1.edges && g1.edges[e].owner == Bds(n) ensures e in g2.edges {
      assert OwnerStays(g1, g2, e, None);
    }
    assert Into(g2.edges, n) == {};
    assert BalancedAt(CoreOf(g2), held, acts, n);
    assert HeldOf(held, n) == HeldOf(Hold(held, bs), n);
  }

  lemma SurvivesClosing(g0: Graph, g1: Graph, g2: Graph, n: NodeId)
    requires Survives(g0, g1, n, Some(n)) && Survives(g1, g2, n, Some(n))
    ensures Survives(g0, g2, n, Some(n))
  {
    forall m | m in g0.nodes && m !in g2.nodes ensures m == n || Into(g0.edges, m) != {} {
      if m in g1.nodes && m != n {
        var e :| e in Into(g1.edges, m);
        assert e in Into(g0.edges, m);
      }
    }
    forall e | e in g0.edges && OwnerStays(g0, g2, e, Some(n)) ensures e in g2.edges {
      assert OwnerStays(g0, g1, e, Some(n));
      assert OwnerStays(g1, g2, e, Some(n));
    }
  }

  /** One edge of the closing node is gone. */
  lemma SurvivesDetach(g0: Graph, g1: Graph, e: EdgeId, n: NodeId)
    requires e in g0.edges && g0.edges[e].owner == Bds(n) && g1.nodes == g0.nodes
    requires g1.edges.Keys == g0.edges.Keys - {e}
    requires forall x :: x in g1.edges ==> g1.edges[x] == g0.edges[x].(perm := g1.edges[x].perm, shared := g1.edges[x].shared)
    ensures Survives(g0, g1, n, Some(n))
  {
  }

  /** The closing node itself is gone. */
  lemma SurvivesForget(g0: Graph, g1: Graph, g2: Graph, n: NodeId)
    requires Survives(g0, g1, n, Some(n)) && g2.nodes == g1.nodes - {n} && g2.edges == g1.edges
    ensures Survives(g0, g2, n, None)
  {
    forall e | e in g0.edges && OwnerStays(g0, g2, e, None) ensures e in g2.edges {
      assert OwnerStays(g0, g1, e, Some(n));
    }
  }

  /** Counting references down does not touch nodes and edges. */
  lemma SurvivesCount(g0: Graph, g1: Graph, g2: Graph, n: NodeId)
    requires g1.nodes == g0.nodes && g1.edges == g0.edges && Survives(g1, g2, n, None)
    ensures Survives(g0, g2, n, None)
  {
    forall e | e in g0.edges && OwnerStays(g0, g2, e, None) ensures e in g2.edges {
      assert OwnerStays(g1, g2, e, None);
    }
  }

  lemma HoldAlive(g: Graph, held: Held, acts: seq<Action>, n: NodeId)
    requires Alive(g, held, acts) && n in g.nodes
    ensures Alive(g, Hold(held, n), acts)
  {
    forall m | HeldOf(Hold(held, n), m) > 0 || Parked(acts, m) > 0 ensures m in g.nodes {
      assert m == n || HeldOf(Hold(held, n), m) == HeldOf(held, m);
    }
  }

  lemma YieldHold(g: Graph, held: Held, acts: seq<Action>, n: NodeId)
    requires Alive(g, Yield(Hold(held, n), n), acts)
    ensures Alive(g, held, acts) && forall m :: HeldOf(held, m) == HeldOf(Yield(Hold(held, n), n), m)
  {
    forall m | HeldOf(held, m) > 0 || Parked(acts, m) > 0 ensures m in g.nodes {
      assert HeldOf(Yield(Hold(held, n), n), m) == HeldOf(held, m);
    }
  }

  lemma YieldAlive(g: Graph, held: Held, acts: seq<Action>, n: NodeId)
    requires Alive(g, held, acts)
    ensures Alive(g, Yield(held, n), acts)
  {
    forall m | HeldOf(Yield(held, n), m) > 0 || Parked(acts, m) > 0 ensures m in g.nodes {
      assert HeldOf(held, m) >= HeldOf(Yield(held, n), m);
    }
  }

  /** The records of a transaction that can be undone refer to nodes that exist. */
  lemma {:induction false} UndoableAlive(acts: seq<Action>, c: Core, n: NodeId)
    requires Undoable(acts, c) && Parked(acts, n) > 0
    ensures n in c.nodes
  {
    if ParkedBy(acts[0], n) == 0 {
      UndoableAlive(acts[1..], Abort(acts[0], c), n);
    }
  }

  // ----- commit ---------------------------------------------------------------------------

  /** References that the clean pass over these records still has to drop. */
  ghost function ToClean(acts: seq<Action>, n: NodeId): nat {
    if acts == [] then 0
    else (if acts[0].RemoveChild? && !acts[0].slot.Local? && acts[0].slot.node == n then 1 else 0) + ToClean(acts[1..], n)
  }

  lemma {:induction false} ToCleanSnoc(acts: seq<Action>, a: Action, n: NodeId)
    ensures ToClean(acts + [a], n) == ToClean(acts, n) + ToClean([a], n)
  {
    if acts == [] {
      assert [] + [a] == [a];
    } else {
      assert (acts + [a])[1..] == acts[1..] + [a];
      ToCleanSnoc(acts[1..], a, n);
    }
  }

  /** `h` is `held` plus what is left to clean. */
  ghost predicate HeldPlus(h: Held, held: Held, acts: seq<Action>) {
    forall n :: HeldOf(h, n) == HeldOf(held, n) + ToClean(acts, n)
  }

  lemma HeldBack(h: Held, was: NodeId, a: Action)
    requires !a.RemoveChild?
    ensures forall n :: HeldOf(Yield(Hold(h, was), was), n) == HeldOf(h, n) + ToClean([a], n)
  {
  }

  lemma HeldPlusMore(h: Held, h': Held, held: Held, acts: seq<Action>, i: nat)
    requires i < |acts| && HeldPlus(h, held, acts[..i]) && forall n :: HeldOf(h', n) == HeldOf(h, n) + ToClean([acts[i]], n)
    ensures HeldPlus(h', held, acts[..i + 1])
  {
    var before, a := acts[..i], acts[i];
    assert acts[..i + 1] == before + [a];
    forall n ensures HeldOf(h', n) == HeldOf(held, n) + ToClean(before + [a], n) {
      ToCleanSnoc(before, a, n);
      assert HeldOf(h, n) == HeldOf(held, n) + ToClean(before, n) && HeldOf(h', n) == HeldOf(h, n) + ToClean([a], n);
    }
  }

  lemma UnparkAlive(g: Graph, h: Held, a: Action, rest: seq<Action>, n: NodeId)
    requires Alive(g, h, [a] + rest) && ParkedBy(a, n) == 1
    ensures n in g.nodes && Alive(g, Hold(h, n), rest)
  {
    assert ([a] + rest)[1..] == rest;
    assert Parked([a] + rest, n) > 0;
    forall m | HeldOf(Hold(h, n), m) > 0 || Parked(rest, m) > 0 ensures m in g.nodes {
      assert Parked([a] + rest, m) >= Parked(rest, m);
      assert m == n || HeldOf(Hold(h, n), m) == HeldOf(h, m);
    }
  }

  lemma NoParkSame(c: Core, h: Held, a: Action, rest: seq<Action>, g: Graph)
    requires Balanced(c, h, [a] + rest) && Alive(g, h, [a] + rest)
    ensures (forall n :: ParkedBy(a, n) == 0) ==> Balanced(c, h, rest) && Alive(g, h, rest)
  {
    assert ([a] + rest)[1..] == rest;
    if forall n :: ParkedBy(a, n) == 0 {
      forall n ensures BalancedAt(c, h, rest, n) { assert BalancedAt(c, h, [a] + rest, n) && ParkedBy(a, n) == 0; }
      forall n | HeldOf(h, n) > 0 || Parked(rest, n) > 0 ensures n in g.nodes { assert Parked([a] + rest, n) == Parked(rest, n); }
    }
  }

  lemma BalancedFree(c: Core, c': Core, held: Held, e: EdgeId, acts: seq<Action>)
    requires Balanced(c, held, acts) && e in c.edges && c.edges[e].bs.None?
    requires c'.edges == c.edges - {e} && c'.refs == c.refs
    ensures Balanced(c', held, acts)
  {
    forall n ensures BalancedAt(c', held, acts, n) {
      assert BalancedAt(c, held, acts, n);
      InDegreeSame(c.edges, c'.edges, n);
    }
  }

  lemma HeldPlusNext(h: Held, held: Held, a: Action, rest: seq<Action>)
    requires HeldPlus(h, held, [a] + rest)
    ensures
      if a.RemoveChild? && !a.slot.Local? then HeldOf(h, a.slot.node) >= 1 && HeldPlus(Yield(h, a.slot.node), held, rest)
      else HeldPlus(h, held, rest)
  {
    assert ([a] + rest)[1..] == rest;
    var h' := if a.RemoveChild? && !a.slot.Local? then Yield(h, a.slot.node) else h;
    assert a.RemoveChild? && !a.slot.Local? ==> HeldOf(h, a.slot.node) == HeldOf(held, a.slot.node) + ToClean([a] + rest, a.slot.node);
    forall n ensures HeldOf(h', n) == HeldOf(held, n) + ToClean(rest, n) {
      assert HeldOf(h, n) == HeldOf(held, n) + ToClean([a] + rest, n);
    }
  }

  lemma {:induction false} InertParks(acts: seq<Action>, n: NodeId)
    requires forall a :: a in acts ==> Inert(a)
    ensures Parked(acts, n) == 0
  {
    if acts != [] {
      assert Inert(acts[0]);
      InertParks(acts[1..], n);
    }
  }

  lemma InertAlive(g: Graph, held: Held, acts: seq<Action>)
    requires (forall a :: a in acts ==> Inert(a)) && Alive(g, held, [])
    ensures Alive(g, held, acts)
  {
    forall n ensures Parked(acts, n) == 0 { InertParks(acts, n); }
  }

  lemma HeldCounts(c: Core, held: Held, acts: seq<Action>, n: NodeId)
    requires Balanced(c, held, acts) && n in c.refs
    ensures c.refs[n] >= HeldOf(held, n) + InDegree(c.edges, n)
  {
    assert BalancedAt(c, held, acts, n);
  }

  lemma TranAlive(g: Graph, held: Held, acts: seq<Action>)
    requires Undoable(acts, CoreOf(g)) && forall n :: HeldOf(held, n) > 0 ==> n in g.nodes
    ensures Alive(g, held, acts)
  {
    forall n | HeldOf(held, n) > 0 || Parked(acts, n) > 0 ensures n in g.nodes {
      if Parked(acts, n) > 0 { UndoableAlive(acts, CoreOf(g), n); }
    }
  }
}
