// Rollback of graph changes: the actions that block.c adds to a Transaction, and what running
// their .abort and .clean callbacks does (block.c:2255-2398, block.c:2941-2982, block.c:5081-5120,
// util/transactions.c:38-100).
module Transactions {
  import opened BlockGraph
  import opened Wrappers

  /** Where a `BdrvChild **` points: a node's backing or file link, or a caller's variable. */
  datatype Slot = Backing(node: NodeId) | File(node: NodeId) | Local

  datatype Action =
    | SetPerm(child: EdgeId, oldPerm: Perms, oldShared: Perms)
    | DrvSetPerm(bs: NodeId)
    | ReplaceChild(child: EdgeId, slot: Slot, oldBs: NodeId, freeEmptyChild: bool)
    | AttachChild(child: EdgeId, slot: Slot)
    | RemoveChild(child: EdgeId, slot: Slot)

  /** The part of the graph from which the index lists are determined up to order. */
  datatype Core = Core(nodes: map<NodeId, Node>, edges: Edges, refs: map<NodeId, int>)

  ghost function CoreOf(g: Graph): Core {
    Core(g.nodes, g.edges, g.refs)
  }

  // ----- elementary changes ---------------------------------------------------------------

  ghost function Retarget(c: Core, e: EdgeId, bs: Option<NodeId>): Core {
    if e in c.edges then c.(edges := c.edges[e := c.edges[e].(bs := bs)]) else c
  }

  ghost function Repermit(c: Core, e: EdgeId, perm: Perms, shared: Perms): Core {
    if e in c.edges then c.(edges := c.edges[e := c.edges[e].(perm := perm, shared := shared)]) else c
  }

  ghost function RefAdd(c: Core, n: NodeId, d: int): Core {
    if n in c.refs then c.(refs := c.refs[n := c.refs[n] + d]) else c
  }

  function PutSlotIn(nodes: map<NodeId, Node>, slot: Slot, v: Option<EdgeId>): map<NodeId, Node> {
    if slot.Backing? && slot.node in nodes then nodes[slot.node := nodes[slot.node].(backing := v)]
    else if slot.File? && slot.node in nodes then nodes[slot.node := nodes[slot.node].(file := v)]
    else nodes
  }

  ghost function PutSlot(c: Core, slot: Slot, v: Option<EdgeId>): Core {
    c.(nodes := PutSlotIn(c.nodes, slot, v))
  }

  function SlotIn(nodes: map<NodeId, Node>, slot: Slot): Option<EdgeId> {
    if slot.Backing? && slot.node in nodes then nodes[slot.node].backing
    else if slot.File? && slot.node in nodes then nodes[slot.node].file
    else None
  }

  // ----- abort and clean ------------------------------------------------------------------

  /** The .abort callback of one action. */
  ghost function Abort(a: Action, c: Core): Core {
    match a
    case SetPerm(e, p, s) => Repermit(c, e, p, s)
    case DrvSetPerm(_) => c
    case ReplaceChild(e, slot, was, _) =>
      if e !in c.edges then c
      else if c.edges[e].bs.None? then PutSlot(Retarget(c, e, Some(was)), slot, Some(e))
      else RefAdd(Retarget(c, e, Some(was)), c.edges[e].bs.value, -1)
    case AttachChild(e, slot) =>
      if e !in c.edges || c.edges[e].bs.None? then c
      else RefAdd(PutSlot(c, slot, None).(edges := c.edges - {e}), c.edges[e].bs.value, -1)
    case RemoveChild(e, slot) => PutSlot(c, slot, Some(e))
  }

  /** The .clean callback of one action: only a removed child keeps a reference to its node. */
  ghost function Clean(a: Action, c: Core): Core {
    if a.RemoveChild? && !a.slot.Local? then RefAdd(c, a.slot.node, -1) else c
  }

  ghost function AbortAll(acts: seq<Action>, c: Core): Core {
    if acts == [] then c else AbortAll(acts[1..], Abort(acts[0], c))
  }

  ghost function CleanAll(acts: seq<Action>, c: Core): Core {
    if acts == [] then c else CleanAll(acts[1..], Clean(acts[0], c))
  }

  /** tran_abort: every .abort, last action first, then every .clean. */
  ghost function Revert(acts: seq<Action>, c: Core): Core {
    CleanAll(acts, AbortAll(acts, c))
  }

  lemma RefAddCommutes(c: Core, m: NodeId, k: int, n: NodeId, d: int)
    ensures RefAdd(RefAdd(c, n, d), m, k) == RefAdd(RefAdd(c, m, k), n, d)
  {
  }

  lemma AbortRefAdd(a: Action, c: Core, n: NodeId, d: int)
    ensures Abort(a, RefAdd(c, n, d)) == RefAdd(Abort(a, c), n, d)
  {
    match a
    case ReplaceChild(e, slot, was, _) =>
      if e in c.edges && c.edges[e].bs.Some? {
        RefAddCommutes(Retarget(c, e, Some(was)), c.edges[e].bs.value, -1, n, d);
      }
    case AttachChild(e, slot) =>
      if e in c.edges && c.edges[e].bs.Some? {
        RefAddCommutes(PutSlot(c, slot, None).(edges := c.edges - {e}), c.edges[e].bs.value, -1, n, d);
      }
    case _ =>
  }

  lemma {:induction false} AbortAllRefAdd(acts: seq<Action>, c: Core, n: NodeId, d: int)
    ensures AbortAll(acts, RefAdd(c, n, d)) == RefAdd(AbortAll(acts, c), n, d)
  {
    if acts != [] {
      AbortRefAdd(acts[0], c, n, d);
      AbortAllRefAdd(acts[1..], Abort(acts[0], c), n, d);
    }
  }

  /** Undoing the newest action first and completely: the later .clean pass makes no difference. */
  lemma RevertNewest(a: Action, acts: seq<Action>, c: Core)
    ensures Revert([a] + acts, c) == Revert(acts, Clean(a, Abort(a, c)))
  {
    assert ([a] + acts)[1..] == acts;
    if a.RemoveChild? && !a.slot.Local? {
      AbortAllRefAdd(acts, Abort(a, c), a.slot.node, -1);
    }
  }

  // ----- when an abort can run ------------------------------------------------------------

  /** What the assertions in the .abort callbacks ask for. */
  ghost predicate CanAbort(a: Action, c: Core) {
    match a
    case SetPerm(e, _, _) => e in c.edges
    case DrvSetPerm(_) => true
    case ReplaceChild(e, slot, was, _) =>
      && e in c.edges && !c.edges[e].frozen && was in c.nodes && c.edges[e].bs != Some(was)
      && (c.edges[e].bs.Some? ==> c.edges[e].bs.value in c.nodes)
      && (c.edges[e].bs.None? ==> !slot.Local? && slot.node in c.nodes)
      && (c.edges[e].owner.Bds? ==> c.edges[e].owner.node in c.nodes)
    case AttachChild(e, slot) =>
      && e in c.edges && !c.edges[e].frozen && c.edges[e].bs.Some? && c.edges[e].bs.value in c.nodes
      && (!slot.Local? ==> SlotIn(c.nodes, slot) == Some(e))
    case RemoveChild(_, slot) => !slot.Local? && slot.node in c.nodes
  }

  ghost predicate Undoable(acts: seq<Action>, c: Core) {
    acts == [] || (CanAbort(acts[0], c) && Undoable(acts[1..], Abort(acts[0], c)))
  }

  lemma {:induction false} UndoableIgnoresRefs(acts: seq<Action>, c: Core, n: NodeId, d: int)
    ensures Undoable(acts, RefAdd(c, n, d)) <==> Undoable(acts, c)
  {
    if acts != [] {
      AbortRefAdd(acts[0], c, n, d);
      UndoableIgnoresRefs(acts[1..], Abort(acts[0], c), n, d);
    }
  }

  /** A change that its own action undoes leaves what the whole transaction goes back to. */
  lemma Record(a: Action, acts: seq<Action>, before: Core, after: Core)
    requires Undoable(acts, before) && CanAbort(a, after) && Clean(a, Abort(a, after)) == before
    ensures Undoable([a] + acts, after)
    ensures Revert([a] + acts, after) == Revert(acts, before)
  {
    RevertNewest(a, acts, after);
    assert ([a] + acts)[1..] == acts;
    if a.RemoveChild? && !a.slot.Local? {
      UndoableIgnoresRefs(acts, Abort(a, after), a.slot.node, -1);
    }
  }

  lemma {:induction false} CleanLowers(acts: seq<Action>, c: Core, n: NodeId)
    requires n in c.refs
    ensures CleanAll(acts, c).refs.Keys == c.refs.Keys && CleanAll(acts, c).refs[n] <= c.refs[n]
    ensures CleanAll(acts, c).nodes == c.nodes && CleanAll(acts, c).edges == c.edges
  {
    if acts != [] {
      CleanLowers(acts[1..], Clean(acts[0], c), n);
    }
  }

  lemma {:induction false} AbortLowers(acts: seq<Action>, c: Core, n: NodeId)
    requires n in c.refs
    ensures n in AbortAll(acts, c).refs && AbortAll(acts, c).refs[n] <= c.refs[n]
  {
    if acts != [] {
      AbortLowers(acts[1..], Abort(acts[0], c), n);
    }
  }

  /** The rollback takes no node's last reference. */
  ghost predicate RefsLeft(acts: seq<Action>, c: Core) {
    forall n :: n in c.refs ==>
      n in Revert(acts, c).refs && (Revert(acts, c).refs[n] == c.refs[n] || Revert(acts, c).refs[n] >= 1)
  }

  /** Going back from `c` to `c0` takes no node's last reference. */
  ghost predicate RefsBack(c0: Core, c: Core) {
    c0.refs.Keys == c.refs.Keys && forall n :: n in c.refs ==> c0.refs[n] == c.refs[n] || c0.refs[n] >= 1
  }

  /** From `c` to `c'` references were only dropped, and no last one. */
  ghost predicate KeepsLastRef(c: Core, c': Core) {
    && c'.refs.Keys == c.refs.Keys
    && forall n :: n in c.refs ==> c'.refs[n] == c.refs[n] || 1 <= c'.refs[n] < c.refs[n]
  }

  /** Going back never adds references: what is left at the end bounds every count on the way. */
  lemma {:induction false} AbortKeepsLastRef(acts: seq<Action>, c: Core, k: nat, ck: Core)
    requires RefsLeft(acts, c) && k < |acts| && KeepsLastRef(c, ck)
    requires AbortAll(acts[k..], ck) == AbortAll(acts, c)
    ensures KeepsLastRef(ck, Abort(acts[k], ck)) && KeepsLastRef(c, Abort(acts[k], ck))
  {
    var c1 := Abort(acts[k], ck);
    assert acts[k..][0] == acts[k];
    forall n | n in ck.refs ensures c1.refs[n] == ck.refs[n] || 1 <= c1.refs[n] < ck.refs[n] {
      AbortLowers(acts[k..][1..], c1, n);
      AbortLowers(acts, c, n);
      CleanLowers(acts, AbortAll(acts, c), n);
    }
  }

  lemma {:induction false} CleanKeepsLastRef(acts: seq<Action>, c: Core, k: nat, ck: Core)
    requires RefsLeft(acts, c) && k < |acts| && KeepsLastRef(c, ck)
    requires CleanAll(acts[k..], ck) == Revert(acts, c)
    ensures KeepsLastRef(ck, Clean(acts[k], ck)) && KeepsLastRef(c, Clean(acts[k], ck))
  {
    var c1 := Clean(acts[k], ck);
    assert acts[k..][0] == acts[k];
    forall n | n in ck.refs ensures c1.refs[n] == ck.refs[n] || 1 <= c1.refs[n] < ck.refs[n] {
      CleanLowers(acts[k..][1..], c1, n);
    }
  }
}
