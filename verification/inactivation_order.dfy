// When the assertion in bdrv_inactivate_recurse is safe (block.c:6753-6759): exactly in the graphs
// without parallel edges and without edges that shortcut a longer path, if nothing is known about
// the order in which children and roots are visited.
module InactivationOrder {
  import opened BlockGraph
  import opened GraphSearch
  import opened Inactivation
  import opened Wrappers

  ghost function Yes(): May {
    (n, s) => true
  }

  /** Every node has a driver; with `Yes`, nobody objects to being inactivated. */
  ghost predicate Open(g: Graph) {
    forall n :: n in g.nodes ==> g.nodes[n].drv.Some?
  }

  // ----- going up -------------------------------------------------------------------------

  lemma {:induction false} PathInactive(g: Graph, a: set<NodeId>, p: seq<NodeId>)
    requires Indexed(g) && ParentsFirst(g, a) && IsPath(g.edges, p) && p[0] in g.nodes && p[|p| - 1] in a
    ensures p[0] in a
    decreases |p|
  {
    if |p| > 1 {
      var k := |p| - 2;
      assert Arc(g.edges, p[k], p[k + 1]);
      SubPath(g.edges, p, 0, k + 1);
      PathInNodes(g, p[..k + 1]);
      assert IsParent(g, p[k], p[k + 1]);
      PathInactive(g, a, p[..k + 1]);
    }
  }

  /** Everything above an inactive node is inactive. */
  lemma AboveInactive(g: Graph, a: set<NodeId>, u: NodeId, n: NodeId)
    requires Indexed(g) && ParentsFirst(g, a) && u in g.nodes && n in a && Reach(g.edges, u, n)
    ensures u in a
  {
    var p :| PathFromTo(g.edges, p, u, n);
    PathInactive(g, a, p);
  }

  /** Above every active node there is one with no active parent. */
  lemma {:induction false} TopActive(g: Graph, a: set<NodeId>, n: NodeId) returns (t: NodeId)
    requires Indexed(g) && Acyclic(g.edges) && n in g.nodes && n !in a
    ensures t in g.nodes && !Settled(g, a, t) && Reach(g.edges, t, n)
    decreases g.nodes.Keys - Below(g, n)
  {
    if HasActiveParent(g, a, n) {
      var u :| IsParent(g, u, n) && u !in a;
      var i := ArcIndex(g, u, n);
      BelowShrinks(g, u, i);
      assert Below(g, u) <= g.nodes.Keys;
      t := TopActive(g, a, u);
      ReachArc(g.edges, u, n);
      ReachTrans(g.edges, t, u, n);
    } else {
      t := n;
      ReachSelf(g.edges, n);
    }
  }

  /** A path to another node ends with one of its parents. */
  lemma LastParent(g: Graph, x: NodeId, c: NodeId) returns (q: NodeId)
    requires Indexed(g) && x in g.nodes && Reach(g.edges, x, c) && x != c
    ensures IsParent(g, q, c) && Reach(g.edges, x, q)
  {
    var p :| PathFromTo(g.edges, p, x, c);
    var k := |p| - 2;
    assert Arc(g.edges, p[k], p[k + 1]);
    SubPath(g.edges, p, 0, k + 1);
    PathInNodes(g, p[..k + 1]);
    q := p[k];
    assert PathFromTo(g.edges, p[..k + 1], x, q);
  }

  // ----- what a finished call leaves ------------------------------------------------------

  ghost predicate KidsSettled(g: Graph, a: set<NodeId>, a': set<NodeId>) {
    forall n, m :: n in a' - a && Arc(g.edges, n, m) ==> Settled(g, a', m)
  }

  /** The children of everything that a successful call has inactivated are settled. */
  lemma {:induction false} RecurseNew(g: Graph, a: set<NodeId>, bs: NodeId)
    requires Indexed(g) && Acyclic(g.edges) && ParentsFirst(g, a) && bs in g.nodes && !LaterNotBelow(g)
    ensures var (r, a') := Recurse(g, Yes(), a, bs); r.Done? ==> KidsSettled(g, a, a')
    decreases Below(g, bs), |g.children[bs]| + 1
  {
    if g.nodes[bs].drv.Some? && !HasActiveParent(g, a, bs) && bs !in a {
      var a1 := a + {bs};
      MarkOk(g, a, bs);
      KidsOk(g, Yes(), a1, bs, 0);
      KidsNew(g, a1, bs, 0);
      var (r, a') := RecurseKids(g, Yes(), a1, bs, 0);
      if r.Done? {
        forall n, m | n in a' - a && Arc(g.edges, n, m) ensures Settled(g, a', m) {
          if n == bs { var i := ArcIndex(g, bs, m); }
        }
      }
    }
  }

  lemma {:induction false} KidsNew(g: Graph, a: set<NodeId>, bs: NodeId, i: nat)
    requires Indexed(g) && Acyclic(g.edges) && ParentsFirst(g, a) && bs in a && i <= |g.children[bs]| && !LaterNotBelow(g)
    ensures var (r, a') := RecurseKids(g, Yes(), a, bs, i); r.Done? ==> KidsSettled(g, a, a')
    decreases Below(g, bs), |g.children[bs]| - i
  {
    if i < |g.children[bs]| {
      var c := ChildNode(g, bs, i);
      BelowShrinks(g, bs, i);
      RecurseOk(g, Yes(), a, c);
      RecurseNew(g, a, c);
      var (r, a1) := Recurse(g, Yes(), a, c);
      if r.Done? {
        KidsOk(g, Yes(), a1, bs, i + 1);
        KidsNew(g, a1, bs, i + 1);
      }
    }
  }

  /** With drivers everywhere and nobody objecting, nothing fails. */
  lemma {:induction false} NeverFails(g: Graph, a: set<NodeId>, bs: NodeId)
    requires Indexed(g) && Acyclic(g.edges) && bs in g.nodes && Open(g)
    ensures !Recurse(g, Yes(), a, bs).0.Failed?
    decreases Below(g, bs), |g.children[bs]| + 1
  {
    if !HasActiveParent(g, a, bs) && bs !in a {
      KidsNeverFail(g, a + {bs}, bs, 0);
    }
  }

  lemma {:induction false} KidsNeverFail(g: Graph, a: set<NodeId>, bs: NodeId, i: nat)
    requires Indexed(g) && Acyclic(g.edges) && bs in g.nodes && Open(g) && i <= |g.children[bs]|
    ensures !RecurseKids(g, Yes(), a, bs, i).0.Failed?
    decreases Below(g, bs), |g.children[bs]| - i
  {
    if i < |g.children[bs]| {
      BelowShrinks(g, bs, i);
      NeverFails(g, a, ChildNode(g, bs, i));
      KidsNeverFail(g, Recurse(g, Yes(), a, ChildNode(g, bs, i)).1, bs, i + 1);
    }
  }

  // ----- a node whose last child is also below an earlier one -----------------------------

  ghost predicate Trap(g: Graph, p: NodeId)
    requires Indexed(g)
  {
    && p in g.nodes && |g.children[p]| > 0
    && exists i :: 0 <= i < |g.children[p]| - 1 && Reach(g.edges, ChildNode(g, p, i), LastChild(g, p))
  }

  ghost function LastChild(g: Graph, p: NodeId): NodeId
    requires Indexed(g) && p in g.nodes && |g.children[p]| > 0
  {
    ChildNode(g, p, |g.children[p]| - 1)
  }

  lemma TrapNotLater(g: Graph, p: NodeId)
    requires Indexed(g) && Trap(g, p)
    ensures !LaterNotBelow(g)
  {
    var i :| 0 <= i < |g.children[p]| - 1 && Reach(g.edges, ChildNode(g, p, i), LastChild(g, p));
    assert LastChild(g, p) in Below(g, ChildNode(g, p, i));
  }

  ghost predicate IsKidFrom(g: Graph, bs: NodeId, i: nat, n: NodeId)
    requires Indexed(g) && bs in g.nodes
  {
    exists j :: i <= j < |g.children[bs]| && ChildNode(g, bs, j) == n
  }

  /** Nothing but children of `bs` from position `i` on is unsettled. */
  ghost predicate OnlyKidsLeft(g: Graph, a: set<NodeId>, bs: NodeId, i: nat)
    requires Indexed(g) && bs in g.nodes
  {
    forall n {:trigger Settled(g, a, n)} :: n in g.nodes && !Settled(g, a, n) ==> IsKidFrom(g, bs, i, n)
  }

  /** What a stretch of successful visits does: nothing comes unsettled, and the children of what it inactivates are settled. */
  ghost predicate Advance(g: Graph, a: set<NodeId>, a': set<NodeId>) {
    a <= a' && KidsSettled(g, a, a') && forall c {:trigger Settled(g, a', c)} :: Settled(g, a, c) ==> Settled(g, a', c)
  }

  lemma AdvanceTrans(g: Graph, a: set<NodeId>, a1: set<NodeId>, a2: set<NodeId>)
    requires Advance(g, a, a1) && Advance(g, a1, a2)
    ensures Advance(g, a, a2)
  {
    forall n, m | n in a2 - a && Arc(g.edges, n, m) ensures Settled(g, a2, m) {
      if n in a1 { assert Settled(g, a1, m); }
    }
    forall c | Settled(g, a, c) ensures Settled(g, a2, c) { assert Settled(g, a1, c); }
  }

  /** One child of `p` visited with success. */
  lemma OneKid(g: Graph, a: set<NodeId>, p: NodeId, i: nat)
    requires Indexed(g) && Acyclic(g.edges) && ParentsFirst(g, a) && p in a && !LaterNotBelow(g) && i < |g.children[p]|
    requires Recurse(g, Yes(), a, ChildNode(g, p, i)).0.Done? && OnlyKidsLeft(g, a, p, i)
    ensures var a1 := Recurse(g, Yes(), a, ChildNode(g, p, i)).1;
      ParentsFirst(g, a1) && Advance(g, a, a1) && Settled(g, a1, ChildNode(g, p, i)) && OnlyKidsLeft(g, a1, p, i + 1)
  {
    var c := ChildNode(g, p, i);
    RecurseOk(g, Yes(), a, c);
    RecurseNew(g, a, c);
    var a1 := Recurse(g, Yes(), a, c).1;
    forall n | n in g.nodes && !Settled(g, a1, n) ensures IsKidFrom(g, p, i + 1, n) {
      assert !Settled(g, a, n) && IsKidFrom(g, p, i, n);
      var j :| i <= j < |g.children[p]| && ChildNode(g, p, j) == n;
      assert j != i;
    }
  }

  /** The state in which the last child of `p` is visited, if all earlier ones went well. */
  lemma {:induction false} UpToLast(g: Graph, a: set<NodeId>, p: NodeId, i: nat) returns (a2: set<NodeId>)
    requires Indexed(g) && Acyclic(g.edges) && ParentsFirst(g, a) && p in a && !LaterNotBelow(g)
    requires i < |g.children[p]| && RecurseKids(g, Yes(), a, p, i).0.Done? && OnlyKidsLeft(g, a, p, i)
    ensures AtLast(g, a, p, i, a2)
    decreases |g.children[p]| - i
  {
    if i == |g.children[p]| - 1 {
      a2 := a;
    } else {
      OneKid(g, a, p, i);
      var a1 := Recurse(g, Yes(), a, ChildNode(g, p, i)).1;
      a2 := UpToLast(g, a1, p, i + 1);
      AtLastOne(g, a, a1, a2, p, i);
    }
  }

  /** The children of `p` from position `i` on have been visited with success, the last one comes next and will succeed. */
  ghost predicate AtLast(g: Graph, a: set<NodeId>, p: NodeId, i: nat, a2: set<NodeId>)
    requires Indexed(g) && Acyclic(g.edges) && p in g.nodes && |g.children[p]| > 0
  {
    && ParentsFirst(g, a2) && Advance(g, a, a2) && Recurse(g, Yes(), a2, LastChild(g, p)).0.Done?
    && OnlyKidsLeft(g, a2, p, |g.children[p]| - 1) && EarlierSettled(g, a2, p, i)
  }

  lemma AtLastOne(g: Graph, a: set<NodeId>, a1: set<NodeId>, a2: set<NodeId>, p: NodeId, i: nat)
    requires Indexed(g) && Acyclic(g.edges) && p in g.nodes && i < |g.children[p]|
    requires Advance(g, a, a1) && Settled(g, a1, ChildNode(g, p, i)) && AtLast(g, a1, p, i + 1, a2)
    ensures AtLast(g, a, p, i, a2)
  {
    AdvanceTrans(g, a, a1, a2);
    EarlierOne(g, a1, a2, p, i);
  }

  /** The children of `p` from position `i` up to the last one are settled. */
  ghost predicate EarlierSettled(g: Graph, a: set<NodeId>, p: NodeId, i: nat)
    requires Indexed(g) && p in g.nodes
  {
    forall j :: i <= j < |g.children[p]| - 1 ==> Settled(g, a, ChildNode(g, p, j))
  }

  lemma EarlierOne(g: Graph, a1: set<NodeId>, a2: set<NodeId>, p: NodeId, i: nat)
    requires Indexed(g) && p in g.nodes && i < |g.children[p]|
    requires Settled(g, a1, ChildNode(g, p, i)) && Advance(g, a1, a2) && EarlierSettled(g, a2, p, i + 1)
    ensures EarlierSettled(g, a2, p, i)
  {
    forall j | i <= j < |g.children[p]| - 1 ensures Settled(g, a2, ChildNode(g, p, j)) {
      if j == i { assert Settled(g, a2, ChildNode(g, p, i)); }
    }
  }

  /** Everything outside the subtree of `p` is inactive and nothing else in it: its last child is visited twice. */
  lemma KidsAbort(g: Graph, a: set<NodeId>, p: NodeId)
    requires Indexed(g) && Acyclic(g.edges) && ParentsFirst(g, a) && p in a && Trap(g, p) && Open(g)
    requires forall n :: n in g.nodes ==> (n in a <==> n == p || n !in Below(g, p))
    ensures !RecurseKids(g, Yes(), a, p, 0).0.Done?
  {
    TrapNotLater(g, p);
    forall n | n in g.nodes && !Settled(g, a, n) ensures IsKidFrom(g, p, 0, n) {
      NewKid(g, a, p, n);
    }
    if RecurseKids(g, Yes(), a, p, 0).0.Done? {
      var a2 := UpToLast(g, a, p, 0);
      var c := LastChild(g, p);
      NoParentLeft(g, a2, p);
      TwiceSettled(g, a, a2, p);
    }
  }

  /** Right after `p` was marked only its children are unsettled. */
  lemma NewKid(g: Graph, a: set<NodeId>, p: NodeId, n: NodeId)
    requires Indexed(g) && Acyclic(g.edges) && p in g.nodes && n in g.nodes && !Settled(g, a, n)
    requires forall m :: m in g.nodes ==> (m in a <==> m == p || m !in Below(g, p))
    ensures IsKidFrom(g, p, 0, n)
  {
    assert n in Below(g, p) && n != p;
    var q := LastParent(g, p, n);
    assert q in a;
    assert q in Below(g, p);
    var j := ArcIndex(g, p, n);
  }

  lemma NoParentLeft(g: Graph, a2: set<NodeId>, p: NodeId)
    requires Indexed(g) && Acyclic(g.edges) && ParentsFirst(g, a2) && p in g.nodes && |g.children[p]| > 0
    requires OnlyKidsLeft(g, a2, p, |g.children[p]| - 1)
    ensures !HasActiveParent(g, a2, LastChild(g, p))
  {
    var c := LastChild(g, p);
    forall q | IsParent(g, q, c) ensures q in a2 {
      ArcNotBack(g.edges, q, c);
      if q !in a2 { var t := TopActive(g, a2, q); }
    }
  }

  lemma TwiceSettled(g: Graph, a: set<NodeId>, a2: set<NodeId>, p: NodeId)
    requires Indexed(g) && Acyclic(g.edges) && p in g.nodes && Trap(g, p)
    requires forall n :: n in g.nodes ==> (n in a <==> n == p || n !in Below(g, p))
    requires KidsSettled(g, a, a2) && !HasActiveParent(g, a2, LastChild(g, p))
    requires EarlierSettled(g, a2, p, 0)
    ensures LastChild(g, p) in a2
  {
    var c := LastChild(g, p);
    var i :| 0 <= i < |g.children[p]| - 1 && Reach(g.edges, ChildNode(g, p, i), c);
    var x := ChildNode(g, p, i);
    if x != c {
      var q := LastParent(g, x, c);
      assert q in a2;
      BelowShrinks(g, p, i);
      assert q in Below(g, x);
      ReachSelf(g.edges, p);
      assert q in Below(g, p) && q != p by {
        ArcNotBack(g.edges, p, x);
      }
      assert q in a2 - a && Arc(g.edges, q, c);
    }
  }

  // ----- reaching `p` last ----------------------------------------------------------------

  /** Children through which `p` is reached come after the others. */
  ghost predicate LeadersLast(g: Graph, p: NodeId)
    requires Indexed(g)
  {
    forall u, i, j :: u in g.nodes && 0 <= i < j < |g.children[u]| && Reach(g.edges, ChildNode(g, u, i), p)
      ==> Reach(g.edges, ChildNode(g, u, j), p)
  }

  /** Whatever is not settled will still be visited. */
  ghost predicate Covered(g: Graph, a: set<NodeId>, w: set<NodeId>) {
    forall n {:trigger Settled(g, a, n)} :: n in g.nodes && !Settled(g, a, n) ==> n in w
  }

  ghost predicate AllLead(g: Graph, w: set<NodeId>, p: NodeId) {
    forall n :: n in w ==> Reach(g.edges, n, p)
  }

  /** When the turn comes to `p`, with only nodes above it still to be visited, all is inactive but its subtree. */
  lemma OnlySubtreeLeft(g: Graph, a: set<NodeId>, p: NodeId, w: set<NodeId>, n: NodeId)
    requires Indexed(g) && Acyclic(g.edges) && ParentsFirst(g, a) && p in g.nodes && p !in a && !HasActiveParent(g, a, p)
    requires Covered(g, a, w + {p}) && AllLead(g, w, p) && n in g.nodes
    ensures n in a <==> n !in Below(g, p)
  {
    if n in a {
      if n in Below(g, p) { AboveInactive(g, a, p, n); }
    } else {
      var t := TopActive(g, a, n);
      if t != p {
        var q := LastParent(g, t, p);
        AboveInactive(g, a, t, q);
      }
    }
  }

  /** No successful visit inactivates `p`, as long as what is still to be visited leads to it. */
  lemma {:induction false} RecurseLate(g: Graph, p: NodeId, a: set<NodeId>, bs: NodeId, w: set<NodeId>)
    requires Indexed(g) && Acyclic(g.edges) && Open(g) && Trap(g, p) && LeadersLast(g, p)
    requires ParentsFirst(g, a) && bs in g.nodes && p !in a && Covered(g, a, w + {bs})
    requires Reach(g.edges, bs, p) ==> AllLead(g, w, p)
    ensures var (r, a') := Recurse(g, Yes(), a, bs); r.Done? ==> p !in a' && Covered(g, a', w)
    decreases Below(g, bs), |g.children[bs]| + 1
  {
    if !HasActiveParent(g, a, bs) && bs !in a {
      MarkOk(g, a, bs);
      if bs == p {
        ReachSelf(g.edges, p);
        TrapSprings(g, p, a, w);
      } else {
        MarkCovers(g, a, bs, w);
        KidsLate(g, p, a + {bs}, bs, 0, w);
      }
    }
  }

  lemma TrapSprings(g: Graph, p: NodeId, a: set<NodeId>, w: set<NodeId>)
    requires Indexed(g) && Acyclic(g.edges) && Open(g) && Trap(g, p) && ParentsFirst(g, a) && ParentsFirst(g, a + {p})
    requires p !in a && !HasActiveParent(g, a, p) && Covered(g, a, w + {p}) && AllLead(g, w, p)
    ensures !RecurseKids(g, Yes(), a + {p}, p, 0).0.Done?
  {
    ReachSelf(g.edges, p);
    forall n | n in g.nodes ensures n in a + {p} <==> n == p || n !in Below(g, p) {
      OnlySubtreeLeft(g, a, p, w, n);
    }
    KidsAbort(g, a + {p}, p);
  }

  lemma MarkCovers(g: Graph, a: set<NodeId>, bs: NodeId, w: set<NodeId>)
    requires Indexed(g) && bs in g.nodes && Covered(g, a, w + {bs})
    requires forall c :: Settled(g, a, c) && !Arc(g.edges, bs, c) ==> Settled(g, a + {bs}, c)
    ensures Covered(g, a + {bs}, w + KidsFrom(g, bs, 0))
  {
    forall n | n in g.nodes && !Settled(g, a + {bs}, n) ensures n in w + KidsFrom(g, bs, 0) {
      if Settled(g, a, n) { var j := ArcIndex(g, bs, n); }
    }
  }

  ghost function KidsFrom(g: Graph, bs: NodeId, i: nat): set<NodeId>
    requires Indexed(g) && bs in g.nodes
  {
    set j | i <= j < |g.children[bs]| :: ChildNode(g, bs, j)
  }

  lemma {:induction false} KidsLate(g: Graph, p: NodeId, a: set<NodeId>, bs: NodeId, i: nat, w: set<NodeId>)
    requires Indexed(g) && Acyclic(g.edges) && Open(g) && Trap(g, p) && LeadersLast(g, p)
    requires ParentsFirst(g, a) && bs in a && p !in a && i <= |g.children[bs]| && Covered(g, a, w + KidsFrom(g, bs, i))
    requires Reach(g.edges, bs, p) ==> AllLead(g, w, p)
    ensures var (r, a') := RecurseKids(g, Yes(), a, bs, i); r.Done? ==> p !in a' && Covered(g, a', w)
    decreases Below(g, bs), |g.children[bs]| - i
  {
    if i == |g.children[bs]| {
      assert KidsFrom(g, bs, i) == {};
    } else {
      var c := ChildNode(g, bs, i);
      var w1 := w + KidsFrom(g, bs, i + 1);
      BelowShrinks(g, bs, i);
      assert w + KidsFrom(g, bs, i) == w1 + {c};
      if Reach(g.edges, c, p) {
        ReachArc(g.edges, bs, c);
        ReachTrans(g.edges, bs, c, p);
        forall n | n in w1 ensures Reach(g.edges, n, p) {}
      }
      TrapNotLater(g, p);
      RecurseOk(g, Yes(), a, c);
      RecurseLate(g, p, a, c, w1);
      var (r, a1) := Recurse(g, Yes(), a, c);
      if r.Done? {
        KidsLate(g, p, a1, bs, i + 1, w);
      }
    }
  }

  // ----- all roots ------------------------------------------------------------------------

  ghost predicate Enumerates(g: Graph, order: seq<NodeId>) {
    NoDup(order) && (forall n :: n in order ==> n in g.nodes) && forall n :: n in g.nodes && IsRoot(g, n) ==> n in order
  }

  ghost function RootsFrom(g: Graph, order: seq<NodeId>, i: nat): set<NodeId> {
    set j | i <= j < |order| && IsRoot(g, order[j]) :: order[j]
  }

  /** Roots above `p` come after the others. */
  ghost predicate RootsLast(g: Graph, p: NodeId, order: seq<NodeId>) {
    forall i, j :: 0 <= i < j < |order| && Reach(g.edges, order[i], p) ==> Reach(g.edges, order[j], p)
  }

  lemma {:induction false} RunLate(g: Graph, p: NodeId, a: set<NodeId>, order: seq<NodeId>, i: nat)
    requires Indexed(g) && Acyclic(g.edges) && Open(g) && Trap(g, p) && LeadersLast(g, p) && RootsLast(g, p, order)
    requires i <= |order| && (forall n :: n in order ==> n in g.nodes)
    requires ParentsFirst(g, a) && p !in a && Covered(g, a, RootsFrom(g, order, i))
    ensures var (r, a') := RunAll(g, Yes(), a, order, i); r.Done? ==> p !in a' && Covered(g, a', {})
    decreases |order| - i
  {
    if i == |order| {
      assert RootsFrom(g, order, i) == {};
    } else if !IsRoot(g, order[i]) {
      assert RootsFrom(g, order, i) == RootsFrom(g, order, i + 1);
      RunLate(g, p, a, order, i + 1);
    } else {
      var bs, w := order[i], RootsFrom(g, order, i + 1);
      assert RootsFrom(g, order, i) == w + {bs};
      RecurseOk(g, Yes(), a, bs);
      RecurseLate(g, p, a, bs, w);
      var (r, a1) := Recurse(g, Yes(), a, bs);
      if r.Done? {
        RunLate(g, p, a1, order, i + 1);
      }
    }
  }

  lemma {:induction false} RunNeverFails(g: Graph, a: set<NodeId>, order: seq<NodeId>, i: nat)
    requires Indexed(g) && Acyclic(g.edges) && Open(g) && i <= |order| && forall n :: n in order ==> n in g.nodes
    ensures !RunAll(g, Yes(), a, order, i).0.Failed?
    decreases |order| - i
  {
    if i < |order| {
      NeverFails(g, a, order[i]);
      RunNeverFails(g, a, order, i + 1);
      RunNeverFails(g, Recurse(g, Yes(), a, order[i]).1, order, i + 1);
    }
  }

  lemma RunAborts(g: Graph, p: NodeId, order: seq<NodeId>)
    requires Indexed(g) && Acyclic(g.edges) && Open(g) && Trap(g, p) && LeadersLast(g, p)
    requires RootsLast(g, p, order) && Enumerates(g, order)
    ensures RunAll(g, Yes(), {}, order, 0).0.Aborted?
  {
    forall n | n in g.nodes && !Settled(g, {}, n) ensures n in RootsFrom(g, order, 0) {
      forall u ensures !IsParent(g, u, n) {}
      var j :| 0 <= j < |order| && order[j] == n;
    }
    RunNeverFails(g, {}, order, 0);
    RunLate(g, p, {}, order, 0);
    var (r, a) := RunAll(g, Yes(), {}, order, 0);
    if Covered(g, a, {}) {
      AllInactive(g, a, p);
    }
  }

  lemma {:induction false} RunSafe(g: Graph, a: set<NodeId>, order: seq<NodeId>, i: nat)
    requires Indexed(g) && Acyclic(g.edges) && LaterNotBelow(g) && ParentsFirst(g, a)
    requires i <= |order| && NoDup(order) && (forall n :: n in order ==> n in g.nodes)
    requires forall n :: n in a && IsRoot(g, n) ==> n in order[..i]
    ensures !RunAll(g, Yes(), a, order, i).0.Aborted?
    decreases |order| - i
  {
    if i < |order| {
      var bs := order[i];
      assert order[..i + 1] == order[..i] + [bs] && bs !in order[..i];
      if IsRoot(g, bs) {
        RecurseOk(g, Yes(), a, bs);
        var (r, a1) := Recurse(g, Yes(), a, bs);
        if r.Done? {
          forall n | n in a1 && IsRoot(g, n) ensures n in order[..i + 1] {
            if n !in a { RootBelow(g, bs, n); }
          }
          RunSafe(g, a1, order, i + 1);
        }
      } else {
        RunSafe(g, a, order, i + 1);
      }
    }
  }

  // ----- another order of the same graph --------------------------------------------------

  /** The elements that are in `late`, or those that are not. */
  ghost function Keep(s: seq<nat>, late: set<nat>, which: bool): seq<nat> {
    if s == [] then [] else (if (s[0] in late) == which then [s[0]] else []) + Keep(s[1..], late, which)
  }

  /** First the elements that are not in `late`, then those that are. */
  ghost function Later(s: seq<nat>, late: set<nat>): seq<nat> {
    Keep(s, late, false) + Keep(s, late, true)
  }

  lemma {:induction false} KeepOk(s: seq<nat>, late: set<nat>, which: bool)
    ensures forall x :: x in Keep(s, late, which) <==> x in s && (x in late) == which
    ensures NoDup(s) ==> NoDup(Keep(s, late, which))
  {
    if s != [] {
      KeepOk(s[1..], late, which);
      assert s == [s[0]] + s[1..];
      if NoDup(s) {
        assert s[0] !in s[1..];
        Disjoint(if (s[0] in late) == which then [s[0]] else [], Keep(s[1..], late, which));
      }
    }
  }

  lemma Disjoint(s: seq<nat>, t: seq<nat>)
    requires NoDup(s) && NoDup(t) && forall x :: x in s ==> x !in t
    ensures NoDup(s + t)
  {
    forall i, j | 0 <= i < j < |s + t| ensures (s + t)[i] != (s + t)[j] {
      if i < |s| <= j { assert s[i] in s && t[j - |s|] in t; }
    }
  }

  lemma LaterOk(s: seq<nat>, late: set<nat>)
    requires NoDup(s)
    ensures NoDup(Later(s, late)) && forall x :: x in Later(s, late) <==> x in s
    ensures forall i, j :: 0 <= i < j < |Later(s, late)| && Later(s, late)[i] in late ==> Later(s, late)[j] in late
  {
    var a, b := Keep(s, late, false), Keep(s, late, true);
    KeepOk(s, late, false);
    KeepOk(s, late, true);
    Disjoint(a, b);
    forall k | 0 <= k < |a| ensures a[k] !in late { assert a[k] in a; }
    forall k | 0 <= k < |b| ensures b[k] in late { assert b[k] in b; }
  }

  /** Two child edges of one node such that the second target is also reached through the first. */
  ghost predicate Shortcut(g: Graph, p: NodeId, e1: EdgeId, e2: EdgeId) {
    && p in g.nodes && e1 != e2 && InChildren(g, e1, p) && InChildren(g, e2, p)
    && Reach(g.edges, g.edges[e1].bs.value, g.edges[e2].bs.value)
  }

  /** The edges through which `p` is reached; for `p` itself, its own edge that is to come last. */
  ghost function LateEdges(g: Graph, p: NodeId, e2: EdgeId, u: NodeId): set<EdgeId> {
    if u == p then {e2} else set e | e in g.edges && g.edges[e].bs.Some? && Reach(g.edges, g.edges[e].bs.value, p)
  }

  /** The same graph with `p` visited as late as possible and `e2` as its last child. */
  ghost function Reordered(g: Graph, p: NodeId, e2: EdgeId): Graph
    requires Indexed(g)
  {
    g.(children := map u | u in g.nodes :: Later(g.children[u], LateEdges(g, p, e2, u)))
  }

  /** The graphs differ only in the order of the lists of children. */
  ghost predicate SameGraph(g: Graph, g': Graph) {
    Indexed(g') && g'.nodes == g.nodes && g'.edges == g.edges
  }

  lemma ReorderedSame(g: Graph, p: NodeId, e2: EdgeId)
    requires Indexed(g)
    ensures SameGraph(g, Reordered(g, p, e2))
  {
    var g' := Reordered(g, p, e2);
    forall n | n in g.nodes ensures ListsOk(g', n) {
      assert ListsOk(g, n);
      LaterOk(g.children[n], LateEdges(g, p, e2, n));
      forall e ensures InChildren(g', e, n) <==> InChildren(g, e, n) {}
      forall e ensures InParents(g', e, n) <==> InParents(g, e, n) {}
    }
    forall e | e in g.edges ensures EndsOk(g', e) { assert EndsOk(g, e); }
  }

  lemma ReorderedLate(g: Graph, p: NodeId, e2: EdgeId)
    requires Indexed(g) && Acyclic(g.edges) && p in g.nodes && Indexed(Reordered(g, p, e2))
    ensures LeadersLast(Reordered(g, p, e2), p)
  {
    var g' := Reordered(g, p, e2);
    forall u, i, j | u in g.nodes && 0 <= i < j < |g'.children[u]| && Reach(g.edges, ChildNode(g', u, i), p)
      ensures Reach(g.edges, ChildNode(g', u, j), p) {
      assert ListsOk(g, u) && Arc(g.edges, u, ChildNode(g', u, i));
      if u == p {
        ArcNotBack(g.edges, p, ChildNode(g', p, i));
      } else {
        LaterOk(g.children[u], LateEdges(g, p, e2, u));
        assert g'.children[u][i] in LateEdges(g, p, e2, u);
      }
    }
  }

  lemma ReorderedTrap(g: Graph, p: NodeId, e1: EdgeId, e2: EdgeId)
    requires Indexed(g) && Shortcut(g, p, e1, e2) && Indexed(Reordered(g, p, e2))
    ensures Trap(Reordered(g, p, e2), p)
  {
    var g' := Reordered(g, p, e2);
    var s := g'.children[p];
    assert ListsOk(g, p) && ListsOk(g', p) && InChildren(g', e1, p) && InChildren(g', e2, p);
    LaterOk(g.children[p], {e2});
    var i :| 0 <= i < |s| && s[i] == e1;
    var j :| 0 <= j < |s| && s[j] == e2;
    assert s[|s| - 1] == e2;
    assert ChildNode(g', p, i) == g.edges[e1].bs.value && LastChild(g', p) == g.edges[e2].bs.value;
  }

  lemma {:induction false} SomeOrder(s: set<NodeId>) returns (order: seq<NodeId>)
    ensures NoDup(order) && forall n :: n in order <==> n in s
    decreases s
  {
    if s == {} {
      order := [];
    } else {
      var n :| n in s;
      order := SomeOrder(s - {n});
      Disjoint(order, [n]);
      order := order + [n];
    }
  }

  lemma Reordering(g: Graph, p: NodeId, e1: EdgeId, e2: EdgeId) returns (g': Graph)
    requires Indexed(g) && Acyclic(g.edges) && Shortcut(g, p, e1, e2)
    ensures SameGraph(g, g') && Trap(g', p) && LeadersLast(g', p)
  {
    g' := Reordered(g, p, e2);
    ReorderedSame(g, p, e2);
    ReorderedLate(g, p, e2);
    ReorderedTrap(g, p, e1, e2);
  }

  /** A graph with a shortcut has an order of children and roots in which the assertion fails. */
  lemma ShortcutAborts(g: Graph, p: NodeId, e1: EdgeId, e2: EdgeId) returns (g': Graph, order: seq<NodeId>)
    requires Indexed(g) && Acyclic(g.edges) && Open(g) && Shortcut(g, p, e1, e2)
    ensures SameGraph(g, g') && Enumerates(g', order) && RunAll(g', Yes(), {}, order, 0).0.Aborted?
  {
    g' := Reordering(g, p, e1, e2);
    order := LateOrder(g', p);
    RunAborts(g', p, order);
  }

  /** An enumeration of all nodes in which those above `p` come last. */
  lemma LateOrder(g: Graph, p: NodeId) returns (order: seq<NodeId>)
    ensures Enumerates(g, order) && RootsLast(g, p, order)
  {
    var all := SomeOrder(g.nodes.Keys);
    var above := set n | n in g.nodes && Reach(g.edges, n, p);
    order := Later(all, above);
    LaterOk(all, above);
    forall i, j | 0 <= i < j < |order| && Reach(g.edges, order[i], p) ensures Reach(g.edges, order[j], p) {
      assert order[i] in order && order[i] in above;
    }
  }

  ghost predicate NoShortcuts(g: Graph) {
    forall p, e1, e2 :: !Shortcut(g, p, e1, e2)
  }

  /** However the children are listed and the nodes enumerated, the assertion does not fail. */
  ghost predicate SafeInAnyOrder(g: Graph)
    requires Acyclic(g.edges)
  {
    forall g', order :: SameGraph(g, g') && Enumerates(g', order) ==> !RunAll(g', Yes(), {}, order, 0).0.Aborted?
  }

  lemma NoShortcutsLater(g: Graph, g': Graph)
    requires NoShortcuts(g) && SameGraph(g, g')
    ensures LaterNotBelow(g')
  {
    forall p, i, j | p in g'.nodes && 0 <= i < j < |g'.children[p]|
      ensures ChildNode(g', p, j) !in Below(g', ChildNode(g', p, i)) {
      assert ListsOk(g', p);
      var e1, e2 := g'.children[p][i], g'.children[p][j];
      assert InChildren(g', e1, p) && InChildren(g', e2, p);
      assert !Shortcut(g, p, e1, e2);
    }
  }

  /** The assertion is safe in every order exactly when no two edges of a node lead to the same place, one directly. */
  lemma SafeExactly(g: Graph)
    requires Indexed(g) && Acyclic(g.edges) && Open(g)
    ensures SafeInAnyOrder(g) <==> NoShortcuts(g)
  {
    if NoShortcuts(g) {
      forall g', order | SameGraph(g, g') && Enumerates(g', order) ensures !RunAll(g', Yes(), {}, order, 0).0.Aborted? {
        NoShortcutsLater(g, g');
        RunSafe(g', {}, order, 0);
      }
    } else {
      var p, e1, e2 :| Shortcut(g, p, e1, e2);
      var g', order := ShortcutAborts(g, p, e1, e2);
    }
  }
}
