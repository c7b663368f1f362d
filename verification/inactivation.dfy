// Handing images over for migration: nodes are inactivated parents first (block.c:6724-6845).
module Inactivation {
  import opened BlockGraph
  import opened GraphSearch
  import opened Wrappers

  /** `Aborted` is the failed assertion that a node is not inactivated twice. */
  datatype Outcome = Done | Failed | Aborted

  ghost predicate IsParent(g: Graph, u: NodeId, n: NodeId) {
    u in g.nodes && Arc(g.edges, u, n)
  }

  ghost predicate HasActiveParent(g: Graph, inactive: set<NodeId>, n: NodeId) {
    exists u :: IsParent(g, u, n) && u !in inactive
  }

  /** An inactive node has only inactive node parents. */
  ghost predicate ParentsFirst(g: Graph, inactive: set<NodeId>) {
    forall n :: n in inactive ==> n in g.nodes && !HasActiveParent(g, inactive, n)
  }

  /** Nothing more to do for `n` until another of its parents is inactivated. */
  ghost predicate Settled(g: Graph, inactive: set<NodeId>, n: NodeId) {
    n in inactive || HasActiveParent(g, inactive, n)
  }

  /** No child of a node can be reached from an earlier child: no parallel edges, and no edge
      that comes after the start of a longer path to the same node. */
  ghost predicate LaterNotBelow(g: Graph)
    requires Indexed(g)
  {
    forall p, i, j :: p in g.nodes && 0 <= i < j < |g.children[p]| ==> ChildNode(g, p, j) !in Below(g, ChildNode(g, p, i))
  }

  /** What one call may do: inactivate more nodes of the subtree, parents first. */
  ghost predicate Progress(g: Graph, before: set<NodeId>, after: set<NodeId>, bs: NodeId) {
    && before <= after <= before + Below(g, bs)
    && ParentsFirst(g, after)
  }

  ghost predicate IsRoot(g: Graph, n: NodeId) {
    forall u :: !IsParent(g, u, n)
  }

  /** Every inactive node was marked exactly once. */
  ghost predicate LogOk(log: seq<NodeId>, inactive: set<NodeId>) {
    NoDup(log) && Elems(log) == inactive
  }

  /** Going up from an active node through active parents cannot go on forever. */
  lemma {:induction false} AllInactive(g: Graph, inactive: set<NodeId>, n: NodeId)
    requires Indexed(g) && Acyclic(g.edges) && n in g.nodes
    requires forall m :: m in g.nodes ==> Settled(g, inactive, m)
    ensures n in inactive
    decreases g.nodes.Keys - Below(g, n)
  {
    if n !in inactive {
      var u :| IsParent(g, u, n) && u !in inactive;
      var i := ArcIndex(g, u, n);
      BelowShrinks(g, u, i);
      assert Below(g, u) <= g.nodes.Keys;
      AllInactive(g, inactive, u);
    }
  }

  /** Only the root itself is a root of its subtree. */
  lemma RootBelow(g: Graph, bs: NodeId, n: NodeId)
    requires Indexed(g) && bs in g.nodes && n in Below(g, bs) && IsRoot(g, n)
    ensures n == bs
  {
    if n != bs {
      var p :| PathFromTo(g.edges, p, bs, n);
      var k := |p| - 2;
      assert Arc(g.edges, p[k], p[k + 1]);
      SubPath(g.edges, p, 0, k + 1);
      PathInNodes(g, p[..k + 1]);
      assert IsParent(g, p[k], n);
    }
  }

  // ----- the recursion as a function ------------------------------------------------------

  type May = (NodeId, set<NodeId>) -> bool

  /** What bdrv_inactivate_recurse does, as a function of the nodes that are inactive already. */
  ghost function Recurse(g: Graph, may: May, inactive: set<NodeId>, bs: NodeId): (Outcome, set<NodeId>)
    requires Indexed(g) && Acyclic(g.edges) && bs in g.nodes
    decreases Below(g, bs), |g.children[bs]| + 1
  {
    if g.nodes[bs].drv.None? then (Failed, inactive)
    else if HasActiveParent(g, inactive, bs) then (Done, inactive)
    else if bs in inactive then (Aborted, inactive)
    else if !may(bs, inactive) then (Failed, inactive)
    else RecurseKids(g, may, inactive + {bs}, bs, 0)
  }

  ghost function RecurseKids(g: Graph, may: May, inactive: set<NodeId>, bs: NodeId, i: nat): (Outcome, set<NodeId>)
    requires Indexed(g) && Acyclic(g.edges) && bs in g.nodes && i <= |g.children[bs]|
    decreases Below(g, bs), |g.children[bs]| - i
  {
    if i == |g.children[bs]| then (Done, inactive)
    else
      BelowShrinks(g, bs, i);
      var (r, inactive') := Recurse(g, may, inactive, ChildNode(g, bs, i));
      if r.Done? then RecurseKids(g, may, inactive', bs, i + 1) else (r, inactive')
  }

  /** What bdrv_inactivate_all does with the nodes from position `i` on. */
  ghost function RunAll(g: Graph, may: May, inactive: set<NodeId>, order: seq<NodeId>, i: nat): (Outcome, set<NodeId>)
    requires Indexed(g) && Acyclic(g.edges) && i <= |order| && forall n :: n in order ==> n in g.nodes
    decreases |order| - i
  {
    if i == |order| then (Done, inactive)
    else if !IsRoot(g, order[i]) then RunAll(g, may, inactive, order, i + 1)
    else
      var (r, inactive') := Recurse(g, may, inactive, order[i]);
      if r.Done? then RunAll(g, may, inactive', order, i + 1) else (r, inactive')
  }

  /** Marking a node whose node parents are all inactive. */
  lemma MarkOk(g: Graph, was: set<NodeId>, bs: NodeId)
    requires Indexed(g) && Acyclic(g.edges) && ParentsFirst(g, was) && bs in g.nodes
    requires !HasActiveParent(g, was, bs) && bs !in was
    ensures ParentsFirst(g, was + {bs})
    ensures forall i :: 0 <= i < |g.children[bs]| ==> ChildNode(g, bs, i) !in was + {bs}
    ensures forall c :: Settled(g, was, c) && !Arc(g.edges, bs, c) ==> Settled(g, was + {bs}, c)
  {
    forall i | 0 <= i < |g.children[bs]| ensures ChildNode(g, bs, i) !in was + {bs} {
      var c := ChildNode(g, bs, i);
      assert Arc(g.edges, bs, c) && IsParent(g, bs, c);
      ArcNotBack(g.edges, bs, c);
      ReachSelf(g.edges, bs);
    }
    forall n | n in was + {bs} ensures n in g.nodes && !HasActiveParent(g, was + {bs}, n) {
      assert n != bs ==> n in was && !HasActiveParent(g, was, n);
    }
    forall c | Settled(g, was, c) && !Arc(g.edges, bs, c) ensures Settled(g, was + {bs}, c) {
      if c !in was {
        var u :| IsParent(g, u, c) && u !in was;
        assert u !in was + {bs};
      }
    }
  }

  /**
   * One call inactivates only nodes of the subtree, parents first; when it succeeds, `bs` and
   * everything that was settled before is settled; and it never marks a node twice if later
   * children are not below earlier ones.
   */
  lemma {:induction false} RecurseOk(g: Graph, may: May, inactive: set<NodeId>, bs: NodeId)
    requires Indexed(g) && Acyclic(g.edges) && ParentsFirst(g, inactive) && bs in g.nodes
    ensures
      var (r, after) := Recurse(g, may, inactive, bs);
      && Progress(g, inactive, after, bs)
      && (r.Done? ==> Settled(g, after, bs) && forall c :: Settled(g, inactive, c) ==> Settled(g, after, c))
      && (LaterNotBelow(g) && bs !in inactive ==> !r.Aborted?)
    decreases Below(g, bs), |g.children[bs]| + 1
  {
    var (r, after) := Recurse(g, may, inactive, bs);
    if g.nodes[bs].drv.Some? && !HasActiveParent(g, inactive, bs) && bs !in inactive && may(bs, inactive) {
      MarkOk(g, inactive, bs);
      KidsOk(g, may, inactive + {bs}, bs, 0);
      ReachSelf(g.edges, bs);
      if r.Done? {
        forall c | Settled(g, inactive, c) ensures Settled(g, after, c) {
          if Arc(g.edges, bs, c) { var i := ArcIndex(g, bs, c); }
        }
      }
    }
  }

  lemma {:induction false} KidsOk(g: Graph, may: May, inactive: set<NodeId>, bs: NodeId, i: nat)
    requires Indexed(g) && Acyclic(g.edges) && ParentsFirst(g, inactive) && bs in inactive && i <= |g.children[bs]|
    requires LaterNotBelow(g) ==> forall j :: i <= j < |g.children[bs]| ==> ChildNode(g, bs, j) !in inactive
    ensures
      var (r, after) := RecurseKids(g, may, inactive, bs, i);
      && Progress(g, inactive, after, bs)
      && (r.Done? ==> forall c :: Settled(g, inactive, c) ==> Settled(g, after, c))
      && (r.Done? ==> forall j :: i <= j < |g.children[bs]| ==> Settled(g, after, ChildNode(g, bs, j)))
      && (LaterNotBelow(g) ==> !r.Aborted?)
    decreases Below(g, bs), |g.children[bs]| - i
  {
    if i < |g.children[bs]| {
      var c := ChildNode(g, bs, i);
      BelowShrinks(g, bs, i);
      RecurseOk(g, may, inactive, c);
      var (r, inactive') := Recurse(g, may, inactive, c);
      if r.Done? {
        KidsOk(g, may, inactive', bs, i + 1);
      }
    }
  }

  // ----- who is asked, and what a refusal does ----------------------------------------------

  /** The recursion comes to `n`: it starts there, or it inactivates a parent of `n`. */
  ghost predicate ComesTo(g: Graph, bs: NodeId, marked: set<NodeId>, n: NodeId) {
    n in g.nodes && (n == bs || exists u :: u in marked && IsParent(g, u, n))
  }

  /** The node has no driver; or its turn has come, and the driver, a user or the permission check objects. */
  ghost predicate Refuses(g: Graph, may: May, inactive: set<NodeId>, n: NodeId) {
    n in g.nodes && (g.nodes[n].drv.None? || (!HasActiveParent(g, inactive, n) && n !in inactive && !may(n, inactive)))
  }

  /** The node has a driver, and is inactive or waits for another parent. */
  ghost predicate DealtWith(g: Graph, inactive: set<NodeId>, n: NodeId) {
    n in g.nodes && g.nodes[n].drv.Some? && Settled(g, inactive, n)
  }

  /** What the outcome of a call says about the nodes that it has come to. */
  ghost predicate OutcomeOk(g: Graph, may: May, before: set<NodeId>, r: Outcome, after: set<NodeId>, bs: NodeId) {
    && (r.Done? ==> forall n :: ComesTo(g, bs, after - before, n) ==> DealtWith(g, after, n))
    && (r.Failed? ==> exists n :: ComesTo(g, bs, after - before, n) && Refuses(g, may, after, n))
  }

  /** A successful call has dealt with every node it came to; a failed one has come to a node that refuses. */
  lemma {:induction false} RecurseAsks(g: Graph, may: May, inactive: set<NodeId>, bs: NodeId)
    requires Indexed(g) && Acyclic(g.edges) && ParentsFirst(g, inactive) && bs in g.nodes
    ensures var (r, after) := Recurse(g, may, inactive, bs); OutcomeOk(g, may, inactive, r, after, bs)
    decreases Below(g, bs), |g.children[bs]| + 1
  {
    var (r, after) := Recurse(g, may, inactive, bs);
    RecurseOk(g, may, inactive, bs);
    if g.nodes[bs].drv.Some? && !HasActiveParent(g, inactive, bs) && bs !in inactive && may(bs, inactive) {
      MarkOk(g, inactive, bs);
      KidsAsk(g, may, inactive + {bs}, bs, 0);
      KidsOk(g, may, inactive + {bs}, bs, 0);
      AskedBelow(g, may, inactive, bs, r, after);
    } else if r.Failed? {
      assert ComesTo(g, bs, after - inactive, bs) && Refuses(g, may, after, bs);
    }
  }

  lemma AskedBelow(g: Graph, may: May, inactive: set<NodeId>, bs: NodeId, r: Outcome, after: set<NodeId>)
    requires Indexed(g) && bs in g.nodes && g.nodes[bs].drv.Some? && bs !in inactive && inactive + {bs} <= after
    requires KidsOutcome(g, may, inactive + {bs}, r, after, bs, 0)
    ensures OutcomeOk(g, may, inactive, r, after, bs)
  {
    var before := inactive + {bs};
    if r.Done? {
      forall n | ComesTo(g, bs, after - inactive, n) ensures DealtWith(g, after, n) {
        if n != bs {
          var u :| u in after - inactive && IsParent(g, u, n);
          if u == bs {
            var i := ArcIndex(g, bs, n);
            assert DealtWith(g, after, ChildNode(g, bs, i));
          } else {
            assert u in after - before && Follows(g, after - before, n);
          }
        }
      }
    }
    if r.Failed? {
      var n :| KidOrFollows(g, bs, 0, after - before, n) && Refuses(g, may, after, n);
      if n !in g.nodes || !Follows(g, after - before, n) {
        var i :| 0 <= i < |g.children[bs]| && ChildNode(g, bs, i) == n;
        assert Arc(g.edges, bs, n) && IsParent(g, bs, n) && bs in after - inactive;
      }
      assert ComesTo(g, bs, after - inactive, n);
    }
  }

  ghost predicate Follows(g: Graph, marked: set<NodeId>, n: NodeId) {
    exists u :: u in marked && IsParent(g, u, n)
  }

  /** A child of `bs` from position `i` on, or a child of a node marked since. */
  ghost predicate KidOrFollows(g: Graph, bs: NodeId, i: nat, marked: set<NodeId>, n: NodeId)
    requires Indexed(g) && bs in g.nodes
  {
    (exists j :: i <= j < |g.children[bs]| && ChildNode(g, bs, j) == n) || Follows(g, marked, n)
  }

  ghost predicate KidsOutcome(g: Graph, may: May, before: set<NodeId>, r: Outcome, after: set<NodeId>, bs: NodeId, i: nat)
    requires Indexed(g) && bs in g.nodes
  {
    && (r.Done? ==> forall j :: i <= j < |g.children[bs]| ==> DealtWith(g, after, ChildNode(g, bs, j)))
    && (r.Done? ==> forall n :: n in g.nodes && Follows(g, after - before, n) ==> DealtWith(g, after, n))
    && (r.Failed? ==> exists n :: KidOrFollows(g, bs, i, after - before, n) && Refuses(g, may, after, n))
  }

  lemma {:induction false} KidsAsk(g: Graph, may: May, inactive: set<NodeId>, bs: NodeId, i: nat)
    requires Indexed(g) && Acyclic(g.edges) && ParentsFirst(g, inactive) && bs in inactive && i <= |g.children[bs]|
    ensures var (r, after) := RecurseKids(g, may, inactive, bs, i); KidsOutcome(g, may, inactive, r, after, bs, i)
    decreases Below(g, bs), |g.children[bs]| - i
  {
    if i < |g.children[bs]| {
      var c := ChildNode(g, bs, i);
      BelowShrinks(g, bs, i);
      RecurseAsks(g, may, inactive, c);
      RecurseOk(g, may, inactive, c);
      var (r1, mid) := Recurse(g, may, inactive, c);
      if r1.Done? {
        KidsAsk(g, may, mid, bs, i + 1);
        KidsSettle(g, may, mid, bs, i + 1);
        var (r, after) := RecurseKids(g, may, mid, bs, i + 1);
        KidsTogether(g, may, inactive, mid, r, after, bs, i);
      } else if r1.Failed? {
        var n :| ComesTo(g, c, mid - inactive, n) && Refuses(g, may, mid, n);
        assert n == c || Follows(g, mid - inactive, n);
        assert KidOrFollows(g, bs, i, mid - inactive, n);
      }
    }
  }

  /** What was settled stays settled, whatever the later children are. */
  lemma {:induction false} KidsSettle(g: Graph, may: May, inactive: set<NodeId>, bs: NodeId, i: nat)
    requires Indexed(g) && Acyclic(g.edges) && ParentsFirst(g, inactive) && bs in inactive && i <= |g.children[bs]|
    ensures var (r, after) := RecurseKids(g, may, inactive, bs, i);
      inactive <= after && ParentsFirst(g, after) && (r.Done? ==> forall c :: Settled(g, inactive, c) ==> Settled(g, after, c))
    decreases |g.children[bs]| - i
  {
    if i < |g.children[bs]| {
      var c := ChildNode(g, bs, i);
      RecurseOk(g, may, inactive, c);
      var (r, mid) := Recurse(g, may, inactive, c);
      if r.Done? {
        KidsSettle(g, may, mid, bs, i + 1);
      }
    }
  }

  lemma KidsTogether(g: Graph, may: May, before: set<NodeId>, mid: set<NodeId>, r: Outcome, after: set<NodeId>, bs: NodeId, i: nat)
    requires Indexed(g) && bs in g.nodes && i < |g.children[bs]| && before <= mid <= after
    requires OutcomeOk(g, may, before, Done, mid, ChildNode(g, bs, i)) && KidsOutcome(g, may, mid, r, after, bs, i + 1)
    requires r.Done? ==> forall c :: Settled(g, mid, c) ==> Settled(g, after, c)
    ensures KidsOutcome(g, may, before, r, after, bs, i)
  {
    var c := ChildNode(g, bs, i);
    if r.Done? {
      assert ComesTo(g, c, mid - before, c);
      forall n | n in g.nodes && Follows(g, after - before, n) ensures DealtWith(g, after, n) {
        var u :| u in after - before && IsParent(g, u, n);
        if u in mid {
          assert u in mid - before && ComesTo(g, c, mid - before, n);
        } else {
          assert u in after - mid && Follows(g, after - mid, n);
        }
      }
    }
    if r.Failed? {
      var n :| KidOrFollows(g, bs, i + 1, after - mid, n) && Refuses(g, may, after, n);
      if Follows(g, after - mid, n) {
        var u :| u in after - mid && IsParent(g, u, n);
        assert u in after - before && Follows(g, after - before, n);
      }
      assert KidOrFollows(g, bs, i, after - before, n);
    }
  }

  /** Every node of the log had a driver, its node parents before it in the log, and nobody who objected at that moment. */
  ghost predicate AllAgreed(g: Graph, may: May, log: seq<NodeId>) {
    forall k :: 0 <= k < |log| ==> AgreedAt(g, may, log, k)
  }

  ghost predicate AgreedAt(g: Graph, may: May, log: seq<NodeId>, k: nat)
    requires k < |log|
  {
    && log[k] in g.nodes && g.nodes[log[k]].drv.Some?
    && may(log[k], Elems(log[..k])) && !HasActiveParent(g, Elems(log[..k]), log[k])
  }

  lemma AgreedMore(g: Graph, may: May, log: seq<NodeId>, n: NodeId)
    requires AllAgreed(g, may, log) && n in g.nodes && g.nodes[n].drv.Some?
    requires may(n, Elems(log)) && !HasActiveParent(g, Elems(log), n)
    ensures AllAgreed(g, may, log + [n])
  {
    var log' := log + [n];
    forall k | 0 <= k < |log'| ensures AgreedAt(g, may, log', k) {
      assert log'[..k] == log[..k];
      if k < |log| {
        assert AgreedAt(g, may, log, k);
      } else {
        assert log[..k] == log;
      }
    }
  }

  /** The run over the roots of `seen` comes to `n`: as a root, or after a parent of it. */
  ghost predicate RunComesTo(g: Graph, seen: seq<NodeId>, inactive: set<NodeId>, n: NodeId) {
    n in g.nodes && ((n in seen && IsRoot(g, n)) || Follows(g, inactive, n))
  }

  /** Between two roots of a run. */
  ghost predicate RunInv(g: Graph, seen: seq<NodeId>, inactive: set<NodeId>) {
    && (forall n :: n in inactive && IsRoot(g, n) ==> n in seen)
    && (forall n :: n in g.nodes && (IsRoot(g, n) ==> n in seen) ==> Settled(g, inactive, n))
    && (forall n :: RunComesTo(g, seen, inactive, n) ==> DealtWith(g, inactive, n))
  }

  lemma RunStart(g: Graph, order: seq<NodeId>)
    ensures RunInv(g, order[..0], {})
  {
    forall c | c in g.nodes && !IsRoot(g, c) ensures Settled(g, {}, c) {
      var u :| IsParent(g, u, c);
    }
  }

  lemma RunSkip(g: Graph, seen: seq<NodeId>, bs: NodeId, inactive: set<NodeId>)
    requires RunInv(g, seen, inactive) && !IsRoot(g, bs)
    ensures RunInv(g, seen + [bs], inactive)
  {
    forall n ensures n in seen + [bs] && IsRoot(g, n) <==> n in seen && IsRoot(g, n) {}
  }

  lemma RunStep(g: Graph, may: May, seen: seq<NodeId>, bs: NodeId, before: set<NodeId>, after: set<NodeId>)
    requires Indexed(g) && bs in g.nodes && IsRoot(g, bs) && RunInv(g, seen, before) && Progress(g, before, after, bs)
    requires Settled(g, after, bs) && (forall c :: Settled(g, before, c) ==> Settled(g, after, c))
    requires OutcomeOk(g, may, before, Done, after, bs)
    ensures RunInv(g, seen + [bs], after)
  {
    forall n | n in after && IsRoot(g, n) ensures n in seen + [bs] {
      if n !in before { RootBelow(g, bs, n); }
    }
    forall n | RunComesTo(g, seen + [bs], after, n) ensures DealtWith(g, after, n) {
      if Follows(g, after, n) {
        var u :| u in after && IsParent(g, u, n);
        if u in before {
          assert Follows(g, before, n) && RunComesTo(g, seen, before, n);
        } else {
          assert u in after - before && ComesTo(g, bs, after - before, n);
        }
      } else if n == bs {
        assert ComesTo(g, bs, after - before, bs);
      } else {
        assert n in seen && RunComesTo(g, seen, before, n);
      }
    }
  }

  lemma RunFails(g: Graph, may: May, order: seq<NodeId>, bs: NodeId, before: set<NodeId>, after: set<NodeId>)
    requires bs in order && IsRoot(g, bs) && OutcomeOk(g, may, before, Failed, after, bs)
    ensures exists n :: RunComesTo(g, order, after, n) && Refuses(g, may, after, n)
  {
    var n :| ComesTo(g, bs, after - before, n) && Refuses(g, may, after, n);
    if n != bs {
      var u :| u in after - before && IsParent(g, u, n);
      assert u in after && Follows(g, after, n);
    }
    assert RunComesTo(g, order, after, n);
  }

  ghost predicate Agreed(g: Graph, may: May, log: seq<NodeId>, n: NodeId) {
    exists k :: 0 <= k < |log| && log[k] == n && AgreedAt(g, may, log, k)
  }

  lemma RunDone(g: Graph, may: May, order: seq<NodeId>, inactive: set<NodeId>, log: seq<NodeId>)
    requires Indexed(g) && Acyclic(g.edges) && RunInv(g, order, inactive) && ParentsFirst(g, inactive)
    requires LogOk(log, inactive) && AllAgreed(g, may, log)
    ensures forall n :: RunComesTo(g, order, inactive, n) ==> !Refuses(g, may, inactive, n)
    ensures (forall n :: n in g.nodes && IsRoot(g, n) ==> n in order) ==> inactive == g.nodes.Keys
    ensures (forall n :: n in g.nodes && IsRoot(g, n) ==> n in order) ==> forall n :: n in g.nodes ==> Agreed(g, may, log, n)
  {
    forall n | RunComesTo(g, order, inactive, n) ensures !Refuses(g, may, inactive, n) {
      assert DealtWith(g, inactive, n);
    }
    if forall n :: n in g.nodes && IsRoot(g, n) ==> n in order {
      forall n | n in g.nodes ensures n in inactive { AllInactive(g, inactive, n); }
      forall n | n in g.nodes ensures Agreed(g, may, log, n) {
        assert n in Elems(log);
        var k :| 0 <= k < |log| && log[k] == n;
        assert AgreedAt(g, may, log, k);
      }
    }
  }

  // ----- parallel edges -------------------------------------------------------------------

  /** Two nodes, the second a child of the first through two edges. */
  ghost function TwoEdges(): Graph {
    var node := Node(None, None, Some(Driver(false, false)), true, false, false, false, true);
    var edge := Child(Some(1), Bds(0), Role(true, false, false, false), {}, {}, false, false);
    Graph(map[0 := node, 1 := node], map[0 := edge, 1 := edge], map[0 := 1, 1 := 2],
          map[0 := [], 1 := [0, 1]], map[0 := [0, 1], 1 := []])
  }

  lemma TwoEdgesOk()
    ensures Indexed(TwoEdges()) && Acyclic(TwoEdges().edges)
    ensures forall a, b :: Arc(TwoEdges().edges, a, b) ==> a == 0 && b == 1
  {
    var g := TwoEdges();
    forall n | n in g.nodes ensures ListsOk(g, n) {
      forall e ensures InParents(g, e, n) <==> n == 1 && (e == 0 || e == 1) {}
      forall e ensures InChildren(g, e, n) <==> n == 0 && (e == 0 || e == 1) {}
    }
    forall a, b | Arc(g.edges, a, b) ensures a == 0 && b == 1 { var e :| ArcBy(g.edges, e, a, b); }
    forall p | IsPath(g.edges, p) && |p| > 1 ensures p[0] != p[|p| - 1] {
      assert Arc(g.edges, p[0], p[1]) && Arc(g.edges, p[|p| - 2], p[|p| - 2 + 1]);
    }
  }

  /** On that graph the assertion fires, although every callback agrees. */
  lemma ParallelEdgesAbort()
    ensures Indexed(TwoEdges()) && Acyclic(TwoEdges().edges)
    ensures Recurse(TwoEdges(), (n, s) => true, {}, 0).0 == Aborted
  {
    var g := TwoEdges();
    var may: May := (n, s) => true;
    TwoEdgesOk();
    assert ChildNode(g, 0, 0) == 1 && ChildNode(g, 0, 1) == 1;
    assert RecurseKids(g, may, {0, 1}, 1, 0) == (Done, {0, 1});
    assert Recurse(g, may, {0}, 1) == (Done, {0, 1}) by { assert {0} + {1} == {0, 1}; }
    assert Recurse(g, may, {0, 1}, 1) == (Aborted, {0, 1});
    assert RecurseKids(g, may, {0, 1}, 0, 1) == (Aborted, {0, 1});
    assert Recurse(g, may, {}, 0) == (Aborted, {0, 1}) by { assert {} + {0} == {0}; }
  }

  class Inactivator {
    const g: Graph
    const mayInactivate: May  // drivers, users and the write-permission check agree
    var inactive: set<NodeId>
    ghost var log: seq<NodeId> // nodes in the order in which they were marked

    /** bdrv_has_bds_parent with only_active set (block.c:6724-6739). */
    method HasActiveBdsParent(bs: NodeId) returns (r: bool)
      requires Indexed(g) && bs in g.nodes
      ensures r <==> HasActiveParent(g, inactive, bs)
    {
      var ps := g.parents[bs];
      assert ListsOk(g, bs);
      for i := 0 to |ps|
        invariant forall j :: 0 <= j < i && InParents(g, ps[j], bs) && g.edges[ps[j]].owner.Bds? ==>
          g.edges[ps[j]].owner.node in inactive
      {
        var e := ps[i];
        assert e in ps && InParents(g, e, bs);
        if g.edges[e].owner.Bds? && g.edges[e].owner.node !in inactive {
          assert EndsOk(g, e) && ArcBy(g.edges, e, g.edges[e].owner.node, bs);
          assert IsParent(g, g.edges[e].owner.node, bs);
          return true;
        }
      }
      r := false;
      forall u | IsParent(g, u, bs) ensures u in inactive {
        var e :| ArcBy(g.edges, e, u, bs);
        assert InParents(g, e, bs) && e in ps;
      }
    }

    /** bdrv_inactivate_recurse (block.c:6741-6803). */
    method InactivateRecurse(bs: NodeId) returns (r: Outcome)
      requires Indexed(g) && Acyclic(g.edges) && ParentsFirst(g, inactive) && LogOk(log, inactive) && bs in g.nodes
      requires AllAgreed(g, mayInactivate, log)
      modifies this`inactive, this`log
      ensures (r, inactive) == Recurse(g, mayInactivate, old(inactive), bs)
      ensures ParentsFirst(g, inactive) && LogOk(log, inactive) && AllAgreed(g, mayInactivate, log)
      ensures OutcomeOk(g, mayInactivate, old(inactive), r, inactive, bs)
      decreases Below(g, bs)
    {
      RecurseAsks(g, mayInactivate, inactive, bs);
      if g.nodes[bs].drv.None? {
        return Failed;
      }
      var active := HasActiveBdsParent(bs);
      if active {
        return Done;
      }
      if bs in inactive {
        return Aborted;
      }
      if !mayInactivate(bs, inactive) {
        return Failed;
      }
      MarkOk(g, inactive, bs);
      AgreedMore(g, mayInactivate, log, bs);
      inactive := inactive + {bs};
      log := log + [bs];
      assert LogOk(log, inactive) by { assert bs !in old(log); }
      ghost var marked := inactive;
      r := Done;
      for i := 0 to |g.children[bs]|
        invariant r.Done? && ParentsFirst(g, inactive) && LogOk(log, inactive) && AllAgreed(g, mayInactivate, log)
        invariant RecurseKids(g, mayInactivate, inactive, bs, i) == RecurseKids(g, mayInactivate, marked, bs, 0)
      {
        BelowShrinks(g, bs, i);
        r := InactivateRecurse(ChildNode(g, bs, i));
        if !r.Done? {
          return;
        }
      }
    }

    /** bdrv_has_bds_parent without only_active. */
    method HasBdsParent(bs: NodeId) returns (r: bool)
      requires Indexed(g) && bs in g.nodes
      ensures r <==> !IsRoot(g, bs)
    {
      var ps := g.parents[bs];
      assert ListsOk(g, bs);
      for i := 0 to |ps|
        invariant forall j :: 0 <= j < i && InParents(g, ps[j], bs) ==> g.edges[ps[j]].owner.User?
      {
        var e := ps[i];
        assert e in ps && InParents(g, e, bs);
        if g.edges[e].owner.Bds? {
          assert EndsOk(g, e) && ArcBy(g.edges, e, g.edges[e].owner.node, bs);
          assert IsParent(g, g.edges[e].owner.node, bs);
          return true;
        }
      }
      r := false;
      forall e | e in g.edges && g.edges[e].bs == Some(bs) ensures g.edges[e].owner.User? {
        assert InParents(g, e, bs) && e in ps;
      }
    }

    /**
     * bdrv_inactivate_all over the nodes that bdrv_next enumerates (block.c:6805-6845).  If it
     * succeeds and all roots are enumerated, every node has been inactivated, each exactly once and
     * with everybody's consent; unless the assertion fires, it fails if and only if it comes to a
     * node that refuses.
     */
    method InactivateAll(order: seq<NodeId>) returns (r: Outcome)
      requires Indexed(g) && Acyclic(g.edges) && inactive == {} && log == []
      requires NoDup(order) && forall n :: n in order ==> n in g.nodes
      modifies this`inactive, this`log
      ensures (r, inactive) == RunAll(g, mayInactivate, {}, order, 0)
      ensures ParentsFirst(g, inactive) && LogOk(log, inactive) && AllAgreed(g, mayInactivate, log)
      ensures LaterNotBelow(g) ==> !r.Aborted?
      ensures !r.Aborted? ==> (r.Failed? <==> exists n :: RunComesTo(g, order, inactive, n) && Refuses(g, mayInactivate, inactive, n))
      ensures r.Done? && (forall n :: n in g.nodes && IsRoot(g, n) ==> n in order) ==> inactive == g.nodes.Keys
      ensures r.Done? && (forall n :: n in g.nodes && IsRoot(g, n) ==> n in order) ==> forall n :: n in g.nodes ==> Agreed(g, mayInactivate, log, n)
    {
      r := Done;
      RunStart(g, order);
      for i := 0 to |order|
        invariant r.Done? && ParentsFirst(g, inactive) && LogOk(log, inactive) && AllAgreed(g, mayInactivate, log)
        invariant RunAll(g, mayInactivate, inactive, order, i) == RunAll(g, mayInactivate, {}, order, 0)
        invariant RunInv(g, order[..i], inactive)
      {
        r := InactivateNext(order, i);
        if !r.Done? {
          return;
        }
      }
      assert order[..|order|] == order;
      RunDone(g, mayInactivate, order, inactive, log);
    }

    /** One turn of its loop. */
    method InactivateNext(order: seq<NodeId>, i: nat) returns (r: Outcome)
      requires Indexed(g) && Acyclic(g.edges) && ParentsFirst(g, inactive) && LogOk(log, inactive) && AllAgreed(g, mayInactivate, log)
      requires NoDup(order) && (forall n :: n in order ==> n in g.nodes) && i < |order| && RunInv(g, order[..i], inactive)
      modifies this`inactive, this`log
      ensures ParentsFirst(g, inactive) && LogOk(log, inactive) && AllAgreed(g, mayInactivate, log)
      ensures RunAll(g, mayInactivate, old(inactive), order, i) == if r.Done? then RunAll(g, mayInactivate, inactive, order, i + 1) else (r, inactive)
      ensures LaterNotBelow(g) ==> !r.Aborted?
      ensures r.Done? ==> RunInv(g, order[..i + 1], inactive)
      ensures r.Failed? ==> exists n :: RunComesTo(g, order, inactive, n) && Refuses(g, mayInactivate, inactive, n)
    {
      var bs := order[i];
      assert order[..i + 1] == order[..i] + [bs] && bs in order && bs !in order[..i];
      r := Done;
      var skip := HasBdsParent(bs);
      if skip {
        RunSkip(g, order[..i], bs, inactive);
      } else {
        RecurseOk(g, mayInactivate, inactive, bs);
        r := InactivateRecurse(bs);
        if r.Done? {
          RunStep(g, mayInactivate, order[..i], bs, old(inactive), inactive);
        } else if r.Failed? {
          RunFails(g, mayInactivate, order, bs, old(inactive), inactive);
        }
      }
    }
  }
}
