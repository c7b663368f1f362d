// Moving a whole connected component to another AioContext (block.c:7328-7500,
// blockjob.c:136-167, block/block-backend.c:2141-2205).
module AioContext {

  type NodeId = nat
  type EdgeId = nat
  type JobId = nat
  type BackendId = nat
  type Ctx = nat

  /** Who owns an edge: a node, a block job (which owns several), or a BlockBackend. */
  datatype Parent = OfNode(node: NodeId) | OfJob(job: JobId) | OfBackend(blk: BackendId)

  datatype Edge = Edge(bs: NodeId, parent: Parent)

  /** The graph with the lists that the traversals follow; it does not change during a move. */
  datatype Net = Net(
    edges: map<EdgeId, Edge>,
    children: map<NodeId, seq<EdgeId>>,
    parents: map<NodeId, seq<EdgeId>>,
    jobNodes: map<JobId, seq<EdgeId>>)

  ghost predicate NodeListsOk(net: Net, n: NodeId) {
    && n in net.children && n in net.parents
    && (forall e :: e in net.children[n] <==> e in net.edges && net.edges[e].parent == OfNode(n))
    && (forall e :: e in net.parents[n] <==> e in net.edges && net.edges[e].bs == n)
  }

  ghost predicate JobListOk(net: Net, j: JobId) {
    j in net.jobNodes && forall e :: e in net.jobNodes[j] <==> e in net.edges && net.edges[e].parent == OfJob(j)
  }

  ghost predicate EdgeOk(net: Net, e: EdgeId)
    requires e in net.edges
  {
    && NodeListsOk(net, net.edges[e].bs)
    && (net.edges[e].parent.OfNode? ==> NodeListsOk(net, net.edges[e].parent.node) && net.edges[e].parent.node != net.edges[e].bs)
    && (net.edges[e].parent.OfJob? ==> JobListOk(net, net.edges[e].parent.job))
    && (net.edges[e].parent.OfBackend? ==> forall e' :: e' in net.edges && net.edges[e'].parent == net.edges[e].parent ==> e' == e)
  }

  ghost predicate WellFormed(net: Net) {
    forall e {:trigger EdgeOk(net, e)} :: e in net.edges ==> EdgeOk(net, e)
  }

  /** The edges at a node, on either side. */
  ghost function At(net: Net, n: NodeId): set<EdgeId> {
    set e | e in net.edges && (net.edges[e].bs == n || net.edges[e].parent == OfNode(n))
  }

  ghost function AtJob(net: Net, j: JobId): set<EdgeId> {
    set e | e in net.edges && net.edges[e].parent == OfJob(j)
  }

  // ----- connected parts ------------------------------------------------------------------

  /** A set of nodes, jobs and backends. */
  datatype Part = Part(nodes: set<NodeId>, jobs: set<JobId>, blks: set<BackendId>)

  ghost predicate SameSide(p: Part, e: Edge) {
    match e.parent
    case OfNode(u) => u in p.nodes <==> e.bs in p.nodes
    case OfJob(j) => j in p.jobs <==> e.bs in p.nodes
    case OfBackend(b) => b in p.blks <==> e.bs in p.nodes
  }

  /** No edge leads into or out of the part: it is a union of connected components. */
  ghost predicate Closed(net: Net, p: Part) {
    forall e :: e in net.edges ==> SameSide(p, net.edges[e])
  }

  // ----- contexts -------------------------------------------------------------------------

  datatype State = State(ctx: map<NodeId, Ctx>, jobCtx: map<JobId, Ctx>, blkCtx: map<BackendId, Ctx>)

  ghost predicate InNode(s: State, n: NodeId, c: Ctx) { n in s.ctx && s.ctx[n] == c }
  ghost predicate InJob(s: State, j: JobId, c: Ctx) { j in s.jobCtx && s.jobCtx[j] == c }
  ghost predicate InBlk(s: State, b: BackendId, c: Ctx) { b in s.blkCtx && s.blkCtx[b] == c }

  /** Both ends of the edge are in context `c`. */
  ghost predicate EndsIn(s: State, e: Edge, c: Ctx) {
    && InNode(s, e.bs, c)
    && match e.parent
       case OfNode(u) => InNode(s, u, c)
       case OfJob(j) => InJob(s, j, c)
       case OfBackend(b) => InBlk(s, b, c)
  }

  /** Things only ever move to `c`. */
  ghost predicate OnlyTo(s: State, s': State, c: Ctx) {
    && (forall n {:trigger InNode(s', n, c)} :: InNode(s, n, c) ==> InNode(s', n, c))
    && (forall j {:trigger InJob(s', j, c)} :: InJob(s, j, c) ==> InJob(s', j, c))
    && (forall b {:trigger InBlk(s', b, c)} :: InBlk(s, b, c) ==> InBlk(s', b, c))
  }

  /** Nothing changed outside the part. */
  ghost predicate Within(s: State, s': State, p: Part) {
    && (forall n :: n !in p.nodes ==> (n in s'.ctx <==> n in s.ctx) && (n in s.ctx ==> s'.ctx[n] == s.ctx[n]))
    && (forall j :: j !in p.jobs ==> (j in s'.jobCtx <==> j in s.jobCtx) && (j in s.jobCtx ==> s'.jobCtx[j] == s.jobCtx[j]))
    && (forall b :: b !in p.blks ==> (b in s'.blkCtx <==> b in s.blkCtx) && (b in s.blkCtx ==> s'.blkCtx[b] == s.blkCtx[b]))
  }

  /** Only what is connected to `bs` changed. */
  ghost predicate OnlyConnected(net: Net, s: State, s': State, bs: NodeId) {
    forall p :: Closed(net, p) && bs in p.nodes ==> Within(s, s', p)
  }

  // ----- the invariant of the traversal ---------------------------------------------------

  /**
   * Every edge at a node that has been moved or is in progress (`busy`), and every edge of a job
   * that has been moved, is on the ignore list; nodes in progress have not been moved yet.
   */
  ghost predicate Ready(net: Net, s: State, ignore: set<EdgeId>, busy: set<NodeId>, part: Part, c: Ctx) {
    && ignore <= net.edges.Keys
    && (forall n {:trigger At(net, n)} :: n in part.nodes && (n in busy || InNode(s, n, c)) ==> At(net, n) <= ignore)
    && (forall j {:trigger AtJob(net, j)} :: j in part.jobs && InJob(s, j, c) ==> AtJob(net, j) <= ignore)
    && (forall n {:trigger InNode(s, n, c)} :: n in busy ==> !InNode(s, n, c))
  }

  /** What a call that starts at `bs` does: edges it adds to the ignore list have both ends moved. */
  ghost predicate Step(net: Net, s: State, s': State, ignore: set<EdgeId>, ignore': set<EdgeId>, bs: NodeId,
                       busy: set<NodeId>, part: Part, c: Ctx) {
    && ignore <= ignore'
    && Ready(net, s', ignore', busy, part, c)
    && OnlyTo(s, s', c)
    && OnlyConnected(net, s, s', bs)
    && (forall e :: e in ignore' - ignore ==> e in net.edges && EndsIn(s', net.edges[e], c))
  }

  /** `b` is connected to `a`. */
  ghost predicate Joined(net: Net, a: NodeId, b: NodeId) {
    forall p :: Closed(net, p) && a in p.nodes ==> b in p.nodes
  }

  lemma EdgeJoins(net: Net, e: EdgeId)
    requires e in net.edges && net.edges[e].parent.OfNode?
    ensures Joined(net, net.edges[e].bs, net.edges[e].parent.node) && Joined(net, net.edges[e].parent.node, net.edges[e].bs)
  {
    forall p | Closed(net, p) ensures SameSide(p, net.edges[e]) {}
  }

  lemma JobJoins(net: Net, e: EdgeId, e': EdgeId)
    requires e in net.edges && e' in net.edges && net.edges[e].parent.OfJob? && net.edges[e'].parent == net.edges[e].parent
    ensures Joined(net, net.edges[e].bs, net.edges[e'].bs)
  {
    forall p | Closed(net, p) ensures SameSide(p, net.edges[e]) && SameSide(p, net.edges[e']) {}
  }

  lemma StepTrans(net: Net, s: State, s1: State, s2: State, ig: set<EdgeId>, ig1: set<EdgeId>, ig2: set<EdgeId>,
                  bs: NodeId, bs1: NodeId, busy: set<NodeId>, part: Part, c: Ctx)
    requires Step(net, s, s1, ig, ig1, bs, busy, part, c) && Step(net, s1, s2, ig1, ig2, bs1, busy, part, c)
    requires Joined(net, bs, bs1)
    ensures Step(net, s, s2, ig, ig2, bs, busy, part, c)
  {
    forall e | e in ig2 - ig ensures e in net.edges && EndsIn(s2, net.edges[e], c) {
      if e in ig1 { assert EndsIn(s1, net.edges[e], c); }
    }
    forall p | Closed(net, p) && bs in p.nodes ensures Within(s, s2, p) {
      assert Within(s, s1, p) && Within(s1, s2, p);
    }
  }

  lemma StepSelf(net: Net, s: State, ig: set<EdgeId>, bs: NodeId, busy: set<NodeId>, part: Part, c: Ctx)
    requires Ready(net, s, ig, busy, part, c)
    ensures Step(net, s, s, ig, ig, bs, busy, part, c)
  {
    forall p | Closed(net, p) && bs in p.nodes ensures Within(s, s, p) {}
  }

  /** Once all its edges are ignored, `bs` is in progress. */
  lemma Entered(net: Net, s: State, ignore: set<EdgeId>, ign: set<EdgeId>, bs: NodeId, busy: set<NodeId>, part: Part, c: Ctx)
    requires Ready(net, s, ignore, busy, part, c) && !InNode(s, bs, c) && ignore <= ign && At(net, bs) <= ign <= net.edges.Keys
    ensures Ready(net, s, ign, busy + {bs}, part, c)
  {
  }

  /** The far end of an edge that was not ignored is neither moved nor in progress. */
  lemma NotBusy(net: Net, s: State, ignore: set<EdgeId>, bs: NodeId, busy: set<NodeId>, part: Part, c: Ctx, e: EdgeId)
    requires WellFormed(net) && Closed(net, part) && Ready(net, s, ignore, busy, part, c) && bs in part.nodes
    requires e in net.edges && e !in ignore
    ensures net.edges[e].parent == OfNode(bs) ==> net.edges[e].bs in part.nodes && net.edges[e].bs !in busy + {bs}
    ensures net.edges[e].bs == bs && net.edges[e].parent.OfNode? ==>
      net.edges[e].parent.node in part.nodes && net.edges[e].parent.node !in busy + {bs}
  {
    assert EdgeOk(net, e) && SameSide(part, net.edges[e]);
    assert e in At(net, net.edges[e].bs);
    if net.edges[e].parent.OfNode? { assert e in At(net, net.edges[e].parent.node); }
  }

  ghost predicate ParentIn(s: State, e: Edge, c: Ctx) {
    match e.parent
    case OfNode(u) => InNode(s, u, c)
    case OfJob(j) => InJob(s, j, c)
    case OfBackend(b) => InBlk(s, b, c)
  }

  /** The end of the edge that is not `bs` has been moved. */
  ghost predicate FarEndIn(s: State, e: Edge, bs: NodeId, c: Ctx) {
    (e.parent == OfNode(bs) && InNode(s, e.bs, c)) || (e.bs == bs && ParentIn(s, e, c))
  }

  /** When everything around it has been moved, `bs` itself is. */
  lemma Leave(net: Net, s0: State, s1: State, ignore: set<EdgeId>, ign: set<EdgeId>, ignore': set<EdgeId>, bs: NodeId,
              busy: set<NodeId>, part: Part, c: Ctx)
    requires WellFormed(net) && Ready(net, s0, ignore, busy, part, c) && bs !in busy && ignore <= ign
    requires Step(net, s0, s1, ign, ignore', bs, busy + {bs}, part, c) && At(net, bs) <= ign
    requires forall e :: e in ign - ignore ==> e in net.edges && FarEndIn(s1, net.edges[e], bs, c)
    ensures Step(net, s0, s1.(ctx := s1.ctx[bs := c]), ignore, ignore', bs, busy, part, c)
  {
    var s' := s1.(ctx := s1.ctx[bs := c]);
    forall n ensures InNode(s', n, c) <==> InNode(s1, n, c) || n == bs {}
    forall j ensures InJob(s', j, c) <==> InJob(s1, j, c) {}
    forall b ensures InBlk(s', b, c) <==> InBlk(s1, b, c) {}
    forall e | e in ignore' - ignore ensures e in net.edges && EndsIn(s', net.edges[e], c) {
      if e in ign { assert FarEndIn(s1, net.edges[e], bs, c); } else { assert EndsIn(s1, net.edges[e], c); }
    }
    forall p | Closed(net, p) && bs in p.nodes ensures Within(s0, s', p) { assert Within(s0, s1, p); }
  }

  // ----- jobs -----------------------------------------------------------------------------

  /** The edge has been moved, except perhaps for the job `j` that owns it. */
  ghost predicate HalfIn(s: State, e: Edge, j: JobId, c: Ctx) {
    InNode(s, e.bs, c) && (e.parent == OfJob(j) || EndsIn(s, e, c))
  }

  /** A step inside the callback of job `j`, whose own context is set last. */
  ghost predicate StepJob(net: Net, s: State, s': State, ignore: set<EdgeId>, ignore': set<EdgeId>, bs: NodeId, j: JobId,
                          busy: set<NodeId>, part: Part, c: Ctx) {
    && ignore <= ignore'
    && Ready(net, s', ignore', busy, part, c)
    && OnlyTo(s, s', c)
    && OnlyConnected(net, s, s', bs)
    && (forall e :: e in ignore' - ignore ==> e in net.edges && HalfIn(s', net.edges[e], j, c))
  }

  lemma StepJobSelf(net: Net, s: State, ig: set<EdgeId>, bs: NodeId, j: JobId, busy: set<NodeId>, part: Part, c: Ctx)
    requires Ready(net, s, ig, busy, part, c)
    ensures StepJob(net, s, s, ig, ig, bs, j, busy, part, c)
  {
    forall p | Closed(net, p) && bs in p.nodes ensures Within(s, s, p) {}
  }

  /** Another node of the job that has not been visited is neither moved nor in progress. */
  lemma JobStep(net: Net, s: State, ig1: set<EdgeId>, e: EdgeId, x: EdgeId, j: JobId, busy: set<NodeId>, part: Part, c: Ctx)
    requires WellFormed(net) && Closed(net, part) && Ready(net, s, ig1, busy, part, c)
    requires e in net.edges && net.edges[e].bs in part.nodes && net.edges[e].parent == OfJob(j)
    requires x in net.edges && net.edges[x].parent == OfJob(j) && x !in ig1
    ensures NodeListsOk(net, net.edges[x].bs) && net.edges[x].bs in part.nodes && net.edges[x].bs !in busy
    ensures Ready(net, s, ig1 + {x}, busy, part, c)
  {
    assert EdgeOk(net, x) && SameSide(part, net.edges[x]) && SameSide(part, net.edges[e]);
    assert x in At(net, net.edges[x].bs);
  }

  lemma JobStepDone(net: Net, s0: State, s1: State, s2: State, ig: set<EdgeId>, ig1: set<EdgeId>, ig2: set<EdgeId>,
                    e: EdgeId, x: EdgeId, j: JobId, busy: set<NodeId>, part: Part, c: Ctx)
    requires e in net.edges && x in net.edges && net.edges[e].parent == OfJob(j) && net.edges[x].parent == OfJob(j)
    requires StepJob(net, s0, s1, ig, ig1, net.edges[e].bs, j, busy, part, c)
    requires Step(net, s1, s2, ig1 + {x}, ig2, net.edges[x].bs, busy, part, c) && InNode(s2, net.edges[x].bs, c)
    ensures StepJob(net, s0, s2, ig, ig2, net.edges[e].bs, j, busy, part, c)
  {
    var bs := net.edges[e].bs;
    JobJoins(net, e, x);
    forall p | Closed(net, p) && bs in p.nodes ensures Within(s0, s2, p) {
      assert Within(s0, s1, p) && Within(s1, s2, p);
    }
    forall y | y in ig2 - ig ensures y in net.edges && HalfIn(s2, net.edges[y], j, c) {
      if y in ig1 { assert HalfIn(s1, net.edges[y], j, c); }
    }
  }

  lemma StepJobDone(net: Net, s0: State, s1: State, ig: set<EdgeId>, ig1: set<EdgeId>, e: EdgeId, j: JobId,
                    busy: set<NodeId>, part: Part, c: Ctx)
    requires e in net.edges && net.edges[e].parent == OfJob(j) && AtJob(net, j) <= ig1
    requires StepJob(net, s0, s1, ig, ig1, net.edges[e].bs, j, busy, part, c)
    ensures Step(net, s0, s1.(jobCtx := s1.jobCtx[j := c]), ig, ig1, net.edges[e].bs, busy, part, c)
  {
    var s', bs := s1.(jobCtx := s1.jobCtx[j := c]), net.edges[e].bs;
    forall k ensures InJob(s', k, c) <==> InJob(s1, k, c) || k == j {}
    forall n ensures InNode(s', n, c) <==> InNode(s1, n, c) {}
    forall b ensures InBlk(s', b, c) <==> InBlk(s1, b, c) {}
    forall p | Closed(net, p) && bs in p.nodes ensures Within(s0, s', p) {
      assert Within(s0, s1, p) && SameSide(p, net.edges[e]);
    }
    forall y | y in ig1 - ig ensures y in net.edges && EndsIn(s', net.edges[y], c) {
      assert HalfIn(s1, net.edges[y], j, c);
    }
  }

  lemma BackendStep(net: Net, s: State, ig: set<EdgeId>, e: EdgeId, b: BackendId, busy: set<NodeId>, part: Part, c: Ctx)
    requires e in net.edges && net.edges[e].parent == OfBackend(b) && Ready(net, s, ig, busy, part, c)
    ensures Step(net, s, s.(blkCtx := s.blkCtx[b := c]), ig, ig, net.edges[e].bs, busy, part, c)
  {
    var s' := s.(blkCtx := s.blkCtx[b := c]);
    forall n ensures InNode(s', n, c) <==> InNode(s, n, c) {}
    forall j ensures InJob(s', j, c) <==> InJob(s, j, c) {}
    forall p | Closed(net, p) && net.edges[e].bs in p.nodes ensures Within(s, s', p) { assert SameSide(p, net.edges[e]); }
  }

  // ----- the whole component --------------------------------------------------------------

  /** Every edge joins a node and an owner of one context. */
  ghost predicate Uniform(net: Net, s: State) {
    forall e :: e in net.edges ==> net.edges[e].bs in s.ctx && EndsIn(s, net.edges[e], s.ctx[net.edges[e].bs])
  }

  ghost function SameCtx(s: State, c: Ctx): Part {
    Part(set n | n in s.ctx && s.ctx[n] == c, set j | j in s.jobCtx && s.jobCtx[j] == c, set b | b in s.blkCtx && s.blkCtx[b] == c)
  }

  /** Everything connected to `bs` is in context `c`. */
  ghost predicate ComponentIn(net: Net, s: State, bs: NodeId, c: Ctx) {
    && (forall n :: Joined(net, bs, n) ==> InNode(s, n, c))
    && (forall e :: e in net.edges && Joined(net, bs, net.edges[e].bs) ==> EndsIn(s, net.edges[e], c))
  }

  lemma UniformClosed(net: Net, s: State, c: Ctx)
    requires Uniform(net, s)
    ensures Closed(net, SameCtx(s, c))
  {
  }

  lemma WholePart(net: Net, s: State, bs: NodeId, c: Ctx)
    requires Uniform(net, s) && InNode(s, bs, c)
    ensures ComponentIn(net, s, bs, c)
  {
    UniformClosed(net, s, c);
    assert forall n :: Joined(net, bs, n) ==> n in SameCtx(s, c).nodes;
  }

  /** What a finished move has reached is closed, and so is the whole component of `bs`. */
  lemma MovedWhole(net: Net, s: State, s': State, ig: set<EdgeId>, bs: NodeId, part: Part, c: Ctx)
    requires WellFormed(net) && Uniform(net, s) && bs in s.ctx && part == SameCtx(s, s.ctx[bs]) && s.ctx[bs] != c
    requires Step(net, s, s', {}, ig, bs, {}, part, c) && InNode(s', bs, c)
    ensures Uniform(net, s') && ComponentIn(net, s', bs, c)
  {
    UniformClosed(net, s, s.ctx[bs]);
    var ig' := set e | e in ig && net.edges[e].bs in part.nodes;
    var p := Touched(net, ig', bs);
    MovedClosed(net, s, s', ig, bs, part, c);
    assert Within(s, s', p);
    forall e | e in net.edges ensures net.edges[e].bs in s'.ctx && EndsIn(s', net.edges[e], s'.ctx[net.edges[e].bs]) {
      assert SameSide(p, net.edges[e]) && e in At(net, net.edges[e].bs);
      if e in ig' { assert EndsIn(s', net.edges[e], c); }
    }
    WholePart(net, s', bs, c);
  }

  lemma MovedClosed(net: Net, s: State, s': State, ig: set<EdgeId>, bs: NodeId, part: Part, c: Ctx)
    requires WellFormed(net) && Closed(net, part) && bs in part.nodes
    requires Step(net, s, s', {}, ig, bs, {}, part, c) && InNode(s', bs, c)
    ensures var ig' := set e | e in ig && net.edges[e].bs in part.nodes;
      Closed(net, Touched(net, ig', bs)) && forall n :: n in Touched(net, ig', bs).nodes ==> At(net, n) <= ig'
  {
    var ig' := set e | e in ig && net.edges[e].bs in part.nodes;
    var p := Touched(net, ig', bs);
    forall n | n in p.nodes ensures At(net, n) <= ig' {
      if n != bs {
        var e :| e in ig' && (net.edges[e].bs == n || net.edges[e].parent == OfNode(n));
        assert EndsIn(s', net.edges[e], c) && SameSide(part, net.edges[e]);
      }
      assert n in part.nodes && InNode(s', n, c);
      forall e | e in At(net, n) ensures e in ig' { assert SameSide(part, net.edges[e]); }
    }
    forall j | j in p.jobs ensures AtJob(net, j) <= ig' {
      var e :| e in ig' && net.edges[e].parent == OfJob(j);
      assert EndsIn(s', net.edges[e], c) && SameSide(part, net.edges[e]);
      forall x | x in AtJob(net, j) ensures x in ig' { assert SameSide(part, net.edges[x]); }
    }
    forall e | e in net.edges ensures SameSide(p, net.edges[e]) {
      TouchedSide(net, ig', bs, e);
    }
  }

  // ----- the check ------------------------------------------------------------------------

  /** Every edge at either end of `e` is in `ig`, except at ends that are still being checked. */
  ghost predicate Checked(net: Net, e: Edge, ig: set<EdgeId>, nodes: set<NodeId>, jobs: set<JobId>, movable: set<BackendId>) {
    && (e.bs in nodes || At(net, e.bs) <= ig)
    && match e.parent
       case OfNode(u) => u in nodes || At(net, u) <= ig
       case OfJob(j) => j in jobs || AtJob(net, j) <= ig
       case OfBackend(b) => b in movable
  }

  ghost predicate AllChecked(net: Net, ig: set<EdgeId>, nodes: set<NodeId>, jobs: set<JobId>, movable: set<BackendId>) {
    ig <= net.edges.Keys && forall e :: e in ig ==> Checked(net, net.edges[e], ig, nodes, jobs, movable)
  }

  /** Some backend connected to `bs` cannot be moved. */
  ghost predicate Stuck(net: Net, bs: NodeId, movable: set<BackendId>) {
    exists e :: e in net.edges && net.edges[e].parent.OfBackend? && net.edges[e].parent.blk !in movable && Joined(net, bs, net.edges[e].bs)
  }

  lemma StuckToo(net: Net, a: NodeId, b: NodeId, movable: set<BackendId>)
    requires Joined(net, a, b) && Stuck(net, b, movable)
    ensures Stuck(net, a, movable)
  {
    var e :| e in net.edges && net.edges[e].parent.OfBackend? && net.edges[e].parent.blk !in movable && Joined(net, b, net.edges[e].bs);
    assert Joined(net, a, net.edges[e].bs);
  }

  /** The nodes, jobs and backends at the edges in `ig`, with `bs`. */
  ghost function Touched(net: Net, ig: set<EdgeId>, bs: NodeId): Part
    requires ig <= net.edges.Keys
  {
    Part({bs} + (set e | e in ig :: net.edges[e].bs)
           + (set e | e in ig && net.edges[e].parent.OfNode? :: net.edges[e].parent.node),
         set e | e in ig && net.edges[e].parent.OfJob? :: net.edges[e].parent.job,
         set e | e in ig && net.edges[e].parent.OfBackend? :: net.edges[e].parent.blk)
  }

  /** When the check is through, what it has touched is closed. */
  lemma TouchedClosed(net: Net, ig: set<EdgeId>, bs: NodeId, movable: set<BackendId>)
    requires WellFormed(net) && AllChecked(net, ig, {}, {}, movable) && At(net, bs) <= ig
    ensures Closed(net, Touched(net, ig, bs))
  {
    var p := Touched(net, ig, bs);
    forall n | n in p.nodes ensures At(net, n) <= ig {
      if n != bs {
        var e :| e in ig && (net.edges[e].bs == n || net.edges[e].parent == OfNode(n));
        assert Checked(net, net.edges[e], ig, {}, {}, movable);
      }
    }
    forall j | j in p.jobs ensures AtJob(net, j) <= ig {
      var e :| e in ig && net.edges[e].parent == OfJob(j);
      assert Checked(net, net.edges[e], ig, {}, {}, movable);
    }
    forall e | e in net.edges ensures SameSide(p, net.edges[e]) {
      TouchedSide(net, ig, bs, e);
    }
  }

  lemma TouchedSide(net: Net, ig: set<EdgeId>, bs: NodeId, e: EdgeId)
    requires WellFormed(net) && ig <= net.edges.Keys && e in net.edges
    requires forall n :: n in Touched(net, ig, bs).nodes ==> At(net, n) <= ig
    requires forall j :: j in Touched(net, ig, bs).jobs ==> AtJob(net, j) <= ig
    ensures SameSide(Touched(net, ig, bs), net.edges[e])
  {
    var p, x := Touched(net, ig, bs), net.edges[e];
    assert EdgeOk(net, e) && e in At(net, x.bs);
    match x.parent
    case OfNode(u) => assert e in At(net, u);
    case OfJob(j) => assert e in AtJob(net, j);
    case OfBackend(b) =>
  }

  /** A newly ignored edge may have any of its ends in the lists of open ends. */
  lemma Opened(net: Net, ig: set<EdgeId>, e: EdgeId, nodes: set<NodeId>, nodes': set<NodeId>, jobs: set<JobId>, jobs': set<JobId>,
               movable: set<BackendId>)
    requires AllChecked(net, ig, nodes, jobs, movable) && nodes <= nodes' && jobs <= jobs'
    requires e in net.edges && Checked(net, net.edges[e], ig + {e}, nodes', jobs', movable)
    ensures AllChecked(net, ig + {e}, nodes', jobs', movable)
  {
    forall x | x in ig ensures Checked(net, net.edges[x], ig + {e}, nodes', jobs', movable) {
      assert Checked(net, net.edges[x], ig, nodes, jobs, movable);
    }
  }

  /** An end all of whose edges are ignored is no longer open. */
  lemma Shut(net: Net, ig: set<EdgeId>, nodes: set<NodeId>, nodes': set<NodeId>, jobs: set<JobId>, jobs': set<JobId>,
             movable: set<BackendId>)
    requires AllChecked(net, ig, nodes, jobs, movable)
    requires forall n :: n in nodes - nodes' ==> At(net, n) <= ig
    requires forall j :: j in jobs - jobs' ==> AtJob(net, j) <= ig
    ensures AllChecked(net, ig, nodes', jobs', movable)
  {
    forall x | x in ig ensures Checked(net, net.edges[x], ig, nodes', jobs', movable) {
      assert Checked(net, net.edges[x], ig, nodes, jobs, movable);
    }
  }

  lemma NotStuck(net: Net, ig: set<EdgeId>, bs: NodeId, movable: set<BackendId>)
    requires WellFormed(net) && AllChecked(net, ig, {}, {}, movable) && At(net, bs) <= ig
    ensures !Stuck(net, bs, movable)
  {
    TouchedClosed(net, ig, bs, movable);
    forall e | e in net.edges && net.edges[e].parent.OfBackend? && Joined(net, bs, net.edges[e].bs)
      ensures net.edges[e].parent.blk in movable
    {
      var p := Touched(net, ig, bs);
      assert SameSide(p, net.edges[e]);
      var e' :| e' in ig && net.edges[e'].parent == net.edges[e].parent;
      assert Checked(net, net.edges[e'], ig, {}, {}, movable);
    }
  }

  // ----- the move -------------------------------------------------------------------------

  class Mover {
    const net: Net
    /** Backends whose user tolerates a change (blk_root_can_set_aio_ctx). */
    const movable: set<BackendId>
    var s: State

    /** The first two loops of bdrv_set_aio_context_ignore: take the edges not yet ignored. */
    method Collect(list: seq<EdgeId>, ignore: set<EdgeId>) returns (todo: seq<EdgeId>, ignore': set<EdgeId>)
      ensures ignore' == ignore + (set e | e in list)
      ensures forall e :: e in todo <==> e in list && e !in ignore
    {
      todo, ignore' := [], ignore;
      for i := 0 to |list|
        invariant ignore' == ignore + (set e | e in list[..i])
        invariant forall e :: e in todo <==> e in list[..i] && e !in ignore
      {
        assert list[..i + 1] == list[..i] + [list[i]];
        if list[i] !in ignore' {
          ignore' := ignore' + {list[i]};
          todo := [list[i]] + todo;
        }
      }
      assert list[..|list|] == list;
    }

    /** bdrv_set_aio_context_ignore (block.c:7328-7406). */
    method SetAioContextIgnore(bs: NodeId, c: Ctx, ignore: set<EdgeId>, ghost busy: set<NodeId>, ghost part: Part)
      returns (ignore': set<EdgeId>)
      requires WellFormed(net) && NodeListsOk(net, bs) && Closed(net, part) && bs in part.nodes && bs !in busy
      requires Ready(net, s, ignore, busy, part, c)
      modifies this
      ensures Step(net, old(s), s, ignore, ignore', bs, busy, part, c) && InNode(s, bs, c)
      decreases net.edges.Keys - ignore, 5
    {
      ghost var s0 := s;
      if bs in s.ctx && s.ctx[bs] == c {
        StepSelf(net, s, ignore, bs, busy, part, c);
        return ignore;
      }
      var kids, ups;
      kids, ignore' := Collect(net.children[bs], ignore);
      ups, ignore' := Collect(net.parents[bs], ignore');
      ghost var ign := ignore';
      Entered(net, s, ignore, ign, bs, busy, part, c);
      forall e | e in kids + ups ensures e in net.edges && e !in ignore {}
      forall e | e in kids ensures net.edges[e].bs !in busy + {bs} { NotBusy(net, s, ignore, bs, busy, part, c, e); }
      forall e | e in ups && net.edges[e].parent.OfNode? ensures net.edges[e].parent.node !in busy + {bs} {
        NotBusy(net, s, ignore, bs, busy, part, c, e);
      }
      ignore' := MoveChildren(bs, kids, c, ignore', busy, part, ignore);
      ghost var s1, ig1 := s, ignore';
      ignore' := MoveParents(bs, ups, c, ignore', busy, part, ignore);
      StepTrans(net, s0, s1, s, ign, ig1, ignore', bs, bs, busy + {bs}, part, c);
      forall e | e in ign - ignore ensures FarEndIn(s, net.edges[e], bs, c) {
        assert e in kids || e in ups;
      }
      Leave(net, s0, s, ignore, ign, ignore', bs, busy, part, c);
      s := s.(ctx := s.ctx[bs := c]);
    }

    /** The loop over the collected children. */
    method MoveChildren(bs: NodeId, kids: seq<EdgeId>, c: Ctx, ignore: set<EdgeId>, ghost busy: set<NodeId>, ghost part: Part,
                        ghost before: set<EdgeId>) returns (ignore': set<EdgeId>)
      requires WellFormed(net) && Closed(net, part) && bs in part.nodes && Ready(net, s, ignore, busy + {bs}, part, c)
      requires before <= ignore && forall e :: e in kids ==> e in ignore - before
      requires forall e :: e in kids ==> e in net.edges && net.edges[e].parent == OfNode(bs) && net.edges[e].bs !in busy + {bs}
      modifies this
      ensures Step(net, old(s), s, ignore, ignore', bs, busy + {bs}, part, c)
      ensures forall e :: e in kids ==> InNode(s, net.edges[e].bs, c)
      decreases net.edges.Keys - before, 1
    {
      ghost var s0 := s;
      ignore' := ignore;
      StepSelf(net, s, ignore, bs, busy + {bs}, part, c);
      for i := 0 to |kids|
        invariant Step(net, s0, s, ignore, ignore', bs, busy + {bs}, part, c)
        invariant forall j :: 0 <= j < i ==> kids[j] in net.edges && InNode(s, net.edges[kids[j]].bs, c)
      {
        var e := kids[i];
        assert e in kids && EdgeOk(net, e) && SameSide(part, net.edges[e]);
        EdgeJoins(net, e);
        ghost var s1, ig1 := s, ignore';
        assert e in net.edges.Keys - before && e !in net.edges.Keys - ignore';
        ignore' := SetAioContextIgnore(net.edges[e].bs, c, ignore', busy + {bs}, part);
        StepTrans(net, s0, s1, s, ignore, ig1, ignore', bs, net.edges[e].bs, busy + {bs}, part, c);
      }
    }

    /** The loop over the collected parents. */
    method MoveParents(bs: NodeId, ups: seq<EdgeId>, c: Ctx, ignore: set<EdgeId>, ghost busy: set<NodeId>, ghost part: Part,
                       ghost before: set<EdgeId>) returns (ignore': set<EdgeId>)
      requires WellFormed(net) && Closed(net, part) && bs in part.nodes && Ready(net, s, ignore, busy + {bs}, part, c)
      requires before <= ignore && forall e :: e in ups ==> e in ignore - before
      requires forall e :: e in ups ==> e in net.edges && net.edges[e].bs == bs
      requires forall e :: e in ups && net.edges[e].parent.OfNode? ==> net.edges[e].parent.node !in busy + {bs}
      modifies this
      ensures Step(net, old(s), s, ignore, ignore', bs, busy + {bs}, part, c)
      ensures forall e :: e in ups ==> ParentIn(s, net.edges[e], c)
      decreases net.edges.Keys - before, 1
    {
      ghost var s0 := s;
      ignore' := ignore;
      StepSelf(net, s, ignore, bs, busy + {bs}, part, c);
      for i := 0 to |ups|
        invariant Step(net, s0, s, ignore, ignore', bs, busy + {bs}, part, c)
        invariant forall j :: 0 <= j < i ==> ups[j] in net.edges && ParentIn(s, net.edges[ups[j]], c)
      {
        var e := ups[i];
        assert e in ups;
        ghost var s1, ig1 := s, ignore';
        assert e in net.edges.Keys - before && e !in net.edges.Keys - ignore';
        ignore' := SetParent(e, c, ignore', busy + {bs}, part);
        StepTrans(net, s0, s1, s, ignore, ig1, ignore', bs, bs, busy + {bs}, part, c);
      }
    }

    /** The .set_aio_ctx callback of one edge, by the kind of its owner. */
    method SetParent(e: EdgeId, c: Ctx, ignore: set<EdgeId>, ghost busy: set<NodeId>, ghost part: Part)
      returns (ignore': set<EdgeId>)
      requires WellFormed(net) && Closed(net, part) && Ready(net, s, ignore, busy, part, c)
      requires e in net.edges && net.edges[e].bs in part.nodes
      requires net.edges[e].parent.OfNode? ==> net.edges[e].parent.node !in busy
      modifies this
      ensures Step(net, old(s), s, ignore, ignore', net.edges[e].bs, busy, part, c) && ParentIn(s, net.edges[e], c)
      decreases net.edges.Keys - ignore, 6
    {
      assert EdgeOk(net, e) && SameSide(part, net.edges[e]);
      ghost var s0, bs := s, net.edges[e].bs;
      StepSelf(net, s, ignore, bs, busy, part, c);
      match net.edges[e].parent
      case OfNode(u) =>
        EdgeJoins(net, e);
        ignore' := SetAioContextIgnore(u, c, ignore, busy, part);
        StepTrans(net, s0, s0, s, ignore, ignore, ignore', bs, u, busy, part, c);
      case OfJob(j) =>
        ignore' := SetJob(e, j, c, ignore, busy, part);
      case OfBackend(b) => // blk_root_set_aio_ctx
        ignore' := ignore;
        s := s.(blkCtx := s.blkCtx[b := c]);
        BackendStep(net, s0, ignore, e, b, busy, part, c);
    }

    /** child_job_set_aio_ctx (blockjob.c:151-167): first the other nodes of the job, then the job. */
    method SetJob(e: EdgeId, j: JobId, c: Ctx, ignore: set<EdgeId>, ghost busy: set<NodeId>, ghost part: Part)
      returns (ignore': set<EdgeId>)
      requires WellFormed(net) && Closed(net, part) && Ready(net, s, ignore, busy, part, c)
      requires e in net.edges && net.edges[e].bs in part.nodes && net.edges[e].parent == OfJob(j)
      modifies this
      ensures Step(net, old(s), s, ignore, ignore', net.edges[e].bs, busy, part, c) && InJob(s, j, c)
      decreases net.edges.Keys - ignore, 2
    {
      assert EdgeOk(net, e);
      ghost var s0, bs := s, net.edges[e].bs;
      ignore' := ignore;
      var list := net.jobNodes[j];
      StepJobSelf(net, s, ignore, bs, j, busy, part, c);
      for i := 0 to |list|
        invariant StepJob(net, s0, s, ignore, ignore', bs, j, busy, part, c)
        invariant forall k :: 0 <= k < i ==> list[k] in ignore'
      {
        var x := list[i];
        assert x in list;
        if x !in ignore' {
          JobStep(net, s, ignore', e, x, j, busy, part, c);
          ghost var s1, ig1 := s, ignore';
          ignore' := ignore' + {x};
          ignore' := SetAioContextIgnore(net.edges[x].bs, c, ignore', busy, part);
          JobStepDone(net, s0, s1, s, ignore, ig1, ignore', e, x, j, busy, part, c);
        }
      }
      forall x | x in AtJob(net, j) ensures x in ignore' { assert x in list; }
      StepJobDone(net, s0, s, ignore, ignore', e, j, busy, part, c);
      s := s.(jobCtx := s.jobCtx[j := c]);
    }

    /** bdrv_can_set_aio_context (block.c:7447-7470); `nodes` and `jobs` are being checked further out. */
    method CanSetAioContext(bs: NodeId, c: Ctx, ignore: set<EdgeId>, ghost nodes: set<NodeId>, ghost jobs: set<JobId>, ghost part: Part)
      returns (ok: bool, ignore': set<EdgeId>)
      requires WellFormed(net) && NodeListsOk(net, bs) && Closed(net, part) && bs in part.nodes && bs in nodes
      requires forall n :: n in part.nodes ==> !InNode(s, n, c)
      requires AllChecked(net, ignore, nodes, jobs, movable)
      ensures ignore <= ignore'
      ensures ok ==> AllChecked(net, ignore', nodes, jobs, movable) && At(net, bs) <= ignore'
      ensures !ok ==> Stuck(net, bs, movable)
      decreases net.edges.Keys - ignore, 5
    {
      if bs in s.ctx && s.ctx[bs] == c {
        assert InNode(s, bs, c);
        return true, ignore;
      }
      ok, ignore' := true, ignore;
      var ups, kids := net.parents[bs], net.children[bs];
      for i := 0 to |ups|
        invariant ignore <= ignore' && AllChecked(net, ignore', nodes, jobs, movable)
        invariant forall k :: 0 <= k < i ==> ups[k] in ignore'
      {
        assert ups[i] in ups;
        ok, ignore' := ParentCanSet(ups[i], c, ignore', nodes, jobs, part);
        if !ok { return; }
      }
      for i := 0 to |kids|
        invariant ok && ignore <= ignore' && AllChecked(net, ignore', nodes, jobs, movable)
        invariant forall e :: e in ups ==> e in ignore'
        invariant forall k :: 0 <= k < i ==> kids[k] in ignore'
      {
        assert kids[i] in kids;
        EdgeJoins(net, kids[i]);
        ok, ignore' := ChildCanSet(kids[i], c, ignore', nodes, jobs, part);
        if !ok { StuckToo(net, bs, net.edges[kids[i]].bs, movable); return; }
      }
      forall e | e in At(net, bs) ensures e in ignore' { assert e in ups || e in kids; }
    }

    /** bdrv_child_can_set_aio_context (block.c:7434-7443). */
    method ChildCanSet(e: EdgeId, c: Ctx, ignore: set<EdgeId>, ghost nodes: set<NodeId>, ghost jobs: set<JobId>, ghost part: Part)
      returns (ok: bool, ignore': set<EdgeId>)
      requires WellFormed(net) && Closed(net, part) && e in net.edges && net.edges[e].bs in part.nodes
      requires match net.edges[e].parent case OfNode(u) => u in nodes case OfJob(j) => j in jobs case OfBackend(_) => false
      requires forall n :: n in part.nodes ==> !InNode(s, n, c)
      requires AllChecked(net, ignore, nodes, jobs, movable)
      ensures ignore <= ignore'
      ensures ok ==> AllChecked(net, ignore', nodes, jobs, movable) && e in ignore'
      ensures !ok ==> Stuck(net, net.edges[e].bs, movable)
      decreases net.edges.Keys - ignore, 1
    {
      if e in ignore { return true, ignore; }
      var bs := net.edges[e].bs;
      assert EdgeOk(net, e);
      Opened(net, ignore, e, nodes, nodes + {bs}, jobs, jobs, movable);
      ok, ignore' := CanSetAioContext(bs, c, ignore + {e}, nodes + {bs}, jobs, part);
      if ok { Shut(net, ignore', nodes + {bs}, nodes, jobs, jobs, movable); }
    }

    /** bdrv_parent_can_set_aio_context with the callbacks it reaches (block.c:7408-7432). */
    method ParentCanSet(e: EdgeId, c: Ctx, ignore: set<EdgeId>, ghost nodes: set<NodeId>, ghost jobs: set<JobId>, ghost part: Part)
      returns (ok: bool, ignore': set<EdgeId>)
      requires WellFormed(net) && Closed(net, part) && e in net.edges && net.edges[e].bs in part.nodes && net.edges[e].bs in nodes
      requires forall n :: n in part.nodes ==> !InNode(s, n, c)
      requires AllChecked(net, ignore, nodes, jobs, movable)
      ensures ignore <= ignore'
      ensures ok ==> AllChecked(net, ignore', nodes, jobs, movable) && e in ignore'
      ensures !ok ==> Stuck(net, net.edges[e].bs, movable)
      decreases net.edges.Keys - ignore, 1
    {
      if e in ignore { return true, ignore; }
      assert EdgeOk(net, e) && SameSide(part, net.edges[e]);
      match net.edges[e].parent
      case OfNode(u) =>
        EdgeJoins(net, e);
        Opened(net, ignore, e, nodes, nodes + {u}, jobs, jobs, movable);
        ok, ignore' := CanSetAioContext(u, c, ignore + {e}, nodes + {u}, jobs, part);
        if ok {
          Shut(net, ignore', nodes + {u}, nodes, jobs, jobs, movable);
        } else {
          StuckToo(net, net.edges[e].bs, u, movable);
        }
      case OfJob(j) =>
        Opened(net, ignore, e, nodes, nodes, jobs, jobs + {j}, movable);
        ok, ignore' := JobCanSet(e, j, c, ignore + {e}, nodes, jobs + {j}, part);
        if ok { Shut(net, ignore', nodes, nodes, jobs + {j}, jobs, movable); }
      case OfBackend(b) => // blk_root_can_set_aio_ctx
        ok, ignore' := b in movable, ignore + {e};
        if ok {
          Opened(net, ignore, e, nodes, nodes, jobs, jobs, movable);
        } else {
          assert Joined(net, net.edges[e].bs, net.edges[e].bs);
        }
    }

    /** child_job_can_set_aio_ctx (blockjob.c:136-149). */
    method JobCanSet(e: EdgeId, j: JobId, c: Ctx, ignore: set<EdgeId>, ghost nodes: set<NodeId>, ghost jobs: set<JobId>, ghost part: Part)
      returns (ok: bool, ignore': set<EdgeId>)
      requires WellFormed(net) && Closed(net, part) && e in net.edges && net.edges[e].bs in part.nodes
      requires net.edges[e].parent == OfJob(j) && j in jobs
      requires forall n :: n in part.nodes ==> !InNode(s, n, c)
      requires AllChecked(net, ignore, nodes, jobs, movable)
      ensures ignore <= ignore'
      ensures ok ==> AllChecked(net, ignore', nodes, jobs, movable) && AtJob(net, j) <= ignore'
      ensures !ok ==> Stuck(net, net.edges[e].bs, movable)
      decreases net.edges.Keys - ignore, 4
    {
      assert EdgeOk(net, e);
      ok, ignore' := true, ignore;
      var list := net.jobNodes[j];
      for i := 0 to |list|
        invariant ok && ignore <= ignore' && AllChecked(net, ignore', nodes, jobs, movable)
        invariant forall k :: 0 <= k < i ==> list[k] in ignore'
      {
        var x := list[i];
        assert x in list && SameSide(part, net.edges[x]) && SameSide(part, net.edges[e]);
        JobJoins(net, e, x);
        ok, ignore' := ChildCanSet(x, c, ignore', nodes, jobs, part);
        if !ok { StuckToo(net, net.edges[e].bs, net.edges[x].bs, movable); return; }
      }
      forall x | x in AtJob(net, j) ensures x in ignore' { assert x in list; }
    }

    /** bdrv_try_set_aio_context (block.c:7472-7500), with an empty ignore list. */
    method TrySetAioContext(bs: NodeId, c: Ctx) returns (ok: bool)
      requires WellFormed(net) && NodeListsOk(net, bs) && bs in s.ctx && Uniform(net, s)
      modifies this
      ensures ok <==> old(s).ctx[bs] == c || !Stuck(net, bs, movable)
      ensures !ok ==> s == old(s)
      ensures ok ==> ComponentIn(net, s, bs, c)
      ensures OnlyConnected(net, old(s), s, bs)
      ensures Uniform(net, s)
    {
      ghost var s0, part := s, SameCtx(s, s.ctx[bs]);
      UniformClosed(net, s, s.ctx[bs]);
      forall p | Closed(net, p) && bs in p.nodes ensures Within(s, s, p) {}
      if s.ctx[bs] == c {
        WholePart(net, s, bs, c);
        // both calls return at once
        return true;
      }
      var ignore;
      ok, ignore := CanSetAioContext(bs, c, {}, {bs}, {}, part);
      if !ok { return; }
      Shut(net, ignore, {bs}, {}, {}, {}, movable);
      NotStuck(net, ignore, bs, movable);
      ignore := SetAioContextIgnore(bs, c, {}, {}, part);
      MovedWhole(net, s0, s, ignore, bs, part, c);
    }
  }
}
