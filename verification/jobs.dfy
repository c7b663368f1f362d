// Jobs: one transaction group, its states and its pause accounting (job.c:38-1101,
// blockjob.c:102-134, 351-357, 501-557).
module Jobs {

  import opened Wrappers

  type JobId = nat

  datatype Status =
    Undefined | Created | Running | Paused | Ready | Standby | Waiting | Pending | Aborting | Concluded | Null

  datatype Verb = VerbCancel | VerbPause | VerbResume | VerbSetSpeed | VerbComplete | VerbFinalize | VerbDismiss

  /** The job state transition table. */
  predicate JobStt(s0: Status, s1: Status) {
    match s0
    case Undefined => s1 == Created
    case Created => s1 == Running || s1 == Aborting || s1 == Null
    case Running => s1 == Paused || s1 == Ready || s1 == Waiting || s1 == Aborting
    case Paused => s1 == Running
    case Ready => s1 == Standby || s1 == Waiting || s1 == Aborting
    case Standby => s1 == Ready
    case Waiting => s1 == Pending || s1 == Aborting
    case Pending => s1 == Aborting || s1 == Concluded
    case Aborting => s1 == Aborting || s1 == Concluded
    case Concluded => s1 == Null
    case Null => false
  }

  /** How far a job has come; pausing and resuming stay on the same level. */
  function Stage(s: Status): nat {
    match s
    case Undefined => 0
    case Created => 1
    case Running => 2
    case Paused => 2
    case Ready => 3
    case Standby => 3
    case Waiting => 4
    case Pending => 5
    case Aborting => 6
    case Concluded => 7
    case Null => 8
  }

  /** A job only moves forward; it is concluded only after it was pending or aborting, and ends in the null state. */
  lemma SttMovesForward(s0: Status, s1: Status)
    requires JobStt(s0, s1)
    ensures Stage(s0) <= Stage(s1)
    ensures Stage(s0) == Stage(s1) ==> s0.Aborting? || (s0.Paused? != s1.Paused?) || (s0.Standby? != s1.Standby?)
    ensures s1.Concluded? ==> s0.Pending? || s0.Aborting?
    ensures s1.Null? ==> s0.Created? || s0.Concluded?
    ensures IsCompleted(s0) ==> IsCompleted(s1)
  {
  }

  predicate VerbAllowed(v: Verb, s: Status) {
    match v
    case VerbCancel => s.Created? || s.Running? || s.Paused? || s.Ready? || s.Standby? || s.Waiting? || s.Pending?
    case VerbPause => s.Created? || s.Running? || s.Paused? || s.Ready? || s.Standby?
    case VerbResume => s.Created? || s.Running? || s.Paused? || s.Ready? || s.Standby?
    case VerbSetSpeed => s.Created? || s.Running? || s.Paused? || s.Ready? || s.Standby?
    case VerbComplete => s.Ready? || s.Standby?
    case VerbFinalize => s.Pending?
    case VerbDismiss => s.Concluded?
  }

  /** Which transitions exist: one stage on or from running to waiting, into a pause and back, and the ways to abort and to end. */
  lemma SttExactly(s0: Status, s1: Status)
    ensures JobStt(s0, s1) <==>
      || (s1.Created? && s0.Undefined?) || (s1.Running? && (s0.Created? || s0.Paused?)) || (s1.Ready? && (s0.Running? || s0.Standby?))
      || (s1.Paused? && s0.Running?) || (s1.Standby? && s0.Ready?)
      || (s1.Waiting? && (s0.Running? || s0.Ready?)) || (s1.Pending? && s0.Waiting?)
      || (s1.Aborting? && 1 <= Stage(s0) <= 6 && !s0.Paused? && !s0.Standby?)
      || (s1.Concluded? && (s0.Pending? || s0.Aborting?)) || (s1.Null? && (s0.Created? || s0.Concluded?))
  {
  }

  /** A running job can be paused, resumed and throttled until it has completed, and cancelled until its fate is sealed. */
  lemma VerbsExactly(v: Verb, s: Status)
    ensures VerbAllowed(VerbCancel, s) <==> 1 <= Stage(s) <= 5
    ensures v.VerbPause? || v.VerbResume? || v.VerbSetSpeed? ==> (VerbAllowed(v, s) <==> 1 <= Stage(s) <= 3)
    ensures VerbAllowed(VerbComplete, s) <==> IsReady(s)
    ensures VerbAllowed(VerbFinalize, s) <==> JobStt(s, Concluded) && !s.Aborting?
    ensures VerbAllowed(VerbDismiss, s) <==> JobStt(s, Null) && !s.Created?
    ensures IsReady(s) <==> Stage(s) == 3
    ensures IsCompleted(s) <==> Stage(s) >= 4
  {
  }

  predicate IsReady(s: Status) {
    s.Ready? || s.Standby?
  }

  predicate IsCompleted(s: Status) {
    s.Waiting? || s.Pending? || s.Aborting? || s.Concluded? || s.Null?
  }

  datatype IoStatus = IoOk | IoFailed | IoNoSpace

  /** The pause count of a block job and what goes into it; `drains` counts drained sections open on its nodes. */
  datatype Pausing = Pausing(count: int, user: bool, io: IoStatus, drains: nat)

  datatype Flags = Flags(autoFinalize: bool, autoDismiss: bool)

  datatype Job = Job(
    status: Status, started: bool, deferred: bool, paused: bool, p: Pausing,
    cancelled: bool, force: bool, ret: int, inTxn: bool, refcnt: int, flags: Flags)

  const ECANCELED := 125

  /** How often each completion callback of a driver has been called. */
  datatype Calls = Calls(commit: nat, abort: nat, clean: nat)

  const NONE_CALLED := Calls(0, 0, 0)
  const COMMITTED := Calls(1, 0, 1)
  const ABORTED := Calls(0, 1, 1)

  /** The jobs that exist, the list of those still in the transaction, newest first, and its flag. */
  datatype Group = Group(jobs: map<JobId, Job>, txn: seq<JobId>, aborting: bool, calls: map<JobId, Calls>)

  // ----- invariants -----------------------------------------------------------------------

  /** The count is one for a job not yet started, one for a user's pause, and one for each drained section. */
  ghost predicate PauseOk(p: Pausing, started: bool) {
    && p.count == (if started then 0 else 1) + (if p.user then 1 else 0) + p.drains
    && (!p.io.IoOk? ==> p.user)
  }

  ghost predicate StatusOk(b: Job) {
    match b.status
    case Undefined => false
    case Created => !b.started && !b.deferred && b.paused && b.ret == 0 && b.inTxn
    case Running => b.started && !b.paused && b.inTxn && (b.ret != 0 ==> b.deferred)
    case Ready => b.started && !b.paused && b.inTxn && (b.ret != 0 ==> b.deferred)
    case Paused => b.started && b.paused && b.inTxn && !b.deferred && b.ret == 0
    case Standby => b.started && b.paused && b.inTxn && !b.deferred && b.ret == 0
    case Waiting => b.started && b.deferred && b.ret == 0 && b.inTxn
    case Pending => b.started && b.deferred && b.ret == 0 && b.inTxn
    case Aborting => b.ret != 0 && b.inTxn && (b.started ==> b.deferred)
    case Concluded => b.started && b.deferred && !b.inTxn
    case Null => b.deferred && !b.inTxn
  }

  ghost predicate JobOk(b: Job) {
    PauseOk(b.p, b.started) && StatusOk(b) && (b.force ==> b.cancelled)
  }

  /** One reference until the job is dismissed, and the ones in `held`. */
  ghost predicate RefOk(b: Job, held: nat) {
    b.refcnt == (if b.status.Null? then 0 else 1) + held && b.refcnt > 0
  }

  ghost predicate TxnOk(g: Group) {
    && NoDup(g.txn)
    && (forall j :: j in g.txn ==> j in g.jobs && g.jobs[j].inTxn)
    && (forall j :: j in g.jobs && g.jobs[j].inTxn ==> j in g.txn)
    && (forall j :: j in g.txn ==> j in g.calls && g.calls[j] == NONE_CALLED)
  }

  /** What holds at every point, with the references in `held` on top of those of the jobs themselves. */
  ghost predicate Base(g: Group, held: multiset<JobId>) {
    && TxnOk(g)
    && (forall j {:trigger JobOk(g.jobs[j])} {:trigger RefOk(g.jobs[j], held[j])} ::
          j in g.jobs ==> JobOk(g.jobs[j]) && RefOk(g.jobs[j], held[j]))
    && (forall j :: j in held ==> j in g.jobs)
  }

  /** Between operations: nobody in the transaction is past the point of failure, and all wait for finalization together. */
  ghost predicate Quiet(g: Group) {
    && (g.aborting ==> g.txn == [])
    && (forall j :: j in g.txn && j in g.jobs ==> !g.jobs[j].status.Aborting?)
    && (forall j :: j in g.txn && j in g.jobs && IsCompleted(g.jobs[j].status) ==> !g.jobs[j].force)
    && (forall j :: j in g.txn && j in g.jobs && g.jobs[j].status.Created? ==> !g.jobs[j].force)
    && (forall j, k :: j in g.txn && k in g.txn && j in g.jobs && k in g.jobs && g.jobs[j].status.Pending? ==> g.jobs[k].status.Pending?)
  }

  /** While the transaction is torn down for `init`: everybody else has been force-cancelled. */
  ghost predicate Doomed(b: Job, isInit: bool) {
    b.force || (isInit && (b.status.Aborting? || b.status.Pending?))
  }

  ghost predicate TearingDown(g: Group, init: JobId) {
    g.aborting && forall j :: j in g.txn && j in g.jobs ==> Doomed(g.jobs[j], j == init)
  }

  function Set(g: Group, j: JobId, b: Job): Group {
    g.(jobs := g.jobs[j := b])
  }

  /** The change of one job that the group as a whole does not notice. */
  ghost predicate Discreet(b: Job, b': Job) {
    b'.inTxn == b.inTxn && b'.refcnt == b.refcnt && b'.status.Null? == b.status.Null?
  }

  lemma SetTxn(g: Group, j: JobId, b': Job)
    requires TxnOk(g) && j in g.jobs && b'.inTxn == g.jobs[j].inTxn
    ensures TxnOk(Set(g, j, b'))
  {
  }

  lemma SetBase(g: Group, held: multiset<JobId>, j: JobId, b': Job)
    requires Base(g, held) && j in g.jobs && JobOk(b') && Discreet(g.jobs[j], b')
    ensures Base(Set(g, j, b'), held)
  {
    SetTxn(g, j, b');
    forall k | k in g.jobs ensures JobOk(g.jobs[k]) && RefOk(g.jobs[k], held[k]) {}
  }

  // ----- what can happen to a job on its own ----------------------------------------------

  /** A step of a job's coroutine, of its I/O, or of a drained section on one of its nodes. */
  datatype Event =
    | PausePoint(job: JobId) // reaches a pause point
    | Wake(job: JobId) // is entered again while paused
    | BecomeReady(job: JobId)
    | Return(job: JobId, ret: int) // the driver's run function returns
    | IoError(job: JobId, stop: bool, noSpace: bool)
    | DrainBegin(job: JobId)
    | DrainEnd(job: JobId)
    | Exit(job: JobId) // the bottom half scheduled by a returned job

  predicate Enabled(b: Job, e: Event) {
    match e
    case PausePoint(_) => b.started && !b.deferred && (b.status.Running? || b.status.Ready?)
    case Wake(_) => b.status.Paused? || b.status.Standby?
    case BecomeReady(_) => b.started && !b.deferred && b.status.Running?
    case Return(_, _) => b.started && !b.deferred && (b.status.Running? || b.status.Ready?)
    case IoError(_, _, _) => b.started && !b.deferred && (b.status.Running? || b.status.Ready?)
    case DrainBegin(_) => true
    case DrainEnd(_) => b.p.drains > 0
    case Exit(_) => b.deferred && (b.status.Running? || b.status.Ready?)
  }

  /** What a job can do: while it runs, pause, fail, become ready or return; once returned, exit; and its nodes can be drained at any time. */
  lemma CanHappen(b: Job, j: JobId, ret: int, stop: bool, noSpace: bool)
    requires JobOk(b)
    ensures var runs := b.status.Running? || b.status.Ready?;
      && (Enabled(b, PausePoint(j)) <==> runs && !b.deferred) && (Enabled(b, Return(j, ret)) <==> runs && !b.deferred)
      && (Enabled(b, IoError(j, stop, noSpace)) <==> runs && !b.deferred) && (Enabled(b, BecomeReady(j)) <==> b.status.Running? && !b.deferred)
      && (Enabled(b, Exit(j)) <==> runs && b.deferred) && (Enabled(b, Wake(j)) <==> b.status.Paused? || b.status.Standby?)
      && Enabled(b, DrainBegin(j)) && (Enabled(b, DrainEnd(j)) <==> b.p.drains > 0)
  {
  }

  /** job_update_rc: a failed or force-cancelled job turns to aborting (job.c:662-673). */
  function Rc(b: Job): Job {
    var ret := if b.ret == 0 && b.force then -ECANCELED else b.ret;
    b.(ret := ret, status := if ret != 0 then Aborting else b.status)
  }

  /** A job stopped by an I/O error is paused on behalf of the user. */
  function Stopped(p: Pausing, noSpace: bool): Pausing {
    Pausing(if p.user then p.count else p.count + 1, true,
            if !p.io.IoOk? then p.io else if noSpace then IoNoSpace else IoFailed, p.drains)
  }

  /** The user's pause, if any, is taken back together with the error that caused it. */
  function Released(p: Pausing): Pausing {
    if p.user then Pausing(p.count - 1, false, IoOk, p.drains) else p
  }

  predicate Pauses(b: Job) {
    b.p.count > 0 && !b.force
  }

  function Next(b: Job, e: Event): Job
    requires Enabled(b, e)
  {
    match e
    case PausePoint(_) =>
      b.(status := if !Pauses(b) then b.status else if b.status.Ready? then Standby else Paused, paused := b.paused || Pauses(b))
    case Wake(_) => b.(status := if b.status.Standby? then Ready else Running, paused := false)
    case BecomeReady(_) => b.(status := Ready)
    case Return(_, ret) => b.(ret := ret, deferred := true)
    case IoError(_, stop, noSpace) => b.(p := if stop then Stopped(b.p, noSpace) else b.p)
    case DrainBegin(_) => b.(p := b.p.(count := b.p.count + 1, drains := b.p.drains + 1))
    case DrainEnd(_) => b.(p := b.p.(count := b.p.count - 1, drains := b.p.drains - 1))
    case Exit(_) => Rc(b)
  }

  /** The job returned an error or was cancelled by force. */
  predicate Failing(b: Job) {
    b.ret != 0 || b.force
  }

  /** Every event keeps the accounting of its job, and only an exit completes it. */
  lemma NextOk(b: Job, e: Event)
    requires JobOk(b) && Enabled(b, e) && (e.Exit? ==> b.force)
    ensures JobOk(Next(b, e)) && Discreet(b, Next(b, e))
    ensures Next(b, e).force == b.force && Next(b, e).started == b.started
    ensures e.Exit? ==> Next(b, e).status == Aborting
    ensures !e.Exit? ==> IsCompleted(Next(b, e).status) == IsCompleted(b.status) && (IsCompleted(b.status) ==> Next(b, e).status == b.status)
    ensures !e.Exit? && !e.Return? ==> Next(b, e).ret == b.ret
    ensures Failing(b) ==> Failing(Next(b, e))
  {
  }

  /** What job_cancel_async does when the driver asks for `force` (job.c:733-765). */
  function Cancelled(b: Job, force: bool): Job {
    b.(p := Released(b.p), cancelled := b.cancelled || force || !b.deferred, force := b.force || force)
  }

  lemma CancelledOk(b: Job, force: bool)
    requires JobOk(b)
    ensures JobOk(Cancelled(b, force)) && Discreet(b, Cancelled(b, force)) && Cancelled(b, force).status == b.status
    ensures Cancelled(b, force).force == (b.force || force) && Cancelled(b, force).ret == b.ret
  {
  }

  /**
   * Cancelling takes a pause by the user back together with the error behind it, so that only
   * drained sections and a start that is still to come hold the job; it marks the job unless it
   * has returned and is not forced, and changes nothing else.
   */
  lemma CancelMeans(b: Job, force: bool)
    requires JobOk(b)
    ensures var b' := Cancelled(b, force);
      && !b'.p.user && b'.p.io.IoOk? && b'.p.drains == b.p.drains && b'.p.count == b.p.drains + (if b.started then 0 else 1)
      && (b'.force <==> b.force || force) && (b'.cancelled <==> b.cancelled || force || !b.deferred)
      && b == b'.(p := b.p, force := b.force, cancelled := b.cancelled)
  {
  }

  /** Resuming takes exactly the user's pause back, and a stopping error adds it unless it is there; the first error stays. */
  lemma UserPauseMeans(b: Job, noSpace: bool)
    requires JobOk(b)
    ensures var p, q := Released(b.p), Stopped(b.p, noSpace);
      && !p.user && p.io.IoOk? && p.drains == b.p.drains && p.count == b.p.count - (if b.p.user then 1 else 0)
      && q.user && q.drains == b.p.drains && q.count == b.p.count + (if b.p.user then 0 else 1)
      && !q.io.IoOk? && (!b.p.io.IoOk? ==> q.io == b.p.io) && (b.p.io.IoOk? ==> (q.io.IoNoSpace? <==> noSpace))
  {
  }

  /** A pause point pauses a job exactly if something holds it and it is not being cancelled by force; waking it up undoes that. */
  lemma PauseMeans(b: Job, j: JobId)
    requires JobOk(b) && Enabled(b, PausePoint(j))
    ensures var b' := Next(b, PausePoint(j));
      if b.p.count > 0 && !b.force then
        && b'.paused && b'.status == (if b.status.Ready? then Standby else Paused) && b' == b.(paused := true, status := b'.status)
        && Enabled(b', Wake(j)) && Next(b', Wake(j)) == b
      else b' == b
  {
  }

  /** The other events: becoming ready, returning, an I/O error, and drained sections, which hold the job one by one. */
  lemma EventMeans(b: Job, e: Event)
    requires JobOk(b) && Enabled(b, e)
    ensures e.BecomeReady? ==> Next(b, e) == b.(status := Ready)
    ensures e.Return? ==> Next(b, e) == b.(ret := e.ret, deferred := true)
    ensures e.IoError? ==> Next(b, e) == b.(p := Next(b, e).p) && (Next(b, e).p.user <==> e.stop || b.p.user)
    ensures e.DrainBegin? ==> Next(b, e) == b.(p := b.p.(count := b.p.count + 1, drains := b.p.drains + 1))
    ensures e.DrainBegin? ==> Enabled(Next(b, e), DrainEnd(e.job)) && Next(Next(b, e), DrainEnd(e.job)) == b
  {
  }

  /** The result of a job: an error of its own, the cancellation, or success. */
  lemma RcMeans(b: Job)
    ensures var b' := Rc(b);
      && (b'.ret != 0 <==> Failing(b)) && (b.ret != 0 ==> b'.ret == b.ret) && (b.ret == 0 && b.force ==> b'.ret == -125)
      && (if Failing(b) then b'.status.Aborting? else b'.status == b.status) && b' == b.(ret := b'.ret, status := b'.status)
  {
  }

  // ----- finalization of one job ----------------------------------------------------------

  function CallsFor(b: Job): Calls {
    if Rc(b).ret == 0 then COMMITTED else ABORTED
  }

  /** The job is concluded, and dismissed with it when nobody has to see that. */
  function Final(b: Job): Job {
    if b.flags.autoDismiss || !b.started
    then Rc(b).(inTxn := false, status := Null, paused := false, deferred := true, refcnt := b.refcnt - 1)
    else Rc(b).(inTxn := false, status := Concluded)
  }

  function DismissedJob(b: Job): Job {
    b.(status := Null, paused := false, deferred := true, inTxn := false, refcnt := b.refcnt - 1)
  }

  /** job_do_dismiss as a whole: the job leaves the transaction, and is freed with its last reference. */
  function Dismissed(g: Group, j: JobId): Group
    requires j in g.jobs
  {
    var b := DismissedJob(g.jobs[j]);
    g.(jobs := if b.refcnt == 0 then g.jobs - {j} else g.jobs[j := b], txn := if g.jobs[j].inTxn then Without(g.txn, j) else g.txn)
  }

  /** A finalized job keeps its result and is out of the transaction; it disappears exactly if nobody asked to see it or it never started. */
  lemma FinalMeans(b: Job)
    ensures var b' := Final(b);
      && !b'.inTxn && b'.ret == Rc(b).ret
      && (b.started && !b.flags.autoDismiss ==> b'.status.Concluded? && b'.refcnt == b.refcnt)
      && (!b.started || b.flags.autoDismiss ==> b'.status.Null? && b'.refcnt == b.refcnt - 1)
      && (!b.started || b.flags.autoDismiss ==> !b'.paused && b'.deferred)
      && CallsFor(b) == (if Failing(b) then Calls(0, 1, 1) else Calls(1, 0, 1))
  {
  }

  /** A dismissed job is in the null state, out of any transaction, and has one reference less. */
  lemma DismissMeans(b: Job)
    ensures var b' := DismissedJob(b);
      && b'.status.Null? && !b'.inTxn && !b'.paused && b'.deferred && b'.refcnt == b.refcnt - 1
      && b == b'.(status := b.status, inTxn := b.inTxn, paused := b.paused, deferred := b.deferred, refcnt := b.refcnt)
  {
  }

  lemma SetTwice(g: Group, j: JobId, b: Job, b': Job)
    ensures Set(Set(g, j, b), j, b') == Set(g, j, b')
  {
    assert g.jobs[j := b][j := b'] == g.jobs[j := b'];
  }

  lemma SetDrop(g: Group, j: JobId, b: Job)
    ensures Set(g, j, b).jobs - {j} == g.jobs - {j}
  {
  }

  /** job_finalize_single as a whole: the job leaves the transaction, and is freed with its last reference. */
  function Finalized(g: Group, j: JobId): Group
    requires j in g.jobs
  {
    var b := Final(g.jobs[j]);
    g.(jobs := if b.refcnt == 0 then g.jobs - {j} else g.jobs[j := b], txn := Without(g.txn, j), calls := g.calls[j := CallsFor(g.jobs[j])])
  }

  /** A job of the transaction whose turn it is to be finalized. */
  predicate Finalizable(b: Job) {
    b.status.Pending? || b.status.Aborting? || (b.status.Waiting? && b.force)
  }

  lemma FinalOk(b: Job, held: nat)
    requires JobOk(b) && RefOk(b, held) && Finalizable(b) && b.inTxn
    ensures Final(b).refcnt != 0 ==> JobOk(Final(b)) && RefOk(Final(b), held)
    ensures Final(b).refcnt == 0 ==> held == 0
    ensures !Final(b).inTxn
  {
  }

  lemma FinalizedBase(g: Group, held: multiset<JobId>, j: JobId)
    requires Base(g, held) && j in g.txn && Finalizable(g.jobs[j])
    ensures Base(Finalized(g, j), held)
    ensures forall k :: k in Finalized(g, j).txn <==> k in g.txn && k != j
    ensures |Finalized(g, j).txn| == |g.txn| - 1
  {
    FinalOk(g.jobs[j], held[j]);
  }

  // ----- references -----------------------------------------------------------------------

  function Referenced(g: Group, j: JobId): Group
    requires j in g.jobs
  {
    Set(g, j, g.jobs[j].(refcnt := g.jobs[j].refcnt + 1))
  }

  function Unreferenced(g: Group, j: JobId): Group
    requires j in g.jobs
  {
    var n := g.jobs[j].refcnt - 1;
    if n == 0 then g.(jobs := g.jobs - {j}) else Set(g, j, g.jobs[j].(refcnt := n))
  }

  lemma ReferencedBase(g: Group, held: multiset<JobId>, j: JobId)
    requires Base(g, held) && j in g.jobs
    ensures Base(Referenced(g, j), held + multiset{j})
  {
    HeldOne(held, j);
    var b := g.jobs[j].(refcnt := g.jobs[j].refcnt + 1);
    SetTxn(g, j, b);
    forall k | k in g.jobs ensures JobOk(g.jobs[k]) && RefOk(g.jobs[k], held[k]) {}
    assert JobOk(b);
  }

  /** The last reference goes only when the job has been dismissed. */
  lemma UnreferencedBase(g: Group, held: multiset<JobId>, j: JobId)
    requires Base(g, held + multiset{j})
    ensures j in g.jobs && g.jobs[j].refcnt >= 1 && (g.jobs[j].refcnt == 1 ==> g.jobs[j].status.Null? && !g.jobs[j].inTxn)
    ensures Base(Unreferenced(g, j), held)
  {
    var held1 := held + multiset{j};
    HeldOne(held, j);
    RefFacts(g, held1, j);
    if g.jobs[j].refcnt == 1 {
      DroppedBase(g, held1, held, j);
    } else {
      LoweredBase(g, held1, held, j);
    }
  }

  lemma HeldOne(held: multiset<JobId>, j: JobId)
    ensures var held1 := held + multiset{j};
      && j in held1 && held1[j] == held[j] + 1
      && (forall k :: k != j ==> held1[k] == held[k])
      && (forall k :: k in held ==> k in held1)
  {
  }

  lemma RefFacts(g: Group, held: multiset<JobId>, j: JobId)
    requires Base(g, held) && j in held
    ensures j in g.jobs && g.jobs[j].refcnt == (if g.jobs[j].status.Null? then 0 else 1) + held[j] > 0
    ensures g.jobs[j].status.Null? ==> !g.jobs[j].inTxn
  {
    assert JobOk(g.jobs[j]);
  }

  lemma DroppedBase(g: Group, held1: multiset<JobId>, held: multiset<JobId>, j: JobId)
    requires Base(g, held1) && j in g.jobs && !g.jobs[j].inTxn && held[j] == 0
    requires forall k :: k != j ==> held1[k] == held[k]
    requires forall k :: k in held ==> k in held1
    ensures Base(g.(jobs := g.jobs - {j}), held)
  {
  }

  lemma LoweredBase(g: Group, held1: multiset<JobId>, held: multiset<JobId>, j: JobId)
    requires Base(g, held1) && j in g.jobs && held1[j] == held[j] + 1 && g.jobs[j].refcnt > 1
    requires forall k :: k != j ==> held1[k] == held[k]
    requires forall k :: k in held ==> k in held1
    ensures Base(Set(g, j, g.jobs[j].(refcnt := g.jobs[j].refcnt - 1)), held)
  {
    var b := g.jobs[j];
    SetTxn(g, j, b.(refcnt := b.refcnt - 1));
    assert JobOk(b) && JobOk(b.(refcnt := b.refcnt - 1));
  }

  // ----- tearing down ---------------------------------------------------------------------

  /** The job will be finalized in the same way. */
  ghost predicate Carried(b: Job, b': Job) {
    CallsFor(b') == CallsFor(b)
  }

  /** Nothing that happens during the wait changes what the transaction will do to the job. */
  lemma DoomedNext(b: Job, e: Event, isInit: bool)
    requires JobOk(b) && Enabled(b, e) && Doomed(b, isInit)
    ensures Doomed(Next(b, e), isInit) && JobOk(Next(b, e)) && Discreet(b, Next(b, e)) && Carried(b, Next(b, e))
  {
    NextOk(b, e);
  }

  lemma ReferencedTearDown(g: Group, j: JobId, init: JobId)
    requires TxnOk(g) && TearingDown(g, init) && j in g.txn
    ensures TearingDown(Referenced(g, j), init)
    ensures forall k, b :: k in g.txn && Carried(Referenced(g, j).jobs[k], b) ==> Carried(g.jobs[k], b)
  {
  }

  lemma UnreferencedTearDown(g: Group, j: JobId, init: JobId)
    requires TxnOk(g) && TearingDown(g, init) && j in g.txn && g.jobs[j].refcnt > 1
    ensures TearingDown(Unreferenced(g, j), init)
  {
  }

  /** The job has got neither nearer to its completion nor farther from it. */
  ghost predicate SameProgress(b: Job, b': Job) {
    b'.status == b.status && b'.started == b.started && b'.deferred == b.deferred
  }

  /** The first `n` jobs of the list, but for `init`, have been cancelled by force, and nothing else has changed. */
  ghost predicate CancelledUpTo(g0: Group, g: Group, init: JobId, n: nat) {
    && g.txn == g0.txn && g.calls == g0.calls && g.aborting == g0.aborting && n <= |g.txn|
    && init in g.jobs && init in g0.jobs && g.jobs[init] == g0.jobs[init]
    && (forall j :: j in g.txn ==> j in g.jobs && j in g0.jobs && SameProgress(g0.jobs[j], g.jobs[j]))
    && (forall k :: 0 <= k < n && g.txn[k] != init ==> g.jobs[g.txn[k]].force)
  }

  lemma CancelStep(g0: Group, g: Group, init: JobId, n: nat)
    requires CancelledUpTo(g0, g, init, n) && n < |g.txn| && g.txn[n] != init
    ensures CancelledUpTo(g0, Set(g, g.txn[n], Cancelled(g.jobs[g.txn[n]], true)), init, n + 1)
  {
  }

  /** What an event does to the group while it is torn down. */
  lemma EventKeeps(g: Group, held: multiset<JobId>, init: JobId, e: Event)
    requires Base(g, held) && TearingDown(g, init) && e.job in g.jobs && Enabled(g.jobs[e.job], e)
    ensures e.Exit? ==> g.jobs[e.job].force
    ensures var g' := Set(g, e.job, Next(g.jobs[e.job], e));
      Base(g', held) && TearingDown(g', init) && forall j :: j in g.txn ==> Carried(g.jobs[j], g'.jobs[j])
  {
    var b := g.jobs[e.job];
    if b.inTxn {
      DoomedNext(b, e, e.job == init);
    } else {
      NextOk(b, e);
    }
    SetBase(g, held, e.job, Next(b, e));
  }

  // ----- how long a wait takes ------------------------------------------------------------

  /** How far a force-cancelled job that has been started is from its completion: it wakes up, returns and exits. */
  function Left(b: Job): nat {
    if IsCompleted(b.status) then 0 else if b.deferred then 1 else if b.status.Paused? || b.status.Standby? then 3 else 2
  }

  /** The event that takes job `j` one step nearer. */
  predicate Nearer(e: Event, j: JobId, left: nat) {
    e.job == j && ((left == 3 && e.Wake?) || (left == 2 && e.Return?) || (left == 1 && e.Exit?))
  }

  function After(b: Job, e: Event, j: JobId): Job {
    if e.job == j && Enabled(b, e) then Next(b, e) else b
  }

  /** The distance never grows, and it shrinks with exactly the event that is due; that event can occur. */
  lemma LeftNext(b: Job, e: Event, j: JobId)
    requires JobOk(b) && b.started && b.force
    ensures Left(After(b, e, j)) == if Nearer(e, j, Left(b)) then Left(b) - 1 else Left(b)
    ensures Nearer(e, j, Left(b)) ==> Enabled(b, e)
  {
  }

  /** The events contain those that job `j` needs, in their order and with anything in between. */
  ghost predicate Drives(events: seq<Event>, j: JobId, left: nat) {
    left == 0 || (events != [] && Drives(events[1..], j, if Nearer(events[0], j, left) then left - 1 else left))
  }

  /** A wait for job `j` that sees these events ends. */
  ghost predicate Due(b: Job, j: JobId, events: seq<Event>) {
    IsCompleted(b.status) || (b.started && Drives(events, j, Left(b)))
  }

  ghost predicate AllDue(g: Group, events: seq<Event>) {
    forall j :: j in g.txn && j in g.jobs ==> Due(g.jobs[j], j, events)
  }

  ghost predicate OthersDue(g: Group, init: JobId, events: seq<Event>) {
    forall j :: j in g.txn && j in g.jobs && j != init ==> Due(g.jobs[j], j, events)
  }

  lemma DueNext(b: Job, j: JobId, isInit: bool, events: seq<Event>)
    requires JobOk(b) && Doomed(b, isInit) && events != []
    ensures Due(After(b, events[0], j), j, events[1..]) <==> Due(b, j, events)
  {
    var e, b' := events[0], After(b, events[0], j);
    if e.job == j && Enabled(b, e) {
      DoomedNext(b, e, isInit);
      NextOk(b, e);
    }
    if b.started && !IsCompleted(b.status) {
      LeftNext(b, e, j);
      assert b'.started && (IsCompleted(b'.status) <==> Left(b') == 0);
      assert Drives(events, j, Left(b)) <==> Drives(events[1..], j, Left(b'));
    } else {
      assert IsCompleted(b'.status) == IsCompleted(b.status);
    }
  }

  /** What has been seen of the events has had its effect on everybody. */
  ghost predicate DueSame(g0: Group, events0: seq<Event>, g: Group, events: seq<Event>) {
    forall j :: j in g.txn ==> j in g0.jobs && j in g.jobs && (Due(g.jobs[j], j, events) <==> Due(g0.jobs[j], j, events0))
  }

  lemma EventDue(g: Group, g': Group, held: multiset<JobId>, init: JobId, events: seq<Event>)
    requires Base(g, held) && TearingDown(g, init) && events != [] && g'.txn == g.txn
    requires forall j :: j in g.txn ==> j in g'.jobs && g'.jobs[j] == After(g.jobs[j], events[0], j)
    ensures DueSame(g, events, g', events[1..])
  {
    forall j | j in g.txn ensures Due(g'.jobs[j], j, events[1..]) <==> Due(g.jobs[j], j, events) {
      assert JobOk(g.jobs[j]) && Doomed(g.jobs[j], j == init);
      DueNext(g.jobs[j], j, j == init, events);
    }
  }

  lemma FinalizedDue(g0: Group, events0: seq<Event>, g: Group, k: JobId, events: seq<Event>)
    requires TxnOk(g) && DueSame(g0, events0, g, events) && k in g.jobs
    ensures DueSame(g0, events0, Finalized(g, k), events)
  {
  }

  lemma DueTrans(g0: Group, events0: seq<Event>, g1: Group, events1: seq<Event>, g2: Group, events2: seq<Event>)
    requires DueSame(g0, events0, g1, events1) && DueSame(g1, events1, g2, events2) && forall j :: j in g2.txn ==> j in g1.txn
    ensures DueSame(g0, events0, g2, events2)
  {
  }

  lemma WaitedDue(g0: Group, events: seq<Event>, g: Group, rest: seq<Event>, k: JobId)
    requires TxnOk(g0) && TxnOk(g) && g.txn == g0.txn && k in g0.txn && g.jobs[k].refcnt > 1
    requires DueSame(Referenced(g0, k), events, g, rest)
    ensures DueSame(g0, events, Unreferenced(g, k), rest)
  {
    var g1, g2 := Referenced(g0, k), Unreferenced(g, k);
    forall j | j in g2.txn ensures j in g0.jobs && j in g2.jobs && (Due(g2.jobs[j], j, rest) <==> Due(g0.jobs[j], j, events)) {
      assert SameProgress(g0.jobs[j], g1.jobs[j]) && SameProgress(g.jobs[j], g2.jobs[j]);
    }
  }

  lemma DueFirst(g: Group, events: seq<Event>, g': Group, events': seq<Event>)
    requires TxnOk(g) && TxnOk(g') && g.txn != [] && DueSame(g, events, g', events')
    requires Due(g.jobs[g.txn[0]], g.txn[0], events) && forall j :: j in g'.txn <==> j in g.txn && j != g.txn[0]
    ensures AllDue(g, events) <==> AllDue(g', events')
  {
    if AllDue(g', events') {
      forall j | j in g.txn ensures Due(g.jobs[j], j, events) {
        if j != g.txn[0] { assert j in g'.txn; }
      }
    }
  }

  lemma ProgressDue(g: Group, g': Group, events: seq<Event>)
    requires TxnOk(g) && TxnOk(g') && g'.txn == g.txn && forall j :: j in g.txn ==> SameProgress(g.jobs[j], g'.jobs[j])
    ensures AllDue(g', events) <==> AllDue(g, events)
  {
    forall j | j in g.txn ensures Due(g'.jobs[j], j, events) <==> Due(g.jobs[j], j, events) {
      assert SameProgress(g.jobs[j], g'.jobs[j]);
    }
  }

  lemma CompletedDue(g: Group)
    requires AllCompleted(g)
    ensures AllDue(g, [])
  {
  }

  lemma AbortingDue(g: Group, j: JobId, b: Job, events: seq<Event>)
    requires TxnOk(g) && j in g.txn && b.inTxn
    ensures AllDue(Set(g, j, b), events) <==> OthersDue(g, j, events) && Due(b, j, events)
  {
    var g' := Set(g, j, b);
    assert forall k :: k in g.txn && k != j ==> g'.jobs[k] == g.jobs[k];
    assert j in g'.txn && g'.jobs[j] == b;
  }

  /** Events that would take a job farther also take it from where it is. */
  lemma {:induction false} DrivesNearer(events: seq<Event>, j: JobId, far: nat, near: nat)
    requires Drives(events, j, far) && near <= far
    ensures Drives(events, j, near)
  {
    if near != 0 && far != 0 {
      var far' := if Nearer(events[0], j, far) then far - 1 else far;
      var near' := if Nearer(events[0], j, near) then near - 1 else near;
      DrivesNearer(events[1..], j, far', near');
    }
  }

  lemma {:induction false} DrivesAppend(before: seq<Event>, events: seq<Event>, after: seq<Event>, j: JobId, left: nat)
    requires Drives(events, j, left)
    ensures Drives(before + events + after, j, left)
    decreases |before|, |events|
  {
    if left == 0 {
    } else if before != [] {
      var e := before[0];
      assert (before + events + after)[1..] == before[1..] + events + after;
      var left' := if Nearer(e, j, left) then left - 1 else left;
      DrivesNearer(events, j, left, left');
      DrivesAppend(before[1..], events, after, j, left');
    } else {
      assert (before + events + after)[1..] == [] + events[1..] + after;
      DrivesAppend([], events[1..], after, j, if Nearer(events[0], j, left) then left - 1 else left);
    }
  }

  /** All that the jobs of the list may have to do. */
  function Finishing(js: seq<JobId>): seq<Event> {
    if js == [] then [] else [Wake(js[0]), Return(js[0], 0), Exit(js[0])] + Finishing(js[1..])
  }

  lemma {:induction false} FinishingDrives(js: seq<JobId>, j: JobId)
    requires j in js
    ensures Drives(Finishing(js), j, 3)
  {
    var own := [Wake(js[0]), Return(js[0], 0), Exit(js[0])];
    if j == js[0] {
      assert own[1..] == [Return(j, 0), Exit(j)] && own[1..][1..] == [Exit(j)] && own[1..][1..][1..] == [];
      assert Drives([Exit(j)], j, 1) && Drives([Return(j, 0), Exit(j)], j, 2) && Drives(own, j, 3);
      DrivesAppend([], own, Finishing(js[1..]), j, 3);
      assert [] + own + Finishing(js[1..]) == Finishing(js);
    } else {
      FinishingDrives(js[1..], j);
      DrivesAppend(own, Finishing(js[1..]), [], j, 3);
      assert own + Finishing(js[1..]) + [] == Finishing(js);
    }
  }

  /** Everybody but `init` has been started, or has completed without. */
  ghost predicate OthersStarted(g: Group, init: JobId) {
    forall j :: j in g.txn && j in g.jobs && j != init ==> g.jobs[j].started || IsCompleted(g.jobs[j].status)
  }

  /** With the others started, every wait that sees each of them wake up, return and exit ends. */
  lemma StartedAreDue(g: Group, init: JobId, events: seq<Event>)
    requires OthersStarted(g, init) && forall j :: j in g.txn && j != init ==> Drives(events, j, 3)
    ensures OthersDue(g, init, events)
  {
    forall j | j in g.txn && j in g.jobs && j != init ensures Due(g.jobs[j], j, events) {
      DrivesNearer(events, j, 3, Left(g.jobs[j]));
    }
  }

  /** The group can be torn down for `init` if and only if everybody else has been started or has completed. */
  lemma CanBeTornDown(g: Group, init: JobId)
    ensures (exists events :: OthersDue(g, init, events)) <==> OthersStarted(g, init)
  {
    if OthersStarted(g, init) {
      forall j | j in g.txn && j != init ensures Drives(Finishing(g.txn), j, 3) {
        FinishingDrives(g.txn, j);
      }
      StartedAreDue(g, init, Finishing(g.txn));
    } else {
      var j :| j in g.txn && j in g.jobs && j != init && !g.jobs[j].started && !IsCompleted(g.jobs[j].status);
      assert forall events :: !Due(g.jobs[j], j, events);
    }
  }

  /** What tearing down for `init` does to each job: it aborts and cleans all, but `init` as its own result says. */
  ghost function Outcome(g: Group, init: JobId, j: JobId): Calls
    requires TxnOk(g) && j in g.calls
  {
    if j !in g.txn then g.calls[j] else if j == init then CallsFor(g.jobs[j]) else ABORTED
  }

  ghost predicate AllCompleted(g: Group) {
    forall j :: j in g.txn && j in g.jobs ==> IsCompleted(g.jobs[j].status)
  }

  /** Some jobs have been finalized as they should be, the others are still to come. */
  ghost predicate Halfway(g0: Group, g: Group, init: JobId)
    requires TxnOk(g0) && TxnOk(g)
  {
    && g.calls.Keys == g0.calls.Keys
    && (forall j :: j in g.txn ==> j in g0.txn)
    && (forall j :: j in g.calls && j !in g.txn ==> g.calls[j] == Outcome(g0, init, j))
    && (init in g.txn ==> CallsFor(g.jobs[init]) == CallsFor(g0.jobs[init]))
  }

  /** The first job of the list has been finalized, as `init` or as one of the others. */
  ghost predicate OneLess(g: Group, g': Group, init: JobId)
    requires TxnOk(g) && TxnOk(g') && g.txn != []
  {
    var k := g.txn[0];
    && (forall j :: j in g'.txn <==> j in g.txn && j != k)
    && g'.calls == g.calls[k := Outcome(g, init, k)]
    && (init in g'.txn ==> CallsFor(g'.jobs[init]) == CallsFor(g.jobs[init]))
  }

  /** A job that has completed while the group is torn down can be finalized, and the rest goes on. */
  lemma FinalizedOneLess(g0: Group, g1: Group, held: multiset<JobId>, init: JobId)
    requires TxnOk(g0) && Base(g1, held) && TearingDown(g1, init)
    requires g1.txn == g0.txn && g1.calls == g0.calls && g1.txn != [] && IsCompleted(g1.jobs[g1.txn[0]].status)
    requires init in g1.txn ==> CallsFor(g1.jobs[init]) == CallsFor(g0.jobs[init])
    ensures var k := g1.txn[0];
      && g1.jobs[k].inTxn && Finalizable(g1.jobs[k]) && g1.jobs[k].refcnt >= 1
      && Base(Finalized(g1, k), held) && TearingDown(Finalized(g1, k), init)
      && OneLess(g0, Finalized(g1, k), init) && |Finalized(g1, k).txn| < |g0.txn|
  {
    var k := g1.txn[0];
    CompletedFinalizable(g1, held, init, k);
    FinalizedTearDown(g1, held, init, k);
  }

  lemma CompletedFinalizable(g: Group, held: multiset<JobId>, init: JobId, k: JobId)
    requires Base(g, held) && TearingDown(g, init) && k in g.txn && IsCompleted(g.jobs[k].status)
    ensures g.jobs[k].inTxn && Finalizable(g.jobs[k]) && g.jobs[k].refcnt >= 1 && CallsFor(g.jobs[k]) == Outcome(g, init, k)
  {
    var b := g.jobs[k];
    assert JobOk(b) && RefOk(b, held[k]) && Doomed(b, k == init);
  }

  lemma FinalizedTearDown(g: Group, held: multiset<JobId>, init: JobId, j: JobId)
    requires Base(g, held) && TearingDown(g, init) && j in g.txn && Finalizable(g.jobs[j])
    ensures Base(Finalized(g, j), held) && TearingDown(Finalized(g, j), init)
    ensures forall k :: k in Finalized(g, j).txn <==> k in g.txn && k != j
    ensures |Finalized(g, j).txn| == |g.txn| - 1
  {
    FinalizedBase(g, held, j);
  }

  lemma HalfwayOn(g0: Group, g1: Group, g2: Group, init: JobId)
    requires TxnOk(g0) && TxnOk(g1) && TxnOk(g2) && g1.txn != []
    requires Halfway(g0, g1, init) && OneLess(g1, g2, init)
    ensures Halfway(g0, g2, init)
  {
  }

  lemma OutcomeSame(g0: Group, g: Group, init: JobId)
    requires TxnOk(g0) && TxnOk(g) && g.txn == g0.txn && g.calls == g0.calls && init in g.txn
    requires CallsFor(g.jobs[init]) == CallsFor(g0.jobs[init])
    ensures forall j :: j in g.calls ==> Outcome(g, init, j) == Outcome(g0, init, j)
  {
  }

  // ----- committing -----------------------------------------------------------------------

  /** Every job waits for finalization and none has been cancelled by force. */
  ghost predicate AllPending(g: Group) {
    forall j :: j in g.txn && j in g.jobs ==> g.jobs[j].status.Pending? && !g.jobs[j].force
  }

  function Prepared(b: Job, ret: int): Job {
    Rc(b.(ret := ret))
  }

  /** The first job of the list whose preparation fails. */
  ghost function FirstFailure(js: seq<JobId>, prep: JobId -> int): JobId {
    if js == [] then 0 else if prep(js[0]) != 0 then js[0] else FirstFailure(js[1..], prep)
  }

  lemma {:induction false} FirstFailureAt(js: seq<JobId>, prep: JobId -> int, i: nat)
    requires i < |js| && prep(js[i]) != 0 && forall k :: 0 <= k < i ==> prep(js[k]) == 0
    ensures FirstFailure(js, prep) == js[i]
  {
    if i > 0 {
      assert prep(js[0]) == 0;
      FirstFailureAt(js[1..], prep, i - 1);
    }
  }

  lemma {:induction false} FirstFailureIn(js: seq<JobId>, prep: JobId -> int)
    requires exists k :: k in js && prep(k) != 0
    ensures FirstFailure(js, prep) in js && prep(FirstFailure(js, prep)) != 0
  {
    if prep(js[0]) == 0 {
      FirstFailureIn(js[1..], prep);
    }
  }

  /** The preparation changed nothing but the first job that failed. */
  ghost predicate PreparedUpTo(g: Group, g': Group, prep: JobId -> int)
    requires TxnOk(g)
  {
    var k := FirstFailure(g.txn, prep);
    k in g.txn && prep(k) != 0 && g' == Set(g, k, Prepared(g.jobs[k], prep(k)))
  }

  ghost predicate AllPrepare(g: Group, prep: JobId -> int) {
    forall k :: k in g.txn ==> prep(k) == 0
  }

  /** Of the jobs in the transaction of `g0`, those that have left it have been committed. */
  ghost predicate Committing(g0: Group, g: Group) {
    && g.calls.Keys == g0.calls.Keys
    && (forall j :: j in g.txn ==> j in g0.txn)
    && (forall j :: j in g.calls && j !in g.txn ==> g.calls[j] == if j in g0.txn then COMMITTED else g0.calls[j])
  }

  lemma CommittingOn(g0: Group, g: Group, j: JobId)
    requires TxnOk(g0) && TxnOk(g) && Committing(g0, g) && j in g.txn && CallsFor(g.jobs[j]) == COMMITTED
    requires forall k :: k in Finalized(g, j).txn <==> k in g.txn && k != j
    ensures Committing(g0, Finalized(g, j))
  {
  }

  /**
   * After a failed preparation every job is rolled back, except that the job which asked for the
   * finalization is committed unless it is itself the first whose preparation failed.
   */
  ghost predicate RolledBack(g0: Group, g: Group, init: JobId, first: JobId) {
    && g.calls.Keys == g0.calls.Keys
    && forall j :: j in g.calls ==>
      g.calls[j] == if j !in g0.txn then g0.calls[j] else if j == init && j != first then COMMITTED else ABORTED
  }

  lemma RollsBack(g0: Group, g2: Group, g: Group, init: JobId, first: JobId)
    requires TxnOk(g0) && TxnOk(g2) && g2.txn == g0.txn && g2.calls == g0.calls && g.calls.Keys == g2.calls.Keys
    requires forall j :: j in g.calls ==> g.calls[j] == Outcome(g2, init, j)
    requires init in g2.txn && CallsFor(g2.jobs[init]) == if init != first then COMMITTED else ABORTED
    ensures RolledBack(g0, g, init, first)
  {
  }

  /** The failure of the first job does not touch the result of another. */
  lemma InitiatorKept(g: Group, g': Group, held: multiset<JobId>, init: JobId, prep: JobId -> int)
    requires Base(g, held) && TxnOk(g') && AllPending(g) && init in g.txn && PreparedUpTo(g, g', prep)
    ensures init in g'.txn && CallsFor(g'.jobs[init]) == if init != FirstFailure(g.txn, prep) then COMMITTED else ABORTED
  {
    assert JobOk(g.jobs[init]);
  }

  /** A pair of jobs that have been started and wait for finalization. */
  function Pair(): Group {
    var b := Job(Pending, true, true, false, Pausing(0, false, IoOk, 0), false, false, 0, true, 1, Flags(false, false));
    Group(map[0 := b, 1 := b], [0, 1], false, map[0 := NONE_CALLED, 1 := NONE_CALLED])
  }

  /** Neither of them can be prepared, and the one that asks for the finalization is committed all the same. */
  lemma CommittedUnprepared(g: Group)
    requires RolledBack(Pair(), g, 1, FirstFailure(Pair().txn, j => -5))
    ensures Base(Pair(), multiset{}) && AllPending(Pair()) && !Pair().aborting
    ensures g.calls == map[0 := ABORTED, 1 := COMMITTED]
  {
    PairWaits();
    FirstFailureAt([0, 1], j => -5, 0);
    assert g.calls.Keys == {0, 1};
  }

  lemma PairWaits()
    ensures Base(Pair(), multiset{}) && AllPending(Pair())
  {
    var g0 := Pair();
    assert JobOk(g0.jobs[0]) && RefOk(g0.jobs[0], 0);
  }

  lemma PreparedBase(g: Group, held: multiset<JobId>, j: JobId, ret: int)
    requires Base(g, held) && AllPending(g) && j in g.txn && ret != 0
    ensures Base(Set(g, j, Prepared(g.jobs[j], ret)), held) && AllCompleted(Set(g, j, Prepared(g.jobs[j], ret)))
    ensures forall k :: k in g.txn ==> Doomed(Set(g, j, Prepared(g.jobs[j], ret)).jobs[k], true)
  {
    var b := g.jobs[j];
    assert JobOk(b);
    SetBase(g, held, j, Prepared(b, ret));
  }

  lemma PendingFinalizable(g: Group, held: multiset<JobId>, j: JobId)
    requires Base(g, held) && AllPending(g) && j in g.txn
    ensures g.jobs[j].inTxn && g.jobs[j].refcnt >= 1 && Finalizable(g.jobs[j]) && CallsFor(g.jobs[j]) == COMMITTED
    ensures Base(Finalized(g, j), held) && AllPending(Finalized(g, j)) && |Finalized(g, j).txn| < |g.txn|
    ensures forall k :: k in Finalized(g, j).txn <==> k in g.txn && k != j
  {
    assert JobOk(g.jobs[j]) && RefOk(g.jobs[j], held[j]);
    FinalizedBase(g, held, j);
  }

  // ----- completion -----------------------------------------------------------------------

  ghost predicate AllWaiting(g: Group) {
    forall j :: j in g.txn && j in g.jobs ==> g.jobs[j].status.Waiting? && !g.jobs[j].force
  }

  /** No job of the transaction asks for manual finalization. */
  ghost predicate AllAuto(g: Group) {
    forall j :: j in g.txn && j in g.jobs ==> g.jobs[j].flags.autoFinalize
  }

  ghost predicate OthersCompleted(g: Group, j: JobId) {
    forall k :: k in g.txn && k in g.jobs && k != j ==> IsCompleted(g.jobs[k].status)
  }

  /** A group in which everybody waits has no failed job. */
  lemma NoneFailed(g: Group, held: multiset<JobId>)
    requires Base(g, held) && (AllWaiting(g) || AllPending(g))
    ensures FailedIn(g) == {}
  {
    forall j | j in g.txn ensures JobOk(g.jobs[j]) {}
  }

  lemma SetFailed(g: Group, j: JobId, b': Job)
    requires j in g.jobs && Failing(b') == Failing(g.jobs[j])
    ensures FailedIn(Set(g, j, b')) == FailedIn(g)
  {
    var g' := Set(g, j, b');
    assert forall k :: k in g.jobs && k != j ==> g'.jobs[k] == g.jobs[k];
  }

  /** How a group of jobs that all succeeded is closed by `init`. */
  ghost predicate Closed(g0: Group, g: Group, init: JobId, prep: JobId -> int) {
    if AllPrepare(g0, prep) then Committing(g0, g) else RolledBack(g0, g, init, FirstFailure(g0.txn, prep))
  }

  /** No job that has completed returned an error. */
  ghost predicate CompletedClean(g: Group) {
    forall j :: j in g.txn ==> j in g.jobs && (IsCompleted(g.jobs[j].status) ==> g.jobs[j].ret == 0)
  }

  lemma QuietClean(g: Group, held: multiset<JobId>)
    requires Base(g, held) && Quiet(g)
    ensures CompletedClean(g)
  {
    forall j | j in g.txn ensures JobOk(g.jobs[j]) {}
  }

  /** The first `n` jobs of the list are pending, the others still waiting. */
  ghost predicate PendingUpTo(g0: Group, g: Group, n: nat) {
    && g.txn == g0.txn && g.calls == g0.calls && g.aborting == g0.aborting && n <= |g.txn|
    && (forall j :: j in g.txn ==> j in g.jobs && j in g0.jobs && g.jobs[j].flags == g0.jobs[j].flags)
    && (forall k :: 0 <= k < n ==> g.jobs[g.txn[k]].status.Pending? && !g.jobs[g.txn[k]].force)
    && (forall k :: n <= k < |g.txn| ==> g.jobs[g.txn[k]].status.Waiting? && !g.jobs[g.txn[k]].force)
  }

  lemma PendingStep(g0: Group, g: Group, held: multiset<JobId>, n: nat)
    requires Base(g, held) && PendingUpTo(g0, g, n) && n < |g.txn|
    ensures var b := g.jobs[g.txn[n]].(status := Pending);
      var g' := Set(g, g.txn[n], b);
      Base(g', held) && PendingUpTo(g0, g', n + 1)
  {
    var j := g.txn[n];
    assert JobOk(g.jobs[j]);
    SetBase(g, held, j, g.jobs[j].(status := Pending));
    PendingOn(g0, g, n);
  }

  lemma PendingOn(g0: Group, g: Group, n: nat)
    requires TxnOk(g) && PendingUpTo(g0, g, n) && n < |g.txn|
    ensures PendingUpTo(g0, Set(g, g.txn[n], g.jobs[g.txn[n]].(status := Pending)), n + 1)
  {
  }

  /** The jobs of the list become pending. */
  ghost function PendingAll(g: Group, js: seq<JobId>): Group {
    g.(jobs := map k | k in g.jobs :: if k in js then g.jobs[k].(status := Pending) else g.jobs[k])
  }

  /** Everybody in the transaction waits for finalization. */
  ghost function ToPending(g: Group): Group {
    PendingAll(g, g.txn)
  }

  lemma PendingMore(g: Group, n: nat)
    requires n < |g.txn| && g.txn[n] in g.jobs
    ensures var part := PendingAll(g, g.txn[..n]);
      g.txn[n] in part.jobs && Set(part, g.txn[n], part.jobs[g.txn[n]].(status := Pending)) == PendingAll(g, g.txn[..n + 1])
  {
    var j, part := g.txn[n], PendingAll(g, g.txn[..n]);
    assert g.txn[..n + 1] == g.txn[..n] + [j];
    assert Set(part, j, part.jobs[j].(status := Pending)).jobs == PendingAll(g, g.txn[..n + 1]).jobs;
  }

  /** An open group after `j` has exited without an error: `j` waits for the others, or all have become pending. */
  ghost function StaysOpen(g: Group, j: JobId): Group
    requires j in g.jobs
  {
    if OthersCompleted(g, j) then ToPending(g) else Set(g, j, g.jobs[j].(status := Waiting))
  }

  /** The jobs of the list wait for the others. */
  ghost function WaitingAll(g: Group, js: seq<JobId>): Group {
    g.(jobs := map k | k in g.jobs :: if k in js then g.jobs[k].(status := Waiting) else g.jobs[k])
  }

  /** What is asked of the jobs that are to exit. */
  ghost predicate Exiting(g: Group, order: seq<JobId>) {
    && NoDup(order)
    && (forall j :: j in order ==> j in g.txn && j in g.jobs && Enabled(g.jobs[j], Exit(j)) && !Failing(g.jobs[j]))
    && (forall j :: j in g.txn && j !in order ==> j in g.jobs && IsCompleted(g.jobs[j].status))
  }

  lemma WaitingMore(g: Group, js: seq<JobId>, j: JobId)
    requires j in g.jobs && j !in js
    ensures Set(WaitingAll(g, js), j, g.jobs[j].(status := Waiting)) == WaitingAll(g, js + [j])
  {
    assert Set(WaitingAll(g, js), j, g.jobs[j].(status := Waiting)).jobs == WaitingAll(g, js + [j]).jobs;
  }

  lemma WaitingNext(g0: Group, order: seq<JobId>, i: nat)
    requires TxnOk(g0) && Exiting(g0, order) && i < |order| - 1
    ensures var g, j := WaitingAll(g0, order[..i]), order[i];
      && j in g.txn && j in g.jobs && g.jobs[j] == g0.jobs[j] && !OthersCompleted(g, j)
      && StaysOpen(g, j) == WaitingAll(g0, order[..i + 1])
  {
    var js, j, last := order[..i], order[i], order[|order| - 1];
    NotBefore(order, i, i);
    NotBefore(order, i, |order| - 1);
    assert j in order && last in order && order[..i + 1] == js + [j];
    StillRunning(g0, js, j, last);
    WaitingMore(g0, js, j);
  }

  lemma NotBefore(s: seq<JobId>, i: nat, k: nat)
    requires NoDup(s) && i <= k < |s|
    ensures s[k] !in s[..i]
  {
  }

  lemma StillRunning(g: Group, js: seq<JobId>, j: JobId, k: JobId)
    requires k in g.txn && k in g.jobs && k !in js && k != j && !IsCompleted(g.jobs[k].status)
    ensures !OthersCompleted(WaitingAll(g, js), j)
  {
    assert WaitingAll(g, js).jobs[k] == g.jobs[k];
  }

  lemma WaitingThenPending(g: Group, js: seq<JobId>)
    requires forall k :: k in js ==> k in g.txn
    ensures ToPending(WaitingAll(g, js)) == ToPending(g)
  {
    assert ToPending(WaitingAll(g, js)).jobs == ToPending(g).jobs;
  }

  lemma WaitingLast(g0: Group, order: seq<JobId>)
    requires TxnOk(g0) && Exiting(g0, order) && order != []
    ensures var g, last := WaitingAll(g0, order[..|order| - 1]), order[|order| - 1];
      && last in g.txn && last in g.jobs && g.jobs[last] == g0.jobs[last] && OthersCompleted(g, last)
      && AllAuto(g) == AllAuto(g0) && ToPending(g) == ToPending(g0)
  {
    var n := |order| - 1;
    var g, last := WaitingAll(g0, order[..n]), order[n];
    assert last in order && last !in order[..n] && order == order[..n] + [last];
    forall k | k in g.txn && k != last ensures IsCompleted(g.jobs[k].status) {
      if k in order { assert k in order[..n]; }
    }
    forall k | k in g.txn ensures g.jobs[k].flags == g0.jobs[k].flags {}
    assert forall k :: k in order[..n] ==> k in order;
    WaitingThenPending(g0, order[..n]);
  }

  lemma WaitingToPending(g: Group, j: JobId)
    requires j in g.jobs && j in g.txn
    ensures ToPending(Set(g, j, g.jobs[j].(status := Waiting))) == ToPending(g)
  {
  }

  /** The reference held during the exit makes no difference. */
  lemma StaysReferenced(g: Group, j: JobId)
    requires j in g.txn && j in g.jobs && g.jobs[j].refcnt >= 1
    ensures j in StaysOpen(Referenced(g, j), j).jobs && Unreferenced(StaysOpen(Referenced(g, j), j), j) == StaysOpen(g, j)
  {
    var g1 := Referenced(g, j);
    assert forall k :: k in g.jobs && k != j ==> g1.jobs[k] == g.jobs[k];
    assert OthersCompleted(g1, j) == OthersCompleted(g, j);
    if OthersCompleted(g, j) {
      PendingReferenced(g, j);
    } else {
      WaitingReferenced(g, j);
    }
  }

  lemma PendingReferenced(g: Group, j: JobId)
    requires j in g.txn && j in g.jobs && g.jobs[j].refcnt >= 1
    ensures Unreferenced(ToPending(Referenced(g, j)), j) == ToPending(g)
  {
    var b, p := g.jobs[j], ToPending(g);
    var b1 := b.(refcnt := b.refcnt + 1, status := Pending);
    PendingSet(g, j, b.(refcnt := b.refcnt + 1));
    SetTwice(p, j, b1, b.(status := Pending));
    assert b1.(refcnt := b.refcnt) == p.jobs[j] && p.jobs[j := p.jobs[j]] == p.jobs;
  }

  lemma PendingSet(g: Group, j: JobId, b: Job)
    requires j in g.txn && j in g.jobs
    ensures ToPending(Set(g, j, b)) == Set(ToPending(g), j, b.(status := Pending))
  {
    assert ToPending(Set(g, j, b)).jobs == Set(ToPending(g), j, b.(status := Pending)).jobs;
  }

  lemma WaitingReferenced(g: Group, j: JobId)
    requires j in g.jobs && g.jobs[j].refcnt >= 1
    ensures var g1 := Referenced(g, j);
      Unreferenced(Set(g1, j, g1.jobs[j].(status := Waiting)), j) == Set(g, j, g.jobs[j].(status := Waiting))
  {
    var b := g.jobs[j];
    var b1 := b.(refcnt := b.refcnt + 1, status := Waiting);
    SetTwice(g, j, b.(refcnt := b.refcnt + 1), b1);
    SetTwice(g, j, b1, b.(status := Waiting));
    assert b1.(refcnt := b.refcnt) == b.(status := Waiting);
  }

  lemma ClosedSame(g0: Group, g1: Group, g: Group, init: JobId, prep: JobId -> int)
    requires g1.txn == g0.txn && g1.calls == g0.calls && Closed(g1, g, init, prep)
    ensures Closed(g0, g, init, prep)
  {
  }

  /** Every job that was in the transaction has been aborted and cleaned, once. */
  ghost predicate AbortedAll(g0: Group, g: Group) {
    && g.calls.Keys == g0.calls.Keys
    && forall j :: j in g.calls ==> if j in g0.txn then g.calls[j] == ABORTED else j in g0.calls && g.calls[j] == g0.calls[j]
  }

  lemma AbortsAll(g0: Group, g1: Group, g: Group, init: JobId)
    requires TxnOk(g0) && TxnOk(g1) && g1.txn == g0.txn && g1.calls == g0.calls && g.calls.Keys == g1.calls.Keys
    requires init in g1.txn && Failing(g1.jobs[init])
    requires forall j :: j in g.calls ==> g.calls[j] == Outcome(g1, init, j)
    ensures AbortedAll(g0, g)
  {
  }

  /** One more job has completed without an error. */
  lemma WaitingBase(g: Group, held: multiset<JobId>, j: JobId)
    requires Base(g, held) && j in g.txn && Enabled(g.jobs[j], Exit(j)) && g.jobs[j].ret == 0
    ensures var g' := Set(g, j, g.jobs[j].(status := Waiting));
      Base(g', held) && AllAuto(g') == AllAuto(g) && AllCompleted(g') == OthersCompleted(g, j)
  {
    assert JobOk(g.jobs[j]);
    var b := g.jobs[j].(status := Waiting);
    var g' := Set(g, j, b);
    SetBase(g, held, j, b);
    assert forall k :: k in g.txn ==> g'.jobs[k].flags == g.jobs[k].flags;
    assert forall k :: k in g.txn && k != j ==> g'.jobs[k] == g.jobs[k];
  }

  lemma WaitingQuiet(g: Group, held: multiset<JobId>, j: JobId)
    requires Base(g, held) && Quiet(g) && j in g.txn
    requires Enabled(g.jobs[j], Exit(j)) && !g.jobs[j].force
    ensures var g' := Set(g, j, g.jobs[j].(status := Waiting)); Quiet(g') && (AllCompleted(g') ==> AllWaiting(g'))
  {
    forall k | k in g.txn ensures JobOk(g.jobs[k]) {}
  }

  // ----- the fate of the group ------------------------------------------------------------

  datatype Verdict = Open | AllCommitted | AllAborted | PrepareFailed(init: JobId, first: JobId)

  /** The jobs of the transaction that returned an error or were cancelled by force. */
  ghost function FailedIn(g: Group): set<JobId> {
    set j | j in g.txn && j in g.jobs && Failing(g.jobs[j])
  }

  /**
   * Until the transaction is closed no completion callback has run. It is closed for all jobs at
   * once: all are committed only if none had failed, all are aborted only if one had; and if only a
   * preparation failed, all are aborted, but for a job that asked for the finalization and was not
   * the first whose preparation failed.
   */
  ghost predicate VerdictOk(g: Group, v: Verdict, failed: set<JobId>) {
    match v
    case Open => !g.aborting && g.calls.Keys == (set j | j in g.txn) && failed == FailedIn(g)
    case AllCommitted =>
      g.txn == [] && g.calls != map[] && failed == {} && forall j :: j in g.calls ==> g.calls[j] == COMMITTED
    case AllAborted =>
      g.txn == [] && g.calls != map[] && failed != {} && forall j :: j in g.calls ==> g.calls[j] == ABORTED
    case PrepareFailed(init, first) =>
      && g.txn == [] && failed == {} && init in g.calls && first in g.calls
      && forall j :: j in g.calls ==> g.calls[j] == if j == init && j != first then COMMITTED else ABORTED
  }

  /** A change that the rest of the group does not notice, apart from whether the job has failed. */
  ghost predicate Unobtrusive(b: Job, b': Job) {
    && Discreet(b, b')
    && IsCompleted(b'.status) == IsCompleted(b.status)
    && (IsCompleted(b'.status) ==> b'.status == b.status && b'.force == b.force && b'.ret == b.ret)
    && (b'.status.Created? ==> !b'.force)
  }

  lemma SetQuiet(g: Group, held: multiset<JobId>, j: JobId, b': Job)
    requires Base(g, held) && Quiet(g) && j in g.jobs && JobOk(b') && Unobtrusive(g.jobs[j], b')
    ensures Base(Set(g, j, b'), held) && Quiet(Set(g, j, b'))
  {
    SetBase(g, held, j, b');
    var g' := Set(g, j, b');
    forall k | k in g.txn ensures Unobtrusive(g.jobs[k], g'.jobs[k]) && (k != j ==> g'.jobs[k] == g.jobs[k]) {}
  }

  lemma SetVerdict(g: Group, v: Verdict, failed: set<JobId>, j: JobId, b': Job)
    requires VerdictOk(g, v, failed) && j in g.jobs
    ensures VerdictOk(Set(g, j, b'), v, if v.Open? then FailedIn(Set(g, j, b')) else failed)
    ensures FailedIn(Set(g, j, b')) == if j in g.txn && Failing(b') then FailedIn(g) + {j} else FailedIn(g) - {j}
  {
    var g' := Set(g, j, b');
    assert forall k :: k in g.jobs && k != j ==> g'.jobs[k] == g.jobs[k];
  }

  function WithJob(g: Group, j: JobId, b: Job): Group {
    Group(g.jobs[j := b], [j] + g.txn, g.aborting, g.calls[j := NONE_CALLED])
  }

  /** A job that has just been created: paused, with one reference, and nothing done. */
  function NewJob(flags: Flags): Job {
    Job(Created, false, false, true, Pausing(1, false, IoOk, 0), false, false, 0, true, 1, flags)
  }

  /** The new job is the newest of the transaction, and nobody else is touched. */
  lemma Joined(g: Group, j: JobId, flags: Flags)
    requires j !in g.jobs
    ensures var g' := WithJob(g, j, NewJob(flags));
      && g'.txn == [j] + g.txn && g'.jobs.Keys == g.jobs.Keys + {j} && (forall k :: k in g.jobs ==> g'.jobs[k] == g.jobs[k])
      && j in g'.calls && g'.calls[j] == NONE_CALLED && g'.jobs[j].status.Created? && g'.jobs[j].flags == flags
      && g'.jobs[j].p.count == 1 && !g'.jobs[j].started && g'.jobs[j].paused && !Failing(g'.jobs[j]) && g'.jobs[j].refcnt == 1
  {
  }

  lemma CreatedBase(g: Group, j: JobId, b: Job)
    requires Base(g, multiset{}) && j !in g.jobs && JobOk(b) && RefOk(b, 0) && b.status.Created? && b.inTxn
    ensures Base(WithJob(g, j, b), multiset{})
  {
    var g' := WithJob(g, j, b);
    assert j !in g.txn;
    assert forall k :: k in g'.txn <==> k == j || k in g.txn;
  }

  lemma CreatedQuiet(g: Group, failed: set<JobId>, j: JobId, b: Job)
    requires TxnOk(g) && Quiet(g) && VerdictOk(g, Open, failed) && j !in g.jobs
    requires forall k :: k in g.txn ==> !g.jobs[k].status.Pending?
    requires b.status.Created? && !Failing(b)
    ensures Quiet(WithJob(g, j, b)) && VerdictOk(WithJob(g, j, b), Open, failed)
  {
    var g' := WithJob(g, j, b);
    assert forall k :: k in g'.txn <==> k == j || k in g.txn;
    assert FailedIn(g') == FailedIn(g);
    assert g'.calls.Keys == g.calls.Keys + {j};
  }

  lemma CreatedOk(g: Group, failed: set<JobId>, j: JobId, b: Job)
    requires Base(g, multiset{}) && Quiet(g) && VerdictOk(g, Open, failed) && j !in g.jobs
    requires forall k :: k in g.txn ==> !g.jobs[k].status.Pending?
    requires JobOk(b) && RefOk(b, 0) && b.status.Created? && b.inTxn && !Failing(b)
    ensures var g' := WithJob(g, j, b);
      Base(g', multiset{}) && Quiet(g') && VerdictOk(g', Open, failed) && CompletedStay(g, g') && Converged(g')
  {
    CreatedBase(g, j, b);
    CreatedQuiet(g, failed, j, b);
    CreatedProgress(g, j, b);
  }

  lemma DismissedOk(b: Job, held: nat)
    requires JobOk(b) && RefOk(b, held) && JobStt(b.status, Null)
    ensures var b' := DismissedJob(b); b'.refcnt == held && (held != 0 ==> JobOk(b') && RefOk(b', held))
  {
  }

  /** A dismissed job leaves the rest of the group as it was. */
  ghost predicate JustLeft(g: Group, g': Group, j: JobId) {
    && g'.aborting == g.aborting && g'.calls == g.calls && NoDup(g'.txn)
    && (forall k :: k in g'.txn <==> k in g.txn && k != j)
    && (forall k :: k in g'.jobs && k != j ==> k in g.jobs)
    && (forall k :: k in g.jobs && k != j ==> k in g'.jobs && g'.jobs[k] == g.jobs[k])
  }

  lemma DismissedLeft(g: Group, j: JobId)
    requires TxnOk(g) && j in g.jobs
    ensures JustLeft(g, Dismissed(g, j), j)
  {
  }

  lemma DismissedBase(g: Group, held: multiset<JobId>, j: JobId)
    requires Base(g, held) && j in g.jobs && JobStt(g.jobs[j].status, Null)
    ensures Base(Dismissed(g, j), held) && JustLeft(g, Dismissed(g, j), j)
  {
    DismissedLeft(g, j);
    DismissedOk(g.jobs[j], held[j]);
  }

  /** job_early_fail as a whole: the job is not counted among those of the group. */
  lemma EarlyFailOk(g: Group, failed: set<JobId>, j: JobId)
    requires Base(g, multiset{}) && Quiet(g) && VerdictOk(g, Open, failed) && j in g.jobs && g.jobs[j].status.Created?
    ensures j !in Dismissed(g, j).jobs && JustLeft(g, Dismissed(g, j), j)
    ensures var g' := Dismissed(g, j).(calls := g.calls - {j}); Base(g', multiset{}) && Quiet(g') && VerdictOk(g', Open, failed)
  {
    assert JobOk(g.jobs[j]) && RefOk(g.jobs[j], 0);
    NotFailed(g, failed, j);
    DismissedBase(g, multiset{}, j);
    DismissedQuiet(g, Dismissed(g, j), j);
    ForgottenOk(g, Dismissed(g, j), failed, j);
  }

  lemma NotFailed(g: Group, failed: set<JobId>, j: JobId)
    requires TxnOk(g) && VerdictOk(g, Open, failed) && j in g.jobs && !Failing(g.jobs[j])
    ensures failed - {j} == failed
  {
  }

  /** A job that fails before it starts is not counted among the jobs of the group. */
  lemma ForgottenOk(g: Group, g1: Group, failed: set<JobId>, j: JobId)
    requires TxnOk(g) && Base(g1, multiset{}) && Quiet(g1) && VerdictOk(g, Open, failed) && FailedIn(g1) == FailedIn(g) - {j}
    requires g1.calls == g.calls && g1.aborting == g.aborting && forall k :: k in g1.txn <==> k in g.txn && k != j
    ensures var g' := g1.(calls := g1.calls - {j}); Base(g', multiset{}) && Quiet(g') && VerdictOk(g', Open, failed - {j})
  {
    var g' := g1.(calls := g1.calls - {j});
    assert FailedIn(g') == FailedIn(g1);
  }

  lemma DismissedQuiet(g: Group, g': Group, j: JobId)
    requires TxnOk(g) && TxnOk(g') && Quiet(g) && JustLeft(g, g', j)
    ensures Quiet(g') && FailedIn(g') == FailedIn(g) - {j}
  {
    assert g'.txn != [] ==> g'.txn[0] in g.txn;
  }

  lemma ReferencedQuiet(g: Group, j: JobId)
    requires TxnOk(g) && j in g.jobs && Quiet(g)
    ensures Quiet(Referenced(g, j)) && FailedIn(Referenced(g, j)) == FailedIn(g)
    ensures OthersCompleted(Referenced(g, j), j) == OthersCompleted(g, j) && AllAuto(Referenced(g, j)) == AllAuto(g)
  {
    var g' := Referenced(g, j);
    assert forall k :: k in g.jobs && k != j ==> g'.jobs[k] == g.jobs[k];
    assert g'.jobs[j].flags == g.jobs[j].flags;
  }

  lemma UnreferencedQuiet(g: Group, held: multiset<JobId>, j: JobId)
    requires Base(g, held + multiset{j}) && j in g.jobs && Quiet(g)
    ensures Quiet(Unreferenced(g, j)) && FailedIn(Unreferenced(g, j)) == FailedIn(g)
  {
    UnreferencedBase(g, held, j);
    var g' := Unreferenced(g, j);
    forall k | k in g.txn ensures k in g'.jobs && g'.jobs[k].(refcnt := g.jobs[k].refcnt) == g.jobs[k] {}
  }

  /** Holding a reference changes nothing else. */
  lemma ReferencedValid(g: Group, v: Verdict, failed: set<JobId>, j: JobId)
    requires Base(g, multiset{}) && Quiet(g) && VerdictOk(g, v, failed) && j in g.jobs && Enabled(g.jobs[j], Exit(j))
    ensures var g' := Referenced(g, j);
      && Base(g', multiset{} + multiset{j}) && Quiet(g') && v.Open? && VerdictOk(g', Open, failed) && j in g'.txn
      && Enabled(g'.jobs[j], Exit(j)) && Failing(g'.jobs[j]) == Failing(g.jobs[j]) && g'.txn == g.txn
    ensures OthersCompleted(Referenced(g, j), j) == OthersCompleted(g, j) && AllAuto(Referenced(g, j)) == AllAuto(g)
  {
    assert JobOk(g.jobs[j]);
    ReferencedBase(g, multiset{}, j);
    ReferencedQuiet(g, j);
  }

  lemma UnreferencedValid(g: Group, v: Verdict, failed: set<JobId>, j: JobId)
    requires Base(g, multiset{} + multiset{j}) && Quiet(g) && VerdictOk(g, v, failed)
    ensures j in g.jobs && g.jobs[j].refcnt >= 1 && (g.jobs[j].refcnt == 1 ==> g.jobs[j].status.Null? && !g.jobs[j].inTxn)
    ensures Base(Unreferenced(g, j), multiset{}) && Quiet(Unreferenced(g, j)) && VerdictOk(Unreferenced(g, j), v, failed)
  {
    UnreferencedBase(g, multiset{}, j);
    UnreferencedQuiet(g, multiset{}, j);
  }

  /** How a group whose jobs have all succeeded is closed by `j`. */
  ghost function CloseOf(g: Group, j: JobId, prep: JobId -> int): Verdict {
    if AllPrepare(g, prep) then AllCommitted else PrepareFailed(j, FirstFailure(g.txn, prep))
  }

  /** What becomes of the group when `j` completes without an error. */
  ghost function SuccessVerdict(g: Group, j: JobId, prep: JobId -> int): Verdict {
    if !OthersCompleted(g, j) || !AllAuto(g) then Open else CloseOf(g, j, prep)
  }

  /** Whether a request to cancel becomes a forced one. */
  predicate Forced(b: Job, force: bool) {
    force || !IsReady(b.status)
  }

  /** Whether cancelling ends the job there and then: it was never started, or it has already returned. */
  predicate CutsShort(b: Job, force: bool) {
    !b.started || (b.deferred && (b.force || Forced(b, force)))
  }

  /** What cancelling a job that has not been concluded does to it. */
  lemma CancelKinds(g: Group, j: JobId, force: bool)
    requires Base(g, multiset{}) && Quiet(g) && j in g.jobs && !g.jobs[j].status.Concluded?
    ensures var b := g.jobs[j];
      var b' := Cancelled(b, Forced(b, force));
      && j in g.txn && JobOk(b') && Discreet(b, b')
      && (!b.started ==> b'.status.Created? && b'.force) && SameProgress(b, b')
      && (Failing(b) ==> Failing(b'))
      && (b.started && !CutsShort(b, force) ==> Unobtrusive(b, b'))
      && (b.started ==> (CutsShort(b, force) <==> b'.deferred && b'.force))
  {
    var b := g.jobs[j];
    assert JobOk(b) && RefOk(b, 0);
    CancelledOk(b, Forced(b, force));
  }

  lemma PendingTogether(g: Group, j: JobId)
    requires Base(g, multiset{}) && Quiet(g) && j in g.jobs && g.jobs[j].status.Pending?
    ensures j in g.txn && AllPending(g)
  {
    assert JobOk(g.jobs[j]);
  }

  lemma AbortVerdict(g0: Group, g: Group, failed: set<JobId>)
    requires VerdictOk(g0, Open, failed) && failed != {} && AbortedAll(g0, g) && g.txn == []
    ensures VerdictOk(g, AllAborted, failed) && Quiet(g)
  {
  }

  lemma AbortReady(g: Group, failed: set<JobId>, j: JobId, b: Job)
    requires Base(g, multiset{}) && VerdictOk(g, Open, failed) && j in g.txn && JobOk(b) && Discreet(g.jobs[j], b)
    ensures var g' := Set(g, j, b); Base(g', multiset{}) && VerdictOk(g', Open, FailedIn(g')) && j in g'.txn && g'.jobs[j] == b
    ensures Failing(b) ==> failed <= FailedIn(Set(g, j, b))
    ensures forall events :: OthersDue(Set(g, j, b), j, events) <==> OthersDue(g, j, events)
  {
    SetBase(g, multiset{}, j, b);
    SetVerdict(g, Open, failed, j, b);
  }

  lemma AbortedVerdict(g1: Group, g: Group, init: JobId)
    requires TxnOk(g1) && VerdictOk(g1, Open, FailedIn(g1)) && g.txn == [] && g.calls.Keys == g1.calls.Keys
    requires init in g1.txn && Failing(g1.jobs[init])
    requires forall j :: j in g.calls ==> g.calls[j] == Outcome(g1, init, j)
    ensures VerdictOk(g, AllAborted, FailedIn(g1)) && Quiet(g)
  {
    assert init in FailedIn(g1);
    AbortsAll(g1, g1, g, init);
    AbortVerdict(g1, g, FailedIn(g1));
  }

  lemma CloseVerdict(g0: Group, g: Group, init: JobId, prep: JobId -> int)
    requires VerdictOk(g0, Open, {}) && init in g0.txn && Closed(g0, g, init, prep) && g.txn == []
    ensures VerdictOk(g, CloseOf(g0, init, prep), {}) && Quiet(g)
  {
    assert init in g.calls;
    if !AllPrepare(g0, prep) {
      FirstFailureIn(g0.txn, prep);
    }
  }

  // ----- from one state of a group to a later one -----------------------------------------

  /** What has been closed stays closed with the same callbacks, and a job that has failed remains so. */
  ghost predicate Later(g0: Group, v0: Verdict, failed0: set<JobId>, g: Group, v: Verdict, failed: set<JobId>) {
    failed0 <= failed && (!v0.Open? ==> v == v0 && failed == failed0 && g.calls == g0.calls)
  }

  /** Who has completed stays in the transaction and completed. */
  ghost predicate CompletedStay(g0: Group, g: Group) {
    forall k :: k in g0.txn && k in g0.jobs && IsCompleted(g0.jobs[k].status) ==> k in g.txn && k in g.jobs && IsCompleted(g.jobs[k].status)
  }

  /** When all have completed, the group is not left hanging: it waits for manual finalization, which somebody has asked for. */
  ghost predicate Converged(g: Group) {
    g.txn != [] && AllCompleted(g) ==> AllPending(g) && !AllAuto(g)
  }

  ghost predicate Progress(g0: Group, g: Group, v: Verdict) {
    (v.Open? ==> CompletedStay(g0, g)) && (Converged(g0) ==> Converged(g))
  }

  lemma SetProgress(g: Group, j: JobId, b: Job)
    requires TxnOk(g) && j in g.jobs && Unobtrusive(g.jobs[j], b) && b.flags == g.jobs[j].flags
    ensures CompletedStay(g, Set(g, j, b)) && (Converged(g) ==> Converged(Set(g, j, b)))
  {
    var g' := Set(g, j, b);
    forall k | k in g.txn && k != j ensures g'.jobs[k] == g.jobs[k] {}
    assert AllCompleted(g') == AllCompleted(g);
    if AllCompleted(g) {
      assert AllPending(g') == AllPending(g) && AllAuto(g') == AllAuto(g);
    }
  }

  lemma StaysProgress(g: Group, j: JobId)
    requires TxnOk(g) && j in g.txn && !Failing(g.jobs[j]) && AllPendingOr(g, j)
    requires OthersCompleted(g, j) ==> !AllAuto(g)
    ensures CompletedStay(g, StaysOpen(g, j)) && Converged(StaysOpen(g, j))
  {
    var g' := StaysOpen(g, j);
    if OthersCompleted(g, j) {
      var k :| k in g.txn && k in g.jobs && !g.jobs[k].flags.autoFinalize;
      assert !g'.jobs[k].flags.autoFinalize;
    } else {
      var k :| k in g.txn && k in g.jobs && k != j && !IsCompleted(g.jobs[k].status);
      assert g'.jobs[k] == g.jobs[k];
    }
  }

  /** Nobody who has completed was cancelled by force. */
  ghost predicate AllPendingOr(g: Group, j: JobId) {
    forall k :: k in g.txn && k in g.jobs && k != j && IsCompleted(g.jobs[k].status) ==> !g.jobs[k].force
  }

  lemma ExitKeeps(g: Group, v: Verdict, failed: set<JobId>, j: JobId)
    requires Base(g, multiset{}) && Quiet(g) && VerdictOk(g, v, failed) && j in g.jobs && Enabled(g.jobs[j], Exit(j))
    ensures !Failing(g.jobs[j]) && !(OthersCompleted(g, j) && AllAuto(g)) ==> CompletedStay(g, StaysOpen(g, j)) && Converged(StaysOpen(g, j))
  {
    assert JobOk(g.jobs[j]);
    if !Failing(g.jobs[j]) && !(OthersCompleted(g, j) && AllAuto(g)) {
      StaysProgress(g, j);
    }
  }

  lemma KeysAreTxn(g: Group, v: Verdict, failed: set<JobId>)
    requires VerdictOk(g, v, failed) && v.Open?
    ensures forall j :: j in g.txn ==> j in g.calls
  {
  }

  lemma CreatedProgress(g: Group, j: JobId, b: Job)
    requires TxnOk(g) && j !in g.jobs && b.status.Created?
    ensures CompletedStay(g, WithJob(g, j, b)) && Converged(WithJob(g, j, b))
  {
    assert j in WithJob(g, j, b).txn;
  }

  lemma GoneProgress(g: Group, g': Group, j: JobId)
    requires TxnOk(g) && Gone(g, g', j) && j !in g.txn
    ensures CompletedStay(g, g') && (Converged(g) ==> Converged(g'))
  {
  }

  /** A job that fails before its start leaves the others hanging if and only if they have all completed. */
  lemma EarlyProgress(g: Group, g': Group, j: JobId)
    requires TxnOk(g) && Quiet(g) && JustLeft(g, g', j) && j in g.txn && g.jobs[j].status.Created?
    ensures CompletedStay(g, g')
    ensures Converged(g') <==> g'.txn == [] || !OthersCompleted(g, j)
  {
    assert AllCompleted(g') == OthersCompleted(g, j) by {
      forall k | k in g.txn && k != j ensures k in g'.txn && k in g'.jobs && g'.jobs[k] == g.jobs[k] {}
    }
    if g'.txn != [] && AllCompleted(g') {
      var k := g'.txn[0];
      assert k in g'.txn && k in g.txn && g'.jobs[k] == g.jobs[k];
    }
  }

  /** A job that waits for another which has not been started. */
  function Half(): Group {
    var b := Job(Waiting, true, true, false, Pausing(0, false, IoOk, 0), false, false, 0, true, 1, Flags(true, true));
    Group(map[0 := b, 1 := NewJob(Flags(true, true))], [1, 0], false, map[0 := NONE_CALLED, 1 := NONE_CALLED])
  }

  /** If the other fails before its start, the first goes on waiting for ever, although nobody is left to wait for. */
  lemma LeftHanging(g: Group)
    requires JustLeft(Half(), g, 1)
    ensures Base(Half(), multiset{}) && Quiet(Half()) && Converged(Half())
    ensures 0 in g.txn && g.jobs[0].status.Waiting? && AllCompleted(g) && AllAuto(g) && !Converged(g)
  {
    HalfBase();
    HalfQuiet();
    assert 0 in Half().txn && 0 in g.txn && g.jobs[0] == Half().jobs[0];
  }

  lemma HalfBase()
    ensures Base(Half(), multiset{})
  {
    var g := Half();
    assert JobOk(g.jobs[0]) && RefOk(g.jobs[0], 0) && JobOk(g.jobs[1]) && RefOk(g.jobs[1], 0);
  }

  lemma HalfQuiet()
    ensures Quiet(Half()) && Converged(Half())
  {
    assert 1 in Half().txn && !IsCompleted(Half().jobs[1].status);
  }

  lemma NeverCommitted(g0: Group, v0: Verdict, failed0: set<JobId>, g: Group, v: Verdict, failed: set<JobId>)
    requires Later(g0, v0, failed0, g, v, failed) && TxnOk(g) && VerdictOk(g, v, failed)
    ensures forall j :: j in failed0 && j in g.calls ==> g.calls[j] == NONE_CALLED || g.calls[j] == ABORTED
  {
    forall j | j in failed0 && j in g.calls ensures g.calls[j] == NONE_CALLED || g.calls[j] == ABORTED {
      assert j in failed;
      if v.Open? {
        assert j in g.txn;
      }
    }
  }

  lemma OpenOrClosed(g: Group, v: Verdict, failed: set<JobId>)
    requires VerdictOk(g, v, failed)
    ensures v.Open? <==> g.txn != [] || g.calls == map[]
  {
    if v.Open? && g.txn == [] {
      assert g.calls.Keys == {};
    }
  }

  lemma CreatedOpen(g: Group, j: JobId)
    requires Base(g, multiset{}) && j in g.jobs
    ensures g.jobs[j].status.Created? ==> j in g.txn
  {
    assert JobOk(g.jobs[j]);
  }

  lemma Unforced(g: Group, j: JobId)
    requires Base(g, multiset{}) && Quiet(g) && j in g.jobs
    ensures g.jobs[j].status.Created? ==> !Failing(g.jobs[j])
  {
    assert JobOk(g.jobs[j]);
  }

  lemma StoredFailing(g: Group, v: Verdict, failed: set<JobId>, j: JobId)
    requires Base(g, multiset{}) && VerdictOk(g, v, failed) && j in g.jobs
    ensures v.Open? && j in g.txn && Failing(g.jobs[j]) ==> j in failed
  {
  }

  lemma EventFails(g: Group, v: Verdict, failed: set<JobId>, e: Event)
    requires Base(g, multiset{}) && VerdictOk(g, v, failed) && e.job in g.jobs && Enabled(g.jobs[e.job], e) && !e.Exit?
    ensures v.Open? && e.job in g.txn && Failing(Next(g.jobs[e.job], e)) ==> e.job in failed || (e.Return? && e.ret != 0)
    ensures e.Return? ==> e.job in g.txn
  {
    assert JobOk(g.jobs[e.job]);
  }

  /** Holding a reference does not change how the group will end. */
  lemma ExitReady(g: Group, v: Verdict, failed: set<JobId>, j: JobId, prep: JobId -> int, events: seq<Event>)
    requires Base(g, multiset{}) && Quiet(g) && VerdictOk(g, v, failed) && j in g.jobs && Enabled(g.jobs[j], Exit(j))
    ensures var g' := Referenced(g, j);
      && Base(g', multiset{} + multiset{j}) && Quiet(g') && v.Open? && VerdictOk(g', Open, failed) && j in g'.txn
      && Enabled(g'.jobs[j], Exit(j)) && Failing(g'.jobs[j]) == Failing(g.jobs[j])
      && SuccessVerdict(g', j, prep) == SuccessVerdict(g, j, prep) && OthersDue(g', j, events) == OthersDue(g, j, events)
      && j in StaysOpen(g', j).jobs && Unreferenced(StaysOpen(g', j), j) == StaysOpen(g, j)
  {
    assert JobOk(g.jobs[j]) && RefOk(g.jobs[j], 0);
    StaysReferenced(g, j);
    ReferencedValid(g, v, failed, j);
    ReferencedDue(g, j, events);
  }

  lemma ReferencedDue(g: Group, j: JobId, events: seq<Event>)
    requires j in g.jobs
    ensures OthersDue(Referenced(g, j), j, events) <==> OthersDue(g, j, events)
  {
    var g' := Referenced(g, j);
    assert forall k :: k in g.jobs && k != j ==> g'.jobs[k] == g.jobs[k];
  }

  /** Nothing has changed but that the job is not there any more. */
  ghost predicate Gone(g: Group, g': Group, j: JobId) {
    g'.calls == g.calls && g'.txn == g.txn && g'.aborting == g.aborting && g'.jobs == g.jobs - {j}
  }

  /** Cancelling the job ends the whole group. */
  ghost predicate EndsGroup(b: Job, force: bool) {
    !b.status.Concluded? && CutsShort(b, force)
  }

  /** Whether the group can be torn down for `j`: one that was not started completes at once. */
  ghost predicate EveryoneDue(g: Group, j: JobId, events: seq<Event>)
    requires j in g.jobs
  {
    OthersDue(g, j, events) && (!g.jobs[j].started || Due(g.jobs[j], j, events))
  }

  /** What can be done with the jobs of a group from outside, and what they do. */
  datatype Operation =
    | Creation(job: JobId, flags: Flags)
    | Start(job: JobId)
    | EarlyFailure(job: JobId)
    | Happens(job: JobId, event: Event)
    | UserPauses(job: JobId)
    | UserResumes(job: JobId)
    | Exits(job: JobId, prep: JobId -> int, events: seq<Event>)
    | Cancels(job: JobId, force: bool, driverForces: bool, prep: JobId -> int, events: seq<Event>)
    | Finalizes(job: JobId, prep: JobId -> int)
    | Dismisses(job: JobId)

  function PausedByUser(b: Job): Job {
    b.(p := b.p.(user := true, count := b.p.count + 1))
  }

  function StartedJob(b: Job): Job {
    b.(started := true, paused := false, status := Running, p := b.p.(count := b.p.count - 1))
  }

  /** What an operation makes of the group and its verdict; one that does not apply changes nothing. */
  ghost predicate Performed(op: Operation, g0: Group, v0: Verdict, g: Group, v: Verdict) {
    match op
    case Creation(j, flags) =>
      v == v0 && g == if j !in g0.jobs && v0.Open? && !SomePending(g0) then WithJob(g0, j, NewJob(flags)) else g0
    case Start(j) => v == v0 && g == if j in g0.jobs && g0.jobs[j].status.Created? then Set(g0, j, StartedJob(g0.jobs[j])) else g0
    case EarlyFailure(j) =>
      v == v0 && if j in g0.jobs && g0.jobs[j].status.Created? then JustLeft(g0, g.(calls := g0.calls), j) && j !in g.jobs else g == g0
    case Happens(j, e) =>
      v == v0 && g == if j in g0.jobs && e.job == j && Enabled(g0.jobs[j], e) && !e.Exit? then Set(g0, j, Next(g0.jobs[j], e)) else g0
    case UserPauses(j) =>
      v == v0 && g == if j in g0.jobs && VerbAllowed(VerbPause, g0.jobs[j].status) && !g0.jobs[j].p.user
                      then Set(g0, j, PausedByUser(g0.jobs[j])) else g0
    case UserResumes(j) =>
      v == v0 && g == if j in g0.jobs && VerbAllowed(VerbResume, g0.jobs[j].status) && g0.jobs[j].p.user
                      then Set(g0, j, g0.jobs[j].(p := Released(g0.jobs[j].p))) else g0
    case Exits(j, prep, _) =>
      if j in g0.jobs && Enabled(g0.jobs[j], Event.Exit(j))
      then v == (if Failing(g0.jobs[j]) then AllAborted else SuccessVerdict(g0, j, prep)) && (v.Open? ==> g == StaysOpen(g0, j))
      else v == v0 && g == g0
    case Cancels(j, force, driverForces, _, _) =>
      if j !in g0.jobs then v == v0 && g == g0
      else if g0.jobs[j].status.Concluded? then v == v0 && Gone(g0, g, j)
      else if EndsGroup(g0.jobs[j], force || driverForces) then v == AllAborted
      else v == v0 && g == Set(g0, j, Cancelled(g0.jobs[j], Forced(g0.jobs[j], force || driverForces)))
    case Finalizes(j, prep) =>
      if j in g0.jobs && g0.jobs[j].status.Pending? then v == CloseOf(g0, j, prep) else v == v0 && g == g0
    case Dismisses(j) => v == v0 && if j in g0.jobs && g0.jobs[j].status.Concluded? then Gone(g0, g, j) else g == g0
  }

  /** The operation waits for ever for a job that is not going to complete. */
  ghost predicate Hangs(op: Operation, g: Group) {
    match op
    case Exits(j, _, events) => j in g.jobs && Enabled(g.jobs[j], Event.Exit(j)) && Failing(g.jobs[j]) && !OthersDue(g, j, events)
    case Cancels(j, force, driverForces, _, events) =>
      j in g.jobs && EndsGroup(g.jobs[j], force || driverForces) && !EveryoneDue(g, j, events)
    case _ => false
  }

  ghost predicate SomePending(g: Group) {
    exists k :: k in g.txn && k in g.jobs && g.jobs[k].status.Pending?
  }

  // ----- operations on one job ------------------------------------------------------------

  /** job_state_transition (job.c:179-192); the table entry is its assertion. */
  method Transition(b: Job, s1: Status) returns (b': Job)
    requires JobStt(b.status, s1)
    ensures b' == b.(status := s1)
  {
    b' := b.(status := s1);
  }

  /** job_update_rc (job.c:662-673). */
  method UpdateRc(b: Job) returns (b': Job)
    requires b.ret != 0 || b.force ==> JobStt(b.status, Aborting)
    ensures b' == Rc(b)
  {
    b' := b;
    if b'.ret == 0 && b'.force {
      b' := b'.(ret := -ECANCELED);
    }
    if b'.ret != 0 {
      b' := Transition(b', Aborting);
    }
  }

  /** job_pause and job_resume (job.c:566-584); entering the coroutine is the event Wake. */
  method Pause(p: Pausing) returns (p': Pausing)
    ensures p' == p.(count := p.count + 1)
  {
    p' := p.(count := p.count + 1);
  }

  method Resume(p: Pausing) returns (p': Pausing)
    requires p.count > 0
    ensures p' == p.(count := p.count - 1)
  {
    p' := p.(count := p.count - 1);
  }

  /** block_job_iostatus_reset (blockjob.c:501-509), through block_job_user_resume. */
  method IoStatusReset(p: Pausing) returns (p': Pausing)
    requires !p.io.IoOk? ==> p.user && p.count > 0
    ensures p' == p.(io := IoOk)
  {
    p' := p;
    if !p.io.IoOk? {
      p' := p.(io := IoOk);
    }
  }

  /** The part of job_cancel_async and job_user_resume that takes a user's pause back (job.c:615-619, 743-751). */
  method Release(p: Pausing, ghost started: bool) returns (p': Pausing)
    requires PauseOk(p, started)
    ensures p' == Released(p) && PauseOk(p', started)
  {
    p' := p;
    if p'.user {
      p' := IoStatusReset(p');
      p' := p'.(user := false);
      p' := Resume(p');
    }
  }

  /** job_cancel_async (job.c:733-765); `driverForces` is the driver's wish for a soft cancel of a ready job. */
  method CancelAsync(b: Job, force: bool, driverForces: bool) returns (b': Job)
    requires PauseOk(b.p, b.started)
    ensures b' == Cancelled(b, force || !IsReady(b.status) || driverForces)
  {
    var f := force || !IsReady(b.status) || driverForces;
    var p := Release(b.p, b.started);
    b' := b.(p := p);
    if f || !b'.deferred {
      b' := b'.(cancelled := true, force := b'.force || f);
    }
  }

  /** job_pause_point up to its yield (job.c:497-526). */
  method EnterPausePoint(b: Job) returns (b': Job)
    requires JobOk(b) && Enabled(b, PausePoint(0))
    ensures b' == Next(b, PausePoint(0))
  {
    b' := b;
    if b.p.count > 0 && !b.force {
      b' := Transition(b, if b.status == Ready then Standby else Paused);
      b' := b'.(paused := true);
    }
  }

  /** job_pause_point after its yield. */
  method LeavePausePoint(b: Job) returns (b': Job)
    requires JobOk(b) && Enabled(b, Wake(0))
    ensures b' == Next(b, Wake(0))
  {
    b' := b.(paused := false);
    b' := Transition(b', if b.status == Standby then Ready else Running);
  }

  /** block_job_error_action and block_job_iostatus_set_err (blockjob.c:351-357, 518-557). */
  method ErrorAction(p: Pausing, noSpace: bool) returns (p': Pausing)
    ensures p' == Stopped(p, noSpace)
  {
    p' := p;
    if !p'.user {
      p' := Pause(p');
      p' := p'.(user := true);
    }
    if p'.io.IoOk? {
      p' := p'.(io := if noSpace then IoNoSpace else IoFailed);
    }
  }

  /** Any event but an exit; the drained sections are child_job_drained_begin and _end (blockjob.c:102-134). */
  method Happen(b: Job, e: Event) returns (b': Job)
    requires JobOk(b) && Enabled(b, e) && !e.Exit?
    ensures b' == Next(b, e)
  {
    match e
    case PausePoint(_) => b' := EnterPausePoint(b);
    case Wake(_) => b' := LeavePausePoint(b);
    case BecomeReady(_) => b' := Transition(b, Ready);
    case Return(_, ret) => b' := b.(ret := ret, deferred := true);
    case IoError(_, stop, noSpace) =>
      b' := b;
      if stop {
        var p := ErrorAction(b.p, noSpace);
        b' := b.(p := p);
      }
    case DrainBegin(_) =>
      var p := Pause(b.p);
      b' := b.(p := p.(drains := b.p.drains + 1));
    case DrainEnd(_) =>
      var p := Resume(b.p);
      b' := b.(p := p.(drains := b.p.drains - 1));
  }

  /** job_start (job.c:971-981). */
  method StartJob(b: Job) returns (b': Job)
    requires JobOk(b) && b.status.Created?
    ensures b' == b.(started := true, p := b.p.(count := b.p.count - 1), paused := false, status := Running)
    ensures JobOk(b') && Discreet(b, b')
  {
    assert !b.started && b.paused;
    b' := b.(started := true, p := b.p.(count := b.p.count - 1), paused := false);
    b' := Transition(b', Running);
  }

  /** job_user_pause (job.c:586-597). */
  method UserPause(b: Job) returns (ok: bool, b': Job)
    requires JobOk(b)
    ensures ok <==> VerbAllowed(VerbPause, b.status) && !b.p.user
    ensures b' == if ok then b.(p := b.p.(user := true, count := b.p.count + 1)) else b
    ensures JobOk(b') && Discreet(b, b')
  {
    if !VerbAllowed(VerbPause, b.status) || b.p.user {
      return false, b;
    }
    var p := Pause(b.p.(user := true));
    ok, b' := true, b.(p := p);
  }

  /** job_user_resume (job.c:604-620): the test of the pause count is redundant. */
  method UserResume(b: Job) returns (ok: bool, b': Job)
    requires JobOk(b)
    ensures ok <==> VerbAllowed(VerbResume, b.status) && b.p.user
    ensures b' == if ok then b.(p := Released(b.p)) else b
    ensures JobOk(b') && Discreet(b, b')
  {
    if !b.p.user || b.p.count <= 0 {
      return false, b;
    }
    if !VerbAllowed(VerbResume, b.status) {
      return false, b;
    }
    var p := Release(b.p, b.started);
    ok, b' := true, b.(p := p);
  }

  /** The completion callbacks and the conclusion (job.c:706-729, 654-660). */
  method FinishJob(b: Job, calls: Calls) returns (b': Job, calls': Calls)
    requires Finalizable(b) && calls == NONE_CALLED
    ensures b' == Rc(b).(inTxn := false, status := Concluded) && calls' == CallsFor(b)
  {
    b' := UpdateRc(b);
    if b'.ret == 0 {
      calls' := calls.(commit := calls.commit + 1);
    } else {
      calls' := calls.(abort := calls.abort + 1);
    }
    calls' := calls'.(clean := calls'.clean + 1);
    b' := b'.(inTxn := false);
    b' := Transition(b', Concluded);
  }

  // ----- the group ------------------------------------------------------------------------

  class JobGroup {
    var g: Group
    /** How the transaction ended, and which jobs had failed by then. */
    ghost var verdict: Verdict
    ghost var failed: set<JobId>

    ghost predicate Valid()
      reads this
    {
      Base(g, multiset{}) && Quiet(g) && VerdictOk(g, verdict, failed)
    }

    constructor ()
      ensures Valid() && g == Group(map[], [], false, map[]) && verdict == Open
    {
      g := Group(map[], [], false, map[]);
      verdict, failed := Open, {};
    }

    /** job_unref (job.c:382-402): a job is freed only in the null state and outside any transaction. */
    method Unref(j: JobId)
      requires j in g.jobs && g.jobs[j].refcnt >= 1
      requires g.jobs[j].refcnt == 1 ==> g.jobs[j].status == Null && !g.jobs[j].inTxn
      modifies this`g
      ensures g == Unreferenced(old(g), j)
    {
      var n := g.jobs[j].refcnt - 1;
      if n == 0 {
        g := g.(jobs := g.jobs - {j});
      } else {
        g := Set(g, j, g.jobs[j].(refcnt := n));
      }
    }

    /** job_do_dismiss (job.c:622-633). */
    method DoDismiss(j: JobId)
      requires j in g.jobs && JobStt(g.jobs[j].status, Null) && g.jobs[j].refcnt >= 1
      modifies this`g
      ensures g == Dismissed(old(g), j)
    {
      var b := g.jobs[j].(paused := false, deferred := true);
      if b.inTxn {
        b := b.(inTxn := false);
        g := g.(txn := Without(g.txn, j));
      }
      b := Transition(b, Null);
      ghost var g1 := g;
      g := Set(g, j, b);
      Unref(j);
      SetDrop(g1, j, b);
      SetTwice(g1, j, b, b.(refcnt := b.refcnt - 1));
    }

    /** job_finalize_single (job.c:701-731), with the driver's callbacks counted. */
    method FinalizeSingle(j: JobId)
      requires j in g.jobs && g.jobs[j].inTxn && g.jobs[j].refcnt >= 1 && Finalizable(g.jobs[j])
      requires j in g.calls && g.calls[j] == NONE_CALLED
      modifies this`g
      ensures g == Finalized(old(g), j)
    {
      var b, c := FinishJob(g.jobs[j], g.calls[j]);
      ghost var g1 := g.(calls := g.calls[j := c], txn := Without(g.txn, j));
      g := Set(g.(calls := g.calls[j := c], txn := Without(g.txn, j)), j, b);
      if b.flags.autoDismiss || !b.started {
        DoDismiss(j);
        SetDrop(g1, j, b);
        SetTwice(g1, j, b, Final(old(g).jobs[j]));
      }
    }

    /** job_ref (job.c:377-380). */
    method Ref(j: JobId)
      requires j in g.jobs
      modifies this`g
      ensures g == Referenced(old(g), j)
    {
      g := Set(g, j, g.jobs[j].(refcnt := g.jobs[j].refcnt + 1));
    }

    /** An event delivered by the nested event loop; one that cannot occur is passed over. */
    method Deliver(e: Event, ghost held: multiset<JobId>, ghost init: JobId)
      requires Base(g, held) && TearingDown(g, init)
      modifies this`g
      ensures Base(g, held) && TearingDown(g, init)
      ensures g == if e.job in old(g).jobs && Enabled(old(g).jobs[e.job], e) then Set(old(g), e.job, Next(old(g).jobs[e.job], e)) else old(g)
      ensures forall j :: j in g.txn ==> Carried(old(g).jobs[j], g.jobs[j])
    {
      if e.job in g.jobs && Enabled(g.jobs[e.job], e) {
        EventKeeps(g, held, init, e);
        var b := g.jobs[e.job];
        if e.Exit? {
          // job_completed: the transaction is already aborting, so only the status changes
          b := UpdateRc(b);
        } else {
          b := Happen(b, e);
        }
        g := Set(g, e.job, b);
      }
    }

    /** job_finish_sync without a finish callback (job.c:1079-1101): wait until the job has completed. */
    method FinishSync(k: JobId, events: seq<Event>, ghost held: multiset<JobId>, ghost init: JobId)
      returns (stuck: bool, rest: seq<Event>)
      requires Base(g, held) && TearingDown(g, init) && k in g.txn
      modifies this`g
      ensures TearingDown(g, init) && Base(g, if stuck then held + multiset{k} else held)
      ensures g.txn == old(g).txn && g.calls == old(g).calls
      ensures stuck <==> !Due(old(g).jobs[k], k, events)
      ensures !stuck ==> IsCompleted(g.jobs[k].status) && DueSame(old(g), events, g, rest)
      ensures init in g.txn ==> CallsFor(g.jobs[init]) == CallsFor(old(g).jobs[init])
    {
      ReferencedBase(g, held, k);
      ReferencedTearDown(g, k, init);
      Ref(k);
      ghost var g1 := g;
      stuck, rest := Wait(k, events, held + multiset{k}, init);
      assert init in g.txn ==> Carried(g1.jobs[init], g.jobs[init]);
      if !stuck {
        UnreferencedBase(g, held, k);
        UnreferencedTearDown(g, k, init);
        WaitedDue(old(g), events, g, rest, k);
        Unref(k);
      }
    }

    /** The loop of job_finish_sync; it goes on for ever for a job that was not started. */
    method Wait(k: JobId, events: seq<Event>, ghost held: multiset<JobId>, ghost init: JobId)
      returns (stuck: bool, rest: seq<Event>)
      requires Base(g, held) && TearingDown(g, init) && k in g.txn
      modifies this`g
      ensures TearingDown(g, init) && Base(g, held)
      ensures g.txn == old(g).txn && g.calls == old(g).calls
      ensures stuck <==> !IsCompleted(g.jobs[k].status)
      ensures stuck <==> !Due(old(g).jobs[k], k, events)
      ensures DueSame(old(g), events, g, rest)
      ensures forall j {:trigger g.jobs[j]} :: j in g.txn ==> Carried(old(g).jobs[j], g.jobs[j])
    {
      ghost var g0 := g;
      rest := events;
      while !IsCompleted(g.jobs[k].status) && rest != []
        invariant TearingDown(g, init) && Base(g, held)
        invariant g.txn == g0.txn && g.calls == g0.calls
        invariant DueSame(g0, events, g, rest)
        invariant forall j :: j in g.txn ==> Carried(g0.jobs[j], g.jobs[j])
        decreases |rest|
      {
        ghost var g1, ahead := g, rest;
        Deliver(rest[0], held, init);
        EventDue(g1, g, held, init, rest);
        rest := rest[1..];
        DueTrans(g0, events, g1, ahead, g, rest);
        forall j | j in g.txn ensures Carried(g0.jobs[j], g.jobs[j]) {
          assert Carried(g0.jobs[j], g1.jobs[j]) && Carried(g1.jobs[j], g.jobs[j]);
        }
      }
      stuck := !IsCompleted(g.jobs[k].status);
      assert Due(g.jobs[k], k, rest) <==> Due(g0.jobs[k], k, events);
    }

    method CancelOther(j: JobId, ghost held: multiset<JobId>)
      requires Base(g, held) && j in g.jobs
      modifies this`g
      ensures Base(g, held) && g == Set(old(g), j, Cancelled(old(g).jobs[j], true))
    {
      CancelledOk(g.jobs[j], true);
      SetBase(g, held, j, Cancelled(g.jobs[j], true));
      var b := CancelAsync(g.jobs[j], true, false);
      g := Set(g, j, b);
    }

    /** The first loop of job_completed_txn_abort: force-cancel everybody else. */
    method CancelOthers(init: JobId, ghost held: multiset<JobId>)
      requires Base(g, held) && g.aborting && init in g.txn && Doomed(g.jobs[init], true)
      modifies this`g
      ensures Base(g, held) && TearingDown(g, init)
      ensures g.txn == old(g).txn && g.calls == old(g).calls && g.jobs[init] == old(g).jobs[init]
      ensures forall j :: j in g.txn ==> SameProgress(old(g).jobs[j], g.jobs[j])
    {
      ghost var g0 := g;
      for i := 0 to |g.txn|
        invariant Base(g, held) && CancelledUpTo(g0, g, init, i)
      {
        var j := g.txn[i];
        if j != init {
          CancelStep(g0, g, init, i);
          CancelOther(j, held);
        }
      }
    }

    /** The second loop of job_completed_txn_abort: finalize the jobs as they complete. */
    method FinalizeAll(init: JobId, events: seq<Event>, ghost held: multiset<JobId>) returns (stuck: bool)
      requires Base(g, held) && TearingDown(g, init)
      modifies this`g
      ensures stuck <==> !AllDue(old(g), events)
      ensures !stuck ==> Base(g, held) && g.txn == [] && g.aborting
      ensures !stuck ==> g.calls.Keys == old(g).calls.Keys
      ensures !stuck ==> forall j :: j in g.calls ==> g.calls[j] == Outcome(old(g), init, j)
    {
      ghost var g0 := g;
      var rest := events;
      stuck := false;
      while g.txn != []
        invariant Base(g, held) && TearingDown(g, init) && Halfway(g0, g, init)
        invariant AllDue(g0, events) <==> AllDue(g, rest)
        invariant !stuck
        decreases |g.txn|
      {
        ghost var g1, ahead := g, rest;
        stuck, rest := FinalizeFirst(rest, held, init);
        if stuck {
          assert g1.txn[0] in g1.txn;
          return;
        }
        DueFirst(g1, ahead, g, rest);
        HalfwayOn(g0, g1, g, init);
      }
    }

    /** One turn of that loop (job.c:808-819). */
    method FinalizeFirst(events: seq<Event>, ghost held: multiset<JobId>, ghost init: JobId)
      returns (stuck: bool, rest: seq<Event>)
      requires Base(g, held) && TearingDown(g, init) && g.txn != []
      modifies this`g
      ensures !stuck ==> Base(g, held) && TearingDown(g, init) && OneLess(old(g), g, init) && |g.txn| < |old(g).txn|
      ensures stuck <==> !Due(old(g).jobs[old(g).txn[0]], old(g).txn[0], events)
      ensures !stuck ==> DueSame(old(g), events, g, rest)
    {
      var k := g.txn[0];
      stuck, rest := false, events;
      if !IsCompleted(g.jobs[k].status) {
        assert JobOk(g.jobs[k]) && g.jobs[k].cancelled; // job.c:816
        stuck, rest := FinishSync(k, rest, held, init);
        if stuck {
          return;
        }
      }
      FinalizedOneLess(old(g), g, held, init);
      ghost var g1 := g;
      FinalizeSingle(k);
      FinalizedDue(old(g), events, g1, k, rest);
    }

    /** job_completed_txn_abort (job.c:767-831). */
    method TxnAbort(init: JobId, events: seq<Event>, ghost held: multiset<JobId>) returns (stuck: bool)
      requires Base(g, held) && !g.aborting && init in g.txn && Doomed(g.jobs[init], true)
      modifies this`g
      ensures stuck <==> !AllDue(old(g), events)
      ensures !stuck ==> Base(g, held) && g.txn == [] && g.aborting
      ensures !stuck ==> g.calls.Keys == old(g).calls.Keys
      ensures !stuck ==> forall j :: j in g.calls ==> g.calls[j] == Outcome(old(g), init, j)
    {
      ghost var g0 := g;
      g := g.(aborting := true);
      ReferencedBase(g, held, init);
      Ref(init);
      CancelOthers(init, held + multiset{init});
      OutcomeSame(g0, g, init);
      ProgressDue(g0, g, events);
      stuck := FinalizeAll(init, events, held + multiset{init});
      if !stuck {
        UnreferencedBase(g, held, init);
        Unref(init);
      }
    }

    /** job_txn_apply with job_prepare (job.c:139-172, 833-841): stops at the first job that fails to prepare. */
    method PrepareAll(prep: JobId -> int, ghost held: multiset<JobId>) returns (failed: bool)
      requires Base(g, held) && AllPending(g)
      modifies this`g
      ensures !failed <==> AllPrepare(old(g), prep)
      ensures !failed ==> g == old(g)
      ensures failed ==> Base(g, held) && AllCompleted(g) && PreparedUpTo(old(g), g, prep)
      ensures failed ==> forall k :: k in g.txn ==> Doomed(g.jobs[k], true)
    {
      ghost var g0 := g;
      for i := 0 to |g.txn|
        invariant g == g0
        invariant forall k :: 0 <= k < i ==> prep(g.txn[k]) == 0
      {
        var j := g.txn[i];
        failed := PrepareJob(j, prep(j), held);
        if failed {
          FirstFailureAt(g0.txn, prep, i);
          return;
        }
      }
      failed := false;
    }

    /** job_prepare (job.c:833-841). */
    method PrepareJob(j: JobId, ret: int, ghost held: multiset<JobId>) returns (failed: bool)
      requires Base(g, held) && AllPending(g) && j in g.txn
      modifies this`g
      ensures failed <==> ret != 0
      ensures g == if failed then Set(old(g), j, Prepared(old(g).jobs[j], ret)) else old(g)
      ensures failed ==> Base(g, held) && AllCompleted(g) && forall k :: k in g.txn ==> Doomed(g.jobs[k], true)
    {
      assert JobOk(g.jobs[j]);
      var b := g.jobs[j];
      if b.ret == 0 {
        b := UpdateRc(b.(ret := ret));
      }
      failed := b.ret != 0;
      if failed {
        PreparedBase(g, held, j, ret);
      } else {
        assert g.jobs[j := b] == g.jobs;
      }
      g := Set(g, j, b);
    }

    /** job_txn_apply with job_finalize_single on a transaction all of whose jobs are prepared. */
    method CommitAll(ghost held: multiset<JobId>)
      requires Base(g, held) && AllPending(g)
      modifies this`g
      ensures Base(g, held) && g.txn == [] && g.aborting == old(g).aborting && Committing(old(g), g)
    {
      ghost var g0 := g;
      while g.txn != []
        invariant Base(g, held) && AllPending(g) && g.aborting == g0.aborting && Committing(g0, g)
        decreases |g.txn|
      {
        PendingFinalizable(g, held, g.txn[0]);
        CommittingOn(g0, g, g.txn[0]);
        FinalizeSingle(g.txn[0]);
      }
    }

    /** job_do_finalize (job.c:848-860). */
    method DoFinalize(j: JobId, prep: JobId -> int, ghost held: multiset<JobId>)
      requires Base(g, held) && !g.aborting && j in g.txn && AllPending(g)
      modifies this`g
      ensures Base(g, held) && g.txn == []
      ensures AllPrepare(old(g), prep) ==> g.aborting == old(g).aborting && Committing(old(g), g)
      ensures !AllPrepare(old(g), prep) ==> RolledBack(old(g), g, j, FirstFailure(old(g).txn, prep))
    {
      ghost var g0 := g;
      ReferencedBase(g, held, j);
      Ref(j);
      ghost var held1, g1 := held + multiset{j}, g;
      var failed := PrepareAll(prep, held1);
      if failed {
        ghost var g2 := g;
        CompletedDue(g);
        var stuck := TxnAbort(j, [], held1);
        InitiatorKept(g1, g2, held1, j, prep);
        RollsBack(g0, g2, g, j, FirstFailure(g0.txn, prep));
      } else {
        CommitAll(held1);
      }
      UnreferencedBase(g, held, j);
      Unref(j);
    }

    /** job_completed_txn_success after the job has been set to waiting: has everybody completed? */
    method OthersRunning() returns (running: bool)
      requires CompletedClean(g)
      ensures running <==> !AllCompleted(g)
    {
      for i := 0 to |g.txn|
        invariant forall k :: 0 <= k < i ==> IsCompleted(g.jobs[g.txn[k]].status)
      {
        if !IsCompleted(g.jobs[g.txn[i]].status) {
          return true;
        }
        assert g.txn[i] in g.txn && g.jobs[g.txn[i]].ret == 0; // job.c:901
      }
      running := false;
    }

    /** job_txn_apply with job_transition_to_pending (job.c:871-878). */
    method AllToPending(ghost held: multiset<JobId>)
      requires Base(g, held) && AllWaiting(g)
      modifies this`g
      ensures Base(g, held) && AllPending(g) && AllAuto(g) == AllAuto(old(g)) && g == ToPending(old(g))
      ensures g.txn == old(g).txn && g.calls == old(g).calls && g.aborting == old(g).aborting
    {
      ghost var g0 := g;
      assert g.jobs == PendingAll(g, g.txn[..0]).jobs;
      for i := 0 to |g.txn|
        invariant Base(g, held) && PendingUpTo(g0, g, i) && g == PendingAll(g0, g0.txn[..i])
      {
        ToPendingNext(g0, i, held);
      }
      assert forall j :: j in g.txn ==> g.jobs[j].flags == g0.jobs[j].flags;
      assert g0.txn[..|g0.txn|] == g0.txn;
    }

    /** job_transition_to_pending on one job; `g0` is the group before the first. */
    method ToPendingNext(ghost g0: Group, i: nat, ghost held: multiset<JobId>)
      requires Base(g, held) && PendingUpTo(g0, g, i) && i < |g.txn| && g == PendingAll(g0, g0.txn[..i])
      modifies this`g
      ensures Base(g, held) && PendingUpTo(g0, g, i + 1) && g == PendingAll(g0, g0.txn[..i + 1])
    {
      var j := g.txn[i];
      PendingMore(g0, i);
      PendingStep(g0, g, held, i);
      var b := Transition(g.jobs[j], Pending);
      g := Set(g, j, b);
    }

    /** job_txn_apply with job_needs_finalize. */
    method NeedsFinalize() returns (manual: bool)
      requires forall j :: j in g.txn ==> j in g.jobs
      ensures manual <==> !AllAuto(g)
    {
      for i := 0 to |g.txn|
        invariant forall k :: 0 <= k < i ==> g.jobs[g.txn[k]].flags.autoFinalize
      {
        if !g.jobs[g.txn[i]].flags.autoFinalize {
          return true;
        }
      }
      manual := false;
    }

    /** job_completed_txn_success (job.c:886-910). */
    method TxnSuccess(j: JobId, prep: JobId -> int, ghost held: multiset<JobId>)
      requires Base(g, held) && Quiet(g) && !g.aborting && j in g.txn
      requires Enabled(g.jobs[j], Exit(j)) && g.jobs[j].ret == 0 && !g.jobs[j].force
      modifies this`g
      ensures Base(g, held)
      ensures g.txn == old(g).txn ==> Quiet(g) && g.calls == old(g).calls && !g.aborting && FailedIn(g) == FailedIn(old(g))
      ensures g.txn != old(g).txn ==> g.txn == [] && Closed(old(g), g, j, prep) && FailedIn(old(g)) == {}
      ensures g.txn == [] <==> OthersCompleted(old(g), j) && AllAuto(old(g))
      ensures g.txn != [] ==> g == StaysOpen(old(g), j)
      ensures OthersCompleted(old(g), j) && !AllAuto(old(g)) ==> AllPending(g)
    {
      ghost var g0 := g;
      WaitingToPending(g, j);
      WaitingBase(g, held, j);
      WaitingQuiet(g, held, j);
      SetFailed(g, j, g.jobs[j].(status := Waiting));
      var b := Transition(g.jobs[j], Waiting);
      g := Set(g, j, b);
      QuietClean(g, held);
      var running := OthersRunning();
      if !running {
        ghost var g1 := g;
        Converge(j, prep, held);
        NoneFailed(g1, held);
        if g.txn == [] {
          ClosedSame(g0, g1, g, j, prep);
        }
      }
    }

    /** The rest of it, once all have completed (job.c:904-909). */
    method Converge(j: JobId, prep: JobId -> int, ghost held: multiset<JobId>)
      requires Base(g, held) && !g.aborting && j in g.txn && AllWaiting(g)
      modifies this`g
      ensures Base(g, held)
      ensures AllAuto(old(g)) ==> g.txn == [] && Closed(old(g), g, j, prep)
      ensures !AllAuto(old(g)) ==> g.txn == old(g).txn && AllPending(g) && Quiet(g) && g.calls == old(g).calls && !g.aborting
      ensures !AllAuto(old(g)) ==> FailedIn(g) == FailedIn(old(g)) == {} && g == ToPending(old(g))
    {
      ghost var g0 := g;
      NoneFailed(g, held);
      AllToPending(held);
      NoneFailed(g, held);
      var manual := NeedsFinalize();
      if !manual {
        ghost var g1 := g;
        DoFinalize(j, prep, held);
        ClosedSame(g0, g1, g, j, prep);
      }
    }

    /** job_completed (job.c:912-923). */
    method Completed(j: JobId, prep: JobId -> int, events: seq<Event>, ghost held: multiset<JobId>) returns (stuck: bool)
      requires Base(g, held) && !g.aborting && j in g.txn && (Failing(g.jobs[j]) || Quiet(g))
      requires Enabled(g.jobs[j], Exit(j)) || (g.jobs[j].status.Created? && g.jobs[j].force)
      modifies this`g
      ensures !stuck ==> Base(g, held)
      ensures stuck <==> Failing(old(g).jobs[j]) && !OthersDue(old(g), j, events)
      ensures Failing(old(g).jobs[j]) && !stuck ==> g.txn == [] && g.aborting && AbortedAll(old(g), g)
      ensures !Failing(old(g).jobs[j]) && g.txn == old(g).txn ==>
        Quiet(g) && g.calls == old(g).calls && !g.aborting && FailedIn(g) == FailedIn(old(g))
      ensures !Failing(old(g).jobs[j]) && g.txn != old(g).txn ==> g.txn == [] && Closed(old(g), g, j, prep) && FailedIn(old(g)) == {}
      ensures !Failing(old(g).jobs[j]) ==> (g.txn == [] <==> OthersCompleted(old(g), j) && AllAuto(old(g)))
      ensures !Failing(old(g).jobs[j]) && g.txn != [] ==> g == StaysOpen(old(g), j)
    {
      assert JobOk(g.jobs[j]);
      var b := UpdateRc(g.jobs[j]);
      if b.ret != 0 {
        SetBase(g, held, j, b);
        AbortingDue(g, j, b, events);
        ghost var g0 := g;
        g := Set(g, j, b);
        ghost var g1 := g;
        stuck := TxnAbort(j, events, held);
        if !stuck {
          AbortsAll(g0, g1, g, j);
        }
      } else {
        assert b == g.jobs[j];
        TxnSuccess(j, prep, held);
        stuck := false;
      }
    }

    // ----- operations -------------------------------------------------------------------

    /** The group is as it was left by the operations before, and only further on. */
    ghost predicate Since(g0: Group, v0: Verdict, failed0: set<JobId>)
      reads this
    {
      Valid() && Later(g0, v0, failed0, g, verdict, failed)
    }

    /** And no job that has completed is left hanging that was not before. */
    ghost predicate Onward(g0: Group, v0: Verdict, failed0: set<JobId>)
      reads this
    {
      Since(g0, v0, failed0) && Progress(g0, g, verdict)
    }

    /** job_create (job.c:312-375) in the transaction; nobody may be waiting for finalization yet. */
    method Create(j: JobId, flags: Flags)
      requires Valid() && verdict.Open? && j !in g.jobs && forall k :: k in g.txn ==> !g.jobs[k].status.Pending?
      modifies this
      ensures Onward(old(g), old(verdict), old(failed)) && verdict.Open? && failed == old(failed)
      ensures g == WithJob(old(g), j, NewJob(flags))
    {
      var b := Job(Undefined, false, false, true, Pausing(1, false, IoOk, 0), false, false, 0, true, 1, flags);
      b := Transition(b, Created);
      CreatedOk(g, failed, j, b);
      g := WithJob(g, j, b);
    }

    /** A change of one job that concerns nobody else. */
    method Store(j: JobId, b: Job)
      requires Valid() && j in g.jobs && JobOk(b) && Unobtrusive(g.jobs[j], b) && (Failing(g.jobs[j]) ==> Failing(b)) && b.flags == g.jobs[j].flags
      modifies this
      ensures Onward(old(g), old(verdict), old(failed)) && g == Set(old(g), j, b) && verdict == old(verdict)
      ensures failed == if verdict.Open? && j in g.txn && Failing(b) then old(failed) + {j} else old(failed)
    {
      SetQuiet(g, multiset{}, j, b);
      SetVerdict(g, verdict, failed, j, b);
      SetProgress(g, j, b);
      g := Set(g, j, b);
      if verdict.Open? {
        failed := FailedIn(g);
      }
    }

    /** job_start (job.c:971-981). */
    method Start(j: JobId)
      requires Valid() && j in g.jobs && g.jobs[j].status.Created?
      modifies this
      ensures Onward(old(g), old(verdict), old(failed)) && verdict == old(verdict) && failed == old(failed)
      ensures g == Set(old(g), j, StartedJob(old(g).jobs[j]))
    {
      Unforced(g, j);
      var b := StartJob(g.jobs[j]);
      Store(j, b);
    }

    /** Something happens to a job on its own, outside any wait. */
    method Observe(e: Event)
      requires Valid() && e.job in g.jobs && Enabled(g.jobs[e.job], e) && !e.Exit?
      modifies this
      ensures Onward(old(g), old(verdict), old(failed)) && g == Set(old(g), e.job, Next(old(g).jobs[e.job], e)) && verdict == old(verdict)
      ensures failed == if verdict.Open? && e.Return? && e.ret != 0 then old(failed) + {e.job} else old(failed)
    {
      Unforced(g, e.job);
      NextOk(g.jobs[e.job], e);
      assert JobOk(g.jobs[e.job]);
      EventFails(g, verdict, failed, e);
      var b := Happen(g.jobs[e.job], e);
      Store(e.job, b);
    }

    /** job_user_pause and job_user_resume on a job of the group. */
    method PauseJob(j: JobId) returns (ok: bool)
      requires Valid() && j in g.jobs
      modifies this
      ensures Onward(old(g), old(verdict), old(failed)) && verdict == old(verdict) && failed == old(failed)
      ensures ok <==> VerbAllowed(VerbPause, old(g).jobs[j].status) && !old(g).jobs[j].p.user
      ensures g == if ok then Set(old(g), j, PausedByUser(old(g).jobs[j])) else old(g)
    {
      var b;
      Unforced(g, j);
      StoredFailing(g, verdict, failed, j);
      ok, b := UserPause(g.jobs[j]);
      if ok {
        Store(j, b);
      }
    }

    method ResumeJob(j: JobId) returns (ok: bool)
      requires Valid() && j in g.jobs
      modifies this
      ensures Onward(old(g), old(verdict), old(failed)) && verdict == old(verdict) && failed == old(failed)
      ensures ok <==> VerbAllowed(VerbResume, old(g).jobs[j].status) && old(g).jobs[j].p.user
      ensures g == if ok then Set(old(g), j, old(g).jobs[j].(p := Released(old(g).jobs[j].p))) else old(g)
    {
      var b;
      Unforced(g, j);
      StoredFailing(g, verdict, failed, j);
      ok, b := UserResume(g.jobs[j]);
      if ok {
        Store(j, b);
      }
    }

    /** job_early_fail (job.c:648-652): the job never becomes part of the outcome. */
    method EarlyFail(j: JobId)
      requires Valid() && verdict.Open? && j in g.jobs && g.jobs[j].status.Created?
      modifies this
      ensures Since(old(g), old(verdict), old(failed)) && j !in g.jobs && verdict.Open? && failed == old(failed)
      ensures CompletedStay(old(g), g) && (Converged(g) <==> g.txn == [] || !OthersCompleted(old(g), j))
      ensures JustLeft(old(g), g.(calls := old(g).calls), j) && g.calls == old(g).calls - {j}
    {
      assert JobOk(g.jobs[j]);
      Unforced(g, j);
      EarlyFailOk(g, failed, j);
      DoDismiss(j);
      g := g.(calls := g.calls - {j});
      EarlyProgress(old(g), g.(calls := old(g).calls), j);
    }

    /** job_dismiss (job.c:635-646). */
    method Dismiss(j: JobId) returns (ok: bool)
      requires Valid() && j in g.jobs
      modifies this
      ensures Onward(old(g), old(verdict), old(failed)) && verdict == old(verdict) && failed == old(failed) && g.calls == old(g).calls
      ensures ok <==> VerbAllowed(VerbDismiss, old(g).jobs[j].status)
      ensures if ok then Gone(old(g), g, j) else g == old(g)
    {
      ok := VerbAllowed(VerbDismiss, g.jobs[j].status);
      if ok {
        DismissConcluded(j);
      }
    }

    method DismissConcluded(j: JobId)
      requires Valid() && j in g.jobs && g.jobs[j].status.Concluded?
      modifies this`g
      ensures Valid() && Gone(old(g), g, j) && Progress(old(g), g, verdict)
    {
      assert JobOk(g.jobs[j]) && RefOk(g.jobs[j], 0);
      DismissedBase(g, multiset{}, j);
      DismissedQuiet(g, Dismissed(g, j), j);
      DoDismiss(j);
      assert g.txn == old(g).txn;
      GoneProgress(old(g), g, j);
    }

    /** job_complete (job.c:1062-1077): the driver is only told when the job is ready and not being cancelled. */
    method Complete(j: JobId, hasComplete: bool) returns (ok: bool)
      requires Valid() && j in g.jobs
      ensures ok <==> IsReady(g.jobs[j].status) && !g.jobs[j].cancelled && hasComplete
    {
      if !VerbAllowed(VerbComplete, g.jobs[j].status) {
        return false;
      }
      ok := !g.jobs[j].cancelled && hasComplete;
    }

    /**
     * job_exit (job.c:926-952): the job has returned; `events` is what a wait for the other jobs sees.
     * After a failure the wait ends if and only if everybody else is due, and then all are aborted.
     */
    method ExitJob(j: JobId, prep: JobId -> int, events: seq<Event>) returns (stuck: bool)
      requires Valid() && j in g.jobs && Enabled(g.jobs[j], Exit(j))
      modifies this
      ensures stuck <==> Failing(old(g).jobs[j]) && !OthersDue(old(g), j, events)
      ensures !stuck ==> Onward(old(g), old(verdict), old(failed)) && failed == old(failed)
      ensures !stuck ==> verdict == if Failing(old(g).jobs[j]) then AllAborted else SuccessVerdict(old(g), j, prep)
      ensures !stuck && verdict.Open? ==> g == StaysOpen(old(g), j)
      ensures !stuck ==> g.calls.Keys == old(g).calls.Keys
    {
      ExitKeeps(g, verdict, failed, j);
      stuck := ExitHolding(j, prep, events);
    }

    /** The exit while a reference keeps the job alive (job.c:932-951). */
    method ExitHolding(j: JobId, prep: JobId -> int, events: seq<Event>) returns (stuck: bool)
      requires Valid() && j in g.jobs && Enabled(g.jobs[j], Exit(j))
      modifies this
      ensures stuck <==> Failing(old(g).jobs[j]) && !OthersDue(old(g), j, events)
      ensures !stuck ==> Valid() && failed == old(failed) && old(verdict).Open?
      ensures !stuck ==> verdict == if Failing(old(g).jobs[j]) then AllAborted else SuccessVerdict(old(g), j, prep)
      ensures !stuck && verdict.Open? ==> g == StaysOpen(old(g), j)
      ensures !stuck ==> g.calls.Keys == old(g).calls.Keys
    {
      ExitReady(g, verdict, failed, j, prep, events);
      Ref(j);
      stuck := CompletedJob(j, prep, events, multiset{} + multiset{j});
      if !stuck {
        UnreferencedValid(g, verdict, failed, j);
        Unref(j);
      }
    }

    /** job_completed, with the verdict it brings. */
    method CompletedJob(j: JobId, prep: JobId -> int, events: seq<Event>, ghost held: multiset<JobId>)
      returns (stuck: bool)
      requires Base(g, held) && VerdictOk(g, Open, failed) && verdict.Open? && j in g.txn && (Failing(g.jobs[j]) || Quiet(g))
      requires Enabled(g.jobs[j], Exit(j)) || (g.jobs[j].status.Created? && g.jobs[j].force)
      modifies this
      ensures failed == old(failed)
      ensures stuck <==> Failing(old(g).jobs[j]) && !OthersDue(old(g), j, events)
      ensures !stuck ==> Base(g, held) && Quiet(g) && VerdictOk(g, verdict, failed)
      ensures !stuck ==> verdict == if Failing(old(g).jobs[j]) then AllAborted else SuccessVerdict(old(g), j, prep)
      ensures !stuck && verdict.Open? ==> g == StaysOpen(old(g), j)
      ensures !stuck ==> g.calls.Keys == old(g).calls.Keys
    {
      ghost var g1 := g;
      stuck := Completed(j, prep, events, held);
      if !stuck {
        if Failing(g1.jobs[j]) {
          assert j in failed;
          AbortVerdict(g1, g, failed);
          verdict := AllAborted;
        } else if g.txn == [] {
          CloseVerdict(g1, g, j, prep);
          verdict := CloseOf(g1, j, prep);
        }
      }
    }

    /**
     * job_cancel (job.c:983-1009). A concluded job is dismissed; a job that is still on its way is
     * marked; otherwise the transaction is aborted, if the wait for everybody ends.
     */
    method Cancel(j: JobId, force: bool, driverForces: bool, prep: JobId -> int, events: seq<Event>) returns (stuck: bool)
      requires Valid() && j in g.jobs
      modifies this
      ensures stuck <==> EndsGroup(old(g).jobs[j], force || driverForces) && !EveryoneDue(old(g), j, events)
      ensures !stuck ==> Onward(old(g), old(verdict), old(failed))
      ensures old(g).jobs[j].status.Concluded? ==> Gone(old(g), g, j) && verdict == old(verdict) && failed == old(failed)
      ensures !old(g).jobs[j].status.Concluded? && !EndsGroup(old(g).jobs[j], force || driverForces) ==>
        verdict == old(verdict) && g == Set(old(g), j, Cancelled(old(g).jobs[j], Forced(old(g).jobs[j], force || driverForces)))
      ensures EndsGroup(old(g).jobs[j], force || driverForces) && !stuck ==> verdict == AllAborted
    {
      stuck := false;
      var b := g.jobs[j];
      assert JobOk(b);
      if b.status == Concluded {
        DismissConcluded(j);
        return;
      }
      CancelKinds(g, j, force || driverForces);
      var b' := CancelAsync(b, force, driverForces);
      if !b'.started {
        stuck := FailUnstarted(j, b', prep, events);
      } else if b'.deferred && b'.force {
        stuck := AbortNow(j, b', events);
      } else {
        Store(j, b');
      }
    }

    /** A job that was not started completes with the cancellation. */
    method FailUnstarted(j: JobId, b: Job, prep: JobId -> int, events: seq<Event>) returns (stuck: bool)
      requires Valid() && verdict.Open? && j in g.txn && JobOk(b) && Discreet(g.jobs[j], b) && b.status.Created? && b.force
      modifies this
      ensures stuck <==> !OthersDue(old(g), j, events)
      ensures !stuck ==> Onward(old(g), old(verdict), old(failed)) && verdict == AllAborted
    {
      AbortReady(g, failed, j, b);
      g := Set(g, j, b);
      failed := FailedIn(g);
      stuck := CompletedJob(j, prep, events, multiset{});
    }

    /** A job that has already returned is cancelled by force: the whole transaction is aborted at once. */
    method AbortNow(j: JobId, b: Job, events: seq<Event>) returns (stuck: bool)
      requires Valid() && verdict.Open? && j in g.txn && JobOk(b) && Discreet(g.jobs[j], b) && b.force && SameProgress(g.jobs[j], b)
      modifies this
      ensures stuck <==> !AllDue(old(g), events)
      ensures !stuck ==> Onward(old(g), old(verdict), old(failed)) && verdict == AllAborted
    {
      AbortReady(g, failed, j, b);
      ghost var g0 := g;
      g := Set(g, j, b);
      ghost var g1 := g;
      ProgressDue(g0, g1, events);
      stuck := TxnAbort(j, events, multiset{});
      if !stuck {
        AbortedVerdict(g1, g, j);
        verdict, failed := AllAborted, FailedIn(g1);
      }
    }

    /** job_user_cancel (job.c:1011-1017). */
    method UserCancel(j: JobId, force: bool, driverForces: bool, prep: JobId -> int, events: seq<Event>) returns (ok: bool, stuck: bool)
      requires Valid() && j in g.jobs
      modifies this
      ensures ok <==> VerbAllowed(VerbCancel, old(g).jobs[j].status)
      ensures stuck <==> ok && EndsGroup(old(g).jobs[j], force || driverForces) && !EveryoneDue(old(g), j, events)
      ensures !stuck ==> Onward(old(g), old(verdict), old(failed))
      ensures !ok ==> g == old(g) && verdict == old(verdict) && failed == old(failed)
      ensures ok && !EndsGroup(old(g).jobs[j], force || driverForces) ==>
        verdict == old(verdict) && g == Set(old(g), j, Cancelled(old(g).jobs[j], Forced(old(g).jobs[j], force || driverForces)))
      ensures ok && EndsGroup(old(g).jobs[j], force || driverForces) && !stuck ==> verdict == AllAborted
    {
      ok, stuck := VerbAllowed(VerbCancel, g.jobs[j].status), false;
      if ok {
        stuck := Cancel(j, force, driverForces, prep, events);
      }
    }

    /** job_finalize (job.c:862-869). */
    method Finalize(j: JobId, prep: JobId -> int) returns (ok: bool)
      requires Valid() && j in g.jobs
      modifies this
      ensures Onward(old(g), old(verdict), old(failed)) && failed == old(failed)
      ensures ok <==> VerbAllowed(VerbFinalize, old(g).jobs[j].status)
      ensures ok ==> verdict == CloseOf(old(g), j, prep)
      ensures !ok ==> g == old(g) && verdict == old(verdict)
    {
      ok := VerbAllowed(VerbFinalize, g.jobs[j].status);
      if ok {
        ghost var g0 := g;
        PendingTogether(g, j);
        NoneFailed(g, multiset{});
        DoFinalize(j, prep, multiset{});
        CloseVerdict(g0, g, j, prep);
        verdict := CloseOf(g0, j, prep);
      }
    }

    // ----- whole lives of a group -------------------------------------------------------

    /** The callbacks tell whether the transaction has been closed. */
    predicate IsOpen()
      reads this
    {
      g.txn != [] || g.calls == map[]
    }

    /** One operation, if it applies. */
    method Apply(op: Operation) returns (stuck: bool)
      requires Valid()
      modifies this
      ensures !stuck ==> Since(old(g), old(verdict), old(failed)) && (!op.EarlyFailure? ==> Progress(old(g), g, verdict))
      ensures (stuck <==> Hangs(op, old(g))) && (!stuck ==> Performed(op, old(g), old(verdict), g, verdict))
    {
      stuck := false;
      if op.Creation? {
        OpenOrClosed(g, verdict, failed);
        if op.job !in g.jobs && IsOpen() && forall k :: k in g.txn ==> !g.jobs[k].status.Pending? {
          Create(op.job, op.flags);
        }
      } else if op.job in g.jobs {
        if op.Exits? || op.Cancels? || op.Finalizes? || op.Dismisses? {
          stuck := ApplyEnding(op);
        } else {
          ApplyTo(op);
        }
      }
    }

    method ApplyTo(op: Operation)
      requires Valid() && op.job in g.jobs && !op.Creation? && !op.Exits? && !op.Cancels? && !op.Finalizes? && !op.Dismisses?
      modifies this
      ensures Since(old(g), old(verdict), old(failed)) && (!op.EarlyFailure? ==> Progress(old(g), g, verdict))
      ensures Performed(op, old(g), old(verdict), g, verdict)
    {
      match op
      case Start(j) =>
        if g.jobs[j].status == Created { Start(j); }
      case EarlyFailure(j) =>
        OpenOrClosed(g, verdict, failed);
        CreatedOpen(g, j);
        if g.jobs[j].status == Created { EarlyFail(j); }
      case Happens(j, e) =>
        if e.job == j && Enabled(g.jobs[j], e) && !e.Exit? { Observe(e); }
      case UserPauses(j) => var _ := PauseJob(j);
      case UserResumes(j) => var _ := ResumeJob(j);
    }

    method ApplyEnding(op: Operation) returns (stuck: bool)
      requires Valid() && op.job in g.jobs && (op.Exits? || op.Cancels? || op.Finalizes? || op.Dismisses?)
      modifies this
      ensures !stuck ==> Since(old(g), old(verdict), old(failed)) && Progress(old(g), g, verdict)
      ensures (stuck <==> Hangs(op, old(g))) && (!stuck ==> Performed(op, old(g), old(verdict), g, verdict))
    {
      stuck := false;
      match op
      case Exits(j, prep, events) =>
        if Enabled(g.jobs[j], Event.Exit(j)) { stuck := ExitJob(j, prep, events); }
      case Cancels(j, force, driverForces, prep, events) => stuck := Cancel(j, force, driverForces, prep, events);
      case Finalizes(j, prep) => var _ := Finalize(j, prep);
      case Dismisses(j) => var _ := Dismiss(j);
    }

    /**
     * Any sequence of operations, up to the first that never returns: the callbacks of a closed
     * group never change, and a job that failed while the group was open is never committed.
     * Without early failures no group all of whose jobs have completed is left open, unless it
     * waits for manual finalization. `gs` and `vs` are the states in between.
     */
    method Live(ops: seq<Operation>) returns (stuck: bool, ghost gs: seq<Group>, ghost vs: seq<Verdict>)
      requires Valid()
      modifies this
      ensures !stuck ==> Valid() && (!old(verdict).Open? ==> verdict == old(verdict) && g.calls == old(g).calls)
      ensures !stuck ==> old(failed) <= failed && forall j :: j in old(failed) && j in g.calls ==> g.calls[j] == NONE_CALLED || g.calls[j] == ABORTED
      ensures !stuck && Converged(old(g)) && (forall op :: op in ops ==> !op.EarlyFailure?) ==> Converged(g)
      ensures !stuck ==> |gs| == |vs| == |ops| + 1 && gs[0] == old(g) && gs[|ops|] == g && vs[|ops|] == verdict
      ensures !stuck ==> forall i :: 0 <= i < |ops| ==> Performed(ops[i], gs[i], vs[i], gs[i + 1], vs[i + 1])
      ensures stuck ==> 0 < |gs| <= |ops| && Hangs(ops[|gs| - 1], gs[|gs| - 1])
    {
      stuck, gs, vs := false, [g], [verdict];
      for i := 0 to |ops|
        invariant Since(old(g), old(verdict), old(failed)) && !stuck
        invariant Converged(old(g)) && (forall op :: op in ops ==> !op.EarlyFailure?) ==> Converged(g)
        invariant |gs| == |vs| == i + 1 && gs[0] == old(g) && gs[i] == g && vs[i] == verdict
        invariant forall k :: 0 <= k < i ==> Performed(ops[k], gs[k], vs[k], gs[k + 1], vs[k + 1])
      {
        stuck := Apply(ops[i]);
        if stuck {
          return;
        }
        assert ops[i] in ops;
        gs, vs := gs + [g], vs + [verdict];
      }
      NeverCommitted(old(g), old(verdict), old(failed), g, verdict, failed);
    }

    /**
     * Every job of an open group that has not completed has returned 0 and has not been cancelled
     * by force; they exit in any order. With the last of them the group is closed by it, or all are
     * pending if somebody asks for manual finalization.
     */
    method ExitAll(order: seq<JobId>, prep: JobId -> int)
      requires Valid() && verdict.Open? && order != []
      requires Exiting(g, order)
      modifies this
      ensures Valid()
      ensures !AllAuto(old(g)) ==> verdict.Open? && g == ToPending(old(g))
      ensures AllAuto(old(g)) ==> verdict == CloseOf(old(g), order[|order| - 1], prep)
      ensures AllAuto(old(g)) && AllPrepare(old(g), prep) ==> forall j :: j in old(g).txn ==> j in g.calls && g.calls[j] == COMMITTED
    {
      WaitingLast(g, order);
      ExitOthers(order, prep);
      var stuck := ExitJob(order[|order| - 1], prep, []);
      KeysAreTxn(old(g), old(verdict), old(failed));
    }

    /** All but the last of them exit. */
    method ExitOthers(order: seq<JobId>, prep: JobId -> int)
      requires Valid() && verdict.Open? && order != [] && Exiting(g, order)
      modifies this
      ensures Valid() && verdict.Open? && g == WaitingAll(old(g), order[..|order| - 1])
    {
      ghost var g0 := g;
      assert g.jobs == WaitingAll(g, order[..0]).jobs;
      for i := 0 to |order| - 1
        invariant Valid() && verdict.Open? && g == WaitingAll(g0, order[..i])
      {
        WaitingNext(g0, order, i);
        var stuck := ExitJob(order[i], prep, []);
      }
    }
  }
}
