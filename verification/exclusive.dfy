// The exclusive-section handshake between vCPU threads (cpus-common.c:179-309).
//
// Every read or write of shared memory is one step of one thread; a run is an arbitrary
// interleaving of such steps over a fixed list of CPUs.  A condition wait releases the list
// lock, blocks until it is signalled (or wakes up spuriously), re-acquires the lock and checks
// its guard again.
module Exclusive {

  import opened Wrappers

  /** Where one vCPU thread stands.  A wait state carries whether it has been woken up. */
  datatype Pc =
    | Outside
      // cpu_exec_start, after `running` was set
    | StartRead | StartLock | StartCheck | StartIdle | StartWait(woken: bool) | StartSet | StartUnlock
    | Executing
      // cpu_exec_end, after `running` was cleared
    | EndRead | EndLock | EndCheck | EndDec | EndSignal | EndUnlock
      // start_exclusive
    | ExLock | ExIdle | ExIdleWait(woken: bool) | ExSet
    | ExScan(next: nat, count: nat) | ExMark(next: nat, count: nat) | ExPublish(count: nat)
    | ExLoop | ExWait(woken: bool) | ExUnlock
    | InExclusive
      // end_exclusive
    | FinLock | FinZero | FinBroadcast | FinUnlock

  /** Shared memory, the list lock and every thread's program counter; CPU `c` is index `c`. */
  datatype State = State(
    pending: int,
    lock: Option<nat>,
    running: seq<bool>,
    waiter: seq<bool>,
    pc: seq<Pc>)

  ghost predicate WellFormed(s: State) {
    |s.running| == |s.pc| && |s.waiter| == |s.pc|
  }

  ghost predicate Init(s: State) {
    && WellFormed(s)
    && s.pending == 0
    && s.lock == None
    && forall c :: 0 <= c < |s.pc| ==> s.pc[c] == Outside && !s.running[c] && !s.waiter[c]
  }

  // ----- steps --------------------------------------------------------------------------

  ghost function Goto(s: State, c: nat, pc: Pc): State
    requires c < |s.pc|
  {
    s.(pc := s.pc[c := pc])
  }

  /** Blocks (None) while another thread holds the list lock. */
  ghost function Acquire(s: State, c: nat, pc: Pc): Option<State>
    requires c < |s.pc|
  {
    if s.lock == None then Some(Goto(s, c, pc).(lock := Some(c))) else None
  }

  ghost function Release(s: State, c: nat, pc: Pc): State
    requires c < |s.pc|
  {
    Goto(s, c, pc).(lock := None)
  }

  /** qemu_cond_broadcast(&exclusive_resume): every thread blocked in exclusive_idle wakes up. */
  ghost function WakeResume(pc: Pc): Pc {
    match pc
    case StartWait(_) => StartWait(true)
    case ExIdleWait(_) => ExIdleWait(true)
    case _ => pc
  }

  ghost function WakeAll(pcs: seq<Pc>): (r: seq<Pc>)
    ensures |r| == |pcs|
  {
    seq(|pcs|, i requires 0 <= i < |pcs| => WakeResume(pcs[i]))
  }

  /** qemu_cond_signal(&exclusive_cond): one blocked waiter, if there is any, wakes up. */
  ghost predicate Signal(s: State, s': State, c: nat, pc: Pc)
    requires c < |s.pc|
  {
    || (exists w :: 0 <= w < |s.pc| && w != c && BlockedForCpus(s.pc[w])
         && s' == Goto(Goto(s, w, ExWait(true)), c, pc))
    || ((forall w :: 0 <= w < |s.pc| && w != c ==> !BlockedForCpus(s.pc[w])) && s' == Goto(s, c, pc))
  }

  /** cpu_exec_start from its first store on (cpus-common.c:242-274). */
  ghost function ExecStartNext(s: State, c: nat): Option<State>
    requires WellFormed(s) && c < |s.pc|
  {
    match s.pc[c]
    case StartRead => Some(Goto(s, c, if s.pending != 0 then StartLock else Executing))
    case StartLock => Acquire(s, c, StartCheck)
    case StartCheck =>
      if s.waiter[c] then Some(Goto(s, c, StartUnlock))
      else Some(Goto(s, c, StartIdle).(running := s.running[c := false]))
    case StartIdle => Some(if s.pending != 0 then Release(s, c, StartWait(false)) else Goto(s, c, StartSet))
    case StartWait(woken) => if woken then Acquire(s, c, StartIdle) else Some(Goto(s, c, StartWait(true))) // spurious
    case StartSet => Some(Goto(s, c, StartUnlock).(running := s.running[c := true]))
    case StartUnlock => Some(Release(s, c, Executing))
    case _ => None
  }

  /** cpu_exec_end (cpus-common.c:277-309), except for the signal it may send. */
  ghost function ExecEndNext(s: State, c: nat): Option<State>
    requires WellFormed(s) && c < |s.pc|
  {
    match s.pc[c]
    case Executing => Some(Goto(s, c, EndRead).(running := s.running[c := false]))
    case EndRead => Some(Goto(s, c, if s.pending != 0 then EndLock else Outside))
    case EndLock => Acquire(s, c, EndCheck)
    case EndCheck =>
      if s.waiter[c] then Some(Goto(s, c, EndDec).(waiter := s.waiter[c := false]))
      else Some(Goto(s, c, EndUnlock))
    case EndDec => Some(Goto(s, c, EndSignal).(pending := s.pending - 1))
    case EndSignal => Some(Goto(s, c, EndUnlock))
    case EndUnlock => Some(Release(s, c, Outside))
    case _ => None
  }

  /** start_exclusive up to the published count (cpus-common.c:195-212). */
  ghost function AnnounceNext(s: State, c: nat): Option<State>
    requires WellFormed(s) && c < |s.pc|
  {
    match s.pc[c]
    case ExLock => Acquire(s, c, ExIdle)
    case ExIdle => Some(if s.pending != 0 then Release(s, c, ExIdleWait(false)) else Goto(s, c, ExSet))
    case ExIdleWait(woken) => if woken then Acquire(s, c, ExIdle) else Some(Goto(s, c, ExIdleWait(true))) // spurious
    case ExSet => Some(Goto(s, c, ExScan(0, 0)).(pending := 1))
    case ExScan(k, n) =>
      Some(if k >= |s.pc| then Goto(s, c, ExPublish(n))
           else if s.running[k] then Goto(s, c, ExMark(k, n))
           else Goto(s, c, ExScan(k + 1, n)))
    case ExMark(k, n) =>
      if k < |s.pc| then Some(Goto(s, c, ExScan(k + 1, n + 1)).(waiter := s.waiter[k := true])) else None
    case ExPublish(n) => Some(Goto(s, c, ExLoop).(pending := n + 1))
    case _ => None
  }

  /** The wait for running CPUs, the section itself and end_exclusive (cpus-common.c:213-234). */
  ghost function SectionNext(s: State, c: nat): Option<State>
    requires WellFormed(s) && c < |s.pc|
  {
    match s.pc[c]
    case ExLoop => Some(if s.pending > 1 then Release(s, c, ExWait(false)) else Goto(s, c, ExUnlock))
    case ExWait(woken) => if woken then Acquire(s, c, ExLoop) else Some(Goto(s, c, ExWait(true))) // spurious
    case ExUnlock => Some(Release(s, c, InExclusive))
    case InExclusive => Some(Goto(s, c, FinLock))
    case FinLock => Acquire(s, c, FinZero)
    case FinZero => Some(Goto(s, c, FinBroadcast).(pending := 0))
    case FinBroadcast => Some(Goto(s.(pc := WakeAll(s.pc)), c, FinUnlock))
    case FinUnlock => Some(Release(s, c, Outside))
    case _ => None
  }

  ghost predicate ExecStartStep(s: State, s': State, c: nat)
    requires WellFormed(s) && c < |s.pc|
  {
    ExecStartNext(s, c) == Some(s')
  }

  /** The last decrement signals a blocked start_exclusive (cpus-common.c:304-306). */
  ghost predicate ExecEndStep(s: State, s': State, c: nat)
    requires WellFormed(s) && c < |s.pc|
  {
    if s.pc[c].EndSignal? && s.pending == 1 then Signal(s, s', c, EndUnlock) else ExecEndNext(s, c) == Some(s')
  }

  ghost predicate AnnounceStep(s: State, s': State, c: nat)
    requires WellFormed(s) && c < |s.pc|
  {
    AnnounceNext(s, c) == Some(s')
  }

  ghost predicate SectionStep(s: State, s': State, c: nat)
    requires WellFormed(s) && c < |s.pc|
  {
    SectionNext(s, c) == Some(s')
  }

  /** From outside, a thread enters cpu_exec (its first store sets `running`) or start_exclusive. */
  ghost predicate EnterStep(s: State, s': State, c: nat)
    requires WellFormed(s) && c < |s.pc|
  {
    && s.pc[c] == Outside
    && (s' == Goto(s, c, StartRead).(running := s.running[c := true]) || s' == Goto(s, c, ExLock))
  }

  /** One atomic step of thread `c`. */
  ghost predicate Step(s: State, s': State, c: nat)
    requires WellFormed(s) && c < |s.pc|
  {
    || EnterStep(s, s', c)
    || ExecStartStep(s, s', c)
    || ExecEndStep(s, s', c)
    || AnnounceStep(s, s', c)
    || SectionStep(s, s', c)
  }

  /** A finite run: `who[i]` takes the step from `states[i]` to `states[i + 1]`. */
  ghost predicate Run(states: seq<State>, who: seq<nat>) {
    && |states| == |who| + 1
    && Init(states[0])
    && forall i :: 0 <= i < |who| ==> RunStep(states, who, i)
  }

  ghost predicate RunStep(states: seq<State>, who: seq<nat>, i: nat)
    requires |states| == |who| + 1 && i < |who|
  {
    WellFormed(states[i]) && who[i] < |states[i].pc| && Step(states[i], states[i + 1], who[i])
  }

  // ----- counting -----------------------------------------------------------------------

  ghost function Count(b: seq<bool>): nat {
    if b == [] then 0 else Count(b[..|b| - 1]) + if b[|b| - 1] then 1 else 0
  }

  lemma {:induction false} CountUpdate(b: seq<bool>, i: nat, v: bool)
    requires i < |b|
    ensures Count(b[i := v]) == Count(b) - (if b[i] then 1 else 0) + (if v then 1 else 0)
  {
    var last := |b| - 1;
    var b' := b[i := v];
    if i == last {
      assert b'[..last] == b[..last];
    } else {
      CountUpdate(b[..last], i, v);
      assert b'[..last] == b[..last][i := v];
    }
  }

  lemma {:induction false} CountZero(b: seq<bool>)
    ensures Count(b) == 0 <==> forall i :: 0 <= i < |b| ==> !b[i]
  {
    if b != [] {
      var last := |b| - 1;
      CountZero(b[..last]);
      if Count(b) == 0 {
        forall i | 0 <= i < |b| ensures !b[i] {
          if i < last { assert !b[..last][i]; }
        }
      } else if Count(b[..last]) != 0 {
        var i :| 0 <= i < last && b[..last][i];
        assert b[i];
      }
    }
  }

  // ----- the invariant ------------------------------------------------------------------

  ghost predicate HoldsLock(pc: Pc) {
    pc.StartCheck? || pc.StartIdle? || pc.StartSet? || pc.StartUnlock? || pc.EndCheck? || pc.EndDec?
    || pc.EndSignal? || pc.EndUnlock? || pc.ExIdle? || pc.ExSet? || pc.ExScan? || pc.ExMark?
    || pc.ExPublish? || pc.ExLoop? || pc.ExUnlock? || pc.FinZero? || pc.FinBroadcast? || pc.FinUnlock?
  }

  ghost predicate IsRunning(pc: Pc) {
    pc.StartRead? || pc.StartLock? || pc.StartCheck? || pc.StartUnlock? || pc.Executing?
  }

  /** From the store `pending_cpus = 1` to the store `pending_cpus = 0`. */
  ghost predicate Owns(pc: Pc) {
    pc.ExScan? || pc.ExMark? || pc.ExPublish? || pc.ExLoop? || pc.ExWait? || pc.ExUnlock?
    || pc.InExclusive? || pc.FinLock? || pc.FinZero?
  }

  ghost predicate Scanning(pc: Pc) { pc.ExScan? || pc.ExMark? || pc.ExPublish? }

  /** The owner has left its wait loop: nobody else may be executing. */
  ghost predicate Alone(pc: Pc) { pc.ExUnlock? || pc.InExclusive? || pc.FinLock? || pc.FinZero? }

  /** The only places a CPU with `has_waiter` can be: on its way to the decrement. */
  ghost predicate Marked(pc: Pc) {
    IsRunning(pc) || pc.EndRead? || pc.EndLock? || pc.EndCheck?
  }

  /** A CPU the scan has passed over is kept from executing. */
  ghost predicate Quiet(pc: Pc) { !pc.Executing? && !pc.StartUnlock? && !pc.StartSet? }

  ghost predicate Decrementing(s: State) {
    s.lock.Some? && s.lock.value < |s.pc| && s.pc[s.lock.value].EndDec?
  }

  ghost predicate Signalling(s: State) {
    s.lock.Some? && s.lock.value < |s.pc| && s.pc[s.lock.value].EndSignal?
  }

  ghost predicate Broadcasting(s: State) {
    s.lock.Some? && s.lock.value < |s.pc| && s.pc[s.lock.value].FinBroadcast?
  }

  ghost predicate BlockedForResume(pc: Pc) {
    (pc.StartWait? || pc.ExIdleWait?) && !pc.woken
  }

  ghost predicate BlockedForCpus(pc: Pc) {
    pc.ExWait? && !pc.woken
  }

  /** How many CPUs the scan has dealt with. */
  ghost function Scanned(s: State, t: nat): nat
    requires t < |s.pc|
  {
    match s.pc[t] case ExScan(k, _) => k case ExMark(k, _) => k case _ => |s.pc|
  }

  ghost function ScanLimit(s: State, owner: Option<nat>): nat {
    if owner.Some? && owner.value < |s.pc| then Scanned(s, owner.value) else 0
  }

  /** The owner has seen `c` running and is about to set its `has_waiter`. */
  ghost predicate Marking(s: State, owner: Option<nat>, c: nat) {
    owner.Some? && owner.value < |s.pc| && s.pc[owner.value].ExMark? && s.pc[owner.value].next == c
  }

  /** What is always true of CPU `c` alone. */
  ghost predicate Local(s: State, owner: Option<nat>, c: nat)
    requires WellFormed(s) && c < |s.pc|
  {
    var pc := s.pc[c];
    && (HoldsLock(pc) <==> s.lock == Some(c))
    && (Owns(pc) <==> owner == Some(c))
    && (IsRunning(pc) <==> s.running[c])
    && (s.waiter[c] ==> Marked(pc) && c < ScanLimit(s, owner))
    && (!s.waiter[c] && c < ScanLimit(s, owner) ==> Quiet(pc))
    && (Marking(s, owner, c) ==> Marked(pc))
    && (BlockedForResume(pc) ==> s.pending != 0 || Broadcasting(s))
    && (BlockedForCpus(pc) ==> s.pending > 1 || Signalling(s))
  }

  /** What `pending_cpus` counts. */
  ghost predicate Counting(s: State, owner: Option<nat>)
    requires WellFormed(s) && (owner.Some? ==> owner.value < |s.pc|)
  {
    match owner
    case None => s.pending == 0 && Count(s.waiter) == 0 && !Decrementing(s)
    case Some(t) =>
      var pc := s.pc[t];
      && (if Scanning(pc) then s.pending == 1 && pc.count == Count(s.waiter)
          else s.pending == 1 + Count(s.waiter) + if Decrementing(s) then 1 else 0)
      && (Alone(pc) ==> s.pending == 1)
      && (pc.ExMark? ==> pc.next < |s.pc|)
      && !(s.lock.Some? && s.lock.value < |s.pc| && s.pc[s.lock.value].ExSet?)
  }

  /** `owner` is the thread between start_exclusive's first store and end_exclusive's store. */
  ghost predicate Inv(s: State, owner: Option<nat>) {
    && WellFormed(s)
    && (s.lock.Some? ==> s.lock.value < |s.pc|)
    && (owner.Some? ==> owner.value < |s.pc|)
    && (forall c :: 0 <= c < |s.pc| ==> Local(s, owner, c))
    && Counting(s, owner)
  }

  // ----- every step keeps the invariant ---------------------------------------------------

  lemma InitInv(s: State)
    requires Init(s)
    ensures Inv(s, None)
  {
    CountZero(s.waiter);
  }

  /** What the invariant says of the stepping CPU, of the owner and of the lock holder. */
  lemma Known(s: State, c: nat, o: Option<nat>)
    requires Inv(s, o) && c < |s.pc|
    ensures Local(s, o, c)
    ensures o.Some? ==> Local(s, o, o.value)
    ensures s.lock.Some? ==> Local(s, o, s.lock.value)
    ensures Count(s.waiter) == 0 <==> forall i :: 0 <= i < |s.waiter| ==> !s.waiter[i]
  {
    CountZero(s.waiter);
  }

  /** The step changed nothing that another CPU relies on. */
  ghost predicate Frame(s: State, s': State, c: nat, o: Option<nat>)
    requires WellFormed(s) && c < |s.pc|
  {
    && WellFormed(s')
    && |s'.pc| == |s.pc|
    && s'.pc == s.pc[c := s'.pc[c]]
    && s'.running == s.running[c := s'.running[c]]
    && s'.waiter == s.waiter[c := s'.waiter[c]]
    && (s'.lock == s.lock || (s.lock == None && s'.lock == Some(c)) || (s.lock == Some(c) && s'.lock == None))
    && ScanLimit(s', o) == ScanLimit(s, o)
    && (o == Some(c) ==> !s'.pc[c].ExMark?)
    && (s.pending != 0 || Broadcasting(s) ==> s'.pending != 0 || Broadcasting(s'))
    && (s.pending > 1 || Signalling(s) ==> s'.pending > 1 || Signalling(s'))
  }

  lemma Keep(s: State, s': State, c: nat, o: Option<nat>)
    requires Inv(s, o) && c < |s.pc| && Frame(s, s', c, o)
    requires Local(s', o, c) && Counting(s', o)
    ensures Inv(s', o)
  {
    forall d | 0 <= d < |s'.pc| ensures Local(s', o, d) {
      assert Local(s, o, d);
    }
  }

  lemma EnterExecInv(s: State, s': State, c: nat, o: Option<nat>)
    requires Inv(s, o) && c < |s.pc| && s.pc[c].Outside?
    requires s' == Goto(s, c, StartRead).(running := s.running[c := true])
    ensures Inv(s', o)
  {
    Known(s, c, o);
    Keep(s, s', c, o);
  }

  lemma EnterExclusiveInv(s: State, s': State, c: nat, o: Option<nat>)
    requires Inv(s, o) && c < |s.pc| && s.pc[c].Outside? && s' == Goto(s, c, ExLock)
    ensures Inv(s', o)
  {
    Known(s, c, o);
    Keep(s, s', c, o);
  }

  lemma StartReadInv(s: State, s': State, c: nat, o: Option<nat>)
    requires Inv(s, o) && c < |s.pc| && ExecStartStep(s, s', c)
    requires s.pc[c].StartRead?
    ensures Inv(s', o)
  {
    if s.pending != 0 {
      ReadPendingInv(s, s', c, o);
    } else {
      ReadZeroInv(s, s', c, o);
    }
  }

  /** A thread that has read `pending_cpus` goes on with nothing else changed. */
  lemma ReadPendingInv(s: State, s': State, c: nat, o: Option<nat>)
    requires Inv(s, o) && c < |s.pc| && c < |s'.pc| && s' == Goto(s, c, s'.pc[c])
    requires (s.pc[c].StartRead? && s'.pc[c].StartLock?) || (s.pc[c].EndRead? && s'.pc[c].EndLock?)
    ensures Inv(s', o)
  {
    Known(s, c, o);
    Keep(s, s', c, o);
  }

  lemma ReadZeroInv(s: State, s': State, c: nat, o: Option<nat>)
    requires Inv(s, o) && c < |s.pc| && c < |s'.pc| && s' == Goto(s, c, s'.pc[c]) && s.pending == 0
    requires (s.pc[c].StartRead? && s'.pc[c].Executing?) || (s.pc[c].EndRead? && s'.pc[c].Outside?)
    ensures Inv(s', o)
  {
    Known(s, c, o);
    Keep(s, s', c, o);
  }

  lemma StartLockInv(s: State, s': State, c: nat, o: Option<nat>)
    requires Inv(s, o) && c < |s.pc| && ExecStartStep(s, s', c)
    requires s.pc[c].StartLock?
    ensures Inv(s', o)
  {
    Known(s, c, o);
    Keep(s, s', c, o);
  }

  lemma StartCheckInv(s: State, s': State, c: nat, o: Option<nat>)
    requires Inv(s, o) && c < |s.pc| && ExecStartStep(s, s', c)
    requires s.pc[c].StartCheck?
    ensures Inv(s', o)
  {
    Known(s, c, o);
    Keep(s, s', c, o);
  }

  lemma StartIdleInv(s: State, s': State, c: nat, o: Option<nat>)
    requires Inv(s, o) && c < |s.pc| && ExecStartStep(s, s', c)
    requires s.pc[c].StartIdle?
    ensures Inv(s', o)
  {
    Known(s, c, o);
    Keep(s, s', c, o);
  }

  lemma StartWaitInv(s: State, s': State, c: nat, o: Option<nat>)
    requires Inv(s, o) && c < |s.pc| && ExecStartStep(s, s', c)
    requires s.pc[c].StartWait?
    ensures Inv(s', o)
  {
    if s.pc[c].woken {
      StartRelockInv(s, s', c, o);
    } else {
      StartWakeInv(s, s', c, o);
    }
  }

  lemma StartRelockInv(s: State, s': State, c: nat, o: Option<nat>)
    requires Inv(s, o) && c < |s.pc| && s.pc[c].StartWait? && s.lock == None
    requires s' == Goto(s, c, StartIdle).(lock := Some(c))
    ensures Inv(s', o)
  {
    Known(s, c, o);
    Keep(s, s', c, o);
  }

  lemma StartWakeInv(s: State, s': State, c: nat, o: Option<nat>)
    requires Inv(s, o) && c < |s.pc| && s.pc[c].StartWait? && s' == Goto(s, c, StartWait(true))
    ensures Inv(s', o)
  {
    Known(s, c, o);
    Keep(s, s', c, o);
  }

  lemma StartRunInv(s: State, s': State, c: nat, o: Option<nat>)
    requires Inv(s, o) && c < |s.pc| && ExecStartStep(s, s', c)
    requires s.pc[c].StartSet? || s.pc[c].StartUnlock?
    ensures Inv(s', o)
  {
    Known(s, c, o);
    Keep(s, s', c, o);
  }

  lemma ExecutingInv(s: State, s': State, c: nat, o: Option<nat>)
    requires Inv(s, o) && c < |s.pc| && ExecEndStep(s, s', c)
    requires s.pc[c].Executing?
    ensures Inv(s', o)
  {
    Known(s, c, o);
    Keep(s, s', c, o);
  }

  lemma EndReadInv(s: State, s': State, c: nat, o: Option<nat>)
    requires Inv(s, o) && c < |s.pc| && ExecEndStep(s, s', c)
    requires s.pc[c].EndRead?
    ensures Inv(s', o)
  {
    if s.pending != 0 {
      ReadPendingInv(s, s', c, o);
    } else {
      ReadZeroInv(s, s', c, o);
    }
  }

  lemma EndLockInv(s: State, s': State, c: nat, o: Option<nat>)
    requires Inv(s, o) && c < |s.pc| && ExecEndStep(s, s', c)
    requires s.pc[c].EndLock?
    ensures Inv(s', o)
  {
    Known(s, c, o);
    Keep(s, s', c, o);
  }

  lemma EndCheckInv(s: State, s': State, c: nat, o: Option<nat>)
    requires Inv(s, o) && c < |s.pc| && ExecEndStep(s, s', c)
    requires s.pc[c].EndCheck?
    ensures Inv(s', o)
  {
    Known(s, c, o);
    CountUpdate(s.waiter, c, false);
    Keep(s, s', c, o);
  }

  lemma EndDecInv(s: State, s': State, c: nat, o: Option<nat>)
    requires Inv(s, o) && c < |s.pc| && ExecEndStep(s, s', c)
    requires s.pc[c].EndDec?
    ensures Inv(s', o)
  {
    Known(s, c, o);
    Keep(s, s', c, o);
  }

  lemma EndUnlockInv(s: State, s': State, c: nat, o: Option<nat>)
    requires Inv(s, o) && c < |s.pc| && ExecEndStep(s, s', c)
    requires s.pc[c].EndUnlock?
    ensures Inv(s', o)
  {
    Known(s, c, o);
    Keep(s, s', c, o);
  }

  lemma ExLockInv(s: State, s': State, c: nat, o: Option<nat>)
    requires Inv(s, o) && c < |s.pc| && AnnounceStep(s, s', c)
    requires s.pc[c].ExLock?
    ensures Inv(s', o)
  {
    Known(s, c, o);
    Keep(s, s', c, o);
  }

  lemma ExIdleInv(s: State, s': State, c: nat, o: Option<nat>)
    requires Inv(s, o) && c < |s.pc| && AnnounceStep(s, s', c)
    requires s.pc[c].ExIdle?
    ensures Inv(s', o)
  {
    Known(s, c, o);
    Keep(s, s', c, o);
  }

  lemma ExIdleWaitInv(s: State, s': State, c: nat, o: Option<nat>)
    requires Inv(s, o) && c < |s.pc| && AnnounceStep(s, s', c)
    requires s.pc[c].ExIdleWait?
    ensures Inv(s', o)
  {
    if s.pc[c].woken {
      ExRelockInv(s, s', c, o);
    } else {
      ExWakeInv(s, s', c, o);
    }
  }

  lemma ExRelockInv(s: State, s': State, c: nat, o: Option<nat>)
    requires Inv(s, o) && c < |s.pc| && s.pc[c].ExIdleWait? && s.lock == None
    requires s' == Goto(s, c, ExIdle).(lock := Some(c))
    ensures Inv(s', o)
  {
    Known(s, c, o);
    Keep(s, s', c, o);
  }

  lemma ExWakeInv(s: State, s': State, c: nat, o: Option<nat>)
    requires Inv(s, o) && c < |s.pc| && s.pc[c].ExIdleWait? && s' == Goto(s, c, ExIdleWait(true))
    ensures Inv(s', o)
  {
    Known(s, c, o);
    Keep(s, s', c, o);
  }

  lemma ExWaitInv(s: State, s': State, c: nat, o: Option<nat>)
    requires Inv(s, o) && c < |s.pc| && SectionStep(s, s', c)
    requires s.pc[c].ExLoop? || s.pc[c].ExWait?
    ensures Inv(s', o)
  {
    Known(s, c, o);
    Keep(s, s', c, o);
  }

  lemma FinInv(s: State, s': State, c: nat, o: Option<nat>)
    requires Inv(s, o) && c < |s.pc| && SectionStep(s, s', c)
    requires s.pc[c].ExUnlock? || s.pc[c].InExclusive? || s.pc[c].FinLock? || s.pc[c].FinUnlock?
    ensures Inv(s', o)
  {
    if s.pc[c].ExUnlock? || s.pc[c].InExclusive? {
      EnteredInv(s, s', c, o);
    } else {
      Known(s, c, o);
      Keep(s, s', c, o);
    }
  }

  lemma EnteredInv(s: State, s': State, c: nat, o: Option<nat>)
    requires Inv(s, o) && c < |s.pc| && SectionStep(s, s', c)
    requires s.pc[c].ExUnlock? || s.pc[c].InExclusive?
    ensures Inv(s', o)
  {
    Known(s, c, o);
    Keep(s, s', c, o);
  }

  lemma EndSignalInv(s: State, s': State, c: nat, o: Option<nat>)
    requires Inv(s, o) && c < |s.pc| && ExecEndStep(s, s', c)
    requires s.pc[c].EndSignal?
    ensures Inv(s', o)
  {
    Known(s, c, o);
    if w :| s.pending == 1 && 0 <= w < |s.pc| && w != c && BlockedForCpus(s.pc[w])
            && s' == Goto(Goto(s, w, ExWait(true)), c, EndUnlock) {
      // Only the owner can be blocked here, so it is the thread that is woken up.
      assert Local(s, o, w);
      SignalledInv(s, s', c, w);
    } else {
      NotSignalledInv(s, s', c, o);
    }
  }

  lemma SignalledInv(s: State, s': State, c: nat, w: nat)
    requires Inv(s, Some(w)) && c < |s.pc| && s.pc[c].EndSignal? && w < |s.pc| && BlockedForCpus(s.pc[w])
    requires s' == s.(pc := s.pc[w := ExWait(true)][c := EndUnlock])
    ensures Inv(s', Some(w))
  {
    Known(s, c, Some(w));
    forall d | 0 <= d < |s'.pc| ensures Local(s', Some(w), d) {
      assert Local(s, Some(w), d);
    }
  }

  lemma NotSignalledInv(s: State, s': State, c: nat, o: Option<nat>)
    requires Inv(s, o) && c < |s.pc| && s.pc[c].EndSignal? && s' == Goto(s, c, EndUnlock)
    requires s.pending != 1 || forall w :: 0 <= w < |s.pc| ==> !BlockedForCpus(s.pc[w])
    ensures Inv(s', o)
  {
    Known(s, c, o);
    forall d | 0 <= d < |s'.pc| ensures Local(s', o, d) {
      assert Local(s, o, d);
    }
  }

  lemma ExScanInv(s: State, s': State, c: nat, o: Option<nat>)
    requires Inv(s, o) && c < |s.pc| && AnnounceStep(s, s', c)
    requires s.pc[c].ExScan? || s.pc[c].ExPublish?
    ensures Inv(s', o)
  {
    Known(s, c, o);
    forall d | 0 <= d < |s'.pc| ensures Local(s', o, d) {
      assert Local(s, o, d);
    }
  }

  lemma ExMarkInv(s: State, s': State, c: nat, o: Option<nat>)
    requires Inv(s, o) && c < |s.pc| && AnnounceStep(s, s', c)
    requires s.pc[c].ExMark?
    ensures Inv(s', o)
  {
    Known(s, c, o);
    assert Local(s, o, s.pc[c].next);
    CountUpdate(s.waiter, s.pc[c].next, true);
    forall d | 0 <= d < |s'.pc| ensures Local(s', o, d) {
      assert Local(s, o, d);
    }
  }

  lemma FinBroadcastInv(s: State, s': State, c: nat, o: Option<nat>)
    requires Inv(s, o) && c < |s.pc| && SectionStep(s, s', c)
    requires s.pc[c].FinBroadcast?
    ensures Inv(s', o)
  {
    Known(s, c, o);
    forall d | 0 <= d < |s'.pc| ensures Local(s', o, d) {
      assert Local(s, o, d);
    }
  }

  lemma ExSetInv(s: State, s': State, c: nat, o: Option<nat>)
    requires Inv(s, o) && c < |s.pc| && AnnounceStep(s, s', c)
    requires s.pc[c].ExSet?
    ensures Inv(s', Some(c))
  {
    Known(s, c, o);
    forall d | 0 <= d < |s'.pc| ensures Local(s', Some(c), d) {
      assert Local(s, o, d);
    }
  }

  lemma FinZeroInv(s: State, s': State, c: nat, o: Option<nat>)
    requires Inv(s, o) && c < |s.pc| && SectionStep(s, s', c)
    requires s.pc[c].FinZero?
    ensures Inv(s', None)
  {
    Known(s, c, o);
    forall d | 0 <= d < |s'.pc| ensures Local(s', None, d) {
      assert Local(s, o, d);
    }
  }

  /** Every step of every thread keeps the invariant, for the owner that the step leaves. */
  lemma StepInv(s: State, s': State, c: nat, o: Option<nat>) returns (o': Option<nat>)
    requires Inv(s, o) && c < |s.pc| && Step(s, s', c)
    ensures Inv(s', o')
  {
    o' := if s.pc[c].ExSet? then Some(c) else if s.pc[c].FinZero? then None else o;
    match s.pc[c]
    case Outside =>
      if s'.pc[c].ExLock? { EnterExclusiveInv(s, s', c, o); } else { EnterExecInv(s, s', c, o); }
    case StartRead => StartReadInv(s, s', c, o);
    case StartLock => StartLockInv(s, s', c, o);
    case StartCheck => StartCheckInv(s, s', c, o);
    case StartIdle => StartIdleInv(s, s', c, o);
    case StartWait(_) => StartWaitInv(s, s', c, o);
    case StartSet => StartRunInv(s, s', c, o);
    case StartUnlock => StartRunInv(s, s', c, o);
    case Executing => ExecutingInv(s, s', c, o);
    case EndRead => EndReadInv(s, s', c, o);
    case EndLock => EndLockInv(s, s', c, o);
    case EndCheck => EndCheckInv(s, s', c, o);
    case EndDec => EndDecInv(s, s', c, o);
    case EndSignal => EndSignalInv(s, s', c, o);
    case EndUnlock => EndUnlockInv(s, s', c, o);
    case ExLock => ExLockInv(s, s', c, o);
    case ExIdle => ExIdleInv(s, s', c, o);
    case ExIdleWait(_) => ExIdleWaitInv(s, s', c, o);
    case ExSet => ExSetInv(s, s', c, o);
    case ExScan(_, _) => ExScanInv(s, s', c, o);
    case ExMark(_, _) => ExMarkInv(s, s', c, o);
    case ExPublish(_) => ExScanInv(s, s', c, o);
    case ExLoop => ExWaitInv(s, s', c, o);
    case ExWait(_) => ExWaitInv(s, s', c, o);
    case FinZero => FinZeroInv(s, s', c, o);
    case FinBroadcast => FinBroadcastInv(s, s', c, o);
    case _ => FinInv(s, s', c, o);
  }

  /** The invariant holds after every prefix of every run. */
  lemma {:induction false} RunInv(states: seq<State>, who: seq<nat>, i: nat) returns (o: Option<nat>)
    requires Run(states, who) && i < |states|
    ensures Inv(states[i], o)
  {
    if i == 0 {
      InitInv(states[0]);
      o := None;
    } else {
      o := RunInv(states, who, i - 1);
      assert RunStep(states, who, i - 1);
      o := StepInv(states[i - 1], states[i], who[i - 1], o);
    }
  }

  // ----- what the protocol promises -------------------------------------------------------

  /** Mutual exclusion: between start_exclusive's return and end_exclusive, `t` is alone. */
  lemma MutualExclusion(states: seq<State>, who: seq<nat>, i: nat, t: nat, c: nat)
    requires Run(states, who) && i < |states| && t < |states[i].pc| && c < |states[i].pc| && c != t
    requires states[i].pc[t].InExclusive?
    ensures !states[i].pc[c].InExclusive? && !states[i].pc[c].Executing?
  {
    var s := states[i];
    var o := RunInv(states, who, i);
    Known(s, t, o);
    Known(s, c, o);
  }

  /**
   * Outside the scan, `pending_cpus` is zero with no waiter flags, or one plus the number of
   * flags (plus one while the lock holder is between clearing its flag and decrementing).
   */
  lemma PendingCounts(states: seq<State>, who: seq<nat>, i: nat)
    requires Run(states, who) && i < |states|
    requires forall c :: 0 <= c < |states[i].pc| ==> !Scanning(states[i].pc[c])
    ensures WellFormed(states[i])
    ensures
      var s := states[i];
      || (s.pending == 0 && forall c :: 0 <= c < |s.pc| ==> !s.waiter[c])
      || s.pending == 1 + Count(s.waiter) + if Decrementing(s) then 1 else 0
  {
    var o := RunInv(states, who, i);
    CountZero(states[i].waiter);
  }

  /** A CPU with `has_waiter` is never blocked, and when it leaves cpu_exec it sees pending_cpus != 0. */
  lemma MarkedNeverBlocked(states: seq<State>, who: seq<nat>, i: nat, c: nat)
    requires Run(states, who) && i < |states| && c < |states[i].pc|
    ensures WellFormed(states[i])
    ensures states[i].waiter[c] ==>
      && Marked(states[i].pc[c])
      && !BlockedForResume(states[i].pc[c]) && !BlockedForCpus(states[i].pc[c])
      && states[i].pending != 0
  {
    var o := RunInv(states, who, i);
    Known(states[i], c, o);
    CountZero(states[i].waiter);
  }

  /**
   * No lost wake-up: a thread blocked in start_exclusive is waiting for a CPU that still has to
   * decrement `pending_cpus`, or for the lock holder that is about to decrement or to signal it;
   * a thread blocked in exclusive_idle waits for the owner of a section or for the lock holder
   * that is about to broadcast.
   */
  lemma NoLostWakeup(states: seq<State>, who: seq<nat>, i: nat, t: nat)
    requires Run(states, who) && i < |states| && t < |states[i].pc|
    ensures WellFormed(states[i])
    ensures BlockedForCpus(states[i].pc[t]) ==>
      || (exists c :: 0 <= c < |states[i].pc| && c != t && states[i].waiter[c])
      || Decrementing(states[i]) || Signalling(states[i])
    ensures BlockedForResume(states[i].pc[t]) ==>
      || (exists c :: 0 <= c < |states[i].pc| && c != t && Owns(states[i].pc[c]))
      || Broadcasting(states[i])
  {
    var s := states[i];
    var o := RunInv(states, who, i);
    Known(s, t, o);
    if BlockedForCpus(s.pc[t]) && !Decrementing(s) && !Signalling(s) {
      var c :| 0 <= c < |s.waiter| && s.waiter[c];
      assert Local(s, o, c);
    }
  }

  // ----- a blocked start_exclusive is always released -------------------------------------

  /** Steps a CPU with `has_waiter` still has to take before it gives its mark back. */
  ghost function StepsToRelease(pc: Pc): nat {
    match pc
    case StartRead => 8
    case StartLock => 7
    case StartCheck => 6
    case StartUnlock => 5
    case Executing => 4
    case EndRead => 3
    case EndLock => 2
    case EndCheck => 1
    case _ => 0
  }

  ghost function Weight(s: State, c: nat): nat
    requires WellFormed(s) && c < |s.pc|
  {
    if s.waiter[c] then StepsToRelease(s.pc[c]) else 0
  }

  ghost function Remaining(s: State, n: nat): nat
    requires WellFormed(s) && n <= |s.pc|
  {
    if n == 0 then 0 else Remaining(s, n - 1) + Weight(s, n - 1)
  }

  lemma {:induction false} RemainingDrops(s: State, s': State, n: nat, c: nat)
    requires WellFormed(s) && WellFormed(s') && |s'.pc| == |s.pc| && n <= |s.pc| && c < |s.pc|
    requires forall d :: 0 <= d < |s.pc| ==> Weight(s', d) <= Weight(s, d)
    ensures Remaining(s', n) <= Remaining(s, n)
    ensures c < n && Weight(s', c) < Weight(s, c) ==> Remaining(s', n) < Remaining(s, n)
  {
    if n > 0 {
      RemainingDrops(s, s', n - 1, c);
    }
  }

  lemma {:induction false} RemainingZero(s: State, n: nat)
    requires WellFormed(s) && n <= |s.pc|
    ensures Remaining(s, n) == 0 ==> forall d :: 0 <= d < n ==> Weight(s, d) == 0
  {
    if n > 0 {
      RemainingZero(s, n - 1);
    }
  }

  /** A step can only change the weight of the CPU that takes it. */
  /** A step leaves another CPU where it is, or wakes it up. */
  ghost predicate Elsewhere(s: State, s': State, d: nat)
    requires WellFormed(s) && d < |s.pc|
  {
    && |s'.pc| == |s.pc| == |s'.running| == |s'.waiter|
    && s'.waiter[d] == s.waiter[d]
    && (s'.pc[d] == s.pc[d] || (Waits(s.pc[d]) && Waits(s'.pc[d])))
  }

  ghost predicate Waits(pc: Pc) { pc.StartWait? || pc.ExIdleWait? || pc.ExWait? }

  lemma ExecElsewhere(s: State, s': State, c: nat, d: nat)
    requires WellFormed(s) && c < |s.pc| && d < |s.pc| && d != c
    requires EnterStep(s, s', c) || ExecStartStep(s, s', c) || ExecEndStep(s, s', c)
    ensures Elsewhere(s, s', d)
  {
  }

  lemma ExclusiveElsewhere(s: State, s': State, c: nat, d: nat)
    requires WellFormed(s) && c < |s.pc| && d < |s.pc| && d != c && !s.pc[c].ExMark?
    requires AnnounceStep(s, s', c) || SectionStep(s, s', c)
    ensures Elsewhere(s, s', d)
  {
  }

  lemma OthersWeight(s: State, s': State, c: nat, d: nat)
    requires WellFormed(s) && c < |s.pc| && d < |s.pc| && d != c && Step(s, s', c)
    requires !s.pc[c].ExMark?
    ensures WellFormed(s') && |s'.pc| == |s.pc| && Weight(s', d) == Weight(s, d)
  {
    if AnnounceStep(s, s', c) || SectionStep(s, s', c) {
      ExclusiveElsewhere(s, s', c, d);
    } else {
      ExecElsewhere(s, s', c, d);
    }
  }

  lemma OwnWeight(s: State, s': State, c: nat, o: Option<nat>)
    requires Inv(s, o) && c < |s.pc| && Step(s, s', c) && s.waiter[c]
    ensures WellFormed(s') && |s'.pc| == |s.pc| && Weight(s', c) < Weight(s, c)
  {
    Known(s, c, o);
    assert ExecStartStep(s, s', c) || ExecEndStep(s, s', c);
  }

  lemma NoNewWeight(s: State, s': State, c: nat)
    requires WellFormed(s) && c < |s.pc| && Step(s, s', c) && !s.waiter[c] && !s.pc[c].ExMark?
    ensures WellFormed(s') && |s'.pc| == |s.pc| && Weight(s', c) == 0
  {
  }

  /**
   * Once the scan is over, no step of any thread sets back the CPUs that `t` waits for, every
   * step of such a CPU brings it closer to the decrement, and when none is left and the lock is
   * free, `t` has been woken up and finds `pending_cpus == 1`.
   */
  lemma WaitMakesProgress(states: seq<State>, who: seq<nat>, i: nat, t: nat)
    requires Run(states, who) && i < |who| && t < |states[i].pc|
    requires Owns(states[i].pc[t]) && !Scanning(states[i].pc[t])
    ensures
      var s, s' := states[i], states[i + 1];
      && WellFormed(s) && WellFormed(s') && |s'.pc| == |s.pc| && who[i] < |s.pc|
      && Remaining(s', |s.pc|) <= Remaining(s, |s.pc|)
      && (s.waiter[who[i]] ==> Remaining(s', |s.pc|) < Remaining(s, |s.pc|))
      && (Remaining(s, |s.pc|) == 0 && s.lock == None ==> !BlockedForCpus(s.pc[t]) && s.pending == 1)
  {
    var s, s', c := states[i], states[i + 1], who[i];
    var o := RunInv(states, who, i);
    assert RunStep(states, who, i);
    Known(s, t, o);
    Known(s, c, o);
    if s.waiter[c] { OwnWeight(s, s', c, o); } else { NoNewWeight(s, s', c); }
    forall d | 0 <= d < |s.pc| ensures Weight(s', d) <= Weight(s, d) {
      if d != c { OthersWeight(s, s', c, d); }
    }
    RemainingDrops(s, s', |s.pc|, c);
    if Remaining(s, |s.pc|) == 0 {
      RemainingZero(s, |s.pc|);
      forall d | 0 <= d < |s.pc| ensures !s.waiter[d] {
        assert Local(s, o, d);
        assert Weight(s, d) == 0;
      }
    }
  }

  /** The steps of a lock holder up to its next release of the lock. */
  ghost function HoldSteps(pc: Pc, n: nat): nat {
    match pc
    case StartUnlock => 1 case StartSet => 2 case StartIdle => 3 case StartCheck => 4
    case EndUnlock => 1 case EndSignal => 2 case EndDec => 3 case EndCheck => 4
    case FinUnlock => 1 case FinBroadcast => 2 case FinZero => 3
    case ExUnlock => 1 case ExLoop => 2 case ExPublish(_) => 3
    case ExScan(k, _) => if k < n then 2 * (n - k) + 4 else 4
    case ExMark(k, _) => if k < n then 2 * (n - k) + 3 else 4
    case ExSet => 2 * n + 5
    case ExIdle => 2 * n + 6
    case _ => 0
  }

  ghost predicate CanStep(s: State, c: nat)
    requires WellFormed(s) && c < |s.pc|
  {
    exists s' :: Step(s, s', c)
  }

  /** The holder of the lock has given it back or has fewer steps to go until it does. */
  ghost predicate Nearer(s: State, s': State, h: nat) {
    && h < |s.pc| && h < |s'.pc|
    && (s'.lock == None || (s'.lock == Some(h) && HoldSteps(s'.pc[h], |s.pc|) < HoldSteps(s.pc[h], |s.pc|)))
  }

  lemma NearerInExec(s: State, s': State, h: nat, o: Option<nat>)
    requires Inv(s, o) && h < |s.pc| && s.lock == Some(h) && (ExecStartStep(s, s', h) || ExecEndStep(s, s', h))
    ensures Nearer(s, s', h)
  {
    Known(s, h, o);
  }

  lemma NearerInExclusive(s: State, s': State, h: nat, o: Option<nat>)
    requires Inv(s, o) && h < |s.pc| && s.lock == Some(h) && (AnnounceStep(s, s', h) || SectionStep(s, s', h))
    ensures Nearer(s, s', h)
  {
    Known(s, h, o);
  }

  /** The lock holder is never stuck and gives the lock back after a bounded number of its steps. */
  lemma LockIsReleased(states: seq<State>, who: seq<nat>, i: nat)
    requires Run(states, who) && i < |who| && states[i].lock == Some(who[i])
    ensures Nearer(states[i], states[i + 1], who[i])
  {
    var s, s', h := states[i], states[i + 1], who[i];
    var o := RunInv(states, who, i);
    assert RunStep(states, who, i);
    if ExecStartStep(s, s', h) || ExecEndStep(s, s', h) {
      NearerInExec(s, s', h, o);
    } else if AnnounceStep(s, s', h) || SectionStep(s, s', h) {
      NearerInExclusive(s, s', h, o);
    } else {
      Known(s, h, o);
    }
  }

  /** With the lock free or in its own hands, the next instruction of a thread can be executed. */
  lemma HasNextStep(states: seq<State>, who: seq<nat>, i: nat, c: nat)
    requires Run(states, who) && i < |states| && c < |states[i].pc|
    requires states[i].lock == None || states[i].lock == Some(c)
    ensures WellFormed(states[i]) && CanStep(states[i], c)
  {
    var s := states[i];
    var o := RunInv(states, who, i);
    Known(s, c, o);
    var pc := s.pc[c];
    if pc.Outside? {
      assert Step(s, Goto(s, c, ExLock), c);
    } else if w :| pc.EndSignal? && s.pending == 1 && 0 <= w < |s.pc| && w != c && BlockedForCpus(s.pc[w]) {
      assert Step(s, Goto(Goto(s, w, ExWait(true)), c, EndUnlock), c);
    } else if ExecStartNext(s, c).Some? {
      assert Step(s, ExecStartNext(s, c).value, c);
    } else if ExecEndNext(s, c).Some? {
      assert Step(s, ExecEndNext(s, c).value, c);
    } else if AnnounceNext(s, c).Some? {
      assert Step(s, AnnounceNext(s, c).value, c);
    } else {
      assert Step(s, SectionNext(s, c).value, c);
    }
  }

  // ----- the protocol does not deadlock ---------------------------------------------------

  ghost predicate Blocked(pc: Pc) { BlockedForResume(pc) || BlockedForCpus(pc) }

  /** The thread is in the middle of an operation and its next step needs no wake-up. */
  ghost predicate Active(pc: Pc) { !pc.Outside? && !Blocked(pc) }

  /** Whenever a thread is inside, one is active and can have the lock: its holder, a marked CPU, the owner or itself. */
  lemma SomebodyActive(s: State, o: Option<nat>, t: nat) returns (c: nat)
    requires Inv(s, o) && t < |s.pc| && !s.pc[t].Outside?
    ensures c < |s.pc| && Active(s.pc[c]) && (s.lock == None || s.lock == Some(c))
  {
    Known(s, t, o);
    if s.lock.Some? {
      c := s.lock.value;
    } else if !Blocked(s.pc[t]) {
      c := t;
    } else {
      var u := if o.Some? then o.value else t;
      Known(s, u, o);
      if Active(s.pc[u]) {
        c := u;
      } else {
        c :| 0 <= c < |s.waiter| && s.waiter[c];
        assert Local(s, o, c);
      }
    }
  }

  /**
   * No deadlock: in every reachable state in which some thread is inside the protocol, blocked or
   * not, a thread that is inside and not blocked can step.
   */
  lemma NeverDeadlocked(states: seq<State>, who: seq<nat>, i: nat, t: nat) returns (c: nat)
    requires Run(states, who) && i < |states| && t < |states[i].pc| && !states[i].pc[t].Outside?
    ensures WellFormed(states[i]) && c < |states[i].pc| && Active(states[i].pc[c]) && CanStep(states[i], c)
  {
    var o := RunInv(states, who, i);
    c := SomebodyActive(states[i], o, t);
    HasNextStep(states, who, i, c);
  }

  // ----- everybody gets through -----------------------------------------------------------

  /** The steps a thread has left until it is outside, with `n` CPUs, and a reserve for the threads it wakes up. */
  ghost function Effort(pc: Pc, n: nat): nat {
    match pc
    case Outside => 0
    case StartRead => 16 case StartLock => 15 case StartCheck => 14 case StartIdle => 13
    case StartWait(woken) => if woken then 14 else 12
    case StartSet => 11 case StartUnlock => 10 case Executing => 9
    case EndRead => 8 case EndLock => 7 case EndCheck => 6 case EndDec => 5 case EndSignal => 4 case EndUnlock => 1
    case ExLock => 4 * n + 14 case ExIdle => 4 * n + 13
    case ExIdleWait(woken) => if woken then 4 * n + 14 else 4 * n + 12
    case ExSet => 4 * n + 11
    case ExScan(k, _) => 2 * n + 10 + if k < n then 2 * (n - k) else 0
    case ExMark(k, _) => 2 * n + 9 + if k < n then 2 * (n - k) else 0
    case ExPublish(_) => 2 * n + 9 case ExLoop => 2 * n + 8
    case ExWait(woken) => if woken then 2 * n + 9 else 2 * n + 7
    case ExUnlock => 2 * n + 6 case InExclusive => 2 * n + 5
    case FinLock => 2 * n + 4 case FinZero => 2 * n + 3 case FinBroadcast => 2 * n + 2 case FinUnlock => 1
  }

  ghost function Total(pcs: seq<Pc>, n: nat): nat {
    if pcs == [] then 0 else Total(pcs[..|pcs| - 1], n) + Effort(pcs[|pcs| - 1], n)
  }

  lemma {:induction false} TotalUpdate(pcs: seq<Pc>, n: nat, c: nat, pc: Pc)
    requires c < |pcs|
    ensures Total(pcs[c := pc], n) == Total(pcs, n) - Effort(pcs[c], n) + Effort(pc, n)
  {
    var last := |pcs| - 1;
    var pcs' := pcs[c := pc];
    if c == last {
      assert pcs'[..last] == pcs[..last];
    } else {
      TotalUpdate(pcs[..last], n, c, pc);
      assert pcs'[..last] == pcs[..last][c := pc];
    }
  }

  lemma {:induction false} TotalWake(pcs: seq<Pc>, n: nat)
    ensures Total(WakeAll(pcs), n) <= Total(pcs, n) + 2 * |pcs|
  {
    if pcs != [] {
      var last := |pcs| - 1;
      TotalWake(pcs[..last], n);
      assert WakeAll(pcs)[..last] == WakeAll(pcs[..last]);
    }
  }

  ghost function Work(s: State): nat { Total(s.pc, |s.pc|) }

  /** Thread `c` alone moves on, to a point with less left to do. */
  ghost predicate Advances(s: State, s': State, c: nat)
    requires c < |s.pc|
  {
    |s'.pc| == |s.pc| && s'.pc == s.pc[c := s'.pc[c]] && Effort(s'.pc[c], |s.pc|) < Effort(s.pc[c], |s.pc|)
  }

  lemma AdvanceLowers(s: State, s': State, c: nat)
    requires c < |s.pc| && Advances(s, s', c)
    ensures Work(s') < Work(s)
  {
    TotalUpdate(s.pc, |s.pc|, c, s'.pc[c]);
  }

  lemma SignalTotal(pcs: seq<Pc>, n: nat, c: nat, w: nat)
    requires c < |pcs| && w < |pcs| && pcs[c] == EndSignal && pcs[w] == ExWait(false)
    ensures Total(pcs[w := ExWait(true)][c := EndUnlock], n) < Total(pcs, n)
  {
    TotalUpdate(pcs, n, w, ExWait(true));
    TotalUpdate(pcs[w := ExWait(true)], n, c, EndUnlock);
  }

  lemma BroadcastTotal(pcs: seq<Pc>, woken: seq<Pc>, c: nat)
    requires c < |pcs| == |woken| && woken[c] == FinBroadcast
    requires Total(woken, |pcs|) <= Total(pcs, |pcs|) + 2 * |pcs|
    ensures Total(woken[c := FinUnlock], |pcs|) < Total(pcs, |pcs|)
  {
    TotalUpdate(woken, |pcs|, c, FinUnlock);
  }

  lemma SignalLowers(s: State, s': State, c: nat)
    requires WellFormed(s) && c < |s.pc| && s.pc[c] == EndSignal && Signal(s, s', c, EndUnlock)
    ensures |s'.pc| == |s.pc| && Work(s') < Work(s)
  {
    if w :| 0 <= w < |s.pc| && w != c && BlockedForCpus(s.pc[w]) && s' == Goto(Goto(s, w, ExWait(true)), c, EndUnlock) {
      SignalTotal(s.pc, |s.pc|, c, w);
    } else {
      AdvanceLowers(s, s', c);
    }
  }

  lemma ExecStartLowers(s: State, s': State, c: nat)
    requires WellFormed(s) && c < |s.pc| && Active(s.pc[c]) && ExecStartStep(s, s', c)
    ensures |s'.pc| == |s.pc| && Work(s') < Work(s)
  {
    assert Advances(s, s', c);
    AdvanceLowers(s, s', c);
  }

  lemma ExecEndLowers(s: State, s': State, c: nat)
    requires WellFormed(s) && c < |s.pc| && Active(s.pc[c]) && ExecEndStep(s, s', c)
    ensures |s'.pc| == |s.pc| && Work(s') < Work(s)
  {
    if s.pc[c].EndSignal? && s.pending == 1 {
      SignalLowers(s, s', c);
    } else {
      assert Advances(s, s', c);
      AdvanceLowers(s, s', c);
    }
  }

  lemma AnnounceLowers(s: State, s': State, c: nat)
    requires WellFormed(s) && c < |s.pc| && Active(s.pc[c]) && AnnounceStep(s, s', c)
    ensures |s'.pc| == |s.pc| && Work(s') < Work(s)
  {
    assert Advances(s, s', c);
    AdvanceLowers(s, s', c);
  }

  lemma SectionLowers(s: State, s': State, c: nat)
    requires WellFormed(s) && c < |s.pc| && Active(s.pc[c]) && SectionStep(s, s', c)
    ensures |s'.pc| == |s.pc| && Work(s') < Work(s)
  {
    if s.pc[c].FinBroadcast? {
      TotalWake(s.pc, |s.pc|);
      BroadcastTotal(s.pc, WakeAll(s.pc), c);
    } else {
      assert Advances(s, s', c);
      AdvanceLowers(s, s', c);
    }
  }

  /** Every step of an active thread uses up some of the work, whoever it wakes up. */
  lemma ActiveLowers(s: State, s': State, c: nat)
    requires WellFormed(s) && c < |s.pc| && Active(s.pc[c]) && Step(s, s', c)
    ensures |s'.pc| == |s.pc| && Work(s') < Work(s)
  {
    if ExecStartStep(s, s', c) {
      ExecStartLowers(s, s', c);
    } else if ExecEndStep(s, s', c) {
      ExecEndLowers(s, s', c);
    } else if AnnounceStep(s, s', c) {
      AnnounceLowers(s, s', c);
    } else {
      SectionLowers(s, s', c);
    }
  }

  /** From step `i` on no thread enters the protocol and none wakes up without being signalled. */
  ghost predicate Draining(states: seq<State>, who: seq<nat>, i: nat)
    requires |states| == |who| + 1
  {
    forall k :: i <= k < |who| ==> who[k] < |states[k].pc| && Active(states[k].pc[who[k]])
  }

  /** Without new entries and spurious wake-ups every run ends, whatever the scheduler does. */
  lemma {:induction false} DrainIsBounded(states: seq<State>, who: seq<nat>, i: nat)
    requires Run(states, who) && i < |states| && Draining(states, who, i)
    ensures |who| - i <= Work(states[i]) - Work(states[|who|])
    decreases |who| - i
  {
    if i < |who| {
      assert RunStep(states, who, i);
      ActiveLowers(states[i], states[i + 1], who[i]);
      DrainIsBounded(states, who, i + 1);
    }
  }

  /** And it can end only with every thread outside: every run goes on until all that had entered are through. */
  lemma {:induction false} Drains(states: seq<State>, who: seq<nat>, i: nat) returns (states': seq<State>, who': seq<nat>)
    requires Run(states, who) && i <= |who| && Draining(states, who, i)
    ensures Run(states', who') && states <= states' && who <= who' && Draining(states', who', i)
    ensures forall c :: 0 <= c < |states'[|who'|].pc| ==> states'[|who'|].pc[c].Outside?
    decreases Work(states[|who|])
  {
    var s := states[|who|];
    if t :| 0 <= t < |s.pc| && !s.pc[t].Outside? {
      var c := NeverDeadlocked(states, who, |who|, t);
      var s' :| Step(s, s', c);
      ActiveLowers(s, s', c);
      Extend(states, who, i, s', c);
      states', who' := Drains(states + [s'], who + [c], i);
    } else {
      states', who' := states, who;
    }
  }

  lemma Extend(states: seq<State>, who: seq<nat>, i: nat, s': State, c: nat)
    requires Run(states, who) && i <= |who| && Draining(states, who, i) && WellFormed(states[|who|])
    requires c < |states[|who|].pc| && Active(states[|who|].pc[c]) && Step(states[|who|], s', c)
    ensures Run(states + [s'], who + [c]) && Draining(states + [s'], who + [c], i)
  {
    var ss, ww := states + [s'], who + [c];
    forall k | 0 <= k < |ww| ensures RunStep(ss, ww, k) {
      if k < |who| { assert RunStep(states, who, k); }
    }
  }

  // ----- getting through means getting in -------------------------------------------------

  /** In start_exclusive. */
  ghost predicate Entering(pc: Pc) {
    pc.ExLock? || pc.ExIdle? || pc.ExIdleWait? || pc.ExSet? || pc.ExScan? || pc.ExMark? || pc.ExPublish?
    || pc.ExLoop? || pc.ExWait? || pc.ExUnlock?
  }

  /** In cpu_exec_start. */
  ghost predicate Starting(pc: Pc) {
    pc.StartRead? || pc.StartLock? || pc.StartCheck? || pc.StartIdle? || pc.StartWait? || pc.StartSet? || pc.StartUnlock?
  }

  /** The only way out of start_exclusive is into the section, and out of cpu_exec_start into execution. */
  ghost predicate NoWayAround(pc: Pc, pc': Pc) {
    && (Entering(pc) ==> Entering(pc') || pc'.InExclusive?)
    && (Starting(pc) ==> Starting(pc') || pc'.Executing?)
  }

  lemma OwnWay(s: State, s': State, c: nat)
    requires WellFormed(s) && c < |s.pc| && Step(s, s', c)
    ensures |s'.pc| == |s.pc| && NoWayAround(s.pc[c], s'.pc[c])
  {
  }

  lemma OthersWay(s: State, s': State, c: nat, d: nat)
    requires WellFormed(s) && c < |s.pc| && d < |s.pc| && d != c && Step(s, s', c)
    ensures |s'.pc| == |s.pc| && NoWayAround(s.pc[d], s'.pc[d])
  {
    if s.pc[c].ExMark? {
      assert s'.pc[d] == s.pc[d];
    } else if AnnounceStep(s, s', c) || SectionStep(s, s', c) {
      ExclusiveElsewhere(s, s', c, d);
      WaitsAlike(s, s', c, d);
    } else {
      ExecElsewhere(s, s', c, d);
      WaitsAlike(s, s', c, d);
    }
  }

  /** Being woken up is not getting anywhere. */
  lemma WaitsAlike(s: State, s': State, c: nat, d: nat)
    requires WellFormed(s) && c < |s.pc| && d < |s.pc| && d != c && Step(s, s', c) && |s'.pc| == |s.pc|
    ensures Waits(s.pc[d]) ==> NoWayAround(s.pc[d], s'.pc[d])
  {
  }

  lemma AnyWay(s: State, s': State, c: nat, d: nat)
    requires WellFormed(s) && c < |s.pc| && d < |s.pc| && Step(s, s', c)
    ensures |s'.pc| == |s.pc| && NoWayAround(s.pc[d], s'.pc[d])
  {
    if d == c { OwnWay(s, s', c); } else { OthersWay(s, s', c, d); }
  }

  ghost predicate GetsIn(states: seq<State>, i: nat, t: nat) {
    exists k :: i < k < |states| && t < |states[k].pc| && states[k].pc[t].InExclusive?
  }

  ghost predicate GetsToRun(states: seq<State>, i: nat, t: nat) {
    exists k :: i < k < |states| && t < |states[k].pc| && states[k].pc[t].Executing?
  }

  /** In every run a thread that has left start_exclusive has been in its section, and one that has left cpu_exec_start has run. */
  lemma {:induction false} LeavesThrough(states: seq<State>, who: seq<nat>, i: nat, j: nat, t: nat)
    requires Run(states, who) && i <= j < |states| && t < |states[i].pc|
    ensures |states[j].pc| == |states[i].pc|
    ensures Entering(states[i].pc[t]) && !Entering(states[j].pc[t]) ==> GetsIn(states, i, t)
    ensures Starting(states[i].pc[t]) && !Starting(states[j].pc[t]) ==> GetsToRun(states, i, t)
    decreases j - i
  {
    if i < j {
      assert RunStep(states, who, i);
      AnyWay(states[i], states[i + 1], who[i], t);
      LeavesThrough(states, who, i + 1, j, t);
    }
  }

  /** Everybody who has entered gets through, and that includes the section or the execution they came for. */
  lemma EverybodyGetsThrough(states: seq<State>, who: seq<nat>) returns (states': seq<State>, who': seq<nat>)
    requires Run(states, who)
    ensures Run(states', who') && states <= states' && who <= who' && Draining(states', who', |who|)
    ensures forall t :: 0 <= t < |states'[|who'|].pc| ==> states'[|who'|].pc[t].Outside?
    ensures forall t :: 0 <= t < |states[|who|].pc| && Entering(states[|who|].pc[t]) ==> GetsIn(states', |who|, t)
    ensures forall t :: 0 <= t < |states[|who|].pc| && Starting(states[|who|].pc[t]) ==> GetsToRun(states', |who|, t)
  {
    states', who' := Drains(states, who, |who|);
    forall t | 0 <= t < |states[|who|].pc|
      ensures Entering(states[|who|].pc[t]) ==> GetsIn(states', |who|, t)
      ensures Starting(states[|who|].pc[t]) ==> GetsToRun(states', |who|, t) {
      assert states'[|who|] == states[|who|];
      LeavesThrough(states', who', |who|, |who'|, t);
    }
  }

  /** From every reachable state a thread that is outside can call start_exclusive or cpu_exec_start, and gets what it asks for. */
  lemma WhoAsksGets(states: seq<State>, who: seq<nat>, t: nat, exclusive: bool) returns (states': seq<State>, who': seq<nat>)
    requires Run(states, who) && t < |states[|who|].pc| && states[|who|].pc[t].Outside?
    ensures Run(states', who') && states <= states' && who <= who'
    ensures if exclusive then GetsIn(states', |who|, t) else GetsToRun(states', |who|, t)
  {
    var s := states[|who|];
    var o := RunInv(states, who, |who|);
    var s' := if exclusive then Goto(s, t, ExLock) else Goto(s, t, StartRead).(running := s.running[t := true]);
    assert Step(s, s', t) && s'.pc[t] == if exclusive then ExLock else StartRead;
    var ss, ww := states + [s'], who + [t];
    forall k | 0 <= k < |ww| ensures RunStep(ss, ww, k) {
      if k < |who| { assert RunStep(states, who, k); }
    }
    states', who' := EverybodyGetsThrough(ss, ww);
    if exclusive {
      assert Entering(ss[|ww|].pc[t]) && GetsIn(states', |ww|, t);
    } else {
      assert Starting(ss[|ww|].pc[t]) && GetsToRun(states', |ww|, t);
    }
  }

  /** Without a section pending, cpu_exec_start and cpu_exec_end touch neither the lock nor another thread. */
  lemma FastPath(s: State, s': State, c: nat)
    requires WellFormed(s) && c < |s.pc| && Step(s, s', c) && s.pending == 0
    ensures s.pc[c].StartRead? ==> s' == Goto(s, c, Executing)
    ensures s.pc[c].EndRead? ==> s' == Goto(s, c, Outside)
  {
  }

  /** A thread on its way out of execution wakes another up only if it is the last that was waited for, and only one that waits for it. */
  lemma OnlyLastSignals(s: State, s': State, c: nat, d: nat)
    requires WellFormed(s) && c < |s.pc| && d < |s.pc| && d != c && Step(s, s', c) && s.pc[c].EndSignal? && |s'.pc| == |s.pc|
    ensures s'.pc[d] != s.pc[d] ==> s.pending == 1 && s.pc[d] == ExWait(false) && s'.pc[d] == ExWait(true)
  {
  }
}
