// The vCont packet: per-thread resume actions (gdbstub.c:509-568, 741-887, 1179-1357).
module GdbVcont {

  import opened Wrappers

  type Text = seq<char>

  /** A packet is a C string: it ends at its first NUL. */
  function CString(p: Text): (s: Text)
    ensures s <= p && '\0' !in s
    ensures |s| < |p| ==> p[|s|] == '\0'
  {
    if p == "" || p[0] == '\0' then "" else [p[0]] + CString(p[1..])
  }

  const ULONG_MAX: nat := 0xffff_ffff_ffff_ffff
  const UINT32: nat := 0x1_0000_0000

  /** `Undefined`: the source reads past the end of the packet or through a null process. */
  datatype Status = Done | NotSupported | Invalid | OutOfRange | Undefined

  // ----- numbers (strtoul in base 16, through qemu_strtoul) -------------------------------

  predicate IsHexDigit(c: char) {
    '0' <= c <= '9' || 'a' <= c <= 'f' || 'A' <= c <= 'F'
  }

  function DigitValue(c: char): (v: nat)
    requires IsHexDigit(c)
    ensures v < 16
  {
    if c <= '9' then c as int - 48 else if c <= 'F' then c as int - 55 else c as int - 87
  }

  /** The digits, in either case, and no other character. */
  lemma DigitValues(v: nat)
    requires v < 16
    ensures DigitValue("0123456789abcdef"[v]) == v && DigitValue("0123456789ABCDEF"[v]) == v
    ensures forall c :: IsHexDigit(c) <==> c in "0123456789abcdefABCDEF"
  {
    assert forall c :: '0' <= c <= '9' ==> c in "0123456789";
  }

  predicate IsSpace(c: char) {
    c == ' ' || '\t' <= c <= '\r'
  }

  /** Blank, tab, new line, vertical tab, form feed and carriage return. */
  lemma Spaces(c: char)
    ensures IsSpace(c) <==> c as int in {32, 9, 10, 11, 12, 13}
  {
  }

  function SkipSpace(s: Text): Text {
    if s != "" && IsSpace(s[0]) then SkipSpace(s[1..]) else s
  }

  /** The value of the leading digits after `acc`, and the text behind them. */
  function Digits(acc: nat, s: Text): (nat, Text)
    decreases |s|
  {
    if s != "" && IsHexDigit(s[0]) then Digits(16 * acc + DigitValue(s[0]), s[1..]) else (acc, s)
  }

  datatype Number = Number(value: nat, rest: Text) | NoNumber(status: Status)

  function StrToUl(s: Text): (n: Number)
    ensures n.Number? ==> n.value <= ULONG_MAX && |n.rest| < |s|
    ensures n.NoNumber? ==> n.status == Invalid || n.status == OutOfRange
  {
    SpaceShrinks(s);
    var s1 := SkipSpace(s);
    var neg := s1 != "" && s1[0] == '-';
    var s2 := if s1 != "" && (s1[0] == '-' || s1[0] == '+') then s1[1..] else s1;
    var s3 := if |s2| >= 3 && s2[0] == '0' && (s2[1] == 'x' || s2[1] == 'X') && IsHexDigit(s2[2]) then s2[2..] else s2;
    if s3 == "" || !IsHexDigit(s3[0]) then NoNumber(Invalid) else
      var (v, rest) := Digits(0, s3);
      DigitsShrink(0, s3);
      if v > ULONG_MAX then NoNumber(OutOfRange)
      else Number(if neg && v != 0 then ULONG_MAX + 1 - v else v, rest)
  }

  lemma {:induction false} SpaceShrinks(s: Text)
    ensures |SkipSpace(s)| <= |s|
  {
    if s != "" && IsSpace(s[0]) { SpaceShrinks(s[1..]); }
  }

  lemma {:induction false} DigitsShrink(acc: nat, s: Text)
    ensures |Digits(acc, s).1| <= |s|
    ensures s != "" && IsHexDigit(s[0]) ==> |Digits(acc, s).1| < |s|
    decreases |s|
  {
    if s != "" && IsHexDigit(s[0]) { DigitsShrink(16 * acc + DigitValue(s[0]), s[1..]); }
  }

  // ----- reading one item -----------------------------------------------------------------

  datatype Selector = AllProcesses | AllThreads(pid: nat) | OneThread(pid: nat, tid: nat)

  datatype Item = Item(step: bool, signal: Option<nat>, sel: Selector)

  datatype IdResult = Id(sel: Selector, rest: Text) | NoId(status: Status)

  /** read_thread_id (gdbstub.c:1179-1224). */
  function ReadThreadId(s: Text): (r: IdResult)
    ensures r.Id? ==> |r.rest| < |s|
    ensures r.NoId? ==> r.status == Invalid || r.status == Undefined
  {
    if s != "" && s[0] == 'p' then
      match StrToUl(s[1..])
      case NoNumber(_) => NoId(Invalid)
      case Number(p, rest) => if rest == "" then NoId(Undefined) else ReadTid(p, rest[1..])
    else ReadTid(1, s)
  }

  function ReadTid(p: nat, s: Text): (r: IdResult)
    ensures r.Id? ==> |r.rest| < |s|
    ensures r.NoId? ==> r.status == Invalid
  {
    match StrToUl(s)
    case NoNumber(_) => NoId(Invalid)
    case Number(t, rest) =>
      Id(if p == ULONG_MAX then AllProcesses
         else if t == ULONG_MAX then AllThreads(p % UINT32)
         else OneThread(p % UINT32, t % UINT32), rest)
  }

  datatype ItemResult = Got(item: Item, rest: Text) | Bad(status: Status)

  function ReadTarget(step: bool, signal: Option<nat>, s: Text): (r: ItemResult)
    ensures r.Got? ==> |r.rest| <= |s|
    ensures r.Bad? ==> r.status != Done
  {
    if s == "" || s[0] == ';' then Got(Item(step, signal, AllProcesses), s)
    else if s[0] == ':' then
      match ReadThreadId(s[1..])
      case Id(sel, rest) => Got(Item(step, signal, sel), rest)
      case NoId(st) => Bad(st)
    else Bad(NotSupported)
  }

  /** One turn of the parsing loop (gdbstub.c:1267-1303). */
  function ReadItem(s: Text): (r: ItemResult)
    requires s != ""
    ensures r.Got? ==> |r.rest| < |s|
    ensures r.Bad? ==> r.status != Done
  {
    if s[0] != ';' || |s| == 1 then Bad(NotSupported)
    else if s[1] == 'C' || s[1] == 'S' then
      match StrToUl(s[2..])
      case NoNumber(st) => Bad(st)
      case Number(v, rest) => ReadTarget(s[1] == 'S', Some(v), rest)
    else if s[1] == 'c' || s[1] == 's' then ReadTarget(s[1] == 's', None, s[2..])
    else Bad(NotSupported)
  }

  // ----- the machine ----------------------------------------------------------------------

  datatype Process = Process(pid: nat, attached: bool)

  /** A CPU of the list; its thread id is its index plus one. */
  datatype Cpu = Cpu(index: nat, cluster: Option<nat>)

  datatype Machine = Machine(cpus: seq<Cpu>, processes: seq<Process>, maxCpus: nat)

  /** What the stub guarantees once a machine with a CPU is attached. */
  ghost predicate Valid(m: Machine) {
    && m.cpus != [] && m.processes != []
    && (forall i :: 0 <= i < |m.cpus| ==> m.cpus[i].index < m.maxCpus)
    && (forall i, j :: 0 <= i < j < |m.cpus| ==> m.cpus[i].index != m.cpus[j].index)
    && (forall i, j :: 0 <= i < j < |m.processes| ==> m.processes[i].pid != m.processes[j].pid)
    && (forall i :: 0 <= i < |m.processes| ==> m.processes[i].pid != 0)
    && (forall i :: 0 <= i < |m.cpus| ==> HasProcess(m, CpuPid(m, i)))
  }

  ghost predicate HasProcess(m: Machine, pid: nat) {
    exists k :: 0 <= k < |m.processes| && m.processes[k].pid == pid
  }

  function CpuPid(m: Machine, i: nat): nat
    requires i < |m.cpus| && m.processes != []
  {
    match m.cpus[i].cluster
    case None => m.processes[|m.processes| - 1].pid
    case Some(c) => c + 1
  }

  /** The CPUs of a cluster are a process numbered from 1; those outside any cluster belong to the last process. */
  lemma CpuPidMeans(m: Machine, i: nat)
    requires i < |m.cpus| && m.processes != []
    ensures m.cpus[i].cluster.Some? ==> CpuPid(m, i) == m.cpus[i].cluster.value + 1
    ensures m.cpus[i].cluster.None? ==> CpuPid(m, i) == m.processes[|m.processes| - 1].pid
  {
  }

  ghost predicate Attached(m: Machine, pid: nat) {
    exists k :: 0 <= k < |m.processes| && m.processes[k].pid == pid && m.processes[k].attached
  }

  ghost predicate CpuAttached(m: Machine, i: nat)
    requires i < |m.cpus| && m.processes != []
  {
    Attached(m, CpuPid(m, i))
  }

  /** The process a number stands for: 0 is the first one. */
  ghost function Named(m: Machine, pid: nat): nat
    requires m.processes != []
  {
    if pid == 0 then m.processes[0].pid else pid
  }

  // ----- what a selector covers -----------------------------------------------------------

  /** The CPU is attached and agrees with the process and thread given; 0 stands for any. */
  ghost predicate Matches(m: Machine, pid: nat, tid: nat, i: nat)
    requires m.processes != [] && i < |m.cpus|
  {
    CpuAttached(m, i) && (pid == 0 || CpuPid(m, i) == pid) && (tid == 0 || m.cpus[i].index + 1 == tid)
  }

  /** The CPU is the first that matches. */
  ghost predicate Picks(m: Machine, pid: nat, tid: nat, i: nat)
    requires m.processes != []
  {
    i < |m.cpus| && Matches(m, pid, tid, i) && forall k :: 0 <= k < i ==> !Matches(m, pid, tid, k)
  }

  ghost predicate Covers(m: Machine, sel: Selector, i: nat)
    requires m.processes != [] && i < |m.cpus|
  {
    match sel
    case AllProcesses => CpuAttached(m, i)
    case AllThreads(pid) => CpuPid(m, i) == Named(m, pid)
    case OneThread(pid, tid) => Picks(m, pid, tid, i)
  }

  /** What the packet gets for naming this target. */
  ghost function TargetStatus(m: Machine, sel: Selector): Status
    requires m.processes != []
  {
    match sel
    case AllProcesses => Done
    case AllThreads(pid) =>
      if !HasProcess(m, Named(m, pid)) then Undefined else if Attached(m, Named(m, pid)) then Done else Invalid
    case OneThread(pid, tid) =>
      if exists i: nat :: Picks(m, pid, tid, i) then Done else Invalid
  }

  ghost predicate ProcessIs(m: Machine, pid: nat, attached: bool) {
    exists k :: 0 <= k < |m.processes| && m.processes[k].pid == pid && m.processes[k].attached == attached
  }

  /** Naming a CPU by its process and thread covers exactly that CPU, and is refused exactly if its process is not attached. */
  lemma ThreadTarget(m: Machine, i: nat)
    requires Valid(m) && i < |m.cpus|
    ensures var sel := OneThread(CpuPid(m, i), m.cpus[i].index + 1);
      && TargetStatus(m, sel) == (if ProcessIs(m, CpuPid(m, i), true) then Done else Invalid)
      && forall j :: 0 <= j < |m.cpus| ==> (Covers(m, sel, j) <==> j == i && ProcessIs(m, CpuPid(m, i), true))
  {
    var pid, tid := CpuPid(m, i), m.cpus[i].index + 1;
    assert pid != 0 by { assert HasProcess(m, pid); }
    forall j | 0 <= j < |m.cpus| ensures Matches(m, pid, tid, j) <==> j == i && ProcessIs(m, pid, true) {}
    if ProcessIs(m, pid, true) {
      assert Picks(m, pid, tid, i);
    }
  }

  /** The number 0 stands for any process or any thread: the first attached CPU that fits is meant. */
  lemma ZeroMeansAny(m: Machine, i: nat)
    requires Valid(m) && i < |m.cpus| && ProcessIs(m, CpuPid(m, i), true)
    ensures Covers(m, OneThread(0, m.cpus[i].index + 1), i)
    ensures Covers(m, OneThread(CpuPid(m, i), 0), i) <==> forall k :: 0 <= k < i ==> CpuPid(m, k) != CpuPid(m, i)
    ensures Covers(m, OneThread(0, 0), i) <==> forall k :: 0 <= k < i ==> !ProcessIs(m, CpuPid(m, k), true)
  {
    assert CpuPid(m, i) != 0 by { assert HasProcess(m, CpuPid(m, i)); }
    forall k | 0 <= k < |m.cpus| ensures CpuAttached(m, k) <==> ProcessIs(m, CpuPid(m, k), true) {}
    if forall k :: 0 <= k < i ==> CpuPid(m, k) != CpuPid(m, i) {
      assert Picks(m, CpuPid(m, i), 0, i);
    } else {
      var k :| 0 <= k < i && CpuPid(m, k) == CpuPid(m, i);
      assert Matches(m, CpuPid(m, i), 0, k);
    }
    if forall k :: 0 <= k < i ==> !ProcessIs(m, CpuPid(m, k), true) {
      assert Picks(m, 0, 0, i);
    } else {
      var k :| 0 <= k < i && ProcessIs(m, CpuPid(m, k), true);
      assert Matches(m, 0, 0, k);
    }
  }

  /** A thread that no CPU has is refused. */
  lemma NoSuchThread(m: Machine, pid: nat, tid: nat)
    requires Valid(m) && tid != 0 && forall i :: 0 <= i < |m.cpus| ==> m.cpus[i].index + 1 != tid
    ensures TargetStatus(m, OneThread(pid, tid)) == Invalid
  {
  }

  /** All threads of a process are its CPUs; a process that is there and not attached is refused; all processes are the attached ones. */
  lemma ProcessTarget(m: Machine, pid: nat, i: nat)
    requires Valid(m) && pid != 0 && i < |m.cpus|
    ensures Covers(m, AllThreads(pid), i) <==> CpuPid(m, i) == pid
    ensures Covers(m, AllThreads(0), i) <==> CpuPid(m, i) == m.processes[0].pid
    ensures ProcessIs(m, pid, true) ==> TargetStatus(m, AllThreads(pid)) == Done
    ensures ProcessIs(m, pid, false) ==> TargetStatus(m, AllThreads(pid)) == Invalid
    ensures Covers(m, AllProcesses, i) <==> ProcessIs(m, CpuPid(m, i), true)
  {
  }

  // ----- the packet as a whole ------------------------------------------------------------

  datatype Script = Script(items: seq<Item>) | Broken(status: Status)

  /** The items of a packet, or the status of the first thing wrong with it. */
  ghost function Parse(m: Machine, s: Text): Script
    requires m.processes != []
    decreases |s|
  {
    if s == "" then Script([]) else
      match ReadItem(s)
      case Bad(st) => Broken(st)
      case Got(item, rest) =>
        if TargetStatus(m, item.sel) != Done then Broken(TargetStatus(m, item.sel)) else
          match Parse(m, rest)
          case Broken(st) => Broken(st)
          case Script(items) => Script([item] + items)
  }

  // ----- packets the source does not handle -----------------------------------------------

  /** What follows the action of the first item, and its signal if it has one. */
  function AfterAction(s: Text): Option<Text> {
    if |s| < 2 || s[0] != ';' then None
    else if s[1] == 'c' || s[1] == 's' then Some(s[2..])
    else if s[1] == 'C' || s[1] == 'S' then
      match StrToUl(s[2..])
      case NoNumber(_) => None
      case Number(_, rest) => Some(rest)
    else None
  }

  /** The first item names a process by its number, and there the packet ends. */
  predicate EndsInProcess(s: Text) {
    var t := AfterAction(s);
    t.Some? && ":p" <= t.value && StrToUl(t.value[2..]).Number? && StrToUl(t.value[2..]).rest == ""
  }

  /** The first item addresses all threads of a process that does not exist. */
  ghost predicate NamesMissing(m: Machine, s: Text)
    requires m.processes != []
  {
    s != "" && ReadItem(s).Got? && ReadItem(s).item.sel.AllThreads? && !HasProcess(m, Named(m, ReadItem(s).item.sel.pid))
  }

  /** The packet `s` goes on as `rest` after a number of items that are in order. */
  ghost predicate GoesOn(m: Machine, s: Text, rest: Text)
    requires m.processes != []
    decreases |s|
  {
    s == rest || (s != "" && ReadItem(s).Got? && TargetStatus(m, ReadItem(s).item.sel) == Done && GoesOn(m, ReadItem(s).rest, rest))
  }

  lemma BadItem(s: Text)
    requires s != ""
    ensures ReadItem(s) == Bad(Undefined) <==> EndsInProcess(s)
  {
    if AfterAction(s).Some? {
      var t := AfterAction(s).value;
      if t != "" && t[0] == ':' {
        assert ":p" <= t <==> |t| >= 2 && t[1] == 'p';
        if |t| >= 2 { assert t[1..][1..] == t[2..]; }
      }
    }
  }

  /** A packet is not handled if and only if, after items in order, a process number ends it or a process is missing. */
  lemma {:induction false} UndefinedExactly(m: Machine, s: Text)
    requires m.processes != []
    ensures Parse(m, s) == Broken(Undefined) <==> exists rest :: GoesOn(m, s, rest) && (EndsInProcess(rest) || NamesMissing(m, rest))
    decreases |s|
  {
    if s != "" {
      BadItem(s);
      if ReadItem(s).Got? {
        var next := ReadItem(s).rest;
        UndefinedExactly(m, next);
        if rest :| GoesOn(m, next, rest) && (EndsInProcess(rest) || NamesMissing(m, rest)) {
          assert TargetStatus(m, ReadItem(s).item.sel) == Done ==> GoesOn(m, s, rest);
        }
      }
      if EndsInProcess(s) || NamesMissing(m, s) {
        assert GoesOn(m, s, s);
      }
    }
  }

  /** A process number at the end of a packet, for every machine. */
  lemma ProcessAtEnd(m: Machine)
    requires m.processes != []
    ensures Parse(m, ";c:p1") == Broken(Undefined)
  {
    StrToUlHex(1, "");
    assert Hex(1) + "" == "1";
    assert ";c:p1"[2..] == ":p1" && ":p1"[2..] == "1";
    BadItem(";c:p1");
  }

  /** All threads of a process that the machine does not have. */
  lemma ProcessMissing(m: Machine)
    requires m.processes != [] && !HasProcess(m, 7)
    ensures Parse(m, ";c:p7.-1") == Broken(Undefined)
  {
    var item := Item(false, None, AllThreads(7));
    ReadItemPrinted(item, "");
    assert Hex(7) == "7";
    assert PrintAction(item, PrintSelector(item.sel, "")) == ";c:p7.-1";
  }

  /** The value 0, 1, 'c' or 's' of newstates. */
  datatype Action = Absent | Unset | Continue | Step

  function ActionOf(item: Item): Action {
    if item.step then Step else Continue
  }

  /** Item `k` is the leftmost one that covers CPU `i`. */
  ghost predicate Leftmost(m: Machine, items: seq<Item>, i: nat, k: nat)
    requires m.processes != [] && i < |m.cpus|
  {
    && k < |items| && Covers(m, items[k].sel, i)
    && forall j :: 0 <= j < k ==> !Covers(m, items[j].sel, i)
  }

  ghost function FinalAction(m: Machine, items: seq<Item>, i: nat): Action
    requires m.processes != [] && i < |m.cpus|
  {
    if items == [] then Unset
    else
      var a := FinalAction(m, items[..|items| - 1], i);
      if a == Unset && Covers(m, items[|items| - 1].sel, i) then ActionOf(items[|items| - 1]) else a
  }

  ghost predicate Uncovered(m: Machine, items: seq<Item>, i: nat)
    requires m.processes != [] && i < |m.cpus|
  {
    forall k :: 0 <= k < |items| ==> !Covers(m, items[k].sel, i)
  }

  /** A CPU is left alone exactly when no item covers it. */
  lemma {:induction false} UncoveredUnset(m: Machine, items: seq<Item>, i: nat)
    requires m.processes != [] && i < |m.cpus|
    ensures FinalAction(m, items, i) != Absent
    ensures FinalAction(m, items, i) == Unset <==> Uncovered(m, items, i)
  {
    if items != [] {
      var front, item := items[..|items| - 1], items[|items| - 1];
      UncoveredUnset(m, front, i);
      assert items == front + [item];
      assert Uncovered(m, items, i) <==> Uncovered(m, front, i) && !Covers(m, item.sel, i);
    }
  }

  /** Leftmost match: the action is that of the first covering item. */
  lemma {:induction false} LeftmostWins(m: Machine, items: seq<Item>, i: nat, k: nat)
    requires m.processes != [] && i < |m.cpus| && Leftmost(m, items, i, k)
    ensures FinalAction(m, items, i) == ActionOf(items[k])
  {
    var front := items[..|items| - 1];
    UncoveredUnset(m, front, i);
    if k < |front| {
      LeftmostWins(m, front, i, k);
    } else {
      assert Uncovered(m, front, i);
    }
  }

  /** The signal delivered is that of the last item that carries one, or none (0). */
  ghost function FinalSignal(items: seq<Item>): nat {
    if items == [] then 0
    else
      match items[|items| - 1].signal
      case Some(n) => n
      case None => FinalSignal(items[..|items| - 1])
  }

  /** It is 0 if no item carries a signal, and otherwise that of an item which carries one with none after it. */
  lemma {:induction false} SignalMeans(items: seq<Item>)
    ensures (forall i :: 0 <= i < |items| ==> items[i].signal.None?) ==> FinalSignal(items) == 0
    ensures (exists i :: 0 <= i < |items| && items[i].signal.Some?) ==> exists i: nat :: LastSignal(items, i) && items[i].signal == Some(FinalSignal(items))
  {
    if items != [] && items[|items| - 1].signal.None? {
      var front := items[..|items| - 1];
      SignalMeans(front);
      if i :| 0 <= i < |items| && items[i].signal.Some? {
        assert front[i].signal.Some?;
        var k: nat :| LastSignal(front, k) && front[k].signal == Some(FinalSignal(front));
        assert LastSignal(items, k);
      }
    } else if items != [] {
      assert LastSignal(items, |items| - 1);
    }
  }

  ghost predicate LastSignal(items: seq<Item>, i: nat) {
    i < |items| && items[i].signal.Some? && forall k :: i < k < |items| ==> items[k].signal.None?
  }

  /** The CPUs that a script resumes, and those that it single-steps. */
  ghost function Resumed(m: Machine, items: seq<Item>): set<nat>
    requires m.processes != []
  {
    set i: nat | i < |m.cpus| && FinalAction(m, items, i) != Unset
  }

  ghost function Stepped(m: Machine, items: seq<Item>): set<nat>
    requires m.processes != []
  {
    set i: nat | i < |m.cpus| && FinalAction(m, items, i) == Step
  }

  ghost function UpTo(cpus: set<nat>, k: nat): set<nat> {
    set i: nat | i in cpus && i < k
  }

  lemma OneMore(cpus: set<nat>, k: nat)
    ensures UpTo(cpus, k + 1) == UpTo(cpus, k) + if k in cpus then {k} else {}
  {
  }

  lemma AllOf(cpus: set<nat>, k: nat)
    requires forall i :: i in cpus ==> i < k
    ensures UpTo(cpus, k) == cpus
  {
  }

  /** A CPU is resumed exactly when some item covers it, and the leftmost such item says how. */
  lemma WhoResumes(m: Machine, items: seq<Item>, i: nat)
    requires m.processes != [] && i < |m.cpus|
    ensures i in Resumed(m, items) <==> exists k: nat :: Leftmost(m, items, i, k)
    ensures i in Stepped(m, items) <==> exists k: nat :: Leftmost(m, items, i, k) && items[k].step
  {
    UncoveredUnset(m, items, i);
    if !Uncovered(m, items, i) {
      var k := FirstCover(m, items, i);
      LeftmostWins(m, items, i, k);
      forall k': nat | Leftmost(m, items, i, k') ensures k' == k {
        assert Covers(m, items[k'].sel, i) && Covers(m, items[k].sel, i);
      }
    }
  }

  lemma {:induction false} FirstCover(m: Machine, items: seq<Item>, i: nat) returns (k: nat)
    requires m.processes != [] && i < |m.cpus| && !Uncovered(m, items, i)
    ensures Leftmost(m, items, i, k)
  {
    k := 0;
    while !Covers(m, items[k].sel, i)
      invariant k < |items| && forall j :: 0 <= j < k ==> !Covers(m, items[j].sel, i)
      decreases |items| - k
    {
      assert exists j :: 0 <= j < |items| && Covers(m, items[j].sel, i);
      k := k + 1;
    }
  }

  ghost function After(done: seq<Item>, script: Script): Script {
    match script
    case Script(items) => Script(done + items)
    case Broken(_) => script
  }

  /** One more item read and found good. */
  lemma ParseOne(m: Machine, done: seq<Item>, s: Text)
    requires m.processes != [] && s != "" && ReadItem(s).Got?
    ensures var r := ReadItem(s);
      After(done, Parse(m, s)) ==
        if TargetStatus(m, r.item.sel) == Done then After(done + [r.item], Parse(m, r.rest)) else Broken(TargetStatus(m, r.item.sel))
  {
    var r := ReadItem(s);
    var status, tail := TargetStatus(m, r.item.sel), Parse(m, r.rest);
    assert Parse(m, s) == if status != Done then Broken(status) else After([r.item], tail);
    if tail.Script? {
      assert done + ([r.item] + tail.items) == done + [r.item] + tail.items;
    }
  }

  // ----- writing a packet -----------------------------------------------------------------

  function HexDigit(v: nat): (c: char)
    requires v < 16
    ensures IsHexDigit(c) && DigitValue(c) == v
  {
    "0123456789abcdef"[v]
  }

  function Hex(n: nat): (s: Text)
    ensures s != "" && forall i :: 0 <= i < |s| ==> IsHexDigit(s[i])
  {
    if n < 16 then [HexDigit(n)] else Hex(n / 16) + [HexDigit(n % 16)]
  }

  /** The text ends here, or goes on with a separator. */
  predicate Stops(s: Text) {
    s == "" || s[0] == ';' || s[0] == ':' || s[0] == '.'
  }

  lemma {:induction false} DigitsConcat(acc: nat, a: Text, b: Text)
    requires forall i :: 0 <= i < |a| ==> IsHexDigit(a[i])
    ensures Digits(acc, a + b) == Digits(Digits(acc, a).0, b)
    decreases |a|
  {
    if a == "" {
      assert a + b == b;
    } else {
      assert (a + b)[1..] == a[1..] + b;
      DigitsConcat(16 * acc + DigitValue(a[0]), a[1..], b);
    }
  }

  lemma {:induction false} DigitsHex(n: nat, rest: Text)
    requires Stops(rest)
    ensures Digits(0, Hex(n) + rest) == (n, rest)
  {
    var q, d := n / 16, n % 16;
    LastDigit(q, d, rest);
    if n >= 16 {
      DigitsHex(q, "");
      var a, b := Hex(q), [HexDigit(d)] + rest;
      assert a + "" == a;
      DigitsConcat(0, a, b);
      assert Hex(n) + rest == a + b;
    }
  }

  lemma LastDigit(acc: nat, d: nat, rest: Text)
    requires d < 16 && Stops(rest)
    ensures Digits(acc, [HexDigit(d)] + rest) == (16 * acc + d, rest)
  {
    assert ([HexDigit(d)] + rest)[1..] == rest;
  }

  lemma StrToUlHex(n: nat, rest: Text)
    requires n <= ULONG_MAX && Stops(rest)
    ensures StrToUl(Hex(n) + rest) == Number(n, rest)
  {
    var s := Hex(n) + rest;
    assert SkipSpace(s) == s;
    assert forall i :: 0 <= i < |Hex(n)| ==> IsHexDigit(s[i]);
    assert |s| >= 2 ==> s[1] != 'x' && s[1] != 'X' by {
      if |Hex(n)| == 1 && |s| >= 2 { assert s[1] == rest[0]; }
    }
    DigitsHex(n, rest);
  }

  /** A number above the range is refused. */
  lemma StrToUlTooBig(n: nat, rest: Text)
    requires n > ULONG_MAX && Stops(rest)
    ensures StrToUl(Hex(n) + rest) == NoNumber(OutOfRange)
  {
    var s := Hex(n) + rest;
    assert SkipSpace(s) == s;
    assert forall i :: 0 <= i < |Hex(n)| ==> IsHexDigit(s[i]);
    HexLonger(n);
    DigitsHex(n, rest);
  }

  lemma HexLonger(n: nat)
    requires n >= 16
    ensures |Hex(n)| >= 2
  {
  }

  /** The prefix of a hexadecimal number, a plus sign and a blank in front of it are read over. */
  lemma StrToUlPrefix(n: nat, rest: Text)
    requires n <= ULONG_MAX && Stops(rest)
    ensures StrToUl("0x" + (Hex(n) + rest)) == Number(n, rest)
  {
    var s := Hex(n) + rest;
    assert s[0] == Hex(n)[0];
    assert ("0x" + s)[2..] == s && SkipSpace("0x" + s) == "0x" + s;
    DigitsHex(n, rest);
  }

  lemma StrToUlPlus(n: nat, rest: Text)
    requires n <= ULONG_MAX && Stops(rest)
    ensures StrToUl("+" + (Hex(n) + rest)) == Number(n, rest)
  {
    var s := Hex(n) + rest;
    SecondIsNoPrefix(n, rest);
    assert ("+" + s)[1..] == s && SkipSpace("+" + s) == "+" + s;
    DigitsHex(n, rest);
  }

  lemma StrToUlBlank(s: Text)
    ensures StrToUl(" " + s) == StrToUl(s)
  {
    assert (" " + s)[1..] == s && SkipSpace(" " + s) == SkipSpace(s);
  }

  lemma SecondIsNoPrefix(n: nat, rest: Text)
    requires Stops(rest)
    ensures var s := Hex(n) + rest; IsHexDigit(s[0]) && (|s| >= 2 ==> s[1] != 'x' && s[1] != 'X')
  {
    var s := Hex(n) + rest;
    assert s[0] == Hex(n)[0];
    if |s| >= 2 {
      if |Hex(n)| == 1 { assert s[1] == rest[0]; } else { assert s[1] == Hex(n)[1]; }
    }
  }

  /** Without a digit there is no number. */
  lemma StrToUlNothing(rest: Text)
    requires Stops(rest)
    ensures StrToUl(rest) == NoNumber(Invalid)
  {
  }

  lemma StrToUlMinusOne(rest: Text)
    requires Stops(rest)
    ensures StrToUl("-1" + rest) == Number(ULONG_MAX, rest)
  {
    var s := "-1" + rest;
    assert SkipSpace(s) == s && s[1..] == "1" + rest && ("1" + rest)[1..] == rest;
    assert Digits(0, "1" + rest) == Digits(1, rest) == (1, rest);
  }

  /** A thread selector, followed by `rest`. */
  function PrintSelector(sel: Selector, rest: Text): Text {
    match sel
    case AllProcesses => rest
    case AllThreads(pid) => ":" + PrintId(pid, "-1" + rest)
    case OneThread(pid, tid) => ":" + PrintId(pid, Hex(tid) + rest)
  }

  function PrintId(pid: nat, rest: Text): Text {
    "p" + (Hex(pid) + ("." + rest))
  }

  /** An action, followed by `rest`. */
  function PrintAction(item: Item, rest: Text): Text {
    match item.signal
    case None => [';', if item.step then 's' else 'c'] + rest
    case Some(n) => [';', if item.step then 'S' else 'C'] + (Hex(n) + rest)
  }

  function Print(items: seq<Item>): Text {
    if items == [] then "" else PrintAction(items[0], PrintSelector(items[0].sel, Print(items[1..])))
  }

  predicate Printable(item: Item) {
    && (item.signal.Some? ==> item.signal.value <= ULONG_MAX)
    && match item.sel
       case AllProcesses => true
       case AllThreads(pid) => pid < UINT32
       case OneThread(pid, tid) => pid < UINT32 && tid < UINT32
  }

  lemma ReadIdPrinted(pid: nat, rest: Text)
    requires pid < UINT32
    ensures ReadThreadId(PrintId(pid, rest)) == ReadTid(pid, rest)
  {
    var tail := "." + rest;
    assert PrintId(pid, rest)[1..] == Hex(pid) + tail;
    StrToUlHex(pid, tail);
    assert tail[1..] == rest;
  }

  lemma ReadAllPrinted(pid: nat, rest: Text)
    requires pid < UINT32 && Stops(rest)
    ensures ReadThreadId(PrintId(pid, "-1" + rest)) == Id(AllThreads(pid), rest)
  {
    ReadTidMinusOne(pid, rest);
    ReadIdPrinted(pid, "-1" + rest);
  }

  lemma ReadTidMinusOne(p: nat, rest: Text)
    requires p < UINT32 && Stops(rest)
    ensures ReadTid(p, "-1" + rest) == Id(AllThreads(p), rest)
  {
    StrToUlMinusOne(rest);
  }

  lemma ReadOnePrinted(pid: nat, tid: nat, rest: Text)
    requires pid < UINT32 && tid < UINT32 && Stops(rest)
    ensures ReadThreadId(PrintId(pid, Hex(tid) + rest)) == Id(OneThread(pid, tid), rest)
  {
    var s := Hex(tid) + rest;
    StrToUlHex(tid, rest);
    ReadTidNumber(pid, s);
    ReadIdPrinted(pid, s);
  }

  /** The number -1 for the process stands for all of them, whatever thread is named. */
  lemma ReadEveryPrinted(tid: nat, rest: Text)
    requires tid <= ULONG_MAX && Stops(rest)
    ensures ReadThreadId("p-1." + (Hex(tid) + rest)) == Id(AllProcesses, rest)
  {
    var s := Hex(tid) + rest;
    StrToUlMinusOne("." + s);
    assert ("p-1." + s)[1..] == "-1" + ("." + s) && ("." + s)[1..] == s;
    StrToUlHex(tid, rest);
  }

  /** A thread without a process is one of process 1. */
  lemma ReadBarePrinted(tid: nat, rest: Text)
    requires tid < UINT32 && Stops(rest)
    ensures ReadThreadId(Hex(tid) + rest) == Id(OneThread(1, tid), rest)
  {
    var s := Hex(tid) + rest;
    StrToUlHex(tid, rest);
    ReadTidNumber(1, s);
    assert s[0] == Hex(tid)[0];
  }

  lemma ReadTidNumber(p: nat, s: Text)
    requires p < UINT32 && StrToUl(s).Number? && StrToUl(s).value < UINT32
    ensures ReadTid(p, s) == Id(OneThread(p, StrToUl(s).value), StrToUl(s).rest)
  {
  }

  /** Numbers of more than 32 bits are cut off. */
  lemma ReadTidCut(p: nat, s: Text)
    requires p < ULONG_MAX && StrToUl(s).Number? && StrToUl(s).value < ULONG_MAX
    ensures ReadTid(p, s) == Id(OneThread(p % 0x1_0000_0000, StrToUl(s).value % 0x1_0000_0000), StrToUl(s).rest)
  {
  }

  lemma ReadTargetId(step: bool, signal: Option<nat>, id: Text)
    requires ReadThreadId(id).Id?
    ensures ReadTarget(step, signal, ":" + id) == Got(Item(step, signal, ReadThreadId(id).sel), ReadThreadId(id).rest)
  {
    assert (":" + id)[1..] == id;
  }

  lemma ReadTargetPrinted(item: Item, rest: Text)
    requires Printable(item) && (rest == "" || rest[0] == ';')
    ensures ReadTarget(item.step, item.signal, PrintSelector(item.sel, rest)) == Got(item, rest)
  {
    match item.sel
    case AllProcesses =>
    case AllThreads(pid) =>
      ReadAllPrinted(pid, rest);
      ReadTargetId(item.step, item.signal, PrintId(pid, "-1" + rest));
    case OneThread(pid, tid) =>
      ReadOnePrinted(pid, tid, rest);
      ReadTargetId(item.step, item.signal, PrintId(pid, Hex(tid) + rest));
  }

  lemma ReadItemPrinted(item: Item, rest: Text)
    requires Printable(item) && (rest == "" || rest[0] == ';')
    ensures ReadItem(PrintAction(item, PrintSelector(item.sel, rest))) == Got(item, rest)
  {
    var tail := PrintSelector(item.sel, rest);
    ReadTargetPrinted(item, rest);
    SelectorStops(item.sel, rest);
    match item.signal
    case None => ReadPlain(item, tail);
    case Some(n) => ReadSignalled(item, n, tail);
  }

  lemma SelectorStops(sel: Selector, rest: Text)
    requires rest == "" || rest[0] == ';'
    ensures Stops(PrintSelector(sel, rest))
  {
  }

  lemma ReadPlain(item: Item, tail: Text)
    requires item.signal.None?
    ensures ReadItem(PrintAction(item, tail)) == ReadTarget(item.step, item.signal, tail)
  {
    assert PrintAction(item, tail)[2..] == tail;
  }

  lemma ReadSignalled(item: Item, n: nat, tail: Text)
    requires item.signal == Some(n) && n <= ULONG_MAX && Stops(tail)
    ensures ReadItem(PrintAction(item, tail)) == ReadTarget(item.step, item.signal, tail)
  {
    assert PrintAction(item, tail)[2..] == Hex(n) + tail;
    StrToUlHex(n, tail);
  }

  lemma PrintStarts(items: seq<Item>)
    ensures Print(items) == "" || Print(items)[0] == ';'
  {
  }

  /** The letters: 'c' and 's' continue and step, 'C' and 'S' do so with a signal. */
  lemma ActionLetters(m: Machine)
    requires m.processes != []
    ensures Parse(m, ";c") == Script([Item(false, None, AllProcesses)]) && Parse(m, ";s") == Script([Item(true, None, AllProcesses)])
    ensures Parse(m, ";C05") == Script([Item(false, Some(5), AllProcesses)]) && Parse(m, ";S05") == Script([Item(true, Some(5), AllProcesses)])
    ensures Parse(m, ";x") == Broken(NotSupported) && Parse(m, "c") == Broken(NotSupported) && Parse(m, ";") == Broken(NotSupported)
  {
    ReadSignalFive();
    assert Parse(m, "") == Script([]);
    assert ";c"[2..] == "" && ";s"[2..] == "" && ";C05"[2..] == "05" && ";S05"[2..] == "05";
    assert ReadItem(";c") == Got(Item(false, None, AllProcesses), "") && ReadItem(";s") == Got(Item(true, None, AllProcesses), "");
    assert ReadItem(";C05") == Got(Item(false, Some(5), AllProcesses), "") && ReadItem(";S05") == Got(Item(true, Some(5), AllProcesses), "");
  }

  lemma ReadSignalFive()
    ensures StrToUl("05") == Number(5, "")
  {
    assert SkipSpace("05") == "05" && "05"[1..] == "5" && "5"[1..] == "";
    assert Digits(5, "") == (5, "");
    assert Digits(0, "5") == (5, "");
    assert Digits(0, "05") == (5, "");
  }

  /** A packet written from items that all name existing targets is read back as those items. */
  lemma {:induction false} ParsePrinted(m: Machine, items: seq<Item>)
    requires m.processes != []
    requires forall k :: 0 <= k < |items| ==> Printable(items[k]) && TargetStatus(m, items[k].sel) == Done
    ensures Parse(m, Print(items)) == Script(items)
  {
    if items != [] {
      PrintStarts(items[1..]);
      ParsePrinted(m, items[1..]);
      ParseFirst(m, items[0], Print(items[1..]), items[1..]);
      assert [items[0]] + items[1..] == items;
    }
  }

  lemma ParseFirst(m: Machine, item: Item, rest: Text, items: seq<Item>)
    requires m.processes != [] && Printable(item) && TargetStatus(m, item.sel) == Done
    requires (rest == "" || rest[0] == ';') && Parse(m, rest) == Script(items)
    ensures Parse(m, PrintAction(item, PrintSelector(item.sel, rest))) == Script([item] + items)
  {
    ReadItemPrinted(item, rest);
  }

  // ----- the lookups ----------------------------------------------------------------------

  class Stub {
    const m: Machine
    /** Which CPUs have been resumed, and which of them single-step, by position in the list. */
    var resumed: set<nat>
    var stepped: set<nat>
    var signal: nat

    /** gdb_get_process (gdbstub.c:752-768). */
    method GetProcess(pid: nat) returns (r: Option<nat>)
      requires Valid(m)
      ensures r.Some? <==> HasProcess(m, Named(m, pid))
      ensures r.Some? ==> r.value < |m.processes| && m.processes[r.value].pid == Named(m, pid)
      ensures r.Some? ==> (m.processes[r.value].attached <==> Attached(m, Named(m, pid)))
    {
      if pid == 0 {
        return Some(0);
      }
      for i := 0 to |m.processes|
        invariant forall k :: 0 <= k < i ==> m.processes[k].pid != pid
      {
        if m.processes[i].pid == pid {
          return Some(i);
        }
      }
      r := None;
    }

    /** gdb_get_cpu_process (gdbstub.c:770-773). */
    method CpuProcess(i: nat) returns (k: nat)
      requires Valid(m) && i < |m.cpus|
      ensures k < |m.processes| && m.processes[k].pid == CpuPid(m, i) && (m.processes[k].attached <==> CpuAttached(m, i))
    {
      assert HasProcess(m, CpuPid(m, i));
      var r := GetProcess(CpuPid(m, i));
      k := r.value;
    }

    /** gdb_next_attached_cpu (gdbstub.c:818-831); the end of the list stands for NULL. */
    method NextAttached(i: nat) returns (n: nat)
      requires Valid(m) && i < |m.cpus|
      ensures i < n <= |m.cpus| && (n < |m.cpus| ==> CpuAttached(m, n))
      ensures forall k :: i < k < n ==> !CpuAttached(m, k)
    {
      n := i + 1;
      while n < |m.cpus|
        invariant i < n <= |m.cpus| && forall k :: i < k < n ==> !CpuAttached(m, k)
      {
        var k := CpuProcess(n);
        if m.processes[k].attached {
          break;
        }
        n := n + 1;
      }
    }

    /** gdb_first_attached_cpu (gdbstub.c:834-844). */
    method FirstAttached() returns (n: nat)
      requires Valid(m)
      ensures n <= |m.cpus| && (n < |m.cpus| ==> CpuAttached(m, n))
      ensures forall k :: 0 <= k < n ==> !CpuAttached(m, k)
    {
      var k := CpuProcess(0);
      if !m.processes[k].attached {
        n := NextAttached(0);
      } else {
        n := 0;
      }
    }

    /** get_first_cpu_in_process (gdbstub.c:788-799). */
    method FirstInProcess(pid: nat) returns (n: nat)
      requires Valid(m)
      ensures n <= |m.cpus| && (n < |m.cpus| ==> CpuPid(m, n) == pid)
      ensures forall k :: 0 <= k < n ==> CpuPid(m, k) != pid
    {
      n := 0;
      while n < |m.cpus|
        invariant n <= |m.cpus| && forall k :: 0 <= k < n ==> CpuPid(m, k) != pid
      {
        if CpuPid(m, n) == pid {
          return;
        }
        n := n + 1;
      }
    }

    /** gdb_next_cpu_in_process (gdbstub.c:801-815). */
    method NextInProcess(i: nat) returns (n: nat)
      requires Valid(m) && i < |m.cpus|
      ensures i < n <= |m.cpus| && (n < |m.cpus| ==> CpuPid(m, n) == CpuPid(m, i))
      ensures forall k :: i < k < n ==> CpuPid(m, k) != CpuPid(m, i)
    {
      var pid := CpuPid(m, i);
      n := i + 1;
      while n < |m.cpus|
        invariant i < n <= |m.cpus| && forall k :: i < k < n ==> CpuPid(m, k) != pid
      {
        if CpuPid(m, n) == pid {
          break;
        }
        n := n + 1;
      }
    }

    /** find_cpu (gdbstub.c:775-786). */
    method FindCpu(tid: nat) returns (n: nat)
      ensures n <= |m.cpus| && (n < |m.cpus| ==> m.cpus[n].index + 1 == tid)
      ensures forall k :: 0 <= k < n ==> m.cpus[k].index + 1 != tid
    {
      n := 0;
      while n < |m.cpus|
        invariant n <= |m.cpus| && forall k :: 0 <= k < n ==> m.cpus[k].index + 1 != tid
      {
        if m.cpus[n].index + 1 == tid {
          return;
        }
        n := n + 1;
      }
    }

    /** gdb_get_cpu (gdbstub.c:846-887). */
    method GetCpu(pid: nat, tid: nat) returns (r: Option<nat>)
      requires Valid(m)
      ensures r.Some? ==> Picks(m, pid, tid, r.value)
      ensures r.None? ==> forall i :: 0 <= i < |m.cpus| ==> !Matches(m, pid, tid, i)
    {
      if pid == 0 && tid == 0 {
        var n := FirstAttached();
        r := if n < |m.cpus| then Some(n) else None;
      } else if pid != 0 && tid == 0 {
        var k := GetProcess(pid);
        if k.None? || !m.processes[k.value].attached {
          return None;
        }
        var n := FirstInProcess(pid);
        r := if n < |m.cpus| then Some(n) else None;
      } else {
        var n := FindCpu(tid);
        if n == |m.cpus| {
          return None;
        }
        forall i | 0 <= i < |m.cpus| && i != n ensures m.cpus[i].index + 1 != tid {}
        var k := CpuProcess(n);
        if pid != 0 && m.processes[k].pid != pid {
          return None;
        }
        if !m.processes[k].attached {
          return None;
        }
        r := Some(n);
      }
    }

    // ----- the packet ---------------------------------------------------------------------

    /** What the array of new states says about each CPU after the items so far. */
    ghost predicate Tracks(states: array<Action>, items: seq<Item>)
      reads states
      requires Valid(m)
    {
      states.Length == m.maxCpus && forall i :: 0 <= i < |m.cpus| ==> states[m.cpus[i].index] == FinalAction(m, items, i)
    }

    /** Mark the CPU unless an earlier item has. */
    method Mark(states: array<Action>, i: nat, item: Item)
      requires Valid(m) && i < |m.cpus| && states.Length == m.maxCpus
      modifies states
      ensures states[m.cpus[i].index] == if old(states[m.cpus[i].index]) == Unset then ActionOf(item) else old(states[m.cpus[i].index])
      ensures forall k :: 0 <= k < |m.cpus| && k != i ==> states[m.cpus[k].index] == old(states[m.cpus[k].index])
    {
      if states[m.cpus[i].index] == Unset {
        states[m.cpus[i].index] := ActionOf(item);
      }
    }

    /** The three ways of applying an item (gdbstub.c:1300-1348). */
    method Apply(states: array<Action>, item: Item, ghost items: seq<Item>) returns (st: Status)
      requires Valid(m) && Tracks(states, items)
      modifies states
      ensures st == TargetStatus(m, item.sel)
      ensures st == Done ==> Tracks(states, items + [item])
    {
      match item.sel
      case AllProcesses =>
        ApplyToAll(states, item, items);
        st := Done;
      case AllThreads(pid) =>
        var k := GetProcess(pid);
        if k.None? {
          return Undefined;
        }
        if !m.processes[k.value].attached {
          return Invalid;
        }
        ApplyToProcess(states, item, items, m.processes[k.value].pid);
        st := Done;
      case OneThread(pid, tid) =>
        var r := GetCpu(pid, tid);
        if r.None? {
          return Invalid;
        }
        Mark(states, r.value, item);
        assert Marked(states, item, items, |m.cpus|);
        st := Done;
    }

    method ApplyToAll(states: array<Action>, item: Item, ghost items: seq<Item>)
      requires Valid(m) && Tracks(states, items) && item.sel.AllProcesses?
      modifies states
      ensures Tracks(states, items + [item])
    {
      var n := FirstAttached();
      while n < |m.cpus|
        invariant n <= |m.cpus| && (n < |m.cpus| ==> CpuAttached(m, n))
        invariant Marked(states, item, items, n)
        decreases |m.cpus| - n
      {
        var i := n;
        Mark(states, i, item);
        n := NextAttached(i);
      }
    }

    method ApplyToProcess(states: array<Action>, item: Item, ghost items: seq<Item>, pid: nat)
      requires Valid(m) && Tracks(states, items) && item.sel.AllThreads? && Named(m, item.sel.pid) == pid
      modifies states
      ensures Tracks(states, items + [item])
    {
      var n := FirstInProcess(pid);
      while n < |m.cpus|
        invariant n <= |m.cpus| && (n < |m.cpus| ==> CpuPid(m, n) == pid)
        invariant Marked(states, item, items, n)
        decreases |m.cpus| - n
      {
        var i := n;
        Mark(states, i, item);
        n := NextInProcess(i);
      }
    }

    /** The item has been applied to the CPUs before position `n`. */
    ghost predicate Marked(states: array<Action>, item: Item, items: seq<Item>, n: nat)
      reads states
      requires Valid(m)
    {
      && states.Length == m.maxCpus
      && (forall i :: 0 <= i < |m.cpus| && i < n ==> states[m.cpus[i].index] == FinalAction(m, items + [item], i))
      && (forall i :: n <= i < |m.cpus| ==> states[m.cpus[i].index] == FinalAction(m, items, i))
    }

    /** gdb_handle_vcont (gdbstub.c:1231-1357). */
    method HandleVcont(p: Text, needsReset: bool, prepareFails: bool) returns (st: Status)
      requires Valid(m)
      modifies this
      ensures match Parse(m, CString(p))
        case Broken(e) => st == e && resumed == old(resumed) && stepped == old(stepped) && signal == old(signal)
        case Script(items) =>
          && st == Done && signal == FinalSignal(items)
          && resumed == old(resumed) + (if needsReset || prepareFails then {} else Resumed(m, items))
          && stepped == old(stepped) + (if needsReset || prepareFails then {} else Stepped(m, items))
    {
      var states, sig;
      ghost var items;
      st, states, sig, items := ReadPacket(CString(p));
      if st == Done {
        signal := sig;
        ContinuePartial(states, needsReset, prepareFails, items);
      }
    }

    /** The loop over the items. */
    method ReadPacket(p: Text) returns (st: Status, states: array<Action>, sig: nat, ghost items: seq<Item>)
      requires Valid(m)
      ensures fresh(states)
      ensures Parse(m, p) == if st == Done then Script(items) else Broken(st)
      ensures st == Done ==> Tracks(states, items) && sig == FinalSignal(items)
    {
      states := NewStates();
      items := [];
      var s := p;
      st, sig := Done, 0;
      assert After([], Parse(m, p)) == Parse(m, p);
      while s != ""
        invariant fresh(states) && Tracks(states, items)
        invariant After(items, Parse(m, s)) == Parse(m, p)
        invariant st == Done && sig == FinalSignal(items)
        decreases |s|
      {
        var r := ReadItem(s);
        if r.Bad? {
          st := r.status;
          return;
        }
        ParseOne(m, items, s);
        if r.item.signal.Some? {
          sig := r.item.signal.value;
        }
        st := Apply(states, r.item, items);
        if st != Done {
          return;
        }
        assert (items + [r.item])[..|items|] == items;
        items, s := items + [r.item], r.rest;
      }
    }

    /** The array of new states, with every CPU present and unmarked (gdbstub.c:1252-1257). */
    method NewStates() returns (states: array<Action>)
      requires Valid(m)
      ensures fresh(states) && Tracks(states, [])
    {
      states := new Action[m.maxCpus](_ => Absent);
      for k := 0 to |m.cpus|
        invariant forall i :: 0 <= i < k ==> states[m.cpus[i].index] == Unset
      {
        states[m.cpus[k].index] := Unset;
      }
    }

    /** gdb_continue_partial (gdbstub.c:509-568). */
    method ContinuePartial(states: array<Action>, needsReset: bool, prepareFails: bool, ghost items: seq<Item>)
      requires Valid(m) && Tracks(states, items)
      modifies this`resumed, this`stepped
      ensures resumed == old(resumed) + (if needsReset || prepareFails then {} else Resumed(m, items))
      ensures stepped == old(stepped) + (if needsReset || prepareFails then {} else Stepped(m, items))
    {
      if needsReset || prepareFails {
        return;
      }
      for k := 0 to |m.cpus|
        invariant resumed == old(resumed) + UpTo(Resumed(m, items), k)
        invariant stepped == old(stepped) + UpTo(Stepped(m, items), k)
      {
        UncoveredUnset(m, items, k);
        OneMore(Resumed(m, items), k);
        OneMore(Stepped(m, items), k);
        match states[m.cpus[k].index]
        case Absent =>
        case Unset =>
        case Step =>
          stepped := stepped + {k};
          resumed := resumed + {k};
        case Continue =>
          resumed := resumed + {k};
      }
      AllOf(Resumed(m, items), |m.cpus|);
      AllOf(Stepped(m, items), |m.cpus|);
    }
  }
}
