// Addresses of legacy drives (blockdev.c:88-133, 178-228, 274-280, 892-927, 980-995).
module Drives {

  import opened Wrappers

  /** Interface types, numbered as in the source: none, IDE, SCSI, floppy, pflash, MTD, SD, virtio, Xen. */
  const IF_COUNT := 9
  type Interface = k: nat | k < IF_COUNT
  const IDE: Interface := 1
  const SCSI: Interface := 2

  datatype Drive = Drive(kind: Interface, bus: int, unit: int)

  datatype Failure = IndexWithBusOrUnit | UnitTooBig | AddressTaken | InitFailed

  // ----- addresses ------------------------------------------------------------------------

  /** C division and remainder: both truncate toward zero. */
  function Quot(a: int, b: int): int
    requires b > 0
  {
    if a >= 0 then a / b else -(-a / b)
  }

  function Rem(a: int, b: int): int
    requires b > 0
  {
    a - b * Quot(a, b)
  }

  function IndexToBus(maxDevs: nat, index: int): int {
    if maxDevs != 0 then Quot(index, maxDevs) else 0
  }

  function IndexToUnit(maxDevs: nat, index: int): int {
    if maxDevs != 0 then Rem(index, maxDevs) else index
  }

  /** The index of an address: the inverse of the two functions above. */
  function AddressToIndex(maxDevs: nat, bus: int, unit: int): int {
    if maxDevs != 0 then bus * maxDevs + unit else unit
  }

  /** An address that an index can name. */
  predicate Indexable(maxDevs: nat, bus: int, unit: int) {
    bus >= 0 && unit >= 0 && (if maxDevs != 0 then unit < maxDevs else bus == 0)
  }

  /** Non-negative indices and indexable addresses correspond one to one. */
  lemma IndexToAddress(maxDevs: nat, index: nat)
    ensures Indexable(maxDevs, IndexToBus(maxDevs, index), IndexToUnit(maxDevs, index))
    ensures AddressToIndex(maxDevs, IndexToBus(maxDevs, index), IndexToUnit(maxDevs, index)) == index
  {
    if maxDevs != 0 {
      assert index == maxDevs * (index / maxDevs) + index % maxDevs;
    }
  }

  lemma AddressRoundTrip(maxDevs: nat, bus: int, unit: int)
    requires Indexable(maxDevs, bus, unit)
    ensures AddressToIndex(maxDevs, bus, unit) >= 0
    ensures IndexToBus(maxDevs, AddressToIndex(maxDevs, bus, unit)) == bus
    ensures IndexToUnit(maxDevs, AddressToIndex(maxDevs, bus, unit)) == unit
  {
    if maxDevs != 0 {
      DivUnique(maxDevs, bus, unit);
    }
  }

  lemma DivUnique(n: nat, q: nat, r: nat)
    requires n > 0 && r < n
    ensures q * n + r >= 0 && (q * n + r) / n == q && (q * n + r) % n == r
  {
    var a := q * n + r;
    assert a >= 0 by { assert q * n >= 0; }
    assert a == n * (a / n) + a % n;
    var d := q - a / n;
    assert n * d == a % n - r;
    MultipleIsFar(n, d);
  }

  lemma MultipleIsFar(n: nat, d: int)
    ensures d >= 1 ==> n * d >= n
    ensures d <= -1 ==> n * d <= -(n as int)
  {
    if d >= 1 {
      assert n * d == n + n * (d - 1);
    } else if d <= -1 {
      assert n * d == -(n as int) + n * (d + 1);
    }
  }

  // ----- what the table says --------------------------------------------------------------

  ghost predicate Taken(drives: seq<Drive>, kind: Interface, bus: int, unit: int) {
    Drive(kind, bus, unit) in drives
  }

  /** The order in which the search visits addresses. */
  predicate Before(bus: int, unit: int, bus': int, unit': int) {
    bus < bus' || (bus == bus' && unit < unit')
  }

  /** An address the search can visit when it starts on `start`. */
  predicate Candidate(maxDevs: nat, start: int, bus: int, unit: int) {
    unit >= 0 && (if maxDevs != 0 then bus >= start && unit < maxDevs else bus == start)
  }

  /** The first free address at or after the start of a bus. */
  ghost predicate FirstFree(drives: seq<Drive>, kind: Interface, maxDevs: nat, start: int, bus: int, unit: int) {
    && Candidate(maxDevs, start, bus, unit)
    && !Taken(drives, kind, bus, unit)
    && forall b, u :: Candidate(maxDevs, start, b, u) && Before(b, u, bus, unit) ==> Taken(drives, kind, b, u)
  }

  lemma FirstFreeUnique(drives: seq<Drive>, kind: Interface, maxDevs: nat, start: int, bus: int, unit: int, bus': int, unit': int)
    requires FirstFree(drives, kind, maxDevs, start, bus, unit) && FirstFree(drives, kind, maxDevs, start, bus', unit')
    ensures bus == bus' && unit == unit'
  {
    assert !Before(bus, unit, bus', unit') && !Before(bus', unit', bus, unit);
  }

  /** What drive_new asks for: a bus (0 when absent), a unit or an index (-1 when absent). */
  datatype Request = Request(kind: Interface, bus: int, unit: int, index: int)

  /** The bus and unit that a request names before any search; unit -1 asks for a search. */
  function Asked(maxDevs: nat, r: Request): (int, int) {
    if r.index != -1 then (IndexToBus(maxDevs, r.index), IndexToUnit(maxDevs, r.index)) else (r.bus, r.unit)
  }

  /** The address given to a request, or why it gets none. */
  datatype Placement = Placed(bus: int, unit: int) | Refused(why: Failure)

  ghost predicate Places(drives: seq<Drive>, maxDevs: nat, r: Request, p: Placement) {
    var (bus, unit) := Asked(maxDevs, r);
    if r.index != -1 && (r.bus != 0 || r.unit != -1) then p == Refused(IndexWithBusOrUnit)
    else if unit == -1 then p.Placed? && FirstFree(drives, r.kind, maxDevs, bus, p.bus, p.unit)
    else if maxDevs != 0 && unit >= maxDevs then p == Refused(UnitTooBig)
    else if Taken(drives, r.kind, bus, unit) then p == Refused(AddressTaken)
    else p == Placed(bus, unit)
  }

  /** A request has exactly one outcome. */
  lemma PlacesUnique(drives: seq<Drive>, maxDevs: nat, r: Request, p: Placement, p': Placement)
    requires Places(drives, maxDevs, r, p) && Places(drives, maxDevs, r, p')
    ensures p == p'
  {
    var (bus, unit) := Asked(maxDevs, r);
    if p.Placed? && p'.Placed? && unit == -1 {
      FirstFreeUnique(drives, r.kind, maxDevs, bus, p.bus, p.unit, p'.bus, p'.unit);
    }
  }

  /** An index together with a bus or a unit is refused, whatever else is true. */
  lemma IndexAlone(drives: seq<Drive>, maxDevs: nat, r: Request, p: Placement)
    requires Places(drives, maxDevs, r, p)
    ensures p == Refused(IndexWithBusOrUnit) <==> r.index != -1 && (r.bus != 0 || r.unit != -1)
    ensures p != Refused(InitFailed)
  {
  }

  /** A request for a unit of a bus is refused if the bus has no such unit or it is taken, and gets that address otherwise. */
  lemma UnitAsked(drives: seq<Drive>, maxDevs: nat, r: Request, p: Placement)
    requires Places(drives, maxDevs, r, p) && r.index == -1 && r.unit != -1
    ensures p == if maxDevs != 0 && r.unit >= maxDevs then Refused(UnitTooBig)
                 else if Drive(r.kind, r.bus, r.unit) in drives then Refused(AddressTaken) else Placed(r.bus, r.unit)
  {
  }

  /** A request by index gets the address of that index, or is refused because it is taken. */
  lemma IndexAsked(drives: seq<Drive>, maxDevs: nat, r: Request, p: Placement)
    requires Places(drives, maxDevs, r, p) && r.index >= 0 && r.bus == 0 && r.unit == -1
    ensures var bus, unit := if maxDevs != 0 then r.index / maxDevs else 0, if maxDevs != 0 then r.index % maxDevs else r.index;
      p == if Drive(r.kind, bus, unit) in drives then Refused(AddressTaken) else Placed(bus, unit)
  {
    IndexToAddress(maxDevs, r.index);
    if maxDevs != 0 {
      assert r.index == maxDevs * (r.index / maxDevs) + r.index % maxDevs;
    }
  }

  /** A request for no particular unit gets a free address of its bus or a later one, with a unit that the bus has. */
  lemma AnyUnit(drives: seq<Drive>, maxDevs: nat, r: Request, p: Placement)
    requires Places(drives, maxDevs, r, p) && r.index == -1 && r.unit == -1
    ensures p.Placed? && p.bus >= r.bus && (maxDevs == 0 ==> p.bus == r.bus) && p.unit >= 0 && (maxDevs != 0 ==> p.unit < maxDevs)
    ensures Drive(r.kind, p.bus, p.unit) !in drives
    ensures forall u :: 0 <= u < p.unit ==> Drive(r.kind, p.bus, u) in drives
    ensures forall b, u :: r.bus <= b < p.bus && 0 <= u < maxDevs ==> Drive(r.kind, b, u) in drives
  {
    forall u | 0 <= u < p.unit ensures Drive(r.kind, p.bus, u) in drives {
      assert Candidate(maxDevs, r.bus, p.bus, u) && Before(p.bus, u, p.bus, p.unit);
    }
    forall b, u | r.bus <= b < p.bus && 0 <= u < maxDevs ensures Drive(r.kind, b, u) in drives {
      assert Candidate(maxDevs, r.bus, b, u) && Before(b, u, p.bus, p.unit);
    }
  }

  /** The index is negative and leaves the remainder -1, which the source takes for a missing unit. */
  predicate LooksMissing(maxDevs: nat, index: int) {
    maxDevs != 0 && index < 0 && -index % maxDevs == 1
  }

  lemma UnitLooksMissing(maxDevs: nat, index: int)
    requires index != -1
    ensures IndexToUnit(maxDevs, index) == -1 <==> LooksMissing(maxDevs, index)
  {
    if maxDevs != 0 {
      if index >= 0 {
        assert index == maxDevs * (index / maxDevs) + index % maxDevs;
      } else {
        assert -index == maxDevs * (-index / maxDevs) + -index % maxDevs;
        assert Rem(index, maxDevs) == -(-index % maxDevs);
      }
    }
  }

  /** A drive placed by an index is the one that the index finds afterwards, if and only if its unit does not look missing. */
  lemma PlacedByIndex(drives: seq<Drive>, maxDevs: nat, r: Request, p: Placement)
    requires r.index != -1 && Places(drives, maxDevs, r, p) && p.Placed?
    ensures (p.bus == IndexToBus(maxDevs, r.index) && p.unit == IndexToUnit(maxDevs, r.index)) <==> !LooksMissing(maxDevs, r.index)
    ensures r.index >= 0 ==> AddressToIndex(maxDevs, p.bus, p.unit) == r.index
  {
    UnitLooksMissing(maxDevs, r.index);
    if r.index >= 0 {
      IndexToAddress(maxDevs, r.index);
    }
  }

  /** Index -3 with two units to a bus: the drive is not put where the index points. */
  lemma IndexMinusThree(drives: seq<Drive>, p: Placement)
    requires Places(drives, 2, Request(IDE, 0, -1, -3), p)
    ensures p.Placed? && p.unit >= 0 && IndexToUnit(2, -3) == -1
  {
    UnitLooksMissing(2, -3);
  }

  class Table {
    var maxDevs: seq<nat>
    var drives: seq<Drive>

    /** No two drives share an address, and no unit exceeds what its bus can hold. */
    ghost predicate Valid()
      reads this
    {
      && |maxDevs| == IF_COUNT
      && NoDup(drives)
      && (forall d :: d in drives && maxDevs[d.kind] != 0 ==> d.unit < maxDevs[d.kind])
    }

    constructor ()
      ensures Valid() && drives == []
      ensures maxDevs == seq(IF_COUNT, k => if k == IDE then 2 else if k == SCSI then 7 else 0)
    {
      maxDevs := [0, 2, 7, 0, 0, 0, 0, 0, 0];
      drives := [];
    }

    /** override_max_devs (blockdev.c:111-133); false where the source aborts. */
    method OverrideMaxDevs(kind: Interface, n: int) returns (ok: bool)
      requires Valid()
      modifies this`maxDevs
      ensures Valid()
      ensures ok <==> n <= 0 || forall d :: d in drives ==> d.kind != kind
      ensures maxDevs == if ok && n > 0 then old(maxDevs)[kind := n] else old(maxDevs)
    {
      if n <= 0 {
        return true;
      }
      for i := 0 to |drives|
        invariant forall j :: 0 <= j < i ==> drives[j].kind != kind
      {
        if drives[i].kind == kind {
          return false;
        }
      }
      maxDevs := maxDevs[kind := n];
      ok := true;
    }

    /** drive_get (blockdev.c:212-228). */
    method Get(kind: Interface, bus: int, unit: int) returns (r: Option<nat>)
      ensures r.Some? <==> Taken(drives, kind, bus, unit)
      ensures r.Some? ==> r.value < |drives| && drives[r.value] == Drive(kind, bus, unit)
    {
      for i := 0 to |drives|
        invariant forall j :: 0 <= j < i ==> drives[j] != Drive(kind, bus, unit)
      {
        if drives[i].kind == kind && drives[i].bus == bus && drives[i].unit == unit {
          return Some(i);
        }
      }
      r := None;
    }

    /** drive_get_by_index (blockdev.c:274-280). */
    method GetByIndex(kind: Interface, index: int) returns (r: Option<nat>)
      requires Valid()
      ensures r.Some? ==> r.value < |drives| && drives[r.value] == Drive(kind, IndexToBus(maxDevs[kind], index), IndexToUnit(maxDevs[kind], index))
      ensures r.None? ==> Drive(kind, IndexToBus(maxDevs[kind], index), IndexToUnit(maxDevs[kind], index)) !in drives
      ensures index >= 0 && r.Some? ==>
        AddressToIndex(maxDevs[kind], drives[r.value].bus, drives[r.value].unit) == index
      ensures index >= 0 && r.None? ==> forall d :: d in drives && d.kind == kind && Indexable(maxDevs[kind], d.bus, d.unit) ==>
        AddressToIndex(maxDevs[kind], d.bus, d.unit) != index
    {
      var n := maxDevs[kind];
      r := Get(kind, IndexToBus(n, index), IndexToUnit(n, index));
      if index >= 0 {
        IndexToAddress(n, index);
        forall d | d in drives && d.kind == kind && Indexable(n, d.bus, d.unit) && AddressToIndex(n, d.bus, d.unit) == index
          ensures r.Some?
        {
          AddressRoundTrip(n, d.bus, d.unit);
        }
      }
    }

    /** The drives of a kind at or after an address. */
    ghost function Ahead(kind: Interface, bus: int, unit: int): set<Drive>
      reads this
    {
      set d | d in drives && d.kind == kind && !Before(d.bus, d.unit, bus, unit)
    }

    /** The slot search of drive_new (blockdev.c:907-916). */
    method Search(kind: Interface, start: int) returns (bus: int, unit: int)
      requires Valid()
      ensures FirstFree(drives, kind, maxDevs[kind], start, bus, unit)
    {
      var n := maxDevs[kind];
      bus, unit := start, 0;
      var d := Get(kind, bus, unit);
      while d.Some?
        invariant Candidate(n, start, bus, unit)
        invariant forall b, u :: Candidate(n, start, b, u) && Before(b, u, bus, unit) ==> Taken(drives, kind, b, u)
        invariant d.Some? <==> Taken(drives, kind, bus, unit)
        decreases Ahead(kind, bus, unit)
      {
        ghost var b0, u0 := bus, unit;
        unit := unit + 1;
        if n != 0 && unit >= n {
          unit := unit - n;
          bus := bus + 1;
        }
        assert Drive(kind, b0, u0) in Ahead(kind, b0, u0) - Ahead(kind, bus, unit);
        d := Get(kind, bus, unit);
      }
    }

    /** drive_new (blockdev.c:892-927, 980-995); `initOk` is the outcome of blockdev_init. */
    method New(r: Request, initOk: bool) returns (p: Placement)
      requires Valid()
      modifies this`drives
      ensures Valid()
      ensures p == Refused(InitFailed) ==> !initOk && exists b, u :: Places(old(drives), maxDevs[r.kind], r, Placed(b, u))
      ensures p != Refused(InitFailed) ==> Places(old(drives), maxDevs[r.kind], r, p)
      ensures !initOk ==> p.Refused?
      ensures drives == if p.Placed? then old(drives) + [Drive(r.kind, p.bus, p.unit)] else old(drives)
      ensures p.Placed? ==> !Taken(old(drives), r.kind, p.bus, p.unit)
    {
      var n := maxDevs[r.kind];
      var bus, unit := r.bus, r.unit;
      if r.index != -1 {
        if bus != 0 || unit != -1 {
          return Refused(IndexWithBusOrUnit);
        }
        bus := IndexToBus(n, r.index);
        unit := IndexToUnit(n, r.index);
      }
      if unit == -1 {
        bus, unit := Search(r.kind, bus);
      }
      if n != 0 && unit >= n {
        return Refused(UnitTooBig);
      }
      var d := Get(r.kind, bus, unit);
      if d.Some? {
        return Refused(AddressTaken);
      }
      if !initOk {
        assert Places(drives, n, r, Placed(bus, unit));
        return Refused(InitFailed);
      }
      drives := drives + [Drive(r.kind, bus, unit)];
      p := Placed(bus, unit);
    }
  }
}
