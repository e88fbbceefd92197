/** Four drives behind the drive-control port. */
module FloppyController {
  import opened Bits
  import opened FloppyDrive
  import opened FloppyRun
  import opened FloppyUnit

  /** The first loop's work on a unit: a falling /SEL edge latches the motor line. */
  function Latched(d: Drive, u: nat, prev: Byte, prb: Byte): (r: Drive)
    requires Valid(d) && u < 4
    ensures Valid(r)
  {
    if !Selects(prev, u) && Selects(prb, u) then d.(motor := !prb[7]) else d
  }

  /** The second loop's: a falling /STEP edge moves the head of a selected unit. */
  function StepEdge(d: Drive, u: nat, prev: Byte, prb: Byte): (r: Drive)
    requires Valid(d) && u < 4
    ensures Valid(r)
  {
    if Selects(prb, u) && prev[0] && !prb[0] then Stepped(d, !prb[1]) else d
  }

  /** The third loop's: /SIDE picks the head of a selected unit. */
  function Sided(d: Drive, u: nat, prb: Byte): (r: Drive)
    requires Valid(d) && u < 4
    ensures Valid(r)
  {
    if Selects(prb, u) then TurnTo(d, if prb[2] then 0 else 1) else d
  }

  lemma ControlInThree(d: Drive, u: nat, prev: Byte, prb: Byte)
    requires Valid(d) && u < 4
    ensures Control(d, u, prev, prb) == Sided(StepEdge(Latched(d, u, prev, prb), u, prev, prb), u, prb)
  {
  }

  method LatchUnit(unit: Unit, u: nat, prev: Byte, prb: Byte)
    requires unit.Ok() && u < 4
    modifies unit
    ensures unit.View() == Latched(old(unit.View()), u, prev, prb)
  {
    if prev[3 + u] && !prb[3 + u] {
      unit.motor := !prb[7];
    }
  }

  method StepUnit(unit: Unit, u: nat, prev: Byte, prb: Byte)
    requires unit.Ok() && u < 4
    modifies unit, unit.track
    ensures unit.View() == StepEdge(old(unit.View()), u, prev, prb)
  {
    if !prb[3 + u] && prev[0] && !prb[0] {
      unit.StepHead(!prb[1]);
      if unit.loaded {
        unit.chngCleared := true;
      }
    }
  }

  method TurnUnit(unit: Unit, u: nat, prb: Byte)
    requires unit.Ok() && u < 4
    modifies unit, unit.track
    ensures unit.View() == Sided(old(unit.View()), u, prb)
  {
    var side := if prb[2] then 0 else 1;
    if !prb[3 + u] && unit.head != side {
      unit.SeekTo(unit.cyl, side);
    }
  }

  /** Chip RAM after the first `n` drives have each turned once, in unit order. */
  function RamAfter(drives: seq<Drive>, ram: seq<Byte>, n: nat): seq<Byte>
    requires n <= |drives| && forall i :: 0 <= i < |drives| ==> Valid(drives[i])
    decreases n, 0
  {
    if n == 0 then ram else Turning(drives, ram, n - 1).ram
  }

  /** What unit `i` does in a tick of all drives: its own tick, on the RAM the units before it left. */
  function Turning(drives: seq<Drive>, ram: seq<Byte>, i: nat): Outcome
    requires i < |drives| && forall j :: 0 <= j < |drives| ==> Valid(drives[j])
    decreases i, 1
  {
    Tick(drives[i], RamAfter(drives, ram, i))
  }

  /** One of the first `u` units asks for the interrupt. */
  ghost predicate AnyTurn(ds: seq<Drive>, r: seq<Byte>, u: nat)
    requires |ds| == 4 && u <= 4 && forall j :: 0 <= j < 4 ==> Valid(ds[j])
  {
    exists i :: 0 <= i < u && Turning(ds, r, i).blk
  }

  lemma {:induction false} AnyMore(ds: seq<Drive>, r: seq<Byte>, u: nat)
    requires |ds| == 4 && u < 4 && forall j :: 0 <= j < 4 ==> Valid(ds[j])
    ensures AnyTurn(ds, r, u + 1) <==> AnyTurn(ds, r, u) || Turning(ds, r, u).blk
  {
  }

  class Controller {
    const units: seq<Unit>
    var prevPrb: Byte
    var selected: nat
    var selActive: bool

    /** Four different drives, none sharing its track buffer. */
    ghost predicate Ok()
      reads this, units, set u | u in units :: u.track
    {
      |units| == 4 && selected < 4 &&
      (forall i, j :: 0 <= i < j < 4 ==> units[i] != units[j] && units[i].track != units[j].track) &&
      forall i :: 0 <= i < 4 ==> units[i].Ok()
    }

    function Drives(): (ds: seq<Drive>)
      reads this, units, set u | u in units :: u.track
      ensures |ds| == |units|
    {
      seq(|units|, i requires 0 <= i < |units| reads units, set u | u in units :: u.track => units[i].View())
    }

    constructor (us: seq<Unit>)
      requires |us| == 4 && forall i :: 0 <= i < 4 ==> us[i].Ok()
      requires forall i, j :: 0 <= i < j < 4 ==> us[i] != us[j] && us[i].track != us[j].track
      ensures Ok() && units == us
    {
      units, prevPrb, selected, selActive := us, Ones(8), 0, false;
    }

    method LatchAll(prb: Byte)
      requires Ok()
      modifies units
      ensures Ok() && forall i :: 0 <= i < 4 ==> units[i].View() == Latched(old(units[i].View()), i, prevPrb, prb)
    {
      for u := 0 to 4
        invariant Ok()
        invariant forall i :: 0 <= i < 4 ==>
          units[i].View() == if i < u then Latched(old(units[i].View()), i, prevPrb, prb) else old(units[i].View())
      {
        LatchUnit(units[u], u, prevPrb, prb);
      }
    }

    /** Work on one unit leaves the others alone. */
    method StepOne(u: nat, prb: Byte)
      requires Ok() && u < 4
      modifies units[u], units[u].track
      ensures Ok() && forall i :: 0 <= i < 4 && i != u ==> units[i].View() == old(units[i].View())
      ensures units[u].View() == StepEdge(old(units[u].View()), u, prevPrb, prb)
    {
      StepUnit(units[u], u, prevPrb, prb);
    }

    method StepAll(prb: Byte)
      requires Ok()
      modifies units, set u | u in units :: u.track
      ensures Ok() && forall i :: 0 <= i < 4 ==> units[i].View() == StepEdge(old(units[i].View()), i, prevPrb, prb)
    {
      for u := 0 to 4
        invariant Ok()
        invariant forall i :: 0 <= i < 4 ==>
          units[i].View() == if i < u then StepEdge(old(units[i].View()), i, prevPrb, prb) else old(units[i].View())
      {
        StepOne(u, prb);
      }
    }

    method SideOne(u: nat, prb: Byte)
      requires Ok() && u < 4
      modifies units[u], units[u].track
      ensures Ok() && forall i :: 0 <= i < 4 && i != u ==> units[i].View() == old(units[i].View())
      ensures units[u].View() == Sided(old(units[u].View()), u, prb)
    {
      TurnUnit(units[u], u, prb);
    }

    method TurnSides(prb: Byte)
      requires Ok()
      modifies units, set u | u in units :: u.track
      ensures Ok() && forall i :: 0 <= i < 4 ==> units[i].View() == Sided(old(units[i].View()), i, prb)
    {
      for u := 0 to 4
        invariant Ok()
        invariant forall i :: 0 <= i < 4 ==>
          units[i].View() == if i < u then Sided(old(units[i].View()), i, prb) else old(units[i].View())
      {
        SideOne(u, prb);
      }
    }

    /** The lowest selected unit becomes current; with none selected the last one stays. */
    method PickUnit(prb: Byte)
      requires Ok()
      modifies this`selected, this`selActive
      ensures Ok() && selActive == (Select(prb, 0) >= 0)
      ensures selected == if Select(prb, 0) >= 0 then Select(prb, 0) else old(selected)
    {
      selActive := false;
      var u := 0;
      while u < 4
        invariant u <= 4 && Select(prb, 0) == Select(prb, u) && !selActive && selected == old(selected)
      {
        if !prb[3 + u] {
          selected, selActive := u, true;
          break;
        }
        u := u + 1;
      }
    }

    /** A write to the drive-control port: every unit does what it would do alone. */
    method DriveControl(prb: Byte)
      requires Ok()
      modifies this, units, set u | u in units :: u.track
      ensures Ok() && prevPrb == prb && selActive == (Select(prb, 0) >= 0)
      ensures selected == if Select(prb, 0) >= 0 then Select(prb, 0) else old(selected)
      ensures forall i :: 0 <= i < 4 ==> units[i].View() == Control(old(units[i].View()), i, old(prevPrb), prb)
    {
      LatchAll(prb);
      PickUnit(prb);
      StepAll(prb);
      TurnSides(prb);
      forall i | 0 <= i < 4
        ensures units[i].View() == Control(old(units[i].View()), i, old(prevPrb), prb)
      {
        ControlInThree(old(units[i].View()), i, old(prevPrb), prb);
      }
      prevPrb := prb;
    }

    /** The units before `n` have had their turn in a tick that began with `ds` and `r`; the others have not. */
    ghost predicate Turned(ds: seq<Drive>, r: seq<Byte>, n: nat)
      requires |ds| == 4 && n <= 4 && forall j :: 0 <= j < 4 ==> Valid(ds[j])
      reads this, units, set u | u in units :: u.track
    {
      Ok() && forall i :: 0 <= i < 4 ==> units[i].View() == if i < n then Turning(ds, r, i).d else ds[i]
    }

    /** A tick of one unit leaves the others alone. */
    method RunUnit(u: nat, ram: array<Byte>) returns (b: bool)
      requires Ok() && u < 4 && forall i :: 0 <= i < 4 ==> units[i].track != ram
      modifies units[u], units[u].track, ram
      ensures Ok() && forall i :: 0 <= i < 4 && i != u ==> units[i].View() == old(units[i].View())
      ensures Outcome(units[u].View(), ram[..], b) == Tick(old(units[u].View()), old(ram[..]))
    {
      b := units[u].RunTick(ram);
    }

    method TurnOne(u: nat, ram: array<Byte>, blk: bool, ghost ds: seq<Drive>, ghost r: seq<Byte>) returns (b: bool)
      requires u < 4 && |ds| == 4 && forall j :: 0 <= j < 4 ==> Valid(ds[j])
      requires Turned(ds, r, u) && ram[..] == RamAfter(ds, r, u) && forall i :: 0 <= i < 4 ==> units[i].track != ram
      requires blk == AnyTurn(ds, r, u)
      modifies units[u], units[u].track, ram
      ensures Turned(ds, r, u + 1) && ram[..] == RamAfter(ds, r, u + 1) && b == AnyTurn(ds, r, u + 1)
    {
      b := RunUnit(u, ram);
      AnyMore(ds, r, u);
      b := blk || b;
    }

    /** One tick of all drives against one RAM: in unit order, each as if alone. */
    method TickAll(ram: array<Byte>) returns (blk: bool)
      requires Ok() && forall i :: 0 <= i < 4 ==> units[i].track != ram
      modifies units, (set u | u in units :: u.track), ram
      ensures Turned(old(Drives()), old(ram[..]), 4) && ram[..] == RamAfter(old(Drives()), old(ram[..]), 4)
      ensures blk == AnyTurn(old(Drives()), old(ram[..]), 4)
    {
      blk := false;
      ghost var ds, r := Drives(), ram[..];
      for u := 0 to 4
        invariant Turned(ds, r, u) && ram[..] == RamAfter(ds, r, u) && blk == AnyTurn(ds, r, u)
      {
        blk := TurnOne(u, ram, blk, ds, r);
      }
    }
  }
}
