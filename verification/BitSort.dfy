/** The serial bit sorter of bitsort.vhdl: pdepd, pextd and cfuged. */
module BitSort {

  /** 64 bits, bit 0 (the low-order one) first. */
  type Bits = s: seq<bool> | |s| == 64 witness Falses(64)

  function Falses(n: nat): (r: seq<bool>)
    ensures |r| == n && forall k | 0 <= k < n :: !r[k]
  {
    seq(n, _ => false)
  }

  const ZEROS: Bits := Falses(64)

  /** Instruction bits 7-6: `hi` selects the left writer (cfuged), both clear is pdepd. */
  datatype Opc = Opc(hi: bool, lo: bool)

  predicate IsDeposit(o: Opc) { !o.hi && !o.lo }

  datatype Regs = Regs(val: Bits, st: bool, sd: bool, opr: Opc, bc: nat, jl: nat, jr: nat,
                       srMl: Bits, srMr: Bits, srVl: Bits, srVr: Bits)

  predicate Shape(s: Regs) { s.bc < 64 && s.jl < 64 && s.jr < 64 }

  function ShiftLeft(x: Bits): Bits { [false] + x[..63] }
  function ShiftRight(x: Bits): Bits { x[1..] + [false] }

  predicate WritesLeft(s: Regs) { !s.srMl[63] && s.opr.hi }
  predicate WritesRight(s: Regs) { s.srMr[0] }

  function RightPos(s: Regs): nat { if IsDeposit(s.opr) then s.bc else s.jr }

  /** The result register after this step's writes, the right writer's last. */
  function Placed(s: Regs): Bits
    requires Shape(s)
  {
    var left := if WritesLeft(s) then s.val[s.jl := s.srVl[63]] else s.val;
    if WritesRight(s) then left[RightPos(s) := s.srVr[0]] else left
  }

  function Load(rs: Bits, rb: Bits, opc: Opc): Regs {
    Regs(ZEROS, true, false, opc, 0, 63, 0, rb, rb, rs, rs)
  }

  /** One clock edge while st = 1. */
  function Step(s: Regs): (s': Regs)
    requires Shape(s)
    ensures Shape(s')
  {
    Regs(Placed(s), s.bc != 63, s.bc == 63, s.opr, (s.bc + 1) % 64,
         if WritesLeft(s) then (s.jl + 63) % 64 else s.jl,
         if WritesRight(s) then (s.jr + 1) % 64 else s.jr,
         ShiftLeft(s.srMl), ShiftRight(s.srMr), ShiftLeft(s.srVl),
         if !IsDeposit(s.opr) || WritesRight(s) then ShiftRight(s.srVr) else s.srVr)
  }

  /** The registers after one clock edge without reset. */
  function Next(s: Regs, go: bool, rs: Bits, rb: Bits, opc: Opc): (s': Regs)
    requires Shape(s)
    ensures Shape(s')
  {
    if go then Load(rs, rb, opc) else if s.st then Step(s) else s.(sd := false)
  }

  class BitSorter {
    var val: Bits
    var st: bool
    var sd: bool
    var opr: Opc
    var bc: nat
    var jl: nat
    var jr: nat
    var srMl: Bits
    var srMr: Bits
    var srVl: Bits
    var srVr: Bits

    ghost function View(): Regs
      reads this
    {
      Regs(val, st, sd, opr, bc, jl, jr, srMl, srMr, srVl, srVr)
    }

    /** One rising clock edge of bsort_r, reset low. */
    method Clock(go: bool, rs: Bits, rb: Bits, opc: Opc)
      requires Shape(View())
      modifies this
      ensures View() == Next(old(View()), go, rs, rb, opc)
    {
      sd := false;
      if go {
        st, opr, val := true, opc, ZEROS;
        srMl, srMr, srVl, srVr := rb, rb, rs, rs;
        bc, jl, jr := 0, 63, 0;
      } else if st {
        Shift();
      }
    }

    method Place(left: bool, right: bool) returns (moved: Bits)
      requires Shape(View()) && left == WritesLeft(View()) && right == WritesRight(View())
      ensures moved == Placed(View())
    {
      moved := val;
      if left {
        moved := moved[jl := srVl[63]];
      }
      if right {
        if IsDeposit(opr) {
          moved := moved[bc := srVr[0]];
        } else {
          moved := moved[jr := srVr[0]];
        }
      }
    }

    /** The running branch: at most one bit from each end, then all registers shift. */
    method Shift()
      requires Shape(View()) && st && !sd
      modifies this
      ensures View() == Step(old(View()))
    {
      hide Placed, ShiftLeft, ShiftRight;
      var left, right := !srMl[63] && opr.hi, srMr[0];
      val := Place(left, right);
      st, sd, bc := bc != 63, bc == 63, (bc + 1) % 64;
      if left {
        jl := (jl + 63) % 64;
      }
      if right {
        jr := (jr + 1) % 64;
      }
      ShiftRegisters(right);
    }

    method ShiftRegisters(right: bool)
      modifies this`srMl, this`srMr, this`srVl, this`srVr
      ensures srMl == ShiftLeft(old(srMl)) && srMr == ShiftRight(old(srMr)) && srVl == ShiftLeft(old(srVl))
      ensures srVr == if !IsDeposit(opr) || right then ShiftRight(old(srVr)) else old(srVr)
    {
      srVl := ShiftLeft(srVl);
      if !IsDeposit(opr) || right {
        srVr := ShiftRight(srVr);
      }
      srMl, srMr := ShiftLeft(srMl), ShiftRight(srMr);
    }
  }
}
