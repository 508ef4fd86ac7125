/** The restoring divider of divider.vhdl. */
module Divider {
  import opened Wrappers

  const P24: int := 0x100_0000
  const P57: int := 0x200_0000_0000_0000
  const P65: int := 0x2_0000_0000_0000_0000
  const P121: int := 0x200_0000_0000_0000_0000_0000_0000_0000
  const P128: int := 0x1_0000_0000_0000_0000_0000_0000_0000_0000
  const P129: int := 0x2_0000_0000_0000_0000_0000_0000_0000_0000

  datatype Op = Op(dividend: nat, divisor: nat, isExtended: bool, isModulus: bool, is32bit: bool, isSigned: bool,
                   negResult: bool)

  predicate GoodOp(o: Op) { o.dividend < P64 && o.divisor < P64 }

  datatype Regs = Regs(dend: nat, div: nat, quot: nat, running: bool, count: nat, op: Op,
                       overflow: bool, ovf32: bool)

  datatype Out = Out(valid: bool, data: nat, overflow: bool)

  function Bit(v: nat, n: nat): nat
    requires n > 0
  {
    (v / n) % 2
  }

  ghost predicate Shape(s: Regs) {
    s.dend < P129 && s.div < P64 && s.quot < P64 && s.count < 128 && GoodOp(s.op)
  }

  // ----- one running cycle (divider_0) -----

  /** The partial remainder is at least the divisor. */
  predicate Subtracts(dend: nat, div: nat) { dend >= P128 || (dend / P64) % P64 >= div }

  /** Eight quotient bits are known to be zero and at least one cycle is left afterwards. */
  predicate Skips(s: Regs) { s.dend < P57 && !(56 <= s.count < 64) }

  /** `(x - y)` in 64 bits. */
  function Sub64(x: nat, y: nat): nat
    requires x < P64 && y < P64
  {
    if x >= y then x - y else x + P64 - y
  }

  function Step(s: Regs): (s': Regs)
    requires Shape(s)
    ensures Shape(s')
  {
    var t := s.(running := s.running && s.count != 63, overflow := Bit(s.quot, P63) == 1);
    if Subtracts(s.dend, s.div) then
      t.(ovf32 := s.ovf32 || Bit(s.quot, P31) == 1,
         dend := Sub64((s.dend / P64) % P64, s.div) * P65 + (s.dend % P64) * 2,
         quot := (s.quot * 2 + 1) % P64, count := (s.count + 1) % 128)
    else if Skips(s) then
      t.(ovf32 := s.ovf32 || (s.quot % P32) / P24 != 0,
         dend := (s.dend % P121) * 256,
         quot := (s.quot % P56) * 256, count := (s.count + 8) % 128)
    else
      t.(ovf32 := s.ovf32 || Bit(s.quot, P31) == 1,
         dend := (s.dend % P128) * 2,
         quot := (s.quot * 2) % P64, count := (s.count + 1) % 128)
  }

  function Load(o: Op): (s: Regs)
    requires GoodOp(o)
    ensures Shape(s)
  {
    Regs(if o.isExtended then o.dividend * P64 else o.dividend, o.divisor, 0, true, 127, o, false, false)
  }

  /** The registers after one clock edge without reset or flush. */
  function Next(s: Regs, start: bool, o: Op): (s': Regs)
    requires Shape(s) && (start ==> GoodOp(o))
    ensures Shape(s')
  {
    if start then Load(o) else if s.running then Step(s) else s.(count := 0)
  }

  // ----- result formatting (divider_1) -----

  /** The selected magnitude, negated if asked, as 65 bits. */
  function SResult(s: Regs): nat
    requires Shape(s)
  {
    var r := if s.op.isModulus then s.dend / P65 else s.quot;
    if s.op.negResult && r != 0 then P65 - r else r
  }

  predicate DidOvf(s: Regs)
    requires Shape(s)
  {
    var v := SResult(s);
    if !s.op.is32bit then s.overflow || (s.op.isSigned && Bit(v, P64) != Bit(v, P63))
    else if s.op.isSigned then s.ovf32 || Bit(v, P32) != Bit(v, P31)
    else s.ovf32
  }

  function OResult(s: Regs): nat
    requires Shape(s)
  {
    if DidOvf(s) then 0
    else if s.op.is32bit && !s.op.isModulus then SResult(s) % P32
    else SResult(s) % P64
  }

  /** divider_out: the result registers, with valid when the count has reached the end. */
  function NextOut(s: Regs): Out
    requires Shape(s)
  {
    Out(s.count == 64, OResult(s), DidOvf(s))
  }

  class DividerUnit {
    var dend: nat
    var div: nat
    var quot: nat
    var running: bool
    var count: nat
    var op: Op
    var overflow: bool
    var ovf32: bool
    var out: Out

    ghost function View(): Regs
      reads this
    {
      Regs(dend, div, quot, running, count, op, overflow, ovf32)
    }

    /** One rising clock edge; `start` is d_in.valid, reset and flush are low. */
    method Clock(start: bool, o: Op)
      requires Shape(View()) && (start ==> GoodOp(o))
      modifies this
      ensures View() == Next(old(View()), start, o)
      ensures out == NextOut(old(View()))
    {
      out := NextOut(Regs(dend, div, quot, running, count, op, overflow, ovf32));
      if start {
        dend := if o.isExtended then o.dividend * P64 else o.dividend;
        div, quot, op := o.divisor, 0, o;
        count, running, overflow, ovf32 := 127, true, false, false;
      } else if running {
        Iterate();
      } else {
        count := 0;
      }
    }

    /** The running branch: one quotient bit, or eight zero bits at once. */
    method Iterate()
      requires Shape(View()) && running
      modifies this`dend, this`quot, this`running, this`count, this`overflow, this`ovf32
      ensures View() == Step(old(View()))
    {
      var top := (dend / P64) % P64;
      if count == 63 {
        running := false;
      }
      overflow := Bit(quot, P63) == 1;
      if dend >= P128 || top >= div {
        ovf32 := ovf32 || Bit(quot, P31) == 1;
        dend, quot, count := Sub64(top, div) * P65 + (dend % P64) * 2, (quot * 2 + 1) % P64, (count + 1) % 128;
      } else if dend < P57 && !(56 <= count < 64) {
        ovf32 := ovf32 || (quot % P32) / P24 != 0;
        dend, quot, count := (dend % P121) * 256, (quot % P56) * 256, (count + 8) % 128;
      } else {
        ovf32 := ovf32 || Bit(quot, P31) == 1;
        dend, quot, count := (dend % P128) * 2, (quot * 2) % P64, (count + 1) % 128;
      }
    }
  }
}
